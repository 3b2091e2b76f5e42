/**
 * The tags data source of the bundled build: its items are read from the
 * markup once per element id and kept in a module-wide cache until the element
 * is attached or detached again.
 */
module CachedTagsDataSource {
  import opened Basics
  import opened Text
  import opened Suggestions
  import TagsDataSource

  /** `itemsCache[id] || extractKeyValues(root)`: the cached list, or the markup's items when the entry is missing or null. */
  function Filled(entries: map<string, Option<seq<Suggestion>>>, id: string, children: seq<Child>): seq<Suggestion>
  {
    if id in entries && entries[id].Some? then entries[id].value else ExtractKeyValues(children)
  }

  /** `queryString ? items.filter(valuePredicate(queryString)) : items`. */
  function FilterCached(items: seq<Suggestion>, queryString: string): seq<Suggestion>
  {
    if queryString != "" then Matching(items, Prefix(queryString)) else items
  }

  /**
   * Skipping the filter for the empty query changes nothing: the result is
   * always the prefix filter, so it keeps the cached order and holds exactly
   * the cached items that start with the query.
   */
  lemma FilterCachedIsPrefixFilter(items: seq<Suggestion>, queryString: string)
    ensures FilterCached(items, queryString) == Matching(items, Prefix(queryString))
    ensures IsSubsequence(FilterCached(items, queryString), items)
    ensures forall s :: s in FilterCached(items, queryString) <==> s in items && StartsWith(s.value, queryString)
  {
    MatchingEmptyQuery(items);
  }

  /** The module-wide `itemsCache` object: an entry per data-source id, `None` where it was reset to null. */
  class ItemsCache {
    var entries: map<string, Option<seq<Suggestion>>>

    /** The empty object the module starts with. */
    constructor ()
      ensures entries == map[]
    {
      entries := map[];
    }

    /**
     * `fetchItems(queryString)` on the element with id `id` whose markup holds
     * `children`, as the value its promise resolves to: the entry is filled
     * from the markup when missing or null and reused otherwise, and the
     * result filters the entry by prefix. On a fresh entry this is the plain
     * tags source's result.
     */
    method FetchItems(id: string, children: seq<Child>, queryString: string) returns (r: seq<Suggestion>)
      modifies this
      ensures entries == old(entries)[id := Some(Filled(old(entries), id, children))]
      ensures r == Matching(entries[id].value, Prefix(queryString))
      ensures old(id !in entries || entries[id].None?) ==> r == TagsDataSource.FetchItems(children, queryString)
    {
      if id !in entries || entries[id].None? {
        entries := entries[id := Some(ExtractKeyValues(children))];
      }
      r := FilterCached(entries[id].value, queryString);
      FilterCachedIsPrefixFilter(entries[id].value, queryString);
    }

    /** `elementAttached` and `elementDetached`: the element's entry becomes null; other ids keep theirs. */
    method Reset(id: string)
      modifies this
      ensures entries == old(entries)[id := None]
      ensures forall k :: k in old(entries) && k != id ==> k in entries && entries[k] == old(entries)[k]
    {
      entries := entries[id := None];
    }
  }

  /**
   * An entry that is already filled wins over the markup: fetching again with
   * other children leaves the cache as it is and filters the cached items.
   */
  lemma FilledEntryIsReused(entries: map<string, Option<seq<Suggestion>>>, id: string, children: seq<Child>, queryString: string)
    requires id in entries && entries[id].Some?
    ensures entries[id := Some(Filled(entries, id, children))] == entries
    ensures FilterCached(Filled(entries, id, children), queryString) == Matching(entries[id].value, Prefix(queryString))
  {
    FilterCachedIsPrefixFilter(entries[id].value, queryString);
  }

  /**
   * Fetching twice with no reset in between: the second fetch reads the list
   * the first one cached, whatever the markup holds by then; after a reset the
   * markup is read again.
   */
  method FetchTwice(cache: ItemsCache, id: string, before: seq<Child>, after: seq<Child>, q: string)
    returns (first: seq<Suggestion>, second: seq<Suggestion>, third: seq<Suggestion>)
    modifies cache
    ensures old(id !in cache.entries || cache.entries[id].None?) ==>
      && first == TagsDataSource.FetchItems(before, q)
      && second == TagsDataSource.FetchItems(before, q)
      && third == TagsDataSource.FetchItems(after, q)
  {
    first := cache.FetchItems(id, before, q);
    second := cache.FetchItems(id, after, q);
    cache.Reset(id);
    third := cache.FetchItems(id, after, q);
  }
}
