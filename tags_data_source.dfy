/**
 * `as24-tags-data-source`: the items whose value starts with the query, and a
 * lookup by key.
 */
module TagsDataSource {
  import opened Basics
  import opened Text
  import opened Suggestions

  /** `fetchItems(queryString)`, as the value its promise resolves to. */
  function FetchItems(children: seq<Child>, queryString: string): seq<Suggestion>
  {
    Matching(ExtractKeyValues(children), Prefix(queryString))
  }

  /**
   * The result keeps document order and holds exactly the items whose value
   * starts with the query, ignoring case.
   */
  lemma PrefixMatchesOnly(children: seq<Child>, queryString: string)
    ensures IsSubsequence(FetchItems(children, queryString), ExtractKeyValues(children))
    ensures forall s :: s in FetchItems(children, queryString)
                    <==> s in ExtractKeyValues(children) && StartsWith(s.value, queryString)
  {
  }

  /** The empty query returns every item, in document order. */
  lemma EmptyQueryListsAll(children: seq<Child>)
    ensures FetchItems(children, "") == ExtractKeyValues(children)
  {
    MatchingEmptyQuery(ExtractKeyValues(children));
  }

  /** `getSuggestionByKey(keyValue)`, as the way its promise settles. */
  function GetSuggestionByKey(children: seq<Child>, keyValue: string): Lookup
  {
    LookupByKey(ExtractKeyValues(children), keyValue)
  }
}
