/**
 * `as24-grouped-items-data-source`: the items of every `<group>` ranked as the
 * plain source ranks them, groups left without a match dropped, and a lookup
 * by key over all items.
 */
module GroupedItemsDataSource {
  import opened Basics
  import opened Text
  import opened Suggestions

  /** A `SuggestionsGroup`: a group's `label` and the suggestions kept from it. */
  datatype SuggestionsGroup = SuggestionsGroup(caption: string, items: seq<Suggestion>)

  /**
   * `valuePredicate(regexp, key)(sugg)`: with a regular expression, whether the
   * value matches it; without one, whether the key is the given key, when a key is given.
   */
  predicate ValuePredicate(regexp: Option<Pattern>, key: Option<string>, sugg: Suggestion)
  {
    if regexp.Some? then Matches(regexp.value, sugg.value)
    else if key.Some? then sugg.key == key.value
    else true
  }

  /** `items.filter(valuePredicate(regexp, key))`. */
  function Select(items: seq<Suggestion>, regexp: Option<Pattern>, key: Option<string>): (r: seq<Suggestion>)
    ensures forall s :: s in r <==> s in items && ValuePredicate(regexp, key, s)
  {
    if items == [] then []
    else
      var rest := Select(items[1..], regexp, key);
      assert forall s :: s in items <==> s == items[0] || s in items[1..];
      if ValuePredicate(regexp, key, items[0]) then [items[0]] + rest else rest
  }

  /**
   * The three cases of the predicate: a regular expression decides alone and the
   * key is ignored; otherwise a key selects by key; otherwise everything is kept.
   */
  lemma {:induction false} SelectCases(items: seq<Suggestion>, regexp: Option<Pattern>, key: Option<string>)
    ensures regexp.Some? ==> Select(items, regexp, key) == Matching(items, regexp.value)
    ensures regexp.None? && key.Some? ==> Select(items, regexp, key) == WithKey(items, key.value)
    ensures regexp.None? && key.None? ==> Select(items, regexp, key) == items
  {
    if items != [] {
      SelectCases(items[1..], regexp, key);
      assert items == [items[0]] + items[1..];
    }
  }

  /** `buildItems(group, queryString, theKey)` over the group's items. */
  function BuildItems(kvs: seq<Suggestion>, queryString: string, theKey: Option<string>): seq<Suggestion>
  {
    var startingWith := Select(kvs, Some(Prefix(queryString)), theKey);
    var theRestContaining := Select(Without(kvs, startingWith), Some(Substring(queryString)), theKey);
    startingWith + theRestContaining
  }

  /**
   * Within a group the items are ranked as the plain source ranks them, whatever
   * the key: prefix matches first, then the other items containing the query,
   * and counting repetitions they are exactly the items containing the query.
   */
  lemma BuildItemsRanked(kvs: seq<Suggestion>, queryString: string, theKey: Option<string>)
    ensures BuildItems(kvs, queryString, theKey) == PrefixFirst(kvs, queryString)
    ensures multiset(BuildItems(kvs, queryString, theKey)) == multiset(Matching(kvs, Substring(queryString)))
  {
    var startingWith := Select(kvs, Some(Prefix(queryString)), theKey);
    SelectCases(kvs, Some(Prefix(queryString)), theKey);
    SelectCases(Without(kvs, startingWith), Some(Substring(queryString)), theKey);
    PrefixFirstPermutation(kvs, queryString);
  }

  /** `buildGroups(queryString, theKey)`: one group per `<group>` whose built items are not empty, in document order. */
  function BuildGroups(children: seq<Child>, queryString: string, theKey: Option<string>): (r: seq<SuggestionsGroup>)
    ensures forall g :: g in r ==> g.items != []
  {
    if children == [] then []
    else
      var rest := BuildGroups(children[1..], queryString, theKey);
      var c := children[0];
      if c.Group? && BuildItems(c.items, queryString, theKey) != [] then
        [SuggestionsGroup(c.caption, BuildItems(c.items, queryString, theKey))] + rest
      else rest
  }

  /** `fetchItems(queryString)`, as the value its promise resolves to. */
  function FetchItems(children: seq<Child>, queryString: string): seq<SuggestionsGroup>
  {
    BuildGroups(children, queryString, None)
  }

  /** Every `<group>` with its caption and its items ranked against the query, empty or not. */
  function Candidates(children: seq<Child>, queryString: string): seq<SuggestionsGroup>
  {
    if children == [] then []
    else
      var c := children[0];
      (if c.Group? then [SuggestionsGroup(c.caption, PrefixFirst(c.items, queryString))] else [])
      + Candidates(children[1..], queryString)
  }

  /**
   * The groups returned are the `<group>` tags, each with its own label and its
   * ranked items, in document order, leaving out exactly those with no match.
   */
  lemma {:induction false} GroupsInOrder(children: seq<Child>, queryString: string, theKey: Option<string>)
    ensures IsSubsequence(BuildGroups(children, queryString, theKey), Candidates(children, queryString))
    ensures forall g :: g in BuildGroups(children, queryString, theKey)
                     <==> g in Candidates(children, queryString) && g.items != []
  {
    if children != [] {
      GroupsInOrder(children[1..], queryString, theKey);
      var r := BuildGroups(children, queryString, theKey);
      var rest := BuildGroups(children[1..], queryString, theKey);
      var cands := Candidates(children[1..], queryString);
      var c := children[0];
      if c.Group? {
        BuildItemsRanked(c.items, queryString, theKey);
        var g := SuggestionsGroup(c.caption, PrefixFirst(c.items, queryString));
        assert Candidates(children, queryString) == [g] + cands;
        SubsequenceReflexive([g]);
        if g.items != [] {
          assert r == [g] + rest;
          SubsequenceConcat([g], [g], rest, cands);
        } else {
          assert r == rest;
          SubsequenceOfLonger(rest, [g], cands);
        }
      } else {
        assert Candidates(children, queryString) == cands;
      }
    }
  }

  /** The items of all `<group>` tags, in document order. */
  function GroupedItems(children: seq<Child>): seq<Suggestion>
  {
    if children == [] then []
    else (if children[0].Group? then children[0].items else []) + GroupedItems(children[1..])
  }

  /** The number of suggestions over a list of groups. */
  function TotalItems(groups: seq<SuggestionsGroup>): nat
  {
    if groups == [] then 0 else |groups[0].items| + TotalItems(groups[1..])
  }

  /** All groups together hold as many items as there are grouped items containing the query. */
  lemma {:induction false} TotalCount(children: seq<Child>, queryString: string, theKey: Option<string>)
    ensures TotalItems(BuildGroups(children, queryString, theKey))
         == |Matching(GroupedItems(children), Substring(queryString))|
  {
    if children != [] {
      TotalCount(children[1..], queryString, theKey);
      var c := children[0];
      var own := if c.Group? then c.items else [];
      MatchingConcat(own, GroupedItems(children[1..]), Substring(queryString));
      if c.Group? {
        BuildItemsRanked(c.items, queryString, theKey);
        PrefixFirstPermutation(c.items, queryString);
      }
    }
  }

  /** The first item the key-only predicate accepts is the first such item in document order. */
  lemma FirstSelected(items: seq<Suggestion>, theKey: Option<string>)
    ensures Select(items, None, theKey) == [] <==> forall s :: s in items ==> !ValuePredicate(None, theKey, s)
    ensures Select(items, None, theKey) != [] ==>
      exists i :: 0 <= i < |items| && items[i] == Select(items, None, theKey)[0] && ValuePredicate(None, theKey, items[i])
        && forall j :: 0 <= j < i ==> !ValuePredicate(None, theKey, items[j])
  {
    SelectCases(items, None, theKey);
    if theKey.Some? {
      FirstWithKey(items, theKey.value);
    } else if items != [] {
      assert items[0] in items;
    }
  }

  /**
   * `getSuggestionByKey(theKey)`: resolves to the first `<item>` anywhere in the
   * source that the key-only predicate accepts, and rejects when there is none.
   */
  function GetSuggestionByKey(children: seq<Child>, theKey: Option<string>): (r: Lookup)
    ensures r.Resolved? ==> r.found.Some?
    ensures r.Rejected? <==> forall s :: s in ExtractKeyValues(children) ==> !ValuePredicate(None, theKey, s)
    ensures r.Resolved? ==>
      var items := ExtractKeyValues(children);
      exists i :: 0 <= i < |items| && items[i] == r.found.value && ValuePredicate(None, theKey, items[i])
        && forall j :: 0 <= j < i ==> !ValuePredicate(None, theKey, items[j])
  {
    var items := ExtractKeyValues(children);
    var item := Select(items, None, theKey);
    FirstSelected(items, theKey);
    if |item| > 0 then Resolved(Some(item[0])) else Rejected
  }
}
