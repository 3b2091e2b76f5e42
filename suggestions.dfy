/**
 * What the data sources are made of: the `<item>` and `<group>` tags inside a
 * data-source element, the suggestions read from them, the two regular
 * expressions built from the user's query, and the filters applied with them.
 */
module Suggestions {
  import opened Basics
  import opened Text

  /** A `{key, value}` pair read from an `<item key=... value=...>` tag. */
  datatype Suggestion = Suggestion(key: string, value: string)

  /** A child of a data-source element: an `<item>` of its own, or a `<group>` of items whose `label` attribute is the caption. */
  datatype Child = Item(item: Suggestion) | Group(caption: string, items: seq<Suggestion>)

  /** The items a child contributes to `querySelectorAll('item')`. */
  function ChildItems(c: Child): seq<Suggestion>
  {
    if c.Item? then [c.item] else c.items
  }

  /** `querySelectorAll('item')` read as key/value pairs: every item, loose or grouped, in document order. */
  function ExtractKeyValues(children: seq<Child>): (r: seq<Suggestion>)
    ensures forall s :: s in r <==> exists c :: c in children && s in ChildItems(c)
  {
    if children == [] then []
    else
      var r := ChildItems(children[0]) + ExtractKeyValues(children[1..]);
      assert forall c :: c in children <==> c == children[0] || c in children[1..];
      r
  }

  /**
   * The items of consecutive children are read one after the other: the
   * markup's `<item>` tags give one pair each, in document order, with no
   * reordering across children.
   */
  lemma {:induction false} ExtractKeyValuesInOrder(x: seq<Child>, y: seq<Child>, c: Child)
    ensures ExtractKeyValues(x + y) == ExtractKeyValues(x) + ExtractKeyValues(y)
    ensures ExtractKeyValues([c]) == ChildItems(c)
    ensures c.Item? ==> ExtractKeyValues([c]) == [c.item]
  {
    if x != [] {
      assert (x + y)[1..] == x[1..] + y;
      ExtractKeyValuesInOrder(x[1..], y, c);
    } else {
      assert x + y == y;
    }
    assert [c][1..] == [];
  }

  /** The two regular expressions built from a query: `^query` and `query`, both case-insensitive. */
  datatype Pattern = Prefix(query: string) | Substring(query: string)

  /** `value.match(regexp) !== null`, the query taken literally. */
  predicate Matches(p: Pattern, value: string)
  {
    match p
    case Prefix(q) => StartsWith(value, q)
    case Substring(q) => Contains(value, q)
  }

  /** `items.filter(valuePredicate(regexp))`: the items whose value matches, in their order. */
  function Matching(items: seq<Suggestion>, p: Pattern): (r: seq<Suggestion>)
    ensures forall s :: s in r <==> s in items && Matches(p, s.value)
    ensures IsSubsequence(r, items)
    ensures forall s :: multiset(r)[s] == if Matches(p, s.value) then multiset(items)[s] else 0
  {
    if items == [] then []
    else
      var rest := Matching(items[1..], p);
      assert forall s :: s in items <==> s == items[0] || s in items[1..];
      assert items == [items[0]] + items[1..];
      if Matches(p, items[0].value) then
        assert ([items[0]] + rest)[1..] == rest;
        [items[0]] + rest
      else rest
  }

  /** The items whose value does not match, in their order. */
  function Rejecting(items: seq<Suggestion>, p: Pattern): (r: seq<Suggestion>)
    ensures forall s :: s in r <==> s in items && !Matches(p, s.value)
    ensures IsSubsequence(r, items)
    ensures forall s :: multiset(r)[s] == if Matches(p, s.value) then 0 else multiset(items)[s]
  {
    if items == [] then []
    else
      var rest := Rejecting(items[1..], p);
      assert forall s :: s in items <==> s == items[0] || s in items[1..];
      assert items == [items[0]] + items[1..];
      if Matches(p, items[0].value) then rest
      else
        assert ([items[0]] + rest)[1..] == rest;
        [items[0]] + rest
  }

  /**
   * `items.filter(x => excluded.indexOf(x) === -1)`. The source compares objects
   * by identity; comparing pairs by value gives the same result wherever it is
   * used, because `excluded` is always a filter of `items` by the value alone.
   */
  function Without(items: seq<Suggestion>, excluded: seq<Suggestion>): (r: seq<Suggestion>)
    ensures forall s :: s in r <==> s in items && s !in excluded
  {
    if items == [] then []
    else
      var rest := Without(items[1..], excluded);
      assert forall s :: s in items <==> s == items[0] || s in items[1..];
      if items[0] in excluded then rest else [items[0]] + rest
  }

  /** `items.filter(item => item.key === key)`. */
  function WithKey(items: seq<Suggestion>, key: string): (r: seq<Suggestion>)
    ensures forall s :: s in r <==> s in items && s.key == key
  {
    if items == [] then []
    else
      var rest := WithKey(items[1..], key);
      assert forall s :: s in items <==> s == items[0] || s in items[1..];
      if items[0].key == key then [items[0]] + rest else rest
  }

  /** How the promise returned by `getSuggestionByKey` settles: resolved (possibly with `undefined`) or rejected. */
  datatype Lookup = Resolved(found: Option<Suggestion>) | Rejected

  /** The first entry of `WithKey` is the first item in document order that has the key. */
  lemma {:induction false} FirstWithKey(items: seq<Suggestion>, key: string)
    ensures First(WithKey(items, key)).None? <==> forall s :: s in items ==> s.key != key
    ensures First(WithKey(items, key)).Some? ==>
      exists i :: 0 <= i < |items| && items[i] == First(WithKey(items, key)).value && items[i].key == key
        && forall j :: 0 <= j < i ==> items[j].key != key
  {
    if items != [] {
      FirstWithKey(items[1..], key);
      if items[0].key != key {
        var f := First(WithKey(items, key));
        if f.Some? {
          var i :| 0 <= i < |items[1..]| && items[1..][i] == f.value && items[1..][i].key == key
            && forall j :: 0 <= j < i ==> items[1..][j].key != key;
          assert items[i + 1] == f.value;
          forall j | 0 <= j < i + 1 ensures items[j].key != key {
            if j > 0 {
              assert items[j] == items[1..][j - 1];
            }
          }
        }
      }
    }
  }

  /**
   * The key lookup of the plain and tags sources: rejected for an empty key,
   * else resolved with the first item that has the key, or with `undefined`
   * when no item has it.
   */
  function LookupByKey(items: seq<Suggestion>, keyValue: string): (r: Lookup)
    ensures r.Rejected? <==> keyValue == ""
    ensures r.Resolved? && r.found.None? ==> forall s :: s in items ==> s.key != keyValue
    ensures r.Resolved? && r.found.Some? ==>
      exists i :: 0 <= i < |items| && items[i] == r.found.value && items[i].key == keyValue
        && forall j :: 0 <= j < i ==> items[j].key != keyValue
  {
    if keyValue != "" then
      FirstWithKey(items, keyValue);
      Resolved(First(WithKey(items, keyValue)))
    else
      Rejected
  }

  /** Filtering distributes over the concatenation of two lists of items. */
  lemma {:induction false} MatchingConcat(a: seq<Suggestion>, b: seq<Suggestion>, p: Pattern)
    ensures Matching(a + b, p) == Matching(a, p) + Matching(b, p)
  {
    if a == [] {
      assert a + b == b;
    } else {
      assert (a + b)[0] == a[0];
      assert (a + b)[1..] == a[1..] + b;
      MatchingConcat(a[1..], b, p);
    }
  }

  /** With the empty query both regular expressions match everything, so filtering keeps every item. */
  lemma {:induction false} MatchingEmptyQuery(items: seq<Suggestion>)
    ensures Matching(items, Prefix("")) == items
    ensures Matching(items, Substring("")) == items
    ensures Rejecting(items, Prefix("")) == []
  {
    if items != [] {
      EmptyQueryMatches(items[0].value);
      MatchingEmptyQuery(items[1..]);
    }
  }

  /** Taking out the prefix matches by membership leaves the items that do not start with the query. */
  lemma {:induction false} WithoutPrefixMatches(items: seq<Suggestion>, excluded: seq<Suggestion>, q: string)
    requires forall s :: s in items ==> (s in excluded <==> StartsWith(s.value, q))
    ensures Without(items, excluded) == Rejecting(items, Prefix(q))
  {
    if items != [] {
      WithoutPrefixMatches(items[1..], excluded, q);
    }
  }

  /**
   * The prefix matches and the remaining substring matches are, together and
   * counting repetitions, exactly the substring matches.
   */
  lemma {:induction false} PrefixThenRestCount(items: seq<Suggestion>, q: string)
    ensures multiset(Matching(items, Prefix(q))) + multiset(Matching(Rejecting(items, Prefix(q)), Substring(q)))
         == multiset(Matching(items, Substring(q)))
  {
    if items != [] {
      PrefixThenRestCount(items[1..], q);
      if StartsWith(items[0].value, q) {
        StartsWithContains(items[0].value, q);
      }
    }
  }

  /**
   * The ranking both the plain and the grouped sources apply: the items whose
   * value starts with the query, then the other items whose value contains it.
   */
  function PrefixFirst(items: seq<Suggestion>, q: string): seq<Suggestion>
  {
    var startingWith := Matching(items, Prefix(q));
    startingWith + Matching(Without(items, startingWith), Substring(q))
  }

  /** The ranking splits into a prefix part and a contains-only part, each in document order. */
  lemma PrefixFirstOrder(items: seq<Suggestion>, q: string)
    ensures var r := PrefixFirst(items, q);
      var n := |Matching(items, Prefix(q))|;
      n <= |r|
      && IsSubsequence(r[..n], items) && IsSubsequence(r[n..], items)
      && (forall i :: 0 <= i < n ==> StartsWith(r[i].value, q))
      && (forall i :: n <= i < |r| ==> !StartsWith(r[i].value, q) && Contains(r[i].value, q))
  {
    var startingWith := Matching(items, Prefix(q));
    WithoutPrefixMatches(items, startingWith, q);
    var r := PrefixFirst(items, q);
    var n := |startingWith|;
    assert r[..n] == startingWith;
    assert r[n..] == Matching(Rejecting(items, Prefix(q)), Substring(q));
    SubsequenceTransitive(r[n..], Rejecting(items, Prefix(q)), items);
    forall i | n <= i < |r|
      ensures !StartsWith(r[i].value, q) && Contains(r[i].value, q)
    {
      assert r[i] in r[n..];
    }
    forall i | 0 <= i < n ensures StartsWith(r[i].value, q) {
      assert r[i] in startingWith;
    }
  }

  /** Counting repetitions, the ranking holds exactly the items whose value contains the query. */
  lemma PrefixFirstPermutation(items: seq<Suggestion>, q: string)
    ensures multiset(PrefixFirst(items, q)) == multiset(Matching(items, Substring(q)))
    ensures |PrefixFirst(items, q)| == |Matching(items, Substring(q))|
  {
    WithoutPrefixMatches(items, Matching(items, Prefix(q)), q);
    PrefixThenRestCount(items, q);
    assert |multiset(PrefixFirst(items, q))| == |multiset(Matching(items, Substring(q)))|;
  }

  /** The empty query ranks every item, in document order. */
  lemma PrefixFirstEmptyQuery(items: seq<Suggestion>)
    ensures PrefixFirst(items, "") == items
  {
    MatchingEmptyQuery(items);
    WithoutPrefixMatches(items, Matching(items, Prefix("")), "");
  }
}
