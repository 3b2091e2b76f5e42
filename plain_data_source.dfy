/**
 * `as24-plain-data-source`: suggestions whose value starts with the query come
 * first, then those that merely contain it; a lookup by key finds the first item
 * with that key.
 */
module PlainDataSource {
  import opened Basics
  import opened Text
  import opened Suggestions

  /**
   * `fetchItems(queryString)`, as the value its promise resolves to: the prefix
   * matches, then the rest of the items whose value contains the query.
   */
  function FetchItems(children: seq<Child>, queryString: string): seq<Suggestion>
  {
    PrefixFirst(ExtractKeyValues(children), queryString)
  }

  /**
   * The result is the prefix matches followed by the other substring matches;
   * each part keeps document order, the first part starts with the query and
   * the second contains it without starting with it.
   */
  lemma PrefixMatchesFirst(children: seq<Child>, queryString: string)
    ensures var keyVals := ExtractKeyValues(children);
      var r := FetchItems(children, queryString);
      var n := |Matching(keyVals, Prefix(queryString))|;
      n <= |r|
      && IsSubsequence(r[..n], keyVals) && IsSubsequence(r[n..], keyVals)
      && (forall i :: 0 <= i < n ==> StartsWith(r[i].value, queryString))
      && (forall i :: n <= i < |r| ==> !StartsWith(r[i].value, queryString) && Contains(r[i].value, queryString))
  {
    PrefixFirstOrder(ExtractKeyValues(children), queryString);
  }

  /**
   * Counting repetitions, the result holds exactly the items whose value
   * contains the query: nothing is lost and nothing is listed twice.
   */
  lemma ContainingPermutation(children: seq<Child>, queryString: string)
    ensures multiset(FetchItems(children, queryString))
         == multiset(Matching(ExtractKeyValues(children), Substring(queryString)))
  {
    PrefixFirstPermutation(ExtractKeyValues(children), queryString);
  }

  /** An item is suggested exactly when its value contains the query. */
  lemma SuggestedIffContains(children: seq<Child>, queryString: string, s: Suggestion)
    ensures s in FetchItems(children, queryString)
        <==> s in ExtractKeyValues(children) && Contains(s.value, queryString)
  {
    ContainingPermutation(children, queryString);
    assert s in FetchItems(children, queryString)
       <==> s in multiset(FetchItems(children, queryString));
  }

  /** The empty query suggests every item, in document order. */
  lemma EmptyQueryListsAll(children: seq<Child>)
    ensures FetchItems(children, "") == ExtractKeyValues(children)
  {
    PrefixFirstEmptyQuery(ExtractKeyValues(children));
  }

  /** `getSuggestionByKey(keyValue)`, as the way its promise settles. */
  function GetSuggestionByKey(children: seq<Child>, keyValue: string): Lookup
  {
    LookupByKey(ExtractKeyValues(children), keyValue)
  }
}
