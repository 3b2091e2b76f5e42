/**
 * The rows a suggestions list shows: selectable suggestion rows, group
 * separators and the "empty" placeholder, plus the sibling-wise cursor step
 * the plain list and the functional input share.
 */
module ListItems {
  import opened Basics
  import opened Suggestions

  /**
   * One row of a list: a suggestion (`data-type="selectable"`, with `data-key`
   * and `data-label`), a group separator (`data-type="unselectable"`, a `div`),
   * or the empty-list placeholder (`data-type="unselectable"`, an `li`, with
   * `data-key=""` in the plain list and no key in the grouped one).
   */
  datatype ListItem =
    | Choice(key: string, caption: string)
    | Separator(caption: string)
    | Placeholder(placeholderKey: Option<string>, message: string)

  /** `li.dataset.type === 'selectable'`. */
  predicate Selectable(li: ListItem)
  {
    li.Choice?
  }

  /** `renderItem(query)(item)`: a selectable row carrying the suggestion's key and value. */
  function RenderItem(s: Suggestion): ListItem
  {
    Choice(s.key, s.value)
  }

  /** What a selection event carries: the row's `data-key` and `data-label`. */
  function Payload(li: ListItem): Suggestion
    requires Selectable(li)
  {
    Suggestion(li.key, li.caption)
  }

  /** The suggestions carried by the selectable rows, in list order. */
  function ChoicesOf(items: seq<ListItem>): seq<Suggestion>
  {
    if items == [] then []
    else (if Selectable(items[0]) then [Payload(items[0])] else []) + ChoicesOf(items[1..])
  }

  /** The rows carry no suggestion to pick at all. */
  lemma {:induction false} NoChoicesWithoutSelectable(items: seq<ListItem>)
    ensures ChoicesOf(items) == [] <==> forall i :: 0 <= i < |items| ==> !Selectable(items[i])
  {
    if items != [] {
      NoChoicesWithoutSelectable(items[1..]);
      assert forall i :: 1 <= i < |items| ==> items[i] == items[1..][i - 1];
    }
  }

  /** Reading the suggestions off two runs of rows one after the other. */
  lemma {:induction false} ChoicesOfConcat(a: seq<ListItem>, b: seq<ListItem>)
    ensures ChoicesOf(a + b) == ChoicesOf(a) + ChoicesOf(b)
  {
    if a == [] {
      assert a + b == b;
    } else {
      ChoicesOfConcat(a[1..], b);
      assert (a + b)[1..] == a[1..] + b;
    }
  }

  /** Mapping suggestions to rows and reading the rows back gives the suggestions. */
  lemma {:induction false} ChoicesOfRendered(s: seq<Suggestion>)
    ensures ChoicesOf(MapRender(s)) == s
  {
    if s != [] {
      ChoicesOfRendered(s[1..]);
      assert MapRender(s)[1..] == MapRender(s[1..]);
    }
  }

  /** `suggestions.map(renderItem(query))`. */
  function MapRender(s: seq<Suggestion>): (r: seq<ListItem>)
    ensures |r| == |s|
    ensures forall i :: 0 <= i < |s| ==> r[i] == RenderItem(s[i])
  {
    if s == [] then [] else [RenderItem(s[0])] + MapRender(s[1..])
  }

  /** `$('.as24-autocomplete__list-item--empty', list)` finds an element. */
  predicate HasPlaceholder(items: seq<ListItem>)
  {
    exists i :: 0 <= i < |items| && items[i].Placeholder?
  }

  /**
   * The row that `moveSelection(dir)` marks in a list of `n` rows that are
   * siblings: the first row when none is marked (`cur == -1`), otherwise the
   * next sibling for `dir == 1` and the previous one for any other `dir`,
   * staying on the current row when there is no such sibling.
   */
  function SiblingStep(cur: int, n: nat, dir: int): (r: int)
    requires -1 <= cur < n && 0 < n
    ensures 0 <= r < n
    ensures cur == -1 ==> r == 0
    ensures 0 <= cur && dir != 1 ==> r == if cur > 0 then cur - 1 else 0
  {
    if cur == -1 then 0
    else if dir == 1 then (if cur + 1 < n then cur + 1 else cur)
    else (if cur > 0 then cur - 1 else cur)
  }

  /**
   * The row marked after `moveSelection(dir)` on `n` sibling rows: the sibling
   * step, or the old mark when there is no row to move to.
   */
  function MoveTarget(cur: int, n: nat, dir: int): (r: int)
    requires -1 <= cur < n
    ensures -1 <= r < n
    ensures n > 0 ==> 0 <= r
  {
    if cur != -1 || n > 0 then SiblingStep(cur, n, dir) else cur
  }

  /** Moving down `k` times from row `cur`. */
  function StepsDown(cur: int, n: nat, k: nat): int
    requires -1 <= cur < n && 0 < n
    decreases k
  {
    if k == 0 then cur else StepsDown(SiblingStep(cur, n, 1), n, k - 1)
  }

  /**
   * From a marked row, `k` moves down reach row `cur + k` or stop on the last
   * row; the ends are sticky rather than wrapping around.
   */
  lemma {:induction false} StepsDownReach(cur: int, n: nat, k: nat)
    requires 0 <= cur < n
    ensures StepsDown(cur, n, k) == if cur + k < n then cur + k else n - 1
    decreases k
  {
    if k > 0 {
      StepsDownReach(SiblingStep(cur, n, 1), n, k - 1);
    }
  }

  /**
   * A move down followed by a move up comes back, unless the first move was
   * stuck on the last row. A corollary of `SiblingStep`'s definition, stated
   * for the keyboard round trip.
   */
  lemma DownThenUp(cur: int, n: nat)
    requires 0 <= cur < n
    ensures SiblingStep(SiblingStep(cur, n, 1), n, -1) == if cur == n - 1 then cur - (if cur > 0 then 1 else 0) else cur
  {
  }

  /** `getAttribute('empty-list-message') || '---'`. */
  function EmptyListMessage(attr: Option<string>): (r: string)
    ensures r != ""
    ensures attr.Some? && attr.value != "" ==> r == attr.value
  {
    if attr.Some? && attr.value != "" then attr.value else "---"
  }
}
