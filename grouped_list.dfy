/**
 * `as24-grouped-suggestions-list`: suggestion rows under group separators; the
 * keyboard cursor moves over the selectable rows only, clamped at both ends.
 */
module GroupedList {
  import opened Basics
  import opened Suggestions
  import opened ListItems
  import opened GroupedItemsDataSource

  /** The positions of the selectable rows, in document order. */
  function SelectableIndices(items: seq<ListItem>): (r: seq<nat>)
    ensures forall k :: 0 <= k < |r| ==> r[k] < |items| && Selectable(items[r[k]])
    ensures forall i :: 0 <= i < |items| && Selectable(items[i]) ==> i in r
    ensures forall k, l :: 0 <= k < l < |r| ==> r[k] < r[l]
  {
    if items == [] then []
    else
      var last := |items| - 1;
      var r := SelectableIndices(items[..last]);
      assert forall i :: 0 <= i < last ==> items[..last][i] == items[i];
      if Selectable(items[last]) then r + [last] else r
  }

  /** `allItems.indexOf(x)`: the first position of `x`, or -1. */
  function IndexOf(s: seq<nat>, x: int): (r: int)
    ensures -1 <= r < |s|
    ensures r == -1 <==> x !in s
    ensures r != -1 ==> s[r] == x && forall k :: 0 <= k < r ==> s[k] != x
  {
    if s == [] then -1
    else if s[0] == x then 0
    else
      var r := IndexOf(s[1..], x);
      if r == -1 then -1 else r + 1
  }

  /**
   * `currPos + dir` clamped into `[0, n - 1]` (the upper bound tested first,
   * so that with `n == 0` the position is -1 or 0, neither of them a row).
   */
  function NextPos(currPos: int, dir: int, n: nat): (r: int)
    ensures n > 0 ==> 0 <= r < n
    ensures n > 0 && 0 <= currPos + dir < n ==> r == currPos + dir
    ensures n > 0 && currPos + dir > n - 1 ==> r == n - 1
    ensures n > 0 && currPos + dir < 0 ==> r == 0
    ensures n == 0 ==> r == -1 || r == 0
  {
    if currPos + dir > n - 1 then n - 1
    else if currPos + dir < 0 then 0
    else currPos + dir
  }

  /**
   * With no cursor (`currPos == -1`), a step in either direction lands on the
   * first selectable row: a corollary of `NextPos`'s contract, stated for a
   * list with nothing marked.
   */
  lemma FirstFromNothing(dir: int, n: nat)
    requires n > 0 && (dir == 1 || dir == -1)
    ensures NextPos(-1, dir, n) == 0
  {
  }

  /** One group: a separator with the group's label when asked for, then one row per suggestion. */
  function RenderGroup(g: SuggestionsGroup, withSeparator: bool): seq<ListItem>
  {
    (if withSeparator then [Separator(g.caption)] else []) + MapRender(g.items)
  }

  /** Every group rendered, one after the other. */
  function RenderGroups(groups: seq<SuggestionsGroup>, withSeparator: bool): seq<ListItem>
  {
    if groups == [] then [] else RenderGroup(groups[0], withSeparator) + RenderGroups(groups[1..], withSeparator)
  }

  /** The suggestions of all groups, in order. */
  function AllItems(groups: seq<SuggestionsGroup>): seq<Suggestion>
  {
    if groups == [] then [] else groups[0].items + AllItems(groups[1..])
  }

  /** The separator captions among some rows, in order. */
  function Captions(items: seq<ListItem>): seq<string>
  {
    if items == [] then []
    else (if items[0].Separator? then [items[0].caption] else []) + Captions(items[1..])
  }

  /** The group labels, in order. */
  function Labels(groups: seq<SuggestionsGroup>): seq<string>
  {
    if groups == [] then [] else [groups[0].caption] + Labels(groups[1..])
  }

  /** `renderEmptyListItem(emptyMessage)`: an unselectable row without a key. */
  function RenderEmptyListItem(emptyMessage: string): ListItem
  {
    Placeholder(None, emptyMessage)
  }

  /** The rows `renderItems(query, emptyMessage)(groups)` leaves in the list: every group under its separator. */
  function Rendered(groups: seq<SuggestionsGroup>, emptyMessage: string): seq<ListItem>
  {
    if |groups| > 0 then RenderGroups(groups, true) else [RenderEmptyListItem(emptyMessage)]
  }

  /** The rows the bundled `renderItems` leaves: separators only while the query is empty. */
  function RenderedBundled(groups: seq<SuggestionsGroup>, userQuery: string, emptyMessage: string): seq<ListItem>
  {
    if |groups| > 0 then RenderGroups(groups, |userQuery| == 0) else [RenderEmptyListItem(emptyMessage)]
  }

  lemma {:induction false} CaptionsConcat(a: seq<ListItem>, b: seq<ListItem>)
    ensures Captions(a + b) == Captions(a) + Captions(b)
  {
    if a == [] {
      assert a + b == b;
    } else {
      CaptionsConcat(a[1..], b);
      assert (a + b)[1..] == a[1..] + b;
    }
  }

  lemma {:induction false} NoCaptionsInRenderedItems(s: seq<Suggestion>)
    ensures Captions(MapRender(s)) == []
  {
    if s != [] {
      NoCaptionsInRenderedItems(s[1..]);
      assert MapRender(s)[1..] == MapRender(s[1..]);
    }
  }

  /**
   * The rendered groups carry every suggestion of every group, in order, as
   * selectable rows; with separators there is one per group, carrying its
   * label, in order, and without them there are none.
   */
  lemma {:induction false} GroupRows(groups: seq<SuggestionsGroup>, withSeparator: bool)
    ensures ChoicesOf(RenderGroups(groups, withSeparator)) == AllItems(groups)
    ensures Captions(RenderGroups(groups, withSeparator)) == if withSeparator then Labels(groups) else []
  {
    if groups != [] {
      GroupRows(groups[1..], withSeparator);
      var g := groups[0];
      var sep: seq<ListItem> := if withSeparator then [Separator(g.caption)] else [];
      var rest := RenderGroups(groups[1..], withSeparator);
      ChoicesOfRendered(g.items);
      NoCaptionsInRenderedItems(g.items);
      ChoicesOfConcat(sep, MapRender(g.items));
      ChoicesOfConcat(RenderGroup(g, withSeparator), rest);
      CaptionsConcat(sep, MapRender(g.items));
      CaptionsConcat(RenderGroup(g, withSeparator), rest);
      if withSeparator {
        assert sep[1..] == [];
      }
    }
  }

  /**
   * Groups that are not empty, as the grouped source returns them, always
   * render at least one selectable row; an empty result renders none.
   */
  lemma NonEmptyGroupsSelectable(groups: seq<SuggestionsGroup>, userQuery: string, emptyMessage: string)
    requires forall g :: g in groups ==> g.items != []
    ensures SelectableIndices(Rendered(groups, emptyMessage)) != [] <==> groups != []
    ensures SelectableIndices(RenderedBundled(groups, userQuery, emptyMessage)) != [] <==> groups != []
  {
    if groups != [] {
      GroupRows(groups, true);
      GroupRows(groups, |userQuery| == 0);
      assert groups[0] in groups;
      assert AllItems(groups) != [];
      NoChoicesWithoutSelectable(RenderGroups(groups, true));
      NoChoicesWithoutSelectable(RenderGroups(groups, |userQuery| == 0));
    } else {
      assert !Selectable(Rendered(groups, emptyMessage)[0]);
    }
  }

  class GroupedSuggestionsList {
    /** The rows (`li` suggestions and placeholder, `div` separators), in document order. */
    var items: seq<ListItem>
    /** The row carrying `--selected`, or -1 for none. */
    var selected: int
    /** The row carrying `--preselected`, or -1 for none. */
    var preselected: int
    /** The `--visible` class of the list. */
    var visible: bool

    /** Only a selectable row is ever marked selected, and only an `li` is hovered. */
    ghost predicate Valid()
      reads this
    {
      && -1 <= selected < |items| && (selected != -1 ==> Selectable(items[selected]))
      && -1 <= preselected < |items| && (preselected != -1 ==> !items[preselected].Separator?)
    }

    /** A list element before anything has been rendered into it. */
    constructor ()
      ensures Valid()
      ensures items == [] && selected == -1 && preselected == -1 && !visible
    {
      items := [];
      selected := -1;
      preselected := -1;
      visible := false;
    }

    /** `isVisible()`. */
    function IsVisible(): bool
      reads this
    {
      visible
    }

    /** `isEmpty()` of the bundled list: the empty-list placeholder is among the rows. */
    function IsEmpty(): bool
      reads this
    {
      HasPlaceholder(items)
    }

    /** `currPos`: the cursor's position among the selectable rows, or -1. */
    function CurrPos(): int
      reads this
    {
      if selected == -1 then -1 else IndexOf(SelectableIndices(items), selected)
    }

    /** `show()`. */
    method Show()
      modifies this
      ensures visible
      ensures items == old(items) && selected == old(selected) && preselected == old(preselected)
    {
      visible := true;
    }

    /** `hide()`. */
    method Hide()
      modifies this
      ensures !visible
      ensures items == old(items) && selected == old(selected) && preselected == old(preselected)
    {
      visible := false;
    }

    /**
     * `moveSelection(dir)` as written: the cursor goes to the selectable row at
     * `NextPos(currPos, dir, n)`. With no selectable row, `allItems[nextPos]` is
     * undefined and the source throws; `thrown` is true exactly then, and nothing
     * has changed (no row can have been marked).
     */
    method MoveSelection(dir: int) returns (thrown: bool)
      requires Valid()
      modifies this
      ensures Valid()
      ensures items == old(items) && preselected == old(preselected) && visible == old(visible)
      ensures thrown <==> SelectableIndices(items) == []
      ensures thrown ==> selected == old(selected)
      ensures !thrown ==>
        selected == SelectableIndices(items)[NextPos(old(CurrPos()), dir, |SelectableIndices(items)|)]
    {
      var allItems := SelectableIndices(items);
      var currPos := CurrPos();
      var nextPos := NextPos(currPos, dir, |allItems|);
      if !(0 <= nextPos < |allItems|) {
        return true;
      }
      selected := allItems[nextPos];
      thrown := false;
    }

    /**
     * The bundled `moveSelection(dir)`: the same step, but a row is marked only
     * when it exists, so with no selectable row the cursor is simply cleared.
     */
    method MoveSelectionGuarded(dir: int)
      requires Valid()
      modifies this
      ensures Valid()
      ensures items == old(items) && preselected == old(preselected) && visible == old(visible)
      ensures SelectableIndices(items) == [] ==> selected == -1
      ensures SelectableIndices(items) != [] ==>
        selected == SelectableIndices(items)[NextPos(old(CurrPos()), dir, |SelectableIndices(items)|)]
    {
      var allItems := SelectableIndices(items);
      var currPos := CurrPos();
      var nextPos := NextPos(currPos, dir, |allItems|);
      selected := -1;
      if 0 <= nextPos < |allItems| {
        selected := allItems[nextPos];
      }
    }

    /**
     * `onItemMouseOver(e)`, where `target` is the row the event's target is,
     * if it is a row: only an `li` takes the hover mark, a separator `div` does not.
     */
    method OnItemMouseOver(target: Option<nat>)
      requires Valid()
      requires target.Some? ==> target.value < |items|
      modifies this
      ensures Valid()
      ensures items == old(items) && selected == old(selected) && visible == old(visible)
      ensures preselected == if target.Some? && !items[target.value].Separator? then target.value else old(preselected)
    {
      if target.Some? && !items[target.value].Separator? {
        preselected := target.value;
      }
    }

    /** `selectItem()`: emits and hides only for a marked selectable row. */
    method SelectItem() returns (picked: Option<Suggestion>)
      requires Valid()
      modifies this
      ensures Valid()
      ensures items == old(items) && selected == old(selected) && preselected == old(preselected)
      ensures picked.Some? <==> selected != -1
      ensures picked.Some? ==> picked.value == Payload(items[selected]) && !visible
      ensures picked.None? ==> visible == old(visible)
    {
      picked := None;
      if selected != -1 && Selectable(items[selected]) {
        picked := Some(Payload(items[selected]));
        visible := false;
      }
    }

    /** `onClick(e)`, where `hit` is the row enclosing the clicked element, if any. */
    method OnClick(hit: Option<nat>) returns (picked: Option<Suggestion>)
      requires Valid()
      requires hit.Some? ==> hit.value < |items|
      modifies this
      ensures Valid()
      ensures items == old(items) && selected == old(selected) && preselected == old(preselected)
      ensures picked.Some? <==> hit.Some? && Selectable(items[hit.value])
      ensures picked.Some? ==> picked.value == Payload(items[hit.value]) && !visible
      ensures picked.None? ==> visible == old(visible)
    {
      picked := None;
      if hit.Some? && Selectable(items[hit.value]) {
        visible := false;
        picked := Some(Payload(items[hit.value]));
      }
    }

    /** `renderItems(query, emptyMessage)(groups)`: replaces every row and shows the list. */
    method RenderItems(emptyMessage: string, groups: seq<SuggestionsGroup>)
      modifies this
      ensures Valid()
      ensures items == Rendered(groups, emptyMessage)
      ensures selected == -1 && preselected == -1 && visible
    {
      items := Rendered(groups, emptyMessage);
      selected := -1;
      preselected := -1;
      visible := true;
    }

    /** The bundled `renderItems(query, emptyMessage)(groups)`. */
    method RenderItemsBundled(userQuery: string, emptyMessage: string, groups: seq<SuggestionsGroup>)
      modifies this
      ensures Valid()
      ensures items == RenderedBundled(groups, userQuery, emptyMessage)
      ensures selected == -1 && preselected == -1 && visible
    {
      items := RenderedBundled(groups, userQuery, emptyMessage);
      selected := -1;
      preselected := -1;
      visible := true;
    }

    /**
     * What a fetch continuation does with an empty result: render it, then
     * `moveSelection(1)`. With the source's `moveSelection` this throws.
     */
    method EmptyResultThenMove(emptyMessage: string) returns (thrown: bool)
      modifies this
      ensures thrown
    {
      RenderItems(emptyMessage, []);
      assert !Selectable(items[0]);
      thrown := MoveSelection(1);
    }

    /** The same continuation with the bundled `moveSelection`: it completes and leaves no cursor. */
    method EmptyResultThenMoveGuarded(emptyMessage: string)
      modifies this
      ensures Valid() && visible && selected == -1 && IsEmpty()
    {
      RenderItems(emptyMessage, []);
      assert items[0].Placeholder?;
      MoveSelectionGuarded(1);
    }
  }
}
