/**
 * `as24-plain-suggestions-list`: a flat list of suggestion rows with one
 * keyboard-selected row, one hovered row and a visibility flag.
 */
module PlainList {
  import opened Basics
  import opened Suggestions
  import opened ListItems

  /** `renderEmptyListItem(emptyMessage)`: an unselectable row with key `''`. */
  function RenderEmptyListItem(emptyMessage: string): ListItem
  {
    Placeholder(Some(""), emptyMessage)
  }

  /** The rows `renderItems(query, emptyMessage)(suggestions)` leaves in the list. */
  function Rendered(suggestions: seq<Suggestion>, emptyMessage: string): seq<ListItem>
  {
    if |suggestions| > 0 then MapRender(suggestions) else [RenderEmptyListItem(emptyMessage)]
  }

  /**
   * The rendered rows carry exactly the suggestions, in order; the placeholder
   * is there exactly when there are no suggestions, and it is then the only,
   * unselectable, row with key `''`.
   */
  lemma RenderedRows(suggestions: seq<Suggestion>, emptyMessage: string)
    ensures ChoicesOf(Rendered(suggestions, emptyMessage)) == suggestions
    ensures HasPlaceholder(Rendered(suggestions, emptyMessage)) <==> suggestions == []
    ensures suggestions == [] ==>
      Rendered(suggestions, emptyMessage) == [Placeholder(Some(""), emptyMessage)]
      && !Selectable(Rendered(suggestions, emptyMessage)[0])
    ensures |Rendered(suggestions, emptyMessage)| > 0
  {
    var r := Rendered(suggestions, emptyMessage);
    if suggestions != [] {
      ChoicesOfRendered(suggestions);
      assert forall i :: 0 <= i < |r| ==> r[i].Choice?;
    } else {
      assert r[0].Placeholder?;
    }
  }

  /** The fields of a list, taken together. */
  datatype ListState = ListState(items: seq<ListItem>, selected: int, preselected: int, visible: bool)

  class PlainSuggestionsList {
    /** The `li` rows, in document order. */
    var items: seq<ListItem>
    /** The row carrying `--selected`, or -1 for none. */
    var selected: int
    /** The row carrying `--preselected`, or -1 for none. */
    var preselected: int
    /** The `--visible` class of the list. */
    var visible: bool

    /** Each mark is on at most one row, and that row exists. */
    ghost predicate Valid()
      reads this
    {
      -1 <= selected < |items| && -1 <= preselected < |items|
    }

    /** A list element before anything has been rendered into it. */
    constructor ()
      ensures Valid()
      ensures items == [] && selected == -1 && preselected == -1 && !visible
    {
      items := [];
      selected := -1;
      preselected := -1;
      visible := false;
    }

    /** The list's fields, taken together. */
    function Snapshot(): ListState
      reads this
    {
      ListState(items, selected, preselected, visible)
    }

    /** `isVisible()`. */
    function IsVisible(): bool
      reads this
    {
      visible
    }

    /** `isEmpty()`: the empty-list placeholder is among the rows. */
    function IsEmpty(): bool
      reads this
    {
      HasPlaceholder(items)
    }

    /** `show()`: adds the visible class and touches nothing else. */
    method Show()
      modifies this
      ensures visible
      ensures items == old(items) && selected == old(selected) && preselected == old(preselected)
    {
      visible := true;
    }

    /** `hide()`: removes the visible class and touches nothing else. */
    method Hide()
      modifies this
      ensures !visible
      ensures items == old(items) && selected == old(selected) && preselected == old(preselected)
    {
      visible := false;
    }

    /**
     * `moveSelection(dir)`: marks the sibling step from the current row. With
     * no row marked and no row at all, `nextActiveItem` is null and the source
     * throws before changing anything; `ok` is false exactly then.
     */
    method MoveSelection(dir: int) returns (ok: bool)
      requires Valid()
      modifies this
      ensures Valid()
      ensures items == old(items) && preselected == old(preselected) && visible == old(visible)
      ensures ok <==> old(selected) != -1 || |items| > 0
      ensures selected == MoveTarget(old(selected), |items|, dir)
    {
      if selected == -1 && |items| == 0 {
        return false;
      }
      selected := SiblingStep(selected, |items|, dir);
      ok := true;
    }

    /**
     * `onItemMouseOver(e)`, where `target` is the row the pointer entered when
     * the event's target is one of the `li` rows, and `None` otherwise.
     */
    method OnItemMouseOver(target: Option<nat>)
      requires Valid()
      requires target.Some? ==> target.value < |items|
      modifies this
      ensures Valid()
      ensures items == old(items) && selected == old(selected) && visible == old(visible)
      ensures preselected == if target.Some? then target.value else old(preselected)
    {
      if target.Some? {
        preselected := target.value;
      }
    }

    /**
     * `selectItem()`: when the marked row is selectable, the selection event
     * carrying its key and label is emitted (`picked`) and the list is hidden;
     * otherwise nothing happens.
     */
    method SelectItem() returns (picked: Option<Suggestion>)
      requires Valid()
      modifies this
      ensures Valid()
      ensures items == old(items) && selected == old(selected) && preselected == old(preselected)
      ensures picked.Some? <==> selected != -1 && Selectable(items[selected])
      ensures picked.Some? ==> picked.value == Payload(items[selected]) && !visible
      ensures picked.None? ==> visible == old(visible)
    {
      picked := None;
      if selected != -1 && Selectable(items[selected]) {
        picked := Some(Payload(items[selected]));
        visible := false;
      }
    }

    /**
     * `onClick(e)`, where `hit` is the row enclosing the clicked element, if
     * any: a selectable row hides the list and is emitted; anything else is ignored.
     */
    method OnClick(hit: Option<nat>) returns (picked: Option<Suggestion>)
      requires Valid()
      requires hit.Some? ==> hit.value < |items|
      modifies this
      ensures Valid()
      ensures items == old(items) && selected == old(selected) && preselected == old(preselected)
      ensures picked.Some? <==> hit.Some? && Selectable(items[hit.value])
      ensures picked.Some? ==> picked.value == Payload(items[hit.value]) && !visible
      ensures picked.None? ==> visible == old(visible)
    {
      picked := None;
      if hit.Some? && Selectable(items[hit.value]) {
        visible := false;
        picked := Some(Payload(items[hit.value]));
      }
    }

    /**
     * `renderItems(query, emptyMessage)(suggestions)`: replaces every row (and
     * so every mark) with the rendered rows, then shows the list.
     */
    method RenderItems(emptyMessage: string, suggestions: seq<Suggestion>)
      modifies this
      ensures Valid()
      ensures items == Rendered(suggestions, emptyMessage)
      ensures selected == -1 && preselected == -1 && visible
    {
      items := Rendered(suggestions, emptyMessage);
      selected := -1;
      preselected := -1;
      visible := true;
    }
  }
}
