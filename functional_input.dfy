/**
 * The functional `as24-autocomplete` input: a text input for the label, a
 * hidden input for the value, and a `ul` list of rows filled from a data
 * source. Handlers are closures over those elements; here the list is a
 * `ListView` object and the inputs and root classes are fields of an
 * `AutocompleteElement`.
 */
module FunctionalInput {
  import opened Basics
  import opened Text
  import opened Suggestions
  import opened ListItems
  import TagsDataSource

  /** A rendered `li`: the key stored on it and the text it shows. */
  datatype Row = Row(key: string, text: string)

  /** `value.replace(new RegExp('^' + q, 'gi'), '')`: the value without a leading occurrence of the query. */
  function StripLeading(value: string, q: string): string
  {
    if StartsWith(value, q) then value[|q|..] else value
  }

  /**
   * `renderLI(searchStr)(item)`: the row's text is the query (in the
   * highlighted part) followed by what is left of the value once a leading
   * occurrence of the query is taken off; with an empty query it is what is left.
   */
  function RenderLI(searchStr: string, item: Suggestion): Row
  {
    var rest := StripLeading(item.value, searchStr);
    Row(item.key, if |searchStr| > 0 then searchStr + rest else rest)
  }

  /** `renderEmptyListItem(emptyMessage)`: a row with key `''` showing the message. */
  function RenderEmptyListItem(emptyMessage: string): Row
  {
    Row("", emptyMessage)
  }

  /** `itemsModel.map(renderLI(searchStr))`. */
  function RenderRows(searchStr: string, items: seq<Suggestion>): (r: seq<Row>)
    ensures |r| == |items|
    ensures forall i :: 0 <= i < |items| ==> r[i] == RenderLI(searchStr, items[i])
  {
    if items == [] then [] else [RenderLI(searchStr, items[0])] + RenderRows(searchStr, items[1..])
  }

  /** The rows `renderList` puts into the list: one per item, or the placeholder alone. */
  function RenderedRows(items: seq<Suggestion>, searchStr: string, emptyMessage: string): seq<Row>
  {
    if |items| > 0 then RenderRows(searchStr, items) else [RenderEmptyListItem(emptyMessage)]
  }

  /**
   * What a row shows for an item: the value itself for an empty query; the
   * value up to case when it starts with the query; the query glued in front of
   * the whole value otherwise. In every case the text starts with the query.
   */
  lemma RenderLIText(searchStr: string, item: Suggestion)
    ensures RenderLI(searchStr, item).key == item.key
    ensures searchStr == "" ==> RenderLI(searchStr, item).text == item.value
    ensures searchStr != "" && StartsWith(item.value, searchStr)
      ==> SameIgnoringCase(RenderLI(searchStr, item).text, item.value)
    ensures searchStr != "" && !StartsWith(item.value, searchStr)
      ==> RenderLI(searchStr, item).text == searchStr + item.value
    ensures StartsWith(RenderLI(searchStr, item).text, searchStr)
  {
    var text := RenderLI(searchStr, item).text;
    if searchStr == "" {
      assert item.value[0..] == item.value;
    } else if StartsWith(item.value, searchStr) {
      assert text == searchStr + item.value[|searchStr|..];
      forall i | 0 <= i < |text| ensures Fold(text[i]) == Fold(item.value[i]) {
        if i >= |searchStr| {
          assert text[i] == item.value[i];
        }
      }
    }
    assert text[..|searchStr|] == searchStr;
  }

  /**
   * The list always gets at least one row: the placeholder with key `''` alone
   * for no items, else one row per item, in order, keyed by the item's key and
   * showing text that starts with the query.
   */
  lemma RenderedRowsShape(items: seq<Suggestion>, searchStr: string, emptyMessage: string)
    ensures var rows := RenderedRows(items, searchStr, emptyMessage);
      |rows| > 0
      && (items == [] ==> rows == [Row("", emptyMessage)])
      && (items != [] ==>
            && |rows| == |items|
            && forall i :: 0 <= i < |items| ==> rows[i].key == items[i].key && StartsWith(rows[i].text, searchStr))
  {
    forall i | 0 <= i < |items| ensures RenderLI(searchStr, items[i]).key == items[i].key
      && StartsWith(RenderLI(searchStr, items[i]).text, searchStr)
    {
      RenderLIText(searchStr, items[i]);
    }
  }

  /**
   * Rendered with the query they were fetched for, the tags source's results
   * show their own values up to case: the query the user typed replaces the
   * matching start of each value.
   */
  lemma TagsRowsShowValues(children: seq<Child>, searchStr: string, emptyMessage: string)
    ensures var items := TagsDataSource.FetchItems(children, searchStr);
      var rows := RenderedRows(items, searchStr, emptyMessage);
      items != [] ==>
        && |rows| == |items|
        && forall i :: 0 <= i < |items| ==> rows[i].key == items[i].key && SameIgnoringCase(rows[i].text, items[i].value)
  {
    var items := TagsDataSource.FetchItems(children, searchStr);
    forall i | 0 <= i < |items|
      ensures RenderLI(searchStr, items[i]).key == items[i].key
        && SameIgnoringCase(RenderLI(searchStr, items[i]).text, items[i].value)
    {
      assert items[i] in items;
      RenderLIText(searchStr, items[i]);
    }
  }

  /** The fields of a list, taken together. */
  datatype ViewState = ViewState(rows: seq<Row>, selected: int, preselected: int, visible: bool, empty: bool)

  /**
   * The `ul.as24-autocomplete__list` element: its rows, the row carrying the
   * `--selected` class and the one carrying `--preselected` (`-1` for none),
   * and the `--visible` and `--empty` classes.
   */
  class ListView {
    var rows: seq<Row>
    var selected: int
    var preselected: int
    var visible: bool
    var empty: bool

    /** Both marks are on existing rows or absent. */
    ghost predicate Valid()
      reads this
    {
      -1 <= selected < |rows| && -1 <= preselected < |rows|
    }

    /** A list element before anything has been rendered into it. */
    constructor ()
      ensures Valid()
      ensures rows == [] && selected == -1 && preselected == -1 && !visible && !empty
    {
      rows := [];
      selected := -1;
      preselected := -1;
      visible := false;
      empty := false;
    }

    /** The list's fields, taken together. */
    function Snapshot(): ViewState
      reads this
    {
      ViewState(rows, selected, preselected, visible, empty)
    }

    /** `isListVisible(list)`. */
    function IsListVisible(): bool
      reads this
    {
      visible
    }

    /**
     * `moveSelection(dir, list)`: marks the sibling step from the current row.
     * With no row marked and no row at all, `nextActiveItem` is null and the
     * source throws before changing anything; `ok` is false exactly then.
     */
    method MoveSelection(dir: int) returns (ok: bool)
      requires Valid()
      modifies this
      ensures Valid()
      ensures rows == old(rows)
      ensures ok <==> old(selected) != -1 || |rows| > 0
      ensures Snapshot() == old(Snapshot()).(selected := MoveTarget(old(selected), |rows|, dir))
    {
      if selected == -1 && |rows| == 0 {
        return false;
      }
      selected := SiblingStep(selected, |rows|, dir);
      ok := true;
    }

    /** `showList(list)`: adds the visible class, then moves the mark down. */
    method ShowList() returns (ok: bool)
      requires Valid()
      modifies this
      ensures Valid()
      ensures rows == old(rows)
      ensures ok <==> old(selected) != -1 || |rows| > 0
      ensures Snapshot() == old(Snapshot()).(visible := true, selected := MoveTarget(old(selected), |rows|, 1))
    {
      visible := true;
      ok := MoveSelection(1);
    }

    /** The list's half of `hideList(list, root)`: removes the visible class. */
    method Hide()
      modifies this
      ensures Snapshot() == old(Snapshot()).(visible := false)
    {
      visible := false;
    }

    /**
     * `onItemMouseOver(list)(e)`, where `target` is the row under the pointer
     * when the event's target is an `li`, and `None` otherwise: the hovered row
     * becomes the only preselected one.
     */
    method OnItemMouseOver(target: Option<nat>)
      requires Valid()
      requires target.Some? ==> target.value < |rows|
      modifies this
      ensures Valid()
      ensures Snapshot() == old(Snapshot()).(preselected := if target.Some? then target.value else old(preselected))
    {
      if target.Some? {
        preselected := target.value;
      }
    }

    /**
     * `renderList(emptyMessage, list, labelInput)(itemsModel)` with the label
     * input holding `searchStr`: every row and mark is replaced, the empty class
     * mirrors the absence of items, and showing the list marks the first row.
     */
    method RenderList(items: seq<Suggestion>, searchStr: string, emptyMessage: string)
      modifies this
      ensures Valid()
      ensures Snapshot() == ViewState(RenderedRows(items, searchStr, emptyMessage), 0, -1, true, items == [])
    {
      rows := RenderedRows(items, searchStr, emptyMessage);
      selected := -1;
      preselected := -1;
      empty := |items| == 0;
      var _ := ShowList();
    }
  }

  /** The fields of the element itself, taken together. */
  datatype ElementState = ElementState(value: string, labelText: string, active: bool, jobs: seq<seq<Suggestion>>)

  /**
   * One `as24-autocomplete` element after `elementAttached`: `value` is the
   * hidden input, `labelText` the text input, `active` the root's
   * `as24-autocomplete--active` class; `jobs` holds, in order, the results of
   * the fetches whose `renderList` continuation has not run yet.
   */
  class AutocompleteElement {
    const source: seq<Child>
    const emptyListMessage: string
    const list: ListView
    var value: string
    var labelText: string
    var active: bool
    var jobs: seq<seq<Suggestion>>

    ghost predicate Valid()
      reads this, list
    {
      list.Valid()
    }

    /** The element's own fields, taken together. */
    function State(): ElementState
      reads this
    {
      ElementState(value, labelText, active, jobs)
    }

    /**
     * `elementAttached()` on markup whose inputs hold `initialValue` and
     * `initialLabel` and whose root carries the active class iff `activeClass`:
     * attaching leaves the inputs and the class as they are.
     */
    constructor (source: seq<Child>, list: ListView, initialValue: string, initialLabel: string, messageAttr: Option<string>,
                 activeClass: bool)
      requires list.Valid()
      ensures Valid()
      ensures this.source == source && this.list == list && emptyListMessage == EmptyListMessage(messageAttr)
      ensures State() == ElementState(initialValue, initialLabel, activeClass, [])
    {
      this.source := source;
      this.list := list;
      emptyListMessage := EmptyListMessage(messageAttr);
      value := initialValue;
      labelText := initialLabel;
      active := activeClass;
      jobs := [];
    }

    /** `hideList(list, root)()`: removes the active class and hides the list. */
    method HideList()
      requires Valid()
      modifies this, list
      ensures Valid()
      ensures State() == old(State()).(active := false)
      ensures list.Snapshot() == old(list.Snapshot()).(visible := false)
    {
      active := false;
      list.Hide();
    }

    /**
     * `fetchList(...)(e)`: adds the active class and asks the data source for
     * the label's suggestions; the results wait at the back of `jobs` until
     * their `renderList` continuation runs.
     */
    method FetchList()
      modifies this
      ensures State() == old(State()).(active := true, jobs := old(jobs) + [TagsDataSource.FetchItems(source, old(labelText))])
    {
      active := true;
      jobs := jobs + [TagsDataSource.FetchItems(source, labelText)];
    }

    /** Runs the oldest pending `renderList` continuation, with the label as it is now. */
    method RunRender()
      requires Valid() && jobs != []
      modifies this, list
      ensures Valid()
      ensures State() == old(State()).(jobs := old(jobs[1..]))
      ensures list.Snapshot() == ViewState(RenderedRows(old(jobs[0]), labelText, emptyListMessage), 0, -1, true, old(jobs[0]) == [])
    {
      list.RenderList(jobs[0], labelText, emptyListMessage);
      jobs := jobs[1..];
    }

    /** `selectItem(valueInput, labelInput, li)` for row `i`: the row's key and text go into the two inputs. */
    method SelectItem(i: nat)
      requires i < |list.rows|
      modifies this
      ensures State() == old(State()).(value := list.rows[i].key, labelText := list.rows[i].text)
    {
      value := list.rows[i].key;
      labelText := list.rows[i].text;
    }

    /**
     * `onItemClicked(...)(e)`, where `hit` is the row enclosing the clicked
     * element. With no enclosing row the walk up the tree reaches `null` and
     * throws (`ok` false) before changing anything; otherwise the row is
     * selected and the list hidden.
     */
    method OnItemClicked(hit: Option<nat>) returns (ok: bool)
      requires Valid()
      requires hit.Some? ==> hit.value < |list.rows|
      modifies this, list
      ensures Valid()
      ensures list.rows == old(list.rows)
      ensures ok <==> hit.Some?
      ensures !ok ==> State() == old(State()) && list.Snapshot() == old(list.Snapshot())
      ensures ok ==>
        && State() == old(State()).(value := list.rows[hit.value].key, labelText := list.rows[hit.value].text, active := false)
        && list.Snapshot() == old(list.Snapshot()).(visible := false)
    {
      if hit.None? {
        return false;
      }
      SelectItem(hit.value);
      HideList();
      ok := true;
    }

    /** `onItemMouseOver(list)(e)`. */
    method OnItemMouseOver(target: Option<nat>)
      requires Valid()
      requires target.Some? ==> target.value < |list.rows|
      modifies list
      ensures Valid()
      ensures list.Snapshot() == old(list.Snapshot()).(preselected := if target.Some? then target.value else old(list.preselected))
    {
      list.OnItemMouseOver(target);
    }

    /**
     * `onKeyDown(...)(e)`: only a key pressed in the label input counts. Up
     * (38) moves the mark up; down (40) moves it down when the list is visible
     * and shows the list otherwise; Escape (27) hides the list. `ok` is false
     * when the move throws for want of a row.
     */
    method OnKeyDown(onLabel: bool, which: int) returns (ok: bool)
      requires Valid()
      modifies this, list
      ensures Valid()
      ensures !onLabel || which !in {38, 40, 27} ==>
        ok && State() == old(State()) && list.Snapshot() == old(list.Snapshot())
      ensures list.rows == old(list.rows)
      ensures onLabel && which in {38, 40} ==>
        && (ok <==> old(list.selected) != -1 || |list.rows| > 0)
        && State() == old(State())
      ensures onLabel && which == 38 ==>
        list.Snapshot() == old(list.Snapshot()).(selected := MoveTarget(old(list.selected), |list.rows|, -1))
      ensures onLabel && which == 40 ==>
        list.Snapshot() == old(list.Snapshot()).(visible := true, selected := MoveTarget(old(list.selected), |list.rows|, 1))
      ensures onLabel && which == 27 ==>
        ok && State() == old(State()).(active := false) && list.Snapshot() == old(list.Snapshot()).(visible := false)
    {
      ok := true;
      if onLabel {
        if which == 38 {
          ok := list.MoveSelection(-1);
          return;
        }
        if which == 40 {
          if list.IsListVisible() {
            ok := list.MoveSelection(1);
          } else {
            ok := list.ShowList();
          }
          return;
        }
        if which == 27 {
          HideList();
        }
      }
    }

    /**
     * `onKeyUp(...)(e)`: Enter (13) selects the marked row and hides the list,
     * throwing (`ok` false) before any change when no row is marked; any key
     * other than up, down and Escape fetches suggestions for the label.
     */
    method OnKeyUp(which: int) returns (ok: bool)
      requires Valid()
      modifies this, list
      ensures Valid()
      ensures list.rows == old(list.rows) && list.selected == old(list.selected)
      ensures which == 13 ==> (ok <==> old(list.selected) != -1)
      ensures which == 13 && !ok ==> State() == old(State()) && list.Snapshot() == old(list.Snapshot())
      ensures which == 13 && ok ==>
        && State() == old(State()).(value := list.rows[list.selected].key, labelText := list.rows[list.selected].text, active := false)
        && list.Snapshot() == old(list.Snapshot()).(visible := false)
      ensures which != 13 ==> ok && list.Snapshot() == old(list.Snapshot())
      ensures which != 13 && which !in {38, 40, 27} ==>
        State() == old(State()).(active := true, jobs := old(jobs) + [TagsDataSource.FetchItems(source, old(labelText))])
      ensures which in {38, 40, 27} ==> State() == old(State())
    {
      ok := true;
      if which == 13 {
        if list.selected == -1 {
          return false;
        }
        SelectItem(list.selected);
        HideList();
        return;
      }
      if which !in {38, 40, 27} {
        FetchList();
      }
    }

    /** `handleArrowClick(...)(e)`: hides a visible list, and fetches otherwise (the focus move is not modelled). */
    method HandleArrowClick()
      requires Valid()
      modifies this, list
      ensures Valid()
      ensures old(list.visible) ==> State() == old(State()).(active := false) && list.Snapshot() == old(list.Snapshot()).(visible := false)
      ensures !old(list.visible) ==>
        && State() == old(State()).(active := true, jobs := old(jobs) + [TagsDataSource.FetchItems(source, old(labelText))])
        && list.Snapshot() == old(list.Snapshot())
    {
      if list.IsListVisible() {
        HideList();
      } else {
        FetchList();
      }
    }

    /** A click that reaches the document: `hideList(list, root)`. */
    method OnDocumentClick()
      requires Valid()
      modifies this, list
      ensures Valid()
      ensures State() == old(State()).(active := false)
      ensures list.Snapshot() == old(list.Snapshot()).(visible := false)
    {
      HideList();
    }

    /**
     * Typing a key, letting the fetch complete and pressing Enter, with nothing
     * else pending: the first suggestion is taken, its key as the value and its
     * text (the value up to case) as the label. With no suggestion at all the
     * placeholder row is taken: the value becomes `''` and the label the empty
     * message.
     */
    method TypeThenEnter(which: int)
      requires Valid() && jobs == []
      requires which !in {13, 38, 40, 27}
      modifies this, list
      ensures Valid()
      ensures var items := TagsDataSource.FetchItems(source, old(labelText));
        && !active && !list.visible && jobs == []
        && (items != [] ==> value == items[0].key && SameIgnoringCase(labelText, items[0].value))
        && (items == [] ==> value == "" && labelText == emptyListMessage)
    {
      var items := TagsDataSource.FetchItems(source, labelText);
      var typed := labelText;
      var ok := OnKeyUp(which);
      RunRender();
      assert list.rows == RenderedRows(items, typed, emptyListMessage);
      TagsRowsShowValues(source, typed, emptyListMessage);
      ok := OnKeyUp(13);
    }
  }
}
