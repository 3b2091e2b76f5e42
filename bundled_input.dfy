/**
 * The `as24-autocomplete` input of the bundled build. It renders and moves
 * through its list as the functional input does, and adds the
 * `as24-autocomplete--user-input` class, a cross icon that clears the input,
 * Tab and Escape handling, and the cached tags source.
 */
module BundledInput {
  import opened Basics
  import opened Suggestions
  import opened ListItems
  import FunctionalInput
  import opened CachedTagsDataSource

  /** The fields of the element itself, taken together. */
  datatype BundledState = BundledState(value: string, labelText: string, active: bool, userInput: bool,
                                       jobs: seq<seq<Suggestion>>)

  /**
   * One bundled `as24-autocomplete` element: `value` is the hidden input,
   * `labelText` the text input, `active` and `userInput` the root's classes;
   * `jobs` holds, in order, the results of the fetches whose `renderList`
   * continuation has not run yet. The data source is the element with id
   * `sourceId`, whose markup holds `source`, served through `cache`.
   */
  class AutocompleteElement {
    const sourceId: string
    const source: seq<Child>
    const emptyListMessage: string
    const list: FunctionalInput.ListView
    const cache: ItemsCache
    var value: string
    var labelText: string
    var active: bool
    var userInput: bool
    var jobs: seq<seq<Suggestion>>

    ghost predicate Valid()
      reads this, list
    {
      list.Valid()
    }

    /** The element's own fields, taken together. */
    function State(): BundledState
      reads this
    {
      BundledState(value, labelText, active, userInput, jobs)
    }

    /** What a fetch for `q` resolves to once the cache holds `entries`. */
    function Fetched(entries: map<string, Option<seq<Suggestion>>>, q: string): seq<Suggestion>
    {
      Matching(Filled(entries, sourceId, source), Prefix(q))
    }

    /**
     * `elementAttached()` on markup whose inputs hold `initialValue` and
     * `initialLabel` and whose root carries the active and user-input classes
     * as given: attaching leaves the inputs and the classes as they are.
     */
    constructor (sourceId: string, source: seq<Child>, list: FunctionalInput.ListView, cache: ItemsCache,
                 initialValue: string, initialLabel: string, messageAttr: Option<string>,
                 activeClass: bool, userInputClass: bool)
      requires list.Valid()
      ensures Valid()
      ensures this.sourceId == sourceId && this.source == source && this.list == list && this.cache == cache
      ensures emptyListMessage == EmptyListMessage(messageAttr)
      ensures State() == BundledState(initialValue, initialLabel, activeClass, userInputClass, [])
    {
      this.sourceId := sourceId;
      this.source := source;
      this.list := list;
      this.cache := cache;
      emptyListMessage := EmptyListMessage(messageAttr);
      value := initialValue;
      labelText := initialLabel;
      active := activeClass;
      userInput := userInputClass;
      jobs := [];
    }

    /** `cleanup(valueInput, labelInput, root)`: both inputs emptied and the user-input class removed. */
    method Cleanup()
      modifies this
      ensures State() == old(State()).(value := "", labelText := "", userInput := false)
    {
      value := "";
      labelText := "";
      userInput := false;
    }

    /** `hideList(list, root)()`: removes the active class and hides the list. */
    method HideList()
      requires Valid()
      modifies this, list
      ensures Valid()
      ensures State() == old(State()).(active := false)
      ensures list.Snapshot() == old(list.Snapshot()).(visible := false)
    {
      active := false;
      list.Hide();
    }

    /**
     * `fetchList(...)(e)`: adds the active class and asks the cached source for
     * the label's suggestions, which fills the cache entry if it is empty; the
     * results wait at the back of `jobs`.
     */
    method FetchList()
      modifies this, cache
      ensures cache.entries == old(cache.entries)[sourceId := Some(Filled(old(cache.entries), sourceId, source))]
      ensures State() == old(State()).(active := true, jobs := old(jobs) + [Fetched(old(cache.entries), old(labelText))])
    {
      active := true;
      var items := cache.FetchItems(sourceId, source, labelText);
      jobs := jobs + [items];
    }

    /** Runs the oldest pending `renderList` continuation, with the label as it is now. */
    method RunRender()
      requires Valid() && jobs != []
      modifies this, list
      ensures Valid()
      ensures State() == old(State()).(jobs := old(jobs[1..]))
      ensures list.Snapshot()
           == FunctionalInput.ViewState(FunctionalInput.RenderedRows(old(jobs[0]), labelText, emptyListMessage), 0, -1, true, old(jobs[0]) == [])
    {
      list.RenderList(jobs[0], labelText, emptyListMessage);
      jobs := jobs[1..];
    }

    /** `selectItem(valueInput, labelInput, li, root)` for row `i`: key and text copied, the input marked as user input. */
    method SelectItem(i: nat)
      requires i < |list.rows|
      modifies this
      ensures State() == old(State()).(value := list.rows[i].key, labelText := list.rows[i].text, userInput := true)
    {
      value := list.rows[i].key;
      labelText := list.rows[i].text;
      userInput := true;
    }

    /**
     * `selectItem` on `getSelectedSuggestionItem(list)` followed by
     * `hideList`: with no marked row the item is null and the source throws
     * (`ok` false) before changing anything.
     */
    method SelectMarkedAndHide() returns (ok: bool)
      requires Valid()
      modifies this, list
      ensures Valid()
      ensures list.rows == old(list.rows) && list.selected == old(list.selected)
      ensures ok <==> old(list.selected) != -1
      ensures !ok ==> State() == old(State()) && list.Snapshot() == old(list.Snapshot())
      ensures ok ==>
        && State() == old(State()).(value := list.rows[list.selected].key, labelText := list.rows[list.selected].text,
                                    userInput := true, active := false)
        && list.Snapshot() == old(list.Snapshot()).(visible := false)
    {
      if list.selected == -1 {
        return false;
      }
      SelectItem(list.selected);
      HideList();
      ok := true;
    }

    /**
     * `onItemClicked(...)(e)`, where `hit` is the row enclosing the clicked
     * element: with none the walk up the tree throws (`ok` false); otherwise
     * the row is selected, the input marked as user input and the list hidden.
     */
    method OnItemClicked(hit: Option<nat>) returns (ok: bool)
      requires Valid()
      requires hit.Some? ==> hit.value < |list.rows|
      modifies this, list
      ensures Valid()
      ensures list.rows == old(list.rows)
      ensures ok <==> hit.Some?
      ensures !ok ==> State() == old(State()) && list.Snapshot() == old(list.Snapshot())
      ensures ok ==>
        && State() == old(State()).(value := list.rows[hit.value].key, labelText := list.rows[hit.value].text,
                                    userInput := true, active := false)
        && list.Snapshot() == old(list.Snapshot()).(visible := false)
    {
      if hit.None? {
        return false;
      }
      SelectItem(hit.value);
      userInput := true;
      HideList();
      ok := true;
    }

    /** `onItemMouseOver(list)(e)`. */
    method OnItemMouseOver(target: Option<nat>)
      requires Valid()
      requires target.Some? ==> target.value < |list.rows|
      modifies list
      ensures Valid()
      ensures list.Snapshot() == old(list.Snapshot()).(preselected := if target.Some? then target.value else old(list.preselected))
    {
      list.OnItemMouseOver(target);
    }

    /**
     * `onKeyDown(...)(e)`: only a key pressed in the label input counts. Tab (9)
     * on a visible list selects the marked row and hides the list; up (38) and
     * down (40) move as in the functional input; Escape (27) empties the input
     * and hides the list. `ok` is false when the source throws.
     */
    method OnKeyDown(onLabel: bool, which: int) returns (ok: bool)
      requires Valid()
      modifies this, list
      ensures Valid()
      ensures list.rows == old(list.rows)
      ensures !onLabel || which !in {9, 38, 40, 27} || (which == 9 && !old(list.visible)) ==>
        ok && State() == old(State()) && list.Snapshot() == old(list.Snapshot())
      ensures onLabel && which == 9 && old(list.visible) ==>
        && list.selected == old(list.selected)
        && (ok <==> old(list.selected) != -1)
        && (!ok ==> State() == old(State()) && list.Snapshot() == old(list.Snapshot()))
        && (ok ==>
             && State() == old(State()).(value := list.rows[list.selected].key, labelText := list.rows[list.selected].text,
                                         userInput := true, active := false)
             && list.Snapshot() == old(list.Snapshot()).(visible := false))
      ensures onLabel && which in {38, 40} ==>
        && (ok <==> old(list.selected) != -1 || |list.rows| > 0)
        && State() == old(State())
      ensures onLabel && which == 38 ==>
        list.Snapshot() == old(list.Snapshot()).(selected := MoveTarget(old(list.selected), |list.rows|, -1))
      ensures onLabel && which == 40 ==>
        list.Snapshot() == old(list.Snapshot()).(visible := true, selected := MoveTarget(old(list.selected), |list.rows|, 1))
      ensures onLabel && which == 27 ==>
        && ok
        && State() == old(State()).(value := "", labelText := "", userInput := false, active := false)
        && list.Snapshot() == old(list.Snapshot()).(visible := false)
    {
      ok := true;
      if onLabel {
        if which == 9 {
          if list.IsListVisible() {
            ok := SelectMarkedAndHide();
          }
          return;
        }
        if which == 38 {
          ok := list.MoveSelection(-1);
          return;
        }
        if which == 40 {
          if list.IsListVisible() {
            ok := list.MoveSelection(1);
          } else {
            ok := list.ShowList();
          }
          return;
        }
        if which == 27 {
          Cleanup();
          HideList();
        }
      }
    }

    /**
     * `onKeyUp(...)(e)`: a non-empty label marks the input as user input and an
     * empty one empties the hidden value as well; then Enter (13) or Tab (9) on a
     * visible list selects the marked row and hides the list without fetching,
     * and any key other than up, down and Escape fetches for the label.
     */
    method OnKeyUp(which: int) returns (ok: bool)
      requires Valid()
      modifies this, list, cache
      ensures Valid()
      ensures list.rows == old(list.rows) && list.selected == old(list.selected)
      ensures var picks := old(list.visible) && which in {13, 9};
        var typed := old(State()).(value := if old(labelText) != "" then old(value) else "",
                                   userInput := old(labelText) != "");
        && (picks ==> (ok <==> old(list.selected) != -1) && cache.entries == old(cache.entries))
        && (picks && !ok ==> State() == typed && list.Snapshot() == old(list.Snapshot()))
        && (picks && ok ==>
              && State() == typed.(value := list.rows[list.selected].key, labelText := list.rows[list.selected].text,
                                   userInput := true, active := false)
              && list.Snapshot() == old(list.Snapshot()).(visible := false))
        && (!picks ==> ok && list.Snapshot() == old(list.Snapshot()))
        && (!picks && which !in {38, 40, 27} ==>
              && State() == typed.(active := true, jobs := old(jobs) + [Fetched(old(cache.entries), old(labelText))])
              && cache.entries == old(cache.entries)[sourceId := Some(Filled(old(cache.entries), sourceId, source))])
        && (!picks && which in {38, 40, 27} ==> State() == typed && cache.entries == old(cache.entries))
    {
      ok := true;
      if labelText != "" {
        userInput := true;
      } else {
        Cleanup();
      }
      if list.IsListVisible() && (which == 13 || which == 9) {
        ok := SelectMarkedAndHide();
        return;
      }
      if which !in {38, 40, 27} {
        FetchList();
      }
    }

    /** `handleArrowClick(...)(e)`: hides a visible list, and fetches otherwise (the focus move is not modelled). */
    method HandleArrowClick()
      requires Valid()
      modifies this, list, cache
      ensures Valid()
      ensures old(list.visible) ==>
        && State() == old(State()).(active := false)
        && list.Snapshot() == old(list.Snapshot()).(visible := false)
        && cache.entries == old(cache.entries)
      ensures !old(list.visible) ==>
        && State() == old(State()).(active := true, jobs := old(jobs) + [Fetched(old(cache.entries), old(labelText))])
        && list.Snapshot() == old(list.Snapshot())
        && cache.entries == old(cache.entries)[sourceId := Some(Filled(old(cache.entries), sourceId, source))]
    {
      if list.IsListVisible() {
        HideList();
      } else {
        FetchList();
      }
    }

    /**
     * `handleCrossClick(...)(e)`: always empties the input; a visible list is
     * then refetched for the empty label, which lists every cached item.
     */
    method HandleCrossClick()
      requires Valid()
      modifies this, cache
      ensures old(list.visible) ==>
        && cache.entries == old(cache.entries)[sourceId := Some(Filled(old(cache.entries), sourceId, source))]
        && State() == old(State()).(value := "", labelText := "", userInput := false, active := true,
                                    jobs := old(jobs) + [cache.entries[sourceId].value])
      ensures !old(list.visible) ==>
        && cache.entries == old(cache.entries)
        && State() == old(State()).(value := "", labelText := "", userInput := false)
    {
      Cleanup();
      if list.IsListVisible() {
        FetchList();
        FilterCachedIsPrefixFilter(cache.entries[sourceId].value, "");
      }
    }

    /** A click that reaches the document: `hideList(list, root)`. */
    method OnDocumentClick()
      requires Valid()
      modifies this, list
      ensures Valid()
      ensures State() == old(State()).(active := false)
      ensures list.Snapshot() == old(list.Snapshot()).(visible := false)
    {
      HideList();
    }
  }
}
