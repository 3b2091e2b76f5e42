/**
 * `as24-autocomplete`: the element that wires the text input, the hidden value
 * input, the suggestions list and the data source together. Each handler of an
 * input event is a method; each `.then` callback of a fetch waits in a queue of
 * jobs and runs when the `Run` method for its kind takes it from the front.
 */
module Dispatcher {
  import opened Basics
  import opened Text
  import opened Suggestions
  import opened ListItems
  import PlainDataSource
  import opened PlainList
  import opened UserFacingInput

  /** What a fetch does once the list is rendered: `moveSelection(1)`, and for a query also the value check. */
  datatype After = MoveDown | MoveDownThenCheckValue

  /** The three callbacks chained on a fetch: `renderInput`, `renderItems`, then the `After` step. */
  datatype Stage = InputStage | ListStage | AfterStage

  /** A callback waiting in the microtask queue. */
  datatype Job =
    | FetchStep(query: string, results: seq<Suggestion>, stage: Stage, after: After)
    | InitialValue(found: Option<Suggestion>)

  /** The fields of the element itself, taken together. */
  datatype Own = Own(value: string, isDirty: bool, active: bool, userInput: bool,
                     disabledClass: bool, changes: nat, jobs: seq<Job>)

  /** The flag `onAttributeChanged('disabled', oldVal, newVal)` passes to `setDisabled`. */
  function DisabledFlag(oldVal: Option<string>, newVal: Option<string>): (r: bool)
    ensures r <==> oldVal != newVal && (newVal == Some("true") || newVal == Some("disabled"))
    ensures newVal.None? || newVal == Some("false") ==> !r
  {
    oldVal != newVal && (newVal == Some("true") || newVal == Some("disabled"))
  }

  /**
   * The jobs queued on attachment: with a non-empty hidden value, the key lookup
   * resolves (the key is not empty, so it never rejects) and its callback waits.
   */
  function InitialJobs(source: seq<Child>, value: string): (r: seq<Job>)
    ensures value == "" ==> r == []
    ensures value != "" ==>
      r == [InitialValue(PlainDataSource.GetSuggestionByKey(source, value).found)]
  {
    if value == "" then []
    else
      match PlainDataSource.GetSuggestionByKey(source, value)
      case Resolved(found) => [InitialValue(found)]
      case Rejected => []
  }

  /**
   * The query a fetch is given is `getValue()`, the escaped text; the data
   * source's regular expressions match it literally, so the items found are
   * those for the text as typed. A corollary of `Text.UnescapeEscape`.
   */
  lemma EscapedQueryFindsTyped(source: seq<Child>, typed: string)
    ensures PlainDataSource.FetchItems(source, Unescape(Escape(typed))) == PlainDataSource.FetchItems(source, typed)
  {
    UnescapeEscape(typed);
  }

  class Autocomplete {
    /** The `[role=data-source]` child. */
    const source: seq<Child>
    /** The `as24-autocomplete-input` child. */
    const input: AutocompleteInput
    /** The `[data-role="list"]` child. */
    const list: PlainSuggestionsList
    /** The message of the empty-list placeholder. */
    const emptyListMessage: string
    /** `valueInput.value`: the key of the chosen suggestion. */
    var value: string
    /** Set when the initial lookup fills the input, cleared by `reset`. */
    var isDirty: bool
    /** The `as24-autocomplete--active` class. */
    var active: bool
    /** The `as24-autocomplete--user-input` class. */
    var userInput: bool
    /** The `as24-autocomplete--disabled` class. */
    var disabledClass: bool
    /** How many `change` events the element has fired. */
    var changes: nat
    /** The promise callbacks waiting to run, oldest first. */
    var jobs: seq<Job>

    /**
     * The list is well formed, and a fetch waiting for its last step has already
     * rendered, so the list has at least one row (a suggestion or the placeholder).
     */
    ghost predicate Valid()
      reads this, list
    {
      && list.Valid()
      && (forall j :: j in jobs && j.FetchStep? && j.stage == AfterStage ==> list.items != [])
    }

    /** The element's own fields, taken together. */
    function State(): Own
      reads this
    {
      Own(value, isDirty, active, userInput, disabledClass, changes, jobs)
    }

    /** The suggestion `selectItem()` would emit: the marked row, when it is selectable. */
    function Picked(): (r: Option<Suggestion>)
      reads list
      requires list.Valid()
      ensures r.Some? <==> list.selected != -1 && Selectable(list.items[list.selected])
    {
      if list.selected != -1 && Selectable(list.items[list.selected]) then Some(Payload(list.items[list.selected]))
      else None
    }

    /** The job a fetch for `userQuery` queues: its results are computed when it is called. */
    function NewFetch(userQuery: string, after: After): Job
    {
      FetchStep(userQuery, PlainDataSource.FetchItems(source, Unescape(userQuery)), InputStage, after)
    }

    /** What the `suggestion:selected` handler leaves behind for `s`. */
    twostate predicate Applied(s: Suggestion)
      reads this, input, list
    {
      && State() == old(State()).(value := s.key, active := false, userInput := true, changes := old(changes) + 1)
      && input.Snapshot() == old(input.Snapshot()).(value := s.value, isOpened := false)
      && list.Snapshot() == old(list.Snapshot()).(visible := false)
    }

    /**
     * `attachedCallback()` over the given children and attributes: only
     * `isDirty` is reset; the state classes the markup carries are kept.
     */
    constructor (source: seq<Child>, input: AutocompleteInput, list: PlainSuggestionsList,
                 valueAttr: string, messageAttr: Option<string>,
                 activeClass: bool, userInputClass: bool, disabledClassAttr: bool)
      requires list.Valid()
      ensures Valid()
      ensures this.source == source && this.input == input && this.list == list
      ensures emptyListMessage == EmptyListMessage(messageAttr)
      ensures State() == Own(valueAttr, false, activeClass, userInputClass, disabledClassAttr, 0, InitialJobs(source, valueAttr))
    {
      this.source := source;
      this.input := input;
      this.list := list;
      this.emptyListMessage := EmptyListMessage(messageAttr);
      value := valueAttr;
      isDirty := false;
      active := activeClass;
      userInput := userInputClass;
      disabledClass := disabledClassAttr;
      changes := 0;
      jobs := InitialJobs(source, valueAttr);
    }

    /** `fetchList(userQuery)`: the data source is asked now, its callbacks queued. */
    method FetchList(userQuery: string, after: After)
      requires Valid()
      modifies this
      ensures Valid()
      ensures State() == old(State()).(jobs := old(jobs) + [NewFetch(userQuery, after)])
    {
      jobs := jobs + [NewFetch(userQuery, after)];
    }

    /** `reset()`: empties both inputs, hides the list and drops the flags. */
    method Reset()
      requires Valid()
      modifies this, input, list
      ensures Valid()
      ensures State() == old(State()).(value := "", isDirty := false, active := false, userInput := false)
      ensures input.Snapshot() == old(input.Snapshot()).(value := "")
      ensures list.Snapshot() == old(list.Snapshot()).(visible := false)
    {
      input.SetValue("");
      value := "";
      list.Hide();
      isDirty := false;
      active := false;
      userInput := false;
    }

    /**
     * `suggestion:selected`: the key becomes the value, the label the text; the
     * list closes and `change` fires.
     */
    method OnSuggestionSelected(s: Suggestion)
      requires Valid()
      modifies this, input, list
      ensures Valid()
      ensures Applied(s)
    {
      value := s.key;
      input.SetValue(s.value);
      input.isOpened := false;
      list.Hide();
      active := false;
      userInput := true;
      changes := changes + 1;
    }

    /** `input:trigger-suggestions`: shows the list and fetches for the current text. */
    method OnTriggerSuggestions()
      requires Valid()
      modifies this, list
      ensures Valid()
      ensures State() == old(State()).(active := true, jobs := old(jobs) + [NewFetch(old(input.GetValue()), MoveDown)])
      ensures list.Snapshot() == old(list.Snapshot()).(visible := true)
    {
      if !list.IsVisible() {
        list.Show();
      }
      active := true;
      FetchList(input.GetValue(), MoveDown);
    }

    /**
     * `input:focus-lost`: with some text and a non-empty list, the marked
     * suggestion (if selectable) is chosen; otherwise the list closes.
     */
    method OnFocusLost()
      requires Valid()
      modifies this, input, list
      ensures Valid()
      ensures old(input.GetValue()) != "" && !old(list.IsEmpty()) && old(Picked()).Some? ==> Applied(old(Picked()).value)
      ensures old(input.GetValue()) != "" && !old(list.IsEmpty()) && old(Picked()).None? ==>
        State() == old(State()) && input.Snapshot() == old(input.Snapshot()) && list.Snapshot() == old(list.Snapshot())
      ensures !(old(input.GetValue()) != "" && !old(list.IsEmpty())) ==>
        && State() == old(State()).(active := false)
        && input.Snapshot() == old(input.Snapshot())
        && list.Snapshot() == old(list.Snapshot()).(visible := false)
    {
      if input.GetValue() != "" && !list.IsEmpty() {
        var picked := list.SelectItem();
        if picked.Some? {
          OnSuggestionSelected(picked.value);
        }
      } else {
        list.Hide();
        active := false;
      }
    }

    /**
     * `input:enter`: with the list open, the marked suggestion (if selectable)
     * is chosen and the list closes; otherwise a fetch starts.
     */
    method OnEnter()
      requires Valid()
      modifies this, input, list
      ensures Valid()
      ensures old(list.visible) && old(Picked()).Some? ==> Applied(old(Picked()).value)
      ensures old(list.visible) && old(Picked()).None? ==>
        && State() == old(State()).(active := false)
        && input.Snapshot() == old(input.Snapshot())
        && list.Snapshot() == old(list.Snapshot()).(visible := false)
      ensures !old(list.visible) ==>
        && State() == old(State()).(active := true, jobs := old(jobs) + [NewFetch(old(input.GetValue()), MoveDown)])
        && input.Snapshot() == old(input.Snapshot()) && list.Snapshot() == old(list.Snapshot())
    {
      if list.IsVisible() {
        var picked := list.SelectItem();
        if picked.Some? {
          OnSuggestionSelected(picked.value);
        }
        list.Hide();
        active := false;
      } else {
        FetchList(input.GetValue(), MoveDown);
        active := true;
      }
    }

    /**
     * `input:query`: the flags follow whether there is text, and a fetch starts
     * whose last step also checks the value.
     */
    method OnQuery()
      requires Valid()
      modifies this
      ensures Valid()
      ensures State() == old(State()).(
        userInput := old(input.GetValue()) != "",
        active := old(active) || old(input.GetValue()) != "",
        jobs := old(jobs) + [NewFetch(old(input.GetValue()), MoveDownThenCheckValue)])
    {
      if input.GetValue() != "" {
        userInput := true;
        active := true;
      } else {
        userInput := false;
      }
      FetchList(input.GetValue(), MoveDownThenCheckValue);
    }

    /** `input:cleanup`: the value is cleared, everything is fetched again and `change` fires. */
    method OnCleanup()
      requires Valid()
      modifies this
      ensures Valid()
      ensures State() == old(State()).(userInput := false, active := true, value := "",
        changes := old(changes) + 1, jobs := old(jobs) + [NewFetch("", MoveDown)])
    {
      userInput := false;
      active := true;
      value := "";
      FetchList("", MoveDown);
      changes := changes + 1;
    }

    /** `input:close`: drops both flags and hides the list; nothing else changes. */
    method OnClose()
      requires Valid()
      modifies this, list
      ensures Valid()
      ensures State() == old(State()).(userInput := false, active := false)
      ensures list.Snapshot() == old(list.Snapshot()).(visible := false)
    {
      userInput := false;
      active := false;
      list.Hide();
    }

    /** `input:go-down`: moves the cursor down an open list, or fetches when the list is closed. */
    method OnGoDown()
      requires Valid()
      modifies this, list
      ensures Valid()
      ensures old(list.visible) ==>
        && State() == old(State()).(active := old(active) || old(input.GetValue()) != "")
        && list.Snapshot() == old(list.Snapshot()).(selected := MoveTarget(old(list.selected), |old(list.items)|, 1))
      ensures !old(list.visible) ==>
        && State() == old(State()).(active := old(active) || old(input.GetValue()) != "",
                                    jobs := old(jobs) + [NewFetch(old(input.GetValue()), MoveDown)])
        && list.Snapshot() == old(list.Snapshot())
    {
      if input.GetValue() != "" {
        active := true;
      }
      if list.IsVisible() {
        var _ := list.MoveSelection(1);
      } else {
        FetchList(input.GetValue(), MoveDown);
      }
    }

    /** `input:go-up`: moves the cursor up an open list; nothing else. */
    method OnGoUp()
      requires Valid()
      modifies list
      ensures Valid()
      ensures old(list.visible) ==>
        list.Snapshot() == old(list.Snapshot()).(selected := MoveTarget(old(list.selected), |old(list.items)|, -1))
      ensures !old(list.visible) ==> list.Snapshot() == old(list.Snapshot())
    {
      if list.IsVisible() {
        var _ := list.MoveSelection(-1);
      }
    }

    /**
     * A click on the list, `hit` being the row around the clicked element, if
     * any: a selectable row is chosen; anything else changes nothing.
     */
    method OnListClick(hit: Option<nat>)
      requires Valid()
      requires hit.Some? ==> hit.value < |list.items|
      modifies this, input, list
      ensures Valid()
      ensures hit.Some? && Selectable(old(list.items)[hit.value]) ==> Applied(Payload(old(list.items)[hit.value]))
      ensures !(hit.Some? && Selectable(old(list.items)[hit.value])) ==>
        && State() == old(State())
        && input.Snapshot() == old(input.Snapshot())
        && list.Snapshot() == old(list.Snapshot())
    {
      var picked := list.OnClick(hit);
      if picked.Some? {
        OnSuggestionSelected(picked.value);
      }
    }

    /**
     * A click anywhere in the document, `inside` telling whether it landed in
     * this element. An outside click on an open list chooses the marked
     * suggestion when there is text and the list is not empty, then closes.
     */
    method OnDocumentClick(inside: bool)
      requires Valid()
      modifies this, input, list
      ensures Valid()
      ensures inside || !old(list.visible) ==>
        && State() == old(State())
        && input.Snapshot() == old(input.Snapshot())
        && list.Snapshot() == old(list.Snapshot())
      ensures !inside && old(list.visible) && old(input.GetValue()) != "" && !old(list.IsEmpty()) && old(Picked()).Some? ==>
        Applied(old(Picked()).value)
      ensures !inside && old(list.visible) && !(old(input.GetValue()) != "" && !old(list.IsEmpty()) && old(Picked()).Some?) ==>
        && State() == old(State()).(active := false)
        && input.Snapshot() == old(input.Snapshot()).(isOpened := false)
        && list.Snapshot() == old(list.Snapshot()).(visible := false)
    {
      if inside {
        return;
      }
      if list.IsVisible() {
        if input.GetValue() != "" && !list.IsEmpty() {
          var picked := list.SelectItem();
          if picked.Some? {
            OnSuggestionSelected(picked.value);
          }
        }
        list.Hide();
        input.isOpened := false;
        active := false;
      }
    }

    /**
     * `onAttributeChanged(attrName, oldVal, newVal)`: for `disabled`, the input
     * is disabled exactly per `DisabledFlag`, the class mirrors it, and the list
     * is hidden; any other attribute changes nothing.
     */
    method OnAttributeChanged(attrName: string, oldVal: Option<string>, newVal: Option<string>)
      requires Valid()
      modifies this, input, list
      ensures Valid()
      ensures attrName == "disabled" ==>
        && State() == old(State()).(disabledClass := DisabledFlag(oldVal, newVal))
        && input.Snapshot() == old(input.Snapshot()).(disabled := DisabledFlag(oldVal, newVal))
        && list.Snapshot() == old(list.Snapshot()).(visible := false)
      ensures attrName != "disabled" ==>
        && State() == old(State())
        && input.Snapshot() == old(input.Snapshot())
        && list.Snapshot() == old(list.Snapshot())
    {
      if attrName == "disabled" {
        input.SetDisabled(DisabledFlag(oldVal, newVal));
        disabledClass := input.IsDisabled();
        list.Hide();
      }
    }

    /** The key lookup's callback, first in the queue: a suggestion found fills in its text. */
    method RunInitialValue()
      requires Valid() && jobs != [] && jobs[0].InitialValue?
      modifies this, input
      ensures Valid()
      ensures old(jobs[0]).found.Some? ==>
        && State() == old(State()).(userInput := true, isDirty := true, jobs := old(jobs[1..]))
        && input.Snapshot() == old(input.Snapshot()).(value := old(jobs[0]).found.value.value)
      ensures old(jobs[0]).found.None? ==>
        && State() == old(State()).(jobs := old(jobs[1..]))
        && input.Snapshot() == old(input.Snapshot())
    {
      var found := jobs[0].found;
      jobs := jobs[1..];
      if found.Some? {
        input.SetValue(found.value.value);
        userInput := true;
        isDirty := true;
      }
    }

    /** A fetch's first callback, `renderInput()`: flags an error exactly when nothing was found. */
    method RunInputStage()
      requires Valid() && jobs != [] && jobs[0].FetchStep? && jobs[0].stage == InputStage
      modifies this, input
      ensures Valid()
      ensures State() == old(State()).(jobs := old(jobs[1..]) + [old(jobs[0]).(stage := ListStage)])
      ensures input.Snapshot() == old(input.Snapshot()).(error := |old(jobs[0]).results| == 0)
    {
      var job := jobs[0];
      var _ := input.RenderInput(job.results);
      jobs := jobs[1..] + [job.(stage := ListStage)];
    }

    /** A fetch's second callback, `renderItems(query, emptyListMessage)`: the list shows the results. */
    method RunListStage()
      requires Valid() && jobs != [] && jobs[0].FetchStep? && jobs[0].stage == ListStage
      modifies this, list
      ensures Valid()
      ensures State() == old(State()).(jobs := old(jobs[1..]) + [old(jobs[0]).(stage := AfterStage)])
      ensures list.Snapshot() == ListState(Rendered(old(jobs[0]).results, emptyListMessage), -1, -1, true)
      ensures list.IsEmpty() <==> old(jobs[0]).results == []
    {
      var job := jobs[0];
      list.RenderItems(emptyListMessage, job.results);
      RenderedRows(job.results, emptyListMessage);
      jobs := jobs[1..] + [job.(stage := AfterStage)];
    }

    /**
     * A fetch's last callback: `moveSelection(1)`, which cannot throw since the
     * list has been rendered; after a query, the value is then cleared and
     * `change` fires when there is a value but no text or nothing was found.
     */
    method RunAfterStage()
      requires Valid() && jobs != [] && jobs[0].FetchStep? && jobs[0].stage == AfterStage
      modifies this, list
      ensures Valid()
      ensures list.items == old(list.items) && list.items != []
      ensures list.Snapshot() == old(list.Snapshot()).(selected := SiblingStep(old(list.selected), |list.items|, 1))
      ensures old(jobs[0]).after == MoveDownThenCheckValue && old(value) != ""
              && (old(input.GetValue()) == "" || list.IsEmpty()) ==>
        State() == old(State()).(value := "", changes := old(changes) + 1, jobs := old(jobs[1..]))
      ensures !(old(jobs[0]).after == MoveDownThenCheckValue && old(value) != ""
                && (old(input.GetValue()) == "" || list.IsEmpty())) ==>
        State() == old(State()).(jobs := old(jobs[1..]))
    {
      var job := jobs[0];
      assert job in jobs;
      jobs := jobs[1..];
      var _ := list.MoveSelection(1);
      if job.after == MoveDownThenCheckValue && |value| > 0 && (input.GetValue() == "" || list.IsEmpty()) {
        value := "";
        changes := changes + 1;
      }
    }
  }
}
