/**
 * `as24-autocomplete-input`: the text field the user types into, with its
 * drop-down and cross icons. It keeps the `isOpened` flag and turns keys and
 * clicks into the input events the dispatcher listens to.
 */
module UserFacingInput {
  import opened Text

  /** The `as24-autocomplete:input:*` events. */
  datatype InputEvent = FocusLost | GoDown | GoUp | Enter | Query | Close | Cleanup | TriggerSuggestions

  /** The events `onKeyDown` emits for a key code: Tab loses focus, the arrows move. */
  function KeyDownEvents(which: int): (r: seq<InputEvent>)
    ensures |r| <= 1
    ensures r == [FocusLost] <==> which == 9
    ensures r == [GoDown] <==> which == 40
    ensures r == [GoUp] <==> which == 38
  {
    if which == 9 then [FocusLost]
    else if which == 40 then [GoDown]
    else if which == 38 then [GoUp]
    else []
  }

  /** The fields of the input, taken together. */
  datatype InputState = InputState(value: string, disabled: bool, error: bool, isOpened: bool, isDirty: bool)

  class AutocompleteInput {
    /** The text field's `value`. */
    var value: string
    /** The text field's `disabled` attribute. */
    var disabled: bool
    /** The `error` class of the text field. */
    var error: bool
    /** Whether the drop-down counts as opened. */
    var isOpened: bool
    /** Set on attachment and never read. */
    var isDirty: bool

    /** The input's fields, taken together. */
    function Snapshot(): InputState
      reads this
    {
      InputState(value, disabled, error, isOpened, isDirty)
    }

    /**
     * `attachedCallback()`, on a text field holding `initialValue`: only
     * `isOpened` and `isDirty` are reset; the field's `disabled` attribute and
     * `error` class stay as the markup has them.
     */
    constructor (initialValue: string, initiallyDisabled: bool, initialError: bool)
      ensures value == initialValue && disabled == initiallyDisabled && error == initialError
      ensures !isOpened && !isDirty
    {
      value := initialValue;
      disabled := initiallyDisabled;
      error := initialError;
      isOpened := false;
      isDirty := false;
    }

    /** `setValue(str)`. */
    method SetValue(str: string)
      modifies this
      ensures value == str
      ensures disabled == old(disabled) && error == old(error) && isOpened == old(isOpened) && isDirty == old(isDirty)
    {
      value := str;
    }

    /**
     * `getValue()`: the text with every regular-expression metacharacter and
     * white-space character escaped, so that a regular expression built from it
     * matches the typed text literally.
     */
    function GetValue(): (r: string)
      reads this
      ensures WellEscaped(r) && Unescape(r) == value
      ensures r == "" <==> value == ""
    {
      UnescapeEscape(value);
      EscapeWellEscaped(value);
      Escape(value)
    }

    /** `setDisabled(flag)`: sets or removes the `disabled` attribute. */
    method SetDisabled(flag: bool)
      modifies this
      ensures IsDisabled() == flag
      ensures value == old(value) && error == old(error) && isOpened == old(isOpened) && isDirty == old(isDirty)
    {
      disabled := flag;
    }

    /** `isDisabled()`. */
    function IsDisabled(): bool
      reads this
    {
      disabled
    }

    /** `setError(flag)`. */
    method SetError(flag: bool)
      modifies this
      ensures error == flag
      ensures value == old(value) && disabled == old(disabled) && isOpened == old(isOpened) && isDirty == old(isDirty)
    {
      error := flag;
    }

    /** `renderInput()(suggestions)`: flags an error exactly when nothing was found, and passes the suggestions on. */
    method RenderInput<T>(suggestions: seq<T>) returns (r: seq<T>)
      modifies this
      ensures r == suggestions
      ensures error <==> |suggestions| == 0
      ensures value == old(value) && disabled == old(disabled) && isOpened == old(isOpened) && isDirty == old(isDirty)
    {
      SetError(|suggestions| == 0);
      r := suggestions;
    }

    /**
     * `onKeyUp(e)`: Enter emits `enter`, Escape acts as a click on the cross,
     * and any key but the arrows, Enter and Escape emits `query`.
     */
    method OnKeyUp(which: int) returns (events: seq<InputEvent>)
      modifies this
      ensures which == 13 ==> events == [Enter] && value == old(value) && isOpened == old(isOpened)
      ensures which == 27 ==>
        && events == CrossClickEvents(old(value), old(disabled), old(isOpened))
        && value == CrossClickValue(old(value), old(disabled))
        && isOpened == CrossClickOpened(old(value), old(disabled), old(isOpened))
      ensures which == 40 || which == 38 ==> events == [] && value == old(value) && isOpened == old(isOpened)
      ensures which !in {13, 27, 40, 38} ==> events == [Query] && value == old(value) && isOpened == old(isOpened)
      ensures disabled == old(disabled) && error == old(error) && isDirty == old(isDirty)
    {
      events := [];
      if which == 13 {
        events := [Enter];
      }
      if which == 27 {
        events := OnCrossClick();
      }
      if which != 40 && which != 38 && which != 13 && which != 27 {
        events := events + [Query];
      }
    }

    /** `onInputClick()`: opens and asks for suggestions, whether disabled or not. */
    method OnInputClick() returns (events: seq<InputEvent>)
      modifies this
      ensures isOpened && events == [TriggerSuggestions]
      ensures value == old(value) && disabled == old(disabled) && error == old(error) && isDirty == old(isDirty)
    {
      isOpened := true;
      events := [TriggerSuggestions];
    }

    /** `onDropDownClick()`: unless disabled, toggles `isOpened`, closing or asking for suggestions. */
    method OnDropDownClick() returns (events: seq<InputEvent>)
      modifies this
      ensures old(disabled) ==> events == [] && isOpened == old(isOpened)
      ensures !old(disabled) ==>
        && isOpened == !old(isOpened)
        && events == (if old(isOpened) then [Close] else [TriggerSuggestions])
      ensures value == old(value) && disabled == old(disabled) && error == old(error) && isDirty == old(isDirty)
    {
      if disabled {
        return [];
      }
      if isOpened {
        isOpened := false;
        events := [Close];
      } else {
        isOpened := true;
        events := [TriggerSuggestions];
      }
    }

    /**
     * `onCrossClick()`: unless disabled, an empty field closes; otherwise the
     * text is cleared, `cleanup` is emitted and, while opened, suggestions are
     * asked for again.
     */
    method OnCrossClick() returns (events: seq<InputEvent>)
      modifies this
      ensures events == CrossClickEvents(old(value), old(disabled), old(isOpened))
      ensures value == CrossClickValue(old(value), old(disabled))
      ensures isOpened == CrossClickOpened(old(value), old(disabled), old(isOpened))
      ensures disabled == old(disabled) && error == old(error) && isDirty == old(isDirty)
    {
      if disabled {
        return [];
      }
      if value == "" {
        isOpened := false;
        events := [Close];
      } else {
        value := "";
        events := [Cleanup] + (if isOpened then [TriggerSuggestions] else []);
      }
    }
  }

  /** The events a click on the cross emits. */
  function CrossClickEvents(value: string, disabled: bool, isOpened: bool): seq<InputEvent>
  {
    if disabled then []
    else if value == "" then [Close]
    else [Cleanup] + (if isOpened then [TriggerSuggestions] else [])
  }

  /** The text left after a click on the cross. */
  function CrossClickValue(value: string, disabled: bool): string
  {
    if disabled then value else ""
  }

  /** `isOpened` after a click on the cross. */
  function CrossClickOpened(value: string, disabled: bool, isOpened: bool): bool
  {
    if !disabled && value == "" then false else isOpened
  }

  /**
   * Unless disabled, the cross always leaves an empty field, and it emits
   * `close` exactly when the field was already empty and `cleanup` exactly when
   * it was not; `trigger-suggestions` follows only a `cleanup` while opened.
   */
  lemma CrossClickOutcome(value: string, disabled: bool, isOpened: bool)
    ensures !disabled ==> CrossClickValue(value, disabled) == ""
    ensures Close in CrossClickEvents(value, disabled, isOpened) <==> !disabled && value == ""
    ensures Cleanup in CrossClickEvents(value, disabled, isOpened) <==> !disabled && value != ""
    ensures TriggerSuggestions in CrossClickEvents(value, disabled, isOpened)
        <==> !disabled && value != "" && isOpened
  {
  }
}
