/**
 * The stateful side of the NumberInput control
 * (src/components/ui/inputs/NumberInput/NumberInput.tsx): the component's state
 * fields (`lastFormattedValue`, `isFocused`, `showMask`, `selectedCountryCode`),
 * the change handler that runs the cleaning and formatting pipeline, the render
 * step that derives the shown text, and the key handler that edits the input
 * element in place.
 */
module NumberInputControl {
  import opened Wrappers
  import opened JsString
  import opened FormControls
  import opened NumberInput

  /** The character the masked display shows for each digit. */
  const Bullet: char := '•'

  /**
   * The text shown in the field: the formatted value, or, when masked, one
   * bullet per digit of the formatted value, so that no digit is visible.
   */
  function MaskedDisplay(formatted: string, masked: bool): (r: string)
    ensures masked ==> |r| == |Digits(formatted)|
    ensures masked ==> forall i :: 0 <= i < |r| ==> r[i] == Bullet && !IsDigit(r[i])
    ensures !masked ==> r == formatted
  {
    if masked then Repeat(Bullet, |Digits(formatted)|) else formatted
  }

  /**
   * Under a template whose literals hold no digit, the mask has one bullet for
   * each stored digit that fits the template.
   */
  lemma MaskCountsStoredDigits(p: Props, value: string)
    requires Pattern(p).Some? && LiteralsDigitFree(Pattern(p).value)
    ensures var c := CleanValue(p, value);
      |MaskedDisplay(FormatValue(p, value), true)| == Min(|c|, Slots(Pattern(p).value))
  {
    var t := Pattern(p).value;
    var c := CleanValue(p, value);
    FormatValueFills(p, value);
    if c != "" {
      FillDigits(c, t);
    }
  }

  /**
   * With the calling-code template of India, the single typed digit `1` is masked
   * as three bullets: the `9` and `1` of the prefix are counted as digits too.
   */
  lemma MaskCountsCodeDigits(p: Props)
    requires p.format == Some("PHONE_IN_WITH_CODE") && p.maxLength == 0
    ensures |MaskedDisplay(FormatValue(p, "1"), true)| == 3
  {
    CodePrefixShowsDigit(p);
    CodeDisplayDigits();
  }

  // ---------------------------------------------------------------------------
  // The key handler's walks over the template

  /**
   * The backward walk of the Backspace handler: from just before the caret, down
   * over the separators, to the position just after the nearest slot (or 0).
   */
  method SeparatorRunStart(t: string, cursor: nat) returns (newPos: nat)
    requires cursor > 0
    ensures newPos < cursor
    ensures newPos == 0 || IsSlot(t, newPos - 1)
    ensures forall j :: newPos <= j < cursor - 1 ==> !IsSlot(t, j)
  {
    newPos := cursor - 1;
    while newPos > 0 && !IsSlot(t, newPos - 1)
      invariant newPos < cursor
      invariant forall j :: newPos <= j < cursor - 1 ==> !IsSlot(t, j)
    {
      newPos := newPos - 1;
    }
  }

  /** Where an arrow-key walk stops: on a slot, or anywhere past the template. */
  predicate Stop(t: string, j: int) {
    IsSlot(t, j) || j >= |t|
  }

  /**
   * The walk of the arrow keys: one step in `direction`, then on over the
   * separators, until a slot, the end of the template or the left of position 0.
   */
  method SkipSeparators(t: string, cursor: nat, direction: int) returns (newPos: int)
    requires direction == 1 || direction == -1
    ensures direction == 1 ==>
      && cursor < newPos && Stop(t, newPos)
      && forall j :: cursor < j < newPos ==> !Stop(t, j)
    ensures direction == -1 ==>
      && -1 <= newPos < cursor && (newPos == -1 || Stop(t, newPos))
      && forall j :: newPos < j < cursor ==> !Stop(t, j)
  {
    newPos := cursor + direction;
    while 0 <= newPos < |t| && !IsSlot(t, newPos)
      invariant direction == 1 ==> cursor < newPos && forall j :: cursor < j < newPos ==> !Stop(t, j)
      invariant direction == -1 ==> -1 <= newPos < cursor && forall j :: newPos < j < cursor ==> !Stop(t, j)
      invariant direction == -1 && newPos >= |t| ==> newPos == cursor - 1
      decreases if direction == 1 then |t| - newPos else newPos + 1
    {
      newPos := newPos + direction;
    }
  }

  /**
   * What the Backspace handler does with text `v` and caret `cursor` under
   * template `t`: with a separator just before the caret it cancels the key;
   * then, when some slot lies before the caret, it deletes the nearest such slot
   * together with the separators after it and puts the caret where the slot was;
   * otherwise the text and caret stay.
   */
  predicate BackspaceOutcome(t: string, v: string, cursor: nat, prevented: bool, v': string, caret': int) {
    && (prevented <==> cursor > 0 && !IsSlot(t, cursor - 1))
    && (prevented && (exists j :: 0 <= j < cursor && IsSlot(t, j)) ==>
          && IsSlot(t, caret') && caret' < cursor - 1
          && (forall j :: caret' < j < cursor ==> !IsSlot(t, j))
          && v' == Slice(v, 0, caret') + SliceFrom(v, cursor))
    && (!prevented || !(exists j :: 0 <= j < cursor && IsSlot(t, j)) ==>
          v' == v && caret' == cursor)
  }

  /** The Backspace handler under a template, on the element's text and caret. */
  method BackspaceKey(t: string, v: string, cursor: nat) returns (prevented: bool, v': string, caret': nat)
    requires cursor <= |v|
    ensures BackspaceOutcome(t, v, cursor, prevented, v', caret')
    ensures caret' <= |v'|
  {
    prevented, v', caret' := false, v, cursor;
    if cursor > 0 && !IsSlot(t, cursor - 1) {
      prevented := true;
      var newPos := SeparatorRunStart(t, cursor);
      if newPos > 0 {
        v' := Slice(v, 0, newPos - 1) + SliceFrom(v, cursor);
        caret' := newPos - 1;
      }
    }
  }

  /**
   * What an arrow key does with text `v` and caret `cursor` under template `t`:
   * the caret moves in the key's direction to the nearest stopping place, when
   * that lies within the text, and the key is then cancelled; otherwise nothing
   * changes.
   */
  predicate ArrowOutcome(t: string, v: string, cursor: nat, left: bool, prevented: bool, caret': int) {
    && (!prevented ==> caret' == cursor)
    && (prevented ==> Stop(t, caret') && caret' <= |v|)
    && (left ==>
          && (prevented <==> exists j :: 0 <= j < cursor && Stop(t, j))
          && (prevented ==> 0 <= caret' < cursor && forall j :: caret' < j < cursor ==> !Stop(t, j)))
    && (!left ==>
          && (prevented <==> exists j :: cursor < j <= |v| && Stop(t, j))
          && (prevented ==> cursor < caret' && forall j :: cursor < j < caret' ==> !Stop(t, j)))
  }

  /** The arrow-key handler under a template, on the element's text and caret. */
  method ArrowKey(t: string, v: string, cursor: nat, left: bool) returns (prevented: bool, caret': nat)
    requires cursor <= |v|
    ensures ArrowOutcome(t, v, cursor, left, prevented, caret')
  {
    var direction := if left then -1 else 1;
    var newPos := SkipSeparators(t, cursor, direction);
    if 0 <= newPos <= |v| {
      prevented, caret' := true, newPos;
    } else {
      prevented, caret' := false, cursor;
    }
  }

  /**
   * The computation of the change handler for a typed text, given the previous
   * display: the stored value, the new display and the caret. Under a template
   * the stored value is digits only and the display no longer than the template.
   */
  method ProcessInput(p: Props, oldValue: string, inputValue: string, selectionStart: nat)
    returns (cleaned: string, formatted: string, caret: int)
    ensures cleaned == CleanValue(p, inputValue)
    ensures formatted == FormatValue(p, cleaned)
    ensures Pattern(p).Some? ==> AllDigits(cleaned) && |formatted| <= |Pattern(p).value|
    ensures CaretPlaced(Pattern(p), oldValue, formatted, selectionStart, |inputValue| < |oldValue|, caret)
  {
    var isBackspace := |inputValue| < |oldValue|;
    cleaned := CleanValue(p, inputValue);
    formatted := FormatValue(p, cleaned);
    if Pattern(p).Some? {
      CleanValueUnderTemplate(p, inputValue);
      FormatValueDisplay(p, cleaned);
    }
    caret := CalculateCursorPosition(Pattern(p), oldValue, formatted, selectionStart, isBackspace);
  }

  // ---------------------------------------------------------------------------
  // The input element and the component

  /** The keys the key handler tells apart. */
  datatype Key = Backspace | ArrowLeft | ArrowRight | OtherKey

  /** The text field's DOM element: its text and the caret (`selectionStart`). */
  class InputElement {
    var value: string
    var caret: nat

    /** The browser keeps the caret within the text. */
    predicate Valid()
      reads this
    {
      caret <= |value|
    }

    constructor(value: string, caret: nat)
      requires caret <= |value|
      ensures this.value == value && this.caret == caret && Valid()
    {
      this.value := value;
      this.caret := caret;
    }
  }

  /** One mounted NumberInput: its props and its state fields. */
  class NumberField {
    const props: Props
    var isFocused: bool
    var showMask: bool
    var selectedCountryCode: CountryKey
    var lastFormattedValue: string

    /** The initial state: unfocused, masked as the `mask` prop says, nothing displayed yet. */
    constructor(props: Props, mask: bool, countryCode: CountryKey)
      ensures this.props == props
      ensures !isFocused && showMask == mask && selectedCountryCode == countryCode
      ensures lastFormattedValue == ""
    {
      this.props := props;
      isFocused := false;
      showMask := mask;
      selectedCountryCode := countryCode;
      lastFormattedValue := "";
    }

    /**
     * `handleInputChange`: the typed text is cleaned into the stored value and
     * formatted for display; the display is remembered for the next change; the
     * change counts as a deletion when the text got shorter than the last display,
     * and the caret is placed by `calculateCursorPosition`.
     */
    method HandleInputChange(inputValue: string, selectionStart: nat)
      returns (cleaned: string, formatted: string, caret: int)
      modifies this
      ensures cleaned == CleanValue(props, inputValue)
      ensures formatted == FormatValue(props, cleaned)
      ensures lastFormattedValue == formatted
      ensures isFocused == old(isFocused) && showMask == old(showMask)
      ensures selectedCountryCode == old(selectedCountryCode)
      ensures CaretPlaced(Pattern(props), old(lastFormattedValue), formatted, selectionStart,
                          |inputValue| < |old(lastFormattedValue)|, caret)
    {
      cleaned, formatted, caret := ProcessInput(props, lastFormattedValue, inputValue, selectionStart);
      lastFormattedValue := formatted;
    }

    /**
     * The render step: the stored value (`value || ''`) is formatted, shown masked
     * when the mask is on and the field is not focused, its digits are counted, and
     * the remembered display follows the value when it changed from outside.
     */
    method Render(value: Option<string>) returns (display: string, digitCount: nat)
      modifies this
      ensures lastFormattedValue == FormatValue(props, value.GetOr(""))
      ensures display == MaskedDisplay(lastFormattedValue, showMask && !isFocused)
      ensures digitCount == |Digits(CleanValue(props, value.GetOr("")))|
      ensures isFocused == old(isFocused) && showMask == old(showMask)
      ensures selectedCountryCode == old(selectedCountryCode)
    {
      var currentValue := value.GetOr("");
      var formattedValue := FormatValue(props, currentValue);
      display := MaskedDisplay(formattedValue, showMask && !isFocused);
      digitCount := |Digits(CleanValue(props, currentValue))|;
      if formattedValue != lastFormattedValue {
        lastFormattedValue := formattedValue;
      }
    }

    /** `handleFocus`. */
    method HandleFocus()
      modifies this
      ensures isFocused
      ensures showMask == old(showMask) && selectedCountryCode == old(selectedCountryCode)
      ensures lastFormattedValue == old(lastFormattedValue)
    {
      isFocused := true;
    }

    /** `handleBlur`. */
    method HandleBlur()
      modifies this
      ensures !isFocused
      ensures showMask == old(showMask) && selectedCountryCode == old(selectedCountryCode)
      ensures lastFormattedValue == old(lastFormattedValue)
    {
      isFocused := false;
    }

    /** The visibility button: the mask is switched. */
    method ToggleMask()
      modifies this
      ensures showMask == !old(showMask)
      ensures isFocused == old(isFocused) && selectedCountryCode == old(selectedCountryCode)
      ensures lastFormattedValue == old(lastFormattedValue)
    {
      showMask := !showMask;
    }

    /** The country selector: the chosen country becomes the selected one. */
    method SelectCountry(k: CountryKey)
      modifies this
      ensures selectedCountryCode == k
      ensures isFocused == old(isFocused) && showMask == old(showMask)
      ensures lastFormattedValue == old(lastFormattedValue)
    {
      selectedCountryCode := k;
    }

    /**
     * `handleKeyDown`, which acts only under a template. Backspace with a
     * separator just before the caret is taken over: the slot before the run of
     * separators is deleted together with the separators, and the caret goes to
     * where that slot was; with no slot before the caret the key is swallowed.
     * An arrow key moves the caret in its direction over the separators, to the
     * next slot or past the template, when that position is within the text.
     * `prevented` says whether the browser's own handling was cancelled.
     */
    method HandleKeyDown(key: Key, target: InputElement) returns (prevented: bool)
      requires target.Valid()
      modifies target
      ensures target.Valid()
      ensures Pattern(props).None? || key == OtherKey ==>
        !prevented && target.value == old(target.value) && target.caret == old(target.caret)
      ensures Pattern(props).Some? && key == Backspace ==>
        BackspaceOutcome(Pattern(props).value, old(target.value), old(target.caret),
                         prevented, target.value, target.caret)
      ensures Pattern(props).Some? && (key == ArrowLeft || key == ArrowRight) ==>
        target.value == old(target.value) &&
        ArrowOutcome(Pattern(props).value, old(target.value), old(target.caret),
                     key == ArrowLeft, prevented, target.caret)
    {
      prevented := false;
      var pattern := Pattern(props);
      if pattern.None? {
        return;
      }
      var t := pattern.value;
      if key == Backspace {
        var v', caret';
        prevented, v', caret' := BackspaceKey(t, target.value, target.caret);
        target.value, target.caret := v', caret';
      } else if key == ArrowLeft || key == ArrowRight {
        var caret';
        prevented, caret' := ArrowKey(t, target.value, target.caret, key == ArrowLeft);
        target.caret := caret';
      }
    }
  }
}
