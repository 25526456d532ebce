/** The legacy value controller (the older `useInputOTP`): a ref holding the
    value, a key gate over the legacy table, an input handler that reads the
    slot index from the field's element id, and the arrow/Backspace rules. */
module LegacyHooks {
  import opened CharClasses
  import opened Regex
  import opened OtpTypes
  import opened JsArrays
  import opened LegacyConstants
  import opened Util
  import Hook

  /** The props the legacy hook reads; `inputType` may be left out. */
  datatype LegacyProps = LegacyProps(inputRegex: InputRegex, inputType: Option<InputType>, hasOnChange: bool)

  // ---------------------------------------------------------------------------
  // Key gate

  /** `handleKeyPress`: whether the key is suppressed. There is no exemption
      for Enter. */
  function HandleKeyPress(p: LegacyProps, key: string): (suppress: bool)
    ensures suppress <==>
              || (p.inputType == Some(Custom) && p.inputRegex.IsTruthy() && !p.inputRegex.test(key))
              || (p.inputType.Some? && p.inputType.value.IsStandard() &&
                  exists i :: 0 <= i < |key| && !LegacyAdmits(p.inputType.value, key[i]))
  {
    if p.inputType.Some? && p.inputType.value.IsStandard() then
      LegacyDictionaryTest(p.inputType.value, key);
      Test(LegacyDictionary(p.inputType.value), key)
    else
      p.inputType == Some(Custom) && p.inputRegex.IsTruthy() && !p.inputRegex.test(key)
  }

  /** Under `numeric` the legacy gate suppresses Enter, which the current gate
      always lets through. */
  lemma EnterSuppressedUnderNumeric(r: InputRegex, hasOnChange: bool, q: Hook.Props)
    requires q.inputType == Numeric
    ensures HandleKeyPress(LegacyProps(r, Some(Numeric), hasOnChange), "Enter")
    ensures !Hook.HandleKeyPress(q, "Enter")
  {
    assert !LegacyAdmits(Numeric, "Enter"[0]);
  }

  // ---------------------------------------------------------------------------
  // Arrow and Backspace navigation

  /** `handleKeyDown` of the legacy hook. */
  function HandleKeyDown(key: string, content: string, index: nat, fieldCount: nat): (r: KeyDownResult)
    requires index < fieldCount
    ensures ValidTarget(r.focus, fieldCount)
    ensures r.preventDefault <==>
              key == "ArrowLeft" || key == "ArrowRight" || (key == "Backspace" && content == "")
    ensures !r.preventDefault ==> r.focus == NoOp
  {
    FieldNavigation(fieldCount, index);
    var sib := GetSibling(Fields(fieldCount), index);
    if key == "Backspace" && content != "" then KeyDownResult(false, NoOp)
    else if key == "Backspace" || key == "ArrowLeft" then
      KeyDownResult(true, if sib.prevTarget.Some? then Select(sib.prevTarget.value) else NoOp)
    else if key == "ArrowRight" then
      KeyDownResult(true, if sib.nextTarget.Some? then Select(sib.nextTarget.value) else NoOp)
    else KeyDownResult(false, NoOp)
  }

  /** The legacy Backspace/ArrowLeft/ArrowRight rules are the current ones;
      in particular Enter never calls `preventDefault`. */
  lemma KeyDownAgreesWithCurrent(key: string, content: string, index: nat, fieldCount: nat)
    requires index < fieldCount
    ensures HandleKeyDown(key, content, index, fieldCount) == Hook.HandleKeyDown(key, content, index, fieldCount)
    ensures HandleKeyDown("Enter", content, index, fieldCount) == KeyDownResult(false, NoOp)
  {
  }

  // ---------------------------------------------------------------------------
  // The slot index read from the element id

  /** The id prefix the hook strips: `id.replace(/antd-input-otp-/, "")`. */
  const IdPrefix: string := "antd-input-otp-"

  /** JavaScript values the parsed index is compared against. */
  datatype JsNumber = IntegerNumber(v: int) | NaN
  datatype JsValue = Null | Undefined | Number(n: JsNumber)

  predicate AllDigits(s: string) {
    forall i :: 0 <= i < |s| ==> IsDigit(s[i])
  }

  function DecimalValue(s: string): nat
    requires AllDigits(s)
    decreases |s|
  {
    if s == [] then 0 else 10 * DecimalValue(s[..|s| - 1]) + (s[|s| - 1] as int - '0' as int)
  }

  function DigitChar(d: nat): char
    requires d < 10
  {
    ('0' as int + d) as char
  }

  /** The decimal numeral of `n`, as a template literal prints it. */
  function Decimal(n: nat): string
    decreases n
  {
    if n < 10 then [DigitChar(n)] else Decimal(n / 10) + [DigitChar(n % 10)]
  }

  lemma {:induction false} DecimalRoundTrip(n: nat)
    ensures AllDigits(Decimal(n)) && DecimalValue(Decimal(n)) == n
  {
    if n >= 10 {
      DecimalRoundTrip(n / 10);
      var s := Decimal(n);
      assert s[..|s| - 1] == Decimal(n / 10);
    }
  }

  /** `Number(id.replace(/antd-input-otp-/, ""))`: always a number; the empty
      string reads as 0. */
  function ParseIdIndex(id: string): (r: JsValue)
    ensures r.Number?
    ensures id == "" ==> r == Number(IntegerNumber(0))
  {
    var rest := if IdPrefix <= id then id[|IdPrefix|..] else id;
    if rest == "" then Number(IntegerNumber(0))
    else if AllDigits(rest) then Number(IntegerNumber(DecimalValue(rest)))
    else Number(NaN)
  }

  /** Array indices are the integers below 2^32 - 1; any other key of
      `newOtpValue[...] = value` sets a property that is not an element. */
  const ArrayIndexLimit: int := 0xFFFF_FFFF

  predicate IsArrayIndex(n: JsNumber) {
    n.IntegerNumber? && 0 <= n.v < ArrayIndexLimit
  }

  /** The elements of the array after `newOtpValue[n] = value`. */
  function WriteAtNumber(s: seq<string>, n: JsNumber, v: string): seq<string> {
    if IsArrayIndex(n) then Assign(s, n.v, v) else s
  }

  // ---------------------------------------------------------------------------
  // Focus after an input

  /** The focus call at the end of `handleChange`: the next field is selected
      when the field got a value and a next field exists; the `blur()` branch
      cannot be reached. */
  function ChangeFocus(position: nat, fieldCount: nat, content: string): (f: FocusAction)
    requires position < fieldCount
    ensures ValidTarget(f, fieldCount)
    ensures !f.Blur?
    ensures f.Select? <==> position + 1 < fieldCount && content != ""
    ensures f.Select? ==> f.field == position + 1
  {
    FieldNavigation(fieldCount, position);
    var nextInput := GetSibling(Fields(fieldCount), position).nextTarget;
    // `!currInput` never holds: the current target is the field itself.
    if nextInput.None? || content == "" then NoOp
    else if nextInput.Some? then Select(nextInput.value)
    else assert false; Blur(position)
  }

  // ---------------------------------------------------------------------------
  // The controller

  class LegacyInputOtpHook {
    /** `otpValue.current`. */
    var otpValue: seq<string>

    constructor ()
      ensures otpValue == []
    {
      otpValue := [];
    }

    /** `handleChange` for the field at `position` (of `fieldCount`), whose
        element id is `id` and which now holds `content`. */
    method HandleChange(p: LegacyProps, id: string, position: nat, fieldCount: nat, content: string)
      returns (notified: Option<seq<string>>, focus: FocusAction)
      requires position < fieldCount
      modifies this
      ensures otpValue == WriteAtNumber(old(otpValue), ParseIdIndex(id).n, content)
      ensures notified == if p.hasOnChange then Some(otpValue) else None
      ensures focus == ChangeFocus(position, fieldCount, content)
    {
      var currInputIdx := ParseIdIndex(id);
      var newOtpValue := new JsArray(otpValue);
      if currInputIdx != Null && currInputIdx != Undefined {
        if IsArrayIndex(currInputIdx.n) {
          newOtpValue.Put(currInputIdx.n.v, content);
        }
      }
      otpValue := newOtpValue.items;
      notified := if p.hasOnChange then Some(otpValue) else None;
      focus := ChangeFocus(position, fieldCount, content);
    }
  }

  // ---------------------------------------------------------------------------
  // The id the hook relies on

  /** The id the hook expects a field to carry. */
  function FieldId(position: nat): string {
    IdPrefix + Decimal(position)
  }

  /** A field rendered without an id (`element.id` is "") has its input written
      to slot 0, whatever its position. */
  lemma UnlabelledFieldWritesSlotZero(s: seq<string>, content: string)
    ensures WriteAtNumber(s, ParseIdIndex("").n, content) == Assign(s, 0, content)
    ensures WriteAtNumber([], ParseIdIndex("").n, "7") == ["7"]
  {
  }

  /** A field carrying `FieldId(position)` has its input written to its own slot. */
  lemma LabelledFieldWritesOwnSlot(s: seq<string>, position: nat, content: string)
    requires position < ArrayIndexLimit
    ensures WriteAtNumber(s, ParseIdIndex(FieldId(position)).n, content) == Assign(s, position, content)
  {
    DecimalRoundTrip(position);
    var id := FieldId(position);
    assert IdPrefix <= id;
    assert id[|IdPrefix|..] == Decimal(position);
  }
}
