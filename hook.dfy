/** The current input's value controller (`useInputOTP`): one `otp` state and
    the handlers of the N fields, which are named by their index 0..N-1. The
    fields the input renders are its `fieldLength` fields, so an event always
    comes from an index below `fieldLength`. DOM calls are returned as actions. */
module Hook {
  import opened OtpTypes
  import opened JsArrays
  import opened Constant
  import opened Util

  /** The props of one render. `hasOnChange` says whether an `onChange`
      callback was given; `value` is the external value (None for null or
      undefined). */
  datatype Props = Props(
    autoSubmit: AutoSubmit,
    fieldLength: nat,
    inputRegex: InputRegex,
    inputType: InputType,
    isPreserveFocus: bool,
    hasOnChange: bool,
    value: Option<seq<string>>)

  /** `nativeEvent.inputType` of an `input` event. */
  datatype InputKind = InsertText | DeleteContentBackward | OtherInput

  /** The closure `handleFieldChange(currentIndex, clipboardDataArray, fieldLength)`;
      the clipboard pieces come from `split('')`, one character each. */
  datatype FieldChange = FieldChange(currentIndex: nat, clipboard: seq<char>, fieldLength: nat)

  /** What a handler asked of its host: `preventDefault()`, the `onChange`
      call (with its argument), the focus call and the auto-submit. */
  datatype Outcome = Outcome(
    preventDefault: bool,
    notified: Option<seq<string>>,
    focus: FocusAction,
    submit: Option<Submission>)

  // ---------------------------------------------------------------------------
  // Auto-submit dispatch

  /** `handleAutoSubmit`: a form instance is submitted; any other target is
      called with the value; a missing target does nothing. */
  function HandleAutoSubmit(autoSubmit: AutoSubmit, value: seq<string>): (r: Option<Submission>)
    ensures r.None? <==> autoSubmit.NoAutoSubmit?
    ensures r == Some(FormSubmit) <==> IsFormInstance(autoSubmit)
    ensures r.Some? && !IsFormInstance(autoSubmit) ==> r.value == CallbackCall(value)
  {
    if IsFormInstance(autoSubmit) then Some(FormSubmit)
    else if autoSubmit.AutoSubmitTarget? then Some(CallbackCall(value))
    else None
  }

  // ---------------------------------------------------------------------------
  // Paste window fill

  /** The array after the paste loop wrote `chars[0]`, `chars[1]`, ... in order
      at `start`, `start + 1`, ... */
  function Fill(s: seq<string>, start: nat, chars: seq<char>): seq<string>
    decreases |chars|
  {
    if chars == [] then s
    else Assign(Fill(s, start, chars[..|chars| - 1]), start + |chars| - 1, [chars[|chars| - 1]])
  }

  /** The fill overwrites exactly the window `start .. start + |chars| - 1`,
      each slot with its pasted character, and every other slot reads as before. */
  lemma {:induction false} FillWindow(s: seq<string>, start: nat, chars: seq<char>)
    ensures |Fill(s, start, chars)| == if chars == [] then |s| else Max(|s|, start + |chars|)
    ensures forall j :: start <= j < start + |chars| ==> Fill(s, start, chars)[j] == [chars[j - start]]
    ensures forall j :: 0 <= j < |Fill(s, start, chars)| && !(start <= j < start + |chars|) ==>
              Fill(s, start, chars)[j] == Slot(s, j)
  {
    if chars != [] {
      var init := chars[..|chars| - 1];
      FillWindow(s, start, init);
      var r' := Fill(s, start, init);
      var r := Fill(s, start, chars);
      assert r == Assign(r', start + |init|, [chars[|chars| - 1]]);
      forall j | start <= j < start + |chars|
        ensures r[j] == [chars[j - start]]
      {
        if j < start + |init| {
          assert r[j] == r'[j] == [init[j - start]];
        }
      }
      forall j | 0 <= j < |r| && !(start <= j < start + |chars|)
        ensures r[j] == Slot(s, j)
      {
        assert r[j] == Slot(r', j);
      }
    }
  }

  /** `handleFieldChange`: the loop that copies the clipboard pieces into the
      array in place. The array it fills is the one it was handed unless that
      one is empty; then it fills a fresh array of `fieldLength` empty slots. */
  method HandleFieldChange(currentIndex: nat, clipboard: seq<char>, fieldLength: nat, currentValue: JsArray)
    returns (result: JsArray)
    modifies currentValue
    ensures |old(currentValue.items)| >= 1 ==> result == currentValue
    ensures |old(currentValue.items)| < 1 ==> fresh(result) && currentValue.items == old(currentValue.items)
    ensures result.items ==
              Fill(if |old(currentValue.items)| < 1 then Blank(fieldLength) else old(currentValue.items),
                   currentIndex, clipboard[..Min(fieldLength, |clipboard|)])
  {
    result := currentValue;
    if |result.items| < 1 {
      result := new JsArray(Blank(fieldLength));
    }
    ghost var base := result.items;
    for i := 0 to fieldLength
      invariant result == currentValue || (fresh(result) && currentValue.items == old(currentValue.items))
      invariant result.items == Fill(base, currentIndex, clipboard[..Min(i, |clipboard|)])
    {
      if i < |clipboard| {
        assert clipboard[..i + 1][..i] == clipboard[..i];
        result.Put(i + currentIndex, [clipboard[i]]);
      }
    }
  }

  // ---------------------------------------------------------------------------
  // handleChange, as functions of the props and the state before the call

  /** The authoritative value: the external `value` when `onChange` is given
      (whatever `value` is), the internal `otp` otherwise. */
  function Authoritative(p: Props, otp: seq<string>): Option<seq<string>> {
    if p.hasOnChange then p.value else Some(otp)
  }

  function OrEmpty(v: Option<seq<string>>): seq<string> {
    if v.Some? then v.value else []
  }

  /** The internal state is reset when the authoritative value is missing or joins to "". */
  predicate NeedsReset(v: Option<seq<string>>) {
    v.None? || |Join(v.value)| < 1
  }

  /** The value `handleChange` builds and hands on. */
  function ChangedValue(p: Props, otp: seq<string>, index: nat, content: string, callback: Option<FieldChange>)
    : seq<string>
  {
    var written := Assign(OrEmpty(Authoritative(p, otp)), index, content);
    match callback
    case None => written
    case Some(fc) => Fill(written, fc.currentIndex, fc.clipboard[..Min(fc.fieldLength, |fc.clipboard|)])
  }

  /** The `otp` state after `handleChange`: the last `setOtp` of the call wins. */
  function CommittedOtp(p: Props, otp: seq<string>, newValue: seq<string>): seq<string> {
    if !p.hasOnChange then newValue
    else if NeedsReset(Authoritative(p, otp)) then []
    else otp
  }

  /** `handleChange` (no callback) copies the authoritative value and sets slot
      `index` to the field's content; every other slot reads as before. */
  lemma HandleChangeSetsOneSlot(p: Props, otp: seq<string>, index: nat, content: string)
    ensures var v := ChangedValue(p, otp, index, content, None);
      && |v| == Max(|OrEmpty(Authoritative(p, otp))|, index + 1)
      && v[index] == content
      && forall j :: 0 <= j < |v| && j != index ==> v[j] == Slot(OrEmpty(Authoritative(p, otp)), j)
  {
  }

  /** Controlled mode is chosen by `onChange` alone. With `onChange` the new
      value is handed to it and `otp` is reset exactly when the external value
      is missing or all slots are empty, else kept; without it `otp` becomes
      the new value. */
  lemma {:induction false} ControlledModeByOnChange(p: Props, otp: seq<string>, newValue: seq<string>)
    ensures p.hasOnChange && p.value.None? ==> CommittedOtp(p, otp, newValue) == []
    ensures p.hasOnChange && p.value.Some? ==>
              CommittedOtp(p, otp, newValue) ==
                (if forall j :: 0 <= j < |p.value.value| ==> p.value.value[j] == "" then [] else otp)
    ensures !p.hasOnChange ==> CommittedOtp(p, otp, newValue) == newValue
  {
    if p.hasOnChange && p.value.Some? {
      JoinEmptyIff(p.value.value);
    }
  }

  /** The empty-array reset inside `handleFieldChange` never runs when it is
      called from `handleChange`: the array it is handed already has slot `index`. */
  lemma ResetBranchDead(p: Props, otp: seq<string>, index: nat, content: string)
    ensures |Assign(OrEmpty(Authoritative(p, otp)), index, content)| >= 1
  {
  }

  // ---------------------------------------------------------------------------
  // Decisions of handleInput, handleKeyPress, handleKeyDown and handlePaste

  /** The focus call of `handleInput`. */
  function InputFocus(kind: InputKind, index: nat, fieldCount: nat, isPreserveFocus: bool): (f: FocusAction)
    requires index < fieldCount
    ensures ValidTarget(f, fieldCount)
    ensures f.Blur? <==> kind == InsertText && index + 1 == fieldCount && !isPreserveFocus
    ensures f.Blur? ==> f.field == index
    ensures kind == InsertText && index + 1 == fieldCount && isPreserveFocus ==> f == NoOp
    ensures kind == InsertText && index + 1 < fieldCount ==> f == Select(index + 1)
    ensures kind == DeleteContentBackward ==> f == if index > 0 then Select(index - 1) else NoOp
    ensures kind == OtherInput ==> f == NoOp
  {
    FieldNavigation(fieldCount, index);
    var sib := GetSibling(Fields(fieldCount), index);
    var isInsertText := kind == InsertText;
    var isNotNextTarget := isInsertText && sib.nextTarget.None?;
    if isNotNextTarget && !isPreserveFocus then Blur(index)
    else if isInsertText then (if sib.nextTarget.Some? then Select(sib.nextTarget.value) else NoOp)
    else if kind == DeleteContentBackward then
      (if sib.prevTarget.Some? then Select(sib.prevTarget.value) else NoOp)
    else NoOp
  }

  /** The auto-submit of `handleInput`: only for an insertion into the last
      field, with a target set and the joined value as long as the field count. */
  function InputSubmit(p: Props, kind: InputKind, index: nat, value: seq<string>): (r: Option<Submission>)
    requires index < p.fieldLength
    ensures r.Some? <==>
              kind == InsertText && index + 1 == p.fieldLength &&
              p.autoSubmit.AutoSubmitTarget? && |Join(value)| == p.fieldLength
    ensures r.Some? ==> (r.value == FormSubmit <==> IsFormInstance(p.autoSubmit))
    ensures r.Some? && r.value.CallbackCall? ==> r.value.value == value
  {
    FieldNavigation(p.fieldLength, index);
    var isNotNextTarget := kind == InsertText && GetSibling(Fields(p.fieldLength), index).nextTarget.None?;
    var isValueLengthMatch := |Join(value)| == p.fieldLength;
    if isNotNextTarget && p.autoSubmit.AutoSubmitTarget? && isValueLengthMatch then
      HandleAutoSubmit(p.autoSubmit, value)
    else None
  }

  /** `handleKeyPress`: whether the key is suppressed. Enter always passes. */
  function HandleKeyPress(p: Props, key: string): (suppress: bool)
    ensures key == "Enter" ==> !suppress
    ensures key != "Enter" && p.inputType == All ==> !suppress
    ensures key != "Enter" && p.inputType.IsStandard() ==>
              (suppress <==> exists i :: 0 <= i < |key| && !Admits(p.inputType, key[i]))
    ensures key != "Enter" && p.inputType == Custom ==>
              (suppress <==> p.inputRegex.IsTruthy() && !p.inputRegex.test(key))
  {
    if key == "Enter" then false
    else IsNotTheCharacter(p.inputType, p.inputRegex, key)
  }

  /** `handleKeyDown`: Backspace on a filled field is left to the browser;
      Backspace on an empty field and ArrowLeft move left, ArrowRight moves
      right, both suppressing the caret move; a move off either end does nothing. */
  function HandleKeyDown(key: string, content: string, index: nat, fieldCount: nat): (r: KeyDownResult)
    requires index < fieldCount
    ensures ValidTarget(r.focus, fieldCount)
    ensures r.preventDefault <==>
              key == "ArrowLeft" || key == "ArrowRight" || (key == "Backspace" && content == "")
    ensures !r.preventDefault ==> r.focus == NoOp
    ensures r.preventDefault && key != "ArrowRight" ==>
              r.focus == if index > 0 then Select(index - 1) else NoOp
    ensures key == "ArrowRight" ==>
              r.focus == if index + 1 < fieldCount then Select(index + 1) else NoOp
  {
    FieldNavigation(fieldCount, index);
    var sib := GetSibling(Fields(fieldCount), index);
    var left := if sib.prevTarget.Some? then Select(sib.prevTarget.value) else NoOp;
    var right := if sib.nextTarget.Some? then Select(sib.nextTarget.value) else NoOp;
    if key == "Backspace" && content != "" then KeyDownResult(false, NoOp)
    else if key == "Backspace" || key == "ArrowLeft" then KeyDownResult(true, left)
    else if key == "ArrowRight" then KeyDownResult(true, right)
    else KeyDownResult(false, NoOp)
  }

  /** How many pasted characters are kept: `slice(0, fieldLength - currentIndex)`. */
  function PastedCount(fieldLength: nat, index: nat, text: string): (k: nat)
    requires index < fieldLength
    ensures k <= |text| && index + k <= fieldLength
    ensures k == |text| || index + k == fieldLength
  {
    Min(|text|, fieldLength - index)
  }

  /** The value `handlePaste` builds from an accepted clipboard text. */
  function PasteValue(p: Props, otp: seq<string>, index: nat, content: string, text: string): seq<string>
    requires index < p.fieldLength
  {
    var k := PastedCount(p.fieldLength, index, text);
    ChangedValue(p, otp, index, content, Some(FieldChange(index, text[..k], p.fieldLength)))
  }

  /** The focus call of `handlePaste`: the field after the pasted window, or
      the last field when the window reaches the end; with nothing pasted the
      receiving field is selected. */
  function PasteFocus(index: nat, k: nat, fieldCount: nat): (f: FocusAction)
    requires index < fieldCount && index + k <= fieldCount
    ensures ValidTarget(f, fieldCount)
    ensures k == 0 ==> f == Select(index)
    ensures k > 0 ==> f == Focus(Min(index + k, fieldCount - 1))
  {
    var nextIndex := k + index;
    // currentInput[nextIndex] || currentInput[nextIndex - 1]
    var nextInputElement := if nextIndex < fieldCount then nextIndex else nextIndex - 1;
    if nextIndex == index then Select(nextInputElement) else Focus(nextInputElement)
  }

  /** The auto-submit of `handlePaste`: whenever a target is set and the joined
      value is as long as the field count, whatever field received the paste. */
  function PasteSubmit(p: Props, value: seq<string>): (r: Option<Submission>)
    ensures r.Some? <==> p.autoSubmit.AutoSubmitTarget? && |Join(value)| == p.fieldLength
    ensures r.Some? ==> (r.value == FormSubmit <==> IsFormInstance(p.autoSubmit))
    ensures r.Some? && r.value.CallbackCall? ==> r.value.value == value
  {
    if p.autoSubmit.AutoSubmitTarget? && |Join(value)| == p.fieldLength then
      HandleAutoSubmit(p.autoSubmit, value)
    else None
  }

  /** The pasted window: slots `index .. index + k - 1` hold the pasted
      characters, with nothing pasted slot `index` holds the field's content,
      and every other slot reads as in the authoritative value. No slot at or
      beyond the field count is written, so a value of at most `fieldLength`
      slots stays within `fieldLength`. */
  lemma PasteWindow(p: Props, otp: seq<string>, index: nat, content: string, text: string)
    requires index < p.fieldLength
    ensures var cv := OrEmpty(Authoritative(p, otp));
      var k := PastedCount(p.fieldLength, index, text);
      var v := PasteValue(p, otp, index, content, text);
      && |v| == Max(|cv|, index + Max(k, 1))
      && (forall j :: index <= j < index + k ==> v[j] == [text[j - index]])
      && (k == 0 ==> v[index] == content)
      && (forall j :: 0 <= j < |v| && !(index <= j < index + Max(k, 1)) ==> v[j] == Slot(cv, j))
      && (forall j :: p.fieldLength <= j < |v| ==> v[j] == cv[j])
      && (|cv| <= p.fieldLength ==> |v| <= p.fieldLength)
  {
    var cv := OrEmpty(Authoritative(p, otp));
    var k := PastedCount(p.fieldLength, index, text);
    var w := Assign(cv, index, content);
    var chars := text[..k][..Min(p.fieldLength, k)];
    assert chars == text[..k];
    FillWindow(w, index, chars);
  }

  /** Pasting at least `fieldLength` accepted characters into the first field of
      an input whose value has at most `fieldLength` slots fills every field, one
      character each, so a configured auto-submit fires. */
  lemma PasteFillingEveryField(p: Props, otp: seq<string>, content: string, text: string)
    requires 0 < p.fieldLength <= |text|
    requires |OrEmpty(Authoritative(p, otp))| <= p.fieldLength
    ensures PasteValue(p, otp, 0, content, text) == seq(p.fieldLength, j requires 0 <= j < p.fieldLength => [text[j]])
    ensures |Join(PasteValue(p, otp, 0, content, text))| == p.fieldLength
    ensures PasteSubmit(p, PasteValue(p, otp, 0, content, text)).Some? <==> p.autoSubmit.AutoSubmitTarget?
  {
    var v := PasteValue(p, otp, 0, content, text);
    PasteWindow(p, otp, 0, content, text);
    JoinOfSingles(v);
  }

  // ---------------------------------------------------------------------------
  // The controller

  class InputOtpHook {
    /** The internal value (`useState<string[]>([])`). */
    var otp: seq<string>

    constructor ()
      ensures otp == []
    {
      otp := [];
    }

    /** `handleChange`: builds the new value from the authoritative one, lets
        the optional callback fill it in place, then hands it to `onChange`
        or stores it. */
    method HandleChange(p: Props, index: nat, content: string, callback: Option<FieldChange>)
      returns (newOtpValue: seq<string>, notified: Option<seq<string>>)
      modifies this
      ensures newOtpValue == ChangedValue(p, old(otp), index, content, callback)
      ensures notified == if p.hasOnChange then Some(newOtpValue) else None
      ensures otp == CommittedOtp(p, old(otp), newOtpValue)
    {
      var currentValue := Authoritative(p, otp);
      var newOtp := new JsArray(OrEmpty(currentValue));
      newOtp.Put(index, content);

      if NeedsReset(currentValue) {
        otp := [];
      }

      if callback.Some? {
        var fc := callback.value;
        var filled := HandleFieldChange(fc.currentIndex, fc.clipboard, fc.fieldLength, newOtp);
        assert filled == newOtp;   // the reset inside the callback is not taken
      }

      newOtpValue := newOtp.items;
      if p.hasOnChange {
        notified := Some(newOtpValue);
      } else {
        otp := newOtpValue;
        notified := None;
      }
    }

    /** `handleInput`: the field at `index` now holds `content`. */
    method HandleInput(p: Props, index: nat, content: string, kind: InputKind) returns (o: Outcome)
      requires index < p.fieldLength
      modifies this
      ensures var v := ChangedValue(p, old(otp), index, content, None);
        && otp == CommittedOtp(p, old(otp), v)
        && o == Outcome(false, if p.hasOnChange then Some(v) else None,
                        InputFocus(kind, index, p.fieldLength, p.isPreserveFocus),
                        InputSubmit(p, kind, index, v))
      ensures ValidTarget(o.focus, p.fieldLength)
      ensures |old(otp)| <= p.fieldLength ==> |otp| <= p.fieldLength
    {
      var value, notified := HandleChange(p, index, content, None);
      o := Outcome(false, notified,
                   InputFocus(kind, index, p.fieldLength, p.isPreserveFocus),
                   InputSubmit(p, kind, index, value));
    }

    /** `handlePaste`: the field at `index`, holding `content`, receives the
        clipboard text. */
    method HandlePaste(p: Props, index: nat, content: string, clipboardText: string) returns (o: Outcome)
      requires index < p.fieldLength
      modifies this
      ensures o.preventDefault
      ensures IsNotTheCharacter(p.inputType, p.inputRegex, clipboardText) ==>
                o == Outcome(true, None, NoOp, None) && otp == old(otp)
      ensures !IsNotTheCharacter(p.inputType, p.inputRegex, clipboardText) ==>
                var v := PasteValue(p, old(otp), index, content, clipboardText);
                && otp == CommittedOtp(p, old(otp), v)
                && o.notified == (if p.hasOnChange then Some(v) else None)
                && o.focus == PasteFocus(index, PastedCount(p.fieldLength, index, clipboardText), p.fieldLength)
                && o.submit == PasteSubmit(p, v)
      ensures ValidTarget(o.focus, p.fieldLength)
      ensures |old(otp)| <= p.fieldLength ==> |otp| <= p.fieldLength
    {
      if IsNotTheCharacter(p.inputType, p.inputRegex, clipboardText) {
        return Outcome(true, None, NoOp, None);
      }
      var k := PastedCount(p.fieldLength, index, clipboardText);
      var clipboardDataArray := clipboardText[..k];
      var value, notified :=
        HandleChange(p, index, content, Some(FieldChange(index, clipboardDataArray, p.fieldLength)));
      PasteWindow(p, old(otp), index, content, clipboardText);
      o := Outcome(true, notified, PasteFocus(index, |clipboardDataArray|, p.fieldLength), PasteSubmit(p, value));
    }
  }
}
