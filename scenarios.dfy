/** The unit tests and worked examples of the input, replayed against the
    model as client code that sees only the contracts. */
module Scenarios {
  import opened CharClasses
  import opened OtpTypes
  import opened JsArrays
  import opened Util
  import opened Hook
  import LegacyHooks

  function DigitsPattern(s: string): bool {
    exists i :: 0 <= i < |s| && IsDigit(s[i])
  }

  /** The helper tests: clamp, capability test, index and sibling lookup,
      custom and numeric rejection of "abc". */
  method UtilExamples() {
    assert MakeLength(1) == 2 && MakeLength(4) == 4 && MakeLength(20) == 16;
    assert !IsFormInstance(NoAutoSubmit);
    assert IsFormInstance(AutoSubmitTarget({"getFieldValue", "resetFields", "submit"}));
    var children := ["a", "b", "c"];
    assert GetCurrentIndex(children, "b") == 1;
    assert GetSibling(children, 1) == Sibling(Some("a"), Some("c"));
    var custom := RegexObject(DigitsPattern);
    assert !DigitsPattern("abc");
    assert IsNotTheCharacter(Custom, custom, "abc");
    assert IsNotTheCharacter(Numeric, custom, "abc") by {
      assert !IsDigit("abc"[0]);
    }
    assert !IsNotTheCharacter(Custom, NoRegex, "abc");
  }

  /** With `onChange` given and no `value`, typing "1" into the first field
      reports `["1"]`; Enter passes the key gate. */
  method ControlledInputReportsTypedSlot() {
    var p := Props(NoAutoSubmit, 6, NoRegex, All, false, true, None);
    var hook := new InputOtpHook();
    var o := hook.HandleInput(p, 0, "1", InsertText);
    assert Assign([], 0, "1") == ["1"];
    assert o.notified == Some(["1"]);
    assert o.focus == Select(1);
    assert hook.otp == [];
    assert !HandleKeyPress(p, "Enter");
  }

  /** A six-field numeric input without controller: typing 1, 2, 3 into the
      first three fields stores ["1", "2", "3"] and leaves field 3 selected. */
  method UncontrolledTyping() {
    var p := Props(NoAutoSubmit, 6, NoRegex, Numeric, false, false, None);
    var hook := new InputOtpHook();
    var o := hook.HandleInput(p, 0, "1", InsertText);
    o := hook.HandleInput(p, 1, "2", InsertText);
    o := hook.HandleInput(p, 2, "3", InsertText);
    assert hook.otp == ["1", "2", "3"];
    assert o.focus == Select(3) && o.submit == None;
  }

  /** Pasting "123456" into the first field of an empty six-field numeric input
      fills every field, focuses the last one and submits once. */
  method PasteFillsAndSubmits() {
    var p := Props(AutoSubmitTarget({}), 6, NoRegex, Numeric, false, false, None);
    var hook := new InputOtpHook();
    assert !IsNotTheCharacter(Numeric, NoRegex, "123456");
    var o := hook.HandlePaste(p, 0, "", "123456");
    PasteFillingEveryField(p, [], "", "123456");
    assert hook.otp == ["1", "2", "3", "4", "5", "6"];
    assert o.focus == Focus(5);
    assert o.submit == Some(CallbackCall(["1", "2", "3", "4", "5", "6"]));
  }

  /** A rejected paste changes nothing. */
  method RejectedPasteChangesNothing() {
    var p := Props(AutoSubmitTarget({"submit"}), 4, NoRegex, Numeric, false, false, None);
    var hook := new InputOtpHook();
    assert IsNotTheCharacter(Numeric, NoRegex, "12a4") by {
      assert !IsDigit("12a4"[2]);
    }
    var o := hook.HandlePaste(p, 1, "", "12a4");
    assert o == Outcome(true, None, NoOp, None) && hook.otp == [];
  }

  /** The legacy hook starts empty and Enter does not reach `preventDefault`;
      its unlabelled fields write every input to slot 0. */
  method LegacyExamples() {
    var hook := new LegacyHooks.LegacyInputOtpHook();
    assert hook.otpValue == [];
    assert LegacyHooks.HandleKeyDown("Enter", "6", 5, 6).preventDefault == false;
    var notified, focus := hook.HandleChange(LegacyHooks.LegacyProps(NoRegex, Some(Numeric), true), "", 3, 6, "7");
    LegacyHooks.UnlabelledFieldWritesSlotZero([], "7");
    assert hook.otpValue == ["7"];
    assert focus == Select(4);

    // The same keystroke in a field carrying its own id lands in slot 3.
    var labelled := new LegacyHooks.LegacyInputOtpHook();
    notified, focus := labelled.HandleChange(LegacyHooks.LegacyProps(NoRegex, Some(Numeric), true), LegacyHooks.FieldId(3), 3, 6, "7");
    LegacyHooks.LabelledFieldWritesOwnSlot([], 3, "7");
    assert JsArrays.Assign([], 3, "7")[3] == "7";
    assert |labelled.otpValue| == 4 && labelled.otpValue[3] == "7";
  }
}
