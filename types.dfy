/** The value types shared by the current and the legacy input: the option
    values of the widget and the effects a handler asks its host to perform. */
module OtpTypes {

  datatype Option<T> = None | Some(value: T)

  /** The `inputType` option. */
  datatype InputType =
    | All
    | Custom
    | Numeric
    | Alphabet
    | Symbol
    | AlphabetSymbol
    | AlphabetNumeric
    | NumericSymbol
  {
    /** The six types that have an entry in a character-class dictionary. */
    predicate IsStandard() {
      this != All && this != Custom
    }
  }

  /** The `inputRegex` option, used when `inputType` is `custom`. What a
      pattern accepts is left abstract: `test` is its `RegExp.prototype.test`. */
  datatype InputRegex =
    | NoRegex                                             // null or undefined
    | RegexString(source: string, test: string -> bool)   // compiled with `new RegExp(source)`
    | RegexObject(test: string -> bool)                   // a `RegExp` value
  {
    /** JavaScript truthiness of the option value: the empty string is falsy. */
    predicate IsTruthy() {
      RegexObject? || (RegexString? && source != "")
    }
  }

  /** The `autoSubmit` option: null/undefined, or an object (a form instance or a
      callback function) described by the names of its members. */
  datatype AutoSubmit = NoAutoSubmit | AutoSubmitTarget(members: set<string>)

  /** What the auto-submit dispatch does: call the form's `submit()`, or call
      the callback with the value. */
  datatype Submission = FormSubmit | CallbackCall(value: seq<string>)

  /** The DOM focus call a handler makes, on the field with the given index. */
  datatype FocusAction =
    | Select(field: nat)   // `select()`: focus and select its text
    | Focus(field: nat)    // `focus()`
    | Blur(field: nat)     // `blur()`
    | NoOp

  predicate ValidTarget(f: FocusAction, fieldCount: nat) {
    match f
    case Select(i) => i < fieldCount
    case Focus(i) => i < fieldCount
    case Blur(i) => i < fieldCount
    case NoOp => true
  }

  /** What a `keydown` handler does: whether it calls `preventDefault()`, and its focus move. */
  datatype KeyDownResult = KeyDownResult(preventDefault: bool, focus: FocusAction)
}
