# antd-input-otp: a verified model of the segmented OTP input

This project models the logic behind a segmented one-time-password input: a row of
N single-character fields that act as one value, an array of N strings. The model covers:

- the helpers: clamping the field count to 2..16, looking up sibling fields and a field's
  index, the character gate and the auto-submit capability test;
- the two character-class rejection tables, the current one and the legacy one;
- the current value controller (`useInputOTP` in `InputOTP.hook.ts`). It keeps the internal
  `otp` array in step with the external `value`/`onChange` pair. It also handles typing,
  Backspace, the arrow keys, paste, and the auto-submit;
- the legacy controller (`InputOTP.hooks.ts`), with its value held in a ref.

Fields are identified by their index `0..N-1`. Each DOM call is returned as an action
(`Select(i)`, `Focus(i)`, `Blur(i)`, `NoOp`, `preventDefault`, the `onChange` argument,
the auto-submit). A handler never performs the call itself.

Modules, leaf to root:

- `CharClasses` (`char_classes.dfy`): `\d`, ASCII letters, `\w`, and `\s` (the ECMAScript
  whitespace and line-terminator code points).
- `Regex` (`regex.dfy`): the regular-expression fragment that the tables use. A pattern is an
  alternation of single-character sets. `Test` is `RegExp.prototype.test`, which scans the
  start positions from left to right.
- `OtpTypes` (`types.dfy`): the option values (input type, custom regex, auto-submit target)
  and the returned actions.
- `Constant` (`constant.dfy`) and `LegacyConstants` (`constants.dfy`): the two
  `kRegexDictionary` tables, transcribed pattern by pattern. Each is proved against a
  reference definition of the characters every type admits.
- `Util` (`util.dfy`): `getSibling`, `getCurrentIndex`, `isNotTheCharacter`, `makeLength`,
  `isFormInstance`.
- `JsArrays` (`js_array.dfy`): JavaScript string arrays. Writing past the end grows the array,
  and a hole reads as `""`. The class `JsArray` is an array object shared by reference, which
  the paste callback fills in place.
- `Hook` (`hook.dfy`): the current controller. The class `InputOtpHook` owns `otp`. The
  methods `HandleChange`, `HandleInput` and `HandlePaste` update it, and the key and focus
  decisions are pure functions.
- `LegacyHooks` (`hooks.dfy`): the legacy controller, the class `LegacyInputOtpHook`, which
  owns `otpValue`.
- `Scenarios` (`scenarios.dfy`): the repository's unit tests and worked examples, replayed as
  client code against the contracts.

## Model

| member | source | states |
|---|---|---|
| Regex.TestIffSomeChar | src/lib/InputOTP.util.ts:42 | a dictionary pattern's `test` succeeds on a string exactly when some character of it matches one of the pattern's single-character alternatives |
| Constant.DictionaryMeaning | src/lib/InputOTP.constant.ts:7-12 | each current pattern matches a character exactly when its type does not admit it. numeric admits digits; alphabet admits ASCII letters; alphabet-numeric admits letters and digits, so `_` is rejected. alphabet-symbol admits anything but digits and whitespace; numeric-symbol anything but letters and whitespace; symbol anything but letters, digits and whitespace, so `_` is accepted |
| Constant.DictionaryTest | src/lib/InputOTP.constant.ts:7-12 | a current pattern finds a match in a string exactly when some character of the string is not admitted by its type |
| Util.GetSibling | src/lib/InputOTP.util.ts:8-14 | the previous sibling exists exactly when the position is above 0 and is the child before it; the next one exists exactly when a child follows and is that child |
| Util.GetCurrentIndex | src/lib/InputOTP.util.ts:22-26 | `indexOf`: -1 exactly when the target is not among the children; otherwise the first position holding it |
| Util.CurrentIndexIsPosition | src/lib/InputOTP.util.ts:22-26 | among distinct children the index of a child is its position (`b` in `a,b,c` is 1) |
| Util.FieldNavigation | src/lib/InputOTP.util.ts:8-26 | on the fields 0..n-1, field i has i-1 before it (none at 0) and i+1 after it (none at n-1), and index i |
| Util.IsNotTheCharacter | src/lib/InputOTP.util.ts:28-45 | never rejects under `all`. Under `custom` it rejects exactly when a truthy regex is given and does not match the value. Under a standard type it rejects exactly when some character of the value is out of class |
| Util.StandardAcceptsExactly | src/lib/InputOTP.util.ts:39-44 | under a standard type a string is accepted exactly when every character is admitted. So one character out of class rejects the whole string, and the empty string is never rejected |
| Util.PairsAcceptUnions | src/lib/InputOTP.constant.ts:7-12 | on a single character each two-class type accepts exactly what one of its two component types accepts |
| Util.MakeLength | src/lib/InputOTP.util.ts:47-51 | the field count lies in [2,16]. It is the requested length when that lies in [2,16], and otherwise the value of [2,16] nearest to it (1 gives 2, 20 gives 16) |
| Util.MakeLengthIdempotent | src/lib/InputOTP.util.ts:47-51 | clamping twice is clamping once |
| Util.IsFormInstance | src/lib/InputOTP.util.ts:53-58 | a missing target is not a form; a present one is exactly when it has a `submit` member |
| JsArrays.Assign | src/lib/InputOTP.hook.ts:67-68 | writing slot i leaves i holding the new string and the array max(len, i+1) long; every other slot reads as before, and the holes read as empty |
| JsArrays.JoinEmptyIff | src/lib/InputOTP.hook.ts:70 | `join('')` is empty exactly when every slot is empty |
| JsArrays.JoinOfSingles | src/lib/InputOTP.hook.ts:181 | when every slot holds one character, the joined length is the number of slots |
| JsArrays.JsArray.Put | src/lib/InputOTP.hook.ts:42 | an element write on the shared array object grows and fills it as `Assign` states |
| Hook.HandleAutoSubmit | src/lib/InputOTP.hook.ts:20-26 | a form instance is submitted; any other present target is called with the value; a missing one does nothing |
| Hook.FillWindow | src/lib/InputOTP.hook.ts:39-43 | the paste loop's writes overwrite exactly the slots start..start+k-1, each with its pasted character. Every other slot reads as before, and the length is max(len, start+k) |
| Hook.HandleFieldChange | src/lib/InputOTP.hook.ts:32-45 | fills the array it is handed, in place, with the first min(fieldLength, k) pasted characters from `currentIndex` on. Only an empty array is replaced, by a fresh array of `fieldLength` empty slots |
| Hook.HandleChangeSetsOneSlot | src/lib/InputOTP.hook.ts:65-68 | `handleChange` copies the authoritative value and sets slot `index` to the field's content; every other slot reads as before |
| Hook.ControlledModeByOnChange | src/lib/InputOTP.hook.ts:65-74 | with `onChange`, `otp` is reset to `[]` exactly when `value` is missing or all its slots are empty, and is kept otherwise. Without `onChange`, `otp` becomes the new value |
| Hook.ResetBranchDead | src/lib/InputOTP.hook.ts:36-37 | the array `handleChange` hands to the paste callback already has slot `index`, so the empty-array reset never runs |
| Hook.InputOtpHook.constructor | src/lib/InputOTP.hook.ts:57 | the internal value starts empty |
| Hook.InputOtpHook.HandleChange | src/lib/InputOTP.hook.ts:60-79 | the callback fills the same array object that is then handed to `onChange` or stored; the new `otp` is the one the last `setOtp` of the call leaves |
| Hook.InputFocus | src/lib/InputOTP.hook.ts:85-102 | an insertion in the last field blurs it unless focus is preserved, and then does nothing. An insertion elsewhere selects i+1. A backward deletion selects i-1 (nothing at 0). Any other input does nothing. Every target is a valid field |
| Hook.InputSubmit | src/lib/InputOTP.hook.ts:88-96 | auto-submit fires exactly on an insertion into the last field, with a target set and the joined value as long as the field count. A form is submitted; a callback gets the value |
| Hook.InputOtpHook.HandleInput | src/lib/InputOTP.hook.ts:83-105 | the new value, the `onChange` call, the focus and the auto-submit are those of the functions above. The focus targets a valid field, and `otp` stays within `fieldLength` slots |
| Hook.HandleKeyPress | src/lib/InputOTP.hook.ts:110-117 | Enter is never suppressed; any other key is suppressed exactly when the character gate rejects it |
| Hook.HandleKeyDown | src/lib/InputOTP.hook.ts:121-140 | Backspace on a filled field does nothing. Backspace on an empty field, and ArrowLeft, prevent the default and select i-1; ArrowRight prevents it and selects i+1. At either end the move does nothing, every other key does nothing, and every target is a valid field |
| Hook.PastedCount | src/lib/InputOTP.hook.ts:160-162 | k = min(payload length, fieldLength - index), so the window ends at or before the last field |
| Hook.PasteFocus | src/lib/InputOTP.hook.ts:169-179 | with nothing pasted the receiving field is selected; otherwise field min(index+k, N-1) is focused; always a valid field |
| Hook.PasteSubmit | src/lib/InputOTP.hook.ts:181-182 | after a paste, auto-submit fires exactly when a target is set and the joined value is as long as the field count, whatever field received the paste |
| Hook.PasteWindow | src/lib/InputOTP.hook.ts:160-167 | an accepted paste overwrites exactly slots index..index+k-1 with the pasted characters; every other slot is as after the slot write. No slot at or beyond the field count is written, and a value within the field count stays within it |
| Hook.PasteFillingEveryField | src/lib/InputOTP.hook.ts:160-182 | pasting at least N accepted characters into field 0 of a value of at most N slots fills every field with one character, so a configured auto-submit fires |
| Hook.InputOtpHook.HandlePaste | src/lib/InputOTP.hook.ts:144-185 | the default is always prevented. A rejected payload changes nothing: no value, no focus, no submit. Otherwise the value, focus and submit are those of the paste functions, and `otp` stays within `fieldLength` slots |
| LegacyConstants.LegacyDictionaryMeaning | src/lib/InputOTP.constants.ts:7-12 | each legacy pattern matches a character exactly when its legacy type does not admit it. numeric admits digits and alphabet ASCII letters; alphabet-numeric and symbol admit letters and digits. alphabet-symbol admits anything but digits, and numeric-symbol anything but letters |
| LegacyConstants.LegacyDictionaryTest | src/lib/InputOTP.constants.ts:7-12 | a legacy pattern finds a match in a string exactly when some character is not admitted |
| LegacyConstants.SymbolIsAlphabetNumeric | src/lib/InputOTP.constants.ts:8-12 | `symbol` is the very pattern of `alphabet-numeric`, so it accepts exactly the strings of ASCII letters and digits |
| LegacyConstants.TablesDiverge | src/lib/InputOTP.constants.ts:9-12 | a space passes the legacy alphabet-symbol and numeric-symbol but is rejected by the current ones; `_` passes the current symbol but not the legacy one |
| LegacyHooks.HandleKeyPress | src/lib/InputOTP.hooks.ts:20-35 | a key is suppressed exactly when the type is custom, a truthy regex is given and it does not match, or when the type is set and standard and some character is out of its legacy class |
| LegacyHooks.EnterSuppressedUnderNumeric | src/lib/InputOTP.hooks.ts:25-32 | there is no Enter exemption: under numeric the legacy gate suppresses Enter, which the current gate lets through |
| LegacyHooks.HandleKeyDown | src/lib/InputOTP.hooks.ts:69-90 | the default is prevented exactly for ArrowLeft, ArrowRight and Backspace on an empty field; nothing else moves focus; targets are valid fields |
| LegacyHooks.KeyDownAgreesWithCurrent | src/lib/InputOTP.hooks.ts:69-90 | the legacy navigation equals the current one on every input; Enter never prevents the default |
| LegacyHooks.ParseIdIndex | src/lib/InputOTP.hooks.ts:47-49 | `Number(...)` always yields a number, so the null/undefined guard never fails; an empty id reads as 0 |
| LegacyHooks.DecimalRoundTrip | src/lib/InputOTP.hooks.ts:47-49 | the decimal numeral of an index is all digits and reads back as that index |
| LegacyHooks.ChangeFocus | src/lib/InputOTP.hooks.ts:59-62 | the next field is selected exactly when the new content is non-empty and a next field exists; otherwise nothing. The `blur()` branch is unreachable |
| LegacyHooks.LegacyInputOtpHook.constructor | src/lib/InputOTP.hooks.ts:11 | `otpValue.current` starts empty |
| LegacyHooks.LegacyInputOtpHook.HandleChange | src/lib/InputOTP.hooks.ts:43-65 | copies `otpValue.current` and writes the slot parsed from the element id (always, since the guard never fails). It stores the copy back, passes it to `onChange` when one is given, and makes the focus call of `ChangeFocus` |
| LegacyHooks.UnlabelledFieldWritesSlotZero | src/lib/InputOTP.hooks.ts:47-54 | a field whose element has no id writes its input to slot 0, whatever its position |
| LegacyHooks.LabelledFieldWritesOwnSlot | src/lib/InputOTP.hooks.ts:47-54 | a field carrying the id `antd-input-otp-<position>` writes its input to its own slot |

## Left out

- React machinery (`useState`, `useCallback`, `useRef`, render batching): state is a class field, and the last `setOtp` of a handler wins.
- The DOM: `select()`, `focus()`, `blur()`, `preventDefault()`, sibling and child lookup, `clipboardData` and `nativeEvent.inputType`. These become field indices, explicit parameters (the field's content, the clipboard text, the input kind) and returned actions.
- The number of rendered fields of the current input is taken to be `fieldLength`. The component that renders it is not part of this model, so the handlers require the event's field index to be below `fieldLength`.
- `handleFocus` (both hooks): it only selects the focused field's own text, with no value or index involved.
- A custom `RegExp` with the `g` or `y` flag makes `test` stateful through `lastIndex` (src/lib/InputOTP.util.ts:33-37, src/lib/InputOTP.hooks.ts:22-26). The model's custom `test` is a pure function of the string, so such a pattern's answer depending on earlier calls is not captured.
- The order of effects within one handler is not recorded. `Hook.Outcome` is an unordered record of the `onChange` argument, the focus call and the auto-submit. The source calls `onChange` before the auto-submit, calls the auto-submit before the focus call in `handleInput`, and makes the focus call before the auto-submit in `handlePaste`.
- The custom pattern is an abstract `test` function. `new RegExp(source)` throwing on bad syntax is not modelled; the dictionary patterns carry no flags, so `lastIndex` plays no part.
- UTF-16: a character outside the Basic Multilingual Plane is one `char` here, while `split('')` and the regular expressions see two code units. For the dictionaries the verdict is the same; a pasted astral character fills one slot here and two in the source.
- Exceptions: an auto-submit target that throws, or a present target that is neither a form nor a function, is recorded as the call only.
- Holes in arrays and `undefined` slots read as `""`; `join('')` treats both alike.
- Util.MakeLength: takes an integer; NaN and fractional lengths are not modelled.
- LegacyHooks.ParseIdIndex: an id that is a decimal numeral, with or without the prefix at its start, reads as that numeral; the empty id and the bare prefix read as 0; every other id reads as NaN. `Number`'s whitespace trimming, signs, fractions, exponents, hexadecimal forms, rounding above 2^53, and a prefix that is not at the start of the id are not modelled.
- `src/lib/InputOTP.component.tsx`, `src/lib/InputOTP.type.ts`, `src/lib/InputOTP.types.ts`, the build and commit-lint configuration and the tests are not part of this model (render glue, type declarations, tooling; the tests are replayed in `Scenarios`).

## Notes on the code's behaviour

- Paste focus: paste calls `focus()` on field min(index+k, N-1), where k is the number of characters pasted, and `select()` only when nothing was pasted, and then on the receiving field.
- Reset on an empty value: `handleChange` calls `setOtp([])` when the authoritative value is missing or empty. Without `onChange` the reset is overridden by the final `setOtp`, so it only shows in controlled mode.
- Controlled mode is decided by `onChange` alone, and a missing `value` is read as an empty array.

## Findings

| source | as written | input that shows it | evidently intended | confidence | as-written member | corrected member |
|---|---|---|---|---|---|---|
| src/lib/InputOTP.hooks.ts:47-54 | The legacy `handleChange` writes the slot `Number(id.replace(/antd-input-otp-/, ""))`. The fields rendered for this hook (src/lib/InputOTP.component.tsx:78-105) carry no id, so `id` is "", `Number("")` is 0, and every input lands in slot 0 | typing "7" into the fourth field of an empty six-field input makes the value `["7"]` | each field writes its own slot: `["", "", "", "7"]`, with the field carrying the id `antd-input-otp-3` | medium, not executed | LegacyHooks.UnlabelledFieldWritesSlotZero | LegacyHooks.LabelledFieldWritesOwnSlot |
