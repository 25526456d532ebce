/** The helpers of the current input: sibling and index lookup (on the list of
    field elements instead of the DOM), the character gate, the field-count
    clamp and the auto-submit capability test. */
module Util {
  import opened CharClasses
  import opened Regex
  import opened OtpTypes
  import opened Constant

  // ---------------------------------------------------------------------------
  // Sibling and index lookup

  /** The neighbours of a field among its parent's children. */
  datatype Sibling<T> = Sibling(prevTarget: Option<T>, nextTarget: Option<T>)

  /** `getSibling`: `previousElementSibling` and `nextElementSibling` of the
      child at position `pos`. */
  function GetSibling<T>(children: seq<T>, pos: nat): (r: Sibling<T>)
    requires pos < |children|
    ensures r.prevTarget.Some? <==> pos > 0
    ensures r.prevTarget.Some? ==> r.prevTarget.value == children[pos - 1]
    ensures r.nextTarget.Some? <==> pos + 1 < |children|
    ensures r.nextTarget.Some? ==> r.nextTarget.value == children[pos + 1]
  {
    Sibling(if pos == 0 then None else Some(children[pos - 1]),
            if pos + 1 == |children| then None else Some(children[pos + 1]))
  }

  /** `getCurrentIndex`: `Array.prototype.indexOf` of the target among its
      parent's children; -1 when it is not one of them. */
  function GetCurrentIndex<T(==)>(children: seq<T>, target: T): (r: int)
    ensures -1 <= r < |children|
    ensures r == -1 <==> target !in children
    ensures r >= 0 ==> children[r] == target && forall j :: 0 <= j < r ==> children[j] != target
  {
    if children == [] then -1
    else if children[0] == target then 0
    else
      var k := GetCurrentIndex(children[1..], target);
      if k == -1 then -1 else k + 1
  }

  /** The rendered fields of an input with `n` fields, each named by its position. */
  function Fields(n: nat): (r: seq<nat>)
    ensures |r| == n && forall i :: 0 <= i < n ==> r[i] == i
  {
    seq(n, i => i)
  }

  predicate Distinct<T(==)>(s: seq<T>) {
    forall i, j :: 0 <= i < j < |s| ==> s[i] != s[j]
  }

  /** Among distinct children, the index lookup of a child is its position. */
  lemma CurrentIndexIsPosition<T>(children: seq<T>, pos: nat)
    requires Distinct(children) && pos < |children|
    ensures GetCurrentIndex(children, children[pos]) == pos
  {
    var r := GetCurrentIndex(children, children[pos]);
    assert r != -1;
    if r < pos {
      assert false;
    }
  }

  /** On the rendered fields, field `i` has `i - 1` before it (none at 0), `i + 1`
      after it (none at the last) and index `i`. */
  lemma FieldNavigation(n: nat, i: nat)
    requires i < n
    ensures GetSibling(Fields(n), i).prevTarget == if i == 0 then None else Some(i - 1)
    ensures GetSibling(Fields(n), i).nextTarget == if i + 1 == n then None else Some(i + 1)
    ensures GetCurrentIndex(Fields(n), i) == i
  {
    CurrentIndexIsPosition(Fields(n), i);
  }

  // ---------------------------------------------------------------------------
  // Character gate

  /** `isNotTheCharacter`: whether a key or pasted text is rejected. */
  function IsNotTheCharacter(inputType: InputType, inputRegex: InputRegex, value: string): (r: bool)
    ensures inputType == All ==> !r
    ensures inputType == Custom ==>
              (r <==> inputRegex.IsTruthy() && !inputRegex.test(value))
    ensures inputType.IsStandard() ==>
              (r <==> exists i :: 0 <= i < |value| && !Admits(inputType, value[i]))
  {
    var customInputType := inputType == Custom && inputRegex.IsTruthy() && !inputRegex.test(value);
    var standardInputType :=
      inputType != All && inputType != Custom &&
      (DictionaryTest(inputType, value); Test(Dictionary(inputType), value));
    customInputType || standardInputType
  }

  /** Under a standard type a string is accepted exactly when every character is
      admitted, so the empty string is never rejected and one character out of
      class rejects the whole string. */
  lemma StandardAcceptsExactly(t: InputType, r: InputRegex, s: string)
    requires t.IsStandard()
    ensures !IsNotTheCharacter(t, r, s) <==> forall i :: 0 <= i < |s| ==> Admits(t, s[i])
    ensures !IsNotTheCharacter(t, r, "")
  {
  }

  /** On a single character, each two-class type accepts exactly what one of its
      two component types accepts. */
  lemma {:induction false} PairsAcceptUnions(r: InputRegex, c: char)
    ensures !IsNotTheCharacter(AlphabetNumeric, r, [c]) <==>
              !IsNotTheCharacter(Alphabet, r, [c]) || !IsNotTheCharacter(Numeric, r, [c])
    ensures !IsNotTheCharacter(AlphabetSymbol, r, [c]) <==>
              !IsNotTheCharacter(Alphabet, r, [c]) || !IsNotTheCharacter(Symbol, r, [c])
    ensures !IsNotTheCharacter(NumericSymbol, r, [c]) <==>
              !IsNotTheCharacter(Numeric, r, [c]) || !IsNotTheCharacter(Symbol, r, [c])
  {
    var ts := [AlphabetNumeric, Alphabet, Numeric, AlphabetSymbol, Symbol, NumericSymbol];
    forall k | 0 <= k < |ts|
      ensures !IsNotTheCharacter(ts[k], r, [c]) <==> Admits(ts[k], c)
    {
      StandardAcceptsExactly(ts[k], r, [c]);
    }
  }

  // ---------------------------------------------------------------------------
  // Field count and auto-submit target

  function Distance(a: int, b: int): nat {
    if a <= b then b - a else a - b
  }

  /** `makeLength`: the field count is the value of [2, 16] nearest to the
      requested length, so the requested length itself when it lies there. */
  function MakeLength(length: int): (r: int)
    ensures 2 <= r <= 16
    ensures 2 <= length <= 16 ==> r == length
    ensures forall k :: 2 <= k <= 16 ==> Distance(r, length) <= Distance(k, length)
  {
    if length < 2 then 2
    else if length > 16 then 16
    else length
  }

  lemma MakeLengthIdempotent(length: int)
    ensures MakeLength(MakeLength(length)) == MakeLength(length)
  {
  }

  /** `isFormInstance`: a missing target is not a form; a present one is
      exactly when it has a `submit` member. */
  function IsFormInstance(data: AutoSubmit): (r: bool)
    ensures data.NoAutoSubmit? ==> !r
    ensures data.AutoSubmitTarget? ==> (r <==> "submit" in data.members)
  {
    if data.NoAutoSubmit? then false else "submit" in data.members
  }
}
