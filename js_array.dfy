/** JavaScript arrays of strings as the input uses them: writing past the end
    grows the array and leaves holes, and a hole reads as `undefined`, which
    `join('')` prints as nothing. A hole is modelled as the empty string. */
module JsArrays {

  function Max(a: int, b: int): int {
    if a < b then b else a
  }

  function Min(a: int, b: int): int {
    if a < b then a else b
  }

  /** `Array(n).fill('')`. */
  function Blank(n: nat): (r: seq<string>)
    ensures |r| == n && forall j :: 0 <= j < n ==> r[j] == ""
  {
    seq(n, _ => "")
  }

  /** Reading slot `j`: a hole or a slot past the end reads as empty. */
  function Slot(s: seq<string>, j: nat): string {
    if j < |s| then s[j] else ""
  }

  /** `s[i] = v` on a copy: slot `i` holds `v`, the array is at least `i + 1`
      long, and every other slot reads as before. */
  function Assign(s: seq<string>, i: nat, v: string): (r: seq<string>)
    ensures |r| == Max(|s|, i + 1)
    ensures r[i] == v
    ensures forall j :: 0 <= j < |r| && j != i ==> r[j] == Slot(s, j)
  {
    if i < |s| then s[i := v] else s + Blank(i - |s|) + [v]
  }

  /** `join('')`. */
  function Join(s: seq<string>): string {
    if s == [] then "" else s[0] + Join(s[1..])
  }

  /** The joined value is empty exactly when every slot is empty. */
  lemma {:induction false} JoinEmptyIff(s: seq<string>)
    ensures |Join(s)| == 0 <==> forall j :: 0 <= j < |s| ==> s[j] == ""
  {
    if s != [] {
      JoinEmptyIff(s[1..]);
      assert forall j :: 1 <= j < |s| ==> s[j] == s[1..][j - 1];
    }
  }

  /** When every slot holds one character the joined length is the slot count. */
  lemma {:induction false} JoinOfSingles(s: seq<string>)
    requires forall j :: 0 <= j < |s| ==> |s[j]| == 1
    ensures |Join(s)| == |s|
  {
    if s != [] {
      assert forall j :: 0 <= j < |s[1..]| ==> s[1..][j] == s[j + 1];
      JoinOfSingles(s[1..]);
    }
  }

  /** A JavaScript `string[]` object, shared by reference. */
  class JsArray {
    var items: seq<string>

    /** `[...init]`. */
    constructor (init: seq<string>)
      ensures items == init
    {
      items := init;
    }

    /** `this[i] = v`. */
    method Put(i: nat, v: string)
      modifies this
      ensures items == Assign(old(items), i, v)
    {
      if i < |items| {
        items := items[i := v];
      } else {
        items := items + Blank(i - |items|) + [v];
      }
    }
  }
}
