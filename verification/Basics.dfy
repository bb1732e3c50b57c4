// Shared vocabulary: optional values, replies of service calls, and ASCII case folding.
module Basics {

  datatype Option<+T> = None | Some(value: T)

  datatype Result<+T, +E> = Success(value: T) | Failure(error: E)

  /** ASCII lower-casing of one character, as `str.lower` does on hex digits. */
  function LowerChar(c: char): char {
    if 'A' <= c <= 'Z' then (c as int + 32) as char else c
  }

  function UpperChar(c: char): char {
    if 'a' <= c <= 'z' then (c as int - 32) as char else c
  }

  function Lower(s: string): (r: string)
    ensures |r| == |s|
    ensures forall i :: 0 <= i < |s| ==> r[i] == LowerChar(s[i])
  {
    seq(|s|, i requires 0 <= i < |s| => LowerChar(s[i]))
  }

  function Upper(s: string): (r: string)
    ensures |r| == |s|
    ensures forall i :: 0 <= i < |s| ==> r[i] == UpperChar(s[i])
  {
    seq(|s|, i requires 0 <= i < |s| => UpperChar(s[i]))
  }

  /** Writes some letters of `s` in upper case: the mixed case of a checksummed address. */
  function Recase(s: string, mask: seq<bool>): (r: string)
    ensures |r| == |s|
    ensures forall i :: 0 <= i < |s| ==> r[i] == s[i] || r[i] == UpperChar(s[i])
  {
    seq(|s|, i requires 0 <= i < |s| => if i < |mask| && mask[i] then UpperChar(s[i]) else s[i])
  }

  /** Whatever letters a checksum capitalises, lower-casing undoes it. */
  lemma LowerUndoesRecase(s: string, mask: seq<bool>)
    ensures Lower(Recase(s, mask)) == Lower(s)
  {
    var r := Recase(s, mask);
    forall i | 0 <= i < |s|
      ensures Lower(r)[i] == Lower(s)[i]
    {
      assert r[i] == s[i] || r[i] == UpperChar(s[i]);
    }
    assert Lower(r) == Lower(s);
  }
}
