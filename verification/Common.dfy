/** Types and functions shared by every component of the model. */
module Common {

  datatype Option<+T> = None | Some(value: T)

  /** One octet of a file, a frame or a line. */
  newtype byte = x: int | 0 <= x < 256

  type Bytes = seq<byte>

  function Min(a: int, b: int): int {
    if a <= b then a else b
  }

  function Max(a: int, b: int): int {
    if a <= b then b else a
  }

  /** An ASCII hexadecimal digit, by its code. */
  predicate IsHexDigit(code: int) {
    48 <= code <= 57 || 65 <= code <= 70 || 97 <= code <= 102
  }

  /** The first position of `b` from `i` on, or the length when there is none. */
  function FindFrom(s: Bytes, b: byte, i: nat): (k: nat)
    requires i <= |s|
    ensures i <= k <= |s|
    ensures forall j :: i <= j < k ==> s[j] != b
    ensures k < |s| ==> s[k] == b
    decreases |s| - i
  {
    if i == |s| || s[i] == b then i else FindFrom(s, b, i + 1)
  }

  function Find(s: Bytes, b: byte): (k: nat)
    ensures k <= |s|
    ensures forall i :: 0 <= i < k ==> s[i] != b
    ensures k < |s| ==> s[k] == b
  {
    FindFrom(s, b, 0)
  }

  lemma FindAfter(piece: Bytes, b: byte, rest: Bytes)
    requires b !in piece
    ensures Find(piece + [b] + rest, b) == |piece|
  {
    var s := piece + [b] + rest;
    assert s[..|piece|] == piece && s[|piece|] == b;
  }
}
