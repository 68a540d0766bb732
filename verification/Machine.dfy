/**
 What the C and C++ sources take from their machine: widths, error numbers, strings that
 end at a NUL.
 */
module Machine {

  const UINT32: nat := 0x1_0000_0000
  const UINT64: nat := 0x1_0000_0000_0000_0000
  const INT64_LIMIT: nat := 0x8000_0000_0000_0000

  const ENOMEM := 12

  type Byte = b: int | 0 <= b < 256

  function Min(a: nat, b: nat): nat { if a < b then a else b }

  /** What a reader of a C string sees of a buffer: everything before the first NUL. */
  function CStr<T(==)>(buf: seq<T>, nul: T): (s: seq<T>)
    ensures s <= buf && nul !in s
    ensures |s| < |buf| ==> buf[|s|] == nul
  {
    if buf == [] || buf[0] == nul then [] else [buf[0]] + CStr(buf[1..], nul)
  }

  lemma {:induction false} CStrStops<T>(text: seq<T>, rest: seq<T>, nul: T)
    requires nul !in text && rest != [] && rest[0] == nul
    ensures CStr(text + rest, nul) == text
  {
    if text == [] {
      assert text + rest == rest;
    } else {
      CStrStops(text[1..], rest, nul);
      assert (text + rest)[1..] == text[1..] + rest;
    }
  }
}
