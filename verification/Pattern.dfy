/**
 The byte pattern: format_buf writes the numbers 0, 1, ... modulo 256 across all its calls,
 verify_buf checks them across all of its own.
 */
module Pattern {
  import opened Machine

  // data++ on a uint8_t
  function Succ(b: Byte): Byte { if b == 255 then 0 else b + 1 }

  /** The byte `n` places after `b` in the pattern. */
  function Offset(b: Byte, n: nat): Byte { if n == 0 then b else Succ(Offset(b, n - 1)) }

  lemma {:induction false} OffsetIsModulo(b: Byte, n: nat)
    ensures Offset(b, n) == (b + n) % 256
  {
    if n > 0 {
      OffsetIsModulo(b, n - 1);
      NextModulo(b + n - 1);
    }
  }

  lemma NextModulo(k: nat)
    ensures (k + 1) % 256 == if k % 256 == 255 then 0 else k % 256 + 1
  {}

  lemma {:induction false} OffsetAdds(b: Byte, m: nat, n: nat)
    ensures Offset(Offset(b, m), n) == Offset(b, m + n)
  {
    if n > 0 { OffsetAdds(b, m, n - 1); }
  }

  /** `n` bytes of the pattern, the first one being `b`. */
  function From(b: Byte, n: nat): (s: seq<Byte>)
    ensures |s| == n && forall i :: 0 <= i < n ==> s[i] == Offset(b, i)
  {
    seq(n, i requires 0 <= i < n => Offset(b, i))
  }

  lemma FromSplits(b: Byte, m: nat, n: nat)
    ensures From(b, m + n) == From(b, m) + From(Offset(b, m), n)
  {
    forall i | 0 <= i < n ensures Offset(Offset(b, m), i) == Offset(b, m + i) {
      OffsetAdds(b, m, i);
    }
  }

  /** The first position, not before `at`, where `s` departs from the pattern that starts with `b`. */
  function MismatchAt(s: seq<Byte>, b: Byte, at: nat): (m: nat)
    requires at <= |s|
    ensures at <= m <= |s|
    decreases |s| - at
  {
    if at == |s| || s[at] != Offset(b, at) then at else MismatchAt(s, b, at + 1)
  }

  function FirstMismatch(s: seq<Byte>, b: Byte): (m: nat)
    ensures m <= |s|
  {
    MismatchAt(s, b, 0)
  }

  ghost predicate DepartsAt(s: seq<Byte>, b: Byte, m: nat) {
    && m <= |s| && (forall i :: 0 <= i < m ==> s[i] == Offset(b, i))
    && (m < |s| ==> s[m] != Offset(b, m))
  }

  lemma {:induction false} MismatchAtIs(s: seq<Byte>, b: Byte, at: nat, m: nat)
    requires at <= m && DepartsAt(s, b, m)
    ensures MismatchAt(s, b, at) == m
    decreases m - at
  {
    if at < m { MismatchAtIs(s, b, at + 1, m); }
  }

  lemma {:induction false} MismatchAtDeparts(s: seq<Byte>, b: Byte, at: nat)
    requires at <= |s| && forall i :: 0 <= i < at ==> s[i] == Offset(b, i)
    ensures DepartsAt(s, b, MismatchAt(s, b, at))
    decreases |s| - at
  {
    if at < |s| && s[at] == Offset(b, at) { MismatchAtDeparts(s, b, at + 1); }
  }

  /** FirstMismatch is the one position up to which `s` is the pattern and at which it departs. */
  lemma FirstMismatchIff(s: seq<Byte>, b: Byte, m: nat)
    ensures FirstMismatch(s, b) == m <==> DepartsAt(s, b, m)
  {
    MismatchAtDeparts(s, b, 0);
    if DepartsAt(s, b, m) { MismatchAtIs(s, b, 0, m); }
  }

  lemma PrefixIsPattern(s: seq<Byte>, b: Byte, m: nat)
    requires m <= |s| && s[..m] == From(b, m) && (m < |s| ==> s[m] != Offset(b, m))
    ensures FirstMismatch(s, b) == m
  {
    assert forall i :: 0 <= i < m ==> s[i] == s[..m][i];
    FirstMismatchIff(s, b, m);
  }

  lemma FromGrows(s: seq<Byte>, b: Byte, i: nat)
    requires i < |s| && s[..i] == From(b, i) && s[i] == Offset(b, i)
    ensures s[..i + 1] == From(b, i + 1)
  {
    assert s[..i + 1] == s[..i] + [s[i]];
  }

  // ---------------------------------------------------------------- the program

  function AtLeastZero(size: int): nat { if size < 0 then 0 else size }

  /** The static variables of the two functions. */
  class Statics {
    var formatData: Byte
    var verifyData: Byte
    var totalBytes: nat

    constructor ()
      ensures formatData == 0 && verifyData == 0 && totalBytes == 0
    {
      formatData, verifyData, totalBytes := 0, 0, 0;
    }

    method FormatBuf(buf: array<Byte>, size: int)
      requires size <= buf.Length
      modifies buf, this`formatData
      ensures forall k :: 0 <= k < size ==> buf[k] == Offset(old(formatData), k)
      ensures forall k :: 0 <= k < buf.Length && size <= k ==> buf[k] == old(buf[k])
      ensures formatData == Offset(old(formatData), AtLeastZero(size))
    {
      ghost var first := formatData;
      var i := 0;
      while i < size
        invariant 0 <= i <= AtLeastZero(size) && formatData == Offset(first, i)
        invariant buf[..i] == From(first, i)
        invariant forall k :: i <= k < buf.Length ==> buf[k] == old(buf[k])
      {
        buf[i] := formatData;
        formatData := Succ(formatData);
        i := i + 1;
      }
    }

    /** On a mismatch the expected byte has already moved on, the byte count has not. */
    method VerifyBuf(buf: array<Byte>, size: int) returns (ret: int)
      requires size <= buf.Length
      modifies this`verifyData, this`totalBytes
      ensures (VerifierState(verifyData, totalBytes), ret)
              == Verify(VerifierState(old(verifyData), old(totalBytes)), buf[..AtLeastZero(size)])
      ensures ret == if Continues(buf[..AtLeastZero(size)], old(verifyData)) then 0 else -1
    {
      ghost var first, s := verifyData, buf[..AtLeastZero(size)];
      VerifyReturns(VerifierState(verifyData, totalBytes), s);
      var i := 0;
      while i < size
        invariant 0 <= i <= AtLeastZero(size) && verifyData == Offset(first, i) && totalBytes == old(totalBytes) + i
        invariant s[..i] == From(first, i)
      {
        var expected := verifyData;
        verifyData := Succ(verifyData);
        if buf[i] != expected {
          assert s[i] == buf[i];
          PrefixIsPattern(s, first, i);
          return -1;
        }
        FromGrows(s, first, i);
        i, totalBytes := i + 1, totalBytes + 1;
      }
      PrefixIsPattern(s, first, i);
      ret := 0;
    }
  }

  datatype Verifier = VerifierState(data: Byte, total: nat)

  /** verify_buf as a function of its static variables and the bytes it is given. */
  function Verify(v: Verifier, s: seq<Byte>): (Verifier, int) {
    var m := FirstMismatch(s, v.data);
    if m == |s| then (VerifierState(Offset(v.data, m), v.total + m), 0)
    else (VerifierState(Offset(v.data, m + 1), v.total + m), -1)
  }

  predicate Continues(s: seq<Byte>, b: Byte) { forall k :: 0 <= k < |s| ==> s[k] == Offset(b, k) }

  /** 0 when all bytes continue the pattern, and -1 otherwise. */
  lemma VerifyReturns(v: Verifier, s: seq<Byte>)
    ensures Verify(v, s).1 == if Continues(s, v.data) then 0 else -1
  {
    FirstMismatchIff(s, v.data, FirstMismatch(s, v.data));
  }

  // ---------------------------------------------------------------- streams

  function Flatten(chunks: seq<seq<Byte>>): seq<Byte> {
    if chunks == [] then [] else chunks[0] + Flatten(chunks[1..])
  }

  /** What a sequence of format_buf calls of the given sizes writes. */
  function Formatted(b: Byte, sizes: seq<nat>): seq<seq<Byte>>
    decreases |sizes|
  {
    if sizes == [] then [] else [From(b, sizes[0])] + Formatted(Offset(b, sizes[0]), sizes[1..])
  }

  function SumSizes(sizes: seq<nat>): nat {
    if sizes == [] then 0 else sizes[0] + SumSizes(sizes[1..])
  }

  lemma {:induction false} FormattedIsPattern(b: Byte, sizes: seq<nat>)
    ensures Flatten(Formatted(b, sizes)) == From(b, SumSizes(sizes))
    decreases |sizes|
  {
    if sizes != [] {
      FormattedIsPattern(Offset(b, sizes[0]), sizes[1..]);
      FromSplits(b, sizes[0], SumSizes(sizes[1..]));
      assert Formatted(b, sizes)[1..] == Formatted(Offset(b, sizes[0]), sizes[1..]);
    }
  }

  /** The number of the first call that returns -1, and the variables after it; or the number
      of calls, when all of them return 0. */
  function VerifyAll(v: Verifier, chunks: seq<seq<Byte>>): (nat, Verifier)
    decreases |chunks|
  {
    if chunks == [] then (0, v)
    else
      var (v', ret) := Verify(v, chunks[0]);
      if ret != 0 then (0, v')
      else
        var (k, w) := VerifyAll(v', chunks[1..]);
        (k + 1, w)
  }

  lemma MismatchSplits(a: seq<Byte>, c: seq<Byte>, b: Byte)
    ensures FirstMismatch(a, b) < |a| ==> FirstMismatch(a + c, b) == FirstMismatch(a, b)
    ensures FirstMismatch(a, b) == |a| ==> FirstMismatch(a + c, b) == |a| + FirstMismatch(c, Offset(b, |a|))
  {
    var m, k := FirstMismatch(a, b), FirstMismatch(c, Offset(b, |a|));
    FirstMismatchIff(a, b, m);
    if m < |a| {
      FirstMismatchIff(a + c, b, m);
    } else {
      FirstMismatchIff(c, Offset(b, |a|), k);
      DepartsInSecond(a, c, b, k);
      FirstMismatchIff(a + c, b, |a| + k);
    }
  }

  lemma DepartsInSecond(a: seq<Byte>, c: seq<Byte>, b: Byte, k: nat)
    requires DepartsAt(a, b, |a|) && DepartsAt(c, Offset(b, |a|), k)
    ensures DepartsAt(a + c, b, |a| + k)
  {
    forall i | |a| <= i < |a| + k ensures (a + c)[i] == Offset(b, i) {
      OffsetAdds(b, |a|, i - |a|);
      assert (a + c)[i] == c[i - |a|];
    }
    OffsetAdds(b, |a|, k);
  }

  /** However the stream is cut into calls, the calls see the stream: all return 0 exactly
      when all of it is the pattern, and otherwise the call that contains the first altered
      byte returns -1, with the position of that byte in `total_bytes`. */
  lemma {:induction false} VerifyAllSeesStream(v: Verifier, chunks: seq<seq<Byte>>)
    ensures var (k, w) := VerifyAll(v, chunks); var m := FirstMismatch(Flatten(chunks), v.data);
      && (k == |chunks| <==> m == |Flatten(chunks)|)
      && k <= |chunks|
      && w.total == v.total + m
      && (k < |chunks| ==>
           |Flatten(chunks[..k])| <= m < |Flatten(chunks[..k + 1])|)
    decreases |chunks|
  {
    if chunks != [] {
      var a, rest := chunks[0], chunks[1..];
      var (v', ret) := Verify(v, a);
      MismatchSplits(a, Flatten(rest), v.data);
      if ret != 0 {
        assert chunks[..1] == [a] && chunks[..1][1..] == [];
      } else {
        VerifyAllSeesStream(v', rest);
        var (k, _) := VerifyAll(v', rest);
        assert chunks[..k + 1][1..] == rest[..k];
        if k < |rest| {
          assert chunks[..k + 2][1..] == rest[..k + 1];
        }
      }
    }
  }

  /** Formatting in pieces of any sizes and verifying in pieces of any other sizes succeeds. */
  lemma FormattedIsAccepted(sizes: seq<nat>, chunks: seq<seq<Byte>>)
    requires Flatten(chunks) == Flatten(Formatted(0, sizes))
    ensures VerifyAll(VerifierState(0, 0), chunks) == (|chunks|, VerifierState(Offset(0, SumSizes(sizes)), SumSizes(sizes)))
  {
    FormattedIsPattern(0, sizes);
    FirstMismatchIff(Flatten(chunks), 0, SumSizes(sizes));
    VerifyAllSeesStream(VerifierState(0, 0), chunks);
    VerifyAllData(VerifierState(0, 0), chunks);
  }

  lemma {:induction false} VerifyAllData(v: Verifier, chunks: seq<seq<Byte>>)
    requires VerifyAll(v, chunks).0 == |chunks|
    ensures VerifyAll(v, chunks).1 == VerifierState(Offset(v.data, |Flatten(chunks)|), v.total + |Flatten(chunks)|)
    decreases |chunks|
  {
    if chunks != [] {
      OffsetAdds(v.data, |chunks[0]|, |Flatten(chunks[1..])|);
      VerifyAllData(Verify(v, chunks[0]).0, chunks[1..]);
    }
  }

  /** After a failed call the two functions are in step again only by chance: the rest of the
      stream is accepted exactly when the length of the unread part of the bad chunk is a
      multiple of 256. */
  lemma ResyncIff(v: Verifier, bad: seq<Byte>, n: nat)
    requires Verify(v, bad).1 != 0 && n > 0
    ensures Verify(Verify(v, bad).0, From(Offset(v.data, |bad|), n)).1 == 0
            <==> Unread(v, bad) % 256 == 0
  {
    var m := FirstMismatch(bad, v.data);
    assert m < |bad|;
    SameOffsetIff(v.data, m + 1, |bad|);
    AcceptedIff(Offset(v.data, m + 1), Offset(v.data, |bad|), n);
    OffsetIsModulo(0, Unread(v, bad));
  }

  // the bytes of a chunk that a failed call did not look at
  function Unread(v: Verifier, bad: seq<Byte>): nat {
    if FirstMismatch(bad, v.data) < |bad| then |bad| - FirstMismatch(bad, v.data) - 1 else 0
  }

  lemma AcceptedIff(expected: Byte, first: Byte, n: nat)
    requires n > 0
    ensures FirstMismatch(From(first, n), expected) == n <==> expected == first
  {
    assert From(first, n)[0] == Offset(first, 0);
    FirstMismatchIff(From(first, n), expected, if expected == first then n else 0);
  }

  lemma SameOffsetIff(b: Byte, m: nat, n: nat)
    requires m <= n
    ensures Offset(b, m) == Offset(b, n) <==> Offset(0, n - m) == 0
  {
    OffsetAdds(b, m, n - m);
    FixedOffsetIff(Offset(b, m), n - m);
  }

  lemma FixedOffsetIff(b: Byte, k: nat)
    ensures Offset(b, k) == b <==> Offset(0, k) == 0
  {
    assert Offset(b, k) == (b + k) % 256 by { OffsetIsModulo(b, k); }
    assert Offset(0, k) == (0 + k) % 256 by { OffsetIsModulo(0, k); }
    FixedModulo(b, k);
  }

  lemma FixedModulo(b: Byte, k: nat)
    ensures (b + k) % 256 == b <==> k % 256 == 0
  {}
}
