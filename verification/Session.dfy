/**
 The example client and server: negotiate a buffer, write a string into it, read it back and
 compare.  Lengths travel in 32-bit fields, and that decides when the comparison succeeds.
 */
module Session {
  import opened CompletionEvents
  import opened Machine

  const REM_ACCESS_ERR: nat := 10

  // a length in a uint32_t field
  function Len32(n: nat): (r: nat)
    ensures r <= n && (r == n <==> n < UINT32)
    ensures r < UINT32 && (n - r) % UINT32 == 0
  {
    n % UINT32
  }

  // ---------------------------------------------------------------- C strings

  // strlen
  function StrLen(buf: seq<Byte>): nat { |CStr(buf, 0)| }

  // strcmp
  function StrCmp(a: seq<Byte>, b: seq<Byte>): int
    requires 0 in a && 0 in b
  {
    if a[0] != b[0] then a[0] - b[0] else if a[0] == 0 then 0 else StrCmp(a[1..], b[1..])
  }

  lemma {:induction false} StrCmpZero(a: seq<Byte>, b: seq<Byte>)
    requires 0 in a && 0 in b
    ensures StrCmp(a, b) == 0 <==> CStr(a, 0) == CStr(b, 0)
  {
    if a[0] == b[0] && a[0] != 0 {
      StrCmpZero(a[1..], b[1..]);
      if CStr(a, 0) == CStr(b, 0) {
        assert CStr(a, 0)[1..] == CStr(a[1..], 0) && CStr(b, 0)[1..] == CStr(b[1..], 0);
      }
    } else if a[0] != b[0] {
      assert a[0] != 0 ==> CStr(a, 0)[0] == a[0];
      assert b[0] != 0 ==> CStr(b, 0)[0] == b[0];
    }
  }

  /** The value comes from the first byte in which the two strings differ. */
  lemma {:induction false} StrCmpFirst(a: seq<Byte>, b: seq<Byte>, i: nat)
    requires 0 in a && 0 in b && i < |a| && i < |b|
    requires a[..i] == b[..i] && 0 !in a[..i] && a[i] != b[i]
    ensures StrCmp(a, b) == a[i] as int - b[i] as int
  {
    if i > 0 {
      assert a[..i][0] == a[0] && b[..i][0] == b[0];
      assert a[1..][..i - 1] == a[..i][1..] && b[1..][..i - 1] == b[..i][1..];
      StrCmpFirst(a[1..], b[1..], i - 1);
    }
  }

  function Zeros(n: nat): seq<Byte> { seq(n, i => 0) }

  /** What strncpy leaves in a buffer one byte longer than `str`: the string, padded with NULs. */
  function Copied(str: seq<Byte>): seq<Byte> {
    CStr(str, 0) + Zeros(|str| + 1 - |CStr(str, 0)|)
  }

  lemma CStrOfPadded(s: seq<Byte>, n: nat)
    requires 0 !in s && n > 0
    ensures CStr(s + Zeros(n), 0) == s
  {
    CStrStops(s, Zeros(n), 0);
  }

  /** The test `ret != n` that follows every call of process_work_completion_events: 0 when
      exactly n good completions came, otherwise the value the caller returns. */
  function Expecting(r: Result, n: nat): int {
    match r
    case Done(cs) => if |cs| == n then 0 else |cs|
    case Failed(ret) => ret
    case _ => -1
  }

  lemma VerdictOfOne(c: Completion)
    ensures Verdict([c]) == if c.status == SUCCESS then Done([c]) else Failed(-(c.status as int))
  {
    assert [c][1..] == [];
  }

  /** The status of an RDMA access with the key the server advertised.  The server sends its
      local key; an access of no bytes does not look at the key. */
  function AccessStatus(keyValid: bool, length: nat): nat {
    if keyValid || length == 0 then SUCCESS else REM_ACCESS_ERR
  }

  // ---------------------------------------------------------------- the two programs

  class Server {
    const cq: CompletionQueue
    var buffer: array<Byte>

    constructor ()
      ensures cq.Balanced() && cq.queue == [] && cq.pending == []
      ensures fresh(cq) && fresh(buffer)
    {
      cq := new CompletionQueue();
      buffer := new Byte[0];
    }

    /** Receives the client's request, allocates a zeroed buffer of that length and answers. */
    method ExchangeMetadataWithClient(requested: nat) returns (ret: int)
      requires cq.Balanced() && cq.queue == [] && |cq.pending| == 1 && AllGood(cq.pending)
      modifies this`buffer, cq
      ensures ret == 0 && fresh(buffer) && buffer[..] == Zeros(requested)
      ensures cq.Balanced() && cq.Stream() == []
    {
      assert cq.Stream() == cq.pending;
      var r := cq.ProcessWorkCompletionEvents(1);
      buffer := new Byte[requested](i => 0);
      assert cq.Stream() == [];
      cq.Expect(Completion(1, SUCCESS));
      ret := Expecting(r, 1);
      r := cq.ProcessWorkCompletionEvents(1);
      ret := if ret != 0 then ret else Expecting(r, 1);
    }
  }

  class Client {
    const cq: CompletionQueue
    var src: array<Byte>
    var dst: array<Byte>

    constructor ()
      ensures cq.Balanced() && cq.queue == [] && cq.pending == []
      ensures fresh(cq)
    {
      cq := new CompletionQueue();
      src, dst := new Byte[0], new Byte[0];
    }

    method SetSrc(str: seq<Byte>)
      modifies this`src
      ensures fresh(src) && src[..] == Copied(str)
    {
      src := new Byte[|str| + 1](i => 0);
      var i := 0;
      while i < |str| && str[i] != 0
        invariant i <= |CStr(str, 0)| && src.Length == |str| + 1 && fresh(src)
        invariant src[..] == CStr(str, 0)[..i] + Zeros(|str| + 1 - i)
      {
        assert i < |CStr(str, 0)|;
        src[i] := str[i];
        i := i + 1;
      }
      assert i == |CStr(str, 0)|;
    }

    method AllocDst(str: seq<Byte>)
      modifies this`dst
      ensures fresh(dst) && dst[..] == Zeros(|str| + 1)
    {
      dst := new Byte[|str| + 1](i => 0);
    }

    /** Asks for a buffer of strlen(src) bytes, in a 32-bit field, and waits for two completions. */
    method ExchangeMetadataWithServer(server: Server) returns (ret: int)
      requires cq != server.cq && cq.Balanced() && cq.Stream() == []
      requires server.cq.Balanced() && server.cq.queue == [] && server.cq.pending == []
      modifies cq, server`buffer, server.cq
      ensures ret == 0 && fresh(server.buffer) && server.buffer[..] == Zeros(Len32(StrLen(src[..])))
      ensures cq.Balanced() && cq.Stream() == []
    {
      cq.Expect(Completion(0, SUCCESS));
      server.cq.Expect(Completion(0, SUCCESS));
      ret := server.ExchangeMetadataWithClient(Len32(StrLen(src[..])));
      cq.Expect(Completion(1, SUCCESS));
      assert |cq.Stream()| == 2;
      var r := cq.ProcessWorkCompletionEvents(2);
      ret := if ret != 0 then ret else Expecting(r, 2);
    }

    /** Waits for the one request just posted. */
    method AwaitOne(c: Completion) returns (ret: int)
      requires cq.Balanced() && cq.Stream() == []
      modifies cq
      ensures cq.Balanced() && cq.Stream() == [] && ret == -(c.status as int)
    {
      cq.Expect(c);
      assert cq.Stream() == [c] && cq.Stream()[..1] == [c];
      VerdictOfOne(c);
      var r := cq.ProcessWorkCompletionEvents(1);
      ret := Expecting(r, 1);
    }

    /** The WRITE: the adapter copies strlen(src) bytes, counted in 32 bits, to the server. */
    method SendWrite(server: Server, keyValid: bool) returns (ret: int)
      requires cq.Balanced() && cq.Stream() == []
      requires server.buffer.Length == Len32(StrLen(src[..])) && server.buffer != src
      modifies cq, server.buffer
      ensures cq.Balanced() && cq.Stream() == []
      ensures src[..] == old(src[..])
      ensures ret == -(AccessStatus(keyValid, Len32(StrLen(src[..]))) as int)
      ensures ret == 0 ==> server.buffer[..] == src[..Len32(StrLen(src[..]))]
      ensures ret != 0 ==> server.buffer[..] == old(server.buffer[..])
    {
      var length := Len32(StrLen(src[..]));
      var status := AccessStatus(keyValid, length);
      assert length <= StrLen(src[..]) <= src.Length;
      if status == SUCCESS {
        forall i | 0 <= i < length {
          server.buffer[i] := src[i];
        }
      }
      ghost var text := src[..];
      ret := AwaitOne(Completion(2, status));
      assert src[..] == text;
    }

    /** The READ: the same number of bytes comes back into dst. */
    method SendRead(server: Server, keyValid: bool) returns (ret: int)
      requires cq.Balanced() && cq.Stream() == []
      requires server.buffer.Length == Len32(StrLen(src[..])) && server.buffer != dst && src != dst
      requires dst.Length > StrLen(src[..])
      modifies cq, dst
      ensures cq.Balanced() && cq.Stream() == []
      ensures src[..] == old(src[..]) && server.buffer[..] == old(server.buffer[..])
      ensures ret == -(AccessStatus(keyValid, Len32(StrLen(src[..]))) as int)
      ensures ret == 0 ==> dst[..] == server.buffer[..] + old(dst[..])[server.buffer.Length..]
      ensures ret != 0 ==> dst[..] == old(dst[..])
    {
      var length := Len32(StrLen(src[..]));
      var status := AccessStatus(keyValid, length);
      if status == SUCCESS {
        forall i | 0 <= i < length {
          dst[i] := server.buffer[i];
        }
      }
      ghost var text := src[..];
      ret := AwaitOne(Completion(3, status));
      assert src[..] == text;
    }

    method CmpData() returns (ret: int)
      requires 0 in src[..] && 0 in dst[..]
      ensures ret == StrCmp(src[..], dst[..])
      ensures ret == 0 <==> CStr(src[..], 0) == CStr(dst[..], 0)
    {
      ret := StrCmp(src[..], dst[..]);
      StrCmpZero(src[..], dst[..]);
    }
  }

  // ---------------------------------------------------------------- the whole session

  datatype Outcome = Compared(cmp: int) | Stopped(ret: int)

  lemma CopiedLength(data: seq<Byte>)
    ensures |Copied(data)| == |data| + 1 && CStr(Copied(data), 0) == CStr(data, 0)
    ensures 0 in Copied(data)
    ensures forall k :: |CStr(data, 0)| <= k <= |data| ==> Copied(data)[k] == 0
  {
    CStrOfPadded(CStr(data, 0), |data| + 1 - |CStr(data, 0)|);
    assert Copied(data)[|data|] == 0;
  }

  /** When the first `n` bytes of the string have come back and the rest of dst is still zero. */
  lemma ReadBackEquals(src: seq<Byte>, n: nat)
    requires 0 in src && n <= StrLen(src) < |src|
    ensures var dst := src[..n] + Zeros(|src| - n);
      0 in dst && (StrCmp(src, dst) == 0 <==> n == StrLen(src))
  {
    var dst := src[..n] + Zeros(|src| - n);
    assert dst[|src| - 1] == 0;
    assert src[..n] == CStr(src, 0)[..n];
    CStrOfPadded(src[..n], |src| - n);
    StrCmpZero(src, dst);
  }

  /** send_write and send_read, one after the other. */
  method WriteThenRead(client: Client, server: Server, keyValid: bool) returns (ret: int)
    requires client.cq.Balanced() && client.cq.Stream() == []
    requires server.buffer.Length == Len32(StrLen(client.src[..]))
    requires client.src != client.dst && server.buffer != client.src && server.buffer != client.dst
    requires client.src.Length == client.dst.Length && StrLen(client.src[..]) < client.src.Length
    requires client.dst[..] == Zeros(client.dst.Length)
    modifies client.cq, client.dst, server.buffer
    ensures client.src[..] == old(client.src[..])
    ensures var n := Len32(StrLen(client.src[..]));
      && ret == -(AccessStatus(keyValid, n) as int)
      && (ret == 0 ==> client.dst[..] == client.src[..n] + Zeros(client.dst.Length - n))
  {
    ret := client.SendWrite(server, keyValid);
    if ret != 0 {
      return;
    }
    ghost var n := Len32(StrLen(client.src[..]));
    assert client.dst[..] == Zeros(client.dst.Length);
    ret := client.SendRead(server, keyValid);
    assert Zeros(client.dst.Length)[n..] == Zeros(client.dst.Length - n);
  }

  /** Both programs up to the first RDMA access. */
  method Setup(data: seq<Byte>) returns (client: Client, server: Server, ret: int)
    ensures fresh(client) && fresh(server) && fresh(client.cq) && fresh(client.dst) && fresh(server.buffer)
    ensures client.cq.Balanced() && client.cq.Stream() == []
    ensures client.src[..] == Copied(data) && client.dst[..] == Zeros(|data| + 1) && ret == 0
    ensures client.src != client.dst && server.buffer != client.src && server.buffer != client.dst
    ensures server.buffer.Length == Len32(StrLen(client.src[..]))
  {
    client := new Client();
    server := new Server();
    client.SetSrc(data);
    client.AllocDst(data);
    ret := client.ExchangeMetadataWithServer(server);
    assert client.src[..] == Copied(data);
    assert server.buffer.Length == |server.buffer[..]|;
  }

  /** For every string and key: the access is refused exactly when the key is not valid and the
      length in the 32-bit field is not 0; otherwise the data read back compares equal exactly
      when its length fits the field.  No step of the session waits for ever. */
  method RunSession(data: seq<Byte>, keyValid: bool) returns (r: Outcome)
    ensures var n := |CStr(data, 0)|;
      if keyValid || n % UINT32 == 0 then r.Compared? && (r.cmp == 0 <==> n < UINT32) else r == Stopped(-10)
  {
    var client, server, ret := Setup(data);
    CopiedLength(data);
    r := Transfer(client, server, keyValid);
  }

  /** What is left of the session once the buffer is negotiated. */
  method Transfer(client: Client, server: Server, keyValid: bool) returns (r: Outcome)
    requires client.cq.Balanced() && client.cq.Stream() == []
    requires server.buffer.Length == Len32(StrLen(client.src[..]))
    requires client.src != client.dst && server.buffer != client.src && server.buffer != client.dst
    requires client.src.Length == client.dst.Length && StrLen(client.src[..]) < client.src.Length && 0 in client.src[..]
    requires client.dst[..] == Zeros(client.dst.Length)
    modifies client.cq, client.dst, server.buffer
    ensures var n := StrLen(old(client.src[..]));
      if AccessStatus(keyValid, Len32(n)) == SUCCESS then r.Compared? && (r.cmp == 0 <==> n < UINT32)
      else r == Stopped(-(REM_ACCESS_ERR as int))
  {
    ghost var src := client.src[..];
    var ret := WriteThenRead(client, server, keyValid);
    if ret != 0 {
      return Stopped(ret);
    }
    ReadBackEquals(src, Len32(StrLen(src)));
    ret := client.CmpData();
    r := Compared(ret);
  }
}
