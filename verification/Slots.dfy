/**
 Where each connection's slot lies in the mapped persistent memory.  All of it is computed
 in 32-bit unsigned arithmetic, and that decides when the layout is sound.
 */
module Slots {
  import opened Machine

  function MulUint32(a: nat, b: nat): (r: nat)
    ensures r < UINT32
    ensures a * b < UINT32 ==> r == a * b
    ensures (a * b - r) % UINT32 == 0
  {
    MulNonNegative(a, b);
    a * b % UINT32
  }

  lemma MulNonNegative(a: nat, b: nat)
    ensures a * b >= 0
  {}

  // message_size*node->id
  function Offset(messageSize: nat, id: nat): nat { MulUint32(messageSize, id) }

  /** The offset is the 32-bit remainder of the product, whatever its size. */
  lemma OffsetWraps(messageSize: nat, id: nat)
    ensures Offset(messageSize, id) < 0x1_0000_0000
    ensures (messageSize * id - Offset(messageSize, id)) % 0x1_0000_0000 == 0
  {}

  /** The test alloc_nodes makes before it returns 0. */
  predicate Accepts(messageSize: nat, connections: nat, mappedLen: nat) {
    mappedLen >= MulUint32(messageSize, connections)
  }

  /** Without wrap-around the test is exact: it asks for just the bytes that the slots take. */
  lemma AcceptsIff(messageSize: nat, connections: nat, mappedLen: nat)
    requires messageSize * connections < UINT32
    ensures Accepts(messageSize, connections, mappedLen) <==> messageSize * connections <= mappedLen
  {}

  predicate Inside(messageSize: nat, id: nat, mappedLen: nat) {
    Offset(messageSize, id) + messageSize <= mappedLen
  }

  predicate Apart(messageSize: nat, i: nat, j: nat) {
    || Offset(messageSize, i) + messageSize <= Offset(messageSize, j)
    || Offset(messageSize, j) + messageSize <= Offset(messageSize, i)
  }

  ghost predicate SoundLayout(messageSize: nat, connections: nat, mappedLen: nat) {
    && (forall i: nat :: i < connections ==> Inside(messageSize, i, mappedLen))
    && (forall i: nat, j: nat :: i < j < connections ==> Apart(messageSize, i, j))
  }

  lemma MulMonotone(a: nat, b: nat, c: nat)
    requires b <= c
    ensures a * b <= a * c
  {}

  lemma NoWrapIsSound(messageSize: nat, connections: nat, mappedLen: nat)
    requires messageSize * connections < UINT32 && Accepts(messageSize, connections, mappedLen)
    ensures SoundLayout(messageSize, connections, mappedLen)
  {
    forall i: nat | i < connections
      ensures Offset(messageSize, i) == messageSize * i && Inside(messageSize, i, mappedLen)
    {
      MulMonotone(messageSize, i + 1, connections);
      assert messageSize * (i + 1) == messageSize * i + messageSize;
    }
    forall i: nat, j: nat | i < j < connections
      ensures Apart(messageSize, i, j)
    {
      MulMonotone(messageSize, i + 1, j);
      assert messageSize * (i + 1) == messageSize * i + messageSize;
    }
  }

  /** The first id whose slot would end at or beyond 2^32. */
  lemma {:induction false} FirstBeyond(messageSize: nat, connections: nat) returns (i: nat)
    requires messageSize * connections >= UINT32
    ensures i < connections && messageSize * i < UINT32 <= messageSize * (i + 1)
  {
    assert connections > 0;
    if messageSize * (connections - 1) < UINT32 {
      i := connections - 1;
    } else {
      i := FirstBeyond(messageSize, connections - 1);
    }
  }

  /** The acceptance test is good enough for every mapping exactly when the total size does
      not wrap: otherwise some mapping passes it although a slot sticks out of it. */
  lemma LayoutSoundIff(messageSize: nat, connections: nat)
    ensures (forall mappedLen: nat :: Accepts(messageSize, connections, mappedLen)
                ==> SoundLayout(messageSize, connections, mappedLen))
            <==> messageSize * connections < UINT32
  {
    if messageSize * connections < UINT32 {
      forall mappedLen: nat | Accepts(messageSize, connections, mappedLen)
        ensures SoundLayout(messageSize, connections, mappedLen)
      {
        NoWrapIsSound(messageSize, connections, mappedLen);
      }
    } else {
      var i := FirstBeyond(messageSize, connections);
      var small := MulUint32(messageSize, connections);
      assert Accepts(messageSize, connections, small);
      assert messageSize * (i + 1) == messageSize * i + messageSize;
      assert !Inside(messageSize, i, small);
    }
  }
}
