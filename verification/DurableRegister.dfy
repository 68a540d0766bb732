/**
 The specification the three protocols share: a register to which one writer at a time
 writes a new version, which then becomes durable and is then acknowledged.
 */
module DurableRegister {

  /** `acked` versions are acknowledged, `durable` ones survive a crash, and `pending` says
      that a further write has begun. */
  datatype Register = Register(acked: nat, durable: nat, pending: bool)

  const EMPTY := Register(0, 0, false)

  predicate Begin(r: Register, r': Register) {
    !r.pending && r' == r.(pending := true)
  }

  predicate MakeDurable(r: Register, r': Register) {
    r.pending && r.durable == r.acked && r' == r.(durable := r.acked + 1)
  }

  predicate Acknowledge(r: Register, r': Register) {
    r.pending && r.durable == r.acked + 1 && r' == Register(r.acked + 1, r.durable, false)
  }

  predicate Next(r: Register, r': Register) {
    r' == r || Begin(r, r') || MakeDurable(r, r') || Acknowledge(r, r')
  }

  ghost predicate Behaviour(rs: seq<Register>) {
    rs != [] && rs[0] == EMPTY && forall i :: 0 < i < |rs| ==> Next(rs[i - 1], rs[i])
  }

  /** The images a crash may leave: each byte from a durable version or the one being written. */
  ghost predicate MaySurvive(r: Register, image: seq<nat>) {
    forall b :: 0 <= b < |image| ==> r.durable <= image[b] <= r.acked + if r.pending then 1 else 0
  }

  predicate WellFormed(r: Register) {
    r.acked <= r.durable <= r.acked + if r.pending then 1 else 0
  }

  lemma {:induction false} BehaviourIsWellFormed(rs: seq<Register>, i: nat)
    requires Behaviour(rs) && i < |rs|
    ensures WellFormed(rs[i])
  {
    if i > 0 {
      BehaviourIsWellFormed(rs, i - 1);
      assert Next(rs[i - 1], rs[i]);
    }
  }

  /** Acknowledged versions are never lost, however long the behaviour goes on. */
  lemma {:induction false} AcknowledgedIsNeverLost(rs: seq<Register>, i: nat, j: nat, image: seq<nat>)
    requires Behaviour(rs) && i <= j < |rs| && MaySurvive(rs[j], image)
    ensures rs[i].acked <= rs[j].acked
    ensures forall b :: 0 <= b < |image| ==> rs[i].acked <= image[b]
  {
    BehaviourIsWellFormed(rs, j);
    AckedGrows(rs, i, j);
  }

  lemma {:induction false} AckedGrows(rs: seq<Register>, i: nat, j: nat)
    requires Behaviour(rs) && i <= j < |rs|
    ensures rs[i].acked <= rs[j].acked
  {
    if i < j {
      AckedGrows(rs, i, j - 1);
      assert Next(rs[j - 1], rs[j]);
    }
  }
}
