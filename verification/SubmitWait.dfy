/** The registry in which block processing finds the submitter that waits for a receipt. */
module SubmitWait {
  import opened Machine

  datatype Receipt = Receipt(blockNum: u64, success: bool, events: seq<string>)

  /** A one-shot channel as its receiver would find it; Closed once the receiver is gone. */
  datatype Slot = Empty | Full(receipt: Receipt) | Dropped | Closed

  /** Which channel's sender is pending under a digest, and every channel made so far. */
  datatype Wires = Wires(pending: map<string, nat>, slots: map<nat, Slot>)

  /** No two digests wait on the same channel. */
  ghost predicate Separate(w: Wires) {
    forall d, e :: d in w.pending && e in w.pending && w.pending[d] == w.pending[e] ==> d == e
  }

  /** Dropping a sender that has not sent is seen by a receiver that is still there. */
  function SenderDropped(slots: map<nat, Slot>, channel: nat): map<nat, Slot> {
    if channel in slots && slots[channel].Empty? then slots[channel := Dropped] else slots
  }

  function Cancelled(w: Wires, digest: string): Wires {
    if digest in w.pending then Wires(w.pending - {digest}, SenderDropped(w.slots, w.pending[digest])) else w
  }

  /** A new registration replaces an earlier one and thereby drops its sender. */
  function Registered(w: Wires, digest: string, channel: nat): Wires {
    Wires(w.pending[digest := channel], Cancelled(w, digest).slots[channel := Empty])
  }

  function Completed(w: Wires, digest: string, receipt: Receipt): (Wires, bool) {
    if digest !in w.pending then (w, false)
    else
      var channel := w.pending[digest];
      if channel in w.slots && w.slots[channel].Empty?
      then (Wires(w.pending - {digest}, w.slots[channel := Full(receipt)]), true)
      else (Wires(w.pending - {digest}, w.slots), false)
  }

  /** Nothing but this digest's entry and these channels differ. */
  predicate OnlyTouches(w: Wires, w': Wires, digest: string, channels: set<nat>) {
    w.pending - {digest} == w'.pending - {digest} && w.slots - channels == w'.slots - channels
  }

  /** The channels whose sender waits under the digest. */
  function Waiting(w: Wires, digest: string): set<nat> {
    if digest in w.pending then {w.pending[digest]} else {}
  }

  /** A waiter whose sender goes away without sending finds it dropped; one that has a receipt, or
      is gone, notices nothing. */
  predicate LosesSender(w: Wires, w': Wires, channel: nat) {
    channel in w.slots ==>
      && channel in w'.slots
      && w'.slots[channel] == if w.slots[channel].Empty? then Dropped else w.slots[channel]
  }

  /** Registering a fresh channel takes the digest over from an earlier waiter; cancelling drops
      whoever waits; completing removes the entry in any case, and hands the receipt over exactly
      if a waiter without one is still there. */
  lemma RegistryExact(w: Wires, digest: string, channel: nat, receipt: Receipt)
    requires channel !in w.slots && channel !in Waiting(w, digest)
    ensures var w' := Registered(w, digest, channel);
            && OnlyTouches(w, w', digest, Waiting(w, digest) + {channel})
            && Waiting(w', digest) == {channel} && channel in w'.slots && w'.slots[channel].Empty?
            && forall c :: c in Waiting(w, digest) ==> LosesSender(w, w', c)
    ensures var w' := Cancelled(w, digest);
            && OnlyTouches(w, w', digest, Waiting(w, digest)) && Waiting(w', digest) == {}
            && forall c :: c in Waiting(w, digest) ==> LosesSender(w, w', c)
    ensures var (w', delivered) := Completed(w, digest, receipt);
            && OnlyTouches(w, w', digest, Waiting(w, digest)) && Waiting(w', digest) == {}
            && (delivered <==> exists c :: c in Waiting(w, digest) && c in w.slots && w.slots[c].Empty?)
            && (delivered ==> forall c :: c in Waiting(w, digest) ==> c in w'.slots && w'.slots[c] == Full(receipt))
            && (!delivered ==> w'.slots == w.slots)
  {
  }

  class SubmitWaitRegistry {
    var pending: map<string, nat>
    var slots: map<nat, Slot>

    function State(): Wires
      reads this
    {
      Wires(pending, slots)
    }

    constructor ()
      ensures State() == Wires(map[], map[])
    {
      pending, slots := map[], map[];
    }

    method Register(digest: string, channel: nat)
      requires channel !in slots
      modifies this
      ensures State() == Registered(old(State()), digest, channel)
    {
      if digest in pending {
        slots := SenderDropped(slots, pending[digest]);
      }
      slots := slots[channel := Empty];
      pending := pending[digest := channel];
    }

    method Cancel(digest: string)
      modifies this
      ensures State() == Cancelled(old(State()), digest)
    {
      if digest in pending {
        slots := SenderDropped(slots, pending[digest]);
        pending := pending - {digest};
      }
    }

    method Complete(digest: string, receipt: Receipt) returns (delivered: bool)
      modifies this
      ensures (State(), delivered) == Completed(old(State()), digest, receipt)
    {
      if digest !in pending {
        return false;
      }
      var channel := pending[digest];
      pending := pending - {digest};
      delivered := channel in slots && slots[channel].Empty?;
      if delivered {
        slots := slots[channel := Full(receipt)];
      }
    }
  }
}
