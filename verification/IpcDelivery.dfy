/** The delivery loop of a send, in closed form: the message goes to the oldest blocked receiver
    that can take it, everything older is woken with its error, everything younger waits on. */
module IpcDelivery {
  import opened Words
  import P = ProcessModel
  import opened IpcModel

  /** Blocked on endpoint `e` with a buffer to fill. */
  predicate Receiver(p: P.Process, e: nat) { Waits(p, e) && p.wait.buffer != 0 }

  /** Receivers of `e` are all younger than `skipped`, and no two share a sequence number. */
  ghost predicate Queued(t: P.Table, e: nat, skipped: nat) {
    && (forall i: nat | i < P.SLOTS && Receiver(t.entries[i], e) :: t.entries[i].wait.sequence > skipped)
    && (forall i: nat, j: nat | i < j < P.SLOTS && Receiver(t.entries[i], e) && Receiver(t.entries[j], e) ::
          t.entries[i].wait.sequence != t.entries[j].wait.sequence)
  }

  lemma {:induction false} OldestIsLeast(t: P.Table, e: nat, skipped: nat, i: nat, best: Option<nat>)
    requires i <= P.SLOTS
    requires best.Some? ==> best.value < i && Candidate(t.entries[best.value], e, skipped)
    requires forall j: nat | j < i && Candidate(t.entries[j], e, skipped) ::
               best.Some? && t.entries[best.value].wait.sequence <= t.entries[j].wait.sequence
    ensures
      var r := Oldest(t, e, skipped, i, best);
      forall j: nat | j < P.SLOTS && Candidate(t.entries[j], e, skipped) ::
        r.Some? && t.entries[r.value].wait.sequence <= t.entries[j].wait.sequence
    decreases P.SLOTS - i
  {
    if i < P.SLOTS {
      if Candidate(t.entries[i], e, skipped)
         && (best.None? || t.entries[i].wait.sequence < t.entries[best.value].wait.sequence) {
        OldestIsLeast(t, e, skipped, i + 1, Some(i));
      } else {
        OldestIsLeast(t, e, skipped, i + 1, best);
      }
    }
  }

  /** Slot `i` is woken by a delivery that ended at `taker`. */
  predicate Reached(t: P.Table, e: nat, taker: Option<nat>, i: nat)
    requires i < P.SLOTS && (taker.Some? ==> taker.value < P.SLOTS)
  {
    Receiver(t.entries[i], e)
    && (taker.Some? ==> t.entries[i].wait.sequence <= t.entries[taker.value].wait.sequence)
  }

  /** What a delivery that ended at `taker` did to slot `i`. */
  ghost predicate SlotDelivered(t: P.Table, t': P.Table, e: nat, verdicts: seq<Verdict>, taker: Option<nat>, i: nat)
    requires i < P.SLOTS && (taker.Some? ==> taker.value < P.SLOTS) && |verdicts| == P.SLOTS
  {
    && t'.entries[i] == (if Reached(t, e, taker, i)
                         then P.Woken(t.entries[i], P.Ready, VerdictResult(verdicts[i])) else t.entries[i])
    && (Reached(t, e, taker, i) && Some(i) != taker ==> verdicts[i] != Copied)
  }

  ghost predicate Delivered(t: P.Table, t': P.Table, e: nat, verdicts: seq<Verdict>, taker: Option<nat>)
    requires |verdicts| == P.SLOTS
  {
    && t'.current == t.current && t'.live == t.live
    && (taker.Some? ==> taker.value < P.SLOTS && Receiver(t.entries[taker.value], e)
                        && verdicts[taker.value] == Copied)
    && forall i: nat | i < P.SLOTS :: SlotDelivered(t, t', e, verdicts, taker, i)
  }

  /** The strictly oldest receiver of `e`. */
  ghost predicate IsOldest(t: P.Table, e: nat, w: nat) {
    && w < P.SLOTS && Receiver(t.entries[w], e)
    && forall i: nat | i < P.SLOTS && Receiver(t.entries[i], e) && i != w ::
         t.entries[w].wait.sequence < t.entries[i].wait.sequence
  }

  /** Waking the oldest receiver first and delivering to the rest is delivering to all. */
  lemma DeliverNext(t: P.Table, t': P.Table, e: nat, verdicts: seq<Verdict>, taker: Option<nat>, w: nat)
    requires |verdicts| == P.SLOTS && IsOldest(t, e, w) && verdicts[w] != Copied
    requires Delivered(WakeSlot(t, w, VerdictResult(verdicts[w])), t', e, verdicts, taker)
    ensures Delivered(t, t', e, verdicts, taker)
  {
    var t1 := WakeSlot(t, w, VerdictResult(verdicts[w]));
    forall i: nat | i < P.SLOTS ensures SlotDelivered(t, t', e, verdicts, taker, i) {
      assert SlotDelivered(t1, t', e, verdicts, taker, i);
      assert i != w ==> t1.entries[i] == t.entries[i];
    }
  }

  /** The delivery loop does all of it, for any number of waiters and any verdicts. */
  lemma {:induction false} DeliverExact(t: P.Table, e: nat, verdicts: seq<Verdict>, skipped: nat)
    requires |verdicts| == P.SLOTS && Queued(t, e, skipped)
    ensures var (t', taker) := Deliver(t, e, verdicts, skipped); Delivered(t, t', e, verdicts, taker)
    decreases |BlockedSlots(t)|
  {
    OldestIsLeast(t, e, skipped, 0, None);
    var oldest := Oldest(t, e, skipped, 0, None);
    var (t', taker) := Deliver(t, e, verdicts, skipped);
    forall i: nat | i < P.SLOTS ensures Receiver(t.entries[i], e) <==> Candidate(t.entries[i], e, skipped) {
    }
    if oldest.Some? {
      var w := oldest.value;
      assert IsOldest(t, e, w);
      if verdicts[w] != Copied {
        var t1 := WakeSlot(t, w, VerdictResult(verdicts[w]));
        WakingUnblocks(t, w, VerdictResult(verdicts[w]));
        QueuedNext(t, e, skipped, w, VerdictResult(verdicts[w]));
        DeliverExact(t1, e, verdicts, t.entries[w].wait.sequence);
        DeliverNext(t, t', e, verdicts, taker, w);
      } else {
        forall i: nat | i < P.SLOTS ensures SlotDelivered(t, t', e, verdicts, taker, i) {
        }
      }
    } else {
      forall i: nat | i < P.SLOTS ensures SlotDelivered(t, t', e, verdicts, taker, i) {
      }
    }
  }

  lemma QueuedNext(t: P.Table, e: nat, skipped: nat, w: nat, result: int)
    requires Queued(t, e, skipped) && IsOldest(t, e, w)
    ensures Queued(WakeSlot(t, w, result), e, t.entries[w].wait.sequence)
  {
    var t1 := WakeSlot(t, w, result);
    forall i: nat | i < P.SLOTS && Receiver(t1.entries[i], e)
      ensures t1.entries[i].wait.sequence > t.entries[w].wait.sequence && i != w && t1.entries[i] == t.entries[i]
    {
    }
  }
}
