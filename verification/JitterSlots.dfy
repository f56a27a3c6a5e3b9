/** Counting facts about packet slots: what storing, retiring and collecting do to the queue. */
module JitterSlots {
  import opened JitterModel

  function One(b: bool): nat {
    if b then 1 else 0
  }

  lemma {:induction false} QueuedUpdate(slots: seq<Slot>, i: nat, s: Slot, cut: int)
    requires i < |slots|
    ensures Queued(slots[i := s], cut) + One(Ahead(slots[i], cut)) == Queued(slots, cut) + One(Ahead(s, cut))
  {
    var n := |slots| - 1;
    if i < n {
      assert slots[i := s][..n] == slots[..n][i := s];
      QueuedUpdate(slots[..n], i, s, cut);
    } else {
      assert slots[i := s][..n] == slots[..n];
    }
  }

  /** Retiring leaves the packets ahead of the cut and the one being inserted, and loses none. */
  lemma {:induction false} RetireCounts(slots: seq<Slot>, cut: int, kept: nat)
    ensures Queued(Retire(slots, cut, kept), -1) ==
            Queued(slots, cut) + One(kept < |slots| && slots[kept].active && End(slots[kept]) <= cut)
    ensures RetiredCount(slots) == 0 ==>
              RetiredCount(Retire(slots, cut, kept)) + Queued(Retire(slots, cut, kept), -1) == Queued(slots, -1)
  {
    if slots != [] {
      var n := |slots| - 1;
      assert Retire(slots, cut, kept)[..n] == Retire(slots[..n], cut, kept);
      RetireCounts(slots[..n], cut, kept);
    }
  }

  lemma {:induction false} CollectedCounts(slots: seq<Slot>, cut: int)
    ensures Queued(Collected(slots), cut) == Queued(slots, cut)
    ensures RetiredCount(Collected(slots)) == 0
  {
    if slots != [] {
      var n := |slots| - 1;
      assert Collected(slots)[..n] == Collected(slots[..n]);
      CollectedCounts(slots[..n], cut);
    }
  }

  lemma {:induction false} NoneRetired(slots: seq<Slot>)
    requires forall k :: 0 <= k < |slots| ==> !slots[k].retired
    ensures RetiredCount(slots) == 0 && Collected(slots) == slots
  {
    if slots != [] {
      NoneRetired(slots[..|slots| - 1]);
    }
  }

  /** A queue that does not fill every slot leaves a spare one. */
  lemma {:induction false} SpareExists(slots: seq<Slot>)
    ensures Spare(slots) <= |slots|
    ensures Spare(slots) < |slots| ==> !slots[Spare(slots)].active
    ensures Spare(slots) == |slots| ==> Queued(slots, -1) == |slots|
    ensures forall k :: 0 <= k < Spare(slots) ==> slots[k].active
  {
    if slots != [] && slots[0].active {
      SpareExists(slots[1..]);
      assert forall k :: 1 <= k < Spare(slots) ==> slots[k] == slots[1..][k - 1];
    }
    if Spare(slots) == |slots| {
      AllActive(slots);
    }
  }

  lemma {:induction false} AllActive(slots: seq<Slot>)
    requires forall k :: 0 <= k < |slots| ==> slots[k].active
    ensures Queued(slots, -1) == |slots|
  {
    if slots != [] {
      AllActive(slots[..|slots| - 1]);
    }
  }

  lemma {:induction false} NoneActive(slots: seq<Slot>, cut: int)
    requires forall k :: 0 <= k < |slots| ==> !slots[k].active
    ensures Queued(slots, cut) == 0
  {
    if slots != [] {
      NoneActive(slots[..|slots| - 1], cut);
    }
  }

  lemma {:induction false} QueuedZero(slots: seq<Slot>, k: nat)
    requires k < |slots| && slots[k].active
    ensures Queued(slots, -1) > 0
  {
    if k < |slots| - 1 {
      QueuedZero(slots[..|slots| - 1], k);
    }
  }

  lemma {:induction false} QueuedCut(slots: seq<Slot>, cut: int)
    ensures Queued(slots, cut) <= Queued(slots, -1) <= |slots|
  {
    if slots != [] {
      QueuedCut(slots[..|slots| - 1], cut);
    }
  }

  /** A nonempty queue has an earliest packet. */
  lemma {:induction false} EarliestExists(slots: seq<Slot>)
    ensures Queued(slots, -1) > 0 <==> EarliestActive(slots).Some?
    ensures EarliestActive(slots).Some? ==>
              && (exists k :: 0 <= k < |slots| && slots[k].active && slots[k].timestamp == EarliestActive(slots).value)
              && (forall k :: 0 <= k < |slots| && slots[k].active ==> EarliestActive(slots).value <= slots[k].timestamp)
  {
    if slots != [] {
      var n := |slots| - 1;
      EarliestExists(slots[..n]);
      if EarliestActive(slots).Some? {
        forall k | 0 <= k < |slots| && slots[k].active ensures EarliestActive(slots).value <= slots[k].timestamp {
          if k < n {
            assert slots[..n][k] == slots[k];
            QueuedZero(slots[..n], k);
          }
        }
      }
      if EarliestActive(slots).Some? && !(slots[n].active && slots[n].timestamp == EarliestActive(slots).value) {
        var k :| 0 <= k < n && slots[..n][k].active && slots[..n][k].timestamp == EarliestActive(slots[..n]).value;
        assert slots[k].active;
      }
    }
  }

  /** The native request never exceeds its limit or the rest of any packet still ahead. */
  lemma {:induction false} QuantumBounds(slots: seq<Slot>, cursor: nat, limit: nat)
    ensures Quantum(slots, cursor, limit) <= limit
    ensures limit > 0 ==> Quantum(slots, cursor, limit) > 0
    ensures forall k :: 0 <= k < |slots| && Ahead(slots[k], cursor) ==>
              Quantum(slots, cursor, limit) <= End(slots[k]) - cursor
  {
    if slots != [] {
      var n := |slots| - 1;
      QuantumBounds(slots[..n], cursor, limit);
      assert forall k :: 0 <= k < n ==> slots[..n][k] == slots[k];
    }
  }
}
