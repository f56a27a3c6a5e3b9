/** The jitter context as the adapter runs it: mutable slots and timeline, updated in place by each call. */
module JitterContext {
  import opened Options
  import opened JitterModel
  import opened JitterSlots
  import opened JitterRuns

  lemma SatAddTwice(a: nat, b: nat, c: nat)
    ensures SatAdd(SatAdd(a, b), c) == SatAdd(a, b + c)
  {
  }

  lemma {:induction false} SpareIs(slots: seq<Slot>, i: nat)
    requires i < |slots| && !slots[i].active && forall k :: 0 <= k < i ==> slots[k].active
    ensures Spare(slots) == i
  {
    if i > 0 {
      SpareIs(slots[1..], i - 1);
    }
  }

  class Jitter {
    const config: Config
    const slots: array<Slot>
    var timeline: Option<Timeline>
    var pending: Option<Pending>
    var lastNow: nat
    var downstream: nat
    var unsuccessfulGets: nat
    var deferredInsertion: bool
    var counters: Counters

    /** The context this object stands for. */
    function State(): Context
      reads this, slots
    {
      Context(config, slots[..], timeline, pending, lastNow, downstream, unsuccessfulGets, deferredInsertion, counters)
    }

    ghost predicate Valid()
      reads this, slots
    {
      Shape(State())
    }

    constructor (c: Config)
      requires ValidConfig(c)
      ensures Valid() && fresh(slots)
      ensures State() == Fresh(c)
    {
      config := c;
      slots := new Slot[c.maximumPackets + 1](_ => Slot(false, false, 0, 0, []));
      timeline, pending, lastNow, downstream := None, None, 0, 0;
      unsuccessfulGets, deferredInsertion, counters := 0, false, ZERO_COUNTERS;
      new;
      FreshShape(c);
      assert slots[..] == Fresh(c).slots;
    }

    // ---- Scans ----

    method CountQueued(cut: int) returns (n: nat)
      ensures n == Queued(slots[..], cut)
    {
      n := 0;
      for k := 0 to slots.Length
        invariant n == Queued(slots[..k], cut)
      {
        assert slots[..k + 1][..k] == slots[..k];
        if Ahead(slots[k], cut) {
          n := n + 1;
        }
      }
      assert slots[..slots.Length] == slots[..];
    }

    method HasDuplicate(p: Packet) returns (found: bool)
      ensures found == AnyDuplicate(slots[..], p)
    {
      found := false;
      for k := 0 to slots.Length
        invariant found == exists j :: 0 <= j < k && Duplicates(slots[j], p)
      {
        if Duplicates(slots[k], p) {
          found := true;
        }
      }
      assert forall j :: 0 <= j < slots.Length ==> slots[..][j] == slots[j];
    }

    method FindSpare() returns (i: nat)
      requires Queued(slots[..], -1) < slots.Length
      ensures i < slots.Length && i == Spare(slots[..]) && !slots[i].active
    {
      SpareExists(slots[..]);
      i := 0;
      while slots[i].active
        invariant i < slots.Length && i <= Spare(slots[..]) < slots.Length
        invariant forall k :: 0 <= k < i ==> slots[k].active
        decreases slots.Length - i
      {
        i := i + 1;
      }
      SpareIs(slots[..], i);
    }

    method FindEarliest() returns (first: Option<nat>)
      ensures first == EarliestActive(slots[..])
    {
      first := None;
      for k := 0 to slots.Length
        invariant first == EarliestActive(slots[..k])
      {
        assert slots[..k + 1][..k] == slots[..k];
        if slots[k].active && (first.None? || slots[k].timestamp < first.value) {
          first := Some(slots[k].timestamp);
        }
      }
      assert slots[..slots.Length] == slots[..];
    }

    method ComputeQuantum(cursor: nat, limit: nat) returns (q: nat)
      ensures q == Quantum(slots[..], cursor, limit)
    {
      q := limit;
      for k := 0 to slots.Length
        invariant q == Quantum(slots[..k], cursor, limit)
      {
        assert slots[..k + 1][..k] == slots[..k];
        if Ahead(slots[k], cursor) && End(slots[k]) - cursor < q {
          q := End(slots[k]) - cursor;
        }
      }
      assert slots[..slots.Length] == slots[..];
    }

    // ---- Slot updates ----

    /** Reclaim the slots the native buffer has retired, counting each as late. */
    method CollectRetiredSlots()
      modifies this`counters, slots
      ensures State() == CollectRetired(old(State()))
    {
      ghost var before, late := slots[..], counters.lateDrops;
      for k := 0 to slots.Length
        invariant slots[..k] == Collected(before[..k])
        invariant forall j :: k <= j < slots.Length ==> slots[j] == before[j]
        invariant counters == old(counters).(lateDrops := SatAdd(late, RetiredCount(before[..k])))
      {
        assert before[..k + 1][..k] == before[..k];
        assert slots[k] == before[k];
        SatAddTwice(late, RetiredCount(before[..k]), 1);
        if slots[k].retired {
          counters := counters.(lateDrops := SatAdd(counters.lateDrops, 1));
          slots[k] := slots[k].(retired := false, payload := []);
        }
        assert slots[..k + 1] == slots[..k] + [slots[k]];
        assert Collected(before[..k + 1]) == Collected(before[..k]) + [slots[k]];
      }
      assert before[..slots.Length] == before && slots[..slots.Length] == slots[..];
    }

    /** The native receive: retire every other stored packet that ended at or before the cut. */
    method NativePut(cut: int, kept: nat)
      modifies slots
      ensures slots[..] == Retire(old(slots[..]), cut, kept)
    {
      ghost var before := slots[..];
      for k := 0 to slots.Length
        invariant forall j :: 0 <= j < k ==> slots[j] == Retire(before, cut, kept)[j]
        invariant forall j :: k <= j < slots.Length ==> slots[j] == before[j]
      {
        if k != kept && slots[k].active && End(slots[k]) <= cut {
          slots[k] := slots[k].(active := false, retired := true);
        }
      }
    }

    method ResetWith(c: Counters)
      modifies this, slots
      ensures State() == ResetKeeping(old(State()), c)
    {
      ghost var before := slots[..];
      for k := 0 to slots.Length
        modifies slots
        invariant forall j :: 0 <= j < k ==> slots[j] == EmptySlot(before[j])
        invariant forall j :: k <= j < slots.Length ==> slots[j] == before[j]
      {
        slots[k] := EmptySlot(slots[k]);
      }
      timeline, pending, lastNow, downstream := None, None, 0, 0;
      unsuccessfulGets, deferredInsertion, counters := 0, false, c;
      assert slots[..] == ResetKeeping(old(State()), c).slots;
    }

    // ---- Operations ----

    method Reset(rebuilt: bool) returns (status: int)
      requires Valid()
      modifies this, slots
      ensures Valid()
      ensures (State(), status) == JitterModel.Reset(old(State()), rebuilt)
    {
      ResetShape(State(), ZERO_COUNTERS);
      if !rebuilt {
        return INVALID;
      }
      ResetWith(ZERO_COUNTERS);
      return OK;
    }

    /** Drop everything queued, counting it; the counters survive the reset. */
    method Overload(rebuilt: bool) returns (status: int)
      modifies this, slots
      ensures (State(), status) ==
              (JitterModel.Overload(old(State()), rebuilt).0, JitterModel.Overload(old(State()), rebuilt).1)
    {
      var dropped, span := counters.overloadDrops, counters.overloadSpan;
      for k := 0 to slots.Length
        invariant dropped == SatAdd(counters.overloadDrops, Queued(slots[..k], -1))
        invariant span == SatAdd(counters.overloadSpan, QueuedSpan(slots[..k]))
        invariant State() == old(State())
      {
        assert slots[..k + 1][..k] == slots[..k];
        SatAddTwice(counters.overloadDrops, Queued(slots[..k], -1), 1);
        SatAddTwice(counters.overloadSpan, QueuedSpan(slots[..k]), slots[k].span);
        if slots[k].active {
          dropped := SatAdd(dropped, 1);
          span := SatAdd(span, slots[k].span);
        }
      }
      assert slots[..slots.Length] == slots[..];
      if !rebuilt {
        return INVALID;
      }
      ResetWith(counters.(limitResets := SatAdd(counters.limitResets, 1), overloadDrops := dropped,
          overloadSpan := span));
      return OK;
    }

    method StorePacket(p: Packet) returns (status: int)
      requires ValidConfig(config) && SlotsSound(config, slots[..]) && timeline.Some? && !Malformed(config, p)
      requires Queued(slots[..], Cut(timeline.value)) < config.maximumPackets
      modifies this`counters, slots
      ensures (State(), status) == Store(old(State()), p)
    {
      ghost var x := State();
      var t := timeline.value;
      NoneRetired(slots[..]);
      CollectRetiredSlots();
      assert slots[..] == x.slots;
      var i := FindSpare();
      var useful := Useful(config, t, p);
      slots[i] := Slot(useful, slots[i].retired, p.timestamp, p.span, p.payload);
      NativePut(Cut(t), i);
      CollectRetiredSlots();
      if useful {
        return OK;
      }
      counters := counters.(lateDrops := SatAdd(counters.lateDrops, 1));
      return LATE;
    }

    method AdmitPacket(p: Packet) returns (status: int)
      requires ValidConfig(config) && SlotsSound(config, slots[..]) && timeline.Some? && !Malformed(config, p)
      modifies this`counters, slots
      ensures (State(), status) == Admit(old(State()), p)
    {
      var t := timeline.value;
      if Distance(p.timestamp, t.cursor) > I32_MAX {
        return INVALID;
      }
      var duplicate := HasDuplicate(p);
      if duplicate {
        counters := counters.(duplicateDrops := SatAdd(counters.duplicateDrops, 1));
        return DUPLICATE;
      }
      var occupied := CountQueued(Cut(t));
      if occupied >= config.maximumPackets {
        counters := counters.(fullDrops := SatAdd(counters.fullDrops, 1));
        return FULL;
      }
      status := StorePacket(p);
    }

    /** After too many requests found nothing, drop what is queued as late and start over. */
    method Resynchronize()
      requires Valid()
      modifies this, slots
      ensures Valid() && State() == Resync(old(State()))
    {
      var late := CountQueued(-1);
      ResetShape(State(), counters.(lateDrops := SatAdd(counters.lateDrops, late)));
      ResetWith(counters.(lateDrops := SatAdd(counters.lateDrops, late)));
    }

    /** Admit one packet, resynchronizing after too many failed fetches and starting a timeline when there is none. */
    method Put(p: Packet, rebuilt: bool) returns (status: int)
      requires Valid() && p.timestamp <= U64_MAX && p.arrivalNs <= U64_MAX
      modifies this, slots
      ensures Valid()
      ensures (State(), status) == JitterModel.Put(old(State()), p, rebuilt) && status != PANIC
    {
      ghost var x := State();
      PutShape(x, p, rebuilt);
      if pending.Some? || Malformed(config, p) {
        return INVALID;
      }
      if unsuccessfulGets > 20 {
        if !rebuilt {
          return INVALID;
        }
        Resynchronize();
      }
      if timeline.None? {
        var deadline := p.arrivalNs + UnitsNs(config, config.initialDelay);
        if deadline > U64_MAX {
          return INVALID;
        }
        timeline := Some(Timeline(p.timestamp, p.arrivalNs, p.timestamp, deadline, false));
      }
      status := AdmitPacket(p);
    }

    /** Copy a payload to the front of the caller's buffer. */
    method CopyOut(payload: Payload, buffer: array<bv8>)
      requires |payload| <= buffer.Length
      modifies buffer
      ensures buffer[..|payload|] == payload && buffer[|payload|..] == old(buffer[|payload|..])
    {
      for k := 0 to |payload|
        invariant buffer[..k] == payload[..k]
        invariant buffer[|payload|..] == old(buffer[|payload|..])
      {
        buffer[k] := payload[k];
      }
    }

    /** Act on the native answer and leave the decision pending. */
    method DecideAnswer(desired: nat, answer: Answer, rebuilt: bool, buffer: array<bv8>)
        returns (status: int, d: Decision)
      requires Valid() && timeline.Some? && 0 < desired <= config.maximumDelay && LegalAnswer(State(), desired, answer)
      requires buffer.Length >= config.maximumPayload && buffer as object != slots
      modifies this, slots, buffer
      ensures (State(), status, d) == Decide(old(State()), answer, rebuilt)
      ensures |d.payload| <= buffer.Length && buffer[..|d.payload|] == d.payload
    {
      ghost var x := State();
      var t := timeline.value;
      var deadline := Deadline(State());
      d := NothingDue(deadline);
      var deferred := deferredInsertion;
      match answer {
        case Nonsense =>
          return INVALID, d;
        case Found(i) =>
          assert SlotSound(config, x.slots[i]);
          deferredInsertion := false;
          var s := slots[i];
          var offset := s.timestamp - t.cursor;
          ReleasedExtent(x, desired, i);
          d := Decision(Delivered, s.timestamp, s.span, offset, s.payload, deadline);
          CopyOut(s.payload, buffer);
          slots[i] := s.(active := false, payload := []);
          unsuccessfulGets := 0;
          timeline := Some(t.(started := true));
          pending := Some(Pending(s.span + offset, End(s)));
          return OK, d;
        case MissingSpan(span) =>
          deferredInsertion := false;
          d := Decision(Missing, t.cursor, span, 0, [], deadline);
          unsuccessfulGets := SatIncrement32(unsuccessfulGets);
          counters := counters.(missingSpan := SatAdd(counters.missingSpan, span));
          timeline := Some(t.(started := true));
          pending := Some(Pending(span, SatAdd(t.cursor, span)));
          return OK, d;
        case InsertionSpan(span) =>
          deferredInsertion := false;
          if DelayNs(State()) + UnitsNs(config, span) > UnitsNs(config, config.maximumDelay) {
            status := Overload(rebuilt);
            return status, NothingDue(0);
          }
          d := Decision(Insertion, t.cursor, span, 0, [], deadline);
          if !deferred {
            unsuccessfulGets := SatIncrement32(unsuccessfulGets);
          }
          counters := counters.(insertionSpan := SatAdd(counters.insertionSpan, span));
          timeline := Some(t.(started := true));
          pending := Some(Pending(span, t.cursor));
          return OK, d;
      }
    }

    /** Until playout starts, the cursor is the earliest queued timestamp. */
    method SettleCursor()
      requires Valid() && timeline.Some?
      modifies this`timeline
      ensures Valid() && Settle(old(State())) == Some(State())
    {
      SettleShape(State());
      if !timeline.value.started {
        var first := FindEarliest();
        timeline := Some(timeline.value.(cursor := first.value));
      }
    }

    /** Something is due: drop everything when the delay is over its maximum, else act on the native answer. */
    method ReleaseDue(desired: nat, answer: Answer, rebuilt: bool, buffer: array<bv8>)
        returns (status: int, d: Decision)
      requires Valid() && timeline.Some? && 0 < desired <= config.maximumDelay
      requires DelayNs(State()) <= UnitsNs(config, config.maximumDelay) ==> LegalAnswer(State(), desired, answer)
      requires buffer.Length >= config.maximumPayload && buffer as object != slots
      modifies this, slots, buffer
      ensures (State(), status, d) ==
              if old(DelayNs(State())) > UnitsNs(config, config.maximumDelay)
                  then JitterModel.Overload(old(State()), rebuilt)
              else Decide(old(State()), answer, rebuilt)
      ensures |d.payload| <= buffer.Length && buffer[..|d.payload|] == d.payload
    {
      if DelayNs(State()) > UnitsNs(config, config.maximumDelay) {
        status := Overload(rebuilt);
        return status, NothingDue(0);
      }
      // The answer is the native buffer's to a request for this quantum.
      var limit := if desired < config.concealmentSpan then desired else config.concealmentSpan;
      var quantum := ComputeQuantum(timeline.value.cursor, limit);
      assert quantum == RequestQuantum(State(), desired);
      status, d := DecideAnswer(desired, answer, rebuilt, buffer);
    }

    /** Fetch one due decision. The native answer must be within its contract whenever it is asked for. */
    method Get(now: nat, desired: nat, answer: Answer, rebuilt: bool, buffer: array<bv8>)
        returns (status: int, d: Decision)
      requires Valid() && LegalOp(State(), GetOp(now, desired, buffer.Length, answer, rebuilt))
              && buffer as object != slots
      modifies this, slots, buffer
      ensures Valid()
      ensures (State(), status, d) == JitterModel.Get(old(State()), now, desired, buffer.Length, answer, rebuilt)
              && status != PANIC
      ensures |d.payload| <= buffer.Length && buffer[..|d.payload|] == d.payload
    {
      ghost var x := State();
      GetShape(x, GetOp(now, desired, buffer.Length, answer, rebuilt));
      if BadRequest(State(), now, desired, buffer.Length) {
        return INVALID, NothingDue(0);
      }
      lastNow := now;
      if timeline.None? {
        return OK, NothingDue(0);
      }
      var deadline := Deadline(State());
      if now < deadline {
        return OK, NothingDue(deadline);
      }
      SettleCursor();
      status, d := ReleaseDue(desired, answer, rebuilt, buffer);
    }

    /** Commit the pending decision, withholding the tail the caller retains. */
    method Advance(now: nat, retained: nat, adjustment: int) returns (status: int)
      requires Valid() && adjustment <= I32_MAX
      modifies this, slots
      ensures Valid()
      ensures (State(), status) == JitterModel.Advance(old(State()), now, retained, adjustment) && status != PANIC
    {
      AdvanceShape(State(), now, retained, adjustment);
      if now < lastNow || retained > I32_MAX || pending.None? || retained > pending.value.outputSpan + downstream {
        return INVALID;
      }
      var p, t := pending.value, timeline.value;
      pending := None;
      lastNow := now;
      var released := p.outputSpan + downstream - retained;
      downstream := retained;
      var cursor: nat, moved := p.nextTimestamp, SatAdd(t.deadlineNs, UnitsNs(config, released));
      deferredInsertion := adjustment < 0;
      var skipped := 0;
      if adjustment > 0 {
        cursor := SatAdd(cursor, adjustment);
        skipped := adjustment;
      }
      counters := counters.(skippedSpan := SatAdd(counters.skippedSpan, skipped));
      var minimum := ClampU64(IdealNs(config, t, cursor)
          + UnitsNs(config, config.minimumDelay) - UnitsNs(config, retained));
      timeline := Some(t.(cursor := cursor, deadlineNs := if moved < minimum then minimum else moved));
      return OK;
    }

    /** The diagnostics a caller can read. */
    method Observe() returns (queued: nat, span: nat, delay: nat, totals: Counters)
      requires Valid()
      ensures queued == Queued(slots[..], -1) <= config.maximumPackets
      ensures span == QueuedSpan(slots[..]) && delay == ObservedDelay(State()) && totals == State().counters
    {
      queued, span := 0, 0;
      for k := 0 to slots.Length
        invariant queued == Queued(slots[..k], -1) && span == QueuedSpan(slots[..k])
      {
        assert slots[..k + 1][..k] == slots[..k];
        if slots[k].active {
          queued, span := queued + 1, span + slots[k].span;
        }
      }
      assert slots[..slots.Length] == slots[..];
      delay := ObservedDelay(State());
      totals := counters;
    }
  }
}
