/**
  What every run of a jitter context keeps: the slot bounds that rule out panics and wrap-around,
  conservation of packets and the accounting of media time.
 */
module JitterRuns {
  import opened Options
  import opened JitterModel
  import opened JitterSlots

  datatype Op =
    | PutOp(packet: Packet, rebuilt: bool)
    | GetOp(now: nat, desired: nat, capacity: nat, answer: Answer, rebuilt: bool)
    | AdvanceOp(now: nat, downstream: nat, adjustment: int)
    | ResetOp(rebuilt: bool)

  /** The context a due request hands to the native buffer, when it gets that far. */
  function Asked(x: Context, op: Op): Option<Context>
    requires ValidConfig(x.config) && op.GetOp?
  {
    if BadRequest(x, op.now, op.desired, op.capacity) || x.timeline.None? then None
    else
      var y := x.(lastNow := op.now);
      if op.now < Deadline(y) then None
      else
        match Settle(y)
        case None => None
        case Some(z) => if DelayNs(z) > UnitsNs(z.config, z.config.maximumDelay) then None else Some(z)
  }

  /** What is relied on from jitter_buffer_get. */
  predicate LegalAnswer(z: Context, desired: nat, answer: Answer)
    requires z.timeline.Some?
  {
    match answer
    case Found(i) =>
      && i < |z.slots| && Ahead(z.slots[i], z.timeline.value.cursor)
      && z.slots[i].timestamp < z.timeline.value.cursor + RequestQuantum(z, desired)
    case MissingSpan(span) => 0 < span <= I32_MAX
    case InsertionSpan(span) => 0 < span <= I32_MAX
    case Nonsense => true
  }

  /** Arguments in the range of their C types, and a native answer within its contract. */
  predicate LegalOp(x: Context, op: Op)
    requires ValidConfig(x.config)
  {
    match op
    case PutOp(p, _) => p.timestamp <= U64_MAX && p.arrivalNs <= U64_MAX
    case GetOp(_, desired, _, answer, _) => Asked(x, op).Some? ==> LegalAnswer(Asked(x, op).value, desired, answer)
    case AdvanceOp(_, _, adjustment) => adjustment <= I32_MAX
    case ResetOp(_) => true
  }

  function Step(x: Context, op: Op): (r: (Context, int))
    requires ValidConfig(x.config)
    ensures r.0.config == x.config
  {
    match op
    case PutOp(p, rebuilt) => Put(x, p, rebuilt)
    case GetOp(now, desired, capacity, answer, rebuilt) =>
      var (y, status, _) := Get(x, now, desired, capacity, answer, rebuilt); (y, status)
    case AdvanceOp(now, downstream, adjustment) => Advance(x, now, downstream, adjustment)
    case ResetOp(rebuilt) => Reset(x, rebuilt)
  }

  // ---- Shape ----

  predicate SlotSound(c: Config, s: Slot) {
    && !s.retired
    && (s.active ==>
          0 < s.span && s.span + c.maximumDelay <= I32_MAX && End(s) <= U64_MAX && 0 < |s.payload| <= c.maximumPayload)
  }

  ghost predicate SlotsSound(c: Config, slots: seq<Slot>) {
    && |slots| == c.maximumPackets + 1
    && Queued(slots, -1) <= c.maximumPackets
    && (forall k :: 0 <= k < |slots| ==> SlotSound(c, slots[k]))
  }

  predicate TimeSound(x: Context) {
    match x.timeline
    case None => x.pending.None? && x.downstream == 0 && Queued(x.slots, -1) == 0
    case Some(t) =>
      && t.cursor <= U64_MAX && t.deadlineNs <= U64_MAX
      && (!t.started ==> x.pending.None? && x.downstream == 0 && Queued(x.slots, -1) > 0)
      && (x.pending.Some? ==>
            && 0 < x.pending.value.outputSpan <= I32_MAX
            && t.cursor <= x.pending.value.nextTimestamp <= U64_MAX)
  }

  ghost predicate Shape(x: Context) {
    ValidConfig(x.config) && SlotsSound(x.config, x.slots) && TimeSound(x) && x.downstream <= I32_MAX
  }

  lemma FreshShape(c: Config)
    requires ValidConfig(c)
    ensures Shape(Fresh(c))
  {
    NoneActive(Fresh(c).slots, -1);
  }

  lemma ResetShape(x: Context, counters: Counters)
    requires Shape(x)
    ensures Shape(ResetKeeping(x, counters)) && Queued(ResetKeeping(x, counters).slots, -1) == 0
  {
    NoneActive(ResetKeeping(x, counters).slots, -1);
  }

  /**
    Storing never lacks a spare slot; it keeps what is still ahead, adds the packet when useful,
    and counts everything it let go, including the packet itself when that is too late.
   */
  lemma StoreEffect(x: Context, p: Packet)
    requires ValidConfig(x.config) && SlotsSound(x.config, x.slots) && x.timeline.Some? && !Malformed(x.config, p)
    requires Queued(x.slots, Cut(x.timeline.value)) < x.config.maximumPackets
    ensures var (y, status) := Store(x, p);
            var useful := Useful(x.config, x.timeline.value, p);
            && status == (if useful then OK else LATE)
            && SlotsSound(x.config, y.slots)
            && Queued(y.slots, -1) == Queued(x.slots, Cut(x.timeline.value)) + One(useful)
            && y == x.(slots := y.slots, counters := x.counters.(lateDrops := y.counters.lateDrops))
            && (y.counters.lateDrops < U64_MAX ==>
                  y.counters.lateDrops + Queued(y.slots, -1) == x.counters.lateDrops + Queued(x.slots, -1) + 1)
  {
    var t := x.timeline.value;
    NoneRetired(x.slots);
    assert CollectRetired(x).slots == x.slots;
    SpareExists(x.slots);
    var i := Spare(x.slots);
    PlacedCounts(x.config, x.slots, i, Slot(Useful(x.config, t, p), false, p.timestamp, p.span, p.payload), Cut(t));
  }

  /** Writing a packet into a spare slot and letting what has ended retire. */
  lemma PlacedCounts(c: Config, slots: seq<Slot>, i: nat, s: Slot, cut: int)
    requires SlotsSound(c, slots) && i < |slots| && !slots[i].active && SlotSound(c, s)
    requires Queued(slots, cut) < c.maximumPackets
    ensures var retired := Retire(slots[i := s], cut, i);
            && SlotsSound(c, Collected(retired))
            && Queued(Collected(retired), -1) == Queued(slots, cut) + One(s.active)
            && RetiredCount(retired) + Queued(Collected(retired), -1) == Queued(slots, -1) + One(s.active)
  {
    var placed := slots[i := s];
    QueuedUpdate(slots, i, s, cut);
    QueuedUpdate(slots, i, s, -1);
    NoneRetired(placed);
    RetireCounts(placed, cut, i);
    CollectedCounts(Retire(placed, cut, i), -1);
    forall k | 0 <= k < |slots| ensures SlotSound(c, Collected(Retire(placed, cut, i))[k]) {
      assert SlotSound(c, slots[k]);
    }
  }

  /** Where an admitted packet starts from: the context after any resynchronization, with a timeline. */
  function Prepared(x: Context, p: Packet): Context
    requires x.config.clockRate > 0
  {
    var y := if x.unsuccessfulGets > 20 then Resync(x) else x;
    if y.timeline.Some? then y
    else y.(timeline := Some(Timeline(p.timestamp, p.arrivalNs, p.timestamp,
        p.arrivalNs + UnitsNs(y.config, y.config.initialDelay), false)))
  }

  predicate Turned(x: Context, p: Packet, rebuilt: bool)
    requires x.config.clockRate > 0
  {
    || x.pending.Some? || Malformed(x.config, p)
    || (x.unsuccessfulGets > 20 && !rebuilt)
  }

  predicate NoRoomInTime(x: Context, p: Packet)
    requires x.config.clockRate > 0
  {
    (x.timeline.None? || x.unsuccessfulGets > 20) && p.arrivalNs + UnitsNs(x.config, x.config.initialDelay) > U64_MAX
  }

  lemma PutCases(x: Context, p: Packet, rebuilt: bool)
    requires x.config.clockRate > 0
    ensures Put(x, p, rebuilt) ==
            if Turned(x, p, rebuilt) then (x, INVALID)
            else if NoRoomInTime(x, p) then (if x.unsuccessfulGets > 20 then Resync(x) else x, INVALID)
            else Admit(Prepared(x, p), p)
  {
  }

  /** The effect of admission on a context whose timeline exists. */
  lemma AdmitEffect(x: Context, p: Packet)
    requires ValidConfig(x.config) && SlotsSound(x.config, x.slots) && x.timeline.Some? && !Malformed(x.config, p)
    requires x.downstream <= I32_MAX && x.pending.None?
    ensures var (y, status) := Admit(x, p);
            && status in {INVALID, OK, DUPLICATE, LATE, FULL}
            && SlotsSound(x.config, y.slots)
            && y == x.(slots := y.slots, counters := y.counters)
            && (Queued(x.slots, -1) > 0 && !x.timeline.value.started ==> Queued(y.slots, -1) > 0)
            && (Queued(x.slots, -1) == 0 && !x.timeline.value.started && p.timestamp == x.timeline.value.cursor ==>
                  status == OK && Queued(y.slots, -1) > 0)
  {
    if Queued(x.slots, -1) == 0 {
      forall k | 0 <= k < |x.slots| ensures !x.slots[k].active {
        if x.slots[k].active {
          QueuedZero(x.slots, k);
        }
      }
    }
    var t := x.timeline.value;
    QueuedCut(x.slots, Cut(t));
    if Distance(p.timestamp, t.cursor) <= I32_MAX && !AnyDuplicate(x.slots, p)
        && Queued(x.slots, Cut(t)) < x.config.maximumPackets {
      StoreEffect(x, p);
    }
  }

  lemma PutShape(x: Context, p: Packet, rebuilt: bool)
    requires Shape(x) && p.timestamp <= U64_MAX && p.arrivalNs <= U64_MAX
    ensures var (y, status) := Put(x, p, rebuilt); Shape(y) && status != PANIC
  {
    PutCases(x, p, rebuilt);
    var late := x.counters.(lateDrops := SatAdd(x.counters.lateDrops, Queued(x.slots, -1)));
    ResetShape(x, late);
    if !Turned(x, p, rebuilt) && !NoRoomInTime(x, p) {
      AdmitEffect(Prepared(x, p), p);
    }
  }

  lemma SettleShape(x: Context)
    requires Shape(x) && x.timeline.Some?
    ensures Settle(x).Some? && Shape(Settle(x).value)
    ensures Settle(x).value.timeline.Some?
    ensures Settle(x).value == x.(timeline := Some(x.timeline.value.(cursor := Settle(x).value.timeline.value.cursor)))
    ensures x.timeline.value.started ==> Settle(x).value == x
  {
    if !x.timeline.value.started {
      EarliestExists(x.slots);
      var first := EarliestActive(x.slots).value;
      var k :| 0 <= k < |x.slots| && x.slots[k].active && x.slots[k].timestamp == first;
      assert SlotSound(x.config, x.slots[k]);
    }
  }

  /** A released packet's output extent is positive and fits in 31 bits, and its end is past the cursor. */
  lemma ReleasedExtent(z: Context, desired: nat, i: nat)
    requires Shape(z) && z.timeline.Some? && 0 < desired <= z.config.maximumDelay && LegalAnswer(z, desired, Found(i))
    ensures var s, cursor := z.slots[i], z.timeline.value.cursor;
            && 0 < s.span + (s.timestamp - cursor) <= I32_MAX
            && -(I32_MAX as int) <= s.timestamp - cursor <= I32_MAX
            && cursor < End(s) <= U64_MAX
  {
    var limit := if desired < z.config.concealmentSpan then desired else z.config.concealmentSpan;
    QuantumBounds(z.slots, z.timeline.value.cursor, limit);
    assert SlotSound(z.config, z.slots[i]);
  }

  lemma FoundShape(z: Context, desired: nat, i: nat)
    requires Shape(z) && z.timeline.Some? && z.pending.None?
    requires 0 < desired <= z.config.maximumDelay && LegalAnswer(z, desired, Found(i))
    ensures Shape(ReleasePacket(z, i).0)
  {
    ReleasedExtent(z, desired, i);
    var s := z.slots[i];
    QueuedUpdate(z.slots, i, s.(active := false, payload := []), -1);
    assert SlotSound(z.config, s);
  }

  lemma DecideShape(z: Context, desired: nat, answer: Answer, rebuilt: bool)
    requires Shape(z) && z.timeline.Some? && z.pending.None?
    requires 0 < desired <= z.config.maximumDelay && LegalAnswer(z, desired, answer)
    ensures var (y, status, _) := Decide(z, answer, rebuilt); Shape(y) && status != PANIC
  {
    match answer
    case Found(i) => FoundShape(z.(deferredInsertion := false), desired, i);
    case InsertionSpan(span) =>
      var y := z.(deferredInsertion := false);
      ResetShape(y, OverloadCounters(y));
    case _ =>
  }

  lemma GetShape(x: Context, op: Op)
    requires Shape(x) && op.GetOp? && LegalOp(x, op)
    ensures var (y, status) := Step(x, op); Shape(y) && status != PANIC
  {
    var y := x.(lastNow := op.now);
    if !BadRequest(x, op.now, op.desired, op.capacity) && x.timeline.Some? && op.now >= Deadline(y) {
      SettleShape(y);
      var z := Settle(y).value;
      ResetShape(z, OverloadCounters(z));
      if Asked(x, op).Some? {
        DecideShape(z, op.desired, op.answer, op.rebuilt);
      }
    }
  }

  lemma AdvanceShape(x: Context, now: nat, downstream: nat, adjustment: int)
    requires Shape(x)
    ensures var (y, status) := Advance(x, now, downstream, adjustment); Shape(y) && status != PANIC
    ensures x.pending.Some? ==> x.pending.value.outputSpan + x.downstream <= U32_MAX
  {
  }

  /** No operation panics or leaves the slot and span bounds. */
  lemma StepShape(x: Context, op: Op)
    requires Shape(x) && LegalOp(x, op)
    ensures var (y, status) := Step(x, op); Shape(y) && status != PANIC
  {
    match op
    case PutOp(p, rebuilt) => PutShape(x, p, rebuilt);
    case GetOp(_, _, _, _, _) => GetShape(x, op);
    case AdvanceOp(now, downstream, adjustment) => AdvanceShape(x, now, downstream, adjustment);
    case ResetOp(_) => ResetShape(x, ZERO_COUNTERS);
  }

  // ---- Packet conservation and media time ----

  /**
    What an observer of the calls alone would note since the last explicit reset: admissions and
    deliveries, and within the current epoch the packet time handed out, the output committed,
    the starting cursor and the span counters as they stood then.
   */
  datatype Ledger = Ledger(
    answered: nat,
    delivered: nat,
    start: nat,
    consumed: nat,
    committed: nat,
    missing0: nat,
    skipped0: nat,
    inserted0: nat)

  const EMPTY_LEDGER := Ledger(0, 0, 0, 0, 0, 0, 0, 0)

  /** A due request that begins an epoch opens its books at the settled cursor. */
  function Opened(x: Context, l: Ledger): Ledger
    requires x.timeline.Some?
  {
    if x.timeline.value.started then l
    else l.(start := x.timeline.value.cursor, consumed := 0, committed := 0, missing0 := x.counters.missingSpan,
            skipped0 := x.counters.skippedSpan, inserted0 := x.counters.insertionSpan)
  }

  function NoteDecision(z: Context, d: Decision, l: Ledger): Ledger
    requires z.timeline.Some?
  {
    if d.kind.NotDue? then l
    else
      var o := Opened(z, l);
      var extent := d.span + d.startOffset;
      if d.kind.Delivered?
      then o.(delivered := o.delivered + 1, consumed := o.consumed + (if extent >= 0 then extent else 0))
      else o
  }

  function Note(x: Context, op: Op, l: Ledger): Ledger
    requires ValidConfig(x.config)
  {
    match op
    case PutOp(p, rebuilt) => if Put(x, p, rebuilt).1 >= 0 then l.(answered := l.answered + 1) else l
    case GetOp(now, desired, capacity, answer, rebuilt) =>
      var z := Asked(x, op);
      var (_, status, d) := Get(x, now, desired, capacity, answer, rebuilt);
      if status == OK && z.Some? && z.value.timeline.Some? then NoteDecision(z.value, d, l) else l
    case AdvanceOp(now, downstream, adjustment) =>
      if Advance(x, now, downstream, adjustment).1 == OK && x.pending.Some?
      then l.(committed := l.committed + x.pending.value.outputSpan) else l
    case ResetOp(rebuilt) => if rebuilt then EMPTY_LEDGER else l
  }

  /** Counters saturate at their type; below it they are exact. */
  predicate PacketsExact(c: Counters) {
    c.duplicateDrops < U64_MAX && c.lateDrops < U64_MAX && c.fullDrops < U64_MAX && c.overloadDrops < U64_MAX
  }

  predicate SpansExact(c: Counters) {
    c.missingSpan < U64_MAX && c.insertionSpan < U64_MAX && c.skippedSpan < U64_MAX
  }

  function Dropped(c: Counters): nat {
    c.duplicateDrops + c.lateDrops + c.fullDrops + c.overloadDrops
  }

  /** Every packet put was delivered, is queued, or is counted under exactly one kind of drop. */
  predicate PacketsConserved(x: Context, l: Ledger) {
    PacketsExact(x.counters) ==> l.answered == l.delivered + Queued(x.slots, -1) + Dropped(x.counters)
  }

  /** The media position once the pending decision is committed. */
  function Frontier(x: Context): nat
    requires x.timeline.Some?
  {
    if x.pending.Some? then x.pending.value.nextTimestamp else x.timeline.value.cursor
  }

  predicate TimeAccounted(x: Context, l: Ledger) {
    x.timeline.Some? && x.timeline.value.started && SpansExact(x.counters) && Frontier(x) < U64_MAX ==>
      var missing := x.counters.missingSpan - l.missing0;
      var skipped := x.counters.skippedSpan - l.skipped0;
      var inserted := x.counters.insertionSpan - l.inserted0;
      && Frontier(x) == l.start + l.consumed + missing + skipped
      && l.committed + (if x.pending.Some? then x.pending.value.outputSpan else 0) == l.consumed + missing + inserted
  }

  ghost predicate Inv(x: Context, l: Ledger) {
    Shape(x) && PacketsConserved(x, l) && TimeAccounted(x, l)
  }

  /** Admission answers each packet once: whatever the status, one more packet is accounted for. */
  lemma AdmitConserves(x: Context, p: Packet)
    requires ValidConfig(x.config) && SlotsSound(x.config, x.slots) && x.timeline.Some? && !Malformed(x.config, p)
    ensures var (y, status) := Admit(x, p);
            && y.counters == x.counters.(duplicateDrops := y.counters.duplicateDrops, fullDrops := y.counters.fullDrops,
                                         lateDrops := y.counters.lateDrops)
            && (PacketsExact(y.counters) ==>
                  && PacketsExact(x.counters)
                  && Queued(y.slots, -1) + Dropped(y.counters)
                     == Queued(x.slots, -1) + Dropped(x.counters) + One(status >= 0))
  {
    var t := x.timeline.value;
    if Distance(p.timestamp, t.cursor) <= I32_MAX && !AnyDuplicate(x.slots, p)
        && Queued(x.slots, Cut(t)) < x.config.maximumPackets {
      StoreEffect(x, p);
      QueuedCut(x.slots, Cut(t));
    }
  }

  lemma PreparedConserves(x: Context, l: Ledger, p: Packet)
    requires Inv(x, l)
    ensures var y := Prepared(x, p);
            && SlotsSound(y.config, y.slots) && PacketsConserved(y, l) && TimeAccounted(y, l)
            && PacketsConserved(Resync(x), l) && TimeAccounted(Resync(x), l)
  {
    ResetShape(x, x.counters.(lateDrops := SatAdd(x.counters.lateDrops, Queued(x.slots, -1))));
  }

  lemma AdmittedConserves(x: Context, l: Ledger, p: Packet)
    requires ValidConfig(x.config) && SlotsSound(x.config, x.slots) && x.timeline.Some? && !Malformed(x.config, p)
    requires PacketsConserved(x, l) && TimeAccounted(x, l)
    ensures var (y, status) := Admit(x, p);
            PacketsConserved(y, l.(answered := l.answered + One(status >= 0))) && TimeAccounted(y, l)
  {
    AdmitConserves(x, p);
    assert Admit(x, p).0.timeline == x.timeline && Admit(x, p).0.pending == x.pending;
  }

  lemma PutConserves(x: Context, l: Ledger, p: Packet, rebuilt: bool)
    requires Inv(x, l)
    ensures var (y, _) := Put(x, p, rebuilt);
            PacketsConserved(y, Note(x, PutOp(p, rebuilt), l)) && TimeAccounted(y, Note(x, PutOp(p, rebuilt), l))
  {
    PutCases(x, p, rebuilt);
    PreparedConserves(x, l, p);
    if !Turned(x, p, rebuilt) && !NoRoomInTime(x, p) {
      AdmittedConserves(Prepared(x, p), l, p);
    }
  }

  lemma OverloadConserves(z: Context, l: Ledger)
    requires Inv(z, l)
    ensures var y := ResetKeeping(z, OverloadCounters(z)); PacketsConserved(y, l) && TimeAccounted(y, l)
  {
    ResetShape(z, OverloadCounters(z));
  }

  lemma FoundConserves(z: Context, l: Ledger, desired: nat, i: nat, rebuilt: bool)
    requires Shape(z) && z.timeline.Some? && z.pending.None? && PacketsConserved(z, l) && TimeAccounted(z, l)
    requires 0 < desired <= z.config.maximumDelay && LegalAnswer(z, desired, Found(i))
    ensures var (y, status, d) := Decide(z, Found(i), rebuilt);
            PacketsConserved(y, NoteDecision(z, d, l)) && TimeAccounted(y, NoteDecision(z, d, l))
  {
    ReleasedExtent(z, desired, i);
    QueuedUpdate(z.slots, i, z.slots[i].(active := false, payload := []), -1);
  }

  lemma InsertionConserves(z: Context, l: Ledger, span: nat, rebuilt: bool)
    requires Shape(z) && z.timeline.Some? && z.pending.None? && PacketsConserved(z, l) && TimeAccounted(z, l)
    ensures var (y, status, d) := Decide(z, InsertionSpan(span), rebuilt);
            var l' := if status == OK then NoteDecision(z, d, l) else l;
            PacketsConserved(y, l') && TimeAccounted(y, l')
  {
    OverloadConserves(z.(deferredInsertion := false), l);
  }

  lemma DecideConserves(z: Context, l: Ledger, desired: nat, answer: Answer, rebuilt: bool)
    requires Shape(z) && z.timeline.Some? && z.pending.None? && PacketsConserved(z, l) && TimeAccounted(z, l)
    requires 0 < desired <= z.config.maximumDelay && LegalAnswer(z, desired, answer)
    ensures var (y, status, d) := Decide(z, answer, rebuilt);
            var l' := if status == OK then NoteDecision(z, d, l) else l;
            PacketsConserved(y, l') && TimeAccounted(y, l')
  {
    match answer
    case Found(i) => FoundConserves(z, l, desired, i, rebuilt);
    case InsertionSpan(span) => InsertionConserves(z, l, span, rebuilt);
    case _ =>
  }

  lemma GetConserves(x: Context, l: Ledger, op: Op)
    requires Inv(x, l) && op.GetOp? && LegalOp(x, op)
    ensures var (y, _) := Step(x, op); PacketsConserved(y, Note(x, op, l)) && TimeAccounted(y, Note(x, op, l))
  {
    var y := x.(lastNow := op.now);
    if !BadRequest(x, op.now, op.desired, op.capacity) && x.timeline.Some? && op.now >= Deadline(y) {
      SettleShape(y);
      var z := Settle(y).value;
      OverloadConserves(z, l);
      if Asked(x, op).Some? {
        DecideConserves(z, l, op.desired, op.answer, op.rebuilt);
      }
    }
  }

  lemma AdvanceConserves(x: Context, l: Ledger, op: Op)
    requires Inv(x, l) && op.AdvanceOp? && LegalOp(x, op)
    ensures var (y, _) := Step(x, op); PacketsConserved(y, Note(x, op, l)) && TimeAccounted(y, Note(x, op, l))
  {
  }

  lemma StepKeepsInv(x: Context, l: Ledger, op: Op)
    requires Inv(x, l) && LegalOp(x, op)
    ensures Inv(Step(x, op).0, Note(x, op, l))
  {
    StepShape(x, op);
    match op
    case PutOp(p, rebuilt) => PutConserves(x, l, p, rebuilt);
    case GetOp(_, _, _, _, _) => GetConserves(x, l, op);
    case AdvanceOp(_, _, _) => AdvanceConserves(x, l, op);
    case ResetOp(_) => ResetShape(x, ZERO_COUNTERS);
  }

  predicate LegalRun(x: Context, ops: seq<Op>)
    requires ValidConfig(x.config)
    decreases |ops|
  {
    ops == [] || (LegalOp(x, ops[0]) && LegalRun(Step(x, ops[0]).0, ops[1..]))
  }

  function Run(x: Context, l: Ledger, ops: seq<Op>): (Context, Ledger)
    requires ValidConfig(x.config) && LegalRun(x, ops)
    decreases |ops|
  {
    if ops == [] then (x, l) else Run(Step(x, ops[0]).0, Note(x, ops[0], l), ops[1..])
  }

  /** Conservation and media-time accounting hold after every run, through resynchronizations and overload resets. */
  lemma {:induction false} RunKeepsInv(x: Context, l: Ledger, ops: seq<Op>)
    requires Inv(x, l) && LegalRun(x, ops)
    ensures Inv(Run(x, l, ops).0, Run(x, l, ops).1)
    decreases |ops|
  {
    if ops != [] {
      StepKeepsInv(x, l, ops[0]);
      RunKeepsInv(Step(x, ops[0]).0, Note(x, ops[0], l), ops[1..]);
    }
  }

  /** A context as `create` builds it satisfies the laws with an empty ledger. */
  lemma FreshInv(c: Config)
    requires ValidConfig(c)
    ensures Inv(Fresh(c), EMPTY_LEDGER)
  {
    FreshShape(c);
  }

  /** Within an epoch the media position never moves backwards. */
  lemma CursorForward(x: Context, op: Op)
    requires Shape(x) && LegalOp(x, op) && x.timeline.Some? && x.timeline.value.started
    ensures var y := Step(x, op).0;
            y.timeline.Some? && y.timeline.value.started ==> x.timeline.value.cursor <= y.timeline.value.cursor
  {
    match op
    case PutOp(p, rebuilt) =>
      PutCases(x, p, rebuilt);
      if !Turned(x, p, rebuilt) && !NoRoomInTime(x, p) {
        ResetShape(x, x.counters.(lateDrops := SatAdd(x.counters.lateDrops, Queued(x.slots, -1))));
        AdmitEffect(Prepared(x, p), p);
      }
    case _ =>
  }
}
