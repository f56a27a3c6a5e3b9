/**
  The adaptive jitter context as a function of its state: packet slots, the release timeline,
  one pending decision and the diagnostics. SpeexDSP answers are parameters; LegalAnswer states
  what is relied on.
 */
module JitterModel {
  import opened Options

  const U64_MAX: nat := 0xFFFF_FFFF_FFFF_FFFF
  const U32_MAX: nat := 0xFFFF_FFFF
  const I32_MAX: nat := 0x7FFF_FFFF
  const SECOND: nat := 1_000_000_000

  type u64 = n: nat | n <= U64_MAX

  // Statuses. A panic is reported to C as -1; it has its own value here so that its absence can be stated.
  const INVALID: int := -1
  const PANIC: int := -2
  const OK: int := 0
  const DUPLICATE: int := 1
  const LATE: int := 2
  const FULL: int := 3

  type Payload = seq<bv8>

  datatype Config = Config(
    clockRate: nat,
    minimumDelay: nat,
    initialDelay: nat,
    maximumDelay: nat,
    adjustmentStep: nat,
    concealmentSpan: nat,
    maximumPackets: nat,
    maximumPayload: nat)

  predicate ValidConfig(c: Config) {
    && 1 <= c.clockRate <= 48000
    && 0 < c.minimumDelay <= c.initialDelay <= c.maximumDelay <= 32767
    && 0 < c.adjustmentStep <= c.maximumDelay
    && 0 < c.concealmentSpan <= c.maximumDelay
    && 1 <= c.maximumPackets <= 200
    && 1 <= c.maximumPayload <= 65527
  }

  datatype Slot = Slot(active: bool, retired: bool, timestamp: nat, span: nat, payload: Payload)

  datatype Timeline = Timeline(originTimestamp: nat, originNs: nat, cursor: nat, deadlineNs: nat, started: bool)

  datatype Pending = Pending(outputSpan: nat, nextTimestamp: nat)

  datatype Counters = Counters(
    duplicateDrops: u64,
    lateDrops: u64,
    fullDrops: u64,
    missingSpan: u64,
    insertionSpan: u64,
    skippedSpan: u64,
    limitResets: u64,
    overloadDrops: u64,
    overloadSpan: u64)

  const ZERO_COUNTERS := Counters(0, 0, 0, 0, 0, 0, 0, 0, 0)

  datatype Context = Context(
    config: Config,
    slots: seq<Slot>,
    timeline: Option<Timeline>,
    pending: Option<Pending>,
    lastNow: nat,
    downstream: nat,
    unsuccessfulGets: nat,
    deferredInsertion: bool,
    counters: Counters)

  datatype Packet = Packet(timestamp: nat, span: nat, arrivalNs: nat, payload: Payload)

  datatype Kind = Delivered | Missing | Insertion | NotDue

  datatype Decision = Decision(kind: Kind, timestamp: nat, span: nat, startOffset: int, payload: Payload,
      deadlineNs: nat)

  /** What jitter_buffer_get returns: one stored packet, a span to conceal or insert, or nonsense. */
  datatype Answer = Found(slot: nat) | MissingSpan(span: nat) | InsertionSpan(span: nat) | Nonsense

  // ---- Arithmetic ----

  function SatAdd(a: nat, b: nat): u64 {
    if a + b > U64_MAX then U64_MAX else a + b
  }

  /** Signed division as Rust does it, toward zero. */
  function TruncDiv(a: int, b: int): int
    requires b > 0
  {
    if a >= 0 then a / b else -((-a) / b)
  }

  function UnitsNs(c: Config, units: nat): nat
    requires c.clockRate > 0
  {
    units * SECOND / c.clockRate
  }

  function IdealNs(c: Config, t: Timeline, timestamp: nat): int
    requires c.clockRate > 0
  {
    t.originNs + TruncDiv((timestamp - t.originTimestamp) * SECOND, c.clockRate)
  }

  function Deadline(x: Context): nat
    requires x.config.clockRate > 0 && x.timeline.Some?
  {
    SatAdd(x.timeline.value.deadlineNs, UnitsNs(x.config, x.downstream))
  }

  // ---- Slots ----

  function End(s: Slot): nat {
    s.timestamp + s.span
  }

  predicate Ahead(s: Slot, cut: int) {
    s.active && End(s) > cut
  }

  /** Active slots that end after the cut; every active slot when the cut is negative. */
  function Queued(slots: seq<Slot>, cut: int): nat {
    if slots == [] then 0
    else Queued(slots[..|slots| - 1], cut) + (if Ahead(slots[|slots| - 1], cut) then 1 else 0)
  }

  function QueuedSpan(slots: seq<Slot>): nat {
    if slots == [] then 0
    else QueuedSpan(slots[..|slots| - 1]) + (if slots[|slots| - 1].active then slots[|slots| - 1].span else 0)
  }

  function RetiredCount(slots: seq<Slot>): nat {
    if slots == [] then 0
    else RetiredCount(slots[..|slots| - 1]) + (if slots[|slots| - 1].retired then 1 else 0)
  }

  /** Native cleanup on receive: every other stored packet that ended at or before the cut is retired. */
  function Retire(slots: seq<Slot>, cut: int, kept: nat): seq<Slot> {
    seq(|slots|, k requires 0 <= k < |slots| =>
      if k != kept && slots[k].active && End(slots[k]) <= cut
      then slots[k].(active := false, retired := true) else slots[k])
  }

  function Collected(slots: seq<Slot>): seq<Slot> {
    seq(|slots|, k requires 0 <= k < |slots| =>
      if slots[k].retired then slots[k].(retired := false, payload := []) else slots[k])
  }

  function CollectRetired(x: Context): Context {
    x.(slots := Collected(x.slots),
       counters := x.counters.(lateDrops := SatAdd(x.counters.lateDrops, RetiredCount(x.slots))))
  }

  predicate Duplicates(s: Slot, p: Packet) {
    s.active && s.timestamp == p.timestamp && s.span == p.span
  }

  predicate AnyDuplicate(slots: seq<Slot>, p: Packet) {
    exists k :: 0 <= k < |slots| && Duplicates(slots[k], p)
  }

  /** The first inactive slot, or the length when there is none. */
  function Spare(slots: seq<Slot>): nat {
    if slots == [] then 0 else if !slots[0].active then 0 else 1 + Spare(slots[1..])
  }

  function EarliestActive(slots: seq<Slot>): Option<nat> {
    if slots == [] then None
    else
      var earlier := EarliestActive(slots[..|slots| - 1]);
      var s := slots[|slots| - 1];
      if s.active && (earlier.None? || s.timestamp < earlier.value) then Some(s.timestamp) else earlier
  }

  /** The request given to the native buffer: no longer than any eligible packet's remaining extent. */
  function Quantum(slots: seq<Slot>, cursor: nat, limit: nat): nat {
    if slots == [] then limit
    else
      var q := Quantum(slots[..|slots| - 1], cursor, limit);
      var s := slots[|slots| - 1];
      if Ahead(s, cursor) && End(s) - cursor < q then End(s) - cursor else q
  }

  // ---- Operations ----

  function EmptySlot(s: Slot): Slot {
    s.(active := false, retired := false, payload := [])
  }

  function ResetKeeping(x: Context, counters: Counters): Context {
    x.(slots := seq(|x.slots|, k requires 0 <= k < |x.slots| => EmptySlot(x.slots[k])),
       timeline := None, pending := None, lastNow := 0, downstream := 0,
       unsuccessfulGets := 0, deferredInsertion := false, counters := counters)
  }

  /** Explicit reset; native allocation may fail. */
  function Reset(x: Context, rebuilt: bool): (Context, int) {
    if rebuilt then (ResetKeeping(x, ZERO_COUNTERS), OK) else (x, INVALID)
  }

  function OverloadCounters(x: Context): Counters {
    x.counters.(
      limitResets := SatAdd(x.counters.limitResets, 1),
      overloadDrops := SatAdd(x.counters.overloadDrops, Queued(x.slots, -1)),
      overloadSpan := SatAdd(x.counters.overloadSpan, QueuedSpan(x.slots)))
  }

  predicate Malformed(c: Config, p: Packet) {
    || p.span == 0
    || p.span + c.maximumDelay > I32_MAX
    || p.payload == []
    || |p.payload| > c.maximumPayload
    || p.timestamp + p.span > U64_MAX
  }

  function Resync(x: Context): Context {
    ResetKeeping(x, x.counters.(lateDrops := SatAdd(x.counters.lateDrops, Queued(x.slots, -1))))
  }

  /** Whether the packet can still matter: the timeline has not started, or it ends within one step of the cursor. */
  predicate Useful(c: Config, t: Timeline, p: Packet) {
    !t.started || SatAdd(p.timestamp + p.span, c.adjustmentStep) >= t.cursor
  }

  function Cut(t: Timeline): int {
    if t.started then t.cursor else -1
  }

  function Distance(a: nat, b: nat): nat {
    if a < b then b - a else a - b
  }

  /** Store the packet in a spare slot, let the native buffer retire what has ended, and count the retired. */
  function Store(x: Context, p: Packet): (Context, int)
    requires x.timeline.Some?
  {
    var t := x.timeline.value;
    var useful := Useful(x.config, t, p);
    var clean := CollectRetired(x);
    var i := Spare(clean.slots);
    if i >= |clean.slots| then (clean, PANIC)
    else
      var placed := clean.slots[i := Slot(useful, clean.slots[i].retired, p.timestamp, p.span, p.payload)];
      var y := CollectRetired(clean.(slots := Retire(placed, Cut(t), i)));
      if useful then (y, OK)
      else (y.(counters := y.counters.(lateDrops := SatAdd(y.counters.lateDrops, 1))), LATE)
  }

  function Admit(x: Context, p: Packet): (Context, int)
    requires x.timeline.Some?
  {
    var t := x.timeline.value;
    if Distance(p.timestamp, t.cursor) > I32_MAX then (x, INVALID)
    else if AnyDuplicate(x.slots, p) then
      (x.(counters := x.counters.(duplicateDrops := SatAdd(x.counters.duplicateDrops, 1))), DUPLICATE)
    else if Queued(x.slots, Cut(t)) >= x.config.maximumPackets then
      (x.(counters := x.counters.(fullDrops := SatAdd(x.counters.fullDrops, 1))), FULL)
    else Store(x, p)
  }

  function Put(x: Context, p: Packet, rebuilt: bool): (Context, int)
    requires x.config.clockRate > 0
  {
    if x.pending.Some? || Malformed(x.config, p) then (x, INVALID)
    else if x.unsuccessfulGets > 20 && !rebuilt then (x, INVALID)
    else
      var y := if x.unsuccessfulGets > 20 then Resync(x) else x;
      if y.timeline.Some? then Admit(y, p)
      else if p.arrivalNs + UnitsNs(y.config, y.config.initialDelay) > U64_MAX then (y, INVALID)
      else
        var deadline := p.arrivalNs + UnitsNs(y.config, y.config.initialDelay);
        Admit(y.(timeline := Some(Timeline(p.timestamp, p.arrivalNs, p.timestamp, deadline, false))), p)
  }

  function NothingDue(deadline: nat): Decision {
    Decision(NotDue, 0, 0, 0, [], deadline)
  }

  function Overload(x: Context, rebuilt: bool): (Context, int, Decision) {
    if rebuilt then (ResetKeeping(x, OverloadCounters(x)), OK, NothingDue(0))
    else (x, INVALID, NothingDue(0))
  }

  predicate BadRequest(x: Context, now: nat, desired: nat, capacity: nat)
    requires x.config.concealmentSpan > 0
  {
    || x.pending.Some? || now < x.lastNow
    || desired == 0 || desired > x.config.maximumDelay || desired % x.config.concealmentSpan != 0
    || capacity < x.config.maximumPayload
  }

  function RequestQuantum(x: Context, desired: nat): nat
    requires x.timeline.Some?
  {
    var limit := if desired < x.config.concealmentSpan then desired else x.config.concealmentSpan;
    Quantum(x.slots, x.timeline.value.cursor, limit)
  }

  function DelayNs(x: Context): int
    requires x.config.clockRate > 0 && x.timeline.Some?
  {
    Deadline(x) - IdealNs(x.config, x.timeline.value, x.timeline.value.cursor)
  }

  /** Hand out one stored packet. */
  function ReleasePacket(x: Context, i: nat): (Context, Decision)
    requires x.config.clockRate > 0 && x.timeline.Some? && i < |x.slots|
  {
    var t, s := x.timeline.value, x.slots[i];
    var offset := s.timestamp - t.cursor;
    var output := s.span + offset;
    (x.(slots := x.slots[i := s.(active := false, payload := [])],
        unsuccessfulGets := 0,
        timeline := Some(t.(started := true)),
        pending := Some(Pending(if output >= 0 then output else 0, End(s)))),
     Decision(Delivered, s.timestamp, s.span, offset, s.payload, Deadline(x)))
  }

  function SatIncrement32(n: nat): nat {
    if n >= U32_MAX then U32_MAX else n + 1
  }

  function ReleaseMissing(x: Context, span: nat): (Context, Decision)
    requires x.config.clockRate > 0 && x.timeline.Some?
  {
    var t := x.timeline.value;
    (x.(unsuccessfulGets := SatIncrement32(x.unsuccessfulGets),
        counters := x.counters.(missingSpan := SatAdd(x.counters.missingSpan, span)),
        timeline := Some(t.(started := true)),
        pending := Some(Pending(span, SatAdd(t.cursor, span)))),
     Decision(Missing, t.cursor, span, 0, [], Deadline(x)))
  }

  function ReleaseInsertion(x: Context, span: nat, deferred: bool): (Context, Decision)
    requires x.config.clockRate > 0 && x.timeline.Some?
  {
    var t := x.timeline.value;
    (x.(unsuccessfulGets := if deferred then x.unsuccessfulGets else SatIncrement32(x.unsuccessfulGets),
        counters := x.counters.(insertionSpan := SatAdd(x.counters.insertionSpan, span)),
        timeline := Some(t.(started := true)),
        pending := Some(Pending(span, t.cursor))),
     Decision(Insertion, t.cursor, span, 0, [], Deadline(x)))
  }

  /** Act on the native answer; the timeline cursor is already settled. */
  function Decide(x: Context, answer: Answer, rebuilt: bool): (Context, int, Decision)
    requires x.config.clockRate > 0 && x.timeline.Some?
  {
    var y := x.(deferredInsertion := false);
    match answer
    case Nonsense => (x, INVALID, NothingDue(Deadline(x)))
    case Found(i) =>
      if i >= |x.slots| then (x, INVALID, NothingDue(Deadline(x)))
      else var (z, d) := ReleasePacket(y, i); (z, OK, d)
    case MissingSpan(span) =>
      if span == 0 then (x, INVALID, NothingDue(Deadline(x)))
      else var (z, d) := ReleaseMissing(y, span); (z, OK, d)
    case InsertionSpan(span) =>
      if span == 0 then (x, INVALID, NothingDue(Deadline(x)))
      else if DelayNs(x) + UnitsNs(x.config, span) > UnitsNs(x.config, x.config.maximumDelay) then Overload(y, rebuilt)
      else var (z, d) := ReleaseInsertion(y, span, x.deferredInsertion); (z, OK, d)
  }

  /** Before the timeline starts, its cursor is the earliest stored packet. */
  function Settle(x: Context): Option<Context>
    requires x.timeline.Some?
  {
    var t := x.timeline.value;
    if t.started then Some(x)
    else
      match EarliestActive(x.slots)
      case None => None
      case Some(first) => Some(x.(timeline := Some(t.(cursor := first))))
  }

  function Get(x: Context, now: nat, desired: nat, capacity: nat, answer: Answer, rebuilt: bool)
    : (Context, int, Decision)
    requires ValidConfig(x.config)
  {
    if BadRequest(x, now, desired, capacity) then (x, INVALID, NothingDue(0))
    else
      var y := x.(lastNow := now);
      if y.timeline.None? then (y, OK, NothingDue(0))
      else if now < Deadline(y) then (y, OK, NothingDue(Deadline(y)))
      else
        match Settle(y)
        case None => (y, PANIC, NothingDue(Deadline(y)))
        case Some(z) =>
          if DelayNs(z) > UnitsNs(z.config, z.config.maximumDelay) then Overload(z, rebuilt)
          else Decide(z, answer, rebuilt)
  }

  function ClampU64(n: int): nat {
    if n < 0 then 0 else if n > U64_MAX then U64_MAX else n
  }

  predicate BadCommit(x: Context, now: nat, downstream: nat) {
    || now < x.lastNow || downstream > I32_MAX || x.pending.None?
    || downstream > x.pending.value.outputSpan + x.downstream
  }

  /** The timeline once a decision is committed: release time moves on, the delay never drops below its minimum. */
  function Committed(x: Context, downstream: nat, adjustment: int): Timeline
    requires x.config.clockRate > 0 && x.timeline.Some? && x.pending.Some?
    requires downstream <= x.pending.value.outputSpan + x.downstream
  {
    var t, p := x.timeline.value, x.pending.value;
    var released := p.outputSpan + x.downstream - downstream;
    var moved := SatAdd(t.deadlineNs, UnitsNs(x.config, released));
    var cursor := if adjustment > 0 then SatAdd(p.nextTimestamp, adjustment) else p.nextTimestamp;
    var minimum := ClampU64(IdealNs(x.config, t, cursor)
        + UnitsNs(x.config, x.config.minimumDelay) - UnitsNs(x.config, downstream));
    t.(cursor := cursor, deadlineNs := if moved < minimum then minimum else moved)
  }

  function Advance(x: Context, now: nat, downstream: nat, adjustment: int): (Context, int)
    requires x.config.clockRate > 0
  {
    if BadCommit(x, now, downstream) then (x, INVALID)
    else if x.timeline.None? then (x, PANIC)
    else
      var skipped := if adjustment > 0 then adjustment else 0;
      (x.(pending := None, lastNow := now, downstream := downstream,
          timeline := Some(Committed(x, downstream, adjustment)),
          deferredInsertion := adjustment < 0,
          counters := x.counters.(skippedSpan := SatAdd(x.counters.skippedSpan, skipped))),
       OK)
  }

  /** The observed packet-buffer delay in media-clock units. */
  function ObservedDelay(x: Context): nat
    requires x.config.clockRate > 0
  {
    if x.timeline.None? then x.config.initialDelay
    else
      var units := TruncDiv(DelayNs(x) * x.config.clockRate, SECOND);
      if units < 0 then 0 else if units > U32_MAX then U32_MAX else units
  }

  function Fresh(c: Config): Context {
    Context(c, seq(c.maximumPackets + 1, k => Slot(false, false, 0, 0, [])), None, None, 0, 0, 0, false, ZERO_COUNTERS)
  }
}
