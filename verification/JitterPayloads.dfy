/** What comes out went in: over any run, delivered packets are distinct accepted ones, byte for byte. */
module JitterPayloads {
  import opened JitterModel
  import opened JitterSlots
  import opened JitterRuns

  datatype Image = Image(timestamp: nat, span: nat, payload: Payload)

  predicate Shows(s: Slot, m: Image) {
    s.active && Image(s.timestamp, s.span, s.payload) == m
  }

  /** How many stored packets are exactly this one. */
  function Copies(slots: seq<Slot>, m: Image): nat {
    if slots == [] then 0 else Copies(slots[..|slots| - 1], m) + One(Shows(slots[|slots| - 1], m))
  }

  lemma {:induction false} CopiesUpdate(slots: seq<Slot>, i: nat, s: Slot, m: Image)
    requires i < |slots|
    ensures Copies(slots[i := s], m) + One(Shows(slots[i], m)) == Copies(slots, m) + One(Shows(s, m))
  {
    var n := |slots| - 1;
    if i < n {
      assert slots[i := s][..n] == slots[..n][i := s];
      CopiesUpdate(slots[..n], i, s, m);
    } else {
      assert slots[i := s][..n] == slots[..n];
    }
  }

  lemma {:induction false} CopiesRetire(slots: seq<Slot>, cut: int, kept: nat, m: Image)
    requires forall k :: 0 <= k < |slots| ==> !slots[k].retired
    ensures Copies(Collected(Retire(slots, cut, kept)), m) <= Copies(slots, m)
  {
    if slots != [] {
      var n := |slots| - 1;
      assert Collected(Retire(slots, cut, kept))[..n] == Collected(Retire(slots[..n], cut, kept));
      CopiesRetire(slots[..n], cut, kept, m);
    }
  }

  lemma {:induction false} NoCopies(slots: seq<Slot>, m: Image)
    requires forall k :: 0 <= k < |slots| ==> !slots[k].active
    ensures Copies(slots, m) == 0
  {
    if slots != [] {
      NoCopies(slots[..|slots| - 1], m);
    }
  }

  function ImageOf(p: Packet): Image {
    Image(p.timestamp, p.span, p.payload)
  }

  /** Whether the operation newly accepts this packet. */
  function Accepts(x: Context, op: Op, m: Image): nat
    requires ValidConfig(x.config)
  {
    One(op.PutOp? && Step(x, op).1 == OK && ImageOf(op.packet) == m)
  }

  /** Whether the operation hands this packet out. */
  function HandsOut(x: Context, op: Op, m: Image): nat
    requires ValidConfig(x.config)
  {
    if op.GetOp? then
      var (_, status, d) := Get(x, op.now, op.desired, op.capacity, op.answer, op.rebuilt);
      One(status == OK && d.kind.Delivered? && Image(d.timestamp, d.span, d.payload) == m)
    else 0
  }

  lemma StoreHolds(x: Context, p: Packet, m: Image)
    requires ValidConfig(x.config) && SlotsSound(x.config, x.slots) && x.timeline.Some? && !Malformed(x.config, p)
    requires Queued(x.slots, Cut(x.timeline.value)) < x.config.maximumPackets
    ensures Copies(Store(x, p).0.slots, m) <= Copies(x.slots, m) + One(Store(x, p).1 == OK && ImageOf(p) == m)
  {
    StoreEffect(x, p);
    NoneRetired(x.slots);
    SpareExists(x.slots);
    var t, i := x.timeline.value, Spare(x.slots);
    var s := Slot(Useful(x.config, t, p), x.slots[i].retired, p.timestamp, p.span, p.payload);
    CopiesUpdate(x.slots, i, s, m);
    CopiesRetire(x.slots[i := s], Cut(t), i, m);
  }

  lemma PutHolds(x: Context, p: Packet, rebuilt: bool, m: Image)
    requires Shape(x)
    ensures Copies(Put(x, p, rebuilt).0.slots, m) <= Copies(x.slots, m) + Accepts(x, PutOp(p, rebuilt), m)
  {
    PutCases(x, p, rebuilt);
    NoCopies(Resync(x).slots, m);
    if !Turned(x, p, rebuilt) && !NoRoomInTime(x, p) {
      var y := Prepared(x, p);
      ResetShape(x, x.counters.(lateDrops := SatAdd(x.counters.lateDrops, Queued(x.slots, -1))));
      var t := y.timeline.value;
      if Distance(p.timestamp, t.cursor) <= I32_MAX && !AnyDuplicate(y.slots, p)
          && Queued(y.slots, Cut(t)) < y.config.maximumPackets {
        StoreHolds(y, p, m);
      }
    }
  }

  lemma DecideHolds(z: Context, desired: nat, answer: Answer, rebuilt: bool, m: Image)
    requires z.config.clockRate > 0 && z.timeline.Some? && LegalAnswer(z, desired, answer)
    ensures var (y, status, d) := Decide(z, answer, rebuilt);
            Copies(y.slots, m) + One(status == OK && d.kind.Delivered? && Image(d.timestamp, d.span, d.payload) == m)
            <= Copies(z.slots, m)
  {
    match answer
    case Found(i) => CopiesUpdate(z.slots, i, z.slots[i].(active := false, payload := []), m);
    case InsertionSpan(_) =>
      var y := z.(deferredInsertion := false);
      NoCopies(ResetKeeping(y, OverloadCounters(y)).slots, m);
    case _ =>
  }

  lemma GetHolds(x: Context, op: Op, m: Image)
    requires Shape(x) && op.GetOp? && LegalOp(x, op)
    ensures Copies(Step(x, op).0.slots, m) + HandsOut(x, op, m) <= Copies(x.slots, m)
  {
    var y := x.(lastNow := op.now);
    if !BadRequest(x, op.now, op.desired, op.capacity) && x.timeline.Some? && op.now >= Deadline(y) {
      SettleShape(y);
      var z := Settle(y).value;
      if Asked(x, op).Some? {
        DecideHolds(z, op.desired, op.answer, op.rebuilt, m);
      } else {
        NoCopies(ResetKeeping(z, OverloadCounters(z)).slots, m);
      }
    }
  }

  /** One operation: what it hands out and leaves behind was there or has just been accepted. */
  lemma StepHolds(x: Context, op: Op, m: Image)
    requires Shape(x) && LegalOp(x, op)
    ensures Copies(Step(x, op).0.slots, m) + HandsOut(x, op, m) <= Copies(x.slots, m) + Accepts(x, op, m)
  {
    match op
    case PutOp(p, rebuilt) => PutHolds(x, p, rebuilt, m);
    case GetOp(_, _, _, _, _) => GetHolds(x, op, m);
    case AdvanceOp(_, _, _) =>
    case ResetOp(_) => NoCopies(ResetKeeping(x, ZERO_COUNTERS).slots, m);
  }

  function TimesAccepted(x: Context, ops: seq<Op>, m: Image): nat
    requires ValidConfig(x.config)
    decreases |ops|
  {
    if ops == [] then 0 else Accepts(x, ops[0], m) + TimesAccepted(Step(x, ops[0]).0, ops[1..], m)
  }

  function TimesHandedOut(x: Context, ops: seq<Op>, m: Image): nat
    requires ValidConfig(x.config)
    decreases |ops|
  {
    if ops == [] then 0 else HandsOut(x, ops[0], m) + TimesHandedOut(Step(x, ops[0]).0, ops[1..], m)
  }

  /**
    Over any run a packet is handed out no more often than it was accepted, with the same
    timestamp, span and bytes: nothing is invented, altered or delivered twice.
   */
  lemma {:induction false} PayloadsExact(x: Context, l: Ledger, ops: seq<Op>, m: Image)
    requires Shape(x) && LegalRun(x, ops)
    ensures Copies(Run(x, l, ops).0.slots, m) + TimesHandedOut(x, ops, m)
            <= Copies(x.slots, m) + TimesAccepted(x, ops, m)
    decreases |ops|
  {
    if ops != [] {
      StepShape(x, ops[0]);
      StepHolds(x, ops[0], m);
      PayloadsExact(Step(x, ops[0]).0, Note(x, ops[0], l), ops[1..], m);
    }
  }
}
