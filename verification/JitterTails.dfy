/**
  Retaining a decoded tail downstream: a run whose tails last whole nanoseconds behaves, call for
  call, like the run that retains nothing.
 */
module JitterTails {
  import opened Options
  import opened Quotients
  import opened JitterModel
  import opened JitterRuns
  import opened JitterDelay

  /** The same context with the retained tail already published: the whole deadline moves into the timeline. */
  function Tailless(x: Context): Context
    requires x.config.clockRate > 0
  {
    x.(downstream := 0,
       timeline := if x.timeline.None? then None else Some(x.timeline.value.(deadlineNs := Deadline(x))))
  }

  function WithoutTail(op: Op): Op {
    if op.AdvanceOp? then op.(downstream := 0) else op
  }

  /** The tail is one the pending decision and the previous tail can account for. */
  predicate TailLegal(x: Context, op: Op) {
    op.AdvanceOp? && x.pending.Some? ==>
      op.downstream <= I32_MAX && op.downstream <= x.pending.value.outputSpan + x.downstream
  }

  predicate TailWhole(x: Context, op: Op)
    requires x.config.clockRate > 0
  {
    op.AdvanceOp? && x.pending.Some? ==> WholeNs(x.config, op.downstream)
  }

  lemma NoUnits(c: Config)
    requires c.clockRate > 0
    ensures UnitsNs(c, 0) == 0 && WholeNs(c, 0)
  {
    QuotientIs(0 * SECOND, c.clockRate, 0, 0);
  }

  lemma SameDeadline(x: Context)
    requires x.config.clockRate > 0 && x.timeline.Some?
    ensures Deadline(Tailless(x)) == Deadline(x)
    ensures DelayNs(Tailless(x)) == DelayNs(x)
  {
    NoUnits(x.config);
  }

  lemma AdmitTailless(x: Context, p: Packet)
    requires x.config.clockRate > 0 && x.timeline.Some?
    ensures Admit(Tailless(x), p) == (Tailless(Admit(x, p).0), Admit(x, p).1)
  {
  }

  lemma PutTailless(x: Context, p: Packet, rebuilt: bool)
    requires Shape(x)
    ensures Put(Tailless(x), p, rebuilt) == (Tailless(Put(x, p, rebuilt).0), Put(x, p, rebuilt).1)
  {
    PutCases(x, p, rebuilt);
    PutCases(Tailless(x), p, rebuilt);
    if !Turned(x, p, rebuilt) && !NoRoomInTime(x, p) {
      var y := Prepared(x, p);
      AdmitTailless(y, p);
      NoUnits(x.config);
      assert Prepared(Tailless(x), p) == Tailless(y);
    }
  }

  lemma SettleTailless(x: Context)
    requires Shape(x) && x.timeline.Some?
    ensures Settle(x).Some? && Settle(Tailless(x)) == Some(Tailless(Settle(x).value))
  {
    SettleShape(x);
  }

  lemma DecideTailless(z: Context, answer: Answer, rebuilt: bool)
    requires z.config.clockRate > 0 && z.timeline.Some?
    ensures var (y, status, d) := Decide(z, answer, rebuilt);
            Decide(Tailless(z), answer, rebuilt) == (Tailless(y), status, d)
  {
    SameDeadline(z);
    SameDeadline(z.(deferredInsertion := false));
  }

  lemma GetTailless(x: Context, op: Op)
    requires Shape(x) && op.GetOp?
    ensures var (y, status, d) := Get(x, op.now, op.desired, op.capacity, op.answer, op.rebuilt);
            Get(Tailless(x), op.now, op.desired, op.capacity, op.answer, op.rebuilt) == (Tailless(y), status, d)
  {
    var y := x.(lastNow := op.now);
    if !BadRequest(x, op.now, op.desired, op.capacity) && x.timeline.Some? {
      SameDeadline(y);
      if op.now >= Deadline(y) {
        SettleTailless(y);
        var z := Settle(y).value;
        SettleShape(y);
        SameDeadline(z);
        DecideTailless(z, op.answer, op.rebuilt);
      }
    }
  }

  lemma AdvanceTailless(x: Context, op: Op)
    requires Shape(x) && op.AdvanceOp? && LegalOp(x, op) && TailLegal(x, op)
    requires WholeNs(x.config, x.downstream) && TailWhole(x, op)
    requires Unsaturated(x) && Unsaturated(Step(x, op).0)
    ensures Step(Tailless(x), WithoutTail(op)) == (Tailless(Step(x, op).0), Step(x, op).1)
    ensures WholeNs(x.config, Step(x, op).0.downstream)
  {
    if !BadCommit(x, op.now, op.downstream) {
      CommitMoves(x, op.now, op.downstream, op.adjustment);
      NoUnits(x.config);
      var bare, y, out := Tailless(x), Step(x, op).0, x.pending.value.outputSpan;
      UnitsSumWhole(x.config, out, x.downstream);
      UnitsSumWhole(x.config, out + x.downstream - op.downstream, op.downstream);
      var cursor := y.timeline.value.cursor;
      assert IdealNs(x.config, bare.timeline.value, cursor) == IdealNs(x.config, x.timeline.value, cursor);
      assert Committed(bare, 0, op.adjustment).deadlineNs == Deadline(y);
    }
  }

  /** What a caller sees of one operation: its status, and for a request its decision. */
  function Seen(x: Context, op: Op): (int, Decision)
    requires ValidConfig(x.config)
  {
    if op.GetOp? then
      var (_, status, d) := Get(x, op.now, op.desired, op.capacity, op.answer, op.rebuilt); (status, d)
    else (Step(x, op).1, NothingDue(0))
  }

  /** What it means for one operation that the tail does not matter. */
  predicate Alike(x: Context, op: Op)
    requires ValidConfig(x.config)
  {
    && WholeNs(x.config, Step(x, op).0.downstream)
    && Step(Tailless(x), WithoutTail(op)).0 == Tailless(Step(x, op).0)
    && Seen(Tailless(x), WithoutTail(op)) == Seen(x, op)
  }

  lemma PutAlike(x: Context, op: Op)
    requires Shape(x) && op.PutOp? && WholeNs(x.config, x.downstream)
    ensures Alike(x, op)
  {
    PutTailless(x, op.packet, op.rebuilt);
    TailKept(x, op);
    NoUnits(x.config);
  }

  lemma GetAlike(x: Context, op: Op)
    requires Shape(x) && op.GetOp? && WholeNs(x.config, x.downstream)
    ensures Alike(x, op)
  {
    GetTailless(x, op);
    TailKept(x, op);
    NoUnits(x.config);
  }

  lemma StepTailless(x: Context, op: Op)
    requires Shape(x) && LegalOp(x, op) && TailLegal(x, op)
    requires WholeNs(x.config, x.downstream) && TailWhole(x, op)
    requires Unsaturated(x) && Unsaturated(Step(x, op).0)
    ensures Alike(x, op)
  {
    match op
    case PutOp(_, _) => PutAlike(x, op);
    case GetOp(_, _, _, _, _) => GetAlike(x, op);
    case AdvanceOp(_, _, _) => AdvanceTailless(x, op);
    case ResetOp(_) => NoUnits(x.config);
  }

  /** Only a commit changes the tail; a reset clears it. */
  lemma TailKept(x: Context, op: Op)
    requires ValidConfig(x.config) && (op.PutOp? || op.GetOp?)
    ensures Step(x, op).0.downstream == x.downstream || Step(x, op).0.downstream == 0
  {
  }

  function SeenAlong(x: Context, ops: seq<Op>): seq<(int, Decision)>
    requires ValidConfig(x.config)
    decreases |ops|
  {
    if ops == [] then [] else [Seen(x, ops[0])] + SeenAlong(Step(x, ops[0]).0, ops[1..])
  }

  /** A legal run in which no time saturates and every retained tail was there to retain. */
  predicate TailRun(x: Context, ops: seq<Op>)
    requires ValidConfig(x.config)
    decreases |ops|
  {
    Unsaturated(x) && (ops == [] || (LegalOp(x, ops[0]) && TailLegal(x, ops[0])
        && TailRun(Step(x, ops[0]).0, ops[1..])))
  }

  /** Every tail the run retains lasts whole nanoseconds. */
  predicate WholeTails(x: Context, ops: seq<Op>)
    requires ValidConfig(x.config)
    decreases |ops|
  {
    ops == [] || (TailWhole(x, ops[0]) && WholeTails(Step(x, ops[0]).0, ops[1..]))
  }

  function WithoutTails(ops: seq<Op>): seq<Op> {
    seq(|ops|, k requires 0 <= k < |ops| => WithoutTail(ops[k]))
  }

  function After(x: Context, ops: seq<Op>): Context
    requires ValidConfig(x.config)
    decreases |ops|
  {
    if ops == [] then x else After(Step(x, ops[0]).0, ops[1..])
  }

  /**
    Retention is invisible: with the same native answers and adjustments, every status, decision,
    deadline and overload of a run with retained tails is that of the run that publishes at once.
   */
  lemma {:induction false} TailsDoNotMatter(x: Context, ops: seq<Op>)
    requires Shape(x) && WholeNs(x.config, x.downstream) && TailRun(x, ops)
    requires WholeTails(x, ops)
    ensures SeenAlong(Tailless(x), WithoutTails(ops)) == SeenAlong(x, ops)
    ensures After(x, ops).config == x.config
    ensures After(Tailless(x), WithoutTails(ops)) == Tailless(After(x, ops))
    decreases |ops|
  {
    if ops != [] {
      StepShape(x, ops[0]);
      StepTailless(x, ops[0]);
      TailsDoNotMatter(Step(x, ops[0]).0, ops[1..]);
      assert WithoutTails(ops)[0] == WithoutTail(ops[0]);
      assert WithoutTails(ops)[1..] == WithoutTails(ops[1..]);
    }
  }

  // ---- The receive time told to the native buffer ----

  /** How far, in media-clock units, an arrival lies from the cursor's release, as `put` computes it. */
  function ArrivalOffset(c: Config, arrivalNs: nat, deadlineNs: int, downstream: nat): int {
    TruncDiv((arrivalNs - deadlineNs) * c.clockRate, SECOND) - downstream
  }

  /**
    The arrival offset is the one exception: it truncates toward zero before subtracting the tail.
    It agrees with the tail-free offset exactly when the arrival is not before the whole deadline,
    or is before the timeline's own deadline, or falls on a tick.
   */
  lemma ArrivalOffsetAgrees(c: Config, arrivalNs: nat, whole: int, downstream: nat)
    requires c.clockRate > 0 && WholeNs(c, downstream)
    ensures var scaled := (arrivalNs - whole) * c.clockRate;
            ArrivalOffset(c, arrivalNs, whole - UnitsNs(c, downstream), downstream)
                == ArrivalOffset(c, arrivalNs, whole, 0)
            <==> arrivalNs >= whole || arrivalNs <= whole - UnitsNs(c, downstream) || scaled % SECOND == 0
  {
    var kept := UnitsNs(c, downstream);
    WholeUnits(c, downstream);
    ArrivalScales(arrivalNs - whole, kept, c.clockRate, downstream);
    TruncShift((arrivalNs - whole) * c.clockRate, downstream);
  }

  lemma ArrivalScales(gap: int, kept: nat, rate: nat, units: nat)
    requires rate > 0 && kept * rate == units * SECOND
    ensures (gap + kept) * rate == gap * rate + units * SECOND
    ensures gap >= 0 <==> gap * rate >= 0
    ensures gap + kept <= 0 <==> gap * rate + units * SECOND <= 0
  {
    assert (gap + kept) * rate == gap * rate + kept * rate;
    Signs(gap, rate);
    Signs(gap + kept, rate);
  }

  /** Truncation toward zero commutes with a shift by whole units exactly away from the sign change, or on a unit. */
  lemma TruncShift(e: int, units: nat)
    ensures TruncDiv(e + units * SECOND, SECOND) - units == TruncDiv(e, SECOND) <==>
            e >= 0 || e + units * SECOND <= 0 || e % SECOND == 0
  {
  }

  lemma Signs(a: int, b: nat)
    requires b > 0
    ensures a >= 0 <==> a * b >= 0
    ensures a <= 0 <==> a * b <= 0
  {
  }

  /** The arrival `put` reports for a packet when a timeline is running. */
  function ReportedArrival(x: Context, p: Packet): int
    requires x.timeline.Some?
  {
    ArrivalOffset(x.config, p.arrivalNs, x.timeline.value.deadlineNs, x.downstream)
  }

  /** Said of contexts: when the arrival reported with a retained tail is the one reported without. */
  lemma ReportedArrivalAgrees(x: Context, p: Packet)
    requires x.config.clockRate > 0 && x.timeline.Some? && Unsaturated(x) && WholeNs(x.config, x.downstream)
    ensures ReportedArrival(x, p) == ReportedArrival(Tailless(x), p) <==>
            || p.arrivalNs >= Deadline(x) || p.arrivalNs <= x.timeline.value.deadlineNs
            || ((p.arrivalNs - Deadline(x)) * x.config.clockRate) % SECOND == 0
  {
    ArrivalOffsetAgrees(x.config, p.arrivalNs, Deadline(x), x.downstream);
  }
}
