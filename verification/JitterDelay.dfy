/**
  Release timing: how far playout lags the ideal media clock, and the bounds every release, commit
  and run keep that lag within.
 */
module JitterDelay {
  import opened Quotients
  import opened JitterModel
  import opened JitterRuns

  /** The extent lasts a whole number of nanoseconds. */
  predicate WholeNs(c: Config, units: nat)
    requires c.clockRate > 0
  {
    (units * SECOND) % c.clockRate == 0
  }

  lemma WholeUnits(c: Config, units: nat)
    requires c.clockRate > 0 && WholeNs(c, units)
    ensures UnitsNs(c, units) * c.clockRate == units * SECOND
  {
    var n, r := units * SECOND, c.clockRate;
    assert n == (n / r) * r + n % r;
  }

  /** Converting parts separately loses at most one nanosecond. */
  lemma UnitsSum(c: Config, a: nat, b: nat)
    requires c.clockRate > 0
    ensures UnitsNs(c, a) + UnitsNs(c, b) <= UnitsNs(c, a + b) <= UnitsNs(c, a) + UnitsNs(c, b) + 1
  {
    assert (a + b) * SECOND == a * SECOND + b * SECOND;
    QuotientSum(a * SECOND, b * SECOND, c.clockRate);
  }

  /** Nothing is lost when one part is whole. */
  lemma UnitsSumWhole(c: Config, a: nat, b: nat)
    requires c.clockRate > 0 && WholeNs(c, b)
    ensures UnitsNs(c, a + b) == UnitsNs(c, a) + UnitsNs(c, b)
  {
    WholeUnits(c, b);
    assert (a + b) * SECOND == a * SECOND + b * SECOND;
    QuotientShift(a * SECOND, c.clockRate, UnitsNs(c, b));
  }

  lemma TruncStep(d: int, u: nat, r: int)
    requires r > 0
    ensures TruncDiv(d, r) + u / r - 1 <= TruncDiv(d + u, r)
    ensures TruncDiv(d, r) <= TruncDiv(d + u, r)
  {
    if d >= 0 {
      QuotientSum(d, u, r);
      QuotientMonotone(d, d + u, r);
    } else if d + u < 0 {
      QuotientSum(-(d + u), u, r);
      QuotientMonotone(-(d + u), -d, r);
    } else {
      QuotientSum(d + u, -d, r);
      QuotientAtLeast(-d, r, 0);
      QuotientAtLeast(d + u, r, 0);
    }
  }

  /** The ideal clock moves with the cursor, to within a nanosecond, and never backwards. */
  lemma IdealStep(c: Config, t: Timeline, timestamp: nat, units: nat)
    requires c.clockRate > 0
    ensures IdealNs(c, t, timestamp) + UnitsNs(c, units) - 1 <= IdealNs(c, t, timestamp + units)
    ensures IdealNs(c, t, timestamp) <= IdealNs(c, t, timestamp + units)
  {
    assert (timestamp + units - t.originTimestamp) * SECOND
        == (timestamp - t.originTimestamp) * SECOND + units * SECOND;
    TruncStep((timestamp - t.originTimestamp) * SECOND, units * SECOND, c.clockRate);
  }

  // ---- Delay bounds ----

  /** A decision is released only when due, and never with more than the maximum delay; an insertion stays within it. */
  lemma ReleasedWithinMaximum(x: Context, op: Op)
    requires Shape(x) && op.GetOp? && LegalOp(x, op)
    requires var (_, status, d) := Get(x, op.now, op.desired, op.capacity, op.answer, op.rebuilt);
             status == OK && !d.kind.NotDue?
    ensures var (_, _, d) := Get(x, op.now, op.desired, op.capacity, op.answer, op.rebuilt);
            var z := Asked(x, op);
            && z.Some? && z.value.timeline.Some?
            && d.deadlineNs == Deadline(z.value) <= op.now
            && DelayNs(z.value) + (if d.kind.Insertion? then UnitsNs(x.config, d.span) else 0)
                <= UnitsNs(x.config, x.config.maximumDelay)
  {
    SettleShape(x.(lastNow := op.now));
  }

  /** After every commit the delay is at least the minimum, whatever the clock rate and the retained tail. */
  lemma CommittedAboveMinimum(x: Context, now: nat, downstream: nat, adjustment: int)
    requires Shape(x) && Advance(x, now, downstream, adjustment).1 == OK
    requires Deadline(Advance(x, now, downstream, adjustment).0) < U64_MAX
    ensures var y := Advance(x, now, downstream, adjustment).0;
            DelayNs(y) >= UnitsNs(x.config, x.config.minimumDelay)
  {
  }

  lemma ProductMonotone(a: int, b: int, d: nat)
    requires a <= b
    ensures a * d <= b * d
  {
  }

  /** Rounding to media-clock units loses less than one unit. */
  lemma ObservedAboveMinimum(x: Context)
    requires ValidConfig(x.config) && x.timeline.Some? && DelayNs(x) >= UnitsNs(x.config, x.config.minimumDelay)
    ensures ObservedDelay(x) >= x.config.minimumDelay - 1
  {
    var m, r, d := x.config.minimumDelay, x.config.clockRate, DelayNs(x);
    QuotientBounds(m * SECOND, r);
    ProductMonotone(UnitsNs(x.config, m), d, r);
    assert (m - 1) * SECOND <= d * r;
    QuotientAtLeast(d * r, SECOND, m - 1);
  }

  /** A whole minimum is not rounded at all. */
  lemma ObservedAboveWholeMinimum(x: Context)
    requires ValidConfig(x.config) && x.timeline.Some? && WholeNs(x.config, x.config.minimumDelay)
    requires DelayNs(x) >= UnitsNs(x.config, x.config.minimumDelay)
    ensures ObservedDelay(x) >= x.config.minimumDelay
  {
    var m, r, d := x.config.minimumDelay, x.config.clockRate, DelayNs(x);
    WholeUnits(x.config, m);
    ProductMonotone(UnitsNs(x.config, m), d, r);
    QuotientAtLeast(d * r, SECOND, m);
  }

  /** Two nanoseconds of rounding are far less than a tick, so they never show above the maximum. */
  lemma ObservedBelowMaximum(x: Context)
    requires ValidConfig(x.config) && x.timeline.Some?
    requires 0 <= DelayNs(x) <= UnitsNs(x.config, x.config.maximumDelay) + 2
    ensures ObservedDelay(x) <= x.config.maximumDelay
  {
    var m, r, d := x.config.maximumDelay, x.config.clockRate, DelayNs(x);
    QuotientBounds(m * SECOND, r);
    ProductMonotone(d, UnitsNs(x.config, m) + 2, r);
    assert (UnitsNs(x.config, m) + 2) * r == UnitsNs(x.config, m) * r + 2 * r;
    assert d * r < m * SECOND + SECOND;
    QuotientAtMost(d * r, SECOND, m);
    QuotientAtLeast(d * r, SECOND, 0);
  }

  /** The delay once the pending decision is committed in full. */
  function DelayAfter(x: Context): int
    requires x.config.clockRate > 0 && x.timeline.Some?
  {
    if x.pending.None? then DelayNs(x)
    else
      var p := x.pending.value;
      Deadline(x) + UnitsNs(x.config, p.outputSpan) - IdealNs(x.config, x.timeline.value, p.nextTimestamp)
  }

  predicate Unsaturated(x: Context)
    requires x.config.clockRate > 0
  {
    x.timeline.Some? ==> Deadline(x) < U64_MAX && Frontier(x) < U64_MAX
  }

  /** Between commits the delay of a started timeline lies within its configured bounds, up to rounding. */
  predicate DelayBounded(x: Context)
    requires x.config.clockRate > 0
  {
    x.timeline.Some? && x.timeline.value.started && Unsaturated(x) ==>
      if x.pending.Some? then DelayAfter(x) <= UnitsNs(x.config, x.config.maximumDelay) + 1
      else UnitsNs(x.config, x.config.minimumDelay) <= DelayNs(x) <= UnitsNs(x.config, x.config.maximumDelay) + 2
  }

  lemma DecideBounded(z: Context, desired: nat, answer: Answer, rebuilt: bool)
    requires Shape(z) && z.timeline.Some? && z.pending.None? && DelayBounded(z)
    requires 0 < desired <= z.config.maximumDelay && LegalAnswer(z, desired, answer)
    requires DelayNs(z) <= UnitsNs(z.config, z.config.maximumDelay)
    ensures DelayBounded(Decide(z, answer, rebuilt).0)
  {
    var t := z.timeline.value;
    match answer
    case Found(i) =>
      ReleasedExtent(z, desired, i);
      IdealStep(z.config, t, t.cursor, End(z.slots[i]) - t.cursor);
    case MissingSpan(span) => IdealStep(z.config, t, t.cursor, span);
    case _ =>
  }

  lemma GetBounded(x: Context, op: Op)
    requires Shape(x) && DelayBounded(x) && op.GetOp? && LegalOp(x, op)
    ensures DelayBounded(Step(x, op).0)
  {
    var y := x.(lastNow := op.now);
    if !BadRequest(x, op.now, op.desired, op.capacity) && x.timeline.Some? && op.now >= Deadline(y) {
      SettleShape(y);
      var z := Settle(y).value;
      if Asked(x, op).Some? {
        DecideBounded(z, op.desired, op.answer, op.rebuilt);
      }
    }
  }

  lemma PutBounded(x: Context, p: Packet, rebuilt: bool)
    requires Shape(x) && DelayBounded(x)
    ensures DelayBounded(Put(x, p, rebuilt).0)
  {
    PutCases(x, p, rebuilt);
    ResetShape(x, x.counters.(lateDrops := SatAdd(x.counters.lateDrops, Queued(x.slots, -1))));
    if !Turned(x, p, rebuilt) && !NoRoomInTime(x, p) {
      AdmitEffect(Prepared(x, p), p);
    }
  }

  function LowestDeadline(x: Context, cursor: nat): int
    requires x.config.clockRate > 0 && x.timeline.Some?
  {
    IdealNs(x.config, x.timeline.value, cursor) + UnitsNs(x.config, x.config.minimumDelay)
  }

  /**
    Committing moves the whole deadline by the output time, never overshooting by more than rounding,
    and lifts it to the minimum.
   */
  lemma CommitMoves(x: Context, now: nat, downstream: nat, adjustment: int)
    requires Shape(x) && adjustment <= I32_MAX
    requires Advance(x, now, downstream, adjustment).1 == OK
            && Deadline(Advance(x, now, downstream, adjustment).0) < U64_MAX
    ensures var y := Advance(x, now, downstream, adjustment).0;
            var kept := UnitsNs(x.config, x.pending.value.outputSpan + x.downstream - downstream)
                + UnitsNs(x.config, downstream);
            var moved := x.timeline.value.deadlineNs + kept;
            var lowest := LowestDeadline(x, y.timeline.value.cursor);
            && Deadline(y) == (if moved < lowest then lowest else moved)
            && kept <= UnitsNs(x.config, x.pending.value.outputSpan) + UnitsNs(x.config, x.downstream) + 1
            && UnitsNs(x.config, x.downstream) <= kept + 1
  {
    var c, out := x.config, x.pending.value.outputSpan;
    UnitsSum(c, out, x.downstream);
    UnitsSum(c, out + x.downstream - downstream, downstream);
  }

  lemma AdvanceBounded(x: Context, now: nat, downstream: nat, adjustment: int)
    requires Shape(x) && DelayBounded(x) && adjustment <= I32_MAX && Unsaturated(x)
    ensures DelayBounded(Advance(x, now, downstream, adjustment).0)
  {
    var (y, status) := Advance(x, now, downstream, adjustment);
    if status == OK && Unsaturated(y) {
      CommitMoves(x, now, downstream, adjustment);
      var t, next := x.timeline.value, x.pending.value.nextTimestamp;
      assert y.timeline.value.cursor == next + (if adjustment > 0 then adjustment else 0);
      IdealStep(x.config, t, next, y.timeline.value.cursor - next);
      assert IdealNs(x.config, y.timeline.value, y.timeline.value.cursor)
          == IdealNs(x.config, t, y.timeline.value.cursor);
      UnitsSum(x.config, x.config.minimumDelay, x.config.maximumDelay - x.config.minimumDelay);
    }
  }

  /** Every operation keeps the delay within its bounds. */
  lemma StepBounded(x: Context, op: Op)
    requires Shape(x) && DelayBounded(x) && LegalOp(x, op) && Unsaturated(x)
    ensures DelayBounded(Step(x, op).0)
  {
    match op
    case PutOp(p, rebuilt) => PutBounded(x, p, rebuilt);
    case GetOp(_, _, _, _, _) => GetBounded(x, op);
    case AdvanceOp(now, downstream, adjustment) => AdvanceBounded(x, now, downstream, adjustment);
    case ResetOp(_) =>
  }

  predicate UnsaturatedRun(x: Context, ops: seq<Op>)
    requires ValidConfig(x.config)
    decreases |ops|
  {
    Unsaturated(x) && (ops == [] || UnsaturatedRun(Step(x, ops[0]).0, ops[1..]))
  }

  /**
    Over any run in which no time saturates, at any clock rate: whenever a started timeline has
    nothing pending, the observed delay is at most the configured maximum and at least the
    minimum less one unit, and at least the minimum itself when that is a whole number of
    nanoseconds.
   */
  lemma {:induction false} ObservedDelayWithinBounds(x: Context, l: Ledger, ops: seq<Op>)
    requires Shape(x) && DelayBounded(x) && LegalRun(x, ops) && UnsaturatedRun(x, ops)
    ensures var y := Run(x, l, ops).0;
            && y.config == x.config
            && (y.timeline.Some? && y.timeline.value.started && y.pending.None? ==>
                  && x.config.minimumDelay - 1 <= ObservedDelay(y) <= x.config.maximumDelay
                  && (WholeNs(x.config, x.config.minimumDelay) ==> x.config.minimumDelay <= ObservedDelay(y)))
    decreases |ops|
  {
    if ops == [] {
      if x.timeline.Some? && x.timeline.value.started && x.pending.None? {
        ObservedBelowMaximum(x);
        ObservedAboveMinimum(x);
        if WholeNs(x.config, x.config.minimumDelay) {
          ObservedAboveWholeMinimum(x);
        }
      }
    } else {
      StepShape(x, ops[0]);
      StepBounded(x, ops[0]);
      ObservedDelayWithinBounds(Step(x, ops[0]).0, Note(x, ops[0], l), ops[1..]);
    }
  }
}
