/** The client of the jitter capability: the configuration it composes and the decisions it accepts. */
module JitterClient {
  import opened Options
  import opened Quotients
  import opened JitterModel
  import opened JitterRuns
  import opened JitterDelay

  predicate ClientRate(rate: nat) {
    rate == 8000 || rate == 16000 || rate == 48000
  }

  predicate Acceptable(rate: nat, lossUnit: nat, maximumPayload: nat) {
    ClientRate(rate) && 0 < lossUnit <= rate / 2 && 1 <= maximumPayload <= 65527
  }

  /** 160, 180 and 500 ms of delay at the selected clock. */
  function Compose(rate: nat, lossUnit: nat, maximumPayload: nat): Option<Config> {
    if !Acceptable(rate, lossUnit, maximumPayload) then None
    else Some(Config(rate, rate * 160 / 1000, rate * 180 / 1000, rate / 2, rate / 100, lossUnit, 64, maximumPayload))
  }

  function CeilDiv(a: nat, b: nat): nat
    requires b > 0
  {
    (a + b - 1) / b
  }

  /** The request the client makes: whole coding units covering at least 20 ms. */
  function ReleaseSpan(rate: nat, lossUnit: nat): nat
    requires lossUnit > 0
  {
    CeilDiv(rate / 50, lossUnit) * lossUnit
  }

  /**
    Every configuration the client composes is accepted by the adapter, its minimum and maximum
    delays last whole nanoseconds at each of its clocks, and its request is a legal one: the least
    whole number of coding units that covers 20 ms.
   */
  lemma ComposedIsAccepted(rate: nat, lossUnit: nat, maximumPayload: nat)
    requires Acceptable(rate, lossUnit, maximumPayload)
    ensures var c := Compose(rate, lossUnit, maximumPayload).value;
            var span := ReleaseSpan(rate, lossUnit);
            && ValidConfig(c) && WholeNs(c, c.minimumDelay) && WholeNs(c, c.maximumDelay)
            && 0 < span <= c.maximumDelay && span % c.concealmentSpan == 0
            && rate / 50 <= span < rate / 50 + lossUnit
  {
    RequestCovers(rate / 50, lossUnit);
    DelaysWhole(rate, lossUnit, maximumPayload);
  }

  lemma DelaysWhole(rate: nat, lossUnit: nat, maximumPayload: nat)
    requires Acceptable(rate, lossUnit, maximumPayload)
    ensures var c := Compose(rate, lossUnit, maximumPayload).value;
            ValidConfig(c) && WholeNs(c, c.minimumDelay) && WholeNs(c, c.maximumDelay)
  {
    var c := Compose(rate, lossUnit, maximumPayload).value;
    assert c.minimumDelay * 25 == c.clockRate * 4 && c.maximumDelay * 2 == c.clockRate;
    assert c.minimumDelay * SECOND == 160000000 * c.clockRate;
    assert c.maximumDelay * SECOND == 500000000 * c.clockRate;
  }

  /** Rounding up to whole units covers the quantum with less than a unit to spare. */
  lemma RequestCovers(quantum: nat, unit: nat)
    requires quantum > 0 && unit > 0
    ensures var span := CeilDiv(quantum, unit) * unit;
            quantum <= span < quantum + unit && span % unit == 0 && (quantum <= unit ==> span == unit)
  {
    if quantum <= unit {
      QuotientAtLeast(quantum + unit - 1, unit, 1);
      QuotientAtMost(quantum + unit - 1, unit, 1);
    }
    var units := CeilDiv(quantum, unit);
    QuotientBounds(quantum + unit - 1, unit);
    QuotientOfProduct(units, unit);
    var n := units * unit;
    assert n == (n / unit) * unit + n % unit;
  }

  /** A context built by the client holds between 160 and 500 ms of delay at every settled point of every run. */
  lemma ClientDelayBounded(rate: nat, lossUnit: nat, maximumPayload: nat, c: Config, ops: seq<Op>)
    requires Acceptable(rate, lossUnit, maximumPayload) && Compose(rate, lossUnit, maximumPayload) == Some(c)
    requires ValidConfig(c) && LegalRun(Fresh(c), ops) && UnsaturatedRun(Fresh(c), ops)
    ensures var y := Run(Fresh(c), EMPTY_LEDGER, ops).0;
            && y.config == c
            && (y.timeline.Some? && y.timeline.value.started && y.pending.None? ==>
                  160 * rate <= 1000 * ObservedDelay(y) <= 500 * rate)
  {
    DelaysWhole(rate, lossUnit, maximumPayload);
    FreshShape(c);
    DelaysInMilliseconds(rate, lossUnit, maximumPayload);
    ObservedDelayWithinBounds(Fresh(c), EMPTY_LEDGER, ops);
  }

  lemma DelaysInMilliseconds(rate: nat, lossUnit: nat, maximumPayload: nat)
    requires Acceptable(rate, lossUnit, maximumPayload)
    ensures var c := Compose(rate, lossUnit, maximumPayload).value;
            1000 * c.minimumDelay == 160 * rate && 1000 * c.maximumDelay == 500 * rate
  {
  }

  /** The client's own check of a decision. */
  predicate Passes(d: Decision, capacity: nat) {
    && |d.payload| <= capacity
    && (!d.kind.Delivered? ==> |d.payload| == 0)
    && (!d.kind.NotDue? ==> d.span != 0 && d.span + d.startOffset > 0)
  }

  lemma DecidePasses(z: Context, op: Op)
    requires Shape(z) && z.timeline.Some? && op.GetOp? && op.capacity >= z.config.maximumPayload
    requires 0 < op.desired <= z.config.maximumDelay && LegalAnswer(z, op.desired, op.answer)
    ensures var (y, status, d) := Decide(z, op.answer, op.rebuilt); status == OK ==> Safe(y, d, op.capacity)
  {
    if op.answer.Found? {
      ReleasedExtent(z, op.desired, op.answer.slot);
      assert SlotSound(z.config, z.slots[op.answer.slot]);
    }
  }

  /** The client accepts the decision, its numbers fit their C types, and the pending commit matches it. */
  predicate Safe(y: Context, d: Decision, capacity: nat) {
    && Passes(d, capacity)
    && d.span <= U32_MAX && -(I32_MAX as int) <= d.startOffset <= I32_MAX
    && (!d.kind.NotDue? ==> y.pending.Some? && y.pending.value.outputSpan == d.span + d.startOffset <= I32_MAX)
  }

  /** No decision a context releases is refused by the client, and its spans fit their C types. */
  lemma DecisionsPass(x: Context, op: Op)
    requires Shape(x) && op.GetOp? && LegalOp(x, op)
    ensures var (y, status, d) := Get(x, op.now, op.desired, op.capacity, op.answer, op.rebuilt);
            status == OK ==> Safe(y, d, op.capacity)
  {
    if Asked(x, op).Some? {
      SettleShape(x.(lastNow := op.now));
      DecidePasses(Asked(x, op).value, op);
    }
  }
}
