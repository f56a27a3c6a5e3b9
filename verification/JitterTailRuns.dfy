/**
  Which retained tails a caller can notice, over runs of a context as `create` builds it: exactly
  those that do not last whole nanoseconds.
 */
module JitterTailRuns {
  import opened Options
  import opened Quotients
  import opened JitterModel
  import opened JitterSlots
  import opened JitterRuns
  import opened JitterDelay
  import opened JitterTails

  // ---- Which tails are whole ----

  /** At a rate that divides one gigahertz every tail is whole. */
  lemma WholeAtDividingRates(c: Config, units: nat)
    requires c.clockRate > 0 && SECOND % c.clockRate == 0
    ensures WholeNs(c, units)
  {
    var q := SECOND / c.clockRate;
    assert SECOND == q * c.clockRate;
    assert units * SECOND == (units * q) * c.clockRate;
    QuotientIs(units * SECOND, c.clockRate, units * q, 0);
  }

  /** At 48000 Hz a tail is whole exactly when it is a multiple of three units. */
  lemma WholeAt48000(c: Config, units: nat)
    requires c.clockRate == 48000
    ensures WholeNs(c, units) <==> units % 3 == 0
  {
    var q, s := units / 3, units % 3;
    assert units * SECOND == (62_500 * q) * 48000 + s * SECOND;
    if s == 0 {
      QuotientIs(units * SECOND, 48000, 62_500 * q, 0);
    } else if s == 1 {
      QuotientIs(units * SECOND, 48000, 62_500 * q + 20_833, 16_000);
    } else {
      QuotientIs(units * SECOND, 48000, 62_500 * q + 41_666, 32_000);
    }
  }

  // ---- Unit conversion ----

  lemma UnitsBound(c: Config, n: nat)
    requires c.clockRate > 0
    ensures UnitsNs(c, n) <= n * SECOND
  {
    ProductAtMost(n * SECOND, 1, n * SECOND, c.clockRate);
    QuotientBounds(n * SECOND, c.clockRate);
    QuotientAtMost(n * SECOND, c.clockRate, n * SECOND);
  }

  lemma UnitsMonotone(c: Config, a: nat, b: nat)
    requires c.clockRate > 0 && a <= b
    ensures UnitsNs(c, a) <= UnitsNs(c, b)
  {
    QuotientMonotone(a * SECOND, b * SECOND, c.clockRate);
  }

  /** What completes a tail to whole seconds. */
  function Complement(c: Config, tail: nat): nat
    requires c.clockRate > 0
  {
    c.clockRate - tail % c.clockRate
  }

  lemma ComplementCompletes(c: Config, tail: nat)
    requires c.clockRate > 0
    ensures 0 < Complement(c, tail) <= c.clockRate && WholeNs(c, Complement(c, tail) + tail)
    ensures tail % c.clockRate == 0 ==> WholeNs(c, tail)
  {
    var r, a := c.clockRate, Complement(c, tail);
    var seconds := tail / r + 1;
    assert tail == (tail / r) * r + tail % r;
    assert (tail / r + 1) * r == (tail / r) * r + r;
    assert (a + tail) * SECOND == (seconds * SECOND) * r;
    QuotientIs((a + tail) * SECOND, r, seconds * SECOND, 0);
    if tail % r == 0 {
      assert tail * SECOND == ((tail / r) * SECOND) * r;
      QuotientIs(tail * SECOND, r, (tail / r) * SECOND, 0);
    }
  }

  lemma ExactSumIsWhole(c: Config, a: nat, b: nat)
    requires c.clockRate > 0 && WholeNs(c, a + b) && UnitsNs(c, a + b) == UnitsNs(c, a) + UnitsNs(c, b)
    ensures WholeNs(c, b)
  {
    var r, n, m := c.clockRate, b * SECOND, a * SECOND;
    WholeUnits(c, a + b);
    assert n + m == (a + b) * SECOND;
    assert (n / r + m / r) * r == (n / r) * r + (m / r) * r;
    QuotientBounds(n, r);
    QuotientBounds(m, r);
    assert n == (n / r) * r + n % r;
  }

  /** Rounding a tail that is not whole and its complement apart loses exactly one nanosecond. */
  lemma LossAtWholeSeconds(c: Config, tail: nat)
    requires c.clockRate > 0 && !WholeNs(c, tail)
    ensures var a := Complement(c, tail);
            && 0 < a < c.clockRate && WholeNs(c, a + tail)
            && UnitsNs(c, a + tail) == UnitsNs(c, a) + UnitsNs(c, tail) + 1
  {
    var a := Complement(c, tail);
    ComplementCompletes(c, tail);
    UnitsSum(c, a, tail);
    if UnitsNs(c, a + tail) == UnitsNs(c, a) + UnitsNs(c, tail) {
      ExactSumIsWhole(c, a, tail);
    }
  }

  // ---- A stretch of playout ----

  function Max(a: int, b: int): int {
    if a < b then b else a
  }

  /** Nothing pending, the next release due at `total`, with `tail` of it retained downstream. */
  predicate Ready(x: Context, c: Config, cursor: nat, total: nat, tail: nat)
    requires c.clockRate > 0
  {
    && x.config == c && x.pending.None? && x.downstream == tail && x.timeline.Some? && x.lastNow <= total
    && var t := x.timeline.value;
       && t.originTimestamp == 0 && t.originNs == 0 && t.cursor == cursor
       && t.deadlineNs + UnitsNs(c, tail) == total
       && (t.started || EarliestActive(x.slots) == Some(cursor))
  }

  function Fetch(c: Config, now: nat, answer: Answer): Op {
    GetOp(now, c.concealmentSpan, c.maximumPayload, answer, false)
  }

  /**
    Durations of one stretch: of the tail before, the output with it, what is published and kept, and
    the ideal clock.
   */
  datatype Times = Times(total: nat, tail: nat, all: nat, published: nat, kept: nat, ideal: nat, minimum: nat)

  function TimesOf(c: Config, cursor: nat, total: nat, tail: nat, span: nat, kept: nat): Times
    requires c.clockRate > 0 && kept <= span + tail
  {
    Times(total, UnitsNs(c, tail), UnitsNs(c, span + tail), UnitsNs(c, span + tail - kept), UnitsNs(c, kept),
          UnitsNs(c, cursor + span), UnitsNs(c, c.minimumDelay))
  }

  /** When the next release is due. */
  function NextDue(t: Times): int {
    Max(t.total - t.tail + t.published + t.kept, t.ideal + t.minimum)
  }

  /** All times of the stretch stay below saturation. */
  predicate Roomy(t: Times) {
    t.total - t.tail + t.all + t.all < U64_MAX && t.total < U64_MAX && t.ideal + t.minimum < U64_MAX
  }

  lemma IdealFromZero(c: Config, t: Timeline, timestamp: nat)
    requires c.clockRate > 0 && t.originTimestamp == 0 && t.originNs == 0
    ensures IdealNs(c, t, timestamp) == UnitsNs(c, timestamp)
  {
  }

  /** A due request answered with a missing span. */
  lemma MissDue(x: Context, c: Config, cursor: nat, total: nat, tail: nat, span: nat)
    requires ValidConfig(c) && Ready(x, c, cursor, total, tail) && 0 < span <= I32_MAX
    requires Roomy(TimesOf(c, cursor, total, tail, span, 0)) && cursor + span < U64_MAX
    requires total - UnitsNs(c, cursor) <= UnitsNs(c, c.maximumDelay)
    ensures var op := Fetch(c, total, MissingSpan(span));
            var y := Step(x, op).0;
            && LegalOp(x, op) && Unsaturated(x) && Unsaturated(y)
            && Seen(x, op) == (OK, Decision(Missing, cursor, span, 0, [], total))
            && y.config == c && y.pending == Some(Pending(span, cursor + span)) && y.downstream == tail
                && y.lastNow == total
            && y.timeline == Some(x.timeline.value.(started := true))
  {
    IdealFromZero(c, x.timeline.value, cursor);
    assert Deadline(x) == total;
    var y := x.(lastNow := total);
    assert Settle(y) == Some(y);
  }

  /** And its commit. */
  lemma CommitMiss(y: Context, c: Config, cursor: nat, total: nat, tail: nat, span: nat, kept: nat)
    requires ValidConfig(c) && y.config == c && y.pending == Some(Pending(span, cursor + span)) && y.downstream == tail
    requires kept <= I32_MAX && kept <= span + tail
    requires y.timeline.Some? && y.timeline.value.started && y.lastNow == total
    requires Roomy(TimesOf(c, cursor, total, tail, span, kept))
    requires var t := y.timeline.value;
             t.originTimestamp == 0 && t.originNs == 0 && t.cursor == cursor && t.deadlineNs + UnitsNs(c, tail) == total
    ensures var op := AdvanceOp(total, kept, 0);
            var due := NextDue(TimesOf(c, cursor, total, tail, span, kept));
            && LegalOp(y, op) && TailLegal(y, op) && Seen(y, op) == (OK, NothingDue(0))
            && 0 <= due && Ready(Step(y, op).0.(lastNow := 0), c, cursor + span, due, kept)
            && Step(y, op).0.lastNow == total && Step(y, op).0.pending.None?
  {
    IdealFromZero(c, y.timeline.value, cursor + span);
    UnitsMonotone(c, kept, span + tail);
    UnitsMonotone(c, span + tail - kept, span + tail);
    var z := Step(y, AdvanceOp(total, kept, 0)).0;
    assert z.timeline.value.deadlineNs + UnitsNs(c, kept) == NextDue(TimesOf(c, cursor, total, tail, span, kept));
  }

  // ---- Runs piece by piece ----

  lemma {:induction false} AfterConcat(x: Context, a: seq<Op>, b: seq<Op>)
    requires ValidConfig(x.config)
    ensures After(x, a).config == x.config && After(x, a + b) == After(After(x, a), b)
    ensures SeenAlong(x, a + b) == SeenAlong(x, a) + SeenAlong(After(x, a), b)
    ensures TailRun(x, a) && TailRun(After(x, a), b) ==> TailRun(x, a + b)
    decreases |a|
  {
    if a == [] {
      assert a + b == b;
    } else {
      assert (a + b)[1..] == a[1..] + b && (a + b)[0] == a[0];
      AfterConcat(Step(x, a[0]).0, a[1..], b);
    }
  }

  lemma TwoSteps(x: Context, first: Op, second: Op)
    requires ValidConfig(x.config)
    ensures var y := Step(x, first).0;
            && After(x, [first, second]) == Step(y, second).0
            && (TailRun(x, [first, second]) <==>
                  && Unsaturated(x) && LegalOp(x, first) && TailLegal(x, first)
                  && Unsaturated(y) && LegalOp(y, second) && TailLegal(y, second) && Unsaturated(Step(y, second).0))
  {
    var y := Step(x, first).0;
    assert [first, second][1..] == [second] && [second][1..] == [];
    assert After(y, [second]) == After(Step(y, second).0, []);
    assert TailRun(y, [second]) <==>
           Unsaturated(y) && LegalOp(y, second) && TailLegal(y, second) && TailRun(Step(y, second).0, []);
  }

  /** A missing span of which `kept` is retained: the request and the commit, both when due. */
  function Pair(c: Config, now: nat, span: nat, kept: nat): seq<Op> {
    [Fetch(c, now, MissingSpan(span)), AdvanceOp(now, kept, 0)]
  }

  lemma PairRuns(x: Context, c: Config, cursor: nat, total: nat, tail: nat, span: nat, kept: nat)
    requires ValidConfig(c) && Ready(x, c, cursor, total, tail) && 0 < span <= I32_MAX && kept <= I32_MAX
            && kept <= span + tail
    requires Roomy(TimesOf(c, cursor, total, tail, span, kept)) && cursor + span < U64_MAX
    requires total - UnitsNs(c, cursor) <= UnitsNs(c, c.maximumDelay)
    requires total <= NextDue(TimesOf(c, cursor, total, tail, span, kept))
    ensures TailRun(x, Pair(c, total, span, kept))
    ensures var y := After(x, Pair(c, total, span, kept));
            Ready(y, c, cursor + span, NextDue(TimesOf(c, cursor, total, tail, span, kept)), kept) && y.lastNow == total
  {
    var fetch, commit := Fetch(c, total, MissingSpan(span)), AdvanceOp(total, kept, 0);
    MissDue(x, c, cursor, total, tail, span);
    var y := Step(x, fetch).0;
    CommitMiss(y, c, cursor, total, tail, span, kept);
    TwoSteps(x, fetch, commit);
    UnitsMonotone(c, kept, span + tail);
    UnitsMonotone(c, span + tail - kept, span + tail);
  }

  // ---- The first packet ----

  lemma FirstStored(c: Config, x: Context, p: Packet)
    requires ValidConfig(c) && x.config == c && x.slots == Fresh(c).slots && x.counters == ZERO_COUNTERS
    requires x.timeline.Some? && !x.timeline.value.started && !Malformed(c, p)
    ensures Store(x, p) == (x.(slots := x.slots[0 := Slot(true, false, p.timestamp, p.span, p.payload)]), OK)
  {
    NoneRetired(x.slots);
    assert Spare(x.slots) == 0;
    var placed := x.slots[0 := Slot(true, false, p.timestamp, p.span, p.payload)];
    NoneRetired(placed);
    assert Retire(placed, -1, 0) == placed;
    assert CollectRetired(x) == x;
    assert CollectRetired(x.(slots := placed)) == x.(slots := placed);
  }

  /** A new context after its first packet: the timeline begins there, due after the initial delay. */
  lemma FirstPut(c: Config, p: Packet)
    requires ValidConfig(c) && !Malformed(c, p) && p.arrivalNs + UnitsNs(c, c.initialDelay) <= U64_MAX
    ensures var due := p.arrivalNs + UnitsNs(c, c.initialDelay);
            Put(Fresh(c), p, false) ==
            (Fresh(c).(timeline := Some(Timeline(p.timestamp, p.arrivalNs, p.timestamp, due, false)),
                       slots := Fresh(c).slots[0 := Slot(true, false, p.timestamp, p.span, p.payload)]), OK)
  {
    var due := p.arrivalNs + UnitsNs(c, c.initialDelay);
    var x := Fresh(c).(timeline := Some(Timeline(p.timestamp, p.arrivalNs, p.timestamp, due, false)));
    NoneActive(x.slots, -1);
    FirstStored(c, x, p);
    assert !AnyDuplicate(x.slots, p);
  }

  lemma OnlyEarliest(c: Config, s: Slot)
    requires s.active
    ensures EarliestActive(Fresh(c).slots[0 := s]) == Some(s.timestamp)
  {
    var slots := Fresh(c).slots[0 := s];
    QueuedZero(slots, 0);
    EarliestExists(slots);
  }

  // ---- A run that shows a tail ----

  const START := Packet(0, 1, 0, [0])

  /** Durations that matter for one tail, as numbers: its complement, itself, both, and the configured delays. */
  datatype Lengths = Lengths(a: nat, tail: nat, both: nat, thrice: nat, minimum: nat, initial: nat, maximum: nat)

  function LengthsOf(c: Config, tail: nat): Lengths
    requires c.clockRate > 0
  {
    var a := Complement(c, tail);
    Lengths(UnitsNs(c, a), UnitsNs(c, tail), UnitsNs(c, a + tail), UnitsNs(c, a + tail + a),
            UnitsNs(c, c.minimumDelay), UnitsNs(c, c.initialDelay), UnitsNs(c, c.maximumDelay))
  }

  function Due1(l: Lengths): nat {
    l.initial + l.a
  }

  function Due2(l: Lengths): nat {
    Max(Due1(l) + l.tail, l.both + l.minimum)
  }

  /** The deadline that the kept tail moves by a nanosecond. */
  function Due3(l: Lengths, kept: bool): nat {
    Due2(l) + l.a + (if kept then 1 else 0)
  }

  /** How the durations of a tail that is not whole relate. */
  predicate Uneven(l: Lengths) {
    && 0 < l.a && l.both == l.a + l.tail + 1 && l.thrice == l.a + l.both
    && l.minimum <= l.initial <= l.maximum && l.both + l.thrice + l.maximum < 5_000_000_000_000_000_000
  }

  lemma OpenedReady(c: Config)
    requires ValidConfig(c)
    ensures Put(Fresh(c), START, false).1 == OK
    ensures Ready(Put(Fresh(c), START, false).0, c, 0, UnitsNs(c, c.initialDelay), 0)
  {
    UnitsBound(c, c.initialDelay);
    FirstPut(c, START);
    OnlyEarliest(c, Slot(true, false, 0, 1, [0]));
    NoUnits(c);
  }

  lemma LengthsUneven(c: Config, tail: nat)
    requires ValidConfig(c) && tail <= I32_MAX && !WholeNs(c, tail)
    ensures Uneven(LengthsOf(c, tail)) && 0 < tail && 0 < Complement(c, tail) < 48000
  {
    var a := Complement(c, tail);
    LossAtWholeSeconds(c, tail);
    UnitsSumWhole(c, a, a + tail);
    assert a + (a + tail) == a + tail + a;
    LengthsBounded(c, a, tail);
    if tail == 0 {
      NoUnits(c);
    }
  }

  lemma LengthsBounded(c: Config, a: nat, tail: nat)
    requires ValidConfig(c) && tail <= I32_MAX && 0 < a <= 48000
    ensures 0 < UnitsNs(c, a)
    ensures UnitsNs(c, a + tail) + UnitsNs(c, a + tail + a) + UnitsNs(c, c.maximumDelay) < 5_000_000_000_000_000_000
    ensures UnitsNs(c, c.minimumDelay) <= UnitsNs(c, c.initialDelay) <= UnitsNs(c, c.maximumDelay)
  {
    UnitsBound(c, a + tail);
    UnitsBound(c, a + tail + a);
    UnitsBound(c, c.maximumDelay);
    UnitsMonotone(c, c.minimumDelay, c.initialDelay);
    UnitsMonotone(c, c.initialDelay, c.maximumDelay);
    UnitsMonotone(c, 1, a);
    QuotientAtLeast(SECOND, c.clockRate, 1);
  }

  // The three stretches, as arithmetic on durations.

  lemma FirstDue(l: Lengths)
    requires Uneven(l)
    ensures var t := Times(l.initial, 0, l.a, l.a, 0, l.a, l.minimum);
            Roomy(t) && NextDue(t) == Due1(l) >= l.initial
  {
  }

  function SecondTimes(l: Lengths, kept: bool): Times {
    Times(Due1(l), 0, l.tail, if kept then 0 else l.tail, if kept then l.tail else 0, l.both, l.minimum)
  }

  function ThirdTimes(l: Lengths, kept: bool): Times {
    var published := if kept then l.both else l.a;
    Times(Due2(l), if kept then l.tail else 0, published, published, 0, l.thrice, l.minimum)
  }

  lemma SecondDue(l: Lengths, kept: bool)
    requires Uneven(l)
    ensures var t := SecondTimes(l, kept);
            Roomy(t) && NextDue(t) == Due2(l) >= Due1(l) && Due1(l) - l.a <= l.maximum
  {
  }

  /** Publishing the kept tail together with its complement makes up the nanosecond that rounding apart loses. */
  lemma ThirdDue(l: Lengths, kept: bool)
    requires Uneven(l)
    ensures var t := ThirdTimes(l, kept);
            && Roomy(t) && NextDue(t) == Due3(l, kept) > Due2(l)
            && Due3(l, kept) < U64_MAX && Due2(l) - l.both <= l.maximum
  {
  }

  /** A request before anything is due tells the deadline. */
  lemma Probe(x: Context, c: Config, cursor: nat, total: nat, now: nat)
    requires ValidConfig(c) && Ready(x, c, cursor, total, 0) && x.lastNow <= now < total < U64_MAX && cursor < U64_MAX
    ensures TailRun(x, [Fetch(c, now, Nonsense)])
    ensures SeenAlong(x, [Fetch(c, now, Nonsense)]) == [(OK, NothingDue(total))]
  {
    NoUnits(c);
    var op := Fetch(c, now, Nonsense);
    assert Deadline(x) == total;
    assert [op][1..] == [];
    assert TailRun(Step(x, op).0, []);
    assert SeenAlong(Step(x, op).0, []) == [];
  }

  /** A run whose last operation answers v. */
  predicate EndsIn(x: Context, ops: seq<Op>, v: (int, Decision))
    requires ValidConfig(x.config)
  {
    TailRun(x, ops) && var seen := SeenAlong(x, ops); seen != [] && seen[|seen| - 1] == v
  }

  lemma EndsAfter(x: Context, a: seq<Op>, b: seq<Op>, v: (int, Decision))
    requires ValidConfig(x.config) && TailRun(x, a) && After(x, a).config == x.config && EndsIn(After(x, a), b, v)
    ensures EndsIn(x, a + b, v)
  {
    AfterConcat(x, a, b);
  }

  function Playout3(c: Config, tail: nat): seq<Op>
    requires c.clockRate > 0
  {
    var l := LengthsOf(c, tail);
    Pair(c, Due2(l), Complement(c, tail), 0) + [Fetch(c, Due2(l), Nonsense)]
  }

  function Playout2(c: Config, tail: nat, kept: bool): seq<Op>
    requires c.clockRate > 0
  {
    Pair(c, Due1(LengthsOf(c, tail)), tail, if kept then tail else 0) + Playout3(c, tail)
  }

  function Playout(c: Config, tail: nat, kept: bool): seq<Op>
    requires c.clockRate > 0
  {
    Pair(c, UnitsNs(c, c.initialDelay), Complement(c, tail), 0) + Playout2(c, tail, kept)
  }

  /** What the last request of the playout is told. */
  function Told(c: Config, tail: nat, kept: bool): (int, Decision)
    requires c.clockRate > 0
  {
    (OK, NothingDue(Due3(LengthsOf(c, tail), kept)))
  }

  lemma Playout3Shows(x: Context, c: Config, tail: nat, kept: bool)
    requires ValidConfig(c) && tail <= I32_MAX && !WholeNs(c, tail)
    requires Ready(x, c, Complement(c, tail) + tail, Due2(LengthsOf(c, tail)), if kept then tail else 0)
    ensures EndsIn(x, Playout3(c, tail), Told(c, tail, kept))
  {
    var a, l, k := Complement(c, tail), LengthsOf(c, tail), if kept then tail else 0;
    LengthsUneven(c, tail);
    ThirdDue(l, kept);
    NoUnits(c);
    assert TimesOf(c, a + tail, Due2(l), k, a, 0) ==
           ThirdTimes(l, kept);
    PairRuns(x, c, a + tail, Due2(l), k, a, 0);
    var pair := Pair(c, Due2(l), a, 0);
    Probe(After(x, pair), c, a + tail + a, Due3(l, kept), Due2(l));
    EndsAfter(x, pair, [Fetch(c, Due2(l), Nonsense)], Told(c, tail, kept));
  }

  lemma Playout2Shows(x: Context, c: Config, tail: nat, kept: bool)
    requires ValidConfig(c) && tail <= I32_MAX && !WholeNs(c, tail)
    requires Ready(x, c, Complement(c, tail), Due1(LengthsOf(c, tail)), 0)
    ensures EndsIn(x, Playout2(c, tail, kept), Told(c, tail, kept))
  {
    var a, l, k := Complement(c, tail), LengthsOf(c, tail), if kept then tail else 0;
    LengthsUneven(c, tail);
    SecondDue(l, kept);
    NoUnits(c);
    assert TimesOf(c, a, Due1(l), 0, tail, k) ==
           SecondTimes(l, kept);
    PairRuns(x, c, a, Due1(l), 0, tail, k);
    var pair := Pair(c, Due1(l), tail, k);
    Playout3Shows(After(x, pair), c, tail, kept);
    EndsAfter(x, pair, Playout3(c, tail), Told(c, tail, kept));
  }

  lemma PlayoutShows(x: Context, c: Config, tail: nat, kept: bool)
    requires ValidConfig(c) && tail <= I32_MAX && !WholeNs(c, tail)
    requires Ready(x, c, 0, UnitsNs(c, c.initialDelay), 0)
    ensures EndsIn(x, Playout(c, tail, kept), Told(c, tail, kept))
  {
    var a, l := Complement(c, tail), LengthsOf(c, tail);
    LengthsUneven(c, tail);
    FirstDue(l);
    NoUnits(c);
    assert TimesOf(c, 0, l.initial, 0, a, 0) == Times(l.initial, 0, l.a, l.a, 0, l.a, l.minimum);
    PairRuns(x, c, 0, l.initial, 0, a, 0);
    var pair := Pair(c, l.initial, a, 0);
    Playout2Shows(After(x, pair), c, tail, kept);
    EndsAfter(x, pair, Playout2(c, tail, kept), Told(c, tail, kept));
  }

  /** Every tail the run asks to retain is this one or none. */
  ghost predicate TailsOnly(ops: seq<Op>, tail: nat) {
    forall k :: 0 <= k < |ops| && ops[k].AdvanceOp? ==> ops[k].downstream == 0 || ops[k].downstream == tail
  }

  lemma OneMore(x: Context, op: Op, rest: seq<Op>)
    requires ValidConfig(x.config)
    ensures TailRun(x, [op] + rest) <==>
            Unsaturated(x) && LegalOp(x, op) && TailLegal(x, op) && TailRun(Step(x, op).0, rest)
    ensures SeenAlong(x, [op] + rest) == [Seen(x, op)] + SeenAlong(Step(x, op).0, rest)
  {
    assert ([op] + rest)[1..] == rest;
  }

  lemma PlayoutsDiffer(c: Config, tail: nat, put: Op)
    requires c.clockRate > 0
    ensures WithoutTails([put] + Playout(c, tail, true)) == [WithoutTail(put)] + Playout(c, tail, false)
    ensures !put.AdvanceOp? ==> TailsOnly([put] + Playout(c, tail, true), tail)
  {
  }

  /** Whatever the configuration, a tail that is not whole shows in some run from creation. */
  lemma UnevenTailIsVisible(c: Config, tail: nat) returns (ops: seq<Op>)
    requires ValidConfig(c) && tail <= I32_MAX && !WholeNs(c, tail)
    ensures TailRun(Fresh(c), ops) && TailsOnly(ops, tail)
    ensures SeenAlong(Fresh(c), ops) != SeenAlong(Fresh(c), WithoutTails(ops))
  {
    var x, put := Fresh(c), PutOp(START, false);
    OpenedReady(c);
    var y := Step(x, put).0;
    PlayoutShows(y, c, tail, true);
    PlayoutShows(y, c, tail, false);
    ops := [put] + Playout(c, tail, true);
    PlayoutsDiffer(c, tail, put);
    OneMore(x, put, Playout(c, tail, true));
    OneMore(x, put, Playout(c, tail, false));
    var seen, other := SeenAlong(x, ops), SeenAlong(x, WithoutTails(ops));
    assert seen[|seen| - 1] == Told(c, tail, true) && other[|other| - 1] == Told(c, tail, false);
  }

  lemma TailsOnlyRest(ops: seq<Op>, tail: nat)
    requires ops != [] && TailsOnly(ops, tail)
    ensures TailsOnly(ops[1..], tail)
    ensures ops[0].AdvanceOp? ==> ops[0].downstream == 0 || ops[0].downstream == tail
  {
  }

  lemma {:induction false} OnlyWholeTails(x: Context, ops: seq<Op>, tail: nat)
    requires ValidConfig(x.config) && WholeNs(x.config, tail) && TailsOnly(ops, tail)
    ensures WholeTails(x, ops)
    decreases |ops|
  {
    if ops != [] {
      NoUnits(x.config);
      TailsOnlyRest(ops, tail);
      OnlyWholeTails(Step(x, ops[0]).0, ops[1..], tail);
    }
  }

  lemma WholeTailIsInvisible(c: Config, tail: nat, ops: seq<Op>)
    requires ValidConfig(c) && WholeNs(c, tail) && TailRun(Fresh(c), ops) && TailsOnly(ops, tail)
    ensures SeenAlong(Fresh(c), ops) == SeenAlong(Fresh(c), WithoutTails(ops))
  {
    FreshShape(c);
    NoUnits(c);
    OnlyWholeTails(Fresh(c), ops, tail);
    assert Tailless(Fresh(c)) == Fresh(c);
    TailsDoNotMatter(Fresh(c), ops);
  }

  /** No run from creation, retaining only this tail or none, can tell it from publishing at once. */
  ghost predicate Invisible(c: Config, tail: nat)
    requires ValidConfig(c)
  {
    forall ops :: TailRun(Fresh(c), ops) && TailsOnly(ops, tail) ==>
                    SeenAlong(Fresh(c), ops) == SeenAlong(Fresh(c), WithoutTails(ops))
  }

  /** Retaining a tail is invisible to every caller exactly when it lasts whole nanoseconds. */
  lemma InvisibleExactlyWhenWhole(c: Config, tail: nat)
    requires ValidConfig(c) && tail <= I32_MAX
    ensures Invisible(c, tail) <==> WholeNs(c, tail)
  {
    if WholeNs(c, tail) {
      forall ops | TailRun(Fresh(c), ops) && TailsOnly(ops, tail)
        ensures SeenAlong(Fresh(c), ops) == SeenAlong(Fresh(c), WithoutTails(ops))
      {
        WholeTailIsInvisible(c, tail, ops);
      }
    } else {
      var ops := UnevenTailIsVisible(c, tail);
    }
  }

  // ---- Two instances, packet by packet ----

  /** One packet, released when due and committed with a tail. */
  function Release(c: Config, span: nat, tail: nat): seq<Op>
    requires c.clockRate > 0
  {
    var due := UnitsNs(c, c.initialDelay);
    [PutOp(Packet(0, span, 0, [0]), false)] + [Fetch(c, due, Found(0)), AdvanceOp(due, tail, 0)]
  }

  lemma FoundDue(x: Context, c: Config, due: nat, span: nat)
    requires ValidConfig(c) && Ready(x, c, 0, due, 0) && 0 < span && |x.slots| > 0
    requires x.slots[0] == Slot(true, false, 0, span, [0]) && due <= UnitsNs(c, c.maximumDelay) < U64_MAX
            && span < U64_MAX
    ensures var op := Fetch(c, due, Found(0));
            var y := Step(x, op).0;
            && LegalOp(x, op) && Unsaturated(x) && Unsaturated(y)
            && y.config == c && y.pending == Some(Pending(span, span)) && y.downstream == 0 && y.lastNow == due
            && y.timeline == Some(x.timeline.value.(started := true))
  {
    NoUnits(c);
    IdealFromZero(c, x.timeline.value, 0);
    assert Deadline(x) == due;
    var y := x.(lastNow := due);
    assert Settle(y) == Some(y);
    QuantumBounds(y.slots, 0, c.concealmentSpan);
  }

  lemma ReleaseRuns(c: Config, span: nat, tail: nat)
    requires ValidConfig(c) && 0 < span && span + c.maximumDelay <= I32_MAX && tail <= span
    requires var due := UnitsNs(c, c.initialDelay);
             var times := TimesOf(c, 0, due, 0, span, tail);
             Roomy(times) && due <= NextDue(times) && due <= UnitsNs(c, c.maximumDelay) < U64_MAX
    ensures TailRun(Fresh(c), Release(c, span, tail))
    ensures var y := After(Fresh(c), Release(c, span, tail));
            Ready(y, c, span, NextDue(TimesOf(c, 0, UnitsNs(c, c.initialDelay), 0, span, tail)), tail)
  {
    var due, put := UnitsNs(c, c.initialDelay), PutOp(Packet(0, span, 0, [0]), false);
    FirstPut(c, put.packet);
    OnlyEarliest(c, Slot(true, false, 0, span, [0]));
    NoUnits(c);
    var x := Step(Fresh(c), put).0;
    FoundDue(x, c, due, span);
    var y := Step(x, Fetch(c, due, Found(0))).0;
    CommitMiss(y, c, 0, due, 0, span, tail);
    TwoSteps(x, Fetch(c, due, Found(0)), AdvanceOp(due, tail, 0));
    UnitsMonotone(c, tail, span);
    UnitsMonotone(c, span - tail, span);
    OneMore(Fresh(c), put, [Fetch(c, due, Found(0)), AdvanceOp(due, tail, 0)]);
    AfterConcat(Fresh(c), [put], [Fetch(c, due, Found(0)), AdvanceOp(due, tail, 0)]);
    AfterOne(Fresh(c), put);
  }

  lemma AfterOne(x: Context, op: Op)
    requires ValidConfig(x.config)
    ensures After(x, [op]) == Step(x, op).0
  {
    assert [op][1..] == [];
    assert After(Step(x, op).0, []) == Step(x, op).0;
  }

  const AT_48000 := Config(48000, 7680, 8640, 24000, 480, 960, 64, 1)

  /** At 48000 Hz, a 20 ms packet released at 180 ms and committed with a one-unit tail: due a nanosecond early. */
  lemma OddTailIsVisible()
    ensures var c := AT_48000;
            var ops := Release(c, 960, 1);
            && ValidConfig(c) && TailRun(Fresh(c), ops) && TailsOnly(ops, 1)
            && Ready(After(Fresh(c), ops), c, 960, 199_999_999, 1)
            && Ready(After(Fresh(c), WithoutTails(ops)), c, 960, 200_000_000, 0)
  {
    var c := AT_48000;
    assert UnitsNs(c, 8640) == 180_000_000 && UnitsNs(c, 960) == 20_000_000 && UnitsNs(c, 7680) == 160_000_000;
    assert UnitsNs(c, 1) == 20_833 && UnitsNs(c, 959) == 19_979_166 && UnitsNs(c, 24000) == 500_000_000;
    assert WithoutTails(Release(c, 960, 1)) == Release(c, 960, 0);
    ReleaseRuns(c, 960, 1);
    ReleaseRuns(c, 960, 0);
  }

  const AT_8000 := Config(8000, 1280, 1440, 4000, 80, 160, 64, 1)

  /** At 8000 Hz, with a whole 10 ms tail retained, a packet just before the deadline is reported one unit earlier. */
  lemma ArrivalOffsetCanDiffer()
    ensures var c := AT_8000;
            var ops, p := Release(c, 160, 80), Packet(160, 160, 199_999_999, [0]);
            && ValidConfig(c) && TailRun(Fresh(c), ops) && WholeNs(c, 80)
            && After(Fresh(c), ops).timeline.Some? && After(Fresh(c), WithoutTails(ops)).timeline.Some?
            && After(Fresh(c), ops).config == c && LegalOp(After(Fresh(c), ops), PutOp(p, false))
            && ReportedArrival(After(Fresh(c), ops), p) == -1
            && ReportedArrival(After(Fresh(c), WithoutTails(ops)), p) == 0
  {
    var c := AT_8000;
    assert UnitsNs(c, 1440) == 180_000_000 && UnitsNs(c, 160) == 20_000_000 && UnitsNs(c, 1280) == 160_000_000;
    assert UnitsNs(c, 80) == 10_000_000 && UnitsNs(c, 4000) == 500_000_000;
    assert WithoutTails(Release(c, 160, 80)) == Release(c, 160, 0);
    ReleaseRuns(c, 160, 80);
    ReleaseRuns(c, 160, 0);
  }
}
