/**
  The Asterisk executor: admission under a mutex, execution by a serialized taskprocessor, and a
  condition variable that stops wait on. It keeps the same contract as the standalone executor.

  A label says who moves. Between lock and unlock every access is its own step; the taskprocessor
  is a FIFO that runs one callback at a time, and its push may refuse.
 */
module AsteriskExecutor {
  import opened Sums
  import Spec = ExecutorSpec

  datatype Lock = Free | BySubmit(call: nat) | ByStop(call: nat) | ByWorker

  datatype SubmitPhase =
    | Calling
    | Deciding             // holds the lock
    | Pushing              // holds the lock, pending already raised
    | Unlocking            // holds the lock, task pushed
    | Accepted
    | Refused(reason: Spec.Reason)

  datatype StopPhase =
    | Entering
    | OnExecutor           // refused: called from the taskprocessor itself
    | Locking
    | Gating               // holds the lock
    | Testing(told: bool)  // holds the lock; told: a notification preceded
    | Waiting              // asleep on the condition variable
    | Woken(told: bool)    // awake, lock not yet retaken
    | Returned

  datatype StopCall = StopCall(onWorker: bool, phase: StopPhase)

  datatype Worker =
    | Idle
    | Running(task: nat)
    | Releasing(task: nat)
    | Relocking(task: nat)
    | Crediting(task: nat) // holds the lock

  datatype State = State(
    capacity: nat,
    accepting: bool,
    pending: int,
    lock: Lock,
    queue: seq<nat>,
    worker: Worker,
    submits: seq<SubmitPhase>,
    stops: seq<StopCall>,
    enqueued: seq<nat>,
    trace: seq<Spec.Event>)

  datatype Label = Submit(call: nat, pushed: bool) | Stop(call: nat) | Work | SpuriousWake(call: nat)

  ghost predicate Init(s: State) {
    && s.capacity > 0 && s.accepting && s.pending == 0 && s.lock.Free?
    && s.queue == [] && s.worker.Idle? && s.enqueued == [] && s.trace == []
    && (forall i :: 0 <= i < |s.submits| ==> s.submits[i].Calling?)
    && (forall j :: 0 <= j < |s.stops| ==> s.stops[j].phase.Entering?)
  }

  predicate Decided(p: SubmitPhase) {
    p.Accepted? || p.Refused?
  }

  predicate StopEnabled(s: State, c: StopCall) {
    match c.phase
    case Entering => c.onWorker ==> s.worker.Running? || s.worker.Releasing?
    case Locking => s.lock.Free?
    case Woken(_) => s.lock.Free?
    case Gating => true
    case Testing(_) => true
    case _ => false
  }

  predicate Enabled(s: State, l: Label) {
    match l
    case Submit(i, _) => i < |s.submits| && !Decided(s.submits[i]) && (s.submits[i].Calling? ==> s.lock.Free?)
    case Stop(j) => j < |s.stops| && StopEnabled(s, s.stops[j])
    case Work => (s.worker.Idle? ==> s.queue != []) && (s.worker.Relocking? ==> s.lock.Free?)
    case SpuriousWake(j) => j < |s.stops| && s.stops[j].phase.Waiting?
  }

  function SetSubmit(s: State, i: nat, phase: SubmitPhase, lock: Lock): State
    requires i < |s.submits|
  {
    s.(submits := s.submits[i := phase], lock := lock)
  }

  function ApplySubmit(s: State, i: nat, pushed: bool): State
    requires Enabled(s, Submit(i, pushed))
  {
    match s.submits[i]
    case Calling => SetSubmit(s, i, Deciding, BySubmit(i))
    case Deciding =>
      if !s.accepting then SetSubmit(s, i, Refused(Spec.Stopped), Free)
      else if s.pending >= s.capacity then SetSubmit(s, i, Refused(Spec.Full), Free)
      else SetSubmit(s, i, Pushing, s.lock).(pending := s.pending + 1)
    case Pushing =>
      if pushed then SetSubmit(s, i, Unlocking, s.lock).(queue := s.queue + [i], enqueued := s.enqueued + [i])
      else SetSubmit(s, i, Refused(Spec.Backend), Free).(pending := s.pending - 1)
    case Unlocking => SetSubmit(s, i, Accepted, Free)
  }

  function SetStop(s: State, j: nat, phase: StopPhase, lock: Lock): State
    requires j < |s.stops|
  {
    s.(stops := s.stops[j := s.stops[j].(phase := phase)], lock := lock)
  }

  function ApplyStop(s: State, j: nat): State
    requires Enabled(s, Stop(j))
  {
    match s.stops[j].phase
    case Entering => SetStop(s, j, if s.stops[j].onWorker then OnExecutor else Locking, s.lock)
    case Locking => SetStop(s, j, Gating, ByStop(j))
    case Gating => SetStop(s, j, Testing(false), s.lock).(accepting := false)
    case Testing(_) => SetStop(s, j, if s.pending != 0 then Waiting else Returned, Free)
    case Woken(told) => SetStop(s, j, Testing(told), ByStop(j))
  }

  function Notified(c: StopCall): StopCall {
    if c.phase.Waiting? then c.(phase := Woken(true)) else c
  }

  function NotifyAll(stops: seq<StopCall>): seq<StopCall> {
    seq(|stops|, j requires 0 <= j < |stops| => Notified(stops[j]))
  }

  function ApplyWorker(s: State): State
    requires Enabled(s, Work)
  {
    match s.worker
    case Idle => s.(worker := Running(s.queue[0]), queue := s.queue[1..])
    case Running(t) => s.(worker := Releasing(t), trace := s.trace + [Spec.Ran(t)])
    case Releasing(t) => s.(worker := Relocking(t), trace := s.trace + [Spec.Released(t)])
    case Relocking(t) => s.(worker := Crediting(t), lock := ByWorker)
    case Crediting(_) =>
      s.(worker := Idle, lock := Free, pending := s.pending - 1,
         stops := if s.pending == 1 then NotifyAll(s.stops) else s.stops)
  }

  function Apply(s: State, l: Label): State
    requires Enabled(s, l)
  {
    match l
    case Submit(i, pushed) => ApplySubmit(s, i, pushed)
    case Stop(j) => ApplyStop(s, j)
    case Work => ApplyWorker(s)
    case SpuriousWake(j) => SetStop(s, j, Woken(false), s.lock)
  }

  predicate Legal(s: State, run: seq<Label>)
    decreases |run|
  {
    run == [] || (Enabled(s, run[0]) && Legal(Apply(s, run[0]), run[1..]))
  }

  function Exec(s: State, run: seq<Label>): State
    requires Legal(s, run)
    decreases |run|
  {
    if run == [] then s else Exec(Apply(s, run[0]), run[1..])
  }

  // ---- Refinement of the executor contract ----

  function OutcomeOf(p: SubmitPhase): Spec.Outcome {
    match p
    case Unlocking => Spec.Enqueued
    case Accepted => Spec.Enqueued
    case Refused(reason) => Spec.Rejected(reason)
    case _ => Spec.Undecided
  }

  function OwnerOf(w: Worker): Spec.Owner {
    match w
    case Idle => Spec.Idle
    case Running(t) => Spec.Starting(t)
    case Releasing(t) => Spec.Releasing(t)
    case Relocking(t) => Spec.Finishing(t)
    case Crediting(t) => Spec.Finishing(t)
  }

  function Outcomes(submits: seq<SubmitPhase>): seq<Spec.Outcome> {
    seq(|submits|, i requires 0 <= i < |submits| => OutcomeOf(submits[i]))
  }

  function Abstract(s: State): Spec.State {
    Spec.State(s.capacity, !s.accepting, Outcomes(s.submits), s.queue, OwnerOf(s.worker), s.enqueued, s.trace)
  }

  function SubmitSteps(s: State, i: nat, pushed: bool): seq<Spec.Label>
    requires Enabled(s, Submit(i, pushed))
  {
    match s.submits[i]
    case Deciding =>
      if !s.accepting then [Spec.Refuse(i, Spec.Stopped)]
      else if s.pending >= s.capacity then [Spec.Refuse(i, Spec.Full)]
      else []
    case Pushing => if pushed then [Spec.Admit(i), Spec.Enqueue(i)] else [Spec.Refuse(i, Spec.Backend)]
    case _ => []
  }

  function WorkerSteps(s: State): seq<Spec.Label> {
    match s.worker
    case Idle => [Spec.Take]
    case Running(_) => [Spec.Run]
    case Releasing(_) => [Spec.Release]
    case Relocking(_) => []
    case Crediting(_) => [Spec.Finish]
  }

  function SpecSteps(s: State, l: Label): seq<Spec.Label>
    requires Enabled(s, l)
  {
    match l
    case Submit(i, pushed) => SubmitSteps(s, i, pushed)
    case Stop(j) => if s.stops[j].phase.Gating? then [Spec.Stop] else []
    case Work => WorkerSteps(s)
    case SpuriousWake(_) => []
  }

  // ---- Invariant ----

  predicate SubmitHolds(p: SubmitPhase) {
    p.Deciding? || p.Pushing? || p.Unlocking?
  }

  predicate StopHolds(p: StopPhase) {
    p.Gating? || p.Testing?
  }

  /** The mutex has the holder that believes it has it. */
  ghost predicate Exclusive(s: State) {
    && (forall i :: 0 <= i < |s.submits| ==> (SubmitHolds(s.submits[i]) <==> s.lock == BySubmit(i)))
    && (forall j :: 0 <= j < |s.stops| ==> (StopHolds(s.stops[j].phase) <==> s.lock == ByStop(j)))
    && (s.worker.Crediting? <==> s.lock.ByWorker?)
    && (s.lock.BySubmit? ==> s.lock.call < |s.submits|)
    && (s.lock.ByStop? ==> s.lock.call < |s.stops|)
  }

  predicate MidPush(s: State) {
    s.lock.BySubmit? && s.lock.call < |s.submits| && s.submits[s.lock.call].Pushing?
  }

  /** Pending counts the credits in use, plus the one a push in progress has not yet earned. */
  ghost predicate CountExact(s: State) {
    && s.pending == Spec.Used(Abstract(s)) + (if MidPush(s) then 1 else 0)
    && s.pending <= s.capacity
    && (MidPush(s) ==> s.accepting)
  }

  predicate StopSound(s: State, c: StopCall) {
    && (c.phase.OnExecutor? ==> c.onWorker)
    && (!c.phase.OnExecutor? && !c.phase.Entering? ==> !c.onWorker)
    && (c.phase.Testing? || c.phase.Waiting? || c.phase.Woken? || c.phase.Returned? ==> !s.accepting)
    && (c.phase == Testing(true) || c.phase == Woken(true) || c.phase.Returned? ==> s.pending == 0)
    && (c.phase.Waiting? ==> s.pending != 0)
  }

  ghost predicate StopsSound(s: State) {
    forall j :: 0 <= j < |s.stops| ==> StopSound(s, s.stops[j])
  }

  ghost predicate Inv(s: State) {
    Spec.Inv(Abstract(s)) && Exclusive(s) && CountExact(s) && StopsSound(s)
  }

  lemma InitEstablishesInv(s: State)
    requires Init(s)
    ensures Inv(s) && Spec.Init(Abstract(s))
  {
    Spec.InitEstablishesInv(Abstract(s));
  }

  lemma OutcomesUpdate(s: seq<SubmitPhase>, i: nat, phase: SubmitPhase)
    requires i < |s|
    ensures Outcomes(s[i := phase]) == Outcomes(s)[i := OutcomeOf(phase)]
  {
  }

  lemma SubmitRefines(s: State, i: nat, pushed: bool)
    requires Exclusive(s) && CountExact(s) && Enabled(s, Submit(i, pushed))
    ensures Spec.Legal(Abstract(s), SubmitSteps(s, i, pushed))
    ensures Abstract(ApplySubmit(s, i, pushed)) == Spec.Exec(Abstract(s), SubmitSteps(s, i, pushed))
  {
    var a, steps := Abstract(s), SubmitSteps(s, i, pushed);
    var phase := ApplySubmit(s, i, pushed).submits[i];
    OutcomesUpdate(s.submits, i, phase);
    if |steps| == 1 {
      Spec.ExecOne(a, steps[0]);
    } else if |steps| == 2 {
      Spec.ExecOne(a, Spec.Admit(i));
      var a1 := Spec.Apply(a, Spec.Admit(i));
      Spec.ExecOne(a1, Spec.Enqueue(i));
      Spec.ExecConcat(a, [Spec.Admit(i)], [Spec.Enqueue(i)]);
      assert steps == [Spec.Admit(i)] + [Spec.Enqueue(i)];
      assert a.calls[i := Spec.Admitted][i := Spec.Enqueued] == a.calls[i := Spec.Enqueued];
    } else {
      assert a.calls[i := OutcomeOf(phase)] == a.calls;
    }
  }

  lemma WorkerRefines(s: State)
    requires Enabled(s, Work)
    ensures Spec.Legal(Abstract(s), WorkerSteps(s))
    ensures Abstract(ApplyWorker(s)) == Spec.Exec(Abstract(s), WorkerSteps(s))
  {
    if WorkerSteps(s) != [] {
      Spec.ExecOne(Abstract(s), WorkerSteps(s)[0]);
    }
  }

  /** Every concrete step is the contract's steps it names, or leaves the contract's state alone. */
  lemma Refines(s: State, l: Label)
    requires Exclusive(s) && CountExact(s) && Enabled(s, l)
    ensures Spec.Legal(Abstract(s), SpecSteps(s, l))
    ensures Abstract(Apply(s, l)) == Spec.Exec(Abstract(s), SpecSteps(s, l))
  {
    match l
    case Submit(i, pushed) => SubmitRefines(s, i, pushed);
    case Work => WorkerRefines(s);
    case Stop(j) =>
      if s.stops[j].phase.Gating? {
        Spec.ExecOne(Abstract(s), Spec.Stop);
      }
    case SpuriousWake(_) =>
  }

  lemma CountAfterSubmit(s: State, i: nat, pushed: bool)
    requires Exclusive(s) && CountExact(s) && Enabled(s, Submit(i, pushed))
    ensures CountExact(ApplySubmit(s, i, pushed))
  {
    var a, phase := Abstract(s), ApplySubmit(s, i, pushed).submits[i];
    OutcomesUpdate(s.submits, i, phase);
    SumUpdate(a.calls, i, OutcomeOf(phase), Spec.Credit);
  }

  lemma CountAfterOther(s: State, l: Label)
    requires Exclusive(s) && CountExact(s) && Enabled(s, l) && !l.Submit?
    ensures CountExact(Apply(s, l))
  {
  }

  lemma ExclusiveAfterSubmit(s: State, i: nat, pushed: bool)
    requires Exclusive(s) && Enabled(s, Submit(i, pushed))
    ensures Exclusive(ApplySubmit(s, i, pushed))
  {
  }

  lemma ExclusiveAfterStop(s: State, l: Label)
    requires Exclusive(s) && Enabled(s, l) && (l.Stop? || l.SpuriousWake?)
    ensures Exclusive(Apply(s, l))
  {
  }

  lemma ExclusiveAfterWorker(s: State)
    requires Exclusive(s) && Enabled(s, Work)
    ensures Exclusive(ApplyWorker(s))
  {
    var s' := ApplyWorker(s);
    assert forall j :: 0 <= j < |s.stops| ==> StopHolds(s'.stops[j].phase) == StopHolds(s.stops[j].phase);
  }

  lemma StopsSoundAfterSubmit(s: State, i: nat, pushed: bool)
    requires Exclusive(s) && CountExact(s) && StopsSound(s) && Enabled(s, Submit(i, pushed))
    ensures StopsSound(ApplySubmit(s, i, pushed))
  {
    var s' := ApplySubmit(s, i, pushed);
    forall j | 0 <= j < |s'.stops| ensures StopSound(s', s'.stops[j]) {
      assert StopSound(s, s.stops[j]);
    }
  }

  lemma StopsSoundAfterStop(s: State, l: Label)
    requires Exclusive(s) && CountExact(s) && StopsSound(s) && Enabled(s, l) && (l.Stop? || l.SpuriousWake?)
    ensures StopsSound(Apply(s, l))
  {
    var s' := Apply(s, l);
    forall j | 0 <= j < |s'.stops| ensures StopSound(s', s'.stops[j]) {
      assert StopSound(s, s.stops[j]);
    }
  }

  /** The credit that empties the executor wakes every waiting stop; no other step can strand one. */
  lemma StopsSoundAfterWorker(s: State)
    requires Exclusive(s) && CountExact(s) && StopsSound(s) && Enabled(s, Work)
    ensures StopsSound(ApplyWorker(s))
  {
    var s' := ApplyWorker(s);
    forall j | 0 <= j < |s'.stops| ensures StopSound(s', s'.stops[j]) {
      assert StopSound(s, s.stops[j]);
    }
  }

  /** Every step of every participant keeps the whole invariant. */
  lemma InvAfter(s: State, l: Label)
    requires Inv(s) && Enabled(s, l)
    ensures Inv(Apply(s, l))
  {
    Refines(s, l);
    Spec.InvAlong(Abstract(s), SpecSteps(s, l));
    match l
    case Submit(i, pushed) =>
      CountAfterSubmit(s, i, pushed);
      ExclusiveAfterSubmit(s, i, pushed);
      StopsSoundAfterSubmit(s, i, pushed);
    case Work =>
      CountAfterOther(s, l);
      ExclusiveAfterWorker(s);
      StopsSoundAfterWorker(s);
    case _ =>
      CountAfterOther(s, l);
      ExclusiveAfterStop(s, l);
      StopsSoundAfterStop(s, l);
  }

  function SpecRun(s: State, run: seq<Label>): seq<Spec.Label>
    requires Legal(s, run)
    decreases |run|
  {
    if run == [] then [] else SpecSteps(s, run[0]) + SpecRun(Apply(s, run[0]), run[1..])
  }

  /** Every interleaving of the executor is a run of the contract. */
  lemma {:induction false} RunRefines(s: State, run: seq<Label>)
    requires Inv(s) && Legal(s, run)
    ensures Inv(Exec(s, run))
    ensures Spec.Legal(Abstract(s), SpecRun(s, run))
    ensures Abstract(Exec(s, run)) == Spec.Exec(Abstract(s), SpecRun(s, run))
    decreases |run|
  {
    if run != [] {
      InvAfter(s, run[0]);
      Refines(s, run[0]);
      RunRefines(Apply(s, run[0]), run[1..]);
      Spec.ExecConcat(Abstract(s), SpecSteps(s, run[0]), SpecRun(Apply(s, run[0]), run[1..]));
    }
  }

  // ---- Progress ----

  function SubmitWeight(p: SubmitPhase): nat {
    match p
    case Calling => 9
    case Deciding => 8
    case Pushing => 7
    case Unlocking => 1
    case _ => 0
  }

  function StopWeight(c: StopCall): nat {
    match c.phase
    case Entering => 8
    case Locking => 7
    case Gating => 6
    case Testing(told) => if told then 1 else 5
    case Waiting => 3
    case Woken(told) => if told then 2 else 6
    case _ => 0
  }

  function WorkerWeight(w: Worker): nat {
    match w
    case Idle => 0
    case Running(_) => 4
    case Releasing(_) => 3
    case Relocking(_) => 2
    case Crediting(_) => 1
  }

  function Measure(s: State): nat {
    Sum(s.submits, SubmitWeight) + Sum(s.stops, StopWeight) + 5 * |s.queue| + WorkerWeight(s.worker)
  }

  lemma MeasureAfterSubmit(s: State, i: nat, pushed: bool)
    requires Enabled(s, Submit(i, pushed))
    ensures Measure(ApplySubmit(s, i, pushed)) < Measure(s)
  {
    SumUpdate(s.submits, i, ApplySubmit(s, i, pushed).submits[i], SubmitWeight);
  }

  lemma MeasureAfterStop(s: State, j: nat)
    requires StopsSound(s) && Enabled(s, Stop(j))
    ensures Measure(ApplyStop(s, j)) < Measure(s)
  {
    var s' := ApplyStop(s, j);
    assert StopSound(s, s.stops[j]);
    SumUpdate(s.stops, j, s'.stops[j], StopWeight);
    assert s'.submits == s.submits && s'.queue == s.queue && s'.worker == s.worker;
  }

  lemma MeasureAfterWorker(s: State)
    requires Enabled(s, Work)
    ensures Measure(ApplyWorker(s)) < Measure(s)
  {
    SumMonotone(s.stops, ApplyWorker(s).stops, StopWeight);
  }

  /** Every step but a spurious wake consumes work; a spurious wake sends one stop round its loop again. */
  lemma MeasureAfter(s: State, l: Label)
    requires StopsSound(s) && Enabled(s, l)
    ensures if l.SpuriousWake? then Measure(Apply(s, l)) == Measure(s) + 3 else Measure(Apply(s, l)) < Measure(s)
  {
    match l
    case Submit(i, pushed) => MeasureAfterSubmit(s, i, pushed);
    case Stop(j) => MeasureAfterStop(s, j);
    case Work => MeasureAfterWorker(s);
    case SpuriousWake(j) => SumUpdate(s.stops, j, s.stops[j].(phase := Woken(false)), StopWeight);
  }

  function SpuriousWakes(run: seq<Label>): nat {
    if run == [] then 0 else (if run[0].SpuriousWake? then 1 else 0) + SpuriousWakes(run[1..])
  }

  /** No run takes more steps than there is work, plus four for each spurious wake. */
  lemma {:induction false} RunsAreBounded(s: State, run: seq<Label>)
    requires Inv(s) && Legal(s, run)
    ensures Measure(Exec(s, run)) + |run| <= Measure(s) + 4 * SpuriousWakes(run)
    decreases |run|
  {
    if run != [] {
      MeasureAfter(s, run[0]);
      InvAfter(s, run[0]);
      RunsAreBounded(Apply(s, run[0]), run[1..]);
    }
  }

  predicate StopFinished(c: StopCall) {
    c.phase.Returned? || c.phase.OnExecutor? || c == StopCall(true, Entering)
  }

  ghost predicate Quiet(s: State) {
    && (forall i :: 0 <= i < |s.submits| ==> Decided(s.submits[i]))
    && (forall j :: 0 <= j < |s.stops| ==> StopFinished(s.stops[j]))
    && s.queue == [] && s.worker.Idle?
  }

  /** In every reachable state that is not quiet some step that consumes work is enabled. */
  lemma ProgressPossible(s: State) returns (l: Label)
    requires Exclusive(s) && CountExact(s) && StopsSound(s) && !Quiet(s)
    ensures Enabled(s, l) && !l.SpuriousWake?
  {
    match s.lock {
      case BySubmit(i) => return Submit(i, true);
      case ByStop(j) => return Stop(j);
      case ByWorker => return Work;
      case Free =>
    }
    if !s.worker.Idle? || s.queue != [] {
      return Work;
    }
    if i :| 0 <= i < |s.submits| && !Decided(s.submits[i]) {
      assert !SubmitHolds(s.submits[i]);
      return Submit(i, true);
    }
    var j :| 0 <= j < |s.stops| && !StopFinished(s.stops[j]);
    assert StopSound(s, s.stops[j]);
    SumZero(Outcomes(s.submits), Spec.Credit);
    return Stop(j);
  }

  /** With nothing left to do no credit is in use. */
  lemma QuietIsEmpty(s: State)
    requires Quiet(s)
    ensures Spec.Used(Abstract(s)) == 0
  {
    SumZero(Outcomes(s.submits), Spec.Credit);
  }

  /** Without new calls every state reaches a quiet one, in no more steps than there is work. */
  lemma {:induction false} QuietReachable(s: State) returns (run: seq<Label>)
    requires Inv(s)
    ensures Legal(s, run) && SpuriousWakes(run) == 0 && |run| <= Measure(s)
    ensures Inv(Exec(s, run)) && Quiet(Exec(s, run))
    decreases Measure(s)
  {
    if Quiet(s) {
      return [];
    }
    var l := ProgressPossible(s);
    InvAfter(s, l);
    MeasureAfter(s, l);
    var rest := QuietReachable(Apply(s, l));
    run := [l] + rest;
    assert run[1..] == rest;
  }

  /**
    When any external stop_and_drain has returned, every accepted task was run once and then
    released once in queue order, and no continuation accepts a task or makes another callback.
   */
  lemma DrainBarrier(s: State, j: nat, run: seq<Label>)
    requires Inv(s) && j < |s.stops| && s.stops[j].phase.Returned? && Legal(s, run)
    ensures s.trace == Spec.Serial(s.enqueued)
    ensures forall i :: 0 <= i < |s.submits| && OutcomeOf(s.submits[i]).Enqueued? ==>
              multiset(s.trace)[Spec.Ran(i)] == 1 && multiset(s.trace)[Spec.Released(i)] == 1
    ensures var s' := Exec(s, run); s'.enqueued == s.enqueued && s'.trace == s.trace && !s'.accepting
  {
    assert StopSound(s, s.stops[j]);
    var a := Abstract(s);
    Spec.EmptyMeansComplete(a);
    forall i | 0 <= i < |s.submits| && OutcomeOf(s.submits[i]).Enqueued?
      ensures multiset(s.trace)[Spec.Ran(i)] == 1 && multiset(s.trace)[Spec.Released(i)] == 1
    {
      assert a.calls[i].Enqueued?;
    }
    RunRefines(s, run);
    Spec.DrainedForever(a, SpecRun(s, run));
    assert Abstract(Exec(s, run)).stopped;
  }
}
