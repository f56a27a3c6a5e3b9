/**
  The client over the standalone executor itself: callers, the executor's own steps and its callbacks,
  interleaved one at a time. Submitters run only inside the client's submit.
 */
module StandaloneClient {
  import opened Sums
  import Spec = ExecutorSpec
  import Client = ControlClient
  import Executor = StandaloneExecutor

  datatype State<T> = State(exec: Executor.State, mem: Client.Memory<T>)

  datatype Label = Begin(call: nat) | Concrete(step: Executor.Label) | Return(call: nat)

  /** The C status a finished submission returns. */
  function StatusOf(p: Executor.SubmitPhase): int {
    match p
    case Refused(Stopped) => 1
    case Refused(Full) => 2
    case Refused(Backend) => 3
    case _ => 0
  }

  predicate Enabled<T>(s: State<T>, l: Label) {
    && |s.mem.boxes| == |s.mem.callers| == |s.exec.submits|
    && match l
       case Begin(i) => i < |s.mem.callers| && s.mem.callers[i].Holding?
       case Concrete(step) =>
         Executor.Enabled(s.exec, step) && (step.Submit? ==> s.mem.callers[step.call].InFlight?)
       case Return(i) => i < |s.mem.callers| && s.mem.callers[i].InFlight? && Executor.Decided(s.exec.submits[i].phase)
  }

  /** The callback a worker step makes, if it makes one. */
  function Called<T>(s: State<T>, step: Executor.Label): Client.Memory<T> {
    if step.Work? && s.exec.worker.Running? then Client.MoveOut(s.mem, s.exec.worker.task)
    else if step.Work? && s.exec.worker.Releasing? then Client.FreeEmpty(s.mem, s.exec.worker.task)
    else s.mem
  }

  function Apply<T>(s: State<T>, l: Label): State<T>
    requires Enabled(s, l)
  {
    match l
    case Begin(i) => s.(mem := Client.BoxUp(s.mem, i))
    case Concrete(step) => State(Executor.Apply(s.exec, step), Called(s, step))
    case Return(i) => s.(mem := Client.Conclude(s.mem, i, StatusOf(s.exec.submits[i].phase)))
  }

  predicate Legal<T>(s: State<T>, run: seq<Label>)
    decreases |run|
  {
    run == [] || (Enabled(s, run[0]) && Legal(Apply(s, run[0]), run[1..]))
  }

  function Exec<T>(s: State<T>, run: seq<Label>): State<T>
    requires Legal(s, run)
    decreases |run|
  {
    if run == [] then s else Exec(Apply(s, run[0]), run[1..])
  }

  /** A newly opened executor and callers that hold their payloads. */
  ghost predicate Init<T>(s: State<T>, payloads: seq<T>) {
    Executor.Init(s.exec) && |s.exec.submits| == |payloads| && s.mem == Client.Start(payloads)
  }

  // ---- The same run over the executor contract ----

  function View<T>(s: State<T>): Client.State<T> {
    Client.State(Executor.Abstract(s.exec), s.mem)
  }

  function ClientSteps<T>(s: State<T>, l: Label): seq<Client.Label>
    requires Enabled(s, l)
  {
    match l
    case Begin(i) => [Client.Begin(i)]
    case Concrete(step) => Client.Executes(Executor.SpecSteps(s.exec, step))
    case Return(i) => [Client.Return(i)]
  }

  ghost predicate Inv<T>(s: State<T>, payloads: seq<T>) {
    Executor.Inv(s.exec) && Client.Inv(View(s), payloads) && ReturnedDecided(s)
  }

  predicate Returned<T>(c: Client.Caller<T>) {
    c.Transferred? || c.Rejected?
  }

  /** A submit that has returned was decided by the executor. */
  ghost predicate ReturnedDecided<T>(s: State<T>) {
    && |s.mem.callers| == |s.exec.submits|
    && (forall i :: 0 <= i < |s.mem.callers| && Returned(s.mem.callers[i]) ==>
          Executor.Decided(s.exec.submits[i].phase))
  }

  /** A step of the executor that the contract follows, the client follows too. */
  lemma ConcreteFollows<T>(s: State<T>, step: Executor.Label)
    requires Enabled(s, Concrete(step))
    requires var a, steps := Executor.Abstract(s.exec), Executor.SpecSteps(s.exec, step);
             Spec.Legal(a, steps) && Executor.Abstract(Executor.Apply(s.exec, step)) == Spec.Exec(a, steps)
    ensures Client.Legal(View(s), ClientSteps(s, Concrete(step)))
    ensures View(Apply(s, Concrete(step))) == Client.Exec(View(s), ClientSteps(s, Concrete(step)))
  {
    var steps := Executor.SpecSteps(s.exec, step);
    if step.Work? && (s.exec.worker.Running? || s.exec.worker.Releasing?) {
      assert Client.Executes(steps) == [Client.Execute(steps[0])];
      Spec.ExecOne(Executor.Abstract(s.exec), steps[0]);
      Client.FollowOne(View(s), Client.Execute(steps[0]));
    } else {
      Client.FollowQuiet(View(s), steps);
    }
  }

  lemma ExecutorFollows(e: Executor.State, step: Executor.Label)
    requires Executor.Inv(e) && Executor.Enabled(e, step)
    ensures var a, steps := Executor.Abstract(e), Executor.SpecSteps(e, step);
            Spec.Legal(a, steps) && Executor.Abstract(Executor.Apply(e, step)) == Spec.Exec(a, steps)
  {
    Executor.Refines(e, step);
  }

  /** Each step of the whole is the client's steps over the contract that it names. */
  lemma StepFollows<T>(s: State<T>, l: Label)
    requires Executor.Inv(s.exec) && Enabled(s, l)
    ensures Client.Legal(View(s), ClientSteps(s, l))
    ensures View(Apply(s, l)) == Client.Exec(View(s), ClientSteps(s, l))
  {
    match l
    case Begin(i) => Client.FollowOne(View(s), Client.Begin(i));
    case Concrete(step) =>
      ExecutorFollows(s.exec, step);
      ConcreteFollows(s, step);
    case Return(i) => Client.FollowOne(View(s), Client.Return(i));
  }

  lemma ReturnedDecidedAfter<T>(s: State<T>, l: Label)
    requires ReturnedDecided(s) && Enabled(s, l)
    ensures ReturnedDecided(Apply(s, l))
  {
    var s' := Apply(s, l);
    forall i | 0 <= i < |s'.mem.callers| && Returned(s'.mem.callers[i])
      ensures Executor.Decided(s'.exec.submits[i].phase)
    {
      assert l.Concrete? ==> s'.mem.callers == s.mem.callers;
    }
  }

  lemma InvAfter<T>(s: State<T>, payloads: seq<T>, l: Label)
    requires Inv(s, payloads) && Enabled(s, l)
    ensures Inv(Apply(s, l), payloads)
  {
    StepFollows(s, l);
    Client.NeverFaults(View(s), payloads, ClientSteps(s, l));
    ReturnedDecidedAfter(s, l);
    if l.Concrete? {
      Executor.InvAfter(s.exec, l.step);
    }
  }

  lemma {:induction false} InvAlong<T>(s: State<T>, payloads: seq<T>, run: seq<Label>)
    requires Inv(s, payloads) && Legal(s, run)
    ensures Inv(Exec(s, run), payloads)
    decreases |run|
  {
    if run != [] {
      InvAfter(s, payloads, run[0]);
      InvAlong(Apply(s, run[0]), payloads, run[1..]);
    }
  }

  /** In no interleaving of callers and executor is an empty box read, a box freed twice, or a payload changed. */
  lemma NeverFaults<T>(s: State<T>, payloads: seq<T>, run: seq<Label>)
    requires Init(s, payloads) && Legal(s, run)
    ensures !Exec(s, run).mem.fault && Inv(Exec(s, run), payloads)
  {
    Executor.InitEstablishesInv(s.exec);
    Client.StartEstablishesInv(payloads, Executor.Abstract(s.exec));
    InvAlong(s, payloads, run);
  }

  lemma ReturnedIsDrained(e: Executor.State, j: nat)
    requires Executor.Inv(e) && j < |e.stops| && e.stops[j].phase.Returned?
    ensures Spec.Drained(Executor.Abstract(e))
  {
    assert Executor.StopSound(e, e.stops[j]);
  }

  /**
    In every interleaving, once any stop_and_drain has returned, every submission that has returned
    is settled: its box is freed, and its payload was given back untouched or consumed exactly once.
   */
  lemma PayloadsSettled<T>(s: State<T>, payloads: seq<T>, run: seq<Label>, j: nat, i: nat)
    requires Init(s, payloads) && Legal(s, run) && i < |payloads|
    requires j < |Exec(s, run).exec.stops| && Exec(s, run).exec.stops[j].phase.Returned?
    ensures var m := Exec(s, run).mem;
            && |m.boxes| == |m.callers| == |payloads|
            && (m.callers[i].Transferred? || m.callers[i].Rejected? ==> Client.Settled(m, i, payloads[i]))
  {
    NeverFaults(s, payloads, run);
    var e := Exec(s, run);
    ReturnedIsDrained(e.exec, j);
    if e.mem.callers[i].Transferred? || e.mem.callers[i].Rejected? {
      Client.PayloadsAccountedFor(View(e), payloads, i);
    }
  }

  // ---- Progress ----

  function CallerWeight<T>(c: Client.Caller<T>): nat {
    match c
    case Holding(_) => 2
    case InFlight => 1
    case _ => 0
  }

  /** Work left: the executor's, and each caller's two steps around it. */
  function Measure<T>(s: State<T>): nat {
    Executor.Measure(s.exec) + Sum(s.mem.callers, (c: Client.Caller<T>) => CallerWeight(c))
  }

  /** Every submit has returned and the executor has nothing left to do. */
  ghost predicate Finished<T>(s: State<T>) {
    Executor.Quiet(s.exec) && forall i :: 0 <= i < |s.mem.callers| ==> Returned(s.mem.callers[i])
  }

  predicate Spurious(l: Label) {
    l.Concrete? && l.step.SpuriousWake?
  }

  function SpuriousWakes(run: seq<Label>): nat {
    if run == [] then 0 else (if Spurious(run[0]) then 1 else 0) + SpuriousWakes(run[1..])
  }

  lemma CallerGetsLighter<T>(s: State<T>, l: Label)
    requires Enabled(s, l) && !l.Concrete? && !Apply(s, l).mem.fault
    ensures var s' := Apply(s, l);
            && s'.exec == s.exec && s'.mem.callers == s.mem.callers[l.call := s'.mem.callers[l.call]]
            && CallerWeight(s'.mem.callers[l.call]) < CallerWeight(s.mem.callers[l.call])
  {
  }

  lemma MeasureAfterCaller<T>(s: State<T>, l: Label)
    requires Enabled(s, l) && !l.Concrete? && !Apply(s, l).mem.fault
    ensures Measure(Apply(s, l)) < Measure(s)
  {
    CallerGetsLighter(s, l);
    SumUpdate(s.mem.callers, l.call, Apply(s, l).mem.callers[l.call], (c: Client.Caller<T>) => CallerWeight(c));
  }

  lemma NoFaultAfter<T>(s: State<T>, payloads: seq<T>, l: Label)
    requires Inv(s, payloads) && Enabled(s, l)
    ensures !Apply(s, l).mem.fault
  {
    InvAfter(s, payloads, l);
  }

  lemma CallbacksLeaveCallers<T>(s: State<T>, step: Executor.Label)
    ensures Called(s, step).callers == s.mem.callers
  {
  }

  lemma MeasureAfterConcrete<T>(s: State<T>, step: Executor.Label)
    requires Executor.Inv(s.exec) && Enabled(s, Concrete(step))
    ensures var s' := Apply(s, Concrete(step));
            if step.SpuriousWake? then Measure(s') == Measure(s) + 2 else Measure(s') < Measure(s)
  {
    Executor.MeasureAfter(s.exec, step);
    CallbacksLeaveCallers(s, step);
  }

  /** Every step but a spurious wake consumes work. */
  lemma MeasureAfter<T>(s: State<T>, payloads: seq<T>, l: Label)
    requires Inv(s, payloads) && Enabled(s, l)
    ensures if Spurious(l) then Measure(Apply(s, l)) == Measure(s) + 2 else Measure(Apply(s, l)) < Measure(s)
  {
    if l.Concrete? {
      MeasureAfterConcrete(s, l.step);
    } else {
      NoFaultAfter(s, payloads, l);
      MeasureAfterCaller(s, l);
    }
  }

  /** No run takes more steps than there is work, plus 3 for each spurious wake. */
  lemma {:induction false} RunsAreBounded<T>(s: State<T>, payloads: seq<T>, run: seq<Label>)
    requires Inv(s, payloads) && Legal(s, run)
    ensures Measure(Exec(s, run)) + |run| <= Measure(s) + 3 * SpuriousWakes(run)
    decreases |run|
  {
    if run != [] {
      MeasureAfter(s, payloads, run[0]);
      InvAfter(s, payloads, run[0]);
      RunsAreBounded(Apply(s, run[0]), payloads, run[1..]);
    }
  }

  /** While a submit has not returned or the executor has work, some step that consumes work is enabled. */
  lemma ProgressPossible<T>(s: State<T>, payloads: seq<T>) returns (l: Label)
    requires Inv(s, payloads) && !Finished(s)
    ensures Enabled(s, l) && !Spurious(l) && Measure(Apply(s, l)) < Measure(s)
  {
    if i :| 0 <= i < |s.mem.callers| && s.mem.callers[i].Holding? {
      l := Begin(i);
    } else if !Executor.Quiet(s.exec) {
      var step := Executor.ProgressPossible(s.exec);
      assert step.Submit? ==> s.mem.callers[step.call].InFlight?;
      l := Concrete(step);
    } else {
      var i :| 0 <= i < |s.mem.callers| && !Returned(s.mem.callers[i]);
      l := Return(i);
    }
    MeasureAfter(s, payloads, l);
  }

  /** At the end every payload has been given back untouched or consumed exactly once, stopped or not. */
  lemma FinishedIsSettled<T>(s: State<T>, payloads: seq<T>, i: nat)
    requires Inv(s, payloads) && Finished(s) && i < |payloads|
    ensures Returned(s.mem.callers[i]) && Client.Settled(s.mem, i, payloads[i])
  {
    Executor.QuietIsEmpty(s.exec);
    assert Returned(s.mem.callers[i]);
    Client.PayloadsAccountedFor(View(s), payloads, i);
  }

  /**
    From every reachable state the whole comes to an end, in no more steps than there is work, with
    every payload settled.
   */
  lemma {:induction false} AllSettle<T>(s: State<T>, payloads: seq<T>) returns (run: seq<Label>)
    requires Inv(s, payloads)
    ensures Legal(s, run) && SpuriousWakes(run) == 0 && |run| <= Measure(s)
    ensures var e := Exec(s, run);
            && Inv(e, payloads) && Finished(e)
            && forall i :: 0 <= i < |payloads| ==> Returned(e.mem.callers[i]) && Client.Settled(e.mem, i, payloads[i])
    decreases Measure(s)
  {
    if Finished(s) {
      run := [];
      forall i | 0 <= i < |payloads| ensures Returned(s.mem.callers[i]) && Client.Settled(s.mem, i, payloads[i]) {
        FinishedIsSettled(s, payloads, i);
      }
    } else {
      var l := ProgressPossible(s, payloads);
      InvAfter(s, payloads, l);
      var rest := AllSettle(Apply(s, l), payloads);
      run := [l] + rest;
      assert run[1..] == rest;
    }
  }
}
