/**
  The typed client that hands owned payloads to a control executor: a payload is boxed, the raw
  box crosses the executor as a task context, and the callbacks move the value out and free the
  box. Reading a box that is not full, or freeing one twice, is recorded as a fault.

  Here the client runs over the executor contract; StandaloneClient and AsteriskClient run it over
  the executors themselves.
 */
module ControlClient {
  import Spec = ExecutorSpec

  datatype Box<T> = Unallocated | Full(value: T) | Moved | Freed

  datatype Caller<T> =
    | Holding(payload: T)                            // before submit
    | InFlight                                       // inside submit
    | Transferred                                    // submit returned Ok
    | Rejected(payload: T, reason: Spec.Reason)      // submit gave the payload back

  /** `consumed` is the history of values given to the run function, with the task they came from. */
  datatype Memory<T> = Memory(
    boxes: seq<Box<T>>,
    callers: seq<Caller<T>>,
    consumed: seq<(nat, T)>,
    fault: bool)

  datatype State<T> = State(exec: Spec.State, mem: Memory<T>)

  datatype Label = Begin(call: nat) | Execute(step: Spec.Label) | Return(call: nat)

  /** The C status of a submission outcome, and the reason the client reads back from it. */
  function Status(o: Spec.Outcome): int {
    match o
    case Rejected(Stopped) => 1
    case Rejected(Full) => 2
    case Rejected(Backend) => 3
    case _ => 0
  }

  function ReasonOf(status: int): Spec.Reason {
    match status
    case 1 => Spec.Stopped
    case 2 => Spec.Full
    case _ => Spec.Backend
  }

  predicate Enabled<T>(s: State<T>, l: Label) {
    && |s.mem.boxes| == |s.mem.callers| == |s.exec.calls|
    && match l
       case Begin(i) => i < |s.mem.callers| && s.mem.callers[i].Holding?
       case Execute(step) =>
         && Spec.Enabled(s.exec, step)
         && (step.Admit? || step.Refuse? ==> s.mem.callers[step.call].InFlight?)
       case Return(i) =>
         i < |s.mem.callers| && s.mem.callers[i].InFlight? && (s.exec.calls[i].Enqueued? || s.exec.calls[i].Rejected?)
  }

  /** submit, before the executor is called: box the payload. */
  function BoxUp<T>(m: Memory<T>, i: nat): Memory<T>
    requires i < |m.callers| == |m.boxes| && m.callers[i].Holding?
  {
    m.(boxes := m.boxes[i := Full(m.callers[i].payload)], callers := m.callers[i := InFlight])
  }

  /** run_task: move the value out of the box. */
  function MoveOut<T>(m: Memory<T>, t: nat): Memory<T> {
    if t < |m.boxes| && m.boxes[t].Full? then
      m.(boxes := m.boxes[t := Moved], consumed := m.consumed + [(t, m.boxes[t].value)])
    else m.(fault := true)
  }

  /** release_task: free the emptied box. */
  function FreeEmpty<T>(m: Memory<T>, t: nat): Memory<T> {
    if t < |m.boxes| && m.boxes[t].Moved? then m.(boxes := m.boxes[t := Freed]) else m.(fault := true)
  }

  /** After a nonzero status the client takes the whole payload back and frees its box. */
  function TakeBack<T>(m: Memory<T>, i: nat, reason: Spec.Reason): Memory<T> {
    if i < |m.boxes| && i < |m.callers| && m.boxes[i].Full? then
      m.(boxes := m.boxes[i := Freed], callers := m.callers[i := Rejected(m.boxes[i].value, reason)])
    else m.(fault := true)
  }

  /** submit, after the executor returned its status. */
  function Conclude<T>(m: Memory<T>, i: nat, status: int): Memory<T>
    requires i < |m.callers|
  {
    if status == 0 then m.(callers := m.callers[i := Transferred]) else TakeBack(m, i, ReasonOf(status))
  }

  /** What a step of the executor does to the client's memory: the callbacks it makes. */
  function Called<T>(m: Memory<T>, exec: Spec.State, step: Spec.Label): Memory<T>
    requires Spec.Enabled(exec, step)
  {
    if step.Run? then MoveOut(m, exec.owner.task)
    else if step.Release? then FreeEmpty(m, exec.owner.task)
    else m
  }

  function Apply<T>(s: State<T>, l: Label): State<T>
    requires Enabled(s, l)
  {
    match l
    case Begin(i) => s.(mem := BoxUp(s.mem, i))
    case Execute(step) => State(Spec.Apply(s.exec, step), Called(s.mem, s.exec, step))
    case Return(i) => s.(mem := Conclude(s.mem, i, Status(s.exec.calls[i])))
  }

  predicate Legal<T>(s: State<T>, run: seq<Label>)
    decreases |run|
  {
    run == [] || (Enabled(s, run[0]) && Legal(Apply(s, run[0]), run[1..]))
  }

  function Exec<T>(s: State<T>, run: seq<Label>): State<T>
    requires Legal(s, run)
    decreases |run|
  {
    if run == [] then s else Exec(Apply(s, run[0]), run[1..])
  }

  /** No caller has called submit yet. */
  function Start<T>(payloads: seq<T>): Memory<T> {
    Memory(seq(|payloads|, i => Unallocated),
           seq(|payloads|, i requires 0 <= i < |payloads| => Holding(payloads[i])),
           [], false)
  }

  /** Where the box of a payload stands, as far as the callbacks made so far tell. */
  function BoxAfter<T>(trace: seq<Spec.Event>, i: nat, payload: T): Box<T> {
    if Spec.Released(i) in trace then Freed else if Spec.Ran(i) in trace then Moved else Full(payload)
  }

  ghost predicate CallSound<T>(s: State<T>, i: nat, payload: T)
    requires i < |s.mem.boxes| && i < |s.mem.callers| && i < |s.exec.calls|
  {
    match s.mem.callers[i]
    case Holding(v) => v == payload && s.mem.boxes[i].Unallocated? && s.exec.calls[i].Undecided?
    case InFlight => s.mem.boxes[i] == BoxAfter(s.exec.trace, i, payload)
    case Transferred => s.mem.boxes[i] == BoxAfter(s.exec.trace, i, payload) && s.exec.calls[i].Enqueued?
    case Rejected(v, reason) => v == payload && s.mem.boxes[i].Freed? && s.exec.calls[i] == Spec.Rejected(reason)
  }

  /** The values consumed are the payloads of the tasks run, in the order they ran. */
  function RunsOf(trace: seq<Spec.Event>): seq<nat> {
    if trace == [] then []
    else RunsOf(trace[..|trace| - 1]) + (if trace[|trace| - 1].Ran? then [trace[|trace| - 1].task] else [])
  }

  ghost predicate ConsumedMatches<T>(s: State<T>, payloads: seq<T>) {
    && |s.mem.consumed| == |RunsOf(s.exec.trace)|
    && forall k :: 0 <= k < |s.mem.consumed| ==>
         s.mem.consumed[k].0 == RunsOf(s.exec.trace)[k] < |payloads|
             && s.mem.consumed[k].1 == payloads[s.mem.consumed[k].0]
  }

  ghost predicate CallsSound<T>(s: State<T>, payloads: seq<T>) {
    && |s.mem.boxes| == |s.mem.callers| == |s.exec.calls| == |payloads|
    && (forall i :: 0 <= i < |payloads| ==> CallSound(s, i, payloads[i]))
  }

  ghost predicate Inv<T>(s: State<T>, payloads: seq<T>) {
    Spec.Inv(s.exec) && !s.mem.fault && CallsSound(s, payloads) && ConsumedMatches(s, payloads)
  }

  lemma StartEstablishesInv<T>(payloads: seq<T>, exec: Spec.State)
    requires Spec.Init(exec) && |exec.calls| == |payloads|
    ensures Inv(State(exec, Start(payloads)), payloads)
  {
    Spec.InitEstablishesInv(exec);
  }

  /** The task about to run, and the one about to be released, have their box in the right state. */
  lemma CallbackBoxes<T>(s: State<T>, payloads: seq<T>)
    requires Inv(s, payloads) && (s.exec.owner.Starting? || s.exec.owner.Releasing?)
    ensures var t := s.exec.owner.task;
            && t < |payloads|
            && s.mem.boxes[t] == (if s.exec.owner.Starting? then Full(payloads[t]) else Moved)
            && s.exec.calls[t].Enqueued?
  {
    Spec.TaskInHand(s.exec);
    assert CallSound(s, s.exec.owner.task, payloads[s.exec.owner.task]);
  }

  lemma InTraceAfter(trace: seq<Spec.Event>, e: Spec.Event)
    ensures forall x :: x in trace + [e] <==> x in trace || x == e
    ensures RunsOf(trace + [e]) == RunsOf(trace) + (if e.Ran? then [e.task] else [])
  {
    assert (trace + [e])[..|trace|] == trace;
  }

  lemma BoxAfterEvent<T>(trace: seq<Spec.Event>, e: Spec.Event, i: nat, payload: T)
    ensures BoxAfter(trace + [e], i, payload) ==
            if e == Spec.Released(i) then Freed
            else if e == Spec.Ran(i) && Spec.Released(i) !in trace then Moved
            else BoxAfter(trace, i, payload)
  {
    InTraceAfter(trace, e);
  }

  lemma CallsSoundAfterRun<T>(s: State<T>, payloads: seq<T>)
    requires CallsSound(s, payloads) && s.exec.owner.Starting?
    requires var t := s.exec.owner.task;
             t < |payloads| && s.mem.boxes[t] == Full(payloads[t]) && s.exec.calls[t].Enqueued?
    ensures CallsSound(Apply(s, Execute(Spec.Run)), payloads)
  {
    var s', t := Apply(s, Execute(Spec.Run)), s.exec.owner.task;
    forall i | 0 <= i < |payloads| ensures CallSound(s', i, payloads[i]) {
      assert CallSound(s, i, payloads[i]);
      BoxAfterEvent(s.exec.trace, Spec.Ran(t), i, payloads[i]);
    }
  }

  lemma InvAfterRun<T>(s: State<T>, payloads: seq<T>)
    requires Inv(s, payloads) && Enabled(s, Execute(Spec.Run))
    ensures Inv(Apply(s, Execute(Spec.Run)), payloads)
  {
    CallbackBoxes(s, payloads);
    CallsSoundAfterRun(s, payloads);
    Spec.InvAfter(s.exec, Spec.Run);
    var t := s.exec.owner.task;
    InTraceAfter(s.exec.trace, Spec.Ran(t));
    assert Apply(s, Execute(Spec.Run)).mem.consumed == s.mem.consumed + [(t, payloads[t])];
  }

  lemma CallsSoundAfterRelease<T>(s: State<T>, payloads: seq<T>)
    requires CallsSound(s, payloads) && s.exec.owner.Releasing?
    requires var t := s.exec.owner.task; t < |payloads| && s.mem.boxes[t].Moved? && s.exec.calls[t].Enqueued?
    ensures CallsSound(Apply(s, Execute(Spec.Release)), payloads)
  {
    var s', t := Apply(s, Execute(Spec.Release)), s.exec.owner.task;
    forall i | 0 <= i < |payloads| ensures CallSound(s', i, payloads[i]) {
      assert CallSound(s, i, payloads[i]);
      BoxAfterEvent(s.exec.trace, Spec.Released(t), i, payloads[i]);
    }
  }

  lemma InvAfterRelease<T>(s: State<T>, payloads: seq<T>)
    requires Inv(s, payloads) && Enabled(s, Execute(Spec.Release))
    ensures Inv(Apply(s, Execute(Spec.Release)), payloads)
  {
    CallbackBoxes(s, payloads);
    CallsSoundAfterRelease(s, payloads);
    Spec.InvAfter(s.exec, Spec.Release);
    ConsumedAfterRelease(s, payloads);
  }

  lemma ConsumedAfterRelease<T>(s: State<T>, payloads: seq<T>)
    requires ConsumedMatches(s, payloads) && Enabled(s, Execute(Spec.Release))
    ensures ConsumedMatches(Apply(s, Execute(Spec.Release)), payloads)
  {
    var s', trace := Apply(s, Execute(Spec.Release)), s.exec.trace;
    InTraceAfter(trace, Spec.Released(s.exec.owner.task));
    assert RunsOf(s'.exec.trace) == RunsOf(trace) + [] == RunsOf(trace);
    assert s'.mem.consumed == s.mem.consumed;
  }

  lemma CallsSoundAfterOther<T>(s: State<T>, payloads: seq<T>, step: Spec.Label)
    requires CallsSound(s, payloads) && Enabled(s, Execute(step)) && !step.Run? && !step.Release?
    ensures CallsSound(Apply(s, Execute(step)), payloads)
  {
    var s' := Apply(s, Execute(step));
    assert s'.exec.trace == s.exec.trace;
    forall i | 0 <= i < |payloads| ensures CallSound(s', i, payloads[i]) {
      assert CallSound(s, i, payloads[i]);
    }
  }

  lemma InvAfterOtherStep<T>(s: State<T>, payloads: seq<T>, step: Spec.Label)
    requires Inv(s, payloads) && Enabled(s, Execute(step)) && !step.Run? && !step.Release?
    ensures Inv(Apply(s, Execute(step)), payloads)
  {
    Spec.InvAfter(s.exec, step);
    CallsSoundAfterOther(s, payloads, step);
    assert Apply(s, Execute(step)).exec.trace == s.exec.trace;
  }

  /** A submission that begins or returns: only its own caller and box change. */
  lemma CallsSoundAfterClient<T>(s: State<T>, payloads: seq<T>, l: Label)
    requires CallsSound(s, payloads) && Enabled(s, l) && !l.Execute?
    requires !s.exec.calls[l.call].Enqueued? ==>
               Spec.Ran(l.call) !in s.exec.trace && Spec.Released(l.call) !in s.exec.trace
    ensures CallsSound(Apply(s, l), payloads) && Apply(s, l).mem.fault == s.mem.fault
  {
    var s', j := Apply(s, l), l.call;
    assert CallSound(s, j, payloads[j]);
    assert CallSound(s', j, payloads[j]);
    forall i | 0 <= i < |payloads| ensures CallSound(s', i, payloads[i]) {
      assert CallSound(s, i, payloads[i]);
    }
  }

  lemma InvAfterClient<T>(s: State<T>, payloads: seq<T>, l: Label)
    requires Inv(s, payloads) && Enabled(s, l) && !l.Execute?
    ensures Inv(Apply(s, l), payloads)
  {
    Spec.AtMostOnce(s.exec, l.call);
    CallsSoundAfterClient(s, payloads, l);
    assert Apply(s, l).exec == s.exec && Apply(s, l).mem.consumed == s.mem.consumed;
  }

  lemma InvAfter<T>(s: State<T>, payloads: seq<T>, l: Label)
    requires Inv(s, payloads) && Enabled(s, l)
    ensures Inv(Apply(s, l), payloads)
  {
    match l
    case Execute(Run) => InvAfterRun(s, payloads);
    case Execute(Release) => InvAfterRelease(s, payloads);
    case Execute(step) => InvAfterOtherStep(s, payloads, step);
    case _ => InvAfterClient(s, payloads, l);
  }

  /** No interleaving of callers and executor ever reads an empty box or frees one twice. */
  lemma {:induction false} NeverFaults<T>(s: State<T>, payloads: seq<T>, run: seq<Label>)
    requires Inv(s, payloads) && Legal(s, run)
    ensures Inv(Exec(s, run), payloads)
    decreases |run|
  {
    if run != [] {
      InvAfter(s, payloads, run[0]);
      NeverFaults(Apply(s, run[0]), payloads, run[1..]);
    }
  }

  lemma {:induction false} RunsOfCount(trace: seq<Spec.Event>, t: nat)
    ensures multiset(RunsOf(trace))[t] == multiset(trace)[Spec.Ran(t)]
  {
    if trace != [] {
      var front := trace[..|trace| - 1];
      assert trace == front + [trace[|trace| - 1]];
      RunsOfCount(front, t);
    }
  }

  /** The values the run function was given for one task, in order. */
  function Uses<T>(consumed: seq<(nat, T)>, t: nat): seq<T> {
    if consumed == [] then []
    else
      var last := consumed[|consumed| - 1];
      Uses(consumed[..|consumed| - 1], t) + (if last.0 == t then [last.1] else [])
  }

  lemma {:induction false} UsesAreRuns<T>(consumed: seq<(nat, T)>, runs: seq<nat>, t: nat, payload: T)
    requires |consumed| == |runs|
    requires forall k :: 0 <= k < |runs| ==> consumed[k].0 == runs[k] && (runs[k] == t ==> consumed[k].1 == payload)
    ensures |Uses(consumed, t)| == multiset(runs)[t]
    ensures forall k :: 0 <= k < |Uses(consumed, t)| ==> Uses(consumed, t)[k] == payload
  {
    if runs != [] {
      var n := |runs| - 1;
      assert runs == runs[..n] + [runs[n]];
      UsesAreRuns(consumed[..n], runs[..n], t, payload);
    }
  }

  /**
    What a returned call has come to: its box is freed, and its payload was either given back
    untouched and never given to the run function, or given to it exactly once.
   */
  ghost predicate Settled<T>(m: Memory<T>, i: nat, payload: T)
    requires i < |m.boxes| && i < |m.callers|
  {
    && m.boxes[i].Freed?
    && (m.callers[i].Transferred? ==> Uses(m.consumed, i) == [payload])
    && (m.callers[i].Rejected? ==> Uses(m.consumed, i) == [] && m.callers[i].payload == payload)
  }

  lemma EmptyCalls(e: Spec.State, i: nat)
    requires Spec.Inv(e) && Spec.Used(e) == 0 && i < |e.calls| && (e.calls[i].Enqueued? || e.calls[i].Rejected?)
    ensures Spec.Released(i) in e.trace <==> e.calls[i].Enqueued?
    ensures multiset(RunsOf(e.trace))[i] == if e.calls[i].Enqueued? then 1 else 0
  {
    Spec.EmptyMeansComplete(e);
    Spec.AtMostOnce(e, i);
    RunsOfCount(e.trace, i);
    assert forall x :: x in e.trace <==> multiset(e.trace)[x] > 0;
  }

  lemma UsesWhenConsumed<T>(s: State<T>, payloads: seq<T>, i: nat)
    requires ConsumedMatches(s, payloads) && i < |payloads|
    ensures |Uses(s.mem.consumed, i)| == multiset(RunsOf(s.exec.trace))[i]
    ensures forall k :: 0 <= k < |Uses(s.mem.consumed, i)| ==> Uses(s.mem.consumed, i)[k] == payloads[i]
  {
    UsesAreRuns(s.mem.consumed, RunsOf(s.exec.trace), i, payloads[i]);
  }

  /** With no credit in use, every call that has returned is settled. */
  lemma PayloadsAccountedFor<T>(s: State<T>, payloads: seq<T>, i: nat)
    requires Inv(s, payloads) && Spec.Used(s.exec) == 0 && i < |payloads|
    requires s.mem.callers[i].Transferred? || s.mem.callers[i].Rejected?
    ensures Settled(s.mem, i, payloads[i])
  {
    assert CallSound(s, i, payloads[i]);
    EmptyCalls(s.exec, i);
    UsesWhenConsumed(s, payloads, i);
  }

  // ---- Following an executor ----

  function Executes(steps: seq<Spec.Label>): seq<Label> {
    seq(|steps|, k requires 0 <= k < |steps| => Execute(steps[k]))
  }

  /** Steps that make no callback leave the client's memory alone. */
  lemma {:induction false} FollowQuiet<T>(s: State<T>, steps: seq<Spec.Label>)
    requires Spec.Legal(s.exec, steps) && |s.mem.boxes| == |s.mem.callers| == |s.exec.calls|
    requires forall l :: l in steps ==>
               && !l.Run? && !l.Release?
               && (l.Admit? || l.Refuse? ==> l.call < |s.mem.callers| && s.mem.callers[l.call].InFlight?)
    ensures Legal(s, Executes(steps))
    ensures Exec(s, Executes(steps)) == State(Spec.Exec(s.exec, steps), s.mem)
    decreases |steps|
  {
    if steps != [] {
      assert Executes(steps)[0] == Execute(steps[0]) && Executes(steps)[1..] == Executes(steps[1..]);
      FollowQuiet(Apply(s, Execute(steps[0])), steps[1..]);
    }
  }

  lemma FollowOne<T>(s: State<T>, l: Label)
    requires Enabled(s, l)
    ensures Legal(s, [l]) && Exec(s, [l]) == Apply(s, l)
  {
    assert [l][1..] == [];
    assert Legal(Apply(s, l), []);
  }
}
