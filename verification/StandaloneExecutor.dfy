/**
  The lock-free standalone executor as an interleaving of its atomic steps: any number of
  submission calls, any number of stop_and_drain calls, and one worker thread.

  A label says who moves; what the move does follows from where that participant stands. Each
  move is one access to shared memory (or one callback). Atomics are sequentially consistent,
  the array queue is a linearizable bounded FIFO, and a parked thread is woken by one boolean
  token. A poll that finds nothing new leaves the state alone and has no label.
 */
module StandaloneExecutor {
  import opened Sums
  import Spec = ExecutorSpec

  const STOPPED: nat := 0x8000_0000_0000_0000
  const WORD: nat := 0x1_0000_0000_0000_0000
  const MAX_CAPACITY: nat := 65_536

  /** The stop bit and the pending count share one machine word. */
  predicate StopBit(word: nat) {
    word % WORD >= STOPPED
  }

  function Pending(word: nat): nat {
    word % STOPPED
  }

  function FetchOrStop(word: nat): nat {
    if StopBit(word) then word else word + STOPPED
  }

  function WrappingIncrement(word: nat): nat {
    (word + 1) % WORD
  }

  function WrappingDecrement(word: nat): nat {
    (word + WORD - 1) % WORD
  }

  datatype SubmitPhase =
    | Calling
    | Reserved             // credit taken, about to push
    | RollingBack          // push failed, about to give the credit back
    | Pushed               // unpark still owed
    | Accepted
    | Refused(reason: Spec.Reason)

  datatype SubmitCall = SubmitCall(callbacks: bool, phase: SubmitPhase)

  datatype StopPhase =
    | Entering
    | Signalling           // stop bit set, unpark still owed
    | Polling              // waiting for the pending count to reach zero
    | LoadingJoined
    | Exchanging
    | TakingHandle         // won the exchange
    | Joining              // owns the handle, waiting for the thread to end
    | Publishing
    | AwaitingJoined       // lost the exchange
    | Returned
    | OnExecutor           // refused: called from the worker itself

  datatype StopCall = StopCall(onWorker: bool, phase: StopPhase)

  datatype Worker =
    | Popping
    | Running(task: nat)
    | Releasing(task: nat)
    | Crediting(task: nat)
    | Checking
    | Parking
    | Exiting
    | Exited

  /** The join handle and the two flags that hand it to one caller; `taken` counts removals. */
  datatype JoinState = JoinState(handle: bool, joining: bool, joined: bool, taken: nat)

  /** The queue with the histories of insertions and of callback invocations. */
  datatype Tasks = Tasks(queue: seq<nat>, enqueued: seq<nat>, trace: seq<Spec.Event>)

  datatype State = State(
    capacity: nat,
    queueCapacity: nat,
    word: nat,
    tasks: Tasks,
    token: bool,
    worker: Worker,
    submits: seq<SubmitCall>,
    stops: seq<StopCall>,
    join: JoinState)

  datatype Label = Submit(call: nat) | Stop(call: nat) | Work | SpuriousWake

  /** A state as `open` builds it, with any calls about to be made. */
  ghost predicate Init(s: State) {
    && 0 < s.capacity <= MAX_CAPACITY
    && s.queueCapacity == s.capacity
    && s.word == 0 && s.tasks == Tasks([], [], []) && !s.token && s.worker == Popping
    && (forall i :: 0 <= i < |s.submits| ==> s.submits[i].phase == Calling)
    && (forall j :: 0 <= j < |s.stops| ==> s.stops[j].phase == Entering)
    && s.join == JoinState(true, false, false, 0)
  }

  predicate Decided(p: SubmitPhase) {
    p.Accepted? || p.Refused?
  }

  predicate StopEnabled(s: State, c: StopCall) {
    match c.phase
    case Entering => c.onWorker ==> s.worker.Running? || s.worker.Releasing?
    case Polling => Pending(s.word) == 0
    case Joining => s.worker == Exited
    case AwaitingJoined => s.join.joined
    case Returned => false
    case OnExecutor => false
    case _ => true
  }

  predicate Enabled(s: State, l: Label) {
    match l
    case Submit(i) => i < |s.submits| && !Decided(s.submits[i].phase)
    case Stop(j) => j < |s.stops| && StopEnabled(s, s.stops[j])
    case Work => s.worker != Exited && (s.worker == Parking ==> s.token)
    case SpuriousWake => s.worker == Parking
  }

  function SetSubmit(s: State, i: nat, phase: SubmitPhase): State
    requires i < |s.submits|
  {
    s.(submits := s.submits[i := s.submits[i].(phase := phase)])
  }

  function SetStop(s: State, j: nat, phase: StopPhase): State
    requires j < |s.stops|
  {
    s.(stops := s.stops[j := s.stops[j].(phase := phase)])
  }

  function Reserve(s: State, i: nat): State
    requires i < |s.submits|
  {
    if StopBit(s.word) then SetSubmit(s, i, Refused(Spec.Stopped))
    else if Pending(s.word) >= s.capacity then SetSubmit(s, i, Refused(Spec.Full))
    else SetSubmit(s, i, Reserved).(word := WrappingIncrement(s.word))
  }

  function Push(s: State, i: nat): State
    requires i < |s.submits|
  {
    if |s.tasks.queue| >= s.queueCapacity then SetSubmit(s, i, RollingBack)
    else SetSubmit(s, i, Pushed).(tasks := s.tasks.(queue := s.tasks.queue + [i], enqueued := s.tasks.enqueued + [i]))
  }

  function ApplySubmit(s: State, i: nat): State
    requires Enabled(s, Submit(i))
  {
    match s.submits[i].phase
    case Calling => if s.submits[i].callbacks then Reserve(s, i) else SetSubmit(s, i, Refused(Spec.Backend))
    case Reserved => Push(s, i)
    case RollingBack => SetSubmit(s, i, Refused(Spec.Full)).(word := WrappingDecrement(s.word))
    case Pushed => SetSubmit(s, i, Accepted).(token := true)
  }

  /** Where a stop goes from its place. */
  function NextPhase(s: State, c: StopCall): StopPhase {
    match c.phase
    case Entering => if c.onWorker then OnExecutor else Signalling
    case Signalling => Polling
    case Polling => LoadingJoined
    case LoadingJoined => if s.join.joined then Returned else Exchanging
    case Exchanging => if s.join.joining then AwaitingJoined else TakingHandle
    case TakingHandle => Joining
    case Joining => Publishing
    case Publishing => Returned
    case AwaitingJoined => Returned
    case p => p
  }

  /** What it does to the join state on the way. */
  function NextJoin(join: JoinState, p: StopPhase): JoinState {
    match p
    case Exchanging => join.(joining := true)
    case TakingHandle => join.(handle := false, taken := join.taken + 1)
    case Publishing => join.(joined := true)
    case _ => join
  }

  function ApplyStop(s: State, j: nat): State
    requires Enabled(s, Stop(j))
  {
    var c := s.stops[j];
    SetStop(s, j, NextPhase(s, c)).(
      word := if c == StopCall(false, Entering) then FetchOrStop(s.word) else s.word,
      token := s.token || c.phase.Signalling?,
      join := NextJoin(s.join, c.phase))
  }

  function ApplyWorker(s: State): State
    requires Enabled(s, Work)
  {
    match s.worker
    case Popping =>
      if s.tasks.queue == [] then s.(worker := Checking)
      else s.(worker := Running(s.tasks.queue[0]), tasks := s.tasks.(queue := s.tasks.queue[1..]))
    case Running(t) => s.(worker := Releasing(t), tasks := s.tasks.(trace := s.tasks.trace + [Spec.Ran(t)]))
    case Releasing(t) => s.(worker := Crediting(t), tasks := s.tasks.(trace := s.tasks.trace + [Spec.Released(t)]))
    case Crediting(_) => s.(worker := Popping, word := WrappingDecrement(s.word))
    case Checking => s.(worker := if StopBit(s.word) && Pending(s.word) == 0 then Exiting else Parking)
    case Parking => s.(worker := Popping, token := false)
    case Exiting => s.(worker := Exited)
  }

  function Apply(s: State, l: Label): State
    requires Enabled(s, l)
  {
    match l
    case Submit(i) => ApplySubmit(s, i)
    case Stop(j) => ApplyStop(s, j)
    case Work => ApplyWorker(s)
    case SpuriousWake => s.(worker := Popping)
  }

  predicate Legal(s: State, run: seq<Label>)
    decreases |run|
  {
    run == [] || (Enabled(s, run[0]) && Legal(Apply(s, run[0]), run[1..]))
  }

  function Exec(s: State, run: seq<Label>): State
    requires Legal(s, run)
    decreases |run|
  {
    if run == [] then s else Exec(Apply(s, run[0]), run[1..])
  }

  // ---- Refinement of the executor contract ----

  function OutcomeOf(p: SubmitPhase): Spec.Outcome {
    match p
    case Calling => Spec.Undecided
    case Reserved => Spec.Admitted
    case RollingBack => Spec.Admitted
    case Pushed => Spec.Enqueued
    case Accepted => Spec.Enqueued
    case Refused(reason) => Spec.Rejected(reason)
  }

  function OwnerOf(w: Worker): Spec.Owner {
    match w
    case Running(t) => Spec.Starting(t)
    case Releasing(t) => Spec.Releasing(t)
    case Crediting(t) => Spec.Finishing(t)
    case _ => Spec.Idle
  }

  function Outcomes(submits: seq<SubmitCall>): seq<Spec.Outcome> {
    seq(|submits|, i requires 0 <= i < |submits| => OutcomeOf(submits[i].phase))
  }

  function Abstract(s: State): Spec.State {
    Spec.State(s.capacity, StopBit(s.word), Outcomes(s.submits), s.tasks.queue, OwnerOf(s.worker), s.tasks.enqueued,
        s.tasks.trace)
  }

  function SubmitSteps(s: State, i: nat): seq<Spec.Label>
    requires Enabled(s, Submit(i))
  {
    match s.submits[i].phase
    case Calling =>
      if !s.submits[i].callbacks then [Spec.Refuse(i, Spec.Backend)]
      else if StopBit(s.word) then [Spec.Refuse(i, Spec.Stopped)]
      else if Pending(s.word) >= s.capacity then [Spec.Refuse(i, Spec.Full)]
      else [Spec.Admit(i)]
    case Reserved => [Spec.Enqueue(i)]
    case _ => []
  }

  function WorkerSteps(s: State): seq<Spec.Label> {
    match s.worker
    case Popping => if s.tasks.queue == [] then [] else [Spec.Take]
    case Running(_) => [Spec.Run]
    case Releasing(_) => [Spec.Release]
    case Crediting(_) => [Spec.Finish]
    case _ => []
  }

  /** The contract steps a concrete step performs, if any. */
  function SpecSteps(s: State, l: Label): seq<Spec.Label>
    requires Enabled(s, l)
  {
    match l
    case Submit(i) => SubmitSteps(s, i)
    case Stop(j) => if s.stops[j] == StopCall(false, Entering) then [Spec.Stop] else []
    case Work => WorkerSteps(s)
    case SpuriousWake => []
  }

  /** The word is exact: its count is the credits in use and its high bit is only ever the stop. */
  ghost predicate WordExact(s: State) {
    && 0 < s.capacity <= MAX_CAPACITY && s.queueCapacity == s.capacity
    && s.word < WORD
    && Pending(s.word) == Spec.Used(Abstract(s)) <= s.capacity
    && (forall i :: 0 <= i < |s.submits| ==> !s.submits[i].phase.RollingBack?)
  }

  lemma OutcomesUpdate(s: State, i: nat, phase: SubmitPhase)
    requires i < |s.submits|
    ensures Outcomes(SetSubmit(s, i, phase).submits) == Outcomes(s.submits)[i := OutcomeOf(phase)]
  {
  }

  lemma WordArithmetic(word: nat)
    requires word < WORD
    ensures Pending(word) < STOPPED
    ensures word == Pending(word) + (if StopBit(word) then STOPPED else 0)
    ensures Pending(word) + 1 < STOPPED ==>
              WrappingIncrement(word) == word + 1 && Pending(word + 1) == Pending(word) + 1
                  && StopBit(word + 1) == StopBit(word)
    ensures Pending(word) > 0 ==>
              WrappingDecrement(word) == word - 1 && Pending(word - 1) == Pending(word) - 1
                  && StopBit(word - 1) == StopBit(word)
    ensures FetchOrStop(word) < WORD && StopBit(FetchOrStop(word)) && Pending(FetchOrStop(word)) == Pending(word)
  {
    if word >= STOPPED {
      assert word % STOPPED == word - STOPPED;
    }
  }

  /** A call that holds a credit always finds room in the queue. */
  lemma RoomForCredit(s: State, i: nat)
    requires WordExact(s) && i < |s.submits| && s.submits[i].phase.Reserved?
    ensures |s.tasks.queue| < s.queueCapacity
  {
    SumAtLeast(Abstract(s).calls, i, Spec.Credit);
  }

  lemma SubmitRefines(s: State, i: nat)
    requires WordExact(s) && Enabled(s, Submit(i)) && SubmitSteps(s, i) != []
    ensures |SubmitSteps(s, i)| == 1
    ensures Spec.Enabled(Abstract(s), SubmitSteps(s, i)[0])
    ensures Abstract(ApplySubmit(s, i)) == Spec.Apply(Abstract(s), SubmitSteps(s, i)[0])
  {
    WordArithmetic(s.word);
    if s.submits[i].phase.Reserved? {
      RoomForCredit(s, i);
    }
    OutcomesUpdate(s, i, ApplySubmit(s, i).submits[i].phase);
  }

  lemma SubmitStutters(s: State, i: nat)
    requires WordExact(s) && Enabled(s, Submit(i)) && SubmitSteps(s, i) == []
    ensures Abstract(ApplySubmit(s, i)) == Abstract(s)
  {
    OutcomesUpdate(s, i, Accepted);
    assert Outcomes(s.submits)[i] == Spec.Enqueued;
  }

  lemma StopRefines(s: State, j: nat)
    requires WordExact(s) && Enabled(s, Stop(j))
    ensures Spec.Legal(Abstract(s), SpecSteps(s, Stop(j)))
    ensures Abstract(ApplyStop(s, j)) == Spec.Exec(Abstract(s), SpecSteps(s, Stop(j)))
  {
    WordArithmetic(s.word);
    if SpecSteps(s, Stop(j)) != [] {
      Spec.ExecOne(Abstract(s), Spec.Stop);
    }
  }

  lemma CreditRefines(s: State)
    requires WordExact(s) && s.worker.Crediting?
    ensures Abstract(ApplyWorker(s)) == Spec.Apply(Abstract(s), Spec.Finish)
  {
    WordArithmetic(s.word);
  }

  lemma CallbackRefines(s: State)
    requires s.worker.Running? || s.worker.Releasing?
    ensures Abstract(ApplyWorker(s)) == Spec.Apply(Abstract(s), if s.worker.Running? then Spec.Run else Spec.Release)
  {
  }

  lemma WorkerRefines(s: State)
    requires WordExact(s) && Enabled(s, Work)
    ensures Spec.Legal(Abstract(s), WorkerSteps(s))
    ensures Abstract(ApplyWorker(s)) == Spec.Exec(Abstract(s), WorkerSteps(s))
  {
    match s.worker
    case Crediting(_) =>
      CreditRefines(s);
      Spec.ExecOne(Abstract(s), Spec.Finish);
    case Running(_) =>
      CallbackRefines(s);
      Spec.ExecOne(Abstract(s), Spec.Run);
    case Releasing(_) =>
      CallbackRefines(s);
      Spec.ExecOne(Abstract(s), Spec.Release);
    case Popping =>
      if s.tasks.queue != [] {
        Spec.ExecOne(Abstract(s), Spec.Take);
      }
    case _ =>
  }

  /** Every concrete step is the contract's steps it names, or leaves the contract's state alone. */
  lemma Refines(s: State, l: Label)
    requires WordExact(s) && Enabled(s, l)
    ensures Spec.Legal(Abstract(s), SpecSteps(s, l))
    ensures Abstract(Apply(s, l)) == Spec.Exec(Abstract(s), SpecSteps(s, l))
  {
    match l
    case Submit(i) =>
      if SubmitSteps(s, i) == [] {
        SubmitStutters(s, i);
      } else {
        SubmitRefines(s, i);
        Spec.ExecOne(Abstract(s), SubmitSteps(s, i)[0]);
        assert SubmitSteps(s, i) == [SubmitSteps(s, i)[0]];
      }
    case Stop(j) => StopRefines(s, j);
    case Work => WorkerRefines(s);
    case SpuriousWake =>
  }

  // ---- Invariant ----

  predicate SubmitAt(s: State, i: nat, phase: SubmitPhase) {
    i < |s.submits| && s.submits[i].phase == phase
  }

  predicate StopAt(s: State, j: nat, phase: StopPhase) {
    j < |s.stops| && s.stops[j].phase == phase
  }

  /** A worker about to sleep, or asleep, is owed a wake whenever there is a reason to be awake. */
  ghost predicate OwedWake(s: State) {
    && ((s.worker == Checking || s.worker == Parking) && s.tasks.queue != [] && !s.token ==>
          exists i :: SubmitAt(s, i, Pushed))
    && (s.worker == Parking && StopBit(s.word) && Pending(s.word) == 0 && !s.token ==>
          exists j :: StopAt(s, j, Signalling))
  }

  predicate AfterStop(p: StopPhase) {
    !p.Entering? && !p.OnExecutor?
  }

  predicate AfterDrain(p: StopPhase) {
    AfterStop(p) && !p.Signalling? && !p.Polling?
  }

  predicate HoldsJoin(p: StopPhase) {
    p.TakingHandle? || p.Joining? || p.Publishing?
  }

  function JoinWeight(c: StopCall): nat {
    if HoldsJoin(c.phase) then 1 else 0
  }

  /** What the place of one stop call says about the rest. */
  predicate StopSound(s: State, c: StopCall) {
    && (AfterStop(c.phase) ==> StopBit(s.word) && !c.onWorker)
    && (AfterDrain(c.phase) ==> Pending(s.word) == 0)
    && (c.phase.OnExecutor? ==> c.onWorker)
    && (c.phase.TakingHandle? ==> s.join.handle)
    && (c.phase.Joining? ==> !s.join.handle)
    && (c.phase.Publishing? ==> !s.join.handle && s.worker == Exited)
    && (c.phase.AwaitingJoined? ==> s.join.joining)
    && (c.phase.Returned? ==> s.join.joined)
  }

  /** At most one caller holds the join, and the handle leaves at most once. */
  ghost predicate SingleJoin(s: State) {
    && Sum(s.stops, JoinWeight) + (if s.join.joined then 1 else 0) == (if s.join.joining then 1 else 0)
    && s.join.taken == (if s.join.handle then 0 else 1)
    && (!s.join.joining ==> s.join.handle)
    && (s.join.joined ==> !s.join.handle && s.worker == Exited)
    && (s.worker == Exiting || s.worker == Exited ==> StopBit(s.word) && Pending(s.word) == 0)
    && (forall j :: 0 <= j < |s.stops| ==> StopSound(s, s.stops[j]))
  }

  ghost predicate Inv(s: State) {
    Spec.Inv(Abstract(s)) && WordExact(s) && OwedWake(s) && SingleJoin(s)
  }

  lemma InitEstablishesInv(s: State)
    requires Init(s)
    ensures Inv(s) && Spec.Init(Abstract(s))
  {
    Spec.InitEstablishesInv(Abstract(s));
    SumZero(s.stops, JoinWeight);
  }

  predicate Admits(s: State, l: Label)
    requires Enabled(s, l)
  {
    l.Submit? && s.submits[l.call] == SubmitCall(true, Calling) && !StopBit(s.word) && Pending(s.word) < s.capacity
  }

  predicate Finishes(s: State, l: Label) {
    l.Work? && s.worker.Crediting?
  }

  lemma SpecInvAfter(s: State, l: Label)
    requires Spec.Inv(Abstract(s)) && WordExact(s) && Enabled(s, l)
    ensures Spec.Inv(Abstract(Apply(s, l)))
  {
    Refines(s, l);
    Spec.InvAlong(Abstract(s), SpecSteps(s, l));
  }

  lemma CreditsAfter(s: State, l: Label)
    requires WordExact(s) && Enabled(s, l)
    ensures Spec.Used(Abstract(Apply(s, l))) ==
            Spec.Used(Abstract(s)) + (if Admits(s, l) then 1 else 0) - (if Finishes(s, l) then 1 else 0)
  {
    Refines(s, l);
    if SpecSteps(s, l) != [] {
      var step := SpecSteps(s, l)[0];
      assert SpecSteps(s, l) == [step];
      Spec.ExecOne(Abstract(s), step);
      Spec.UsedAfter(Abstract(s), step);
    }
  }

  /**
    The increment never reaches the stop bit and the decrement never borrows: the count moves by
    exactly one credit, and the stop bit is set by stops alone and never cleared.
   */
  lemma WordAfter(s: State, l: Label)
    requires WordExact(s) && Enabled(s, l)
    ensures var word := Apply(s, l).word;
            && word < WORD
            && Pending(word) == Pending(s.word) + (if Admits(s, l) then 1 else 0) - (if Finishes(s, l) then 1 else 0)
            && (StopBit(word) <==> StopBit(s.word) || (l.Stop? && s.stops[l.call] == StopCall(false, Entering)))
  {
    WordArithmetic(s.word);
  }

  lemma NoRollbackAfter(s: State, l: Label)
    requires WordExact(s) && Enabled(s, l)
    ensures var s' := Apply(s, l); forall i :: 0 <= i < |s'.submits| ==> !s'.submits[i].phase.RollingBack?
  {
    if l.Submit? && s.submits[l.call].phase.Reserved? {
      RoomForCredit(s, l.call);
    }
  }

  lemma WordExactAfter(s: State, l: Label)
    requires WordExact(s) && Enabled(s, l)
    ensures WordExact(Apply(s, l))
  {
    WordAfter(s, l);
    CreditsAfter(s, l);
    NoRollbackAfter(s, l);
    var s' := Apply(s, l);
    assert s'.capacity == s.capacity && s'.queueCapacity == s.queueCapacity;
  }

  lemma OwedWakeAfterSubmit(s: State, i: nat)
    requires OwedWake(s) && WordExact(s) && Enabled(s, Submit(i))
    ensures OwedWake(ApplySubmit(s, i))
  {
    WordAfter(s, Submit(i));
    var s' := ApplySubmit(s, i);
    if (s'.worker == Checking || s'.worker == Parking) && s'.tasks.queue != [] && !s'.token {
      if s.submits[i].phase.Reserved? {
        RoomForCredit(s, i);
        assert SubmitAt(s', i, Pushed);
      } else {
        var k :| SubmitAt(s, k, Pushed);
        assert SubmitAt(s', k, Pushed);
      }
    }
    if s'.worker == Parking && StopBit(s'.word) && Pending(s'.word) == 0 && !s'.token {
      var j :| StopAt(s, j, Signalling);
      assert StopAt(s', j, Signalling);
    }
  }

  lemma OwedWakeAfterStop(s: State, j: nat)
    requires OwedWake(s) && WordExact(s) && Enabled(s, Stop(j))
    ensures OwedWake(ApplyStop(s, j))
  {
    WordAfter(s, Stop(j));
    var s' := ApplyStop(s, j);
    if (s'.worker == Checking || s'.worker == Parking) && s'.tasks.queue != [] && !s'.token {
      var k :| SubmitAt(s, k, Pushed);
      assert SubmitAt(s', k, Pushed);
    }
    if s'.worker == Parking && StopBit(s'.word) && Pending(s'.word) == 0 && !s'.token {
      if s.stops[j] == StopCall(false, Entering) {
        assert StopAt(s', j, Signalling);
      } else {
        var k :| StopAt(s, k, Signalling);
        assert StopAt(s', k, Signalling);
      }
    }
  }

  lemma OwedWakeAfterWorker(s: State)
    requires OwedWake(s) && Enabled(s, Work)
    ensures OwedWake(ApplyWorker(s))
  {
    var s' := ApplyWorker(s);
    if s'.worker == Parking && s'.tasks.queue != [] && !s'.token {
      var k :| SubmitAt(s, k, Pushed);
      assert SubmitAt(s', k, Pushed);
    }
  }

  lemma JoinHolder(s: State, j: nat)
    requires SingleJoin(s) && j < |s.stops| && HoldsJoin(s.stops[j].phase)
    ensures s.join.joining && !s.join.joined
    ensures forall k :: 0 <= k < |s.stops| && HoldsJoin(s.stops[k].phase) ==> k == j
  {
    SumAtLeast(s.stops, j, JoinWeight);
    forall k | 0 <= k < |s.stops| && HoldsJoin(s.stops[k].phase) ensures k == j {
      if k < j {
        SumAtLeastTwo(s.stops, k, j, JoinWeight);
      } else if j < k {
        SumAtLeastTwo(s.stops, j, k, JoinWeight);
      }
    }
  }

  /** The join state and the one caller that moved. */
  lemma JoinStep(s: State, c: StopCall)
    requires StopEnabled(s, c) && StopSound(s, c)
    requires HoldsJoin(c.phase) ==> s.join.joining && !s.join.joined
    requires s.join.taken == (if s.join.handle then 0 else 1) && (!s.join.joining ==> s.join.handle && !s.join.joined)
    requires s.join.joined ==> !s.join.handle && s.worker == Exited
    ensures var join, c' := NextJoin(s.join, c.phase), c.(phase := NextPhase(s, c));
            && JoinWeight(c') + (if join.joined then 1 else 0) - (if join.joining then 1 else 0) ==
               JoinWeight(c) + (if s.join.joined then 1 else 0) - (if s.join.joining then 1 else 0)
            && join.taken == (if join.handle then 0 else 1) && (!join.joining ==> join.handle)
            && (join.joined ==> !join.handle && s.worker == Exited)
  {
  }

  lemma JoinStateAfter(s: State, j: nat)
    requires SingleJoin(s) && Enabled(s, Stop(j))
    ensures var s' := ApplyStop(s, j);
            && Sum(s'.stops, JoinWeight) + (if s'.join.joined then 1 else 0) == (if s'.join.joining then 1 else 0)
            && s'.join.taken == (if s'.join.handle then 0 else 1)
            && (!s'.join.joining ==> s'.join.handle)
            && (s'.join.joined ==> !s'.join.handle && s'.worker == Exited)
  {
    var c := s.stops[j];
    SumUpdate(s.stops, j, c.(phase := NextPhase(s, c)), JoinWeight);
    assert StopSound(s, c);
    if HoldsJoin(c.phase) {
      JoinHolder(s, j);
    }
    JoinStep(s, c);
  }

  /** The caller that moved stands where the new state allows. */
  lemma MoverSound(s: State, j: nat)
    requires Enabled(s, Stop(j)) && StopSound(s, s.stops[j])
    requires StopBit(ApplyStop(s, j).word) == (StopBit(s.word) || s.stops[j] == StopCall(false, Entering))
    requires Pending(ApplyStop(s, j).word) == Pending(s.word)
    requires !s.join.joining ==> s.join.handle
    ensures StopSound(ApplyStop(s, j), ApplyStop(s, j).stops[j])
  {
  }

  /** So does every other one: a holder of the join is the only one that changes it. */
  lemma OtherSound(s: State, j: nat, c: StopCall)
    requires StopSound(s, c) && Enabled(s, Stop(j))
    requires StopBit(s.word) ==> StopBit(ApplyStop(s, j).word)
    requires Pending(ApplyStop(s, j).word) == Pending(s.word)
    requires HoldsJoin(s.stops[j].phase) ==> !HoldsJoin(c.phase)
    ensures StopSound(ApplyStop(s, j), c)
  {
  }

  /** Only the caller that moved has a new place; the others still stand where the new state allows. */
  lemma StopSoundAfter(s: State, j: nat, k: nat)
    requires SingleJoin(s) && WordExact(s) && Enabled(s, Stop(j)) && k < |s.stops|
    ensures StopSound(ApplyStop(s, j), ApplyStop(s, j).stops[k])
  {
    WordAfter(s, Stop(j));
    assert StopSound(s, s.stops[j]) && StopSound(s, s.stops[k]);
    if k == j {
      MoverSound(s, j);
    } else {
      if HoldsJoin(s.stops[j].phase) {
        JoinHolder(s, j);
      }
      OtherSound(s, j, s.stops[k]);
    }
  }

  lemma SingleJoinAfterStop(s: State, j: nat)
    requires SingleJoin(s) && WordExact(s) && Enabled(s, Stop(j))
    ensures SingleJoin(ApplyStop(s, j))
  {
    WordAfter(s, Stop(j));
    JoinStateAfter(s, j);
    var s' := ApplyStop(s, j);
    forall k | 0 <= k < |s'.stops| ensures StopSound(s', s'.stops[k]) {
      StopSoundAfter(s, j, k);
    }
  }

  /** A stop keeps its place while others leave the join alone and, once stopped, only return credits. */
  lemma StopStaysSound(s: State, s': State, c: StopCall)
    requires StopSound(s, c) && s'.join == s.join && (s.worker == Exited ==> s'.worker == Exited)
    requires StopBit(s.word) ==> StopBit(s'.word) && Pending(s'.word) <= Pending(s.word)
    ensures StopSound(s', c)
  {
  }

  lemma OtherLeavesStops(s: State, l: Label)
    requires WordExact(s) && Enabled(s, l) && !l.Stop?
    ensures var s' := Apply(s, l);
            && s'.stops == s.stops && s'.join == s.join && (s.worker == Exited ==> s'.worker == Exited)
            && (StopBit(s.word) ==> StopBit(s'.word) && Pending(s'.word) <= Pending(s.word))
            && (s'.worker == Exiting && s.worker != Exiting ==> StopBit(s'.word) && Pending(s'.word) == 0)
            && (s'.worker == Exited && s.worker != Exited ==> s.worker == Exiting)
  {
    WordAfter(s, l);
  }

  lemma SingleJoinAfterOther(s: State, l: Label)
    requires SingleJoin(s) && WordExact(s) && Enabled(s, l) && !l.Stop?
    ensures SingleJoin(Apply(s, l))
  {
    var s' := Apply(s, l);
    OtherLeavesStops(s, l);
    forall k | 0 <= k < |s'.stops| ensures StopSound(s', s'.stops[k]) {
      StopStaysSound(s, s', s.stops[k]);
    }
  }

  /** Every atomic step of every participant keeps the whole invariant. */
  lemma InvAfter(s: State, l: Label)
    requires Inv(s) && Enabled(s, l)
    ensures Inv(Apply(s, l))
  {
    SpecInvAfter(s, l);
    WordExactAfter(s, l);
    match l {
      case Submit(i) => OwedWakeAfterSubmit(s, i);
      case Stop(j) => OwedWakeAfterStop(s, j);
      case Work => OwedWakeAfterWorker(s);
      case SpuriousWake =>
    }
    if l.Stop? {
      SingleJoinAfterStop(s, l.call);
    } else {
      SingleJoinAfterOther(s, l);
    }
  }

  function SpecRun(s: State, run: seq<Label>): seq<Spec.Label>
    requires Legal(s, run)
    decreases |run|
  {
    if run == [] then [] else SpecSteps(s, run[0]) + SpecRun(Apply(s, run[0]), run[1..])
  }

  /** Every interleaving of the executor is a run of the contract. */
  lemma {:induction false} RunRefines(s: State, run: seq<Label>)
    requires Inv(s) && Legal(s, run)
    ensures Inv(Exec(s, run))
    ensures Spec.Legal(Abstract(s), SpecRun(s, run))
    ensures Abstract(Exec(s, run)) == Spec.Exec(Abstract(s), SpecRun(s, run))
    decreases |run|
  {
    if run != [] {
      InvAfter(s, run[0]);
      Refines(s, run[0]);
      RunRefines(Apply(s, run[0]), run[1..]);
      Spec.ExecConcat(Abstract(s), SpecSteps(s, run[0]), SpecRun(Apply(s, run[0]), run[1..]));
    }
  }

  // ---- Progress ----

  function SubmitWeight(c: SubmitCall): nat {
    match c.phase
    case Calling => 11
    case Reserved => 10
    case RollingBack => 1
    case Pushed => 5
    case _ => 0
  }

  function StopWeight(c: StopCall): nat {
    match c.phase
    case Entering => 12
    case Signalling => 11
    case Polling => 6
    case LoadingJoined => 5
    case Exchanging => 4
    case TakingHandle => 3
    case Joining => 2
    case Publishing => 1
    case AwaitingJoined => 1
    case _ => 0
  }

  function WorkerWeight(w: Worker): nat {
    match w
    case Running(_) => 6
    case Releasing(_) => 5
    case Crediting(_) => 4
    case Popping => 3
    case Checking => 2
    case Exited => 0
    case _ => 1
  }

  /** Work left: calls in flight, queued tasks, an unused wake token and the worker's place in its loop. */
  function Measure(s: State): nat {
    Sum(s.submits, SubmitWeight) + Sum(s.stops, StopWeight)
    + 4 * |s.tasks.queue| + (if s.token then 4 else 0) + WorkerWeight(s.worker)
  }

  lemma MeasureWithSubmit(s: State, i: nat, phase: SubmitPhase)
    requires i < |s.submits|
    ensures Measure(SetSubmit(s, i, phase)) + SubmitWeight(s.submits[i]) ==
            Measure(s) + SubmitWeight(s.submits[i].(phase := phase))
  {
    SumUpdate(s.submits, i, s.submits[i].(phase := phase), SubmitWeight);
  }

  lemma MeasureAfterReserve(s: State, i: nat)
    requires i < |s.submits| && s.submits[i].phase.Calling?
    ensures Measure(Reserve(s, i)) < Measure(s)
  {
    MeasureWithSubmit(s, i, Reserve(s, i).submits[i].phase);
  }

  lemma MeasureAfterPush(s: State, i: nat)
    requires i < |s.submits| && s.submits[i].phase.Reserved?
    ensures Measure(Push(s, i)) < Measure(s)
  {
    MeasureWithSubmit(s, i, Push(s, i).submits[i].phase);
  }

  lemma MeasureAfterSubmit(s: State, i: nat)
    requires Enabled(s, Submit(i))
    ensures Measure(ApplySubmit(s, i)) < Measure(s)
  {
    match s.submits[i].phase
    case Calling =>
      MeasureAfterReserve(s, i);
      MeasureWithSubmit(s, i, Refused(Spec.Backend));
    case Reserved => MeasureAfterPush(s, i);
    case RollingBack => MeasureWithSubmit(s, i, Refused(Spec.Full));
    case Pushed => MeasureWithSubmit(s, i, Accepted);
  }

  lemma StopGetsLighter(s: State, c: StopCall)
    requires StopEnabled(s, c)
    ensures StopWeight(c.(phase := NextPhase(s, c))) + (if c.phase.Signalling? then 4 else 0) < StopWeight(c)
  {
  }

  lemma MeasureAfterStop(s: State, j: nat)
    requires Enabled(s, Stop(j))
    ensures Measure(ApplyStop(s, j)) < Measure(s)
  {
    var c := s.stops[j];
    SumUpdate(s.stops, j, c.(phase := NextPhase(s, c)), StopWeight);
    StopGetsLighter(s, c);
  }

  /** Every step but a spurious wake consumes work; a spurious wake adds one turn of the worker's loop. */
  lemma MeasureAfter(s: State, l: Label)
    requires Enabled(s, l)
    ensures if l.SpuriousWake? then Measure(Apply(s, l)) == Measure(s) + 2 else Measure(Apply(s, l)) < Measure(s)
  {
    match l
    case Submit(i) => MeasureAfterSubmit(s, i);
    case Stop(j) => MeasureAfterStop(s, j);
    case _ =>
  }

  function SpuriousWakes(run: seq<Label>): nat {
    if run == [] then 0 else (if run[0].SpuriousWake? then 1 else 0) + SpuriousWakes(run[1..])
  }

  /** No run takes more steps than there is work, plus three for each spurious wake. */
  lemma {:induction false} RunsAreBounded(s: State, run: seq<Label>)
    requires Legal(s, run)
    ensures Measure(Exec(s, run)) + |run| <= Measure(s) + 3 * SpuriousWakes(run)
    decreases |run|
  {
    if run != [] {
      MeasureAfter(s, run[0]);
      RunsAreBounded(Apply(s, run[0]), run[1..]);
    }
  }

  predicate StopFinished(c: StopCall) {
    c.phase.Returned? || c.phase.OnExecutor? || c == StopCall(true, Entering)
  }

  /**
    Nothing left to do: every call has returned (or, on the worker, was never made) and the worker is
    gone or asleep.
   */
  ghost predicate Quiet(s: State) {
    && (forall i :: 0 <= i < |s.submits| ==> Decided(s.submits[i].phase))
    && (forall j :: 0 <= j < |s.stops| ==> StopFinished(s.stops[j]))
    && (if StopBit(s.word) then s.worker == Exited else s.worker == Parking && !s.token)
  }

  /** With every submission decided, credits in use are the queue and the task in hand. */
  lemma DecidedCredits(s: State)
    requires forall i :: 0 <= i < |s.submits| ==> Decided(s.submits[i].phase)
    ensures Sum(Outcomes(s.submits), Spec.Credit) == 0
  {
    SumZero(Outcomes(s.submits), Spec.Credit);
  }

  /**
    A worker asleep without a token has not missed anything: queued work and a completed stop
    are each covered by a wake still owed, and a stop with no submission in flight is complete.
   */
  lemma NoLostWakeup(s: State)
    requires OwedWake(s) && WordExact(s) && s.worker == Parking && !s.token
    ensures s.tasks.queue != [] ==> exists i :: SubmitAt(s, i, Pushed)
    ensures StopBit(s.word) && (forall i :: 0 <= i < |s.submits| ==> Decided(s.submits[i].phase)) ==>
              exists j :: StopAt(s, j, Signalling)
  {
    if forall i :: 0 <= i < |s.submits| ==> Decided(s.submits[i].phase) {
      DecidedCredits(s);
      assert forall i: nat :: SubmitAt(s, i, Pushed) ==> !Decided(s.submits[i].phase);
    }
  }

  /** In every reachable state that is not quiet some step that consumes work is enabled. */
  lemma ProgressPossible(s: State) returns (l: Label)
    requires WordExact(s) && OwedWake(s) && SingleJoin(s) && !Quiet(s)
    ensures Enabled(s, l) && !l.SpuriousWake?
  {
    if i :| 0 <= i < |s.submits| && !Decided(s.submits[i].phase) {
      return Submit(i);
    }
    if s.worker != Exited && (s.worker == Parking ==> s.token) {
      return Work;
    }
    if s.worker == Parking && StopBit(s.word) {
      NoLostWakeup(s);
      var j :| StopAt(s, j, Signalling);
      return Stop(j);
    }
    var j :| 0 <= j < |s.stops| && !StopFinished(s.stops[j]);
    assert StopSound(s, s.stops[j]);
    if s.stops[j].phase.AwaitingJoined? && !s.join.joined {
      j := SumWitness(s.stops, JoinWeight);
      assert StopSound(s, s.stops[j]);
    }
    return Stop(j);
  }

  /** With nothing left to do no credit is in use. */
  lemma QuietIsEmpty(s: State)
    requires WordExact(s) && OwedWake(s) && SingleJoin(s) && Quiet(s)
    ensures Spec.Used(Abstract(s)) == 0
  {
    DecidedCredits(s);
    NonePushed(s);
  }

  lemma NonePushed(s: State)
    requires forall i :: 0 <= i < |s.submits| ==> Decided(s.submits[i].phase)
    ensures forall i: nat :: !SubmitAt(s, i, Pushed)
  {
  }

  /** Once nothing is left to do every accepted task has completed and every external stop has returned. */
  lemma QuietMeansDrained(s: State)
    requires Inv(s) && Quiet(s)
    ensures s.tasks.trace == Spec.Serial(s.tasks.enqueued)
    ensures StopBit(s.word) ==> Spec.Drained(Abstract(s))
    ensures forall j :: 0 <= j < |s.stops| && !s.stops[j].onWorker ==> s.stops[j].phase.Returned?
  {
    QuietIsEmpty(s);
    Spec.EmptyMeansComplete(Abstract(s));
    forall j | 0 <= j < |s.stops| && !s.stops[j].onWorker ensures s.stops[j].phase.Returned? {
      assert StopSound(s, s.stops[j]) && StopFinished(s.stops[j]);
    }
  }

  /** Without new calls every state reaches a quiet one, in no more steps than there is work. */
  lemma {:induction false} QuietReachable(s: State) returns (run: seq<Label>)
    requires Inv(s)
    ensures Legal(s, run) && SpuriousWakes(run) == 0 && |run| <= Measure(s)
    ensures Inv(Exec(s, run)) && Quiet(Exec(s, run))
    decreases Measure(s)
  {
    if Quiet(s) {
      return [];
    }
    var l := ProgressPossible(s);
    InvAfter(s, l);
    MeasureAfter(s, l);
    var rest := QuietReachable(Apply(s, l));
    run := [l] + rest;
    assert run[1..] == rest;
  }

  /**
    When any external stop_and_drain has returned, winner or loser of the exchange: the worker
    is gone, the handle was taken once, every accepted task was run once and then released once
    in queue order, and no continuation accepts a task or makes another callback.
   */
  lemma DrainBarrier(s: State, j: nat, run: seq<Label>)
    requires Inv(s) && j < |s.stops| && s.stops[j].phase.Returned? && Legal(s, run)
    ensures s.worker == Exited && s.join.taken == 1
    ensures s.tasks.trace == Spec.Serial(s.tasks.enqueued)
    ensures forall i :: 0 <= i < |s.submits| && OutcomeOf(s.submits[i].phase).Enqueued? ==>
              multiset(s.tasks.trace)[Spec.Ran(i)] == 1 && multiset(s.tasks.trace)[Spec.Released(i)] == 1
    ensures var s' := Exec(s, run); s'.tasks == s.tasks && s'.worker == Exited && s'.join.taken == 1
  {
    assert StopSound(s, s.stops[j]);
    var a := Abstract(s);
    Spec.EmptyMeansComplete(a);
    forall i | 0 <= i < |s.submits| && OutcomeOf(s.submits[i].phase).Enqueued?
      ensures multiset(s.tasks.trace)[Spec.Ran(i)] == 1 && multiset(s.tasks.trace)[Spec.Released(i)] == 1
    {
      assert a.calls[i].Enqueued?;
    }
    RunRefines(s, run);
    Spec.DrainedForever(a, SpecRun(s, run));
    ExitedForever(s, run);
  }

  lemma {:induction false} ExitedForever(s: State, run: seq<Label>)
    requires Inv(s) && s.worker == Exited && s.join.joined && Legal(s, run)
    ensures var s' := Exec(s, run);
            s'.worker == Exited && s'.join.joined && s'.join.taken == 1 && s'.tasks.queue == s.tasks.queue
    decreases |run|
  {
    if run != [] {
      InvAfter(s, run[0]);
      RoomlessAfterStop(s, run[0]);
      ExitedForever(Apply(s, run[0]), run[1..]);
    }
  }

  lemma RoomlessAfterStop(s: State, l: Label)
    requires Inv(s) && s.worker == Exited && s.join.joined && Enabled(s, l)
    ensures Apply(s, l).worker == Exited && Apply(s, l).join.joined && Apply(s, l).tasks.queue == s.tasks.queue
  {
    if l.Submit? && s.submits[l.call].phase.Reserved? {
      SumAtLeast(Outcomes(s.submits), l.call, Spec.Credit);
      assert false;
    }
  }
}
