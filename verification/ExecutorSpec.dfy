/**
  The contract both control executors promise (rptadv_control_adapter.h): bounded admission,
  first-in first-out order, run once and then release once, and a permanent stop.

  Submission calls are numbered; a call's number also names the task it carries. Admission
  takes a credit and enqueuing fixes the order, so an executor may do both at once or let
  other calls in between.
 */
module ExecutorSpec {
  import opened Sums

  datatype Reason = Stopped | Full | Backend

  datatype Outcome = Undecided | Admitted | Enqueued | Rejected(reason: Reason)

  datatype Event = Ran(task: nat) | Released(task: nat)

  /** The serialized owner: idle, or holding one task before run, before release, before returning its credit. */
  datatype Owner = Idle | Starting(task: nat) | Releasing(task: nat) | Finishing(task: nat)

  /** `enqueued` and `trace` are the histories of queue insertions and of callback invocations. */
  datatype State = State(
    capacity: nat,
    stopped: bool,
    calls: seq<Outcome>,
    queue: seq<nat>,
    owner: Owner,
    enqueued: seq<nat>,
    trace: seq<Event>)

  datatype Label =
    | Admit(call: nat)
    | Refuse(call: nat, reason: Reason)
    | Enqueue(call: nat)
    | Take
    | Run
    | Release
    | Finish
    | Stop

  function Credit(o: Outcome): nat {
    if o.Admitted? then 1 else 0
  }

  function Busy(o: Owner): nat {
    if o.Idle? then 0 else 1
  }

  /** Credits in use: admitted but not enqueued, queued, and held by the owner. */
  function Used(s: State): nat {
    Sum(s.calls, Credit) + |s.queue| + Busy(s.owner)
  }

  ghost predicate Init(s: State) {
    && s.capacity > 0
    && !s.stopped
    && (forall i :: 0 <= i < |s.calls| ==> s.calls[i].Undecided?)
    && s.queue == [] && s.owner.Idle? && s.enqueued == [] && s.trace == []
  }

  predicate Enabled(s: State, l: Label) {
    match l
    case Admit(i) => i < |s.calls| && s.calls[i].Undecided? && !s.stopped && Used(s) < s.capacity
    case Refuse(i, reason) =>
      && i < |s.calls| && s.calls[i].Undecided?
      && (reason.Stopped? ==> s.stopped)
      && (reason.Full? ==> !s.stopped && Used(s) >= s.capacity)
    case Enqueue(i) => i < |s.calls| && s.calls[i].Admitted?
    case Take => s.owner.Idle? && s.queue != []
    case Run => s.owner.Starting?
    case Release => s.owner.Releasing?
    case Finish => s.owner.Finishing?
    case Stop => true
  }

  function Apply(s: State, l: Label): State
    requires Enabled(s, l)
  {
    match l
    case Admit(i) => s.(calls := s.calls[i := Admitted])
    case Refuse(i, reason) => s.(calls := s.calls[i := Rejected(reason)])
    case Enqueue(i) =>
      s.(calls := s.calls[i := Enqueued], queue := s.queue + [i], enqueued := s.enqueued + [i])
    case Take => s.(owner := Starting(s.queue[0]), queue := s.queue[1..])
    case Run => s.(owner := Releasing(s.owner.task), trace := s.trace + [Ran(s.owner.task)])
    case Release => s.(owner := Finishing(s.owner.task), trace := s.trace + [Released(s.owner.task)])
    case Finish => s.(owner := Idle)
    case Stop => s.(stopped := true)
  }

  /** A run is a list of labels, each enabled where it is taken. */
  predicate Legal(s: State, run: seq<Label>)
    decreases |run|
  {
    run == [] || (Enabled(s, run[0]) && Legal(Apply(s, run[0]), run[1..]))
  }

  function Exec(s: State, run: seq<Label>): State
    requires Legal(s, run)
    decreases |run|
  {
    if run == [] then s else Exec(Apply(s, run[0]), run[1..])
  }

  lemma ExecOne(s: State, l: Label)
    requires Enabled(s, l)
    ensures Legal(s, [l]) && Exec(s, [l]) == Apply(s, l)
  {
    assert [l][1..] == [];
    assert Legal(Apply(s, l), []);
  }

  lemma {:induction false} ExecConcat(s: State, first: seq<Label>, second: seq<Label>)
    requires Legal(s, first) && Legal(Exec(s, first), second)
    ensures Legal(s, first + second)
    ensures Exec(s, first + second) == Exec(Exec(s, first), second)
    decreases |first|
  {
    if first == [] {
      assert first + second == second;
    } else {
      assert (first + second)[1..] == first[1..] + second;
      ExecConcat(Apply(s, first[0]), first[1..], second);
    }
  }

  /** The callbacks of tasks executed one after the other: each run, then its release. */
  function Serial(tasks: seq<nat>): seq<Event> {
    if tasks == [] then [] else
      Serial(tasks[..|tasks| - 1]) + [Ran(tasks[|tasks| - 1]), Released(tasks[|tasks| - 1])]
  }

  function Held(o: Owner): seq<nat> {
    if o.Idle? then [] else [o.task]
  }

  /** Callbacks already made for the task in hand. */
  function Partial(o: Owner): seq<Event> {
    match o
    case Idle => []
    case Starting(_) => []
    case Releasing(t) => [Ran(t)]
    case Finishing(t) => [Ran(t), Released(t)]
  }

  /** Tasks whose credit has been returned. */
  function Completed(s: State): seq<nat>
    requires |s.queue| + Busy(s.owner) <= |s.enqueued|
  {
    s.enqueued[..|s.enqueued| - |s.queue| - Busy(s.owner)]
  }

  ghost predicate Distinct(s: seq<nat>) {
    forall i, j :: 0 <= i < j < |s| ==> s[i] != s[j]
  }

  ghost predicate Ordered(s: State) {
    && |s.queue| + Busy(s.owner) <= |s.enqueued|
    && s.enqueued == Completed(s) + Held(s.owner) + s.queue
    && s.trace == Serial(Completed(s)) + Partial(s.owner)
  }

  ghost predicate Matched(s: State) {
    && Distinct(s.enqueued)
    && (forall i :: i in s.enqueued <==> 0 <= i < |s.calls| && s.calls[i].Enqueued?)
  }

  ghost predicate Inv(s: State) {
    Used(s) <= s.capacity && Ordered(s) && Matched(s)
  }

  lemma InitEstablishesInv(s: State)
    requires Init(s)
    ensures Inv(s) && Used(s) == 0
  {
    SumZero(s.calls, Credit);
  }

  /** Admission takes one credit, finishing returns one, and nothing else moves the total. */
  lemma UsedAfter(s: State, l: Label)
    requires Enabled(s, l)
    ensures Used(Apply(s, l)) == Used(s) + (if l.Admit? then 1 else 0) - (if l.Finish? then 1 else 0)
  {
    match l
    case Admit(i) => SumUpdate(s.calls, i, Admitted, Credit);
    case Refuse(i, reason) => SumUpdate(s.calls, i, Rejected(reason), Credit);
    case Enqueue(i) => SumUpdate(s.calls, i, Enqueued, Credit);
    case _ =>
  }

  lemma SerialAppend(tasks: seq<nat>, t: nat)
    ensures Serial(tasks + [t]) == Serial(tasks) + [Ran(t), Released(t)]
  {
    assert (tasks + [t])[..|tasks|] == tasks;
  }

  /** The completed tasks are known by what surrounds them. */
  lemma OrderedFrom(s: State, done: seq<nat>)
    requires s.enqueued == done + Held(s.owner) + s.queue && s.trace == Serial(done) + Partial(s.owner)
    ensures Ordered(s)
  {
    assert Completed(s) == done;
  }

  lemma OrderedAfterEnqueue(s: State, i: nat)
    requires Enabled(s, Enqueue(i)) && Ordered(s)
    ensures Ordered(Apply(s, Enqueue(i)))
  {
    var done := Completed(s);
    assert done + Held(s.owner) + s.queue + [i] == done + Held(s.owner) + (s.queue + [i]);
    OrderedFrom(Apply(s, Enqueue(i)), done);
  }

  lemma OrderedAfterTake(s: State)
    requires Enabled(s, Take) && Ordered(s)
    ensures Ordered(Apply(s, Take))
  {
    var done := Completed(s);
    assert done + [] + s.queue == done + [s.queue[0]] + s.queue[1..];
    OrderedFrom(Apply(s, Take), done);
  }

  lemma OrderedAfterCallback(s: State, l: Label)
    requires (l.Run? || l.Release?) && Enabled(s, l) && Ordered(s)
    ensures Ordered(Apply(s, l))
  {
    var done, before := Completed(s), Partial(s.owner);
    var event := if l.Run? then Ran(s.owner.task) else Released(s.owner.task);
    assert Serial(done) + before + [event] == Serial(done) + (before + [event]);
    assert before + [event] == Partial(Apply(s, l).owner);
    OrderedFrom(Apply(s, l), done);
  }

  lemma OrderedAfterFinish(s: State)
    requires Enabled(s, Finish) && Ordered(s)
    ensures Ordered(Apply(s, Finish))
  {
    var done, t := Completed(s), s.owner.task;
    SerialAppend(done, t);
    assert done + [t] + s.queue == done + [t] + [] + s.queue;
    assert Serial(done + [t]) + [] == Serial(done) + Partial(s.owner);
    OrderedFrom(Apply(s, Finish), done + [t]);
  }

  lemma OrderedAfter(s: State, l: Label)
    requires Enabled(s, l) && Ordered(s)
    ensures Ordered(Apply(s, l))
  {
    match l
    case Enqueue(i) => OrderedAfterEnqueue(s, i);
    case Take => OrderedAfterTake(s);
    case Run => OrderedAfterCallback(s, l);
    case Release => OrderedAfterCallback(s, l);
    case Finish => OrderedAfterFinish(s);
    case _ => OrderedFrom(Apply(s, l), Completed(s));
  }

  lemma MatchedAfter(s: State, l: Label)
    requires Enabled(s, l) && Matched(s)
    ensures Matched(Apply(s, l))
  {
    var s' := Apply(s, l);
    if l.Enqueue? {
      assert l.call !in s.enqueued;
      forall i ensures i in s'.enqueued <==> 0 <= i < |s'.calls| && s'.calls[i].Enqueued? {
        assert i in s'.enqueued <==> i in s.enqueued || i == l.call;
      }
    }
  }

  /** Every step keeps the bound, the order and the correspondence of calls and queue entries. */
  lemma InvAfter(s: State, l: Label)
    requires Enabled(s, l) && Inv(s)
    ensures Inv(Apply(s, l))
  {
    UsedAfter(s, l);
    OrderedAfter(s, l);
    MatchedAfter(s, l);
  }

  lemma {:induction false} InvAlong(s: State, run: seq<Label>)
    requires Inv(s) && Legal(s, run)
    ensures Inv(Exec(s, run))
    decreases |run|
  {
    if run != [] {
      InvAfter(s, run[0]);
      InvAlong(Apply(s, run[0]), run[1..]);
    }
  }

  lemma CountsAdd(a: seq<Event>, b: seq<Event>, e: Event)
    ensures multiset(a + b)[e] == multiset(a)[e] + multiset(b)[e]
    ensures e in a + b <==> multiset(a + b)[e] > 0
  {
    assert e in multiset(a + b) <==> e in a + b;
  }

  lemma PairCounts(u: nat, t: nat)
    ensures multiset([Ran(u), Released(u)])[Ran(t)] == if u == t then 1 else 0
    ensures multiset([Ran(u), Released(u)])[Released(t)] == if u == t then 1 else 0
  {
  }

  lemma {:induction false} SerialCounts(tasks: seq<nat>, t: nat)
    requires Distinct(tasks)
    ensures multiset(Serial(tasks))[Ran(t)] == (if t in tasks then 1 else 0)
    ensures multiset(Serial(tasks))[Released(t)] == (if t in tasks then 1 else 0)
  {
    if tasks != [] {
      var front, last := tasks[..|tasks| - 1], tasks[|tasks| - 1];
      SerialCounts(front, t);
      CountsAdd(Serial(front), [Ran(last), Released(last)], Ran(t));
      CountsAdd(Serial(front), [Ran(last), Released(last)], Released(t));
      PairCounts(last, t);
      assert tasks == front + [last];
      assert t in tasks <==> t in front || t == last;
    }
  }

  lemma PartialCounts(o: Owner, t: nat)
    ensures multiset(Partial(o))[Released(t)] <= multiset(Partial(o))[Ran(t)] <= if t in Held(o) then 1 else 0
  {
  }

  /** A task is completed or in hand, not both, and only an enqueued call's task is either. */
  lemma StartedOnce(s: State, t: nat)
    requires Inv(s)
    ensures Distinct(Completed(s))
    ensures !(t in Completed(s) && t in Held(s.owner))
    ensures t in Completed(s) || t in Held(s.owner) ==> t < |s.calls| && s.calls[t].Enqueued?
  {
    var d := Completed(s);
    forall i | 0 <= i < |d|
      ensures d[i] == s.enqueued[i] && d[i] in s.enqueued
    {
    }
    if t in Held(s.owner) {
      assert s.enqueued[|d|] == t;
      assert t in s.enqueued;
    }
  }

  /**
    At every moment a task has been run at most once and released no more often than run;
    a task whose call is undecided, only admitted, or rejected has been neither.
   */
  lemma AtMostOnce(s: State, t: nat)
    requires Inv(s)
    ensures multiset(s.trace)[Released(t)] <= multiset(s.trace)[Ran(t)] <= 1
    ensures t >= |s.calls| || !s.calls[t].Enqueued? ==> Ran(t) !in s.trace && Released(t) !in s.trace
  {
    StartedOnce(s, t);
    SerialCounts(Completed(s), t);
    PartialCounts(s.owner, t);
    CountsAdd(Serial(Completed(s)), Partial(s.owner), Ran(t));
    CountsAdd(Serial(Completed(s)), Partial(s.owner), Released(t));
  }

  /**
    The task in hand was enqueued, has run exactly when it is past its run, and is not yet released
    before its release.
   */
  lemma TaskInHand(s: State)
    requires Inv(s) && (s.owner.Starting? || s.owner.Releasing?)
    ensures var t := s.owner.task;
            && t < |s.calls| && s.calls[t].Enqueued?
            && (Ran(t) in s.trace <==> s.owner.Releasing?)
            && Released(t) !in s.trace
  {
    var t := s.owner.task;
    assert s.enqueued[|Completed(s)|] == t;
    assert t in s.enqueued;
    assert t !in Completed(s);
    SerialCounts(Completed(s), t);
    assert Ran(t) !in Serial(Completed(s)) && Released(t) !in Serial(Completed(s));
  }

  ghost predicate Drained(s: State) {
    s.stopped && Used(s) == 0
  }

  /** With no credit in use, every accepted task has been run and released exactly once, in queue order. */
  lemma EmptyMeansComplete(s: State)
    requires Inv(s) && Used(s) == 0
    ensures s.trace == Serial(s.enqueued)
    ensures forall t :: 0 <= t < |s.calls| && s.calls[t].Enqueued? ==>
              multiset(s.trace)[Ran(t)] == 1 && multiset(s.trace)[Released(t)] == 1
    ensures forall t :: 0 <= t < |s.calls| ==> !s.calls[t].Admitted?
  {
    assert Completed(s) == s.enqueued;
    forall t | 0 <= t < |s.calls| && s.calls[t].Enqueued?
      ensures multiset(s.trace)[Ran(t)] == 1 && multiset(s.trace)[Released(t)] == 1
    {
      SerialCounts(s.enqueued, t);
    }
    forall t | 0 <= t < |s.calls| ensures !s.calls[t].Admitted? {
      SumAtLeast(s.calls, t, Credit);
    }
  }

  /** Draining is permanent: along any run from a drained state nothing is enqueued or called again. */
  lemma {:induction false} DrainedForever(s: State, run: seq<Label>)
    requires Inv(s) && Drained(s) && Legal(s, run)
    ensures var s' := Exec(s, run);
            Inv(s') && Drained(s') && s'.enqueued == s.enqueued && s'.trace == s.trace
    decreases |run|
  {
    if run != [] {
      InvAfter(s, run[0]);
      UsedAfter(s, run[0]);
      EmptyMeansComplete(s);
      DrainedForever(Apply(s, run[0]), run[1..]);
    }
  }

  /** Both histories only grow at their end. */
  lemma {:induction false} HistoryGrows(s: State, run: seq<Label>)
    requires Inv(s) && Legal(s, run)
    ensures var s' := Exec(s, run);
            Inv(s') && s.enqueued <= s'.enqueued && s.trace <= s'.trace
    decreases |run|
  {
    if run != [] {
      InvAfter(s, run[0]);
      HistoryGrows(Apply(s, run[0]), run[1..]);
    }
  }

  /**
    First in, first out across calls: when one call is already enqueued while another is not,
    the first is released before the second runs in every later history.
   */
  lemma SubmissionOrder(s: State, run: seq<Label>, a: nat, b: nat)
    requires Inv(s) && Legal(s, run)
    requires a in s.enqueued && b !in s.enqueued
    ensures var trace := Exec(s, run).trace;
            forall k :: 0 <= k < |trace| && trace[k] == Ran(b) ==> Released(a) in trace[..k]
  {
    HistoryGrows(s, run);
    var s' := Exec(s, run);
    forall k | 0 <= k < |s'.trace| && s'.trace[k] == Ran(b) ensures Released(a) in s'.trace[..k] {
      AtMostOnce(s', b);
      assert b in s'.enqueued;
      var i :| 0 <= i < |s.enqueued| && s.enqueued[i] == a;
      var j :| 0 <= j < |s'.enqueued| && s'.enqueued[j] == b;
      assert s'.enqueued[i] == a;
      TraceOrder(s', i, j, k);
    }
  }

  lemma {:induction false} SerialIndex(tasks: seq<nat>, k: nat)
    requires k < 2 * |tasks|
    ensures |Serial(tasks)| == 2 * |tasks|
    ensures Serial(tasks)[k] == (if k % 2 == 0 then Ran(tasks[k / 2]) else Released(tasks[k / 2]))
  {
    var front := tasks[..|tasks| - 1];
    if front == [] {
      assert Serial(front) == [];
    } else if k < 2 * |front| {
      SerialIndex(front, k);
    } else {
      SerialIndex(front, 0);
    }
  }

  lemma SerialLength(tasks: seq<nat>)
    ensures |Serial(tasks)| == 2 * |tasks|
  {
    if tasks != [] {
      SerialIndex(tasks, 0);
    }
  }

  /** A run of the j-th enqueued task sits behind the release of every earlier one. */
  lemma TraceOrder(s: State, i: nat, j: nat, k: nat)
    requires Inv(s) && i < j < |s.enqueued| && k < |s.trace| && s.trace[k] == Ran(s.enqueued[j])
    ensures Released(s.enqueued[i]) in s.trace[..k]
  {
    var done := Completed(s);
    SerialLength(done);
    if k < 2 * |done| {
      SerialIndex(done, k);
      assert s.enqueued[k / 2] == s.enqueued[j];
      assert k / 2 == j;
    } else {
      assert s.trace[k] == Partial(s.owner)[k - 2 * |done|];
      assert s.enqueued[|done|] == s.owner.task == s.enqueued[j];
      assert j == |done|;
    }
    SerialIndex(done, 2 * i + 1);
    assert s.trace[..k][2 * i + 1] == Released(s.enqueued[i]);
  }
}
