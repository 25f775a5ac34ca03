/** One worker over a priority queue of calls, stopped by a sentinel.  Submitting and shutting down hold the
    executor's lock; taking from the queue does not, so the worker goes on while a shutdown drains it. */
module ExecutorSteps {
  import opened Sequences

  const SENTINEL := 0x7fff_ffff

  datatype Entry = Work(priority: int, order: nat, future: nat) | Stop(order: nat)

  function PriorityOf(e: Entry): int {
    if e.Stop? then SENTINEL else e.priority
  }

  /** The order of the queue: priority first, then the sequence number. */
  predicate Precedes(e: Entry, f: Entry) {
    PriorityOf(e) < PriorityOf(f) || (PriorityOf(e) == PriorityOf(f) && e.order < f.order)
  }

  datatype Status = Pending | Running | Finished | CancelledByCaller | CancelledByShutdown

  datatype Phase = Open | Draining | Closing | Closed

  datatype Worker = Idle | Busy(future: nat) | Stopped

  /** `taken` are the entries removed from the queue so far, in order. */
  datatype State = State(queue: seq<Entry>, next: nat, futures: seq<Status>, taken: seq<Entry>, phase: Phase,
          cancels: bool, worker: Worker)

  datatype Action =
    | Submit(priority: int)
    | BeginShutdown(cancel: bool)
    | DrainOne
    | PutSentinel
    | Take
    | FinishCall
    | CancelCall(future: nat)

  function Init(): State {
    State([], 0, [], [], Open, false, Idle)
  }

  /** The place of the entry that precedes all others. */
  function First(queue: seq<Entry>): (i: nat)
    requires |queue| > 0
    ensures i < |queue|
  {
    if |queue| == 1 then 0
    else
      var i := First(queue[..|queue| - 1]);
      if Precedes(queue[|queue| - 1], queue[i]) then |queue| - 1 else i
  }

  function Removed(s: State): State
    requires |s.queue| > 0
  {
    s.(queue := Without(s.queue, First(s.queue)), taken := s.taken + [s.queue[First(s.queue)]])
  }

  predicate Known(s: State, f: nat) {
    f < |s.futures|
  }

  function Step(s: State, a: Action): State {
    match a
    case Submit(priority) =>
      if s.phase != Open then s
      else s.(queue := s.queue + [Work(priority, s.next, |s.futures|)], next := s.next + 1,
              futures := s.futures + [Pending])
    case BeginShutdown(cancel) =>
      if s.phase != Open then s else s.(phase := if cancel then Draining else Closing, cancels := cancel)
    case DrainOne =>
      if s.phase != Draining then s
      else if |s.queue| == 0 then s.(phase := Closing)
      else
        var e, r := s.queue[First(s.queue)], Removed(s);
        if e.Work? && Known(s, e.future) && s.futures[e.future] == Pending
        then r.(futures := s.futures[e.future := CancelledByShutdown]) else r
    case PutSentinel =>
      if s.phase != Closing then s else s.(queue := s.queue + [Stop(s.next)], next := s.next + 1, phase := Closed)
    case Take =>
      if s.worker != Idle || |s.queue| == 0 then s
      else
        var e, r := s.queue[First(s.queue)], Removed(s);
        if e.Stop? then r.(worker := Stopped)
        else if !Known(s, e.future) || s.futures[e.future] != Pending then r
        else r.(worker := Busy(e.future), futures := s.futures[e.future := Running])
    case FinishCall =>
      if !s.worker.Busy? || !Known(s, s.worker.future) then s
      else s.(worker := Idle, futures := s.futures[s.worker.future := Finished])
    case CancelCall(f) =>
      if Known(s, f) && s.futures[f] == Pending then s.(futures := s.futures[f := CancelledByCaller]) else s
  }

  function Run(actions: seq<Action>): State {
    if |actions| == 0 then Init() else Step(Run(actions[..|actions| - 1]), actions[|actions| - 1])
  }

  // ----- What every step keeps -----

  lemma {:induction false} FirstPrecedes(queue: seq<Entry>)
    requires |queue| > 0 && DistinctOrders(queue)
    ensures forall j | 0 <= j < |queue| && j != First(queue) :: Precedes(queue[First(queue)], queue[j])
  {
    if |queue| > 1 {
      var front := queue[..|queue| - 1];
      FirstPrecedes(front);
      assert forall j | 0 <= j < |front| :: front[j] == queue[j];
    }
  }

  predicate DistinctOrders(s: seq<Entry>) {
    forall i, j | 0 <= i < j < |s| :: s[i].order < s[j].order
  }

  predicate Before(t: Entry, q: Entry) {
    PriorityOf(t) == PriorityOf(q) ==> t.order < q.order
  }

  /** The queue is in submission order; what was taken came first among its equals. */
  predicate QueueForm(s: State) {
    && DistinctOrders(s.queue)
    && (forall e <- s.queue :: e.order < s.next)
    && (forall t <- s.taken :: t.order < s.next)
    && (forall t, q | t in s.taken && q in s.queue :: Before(t, q))
    && (forall i, j | 0 <= i < j < |s.taken| :: Before(s.taken[i], s.taken[j]))
  }

  predicate Settled(status: Status) {
    status == Finished || status == CancelledByCaller || status == CancelledByShutdown
  }

  predicate FutureAt(s: State, f: nat)
    requires f < |s.futures|
  {
    && (s.futures[f] == Pending ==> exists e <- s.queue :: e.Work? && e.future == f)
    && (s.futures[f] == Running <==> s.worker == Busy(f))
    && (s.futures[f] == CancelledByShutdown ==> s.cancels)
  }

  predicate FuturesForm(s: State) {
    && (forall f | 0 <= f < |s.futures| :: FutureAt(s, f))
    && (s.worker.Busy? ==> s.worker.future < |s.futures|)
    && (forall e <- s.queue :: e.Work? ==> e.future < |s.futures| && Waits(s.futures[e.future]))
    && (forall e, g | e in s.queue && g in s.queue && e.Work? && g.Work? && e.future == g.future :: e == g)
  }

  /** A queued call has not begun; its caller may have cancelled it. */
  predicate Waits(status: Status) {
    status == Pending || status == CancelledByCaller
  }

  /** The sentinel is put once, last, and once it is out only entries behind it can be left. */
  predicate StopForm(s: State) {
    && (s.cancels ==> s.phase != Open) && (s.phase == Draining ==> s.cancels)
    && (forall e <- s.queue :: e.Stop? ==> s.phase == Closed && e.order + 1 == s.next)
    && (s.phase == Closed && s.worker != Stopped ==> exists e <- s.queue :: e.Stop?)
    && (s.worker == Stopped ==> s.phase == Closed && forall e <- s.queue :: e.Work? && e.priority > SENTINEL)
  }

  predicate Inv(s: State) {
    QueueForm(s) && FuturesForm(s) && StopForm(s)
  }

  lemma {:induction false} WithoutAt(q: seq<Entry>, i: nat)
    requires i < |q| && DistinctOrders(q)
    ensures DistinctOrders(Without(q, i))
    ensures forall x :: x in Without(q, i) <==> x in q && x != q[i]
  {
    var r := Without(q, i);
    assert forall j | 0 <= j < |r| :: r[j] == q[if j < i then j else j + 1];
    forall x | x in q && x != q[i]
      ensures x in r
    {
      var j :| 0 <= j < |q| && q[j] == x;
      assert r[if j < i then j else j - 1] == x;
    }
    forall x | x in r
      ensures x in q && x != q[i]
    {
      var j :| 0 <= j < |r| && r[j] == x;
      assert q[if j < i then j else j + 1] == x;
    }
  }

  lemma {:induction false} WithoutMembers(s: State)
    requires |s.queue| > 0 && DistinctOrders(s.queue)
    ensures var e, r := s.queue[First(s.queue)], Removed(s);
            && e in s.queue
            && (forall q :: q in r.queue <==> q in s.queue && q != e)
            && (forall t :: t in r.taken <==> t in s.taken || t == e)
            && DistinctOrders(r.queue)
            && (forall q <- r.queue :: Precedes(e, q))
  {
    hide First, Without, Precedes, DistinctOrders;
    FirstPrecedes(s.queue);
    WithoutAt(s.queue, First(s.queue));
    forall q | q in Removed(s).queue
      ensures Precedes(s.queue[First(s.queue)], q)
    {
      var j :| 0 <= j < |s.queue| && s.queue[j] == q;
    }
  }

  lemma {:induction false} RemovedKeepsQueue(s: State)
    requires |s.queue| > 0 && QueueForm(s)
    ensures QueueForm(Removed(s))
  {
    hide First, Without;
    WithoutMembers(s);
    var r := Removed(s);
    forall i, j | 0 <= i < j < |r.taken|
      ensures Before(r.taken[i], r.taken[j])
    {
      if j == |s.taken| {
        assert s.taken[i] in s.taken;
      }
    }
  }

  lemma {:induction false} SubmitKeeps(s: State, priority: int)
    requires Inv(s)
    ensures Inv(Step(s, Submit(priority)))
  {
    var r := Step(s, Submit(priority));
    if r != s {
      var added := r.queue[|s.queue|];
      assert forall e :: e in r.queue <==> e in s.queue || e == added;
      forall i | 0 <= i < |s.queue|
        ensures s.queue[i].order < added.order
      {
        assert s.queue[i] in s.queue;
      }
      forall f | 0 <= f < |r.futures|
        ensures FutureAt(r, f)
      {
        if f < |s.futures| {
          assert FutureAt(s, f);
        }
      }
    }
  }

  lemma {:induction false} PutSentinelKeeps(s: State)
    requires Inv(s)
    ensures Inv(Step(s, PutSentinel))
  {
    var r := Step(s, PutSentinel);
    if r != s {
      var added := r.queue[|s.queue|];
      assert forall e :: e in r.queue <==> e in s.queue || e == added;
      forall i | 0 <= i < |s.queue|
        ensures s.queue[i].order < added.order
      {
        assert s.queue[i] in s.queue;
      }
      forall f | 0 <= f < |r.futures|
        ensures FutureAt(r, f)
      {
        assert FutureAt(s, f);
      }
    }
  }

  lemma {:induction false} DrainKeeps(s: State)
    requires Inv(s)
    ensures Inv(Step(s, DrainOne))
  {
    hide First, Without;
    var r := Step(s, DrainOne);
    if s.phase == Draining && |s.queue| > 0 {
      WithoutMembers(s);
      RemovedKeepsQueue(s);
      forall f | 0 <= f < |r.futures|
        ensures FutureAt(r, f)
      {
        assert FutureAt(s, f);
      }
    } else {
      forall f | 0 <= f < |r.futures|
        ensures FutureAt(r, f)
      {
        assert FutureAt(s, f);
      }
    }
  }

  lemma {:induction false} TakeKeeps(s: State)
    requires Inv(s)
    ensures Inv(Step(s, Take))
  {
    hide First, Without;
    var r := Step(s, Take);
    if s.worker == Idle && |s.queue| > 0 {
      WithoutMembers(s);
      RemovedKeepsQueue(s);
      forall f | 0 <= f < |r.futures|
        ensures FutureAt(r, f)
      {
        assert FutureAt(s, f);
      }
      BehindSentinel(s);
    }
  }

  /** The sentinel is the last of its priority, so nothing at or before it is left when it comes out. */
  lemma {:induction false} BehindSentinel(s: State)
    requires Inv(s) && |s.queue| > 0
    ensures s.queue[First(s.queue)].Stop? ==> forall q <- Removed(s).queue :: q.Work? && q.priority > SENTINEL
  {
    WithoutMembers(s);
  }

  lemma {:induction false} OthersKeep(s: State, a: Action)
    requires Inv(s) && (a.BeginShutdown? || a.FinishCall? || a.CancelCall?)
    ensures Inv(Step(s, a))
  {
    var r := Step(s, a);
    assert r.queue == s.queue && r.taken == s.taken && r.next == s.next;
    if s.worker.Busy? {
      assert FutureAt(s, s.worker.future);
    }
    forall f | 0 <= f < |r.futures|
      ensures FutureAt(r, f)
    {
      assert FutureAt(s, f);
    }
  }

  lemma {:induction false} StepKeeps(s: State, a: Action)
    requires Inv(s)
    ensures Inv(Step(s, a))
  {
    hide Inv, Step;
    match a
    case Submit(priority) => SubmitKeeps(s, priority);
    case DrainOne => DrainKeeps(s);
    case PutSentinel => PutSentinelKeeps(s);
    case Take => TakeKeeps(s);
    case _ => OthersKeep(s, a);
  }

  lemma {:induction false} RunKeeps(actions: seq<Action>)
    ensures Inv(Run(actions))
  {
    hide Step, Inv;
    if |actions| == 0 {
      InitHolds();
    } else {
      RunKeeps(actions[..|actions| - 1]);
      StepKeeps(Run(actions[..|actions| - 1]), actions[|actions| - 1]);
    }
  }

  lemma {:induction false} InitHolds()
    ensures Inv(Init())
  {
  }

  // ----- Over whole runs -----

  /** What the worker takes precedes everything else queued. */
  lemma {:induction false} TakenPrecedes(actions: seq<Action>)
    requires var s := Run(actions); s.worker == Idle && |s.queue| > 0
    ensures var s, r := Run(actions), Step(Run(actions), Take);
            && r.taken == s.taken + [s.queue[First(s.queue)]]
            && forall q <- r.queue :: Precedes(s.queue[First(s.queue)], q)
  {
    RunKeeps(actions);
    WithoutMembers(Run(actions));
  }

  /** Calls of one priority leave the queue in the order they were submitted. */
  lemma {:induction false} EqualsAreFirstInFirstOut(actions: seq<Action>, i: nat, j: nat)
    requires i < j < |Run(actions).taken|
    ensures var t, u := Run(actions).taken[i], Run(actions).taken[j];
            PriorityOf(t) == PriorityOf(u) ==> t.order < u.order
  {
    RunKeeps(actions);
    assert Before(Run(actions).taken[i], Run(actions).taken[j]);
  }

  /** While a closed executor has not stopped, its sentinel is queued: the worker always has something to take. */
  lemma {:induction false} WorkerReachesTheSentinel(actions: seq<Action>)
    requires Run(actions).phase == Closed && Run(actions).worker != Stopped
    ensures exists e <- Run(actions).queue :: e.Stop? && forall q <- Run(actions).queue :: q.order <= e.order
  {
    RunKeeps(actions);
    var s := Run(actions);
    var e :| e in s.queue && e.Stop?;
    assert forall q <- s.queue :: q.order <= e.order;
  }

  predicate SubmitsWithin(actions: seq<Action>) {
    forall a <- actions :: a.Submit? ==> a.priority <= SENTINEL
  }

  predicate Within(queue: seq<Entry>) {
    forall e <- queue :: PriorityOf(e) <= SENTINEL
  }

  lemma {:induction false} StepWithin(s: State, a: Action)
    requires Inv(s) && Within(s.queue) && (a.Submit? ==> a.priority <= SENTINEL)
    ensures Within(Step(s, a).queue)
  {
    hide First, Without, FuturesForm, StopForm;
    if |s.queue| > 0 {
      WithoutMembers(s);
    }
  }

  lemma {:induction false} QueueWithin(actions: seq<Action>)
    requires SubmitsWithin(actions)
    ensures Within(Run(actions).queue)
  {
    hide Step, Inv;
    if |actions| > 0 {
      var front, a := actions[..|actions| - 1], actions[|actions| - 1];
      assert a in actions;
      forall b | b in front
        ensures b in actions
      {
        assert actions == front + [a];
      }
      QueueWithin(front);
      RunKeeps(front);
      StepWithin(Run(front), a);
    }
  }

  /** When the worker has stopped, the calls not settled are exactly those queued behind the sentinel, less the
      ones that their own callers cancelled. */
  lemma {:induction false} UnsettledAreBehindSentinel(actions: seq<Action>, f: nat)
    requires Run(actions).worker == Stopped && f < |Run(actions).futures|
    ensures !Settled(Run(actions).futures[f]) <==>
              && Run(actions).futures[f] != CancelledByCaller
              && exists e <- Run(actions).queue :: e.Work? && e.future == f && e.priority > SENTINEL
  {
    RunKeeps(actions);
    assert FutureAt(Run(actions), f);
  }

  lemma {:induction false} SomeEntryWithin(queue: seq<Entry>)
    requires forall e <- queue :: PriorityOf(e) <= SENTINEL
    ensures queue == [] || exists e <- queue :: PriorityOf(e) <= SENTINEL
  {
    if |queue| > 0 {
      assert queue[0] in queue;
    }
  }

  /** With priorities up to the sentinel's, a stopped worker leaves an empty queue and every call settled; without
      cancellation every call has run, unless its own caller cancelled it. */
  lemma {:induction false} ShutdownSettlesAll(actions: seq<Action>)
    requires SubmitsWithin(actions) && Run(actions).worker == Stopped
    ensures Run(actions).queue == []
    ensures forall status <- Run(actions).futures :: Settled(status)
    ensures !Run(actions).cancels ==> forall status <- Run(actions).futures ::
            status == Finished || status == CancelledByCaller
  {
    var s := Run(actions);
    RunKeeps(actions);
    QueueWithin(actions);
    SomeEntryWithin(s.queue);
    forall status | status in s.futures
      ensures Settled(status) && (!s.cancels ==> status == Finished || status == CancelledByCaller)
    {
      var f :| 0 <= f < |s.futures| && s.futures[f] == status;
      assert FutureAt(s, f);
    }
  }

  lemma {:induction false} StepSettles(s: State, a: Action, f: nat)
    requires Inv(s) && f < |s.futures| && Settled(s.futures[f])
    ensures f < |Step(s, a).futures| && Step(s, a).futures[f] == s.futures[f]
  {
    hide First, Without, QueueForm, StopForm;
    assert FutureAt(s, f);
  }

  /** A settled call stays as it is: it is resolved or cancelled once. */
  lemma {:induction false} SettledStays(actions: seq<Action>, more: seq<Action>, f: nat)
    requires f < |Run(actions).futures| && Settled(Run(actions).futures[f])
    ensures f < |Run(actions + more).futures| && Run(actions + more).futures[f] == Run(actions).futures[f]
    decreases |more|
  {
    hide Step, Inv, Settled;
    if |more| == 0 {
      assert actions + more == actions;
    } else {
      var front := more[..|more| - 1];
      SettledStays(actions, front, f);
      RunKeeps(actions + front);
      StepSettles(Run(actions + front), more[|more| - 1], f);
      assert (actions + more)[..|actions + more| - 1] == actions + front;
    }
  }

  /** A priority above the sentinel's is the one way to be forgotten: such a call outlives its worker. */
  lemma {:induction false} PriorityAboveSentinelIsForgotten(p: int)
    requires p > SENTINEL
    ensures var s := Run([Submit(p), BeginShutdown(false), PutSentinel, Take]);
            s.worker == Stopped && s.futures == [Pending]
  {
    var a0, a1, a2, a3 := Submit(p), BeginShutdown(false), PutSentinel, Take;
    assert [a0, a1, a2, a3][..3] == [a0, a1, a2] && [a0, a1, a2][..2] == [a0, a1] && [a0, a1][..1] == [a0]
           && [a0][..0] == [];
    assert Run([a0]) == State([Work(p, 0, 0)], 1, [Pending], [], Open, false, Idle);
    assert Run([a0, a1, a2]).queue == [Work(p, 0, 0), Stop(1)];
    assert [Work(p, 0, 0), Stop(1)][..1] == [Work(p, 0, 0)];
    assert First([Work(p, 0, 0), Stop(1)]) == 1;
  }
}

/** The executor object; the worker thread's loop is its TakeCall and FinishCall, one call after another. */
module PriorityExecutor {
  import opened Sequences
  import opened ExecutorSteps

  class Executor {
    var queue: seq<Entry>
    var sequence: nat
    var futures: seq<Status>
    var phase: Phase
    var cancels: bool
    var worker: Worker
    ghost var taken: seq<Entry>

    ghost function Abstract(): State
      reads this
    {
      State(queue, sequence, futures, taken, phase, cancels, worker)
    }

    constructor ()
      ensures Abstract() == Init() && Inv(Abstract())
    {
      queue, sequence, futures, phase, cancels, worker, taken := [], 0, [], Open, false, Idle, [];
      new;
      InitHolds();
    }

    /** None when the executor is shut down. */
    method SubmitCall(priority: int) returns (accepted: bool, future: nat)
      requires Inv(Abstract())
      modifies this
      ensures Inv(Abstract()) && Abstract() == Step(old(Abstract()), Submit(priority))
      ensures accepted == (old(phase) == Open)
      ensures accepted ==> future == |old(futures)| && futures == old(futures) + [Pending]
    {
      hide Inv;
      StepKeeps(Abstract(), Submit(priority));
      if phase != Open {
        return false, 0;
      }
      future := |futures|;
      futures := futures + [Pending];
      queue := queue + [Work(priority, sequence, future)];
      sequence := sequence + 1;
      return true, future;
    }

    /** PriorityQueue.get on a queue that is not empty. */
    method Get() returns (e: Entry)
      requires |queue| > 0
      modifies this`queue, this`taken
      ensures e == old(queue)[First(old(queue))]
      ensures Abstract() == Removed(old(Abstract()))
    {
      var best := 0;
      assert queue[..1] == [queue[0]];
      for i := 1 to |queue|
        invariant best < i && best == First(queue[..i])
        invariant Abstract() == old(Abstract())
      {
        assert queue[..i + 1][..i] == queue[..i];
        if Precedes(queue[i], queue[best]) {
          best := i;
        }
      }
      assert queue[..|queue|] == queue;
      e := queue[best];
      taken := taken + [e];
      queue := Without(queue, best);
    }

    method TakeCall() returns (running: bool)
      requires Inv(Abstract()) && worker == Idle && |queue| > 0
      modifies this
      ensures Inv(Abstract()) && Abstract() == Step(old(Abstract()), Take)
      ensures running == worker.Busy?
    {
      hide Inv, First;
      StepKeeps(Abstract(), Take);
      var e := Get();
      match e
      case Stop(_) =>
        worker := Stopped;
        return false;
      case Work(_, _, future) =>
        if future >= |futures| || futures[future] != Pending {
          return false;
        }
        futures := futures[future := Running];
        worker := Busy(future);
        return true;
    }

    method FinishRunning()
      requires Inv(Abstract()) && worker.Busy?
      modifies this
      ensures Inv(Abstract()) && Abstract() == Step(old(Abstract()), FinishCall)
      ensures worker == Idle
    {
      StepKeeps(Abstract(), FinishCall);
      futures := futures[worker.future := Finished];
      worker := Idle;
    }

    /** shutdown while the worker does not interleave: at the end the sentinel is queued, and after a
        cancelling shutdown nothing else is. */
    method Shutdown(cancelFutures: bool)
      requires Inv(Abstract())
      modifies this
      ensures Inv(Abstract()) && worker == old(worker)
      ensures old(phase) != Open ==> Abstract() == old(Abstract())
      ensures old(phase) == Open ==> phase == Closed && sequence == old(sequence) + 1
      ensures old(phase) == Open && !cancelFutures
              ==> queue == old(queue) + [Stop(old(sequence))] && futures == old(futures)
      ensures old(phase) == Open && cancelFutures
              ==> queue == [Stop(old(sequence))] && forall status <- futures :: status != Pending
    {
      hide FuturesForm, QueueForm, StopForm, First;
      if phase != Open {
        return;
      }
      StepKeeps(Abstract(), BeginShutdown(cancelFutures));
      phase, cancels := if cancelFutures then Draining else Closing, cancelFutures;
      if cancelFutures {
        while |queue| > 0
          invariant Inv(Abstract()) && phase == Draining && worker == old(worker) && sequence == old(sequence)
          decreases |queue|
        {
          StepKeeps(Abstract(), DrainOne);
          var e := Get();
          if e.Work? && e.future < |futures| && futures[e.future] == Pending {
            futures := futures[e.future := CancelledByShutdown];
          }
        }
        StepKeeps(Abstract(), DrainOne);
        phase := Closing;
      }
      StepKeeps(Abstract(), PutSentinel);
      queue := queue + [Stop(sequence)];
      sequence := sequence + 1;
      phase := Closed;
      if cancelFutures {
        NothingPending(Abstract());
      }
    }
  }

  lemma {:induction false} NothingPending(s: State)
    requires Inv(s) && forall e <- s.queue :: e.Stop?
    ensures forall status <- s.futures :: status != Pending
  {
    forall status | status in s.futures
      ensures status != Pending
    {
      var f :| 0 <= f < |s.futures| && s.futures[f] == status;
      assert FutureAt(s, f);
    }
  }
}
