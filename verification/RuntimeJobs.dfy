/** The runtime job group: equal requests share one job, a bounded queue feeds a fixed number of workers,
    and finished results are cached.  Each critical section is one step. */
module JobSteps {
  import opened Sequences
  import opened RecencyOrder

  datatype Outcome<T> = Good(value: T) | Failed

  datatype Result<T> = Waiting | Done(outcome: Outcome<T>)

  /** What callers of one job wait for; its number stands for its identity. */
  datatype Call<T> = Call(key: string, result: Result<T>)

  datatype Task = Task(key: string, call: nat)

  datatype Limits = Limits(maxEntries: nat, workers: nat)

  const DEFAULT_CACHE_ENTRIES := 64
  const DEFAULT_WORKERS := 4

  function LimitsFor(maxEntries: int): (r: Limits)
    ensures 1 <= r.workers <= r.maxEntries && r.workers <= DEFAULT_WORKERS
  {
    var entries := if maxEntries < 1 then DEFAULT_CACHE_ENTRIES else maxEntries;
    Limits(entries, if DEFAULT_WORKERS > entries then entries else DEFAULT_WORKERS)
  }

  /** `produced` records every value a job has returned, under the job's key. */
  datatype State<T> = State(
    cache: seq<Entry<T>>,
    inflight: map<string, nat>,
    queue: seq<Task>,
    running: seq<Task>,
    calls: seq<Call<T>>,
    produced: seq<Entry<T>>)

  datatype Reply<T> = Cached(value: T) | Joined(call: nat) | Submitted(call: nat) | QueueFull | RunAlone | CallerGone

  function Init<T>(): State<T> {
    State([], map[], [], [], [], [])
  }

  /** Do, up to the moment the caller starts waiting. */
  function ReplyTo<T>(s: State<T>, key: string, limits: Limits): Reply<T> {
    if key == "" then RunAlone
    else if Holds(s.cache, key) then Cached(s.cache[IndexOf(s.cache, key)].value)
    else if key in s.inflight then Joined(s.inflight[key])
    else if |s.inflight| >= limits.workers + limits.maxEntries then QueueFull
    else if |s.queue| >= limits.maxEntries then QueueFull
    else Submitted(|s.calls|)
  }

  /** A new job is wanted and there may be room for it. */
  predicate ReachesQueue<T>(s: State<T>, key: string, limits: Limits) {
    key != "" && !Holds(s.cache, key) && key !in s.inflight && |s.inflight| < limits.workers + limits.maxEntries
  }

  function AfterAsk<T>(s: State<T>, key: string, limits: Limits): State<T> {
    match ReplyTo(s, key, limits)
    case Cached(_) => s.(cache := Hit(s.cache, key))
    case Submitted(call) =>
      s.(calls := s.calls + [Call(key, Waiting)],
         queue := s.queue + [Task(key, call)],
         inflight := s.inflight[key := call])
    case _ => s
  }

  /** A free worker receives the oldest queued task. */
  function AfterTake<T>(s: State<T>, limits: Limits): State<T> {
    if |s.queue| == 0 || |s.running| >= limits.workers then s
    else s.(queue := s.queue[1..], running := s.running + [s.queue[0]])
  }

  predicate StillCurrent<T>(s: State<T>, task: Task) {
    task.key in s.inflight && s.inflight[task.key] == task.call
  }

  /** finish: a completion whose call is no longer the current one for its key is ignored. */
  function Complete<T>(s: State<T>, task: Task, outcome: Outcome<T>, limits: Limits): State<T> {
    if !StillCurrent(s, task) || task.call >= |s.calls| then s
    else
      var done := s.(inflight := s.inflight - {task.key},
                     calls := s.calls[task.call := s.calls[task.call].(result := Done(outcome))]);
      match outcome
      case Failed => done
      case Good(value) =>
        done.(cache := Put(s.cache, task.key, value, limits.maxEntries),
              produced := s.produced + [Entry(task.key, value)])
  }

  /** The worker running the task at place i is done with it. */
  function AfterFinish<T>(s: State<T>, i: nat, outcome: Outcome<T>, limits: Limits): State<T> {
    if i >= |s.running| then s
    else Complete(s.(running := Without(s.running, i)), s.running[i], outcome, limits)
  }

  datatype Action<T> = Ask(key: string) | Take | Finish(place: nat, outcome: Outcome<T>)

  function Step<T>(s: State<T>, a: Action<T>, limits: Limits): State<T> {
    match a
    case Ask(key) => AfterAsk(s, key, limits)
    case Take => AfterTake(s, limits)
    case Finish(place, outcome) => AfterFinish(s, place, outcome, limits)
  }

  /** Any interleaving of callers and workers. */
  function Run<T>(actions: seq<Action<T>>, limits: Limits): State<T> {
    if |actions| == 0 then Init() else Step(Run(actions[..|actions| - 1], limits), actions[|actions| - 1], limits)
  }

  // ----- What every step keeps -----

  function Tasks<T>(s: State<T>): seq<Task> {
    s.queue + s.running
  }

  predicate DistinctKeys(tasks: seq<Task>) {
    forall i, j | 0 <= i < j < |tasks| :: tasks[i].key != tasks[j].key
  }

  /** The in-flight table is exactly the queued and running tasks, one for each key. */
  predicate InflightIsTasks<T>(s: State<T>) {
    && DistinctKeys(Tasks(s))
    && (forall t <- Tasks(s) :: StillCurrent(s, t))
    && (forall key <- s.inflight :: Task(key, s.inflight[key]) in Tasks(s))
  }

  predicate Bounded<T>(s: State<T>, limits: Limits) {
    |s.queue| <= limits.maxEntries && |s.running| <= limits.workers && |s.cache| <= limits.maxEntries
  }

  /** A call waits exactly while its task is queued or running. */
  predicate CallsMatch<T>(s: State<T>) {
    && (forall t <- Tasks(s) :: t.call < |s.calls| && s.calls[t.call].key == t.key && s.calls[t.call].result.Waiting?)
    && (forall c | 0 <= c < |s.calls| && s.calls[c].result.Waiting? :: Task(s.calls[c].key, c) in Tasks(s))
  }

  predicate CacheApart<T>(s: State<T>) {
    && NoDuplicates(s.cache)
    && forall t <- Tasks(s) :: t.key != "" && !Holds(s.cache, t.key)
  }

  /** Every value held or handed out was produced by a job of the same key. */
  ghost predicate FromTheirKey<T>(s: State<T>) {
    && (forall e <- s.cache :: e in s.produced)
    && (forall c | 0 <= c < |s.calls| && s.calls[c].result.Done? && s.calls[c].result.outcome.Good? ::
          Entry(s.calls[c].key, s.calls[c].result.outcome.value) in s.produced)
  }

  ghost predicate Inv<T>(s: State<T>, limits: Limits) {
    InflightIsTasks(s) && Bounded(s, limits) && CallsMatch(s) && CacheApart(s) && FromTheirKey(s)
  }

  function TaskKeys(tasks: seq<Task>): set<string> {
    if |tasks| == 0 then {} else TaskKeys(tasks[..|tasks| - 1]) + {tasks[|tasks| - 1].key}
  }

  lemma {:induction false} TaskKeysAre(tasks: seq<Task>, key: string)
    ensures key in TaskKeys(tasks) <==> exists t <- tasks :: t.key == key
  {
    if |tasks| > 0 {
      var front, last := tasks[..|tasks| - 1], tasks[|tasks| - 1];
      TaskKeysAre(front, key);
      assert tasks == front + [last];
      assert last in tasks;
    }
  }

  lemma {:induction false} TaskKeyCount(tasks: seq<Task>)
    requires DistinctKeys(tasks)
    ensures |TaskKeys(tasks)| == |tasks|
  {
    if |tasks| > 0 {
      var front, last := tasks[..|tasks| - 1], tasks[|tasks| - 1];
      TaskKeyCount(front);
      TaskKeysAre(front, last.key);
      forall t | t in front
        ensures t.key != last.key
      {
        var i :| 0 <= i < |front| && front[i] == t;
        assert tasks[i] == t;
      }
    }
  }

  /** So the table never outgrows the workers and the queue together. */
  lemma {:induction false} InflightCount<T>(s: State<T>, limits: Limits)
    requires InflightIsTasks(s) && Bounded(s, limits)
    ensures |s.inflight| == |s.queue| + |s.running| <= limits.workers + limits.maxEntries
  {
    forall key
      ensures key in s.inflight.Keys <==> key in TaskKeys(Tasks(s))
    {
      TaskKeysAre(Tasks(s), key);
      if key in s.inflight {
        assert Task(key, s.inflight[key]).key == key;
      }
    }
    assert s.inflight.Keys == TaskKeys(Tasks(s));
    TaskKeyCount(Tasks(s));
  }

  lemma {:induction false} AskKeeps<T>(s: State<T>, key: string, limits: Limits)
    requires Inv(s, limits)
    ensures Inv(AfterAsk(s, key, limits), limits)
  {
    hide IndexOf, MoveLast;
    var r := AfterAsk(s, key, limits);
    match ReplyTo(s, key, limits)
    case Cached(_) =>
      HitKeeps(s.cache, key);
      assert Tasks(r) == Tasks(s);
      forall t | t in Tasks(r)
        ensures !Holds(r.cache, t.key)
      {
        HitHolds(s.cache, key, t.key);
      }
    case Submitted(call) => SubmitKeeps(s, key, limits);
    case _ =>
  }

  lemma {:induction false} HitKeeps<T>(cache: seq<Entry<T>>, key: string)
    requires NoDuplicates(cache)
    ensures NoDuplicates(Hit(cache, key)) && |Hit(cache, key)| == |cache|
    ensures forall e <- Hit(cache, key) :: e in cache
  {
  }

  lemma {:induction false} HitHolds<T>(cache: seq<Entry<T>>, key: string, other: string)
    requires NoDuplicates(cache)
    ensures Holds(Hit(cache, key), other) <==> Holds(cache, other)
  {
    if Holds(cache, key) {
      var i := IndexOf(cache, key);
      assert cache[i := Entry(cache[i].key, cache[i].value)] == cache;
      MoveLastHolds(cache, i, cache[i].value, other);
    }
  }

  lemma {:induction false} SubmittedTasks<T>(s: State<T>, key: string, limits: Limits)
    requires ReplyTo(s, key, limits).Submitted? && DistinctKeys(Tasks(s))
    requires forall t <- Tasks(s) :: t.key != key
    ensures var t := Task(key, |s.calls|);
            && DistinctKeys(Tasks(AfterAsk(s, key, limits)))
            && forall u :: u in Tasks(AfterAsk(s, key, limits)) <==> u in Tasks(s) || u == t
  {
    hide IndexOf;
    var r, t := AfterAsk(s, key, limits), Task(key, |s.calls|);
    forall i, j | 0 <= i < j < |Tasks(r)|
      ensures Tasks(r)[i].key != Tasks(r)[j].key
    {
      SubmittedPlaces(s, r, t, i);
      SubmittedPlaces(s, r, t, j);
    }
  }

  lemma {:induction false} SubmitKeeps<T>(s: State<T>, key: string, limits: Limits)
    requires Inv(s, limits) && ReplyTo(s, key, limits).Submitted?
    ensures Inv(AfterAsk(s, key, limits), limits)
  {
    hide Holds, NoDuplicates, DistinctKeys, Tasks;
    SubmittedTasks(s, key, limits);
  }

  lemma {:induction false} SubmittedPlaces<T>(s: State<T>, r: State<T>, t: Task, i: nat)
    requires r.queue == s.queue + [t] && r.running == s.running && i < |Tasks(r)|
    ensures var q := |s.queue|;
            Tasks(r)[i] == if i < q then Tasks(s)[i] else if i == q then t else Tasks(s)[i - 1]
    ensures i != |s.queue| ==> Tasks(r)[i] in Tasks(s)
  {
  }

  lemma {:induction false} TakeKeeps<T>(s: State<T>, limits: Limits)
    requires Inv(s, limits)
    ensures Inv(AfterTake(s, limits), limits)
  {
    hide IndexOf, NoDuplicates;
    var r := AfterTake(s, limits);
    if r != s {
      TakenPlaces(s, limits);
    }
  }

  lemma {:induction false} TakenPlaces<T>(s: State<T>, limits: Limits)
    requires AfterTake(s, limits) != s
    ensures var r := AfterTake(s, limits);
            && |Tasks(r)| == |Tasks(s)| > 0
            && (forall i | 0 <= i < |Tasks(r)| :: Tasks(r)[i] == Tasks(s)[if i < |Tasks(s)| - 1 then i + 1 else 0])
            && (forall t :: t in Tasks(r) <==> t in Tasks(s))
            && (DistinctKeys(Tasks(s)) ==> DistinctKeys(Tasks(r)))
  {
  }

  lemma {:induction false} FinishedPlaces<T>(s: State<T>, i: nat)
    requires i < |s.running| && DistinctKeys(Tasks(s))
    ensures var rest := s.queue + Without(s.running, i);
            && |rest| == |Tasks(s)| - 1
            && (forall t :: t in rest <==> t in Tasks(s) && t.key != s.running[i].key)
            && s.running[i] in Tasks(s)
            && DistinctKeys(rest)
  {
    hide DistinctKeys;
    var place := |s.queue| + i;
    assert s.queue + Without(s.running, i) == Without(Tasks(s), place);
    assert Tasks(s)[place] == s.running[i];
    TaskTakenOut(Tasks(s), place);
  }

  lemma {:induction false} TaskTakenOut(tasks: seq<Task>, place: nat)
    requires place < |tasks| && DistinctKeys(tasks)
    ensures var rest := Without(tasks, place);
            && (forall t :: t in rest <==> t in tasks && t.key != tasks[place].key)
            && DistinctKeys(rest)
  {
    var rest := Without(tasks, place);
    assert forall j | 0 <= j < |rest| :: rest[j] == tasks[if j < place then j else j + 1];
    forall t | t in tasks && t.key != tasks[place].key
      ensures t in rest
    {
      var j :| 0 <= j < |tasks| && tasks[j] == t;
      assert rest[if j < place then j else j - 1] == t;
    }
  }

  /** The identity check of finish never turns a worker away. */
  lemma {:induction false} GuardNeverRejects<T>(s: State<T>, i: nat, limits: Limits)
    requires Inv(s, limits) && i < |s.running|
    ensures StillCurrent(s, s.running[i]) && s.running[i].call < |s.calls|
    ensures s.calls[s.running[i].call] == Call(s.running[i].key, Waiting)
  {
  }

  lemma {:induction false} PutKeeps<T>(cache: seq<Entry<T>>, key: string, value: T, limit: nat)
    requires NoDuplicates(cache) && |cache| <= limit && limit >= 1
    ensures NoDuplicates(Put(cache, key, value, limit)) && |Put(cache, key, value, limit)| <= limit
    ensures forall e <- Put(cache, key, value, limit) :: e in cache || e == Entry(key, value)
    ensures Holds(Put(cache, key, value, limit), key)
  {
    hide IndexOf;
    var i, r := IndexOf(cache, key), Put(cache, key, value, limit);
    HoldsIff(r, key);
    HoldsIff(cache, key);
    if i < |cache| {
      MoveLastKeys(cache, i, value);
    }
    assert r[|r| - 1] == Entry(key, value);
  }

  lemma {:induction false} CompletedCalls<T>(s: State<T>, i: nat, outcome: Outcome<T>, limits: Limits)
    requires Inv(s, limits) && i < |s.running|
    ensures var r, t := AfterFinish(s, i, outcome, limits), s.running[i];
            && t.call < |s.calls| && r.calls == s.calls[t.call := Call(t.key, Done(outcome))]
            && r.queue == s.queue && r.running == Without(s.running, i)
            && r.inflight == s.inflight - {t.key}
            && r.cache == (if outcome.Good? then Put(s.cache, t.key, outcome.value, limits.maxEntries) else s.cache)
            && r.produced == (if outcome.Good? then s.produced + [Entry(t.key, outcome.value)] else s.produced)
  {
  }

  lemma {:induction false} FinishKeepsTasks<T>(s: State<T>, i: nat, outcome: Outcome<T>, limits: Limits)
    requires Inv(s, limits) && i < |s.running|
    ensures InflightIsTasks(AfterFinish(s, i, outcome, limits)) && CallsMatch(AfterFinish(s, i, outcome, limits))
  {
    hide AfterFinish, Without, Put, DistinctKeys, CacheApart, FromTheirKey;
    var r, t := AfterFinish(s, i, outcome, limits), s.running[i];
    CompletedCalls(s, i, outcome, limits);
    FinishedPlaces(s, i);
    forall u | u in Tasks(r)
      ensures u.call != t.call
    {
      assert s.calls[u.call].key == u.key && s.calls[t.call].key == t.key;
    }
  }

  lemma {:induction false} PutHoldsNothingElse<T>(before: seq<Entry<T>>, after: seq<Entry<T>>, stored: string,
          key: string)
    requires key != stored && !Holds(before, key)
    requires forall e <- after :: e in before || e.key == stored
    ensures !Holds(after, key)
  {
    HoldsIff(before, key);
    HoldsIff(after, key);
    forall e | e in after
      ensures e.key != key
    {
      if e in before {
        var j :| 0 <= j < |before| && before[j] == e;
      }
    }
  }

  lemma {:induction false} FinishKeepsCache<T>(s: State<T>, i: nat, outcome: Outcome<T>, limits: Limits)
    requires Inv(s, limits) && i < |s.running| && limits.maxEntries >= 1
    ensures var r := AfterFinish(s, i, outcome, limits);
            Bounded(r, limits) && CacheApart(r) && FromTheirKey(r)
  {
    hide AfterFinish, Put, DistinctKeys, NoDuplicates, IndexOf;
    var r, t := AfterFinish(s, i, outcome, limits), s.running[i];
    CompletedCalls(s, i, outcome, limits);
    FinishedPlaces(s, i);
    if outcome.Good? {
      PutKeeps(s.cache, t.key, outcome.value, limits.maxEntries);
      forall u | u in Tasks(r)
        ensures !Holds(r.cache, u.key)
      {
        PutHoldsNothingElse(s.cache, r.cache, t.key, u.key);
      }
      assert r.produced[|s.produced|] == Entry(t.key, outcome.value);
    }
  }

  lemma {:induction false} StepKeeps<T>(s: State<T>, a: Action<T>, limits: Limits)
    requires Inv(s, limits) && limits.maxEntries >= 1
    ensures Inv(Step(s, a, limits), limits)
  {
    hide AfterAsk, AfterTake, AfterFinish, InflightIsTasks, Bounded, CallsMatch, CacheApart, FromTheirKey;
    match a
    case Ask(key) => AskKeeps(s, key, limits);
    case Take => TakeKeeps(s, limits);
    case Finish(place, outcome) =>
      if place < |s.running| {
        FinishKeepsTasks(s, place, outcome, limits);
        FinishKeepsCache(s, place, outcome, limits);
      } else {
        NoSuchWorker(s, place, outcome, limits);
      }
  }

  lemma {:induction false} NoSuchWorker<T>(s: State<T>, i: nat, outcome: Outcome<T>, limits: Limits)
    requires i >= |s.running|
    ensures AfterFinish(s, i, outcome, limits) == s
  {
  }

  /** Every reachable state, whatever the interleaving. */
  lemma {:induction false} RunKeeps<T>(actions: seq<Action<T>>, limits: Limits)
    requires limits.maxEntries >= 1
    ensures Inv(Run(actions, limits), limits)
    ensures |Run(actions, limits).inflight| <= limits.workers + limits.maxEntries
  {
    hide Step, Inv;
    if |actions| == 0 {
      InitHolds<T>(limits);
    } else {
      RunKeeps(actions[..|actions| - 1], limits);
      StepKeeps(Run(actions[..|actions| - 1], limits), actions[|actions| - 1], limits);
    }
    InflightOf(Run(actions, limits), limits);
  }

  lemma {:induction false} InflightOf<T>(s: State<T>, limits: Limits)
    requires Inv(s, limits)
    ensures |s.inflight| <= limits.workers + limits.maxEntries
  {
    InflightCount(s, limits);
  }

  lemma {:induction false} InitHolds<T>(limits: Limits)
    ensures Inv(Init<T>(), limits)
  {
  }

  // ----- What callers see -----

  /** Single flight: whoever asks for a key whose job is queued or running joins that very job. */
  lemma {:induction false} OneJobForAKey<T>(s: State<T>, limits: Limits, c: nat)
    requires Inv(s, limits) && c < |s.calls|
    ensures s.calls[c].result.Waiting? <==> ReplyTo(s, s.calls[c].key, limits) == Joined(c)
  {
  }

  /** A later state only adds calls, and never changes the outcome of one. */
  predicate Follows<T(==)>(s: State<T>, r: State<T>) {
    && |s.calls| <= |r.calls|
    && forall c | 0 <= c < |s.calls| ::
         r.calls[c].key == s.calls[c].key && (s.calls[c].result.Done? ==> r.calls[c] == s.calls[c])
  }

  lemma {:induction false} StepFollows<T>(s: State<T>, a: Action<T>, limits: Limits)
    requires Inv(s, limits)
    ensures Follows(s, Step(s, a, limits))
  {
    hide InflightIsTasks, CacheApart, FromTheirKey, Put, Hit;
    match a
    case Ask(key) =>
    case Take =>
    case Finish(place, outcome) =>
      if place < |s.running| {
        CompletedCalls(s, place, outcome, limits);
        GuardNeverRejects(s, place, limits);
      }
  }

  /** Completions are signalled once: along a run, a done call keeps its outcome. */
  lemma {:induction false} OutcomesAreFinal<T>(actions: seq<Action<T>>, more: seq<Action<T>>, limits: Limits)
    requires limits.maxEntries >= 1
    ensures Follows(Run(actions, limits), Run(actions + more, limits))
    decreases |more|
  {
    hide Step, Inv;
    if |more| == 0 {
      assert actions + more == actions;
    } else {
      var front, a := more[..|more| - 1], more[|more| - 1];
      OutcomesAreFinal(actions, front, limits);
      RunKeeps(actions + front, limits);
      StepFollows(Run(actions + front, limits), a, limits);
      assert (actions + more)[..|actions + more| - 1] == actions + front;
    }
  }

  /** What a caller gets for a key - at once or after waiting - is a value some job of that key produced. */
  lemma {:induction false} ValuesComeFromTheirKey<T>(actions: seq<Action<T>>, more: seq<Action<T>>, key: string,
          limits: Limits)
    requires limits.maxEntries >= 1
    ensures var s := Run(actions, limits);
            var later := Run(actions + [Ask(key)] + more, limits);
            match ReplyTo(s, key, limits)
            case Cached(value) => Entry(key, value) in s.produced
            case Joined(c) => c < |later.calls| && CallHasKey(later, c, key)
            case Submitted(c) => c < |later.calls| && CallHasKey(later, c, key)
            case _ => true
  {
    hide ReplyTo, Step, Inv, Run, Follows, CallHasKey;
    var s, asked := Run(actions, limits), Run(actions + [Ask(key)], limits);
    var later := Run(actions + [Ask(key)] + more, limits);
    RunKeeps(actions, limits);
    RunKeeps(actions + [Ask(key)] + more, limits);
    RunNext(actions, Ask(key), limits);
    ReplyHasKey(s, key, limits);
    OutcomesAreFinal(actions + [Ask(key)], more, limits);
    match ReplyTo(s, key, limits)
    case Joined(c) => LaterCall(asked, later, c, key, limits);
    case Submitted(c) => LaterCall(asked, later, c, key, limits);
    case _ =>
  }

  lemma {:induction false} RunNext<T>(actions: seq<Action<T>>, a: Action<T>, limits: Limits)
    ensures Run(actions + [a], limits) == Step(Run(actions, limits), a, limits)
  {
  }

  lemma {:induction false} ReplyHasKey<T>(s: State<T>, key: string, limits: Limits)
    requires Inv(s, limits)
    ensures var r := Step(s, Ask(key), limits);
            match ReplyTo(s, key, limits)
            case Cached(value) => Entry(key, value) in s.produced
            case Joined(c) => c < |r.calls| && r.calls[c].key == key
            case Submitted(c) => c < |r.calls| && r.calls[c].key == key
            case _ => true
  {
    hide IndexOf, Hit;
    match ReplyTo(s, key, limits)
    case Cached(value) => assert s.cache[IndexOf(s.cache, key)] in s.cache;
    case Joined(c) => assert Task(key, c) in Tasks(s);
    case _ =>
  }

  lemma {:induction false} LaterCall<T>(asked: State<T>, later: State<T>, c: nat, key: string, limits: Limits)
    requires c < |asked.calls| && asked.calls[c].key == key && Follows(asked, later) && Inv(later, limits)
    ensures c < |later.calls| && CallHasKey(later, c, key)
  {
  }

  ghost predicate CallHasKey<T>(s: State<T>, c: nat, key: string)
    requires c < |s.calls|
  {
    && s.calls[c].key == key
    && (s.calls[c].result.Done? && s.calls[c].result.outcome.Good?
        ==> Entry(key, s.calls[c].result.outcome.value) in s.produced)
  }
}

/** The job group object: its methods are the steps, on a cache made of list nodes. */
module RuntimeJobs {
  import opened Sequences
  import opened RecencyOrder
  import opened LruList
  import opened JobSteps

  class JobGroup<T(0)> {
    const limits: Limits
    const cache: ResultCache<T>
    var inflight: map<string, nat>
    var queue: seq<Task>
    var running: seq<Task>
    var calls: seq<Call<T>>
    ghost var produced: seq<Entry<T>>

    ghost predicate Valid()
      reads this, cache, cache.order, cache.order.ring
    {
      cache.Valid() && cache.maxEntries == limits.maxEntries && Inv(Abstract(), limits)
    }

    ghost function Abstract(): State<T>
      reads this, cache
    {
      State(cache.contents, inflight, queue, running, calls, produced)
    }

    constructor (maxEntries: int)
      ensures Valid() && Abstract() == Init<T>() && limits == LimitsFor(maxEntries)
      ensures fresh(cache) && fresh(cache.order) && fresh(cache.order.ring)
    {
      limits := LimitsFor(maxEntries);
      cache := new ResultCache<T>(LimitsFor(maxEntries).maxEntries);
      inflight, queue, running, calls, produced := map[], [], [], [], [];
      new;
      InitHolds<T>(limits);
    }

    /** Do up to the wait; a caller that is already cancelled does not reach the table.  `goneAtFirst` and
        `goneInside` are what the two looks at the caller's context find. */
    method Do(key: string, goneAtFirst: bool, goneInside: bool) returns (reply: Reply<T>)
      requires Valid()
      modifies this, cache`contents, cache.order`ring, cache.order.ring
      ensures Valid()
      ensures if goneAtFirst || (goneInside && ReachesQueue(old(Abstract()), key, limits))
              then reply == CallerGone && Abstract() == old(Abstract())
              else
                reply == ReplyTo(old(Abstract()), key, limits)
                && Abstract() == AfterAsk(old(Abstract()), key, limits)
    {
      hide Inv, IndexOf, MoveLast, ResultCache.Valid;
      ghost var before := Abstract();
      if goneAtFirst {
        return CallerGone;
      }
      AskKeeps(before, key, limits);
      if key == "" {
        return RunAlone;
      }
      var hit := cache.Get(key);
      match hit
      case Some(value) => return Cached(value);
      case None =>
        if key in inflight {
          return Joined(inflight[key]);
        }
        if |inflight| >= limits.workers + limits.maxEntries {
          return QueueFull;
        }
        if goneInside {
          return CallerGone;
        }
        if |queue| >= limits.maxEntries {
          return QueueFull;
        }
        var call := |calls|;
        calls := calls + [Call(key, Waiting)];
        queue := queue + [Task(key, call)];
        inflight := inflight[key := call];
        return Submitted(call);
    }

    /** A worker of the pool receives its next task. */
    method TakeNext()
      requires Valid()
      modifies this`queue, this`running
      ensures Valid() && Abstract() == AfterTake(old(Abstract()), limits)
    {
      hide Inv, ResultCache.Valid;
      ghost var before := Abstract();
      TakeKeeps(before, limits);
      if |queue| > 0 && |running| < limits.workers {
        var task := queue[0];
        queue := queue[1..];
        running := running + [task];
      }
    }

    method FinishTask(i: nat, outcome: Outcome<T>)
      requires Valid() && i < |running|
      modifies this, cache`contents, cache`entries, cache.order`ring, cache.order.ring
      ensures Valid() && Abstract() == AfterFinish(old(Abstract()), i, outcome, limits)
      ensures calls[old(running[i].call)] == Call(old(running[i].key), Done(outcome))
    {
      hide Inv, ResultCache.Valid, Put;
      ghost var before := Abstract();
      MaxAtLeastOne();
      StepKeeps(before, Finish(i, outcome), limits);
      CompletedCalls(before, i, outcome, limits);
      GuardNeverRejects(before, i, limits);
      var task := running[i];
      running := Without(running, i);
      if task.key !in inflight || inflight[task.key] != task.call {
        return;
      }
      inflight := inflight - {task.key};
      if outcome.Good? {
        cache.Store(task.key, outcome.value);
        produced := produced + [Entry(task.key, outcome.value)];
      }
      calls := calls[task.call := Call(task.key, Done(outcome))];
    }

    lemma {:induction false} MaxAtLeastOne()
      requires Valid()
      ensures limits.maxEntries >= 1
    {
    }
  }
}
