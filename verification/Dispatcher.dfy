/** The packet dispatcher of src/net/worker_pool.cpp as a protocol of atomic steps: one step for
    each critical section of the packet queue and the worker pool, and one for each point at
    which `stop()` waits for a thread. Steps of producers, dispatcher, workers and the stopping
    thread interleave in any order.

    Main results: in every interleaving no job is lost or made up and jobs are submitted in the
    order they were accepted; a `stop()` that began after the last enqueue returns only when every
    accepted job that was not evicted has been handled once, if and only if there is a handler and
    at least one worker; and jobs are handled in the order they were accepted, if and only if there
    is no handler or at most one worker. */
module Dispatcher {
  import opened Common
  import opened Framing

  datatype Job = Job(connection: nat, frame: Frame, receivedAt: Time)

  // ----- The packet queue -----

  datatype OverflowPolicy = Block | DropNewest | DropOldest
  datatype Config = Config(capacity: nat, policy: OverflowPolicy)

  datatype QueueState = QueueState(config: Config, queue: seq<Job>, stopped: bool, dropped: nat)

  predicate Full(q: QueueState) {
    q.config.capacity > 0 && |q.queue| >= q.config.capacity
  }

  /** The condition a blocking push waits for. */
  predicate CanPush(q: QueueState) {
    q.config.policy == Block ==> q.stopped || !Full(q)
  }

  function Push(q: QueueState, job: Job): (QueueState, bool)
    requires CanPush(q)
  {
    if q.config.capacity == 0 then (q.(queue := q.queue + [job]), true)
    else
      match q.config.policy
      case Block => if q.stopped then (q, false) else (q.(queue := q.queue + [job]), true)
      case DropNewest =>
        if Full(q) then (q.(dropped := q.dropped + 1), false) else (q.(queue := q.queue + [job]), true)
      case DropOldest =>
        if Full(q) then (q.(queue := q.queue[1..] + [job], dropped := q.dropped + 1), true)
        else (q.(queue := q.queue + [job]), true)
  }

  /** A push waits only under Block, for a queue that has reached a capacity and is not stopped. */
  lemma WaitsExactly(q: QueueState)
    ensures CanPush(q) <==> !(q.config.policy == Block && !q.stopped && 0 < q.config.capacity <= |q.queue|)
  {
  }

  /** While there is room every push that is not stopped goes to the end and drops nothing. With the
      capacity reached, DropNewest refuses the job and DropOldest takes it for the head, and each
      counts one drop. A stop refuses pushes only under Block with a capacity. */
  lemma PushesExactly(q: QueueState, job: Job)
    requires CanPush(q)
    ensures
      var (next, ok) := Push(q, job);
      var (capacity, policy) := (q.config.capacity, q.config.policy);
      var room := capacity == 0 || |q.queue| < capacity;
      && (ok <==> if policy == Block then capacity == 0 || !q.stopped else room || policy == DropOldest)
      && (!ok ==> next.queue == q.queue)
      && (ok && room ==> next.queue == q.queue + [job])
      && (ok && !room && policy == DropOldest ==> [q.queue[0]] + next.queue == q.queue + [job])
      && next.dropped == q.dropped + (if room || policy == Block then 0 else 1)
      && next == q.(queue := next.queue, dropped := next.dropped)
  {
    WaitsExactly(q);
  }

  /** The condition a pop waits for. */
  predicate CanPop(q: QueueState) {
    q.stopped || q.queue != []
  }

  function Pop(q: QueueState): (QueueState, Option<Job>)
    requires CanPop(q)
  {
    if q.queue == [] then (q, None) else (q.(queue := q.queue[1..]), Some(q.queue[0]))
  }

  /** A pop waits for a job or the stop; it takes the head, or nothing once stopped and empty. */
  lemma PopsExactly(q: QueueState)
    ensures CanPop(q) <==> q.stopped || |q.queue| > 0
    ensures CanPop(q) ==>
      var (next, job) := Pop(q);
      && (job == None <==> |q.queue| == 0) && (job == None ==> next == q)
      && (job.Some? ==> q.queue == [job.value] + next.queue && next == q.(queue := next.queue))
  {
  }

  // ----- The whole system -----

  datatype DispatcherThread = Waiting | Holding(job: Job) | Exited
  datatype WorkerThread = Idle | Busy(job: Job) | Ended

  /** How far `stop()` has come: not called, queue stopped, dispatcher joined, pool told to stop,
      workers joined and returned. */
  datatype Stopping = Serving | QueueStopped | DispatcherJoined | PoolStopped | Returned

  /** How a job left the packet queue. */
  datatype Exit = Evicted(job: Job) | Popped(job: Job)

  datatype System = System(
    q: QueueState,
    handler: bool,
    dispatcher: DispatcherThread,
    pool: seq<Job>,
    stopRequested: bool,
    workers: seq<WorkerThread>,
    stopping: Stopping,
    // what has happened so far; `refusedFull` counts the jobs refused under DropNewest for a full queue
    accepted: seq<Job>,
    exits: seq<Exit>,
    submitted: seq<Job>,
    skipped: seq<Job>,
    taken: seq<Job>,
    handled: seq<Job>,
    refusedFull: nat,
    late: bool)

  function Start(config: Config, handler: bool, workers: nat): System {
    System(QueueState(config, [], false, 0), handler, Waiting, [], false, seq(workers, _ => Idle), Serving,
           [], [], [], [], [], [], 0, false)
  }

  datatype Event =
    | Enqueue(job: Job)
    | DispatcherPop
    | DispatcherSubmit
    | WorkerTake(i: nat)
    | WorkerFinish(i: nat)
    | StopQueue
    | JoinDispatcher
    | StopPool
    | JoinWorkers

  predicate Enabled(s: System, e: Event) {
    match e
    case Enqueue(_) => CanPush(s.q)
    case DispatcherPop => s.dispatcher == Waiting && CanPop(s.q)
    case DispatcherSubmit => s.dispatcher.Holding?
    case WorkerTake(i) => i < |s.workers| && s.workers[i] == Idle && (s.stopRequested || s.pool != [])
    case WorkerFinish(i) => i < |s.workers| && s.workers[i].Busy?
    case StopQueue => s.stopping == Serving
    case JoinDispatcher => s.stopping == QueueStopped && s.dispatcher == Exited
    case StopPool => s.stopping == DispatcherJoined
    case JoinWorkers => s.stopping == PoolStopped && forall i :: 0 <= i < |s.workers| ==> s.workers[i] == Ended
  }

  function Next(s: System, e: Event): System
    requires Enabled(s, e)
  {
    match e
    case Enqueue(job) =>
      var (q, ok) := Push(s.q, job);
      var evicted := if ok && |q.queue| == |s.q.queue| && s.q.queue != [] then [Evicted(s.q.queue[0])] else [];
      s.(q := q,
         accepted := if ok then s.accepted + [job] else s.accepted,
         exits := s.exits + evicted,
         refusedFull := if !ok && s.q.config.policy == DropNewest && Full(s.q) then s.refusedFull + 1 else s.refusedFull,
         late := s.late || (ok && s.stopping != Serving))
    case DispatcherPop =>
      var (q, job) := Pop(s.q);
      (match job
       case None => s.(dispatcher := Exited)
       case Some(j) => s.(q := q, dispatcher := Holding(j), exits := s.exits + [Popped(j)]))
    case DispatcherSubmit =>
      var job := s.dispatcher.job;
      if s.handler then s.(dispatcher := Waiting, pool := s.pool + [job], submitted := s.submitted + [job])
      else s.(dispatcher := Waiting, skipped := s.skipped + [job])
    case WorkerTake(i) =>
      if s.pool == [] then s.(workers := s.workers[i := Ended])
      else s.(workers := s.workers[i := Busy(s.pool[0])], pool := s.pool[1..], taken := s.taken + [s.pool[0]])
    case WorkerFinish(i) =>
      s.(workers := s.workers[i := Idle], handled := s.handled + [s.workers[i].job])
    case StopQueue => s.(q := s.q.(stopped := true), stopping := QueueStopped)
    case JoinDispatcher => s.(stopping := DispatcherJoined)
    case StopPool => s.(stopRequested := true, stopping := PoolStopped)
    case JoinWorkers => s.(stopping := Returned)
  }

  /** `t` is reached from `s` by these steps, each enabled when taken. */
  ghost predicate Runs(s: System, es: seq<Event>, t: System)
    decreases |es|
  {
    if es == [] then s == t else Enabled(s, es[0]) && Runs(Next(s, es[0]), es[1..], t)
  }

  ghost predicate Reachable(config: Config, handler: bool, workers: nat, t: System) {
    exists es: seq<Event> :: Runs(Start(config, handler, workers), es, t)
  }

  // ----- What every interleaving keeps -----

  function Jobs(exits: seq<Exit>): seq<Job> {
    if exits == [] then [] else Jobs(exits[..|exits| - 1]) + [exits[|exits| - 1].job]
  }

  function PoppedJobs(exits: seq<Exit>): seq<Job> {
    if exits == [] then []
    else
      var last := exits[|exits| - 1];
      PoppedJobs(exits[..|exits| - 1]) + if last.Popped? then [last.job] else []
  }

  function EvictedJobs(exits: seq<Exit>): seq<Job> {
    if exits == [] then []
    else
      var last := exits[|exits| - 1];
      EvictedJobs(exits[..|exits| - 1]) + if last.Evicted? then [last.job] else []
  }

  function Held(d: DispatcherThread): seq<Job> {
    if d.Holding? then [d.job] else []
  }

  function One(w: WorkerThread): multiset<Job> {
    if w.Busy? then multiset{w.job} else multiset{}
  }

  function Running(ws: seq<WorkerThread>): multiset<Job> {
    if ws == [] then multiset{} else One(ws[0]) + Running(ws[1..])
  }

  /** Jobs leave the queue in the order they came ... */
  ghost predicate QueueInOrder(accepted: seq<Job>, exits: seq<Exit>, queue: seq<Job>) {
    accepted == Jobs(exits) + queue
  }

  /** ... are dispatched in the order they left ... */
  ghost predicate DispatchInOrder(handler: bool, exits: seq<Exit>, submitted: seq<Job>, skipped: seq<Job>,
                                  dispatcher: DispatcherThread)
  {
    && PoppedJobs(exits) == (if handler then submitted else skipped) + Held(dispatcher)
    && (if handler then skipped else submitted) == []
  }

  /** ... are taken in the order they were submitted ... */
  ghost predicate TakenInOrder(submitted: seq<Job>, taken: seq<Job>, pool: seq<Job>) {
    submitted == taken + pool
  }

  /** ... and every taken job is running or handled. */
  ghost predicate WorkConserved(taken: seq<Job>, handled: seq<Job>, workers: seq<WorkerThread>) {
    multiset(taken) == multiset(handled) + Running(workers)
  }

  ghost predicate InOrder(s: System) {
    && QueueInOrder(s.accepted, s.exits, s.q.queue)
    && DispatchInOrder(s.handler, s.exits, s.submitted, s.skipped, s.dispatcher)
    && TakenInOrder(s.submitted, s.taken, s.pool)
    && WorkConserved(s.taken, s.handled, s.workers)
  }

  ghost predicate WithinCapacity(config: Config, queue: seq<Job>) {
    config.capacity > 0 ==> |queue| <= config.capacity
  }

  ghost predicate DropsCounted(dropped: nat, exits: seq<Exit>, refusedFull: nat) {
    dropped == |EvictedJobs(exits)| + refusedFull
  }

  ghost predicate Accounted(s: System) {
    WithinCapacity(s.q.config, s.q.queue) && DropsCounted(s.q.dropped, s.exits, s.refusedFull)
  }

  ghost predicate AnyEnded(s: System) {
    exists i :: 0 <= i < |s.workers| && s.workers[i] == Ended
  }

  /** How far each thread can be for a given progress of `stop()`. */
  ghost predicate Phased(s: System) {
    && (s.q.stopped <==> s.stopping != Serving)
    && (s.dispatcher == Exited ==> s.q.stopped && (!s.late ==> s.q.queue == []))
    && (s.stopping in {DispatcherJoined, PoolStopped, Returned} ==> s.dispatcher == Exited)
    && (s.stopRequested <==> s.stopping in {PoolStopped, Returned})
    && (AnyEnded(s) ==> s.stopRequested && s.pool == [])
    && (s.stopping == Returned ==> forall i :: 0 <= i < |s.workers| ==> s.workers[i] == Ended)
  }

  lemma JobsSnoc(exits: seq<Exit>, x: Exit)
    ensures Jobs(exits + [x]) == Jobs(exits) + [x.job]
    ensures PoppedJobs(exits + [x]) == PoppedJobs(exits) + if x.Popped? then [x.job] else []
    ensures EvictedJobs(exits + [x]) == EvictedJobs(exits) + if x.Evicted? then [x.job] else []
  {
    assert (exits + [x])[..|exits|] == exits;
  }

  lemma Regroup(a: multiset<Job>, b: multiset<Job>, c: multiset<Job>, d: multiset<Job>, e: multiset<Job>)
    requires b + c == d + e
    ensures a + b + c == a + d + e
  {
    assert a + b + c == a + (b + c);
    assert a + d + e == a + (d + e);
  }

  lemma {:induction false} RunningUpdate(ws: seq<WorkerThread>, i: nat, w: WorkerThread)
    requires i < |ws|
    ensures Running(ws[i := w]) + One(ws[i]) == Running(ws) + One(w)
    decreases |ws|
  {
    hide One;
    if i == 0 {
      assert ws[0 := w][1..] == ws[1..];
      assert One(w) + Running(ws[1..]) + One(ws[0]) == One(ws[0]) + Running(ws[1..]) + One(w);
    } else {
      RunningUpdate(ws[1..], i - 1, w);
      assert ws[i := w][1..] == ws[1..][i - 1 := w];
      Regroup(One(ws[0]), Running(ws[1..][i - 1 := w]), One(ws[i]), Running(ws[1..]), One(w));
    }
  }

  lemma EvictMoves(accepted: seq<Job>, exits: seq<Exit>, queue: seq<Job>, job: Job)
    requires QueueInOrder(accepted, exits, queue) && queue != []
    ensures QueueInOrder(accepted + [job], exits + [Evicted(queue[0])], queue[1..] + [job])
  {
    JobsSnoc(exits, Evicted(queue[0]));
    hide Jobs, PoppedJobs, EvictedJobs;
    assert Jobs(exits) + queue + [job] == Jobs(exits) + [queue[0]] + (queue[1..] + [job]);
  }

  lemma EvictCounts(handler: bool, exits: seq<Exit>, submitted: seq<Job>, skipped: seq<Job>, d: DispatcherThread,
                    dropped: nat, refused: nat, oldest: Job)
    requires DispatchInOrder(handler, exits, submitted, skipped, d) && DropsCounted(dropped, exits, refused)
    ensures DispatchInOrder(handler, exits + [Evicted(oldest)], submitted, skipped, d)
    ensures DropsCounted(dropped + 1, exits + [Evicted(oldest)], refused)
  {
    JobsSnoc(exits, Evicted(oldest));
    hide Jobs, PoppedJobs, EvictedJobs, Held;
    assert PoppedJobs(exits) + [] == PoppedJobs(exits);
  }

  lemma PushEvicts(s: System, job: Job)
    requires InOrder(s) && Accounted(s) && CanPush(s.q) && s.q.config.capacity > 0
    requires Full(s.q) && s.q.config.policy == DropOldest
    ensures InOrder(Next(s, Enqueue(job))) && Accounted(Next(s, Enqueue(job)))
  {
    hide QueueInOrder, DispatchInOrder, TakenInOrder, WorkConserved, DropsCounted;
    var oldest := s.q.queue[0];
    EvictMoves(s.accepted, s.exits, s.q.queue, job);
    EvictCounts(s.handler, s.exits, s.submitted, s.skipped, s.dispatcher, s.q.dropped, s.refusedFull, oldest);
  }

  lemma PushAppends(s: System, job: Job)
    requires InOrder(s) && Accounted(s) && CanPush(s.q)
    requires !(Full(s.q) && s.q.config.policy == DropOldest)
    ensures InOrder(Next(s, Enqueue(job))) && Accounted(Next(s, Enqueue(job)))
  {
    hide Jobs, DispatchInOrder, TakenInOrder, WorkConserved, EvictedJobs;
    var t := Next(s, Enqueue(job));
    assert s.exits + [] == s.exits;
    assert t.exits == s.exits;
    assert Jobs(s.exits) + s.q.queue + [job] == Jobs(s.exits) + (s.q.queue + [job]);
  }

  lemma EnqueueKeepsOrder(s: System, job: Job)
    requires InOrder(s) && Accounted(s) && CanPush(s.q)
    ensures InOrder(Next(s, Enqueue(job))) && Accounted(Next(s, Enqueue(job)))
  {
    if Full(s.q) && s.q.config.policy == DropOldest {
      PushEvicts(s, job);
    } else {
      PushAppends(s, job);
    }
  }

  lemma PopMoves(accepted: seq<Job>, exits: seq<Exit>, queue: seq<Job>)
    requires QueueInOrder(accepted, exits, queue) && queue != []
    ensures QueueInOrder(accepted, exits + [Popped(queue[0])], queue[1..])
  {
    JobsSnoc(exits, Popped(queue[0]));
    hide Jobs, PoppedJobs, EvictedJobs;
    assert Jobs(exits) + queue == Jobs(exits) + [queue[0]] + queue[1..];
  }

  lemma PopCounts(handler: bool, exits: seq<Exit>, submitted: seq<Job>, skipped: seq<Job>, dropped: nat,
                  refused: nat, job: Job)
    requires DispatchInOrder(handler, exits, submitted, skipped, Waiting) && DropsCounted(dropped, exits, refused)
    ensures DispatchInOrder(handler, exits + [Popped(job)], submitted, skipped, Holding(job))
    ensures DropsCounted(dropped, exits + [Popped(job)], refused)
  {
    JobsSnoc(exits, Popped(job));
    hide Jobs, PoppedJobs, EvictedJobs;
  }

  /** A dispatcher that leaves held nothing before and holds nothing after. */
  lemma LeavingHoldsNothing(handler: bool, exits: seq<Exit>, submitted: seq<Job>, skipped: seq<Job>)
    requires DispatchInOrder(handler, exits, submitted, skipped, Waiting)
    ensures DispatchInOrder(handler, exits, submitted, skipped, Exited)
  {
    hide PoppedJobs;
  }

  lemma PopKeepsOrder(s: System)
    requires InOrder(s) && Accounted(s) && Enabled(s, DispatcherPop)
    ensures InOrder(Next(s, DispatcherPop)) && Accounted(Next(s, DispatcherPop))
  {
    hide QueueInOrder, DispatchInOrder, TakenInOrder, WorkConserved, DropsCounted;
    if s.q.queue != [] {
      PopMoves(s.accepted, s.exits, s.q.queue);
      PopCounts(s.handler, s.exits, s.submitted, s.skipped, s.q.dropped, s.refusedFull, s.q.queue[0]);
    } else {
      LeavingHoldsNothing(s.handler, s.exits, s.submitted, s.skipped);
    }
  }

  lemma SubmitKeepsOrder(s: System)
    requires InOrder(s) && Accounted(s) && Enabled(s, DispatcherSubmit)
    ensures InOrder(Next(s, DispatcherSubmit)) && Accounted(Next(s, DispatcherSubmit))
  {
    hide QueueInOrder, WorkConserved, DropsCounted, WithinCapacity, PoppedJobs;
    assert s.taken + s.pool + [s.dispatcher.job] == s.taken + (s.pool + [s.dispatcher.job]);
  }

  lemma WorkStarts(taken: seq<Job>, handled: seq<Job>, workers: seq<WorkerThread>, i: nat, job: Job)
    requires WorkConserved(taken, handled, workers) && i < |workers| && workers[i] == Idle
    ensures WorkConserved(taken + [job], handled, workers[i := Busy(job)])
  {
    RunningUpdate(workers, i, Busy(job));
    var before, after := Running(workers), Running(workers[i := Busy(job)]);
    hide Running;
    AddNothing(after);
    assert multiset(taken + [job]) == multiset(taken) + multiset{job};
    assert multiset(handled) + (before + multiset{job}) == multiset(handled) + before + multiset{job};
  }

  lemma WorkEnds(taken: seq<Job>, handled: seq<Job>, workers: seq<WorkerThread>, i: nat)
    requires WorkConserved(taken, handled, workers) && i < |workers| && workers[i] == Idle
    ensures WorkConserved(taken, handled, workers[i := Ended])
  {
    RunningUpdate(workers, i, Ended);
    AddNothing(Running(workers[i := Ended]));
    AddNothing(Running(workers));
    hide Running;
  }

  lemma WorkFinishes(taken: seq<Job>, handled: seq<Job>, workers: seq<WorkerThread>, i: nat)
    requires WorkConserved(taken, handled, workers) && i < |workers| && workers[i].Busy?
    ensures WorkConserved(taken, handled + [workers[i].job], workers[i := Idle])
  {
    var job := workers[i].job;
    RunningUpdate(workers, i, Idle);
    var before, after := Running(workers), Running(workers[i := Idle]);
    hide Running;
    AddNothing(before);
    assert multiset(handled + [job]) == multiset(handled) + multiset{job};
    assert multiset(handled) + (after + multiset{job}) == multiset(handled) + multiset{job} + after;
  }

  lemma AddNothing(a: multiset<Job>)
    ensures a + multiset{} == a
  {
  }

  lemma TakeKeepsOrder(s: System, i: nat)
    requires InOrder(s) && Accounted(s) && Enabled(s, WorkerTake(i))
    ensures InOrder(Next(s, WorkerTake(i))) && Accounted(Next(s, WorkerTake(i)))
  {
    hide QueueInOrder, DispatchInOrder, WorkConserved, DropsCounted, WithinCapacity;
    if s.pool == [] {
      WorkEnds(s.taken, s.handled, s.workers, i);
    } else {
      WorkStarts(s.taken, s.handled, s.workers, i, s.pool[0]);
      assert s.taken + s.pool == s.taken + [s.pool[0]] + s.pool[1..];
    }
  }

  lemma FinishKeepsOrder(s: System, i: nat)
    requires InOrder(s) && Accounted(s) && Enabled(s, WorkerFinish(i))
    ensures InOrder(Next(s, WorkerFinish(i))) && Accounted(Next(s, WorkerFinish(i)))
  {
    hide QueueInOrder, DispatchInOrder, TakenInOrder, WorkConserved, DropsCounted, WithinCapacity;
    WorkFinishes(s.taken, s.handled, s.workers, i);
  }

  lemma StopKeepsOrder(s: System, e: Event)
    requires InOrder(s) && Accounted(s) && Enabled(s, e)
    requires e.StopQueue? || e.JoinDispatcher? || e.StopPool? || e.JoinWorkers?
    ensures InOrder(Next(s, e)) && Accounted(Next(s, e))
  {
    hide QueueInOrder, DispatchInOrder, TakenInOrder, WorkConserved, DropsCounted, WithinCapacity;
  }

  lemma StepKeepsOrder(s: System, e: Event)
    requires InOrder(s) && Accounted(s) && Enabled(s, e)
    ensures InOrder(Next(s, e)) && Accounted(Next(s, e))
  {
    assert e.Enqueue? ==> CanPush(s.q);
    hide Next, Enabled, InOrder, Accounted;
    match e
    case Enqueue(job) => EnqueueKeepsOrder(s, job);
    case DispatcherPop => PopKeepsOrder(s);
    case DispatcherSubmit => SubmitKeepsOrder(s);
    case WorkerTake(i) => TakeKeepsOrder(s, i);
    case WorkerFinish(i) => FinishKeepsOrder(s, i);
    case _ => StopKeepsOrder(s, e);
  }

  lemma StepKeepsPhases(s: System, e: Event)
    requires Phased(s) && Enabled(s, e)
    ensures Phased(Next(s, e))
  {
    var t := Next(s, e);
    if AnyEnded(t) && !AnyEnded(s) {
      assert e.WorkerTake?;
    }
  }

  lemma StepKeepsSetup(s: System, e: Event)
    requires Enabled(s, e)
    ensures
      var t := Next(s, e);
      t.handler == s.handler && |t.workers| == |s.workers| && t.q.config == s.q.config
  {
  }

  lemma {:induction false} RunKeepsAll(s: System, es: seq<Event>, t: System)
    requires InOrder(s) && Accounted(s) && Phased(s) && Runs(s, es, t)
    ensures InOrder(t) && Accounted(t) && Phased(t)
    ensures t.handler == s.handler && |t.workers| == |s.workers| && t.q.config == s.q.config
    decreases |es|
  {
    hide Next, Enabled, InOrder, Accounted, Phased;
    if es != [] {
      StepKeepsSetup(s, es[0]);
      StepKeepsOrder(s, es[0]);
      StepKeepsPhases(s, es[0]);
      RunKeepsAll(Next(s, es[0]), es[1..], t);
    }
  }

  lemma {:induction false} NoneRunning(ws: seq<WorkerThread>)
    requires forall i :: 0 <= i < |ws| ==> !ws[i].Busy?
    ensures Running(ws) == multiset{}
    decreases |ws|
  {
    if ws != [] {
      NoneRunning(ws[1..]);
    }
  }

  lemma ReachableKeepsAll(config: Config, handler: bool, workers: nat, t: System)
    requires Reachable(config, handler, workers, t)
    ensures InOrder(t) && Accounted(t) && Phased(t)
    ensures t.handler == handler && |t.workers| == workers && t.q.config == config
  {
    var s := Start(config, handler, workers);
    NoneRunning(s.workers);
    var es :| Runs(s, es, t);
    RunKeepsAll(s, es, t);
  }

  // ----- Conservation and order -----

  lemma {:induction false} ExitsSplit(exits: seq<Exit>)
    ensures multiset(Jobs(exits)) == multiset(PoppedJobs(exits)) + multiset(EvictedJobs(exits))
    ensures Subsequence(PoppedJobs(exits), Jobs(exits))
    decreases |exits|
  {
    if exits != [] {
      var init, last := exits[..|exits| - 1], exits[|exits| - 1];
      ExitsSplit(init);
      if last.Popped? {
        SubsequenceBoth(PoppedJobs(init), Jobs(init), last.job);
      } else {
        assert PoppedJobs(exits) == PoppedJobs(init);
        SubsequenceExtend(PoppedJobs(init), Jobs(init), [last.job]);
      }
    }
  }

  /** `xs` is what is left of `ys` after striking out some elements. */
  ghost predicate Subsequence(xs: seq<Job>, ys: seq<Job>)
    decreases |ys|
  {
    || xs == []
    || (ys != [] && ((xs[0] == ys[0] && Subsequence(xs[1..], ys[1..])) || Subsequence(xs, ys[1..])))
  }

  lemma NothingIsSubsequence(ys: seq<Job>)
    ensures Subsequence([], ys)
  {
  }

  lemma {:induction false} SubsequenceExtend(xs: seq<Job>, ys: seq<Job>, more: seq<Job>)
    requires Subsequence(xs, ys)
    ensures Subsequence(xs, ys + more)
    decreases |ys|
  {
    if xs != [] {
      assert (ys + more)[1..] == ys[1..] + more;
      if xs[0] == ys[0] && Subsequence(xs[1..], ys[1..]) {
        SubsequenceExtend(xs[1..], ys[1..], more);
      } else {
        SubsequenceExtend(xs, ys[1..], more);
      }
    }
  }

  lemma {:induction false} SubsequenceBoth(xs: seq<Job>, ys: seq<Job>, x: Job)
    requires Subsequence(xs, ys)
    ensures Subsequence(xs + [x], ys + [x])
    decreases |ys|
  {
    if ys == [] {
      assert xs + [x] == [x] && ys + [x] == [x] && [x][1..] == [];
      assert Subsequence([x][1..], [x][1..]);
    } else {
      assert (ys + [x])[1..] == ys[1..] + [x];
      if xs == [] {
        SubsequenceBoth(xs, ys[1..], x);
      } else if xs[0] == ys[0] && Subsequence(xs[1..], ys[1..]) {
        SubsequenceBoth(xs[1..], ys[1..], x);
        assert (xs + [x])[1..] == xs[1..] + [x];
      } else {
        SubsequenceBoth(xs, ys[1..], x);
      }
    }
  }

  lemma {:induction false} SubsequencePrefix(xs: seq<Job>, more: seq<Job>, ys: seq<Job>)
    requires Subsequence(xs + more, ys)
    ensures Subsequence(xs, ys)
    decreases |ys|
  {
    if xs != [] {
      assert (xs + more)[1..] == xs[1..] + more;
      if xs[0] == ys[0] && Subsequence((xs + more)[1..], ys[1..]) {
        SubsequencePrefix(xs[1..], more, ys[1..]);
      } else {
        SubsequencePrefix(xs, more, ys[1..]);
      }
    }
  }

  lemma AcceptedSplits(t: System)
    requires InOrder(t)
    ensures multiset(t.accepted)
         == multiset(PoppedJobs(t.exits)) + multiset(EvictedJobs(t.exits)) + multiset(t.q.queue)
    ensures Subsequence(PoppedJobs(t.exits), t.accepted)
  {
    ExitsSplit(t.exits);
    SubsequenceExtend(PoppedJobs(t.exits), Jobs(t.exits), t.q.queue);
    hide Jobs, PoppedJobs, EvictedJobs, Subsequence, DispatchInOrder, TakenInOrder, WorkConserved;
  }

  lemma PoppedSplits(t: System)
    requires InOrder(t)
    ensures multiset(PoppedJobs(t.exits))
         == multiset(t.skipped) + (multiset(t.handled) + Running(t.workers) + multiset(t.pool)) + multiset(Held(t.dispatcher))
    ensures t.handler ==> t.submitted <= PoppedJobs(t.exits)
    ensures !t.handler ==> t.submitted == []
  {
    hide PoppedJobs, Running, Held, QueueInOrder;
    assert multiset(t.submitted) == multiset(t.taken) + multiset(t.pool);
    assert multiset(PoppedJobs(t.exits)) == multiset(t.skipped) + multiset(t.submitted) + multiset(Held(t.dispatcher));
  }

  /** What is split in two stages is split in one. */
  lemma SplitTwice(all: multiset<Job>, popped: multiset<Job>, evicted: multiset<Job>, queued: multiset<Job>,
                   skipped: multiset<Job>, work: multiset<Job>, held: multiset<Job>)
    requires all == popped + evicted + queued && popped == skipped + work + held
    ensures all == evicted + queued + held + skipped + work
  {
  }

  /** In every interleaving each accepted job is in exactly one place: evicted, queued, held by the
      dispatcher, skipped for want of a handler, pooled, running or handled. The queue respects
      its capacity, the drop counter counts the evicted and the refused, and jobs are submitted
      in the order they were accepted. */
  lemma NothingLostOrDuplicated(config: Config, handler: bool, workers: nat, t: System)
    requires Reachable(config, handler, workers, t)
    ensures multiset(t.accepted)
         == multiset(EvictedJobs(t.exits)) + multiset(t.q.queue) + multiset(Held(t.dispatcher))
          + multiset(t.skipped) + (multiset(t.handled) + Running(t.workers) + multiset(t.pool))
    ensures config.capacity > 0 ==> |t.q.queue| <= config.capacity
    ensures t.q.dropped == |EvictedJobs(t.exits)| + t.refusedFull
    ensures Subsequence(t.submitted, t.accepted)
  {
    ReachableKeepsAll(config, handler, workers, t);
    AcceptedSplits(t);
    PoppedSplits(t);
    hide Reachable, Jobs, PoppedJobs, EvictedJobs, Subsequence, Running, InOrder, Phased, Held;
    SplitTwice(multiset(t.accepted), multiset(PoppedJobs(t.exits)), multiset(EvictedJobs(t.exits)), multiset(t.q.queue),
               multiset(t.skipped), multiset(t.handled) + Running(t.workers) + multiset(t.pool),
               multiset(Held(t.dispatcher)));
    if t.submitted != [] {
      var more := PoppedJobs(t.exits)[|t.submitted|..];
      assert t.submitted + more == PoppedJobs(t.exits);
      SubsequencePrefix(t.submitted, more, t.accepted);
    } else {
      NothingIsSubsequence(t.accepted);
    }
  }

  lemma EnqueueDrops(s: System, job: Job)
    requires CanPush(s.q) && (s.q.config.capacity > 0 ==> |s.q.queue| <= s.q.config.capacity)
    ensures
      var (t, config) := (Next(s, Enqueue(job)), s.q.config);
      var full := config.capacity > 0 && |s.q.queue| == config.capacity;
      && t.q.dropped == s.q.dropped + (if full && config.policy != Block then 1 else 0)
      && t.exits == s.exits + (if full && config.policy == DropOldest then [Evicted(s.q.queue[0])] else [])
      && t.refusedFull == s.refusedFull + (if full && config.policy == DropNewest then 1 else 0)
  {
    PushesExactly(s.q, job);
    assert s.exits + [] == s.exits;
  }

  /** In every run a job is evicted or refused for a full queue only at a queue length equal to the
      capacity, and then always, and only such pushes count as drops; a push that waits meets a
      queue of that length too. */
  lemma DropsAtCapacity(config: Config, handler: bool, workers: nat, s: System, job: Job)
    requires Reachable(config, handler, workers, s)
    ensures
      var full := config.capacity > 0 && |s.q.queue| == config.capacity;
      && (Enabled(s, Enqueue(job)) <==> !(config.policy == Block && full && s.stopping == Serving))
      && (Enabled(s, Enqueue(job)) ==>
            var t := Next(s, Enqueue(job));
            && t.q.dropped == s.q.dropped + (if full && config.policy != Block then 1 else 0)
            && t.exits == s.exits + (if full && config.policy == DropOldest then [Evicted(s.q.queue[0])] else [])
            && t.refusedFull == s.refusedFull + (if full && config.policy == DropNewest then 1 else 0))
  {
    ReachableKeepsAll(config, handler, workers, s);
    WaitsExactly(s.q);
    assert s.q.config == config && (config.capacity > 0 ==> |s.q.queue| <= config.capacity);
    assert s.q.stopped <==> s.stopping != Serving;
    assert Enabled(s, Enqueue(job)) <==> CanPush(s.q);
    hide Reachable, InOrder, Accounted, Phased, Next, Enabled, CanPush;
    if CanPush(s.q) {
      EnqueueDrops(s, job);
    }
  }

  // ----- Draining at stop -----

  /** `stop()` has returned, and nothing was accepted after it began. */
  ghost predicate QuietlyStopped(t: System) {
    t.stopping == Returned && !t.late
  }

  ghost predicate Drained(t: System) {
    multiset(t.handled) + multiset(EvictedJobs(t.exits)) == multiset(t.accepted)
  }

  lemma StoppedIsEmpty(t: System)
    requires InOrder(t) && Phased(t) && QuietlyStopped(t) && t.handler && t.workers != []
    ensures t.pool == [] && t.q.queue == [] && t.dispatcher == Exited && t.skipped == []
    ensures Running(t.workers) == multiset{}
  {
    NoneRunning(t.workers);
    assert t.workers[0] == Ended;
    hide Running, PoppedJobs, EvictedJobs, Jobs, WorkConserved, QueueInOrder, TakenInOrder;
  }

  lemma StopDrains(config: Config, workers: nat, t: System)
    requires Reachable(config, true, workers, t) && workers > 0 && QuietlyStopped(t)
    ensures Drained(t)
  {
    ReachableKeepsAll(config, true, workers, t);
    NothingLostOrDuplicated(config, true, workers, t);
    hide Reachable, InOrder, Accounted, Phased, EvictedJobs, Subsequence, Running;
    StoppedIsEmpty(t);
  }

  lemma {:induction false} RunsAppend(s: System, es: seq<Event>, m: System, fs: seq<Event>, t: System)
    requires Runs(s, es, m) && Runs(m, fs, t)
    ensures Runs(s, es + fs, t)
    decreases |es|
  {
    if es == [] {
      assert es + fs == fs;
    } else {
      RunsAppend(Next(s, es[0]), es[1..], m, fs, t);
      assert (es + fs)[1..] == es[1..] + fs;
    }
  }

  lemma RunOne(s: System, e: Event)
    requires Enabled(s, e)
    ensures Runs(s, [e], Next(s, e))
  {
    assert [e][1..] == [];
  }

  lemma ReachNext(config: Config, handler: bool, workers: nat, s: System, e: Event)
    requires Reachable(config, handler, workers, s) && Enabled(s, e)
    ensures Reachable(config, handler, workers, Next(s, e))
  {
    var es :| Runs(Start(config, handler, workers), es, s);
    RunOne(s, e);
    RunsAppend(Start(config, handler, workers), es, s, [e], Next(s, e));
  }

  /** With an empty pool told to stop, the idle workers can end one after another. */
  lemma {:induction false} WorkersEnd(config: Config, handler: bool, workers: nat, s: System, k: nat) returns (t: System)
    requires Reachable(config, handler, workers, s)
    requires s.stopping == PoolStopped && s.stopRequested && s.pool == [] && k <= |s.workers|
    requires forall i :: 0 <= i < |s.workers| ==> s.workers[i] == if i < k then Ended else Idle
    ensures Reachable(config, handler, workers, t)
    ensures t == s.(workers := t.workers) && |t.workers| == |s.workers|
    ensures forall i :: 0 <= i < |t.workers| ==> t.workers[i] == Ended
    decreases |s.workers| - k
  {
    if k == |s.workers| {
      t := s;
    } else {
      ReachNext(config, handler, workers, s, WorkerTake(k));
      t := WorkersEnd(config, handler, workers, Next(s, WorkerTake(k)), k + 1);
    }
  }

  lemma AcceptsFirst(config: Config, handler: bool, workers: nat, job: Job)
    ensures
      var s := Start(config, handler, workers);
      && Enabled(s, Enqueue(job))
      && Next(s, Enqueue(job)) == s.(q := s.q.(queue := [job]), accepted := [job])
  {
  }

  lemma FirstAccepted(config: Config, handler: bool, workers: nat, job: Job) returns (t: System)
    ensures Reachable(config, handler, workers, t)
    ensures
      var s := Start(config, handler, workers);
      t == s.(q := s.q.(queue := [job]), accepted := [job])
  {
    var s := Start(config, handler, workers);
    assert Runs(s, [], s);
    AcceptsFirst(config, handler, workers, job);
    hide Next, Enabled, Runs;
    ReachNext(config, handler, workers, s, Enqueue(job));
    t := Next(s, Enqueue(job));
    hide Reachable;
  }

  /** One job enqueued, then a stop: without a handler the dispatcher skips it, without workers it
      stays in the pool. */
  lemma LosesTheJob(config: Config, handler: bool, workers: nat, job: Job) returns (t: System)
    requires !handler || workers == 0
    ensures Reachable(config, handler, workers, t) && QuietlyStopped(t)
    ensures t.accepted == [job] && t.handled == [] && EvictedJobs(t.exits) == []
  {
    var s1 := FirstAccepted(config, handler, workers, job);
    hide Reachable, Runs;
    var s2 := Next(s1, StopQueue);
    ReachNext(config, handler, workers, s1, StopQueue);
    var s3 := Next(s2, DispatcherPop);
    ReachNext(config, handler, workers, s2, DispatcherPop);
    JobsSnoc([], Popped(job));
    assert s3.exits == [] + [Popped(job)] && EvictedJobs(s3.exits) == [];
    hide EvictedJobs;
    assert s3.q.queue == [] && s3.dispatcher == Holding(job);
    var s4 := Next(s3, DispatcherSubmit);
    ReachNext(config, handler, workers, s3, DispatcherSubmit);
    t := StopsIdle(config, handler, workers, s4);
  }

  /** From an empty, stopped queue `stop()` can return without a worker touching the pool, if the
      pool is empty or there is no worker. */
  lemma StopsIdle(config: Config, handler: bool, workers: nat, s: System) returns (t: System)
    requires Reachable(config, handler, workers, s)
    requires s.q.stopped && s.q.queue == [] && s.dispatcher == Waiting && s.stopping == QueueStopped
    requires !s.stopRequested && (s.pool == [] || s.workers == [])
    requires forall i :: 0 <= i < |s.workers| ==> s.workers[i] == Idle
    ensures Reachable(config, handler, workers, t) && t.stopping == Returned
    ensures t.accepted == s.accepted && t.handled == s.handled && t.exits == s.exits && t.late == s.late
  {
    hide Reachable, Runs;
    var s1 := Next(s, DispatcherPop);
    ReachNext(config, handler, workers, s, DispatcherPop);
    var s2 := Next(s1, JoinDispatcher);
    ReachNext(config, handler, workers, s1, JoinDispatcher);
    var s3 := Next(s2, StopPool);
    ReachNext(config, handler, workers, s2, StopPool);
    var s4 := s3;
    if s.workers != [] {
      s4 := WorkersEnd(config, handler, workers, s3, 0);
    }
    ReachNext(config, handler, workers, s4, JoinWorkers);
    t := Next(s4, JoinWorkers);
  }

  /** A quiet stop drains in every run exactly when there is a handler and at least one worker. */
  lemma DrainsExactly(config: Config, handler: bool, workers: nat)
    ensures (forall t :: Reachable(config, handler, workers, t) && QuietlyStopped(t) ==> Drained(t))
       <==> handler && workers > 0
  {
    if handler && workers > 0 {
      forall t | Reachable(config, handler, workers, t) && QuietlyStopped(t) ensures Drained(t) {
        StopDrains(config, workers, t);
      }
    } else {
      var t := LosesTheJob(config, handler, workers, Job(0, Frame(0, 1, []), 0));
      assert |multiset(t.accepted)| == 1 && |multiset(t.handled) + multiset(EvictedJobs(t.exits))| == 0;
    }
  }

  // ----- The order in which jobs are handled -----

  function InHand(ws: seq<WorkerThread>): seq<Job> {
    if ws != [] && ws[0].Busy? then [ws[0].job] else []
  }

  /** A worker that is alone handles the jobs in the order it takes them. */
  ghost predicate InTurn(s: System) {
    |s.workers| <= 1 ==> s.taken == s.handled + InHand(s.workers)
  }

  lemma StepKeepsTurn(s: System, e: Event)
    requires InTurn(s) && Enabled(s, e)
    ensures InTurn(Next(s, e))
  {
    assert s.handled + [] == s.handled;
  }

  lemma {:induction false} RunKeepsTurn(s: System, es: seq<Event>, t: System)
    requires InTurn(s) && Runs(s, es, t)
    ensures InTurn(t)
    decreases |es|
  {
    hide Next, Enabled, InTurn;
    if es != [] {
      StepKeepsTurn(s, es[0]);
      RunKeepsTurn(Next(s, es[0]), es[1..], t);
    }
  }

  /** Without a handler nothing is submitted, so nothing is handled. */
  lemma NothingHandled(submitted: seq<Job>, taken: seq<Job>, pool: seq<Job>, handled: seq<Job>, workers: seq<WorkerThread>)
    requires submitted == [] && TakenInOrder(submitted, taken, pool) && WorkConserved(taken, handled, workers)
    ensures handled == []
  {
    hide Running;
    assert |multiset(taken)| == |multiset(handled)| + |Running(workers)|;
    assert |multiset(taken)| == |taken| == 0 && |multiset(handled)| == |handled|;
  }

  lemma TurnInOrder(t: System)
    requires InTurn(t) && |t.workers| <= 1 && TakenInOrder(t.submitted, t.taken, t.pool)
    requires Subsequence(t.submitted, t.accepted)
    ensures Subsequence(t.handled, t.accepted)
  {
    hide Subsequence;
    var more := InHand(t.workers) + t.pool;
    assert t.handled + more == t.submitted;
    SubsequencePrefix(t.handled, more, t.accepted);
  }

  lemma ReachableInTurn(config: Config, handler: bool, workers: nat, t: System)
    requires Reachable(config, handler, workers, t)
    ensures InTurn(t)
  {
    var s := Start(config, handler, workers);
    assert InTurn(s);
    var es :| Runs(s, es, t);
    RunKeepsTurn(s, es, t);
  }

  lemma HandledInOrder(config: Config, handler: bool, workers: nat, t: System)
    requires Reachable(config, handler, workers, t) && (!handler || workers <= 1)
    ensures Subsequence(t.handled, t.accepted)
  {
    ReachableKeepsAll(config, handler, workers, t);
    NothingLostOrDuplicated(config, handler, workers, t);
    ReachableInTurn(config, handler, workers, t);
    hide Reachable, InTurn, Subsequence, QueueInOrder, TakenInOrder, WorkConserved, Accounted, Phased, PoppedJobs,
         EvictedJobs, Running, Held;
    if workers <= 1 {
      TurnInOrder(t);
    } else {
      NothingHandled(t.submitted, t.taken, t.pool, t.handled, t.workers);
      NothingIsSubsequence(t.accepted);
    }
  }

  /** Two jobs, two workers: the second job is done before the first. */
  lemma Overtakes(config: Config, workers: nat, a: Job, b: Job) returns (t: System)
    requires workers >= 2
    ensures Reachable(config, true, workers, t)
    ensures t.accepted == [a, b] && t.handled == [b, a]
  {
    var s1 := FirstAccepted(config, true, workers, a);
    var s2 := Delivered(config, workers, s1, 0);
    ReachNext(config, true, workers, s2, Enqueue(b));
    var s3 := Delivered(config, workers, Next(s2, Enqueue(b)), 1);
    hide Reachable, Runs;
    ReachNext(config, true, workers, s3, WorkerFinish(1));
    var s4 := Next(s3, WorkerFinish(1));
    ReachNext(config, true, workers, s4, WorkerFinish(0));
    t := Next(s4, WorkerFinish(0));
  }

  /** The one queued job goes through dispatcher and pool to the idle worker `i`. */
  lemma Delivered(config: Config, workers: nat, s: System, i: nat) returns (t: System)
    requires Reachable(config, true, workers, s) && s.handler && s.dispatcher == Waiting
    requires |s.q.queue| == 1 && s.pool == [] && i < |s.workers| && s.workers[i] == Idle
    ensures Reachable(config, true, workers, t)
    ensures t.q == s.q.(queue := []) && t.handler && t.dispatcher == Waiting && t.pool == []
    ensures t.workers == s.workers[i := Busy(s.q.queue[0])] && t.accepted == s.accepted && t.handled == s.handled
  {
    hide Reachable, Runs;
    ReachNext(config, true, workers, s, DispatcherPop);
    var s1 := Next(s, DispatcherPop);
    ReachNext(config, true, workers, s1, DispatcherSubmit);
    var s2 := Next(s1, DispatcherSubmit);
    ReachNext(config, true, workers, s2, WorkerTake(i));
    t := Next(s2, WorkerTake(i));
  }

  /** The jobs that came from one connection. */
  function From(jobs: seq<Job>, connection: nat): seq<Job> {
    if jobs == [] then []
    else (if jobs[0].connection == connection then [jobs[0]] else []) + From(jobs[1..], connection)
  }

  lemma SubsequenceStep(xs: seq<Job>, ys: seq<Job>, x: Job)
    requires Subsequence(xs, ys)
    ensures Subsequence([x] + xs, [x] + ys) && Subsequence(xs, [x] + ys)
  {
    assert ([x] + xs)[1..] == xs && ([x] + ys)[1..] == ys;
  }

  lemma {:induction false} SubsequenceFrom(xs: seq<Job>, ys: seq<Job>, c: nat)
    requires Subsequence(xs, ys)
    ensures Subsequence(From(xs, c), From(ys, c))
    decreases |ys|
  {
    if xs != [] {
      assert forall zs: seq<Job> :: [] + zs == zs;
      if xs[0] == ys[0] && Subsequence(xs[1..], ys[1..]) {
        SubsequenceFrom(xs[1..], ys[1..], c);
        SubsequenceStep(From(xs[1..], c), From(ys[1..], c), ys[0]);
      } else {
        SubsequenceFrom(xs, ys[1..], c);
        SubsequenceStep(From(xs, c), From(ys[1..], c), ys[0]);
      }
    } else {
      NothingIsSubsequence(From(ys, c));
    }
  }

  lemma NotInOrder(a: Job, b: Job)
    requires a != b && a.connection == b.connection
    ensures !Subsequence([b, a], [a, b])
    ensures From([a, b], a.connection) == [a, b] && From([b, a], a.connection) == [b, a]
  {
    FromPair(a, b);
    FromPair(b, a);
    assert [a, b][1..] == [b] && [b][1..] == [] && [b, a][1..] == [a];
    assert !Subsequence([a], []) && !Subsequence([b, a], []);
    assert !Subsequence([b, a], [b]);
  }

  lemma FromPair(a: Job, b: Job)
    requires a.connection == b.connection
    ensures From([a, b], a.connection) == [a, b]
  {
    assert [a, b][1..] == [b] && [b][1..] == [];
    assert From([b], a.connection) == [b];
  }

  /** The jobs, all of them as well as those of each single connection, are handled in the order of
      their acceptance in every run, if and only if nothing is handled or there is at most one worker. */
  lemma OrderedExactly(config: Config, handler: bool, workers: nat)
    ensures (forall t :: Reachable(config, handler, workers, t) ==> Subsequence(t.handled, t.accepted))
       <==> !handler || workers <= 1
    ensures (forall t, c: nat :: Reachable(config, handler, workers, t) ==>
                Subsequence(From(t.handled, c), From(t.accepted, c)))
       <==> !handler || workers <= 1
  {
    if !handler || workers <= 1 {
      forall t | Reachable(config, handler, workers, t) ensures Subsequence(t.handled, t.accepted) {
        HandledInOrder(config, handler, workers, t);
      }
      forall t, c: nat | Reachable(config, handler, workers, t)
        ensures Subsequence(From(t.handled, c), From(t.accepted, c))
      {
        SubsequenceFrom(t.handled, t.accepted, c);
      }
    } else {
      var a, b := Job(0, Frame(0, 1, []), 0), Job(0, Frame(0, 1, []), 1);
      var t := Overtakes(config, workers, a, b);
      NotInOrder(a, b);
      assert !Subsequence(From(t.handled, 0), From(t.accepted, 0));
    }
  }

  // ----- The queue and pool objects -----

  /** Each method is one critical section; its precondition is the condition its wait ends on. */
  class PacketQueue {
    const config: Config
    var queue: seq<Job>
    var stopped: bool
    var dropped: nat

    function View(): QueueState
      reads this
    {
      QueueState(config, queue, stopped, dropped)
    }

    constructor (config: Config)
      ensures View() == QueueState(config, [], false, 0)
    {
      this.config := config;
      queue, stopped, dropped := [], false, 0;
    }

    method IsFull() returns (full: bool)
      ensures full == Full(View())
    {
      if config.capacity == 0 {
        return false;
      }
      return |queue| >= config.capacity;
    }

    method PushJob(job: Job) returns (ok: bool)
      requires CanPush(View())
      modifies this
      ensures (View(), ok) == Push(old(View()), job)
    {
      if config.capacity > 0 {
        var full := IsFull();
        match config.policy {
          case Block =>
            if stopped {
              return false;
            }
          case DropNewest =>
            if full {
              dropped := dropped + 1;
              return false;
            }
          case DropOldest =>
            if full {
              queue := queue[1..];
              dropped := dropped + 1;
            }
        }
      }
      queue := queue + [job];
      return true;
    }

    method PopJob() returns (job: Option<Job>)
      requires CanPop(View())
      modifies this
      ensures (View(), job) == Pop(old(View()))
    {
      if stopped && queue == [] {
        return None;
      }
      job := Some(queue[0]);
      queue := queue[1..];
    }

    method Stop()
      modifies this
      ensures View() == old(View()).(stopped := true)
    {
      stopped := true;
    }
  }

  class WorkerPool {
    var jobs: seq<Job>
    var stopRequested: bool

    constructor ()
      ensures jobs == [] && !stopRequested
    {
      jobs, stopRequested := [], false;
    }

    method Submit(job: Job)
      modifies this
      ensures jobs == old(jobs) + [job] && stopRequested == old(stopRequested)
    {
      jobs := jobs + [job];
    }

    /** The critical section of workerLoop: None tells the worker to end. */
    method Take() returns (job: Option<Job>)
      requires stopRequested || jobs != []
      modifies this
      ensures stopRequested == old(stopRequested)
      ensures job.None? <==> old(jobs) == []
      ensures job.Some? ==> [job.value] + jobs == old(jobs)
      ensures job.None? ==> jobs == old(jobs)
    {
      if stopRequested && jobs == [] {
        return None;
      }
      job := Some(jobs[0]);
      jobs := jobs[1..];
    }

    method RequestStop()
      modifies this
      ensures stopRequested && jobs == old(jobs)
    {
      stopRequested := true;
    }
  }
}
