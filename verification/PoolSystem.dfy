/** The thread pool with all its threads: workers, and clients that are inside a call. An event is one
    stretch of code that holds `tp->mutex`, or a thread waking up from a condition variable. A signal wakes
    one thread and a broadcast wakes all; a woken thread takes the mutex in an event of its own. */
module PoolSystem {
  import opened Options
  import opened PoolSpec

  /** A worker: created but not run yet, before its first pass, in `ithread_cond_timedwait`, woken and
      waiting for the mutex, running a job, or gone. */
  datatype Worker = Created | Fresh | Blocked | Woken(timedOut: bool) | Running(job: Job, persistent: bool) | Exited

  /** What a worker is created for: the i-th thread of `ThreadPoolInit`, `AddWorker` (with its local
      variables), or `ThreadPoolAddPersistent`. */
  datatype Goal = Init(i: nat) | Add(jobs: nat, threads: int) | Persist(priority: Priority)

  /** A client: outside of the pool, in one of the two waits of `CreateWorker` (`spawned` for the second),
      in the wait of `ThreadPoolAddPersistent`, before or in the wait of `ThreadPoolShutdown`. A client that
      waits is asleep on `start_and_shutdown`, or awake and waiting for the mutex. */
  datatype Client =
    | Outside
    | Creating(goal: Goal, spawned: bool, asleep: bool)
    | AwaitPickup(asleep: bool)
    | InitFailed
    | AwaitThreads(asleep: bool)

  datatype Phase = Unborn | Starting | Ready | Broken | Ended

  /** What happened so far: the jobs accepted, started from a queue, started from the persistent slot,
      removed, and dropped by the shutdown. */
  datatype History = History(accepted: seq<Job>, started: seq<Job>, persistentStarted: seq<Job>, removed: seq<Job>,
                             dropped: seq<Job>)

  datatype System = System(pool: Pool, workers: seq<Worker>, clients: seq<Client>, phase: Phase, clock: Time,
                           history: History)

  /** What the environment decides in a stretch of a client: the time, whether a thread can be created, and
      which blocked worker a signal wakes. */
  datatype Choice = Choice(now: Time, spawn: bool, wake: nat)

  datatype Event =
    | StartWorker(w: nat)
    | Pass(w: nat, now: Time)
    | Recheck(w: nat, now: Time)
    | TimeOut(w: nat)
    | WakeWorker(w: nat)
    | WakeClient(c: nat)
    | BeginInit(c: nat, x: Choice)
    | BeginAdd(c: nat, priority: Priority, x: Choice)
    | BeginPersistent(c: nat, priority: Priority, x: Choice)
    | Resume(c: nat, x: Choice)
    | RemoveJob(jobId: int)
    | Shutdown(c: nat)

  function AllOutside(n: nat): (r: seq<Client>)
    ensures |r| == n && forall i :: 0 <= i < n ==> r[i] == Outside
  {
    seq(n, _ => Outside)
  }

  function InitialSystem(attr: Attr, clients: nat, clock: Time): System {
    System(EmptyPool(attr), [], AllOutside(clients), Unborn, clock, History([], [], [], [], []))
  }

  // ---- Condition variables ----

  /** `ithread_cond_signal(&tp->condition)` that reaches worker `wake` */
  function Signal(ws: seq<Worker>, wake: nat): seq<Worker> {
    if wake < |ws| && ws[wake].Blocked? then ws[wake := Woken(false)] else ws
  }

  /** A signal reaches some worker if any is blocked. */
  predicate SignalReaches(ws: seq<Worker>, wake: nat) {
    (exists i :: 0 <= i < |ws| && ws[i].Blocked?) ==> wake < |ws| && ws[wake].Blocked?
  }

  function Unblocked(w: Worker): Worker {
    if w.Blocked? then Woken(false) else w
  }

  /** `ithread_cond_broadcast(&tp->condition)` */
  function WakeWorkers(ws: seq<Worker>): (r: seq<Worker>)
    ensures |r| == |ws| && forall i :: 0 <= i < |ws| ==> r[i] == Unblocked(ws[i])
  {
    seq(|ws|, i requires 0 <= i < |ws| => Unblocked(ws[i]))
  }

  function Awake(c: Client): Client {
    if c.Creating? || c.AwaitPickup? || c.AwaitThreads? then c.(asleep := false) else c
  }

  /** `ithread_cond_broadcast(&tp->start_and_shutdown)` */
  function WakeClients(cs: seq<Client>): (r: seq<Client>)
    ensures |r| == |cs| && forall i :: 0 <= i < |cs| ==> r[i] == Awake(cs[i])
  {
    seq(|cs|, i requires 0 <= i < |cs| => Awake(cs[i]))
  }

  predicate IsAsleep(c: Client) {
    (c.Creating? || c.AwaitPickup? || c.AwaitThreads?) && c.asleep
  }

  predicate IsAwake(c: Client) {
    (c.Creating? || c.AwaitPickup? || c.AwaitThreads?) && !c.asleep
  }

  predicate IsPersister(c: Client) {
    c.AwaitPickup? || (c.Creating? && c.goal.Persist?)
  }

  // ---- Workers ----

  /** A worker at the test of its inner loop, holding the mutex, until it gives the mutex up. */
  function DoCheck(s: System, w: nat, timedOut: bool, now: Time): System
    requires w < |s.workers|
  {
    var r := WorkerCheck(s.pool, timedOut, now);
    var t := s.(pool := r.pool, clock := now);
    match r.outcome
    case Block => t.(workers := s.workers[w := Blocked])
    case Run(job, persistent) =>
      if persistent then
        t.(workers := s.workers[w := Running(job, true)], clients := WakeClients(s.clients),
           history := s.history.(persistentStarted := s.history.persistentStarted + [job]))
      else
        t.(workers := s.workers[w := Running(job, false)],
           history := s.history.(started := s.history.started + [job]))
    case Exit => t.(workers := s.workers[w := Exited], clients := WakeClients(s.clients))
    case NeverHere => t.(workers := s.workers[w := Exited], clients := WakeClients(s.clients))
  }

  /** The top of the loop of `WorkerThread`: the worker counts as idle from here on. */
  function DoEnter(s: System, w: nat): System
    requires w < |s.workers|
  {
    s.(workers := s.workers[w := Woken(false)],
       pool := if s.workers[w].Running? then WorkerReturn(s.pool, s.workers[w].persistent) else WorkerEnter(s.pool))
  }

  // ---- Clients ----

  function SetClient(s: System, c: nat, k: Client): System
    requires c < |s.clients|
  {
    s.(clients := s.clients[c := k])
  }

  /** `ThreadPoolAdd` after `AddWorker` */
  function FinishAdd(s: System, c: nat, x: Choice): System
    requires c < |s.clients|
  {
    SetClient(s, c, Outside).(workers := Signal(s.workers, x.wake), pool := NextJobId(s.pool))
  }

  /** `ThreadPoolAddPersistent` from `CreateThreadPoolJob` to its wait */
  function FinishPersist(s: System, c: nat, priority: Priority, x: Choice): System
    requires c < |s.clients|
  {
    var job := Job(|s.history.accepted|, s.pool.lastJobId, priority, x.now);
    SetClient(s, c, AwaitPickup(true)).(
      pool := s.pool.(persistentJob := Some(job)), workers := Signal(s.workers, x.wake),
      history := s.history.(accepted := s.history.accepted + [job]))
  }

  /** `CreateWorker` has failed. */
  function CreationFails(s: System, c: nat, goal: Goal, x: Choice): System
    requires c < |s.clients|
  {
    match goal
    case Init(_) => SetClient(s, c, InitFailed).(phase := Broken)
    case Add(_, _) => FinishAdd(s, c, x)
    case Persist(priority) => FinishPersist(s, c, priority, x)
  }

  /** `CreateWorker` from the test of its first loop */
  function DoCreate(s: System, c: nat, goal: Goal, x: Choice): System
    requires c < |s.clients|
  {
    var r := TryCreate(s.pool, x.spawn);
    match r.creation
    case OtherStarting => SetClient(s, c, Creating(goal, false, true))
    case Spawned =>
      SetClient(s, c, Creating(goal, true, true)).(pool := r.pool, workers := s.workers + [Created])
    case MaxThreads => CreationFails(s, c, goal, x)
    case Again => CreationFails(s, c, goal, x)
  }

  /** The test of the loop of `ThreadPoolInit` */
  function InitPass(s: System, c: nat, i: nat, x: Choice): System
    requires c < |s.clients|
  {
    if i < s.pool.attr.minThreads then DoCreate(s, c, Init(i), x) else SetClient(s, c, Outside).(phase := Ready)
  }

  /** The test of the loop of `AddWorker` */
  function AddPass(s: System, c: nat, jobs: nat, threads: int, x: Choice): System
    requires c < |s.clients|
  {
    if WantsWorker(s.pool, jobs, threads) then DoCreate(s, c, Add(jobs, threads), x) else FinishAdd(s, c, x)
  }

  /** `CreateWorker` has succeeded. */
  function CreationSucceeds(s: System, c: nat, goal: Goal, x: Choice): System
    requires c < |s.clients|
  {
    match goal
    case Init(i) => InitPass(s, c, i + 1, x)
    case Add(jobs, threads) => AddPass(s, c, jobs, threads + 1, x)
    case Persist(priority) => FinishPersist(s, c, priority, x)
  }

  /** `ThreadPoolAdd` has put its job into a queue; the client counts as one that has yet to signal. */
  function DoEnqueue(s: System, c: nat, priority: Priority, now: Time): System
    requires c < |s.clients|
  {
    var job := Job(|s.history.accepted|, s.pool.lastJobId, priority, now);
    var p := Enqueue(s.pool, job);
    SetClient(s, c, Creating(Add(TotalJobs(p), p.totalThreads - p.persistentThreads), false, false)).(
      pool := p, history := s.history.(accepted := s.history.accepted + [job]))
  }

  /** A client that was awake has the mutex, and tests the condition that it waits for. */
  function DoResume(s: System, c: nat, x: Choice): System
    requires c < |s.clients|
  {
    match s.clients[c]
    case Creating(goal, spawned, _) =>
      if s.pool.pending then SetClient(s, c, Creating(goal, spawned, true))
      else if spawned then CreationSucceeds(s, c, goal, x)
      else DoCreate(s, c, goal, x)
    case AwaitPickup(_) =>
      if s.pool.persistentJob.Some? then SetClient(s, c, AwaitPickup(true))
      else SetClient(s, c, Outside).(pool := NextJobId(s.pool))
    case AwaitThreads(_) =>
      if s.pool.totalThreads > 0 then SetClient(s, c, AwaitThreads(true))
      else SetClient(s, c, Outside).(phase := Ended)
    case _ => s
  }

  function DoRemove(s: System, jobId: int): System {
    var r := Remove(s.pool, jobId);
    if r.job.None? then s
    else s.(pool := r.pool, history := s.history.(removed := s.history.removed + [r.job.value]))
  }

  /** `ThreadPoolShutdown` until its wait */
  function DoShutdown(s: System, c: nat): System
    requires c < |s.clients|
  {
    var t := s.(pool := Drain(s.pool), workers := WakeWorkers(s.workers),
                history := s.history.(dropped := s.history.dropped + Line(s.pool) + Slot(s.pool)));
    if s.pool.totalThreads > 0 then SetClient(t, c, AwaitThreads(true))
    else SetClient(t, c, Outside).(phase := Ended)
  }

  // ---- Events ----

  predicate IsLater(s: System, now: Time) {
    IsTime(now) && NotAfter(s.clock, now)
  }

  predicate IsChoice(s: System, x: Choice) {
    IsLater(s, x.now) && SignalReaches(s.workers, x.wake)
  }

  predicate Idles(s: System, c: nat) {
    s.phase == Ready && c < |s.clients| && s.clients[c] == Outside
  }

  /** When an event can happen. Clients call the other functions after `ThreadPoolInit` has returned 0, at
      most one at a time is in `ThreadPoolAddPersistent`, and nobody calls anything after the end of
      `ThreadPoolShutdown`. */
  predicate Enabled(s: System, e: Event) {
    && s.phase != Ended
    && match e
       case StartWorker(w) => w < |s.workers| && s.workers[w].Created?
       case Pass(w, now) => w < |s.workers| && (s.workers[w].Fresh? || s.workers[w].Running?) && IsLater(s, now)
       case Recheck(w, now) => w < |s.workers| && s.workers[w].Woken? && IsLater(s, now)
       case TimeOut(w) => w < |s.workers| && s.workers[w].Blocked?
       case WakeWorker(w) => w < |s.workers| && s.workers[w].Blocked?
       case WakeClient(c) => c < |s.clients| && IsAsleep(s.clients[c])
       case BeginInit(c, x) => s.phase == Unborn && c < |s.clients| && IsChoice(s, x)
       case BeginAdd(c, _, x) => Idles(s, c) && IsChoice(s, x)
       case BeginPersistent(c, _, x) => Idles(s, c) && IsChoice(s, x) && forall k <- s.clients :: !IsPersister(k)
       case Resume(c, x) => c < |s.clients| && IsAwake(s.clients[c]) && IsChoice(s, x)
       case RemoveJob(_) => s.phase == Ready
       case Shutdown(c) =>
         c < |s.clients| && !s.pool.shutdown && (Idles(s, c) || (s.phase == Broken && s.clients[c] == InitFailed))
  }

  function Apply(s: System, e: Event): System
    requires Enabled(s, e)
  {
    match e
    case StartWorker(w) =>
      s.(pool := WorkerStart(s.pool), workers := s.workers[w := Fresh], clients := WakeClients(s.clients))
    case Pass(w, now) => DoCheck(DoEnter(s, w), w, false, now)
    case Recheck(w, now) => DoCheck(s, w, s.workers[w].timedOut, now)
    case TimeOut(w) => s.(workers := s.workers[w := Woken(true)])
    case WakeWorker(w) => s.(workers := s.workers[w := Woken(false)])
    case WakeClient(c) => SetClient(s, c, Awake(s.clients[c]))
    case BeginInit(c, x) => InitPass(s.(phase := Starting), c, 0, x)
    case BeginAdd(c, priority, x) =>
      if IsFull(s.pool) then s
      else
        var t := DoEnqueue(s, c, priority, x.now);
        AddPass(t.(clock := x.now), c, t.clients[c].goal.jobs, t.clients[c].goal.threads, x)
    case BeginPersistent(c, priority, x) =>
      if s.pool.totalThreads < s.pool.attr.maxThreads then DoCreate(s.(clock := x.now), c, Persist(priority), x)
      else if RefusesPersistent(s.pool) then s
      else FinishPersist(s.(clock := x.now), c, priority, x)
    case Resume(c, x) => DoResume(s.(clock := x.now), c, x)
    case RemoveJob(jobId) => DoRemove(s, jobId)
    case Shutdown(c) => DoShutdown(s, c)
  }

  /** The state that a sequence of events leads to, if each of them can happen when it is its turn */
  function After(s: System, es: seq<Event>): Option<System> {
    if es == [] then Some(s)
    else
      var t := After(s, es[..|es| - 1]);
      if t.Some? && Enabled(t.value, es[|es| - 1]) then Some(Apply(t.value, es[|es| - 1])) else None
  }
}
