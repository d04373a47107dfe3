/** What every run of the thread pool keeps: the thread counters are exact, the limits on threads hold, no
    wakeup is lost, and the branch marked "Should never get here" is never reached. */
module PoolThreads {
  import opened Options
  import opened PoolSpec
  import opened PoolSystem

  // ---- Counting workers ----

  /** How many workers are in each state */
  datatype Tally = Tally(created: int, newborn: int, blocked: int, woken: int, short: int, long: int)

  function TallyOf(w: Worker): Tally {
    match w
    case Created => Tally(1, 0, 0, 0, 0, 0)
    case Fresh => Tally(0, 1, 0, 0, 0, 0)
    case Blocked => Tally(0, 0, 1, 0, 0, 0)
    case Woken(_) => Tally(0, 0, 0, 1, 0, 0)
    case Running(_, persistent) => if persistent then Tally(0, 0, 0, 0, 0, 1) else Tally(0, 0, 0, 0, 1, 0)
    case Exited => Tally(0, 0, 0, 0, 0, 0)
  }

  function Plus(a: Tally, b: Tally): Tally {
    Tally(a.created + b.created, a.newborn + b.newborn, a.blocked + b.blocked, a.woken + b.woken, a.short + b.short,
          a.long + b.long)
  }

  function Minus(a: Tally, b: Tally): Tally {
    Tally(a.created - b.created, a.newborn - b.newborn, a.blocked - b.blocked, a.woken - b.woken, a.short - b.short,
          a.long - b.long)
  }

  function Total(ws: seq<Worker>): Tally {
    if ws == [] then Tally(0, 0, 0, 0, 0, 0) else Plus(Total(ws[..|ws| - 1]), TallyOf(ws[|ws| - 1]))
  }

  predicate AtLeast(a: Tally, b: Tally) {
    && a.created >= b.created && a.newborn >= b.newborn && a.blocked >= b.blocked && a.woken >= b.woken
    && a.short >= b.short && a.long >= b.long
  }

  lemma TotalEmpty()
    ensures Total([]) == Tally(0, 0, 0, 0, 0, 0)
  {
  }

  lemma TotalStep(ws: seq<Worker>)
    requires ws != []
    ensures Total(ws) == Plus(Total(ws[..|ws| - 1]), TallyOf(ws[|ws| - 1]))
  {
  }

  lemma {:induction false} TotalUpdate(ws: seq<Worker>, i: nat, w: Worker)
    requires i < |ws|
    ensures Total(ws[i := w]) == Plus(Minus(Total(ws), TallyOf(ws[i])), TallyOf(w))
    ensures AtLeast(Total(ws), TallyOf(ws[i]))
  {
    hide Total, TallyOf;
    var n := |ws| - 1;
    TotalStep(ws);
    TotalStep(ws[i := w]);
    if i < n {
      TotalUpdate(ws[..n], i, w);
      TallyNatural(ws[n]);
      assert ws[i := w][..n] == ws[..n][i := w];
    } else {
      TotalNatural(ws[..n]);
      assert ws[i := w][..n] == ws[..n];
    }
  }

  lemma TallyNatural(w: Worker)
    ensures AtLeast(TallyOf(w), Tally(0, 0, 0, 0, 0, 0))
  {
  }

  lemma {:induction false} TotalNatural(ws: seq<Worker>)
    ensures AtLeast(Total(ws), Tally(0, 0, 0, 0, 0, 0))
  {
    if ws != [] {
      TotalNatural(ws[..|ws| - 1]);
    }
  }

  lemma TotalAppend(ws: seq<Worker>, w: Worker)
    ensures Total(ws + [w]) == Plus(Total(ws), TallyOf(w))
  {
    assert (ws + [w])[..|ws|] == ws;
  }

  lemma {:induction false} TotalBlocked(ws: seq<Worker>)
    requires Total(ws).blocked > 0
    ensures exists i :: 0 <= i < |ws| && ws[i].Blocked?
  {
    var n := |ws| - 1;
    if !ws[n].Blocked? {
      TotalBlocked(ws[..n]);
      var i :| 0 <= i < n && ws[..n][i].Blocked?;
      assert ws[i].Blocked?;
    }
  }

  lemma {:induction false} TotalCreated(ws: seq<Worker>)
    requires Total(ws).created > 0
    ensures exists i :: 0 <= i < |ws| && ws[i].Created?
  {
    var n := |ws| - 1;
    if !ws[n].Created? {
      TotalCreated(ws[..n]);
      var i :| 0 <= i < n && ws[..n][i].Created?;
      assert ws[i].Created?;
    }
  }

  lemma {:induction false} TotalWakeWorkers(ws: seq<Worker>)
    ensures var t := Total(ws); Total(WakeWorkers(ws)) == t.(blocked := 0, woken := t.woken + t.blocked)
  {
    hide Total;
    if ws == [] {
      TotalEmpty();
      assert WakeWorkers(ws) == [];
    } else {
      var n := |ws| - 1;
      TotalStep(ws);
      TotalStep(WakeWorkers(ws));
      TotalWakeWorkers(ws[..n]);
      assert WakeWorkers(ws)[..n] == WakeWorkers(ws[..n]);
    }
  }

  /** The tally counts: `short` and `long` together are the number of workers that run a job ... */
  lemma {:induction false} RunningIsCardinality(ws: seq<Worker>)
    ensures Total(ws).short + Total(ws).long == |set i | 0 <= i < |ws| && ws[i].Running?|
  {
    hide Total;
    var running := set i | 0 <= i < |ws| && ws[i].Running?;
    if ws == [] {
      TotalEmpty();
      assert running == {};
    } else {
      var n := |ws| - 1;
      var v := ws[..n];
      TotalStep(ws);
      RunningIsCardinality(v);
      var running' := set i | 0 <= i < |v| && v[i].Running?;
      if ws[n].Running? {
        assert running == running' + {n};
      } else {
        assert running == running';
      }
    }
  }

  predicate IsLong(w: Worker) {
    w.Running? && w.persistent
  }

  /** ... and `long` is the number of those that run a persistent one. */
  lemma {:induction false} LongIsCardinality(ws: seq<Worker>)
    ensures Total(ws).long == |set i | 0 <= i < |ws| && IsLong(ws[i])|
  {
    hide Total;
    var long := set i | 0 <= i < |ws| && IsLong(ws[i]);
    if ws == [] {
      TotalEmpty();
      assert long == {};
    } else {
      var n := |ws| - 1;
      var v := ws[..n];
      TotalStep(ws);
      LongIsCardinality(v);
      var long' := set i | 0 <= i < |v| && IsLong(v[i]);
      if IsLong(ws[n]) {
        assert long == long' + {n};
      } else {
        assert long == long';
      }
    }
  }

  // ---- Counting clients ----

  function Weight(c: Client): nat {
    if c.Creating? && c.goal.Add? then 1 else 0
  }

  /** How many clients have put a job into a queue and not signalled yet */
  function Adding(cs: seq<Client>): nat {
    if cs == [] then 0 else Adding(cs[..|cs| - 1]) + Weight(cs[|cs| - 1])
  }

  lemma {:induction false} AddingUpdate(cs: seq<Client>, c: nat, k: Client)
    requires c < |cs|
    ensures Adding(cs[c := k]) == Adding(cs) - Weight(cs[c]) + Weight(k)
    ensures Adding(cs) >= Weight(cs[c])
  {
    var n := |cs| - 1;
    if c < n {
      AddingUpdate(cs[..n], c, k);
      assert cs[c := k][..n] == cs[..n][c := k];
    } else {
      assert cs[c := k][..n] == cs[..n];
    }
  }

  lemma {:induction false} AddingWake(cs: seq<Client>)
    ensures Adding(WakeClients(cs)) == Adding(cs)
  {
    if cs != [] {
      var n := |cs| - 1;
      AddingWake(cs[..n]);
      assert WakeClients(cs)[..n] == WakeClients(cs[..n]);
    }
  }

  // ---- Invariants ----

  function Live(t: Tally): int {
    t.newborn + t.blocked + t.woken + t.short + t.long
  }

  function Pending(p: Pool): nat {
    if p.pending then 1 else 0
  }

  /** The counters of the pool are exact. */
  predicate Counted(p: Pool, t: Tally) {
    && p.totalThreads == Live(t)
    && p.busyThreads == t.short + t.long
    && p.persistentThreads == t.long
    && p.workerThreads == t.short
    && p.idleThreads == t.blocked + t.woken
    && Pending(p) == t.created
  }

  function MaxOf(a: int, b: int): int {
    if a >= b then a else b
  }

  /** Threads that run or are starting never exceed a finite `maxThreads`. */
  predicate Limited(p: Pool) {
    p.attr.maxThreads != INFINITE_THREADS ==> p.totalThreads + Pending(p) <= MaxOf(0, p.attr.maxThreads)
  }

  /** How many jobs wait for a worker */
  function Waiting(p: Pool): nat {
    |Line(p)| + |Slot(p)|
  }

  /** If some worker is blocked, then for each waiting job there is a worker that is about to look for one, or
      a client that has yet to signal. After a shutdown no worker is blocked. */
  predicate NoLostWakeup(p: Pool, t: Tally, adding: nat) {
    && (t.blocked > 0 ==> Waiting(p) <= t.newborn + t.woken + adding)
    && (p.shutdown ==> t.blocked == 0)
  }

  /** Threads asleep on `start_and_shutdown` in `CreateWorker` or `ThreadPoolShutdown` still have to wait. */
  predicate SoundSleep(p: Pool, cs: seq<Client>) {
    forall c :: 0 <= c < |cs| ==>
      && (cs[c].Creating? && cs[c].asleep ==> p.pending)
      && (cs[c].AwaitThreads? ==> p.shutdown && (cs[c].asleep ==> p.totalThreads > 0))
  }

  predicate IsIniting(c: Client, p: Pool) {
    && c.Creating? && c.goal.Init? && c.spawned
    && p.totalThreads + Pending(p) == c.goal.i + 1 <= p.attr.minThreads
  }

  predicate InPhase(s: System) {
    var p, cs := s.pool, s.clients;
    match s.phase
    case Unborn =>
      p == EmptyPool(p.attr) && s.workers == [] && forall c :: 0 <= c < |cs| ==> cs[c] == Outside
    case Starting =>
      && !p.shutdown && Waiting(p) == 0
      && exists k :: 0 <= k < |cs| && IsIniting(cs[k], p) && forall c :: 0 <= c < |cs| && c != k ==> cs[c] == Outside
    case Ready =>
      && (!p.shutdown ==> p.totalThreads >= p.attr.minThreads)
      && forall c :: 0 <= c < |cs| ==> !(cs[c].Creating? && cs[c].goal.Init?) && cs[c] != InitFailed
    case Broken =>
      && Waiting(p) == 0 && !p.pending
      && forall c :: 0 <= c < |cs| ==> cs[c] in {Outside, InitFailed} || cs[c].AwaitThreads?
    case Ended => p.shutdown && p.totalThreads == 0
  }

  predicate Inv(s: System) {
    && Counted(s.pool, Total(s.workers))
    && Limited(s.pool)
    && NoLostWakeup(s.pool, Total(s.workers), Adding(s.clients))
    && SoundSleep(s.pool, s.clients)
    && InPhase(s)
  }

  predicate Core(s: System) {
    && Counted(s.pool, Total(s.workers))
    && Limited(s.pool)
    && NoLostWakeup(s.pool, Total(s.workers), Adding(s.clients))
    && SoundSleep(s.pool, s.clients)
  }

  // ---- Signals ----

  lemma SignalTally(ws: seq<Worker>, wake: nat)
    requires SignalReaches(ws, wake)
    ensures var t := Total(ws);
      Total(Signal(ws, wake)) == if t.blocked > 0 then t.(blocked := t.blocked - 1, woken := t.woken + 1) else t
  {
    hide Total;
    TotalNatural(ws);
    if Total(ws).blocked > 0 {
      TotalBlocked(ws);
    }
    if wake < |ws| {
      TotalUpdate(ws, wake, Woken(false));
    }
  }

  // ---- Worker events ----

  lemma BumpCounts(p: Pool, now: Time)
    ensures var q := Bump(p, now);
      && q == p.(high := q.high, med := q.med, low := q.low)
      && Waiting(q) == Waiting(p)
  {
    hide Line, Bump;
    BumpMovesCuts(p, now);
  }

  /** What changes in the pool when a worker picks up a job. */
  predicate Took(p: Pool, q: Pool, persistent: bool) {
    && q.attr == p.attr && q.pending == p.pending && q.shutdown == p.shutdown
    && Waiting(q) == Waiting(p) - 1 && q.totalThreads == p.totalThreads
    && q.busyThreads == p.busyThreads + 1 && q.idleThreads == p.idleThreads
    && q.persistentThreads == p.persistentThreads + (if persistent then 1 else 0)
    && q.workerThreads == p.workerThreads + (if persistent then 0 else 1)
  }

  lemma TakeCounts(p: Pool)
    requires Waiting(p) > 0
    ensures var r := TakeJob(p); r.outcome.Run? && Took(p, r.pool, r.outcome.persistent)
  {
  }

  lemma NothingWaits(p: Pool)
    ensures NothingToDo(p) <==> Waiting(p) == 0 && !p.shutdown
  {
  }

  /** What the pool looks like when a worker gives up the mutex: it found no job, it took one, or it
      leaves. */
  predicate CheckEffect(p: Pool, r: PoolSpec.Checked, timedOut: bool) {
    var q := r.pool;
    match r.outcome
    case Block => q == p && Waiting(p) == 0 && !p.shutdown
    case Run(_, persistent) =>
      && !p.shutdown && Waiting(q) == Waiting(p) - 1
      && Took(p.(idleThreads := p.idleThreads - 1), q, persistent)
    case Exit =>
      && q.attr == p.attr && q.pending == p.pending && q.shutdown == p.shutdown
      && Waiting(q) == Waiting(p) && q.totalThreads == p.totalThreads - 1
      && q.idleThreads == p.idleThreads - 1 && q.busyThreads == p.busyThreads
      && q.persistentThreads == p.persistentThreads && q.workerThreads == p.workerThreads
      && (p.shutdown || (Waiting(p) == 0 && LetDie(p, timedOut)))
    case NeverHere => false
  }

  /** A worker that finds the queues and the slot empty blocks or leaves; otherwise `BumpPriority` does not
      empty the queues, so it takes a job and never gets to the branch "Should never get here". */
  lemma CheckCounts(p: Pool, timedOut: bool, now: Time)
    ensures CheckEffect(p, WorkerCheck(p, timedOut, now), timedOut)
  {
    hide Bump, Line, Waiting, TakeJob, LetDie, NothingToDo;
    NothingWaits(p);
    if NothingToDo(p) {
      SameWaiting(p, p.(idleThreads := p.idleThreads - 1, totalThreads := p.totalThreads - 1));
    } else {
      var p' := p.(idleThreads := p.idleThreads - 1);
      SameWaiting(p, p');
      var q := Bump(p', now);
      BumpCounts(p', now);
      if q.shutdown {
        SameWaiting(q, q.(totalThreads := q.totalThreads - 1));
      } else {
        TakeCounts(q);
      }
    }
  }

  lemma SameWaiting(p: Pool, q: Pool)
    requires q.high == p.high && q.med == p.med && q.low == p.low && q.persistentJob == p.persistentJob
    ensures Waiting(q) == Waiting(p)
  {
  }

  lemma CheckKeeps(s: System, w: nat, timedOut: bool, now: Time)
    requires Inv(s) && s.phase != Unborn && w < |s.workers| && s.workers[w].Woken?
    ensures Inv(DoCheck(s, w, timedOut, now))
    ensures !WorkerCheck(s.pool, timedOut, now).outcome.NeverHere?
  {
    hide WorkerCheck, DoCheck, Counted, Limited, NoLostWakeup, SoundSleep, InPhase, Waiting, LetDie;
    CheckCounts(s.pool, timedOut, now);
    CheckCounted(s, w, timedOut, now);
    CheckSleep(s, w, timedOut, now);
    CheckPhase(s, w, timedOut, now);
  }

  function Checked(s: System, timedOut: bool, now: Time): Worker {
    match WorkerCheck(s.pool, timedOut, now).outcome
    case Block => Blocked
    case Run(job, persistent) => Running(job, persistent)
    case Exit => Exited
    case NeverHere => Exited
  }

  lemma CheckCounted(s: System, w: nat, timedOut: bool, now: Time)
    requires Inv(s) && w < |s.workers| && s.workers[w].Woken?
    ensures var t := DoCheck(s, w, timedOut, now);
      Counted(t.pool, Total(t.workers)) && NoLostWakeup(t.pool, Total(t.workers), Adding(t.clients))
  {
    hide WorkerCheck, Total, Adding, Waiting, SoundSleep, InPhase, Limited, LetDie;
    CheckCounts(s.pool, timedOut, now);
    AddingWake(s.clients);
    TotalNatural(s.workers);
    TotalUpdate(s.workers, w, Checked(s, timedOut, now));
    var t := DoCheck(s, w, timedOut, now);
    assert t.workers == s.workers[w := Checked(s, timedOut, now)];
  }

  lemma CheckSleep(s: System, w: nat, timedOut: bool, now: Time)
    requires Inv(s) && w < |s.workers| && s.workers[w].Woken?
    ensures var t := DoCheck(s, w, timedOut, now); SoundSleep(t.pool, t.clients)
  {
    hide WorkerCheck, Waiting, Counted, NoLostWakeup, InPhase, Limited, LetDie;
    CheckCounts(s.pool, timedOut, now);
  }

  lemma CheckPhase(s: System, w: nat, timedOut: bool, now: Time)
    requires Inv(s) && s.phase != Unborn && w < |s.workers| && s.workers[w].Woken?
    ensures InPhase(DoCheck(s, w, timedOut, now))
    ensures Limited(DoCheck(s, w, timedOut, now).pool)
  {
    hide WorkerCheck, Total, Adding, Waiting;
    var r := WorkerCheck(s.pool, timedOut, now);
    CheckCounts(s.pool, timedOut, now);
    TotalUpdate(s.workers, w, Exited);
    TotalNatural(s.workers);
    var t := DoCheck(s, w, timedOut, now);
    if s.phase == Starting {
      var k :| 0 <= k < |s.clients| && IsIniting(s.clients[k], s.pool)
               && forall c :: 0 <= c < |s.clients| && c != k ==> s.clients[c] == Outside;
      assert IsIniting(t.clients[k], t.pool);
    }
  }

  lemma EnterKeeps(s: System, w: nat)
    requires Inv(s) && w < |s.workers| && (s.workers[w].Fresh? || s.workers[w].Running?)
    ensures var t := DoEnter(s, w);
      Inv(t) && t.phase == s.phase && |t.workers| == |s.workers| && t.workers[w] == Woken(false)
  {
    hide Total, Adding, Waiting, InPhase;
    PhaseHasWorkers(s);
    TotalUpdate(s.workers, w, Woken(false));
    TotalNatural(s.workers);
    var t := DoEnter(s, w);
    SameWaiting(s.pool, t.pool);
    KeepsPhase(s, t);
  }

  /** An event that leaves the clients and what they wait for as they are */
  lemma KeepsPhase(s: System, t: System)
    requires InPhase(s) && s.phase != Unborn
    requires t.phase == s.phase && t.clients == s.clients && t.pool.attr == s.pool.attr
    requires t.pool.shutdown == s.pool.shutdown && t.pool.pending == s.pool.pending
    requires t.pool.totalThreads == s.pool.totalThreads && Waiting(t.pool) == Waiting(s.pool)
    ensures InPhase(t)
  {
    hide Waiting;
    if s.phase == Starting {
      var k :| 0 <= k < |s.clients| && IsIniting(s.clients[k], s.pool)
               && forall c :: 0 <= c < |s.clients| && c != k ==> s.clients[c] == Outside;
      assert IsIniting(t.clients[k], t.pool);
    }
  }

  lemma StartKeeps(s: System, w: nat)
    requires Inv(s) && w < |s.workers| && s.workers[w].Created? && s.phase != Ended
    ensures Inv(Apply(s, StartWorker(w)))
  {
    hide Total, Adding, Waiting;
    TotalUpdate(s.workers, w, Fresh);
    AddingWake(s.clients);
    TotalNatural(s.workers);
    SameWaiting(s.pool, WorkerStart(s.pool));
    var t := Apply(s, StartWorker(w));
    if s.phase == Starting {
      var k :| 0 <= k < |s.clients| && IsIniting(s.clients[k], s.pool)
               && forall c :: 0 <= c < |s.clients| && c != k ==> s.clients[c] == Outside;
      assert IsIniting(t.clients[k], t.pool);
    }
  }

  /** A blocked worker wakes up. */
  lemma UnblockKeeps(s: System, w: nat, timedOut: bool)
    requires Inv(s) && w < |s.workers| && s.workers[w].Blocked?
    ensures Inv(s.(workers := s.workers[w := Woken(timedOut)]))
  {
    hide Total, Adding;
    TotalUpdate(s.workers, w, Woken(timedOut));
    KeepsPhase(s, s.(workers := s.workers[w := Woken(timedOut)]));
  }

  lemma WakeClientKeeps(s: System, c: nat)
    requires Inv(s) && c < |s.clients| && IsAsleep(s.clients[c])
    ensures Inv(SetClient(s, c, Awake(s.clients[c])))
  {
    hide Total, Adding, Waiting;
    AddingUpdate(s.clients, c, Awake(s.clients[c]));
    var t := SetClient(s, c, Awake(s.clients[c]));
    if s.phase == Starting {
      var k :| 0 <= k < |s.clients| && IsIniting(s.clients[k], s.pool)
               && forall c :: 0 <= c < |s.clients| && c != k ==> s.clients[c] == Outside;
      assert IsIniting(t.clients[k], t.pool);
    }
  }

  // ---- Client events ----

  lemma FinishAddKeeps(s: System, c: nat, x: Choice)
    requires Core(s) && InPhase(s) && s.phase == Ready && SignalReaches(s.workers, x.wake)
    requires c < |s.clients| && s.clients[c].Creating? && s.clients[c].goal.Add?
    ensures Inv(FinishAdd(s, c, x))
  {
    hide Total, Adding, Signal, SignalReaches;
    SignalTally(s.workers, x.wake);
    AddingUpdate(s.clients, c, Outside);
  }

  lemma FinishPersistKeeps(s: System, c: nat, priority: Priority, x: Choice)
    requires Core(s) && InPhase(s) && s.phase == Ready && SignalReaches(s.workers, x.wake)
    requires c < |s.clients| && Weight(s.clients[c]) == 0
    ensures Inv(FinishPersist(s, c, priority, x))
  {
    hide Total, Adding, Signal, SignalReaches;
    SignalTally(s.workers, x.wake);
    AddingUpdate(s.clients, c, AwaitPickup(true));
  }

  lemma CreateKeeps(s: System, c: nat, goal: Goal, x: Choice)
    requires Core(s) && InPhase(s) && s.phase == Ready && SignalReaches(s.workers, x.wake)
    requires c < |s.clients| && !goal.Init?
    requires Weight(s.clients[c]) == if goal.Add? then 1 else 0
    ensures Inv(DoCreate(s, c, goal, x))
  {
    hide Total, Adding, Waiting, Signal, SignalReaches;
    if s.pool.pending {
      AddingUpdate(s.clients, c, Creating(goal, false, true));
    } else if TooManyThreads(s.pool) || !x.spawn {
      if goal.Add? {
        FinishAddKeeps(s, c, x);
      } else {
        FinishPersistKeeps(s, c, goal.priority, x);
      }
    } else {
      AddingUpdate(s.clients, c, Creating(goal, true, true));
      TotalAppend(s.workers, Created);
      SameWaiting(s.pool, s.pool.(pending := true));
    }
  }

  /** `ThreadPoolInit` before it creates thread `i` */
  predicate Initing(s: System, c: nat, i: nat) {
    && Core(s) && s.phase == Starting && !s.pool.shutdown && Waiting(s.pool) == 0 && !s.pool.pending
    && s.pool.totalThreads == i
    && c < |s.clients| && Weight(s.clients[c]) == 0
    && forall k :: 0 <= k < |s.clients| && k != c ==> s.clients[k] == Outside
  }

  lemma InitKeeps(s: System, c: nat, i: nat, x: Choice)
    requires Initing(s, c, i)
    ensures Inv(InitPass(s, c, i, x))
  {
    hide Total, Adding, Waiting;
    var t := InitPass(s, c, i, x);
    AddingUpdate(s.clients, c, t.clients[c]);
    TotalAppend(s.workers, Created);
    SameWaiting(s.pool, s.pool.(pending := true));
    if t.phase == Starting {
      assert IsIniting(t.clients[c], t.pool);
    }
  }

  lemma AddPassKeeps(s: System, c: nat, jobs: nat, threads: int, x: Choice)
    requires Core(s) && InPhase(s) && s.phase == Ready && SignalReaches(s.workers, x.wake)
    requires c < |s.clients| && s.clients[c].Creating? && s.clients[c].goal.Add?
    ensures Inv(AddPass(s, c, jobs, threads, x))
  {
    hide Core, InPhase, SignalReaches, DoCreate, FinishAdd, Inv, WantsWorker;
    if WantsWorker(s.pool, jobs, threads) {
      CreateKeeps(s, c, Add(jobs, threads), x);
    } else {
      FinishAddKeeps(s, c, x);
    }
  }

  lemma EnqueueKeeps(s: System, c: nat, priority: Priority, now: Time)
    requires Inv(s) && Idles(s, c)
    ensures var t := DoEnqueue(s, c, priority, now);
      && Core(t) && InPhase(t) && t.phase == Ready && t.workers == s.workers
      && |t.clients| == |s.clients| && t.clients[c].Creating? && t.clients[c].goal.Add?
  {
    hide Total, Adding;
    var t := DoEnqueue(s, c, priority, now);
    AddingUpdate(s.clients, c, t.clients[c]);
    EnqueueCounts(s.pool, t.history.accepted[|s.history.accepted|]);
  }

  lemma EnqueueCounts(p: Pool, job: Job)
    ensures Waiting(Enqueue(p, job)) == Waiting(p) + 1
  {
  }

  lemma BeginAddKeeps(s: System, c: nat, priority: Priority, x: Choice)
    requires Inv(s) && Enabled(s, BeginAdd(c, priority, x))
    ensures Inv(Apply(s, BeginAdd(c, priority, x)))
  {
    hide Core, InPhase, Inv, IsFull, AddPass, DoEnqueue, SignalReaches;
    if !IsFull(s.pool) {
      EnqueueKeeps(s, c, priority, x.now);
      var t := DoEnqueue(s, c, priority, x.now);
      ClockIrrelevant(t, x.now);
      AddPassKeeps(t.(clock := x.now), c, t.clients[c].goal.jobs, t.clients[c].goal.threads, x);
    }
  }

  lemma ClockIrrelevant(s: System, now: Time)
    ensures Core(s.(clock := now)) == Core(s)
    ensures InPhase(s.(clock := now)) == InPhase(s)
    ensures Inv(s.(clock := now)) == Inv(s)
  {
    hide Counted, Limited, NoLostWakeup, SoundSleep, Waiting;
  }

  lemma BeginPersistentKeeps(s: System, c: nat, priority: Priority, x: Choice)
    requires Inv(s) && Enabled(s, BeginPersistent(c, priority, x))
    ensures Inv(Apply(s, BeginPersistent(c, priority, x)))
  {
    hide InPhase, DoCreate, FinishPersist, SignalReaches, Counted, Limited, NoLostWakeup, SoundSleep;
    ClockIrrelevant(s, x.now);
    var t := s.(clock := x.now);
    if s.pool.totalThreads < s.pool.attr.maxThreads {
      CreateKeeps(t, c, Persist(priority), x);
    } else if !RefusesPersistent(s.pool) {
      FinishPersistKeeps(t, c, priority, x);
    }
  }

  lemma BeginInitKeeps(s: System, c: nat, x: Choice)
    requires Inv(s) && Enabled(s, BeginInit(c, x))
    ensures Inv(Apply(s, BeginInit(c, x)))
  {
    hide Total, Adding, Waiting, InitPass, SignalReaches;
    EmptyPoolWaits(s.pool.attr);
    InitKeeps(s.(phase := Starting), c, 0, x);
  }

  lemma EmptyPoolWaits(attr: Attr)
    ensures Waiting(EmptyPool(attr)) == 0
  {
  }

  lemma ResumeCreatingKeeps(s: System, c: nat, x: Choice)
    requires Inv(s) && s.phase != Ended && c < |s.clients| && SignalReaches(s.workers, x.wake)
    requires s.clients[c].Creating? && !s.clients[c].asleep
    ensures Inv(DoResume(s, c, x))
  {
    hide Total, Adding, Waiting, SignalReaches, InitPass, DoCreate, AddPass, FinishPersist;
    var goal, spawned := s.clients[c].goal, s.clients[c].spawned;
    if s.pool.pending {
      var t := SetClient(s, c, Creating(goal, spawned, true));
      AddingUpdate(s.clients, c, t.clients[c]);
      if s.phase == Starting {
        assert IsIniting(t.clients[c], t.pool);
      }
    } else if s.phase == Starting {
      InitKeeps(s, c, goal.i + 1, x);
    } else if !spawned {
      CreateKeeps(s, c, goal, x);
    } else if goal.Add? {
      AddPassKeeps(s, c, goal.jobs, goal.threads + 1, x);
    } else {
      FinishPersistKeeps(s, c, goal.priority, x);
    }
  }

  /** A client that was in one of the other two waits goes back to it, or leaves. */
  lemma ResumeOtherKeeps(s: System, c: nat, x: Choice)
    requires Inv(s) && s.phase != Ended && c < |s.clients|
    requires (s.clients[c].AwaitPickup? || s.clients[c].AwaitThreads?) && !s.clients[c].asleep
    ensures Inv(DoResume(s, c, x))
  {
    hide Total, Adding, Waiting, Counted, NoLostWakeup, Limited, SoundSleep, InPhase;
    TotalNatural(s.workers);
    NotNegative(s);
    if s.clients[c].AwaitPickup? {
      var k := if s.pool.persistentJob.Some? then AwaitPickup(true) else Outside;
      LeavesPickup(s, c, k, DoResume(s, c, x).pool);
    } else {
      var ended := s.pool.totalThreads <= 0;
      LeavesThreads(s, c, if ended then Outside else AwaitThreads(true), if ended then Ended else s.phase);
    }
  }

  lemma NotNegative(s: System)
    requires Inv(s)
    ensures s.pool.totalThreads >= 0
  {
    hide Total;
    TotalNatural(s.workers);
  }

  lemma LeavesPickup(s: System, c: nat, k: Client, p: Pool)
    requires Inv(s) && s.phase != Ended && c < |s.clients| && s.clients[c].AwaitPickup?
    requires k in {AwaitPickup(true), Outside} && (p == s.pool || p == NextJobId(s.pool))
    ensures Inv(SetClient(s, c, k).(pool := p))
  {
    hide Total, Adding, Waiting;
    AddingUpdate(s.clients, c, k);
    SameWaiting(s.pool, p);
  }

  lemma LeavesThreads(s: System, c: nat, k: Client, phase: Phase)
    requires Inv(s) && s.phase != Ended && c < |s.clients| && s.clients[c].AwaitThreads?
    requires if s.pool.totalThreads == 0 then k == Outside && phase == Ended
             else s.pool.totalThreads > 0 && k == AwaitThreads(true) && phase == s.phase
    ensures Inv(SetClient(s, c, k).(phase := phase))
  {
    hide Total, Adding, Waiting;
    AddingUpdate(s.clients, c, k);
  }

  lemma RemoveKeeps(s: System, jobId: int)
    requires Inv(s) && s.phase == Ready
    ensures Inv(DoRemove(s, jobId))
  {
    hide Total, Adding, IndexOf;
    IndexOfFirst(s.pool.high, jobId);
    IndexOfFirst(s.pool.med, jobId);
    IndexOfFirst(s.pool.low, jobId);
  }

  lemma ShutdownKeeps(s: System, c: nat)
    requires Inv(s) && s.phase in {Ready, Broken} && c < |s.clients| && s.clients[c] in {Outside, InitFailed}
    ensures Inv(DoShutdown(s, c))
  {
    hide Total, Adding, Waiting, WakeWorkers;
    TotalWakeWorkers(s.workers);
    TotalNatural(s.workers);
    var k := if s.pool.totalThreads > 0 then AwaitThreads(true) else Outside;
    AddingUpdate(s.clients, c, k);
    DrainCounts(s.pool);
    var t := DoShutdown(s, c);
    assert t.clients == s.clients[c := k];
  }

  lemma DrainCounts(p: Pool)
    ensures Waiting(Drain(p)) == 0
  {
  }

  // ---- Main results ----

  /** Every event keeps the invariant. */
  lemma EventKeeps(s: System, e: Event)
    requires Inv(s) && Enabled(s, e)
    ensures Inv(Apply(s, e))
  {
    hide Core, Inv, DoCheck, DoEnter, DoResume, DoRemove, DoShutdown, SetClient, InitPass, AddPass, DoCreate,
         FinishPersist;
    match e
    case StartWorker(w) => StartKeeps(s, w);
    case Pass(w, now) => EnterKeeps(s, w); PhaseHasWorkers(s); CheckKeeps(DoEnter(s, w), w, false, now);
    case Recheck(w, now) => PhaseHasWorkers(s); CheckKeeps(s, w, s.workers[w].timedOut, now);
    case TimeOut(w) => UnblockKeeps(s, w, true);
    case WakeWorker(w) => UnblockKeeps(s, w, false);
    case WakeClient(c) => WakeClientKeeps(s, c);
    case BeginInit(c, x) => BeginInitKeeps(s, c, x);
    case BeginAdd(c, priority, x) => BeginAddKeeps(s, c, priority, x);
    case BeginPersistent(c, priority, x) => BeginPersistentKeeps(s, c, priority, x);
    case Resume(c, x) =>
      ClockIrrelevant(s, x.now);
      var t := s.(clock := x.now);
      if s.clients[c].Creating? {
        ResumeCreatingKeeps(t, c, x);
      } else {
        ResumeOtherKeeps(t, c, x);
      }
    case RemoveJob(jobId) => RemoveKeeps(s, jobId);
    case Shutdown(c) => ShutdownKeeps(s, c);
  }

  lemma PhaseHasWorkers(s: System)
    requires Inv(s) && s.workers != []
    ensures s.phase != Unborn
  {
  }

  lemma InitialHolds(attr: Attr, clients: nat, clock: Time)
    ensures Inv(InitialSystem(attr, clients, clock))
  {
    hide Counted, Limited, NoLostWakeup, SoundSleep, InPhase, Waiting, Total, AllOutside;
    AddingNone(clients);
    TotalEmpty();
    EmptyPoolWaits(attr);
    EmptyPoolCounted(attr);
    OutsidePhase(InitialSystem(attr, clients, clock));
  }

  lemma EmptyPoolCounted(attr: Attr)
    ensures Counted(EmptyPool(attr), Tally(0, 0, 0, 0, 0, 0))
    ensures Limited(EmptyPool(attr))
    ensures NoLostWakeup(EmptyPool(attr), Tally(0, 0, 0, 0, 0, 0), 0)
  {
  }

  lemma OutsidePhase(s: System)
    requires s.phase == Unborn && s.pool == EmptyPool(s.pool.attr) && s.workers == []
    requires forall c :: 0 <= c < |s.clients| ==> s.clients[c] == Outside
    ensures InPhase(s) && SoundSleep(s.pool, s.clients)
  {
  }

  lemma {:induction false} AddingNone(n: nat)
    ensures Adding(AllOutside(n)) == 0
  {
    if n > 0 {
      AddingNone(n - 1);
      assert AllOutside(n)[..n - 1] == AllOutside(n - 1);
    }
  }

  /** Every run keeps the invariant. */
  lemma {:induction false} RunKeeps(s: System, es: seq<Event>)
    requires Inv(s) && After(s, es).Some?
    ensures Inv(After(s, es).value)
  {
    hide Inv, Apply, Enabled;
    if es != [] {
      var front := es[..|es| - 1];
      RunKeeps(s, front);
      EventKeeps(After(s, front).value, es[|es| - 1]);
    }
  }

  /** A state that the pool can get into */
  ghost predicate Reachable(s: System, attr: Attr) {
    exists clients: nat, clock: Time, es: seq<Event> ::
      IsTime(clock) && After(InitialSystem(attr, clients, clock), es) == Some(s)
  }

  lemma ReachableHolds(s: System, attr: Attr)
    requires Reachable(s, attr)
    ensures Inv(s) && s.pool.attr == attr
  {
    hide Inv;
    var clients: nat, clock: Time, es :|
      IsTime(clock) && After(InitialSystem(attr, clients, clock), es) == Some(s);
    InitialHolds(attr, clients, clock);
    RunKeeps(InitialSystem(attr, clients, clock), es);
    AttrStays(InitialSystem(attr, clients, clock), es);
  }

  lemma {:induction false} AttrStays(s: System, es: seq<Event>)
    requires After(s, es).Some?
    ensures After(s, es).value.pool.attr == s.pool.attr
  {
    hide Apply, Enabled;
    if es != [] {
      var front := es[..|es| - 1];
      AttrStays(s, front);
      AttrStaysOnce(After(s, front).value, es[|es| - 1]);
    }
  }

  lemma AttrStaysOnce(s: System, e: Event)
    requires Enabled(s, e)
    ensures Apply(s, e).pool.attr == s.pool.attr
  {
    hide WakeWorkers, WakeClients, Signal, SignalReaches, WorkerCheck, Remove, DoResume, AddPass, InitPass, DoCreate;
    match e
    case BeginInit(c, x) => CreateKeepsAttr(s.(phase := Starting), c, Init(0), x);
    case BeginAdd(c, priority, x) =>
      var t := DoEnqueue(s, c, priority, x.now).(clock := x.now);
      CreateKeepsAttr(t, c, t.clients[c].goal, x);
    case BeginPersistent(c, priority, x) => CreateKeepsAttr(s.(clock := x.now), c, Persist(priority), x);
    case Resume(c, x) => ResumeKeepsAttr(s.(clock := x.now), c, x);
    case Pass(w, now) => CheckCounts(DoEnter(s, w).pool, false, now);
    case Recheck(w, now) => CheckCounts(s.pool, s.workers[w].timedOut, now);
    case RemoveJob(jobId) => RemoveKeepsAttr(s.pool, jobId);
    case _ =>
  }

  lemma CreateKeepsAttr(s: System, c: nat, goal: Goal, x: Choice)
    requires c < |s.clients|
    ensures DoCreate(s, c, goal, x).pool.attr == s.pool.attr
    ensures goal.Init? ==> InitPass(s, c, goal.i, x).pool.attr == s.pool.attr
    ensures goal.Add? ==> AddPass(s, c, goal.jobs, goal.threads, x).pool.attr == s.pool.attr
  {
    hide Signal;
  }

  lemma ResumeKeepsAttr(s: System, c: nat, x: Choice)
    requires c < |s.clients|
    ensures DoResume(s, c, x).pool.attr == s.pool.attr
  {
    hide Signal, InitPass, AddPass, DoCreate;
    if s.clients[c].Creating? {
      var goal := s.clients[c].goal;
      CreateKeepsAttr(s, c, goal, x);
      if goal.Init? {
        CreateKeepsAttr(s, c, Init(goal.i + 1), x);
      } else if goal.Add? {
        CreateKeepsAttr(s, c, Add(goal.jobs, goal.threads + 1), x);
      }
    }
  }

  lemma RemoveKeepsAttr(p: Pool, jobId: int)
    ensures Remove(p, jobId).pool.attr == p.attr
  {
  }

  predicate IsLive(w: Worker) {
    !w.Created? && !w.Exited?
  }

  lemma {:induction false} LiveIsCardinality(ws: seq<Worker>)
    ensures Live(Total(ws)) == |set i | 0 <= i < |ws| && IsLive(ws[i])|
  {
    hide Total;
    var live := set i | 0 <= i < |ws| && IsLive(ws[i]);
    if ws == [] {
      TotalEmpty();
      assert live == {};
    } else {
      var n := |ws| - 1;
      var v := ws[..n];
      TotalStep(ws);
      LiveIsCardinality(v);
      var live' := set i | 0 <= i < |v| && IsLive(v[i]);
      if IsLive(ws[n]) {
        assert live == live' + {n};
      } else {
        assert live == live';
      }
    }
  }

  /** Thread accounting, for any number of clients that add jobs at the same time: the counters are exact,
      a finite `maxThreads` is never exceeded, and from the end of a successful `ThreadPoolInit` until the
      shutdown there are at least `minThreads` threads. */
  lemma ThreadsAreAccounted(s: System, attr: Attr)
    requires Reachable(s, attr)
    ensures var p, ws := s.pool, s.workers;
      && p.totalThreads == |set i | 0 <= i < |ws| && IsLive(ws[i])|
      && p.busyThreads == |set i | 0 <= i < |ws| && ws[i].Running?|
      && p.persistentThreads == |set i | 0 <= i < |ws| && IsLong(ws[i])|
      && (attr.maxThreads >= 0 ==> p.totalThreads + Pending(p) <= attr.maxThreads)
      && (s.phase == Ready && !p.shutdown ==> p.totalThreads >= attr.minThreads)
  {
    hide NoLostWakeup, SoundSleep, Total;
    ReachableHolds(s, attr);
    LiveIsCardinality(s.workers);
    RunningIsCardinality(s.workers);
    LongIsCardinality(s.workers);
  }

  /** `ThreadPoolShutdown` returns only when every worker that has started is gone. */
  lemma ShutdownWaitsForWorkers(s: System, attr: Attr)
    requires Reachable(s, attr) && s.phase == Ended
    ensures forall i :: 0 <= i < |s.workers| ==> !IsLive(s.workers[i])
  {
    hide NoLostWakeup, SoundSleep, Total;
    ReachableHolds(s, attr);
    LiveIsCardinality(s.workers);
    var live := set i | 0 <= i < |s.workers| && IsLive(s.workers[i]);
    forall i | 0 <= i < |s.workers|
      ensures !IsLive(s.workers[i])
    {
      assert i !in live;
    }
  }

  /** A worker that is awake and about to look for a job */
  predicate IsLooking(w: Worker) {
    w.Fresh? || w.Woken?
  }

  lemma {:induction false} LookingIsCardinality(ws: seq<Worker>)
    ensures Total(ws).newborn + Total(ws).woken == |set i | 0 <= i < |ws| && IsLooking(ws[i])|
  {
    hide Total;
    var looking := set i | 0 <= i < |ws| && IsLooking(ws[i]);
    if ws == [] {
      TotalEmpty();
      assert looking == {};
    } else {
      var n := |ws| - 1;
      var v := ws[..n];
      TotalStep(ws);
      LookingIsCardinality(v);
      var looking' := set i | 0 <= i < |v| && IsLooking(v[i]);
      if IsLooking(ws[n]) {
        assert looking == looking' + {n};
      } else {
        assert looking == looking';
      }
    }
  }

  /** A client that has put a job into a queue and not signalled yet */
  predicate IsAdding(c: Client) {
    c.Creating? && c.goal.Add?
  }

  lemma {:induction false} AddingIsCardinality(cs: seq<Client>)
    ensures Adding(cs) == |set c | 0 <= c < |cs| && IsAdding(cs[c])|
  {
    var adding := set c | 0 <= c < |cs| && IsAdding(cs[c]);
    if cs == [] {
      assert adding == {};
    } else {
      var n := |cs| - 1;
      var v := cs[..n];
      AddingIsCardinality(v);
      var adding' := set c | 0 <= c < |v| && IsAdding(v[c]);
      if IsAdding(cs[n]) {
        assert adding == adding' + {n};
      } else {
        assert adding == adding';
      }
    }
  }

  /** No wakeup is lost: if some worker is blocked, the waiting jobs, with the one in the persistent slot, are no
      more than the workers that are awake and about to look for a job and the clients that have yet to signal. */
  lemma NoWakeupIsLost(s: System, attr: Attr)
    requires Reachable(s, attr)
    requires exists i :: 0 <= i < |s.workers| && s.workers[i].Blocked?
    ensures var ws, cs := s.workers, s.clients;
      Waiting(s.pool) <= |set i | 0 <= i < |ws| && IsLooking(ws[i])| + |set c | 0 <= c < |cs| && IsAdding(cs[c])|
    ensures !s.pool.shutdown
  {
    hide Counted, Limited, SoundSleep, InPhase, Total, Adding, Waiting;
    ReachableHolds(s, attr);
    var i :| 0 <= i < |s.workers| && s.workers[i].Blocked?;
    TotalUpdate(s.workers, i, Exited);
    LookingIsCardinality(s.workers);
    AddingIsCardinality(s.clients);
  }

  /** So a waiting job never faces only sleeping workers. */
  lemma WaitingJobIsSeen(s: System, attr: Attr)
    requires Reachable(s, attr) && Waiting(s.pool) > 0
    requires exists i :: 0 <= i < |s.workers| && s.workers[i].Blocked?
    ensures || (exists i :: 0 <= i < |s.workers| && IsLooking(s.workers[i]))
            || (exists c :: 0 <= c < |s.clients| && IsAdding(s.clients[c]))
  {
    NoWakeupIsLost(s, attr);
    var looking := set i | 0 <= i < |s.workers| && IsLooking(s.workers[i]);
    var adding := set c | 0 <= c < |s.clients| && IsAdding(s.clients[c]);
    if i :| i in looking {
      assert IsLooking(s.workers[i]);
    } else {
      assert adding != {};
      var c :| c in adding;
      assert IsAdding(s.clients[c]);
    }
  }
}
