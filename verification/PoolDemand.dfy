/** When the pool takes a job, when it creates a worker for it, and when an idle worker leaves. The conditions are
    written out here on the queues and on the workers themselves. */
module PoolDemand {
  import opened Options
  import opened PoolSpec
  import opened PoolSystem
  import opened PoolReach
  import T = PoolThreads
  import J = PoolJobs

  // ---- The loop of AddWorker ----

  /** Some worker has started and is not running a job. */
  predicate SomeoneIsFree(ws: seq<Worker>) {
    exists i :: 0 <= i < |ws| && (ws[i].Fresh? || ws[i].Blocked? || ws[i].Woken?)
  }

  /** Neither of the two reasons for another worker is there: for `threads` threads there are fewer than
      `jobsPerThread` jobs each, and some worker is free. */
  predicate IsEnough(s: System, jobs: nat, threads: int) {
    threads != 0 && jobs / threads < s.pool.attr.jobsPerThread && SomeoneIsFree(s.workers)
  }

  /** A worker cannot be created: there are as many as allowed, or the system makes no thread. */
  predicate CannotCreate(s: System, x: Choice) {
    (s.pool.attr.maxThreads != -1 && s.pool.totalThreads + 1 > s.pool.attr.maxThreads) || !x.spawn
  }

  predicate IsOf(e: Event, c: nat) {
    (e.BeginAdd? || e.Resume?) && e.c == c
  }

  predicate HasRoom(p: Pool) {
    |p.high| + |p.med| + |p.low| < p.attr.maxJobsTotal
  }

  /** Client `c` comes to the test of the loop: with a new job, or after a worker that it created has started. */
  predicate AtTest(s: System, e: Event, c: nat) {
    && IsOf(e, c) && c < |s.clients|
    && if e.BeginAdd? then HasRoom(s.pool)
       else s.clients[c].Creating? && s.clients[c].goal.Add? && s.clients[c].spawned && !s.pool.pending
  }

  function JobsSeen(s: System, e: Event): nat
    requires (e.BeginAdd? || e.Resume?) && AtTest(s, e, e.c)
  {
    if e.BeginAdd? then |s.pool.high| + |s.pool.med| + |s.pool.low| + 1 else s.clients[e.c].goal.jobs
  }

  function ThreadsSeen(s: System, e: Event): int
    requires (e.BeginAdd? || e.Resume?) && AtTest(s, e, e.c)
  {
    if e.BeginAdd? then s.pool.totalThreads - s.pool.persistentThreads else s.clients[e.c].goal.threads + 1
  }

  lemma {:induction false} FreeIsCounted(ws: seq<Worker>)
    ensures SomeoneIsFree(ws) <==> T.Live(T.Total(ws)) > T.Total(ws).short + T.Total(ws).long
  {
    hide T.Total;
    T.TotalNatural(ws);
    if ws == [] {
      T.TotalEmpty();
    } else {
      var n := |ws| - 1;
      T.TotalStep(ws);
      T.TotalNatural(ws[..n]);
      FreeIsCounted(ws[..n]);
      if SomeoneIsFree(ws[..n]) {
        var i :| 0 <= i < n && (ws[..n][i].Fresh? || ws[..n][i].Blocked? || ws[..n][i].Woken?);
        assert ws[i] == ws[..n][i];
      }
    }
  }

  /** The test of the model is the one that is written out here. */
  lemma TestIsExact(s: System, p: Pool, jobs: nat, threads: int)
    requires T.Inv(s)
    requires p.totalThreads == s.pool.totalThreads && p.busyThreads == s.pool.busyThreads && p.attr == s.pool.attr
    ensures WantsWorker(p, jobs, threads) <==> !IsEnough(s, jobs, threads)
  {
    hide T.Total, SomeoneIsFree, T.NoLostWakeup, T.Limited, T.SoundSleep, T.InPhase;
    T.TotalNatural(s.workers);
    FreeIsCounted(s.workers);
  }

  /** What happens to the workers and to client `c` when it has come to the test: it leaves if there are enough workers;
      else it waits while another worker is starting, leaves if no worker can be created, or creates one. */
  predicate Decides(s: System, t: System, c: nat, jobs: nat, threads: int, x: Choice)
    requires c < |s.clients|
  {
    c < |t.clients| &&
    if IsEnough(s, jobs, threads) then t.clients[c] == Outside && |t.workers| == |s.workers|
    else if s.pool.pending then t.clients[c] == Creating(Add(jobs, threads), false, true) && t.workers == s.workers
    else Creates(s, t, c, jobs, threads, x)
  }

  predicate Creates(s: System, t: System, c: nat, jobs: nat, threads: int, x: Choice) {
    c < |t.clients| &&
    if CannotCreate(s, x) then t.clients[c] == Outside && |t.workers| == |s.workers|
    else t.clients[c] == Creating(Add(jobs, threads), true, true) && t.workers == s.workers + [Created]
  }

  lemma PassDecides(s: System, u: System, c: nat, jobs: nat, threads: int, x: Choice)
    requires T.Inv(s) && c < |s.clients| == |u.clients| && u.workers == s.workers
    requires u.pool.totalThreads == s.pool.totalThreads && u.pool.busyThreads == s.pool.busyThreads
    requires u.pool.attr == s.pool.attr && u.pool.pending == s.pool.pending
    ensures Decides(s, AddPass(u, c, jobs, threads, x), c, jobs, threads, x)
  {
    hide WantsWorker, IsEnough, Signal, T.Inv;
    TestIsExact(s, u.pool, jobs, threads);
    SignalLength(s.workers, x.wake);
  }

  lemma SignalLength(ws: seq<Worker>, wake: nat)
    ensures |Signal(ws, wake)| == |ws| && (SomeoneIsFree(ws) ==> SomeoneIsFree(Signal(ws, wake)))
  {
    if SomeoneIsFree(ws) {
      var i :| 0 <= i < |ws| && (ws[i].Fresh? || ws[i].Blocked? || ws[i].Woken?);
      assert !Signal(ws, wake)[i].Created?;
    }
  }

  /** Whenever a client of `ThreadPoolAdd` comes to the test, it leaves without another worker if and only if there are
      enough for the jobs as it counted them or none can be created; a worker is created if and only if neither is
      the case and no other worker is starting. */
  lemma AddDecides(s: System, attr: Attr, e: Event, c: nat)
    requires T.Reachable(s, attr) && Enabled(s, e) && AtTest(s, e, c)
    ensures s.pool.attr == attr && Decides(s, Apply(s, e), c, JobsSeen(s, e), ThreadsSeen(s, e), e.x)
  {
    hide T.Reachable, T.Inv, Decides, AddPass, SignalReaches;
    T.ReachableHolds(s, attr);
    var jobs, threads := JobsSeen(s, e), ThreadsSeen(s, e);
    var u := (if e.BeginAdd? then DoEnqueue(s, c, e.priority, e.x.now) else s).(clock := e.x.now);
    PassDecides(s, u, c, jobs, threads, e.x);
  }

  /** A client that has waited while another worker was starting does not come back to the test. */
  lemma AddGoesOn(s: System, e: Event)
    requires Enabled(s, e) && e.Resume? && e.c < |s.clients| && !s.pool.pending
    requires s.clients[e.c].Creating? && s.clients[e.c].goal.Add? && !s.clients[e.c].spawned
    ensures Creates(s, Apply(s, e), e.c, s.clients[e.c].goal.jobs, s.clients[e.c].goal.threads, e.x)
  {
    hide Signal;
    SignalLength(s.workers, e.x.wake);
  }

  // ---- Runs ----

  /** How many workers client `c` creates in the run */
  function Spawns(s: System, es: seq<Event>, c: nat): nat
    requires After(s, es).Some?
  {
    if es == [] then 0
    else
      var front, e := es[..|es| - 1], es[|es| - 1];
      Spawns(s, front, c)
      + if IsOf(e, c) && |After(s, es).value.workers| > |After(s, front).value.workers| then 1 else 0
  }

  /** The run is one call of `ThreadPoolAdd` by client `c`, from its beginning up to a moment that is not after its
      end, with whatever others do in the meantime. */
  predicate InCall(s: System, es: seq<Event>, c: nat)
    requires After(s, es).Some?
  {
    es != [] &&
    if |es| == 1 then es[0].BeginAdd? && es[0].c == c && HasRoom(s.pool)
    else
      var front := es[..|es| - 1];
      InCall(s, front, c) && c < |After(s, front).value.clients| && After(s, front).value.clients[c] != Outside
  }

  /** The jobs and threads that the call has counted so far */
  function JobsCounted(s: System): nat {
    |s.pool.high| + |s.pool.med| + |s.pool.low| + 1
  }

  function ThreadsCounted(s: System, es: seq<Event>, c: nat): int
    requires After(s, es).Some?
  {
    s.pool.totalThreads - s.pool.persistentThreads + Spawns(s, es, c)
  }

  /** Only the entry of client `d` in the list of clients changes. */
  predicate OnlyClient(s: System, t: System, d: nat) {
    d < |s.clients| == |t.clients| && t.clients == s.clients[d := t.clients[d]]
  }

  lemma ResumeChanges(s: System, d: nat, x: Choice)
    requires d < |s.clients|
    ensures OnlyClient(s, DoResume(s, d, x), d)
  {
    hide DoCreate, InitPass, AddPass, FinishPersist;
    if s.clients[d].Creating? {
      var goal := s.clients[d].goal;
      J.CreateMoves(s, d, goal, x);
      match goal
      case Init(i) => J.CreateMoves(s, d, Init(i + 1), x);
      case Add(jobs, threads) => J.CreateMoves(s, d, Add(jobs, threads + 1), x);
      case Persist(priority) =>
    }
  }

  lemma BeginChanges(s: System, e: Event)
    requires Enabled(s, e) && (e.BeginInit? || e.BeginAdd? || e.BeginPersistent?)
    ensures OnlyClient(s, Apply(s, e), e.c)
  {
    hide DoCreate, AddPass, FinishPersist, IsFull, RefusesPersistent, SignalReaches;
    match e
    case BeginInit(d, x) => J.CreateMoves(s.(phase := Starting), d, Init(0), x);
    case BeginAdd(d, priority, x) =>
      var u := DoEnqueue(s, d, priority, x.now).(clock := x.now);
      J.CreateMoves(u, d, u.clients[d].goal, x);
    case BeginPersistent(d, priority, x) => J.CreateMoves(s.(clock := x.now), d, Persist(priority), x);
  }

  /** An event of anybody else leaves a client that is adding a job where it is, asleep or awake. */
  lemma OthersLeave(s: System, e: Event, c: nat)
    requires T.InPhase(s) && Enabled(s, e) && c < |s.clients| && T.IsAdding(s.clients[c]) && !IsOf(e, c)
    ensures var t := Apply(s, e);
      && |t.clients| == |s.clients| && T.IsAdding(t.clients[c])
      && t.clients[c] == s.clients[c].(asleep := t.clients[c].asleep)
  {
    hide DoResume, DoCreate, InitPass, AddPass, FinishPersist, WakeWorkers, WorkerCheck, SignalReaches, DoEnqueue;
    if e.BeginInit? || e.BeginAdd? || e.BeginPersistent? {
      BeginChanges(s, e);
    } else if e.Resume? {
      ResumeChanges(s.(clock := e.x.now), e.c, e.x);
    }
  }

  // ---- One call of ThreadPoolAdd ----

  /** While the client is inside, its local variables are the jobs and the threads that it has counted; a worker that it
      waits for is not counted yet. */
  ghost predicate KeepsCount(s: System, es: seq<Event>, c: nat)
    requires After(s, es).Some?
  {
    var t := After(s, es).value;
    c < |t.clients| &&
    (t.clients[c] == Outside ||
     (T.IsAdding(t.clients[c]) && t.clients[c].goal.jobs == JobsCounted(s)
      && t.clients[c].goal.threads + (if t.clients[c].spawned then 1 else 0) == ThreadsCounted(s, es, c)))
  }

  lemma SpawnsStep(s: System, es: seq<Event>, c: nat)
    requires es != [] && After(s, es).Some?
    ensures var front := es[..|es| - 1];
      && After(s, front).Some? && Enabled(After(s, front).value, es[|es| - 1])
      && After(s, es).value == Apply(After(s, front).value, es[|es| - 1])
      && Spawns(s, es, c) == Spawns(s, front, c)
         + if IsOf(es[|es| - 1], c) && |After(s, es).value.workers| > |After(s, front).value.workers| then 1 else 0
  {
    hide Enabled, Apply, IsOf;
  }

  /** What an event of client `c` does while it is adding a job: it sleeps again because another worker is starting, or
      it comes to the test, or it goes on where it waited. */
  predicate OwnStep(s: System, e: Event, t: System, c: nat, jobs: nat, threads: int)
    requires c < |s.clients| && IsOf(e, c)
  {
    if AtTest(s, e, c) then Decides(s, t, c, jobs, threads, e.x)
    else
      T.IsAdding(s.clients[c]) &&
      if s.pool.pending then t.clients == s.clients[c := s.clients[c].(asleep := true)] && t.workers == s.workers
      else !s.clients[c].spawned && Creates(s, t, c, jobs, threads, e.x)
  }

  lemma FirstStep(s: System, attr: Attr, e: Event, c: nat)
    requires T.Reachable(s, attr) && Enabled(s, e) && e.BeginAdd? && e.c == c && HasRoom(s.pool)
    ensures c < |s.clients| && AtTest(s, e, c)
    ensures OwnStep(s, e, Apply(s, e), c, JobsCounted(s), s.pool.totalThreads - s.pool.persistentThreads)
  {
    hide T.Reachable, Apply, Decides;
    AddDecides(s, attr, e, c);
  }

  lemma NextStep(s: System, attr: Attr, e: Event, c: nat)
    requires T.Reachable(s, attr) && Enabled(s, e) && IsOf(e, c) && c < |s.clients| && T.IsAdding(s.clients[c])
    ensures var goal := s.clients[c].goal;
      OwnStep(s, e, Apply(s, e), c, goal.jobs, if s.clients[c].spawned then goal.threads + 1 else goal.threads)
  {
    hide T.Reachable, Decides, Creates;
    if AtTest(s, e, c) {
      AddDecides(s, attr, e, c);
    } else if !s.pool.pending {
      AddGoesOn(s, e);
    }
  }

  /** The call up to and without its last event */
  lemma BeforeLast(s: System, es: seq<Event>, c: nat)
    requires After(s, es).Some? && InCall(s, es, c) && |es| > 1
    ensures var front := es[..|es| - 1];
      After(s, front).Some? && InCall(s, front, c)
      && c < |After(s, front).value.clients| && After(s, front).value.clients[c] != Outside
  {
    hide Apply, Enabled;
  }

  lemma PrefixReachable(s: System, attr: Attr, es: seq<Event>)
    requires T.Reachable(s, attr) && After(s, es).Some?
    ensures T.Reachable(After(s, es).value, attr)
  {
    hide Apply, Enabled, T.Reachable;
    if es != [] {
      PrefixReachable(s, attr, es[..|es| - 1]);
      ReachesNext(After(s, es[..|es| - 1]).value, attr, es[|es| - 1]);
    }
  }

  /** The last event of the call, if it is one of client `c`, with the counts so far */
  lemma LastStep(s: System, attr: Attr, es: seq<Event>, c: nat)
    requires T.Reachable(s, attr) && After(s, es).Some? && InCall(s, es, c) && IsOf(es[|es| - 1], c)
    requires |es| > 1 ==> KeepsCount(s, es[..|es| - 1], c)
    ensures var front := es[..|es| - 1];
      && c < |After(s, front).value.clients|
      && OwnStep(After(s, front).value, es[|es| - 1], After(s, es).value, c, JobsCounted(s), ThreadsCounted(s, front, c))
  {
    hide T.Reachable, Apply, Enabled, OwnStep, Spawns;
    var front, e := es[..|es| - 1], es[|es| - 1];
    SpawnsStep(s, es, c);
    if |es| == 1 {
      NoSpawns(s, c);
      assert front == [];
      FirstStep(s, attr, e, c);
    } else {
      BeforeLast(s, es, c);
      PrefixReachable(s, attr, front);
      NextStep(After(s, front).value, attr, e, c);
    }
  }

  lemma NoSpawns(s: System, c: nat)
    ensures After(s, []) == Some(s) && Spawns(s, [], c) == 0
  {
  }

  lemma {:induction false} CountIsKept(s: System, attr: Attr, es: seq<Event>, c: nat)
    requires T.Reachable(s, attr) && After(s, es).Some? && InCall(s, es, c)
    ensures KeepsCount(s, es, c)
  {
    hide T.Reachable, Apply, Enabled, Spawns, T.InPhase;
    var front, e := es[..|es| - 1], es[|es| - 1];
    SpawnsStep(s, es, c);
    if |es| > 1 {
      BeforeLast(s, es, c);
      CountIsKept(s, attr, front, c);
    }
    if IsOf(e, c) {
      LastStep(s, attr, es, c);
    } else {
      PrefixReachable(s, attr, front);
      InReachable(After(s, front).value, attr);
      OthersLeave(After(s, front).value, e, c);
    }
  }

  lemma InReachable(s: System, attr: Attr)
    requires T.Reachable(s, attr)
    ensures T.InPhase(s)
  {
    hide T.Reachable, T.Counted, T.Limited, T.NoLostWakeup, T.SoundSleep, T.InPhase;
    T.ReachableHolds(s, attr);
  }

  /** Over every run: a client comes out of `ThreadPoolAdd` only when some worker is free and there are fewer than
      `jobsPerThread` jobs for each thread, both as it counted them, or because no worker could be created. */
  lemma AddLeavesEnough(s: System, attr: Attr, es: seq<Event>, c: nat)
    requires T.Reachable(s, attr) && After(s, es).Some? && InCall(s, es, c)
    requires c < |After(s, es).value.clients| && After(s, es).value.clients[c] == Outside
    ensures var u, e := After(s, es[..|es| - 1]).value, es[|es| - 1];
      && IsOf(e, c)
      && (IsEnough(u, JobsCounted(s), ThreadsCounted(s, es, c)) || CannotCreate(u, e.x))
  {
    hide T.Reachable, Apply, Enabled, Spawns, T.InPhase, IsEnough, CannotCreate;
    var front, e := es[..|es| - 1], es[|es| - 1];
    SpawnsStep(s, es, c);
    if |es| > 1 {
      BeforeLast(s, es, c);
      CountIsKept(s, attr, front, c);
    }
    if IsOf(e, c) {
      LastStep(s, attr, es, c);
    } else {
      PrefixReachable(s, attr, front);
      InReachable(After(s, front).value, attr);
      OthersLeave(After(s, front).value, e, c);
    }
  }

  /** At event number `k` the client came to the test, and there was a reason for another worker. */
  ghost predicate NeededAt(s: System, es: seq<Event>, k: nat, c: nat, jobs: nat, threads: int)
    requires After(s, es).Some?
  {
    k < |es| &&
    (AfterPrefix(s, es, k);
     var u := After(s, es[..k]).value;
     AtTest(u, es[k], c) && !IsEnough(u, jobs, threads))
  }

  ghost predicate HadReason(s: System, es: seq<Event>, c: nat, jobs: nat, threads: int)
    requires After(s, es).Some?
  {
    exists k :: NeededAt(s, es, k, c, jobs, threads)
  }

  lemma NeededEarlier(s: System, es: seq<Event>, k: nat, c: nat, jobs: nat, threads: int)
    requires es != [] && After(s, es).Some? && NeededAt(s, es[..|es| - 1], k, c, jobs, threads)
    ensures HadReason(s, es, c, jobs, threads)
  {
    hide Apply, Enabled, AtTest, IsEnough;
    assert es[..|es| - 1][..k] == es[..k];
    assert NeededAt(s, es, k, c, jobs, threads);
  }

  /** While the client waits for another worker to start, there was a reason for one of its own. */
  ghost predicate WaitsForReason(s: System, es: seq<Event>, c: nat)
    requires After(s, es).Some?
  {
    var t := After(s, es).value;
    c < |t.clients| && (T.IsAdding(t.clients[c]) && !t.clients[c].spawned ==>
                        HadReason(s, es, c, JobsCounted(s), ThreadsCounted(s, es, c)))
  }

  lemma NeededNow(s: System, es: seq<Event>, c: nat, jobs: nat, threads: int)
    requires es != [] && After(s, es).Some? && After(s, es[..|es| - 1]).Some?
    requires var u := After(s, es[..|es| - 1]).value;
      AtTest(u, es[|es| - 1], c) && !IsEnough(u, jobs, threads)
    ensures HadReason(s, es, c, jobs, threads)
  {
    assert NeededAt(s, es, |es| - 1, c, jobs, threads);
  }

  lemma {:induction false} ReasonIsKept(s: System, attr: Attr, es: seq<Event>, c: nat)
    requires T.Reachable(s, attr) && After(s, es).Some? && InCall(s, es, c)
    ensures WaitsForReason(s, es, c)
  {
    hide T.Reachable, Apply, Enabled, Spawns, T.InPhase, NeededAt, IsEnough, CannotCreate, AtTest, KeepsCount;
    var front, e := es[..|es| - 1], es[|es| - 1];
    var jobs, threads := JobsCounted(s), ThreadsCounted(s, front, c);
    SpawnsStep(s, es, c);
    CountIsThere(s, attr, es, c);
    if |es| > 1 {
      BeforeLast(s, es, c);
      CountIsThere(s, attr, front, c);
      ReasonIsKept(s, attr, front, c);
      if k :| NeededAt(s, front, k, c, jobs, threads) {
        NeededEarlier(s, es, k, c, jobs, threads);
      }
    }
    if IsOf(e, c) {
      OwnLast(s, attr, es, c);
      if !AtTest(After(s, front).value, e, c) {
        NotAtFirst(s, es, c);
      } else if !IsEnough(After(s, front).value, jobs, threads) {
        NeededNow(s, es, c, jobs, threads);
      }
      assert |After(s, es).value.workers| <= |After(s, front).value.workers| ==> ThreadsCounted(s, es, c) == threads;
    } else {
      PrefixReachable(s, attr, front);
      InReachable(After(s, front).value, attr);
      OthersLeave(After(s, front).value, e, c);
      assert ThreadsCounted(s, es, c) == threads;
    }
  }

  lemma CountIsThere(s: System, attr: Attr, es: seq<Event>, c: nat)
    requires T.Reachable(s, attr) && After(s, es).Some? && InCall(s, es, c)
    ensures var t := After(s, es).value; c < |t.clients| && (t.clients[c] == Outside || T.IsAdding(t.clients[c]))
  {
    hide T.Reachable, Apply, Enabled, Spawns;
    CountIsKept(s, attr, es, c);
  }

  lemma OwnLast(s: System, attr: Attr, es: seq<Event>, c: nat)
    requires T.Reachable(s, attr) && After(s, es).Some? && InCall(s, es, c) && IsOf(es[|es| - 1], c)
    ensures var front := es[..|es| - 1];
      && After(s, front).Some? && c < |After(s, front).value.clients|
      && OwnStep(After(s, front).value, es[|es| - 1], After(s, es).value, c, JobsCounted(s), ThreadsCounted(s, front, c))
  {
    hide T.Reachable, Apply, Enabled, Spawns, KeepsCount, OwnStep;
    if |es| > 1 {
      BeforeLast(s, es, c);
      CountIsKept(s, attr, es[..|es| - 1], c);
    }
    LastStep(s, attr, es, c);
  }

  /** Over every run: for each worker that a client of `ThreadPoolAdd` creates there was a moment at which it came to the
      test and, by its count before that worker, no worker was free or there were `jobsPerThread` jobs for each thread. */
  lemma CreatedForReason(s: System, attr: Attr, es: seq<Event>, c: nat)
    requires T.Reachable(s, attr) && After(s, es).Some? && InCall(s, es, c) && IsOf(es[|es| - 1], c)
    requires |After(s, es).value.workers| > |After(s, es[..|es| - 1]).value.workers|
    ensures HadReason(s, es, c, JobsCounted(s), ThreadsCounted(s, es[..|es| - 1], c))
  {
    hide T.Reachable, Apply, Enabled, Spawns, T.InPhase, NeededAt, IsEnough, CannotCreate, AtTest, KeepsCount;
    var front, e := es[..|es| - 1], es[|es| - 1];
    var u, jobs, threads := After(s, front).value, JobsCounted(s), ThreadsCounted(s, front, c);
    SpawnsStep(s, es, c);
    OwnLast(s, attr, es, c);
    if AtTest(u, e, c) {
      NeededNow(s, es, c, jobs, threads);
    } else {
      NotAtFirst(s, es, c);
      BeforeLast(s, es, c);
      ReasonIsKept(s, attr, front, c);
      var k :| NeededAt(s, front, k, c, jobs, threads);
      NeededEarlier(s, es, k, c, jobs, threads);
    }
  }

  lemma NotAtFirst(s: System, es: seq<Event>, c: nat)
    requires After(s, es).Some? && InCall(s, es, c)
    requires !AtTest(After(s, es[..|es| - 1]).value, es[|es| - 1], c)
    ensures |es| > 1
  {
    hide Apply;
    assert es[..0] == [];
  }

  // ---- What ThreadPoolAdd accepts, and where it goes ----

  /** `ThreadPoolAdd` refuses a job exactly if `maxJobsTotal` jobs are queued already; else it puts the job at the end of
      the queue of its priority. */
  lemma AddIsQueued(s: System, c: nat, priority: Priority, x: Choice)
    requires Enabled(s, BeginAdd(c, priority, x))
    ensures var t, job := Apply(s, BeginAdd(c, priority, x)), Job(|s.history.accepted|, s.pool.lastJobId, priority, x.now);
      var p, q := s.pool, t.pool;
      if |p.high| + |p.med| + |p.low| >= p.attr.maxJobsTotal then t == s
      else
        && t.history == s.history.(accepted := s.history.accepted + [job]) && q.persistentJob == p.persistentJob
        && q.high == (if priority == HIGH then p.high + [job] else p.high)
        && q.med == (if priority == MED then p.med + [job] else p.med)
        && q.low == (if priority == LOW then p.low + [job] else p.low)
  {
    hide AddPass, SignalReaches;
    if HasRoom(s.pool) {
      var u := DoEnqueue(s, c, priority, x.now).(clock := x.now);
      J.CreateIsQuiet(u, c, u.clients[c].goal, x);
    }
  }

  // ---- What ThreadPoolAddPersistent decides ----

  /** The worker has started and is not running a persistent job. */
  predicate IsRegular(w: Worker) {
    w.Fresh? || w.Blocked? || w.Woken? || (w.Running? && !w.persistent)
  }

  lemma {:induction false} RegularIsCardinality(ws: seq<Worker>)
    ensures T.Live(T.Total(ws)) - T.Total(ws).long == |set i | 0 <= i < |ws| && IsRegular(ws[i])|
  {
    hide T.Total;
    var regular := set i | 0 <= i < |ws| && IsRegular(ws[i]);
    if ws == [] {
      T.TotalEmpty();
      assert regular == {};
    } else {
      var n := |ws| - 1;
      var v := ws[..n];
      T.TotalStep(ws);
      RegularIsCardinality(v);
      var regular' := set i | 0 <= i < |v| && IsRegular(v[i]);
      if IsRegular(ws[n]) {
        assert regular == regular' + {n};
      } else {
        assert regular == regular';
      }
    }
  }

  /** With fewer than `maxThreads` workers, `ThreadPoolAddPersistent` creates one first, or waits until it can try to;
      otherwise it refuses the job exactly if one worker is left that is not running a persistent job. So it
      never creates one if `maxThreads` is -1, for no limit. */
  lemma PersistentDecides(s: System, attr: Attr, c: nat, priority: Priority, x: Choice)
    requires T.Reachable(s, attr) && Enabled(s, BeginPersistent(c, priority, x))
    ensures s.pool.attr == attr
    ensures var t, ws := Apply(s, BeginPersistent(c, priority, x)), s.workers;
      var job := Job(|s.history.accepted|, s.pool.lastJobId, priority, x.now);
      if s.pool.totalThreads < attr.maxThreads && s.pool.pending then
        t.clients[c] == Creating(Persist(priority), false, true) && t.workers == ws
      else if s.pool.totalThreads < attr.maxThreads && x.spawn then
        t.clients[c] == Creating(Persist(priority), true, true) && t.workers == ws + [Created]
      else if s.pool.totalThreads >= attr.maxThreads && |set i | 0 <= i < |ws| && IsRegular(ws[i])| == 1 then t == s
      else t.clients[c] == AwaitPickup(true) && t.pool.persistentJob == Some(job) && |t.workers| == |ws|
  {
    hide T.Reachable, T.Total, T.NoLostWakeup, T.Limited, T.SoundSleep, T.InPhase, Signal, SignalReaches;
    T.ReachableHolds(s, attr);
    RegularIsCardinality(s.workers);
    SignalLength(s.workers, x.wake);
  }

  // ---- When an idle worker leaves ----

  lemma LiveIsCounted(s: System, attr: Attr, w: nat)
    requires T.Reachable(s, attr) && w < |s.workers| && T.IsLive(s.workers[w])
    ensures var ws := s.workers; s.pool.totalThreads == |set i | 0 <= i < |ws| && T.IsLive(ws[i])|
    ensures s.pool.attr == attr && (attr.maxThreads != -1 ==> s.pool.totalThreads <= attr.maxThreads)
  {
    hide T.Reachable, T.Total, T.NoLostWakeup, T.SoundSleep, T.InPhase;
    T.ReachableHolds(s, attr);
    T.LiveIsCardinality(s.workers);
    T.TotalUpdate(s.workers, w, Exited);
    T.TotalNatural(s.workers[w := Exited]);
  }

  lemma CheckDecides(p: Pool, timedOut: bool, now: Time)
    ensures var r := WorkerCheck(p, timedOut, now);
      var isEmpty := p.high == [] && p.med == [] && p.low == [] && p.persistentJob.None?;
      var leaves := (timedOut && p.totalThreads > p.attr.minThreads)
                    || (p.attr.maxThreads != -1 && p.totalThreads > p.attr.maxThreads);
      && (r.outcome.Exit? <==> p.shutdown || (isEmpty && leaves))
      && (r.outcome.Block? <==> !p.shutdown && isEmpty && !leaves)
      && !r.outcome.NeverHere?
  {
    hide Bump, CutsMoved, T.Waiting;
    T.CheckCounts(p, timedOut, now);
    T.BumpCounts(p.(idleThreads := p.idleThreads - 1), now);
  }

  /** Over every run: a worker that looks for a job leaves exactly if the pool is shut down, or nothing waits, its wait
      has run out, and there are more than `minThreads` workers; it blocks exactly if nothing waits otherwise. */
  lemma IdleWorkerLeaves(s: System, attr: Attr, e: Event)
    requires T.Reachable(s, attr) && Enabled(s, e) && (e.Pass? || e.Recheck?)
    ensures var p, ws := s.pool, s.workers;
      var isEmpty := p.high == [] && p.med == [] && p.low == [] && p.persistentJob.None?;
      var leaves := ws[e.w] == Woken(true) && |set i | 0 <= i < |ws| && T.IsLive(ws[i])| > attr.minThreads;
      && (Apply(s, e).workers[e.w] == Exited <==> p.shutdown || (isEmpty && leaves))
      && (Apply(s, e).workers[e.w] == Blocked <==> !p.shutdown && isEmpty && !leaves)
  {
    hide T.Reachable, WorkerCheck, WakeClients;
    LiveIsCounted(s, attr, e.w);
    var u := if e.Pass? then DoEnter(s, e.w) else s;
    CheckDecides(u.pool, e.Recheck? && s.workers[e.w].timedOut, e.now);
  }
}
