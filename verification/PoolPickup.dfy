/** The wait at the end of ThreadPoolAddPersistent: who can leave a client asleep there although the slot that it
    waits for is empty. */
module PoolPickup {
  import opened Options
  import opened PoolSpec
  import opened PoolSystem
  import opened PoolReach
  import T = PoolThreads

  /** A client that sleeps until its persistent job is picked up still has its job in the slot. */
  predicate SleepIsSound(s: System) {
    forall c :: 0 <= c < |s.clients| && s.clients[c] == AwaitPickup(true) ==> s.pool.persistentJob.Some?
  }

  predicate NobodyHas(q: seq<Job>, jobId: int) {
    forall i :: 0 <= i < |q| ==> q[i].jobId != jobId
  }

  /** The persistent job is taken out of its slot without a broadcast on `start_and_shutdown`: by a
      `ThreadPoolRemove` with its id, if no queued job has that id, or by `ThreadPoolShutdown`. */
  predicate EmptiesSlot(s: System, e: Event) {
    && s.pool.persistentJob.Some?
    && (e.Shutdown?
        || (e.RemoveJob? && s.pool.persistentJob.value.jobId == e.jobId
            && NobodyHas(s.pool.high, e.jobId) && NobodyHas(s.pool.med, e.jobId) && NobodyHas(s.pool.low, e.jobId)))
  }

  predicate SomebodySleeps(s: System) {
    exists c :: 0 <= c < |s.clients| && s.clients[c] == AwaitPickup(true)
  }

  /** Exactly these two calls can leave the client of `ThreadPoolAddPersistent` asleep for nothing. */
  lemma SleepsForNothing(s: System, e: Event)
    requires SleepIsSound(s) && Enabled(s, e)
    ensures SleepIsSound(Apply(s, e)) <==> !(EmptiesSlot(s, e) && SomebodySleeps(s))
  {
    hide DoCheck, DoEnter, DoResume, DoRemove, DoShutdown, InitPass, AddPass, DoCreate, DoEnqueue, FinishPersist;
    match e
    case Pass(w, now) => EnterIsSound(s, w); CheckIsSound(DoEnter(s, w), w, false, now);
    case Recheck(w, now) => CheckIsSound(s, w, s.workers[w].timedOut, now);
    case BeginInit(c, x) => CreateIsSound(s.(phase := Starting), c, Init(0), x);
    case BeginAdd(c, priority, x) => BeginAddIsSound(s, c, priority, x);
    case BeginPersistent(c, priority, x) => CreateIsSound(s.(clock := x.now), c, Persist(priority), x);
    case Resume(c, x) => ResumeIsSound(s.(clock := x.now), c, x);
    case RemoveJob(jobId) => RemoveIsSound(s, jobId);
    case Shutdown(c) => ShutdownIsSound(s, c);
    case _ =>
  }

  lemma EnterIsSound(s: System, w: nat)
    requires SleepIsSound(s) && w < |s.workers|
    ensures SleepIsSound(DoEnter(s, w)) && |DoEnter(s, w).workers| == |s.workers|
  {
  }

  lemma CheckIsSound(s: System, w: nat, timedOut: bool, now: Time)
    requires SleepIsSound(s) && w < |s.workers|
    ensures SleepIsSound(DoCheck(s, w, timedOut, now))
  {
    hide Bump, Line;
    BumpMovesCuts(s.pool.(idleThreads := s.pool.idleThreads - 1), now);
  }

  lemma CreateIsSound(s: System, c: nat, goal: Goal, x: Choice)
    requires SleepIsSound(s) && c < |s.clients|
    ensures SleepIsSound(DoCreate(s, c, goal, x))
    ensures goal.Init? ==> SleepIsSound(InitPass(s, c, goal.i, x))
    ensures goal.Add? ==> SleepIsSound(AddPass(s, c, goal.jobs, goal.threads, x))
    ensures goal.Persist? ==> SleepIsSound(FinishPersist(s, c, goal.priority, x))
  {
    hide Signal;
  }

  lemma BeginAddIsSound(s: System, c: nat, priority: Priority, x: Choice)
    requires SleepIsSound(s) && Enabled(s, BeginAdd(c, priority, x))
    ensures SleepIsSound(Apply(s, BeginAdd(c, priority, x)))
  {
    hide AddPass, DoCreate;
    if !IsFull(s.pool) {
      var t := DoEnqueue(s, c, priority, x.now).(clock := x.now);
      CreateIsSound(t, c, t.clients[c].goal, x);
    }
  }

  lemma ResumeIsSound(s: System, c: nat, x: Choice)
    requires SleepIsSound(s) && c < |s.clients| && IsAwake(s.clients[c])
    ensures SleepIsSound(DoResume(s, c, x))
  {
    hide InitPass, AddPass, DoCreate, FinishPersist;
    if s.clients[c].Creating? {
      var goal := s.clients[c].goal;
      CreateIsSound(s, c, goal, x);
      if goal.Init? {
        CreateIsSound(s, c, Init(goal.i + 1), x);
      } else if goal.Add? {
        CreateIsSound(s, c, Add(goal.jobs, goal.threads + 1), x);
      }
    }
  }

  lemma IndexOfNobody(q: seq<Job>, jobId: int)
    ensures IndexOf(q, jobId) == |q| <==> NobodyHas(q, jobId)
    ensures IndexOf(q, jobId) <= |q|
  {
    IndexOfFirst(q, jobId);
  }

  lemma RemoveIsSound(s: System, jobId: int)
    requires SleepIsSound(s)
    ensures SleepIsSound(DoRemove(s, jobId)) <==> !(EmptiesSlot(s, RemoveJob(jobId)) && SomebodySleeps(s))
  {
    hide IndexOf, NobodyHas;
    IndexOfNobody(s.pool.high, jobId);
    IndexOfNobody(s.pool.med, jobId);
    IndexOfNobody(s.pool.low, jobId);
  }

  lemma ShutdownIsSound(s: System, c: nat)
    requires SleepIsSound(s) && c < |s.clients| && s.clients[c] in {Outside, InitFailed}
    ensures SleepIsSound(DoShutdown(s, c)) <==> !(EmptiesSlot(s, Shutdown(c)) && SomebodySleeps(s))
  {
    hide WakeWorkers, Line;
    var t := DoShutdown(s, c);
    if EmptiesSlot(s, Shutdown(c)) && SomebodySleeps(s) {
      var d :| 0 <= d < |s.clients| && s.clients[d] == AwaitPickup(true);
      assert t.clients[d] == AwaitPickup(true);
    }
  }

  // ---- Runs ----

  /** Somewhere in the run the slot was emptied under a sleeping client. */
  predicate Strands(s: System, es: seq<Event>)
    requires After(s, es).Some?
  {
    es != [] &&
    var front, e := es[..|es| - 1], es[|es| - 1];
    var t := After(s, front).value;
    Strands(s, front) || (EmptiesSlot(t, e) && SomebodySleeps(t))
  }

  /** Over every run: as long as no `ThreadPoolRemove` or `ThreadPoolShutdown` empties the slot under a sleeping client,
      nobody sleeps for nothing; and when that happens for the first time, somebody does. */
  lemma {:induction false} SleepsForNothingInRun(s: System, es: seq<Event>)
    requires SleepIsSound(s) && After(s, es).Some?
    ensures !Strands(s, es) ==> SleepIsSound(After(s, es).value)
    ensures Strands(s, es) && es != [] && !Strands(s, es[..|es| - 1]) ==> !SleepIsSound(After(s, es).value)
  {
    hide Apply, Enabled, SleepIsSound, EmptiesSlot, SomebodySleeps;
    if es != [] {
      var front, e := es[..|es| - 1], es[|es| - 1];
      SleepsForNothingInRun(s, front);
      if !Strands(s, front) {
        SleepsForNothing(After(s, front).value, e);
      }
    }
  }

  lemma NobodySleepsAtFirst(attr: Attr, clients: nat, clock: Time)
    ensures SleepIsSound(InitialSystem(attr, clients, clock))
  {
  }

  // ---- It happens ----

  /** A client adds a persistent job, and the job is removed before the only worker looks for it. */
  lemma RemoveLeavesSleeper(attr: Attr, now: Time)
    requires attr.minThreads == 1 && attr.maxThreads > 1 && IsTime(now)
    ensures exists s :: T.Reachable(s, attr) && s.clients == [AwaitPickup(true), Outside] && s.pool.persistentJob.None?
  {
    hide T.Reachable;
    ReachesOneIdle(attr, now);
    var s := OneIdle(attr, now);
    var x := Choice(now, false, 0);
    ReachesNext(s, attr, BeginPersistent(0, LOW, x));
    s := Apply(s, BeginPersistent(0, LOW, x));
    assert s.clients == [AwaitPickup(true), Outside];
    ReachesNext(s, attr, RemoveJob(0));
    s := Apply(s, RemoveJob(0));
    assert T.Reachable(s, attr);
  }

  /** A client adds a persistent job to a pool in which no thread could be created, and another one shuts the pool down:
      `ThreadPoolShutdown` returns, and nobody will ever wake the first client. */
  lemma ShutdownLeavesSleeper(attr: Attr, now: Time)
    requires attr.minThreads == 0 && attr.maxThreads > 0 && IsTime(now)
    ensures exists s ::
      && T.Reachable(s, attr) && s.phase == Ended
      && s.clients == [AwaitPickup(true), Outside] && s.pool.persistentJob.None?
  {
    hide T.Reachable;
    ReachesNoWorkers(attr, now);
    var s := NoWorkers(attr, now);
    var x := Choice(now, false, 0);
    ReachesNext(s, attr, BeginPersistent(0, LOW, x));
    s := Apply(s, BeginPersistent(0, LOW, x));
    assert s.clients == [AwaitPickup(true), Outside];
    ReachesNext(s, attr, Shutdown(1));
    s := Apply(s, Shutdown(1));
    assert s.clients == [AwaitPickup(true), Outside];
    assert T.Reachable(s, attr);
  }
}
