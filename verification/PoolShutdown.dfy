/** What becomes of jobs around ThreadPoolShutdown: it drops what waits, and what is accepted later is never started. */
module PoolShutdown {
  import opened Options
  import opened PoolSpec
  import opened PoolSystem
  import opened PoolReach
  import T = PoolThreads
  import J = PoolJobs

  /** Nothing more has been started or dropped, and the pool is still shut down. */
  predicate StaysDown(s: System, t: System) {
    && t.pool.shutdown && t.history.started == s.history.started
    && t.history.persistentStarted == s.history.persistentStarted && t.history.dropped == s.history.dropped
    && s.history.accepted <= t.history.accepted && s.history.removed <= t.history.removed
  }

  lemma CheckStaysDown(s: System, w: nat, timedOut: bool, now: Time)
    requires s.pool.shutdown && w < |s.workers|
    ensures StaysDown(s, DoCheck(s, w, timedOut, now))
  {
    hide WorkerCheck, LetDie, T.Waiting;
    T.CheckCounts(s.pool, timedOut, now);
  }

  lemma CreateStaysDown(s: System, c: nat, goal: Goal, x: Choice)
    requires s.pool.shutdown && c < |s.clients|
    ensures StaysDown(s, DoCreate(s, c, goal, x))
    ensures goal.Init? ==> StaysDown(s, InitPass(s, c, goal.i, x))
    ensures goal.Add? ==> StaysDown(s, AddPass(s, c, goal.jobs, goal.threads, x))
    ensures goal.Persist? ==> StaysDown(s, FinishPersist(s, c, goal.priority, x))
  {
    hide Signal;
  }

  lemma ResumeStaysDown(s: System, c: nat, x: Choice)
    requires s.pool.shutdown && c < |s.clients|
    ensures StaysDown(s, DoResume(s, c, x))
  {
    hide InitPass, AddPass, DoCreate, FinishPersist;
    if s.clients[c].Creating? {
      var goal := s.clients[c].goal;
      CreateStaysDown(s, c, goal, x);
      if goal.Init? {
        CreateStaysDown(s, c, Init(goal.i + 1), x);
      } else if goal.Add? {
        CreateStaysDown(s, c, Add(goal.jobs, goal.threads + 1), x);
      }
    }
  }

  lemma EventStaysDown(s: System, e: Event)
    requires s.pool.shutdown && Enabled(s, e)
    ensures StaysDown(s, Apply(s, e))
  {
    hide WakeWorkers, WakeClients, SignalReaches, DoCheck, DoResume, AddPass, InitPass, DoCreate, FinishPersist,
         IndexOf;
    match e
    case Pass(w, now) => CheckStaysDown(DoEnter(s, w), w, false, now);
    case Recheck(w, now) => CheckStaysDown(s, w, s.workers[w].timedOut, now);
    case BeginInit(c, x) => CreateStaysDown(s.(phase := Starting), c, Init(0), x);
    case BeginAdd(c, priority, x) =>
      var t := DoEnqueue(s, c, priority, x.now).(clock := x.now);
      CreateStaysDown(t, c, t.clients[c].goal, x);
    case BeginPersistent(c, priority, x) => CreateStaysDown(s.(clock := x.now), c, Persist(priority), x);
    case Resume(c, x) => ResumeStaysDown(s.(clock := x.now), c, x);
    case _ =>
  }

  lemma {:induction false} RunStaysDown(s: System, es: seq<Event>)
    requires s.pool.shutdown && After(s, es).Some?
    ensures StaysDown(s, After(s, es).value)
  {
    hide Apply, Enabled;
    if es != [] {
      var front := es[..|es| - 1];
      RunStaysDown(s, front);
      EventStaysDown(After(s, front).value, es[|es| - 1]);
    }
  }

  /** The job was started, or dropped by the shutdown. */
  predicate IsSettled(h: History, job: Job) {
    job in h.started || job in h.persistentStarted || job in h.dropped
  }

  /** A job that is accepted after the shutdown has drained the queues is never started, and never dropped either:
      it waits for ever, or is removed. */
  lemma AcceptedTooLate(s: System, attr: Attr, es: seq<Event>, t: System, k: nat)
    requires T.Reachable(s, attr) && s.pool.shutdown && After(s, es) == Some(t)
    requires |s.history.accepted| <= k < |t.history.accepted|
    ensures var job := t.history.accepted[k];
      && !IsSettled(t.history, job)
      && (job in Line(t.pool) || job in Slot(t.pool) || job in t.history.removed)
  {
    hide J.OnePersister, J.Bounded, J.Timely, J.IsOrdered, T.Inv, Line, Slot;
    J.ReachableHolds(s, attr);
    RunStaysDown(s, es);
    J.RunKeeps(s, es);
    var job := t.history.accepted[k];
    assert job.serial == k;
    assert job in multiset(t.history.accepted);
    assert job in J.WaitBag(t.pool) + J.DoneBag(t.history);
    NotYetAccepted(s, job);
  }

  lemma NotYetAccepted(s: System, job: Job)
    requires J.Conserved(s) && job.serial >= |s.history.accepted|
    ensures !IsSettled(s.history, job)
  {
    hide J.WaitBag;
    assert job !in multiset(s.history.accepted);
    assert job !in J.WaitBag(s.pool) + J.DoneBag(s.history);
  }

  /** The drain leaves nothing waiting: every job accepted so far has been started, dropped or removed. */
  lemma DrainSettles(s: System, attr: Attr, c: nat, k: nat)
    requires T.Reachable(s, attr) && Enabled(s, Shutdown(c)) && k < |s.history.accepted|
    ensures var h, job := Apply(s, Shutdown(c)).history, s.history.accepted[k];
      h.accepted == s.history.accepted && (IsSettled(h, job) || job in h.removed)
  {
    hide J.OnePersister, J.Bounded, J.Timely, J.IsOrdered, J.Conserved, T.Inv, T.Reachable, Apply, Enabled;
    J.ReachableHolds(s, attr);
    J.EventKeeps(s, Shutdown(c));
    DrainSets(s, c);
    NothingWaits(Apply(s, Shutdown(c)), s.history.accepted[k]);
  }

  lemma NothingWaits(s: System, job: Job)
    requires J.Conserved(s) && Line(s.pool) == [] && Slot(s.pool) == [] && job in s.history.accepted
    ensures IsSettled(s.history, job) || job in s.history.removed
  {
    assert job in multiset(s.history.accepted);
    assert job in J.DoneBag(s.history);
  }

  /** Exactly the jobs accepted before the drain of the shutdown are started or freed, if nobody removes them. */
  lemma SettledIffInTime(s: System, attr: Attr, c: nat, es: seq<Event>, t: System, k: nat)
    requires T.Reachable(s, attr) && Enabled(s, Shutdown(c)) && After(Apply(s, Shutdown(c)), es) == Some(t)
    requires k < |t.history.accepted| && t.history.accepted[k] !in t.history.removed
    ensures IsSettled(t.history, t.history.accepted[k]) <==> k < |s.history.accepted|
  {
    hide Apply, Enabled, T.Reachable;
    var u := Apply(s, Shutdown(c));
    ReachesNext(s, attr, Shutdown(c));
    DrainSets(s, c);
    RunStaysDown(u, es);
    if k < |s.history.accepted| {
      DrainSettles(s, attr, c, k);
    } else {
      AcceptedTooLate(u, attr, es, t, k);
    }
  }

  lemma DrainSets(s: System, c: nat)
    requires Enabled(s, Shutdown(c))
    ensures var u := Apply(s, Shutdown(c));
      && u.pool.shutdown && u.history.accepted == s.history.accepted
      && Line(u.pool) == [] && Slot(u.pool) == []
  {
  }

  /** It happens: one client waits in `ThreadPoolShutdown` for the only worker, and another one adds a job. */
  lemma AcceptedAfterDrain(attr: Attr, now: Time) returns (s: System, e: Event)
    requires attr.minThreads == 1 && attr.maxThreads > 1 && attr.maxJobsTotal > 0 && IsTime(now)
    ensures T.Reachable(s, attr) && s.pool.shutdown && s.history.accepted == [] && Enabled(s, e)
    ensures var t := Apply(s, e); |t.history.accepted| == 1 && t.history.accepted[0] in Line(t.pool)
  {
    hide T.Reachable;
    ReachesOneIdle(attr, now);
    s := OneIdle(attr, now);
    ReachesNext(s, attr, Shutdown(0));
    s := Apply(s, Shutdown(0));
    assert s.clients == [AwaitThreads(true), Outside] && s.workers == [Fresh];
    e := BeginAdd(1, LOW, Choice(now, false, 0));
    AddIsAccepted(s, 1, e.x);
  }

  lemma AddIsAccepted(s: System, c: nat, x: Choice)
    requires Enabled(s, BeginAdd(c, LOW, x)) && !IsFull(s.pool) && s.history.accepted == []
    ensures var t := Apply(s, BeginAdd(c, LOW, x)); |t.history.accepted| == 1 && t.history.accepted[0] in Line(t.pool)
  {
    hide Signal, SignalReaches, WantsWorker;
    var t := Apply(s, BeginAdd(c, LOW, x));
    assert t.pool.low == s.pool.low + [t.history.accepted[0]];
  }

  // ---- Workers that have not started yet ----

  /** `ThreadPoolShutdown` waits for the workers that have started. It returns with all workers gone if and only if none
      was being created at that time. */
  lemma AllGoneIffNonePending(s: System, attr: Attr)
    requires T.Reachable(s, attr) && s.phase == Ended
    ensures (forall i :: 0 <= i < |s.workers| ==> s.workers[i].Exited?) <==> !s.pool.pending
  {
    hide T.NoLostWakeup, T.SoundSleep, T.Total;
    T.ReachableHolds(s, attr);
    T.ShutdownWaitsForWorkers(s, attr);
    if s.pool.pending {
      T.TotalCreated(s.workers);
    } else {
      forall i | 0 <= i < |s.workers|
        ensures s.workers[i].Exited?
      {
        T.TotalUpdate(s.workers, i, Exited);
        assert !T.IsLive(s.workers[i]);
      }
    }
  }

  /** It happens that one was: `ThreadPoolAdd` waits for its worker to start when another client shuts the pool down. */
  lemma ReturnsBeforeStart(attr: Attr, now: Time)
    requires attr.minThreads == 0 && attr.maxThreads > 0 && attr.maxJobsTotal > 0 && IsTime(now)
    ensures exists s :: T.Reachable(s, attr) && s.phase == Ended && s.workers == [Created]
  {
    hide T.Reachable;
    ReachesNoWorkers(attr, now);
    var s := NoWorkers(attr, now);
    var e := BeginAdd(0, LOW, Choice(now, true, 0));
    ReachesNext(s, attr, e);
    s := Apply(s, e);
    assert s.workers == [Created] && s.clients[1] == Outside;
    ReachesNext(s, attr, Shutdown(1));
    s := Apply(s, Shutdown(1));
    assert s.workers == [Created];
    assert T.Reachable(s, attr);
  }
}
