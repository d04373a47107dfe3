/** The slot for a persistent job goes before the queues: as long as a job waits in it, no other job is started. */
module PoolPersistent {
  import opened Options
  import opened PoolSpec
  import opened PoolSystem
  import opened PoolReach
  import T = PoolThreads
  import J = PoolJobs

  /** The job still waits in the slot, and no job at all has been started since `s`. */
  predicate StillNext(s: System, t: System, job: Job) {
    && t.pool.persistentJob == Some(job)
    && t.history.started == s.history.started && t.history.persistentStarted == s.history.persistentStarted
  }

  /** From `s` to `t` worker `w` takes the job out of the slot and runs it, and no other job is started. */
  predicate PicksUp(s: System, t: System, job: Job, w: nat) {
    && t.pool.persistentJob.None?
    && t.history == s.history.(persistentStarted := s.history.persistentStarted + [job])
    && w < |s.workers| && t.workers == s.workers[w := Running(job, true)]
  }

  /** From `s` to `t` the job is taken out of the slot by `ThreadPoolRemove` or `ThreadPoolShutdown`. */
  predicate TakesOut(s: System, t: System, job: Job) {
    && t.pool.persistentJob.None?
    && (|| t.history == s.history.(removed := s.history.removed + [job])
        || t.history == s.history.(dropped := s.history.dropped + (s.pool.high + s.pool.med + s.pool.low) + [job]))
  }

  ghost predicate LeavesSlot(s: System, t: System, job: Job) {
    TakesOut(s, t, job) || exists w :: PicksUp(s, t, job, w)
  }

  // ---- Events ----

  lemma CheckTakesSlot(p: Pool, timedOut: bool, now: Time)
    requires p.persistentJob.Some?
    ensures var r := WorkerCheck(p, timedOut, now);
      if p.shutdown then r.outcome == Exit && r.pool.persistentJob == p.persistentJob
      else r.outcome == Run(p.persistentJob.value, true) && r.pool.persistentJob.None?
  {
    hide Bump, CutsMoved, LetDie;
    T.BumpCounts(p.(idleThreads := p.idleThreads - 1), now);
  }

  lemma CheckStep(s: System, u: System, w: nat, timedOut: bool, now: Time, job: Job)
    requires w < |s.workers| && s.pool.persistentJob == Some(job)
    requires u == s || u == DoEnter(s, w)
    ensures var t := DoCheck(u, w, timedOut, now); StillNext(s, t, job) || PicksUp(s, t, job, w)
  {
    hide WorkerCheck, WakeClients;
    CheckTakesSlot(u.pool, timedOut, now);
    assert u.workers[w := Running(job, true)] == s.workers[w := Running(job, true)];
  }

  lemma CreateStep(s: System, c: nat, goal: Goal, x: Choice, job: Job)
    requires c < |s.clients| && s.pool.persistentJob == Some(job) && !goal.Persist?
    ensures StillNext(s, DoCreate(s, c, goal, x), job)
    ensures goal.Init? ==> StillNext(s, InitPass(s, c, goal.i, x), job)
    ensures goal.Add? ==> StillNext(s, AddPass(s, c, goal.jobs, goal.threads, x), job)
  {
    hide Signal, WantsWorker;
  }

  lemma ResumeStep(s: System, c: nat, x: Choice, job: Job)
    requires c < |s.clients| && s.pool.persistentJob == Some(job)
    requires s.clients[c].Creating? ==> !s.clients[c].goal.Persist?
    ensures StillNext(s, DoResume(s, c, x), job)
  {
    hide InitPass, AddPass, DoCreate;
    if s.clients[c].Creating? {
      var goal := s.clients[c].goal;
      CreateStep(s, c, goal, x, job);
      if goal.Init? {
        CreateStep(s, c, Init(goal.i + 1), x, job);
      } else {
        CreateStep(s, c, Add(goal.jobs, goal.threads + 1), x, job);
      }
    }
  }

  lemma BeginAddStep(s: System, c: nat, priority: Priority, x: Choice, job: Job)
    requires Enabled(s, BeginAdd(c, priority, x)) && s.pool.persistentJob == Some(job)
    ensures StillNext(s, Apply(s, BeginAdd(c, priority, x)), job)
  {
    hide AddPass, IsFull, SignalReaches;
    if !IsFull(s.pool) {
      var t := DoEnqueue(s, c, priority, x.now).(clock := x.now);
      CreateStep(t, c, t.clients[c].goal, x, job);
    }
  }

  lemma RemoveStep(s: System, jobId: int, job: Job)
    requires s.pool.persistentJob == Some(job)
    ensures var t := DoRemove(s, jobId); StillNext(s, t, job) || TakesOut(s, t, job)
  {
    hide IndexOf, Without;
  }

  lemma ShutdownStep(s: System, c: nat, job: Job)
    requires c < |s.clients| && s.pool.persistentJob == Some(job)
    ensures TakesOut(s, DoShutdown(s, c), job)
  {
    hide WakeWorkers;
  }

  lemma PlainStep(s: System, e: Event, job: Job)
    requires Enabled(s, e) && s.pool.persistentJob == Some(job)
    requires e.StartWorker? || e.TimeOut? || e.WakeWorker? || e.WakeClient?
    ensures StillNext(s, Apply(s, e), job)
  {
    hide WakeClients;
  }

  /** The client that waits for the slot to be emptied is the only one in `ThreadPoolAddPersistent`. */
  lemma NobodyElse(s: System, c: nat, job: Job)
    requires J.OnePersister(s) && s.pool.persistentJob == Some(job)
    requires c < |s.clients| && s.clients[c].Creating?
    ensures !s.clients[c].goal.Persist?
  {
    var d :| 0 <= d < |s.clients| && s.clients[d].AwaitPickup?;
    if c < d {
      assert IsPersister(s.clients[d]);
    }
  }

  lemma SameStart(s: System, u: System, t: System, job: Job)
    requires u.history == s.history && StillNext(u, t, job)
    ensures StillNext(s, t, job)
  {
  }

  /** While a job waits in the slot, an event leaves it there and starts no job, or takes it out. */
  lemma SlotStep(s: System, e: Event, job: Job)
    requires J.OnePersister(s) && Enabled(s, e) && s.pool.persistentJob == Some(job)
    ensures StillNext(s, Apply(s, e), job) || LeavesSlot(s, Apply(s, e), job)
  {
    hide StillNext, PicksUp, TakesOut, DoCheck, DoEnter, DoResume, DoRemove, DoShutdown, InitPass, AddPass, DoCreate,
         J.OnePersister, SignalReaches;
    match e
    case Pass(w, now) => CheckStep(s, DoEnter(s, w), w, false, now, job);
    case Recheck(w, now) => CheckStep(s, s, w, s.workers[w].timedOut, now, job);
    case BeginInit(c, x) =>
      var u := s.(phase := Starting);
      CreateStep(u, c, Init(0), x, job);
      SameStart(s, u, InitPass(u, c, 0, x), job);
    case BeginAdd(c, priority, x) => BeginAddStep(s, c, priority, x, job);
    case BeginPersistent(c, priority, x) => J.NobodyOwnsSlot(s); assert false;
    case Resume(c, x) =>
      var u := s.(clock := x.now);
      if s.clients[c].Creating? {
        NobodyElse(s, c, job);
      }
      ResumeStep(u, c, x, job);
      SameStart(s, u, DoResume(u, c, x), job);
    case RemoveJob(jobId) => RemoveStep(s, jobId, job);
    case Shutdown(c) => ShutdownStep(s, c, job);
    case _ => PlainStep(s, e, job);
  }

  // ---- Runs ----

  /** Event number `k` of the run takes the job out of the slot, and up to then no job at all was started. */
  ghost predicate LeavesAt(s: System, es: seq<Event>, k: nat, job: Job)
    requires After(s, es).Some?
  {
    k < |es| &&
    (AfterPrefix(s, es, k); AfterPrefix(s, es, k + 1);
     var t := After(s, es[..k]).value;
     StillNext(s, t, job) && LeavesSlot(t, After(s, es[..k + 1]).value, job))
  }

  lemma LeavesEarlier(s: System, es: seq<Event>, k: nat, job: Job)
    requires es != [] && After(s, es).Some? && LeavesAt(s, es[..|es| - 1], k, job)
    ensures LeavesAt(s, es, k, job)
  {
    hide StillNext, LeavesSlot, Apply, Enabled;
    var front := es[..|es| - 1];
    assert front[..k] == es[..k] && front[..k + 1] == es[..k + 1];
  }

  lemma LeavesNow(s: System, es: seq<Event>, job: Job)
    requires es != [] && After(s, es).Some?
    requires var t := After(s, es[..|es| - 1]).value;
      StillNext(s, t, job) && LeavesSlot(t, After(s, es).value, job)
    ensures LeavesAt(s, es, |es| - 1, job)
  {
    hide StillNext, LeavesSlot, Apply, Enabled;
    assert es[..|es|] == es;
  }

  lemma StaysNext(s: System, u: System, t: System, job: Job)
    requires StillNext(s, u, job) && StillNext(u, t, job)
    ensures StillNext(s, t, job)
  {
  }

  /** In every run that begins with a job in the slot, the first job that any worker takes, whatever waits in the queues,
      is that one, unless it is removed or dropped by a shutdown first; as long as it waits nothing is started. */
  lemma {:induction false} PersistentIsNext(s: System, attr: Attr, es: seq<Event>, job: Job)
    requires T.Reachable(s, attr) && s.pool.persistentJob == Some(job) && After(s, es).Some?
    ensures StillNext(s, After(s, es).value, job) || exists k :: LeavesAt(s, es, k, job)
  {
    hide T.Reachable, StillNext, LeavesSlot, LeavesAt, J.Inv, T.Inv, Apply, Enabled;
    if es == [] {
      StaysAtFirst(s, job);
    } else {
      var front, e := es[..|es| - 1], es[|es| - 1];
      PersistentIsNext(s, attr, front, job);
      var u := After(s, front).value;
      if k :| LeavesAt(s, front, k, job) {
        LeavesEarlier(s, es, k, job);
      } else {
        J.ReachableHolds(s, attr);
        J.RunKeeps(s, front);
        StepFrom(s, u, e, job);
        if LeavesSlot(u, Apply(u, e), job) {
          LeavesNow(s, es, job);
        } else {
          StaysNext(s, u, Apply(u, e), job);
        }
      }
    }
  }

  lemma StaysAtFirst(s: System, job: Job)
    requires s.pool.persistentJob == Some(job)
    ensures StillNext(s, s, job)
  {
  }

  lemma StepFrom(s: System, u: System, e: Event, job: Job)
    requires J.Inv(u) && Enabled(u, e) && StillNext(s, u, job)
    ensures StillNext(u, Apply(u, e), job) || LeavesSlot(u, Apply(u, e), job)
  {
    hide Apply, Enabled, LeavesSlot, J.Conserved, J.Bounded, J.Timely, J.IsOrdered;
    SlotStep(u, e, job);
  }
}
