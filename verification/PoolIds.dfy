/** The ids that ThreadPoolAdd and ThreadPoolAddPersistent give to jobs, and the job that ThreadPoolRemove finds by one. */
module PoolIds {
  import opened Options
  import opened PoolSpec
  import opened PoolSystem
  import T = PoolThreads
  import D = PoolDemand

  // ---- How many calls are open ----

  /** The client is inside a call whose job has been accepted: the id of the job is given, and `lastJobId` not advanced. */
  predicate IsOpen(c: Client) {
    (c.Creating? && c.goal.Add?) || c.AwaitPickup?
  }

  function Open(cs: seq<Client>): nat {
    if cs == [] then 0 else Open(cs[..|cs| - 1]) + if IsOpen(cs[|cs| - 1]) then 1 else 0
  }

  lemma {:induction false} OpenUpdate(cs: seq<Client>, c: nat, k: Client)
    requires c < |cs|
    ensures Open(cs[c := k]) == Open(cs) - (if IsOpen(cs[c]) then 1 else 0) + (if IsOpen(k) then 1 else 0)
  {
    var n := |cs| - 1;
    if c < n {
      OpenUpdate(cs[..n], c, k);
      assert cs[c := k][..n] == cs[..n][c := k];
    } else {
      assert cs[c := k][..n] == cs[..n];
    }
  }

  lemma {:induction false} OpenWake(cs: seq<Client>)
    ensures Open(WakeClients(cs)) == Open(cs)
  {
    if cs != [] {
      var n := |cs| - 1;
      OpenWake(cs[..n]);
      assert WakeClients(cs)[..n] == WakeClients(cs[..n]);
    }
  }

  lemma {:induction false} OpenIsCardinality(cs: seq<Client>)
    ensures Open(cs) == |set c | 0 <= c < |cs| && IsOpen(cs[c])|
  {
    var open := set c | 0 <= c < |cs| && IsOpen(cs[c]);
    if cs == [] {
      assert open == {};
    } else {
      var n := |cs| - 1;
      var v := cs[..n];
      OpenIsCardinality(v);
      var open' := set c | 0 <= c < |v| && IsOpen(v[c]);
      if IsOpen(cs[n]) {
        assert open == open' + {n};
      } else {
        assert open == open';
      }
    }
  }

  lemma {:induction false} OpenNone(n: nat)
    ensures Open(AllOutside(n)) == 0
  {
    if n > 0 {
      OpenNone(n - 1);
      assert AllOutside(n)[..n - 1] == AllOutside(n - 1);
    }
  }

  // ---- Every event ----

  /** `lastJobId` is the number of calls that have ended. */
  predicate Advanced(s: System) {
    && s.pool.lastJobId + Open(s.clients) == |s.history.accepted|
    && forall k :: 0 <= k < |s.history.accepted| ==> s.history.accepted[k].jobId <= k
  }

  lemma CheckAdvances(s: System, w: nat, timedOut: bool, now: Time)
    requires Advanced(s) && w < |s.workers|
    ensures Advanced(DoCheck(s, w, timedOut, now))
  {
    hide Bump, Line, Open;
    T.BumpCounts(s.pool.(idleThreads := s.pool.idleThreads - 1), now);
    OpenWake(s.clients);
  }

  lemma CreateAdvances(s: System, c: nat, goal: Goal, x: Choice)
    requires Advanced(s) && c < |s.clients|
    requires IsOpen(s.clients[c]) <==> goal.Add?
    ensures Advanced(DoCreate(s, c, goal, x))
    ensures goal.Init? ==> Advanced(InitPass(s, c, goal.i, x))
    ensures goal.Add? ==> Advanced(AddPass(s, c, goal.jobs, goal.threads, x))
    ensures goal.Persist? ==> Advanced(FinishPersist(s, c, goal.priority, x))
  {
    hide Signal, WantsWorker, Open;
    OpenUpdate(s.clients, c, Outside);
    OpenUpdate(s.clients, c, InitFailed);
    OpenUpdate(s.clients, c, AwaitPickup(true));
    OpenUpdate(s.clients, c, Creating(goal, false, true));
    OpenUpdate(s.clients, c, Creating(goal, true, true));
  }

  lemma ResumeAdvances(s: System, c: nat, x: Choice)
    requires Advanced(s) && c < |s.clients|
    ensures Advanced(DoResume(s, c, x))
  {
    hide DoCreate, InitPass, AddPass, FinishPersist, Open;
    var k := s.clients[c];
    OpenUpdate(s.clients, c, Outside);
    OpenUpdate(s.clients, c, AwaitPickup(true));
    OpenUpdate(s.clients, c, AwaitThreads(true));
    if k.Creating? {
      OpenUpdate(s.clients, c, Creating(k.goal, k.spawned, true));
      CreateAdvances(s, c, k.goal, x);
      if k.goal.Init? {
        CreateAdvances(s, c, Init(k.goal.i + 1), x);
      } else if k.goal.Add? {
        CreateAdvances(s, c, Add(k.goal.jobs, k.goal.threads + 1), x);
      }
    }
  }

  lemma BeginAdvances(s: System, e: Event)
    requires Advanced(s) && Enabled(s, e) && (e.BeginInit? || e.BeginAdd? || e.BeginPersistent?)
    requires s.clients[e.c] == Outside
    ensures Advanced(Apply(s, e))
  {
    hide DoCreate, InitPass, AddPass, FinishPersist, Open, IsFull, RefusesPersistent, SignalReaches;
    match e
    case BeginInit(c, x) => CreateAdvances(s.(phase := Starting), c, Init(0), x);
    case BeginAdd(c, priority, x) =>
      var u := DoEnqueue(s, c, priority, x.now).(clock := x.now);
      OpenUpdate(s.clients, c, u.clients[c]);
      if !IsFull(s.pool) {
        CreateAdvances(u, c, u.clients[c].goal, x);
      }
    case BeginPersistent(c, priority, x) => CreateAdvances(s.(clock := x.now), c, Persist(priority), x);
  }

  lemma OtherAdvances(s: System, e: Event)
    requires Advanced(s) && Enabled(s, e)
    requires e.StartWorker? || e.TimeOut? || e.WakeWorker? || e.WakeClient? || e.RemoveJob? || e.Shutdown?
    ensures Advanced(Apply(s, e))
  {
    hide Open, WakeWorkers, Line, IndexOf;
    OpenWake(s.clients);
    if e.WakeClient? {
      OpenUpdate(s.clients, e.c, Awake(s.clients[e.c]));
    } else if e.Shutdown? {
      OpenUpdate(s.clients, e.c, AwaitThreads(true));
      OpenUpdate(s.clients, e.c, Outside);
    }
  }

  lemma EventAdvances(s: System, e: Event)
    requires Advanced(s) && T.InPhase(s) && Enabled(s, e)
    ensures Advanced(Apply(s, e))
  {
    hide DoCheck, DoResume, InitPass, AddPass, DoCreate, FinishPersist, WakeWorkers, WakeClients, Open, SignalReaches,
         DoRemove, DoShutdown;
    match e
    case Pass(w, now) => CheckAdvances(DoEnter(s, w), w, false, now);
    case Recheck(w, now) => CheckAdvances(s, w, s.workers[w].timedOut, now);
    case BeginInit(_, _) => BeginAdvances(s, e);
    case BeginAdd(_, _, _) => BeginAdvances(s, e);
    case BeginPersistent(_, _, _) => BeginAdvances(s, e);
    case Resume(c, x) => ResumeAdvances(s.(clock := x.now), c, x);
    case _ => OtherAdvances(s, e);
  }

  lemma {:induction false} RunAdvances(s: System, es: seq<Event>)
    requires Advanced(s) && T.Inv(s) && After(s, es).Some?
    ensures Advanced(After(s, es).value) && T.Inv(After(s, es).value)
  {
    hide Advanced, T.Counted, T.Limited, T.NoLostWakeup, T.SoundSleep, T.InPhase, Apply, Enabled;
    if es != [] {
      var front, e := es[..|es| - 1], es[|es| - 1];
      RunAdvances(s, front);
      T.EventKeeps(After(s, front).value, e);
      EventAdvances(After(s, front).value, e);
    }
  }

  lemma ReachableAdvanced(s: System, attr: Attr)
    requires T.Reachable(s, attr)
    ensures Advanced(s)
  {
    hide T.Inv, Open;
    var clients: nat, clock: Time, es :|
      IsTime(clock) && After(InitialSystem(attr, clients, clock), es) == Some(s);
    OpenNone(clients);
    T.InitialHolds(attr, clients, clock);
    RunAdvances(InitialSystem(attr, clients, clock), es);
  }

  // ---- Main results ----

  /** Over every run: `lastJobId` is the number of jobs accepted, less those whose calls have not come to the end. */
  lemma IdsCountCalls(s: System, attr: Attr)
    requires T.Reachable(s, attr)
    ensures var cs := s.clients;
      s.pool.lastJobId == |s.history.accepted| - |set c | 0 <= c < |cs| && IsOpen(cs[c])|
  {
    hide T.Reachable, Open;
    ReachableAdvanced(s, attr);
    OpenIsCardinality(s.clients);
  }

  /** So a job that is accepted while no such call is open has an id that no job had before. */
  lemma IdIsNew(s: System, attr: Attr, c: nat, priority: Priority, x: Choice)
    requires T.Reachable(s, attr) && Enabled(s, BeginAdd(c, priority, x))
    requires forall d :: 0 <= d < |s.clients| ==> !IsOpen(s.clients[d])
    ensures var n, jobs := |s.history.accepted|, Apply(s, BeginAdd(c, priority, x)).history.accepted;
      |jobs| > n ==> jobs[n].jobId == n && forall k :: 0 <= k < n ==> jobs[k].jobId < n
  {
    hide T.Reachable, Open;
    ReachableAdvanced(s, attr);
    OpenIsCardinality(s.clients);
    var open := set d | 0 <= d < |s.clients| && IsOpen(s.clients[d]);
    assert open == {};
    D.AddIsQueued(s, c, priority, x);
  }

  // ---- ThreadPoolRemove ----

  /** Everything that waits: the queues in the order in which they are searched, and the persistent job */
  function Waiting(p: Pool): seq<Job> {
    p.high + p.med + p.low + if p.persistentJob.Some? then [p.persistentJob.value] else []
  }

  predicate HasNone(q: seq<Job>, jobId: int) {
    forall i :: 0 <= i < |q| ==> q[i].jobId != jobId
  }

  /** `job` is the first one in `all` with the id, at index `k`, and `rest` is everything else in its order. */
  predicate IsFirst(all: seq<Job>, k: nat, jobId: int, job: Job, rest: seq<Job>) {
    && k < |all| && all[k] == job && job.jobId == jobId && HasNone(all[..k], jobId)
    && rest == all[..k] + all[k + 1..]
  }

  lemma FirstInPart(a: seq<Job>, q: seq<Job>, c: seq<Job>, i: nat, jobId: int)
    requires i < |q| && q[i].jobId == jobId && HasNone(a, jobId) && HasNone(q[..i], jobId)
    ensures IsFirst(a + q + c, |a| + i, jobId, q[i], a + Without(q, i) + c)
  {
    var all := a + q + c;
    assert all[..|a| + i] == a + q[..i];
    assert all[|a| + i + 1..] == q[i + 1..] + c;
    assert a + Without(q, i) + c == a + q[..i] + (q[i + 1..] + c);
  }

  lemma IndexIsFirst(q: seq<Job>, jobId: int)
    ensures var i := IndexOf(q, jobId);
      i <= |q| && HasNone(q[..i], jobId) && (i < |q| ==> q[i].jobId == jobId) && (i == |q| ==> HasNone(q, jobId))
  {
    IndexOfFirst(q, jobId);
  }

  lemma BothNone(a: seq<Job>, b: seq<Job>, jobId: int)
    ensures HasNone(a + b, jobId) <==> HasNone(a, jobId) && HasNone(b, jobId)
  {
    if HasNone(a + b, jobId) {
      forall i | 0 <= i < |a|
        ensures a[i].jobId != jobId
      {
        assert (a + b)[i] == a[i];
      }
      forall i | 0 <= i < |b|
        ensures b[i].jobId != jobId
      {
        assert (a + b)[|a| + i] == b[i];
      }
    }
  }

  function SlotOf(p: Pool): seq<Job> {
    if p.persistentJob.Some? then [p.persistentJob.value] else []
  }

  lemma InHigh(p: Pool, q: Pool, i: nat, jobId: int)
    requires i < |p.high| && p.high[i].jobId == jobId && HasNone(p.high[..i], jobId)
    requires q == p.(high := Without(p.high, i))
    ensures IsFirst(Waiting(p), i, jobId, p.high[i], Waiting(q))
  {
    hide IsFirst, Without;
    var rest := p.med + p.low + SlotOf(p);
    FirstInPart([], p.high, rest, i, jobId);
    assert Waiting(p) == [] + p.high + rest;
    assert Waiting(q) == [] + q.high + rest;
  }

  lemma InMedium(p: Pool, q: Pool, i: nat, jobId: int)
    requires HasNone(p.high, jobId)
    requires i < |p.med| && p.med[i].jobId == jobId && HasNone(p.med[..i], jobId)
    requires q == p.(med := Without(p.med, i))
    ensures IsFirst(Waiting(p), |p.high| + i, jobId, p.med[i], Waiting(q))
  {
    hide IsFirst, Without, HasNone;
    var rest := p.low + SlotOf(p);
    FirstInPart(p.high, p.med, rest, i, jobId);
    assert Waiting(p) == p.high + p.med + rest;
    assert Waiting(q) == p.high + q.med + rest;
  }

  lemma InLow(p: Pool, q: Pool, i: nat, jobId: int)
    requires HasNone(p.high, jobId) && HasNone(p.med, jobId)
    requires i < |p.low| && p.low[i].jobId == jobId && HasNone(p.low[..i], jobId)
    requires q == p.(low := Without(p.low, i))
    ensures IsFirst(Waiting(p), |p.high + p.med| + i, jobId, p.low[i], Waiting(q))
  {
    hide IsFirst, Without, HasNone;
    BothNone(p.high, p.med, jobId);
    FirstInPart(p.high + p.med, p.low, SlotOf(p), i, jobId);
  }

  lemma InSlot(p: Pool, q: Pool, jobId: int)
    requires HasNone(p.high, jobId) && HasNone(p.med, jobId) && HasNone(p.low, jobId)
    requires p.persistentJob.Some? && p.persistentJob.value.jobId == jobId && q == p.(persistentJob := None)
    ensures IsFirst(Waiting(p), |p.high + p.med + p.low|, jobId, p.persistentJob.value, Waiting(q))
  {
    hide HasNone;
    BothNone(p.high, p.med, jobId);
    BothNone(p.high + p.med, p.low, jobId);
    var a := p.high + p.med + p.low;
    assert Waiting(p)[..|a|] == a;
    assert Waiting(q) == a;
  }

  lemma NowhereFound(p: Pool, jobId: int)
    requires HasNone(p.high, jobId) && HasNone(p.med, jobId) && HasNone(p.low, jobId)
    requires p.persistentJob.Some? ==> p.persistentJob.value.jobId != jobId
    ensures HasNone(Waiting(p), jobId)
  {
    BothNone(p.high, p.med, jobId);
    BothNone(p.high + p.med, p.low, jobId);
    BothNone(p.high + p.med + p.low, SlotOf(p), jobId);
  }

  /** `ThreadPoolRemove` takes out the first waiting job with the id and leaves the others as they are; it finds none
      only if there is none. */
  lemma RemovesFirst(p: Pool, jobId: int)
    ensures var r := Remove(p, jobId);
      if r.job.None? then r.pool == p && HasNone(Waiting(p), jobId)
      else exists k :: IsFirst(Waiting(p), k, jobId, r.job.value, Waiting(r.pool))
  {
    hide IndexOf, HasNone, IsFirst, Waiting, Without;
    IndexIsFirst(p.high, jobId);
    IndexIsFirst(p.med, jobId);
    IndexIsFirst(p.low, jobId);
    var q := Remove(p, jobId).pool;
    var h, m, l := IndexOf(p.high, jobId), IndexOf(p.med, jobId), IndexOf(p.low, jobId);
    if h < |p.high| {
      InHigh(p, q, h, jobId);
    } else if m < |p.med| {
      InMedium(p, q, m, jobId);
    } else if l < |p.low| {
      InLow(p, q, l, jobId);
    } else if Remove(p, jobId).job.Some? {
      InSlot(p, q, jobId);
    } else {
      NowhereFound(p, jobId);
    }
  }
}
