/** The thread pool of ThreadPool.c as an object. A method is a stretch of C code that holds `tp->mutex`
    throughout; it is proved to do what the function of module PoolSpec says. Only `AddWorker` gives the mutex up in
    between: what the other threads leave behind is then a parameter. */
module ThreadPool {
  import opened Options
  import opened PoolSpec

  /** One call of `CreateWorker`: the pool at the end of its first wait, if it has to wait; the result of
      `ithread_create`; and the pool when the new worker has started. */
  datatype Turn = Turn(ready: Pool, spawn: bool, started: Pool)

  predicate IsTurn(turn: Turn, attr: Attr) {
    turn.ready.attr == attr && !turn.ready.pending && turn.started.attr == attr && !turn.started.pending
  }

  /** How `AddWorker` ends: the test of its loop fails, `CreateWorker` fails, or it is still going on after the turns that
      are given. */
  datatype Ending = Enough | Failed | GoesOn

  /** The pool when the test of the loop is made for the time number `i`. */
  function PoolAt(p: Pool, turns: seq<Turn>, i: nat): Pool
    requires i <= |turns|
  {
    if i == 0 then p else turns[i - 1].started
  }

  class ThreadPool {
    const attr: Attr

    var highJobQ: seq<Job>
    var medJobQ: seq<Job>
    var lowJobQ: seq<Job>
    var persistentJob: Option<Job>
    var lastJobId: int
    var shutdown: bool
    var totalThreads: int
    var busyThreads: int
    var persistentThreads: int
    var pendingWorkerThreadStart: bool
    var idleThreads: int
    var workerThreads: int

    ghost function View(): Pool
      reads this
    {
      Pool(attr, highJobQ, medJobQ, lowJobQ, persistentJob, lastJobId, shutdown, totalThreads, busyThreads,
           persistentThreads, pendingWorkerThreadStart, idleThreads, workerThreads)
    }

    /** `ThreadPoolInit` up to the creation of the first worker */
    constructor (attr: Attr)
      ensures View() == EmptyPool(attr)
    {
      this.attr := attr;
      highJobQ, medJobQ, lowJobQ, persistentJob := [], [], [], None;
      lastJobId, shutdown := 0, false;
      totalThreads, busyThreads, persistentThreads, pendingWorkerThreadStart := 0, 0, 0, false;
      idleThreads, workerThreads := 0, 0;
    }

    method BumpPriority(now: Time)
      modifies this`highJobQ, this`medJobQ, this`lowJobQ
      ensures View() == Bump(old(View()), now)
    {
      hide DiffMillis;
      var done := false;
      while !done
        invariant Bump(View(), now) == Bump(old(View()), now)
        invariant done ==> Bump(View(), now) == View()
        decreases 2 * |lowJobQ| + |medJobQ|, !done
      {
        if |medJobQ| != 0 {
          var job := medJobQ[0];
          if DiffMillis(now, job.requestTime) >= attr.starvationTime {
            medJobQ := medJobQ[1..];
            highJobQ := highJobQ + [job];
            continue;
          }
        }
        if |lowJobQ| != 0 {
          var job := lowJobQ[0];
          if DiffMillis(now, job.requestTime) >= attr.maxIdleTime {
            lowJobQ := lowJobQ[1..];
            medJobQ := medJobQ + [job];
            continue;
          }
        }
        done := true;
      }
    }

    // ---- `WorkerThread` ----

    method StartWorker()
      modifies this`totalThreads, this`pendingWorkerThreadStart
      ensures View() == WorkerStart(old(View()))
    {
      totalThreads := totalThreads + 1;
      pendingWorkerThreadStart := false;
    }

    /** The top of the loop; `persistent` is -1 before the first job, and `job` is null again by then. */
    method BeginPass(hadJob: bool, persistent: int)
      requires hadJob <==> persistent == 0 || persistent == 1
      modifies this`busyThreads, this`idleThreads, this`workerThreads, this`persistentThreads
      ensures View() == if hadJob then WorkerReturn(old(View()), persistent == 1) else WorkerEnter(old(View()))
    {
      if hadJob {
        busyThreads := busyThreads - 1;
      }
      idleThreads := idleThreads + 1;
      if persistent == 0 {
        workerThreads := workerThreads - 1;
      } else if persistent == 1 {
        persistentThreads := persistentThreads - 1;
      }
    }

    /** From the test of the inner loop to the next point where the mutex is given up */
    method CheckForJob(timedOut: bool, now: Time) returns (outcome: Outcome)
      modifies this
      ensures Checked(View(), outcome) == WorkerCheck(old(View()), timedOut, now)
    {
      hide Bump;
      if |lowJobQ| == 0 && |medJobQ| == 0 && |highJobQ| == 0 && persistentJob.None? && !shutdown {
        if (timedOut && totalThreads > attr.minThreads)
           || (attr.maxThreads != INFINITE_THREADS && totalThreads > attr.maxThreads) {
          idleThreads := idleThreads - 1;
          totalThreads := totalThreads - 1;
          return Exit;
        }
        return Block;
      }
      idleThreads := idleThreads - 1;
      BumpPriority(now);
      if shutdown {
        totalThreads := totalThreads - 1;
        return Exit;
      }
      outcome := PickUpJob();
    }

    method PickUpJob() returns (outcome: Outcome)
      modifies this
      ensures Checked(View(), outcome) == TakeJob(old(View()))
      ensures old(persistentJob).Some? ==>
        && outcome == Run(old(persistentJob).value, true) && persistentJob.None?
        && highJobQ == old(highJobQ) && medJobQ == old(medJobQ) && lowJobQ == old(lowJobQ)
      ensures old(persistentJob).None? && |old(highJobQ)| > 0 ==>
        && outcome == Run(old(highJobQ)[0], false) && highJobQ == old(highJobQ)[1..]
        && medJobQ == old(medJobQ) && lowJobQ == old(lowJobQ)
      ensures old(persistentJob).None? && |old(highJobQ)| == 0 && |old(medJobQ)| > 0 ==>
        outcome == Run(old(medJobQ)[0], false) && medJobQ == old(medJobQ)[1..] && lowJobQ == old(lowJobQ)
      ensures old(persistentJob).None? && |old(highJobQ)| == 0 && |old(medJobQ)| == 0 && |old(lowJobQ)| > 0 ==>
        outcome == Run(old(lowJobQ)[0], false) && lowJobQ == old(lowJobQ)[1..]
    {
      var job;
      if persistentJob.Some? {
        job := persistentJob.value;
        persistentJob := None;
        persistentThreads := persistentThreads + 1;
        outcome := Run(job, true);
      } else {
        workerThreads := workerThreads + 1;
        if |highJobQ| > 0 {
          job := highJobQ[0];
          highJobQ := highJobQ[1..];
        } else if |medJobQ| > 0 {
          job := medJobQ[0];
          medJobQ := medJobQ[1..];
        } else if |lowJobQ| > 0 {
          job := lowJobQ[0];
          lowJobQ := lowJobQ[1..];
        } else {
          workerThreads := workerThreads - 1;
          totalThreads := totalThreads - 1;
          return NeverHere;
        }
        outcome := Run(job, false);
      }
      busyThreads := busyThreads + 1;
    }

    // ---- Callers ----

    /** `CreateWorker` from the test of its first loop, with the result of `ithread_create` */
    method CreateWorker(spawn: bool) returns (creation: Creation)
      modifies this`pendingWorkerThreadStart
      ensures CreateResult(View(), creation) == TryCreate(old(View()), spawn)
    {
      if pendingWorkerThreadStart {
        return OtherStarting;
      }
      if attr.maxThreads != INFINITE_THREADS && totalThreads + 1 > attr.maxThreads {
        return MaxThreads;
      }
      if !spawn {
        return Again;
      }
      pendingWorkerThreadStart := true;
      return Spawned;
    }

    /** A wait on `start_and_shutdown`: the others leave the pool as `p`. */
    method Wait(p: Pool)
      requires p.attr == attr
      modifies this
      ensures View() == p
    {
      highJobQ, medJobQ, lowJobQ, persistentJob := p.high, p.med, p.low, p.persistentJob;
      lastJobId, shutdown := p.lastJobId, p.shutdown;
      totalThreads, busyThreads, persistentThreads := p.totalThreads, p.busyThreads, p.persistentThreads;
      pendingWorkerThreadStart := p.pending;
      idleThreads, workerThreads := p.idleThreads, p.workerThreads;
    }

    /** The whole of `CreateWorker`, with its two waits */
    method CreateWorkerAndWait(turn: Turn) returns (created: bool)
      requires IsTurn(turn, attr)
      modifies this
      ensures var p := if old(pendingWorkerThreadStart) then turn.ready else old(View());
        && (created <==> turn.spawn && (attr.maxThreads == -1 || p.totalThreads < attr.maxThreads))
        && View() == if created then turn.started else p
    {
      while pendingWorkerThreadStart
        invariant View() == old(View()) || (old(pendingWorkerThreadStart) && View() == turn.ready)
        decreases pendingWorkerThreadStart
      {
        Wait(turn.ready);
      }
      var creation := CreateWorker(turn.spawn);
      if creation != Spawned {
        return false;
      }
      while pendingWorkerThreadStart
        invariant pendingWorkerThreadStart || View() == turn.started
        decreases pendingWorkerThreadStart
      {
        Wait(turn.started);
      }
      return true;
    }

    /** `AddWorker`: each of its `calls` to `CreateWorker`, all of which succeed except perhaps the last one, is made for a
        reason, and it ends only when there is none any more or a call has failed. */
    method AddWorker(turns: seq<Turn>) returns (calls: nat, ending: Ending)
      requires forall i :: 0 <= i < |turns| ==> IsTurn(turns[i], attr)
      modifies this
      ensures calls <= |turns|
      ensures var jobs, threads := |old(highJobQ)| + |old(lowJobQ)| + |old(medJobQ)|, old(totalThreads - persistentThreads);
        && (forall i :: 0 <= i < calls ==>
              var p := PoolAt(old(View()), turns, i);
              threads + i == 0 || jobs / (threads + i) >= attr.jobsPerThread || p.totalThreads == p.busyThreads)
        && (ending == Enough ==>
              threads + calls != 0 && jobs / (threads + calls) < attr.jobsPerThread && totalThreads != busyThreads)
        && (ending == GoesOn ==> calls == |turns|)
      ensures ending != Failed ==> View() == PoolAt(old(View()), turns, calls)
      ensures ending == Failed ==>
        && calls > 0 && (!turns[calls - 1].spawn || (attr.maxThreads != -1 && totalThreads >= attr.maxThreads))
        && View() in {PoolAt(old(View()), turns, calls - 1), turns[calls - 1].ready}
    {
      var jobs := |highJobQ| + |lowJobQ| + |medJobQ|;
      var threads := totalThreads - persistentThreads;
      calls := 0;
      while threads == 0 || jobs / threads >= attr.jobsPerThread || totalThreads == busyThreads
        invariant calls <= |turns| && threads == old(totalThreads - persistentThreads) + calls
        invariant View() == PoolAt(old(View()), turns, calls)
        invariant forall i :: 0 <= i < calls ==>
          var p, n := PoolAt(old(View()), turns, i), old(totalThreads - persistentThreads) + i;
          n == 0 || jobs / n >= attr.jobsPerThread || p.totalThreads == p.busyThreads
        decreases |turns| - calls
      {
        if calls == |turns| {
          return calls, GoesOn;
        }
        var created := CreateWorkerAndWait(turns[calls]);
        calls := calls + 1;
        if !created {
          return calls, Failed;
        }
        threads := threads + 1;
      }
      ending := Enough;
    }

    /** `ThreadPoolAdd` before `AddWorker` */
    method BeginAdd(serial: nat, priority: Priority, now: Time) returns (ok: bool)
      modifies this`highJobQ, this`medJobQ, this`lowJobQ
      ensures ok <==> |old(highJobQ)| + |old(medJobQ)| + |old(lowJobQ)| < attr.maxJobsTotal
      ensures View() == if ok then Enqueue(old(View()), Job(serial, lastJobId, priority, now)) else old(View())
    {
      var totalJobs := |highJobQ| + |lowJobQ| + |medJobQ|;
      if totalJobs >= attr.maxJobsTotal {
        return false;
      }
      var temp := Job(serial, lastJobId, priority, now);
      if priority == HIGH {
        highJobQ := highJobQ + [temp];
      } else if priority == MED {
        medJobQ := medJobQ + [temp];
      } else {
        lowJobQ := lowJobQ + [temp];
      }
      ok := true;
    }

    /** `ThreadPoolRemove` */
    method RemoveJob(jobId: int) returns (out: Option<Job>)
      modifies this`highJobQ, this`medJobQ, this`lowJobQ, this`persistentJob
      ensures Removed(View(), out) == Remove(old(View()), jobId)
    {
      var n := FindJob(highJobQ, jobId);
      if n < |highJobQ| {
        out := Some(highJobQ[n]);
        highJobQ := Without(highJobQ, n);
        return;
      }
      n := FindJob(medJobQ, jobId);
      if n < |medJobQ| {
        out := Some(medJobQ[n]);
        medJobQ := Without(medJobQ, n);
        return;
      }
      n := FindJob(lowJobQ, jobId);
      if n < |lowJobQ| {
        out := Some(lowJobQ[n]);
        lowJobQ := Without(lowJobQ, n);
        return;
      }
      if persistentJob.Some? && persistentJob.value.jobId == jobId {
        out := persistentJob;
        persistentJob := None;
        return;
      }
      out := None;
    }

    /** `ListFind` on a job queue */
    method FindJob(q: seq<Job>, jobId: int) returns (n: nat)
      ensures n == IndexOf(q, jobId) <= |q|
    {
      n := 0;
      while n < |q| && q[n].jobId != jobId
        invariant n <= |q|
        invariant IndexOf(q, jobId) == n + IndexOf(q[n..], jobId)
      {
        assert q[n..][1..] == q[n + 1..];
        n := n + 1;
      }
    }

    /** `ThreadPoolShutdown` until it waits for the workers; `freed` lists the jobs that `free_func` is
        called for. */
    method BeginShutdown() returns (freed: seq<Job>)
      modifies this`highJobQ, this`medJobQ, this`lowJobQ, this`persistentJob, this`shutdown
      ensures View() == Drain(old(View()))
      ensures freed == Line(old(View())) + Slot(old(View()))
    {
      var high := DrainHigh();
      var med := DrainMed();
      var low := DrainLow();
      freed := high + med + low;
      if persistentJob.Some? {
        freed := freed + [persistentJob.value];
        persistentJob := None;
      }
      shutdown := true;
    }

    method DrainHigh() returns (freed: seq<Job>)
      modifies this`highJobQ
      ensures highJobQ == [] && freed == old(highJobQ)
    {
      freed := [];
      while |highJobQ| != 0
        invariant freed + highJobQ == old(highJobQ)
        decreases |highJobQ|
      {
        freed, highJobQ := freed + [highJobQ[0]], highJobQ[1..];
      }
    }

    method DrainMed() returns (freed: seq<Job>)
      modifies this`medJobQ
      ensures medJobQ == [] && freed == old(medJobQ)
    {
      freed := [];
      while |medJobQ| != 0
        invariant freed + medJobQ == old(medJobQ)
        decreases |medJobQ|
      {
        freed, medJobQ := freed + [medJobQ[0]], medJobQ[1..];
      }
    }

    method DrainLow() returns (freed: seq<Job>)
      modifies this`lowJobQ
      ensures lowJobQ == [] && freed == old(lowJobQ)
    {
      freed := [];
      while |lowJobQ| != 0
        invariant freed + lowJobQ == old(lowJobQ)
        decreases |lowJobQ|
      {
        freed, lowJobQ := freed + [lowJobQ[0]], lowJobQ[1..];
      }
    }
  }
}
