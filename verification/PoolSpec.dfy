/** What each stretch of ThreadPool.c between taking and releasing `tp->mutex` does to the pool. */
module PoolSpec {
  import opened Options

  const INFINITE_THREADS := -1

  datatype Attr = Attr(minThreads: int, maxThreads: int, maxIdleTime: int, jobsPerThread: int, maxJobsTotal: int,
                       starvationTime: int)

  datatype Priority = LOW | MED | HIGH

  /** A `struct timeval`. */
  datatype Time = Time(sec: int, usec: int)

  predicate IsTime(t: Time) {
    0 <= t.usec < 1000000
  }

  predicate NotAfter(a: Time, b: Time) {
    a.sec < b.sec || (a.sec == b.sec && a.usec <= b.usec)
  }

  /** A job. C has no `serial`: it stands for the identity of the accepted job, which `jobId` is not, since
      `lastJobId` is read before `AddWorker` may release the mutex and advanced after it. */
  datatype Job = Job(serial: nat, jobId: int, priority: Priority, requestTime: Time)

  /** The fields of `ThreadPool`, with the two counters of `ThreadPoolStats` that count threads. */
  datatype Pool = Pool(attr: Attr, high: seq<Job>, med: seq<Job>, low: seq<Job>, persistentJob: Option<Job>,
                       lastJobId: int, shutdown: bool, totalThreads: int, busyThreads: int, persistentThreads: int,
                       pending: bool, idleThreads: int, workerThreads: int)

  /** Integer division in C: it truncates towards zero. */
  function TruncDiv(a: int, b: int): int
    requires b != 0
  {
    if a >= 0 then a / b else -(-a / b)
  }

  /** `DiffMillis(time1, time2)` */
  function DiffMillis(time1: Time, time2: Time): int {
    (time1.sec - time2.sec) * 1000 + TruncDiv(time1.usec - time2.usec, 1000)
  }

  /** The three queues as one line of waiting jobs. */
  function Line(p: Pool): seq<Job> {
    p.high + p.med + p.low
  }

  /** `BumpPriority` */
  function Bump(p: Pool, now: Time): Pool
    decreases 2 * |p.low| + |p.med|
  {
    if p.med != [] && DiffMillis(now, p.med[0].requestTime) >= p.attr.starvationTime then
      Bump(p.(high := p.high + [p.med[0]], med := p.med[1..]), now)
    else if p.low != [] && DiffMillis(now, p.low[0].requestTime) >= p.attr.maxIdleTime then
      Bump(p.(med := p.med + [p.low[0]], low := p.low[1..]), now)
    else p
  }

  function EmptyPool(attr: Attr): Pool {
    Pool(attr, [], [], [], None, 0, false, 0, 0, 0, false, 0, 0)
  }

  // ---- Workers ----

  /** The first stretch of `WorkerThread`. */
  function WorkerStart(p: Pool): Pool {
    p.(totalThreads := p.totalThreads + 1, pending := false)
  }

  /** The top of the loop of `WorkerThread` for a worker that has run a job. */
  function WorkerReturn(p: Pool, persistent: bool): Pool {
    var q := p.(busyThreads := p.busyThreads - 1, idleThreads := p.idleThreads + 1);
    if persistent then q.(persistentThreads := p.persistentThreads - 1)
    else q.(workerThreads := p.workerThreads - 1)
  }

  /** The top of the loop of `WorkerThread` for a worker that has not run a job yet. */
  function WorkerEnter(p: Pool): Pool {
    p.(idleThreads := p.idleThreads + 1)
  }

  /** How a stretch of a worker ends: in `ithread_cond_timedwait`, with a job to run, or with the thread. */
  datatype Outcome = Block | Run(job: Job, persistent: bool) | Exit | NeverHere

  predicate NothingToDo(p: Pool) {
    p.low == [] && p.med == [] && p.high == [] && p.persistentJob.None? && !p.shutdown
  }

  predicate LetDie(p: Pool, timedOut: bool) {
    || (timedOut && p.totalThreads > p.attr.minThreads)
    || (p.attr.maxThreads != INFINITE_THREADS && p.totalThreads > p.attr.maxThreads)
  }

  datatype Checked = Checked(pool: Pool, outcome: Outcome)

  /** A worker picks up a job after it has found that there is one. */
  function TakeJob(p: Pool): Checked {
    if p.persistentJob.Some? then
      Checked(p.(persistentJob := None, persistentThreads := p.persistentThreads + 1,
                 busyThreads := p.busyThreads + 1),
              Run(p.persistentJob.value, true))
    else
      var q := p.(workerThreads := p.workerThreads + 1, busyThreads := p.busyThreads + 1);
      if p.high != [] then Checked(q.(high := p.high[1..]), Run(p.high[0], false))
      else if p.med != [] then Checked(q.(med := p.med[1..]), Run(p.med[0], false))
      else if p.low != [] then Checked(q.(low := p.low[1..]), Run(p.low[0], false))
      else Checked(p.(totalThreads := p.totalThreads - 1), NeverHere)
  }

  /** From the test of the inner `while` of `WorkerThread` to the point where it gives up the mutex. */
  function WorkerCheck(p: Pool, timedOut: bool, now: Time): Checked {
    if NothingToDo(p) then
      if LetDie(p, timedOut) then
        Checked(p.(idleThreads := p.idleThreads - 1, totalThreads := p.totalThreads - 1), Exit)
      else Checked(p, Block)
    else
      var q := Bump(p.(idleThreads := p.idleThreads - 1), now);
      if q.shutdown then Checked(q.(totalThreads := q.totalThreads - 1), Exit) else TakeJob(q)
  }

  // ---- Callers ----

  function TotalJobs(p: Pool): nat {
    |p.high| + |p.low| + |p.med|
  }

  predicate TooManyThreads(p: Pool) {
    p.attr.maxThreads != INFINITE_THREADS && p.totalThreads + 1 > p.attr.maxThreads
  }

  /** The test of the loop of `AddWorker`. */
  predicate WantsWorker(p: Pool, jobs: nat, threads: int) {
    threads == 0 || TruncDiv(jobs, threads) >= p.attr.jobsPerThread || p.totalThreads == p.busyThreads
  }

  /** How `CreateWorker` gets on: it waits while another worker is starting; then it finds that there are
      as many threads as allowed, or the system creates no thread, or it waits for its own worker to start. */
  datatype Creation = OtherStarting | MaxThreads | Again | Spawned

  datatype CreateResult = CreateResult(pool: Pool, creation: Creation)

  /** `CreateWorker` from the test of its first loop; `spawn` says whether `ithread_create` succeeds. */
  function TryCreate(p: Pool, spawn: bool): CreateResult {
    if p.pending then CreateResult(p, OtherStarting)
    else if TooManyThreads(p) then CreateResult(p, MaxThreads)
    else if !spawn then CreateResult(p, Again)
    else CreateResult(p.(pending := true), Spawned)
  }

  predicate IsFull(p: Pool) {
    TotalJobs(p) >= p.attr.maxJobsTotal
  }

  /** The part of `ThreadPoolAdd` that puts a new job into its queue. */
  function Enqueue(p: Pool, job: Job): Pool {
    match job.priority
    case HIGH => p.(high := p.high + [job])
    case MED => p.(med := p.med + [job])
    case LOW => p.(low := p.low + [job])
  }

  /** The end of `ThreadPoolAdd`, and of a `ThreadPoolAddPersistent` whose job was picked up. */
  function NextJobId(p: Pool): Pool {
    p.(lastJobId := p.lastJobId + 1)
  }

  /** The refusal of `ThreadPoolAddPersistent`: no thread can be added and all threads but one run
      persistent jobs. */
  predicate RefusesPersistent(p: Pool) {
    p.totalThreads >= p.attr.maxThreads && p.totalThreads - p.persistentThreads - 1 == 0
  }

  /** The first index of `q` with the job id, or |q|: `ListFind` with `CmpThreadPoolJob`. */
  function IndexOf(q: seq<Job>, jobId: int): nat {
    if q == [] || q[0].jobId == jobId then 0 else 1 + IndexOf(q[1..], jobId)
  }

  lemma {:induction false} IndexOfFirst(q: seq<Job>, jobId: int)
    ensures var i := IndexOf(q, jobId);
      && i <= |q|
      && (i < |q| ==> q[i].jobId == jobId)
      && forall k :: 0 <= k < i ==> q[k].jobId != jobId
  {
    if q != [] && q[0].jobId != jobId {
      IndexOfFirst(q[1..], jobId);
    }
  }

  function Without<T>(q: seq<T>, i: nat): seq<T>
    requires i < |q|
  {
    q[..i] + q[i + 1..]
  }

  datatype Removed = Removed(pool: Pool, job: Option<Job>)

  /** `ThreadPoolRemove`: the first job with the id in the high, the medium and the low queue, else the
      persistent job if it has the id. */
  function Remove(p: Pool, jobId: int): Removed {
    var h, m, l := IndexOf(p.high, jobId), IndexOf(p.med, jobId), IndexOf(p.low, jobId);
    IndexOfFirst(p.high, jobId);
    IndexOfFirst(p.med, jobId);
    IndexOfFirst(p.low, jobId);
    if h < |p.high| then Removed(p.(high := Without(p.high, h)), Some(p.high[h]))
    else if m < |p.med| then Removed(p.(med := Without(p.med, m)), Some(p.med[m]))
    else if l < |p.low| then Removed(p.(low := Without(p.low, l)), Some(p.low[l]))
    else if p.persistentJob.Some? && p.persistentJob.value.jobId == jobId then
      Removed(p.(persistentJob := None), p.persistentJob)
    else Removed(p, None)
  }

  /** The first stretch of `ThreadPoolShutdown`: every job that waits is dropped. */
  function Drain(p: Pool): Pool {
    p.(high := [], med := [], low := [], persistentJob := None, shutdown := true)
  }

  function Slot(p: Pool): seq<Job> {
    if p.persistentJob.Some? then [p.persistentJob.value] else []
  }

  // ---- BumpPriority ----

  /** How many jobs from index `i` of the line on have waited for at least `limit` milliseconds. */
  function OldEnough(line: seq<Job>, i: nat, now: Time, limit: int): nat
    requires i <= |line|
    decreases |line| - i
  {
    if i < |line| && DiffMillis(now, line[i].requestTime) >= limit then 1 + OldEnough(line, i + 1, now, limit) else 0
  }

  lemma {:induction false} OldEnoughBound(line: seq<Job>, i: nat, now: Time, limit: int)
    requires i <= |line|
    ensures var n := OldEnough(line, i, now, limit);
      && i + n <= |line|
      && (forall k :: i <= k < i + n ==> DiffMillis(now, line[k].requestTime) >= limit)
      && (i + n < |line| ==> DiffMillis(now, line[i + n].requestTime) < limit)
    decreases |line| - i
  {
    if i < |line| && DiffMillis(now, line[i].requestTime) >= limit {
      OldEnoughBound(line, i + 1, now, limit);
    }
  }

  function Min(a: int, b: int): int {
    if a <= b then a else b
  }

  lemma OldEnoughLimit(line: seq<Job>, i: nat, now: Time, limit: int)
    requires i <= |line|
    ensures i + OldEnough(line, i, now, limit) <= |line|
    ensures var n := OldEnough(line, i, now, limit);
      i + n < |line| ==> DiffMillis(now, line[i + n].requestTime) < limit
  {
    hide DiffMillis;
    OldEnoughBound(line, i, now, limit);
  }

  lemma OldEnoughStep(line: seq<Job>, i: nat, now: Time, limit: int)
    requires i < |line|
    ensures OldEnough(line, i, now, limit)
         == if DiffMillis(now, line[i].requestTime) >= limit then 1 + OldEnough(line, i + 1, now, limit) else 0
  {
  }

  lemma LineAt(p: Pool)
    ensures p.med != [] ==> |p.high| < |Line(p)| && Line(p)[|p.high|] == p.med[0]
    ensures p.low != [] ==> |p.high| + |p.med| < |Line(p)| && Line(p)[|p.high| + |p.med|] == p.low[0]
    ensures |Line(p)| == |p.high| + |p.med| + |p.low|
    ensures p.med != [] ==> Line(p.(high := p.high + [p.med[0]], med := p.med[1..])) == Line(p)
    ensures p.low != [] ==> Line(p.(med := p.med + [p.low[0]], low := p.low[1..])) == Line(p)
  {
    if p.med != [] {
      assert p.high + [p.med[0]] + p.med[1..] == p.high + p.med;
    }
    if p.low != [] {
      assert p.high + (p.med + [p.low[0]]) + p.low[1..] == p.high + p.med + p.low;
    }
  }

  lemma LineLength(p: Pool)
    ensures |Line(p)| == |p.high| + |p.med| + |p.low|
  {
  }

  /** From `p` to `q` the line stays as it is and its two cuts move to the right: the low queue begins at
      its first job that has waited for less than `maxIdleTime`, and the medium queue at the first job
      after the high queue that has waited for less than `starvationTime`, but not behind the low queue. */
  predicate CutsMoved(p: Pool, q: Pool, now: Time) {
    LineLength(p);
    var h, l := |p.high|, |p.high| + |p.med|;
    && q == p.(high := q.high, med := q.med, low := q.low)
    && Line(q) == Line(p)
    && |q.high| + |q.med| == l + OldEnough(Line(p), l, now, p.attr.maxIdleTime)
    && |q.high| == Min(h + OldEnough(Line(p), h, now, p.attr.starvationTime), |q.high| + |q.med|)
  }

  lemma {:induction false} BumpMovesCuts(p: Pool, now: Time)
    ensures CutsMoved(p, Bump(p, now), now)
    decreases 2 * |p.low| + |p.med|
  {
    hide CutsMoved;
    if p.med != [] && DiffMillis(now, p.med[0].requestTime) >= p.attr.starvationTime {
      var p' := p.(high := p.high + [p.med[0]], med := p.med[1..]);
      BumpMovesCuts(p', now);
      CutsMedium(p, Bump(p', now), now);
    } else if p.low != [] && DiffMillis(now, p.low[0].requestTime) >= p.attr.maxIdleTime {
      var p' := p.(med := p.med + [p.low[0]], low := p.low[1..]);
      BumpMovesCuts(p', now);
      CutsLow(p, Bump(p', now), now);
    } else {
      CutsStay(p, now);
    }
  }

  lemma CutsMedium(p: Pool, q: Pool, now: Time)
    requires p.med != [] && DiffMillis(now, p.med[0].requestTime) >= p.attr.starvationTime
    requires CutsMoved(p.(high := p.high + [p.med[0]], med := p.med[1..]), q, now)
    ensures CutsMoved(p, q, now)
  {
    hide OldEnough, DiffMillis, Line;
    LineAt(p);
    OldEnoughStep(Line(p), |p.high|, now, p.attr.starvationTime);
  }

  lemma CutsLow(p: Pool, q: Pool, now: Time)
    requires p.med != [] ==> DiffMillis(now, p.med[0].requestTime) < p.attr.starvationTime
    requires p.low != [] && DiffMillis(now, p.low[0].requestTime) >= p.attr.maxIdleTime
    requires CutsMoved(p.(med := p.med + [p.low[0]], low := p.low[1..]), q, now)
    ensures CutsMoved(p, q, now)
  {
    hide OldEnough, DiffMillis, Line;
    LineAt(p);
    OldEnoughStep(Line(p), |p.high| + |p.med|, now, p.attr.maxIdleTime);
  }

  lemma CutsStay(p: Pool, now: Time)
    requires p.med != [] ==> DiffMillis(now, p.med[0].requestTime) < p.attr.starvationTime
    requires p.low != [] ==> DiffMillis(now, p.low[0].requestTime) < p.attr.maxIdleTime
    ensures CutsMoved(p, p, now)
  {
    hide DiffMillis, Line;
    LineAt(p);
  }

  /** `DiffMillis` reverses the order of request times, although its division truncates. */
  lemma DiffMillisReverses(now: Time, a: Time, b: Time)
    requires IsTime(a) && IsTime(b) && IsTime(now) && NotAfter(a, b)
    ensures DiffMillis(now, a) >= DiffMillis(now, b)
  {
  }

  /** It is within one millisecond of the exact difference, which is in microseconds here. */
  lemma DiffMillisExact(a: Time, b: Time)
    requires IsTime(a) && IsTime(b)
    ensures var exact := (a.sec - b.sec) * 1000000 + (a.usec - b.usec);
      -1000 < DiffMillis(a, b) * 1000 - exact < 1000
  {
  }

  predicate IsSorted(q: seq<Job>) {
    && (forall i :: 0 <= i < |q| ==> IsTime(q[i].requestTime))
    && forall i, j :: 0 <= i < j < |q| ==> NotAfter(q[i].requestTime, q[j].requestTime)
  }

  /** What `BumpPriority` is for: afterwards no job that is left in the low queue has waited for
      `maxIdleTime`, and the next medium job has not waited for `starvationTime`. */
  lemma BumpLeavesFresh(p: Pool, now: Time)
    requires IsSorted(p.low) && IsTime(now)
    ensures var q := Bump(p, now);
      && (forall i :: 0 <= i < |q.low| ==> DiffMillis(now, q.low[i].requestTime) < p.attr.maxIdleTime)
      && (q.med != [] ==> DiffMillis(now, q.med[0].requestTime) < p.attr.starvationTime)
  {
    hide OldEnough, DiffMillis, Bump, Line, IsSorted;
    BumpMovesCuts(p, now);
    var q, h, l, line := Bump(p, now), |p.high|, |p.high| + |p.med|, Line(p);
    LineLength(p);
    OldEnoughLimit(line, h, now, p.attr.starvationTime);
    OldEnoughLimit(line, l, now, p.attr.maxIdleTime);
    LineAt(q);
    var c := |q.high| + |q.med|;
    LowIsSuffix(p, q, c - l);
    FirstIsOldest(q.low, now, p.attr.maxIdleTime);
  }

  lemma FirstIsOldest(q: seq<Job>, now: Time, limit: int)
    requires IsSorted(q) && IsTime(now) && (q != [] ==> DiffMillis(now, q[0].requestTime) < limit)
    ensures forall i :: 0 <= i < |q| ==> DiffMillis(now, q[i].requestTime) < limit
  {
    hide DiffMillis;
    forall i | 0 <= i < |q|
      ensures DiffMillis(now, q[i].requestTime) < limit
    {
      if i > 0 {
        DiffMillisReverses(now, q[0].requestTime, q[i].requestTime);
      }
    }
  }

  lemma LowIsSuffix(p: Pool, q: Pool, n: nat)
    requires Line(q) == Line(p) && |q.high| + |q.med| == |p.high| + |p.med| + n
    ensures n <= |p.low| && q.low == p.low[n..]
    ensures IsSorted(p.low) ==> IsSorted(q.low)
  {
    assert p.low == Line(p)[|p.high| + |p.med|..];
    assert q.low == Line(q)[|q.high| + |q.med|..];
  }
}
