/** What every run of the thread pool does with its jobs: the three queues are one line with two cuts, jobs of
    the same priority start in the order in which they were added, and no job is lost or started twice. */
module PoolJobs {
  import opened Options
  import opened PoolSpec
  import opened PoolSystem
  import T = PoolThreads

  // ---- The line ----

  /** The jobs that were started from a queue, in that order, with the jobs that wait behind them: the queues
      begin at index `n` (high), `h` (medium) and `m` (low). */
  datatype Row = Row(all: seq<Job>, n: nat, h: nat, m: nat)

  function RowOf(s: System): Row {
    var n := |s.history.started|;
    Row(s.history.started + Line(s.pool), n, n + |s.pool.high|, n + |s.pool.high| + |s.pool.med|)
  }

  predicate IsRow(r: Row) {
    r.n <= r.h <= r.m <= |r.all|
  }

  /** Where `ThreadPoolAdd` puts a job */
  function CutFor(r: Row, priority: Priority): nat {
    match priority
    case HIGH => r.h
    case MED => r.m
    case LOW => |r.all|
  }

  function Insert(r: Row, job: Job): Row
    requires IsRow(r)
  {
    var k := CutFor(r, job.priority);
    Row(r.all[..k] + [job] + r.all[k..], r.n, if job.priority == HIGH then r.h + 1 else r.h,
        if job.priority == LOW then r.m else r.m + 1)
  }

  function Delete(r: Row, k: nat): Row
    requires IsRow(r) && k < |r.all|
  {
    Row(Without(r.all, k), r.n, if k < r.h then r.h - 1 else r.h, if k < r.m then r.m - 1 else r.m)
  }

  /** What can happen to the row: cuts move to the right, and at most one job is started; or a job is put in at
      the cut for its priority; or a waiting job is taken out; or all waiting jobs are dropped. */
  predicate Advances(r: Row, r': Row) {
    r'.all == r.all && r.n <= r'.n <= r.n + 1 && r.h <= r'.h && r.m <= r'.m && IsRow(r')
  }

  predicate Inserts(r: Row, r': Row, job: Job) {
    IsRow(r) && r' == Insert(r, job)
  }

  predicate Deletes(r: Row, r': Row, k: nat) {
    IsRow(r) && r.n <= k < |r.all| && r' == Delete(r, k)
  }

  predicate Drops(r: Row, r': Row) {
    IsRow(r) && r' == Row(r.all[..r.n], r.n, r.n, r.n)
  }

  /** `next` jobs had been accepted before the step. */
  ghost predicate RowStep(r: Row, r': Row, next: nat) {
    || Advances(r, r')
    || (exists job: Job :: job.serial == next && Inserts(r, r', job))
    || (exists k: nat :: Deletes(r, r', k))
    || Drops(r, r')
  }

  // ---- Order in the line ----

  /** The low queue holds only jobs of low priority, and the medium queue none of high priority; jobs of the same
      priority stand in the order in which they were accepted. */
  predicate IsOrdered(r: Row, next: nat) {
    && IsRow(r)
    && (forall i :: r.m <= i < |r.all| ==> r.all[i].priority == LOW)
    && (forall i :: r.h <= i < |r.all| ==> r.all[i].priority != HIGH)
    && (forall i :: 0 <= i < |r.all| ==> r.all[i].serial < next)
    && IsSerialOrder(r.all)
  }

  /** Wherever `job` stands in the row, it has been started or is in the high queue, and everything accepted
      as number `since` or later stands behind it. */
  predicate StandsBefore(r: Row, job: Job, since: nat) {
    forall i :: 0 <= i < |r.all| && r.all[i] == job ==>
      && i < r.h
      && forall j :: 0 <= j < |r.all| && r.all[j].serial >= since ==> i < j
  }

  /** `r'` is `r` with `job` put in at index `k`. */
  predicate InsertedAt(r: Row, r': Row, job: Job, k: nat) {
    && IsRow(r) && IsRow(r') && |r'.all| == |r.all| + 1
    && k == CutFor(r, job.priority) && k < |r'.all|
    && r'.h == (if job.priority == HIGH then r.h + 1 else r.h)
    && r'.m == (if job.priority == LOW then r.m else r.m + 1)
    && forall i {:trigger r'.all[i]} :: 0 <= i < |r'.all| ==>
         r'.all[i] == if i < k then r.all[i] else if i == k then job else r.all[i - 1]
  }

  predicate DeletedAt(r: Row, r': Row, k: nat) {
    && IsRow(r) && IsRow(r') && |r'.all| == |r.all| - 1 && r.n <= k < |r.all|
    && r'.h == (if k < r.h then r.h - 1 else r.h)
    && r'.m == (if k < r.m then r.m - 1 else r.m)
    && forall i {:trigger r'.all[i]} :: 0 <= i < |r'.all| ==> r'.all[i] == if i < k then r.all[i] else r.all[i + 1]
  }

  lemma InsertAt(r: Row, r': Row, job: Job)
    requires Inserts(r, r', job)
    ensures InsertedAt(r, r', job, CutFor(r, job.priority))
  {
  }

  lemma DeleteAt(r: Row, r': Row, k: nat)
    requires Deletes(r, r', k)
    ensures DeletedAt(r, r', k)
  {
  }

  lemma StepKeepsOrder(r: Row, r': Row, next: nat)
    requires IsOrdered(r, next) && RowStep(r, r', next)
    ensures IsOrdered(r', next + 1) && ((exists job: Job :: Inserts(r, r', job)) || IsOrdered(r', next))
  {
    hide Inserts, Deletes;
    if Advances(r, r') {
      assert IsOrdered(r', next);
    } else if job: Job :| job.serial == next && Inserts(r, r', job) {
      InsertAt(r, r', job);
      InsertKeepsOrder(r, r', job, CutFor(r, job.priority), next);
    } else if k: nat :| Deletes(r, r', k) {
      DeleteAt(r, r', k);
      DeleteKeepsOrder(r, r', k, next);
    }
  }

  predicate IsSerialOrder(all: seq<Job>) {
    forall i, j :: 0 <= i < j < |all| && all[i].priority == all[j].priority ==> all[i].serial < all[j].serial
  }

  lemma InsertKeepsOrder(r: Row, r': Row, job: Job, k: nat, next: nat)
    requires IsOrdered(r, next) && job.serial == next && InsertedAt(r, r', job, k)
    ensures IsOrdered(r', next + 1)
  {
    hide IsSerialOrder;
    InsertKeepsSerialOrder(r, r', job, k, next);
  }

  lemma InsertKeepsSerialOrder(r: Row, r': Row, job: Job, k: nat, next: nat)
    requires IsOrdered(r, next) && job.serial == next && InsertedAt(r, r', job, k)
    ensures IsSerialOrder(r'.all)
  {
  }

  lemma DeleteKeepsOrder(r: Row, r': Row, k: nat, next: nat)
    requires IsOrdered(r, next) && DeletedAt(r, r', k)
    ensures IsOrdered(r', next)
  {
  }

  lemma StepKeepsPlace(r: Row, r': Row, next: nat, job: Job, since: nat)
    requires IsOrdered(r, next) && RowStep(r, r', next) && job.serial < since <= next
    requires StandsBefore(r, job, since)
    ensures StandsBefore(r', job, since)
  {
    hide Inserts, Deletes;
    if Advances(r, r') {
    } else if added: Job :| added.serial == next && Inserts(r, r', added) {
      InsertAt(r, r', added);
      InsertKeepsPlace(r, r', added, CutFor(r, added.priority), job, since);
    } else if k: nat :| Deletes(r, r', k) {
      DeleteAt(r, r', k);
      DeleteKeepsPlace(r, r', k, job, since);
    } else {
      DropKeepsPlace(r, r', job, since);
    }
  }

  lemma InsertKeepsPlace(r: Row, r': Row, added: Job, k: nat, job: Job, since: nat)
    requires InsertedAt(r, r', added, k)
    requires job.serial < since <= added.serial && StandsBefore(r, job, since)
    ensures StandsBefore(r', job, since)
  {
  }

  lemma DeleteKeepsPlace(r: Row, r': Row, k: nat, job: Job, since: nat)
    requires DeletedAt(r, r', k) && StandsBefore(r, job, since)
    ensures StandsBefore(r', job, since)
  {
    forall i | 0 <= i < |r'.all| && r'.all[i] == job
      ensures i < r'.h && forall j :: 0 <= j < |r'.all| && r'.all[j].serial >= since ==> i < j
    {
      var i0 := if i < k then i else i + 1;
      assert r.all[i0] == job;
      forall j | 0 <= j < |r'.all| && r'.all[j].serial >= since
        ensures i < j
      {
        var j0 := if j < k then j else j + 1;
        assert r.all[j0].serial >= since;
      }
    }
  }

  lemma DropKeepsPlace(r: Row, r': Row, job: Job, since: nat)
    requires Drops(r, r') && StandsBefore(r, job, since)
    ensures StandsBefore(r', job, since)
  {
  }

  // ---- What the events do to the jobs ----

  predicate IsSuffix(a: seq<Job>, b: seq<Job>) {
    |a| <= |b| && a == b[|b| - |a|..]
  }

  /** A worker that holds the mutex moves the cuts, and takes the head of the line if it takes a job that is not
      persistent. */
  predicate LineTaken(p: Pool, q: Pool, outcome: Outcome) {
    && q.attr == p.attr && IsSuffix(q.low, p.low)
    && match outcome
       case Run(job, false) =>
         && Line(p) == [job] + Line(q) && q.persistentJob == p.persistentJob
         && |p.high| <= |q.high| + 1 && |p.high| + |p.med| <= |q.high| + |q.med| + 1
       case Run(job, true) =>
         && Line(p) == Line(q) && p.persistentJob == Some(job) && q.persistentJob.None?
         && |p.high| <= |q.high| && |p.high| + |p.med| <= |q.high| + |q.med|
       case _ =>
         && Line(p) == Line(q) && q.persistentJob == p.persistentJob
         && |p.high| <= |q.high| && |p.high| + |p.med| <= |q.high| + |q.med|
  }

  lemma TakesHead(p: Pool)
    ensures LineTaken(p, TakeJob(p).pool, TakeJob(p).outcome)
  {
    hide Line;
    var q := TakeJob(p).pool;
    if p.persistentJob.Some? || (p.high == [] && p.med == [] && p.low == []) {
      LineOf(p, q);
    } else if p.high != [] {
      HeadIsHigh(p, q);
    } else if p.med != [] {
      HeadIsMedium(p, q);
    } else {
      HeadIsLow(p, q);
    }
  }

  lemma HeadIsHigh(p: Pool, q: Pool)
    requires p.high != [] && q.high == p.high[1..] && q.med == p.med && q.low == p.low
    ensures Line(p) == [p.high[0]] + Line(q)
  {
  }

  lemma HeadIsMedium(p: Pool, q: Pool)
    requires p.high == [] && p.med != [] && q.high == [] && q.med == p.med[1..] && q.low == p.low
    ensures Line(p) == [p.med[0]] + Line(q)
  {
  }

  lemma HeadIsLow(p: Pool, q: Pool)
    requires p.high == [] && p.med == [] && p.low != [] && q.high == [] && q.med == [] && q.low == p.low[1..]
    ensures Line(p) == [p.low[0]] + Line(q)
  {
  }

  lemma BumpRow(p: Pool, now: Time)
    ensures var q := Bump(p, now);
      && Line(q) == Line(p) && q == p.(high := q.high, med := q.med, low := q.low)
      && |p.high| <= |q.high| && |p.high| + |p.med| <= |q.high| + |q.med| && IsSuffix(q.low, p.low)
  {
    hide Bump, Line, OldEnough;
    BumpMovesCuts(p, now);
    LineLength(p);
    OldEnoughLimit(Line(p), |p.high|, now, p.attr.starvationTime);
    var q := Bump(p, now);
    LowIsSuffix(p, q, |q.high| + |q.med| - |p.high| - |p.med|);
  }

  lemma CheckLine(p: Pool, timedOut: bool, now: Time)
    ensures var r := WorkerCheck(p, timedOut, now); LineTaken(p, r.pool, r.outcome)
  {
    hide Bump, Line, TakeJob, NothingToDo, LetDie;
    var p' := p.(idleThreads := p.idleThreads - 1);
    LineOf(p, p');
    if NothingToDo(p) {
      var q := p'.(totalThreads := p.totalThreads - 1);
      LineOf(p, q);
    } else {
      var q := Bump(p', now);
      BumpRow(p', now);
      LineOf(q, q.(totalThreads := q.totalThreads - 1));
      TakesHead(q);
    }
  }

  lemma LineOf(p: Pool, q: Pool)
    requires q.high == p.high && q.med == p.med && q.low == p.low
    ensures Line(q) == Line(p)
  {
  }

  predicate SameQueues(p: Pool, q: Pool) {
    q.high == p.high && q.med == p.med && q.low == p.low && q.attr == p.attr
  }

  predicate Quiet(s: System, t: System) {
    SameQueues(s.pool, t.pool) && t.pool.persistentJob == s.pool.persistentJob && t.history == s.history
  }

  /** The history after a worker has found `outcome`. */
  function Started(h: History, outcome: Outcome): History {
    match outcome
    case Run(job, false) => h.(started := h.started + [job])
    case Run(job, true) => h.(persistentStarted := h.persistentStarted + [job])
    case _ => h
  }

  predicate Checks(s: System, t: System, outcome: Outcome) {
    LineTaken(s.pool, t.pool, outcome) && t.history == Started(s.history, outcome)
  }

  predicate IsAccepted(s: System, t: System, job: Job) {
    && job.serial == |s.history.accepted| && t.history == s.history.(accepted := s.history.accepted + [job])
    && job.requestTime == t.clock
  }

  predicate Enqueues(s: System, t: System, job: Job) {
    && IsAccepted(s, t, job) && !IsFull(s.pool)
    && SameQueues(Enqueue(s.pool, job), t.pool) && t.pool.persistentJob == s.pool.persistentJob
  }

  predicate Fills(s: System, t: System, job: Job) {
    && IsAccepted(s, t, job) && SameQueues(s.pool, t.pool)
    && s.pool.persistentJob.None? && t.pool.persistentJob == Some(job)
  }

  predicate Withdraws(s: System, t: System, jobId: int) {
    var r := Remove(s.pool, jobId);
    && r.job.Some? && t.pool == r.pool
    && t.history == s.history.(removed := s.history.removed + [r.job.value])
  }

  predicate Clears(s: System, t: System) {
    && t.pool == Drain(s.pool)
    && t.history == s.history.(dropped := s.history.dropped + Line(s.pool) + Slot(s.pool))
  }

  /** What an event does to the jobs */
  ghost predicate JobStep(s: System, t: System) {
    && IsTime(t.clock) && NotAfter(s.clock, t.clock)
    && (|| Quiet(s, t)
        || (exists outcome :: Checks(s, t, outcome))
        || (exists job :: Enqueues(s, t, job))
        || (exists job :: Fills(s, t, job))
        || (exists jobId :: Withdraws(s, t, jobId))
        || Clears(s, t))
  }

  // ---- At most one client in ThreadPoolAddPersistent ----

  /** The persistent slot belongs to the one client that waits for it to be emptied. */
  predicate OnePersister(s: System) {
    && (forall c, d :: 0 <= c < d < |s.clients| ==> !(IsPersister(s.clients[c]) && IsPersister(s.clients[d])))
    && (s.pool.persistentJob.Some? ==> exists c :: 0 <= c < |s.clients| && s.clients[c].AwaitPickup?)
  }

  lemma CreateIsQuiet(s: System, c: nat, goal: Goal, x: Choice)
    requires c < |s.clients| && !goal.Persist?
    ensures Quiet(s, DoCreate(s, c, goal, x)) && DoCreate(s, c, goal, x).clock == s.clock
    ensures goal.Init? ==> Quiet(s, InitPass(s, c, goal.i, x)) && InitPass(s, c, goal.i, x).clock == s.clock
    ensures goal.Add? ==>
      var t := AddPass(s, c, goal.jobs, goal.threads, x); Quiet(s, t) && t.clock == s.clock
  {
    hide Signal;
  }

  lemma FillsSlot(s: System, c: nat, priority: Priority, x: Choice)
    requires c < |s.clients| && s.pool.persistentJob.None? && s.clock == x.now
    ensures var t := FinishPersist(s, c, priority, x);
      t.clock == s.clock && t.clients[c].AwaitPickup? && exists job :: Fills(s, t, job)
  {
    hide Signal;
    var t := FinishPersist(s, c, priority, x);
    assert Fills(s, t, t.pool.persistentJob.value);
  }

  lemma CreateFillsSlot(s: System, c: nat, priority: Priority, x: Choice)
    requires c < |s.clients| && s.pool.persistentJob.None? && s.clock == x.now
    ensures var t := DoCreate(s, c, Persist(priority), x);
      t.clock == s.clock && (Quiet(s, t) || (t.clients[c].AwaitPickup? && exists job :: Fills(s, t, job)))
  {
    hide Signal, FinishPersist;
    FillsSlot(s, c, priority, x);
  }

  /** An event of client `c` keeps the slot with its one owner if `c` does not become a second one. */
  lemma ClientKeepsOwner(s: System, t: System, c: nat)
    requires OnePersister(s) && c < |s.clients| && |t.clients| == |s.clients|
    requires forall d :: 0 <= d < |s.clients| && d != c ==> t.clients[d] == s.clients[d]
    requires IsPersister(t.clients[c]) ==> IsPersister(s.clients[c]) || forall k <- s.clients :: !IsPersister(k)
    requires t.pool.persistentJob.Some? ==>
      t.clients[c].AwaitPickup? || (s.pool.persistentJob.Some? && !s.clients[c].AwaitPickup?)
    ensures OnePersister(t)
  {
    if t.pool.persistentJob.Some? && !t.clients[c].AwaitPickup? {
      var d :| 0 <= d < |s.clients| && s.clients[d].AwaitPickup?;
      assert t.clients[d].AwaitPickup?;
    }
  }

  /** So does any event that leaves the clients where they are, awake or not. */
  lemma OthersKeepOwner(s: System, t: System)
    requires OnePersister(s) && (t.clients == s.clients || t.clients == WakeClients(s.clients))
    requires t.pool.persistentJob.Some? ==> s.pool.persistentJob.Some?
    ensures OnePersister(t)
  {
    if t.pool.persistentJob.Some? {
      var d :| 0 <= d < |s.clients| && s.clients[d].AwaitPickup?;
      assert t.clients[d].AwaitPickup?;
    }
  }

  /** What the stretches of client `c` do to the other clients, and which goal `c` has afterwards. */
  predicate Moves(s: System, t: System, c: nat, goal: Goal) {
    && c < |s.clients| == |t.clients| && t.clients == s.clients[c := t.clients[c]]
    && match t.clients[c]
       case Creating(g, _, _) => g.Persist? <==> goal.Persist?
       case AwaitPickup(_) => goal.Persist? && t.pool.persistentJob.Some?
       case _ => !goal.Persist?
  }

  lemma CreateMoves(s: System, c: nat, goal: Goal, x: Choice)
    requires c < |s.clients|
    ensures Moves(s, DoCreate(s, c, goal, x), c, goal)
    ensures goal.Init? ==> Moves(s, InitPass(s, c, goal.i, x), c, goal)
    ensures goal.Add? ==> Moves(s, AddPass(s, c, goal.jobs, goal.threads, x), c, goal)
    ensures goal.Persist? ==> Moves(s, FinishPersist(s, c, goal.priority, x), c, goal)
  {
    hide Signal;
  }

  lemma SlotIsEmpty(s: System, c: nat)
    requires OnePersister(s) && c < |s.clients| && s.clients[c].Creating? && s.clients[c].goal.Persist?
    ensures s.pool.persistentJob.None?
  {
  }

  /** What a client event does, for a goal it is in the middle of. */
  lemma GoalStep(s: System, t: System, c: nat, goal: Goal)
    requires OnePersister(s) && Moves(s, t, c, goal) && IsTime(s.clock) && t.clock == s.clock
    requires Quiet(s, t) || (t.clients[c].AwaitPickup? && exists job :: Fills(s, t, job))
    requires !s.clients[c].AwaitPickup?
    requires goal.Persist? ==> IsPersister(s.clients[c]) || forall k <- s.clients :: !IsPersister(k)
    ensures JobStep(s, t) && OnePersister(t)
  {
    ClientKeepsOwner(s, t, c);
  }

  lemma DoCreateStep(s: System, c: nat, goal: Goal, x: Choice)
    requires OnePersister(s) && c < |s.clients| && IsTime(s.clock) && s.clock == x.now
    requires !s.clients[c].AwaitPickup?
    requires goal.Persist? ==>
      s.pool.persistentJob.None? && (IsPersister(s.clients[c]) || forall k <- s.clients :: !IsPersister(k))
    ensures var t := DoCreate(s, c, goal, x); JobStep(s, t) && OnePersister(t)
  {
    hide DoCreate, OnePersister, JobStep, Moves, Quiet, Fills;
    CreateMoves(s, c, goal, x);
    if goal.Persist? {
      CreateFillsSlot(s, c, goal.priority, x);
    } else {
      CreateIsQuiet(s, c, goal, x);
    }
    GoalStep(s, DoCreate(s, c, goal, x), c, goal);
  }

  lemma FinishPersistStep(s: System, c: nat, priority: Priority, x: Choice)
    requires OnePersister(s) && c < |s.clients| && IsTime(s.clock) && s.clock == x.now
    requires !s.clients[c].AwaitPickup? && s.pool.persistentJob.None?
    requires IsPersister(s.clients[c]) || forall k <- s.clients :: !IsPersister(k)
    ensures var t := FinishPersist(s, c, priority, x); JobStep(s, t) && OnePersister(t)
  {
    hide FinishPersist, OnePersister, JobStep, Moves, Quiet, Fills;
    CreateMoves(s, c, Persist(priority), x);
    FillsSlot(s, c, priority, x);
    GoalStep(s, FinishPersist(s, c, priority, x), c, Persist(priority));
  }

  lemma PassStep(s: System, t: System, c: nat, goal: Goal)
    requires OnePersister(s) && c < |s.clients| && IsTime(s.clock) && !s.clients[c].AwaitPickup?
    requires !goal.Persist? && Moves(s, t, c, goal) && Quiet(s, t) && t.clock == s.clock
    ensures JobStep(s, t) && OnePersister(t)
  {
    hide OnePersister, JobStep, Moves, Quiet, Fills;
    GoalStep(s, t, c, goal);
  }

  lemma ResumeStep(s: System, c: nat, x: Choice)
    requires OnePersister(s) && c < |s.clients| && IsAwake(s.clients[c]) && IsTime(s.clock) && s.clock == x.now
    ensures var t := DoResume(s, c, x); JobStep(s, t) && OnePersister(t)
  {
    hide OnePersister, JobStep, InitPass, AddPass, DoCreate, FinishPersist;
    if s.clients[c].Creating? {
      var goal, spawned := s.clients[c].goal, s.clients[c].spawned;
      if goal.Persist? {
        SlotIsEmpty(s, c);
      }
      if s.pool.pending {
        GoalStep(s, DoResume(s, c, x), c, goal);
      } else if !spawned {
        DoCreateStep(s, c, goal, x);
      } else {
        SucceedStep(s, c, goal, x);
      }
    } else {
      AwaitStep(s, c, x);
    }
  }

  lemma SucceedStep(s: System, c: nat, goal: Goal, x: Choice)
    requires OnePersister(s) && c < |s.clients| && IsTime(s.clock) && s.clock == x.now
    requires s.clients[c].Creating? && s.clients[c].goal == goal
    ensures var t := CreationSucceeds(s, c, goal, x); JobStep(s, t) && OnePersister(t)
  {
    hide OnePersister, JobStep, Moves, Quiet, InitPass, AddPass, FinishPersist;
    match goal
    case Init(i) =>
      CreateMoves(s, c, Init(i + 1), x);
      CreateIsQuiet(s, c, Init(i + 1), x);
      PassStep(s, InitPass(s, c, i + 1, x), c, Init(i + 1));
    case Add(jobs, threads) =>
      CreateMoves(s, c, Add(jobs, threads + 1), x);
      CreateIsQuiet(s, c, Add(jobs, threads + 1), x);
      PassStep(s, AddPass(s, c, jobs, threads + 1, x), c, Add(jobs, threads + 1));
    case Persist(priority) =>
      SlotIsEmpty(s, c);
      FinishPersistStep(s, c, priority, x);
  }

  lemma AwaitStep(s: System, c: nat, x: Choice)
    requires OnePersister(s) && c < |s.clients| && IsAwake(s.clients[c]) && !s.clients[c].Creating?
    requires IsTime(s.clock) && s.clock == x.now
    ensures var t := DoResume(s, c, x); JobStep(s, t) && OnePersister(t)
  {
    hide OnePersister;
    var t := DoResume(s, c, x);
    assert Quiet(s, t);
    ClientKeepsOwner(s, t, c);
  }

  lemma CheckStep(s: System, w: nat, timedOut: bool, now: Time)
    requires OnePersister(s) && w < |s.workers|
    ensures var t := DoCheck(s, w, timedOut, now);
      Checks(s, t, WorkerCheck(s.pool, timedOut, now).outcome) && t.clock == now && OnePersister(t)
  {
    hide OnePersister, WorkerCheck, WakeClients, Line;
    CheckLine(s.pool, timedOut, now);
    OthersKeepOwner(s, DoCheck(s, w, timedOut, now));
  }

  lemma EnterIsQuiet(s: System, w: nat)
    requires OnePersister(s) && w < |s.workers|
    ensures var u := DoEnter(s, w); Quiet(s, u) && OnePersister(u) && |u.workers| == |s.workers|
  {
    OthersKeepOwner(s, DoEnter(s, w));
  }

  lemma ChecksFromSame(s: System, u: System, t: System, outcome: Outcome)
    requires Quiet(s, u) && Checks(u, t, outcome)
    ensures Checks(s, t, outcome)
  {
  }

  lemma WorkerStep(s: System, e: Event)
    requires OnePersister(s) && Enabled(s, e) && (e.Pass? || e.Recheck?)
    ensures JobStep(s, Apply(s, e)) && OnePersister(Apply(s, e))
  {
    hide OnePersister, DoCheck, DoEnter, WorkerCheck, Checks, Quiet;
    var w := e.w;
    var timedOut := e.Recheck? && s.workers[w].timedOut;
    var u := if e.Pass? then DoEnter(s, w) else s;
    EnterIsQuiet(s, w);
    CheckStep(u, w, timedOut, e.now);
    var t, outcome := Apply(s, e), WorkerCheck(u.pool, timedOut, e.now).outcome;
    if e.Pass? {
      ChecksFromSame(s, u, t, outcome);
    }
  }

  lemma EnqueueStep(s: System, c: nat, priority: Priority, now: Time)
    requires OnePersister(s) && Idles(s, c) && IsLater(s, now) && !IsFull(s.pool)
    ensures var t := DoEnqueue(s, c, priority, now).(clock := now);
      && OnePersister(t) && IsTime(t.clock) && NotAfter(s.clock, now)
      && Enqueues(s, t, Job(|s.history.accepted|, s.pool.lastJobId, priority, now))
  {
    hide OnePersister;
    ClientKeepsOwner(s, DoEnqueue(s, c, priority, now), c);
    ClockFree(DoEnqueue(s, c, priority, now), now);
  }

  lemma ClockFree(s: System, now: Time)
    ensures OnePersister(s.(clock := now)) == OnePersister(s)
  {
  }

  lemma BeginAddStep(s: System, c: nat, priority: Priority, x: Choice)
    requires OnePersister(s) && IsTime(s.clock) && Enabled(s, BeginAdd(c, priority, x))
    ensures var t := Apply(s, BeginAdd(c, priority, x)); JobStep(s, t) && OnePersister(t)
  {
    hide OnePersister, DoEnqueue, AddPass, Quiet, Enqueues, IsFull, SignalReaches, JobStep;
    if IsFull(s.pool) {
      StaysQuiet(s);
    } else {
      var u := DoEnqueue(s, c, priority, x.now).(clock := x.now);
      EnqueueStep(s, c, priority, x.now);
      EnqueueGoal(s, c, priority, x.now);
      var goal := u.clients[c].goal;
      var t := AddPass(u, c, goal.jobs, goal.threads, x);
      CreateMoves(u, c, goal, x);
      CreateIsQuiet(u, c, goal, x);
      PassStep(u, t, c, goal);
      EnqueuesThenQuiet(s, u, t, Job(|s.history.accepted|, s.pool.lastJobId, priority, x.now));
    }
  }

  lemma StaysQuiet(s: System)
    requires IsTime(s.clock)
    ensures JobStep(s, s)
  {
  }

  lemma EnqueueGoal(s: System, c: nat, priority: Priority, now: Time)
    requires c < |s.clients|
    ensures var u := DoEnqueue(s, c, priority, now);
      |u.clients| == |s.clients| && u.clients[c].Creating? && u.clients[c].goal.Add?
  {
  }

  lemma EnqueuesThenQuiet(s: System, u: System, t: System, job: Job)
    requires Enqueues(s, u, job) && Quiet(u, t) && t.clock == u.clock
    requires IsTime(t.clock) && NotAfter(s.clock, t.clock)
    ensures JobStep(s, t)
  {
    assert Enqueues(s, t, job);
  }

  lemma LaterStep(s: System, u: System, t: System)
    requires u == s.(clock := u.clock) && NotAfter(s.clock, u.clock) && t.clock == u.clock && JobStep(u, t)
    ensures JobStep(s, t)
  {
    hide LineTaken, Enqueue, Remove, Drain;
    if Quiet(u, t) {
      assert Quiet(s, t);
    } else if outcome :| Checks(u, t, outcome) {
      assert Checks(s, t, outcome);
    } else if job :| Enqueues(u, t, job) {
      assert Enqueues(s, t, job);
    } else if job :| Fills(u, t, job) {
      assert Fills(s, t, job);
    } else if jobId :| Withdraws(u, t, jobId) {
      assert Withdraws(s, t, jobId);
    } else {
      assert Clears(s, t);
    }
  }

  lemma QuietStep(s: System, e: Event)
    requires OnePersister(s) && IsTime(s.clock) && Enabled(s, e)
    requires e.StartWorker? || e.TimeOut? || e.WakeWorker? || e.WakeClient?
    ensures JobStep(s, Apply(s, e)) && OnePersister(Apply(s, e))
  {
    hide OnePersister;
    var t := Apply(s, e);
    assert Quiet(s, t);
    if e.WakeClient? {
      ClientKeepsOwner(s, t, e.c);
    } else {
      OthersKeepOwner(s, t);
    }
  }

  lemma BeginInitStep(s: System, c: nat, x: Choice)
    requires OnePersister(s) && IsTime(s.clock) && Enabled(s, BeginInit(c, x)) && s.clients[c] == Outside
    ensures var t := Apply(s, BeginInit(c, x)); JobStep(s, t) && OnePersister(t)
  {
    hide OnePersister, Quiet, JobStep, Moves, InitPass;
    var u := s.(phase := Starting);
    PhaseFree(s, u);
    CreateMoves(u, c, Init(0), x);
    CreateIsQuiet(u, c, Init(0), x);
    PassStep(u, InitPass(u, c, 0, x), c, Init(0));
    PhaseStep(s, u, InitPass(u, c, 0, x));
  }

  lemma PhaseFree(s: System, u: System)
    requires u == s.(phase := u.phase)
    ensures OnePersister(u) == OnePersister(s)
  {
  }

  lemma PhaseStep(s: System, u: System, t: System)
    requires u == s.(phase := u.phase) && JobStep(u, t) && Quiet(u, t)
    ensures JobStep(s, t)
  {
    assert Quiet(s, t);
  }

  lemma BeginPersistentStep(s: System, c: nat, priority: Priority, x: Choice)
    requires OnePersister(s) && IsTime(s.clock) && Enabled(s, BeginPersistent(c, priority, x))
    ensures var t := Apply(s, BeginPersistent(c, priority, x)); JobStep(s, t) && OnePersister(t)
  {
    hide OnePersister, DoCreate, FinishPersist, JobStep, SignalReaches;
    NobodyOwnsSlot(s);
    var u := s.(clock := x.now);
    ClockFree(s, x.now);
    if s.pool.totalThreads < s.pool.attr.maxThreads {
      DoCreateStep(u, c, Persist(priority), x);
      StepClock(u, c, Persist(priority), x);
      LaterStep(s, u, DoCreate(u, c, Persist(priority), x));
    } else if RefusesPersistent(s.pool) {
      StaysQuiet(s);
    } else {
      FinishPersistStep(u, c, priority, x);
      StepClock(u, c, Persist(priority), x);
      LaterStep(s, u, FinishPersist(u, c, priority, x));
    }
  }

  lemma NobodyOwnsSlot(s: System)
    requires OnePersister(s) && forall k <- s.clients :: !IsPersister(k)
    ensures s.pool.persistentJob.None?
  {
  }

  lemma StepClock(s: System, c: nat, goal: Goal, x: Choice)
    requires c < |s.clients|
    ensures DoCreate(s, c, goal, x).clock == s.clock
    ensures goal.Persist? ==> FinishPersist(s, c, goal.priority, x).clock == s.clock
    ensures DoResume(s, c, x).clock == s.clock
  {
    hide Signal;
  }

  lemma RemoveStep(s: System, jobId: int)
    requires OnePersister(s) && IsTime(s.clock)
    ensures JobStep(s, DoRemove(s, jobId)) && OnePersister(DoRemove(s, jobId))
  {
    hide OnePersister, IndexOf, Without;
    var t := DoRemove(s, jobId);
    if Remove(s.pool, jobId).job.None? {
      StaysQuiet(s);
    } else {
      assert Withdraws(s, t, jobId);
    }
    OthersKeepOwner(s, t);
  }

  lemma ShutdownStep(s: System, c: nat)
    requires OnePersister(s) && IsTime(s.clock) && c < |s.clients| && s.clients[c] in {Outside, InitFailed}
    ensures JobStep(s, DoShutdown(s, c)) && OnePersister(DoShutdown(s, c))
  {
    hide OnePersister, WakeWorkers, Line, Slot;
    var t := DoShutdown(s, c);
    assert Clears(s, t);
    ClientKeepsOwner(s, t, c);
  }

  /** Every event is a step of the jobs. */
  lemma EventStep(s: System, e: Event)
    requires OnePersister(s) && IsTime(s.clock) && Enabled(s, e) && T.InPhase(s)
    ensures JobStep(s, Apply(s, e)) && OnePersister(Apply(s, e))
  {
    hide OnePersister, JobStep, DoResume, DoRemove, DoShutdown, DoCheck, DoEnter, InitPass, AddPass, DoCreate,
         DoEnqueue;
    match e
    case Pass(_, _) => WorkerStep(s, e);
    case Recheck(_, _) => WorkerStep(s, e);
    case BeginInit(c, x) => BeginInitStep(s, c, x);
    case BeginAdd(c, priority, x) => BeginAddStep(s, c, priority, x);
    case BeginPersistent(c, priority, x) => BeginPersistentStep(s, c, priority, x);
    case Resume(c, x) =>
      var u := s.(clock := x.now);
      ClockFree(s, x.now);
      ResumeStep(u, c, x);
      StepClock(u, c, Init(0), x);
      LaterStep(s, u, DoResume(u, c, x));
    case RemoveJob(jobId) => RemoveStep(s, jobId);
    case Shutdown(c) => ShutdownStep(s, c);
    case _ => QuietStep(s, e);
  }

  // ---- What every run keeps ----

  function WaitBag(p: Pool): multiset<Job> {
    multiset(Line(p)) + multiset(Slot(p))
  }

  function DoneBag(h: History): multiset<Job> {
    multiset(h.started) + multiset(h.persistentStarted) + multiset(h.removed) + multiset(h.dropped)
  }

  /** Each accepted job waits, or was started, removed or dropped, exactly once. */
  predicate Conserved(s: System) {
    && WaitBag(s.pool) + DoneBag(s.history) == multiset(s.history.accepted)
    && forall k :: 0 <= k < |s.history.accepted| ==> s.history.accepted[k].serial == k
  }

  predicate Bounded(s: System) {
    |Line(s.pool)| <= T.MaxOf(0, s.pool.attr.maxJobsTotal)
  }

  /** The low queue is in the order of the request times, which are all in the past. */
  predicate Timely(s: System) {
    && IsTime(s.clock) && IsSorted(s.pool.low)
    && IsPast(s.pool.low, s.clock)
  }

  predicate Inv(s: System) {
    && OnePersister(s) && Conserved(s) && Bounded(s) && Timely(s)
    && IsOrdered(RowOf(s), |s.history.accepted|)
  }

  lemma TakenBag(p: Pool, q: Pool, outcome: Outcome)
    requires LineTaken(p, q, outcome)
    ensures WaitBag(p) == WaitBag(q) + (if outcome.Run? then multiset{outcome.job} else multiset{})
    ensures |Line(q)| <= |Line(p)|
  {
  }

  lemma LineBag(p: Pool)
    ensures multiset(Line(p)) == multiset(p.high) + multiset(p.med) + multiset(p.low)
    ensures |Line(p)| == |p.high| + |p.med| + |p.low|
  {
  }

  lemma Shift(a: multiset<Job>, b: multiset<Job>, c: multiset<Job>, d: multiset<Job>, x: multiset<Job>)
    ensures (a + x) + b + c + d == a + b + c + d + x
    ensures a + (b + x) + c + d == a + b + c + d + x
    ensures a + b + (c + x) + d == a + b + c + d + x
    ensures a + b + c + (d + x) == a + b + c + d + x
  {
  }

  /** `q` has one job more than `p`, in one of the places where jobs wait. */
  lemma OneMore(p: Pool, q: Pool, job: Job, place: nat)
    requires if place == 0 then multiset(q.high) == multiset(p.high) + multiset{job} else q.high == p.high
    requires if place == 1 then multiset(q.med) == multiset(p.med) + multiset{job} else q.med == p.med
    requires if place == 2 then multiset(q.low) == multiset(p.low) + multiset{job} else q.low == p.low
    requires place <= 3
    requires if place == 3 then multiset(Slot(q)) == multiset(Slot(p)) + multiset{job}
             else q.persistentJob == p.persistentJob
    ensures WaitBag(q) == WaitBag(p) + multiset{job}
  {
    hide Line;
    LineBag(p);
    LineBag(q);
    assert place != 3 ==> Slot(q) == Slot(p);
    Shift(multiset(p.high), multiset(p.med), multiset(p.low), multiset(Slot(p)), multiset{job});
  }

  lemma RemovedBag(p: Pool, jobId: int)
    ensures var r := Remove(p, jobId);
      && WaitBag(p) == WaitBag(r.pool) + (if r.job.Some? then multiset{r.job.value} else multiset{})
      && |Line(r.pool)| <= |Line(p)| && r.pool.attr == p.attr
  {
    hide IndexOf, Line, Without, WaitBag;
    IndexOfFirst(p.high, jobId);
    IndexOfFirst(p.med, jobId);
    IndexOfFirst(p.low, jobId);
    var r := Remove(p, jobId);
    LineLength(p);
    LineLength(r.pool);
    var h, m, l := IndexOf(p.high, jobId), IndexOf(p.med, jobId), IndexOf(p.low, jobId);
    if h < |p.high| {
      WithoutBag(p.high, h);
      OneMore(r.pool, p, p.high[h], 0);
    } else if m < |p.med| {
      WithoutBag(p.med, m);
      OneMore(r.pool, p, p.med[m], 1);
    } else if l < |p.low| {
      WithoutBag(p.low, l);
      OneMore(r.pool, p, p.low[l], 2);
    } else if r.job.Some? {
      OneMore(r.pool, p, r.job.value, 3);
    }
  }

  lemma WithoutBag(q: seq<Job>, i: nat)
    requires i < |q|
    ensures multiset(q) == multiset(Without(q, i)) + multiset{q[i]}
    ensures |Without(q, i)| == |q| - 1
  {
    assert q == q[..i] + [q[i]] + q[i + 1..];
  }

  lemma EnqueueBag(p: Pool, job: Job)
    ensures var q := Enqueue(p, job);
      WaitBag(q) == WaitBag(p) + multiset{job} && |Line(q)| == |Line(p)| + 1 && |Line(p)| == TotalJobs(p)
  {
    hide Line, WaitBag;
    LineLength(p);
    LineLength(Enqueue(p, job));
    OneMore(p, Enqueue(p, job), job, if job.priority == HIGH then 0 else if job.priority == MED then 1 else 2);
  }

  // ---- The row under each step ----

  lemma ChecksRow(s: System, t: System, outcome: Outcome)
    requires Checks(s, t, outcome)
    ensures Advances(RowOf(s), RowOf(t))
  {
    if outcome.Run? && !outcome.persistent {
      assert s.history.started + Line(s.pool) == s.history.started + [outcome.job] + Line(t.pool);
    }
  }

  lemma EnqueuesRow(s: System, t: System, job: Job)
    requires Enqueues(s, t, job)
    ensures Inserts(RowOf(s), RowOf(t), job)
  {
    hide Line;
    var past, p, k := s.history.started, s.pool, PlaceInLine(s.pool, job.priority);
    LineLength(p);
    EnqueueLine(p, job);
    LineOf(Enqueue(p, job), t.pool);
    InsertBehind(past, Line(p), k, job);
  }

  function PlaceInLine(p: Pool, priority: Priority): nat {
    match priority
    case HIGH => |p.high|
    case MED => |p.high| + |p.med|
    case LOW => |p.high| + |p.med| + |p.low|
  }

  lemma EnqueueLine(p: Pool, job: Job)
    ensures var k := PlaceInLine(p, job.priority);
      k <= |Line(p)| && Line(Enqueue(p, job)) == Line(p)[..k] + [job] + Line(p)[k..]
  {
    hide Line;
    match job.priority
    case HIGH => EnqueueHigh(p, job);
    case MED => EnqueueMedium(p, job);
    case LOW => EnqueueLow(p, job);
  }

  lemma EnqueueHigh(p: Pool, job: Job)
    ensures var k := |p.high|;
      k <= |Line(p)| && Line(p.(high := p.high + [job])) == Line(p)[..k] + [job] + Line(p)[k..]
  {
    CutAt(p.high, p.med + p.low);
    assert Line(p) == p.high + (p.med + p.low);
    assert Line(p.(high := p.high + [job])) == p.high + [job] + (p.med + p.low);
  }

  lemma EnqueueMedium(p: Pool, job: Job)
    ensures var k := |p.high| + |p.med|;
      k <= |Line(p)| && Line(p.(med := p.med + [job])) == Line(p)[..k] + [job] + Line(p)[k..]
  {
    CutAt(p.high + p.med, p.low);
    assert Line(p.(med := p.med + [job])) == p.high + p.med + [job] + p.low;
  }

  lemma EnqueueLow(p: Pool, job: Job)
    ensures var k := |p.high| + |p.med| + |p.low|;
      k <= |Line(p)| && Line(p.(low := p.low + [job])) == Line(p)[..k] + [job] + Line(p)[k..]
  {
    assert Line(p)[|Line(p)|..] == [];
    assert Line(p.(low := p.low + [job])) == Line(p) + [job] + [];
  }

  lemma CutAt(a: seq<Job>, b: seq<Job>)
    ensures (a + b)[..|a|] == a && (a + b)[|a|..] == b
  {
  }

  lemma InsertBehind(past: seq<Job>, line: seq<Job>, k: nat, job: Job)
    requires k <= |line|
    ensures (past + line)[..|past| + k] + [job] + (past + line)[|past| + k..]
         == past + (line[..k] + [job] + line[k..])
  {
    assert (past + line)[..|past| + k] == past + line[..k];
    assert (past + line)[|past| + k..] == line[k..];
  }

  lemma WithdrawsRow(s: System, t: System, jobId: int)
    requires Withdraws(s, t, jobId)
    ensures Advances(RowOf(s), RowOf(t)) || exists k: nat :: Deletes(RowOf(s), RowOf(t), k)
  {
    hide Line, IndexOf, Without, RowOf, Advances, Deletes;
    var p := s.pool;
    IndexOfFirst(p.high, jobId);
    IndexOfFirst(p.med, jobId);
    IndexOfFirst(p.low, jobId);
    LineLength(p);
    var h, m, l := IndexOf(p.high, jobId), IndexOf(p.med, jobId), IndexOf(p.low, jobId);
    if h < |p.high| {
      WithoutBag(p.high, h);
      WithoutLine(p, t.pool, h);
      WithoutRow(s, t, h);
    } else if m < |p.med| {
      WithoutBag(p.med, m);
      WithoutLine(p, t.pool, |p.high| + m);
      WithoutRow(s, t, |p.high| + m);
    } else if l < |p.low| {
      WithoutLine(p, t.pool, |p.high| + |p.med| + l);
      WithoutRow(s, t, |p.high| + |p.med| + l);
    } else {
      SameRow(s, t);
    }
  }

  lemma WithoutRow(s: System, t: System, k: nat)
    requires t.history.started == s.history.started && k < |Line(s.pool)| && Line(t.pool) == Without(Line(s.pool), k)
    requires |t.pool.high| == |s.pool.high| - (if k < |s.pool.high| then 1 else 0)
    requires |t.pool.high| + |t.pool.med|
          == |s.pool.high| + |s.pool.med| - (if k < |s.pool.high| + |s.pool.med| then 1 else 0)
    ensures exists i: nat :: Deletes(RowOf(s), RowOf(t), i)
  {
    hide Line;
    LineLength(s.pool);
    WithoutBehind(s.history.started, Line(s.pool), k);
    assert Deletes(RowOf(s), RowOf(t), |s.history.started| + k);
  }

  lemma WithoutLine(p: Pool, q: Pool, k: nat)
    requires k < |p.high| + |p.med| + |p.low|
    requires if k < |p.high| then q.high == Without(p.high, k) && q.med == p.med && q.low == p.low
             else if k < |p.high| + |p.med| then
               q.high == p.high && q.med == Without(p.med, k - |p.high|) && q.low == p.low
             else q.high == p.high && q.med == p.med && q.low == Without(p.low, k - |p.high| - |p.med|)
    ensures k < |Line(p)| && Line(q) == Without(Line(p), k)
  {
  }

  lemma WithoutBehind(past: seq<Job>, line: seq<Job>, k: nat)
    requires k < |line|
    ensures Without(past + line, |past| + k) == past + Without(line, k)
  {
  }

  lemma ClearsRow(s: System, t: System)
    requires Clears(s, t)
    ensures Drops(RowOf(s), RowOf(t))
  {
  }

  lemma SameRow(s: System, t: System)
    requires SameQueues(s.pool, t.pool) && t.history.started == s.history.started
    ensures RowOf(t) == RowOf(s) && Advances(RowOf(s), RowOf(t))
  {
  }

  // ---- The invariant under each step ----

  /** How the row moves, and how many jobs are accepted. */
  lemma StepMovesRow(s: System, t: System)
    requires JobStep(s, t)
    ensures var r, r', n, n' := RowOf(s), RowOf(t), |s.history.accepted|, |t.history.accepted|;
      && RowStep(r, r', n) && n <= n' <= n + 1
      && ((exists job: Job :: Inserts(r, r', job)) ==> n' == n + 1)
  {
    hide Checks, Enqueues, Withdraws, Clears, Fills, Quiet, RowOf, Inserts, Deletes, Drops, Advances;
    InsertsOrNot(RowOf(s), RowOf(t));
    if Quiet(s, t) {
      QuietRow(s, t);
    } else if outcome :| Checks(s, t, outcome) {
      ChecksRow(s, t, outcome);
      ChecksAccepts(s, t, outcome);
    } else if job :| Enqueues(s, t, job) {
      EnqueuesRow(s, t, job);
      EnqueuesAccepts(s, t, job);
    } else if job :| Fills(s, t, job) {
      FillsRow(s, t, job);
    } else if jobId :| Withdraws(s, t, jobId) {
      WithdrawsRow(s, t, jobId);
      WithdrawsAccepts(s, t, jobId);
    } else {
      ClearsRow(s, t);
      ClearsAccepts(s, t);
    }
  }

  /** An insertion makes the row longer, and nothing else does. */
  lemma InsertsOrNot(r: Row, r': Row)
    ensures (exists job: Job :: Inserts(r, r', job)) ==> |r'.all| == |r.all| + 1
    ensures Advances(r, r') || Drops(r, r') || (exists k: nat :: Deletes(r, r', k)) ==> |r'.all| <= |r.all|
  {
  }

  lemma QuietRow(s: System, t: System)
    requires Quiet(s, t)
    ensures Advances(RowOf(s), RowOf(t)) && t.history == s.history
  {
    SameRow(s, t);
  }

  lemma FillsRow(s: System, t: System, job: Job)
    requires Fills(s, t, job)
    ensures Advances(RowOf(s), RowOf(t)) && |t.history.accepted| == |s.history.accepted| + 1
  {
    SameRow(s, t);
  }

  lemma ChecksAccepts(s: System, t: System, outcome: Outcome)
    requires Checks(s, t, outcome)
    ensures t.history.accepted == s.history.accepted
  {
  }

  lemma EnqueuesAccepts(s: System, t: System, job: Job)
    requires Enqueues(s, t, job)
    ensures |t.history.accepted| == |s.history.accepted| + 1 && job.serial == |s.history.accepted|
  {
  }

  lemma WithdrawsAccepts(s: System, t: System, jobId: int)
    requires Withdraws(s, t, jobId)
    ensures t.history.accepted == s.history.accepted
  {
  }

  lemma ClearsAccepts(s: System, t: System)
    requires Clears(s, t)
    ensures t.history.accepted == s.history.accepted
  {
  }

  lemma StepKeepsRow(s: System, t: System)
    requires JobStep(s, t) && IsOrdered(RowOf(s), |s.history.accepted|)
    ensures IsOrdered(RowOf(t), |t.history.accepted|)
  {
    hide JobStep, RowStep, RowOf;
    StepMovesRow(s, t);
    StepKeepsOrder(RowOf(s), RowOf(t), |s.history.accepted|);
  }

  /** How the bags of waiting and of finished jobs change */
  lemma StepConserves(s: System, t: System)
    requires JobStep(s, t) && Conserved(s)
    ensures Conserved(t)
  {
    hide Checks, Enqueues, Withdraws, Clears, Fills, Quiet, Conserved;
    if Quiet(s, t) {
      QuietConserves(s, t);
    } else if outcome :| Checks(s, t, outcome) {
      ChecksConserves(s, t, outcome);
    } else if job :| Enqueues(s, t, job) {
      EnqueuesConserves(s, t, job);
    } else if job :| Fills(s, t, job) {
      FillsConserves(s, t, job);
    } else if jobId :| Withdraws(s, t, jobId) {
      WithdrawsConserves(s, t, jobId);
    } else {
      ClearsConserves(s, t);
    }
  }

  lemma QuietConserves(s: System, t: System)
    requires Quiet(s, t) && Conserved(s)
    ensures Conserved(t)
  {
    LineOf(s.pool, t.pool);
  }

  lemma ChecksConserves(s: System, t: System, outcome: Outcome)
    requires Checks(s, t, outcome) && Conserved(s)
    ensures Conserved(t)
  {
    hide WaitBag, LineTaken;
    TakenBag(s.pool, t.pool, outcome);
    if outcome.Run? {
      DoneMore(s.history, outcome.job);
    }
  }

  /** A job that is put into one of the lists of finished jobs */
  lemma DoneMore(h: History, job: Job)
    ensures DoneBag(h.(started := h.started + [job])) == DoneBag(h) + multiset{job}
    ensures DoneBag(h.(persistentStarted := h.persistentStarted + [job])) == DoneBag(h) + multiset{job}
    ensures DoneBag(h.(removed := h.removed + [job])) == DoneBag(h) + multiset{job}
  {
    Shift(multiset(h.started), multiset(h.persistentStarted), multiset(h.removed), multiset(h.dropped), multiset{job});
  }

  lemma EnqueuesConserves(s: System, t: System, job: Job)
    requires Enqueues(s, t, job) && Conserved(s)
    ensures Conserved(t)
  {
    hide WaitBag;
    EnqueueBag(s.pool, job);
    SameBag(Enqueue(s.pool, job), t.pool);
  }

  lemma SameBag(p: Pool, q: Pool)
    requires SameQueues(p, q) && q.persistentJob == p.persistentJob
    ensures WaitBag(q) == WaitBag(p)
  {
    LineOf(p, q);
  }

  lemma FillsConserves(s: System, t: System, job: Job)
    requires Fills(s, t, job) && Conserved(s)
    ensures Conserved(t)
  {
    hide WaitBag;
    OneMore(s.pool, t.pool, job, 3);
  }

  lemma WithdrawsConserves(s: System, t: System, jobId: int)
    requires Withdraws(s, t, jobId) && Conserved(s)
    ensures Conserved(t)
  {
    hide WaitBag, Remove;
    RemovedBag(s.pool, jobId);
    DoneMore(s.history, Remove(s.pool, jobId).job.value);
  }

  lemma ClearsConserves(s: System, t: System)
    requires Clears(s, t) && Conserved(s)
    ensures Conserved(t)
  {
    var h, line, slot := s.history, Line(s.pool), Slot(s.pool);
    assert multiset(h.dropped + line + slot) == multiset(h.dropped) + (multiset(line) + multiset(slot));
    Shift(multiset(h.started), multiset(h.persistentStarted), multiset(h.removed), multiset(h.dropped),
          multiset(line) + multiset(slot));
  }

  lemma StepKeepsBound(s: System, t: System)
    requires JobStep(s, t) && Bounded(s)
    ensures Bounded(t)
  {
    hide Line, WaitBag, Remove;
    if Quiet(s, t) {
      LineOf(s.pool, t.pool);
    } else if outcome :| Checks(s, t, outcome) {
      TakenBag(s.pool, t.pool, outcome);
    } else if job :| Enqueues(s, t, job) {
      EnqueueBag(s.pool, job);
      LineOf(Enqueue(s.pool, job), t.pool);
    } else if job :| Fills(s, t, job) {
      LineOf(s.pool, t.pool);
    } else if jobId :| Withdraws(s, t, jobId) {
      RemovedBag(s.pool, jobId);
    } else {
      LineLength(t.pool);
    }
  }

  lemma StepKeepsTimes(s: System, t: System)
    requires JobStep(s, t) && Timely(s)
    ensures Timely(t)
  {
    hide Line, Remove, IsFull, IsSorted;
    if jobId :| Withdraws(s, t, jobId) {
      RemoveKeepsTimes(s.pool, jobId, s.clock);
    } else if job :| Enqueues(s, t, job) {
      EnqueueKeepsTimes(s.pool, job, s.clock);
    } else if outcome :| Checks(s, t, outcome) {
      SuffixKeepsTimes(s.pool.low, t.pool.low);
    } else if Clears(s, t) {
      SuffixKeepsTimes(s.pool.low, []);
    }
  }

  predicate IsPast(q: seq<Job>, clock: Time) {
    forall i :: 0 <= i < |q| ==> NotAfter(q[i].requestTime, clock)
  }

  lemma SuffixKeepsTimes(a: seq<Job>, b: seq<Job>)
    requires IsSorted(a) && IsSuffix(b, a)
    ensures IsSorted(b)
  {
  }

  lemma EnqueueKeepsTimes(p: Pool, job: Job, clock: Time)
    requires IsSorted(p.low) && IsPast(p.low, clock) && NotAfter(clock, job.requestTime) && IsTime(job.requestTime)
    ensures IsSorted(Enqueue(p, job).low)
  {
  }

  lemma RemoveKeepsTimes(p: Pool, jobId: int, clock: Time)
    requires IsSorted(p.low) && IsPast(p.low, clock)
    ensures var low := Remove(p, jobId).pool.low; IsSorted(low) && IsPast(low, clock)
  {
    hide IndexOf;
    IndexOfFirst(p.low, jobId);
  }

  /** Every event keeps what is said here about threads and jobs. */
  lemma EventKeeps(s: System, e: Event)
    requires Inv(s) && T.Inv(s) && Enabled(s, e)
    ensures Inv(Apply(s, e)) && T.Inv(Apply(s, e))
  {
    hide JobStep, OnePersister, Conserved, Bounded, IsOrdered, RowOf, T.Counted, T.Limited, T.NoLostWakeup,
         T.SoundSleep;
    var t := Apply(s, e);
    T.EventKeeps(s, e);
    EventStep(s, e);
    StepConserves(s, t);
    StepKeepsBound(s, t);
    StepKeepsTimes(s, t);
    StepKeepsRow(s, t);
  }

  lemma InitialHolds(attr: Attr, clients: nat, clock: Time)
    requires IsTime(clock)
    ensures Inv(InitialSystem(attr, clients, clock)) && T.Inv(InitialSystem(attr, clients, clock))
  {
    hide T.Inv, Line, WaitBag, DoneBag;
    T.InitialHolds(attr, clients, clock);
    EmptyPoolJobs(attr);
  }

  lemma EmptyPoolJobs(attr: Attr)
    ensures Line(EmptyPool(attr)) == []
    ensures WaitBag(EmptyPool(attr)) + DoneBag(History([], [], [], [], [])) == multiset([])
  {
  }

  lemma {:induction false} RunKeeps(s: System, es: seq<Event>)
    requires Inv(s) && T.Inv(s) && After(s, es).Some?
    ensures Inv(After(s, es).value) && T.Inv(After(s, es).value)
  {
    hide Inv, T.Inv, Apply, Enabled;
    if es != [] {
      var front := es[..|es| - 1];
      RunKeeps(s, front);
      EventKeeps(After(s, front).value, es[|es| - 1]);
    }
  }

  // ---- Main results ----

  lemma ReachableHolds(s: System, attr: Attr)
    requires T.Reachable(s, attr)
    ensures Inv(s) && T.Inv(s) && s.pool.attr == attr
  {
    hide Inv, T.Inv;
    T.ReachableHolds(s, attr);
    var clients: nat, clock: Time, es :|
      IsTime(clock) && After(InitialSystem(attr, clients, clock), es) == Some(s);
    InitialHolds(attr, clients, clock);
    RunKeeps(InitialSystem(attr, clients, clock), es);
  }

  /** Jobs of the same requested priority start in the order in which they were accepted, however they age. */
  lemma StartsInOrder(s: System, attr: Attr)
    requires T.Reachable(s, attr)
    ensures var started := s.history.started;
      forall i, j :: 0 <= i < j < |started| && started[i].priority == started[j].priority ==>
        started[i].serial < started[j].serial
  {
    hide OnePersister, Conserved, Bounded, Timely, T.Inv;
    ReachableHolds(s, attr);
    var started, all := s.history.started, RowOf(s).all;
    forall i, j | 0 <= i < j < |started| && started[i].priority == started[j].priority
      ensures started[i].serial < started[j].serial
    {
      assert all[i] == started[i] && all[j] == started[j];
    }
  }

  /** What became of an accepted job is one of these: it is in a queue, it is in the slot for persistent jobs,
      it was started, or it was removed or dropped; and only one of them, once. */
  lemma EachJobOnce(s: System, attr: Attr, k: nat)
    requires T.Reachable(s, attr) && k < |s.history.accepted|
    ensures var job, h := s.history.accepted[k], s.history;
      multiset(Line(s.pool))[job] + multiset(Slot(s.pool))[job] + multiset(h.started)[job]
      + multiset(h.persistentStarted)[job] + multiset(h.removed)[job] + multiset(h.dropped)[job] == 1
  {
    hide OnePersister, Bounded, Timely, IsOrdered, T.Inv;
    ReachableHolds(s, attr);
    CountsOnce(s.history.accepted, k);
    assert (WaitBag(s.pool) + DoneBag(s.history))[s.history.accepted[k]] == 1;
  }

  lemma {:induction false} CountsOnce(accepted: seq<Job>, k: nat)
    requires forall i :: 0 <= i < |accepted| ==> accepted[i].serial == i
    requires k < |accepted|
    ensures multiset(accepted)[accepted[k]] == 1
  {
    assert accepted == accepted[..k] + [accepted[k]] + accepted[k + 1..];
    assert accepted[k] !in accepted[..k];
    assert accepted[k] !in accepted[k + 1..];
  }

  /** Nothing waits, is started, removed or dropped that was not accepted. */
  lemma OnlyAcceptedJobs(s: System, attr: Attr, job: Job)
    requires T.Reachable(s, attr)
    requires var h := s.history;
      || job in Line(s.pool) || job in Slot(s.pool) || job in h.started || job in h.persistentStarted
      || job in h.removed || job in h.dropped
    ensures job.serial < |s.history.accepted| && s.history.accepted[job.serial] == job
  {
    hide OnePersister, Bounded, Timely, IsOrdered, T.Inv, Line, Slot, T.Reachable;
    ReachableHolds(s, attr);
    assert job in WaitBag(s.pool) + DoneBag(s.history);
    assert job in multiset(s.history.accepted);
  }

  /** The queues never hold more than `maxJobsTotal` jobs. */
  lemma QueuesAreBounded(s: System, attr: Attr)
    requires T.Reachable(s, attr)
    ensures |Line(s.pool)| <= T.MaxOf(0, attr.maxJobsTotal)
  {
    hide OnePersister, Conserved, Timely, IsOrdered, Line, T.Inv;
    ReachableHolds(s, attr);
  }

  /** Whenever a worker looks for a job, no job that stays in the low queue has waited for `maxIdleTime` and the
      next medium job has not waited for `starvationTime`. */
  lemma BumpIsEnough(s: System, attr: Attr, now: Time)
    requires T.Reachable(s, attr) && IsLater(s, now)
    ensures var q := Bump(s.pool, now);
      && (forall i :: 0 <= i < |q.low| ==> DiffMillis(now, q.low[i].requestTime) < attr.maxIdleTime)
      && (q.med != [] ==> DiffMillis(now, q.med[0].requestTime) < attr.starvationTime)
  {
    hide OnePersister, Conserved, Bounded, IsOrdered, T.Inv, Bump, DiffMillis;
    ReachableHolds(s, attr);
    BumpLeavesFresh(s.pool, now);
  }

  /** A job that was accepted before number `since`, that is not persistent, and that everything accepted
      later stands behind */
  ghost predicate IsAhead(s: System, job: Job, since: nat) {
    && job.serial < since <= |s.history.accepted| && job in s.history.accepted
    && s.pool.persistentJob != Some(job) && job !in s.history.persistentStarted
    && StandsBefore(RowOf(s), job, since)
  }

  lemma HighIsAhead(s: System, job: Job)
    requires Inv(s) && job in s.pool.high
    ensures IsAhead(s, job, |s.history.accepted|)
  {
    hide OnePersister, Bounded, Timely;
    var i :| 0 <= i < |s.pool.high| && s.pool.high[i] == job;
    var r := RowOf(s);
    var n := |s.history.started|;
    assert r.all[n + i] == job;
    assert job in WaitBag(s.pool);
    assert job in multiset(s.history.accepted);
    CountsOnce(s.history.accepted, job.serial);
    assert (WaitBag(s.pool) + DoneBag(s.history))[job] == 1;
    AllOnce(r, job, n + i, |s.history.accepted|);
  }

  /** Serial numbers are different in the row. */
  lemma AllOnce(r: Row, job: Job, k: nat, next: nat)
    requires IsOrdered(r, next) && k < r.h && r.all[k] == job
    ensures StandsBefore(r, job, next)
  {
    forall i | 0 <= i < |r.all| && r.all[i] == job
      ensures i == k
    {
    }
  }

  lemma StepKeepsAhead(s: System, t: System, job: Job, since: nat)
    requires Inv(s) && JobStep(s, t) && IsAhead(s, job, since)
    ensures IsAhead(t, job, since)
  {
    hide RowOf, RowStep, StandsBefore, IsOrdered, OnePersister, Conserved, Bounded, Timely, JobStep;
    StepMovesRow(s, t);
    StepKeepsPlace(RowOf(s), RowOf(t), |s.history.accepted|, job, since);
    StepKeepsKind(s, t, job);
  }

  lemma StepKeepsKind(s: System, t: System, job: Job)
    requires JobStep(s, t) && job in s.history.accepted && job.serial < |s.history.accepted|
    requires s.pool.persistentJob != Some(job) && job !in s.history.persistentStarted
    ensures t.pool.persistentJob != Some(job) && job !in t.history.persistentStarted
    ensures job in t.history.accepted && |s.history.accepted| <= |t.history.accepted|
  {
    hide Line, IndexOf;
  }

  lemma {:induction false} RunKeepsAhead(s: System, es: seq<Event>, job: Job, since: nat)
    requires Inv(s) && T.Inv(s) && After(s, es).Some? && IsAhead(s, job, since)
    ensures IsAhead(After(s, es).value, job, since)
  {
    hide Inv, T.Inv, Apply, Enabled, IsAhead;
    if es != [] {
      var front := es[..|es| - 1];
      RunKeepsAhead(s, front, job, since);
      RunKeeps(s, front);
      EventKeepsAhead(After(s, front).value, es[|es| - 1], job, since);
    }
  }

  lemma EventKeepsAhead(s: System, e: Event, job: Job, since: nat)
    requires Inv(s) && T.Inv(s) && Enabled(s, e) && IsAhead(s, job, since)
    ensures IsAhead(Apply(s, e), job, since)
  {
    hide OnePersister, Conserved, Bounded, IsOrdered, RowOf, T.Counted, T.Limited, T.NoLostWakeup, T.SoundSleep,
         JobStep, IsAhead;
    EventStep(s, e);
    StepKeepsAhead(s, Apply(s, e), job, since);
  }

  lemma AheadStartsFirst(t: System, job: Job, since: nat, j: nat)
    requires Inv(t) && IsAhead(t, job, since)
    requires j < |t.history.started| && t.history.started[j].serial >= since
    ensures job in t.history.removed || job in t.history.dropped
      || exists i :: 0 <= i < j && t.history.started[i] == job
  {
    hide OnePersister, Bounded, Timely, IsOrdered;
    assert job in multiset(t.history.accepted);
    assert job in WaitBag(t.pool) + DoneBag(t.history);
    var all := RowOf(t).all;
    if job in Line(t.pool) || job in t.history.started {
      assert job in all;
      var i :| 0 <= i < |all| && all[i] == job;
      assert all[j] == t.history.started[j];
    }
  }

  /** A job that has reached the high queue is not overtaken by any job accepted later: if such a job has been
      started, then so has the other one, before it, unless it was removed or dropped. */
  lemma HighIsNotOvertaken(s: System, attr: Attr, job: Job, es: seq<Event>, t: System, j: nat)
    requires T.Reachable(s, attr) && job in s.pool.high && After(s, es) == Some(t)
    requires j < |t.history.started| && t.history.started[j].serial >= |s.history.accepted|
    ensures job in t.history.removed || job in t.history.dropped
      || exists i :: 0 <= i < j && t.history.started[i] == job
  {
    hide Inv, T.Inv, IsAhead;
    ReachableHolds(s, attr);
    HighIsAhead(s, job);
    RunKeepsAhead(s, es, job, |s.history.accepted|);
    RunKeeps(s, es);
    AheadStartsFirst(t, job, |s.history.accepted|, j);
  }
}