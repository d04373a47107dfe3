/** The requeue loop of genaNotifyThread comes to an end: with one worker and no new notifications, N jobs in any
    order are all done after at most N(N + 1)/2 dequeues. */
module GenaDrain {
  import opened GenaDevice
  import opened GenaKeys

  /** The outcome of an exchange, and the times at which the worker looks up the subscription */
  datatype Choice = Choice(refused: bool, before: int, after: int)

  /** The worker takes the first job and runs it to its end. */
  function Serve(d: Device, x: Choice): Device
    requires d.queue != []
  {
    var n := d.queue[0];
    var t := Begin(Take(d, 0), n, x.before);
    if n in t.sending then Finish(t, n, x.refused, x.after) else t
  }

  function Drain(d: Device, xs: seq<Choice>): Device
    decreases |xs|
  {
    if xs == [] || d.queue == [] then d else Drain(Serve(d, xs[0]), xs[1..])
  }

  /** Nothing is under way but what is in the queue. */
  predicate IsQuiet(d: Device) {
    Inv(d) && d.holding == multiset{} && d.sending == multiset{}
  }

  /** A job that is not put back: it is its turn, or its subscription is gone. */
  predicate IsDue(subs: seq<Sub>, n: Note) {
    forall k :: 0 <= k < |subs| && subs[k].sid == n.sid ==> n.key == subs[k].toSend
  }

  /** The index of the first job that is due */
  function FirstDue(subs: seq<Sub>, queue: seq<Note>): nat {
    if queue == [] || IsDue(subs, queue[0]) then 0 else 1 + FirstDue(subs, queue[1..])
  }

  lemma {:induction false} FirstDueBound(subs: seq<Sub>, queue: seq<Note>, i: nat)
    requires i < |queue| && IsDue(subs, queue[i])
    ensures FirstDue(subs, queue) <= i
  {
    if i > 0 && !IsDue(subs, queue[0]) {
      FirstDueBound(subs, queue[1..], i - 1);
    }
  }

  lemma {:induction false} FirstDueAppend(subs: seq<Sub>, queue: seq<Note>, n: Note)
    requires FirstDue(subs, queue) < |queue|
    ensures FirstDue(subs, queue + [n]) == FirstDue(subs, queue)
  {
    if !IsDue(subs, queue[0]) {
      assert (queue + [n])[1..] == queue[1..] + [n];
      FirstDueAppend(subs, queue[1..], n);
    }
  }

  /** Some job in the queue is always due: if not the first one, then the one whose key is the next to be sent
      for the same subscription. */
  lemma SomeJobIsDue(d: Device)
    requires IsQuiet(d) && d.queue != []
    ensures FirstDue(d.subs, d.queue) < |d.queue|
  {
    hide LogOk;
    var n := d.queue[0];
    if k :| 0 <= k < |d.subs| && d.subs[k].sid == n.sid {
      assert Out(d) == multiset(d.queue);
      assert SubOk(d.subs[k], d.issued, d.ended, Out(d));
      assert NoteOk(n, d.issued, d.ended);
      assert IsNumbered(d.issued[n.sid], n.sid);
      var m := d.issued[n.sid][d.ended[n.sid]];
      assert Out(d)[m] == 1;
      assert m in d.queue;
      var i :| 0 <= i < |d.queue| && d.queue[i] == m;
      assert IsDue(d.subs, m);
      FirstDueBound(d.subs, d.queue, i);
    } else {
      FirstDueBound(d.subs, d.queue, 0);
    }
  }

  function Triangle(n: nat): nat {
    n * (n + 1) / 2
  }

  lemma TriangleStep(n: nat)
    requires n > 0
    ensures Triangle(n) == Triangle(n - 1) + n
  {
    assert n * (n + 1) == (n - 1) * n + 2 * n;
  }

  /** Half of N(N - 1), and one more than the number of jobs before the first one that is due */
  function Measure(d: Device): nat {
    var n := |d.queue|;
    if n == 0 then 0 else Triangle(n - 1) + FirstDue(d.subs, d.queue) + 1
  }

  lemma MeasureBound(d: Device)
    requires IsQuiet(d)
    ensures Measure(d) <= Triangle(|d.queue|)
  {
    hide IsQuiet, FirstDue, Triangle;
    if d.queue != [] {
      SomeJobIsDue(d);
      TriangleStep(|d.queue|);
    }
  }

  lemma EachServeKeeps(d: Device, x: Choice)
    requires IsQuiet(d) && d.queue != []
    ensures IsQuiet(Serve(d, x))
  {
    hide Inv, Begin, Finish, Take;
    var n := d.queue[0];
    FitsNow(d);
    EventKeeps(d, DoTake(0));
    var t := Take(d, 0);
    AfterTake(d);
    QuietDistinct(d);
    EventKeeps(t, DoBegin(n, x.before));
    var u := Begin(t, n, x.before);
    BeginMoves(t, n, x.before);
    if n in u.sending {
      EventKeeps(u, DoFinish(n, x.refused, x.after));
      FinishMoves(u, n, x.refused, x.after);
    }
  }

  lemma FitsNow(d: Device)
    requires Inv(d)
    ensures |d.queue| <= MAX_JOBS_TOTAL
  {
  }

  lemma AfterTake(d: Device)
    requires d.queue != [] && d.holding == multiset{} && d.sending == multiset{}
    ensures var t := Take(d, 0);
      t == d.(queue := d.queue[1..], holding := multiset{d.queue[0]})
  {
  }

  /** What `genaNotifyThread` does with the only job that a worker holds */
  lemma BeginMoves(d: Device, n: Note, now: int)
    requires d.holding == multiset{n} && d.sending == multiset{} && DistinctSids(d.subs)
    ensures var t := Begin(d, n, now);
      && t.holding == multiset{}
      && t.sending == (if n in t.sending then multiset{n} else multiset{})
      && (t.queue == d.queue
          || (t.queue == d.queue + [n] && t.subs == d.subs && t.sending == multiset{} && !IsDue(d.subs, n)))
  {
    hide GetSub, FindSub;
    GetSubKeeps(d.subs, n.sid, now);
  }

  lemma FinishMoves(d: Device, n: Note, refused: bool, now: int)
    requires d.sending == multiset{n}
    ensures var t := Finish(d, n, refused, now);
      t.queue == d.queue && t.holding == d.holding && t.sending == multiset{}
  {
    hide GetSub, FindSub, RemoveSid;
    FindSubFirst(d.subs, n.sid);
  }

  lemma DoneLowers(d: Device, t: Device)
    requires d.queue != [] && t.queue == d.queue[1..] && IsQuiet(t)
    ensures Measure(t) < Measure(d)
  {
    hide IsQuiet, FirstDue, Triangle;
    if t.queue != [] {
      SomeJobIsDue(t);
      TriangleStep(|t.queue|);
    }
  }

  lemma NearerLowers(d: Device, t: Device)
    requires IsQuiet(d) && d.queue != [] && !IsDue(d.subs, d.queue[0])
    requires t.queue == d.queue[1..] + [d.queue[0]] && t.subs == d.subs
    ensures Measure(t) < Measure(d)
  {
    hide IsQuiet, IsDue, Triangle;
    SomeJobIsDue(d);
    FirstDueAppend(d.subs, d.queue[1..], d.queue[0]);
    assert FirstDue(d.subs, d.queue) == 1 + FirstDue(d.subs, d.queue[1..]);
  }

  /** Each dequeue lowers the measure: the job is done, or the first job that is due comes nearer. */
  lemma ServeAdvances(d: Device, x: Choice)
    requires IsQuiet(d) && d.queue != []
    ensures Measure(Serve(d, x)) < Measure(d)
  {
    hide Inv, Begin, Finish, Take, Measure, IsDue;
    var n := d.queue[0];
    AfterTake(d);
    QuietDistinct(d);
    BeginMoves(Take(d, 0), n, x.before);
    var u, t := Begin(Take(d, 0), n, x.before), Serve(d, x);
    if n in u.sending {
      FinishMoves(u, n, x.refused, x.after);
    }
    EachServeKeeps(d, x);
    if t.queue == d.queue[1..] {
      DoneLowers(d, t);
    } else {
      NearerLowers(d, t);
    }
  }

  lemma QuietDistinct(d: Device)
    requires Inv(d)
    ensures DistinctSids(d.subs)
  {
  }

  lemma {:induction false} DrainEnds(d: Device, xs: seq<Choice>)
    requires IsQuiet(d) && |xs| >= Measure(d)
    ensures IsQuiet(Drain(d, xs)) && Drain(d, xs).queue == []
    decreases |xs|
  {
    hide IsQuiet, Serve;
    if d.queue != [] {
      EachServeKeeps(d, xs[0]);
      ServeAdvances(d, xs[0]);
      DrainEnds(Serve(d, xs[0]), xs[1..]);
    }
  }

  /** With one worker and no new notifications, N jobs are all done after at most N(N + 1)/2 dequeues, in
      whatever order they stand, whatever the answers are; then everything that was issued to a subscription that
      is still on the list has been sent, in order. */
  lemma AllAreSent(d: Device, xs: seq<Choice>)
    requires IsQuiet(d) && |xs| >= |d.queue| * (|d.queue| + 1) / 2
    ensures var t := Drain(d, xs);
      && t.queue == []
      && forall s <- t.subs :: s.sid in t.issued && Of(t.log, s.sid) == InTurn(s.sid, |t.issued[s.sid]|)
  {
    hide IsQuiet, Measure;
    MeasureBound(d);
    DrainEnds(d, xs);
    var t := Drain(d, xs);
    forall s <- t.subs
      ensures s.sid in t.issued && Of(t.log, s.sid) == InTurn(s.sid, |t.issued[s.sid]|)
    {
      NothingLeft(t, s);
    }
  }

  lemma NothingLeft(d: Device, s: Sub)
    requires IsQuiet(d) && d.queue == [] && s in d.subs
    ensures s.sid in d.issued && Of(d.log, s.sid) == InTurn(s.sid, |d.issued[s.sid]|)
  {
    assert Out(d) == multiset{};
    assert SubOk(s, d.issued, d.ended, Out(d));
    var notes, ended := d.issued[s.sid], d.ended[s.sid];
    assert ended < |notes| ==> Out(d)[notes[ended]] == 1;
    assert LogIs(d.sending, d.ended, d.log, s.sid);
    assert InTurn(s.sid, ended) + [] == InTurn(s.sid, ended);
  }
}