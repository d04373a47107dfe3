/** What every run of a device keeps about the buffers that notify jobs share: the counter of a buffer is the
    number of jobs that point at it, and a buffer is freed exactly once, when no job points at it. */
module GenaBuffers {
  import opened Options
  import opened GenaDevice
  import K = GenaKeys

  /** The jobs that point at a buffer */
  function Holders(out: multiset<Note>, b: nat): set<Note> {
    set n <- out | n.buffer == b
  }

  /** `open` is the buffer that a call under way has allocated and may not have given to any job yet. */
  predicate BuffersOk(refs: map<nat, int>, next: nat, freed: seq<nat>, out: multiset<Note>, open: Option<nat>) {
    && (forall b <- refs :: b < next && refs[b] == |Holders(out, b)| && (refs[b] > 0 || open == Some(b)))
    && (forall n <- out :: n.buffer in refs)
    && (forall b <- freed :: b < next)
    && forall b: nat :: b < next ==> multiset(freed)[b] == if b in refs then 0 else 1
  }

  predicate Inv(d: Device) {
    BuffersOk(d.refs, d.nextBuffer, d.freed, Out(d), None)
  }

  lemma OneHolderMore(out: multiset<Note>, n: Note, b: nat)
    requires n !in out
    ensures Holders(out + multiset{n}, b) == Holders(out, b) + (if n.buffer == b then {n} else {})
    ensures |Holders(out + multiset{n}, b)| == |Holders(out, b)| + (if n.buffer == b then 1 else 0)
  {
  }

  lemma OneHolderLess(out: multiset<Note>, n: Note, b: nat)
    requires out[n] == 1
    ensures |Holders(out - multiset{n}, b)| == |Holders(out, b)| - (if n.buffer == b then 1 else 0)
  {
    OneHolderMore(out - multiset{n}, n, b);
    assert out - multiset{n} + multiset{n} == out;
  }

  lemma Allocates(refs: map<nat, int>, next: nat, freed: seq<nat>, out: multiset<Note>)
    requires BuffersOk(refs, next, freed, out, None)
    ensures BuffersOk(refs[next := 0], next + 1, freed, out, Some(next))
  {
    assert next !in freed && next !in refs;
    assert Holders(out, next) == {};
  }

  lemma Issues(refs: map<nat, int>, next: nat, freed: seq<nat>, out: multiset<Note>, open: Option<nat>, n: Note)
    requires BuffersOk(refs, next, freed, out, open) && n.buffer in refs && n !in out
    ensures BuffersOk(refs[n.buffer := refs[n.buffer] + 1], next, freed, out + multiset{n}, open)
  {
    forall b <- refs
      ensures |Holders(out + multiset{n}, b)| == refs[b] + (if n.buffer == b then 1 else 0)
    {
      OneHolderMore(out, n, b);
    }
  }

  /** The caller frees the buffers that it gave to nobody, and keeps the others. */
  lemma Closes(refs: map<nat, int>, next: nat, freed: seq<nat>, out: multiset<Note>, b: nat)
    requires BuffersOk(refs, next, freed, out, Some(b)) && b in refs
    ensures if refs[b] == 0 then BuffersOk(refs - {b}, next, freed + [b], out, None)
            else BuffersOk(refs, next, freed, out, None)
  {
    if refs[b] == 0 {
      NobodyHolds(refs, next, freed, out, b);
      FreeOne(refs, next, freed, out, Some(b), b);
    }
  }

  lemma NobodyHolds(refs: map<nat, int>, next: nat, freed: seq<nat>, out: multiset<Note>, b: nat)
    requires BuffersOk(refs, next, freed, out, Some(b)) && b in refs && refs[b] == 0
    ensures forall n <- out :: n.buffer != b
  {
    forall n <- out
      ensures n.buffer != b
    {
      assert Holders(out, b) == {};
      assert n !in Holders(out, b);
    }
  }

  lemma FreeOne(refs: map<nat, int>, next: nat, freed: seq<nat>, out: multiset<Note>, open: Option<nat>, b: nat)
    requires BuffersOk(refs, next, freed, out, open) && b in refs && (open == Some(b) || open == None)
    requires forall n <- out :: n.buffer != b
    ensures BuffersOk(refs - {b}, next, freed + [b], out, None)
  {
  }

  /** `free_notify_struct` on a job that is not in the pool any more */
  lemma Releases(refs: map<nat, int>, next: nat, freed: seq<nat>, out: multiset<Note>, n: Note)
    requires BuffersOk(refs, next, freed, out, None) && out[n] == 1
    ensures n.buffer in refs
    ensures var b, left := n.buffer, out - multiset{n};
      if refs[b] == 1 then BuffersOk(refs - {b}, next, freed + [b], left, None)
      else BuffersOk(refs[b := refs[b] - 1], next, freed, left, None)
  {
    var b, left := n.buffer, out - multiset{n};
    var refs' := refs[b := refs[b] - 1];
    forall c <- refs
      ensures |Holders(left, c)| == refs'[c]
    {
      OneHolderLess(out, n, c);
    }
    assert BuffersOk(refs', next, freed, left, Some(b));
    if refs[b] == 1 {
      Closes(refs', next, freed, left, b);
      assert refs' - {b} == refs - {b};
    }
  }

  lemma ReleaseKeeps(d: Device, n: Note, out: multiset<Note>)
    requires BuffersOk(d.refs, d.nextBuffer, d.freed, out, None) && out[n] == 1 && Out(d) == out - multiset{n}
    ensures Inv(Release(d, n.buffer))
  {
    hide BuffersOk;
    Releases(d.refs, d.nextBuffer, d.freed, out, n);
    assert Out(Release(d, n.buffer)) == Out(d);
  }

  /** The jobs under way are all different. */
  lemma OnceOut(d: Device, n: Note)
    requires K.Inv(d) && n in Out(d)
    ensures Out(d)[n] == 1
  {
  }

  lemma NewNote(d: Device, i: nat, b: nat)
    requires K.Inv(d) && i < |d.subs|
    ensures NextNote(d, d.subs[i], b) !in Out(d) && d.subs[i].sid in d.issued
  {
    hide Out, K.LogOk;
    var s := d.subs[i];
    assert K.SubOk(s, d.issued, d.ended, Out(d));
    K.IssueSub(s, d.issued, d.ended, Out(d), NextNote(d, s, b), NextKey(s.eventKey));
  }

  predicate Opened(d: Device, b: nat) {
    BuffersOk(d.refs, d.nextBuffer, d.freed, Out(d), Some(b)) && b in d.refs
  }

  lemma IssueKeeps(d: Device, i: nat, b: nat, next: int)
    requires K.Inv(d) && Opened(d, b) && i < |d.subs|
    ensures Opened(Issue(d.(subs := d.subs[i := d.subs[i].(active := true)]), i, b, next), b)
  {
    hide BuffersOk, K.Inv;
    NewNote(d, i, b);
    var n := NextNote(d, d.subs[i], b);
    var t := Issue(d.(subs := d.subs[i := d.subs[i].(active := true)]), i, b, next);
    assert Out(t) == Out(d) + multiset{n};
    Issues(d.refs, d.nextBuffer, d.freed, Out(d), Some(b), n);
  }

  lemma SameOut(d: Device, t: Device)
    requires t.queue == d.queue && t.holding == d.holding && t.sending == d.sending
    ensures Out(t) == Out(d)
  {
  }

  lemma CloseKeeps(d: Device, b: nat)
    requires Opened(d, b)
    ensures RefsOf(d, b) == 0 ==> Inv(FreeUnused(d, b))
    ensures RefsOf(d, b) != 0 ==> Inv(d)
  {
    hide BuffersOk, Out;
    Closes(d.refs, d.nextBuffer, d.freed, Out(d), b);
    SameOut(d, FreeUnused(d, b));
  }

  lemma OpenKeeps(d: Device, t: Device)
    requires Inv(d) && t.queue == d.queue && t.holding == d.holding && t.sending == d.sending && t.freed == d.freed
    requires t.refs == d.refs[d.nextBuffer := 0] && t.nextBuffer == d.nextBuffer + 1
    ensures Opened(t, d.nextBuffer) && RefsOf(t, d.nextBuffer) == 0
  {
    hide BuffersOk, Out;
    Allocates(d.refs, d.nextBuffer, d.freed, Out(d));
    SameOut(d, t);
  }

  /** Both invariants: that of the jobs tells that they are different. */
  predicate Both(d: Device) {
    K.Inv(d) && Inv(d)
  }

  lemma InitNotifyKeeps(d: Device, sid: nat, hasVars: bool, now: int)
    requires Both(d) && |d.queue| < MAX_JOBS_TOTAL
    ensures Inv(InitNotify(d, sid, hasVars, now).device)
  {
    hide GetSub, FindSub, Issue, BuffersOk, K.SubsOk, K.LogOk, K.NotesOk, K.IssuedOk, Out;
    var b := d.nextBuffer;
    var f := GetSub(d.subs, sid, now);
    K.GetSubKeeps(d.subs, sid, now) by { K.SubsDistinct(d); }
    var d1 := d.(subs := f.subs, refs := d.refs[b := 0], nextBuffer := b + 1);
    OpenKeeps(d, d1);
    SameOut(d, d1);
    K.SameKeeps(d, d1);
    CloseKeeps(d1, b);
    if f.at.Some? && !f.subs[f.at.value].active {
      var i := f.at.value;
      var d2 := d1.(subs := f.subs[i := f.subs[i].(active := true)]);
      SameOut(d1, d2);
      if hasVars {
        IssueKeeps(d1, i, b, d1.subs[i].eventKey + 1);
        IssueCounts(d2, i, b, d2.subs[i].eventKey + 1);
        CloseKeeps(Issue(d2, i, b, d2.subs[i].eventKey + 1), b);
      } else {
        SameOut(FreeUnused(d1, b), FreeUnused(d2, b));
      }
    }
  }

  lemma IssueCounts(d: Device, i: nat, b: nat, next: int)
    requires i < |d.subs|
    ensures RefsOf(Issue(d, i, b, next), b) == RefsOf(d, b) + 1
  {
  }

  lemma {:induction false} NotifyFromKeeps(d: Device, i: nat, b: nat, clock: Clock, r: nat)
    requires K.Inv(d) && Opened(d, b) && i <= |d.subs| && |d.queue| + |d.subs| - i <= MAX_JOBS_TOTAL
    ensures Opened(NotifyFrom(d, i, b, clock, r), b)
    decreases |d.subs| - i
  {
    hide Issue, BuffersOk, K.SubsOk, K.LogOk, K.NotesOk, K.IssuedOk, Out;
    if i < |d.subs| {
      if IsExpired(d.subs[i], clock(r)) {
        var t := d.(subs := RemoveAt(d.subs, i));
        K.RemoveAtKeeps(d, i);
        SameOut(d, t);
        NotifyFromKeeps(t, i, b, clock, r);
      } else if d.subs[i].active {
        var next := NextKey(d.subs[i].eventKey);
        K.IssueKeeps(d, i, b, next);
        IssueKeeps(d, i, b, next);
        assert d.subs[i := d.subs[i].(active := true)] == d.subs;
        NotifyFromKeeps(Issue(d, i, b, next), i + 1, b, clock, r + 1);
      } else {
        NotifyFromKeeps(d, i + 1, b, clock, r);
      }
    }
  }

  lemma NotifyAllKeeps(d: Device, clock: Clock)
    requires Both(d) && |d.queue| + |d.subs| <= MAX_JOBS_TOTAL
    ensures Inv(NotifyAll(d, clock))
  {
    hide NotifyFrom, BuffersOk, K.SubsOk, K.LogOk, K.NotesOk, K.IssuedOk, Out;
    var b := d.nextBuffer;
    var d1 := d.(refs := d.refs[b := 0], nextBuffer := b + 1);
    OpenKeeps(d, d1);
    SameOut(d, d1);
    K.SameKeeps(d, d1);
    NotifyFromKeeps(d1, 0, b, clock, 0);
    CloseKeeps(NotifyFrom(d1, 0, b, clock, 0), b);
  }

  lemma BeginKeeps(d: Device, n: Note, now: int)
    requires Both(d) && n in d.holding
    ensures Inv(Begin(d, n, now))
  {
    hide GetSub, FindSub, BuffersOk, K.Inv, Release;
    var t := Begin(d, n, now);
    var f := GetSub(d.subs, n.sid, now);
    OnceOut(d, n);
    if f.at.None? {
      ReleaseKeeps(d.(subs := f.subs, holding := d.holding - multiset{n}), n, Out(d));
    } else {
      assert Out(t) == Out(d);
    }
  }

  lemma FinishKeeps(d: Device, n: Note, refused: bool, now: int)
    requires Both(d) && n in d.sending
    ensures Inv(Finish(d, n, refused, now))
  {
    hide GetSub, FindSub, BuffersOk, K.Inv, RemoveSid, Release;
    K.SubsDistinct(d);
    K.GetSubKeeps(d.subs, n.sid, now);
    OnceOut(d, n);
    var f := GetSub(d.subs, n.sid, now);
    var d1 := d.(subs := f.subs, sending := d.sending - multiset{n}, log := d.log + [End(n.sid, n.index)],
                 ended := d.ended[n.sid := (if n.sid in d.ended then d.ended[n.sid] else 0) + 1]);
    assert Out(d1) == Out(d) - multiset{n};
    if f.at.None? {
      ReleaseKeeps(d1, n, Out(d));
    } else {
      var s := f.subs[f.at.value];
      var subs := f.subs[f.at.value := s.(toSend := NextKey(s.toSend))];
      var d2 := d1.(subs := if refused then RemoveSid(subs, n.sid) else subs);
      SameOut(d1, d2);
      ReleaseKeeps(d2, n, Out(d));
    }
  }

  lemma {:induction false} FreeQueuedKeeps(d: Device)
    requires Both(d) && d.subs == []
    ensures Inv(FreeQueued(d))
    decreases |d.queue|
  {
    hide BuffersOk, K.SubsOk, K.LogOk, K.NotesOk, K.IssuedOk, Release;
    if d.queue != [] {
      var n := d.queue[0];
      var t := d.(queue := d.queue[1..]);
      assert d.queue == [n] + d.queue[1..];
      assert Out(t) == Out(d) - multiset{n};
      OnceOut(d, n);
      ReleaseKeeps(t, n, Out(d));
      K.FreeFirstKeeps(d);
      K.ReleaseOnly(t, n.buffer);
      FreeQueuedKeeps(Release(t, n.buffer));
    }
  }

  lemma EventKeeps(d: Device, e: Event)
    requires Both(d) && Enabled(d, e)
    ensures Both(Apply(d, e))
  {
    hide K.Inv, Inv, Subscribe, InitNotify, NotifyAll, Take, Begin, Finish, Unsubscribe, Unregister,
         FreeQueued;
    K.EventKeeps(d, e);
    match e
    case DoInitNotify(sid, hasVars, now) => InitNotifyKeeps(d, sid, hasVars, now);
    case DoNotifyAll(clock) => NotifyAllKeeps(d, clock);
    case DoBegin(n, now) => BeginKeeps(d, n, now);
    case DoFinish(n, refused, now) => FinishKeeps(d, n, refused, now);
    case DoFreeQueued => FreeQueuedKeeps(d);
    case _ => OthersKeep(d, e);
  }

  lemma OthersKeep(d: Device, e: Event)
    requires Inv(d) && Enabled(d, e) && (e.DoSubscribe? || e.DoTake? || e.DoUnsubscribe? || e.DoUnregister?)
    ensures Inv(Apply(d, e))
  {
    hide BuffersOk;
    if e.DoTake? {
      assert d.queue == d.queue[..e.k] + [d.queue[e.k]] + d.queue[e.k + 1..];
    }
    assert Out(Apply(d, e)) == Out(d);
  }

  lemma {:induction false} RunKeeps(es: seq<Event>)
    requires After(InitialDevice(), es).Some?
    ensures Both(After(InitialDevice(), es).value)
  {
    hide Apply, Enabled;
    if es != [] {
      var front := es[..|es| - 1];
      RunKeeps(front);
      EventKeeps(After(InitialDevice(), front).value, es[|es| - 1]);
    }
  }

  /** Over every run, for every buffer that was allocated: while jobs point at it, its counter is their number and
      it has not been freed; when none does, it has been freed exactly once. */
  lemma BuffersAreFreedOnce(d: Device, es: seq<Event>, b: nat)
    requires After(InitialDevice(), es) == Some(d) && b < d.nextBuffer
    ensures var holders := Holders(Out(d), b);
      if holders != {} then b in d.refs && d.refs[b] == |holders| && multiset(d.freed)[b] == 0
      else b !in d.refs && multiset(d.freed)[b] == 1
  {
    hide K.Inv, Out;
    RunKeeps(es);
    if n :| n in Holders(Out(d), b) {
      assert n.buffer in d.refs;
    }
  }
}