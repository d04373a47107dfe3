/** What every run of a device keeps: the jobs that are under way for a subscription carry exactly the keys from
    `ToSendEventKey` up to `eventKey`, and its notifications are sent one at a time, in order, without a gap. */
module GenaKeys {
  import opened Options
  import opened GenaDevice

  /** The exchanges of one subscription */
  function Of(log: seq<Entry>, sid: nat): seq<Entry> {
    if log == [] then []
    else
      var e := log[|log| - 1];
      Of(log[..|log| - 1], sid) + (if e.sid == sid then [e] else [])
  }

  /** The exchanges 0, 1, ..., n - 1, one after the other */
  function InTurn(sid: nat, n: nat): seq<Entry> {
    if n == 0 then [] else InTurn(sid, n - 1) + [Start(sid, n - 1), End(sid, n - 1)]
  }

  predicate IsSending(sending: multiset<Note>, sid: nat) {
    exists n <- sending :: n.sid == sid
  }

  predicate DistinctSids(subs: seq<Sub>) {
    forall i, j :: 0 <= i < j < |subs| ==> subs[i].sid != subs[j].sid
  }

  type Issued = map<nat, seq<Note>>
  type Ended = map<nat, nat>

  /** A notification that was issued is under way until its exchange is over, and only once. */
  predicate IsWindow(notes: seq<Note>, ended: nat, out: multiset<Note>) {
    && ended <= |notes|
    && forall i :: 0 <= i < |notes| ==> out[notes[i]] == if i < ended then 0 else 1
  }

  predicate IsNumbered(notes: seq<Note>, sid: nat) {
    forall i :: 0 <= i < |notes| ==> notes[i].sid == sid && notes[i].index == i && notes[i].key == Key(i)
  }

  /** The two counters of a subscription are the keys at the ends of its window. */
  predicate SubOk(s: Sub, issued: Issued, ended: Ended, out: multiset<Note>) {
    && s.sid in issued && s.sid in ended
    && s.eventKey == Key(|issued[s.sid]|)
    && s.toSend == Key(ended[s.sid])
    && (!s.active ==> issued[s.sid] == [])
    && IsWindow(issued[s.sid], ended[s.sid], out)
  }

  predicate SubsOk(subs: seq<Sub>, issued: Issued, ended: Ended, out: multiset<Note>) {
    DistinctSids(subs) && forall k :: 0 <= k < |subs| ==> SubOk(subs[k], issued, ended, out)
  }

  predicate IssuedOk(issued: Issued, ended: Ended) {
    issued.Keys == ended.Keys && forall sid <- issued :: IsNumbered(issued[sid], sid)
  }

  predicate NoteOk(n: Note, issued: Issued, ended: Ended) {
    && n.sid in issued && n.sid in ended
    && ended[n.sid] <= n.index < |issued[n.sid]| && issued[n.sid][n.index] == n
  }

  /** Whatever is under way was issued, and is there once. */
  predicate NotesOk(issued: Issued, ended: Ended, out: multiset<Note>) {
    forall n <- out :: out[n] == 1 && NoteOk(n, issued, ended)
  }

  /** The exchanges of a subscription came one after the other, and at most the next one has begun. */
  predicate LogOk(sending: multiset<Note>, ended: Ended, log: seq<Entry>) {
    && (forall n <- sending :: n.sid in ended && n.index == ended[n.sid])
    && (forall e <- log :: e.sid in ended)
    && forall sid <- ended :: LogIs(sending, ended, log, sid)
  }

  predicate LogIs(sending: multiset<Note>, ended: Ended, log: seq<Entry>, sid: nat) {
    sid in ended &&
    Of(log, sid) == InTurn(sid, ended[sid]) + (if IsSending(sending, sid) then [Start(sid, ended[sid])] else [])
  }

  predicate Fits(queue: nat, workers: nat) {
    queue <= MAX_JOBS_TOTAL && workers <= MAX_THREADS
  }

  predicate Inv(d: Device) {
    && SubsOk(d.subs, d.issued, d.ended, Out(d))
    && IssuedOk(d.issued, d.ended)
    && NotesOk(d.issued, d.ended, Out(d))
    && LogOk(d.sending, d.ended, d.log)
    && Fits(|d.queue|, |d.holding| + |d.sending|)
  }

  // ---- The window is short ----

  lemma {:induction false} DistinctFit(notes: seq<Note>, bag: multiset<Note>)
    requires forall i :: 0 <= i < |notes| ==> notes[i] in bag
    requires forall i, j :: 0 <= i < j < |notes| ==> notes[i] != notes[j]
    ensures |notes| <= |bag|
  {
    if notes != [] {
      var n := |notes| - 1;
      DistinctFit(notes[..n], bag - multiset{notes[n]});
    }
  }

  lemma WindowFits(notes: seq<Note>, sid: nat, ended: nat, bag: multiset<Note>)
    requires IsNumbered(notes, sid) && IsWindow(notes, ended, bag)
    ensures |notes| - ended <= |bag|
  {
    var window := notes[ended..];
    forall i | 0 <= i < |window|
      ensures window[i] in bag && window[i].index == ended + i
    {
      assert window[i] == notes[ended + i];
    }
    DistinctFit(window, bag);
  }

  lemma OutFits(d: Device)
    requires Fits(|d.queue|, |d.holding| + |d.sending|)
    ensures |Out(d)| <= MAX_JOBS_TOTAL + MAX_THREADS
  {
  }

  /** The comparison of keys in `genaNotifyThread` tells whether it is the turn of a notification: within a
      window, keys are different although they wrap. */
  lemma KeyTellsTurn(d: Device, k: nat, n: Note)
    requires Inv(d) && k < |d.subs| && n in Out(d) && n.sid == d.subs[k].sid
    ensures n.sid in d.ended && (n.key == d.subs[k].toSend <==> n.index == d.ended[n.sid])
  {
    hide Out, Fits, Key, LogOk;
    var sid := n.sid;
    assert SubOk(d.subs[k], d.issued, d.ended, Out(d));
    assert NoteOk(n, d.issued, d.ended);
    assert IsNumbered(d.issued[sid], sid);
    WindowFits(d.issued[sid], sid, d.ended[sid], Out(d));
    OutFits(d);
    if n.index > d.ended[sid] {
      KeysDiffer(d.ended[sid], n.index);
    }
  }

  // ---- Removing subscriptions ----

  predicate IsSublist(a: seq<Sub>, b: seq<Sub>) {
    DistinctSids(a) && forall k :: 0 <= k < |a| ==> a[k] in b
  }

  /** Subscriptions are taken off the list, and nothing else changes. */
  lemma FewerSubs(subs: seq<Sub>, fewer: seq<Sub>, issued: Issued, ended: Ended, out: multiset<Note>)
    requires SubsOk(subs, issued, ended, out) && IsSublist(fewer, subs)
    ensures SubsOk(fewer, issued, ended, out)
  {
    hide SubOk;
  }

  lemma GetSubKeeps(subs: seq<Sub>, sid: nat, now: int)
    requires DistinctSids(subs)
    ensures var f := GetSub(subs, sid, now);
      && IsSublist(f.subs, subs)
      && (f.at.Some? ==> f.subs == subs && f.at.value < |subs| && subs[f.at.value].sid == sid)
      && (f.at.None? ==> forall k :: 0 <= k < |f.subs| ==> f.subs[k].sid != sid)
  {
    hide FindSub;
    FindSubFirst(subs, sid);
  }

  lemma AllInTail(a: seq<Sub>, b: seq<Sub>)
    requires b != [] && forall k :: 0 <= k < |a| ==> a[k] in b[1..]
    ensures forall k :: 0 <= k < |a| ==> a[k] in b
  {
  }

  lemma {:induction false} RemoveSidKeeps(subs: seq<Sub>, sid: nat)
    requires DistinctSids(subs)
    ensures IsSublist(RemoveSid(subs, sid), subs)
    ensures forall k :: 0 <= k < |RemoveSid(subs, sid)| ==> RemoveSid(subs, sid)[k].sid != sid
  {
    if subs != [] {
      var rest := if subs[0].sid == sid then subs[1..] else RemoveSid(subs[1..], sid);
      if subs[0].sid != sid {
        RemoveSidKeeps(subs[1..], sid);
        assert RemoveSid(subs, sid) == [subs[0]] + rest;
      }
      AllInTail(rest, subs);
    }
  }

  lemma SubFacts(s: Sub, issued: Issued, ended: Ended, out: multiset<Note>)
    requires SubOk(s, issued, ended, out) && IssuedOk(issued, ended)
    ensures s.sid in issued && s.sid in ended && ended[s.sid] <= |issued[s.sid]| && IsNumbered(issued[s.sid], s.sid)
  {
  }

  // ---- Issuing a notification ----

  /** A subscription takes its next key, and the notification with it is under way. */
  lemma IssueSub(s: Sub, issued: Issued, ended: Ended, out: multiset<Note>, n: Note, next: int)
    requires SubOk(s, issued, ended, out) && IsNumbered(issued[s.sid], s.sid) && NotesOk(issued, ended, out)
    requires n.sid == s.sid && n.index == |issued[s.sid]| && n.key == s.eventKey && next == NextKey(s.eventKey)
    ensures SubOk(s.(eventKey := next, active := true), issued[s.sid := issued[s.sid] + [n]], ended, out + multiset{n})
    ensures IsNumbered(issued[s.sid] + [n], s.sid) && n !in out
  {
    KeyNext(|issued[s.sid]|);
    var notes := issued[s.sid] + [n];
    assert n !in out;
    forall i | 0 <= i < |notes|
      ensures (out + multiset{n})[notes[i]] == if i < ended[s.sid] then 0 else 1
    {
      if i < |issued[s.sid]| {
        assert notes[i] == issued[s.sid][i];
        assert notes[i].index == i;
      }
    }
  }

  lemma OtherSub(s: Sub, sid: nat, issued: Issued, ended: Ended, out: multiset<Note>, n: Note)
    requires SubOk(s, issued, ended, out) && IsNumbered(issued[s.sid], s.sid) && n.sid == sid != s.sid
    requires sid in issued
    ensures SubOk(s, issued[sid := issued[sid] + [n]], ended, out + multiset{n})
  {
  }

  lemma IssueNotes(issued: Issued, ended: Ended, out: multiset<Note>, n: Note)
    requires NotesOk(issued, ended, out) && IssuedOk(issued, ended) && n !in out
    requires n.sid in issued && n.index == |issued[n.sid]| >= ended[n.sid]
    ensures NotesOk(issued[n.sid := issued[n.sid] + [n]], ended, out + multiset{n})
  {
    var issued' := issued[n.sid := issued[n.sid] + [n]];
    forall m <- out + multiset{n}
      ensures (out + multiset{n})[m] == 1 && NoteOk(m, issued', ended)
    {
      if m != n {
        assert NoteOk(m, issued, ended);
      }
    }
  }

  /** What `genaInitNotify` and `genaNotifyAll` do for a subscription */
  lemma IssueKeeps(d: Device, i: nat, b: nat, next: int)
    requires Inv(d) && i < |d.subs| && next == NextKey(d.subs[i].eventKey) && |d.queue| < MAX_JOBS_TOTAL
    ensures
      var t := Issue(d.(subs := d.subs[i := d.subs[i].(active := true)]), i, b, next);
      Inv(t) && |t.queue| == |d.queue| + 1 && |t.subs| == |d.subs|
  {
    hide LogOk, SubOk, IsNumbered, NoteOk;
    var s := d.subs[i];
    var t := Issue(d.(subs := d.subs[i := s.(active := true)]), i, b, next);
    var n := NextNote(d, s, b);
    assert Out(t) == Out(d) + multiset{n};
    SubFacts(s, d.issued, d.ended, Out(d));
    IssueSub(s, d.issued, d.ended, Out(d), n, next);
    IssueNotes(d.issued, d.ended, Out(d), n);
    forall k | 0 <= k < |t.subs|
      ensures SubOk(t.subs[k], t.issued, t.ended, Out(t))
    {
      if k != i {
        SubFacts(d.subs[k], d.issued, d.ended, Out(d));
        OtherSub(d.subs[k], s.sid, d.issued, d.ended, Out(d), n);
      }
    }
  }

  /** Changes that do not concern the subscriptions, the notifications under way or the exchanges */
  lemma SameKeeps(d: Device, t: Device)
    requires Inv(d) && t.issued == d.issued && t.ended == d.ended && t.log == d.log && t.sending == d.sending
    requires Out(t) == Out(d) && t.holding == d.holding && t.queue == d.queue
    requires t.subs == d.subs || IsSublist(t.subs, d.subs)
    ensures Inv(t)
  {
    if t.subs != d.subs {
      FewerSubs(d.subs, t.subs, d.issued, d.ended, Out(d));
    }
  }

  lemma InitNotifyKeeps(d: Device, sid: nat, hasVars: bool, now: int)
    requires Inv(d) && |d.queue| < MAX_JOBS_TOTAL
    ensures Inv(InitNotify(d, sid, hasVars, now).device)
  {
    hide GetSub, FindSub, Issue, SubOk, LogOk, NotesOk, IssuedOk, RefsOf;
    var b := d.nextBuffer;
    var f := GetSub(d.subs, sid, now);
    GetSubKeeps(d.subs, sid, now);
    var d1 := d.(subs := f.subs, refs := d.refs[b := 0], nextBuffer := b + 1);
    SameKeeps(d, d1);
    if f.at.None? || f.subs[f.at.value].active {
      SameKeeps(d1, FreeUnused(d1, b));
    } else {
      var i := f.at.value;
      FirstKey(d1, i);
      ActivateKeeps(d1, i);
      var d2 := d1.(subs := f.subs[i := f.subs[i].(active := true)]);
      if hasVars {
        IssueKeeps(d1, i, b, d1.subs[i].eventKey + 1);
      } else {
        SameKeeps(d2, FreeUnused(d2, b));
      }
    }
  }

  /** The subscription that gets its initial notification is at key 0, so that the missing check for overflow in
      `genaInitNotify` does no harm. */
  lemma FirstKey(d: Device, i: nat)
    requires Inv(d) && i < |d.subs| && !d.subs[i].active
    ensures d.subs[i].eventKey == 0 == d.subs[i].toSend && NextKey(d.subs[i].eventKey) == d.subs[i].eventKey + 1
  {
    assert SubOk(d.subs[i], d.issued, d.ended, Out(d));
  }

  lemma ActivateKeeps(d: Device, i: nat)
    requires Inv(d) && i < |d.subs|
    ensures Inv(d.(subs := d.subs[i := d.subs[i].(active := true)]))
  {
    hide LogOk, NotesOk, IssuedOk, IsWindow;
    var t := d.(subs := d.subs[i := d.subs[i].(active := true)]);
    assert Out(t) == Out(d);
    forall k | 0 <= k < |t.subs|
      ensures SubOk(t.subs[k], t.issued, t.ended, Out(t))
    {
      assert SubOk(d.subs[k], d.issued, d.ended, Out(d));
    }
  }

  lemma {:induction false} NotifyFromKeeps(d: Device, i: nat, b: nat, clock: Clock, r: nat)
    requires Inv(d) && i <= |d.subs| && |d.queue| + |d.subs| - i <= MAX_JOBS_TOTAL
    ensures Inv(NotifyFrom(d, i, b, clock, r))
    decreases |d.subs| - i
  {
    hide Issue, SubOk, LogOk, NotesOk, IssuedOk;
    if i < |d.subs| {
      if IsExpired(d.subs[i], clock(r)) {
        var fewer := RemoveAt(d.subs, i);
        SameKeeps(d, d.(subs := fewer));
        NotifyFromKeeps(d.(subs := fewer), i, b, clock, r);
      } else if d.subs[i].active {
        IssueKeeps(d, i, b, NextKey(d.subs[i].eventKey));
        assert d.subs[i := d.subs[i].(active := true)] == d.subs;
        NotifyFromKeeps(Issue(d, i, b, NextKey(d.subs[i].eventKey)), i + 1, b, clock, r + 1);
      } else {
        NotifyFromKeeps(d, i + 1, b, clock, r);
      }
    }
  }

  lemma NotifyAllKeeps(d: Device, clock: Clock)
    requires Inv(d) && |d.queue| + |d.subs| <= MAX_JOBS_TOTAL
    ensures Inv(NotifyAll(d, clock))
  {
    hide NotifyFrom, RefsOf, SubOk, LogOk, NotesOk, IssuedOk;
    var b := d.nextBuffer;
    var d1 := d.(refs := d.refs[b := 0], nextBuffer := b + 1);
    SameKeeps(d, d1);
    NotifyFromKeeps(d1, 0, b, clock, 0);
    var t := NotifyFrom(d1, 0, b, clock, 0);
    SameKeeps(t, FreeUnused(t, b));
  }

  lemma SubscribeKeeps(d: Device, sid: nat, expireTime: int)
    requires Inv(d) && sid !in d.issued
    ensures Inv(Subscribe(d, sid, expireTime))
  {
    hide SubOk, SubsOk, NotesOk, IssuedOk, LogOk;
    var t := Subscribe(d, sid, expireTime);
    assert Out(t) == Out(d);
    NewSubsOk(d.subs, sid, expireTime, d.issued, d.ended, Out(d));
    NewIssuedOk(d.issued, d.ended, Out(d), sid);
    NewLogOk(d.sending, d.issued, d.ended, d.log, sid);
  }

  lemma NewSubsOk(subs: seq<Sub>, sid: nat, expireTime: int, issued: Issued, ended: Ended, out: multiset<Note>)
    requires SubsOk(subs, issued, ended, out) && sid !in issued
    ensures SubsOk([Sub(sid, 0, 0, expireTime, false)] + subs, issued[sid := []], ended[sid := 0], out)
  {
    hide IsWindow;
    forall k | 0 <= k < |subs|
      ensures SubOk(subs[k], issued[sid := []], ended[sid := 0], out) && subs[k].sid != sid
    {
      assert SubOk(subs[k], issued, ended, out);
    }
    EmptyWindow(out);
  }

  lemma EmptyWindow(out: multiset<Note>)
    ensures IsWindow([], 0, out)
  {
  }

  lemma NewIssuedOk(issued: Issued, ended: Ended, out: multiset<Note>, sid: nat)
    requires IssuedOk(issued, ended) && NotesOk(issued, ended, out) && sid !in issued
    ensures IssuedOk(issued[sid := []], ended[sid := 0]) && NotesOk(issued[sid := []], ended[sid := 0], out)
  {
  }

  lemma NewLogOk(sending: multiset<Note>, issued: Issued, ended: Ended, log: seq<Entry>, sid: nat)
    requires LogOk(sending, ended, log) && IssuedOk(issued, ended) && sid !in issued
    ensures LogOk(sending, ended[sid := 0], log)
  {
    OfNone(log, sid);
    NoneSent(sending, ended, log, sid);
    var ended' := ended[sid := 0];
    forall other <- ended'
      ensures LogIs(sending, ended', log, other)
    {
      if other != sid {
        LogSame(sending, ended, ended', log, other);
      }
    }
  }

  lemma NoneSent(sending: multiset<Note>, ended: Ended, log: seq<Entry>, sid: nat)
    requires LogOk(sending, ended, log) && sid !in ended
    ensures !IsSending(sending, sid)
  {
  }

  /** The exchanges of a subscription depend on its own counter only. */
  lemma LogSame(sending: multiset<Note>, ended: Ended, ended': Ended, log: seq<Entry>, sid: nat)
    requires LogOk(sending, ended, log) && sid in ended && sid in ended' && ended'[sid] == ended[sid]
    ensures LogIs(sending, ended', log, sid)
  {
    hide Of, InTurn;
    assert LogIs(sending, ended, log, sid);
  }

  lemma {:induction false} OfNone(log: seq<Entry>, sid: nat)
    requires forall e <- log :: e.sid != sid
    ensures Of(log, sid) == []
  {
    if log != [] {
      OfNone(log[..|log| - 1], sid);
    }
  }

  // ---- The notify thread ----

  lemma TakeKeeps(d: Device, k: nat)
    requires Inv(d) && k < |d.queue| && |d.holding| + |d.sending| < MAX_THREADS
    ensures Inv(Take(d, k))
  {
    hide SubOk, NoteOk, LogOk, IssuedOk;
    assert d.queue == d.queue[..k] + [d.queue[k]] + d.queue[k + 1..];
    assert Out(Take(d, k)) == Out(d);
  }

  /** A notification that is not for any subscription on the list can be dropped. */
  lemma DropSubs(subs: seq<Sub>, issued: Issued, ended: Ended, out: multiset<Note>, n: Note)
    requires SubsOk(subs, issued, ended, out) && IssuedOk(issued, ended)
    requires forall k :: 0 <= k < |subs| ==> subs[k].sid != n.sid
    ensures SubsOk(subs, issued, ended, out - multiset{n})
  {
    forall k | 0 <= k < |subs|
      ensures SubOk(subs[k], issued, ended, out - multiset{n})
    {
      assert SubOk(subs[k], issued, ended, out);
      assert IsNumbered(issued[subs[k].sid], subs[k].sid);
    }
  }

  lemma DropNotes(issued: Issued, ended: Ended, out: multiset<Note>, n: Note)
    requires NotesOk(issued, ended, out)
    ensures NotesOk(issued, ended, out - multiset{n})
  {
  }

  lemma ReleaseKeeps(d: Device, b: nat)
    requires Inv(d)
    ensures Inv(Release(d, b))
  {
    hide SubsOk, NotesOk, LogOk, IssuedOk;
    assert Out(Release(d, b)) == Out(d);
  }

  lemma DropKeeps(d: Device, n: Note)
    requires Inv(d) && n in d.holding && forall k :: 0 <= k < |d.subs| ==> d.subs[k].sid != n.sid
    ensures Inv(Drop(d, n))
  {
    hide SubsOk, NotesOk, LogOk, IssuedOk, Release;
    var t := d.(holding := d.holding - multiset{n});
    assert Out(t) == Out(d) - multiset{n};
    DropSubs(d.subs, d.issued, d.ended, Out(d), n);
    DropNotes(d.issued, d.ended, Out(d), n);
    ReleaseKeeps(t, n.buffer);
  }

  lemma BeginKeeps(d: Device, n: Note, now: int)
    requires Inv(d) && n in d.holding && |d.queue| < MAX_JOBS_TOTAL
    ensures Inv(Begin(d, n, now))
  {
    hide GetSub, FindSub, Drop, LogOk, NotesOk, IssuedOk, SubOk, Out;
    var f := GetSub(d.subs, n.sid, now);
    GetSubKeeps(d.subs, n.sid, now);
    var d1 := d.(subs := f.subs);
    OutIs(d, d1);
    SameKeeps(d, d1);
    if f.at.None? {
      DropKeeps(d1, n);
    } else {
      InOut(d1, n);
      KeyTellsTurn(d1, f.at.value, n);
      if n.key != f.subs[f.at.value].toSend {
        RequeueKeeps(d1, n);
      } else {
        StartKeeps(d1, n);
      }
    }
  }

  lemma OutIs(d: Device, t: Device)
    requires t.queue == d.queue && t.holding == d.holding && t.sending == d.sending
    ensures Out(t) == Out(d)
  {
  }

  lemma InOut(d: Device, n: Note)
    requires n in d.holding || n in d.sending
    ensures n in Out(d)
    ensures n in d.holding && n in d.sending ==> Out(d)[n] > 1
  {
  }

  lemma RequeueKeeps(d: Device, n: Note)
    requires Inv(d) && n in d.holding && |d.queue| < MAX_JOBS_TOTAL
    ensures Inv(d.(holding := d.holding - multiset{n}, queue := d.queue + [n]))
  {
    hide SubsOk, NotesOk, LogOk, IssuedOk;
    var t := d.(holding := d.holding - multiset{n}, queue := d.queue + [n]);
    assert Out(t) == Out(d);
  }

  lemma StartKeeps(d: Device, n: Note)
    requires Inv(d) && n in d.holding && n.sid in d.ended && n.index == d.ended[n.sid]
    ensures Inv(d.(holding := d.holding - multiset{n}, sending := d.sending + multiset{n},
                   log := d.log + [Start(n.sid, n.index)]))
  {
    hide SubsOk, LogOk, IssuedOk, NoteOk;
    var t := d.(holding := d.holding - multiset{n}, sending := d.sending + multiset{n},
                log := d.log + [Start(n.sid, n.index)]);
    assert Out(t) == Out(d);
    OnlyOneSends(d, n);
    StartLog(d.sending, d.ended, d.log, n);
  }

  /** When it is the turn of a notification, no other one of its subscription is being sent. */
  lemma OnlyOneSends(d: Device, n: Note)
    requires NotesOk(d.issued, d.ended, Out(d)) && LogOk(d.sending, d.ended, d.log)
    requires n in d.holding && n.sid in d.ended && n.index == d.ended[n.sid]
    ensures !IsSending(d.sending, n.sid)
  {
    hide Out, Of;
    InOut(d, n);
    forall m <- d.sending
      ensures m.sid != n.sid
    {
      InOut(d, m);
      assert NoteOk(m, d.issued, d.ended) && NoteOk(n, d.issued, d.ended);
    }
  }

  lemma StartLog(sending: multiset<Note>, ended: Ended, log: seq<Entry>, n: Note)
    requires LogOk(sending, ended, log) && n.sid in ended && n.index == ended[n.sid] && !IsSending(sending, n.sid)
    ensures LogOk(sending + multiset{n}, ended, log + [Start(n.sid, n.index)])
  {
    var sending', log' := sending + multiset{n}, log + [Start(n.sid, n.index)];
    assert log'[..|log|] == log;
    assert n in sending';
    forall sid <- ended
      ensures LogIs(sending', ended, log', sid)
    {
      assert LogIs(sending, ended, log, sid);
      if sid != n.sid {
        assert IsSending(sending', sid) == IsSending(sending, sid);
      }
    }
  }

  lemma FinishKeeps(d: Device, n: Note, refused: bool, now: int)
    requires Inv(d) && n in d.sending
    ensures Inv(Finish(d, n, refused, now))
  {
    hide GetSub, FindSub, LogOk, NotesOk, IssuedOk, SubOk, Out, RemoveSid, Release;
    SendsNext(d, n);
    var f := GetSub(d.subs, n.sid, now);
    GetSubKeeps(d.subs, n.sid, now);
    var d1 := d.(subs := f.subs);
    OutIs(d, d1);
    SameKeeps(d, d1);
    EndKeeps(d1, n, f.at);
    var d2 := AfterExchange(d1, n, f.at);
    if f.at.Some? && refused {
      RemoveSidKeeps(d2.subs, n.sid);
      var d3 := d2.(subs := RemoveSid(d2.subs, n.sid));
      OutIs(d2, d3);
      SameKeeps(d2, d3);
      ReleaseKeeps(d3, n.buffer);
    } else {
      ReleaseKeeps(d2, n.buffer);
    }
  }

  /** The end of an exchange, before the subscription is removed and the buffer is released */
  function AfterExchange(d: Device, n: Note, at: Option<nat>): Device
    requires at.Some? ==> at.value < |d.subs|
    requires n.sid in d.ended
  {
    d.(subs := (match at
                case None => d.subs
                case Some(i) => d.subs[i := d.subs[i].(toSend := NextKey(d.subs[i].toSend))]),
       sending := d.sending - multiset{n}, log := d.log + [End(n.sid, n.index)],
       ended := d.ended[n.sid := d.ended[n.sid] + 1])
  }

  lemma SendsNext(d: Device, n: Note)
    requires Inv(d) && n in d.sending
    ensures n.sid in d.ended && n.index == d.ended[n.sid] && NoteOk(n, d.issued, d.ended) && Out(d)[n] == 1
    ensures n.sid in d.issued && d.issued.Keys == d.ended.Keys
  {
    InOut(d, n);
  }

  lemma EndKeeps(d: Device, n: Note, at: Option<nat>)
    requires Inv(d) && n in d.sending && n.sid in d.ended
    requires match at
             case Some(i) => i < |d.subs| && d.subs[i].sid == n.sid
             case None => forall k :: 0 <= k < |d.subs| ==> d.subs[k].sid != n.sid
    ensures Inv(AfterExchange(d, n, at))
  {
    hide LogOk, NotesOk, IssuedOk, SubOk, NoteOk;
    var t := AfterExchange(d, n, at);
    assert Out(t) == Out(d) - multiset{n};
    SendsNext(d, n);
    EndNotes(d.issued, d.ended, Out(d), n);
    EndLog(d.sending, d.ended, d.log, d.issued, Out(d), n);
    forall k | 0 <= k < |t.subs|
      ensures SubOk(t.subs[k], t.issued, t.ended, Out(t)) && t.subs[k].sid == d.subs[k].sid
    {
      EndSub(d.subs[k], d.issued, d.ended, Out(d), n);
    }
  }

  lemma EndSub(s: Sub, issued: Issued, ended: Ended, out: multiset<Note>, n: Note)
    requires SubOk(s, issued, ended, out) && IssuedOk(issued, ended) && NoteOk(n, issued, ended)
    requires n.index == ended[n.sid]
    ensures
      var s' := if s.sid == n.sid then s.(toSend := NextKey(s.toSend)) else s;
      SubOk(s', issued, ended[n.sid := ended[n.sid] + 1], out - multiset{n})
  {
    KeyNext(ended[n.sid]);
    assert IsNumbered(issued[s.sid], s.sid);
  }

  lemma EndNotes(issued: Issued, ended: Ended, out: multiset<Note>, n: Note)
    requires NotesOk(issued, ended, out) && IssuedOk(issued, ended) && NoteOk(n, issued, ended)
    requires n.index == ended[n.sid] && out[n] == 1
    ensures NotesOk(issued, ended[n.sid := ended[n.sid] + 1], out - multiset{n})
    ensures IssuedOk(issued, ended[n.sid := ended[n.sid] + 1])
  {
    var ended' := ended[n.sid := ended[n.sid] + 1];
    forall m <- out - multiset{n}
      ensures (out - multiset{n})[m] == 1 && NoteOk(m, issued, ended')
    {
      assert NoteOk(m, issued, ended);
    }
  }

  lemma EndLog(sending: multiset<Note>, ended: Ended, log: seq<Entry>, issued: Issued, out: multiset<Note>, n: Note)
    requires LogOk(sending, ended, log) && NotesOk(issued, ended, out) && n in sending
    requires sending <= out && n.sid in ended && n.index == ended[n.sid]
    ensures LogOk(sending - multiset{n}, ended[n.sid := ended[n.sid] + 1], log + [End(n.sid, n.index)])
  {
    var sending', log', ended' := sending - multiset{n}, log + [End(n.sid, n.index)], ended[n.sid := ended[n.sid] + 1];
    assert log'[..|log|] == log;
    forall m <- sending'
      ensures m.sid != n.sid
    {
      assert NoteOk(m, issued, ended) && NoteOk(n, issued, ended);
    }
    forall sid <- ended'
      ensures LogIs(sending', ended', log', sid)
    {
      assert LogIs(sending, ended, log, sid);
      if sid == n.sid {
        EndTurn(sending, sending', ended, log, n);
      } else {
        SendingOthers(sending, n, sid);
      }
    }
  }

  lemma EndTurn(sending: multiset<Note>, sending': multiset<Note>, ended: Ended, log: seq<Entry>, n: Note)
    requires LogIs(sending, ended, log, n.sid) && n in sending && n.index == ended[n.sid]
    requires forall m <- sending' :: m.sid != n.sid
    ensures LogIs(sending', ended[n.sid := ended[n.sid] + 1], log + [End(n.sid, n.index)], n.sid)
  {
    var k := ended[n.sid];
    assert (log + [End(n.sid, n.index)])[..|log|] == log;
    assert InTurn(n.sid, k + 1) == InTurn(n.sid, k) + [Start(n.sid, k)] + [End(n.sid, k)];
  }

  lemma SendingOthers(sending: multiset<Note>, n: Note, sid: nat)
    requires sid != n.sid && n in sending
    ensures IsSending(sending - multiset{n}, sid) == IsSending(sending, sid)
  {
    forall m <- sending | m.sid == sid
      ensures m in sending - multiset{n}
    {
    }
  }

  lemma UnsubscribeKeeps(d: Device, sid: nat)
    requires Inv(d)
    ensures Inv(Unsubscribe(d, sid))
  {
    hide SubOk, LogOk, NotesOk, IssuedOk, RemoveSid;
    RemoveSidKeeps(d.subs, sid);
    SameKeeps(d, Unsubscribe(d, sid));
  }

  lemma UnregisterKeeps(d: Device)
    requires Inv(d)
    ensures Inv(Unregister(d))
  {
    hide SubOk, LogOk, NotesOk, IssuedOk;
    SameKeeps(d, Unregister(d));
  }

  lemma {:induction false} FreeQueuedKeeps(d: Device)
    requires Inv(d) && d.subs == []
    ensures Inv(FreeQueued(d))
    decreases |d.queue|
  {
    hide LogOk, NotesOk, IssuedOk, Release, Out;
    if d.queue != [] {
      FreeFirstKeeps(d);
      ReleaseOnly(d.(queue := d.queue[1..]), d.queue[0].buffer);
      FreeQueuedKeeps(Release(d.(queue := d.queue[1..]), d.queue[0].buffer));
    }
  }

  lemma FreeFirstKeeps(d: Device)
    requires Inv(d) && d.subs == [] && d.queue != []
    ensures Inv(Release(d.(queue := d.queue[1..]), d.queue[0].buffer))
  {
    hide LogOk, NotesOk, IssuedOk, Release;
    var n := d.queue[0];
    var t := d.(queue := d.queue[1..]);
    assert d.queue == [n] + d.queue[1..];
    assert Out(t) == Out(d) - multiset{n};
    DropNotes(d.issued, d.ended, Out(d), n);
    ReleaseKeeps(t, n.buffer);
  }

  lemma IssuedKeys(d: Device)
    requires Inv(d)
    ensures d.issued.Keys == d.ended.Keys
  {
  }

  lemma SubsDistinct(d: Device)
    requires Inv(d)
    ensures DistinctSids(d.subs)
  {
  }

  lemma RemoveAtKeeps(d: Device, i: nat)
    requires Inv(d) && i < |d.subs|
    ensures Inv(d.(subs := RemoveAt(d.subs, i)))
  {
    hide SubOk, LogOk, NotesOk, IssuedOk;
    SameKeeps(d, d.(subs := RemoveAt(d.subs, i)));
  }

  lemma ReleaseOnly(d: Device, b: nat)
    ensures var t := Release(d, b); t.queue == d.queue && t.subs == d.subs
  {
  }

  // ---- Main results ----

  lemma EventKeeps(d: Device, e: Event)
    requires Inv(d) && Enabled(d, e)
    ensures Inv(Apply(d, e))
  {
    hide Inv, Subscribe, InitNotify, NotifyAll, Take, Begin, Finish, Unsubscribe, Unregister,
         FreeQueued;
    match e
    case DoSubscribe(sid, expireTime) => SubscribeKeeps(d, sid, expireTime);
    case DoInitNotify(sid, hasVars, now) => InitNotifyKeeps(d, sid, hasVars, now);
    case DoNotifyAll(clock) => NotifyAllKeeps(d, clock);
    case DoTake(k) => TakeKeeps(d, k);
    case DoBegin(n, now) => BeginKeeps(d, n, now);
    case DoFinish(n, refused, now) => FinishKeeps(d, n, refused, now);
    case DoUnsubscribe(sid) => UnsubscribeKeeps(d, sid);
    case DoUnregister => UnregisterKeeps(d);
    case DoFreeQueued => FreeQueuedKeeps(d);
  }

  lemma {:induction false} RunKeeps(es: seq<Event>)
    requires After(InitialDevice(), es).Some?
    ensures Inv(After(InitialDevice(), es).value)
  {
    hide Apply, Enabled;
    if es != [] {
      var front := es[..|es| - 1];
      RunKeeps(front);
      EventKeeps(After(InitialDevice(), front).value, es[|es| - 1]);
    }
  }

  /** Notification `i` of a subscription is under way, once. */
  predicate IsUnderWay(d: Device, sid: nat, i: nat) {
    exists n <- Out(d) :: n.sid == sid && n.index == i && Out(d)[n] == 1
  }

  /** Over every interleaving, the jobs under way for a subscription on the list carry exactly the keys from
      `ToSendEventKey` up to `eventKey`, each once and all different. */
  lemma KeysAreExact(d: Device, es: seq<Event>, s: Sub)
    requires After(InitialDevice(), es) == Some(d) && s in d.subs
    ensures s.sid in d.issued && s.sid in d.ended
    ensures var first, last := d.ended[s.sid], |d.issued[s.sid]|;
      && s.toSend == Key(first) && s.eventKey == Key(last) && first <= last
      && (forall i, j :: first <= i < j <= last ==> Key(i) != Key(j))
      && (forall i :: first <= i < last ==> IsUnderWay(d, s.sid, i))
      && forall n <- Out(d) :: n.sid == s.sid ==> first <= n.index < last && n.key == Key(n.index)
  {
    hide Out, Key, LogOk, NoteOk;
    RunKeeps(es);
    assert SubOk(s, d.issued, d.ended, Out(d));
    var notes, first, last := d.issued[s.sid], d.ended[s.sid], |d.issued[s.sid]|;
    assert IsNumbered(notes, s.sid);
    WindowFits(notes, s.sid, first, Out(d));
    OutFits(d);
    forall i, j | first <= i < j <= last
      ensures Key(i) != Key(j)
    {
      KeysDiffer(i, j);
    }
    forall i | first <= i < last
      ensures IsUnderWay(d, s.sid, i)
    {
      assert Out(d)[notes[i]] == 1;
    }
    forall n <- Out(d) | n.sid == s.sid
      ensures first <= n.index < last && n.key == Key(n.index)
    {
      NoteFacts(d, n);
    }
  }

  lemma NoteFacts(d: Device, n: Note)
    requires Inv(d) && n in Out(d)
    ensures n.sid in d.issued && n.sid in d.ended && d.ended[n.sid] <= n.index < |d.issued[n.sid]|
    ensures n.key == Key(n.index)
  {
    assert NoteOk(n, d.issued, d.ended);
    assert IsNumbered(d.issued[n.sid], n.sid);
  }

  /** Over every interleaving, the notifications of a subscription are sent one at a time, in order, without gap
      or repetition: number k + 1 is not begun before the exchange of number k is over. */
  lemma SentInTurn(d: Device, es: seq<Event>, sid: nat)
    requires After(InitialDevice(), es) == Some(d) && sid in d.issued
    ensures exists n: nat :: Of(d.log, sid) == InTurn(sid, n) || Of(d.log, sid) == InTurn(sid, n) + [Start(sid, n)]
  {
    RunKeeps(es);
    assert LogIs(d.sending, d.ended, d.log, sid);
    assert InTurn(sid, d.ended[sid]) + [] == InTurn(sid, d.ended[sid]);
  }
}