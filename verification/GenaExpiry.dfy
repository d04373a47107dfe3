/** How long a subscription stays on the list of the device, and that only subscriptions whose time has not run out are
    notified. The comparison with the time is written out here. */
module GenaExpiry {
  import opened Options
  import opened GenaDevice
  import K = GenaKeys
  import F = GenaFanOut

  predicate HasRunOut(expireTime: int, now: int) {
    expireTime != 0 && expireTime < now
  }

  predicate IsListed(d: Device, sid: nat) {
    exists k :: 0 <= k < |d.subs| && d.subs[k].sid == sid
  }

  /** The event ends the subscription: it is cancelled, refused by its control point, or the device goes. */
  predicate Ends(e: Event, sid: nat) {
    e == DoUnsubscribe(sid) || e.DoUnregister? || (e.DoFinish? && e.note.sid == sid && e.refused)
  }

  /** Which reading of the time `genaNotifyAll` uses for the subscription at `k`, if it uses number `r` for the first one: it
      reads the time again after each notification. */
  function Reading(subs: seq<Sub>, k: nat, clock: Clock, r: nat): nat
    requires k < |subs|
  {
    if k == 0 then r
    else Reading(subs[1..], k - 1, clock, if subs[0].active && !HasRunOut(subs[0].expireTime, clock(r)) then r + 1 else r)
  }

  /** The event looks the subscription at `k` up, and its time has run out by then. */
  predicate RunsOut(d: Device, e: Event, k: nat)
    requires k < |d.subs|
  {
    var s := d.subs[k];
    match e
    case DoInitNotify(sid, _, now) => sid == s.sid && HasRunOut(s.expireTime, now)
    case DoBegin(n, now) => n.sid == s.sid && HasRunOut(s.expireTime, now)
    case DoFinish(n, _, now) => n.sid == s.sid && HasRunOut(s.expireTime, now)
    case DoNotifyAll(clock) => HasRunOut(s.expireTime, clock(Reading(d.subs, k, clock, 0)))
    case _ => false
  }

  // ---- Events ----

  /** `s` is on the list, as far as its SID and its time are concerned. */
  predicate Has(subs: seq<Sub>, s: Sub) {
    exists j :: 0 <= j < |subs| && subs[j].sid == s.sid && subs[j].expireTime == s.expireTime
  }

  predicate HasSid(subs: seq<Sub>, sid: nat) {
    exists j :: 0 <= j < |subs| && subs[j].sid == sid
  }

  /** From list `a` to list `b` the subscription `s` stays if `stays` says so, and else it goes. */
  predicate Keeps(b: seq<Sub>, s: Sub, stays: bool) {
    if stays then Has(b, s) else !HasSid(b, s.sid)
  }

  lemma Same(a: seq<Sub>, k: nat, b: seq<Sub>)
    requires k < |a| && |a| == |b|
    requires forall i :: 0 <= i < |a| ==> a[i].sid == b[i].sid && a[i].expireTime == b[i].expireTime
    ensures Keeps(b, a[k], true)
  {
    assert b[k].sid == a[k].sid;
  }

  lemma InHas(subs: seq<Sub>, s: Sub)
    requires s in subs
    ensures Has(subs, s)
  {
  }

  lemma RemoveSidKeeps(subs: seq<Sub>, k: nat, sid: nat)
    requires k < |subs| && K.DistinctSids(subs)
    ensures Keeps(RemoveSid(subs, sid), subs[k], subs[k].sid != sid)
  {
    hide K.DistinctSids, RemoveSid;
    K.RemoveSidKeeps(subs, sid);
    if subs[k].sid != sid {
      InRemoved(subs, k, sid);
      InHas(RemoveSid(subs, sid), subs[k]);
    }
  }

  lemma {:induction false} InRemoved(subs: seq<Sub>, k: nat, sid: nat)
    requires k < |subs| && subs[k].sid != sid
    ensures subs[k] in RemoveSid(subs, sid)
  {
    if subs[0].sid == sid {
      assert subs[1..][k - 1] == subs[k];
    } else {
      assert RemoveSid(subs, sid) == [subs[0]] + RemoveSid(subs[1..], sid);
      if k > 0 {
        InRemoved(subs[1..], k - 1, sid);
      }
    }
  }

  lemma GetSubKeeps(subs: seq<Sub>, k: nat, sid: nat, now: int)
    requires k < |subs| && K.DistinctSids(subs)
    ensures var f := GetSub(subs, sid, now);
      && Keeps(f.subs, subs[k], !(subs[k].sid == sid && HasRunOut(subs[k].expireTime, now)))
      && (f.at.Some? ==> f.subs == subs && f.at.value < |subs| && subs[f.at.value].sid == sid
                         && !HasRunOut(subs[f.at.value].expireTime, now))
      && (f.at.None? ==> !HasSid(f.subs, sid))
      && (subs[k].sid == sid && !HasRunOut(subs[k].expireTime, now) ==> f.at == Some(k))
  {
    FindSubFirst(subs, sid);
    var i := FindSub(subs, sid);
    if i < |subs| {
      var rest := RemoveAt(subs, i);
      if k < i {
        assert rest[k] == subs[k];
      } else if k > i {
        assert rest[k - 1] == subs[k];
      }
    }
  }

  lemma StillDistinct(subs: seq<Sub>, sid: nat, now: int)
    requires K.DistinctSids(subs)
    ensures K.DistinctSids(GetSub(subs, sid, now).subs)
  {
    K.GetSubKeeps(subs, sid, now);
  }

  lemma InitNotifyKeeps(d: Device, k: nat, sid: nat, hasVars: bool, now: int)
    requires k < |d.subs| && K.DistinctSids(d.subs)
    ensures var s := d.subs[k];
      Keeps(InitNotify(d, sid, hasVars, now).device.subs, s, !(s.sid == sid && HasRunOut(s.expireTime, now)))
  {
    hide GetSub, FindSub, K.DistinctSids;
    GetSubKeeps(d.subs, k, sid, now);
    var t := InitNotify(d, sid, hasVars, now).device;
    if GetSub(d.subs, sid, now).at.Some? {
      Same(d.subs, k, t.subs);
    }
  }

  lemma BeginKeeps(d: Device, k: nat, n: Note, now: int)
    requires k < |d.subs| && K.DistinctSids(d.subs)
    ensures var s := d.subs[k]; Keeps(Begin(d, n, now).subs, s, !(s.sid == n.sid && HasRunOut(s.expireTime, now)))
  {
    hide GetSub, FindSub, K.DistinctSids;
    GetSubKeeps(d.subs, k, n.sid, now);
  }

  lemma FinishKeeps(d: Device, k: nat, n: Note, refused: bool, now: int)
    requires k < |d.subs| && K.DistinctSids(d.subs)
    ensures var s := d.subs[k];
      Keeps(Finish(d, n, refused, now).subs, s, !(s.sid == n.sid && (refused || HasRunOut(s.expireTime, now))))
  {
    hide GetSub, FindSub, RemoveSid, Release, Keeps;
    GetSubKeeps(d.subs, k, n.sid, now);
    var f := GetSub(d.subs, n.sid, now);
    K.ReleaseOnly(d, n.buffer);
    FinishedSubs(d, n, refused, now);
    if f.at.Some? {
      var i := f.at.value;
      var subs := d.subs[i := d.subs[i].(toSend := NextKey(d.subs[i].toSend))];
      if refused {
        RemoveSidKeeps(subs, k, n.sid);
        KeepsSame(d.subs[k], subs[k], RemoveSid(subs, n.sid), subs[k].sid != n.sid);
        NotRunOut(d.subs, k, n.sid, now);
      } else {
        Same(d.subs, k, subs);
      }
    }
  }

  lemma FinishedSubs(d: Device, n: Note, refused: bool, now: int)
    ensures var f, t := GetSub(d.subs, n.sid, now), Finish(d, n, refused, now);
      match f.at
      case None => t.subs == f.subs
      case Some(i) =>
        i < |f.subs| &&
        var subs := f.subs[i := f.subs[i].(toSend := NextKey(f.subs[i].toSend))];
        t.subs == if refused then RemoveSid(subs, n.sid) else subs
  {
    hide FindSub;
    FindSubFirst(d.subs, n.sid);
  }

  lemma KeepsSame(s: Sub, s': Sub, subs: seq<Sub>, stays: bool)
    requires s.sid == s'.sid && s.expireTime == s'.expireTime && Keeps(subs, s', stays)
    ensures Keeps(subs, s, stays)
  {
  }

  lemma NotRunOut(subs: seq<Sub>, k: nat, sid: nat, now: int)
    requires k < |subs| && K.DistinctSids(subs) && GetSub(subs, sid, now).at.Some?
    ensures subs[k].sid == sid ==> !HasRunOut(subs[k].expireTime, now)
  {
    hide GetSub;
    GetSubKeeps(subs, k, sid, now);
  }

  /** The loop of `genaNotifyAll` */
  lemma {:induction false} AdvancedKeeps(subs: seq<Sub>, k: nat, clock: Clock, r: nat)
    requires k < |subs| && K.DistinctSids(subs)
    ensures Keeps(F.Advanced(subs, clock, r), subs[k], !HasRunOut(subs[k].expireTime, clock(Reading(subs, k, clock, r))))
  {
    var s := subs[0];
    var r' := if s.active && !HasRunOut(s.expireTime, clock(r)) then r + 1 else r;
    var rest := F.Advanced(subs[1..], clock, r');
    if k > 0 {
      AdvancedKeeps(subs[1..], k - 1, clock, r');
    } else {
      AdvancedIsSublist(subs[1..], s.sid, clock, r');
    }
    var t := F.Advanced(subs, clock, r);
    if !HasRunOut(s.expireTime, clock(r)) {
      assert t[1..] == rest && t[0].sid == s.sid && t[0].expireTime == s.expireTime;
      Behind(t, subs[k]);
    }
  }

  lemma Behind(subs: seq<Sub>, s: Sub)
    requires subs != []
    ensures Has(subs[1..], s) ==> Has(subs, s)
    ensures HasSid(subs, s.sid) <==> subs[0].sid == s.sid || HasSid(subs[1..], s.sid)
  {
    if Has(subs[1..], s) {
      var j :| 0 <= j < |subs[1..]| && subs[1..][j].sid == s.sid && subs[1..][j].expireTime == s.expireTime;
      assert subs[j + 1] == subs[1..][j];
    }
    if HasSid(subs[1..], s.sid) {
      var j :| 0 <= j < |subs[1..]| && subs[1..][j].sid == s.sid;
      assert subs[j + 1] == subs[1..][j];
    }
    if HasSid(subs, s.sid) && subs[0].sid != s.sid {
      var j :| 0 <= j < |subs| && subs[j].sid == s.sid;
      assert subs[1..][j - 1] == subs[j];
    }
  }

  lemma {:induction false} AdvancedIsSublist(subs: seq<Sub>, sid: nat, clock: Clock, r: nat)
    requires forall i :: 0 <= i < |subs| ==> subs[i].sid != sid
    ensures !HasSid(F.Advanced(subs, clock, r), sid)
  {
    if subs != [] {
      AdvancedIsSublist(subs[1..], sid, clock, r);
      AdvancedIsSublist(subs[1..], sid, clock, r + 1);
      var t := F.Advanced(subs, clock, r);
      if t != [] {
        Behind(t, subs[0].(sid := sid));
      }
    }
  }

  lemma NotifyAllKeeps(d: Device, k: nat, clock: Clock)
    requires k < |d.subs| && K.DistinctSids(d.subs)
    ensures Keeps(NotifyAll(d, clock).subs, d.subs[k], !RunsOut(d, DoNotifyAll(clock), k))
  {
    hide NotifyAll, F.Advanced, K.DistinctSids, Reading;
    F.NotifyAllReachesAll(d, clock);
    AdvancedKeeps(d.subs, k, clock, 0);
  }

  lemma UnregisterKeeps(d: Device, k: nat)
    requires k < |d.subs|
    ensures Keeps(Unregister(d).subs, d.subs[k], false)
  {
  }

  lemma SubscribeKeeps(d: Device, k: nat, sid: nat, expireTime: int)
    requires k < |d.subs|
    ensures Keeps(Subscribe(d, sid, expireTime).subs, d.subs[k], true)
  {
    assert Subscribe(d, sid, expireTime).subs[k + 1] == d.subs[k];
  }

  /** Exactly when a subscription leaves the list */
  lemma EventKeeps(d: Device, e: Event, k: nat)
    requires K.Inv(d) && Enabled(d, e) && k < |d.subs|
    ensures var s := d.subs[k]; Keeps(Apply(d, e).subs, s, !(Ends(e, s.sid) || RunsOut(d, e, k)))
  {
    hide Keeps, InitNotify, NotifyAll, Begin, Finish, FreeQueued, Reading, HasRunOut, K.DistinctSids, K.SubOk, K.NotesOk,
         K.LogOk, K.IssuedOk, RemoveSid, Unregister, Subscribe;
    match e
    case DoSubscribe(sid, expireTime) => SubscribeKeeps(d, k, sid, expireTime);
    case DoInitNotify(sid, hasVars, now) => InitNotifyKeeps(d, k, sid, hasVars, now);
    case DoNotifyAll(clock) => NotifyAllKeeps(d, k, clock);
    case DoTake(i) => Same(d.subs, k, d.subs);
    case DoBegin(n, now) => BeginKeeps(d, k, n, now);
    case DoFinish(n, refused, now) => FinishKeeps(d, k, n, refused, now);
    case DoUnsubscribe(sid) => RemoveSidKeeps(d.subs, k, sid);
    case DoUnregister => UnregisterKeeps(d, k);
    case _ =>
  }

  // ---- A SID does not come back ----

  predicate IsGone(d: Device, sid: nat) {
    sid in d.issued && !HasSid(d.subs, sid)
  }

  lemma FewerGone(a: seq<Sub>, b: seq<Sub>, sid: nat)
    requires K.IsSublist(b, a) && !HasSid(a, sid)
    ensures !HasSid(b, sid)
  {
  }

  lemma SameSids(a: seq<Sub>, b: seq<Sub>, sid: nat)
    requires |a| == |b| && (forall i :: 0 <= i < |a| ==> a[i].sid == b[i].sid) && !HasSid(a, sid)
    ensures !HasSid(b, sid)
  {
  }

  lemma InitNotifyGone(d: Device, sid: nat, to: nat, hasVars: bool, now: int)
    requires K.DistinctSids(d.subs) && IsGone(d, sid)
    ensures IsGone(InitNotify(d, to, hasVars, now).device, sid)
  {
    hide GetSub, FindSub, K.DistinctSids, HasSid;
    K.GetSubKeeps(d.subs, to, now);
    var f := GetSub(d.subs, to, now);
    FewerGone(d.subs, f.subs, sid);
    SameSids(f.subs, InitNotify(d, to, hasVars, now).device.subs, sid);
  }

  lemma BeginGone(d: Device, sid: nat, n: Note, now: int)
    requires K.DistinctSids(d.subs) && IsGone(d, sid)
    ensures IsGone(Begin(d, n, now), sid)
  {
    hide GetSub, FindSub, K.DistinctSids, HasSid;
    K.GetSubKeeps(d.subs, n.sid, now);
    FewerGone(d.subs, GetSub(d.subs, n.sid, now).subs, sid);
  }

  lemma FinishGone(d: Device, sid: nat, n: Note, refused: bool, now: int)
    requires K.DistinctSids(d.subs) && IsGone(d, sid)
    ensures IsGone(Finish(d, n, refused, now), sid)
  {
    hide GetSub, FindSub, K.DistinctSids, HasSid, RemoveSid;
    K.GetSubKeeps(d.subs, n.sid, now);
    var f := GetSub(d.subs, n.sid, now);
    FewerGone(d.subs, f.subs, sid);
    FinishedSubs(d, n, refused, now);
    FinishedIssued(d, n, refused, now);
    if f.at.Some? {
      var subs := f.subs[f.at.value := f.subs[f.at.value].(toSend := NextKey(f.subs[f.at.value].toSend))];
      SameSids(f.subs, subs, sid);
      DistinctToo(f.subs, subs);
      K.RemoveSidKeeps(subs, n.sid);
      FewerGone(subs, RemoveSid(subs, n.sid), sid);
    }
  }

  lemma DistinctToo(a: seq<Sub>, b: seq<Sub>)
    requires K.DistinctSids(a) && |a| == |b| && forall i :: 0 <= i < |a| ==> a[i].sid == b[i].sid
    ensures K.DistinctSids(b)
  {
  }

  lemma FinishedIssued(d: Device, n: Note, refused: bool, now: int)
    ensures Finish(d, n, refused, now).issued == d.issued
  {
    hide FindSub, RemoveSid;
    FindSubFirst(d.subs, n.sid);
  }

  lemma {:induction false} LoopIssues(d: Device, i: nat, b: nat, clock: Clock, r: nat)
    requires i <= |d.subs|
    ensures d.issued.Keys <= NotifyFrom(d, i, b, clock, r).issued.Keys
    decreases |d.subs| - i
  {
    if i < |d.subs| {
      if IsExpired(d.subs[i], clock(r)) {
        LoopIssues(d.(subs := RemoveAt(d.subs, i)), i, b, clock, r);
      } else if d.subs[i].active {
        LoopIssues(Issue(d, i, b, NextKey(d.subs[i].eventKey)), i + 1, b, clock, r + 1);
      } else {
        LoopIssues(d, i + 1, b, clock, r);
      }
    }
  }

  lemma NotifyAllGone(d: Device, sid: nat, clock: Clock)
    requires K.DistinctSids(d.subs) && IsGone(d, sid)
    ensures IsGone(NotifyAll(d, clock), sid)
  {
    hide NotifyFrom, F.Advanced, F.NotesFor, K.DistinctSids, RefsOf;
    F.NotifyAllReachesAll(d, clock);
    AdvancedIsSublist(d.subs, sid, clock, 0);
    LoopIssues(d.(refs := d.refs[d.nextBuffer := 0], nextBuffer := d.nextBuffer + 1), 0, d.nextBuffer, clock, 0);
  }

  lemma {:induction false} FreeQueuedOnly(d: Device)
    ensures FreeQueued(d).subs == d.subs && FreeQueued(d).issued == d.issued
    decreases |d.queue|
  {
    if d.queue != [] {
      FreeQueuedOnly(Release(d.(queue := d.queue[1..]), d.queue[0].buffer));
    }
  }

  lemma SubscribeGone(d: Device, sid: nat, other: nat, expireTime: int)
    requires IsGone(d, sid) && other !in d.issued
    ensures IsGone(Subscribe(d, other, expireTime), sid)
  {
    var subs := Subscribe(d, other, expireTime).subs;
    assert subs[1..] == d.subs;
    Behind(subs, Sub(sid, 0, 0, 0, false));
  }

  lemma EventKeepsGone(d: Device, e: Event, sid: nat)
    requires K.Inv(d) && Enabled(d, e) && IsGone(d, sid)
    ensures IsGone(Apply(d, e), sid)
  {
    hide InitNotify, NotifyAll, Begin, Finish, FreeQueued, K.DistinctSids, K.SubOk, K.NotesOk, K.LogOk, K.IssuedOk,
         RemoveSid, HasSid, Subscribe;
    match e
    case DoSubscribe(other, expireTime) => SubscribeGone(d, sid, other, expireTime);
    case DoInitNotify(to, hasVars, now) => InitNotifyGone(d, sid, to, hasVars, now);
    case DoNotifyAll(clock) => NotifyAllGone(d, sid, clock);
    case DoTake(i) =>
    case DoBegin(n, now) => BeginGone(d, sid, n, now);
    case DoFinish(n, refused, now) => FinishGone(d, sid, n, refused, now);
    case DoUnsubscribe(to) =>
      K.RemoveSidKeeps(d.subs, to);
      FewerGone(d.subs, RemoveSid(d.subs, to), sid);
    case DoUnregister => NoneListed(sid);
    case DoFreeQueued => FreeQueuedOnly(d);
  }

  lemma NoneListed(sid: nat)
    ensures !HasSid([], sid)
  {
  }

  // ---- Runs ----

  /** In state `d`, event `e` takes the subscription off the list: it ends it, or finds that its time has run out. */
  ghost predicate TakesOff(d: Device, e: Event, sid: nat) {
    exists k :: 0 <= k < |d.subs| && d.subs[k].sid == sid && (Ends(e, sid) || RunsOut(d, e, k))
  }

  /** It happens somewhere in the run. */
  ghost predicate TakenOff(d: Device, es: seq<Event>, sid: nat)
    requires After(d, es).Some?
  {
    es != [] &&
    var front := es[..|es| - 1];
    TakenOff(d, front, sid) || TakesOff(After(d, front).value, es[|es| - 1], sid)
  }

  lemma {:induction false} RunKeeps(d: Device, es: seq<Event>)
    requires K.Inv(d) && After(d, es).Some?
    ensures K.Inv(After(d, es).value)
  {
    hide Apply, Enabled, K.Inv;
    if es != [] {
      var front := es[..|es| - 1];
      RunKeeps(d, front);
      K.EventKeeps(After(d, front).value, es[|es| - 1]);
    }
  }

  lemma WasIssued(d: Device, k: nat)
    requires K.Inv(d) && k < |d.subs|
    ensures d.subs[k].sid in d.issued
  {
    assert K.SubOk(d.subs[k], d.issued, d.ended, Out(d));
  }

  lemma AppliedIssued(d: Device, e: Event, s: Sub)
    requires K.Inv(d) && Enabled(d, e) && s.sid in d.issued
    ensures s.sid in Apply(d, e).issued
  {
    hide NotifyFrom, GetSub, FindSub, RemoveSid, K.Inv, FreeQueued, Finish;
    match e
    case DoNotifyAll(clock) =>
      LoopIssues(d.(refs := d.refs[d.nextBuffer := 0], nextBuffer := d.nextBuffer + 1), 0, d.nextBuffer, clock, 0);
    case DoFinish(n, refused, now) => FinishedIssued(d, n, refused, now);
    case DoFreeQueued => FreeQueuedOnly(d);
    case DoInitNotify(to, _, now) => FindSubFirst(d.subs, to);
    case _ =>
  }

  lemma StaysHas(u: Device, t: Device, j: nat, s: Sub)
    requires j < |u.subs| && u.subs[j].sid == s.sid && u.subs[j].expireTime == s.expireTime
    ensures Has(t.subs, u.subs[j]) ==> Has(t.subs, s)
  {
  }

  lemma OneTakesOff(u: Device, e: Event, j: nat)
    requires K.Inv(u) && j < |u.subs|
    ensures TakesOff(u, e, u.subs[j].sid) <==> Ends(e, u.subs[j].sid) || RunsOut(u, e, j)
  {
    hide K.NotesOk, K.LogOk, K.IssuedOk, K.SubOk, RunsOut, Ends;
  }

  lemma StepIff(u: Device, e: Event, s: Sub)
    requires K.Inv(u) && Enabled(u, e) && Has(u.subs, s)
    ensures if TakesOff(u, e, s.sid) then IsGone(Apply(u, e), s.sid) else Has(Apply(u, e).subs, s)
  {
    hide Apply, Enabled, K.Inv, TakesOff, RunsOut, Ends;
    var j :| 0 <= j < |u.subs| && u.subs[j].sid == s.sid && u.subs[j].expireTime == s.expireTime;
    EventKeeps(u, e, j);
    OneTakesOff(u, e, j);
    WasIssued(u, j);
    AppliedIssued(u, e, s);
    StaysHas(u, Apply(u, e), j, s);
  }

  lemma {:induction false} ListedFrom(d: Device, es: seq<Event>, s: Sub)
    requires K.Inv(d) && Has(d.subs, s) && After(d, es).Some?
    ensures var t := After(d, es).value; if TakenOff(d, es, s.sid) then IsGone(t, s.sid) else Has(t.subs, s)
  {
    hide Apply, Enabled, K.Inv, TakesOff, Has, IsGone;
    if es != [] {
      var front, e := es[..|es| - 1], es[|es| - 1];
      ListedFrom(d, front, s);
      RunKeeps(d, front);
      if TakenOff(d, front, s.sid) {
        EventKeepsGone(After(d, front).value, e, s.sid);
      } else {
        StepIff(After(d, front).value, e, s);
      }
    }
  }

  // ---- Main results ----

  /** Over every run: a subscription on the list is off it later, for good, if and only if in between it was cancelled,
      refused or its device unregistered, or it was looked up at a time after its `expireTime`, which is not 0. */
  lemma ListedIff(d: Device, past: seq<Event>, s: Sub, es: seq<Event>, t: Device)
    requires After(InitialDevice(), past) == Some(d) && s in d.subs && After(d, es) == Some(t)
    ensures IsListed(t, s.sid) <==> !TakenOff(d, es, s.sid)
    ensures IsListed(t, s.sid) ==> Has(t.subs, s)
  {
    hide After, TakenOff, K.Inv;
    K.RunKeeps(past);
    InHas(d.subs, s);
    ListedFrom(d, es, s);
  }

  /** No reading of the time in the event is after `expireTime`. */
  ghost predicate ReadsUpTo(e: Event, expireTime: int) {
    match e
    case DoInitNotify(_, _, now) => now <= expireTime
    case DoBegin(_, now) => now <= expireTime
    case DoFinish(_, _, now) => now <= expireTime
    case DoNotifyAll(clock) => forall r: nat :: clock(r) <= expireTime
    case _ => true
  }

  lemma {:induction false} NotTakenOff(d: Device, es: seq<Event>, sid: nat, expireTime: int)
    requires K.Inv(d) && After(d, es).Some?
    requires exists j :: 0 <= j < |d.subs| && d.subs[j].sid == sid && d.subs[j].expireTime == expireTime
    requires forall i :: 0 <= i < |es| ==> !Ends(es[i], sid) && (expireTime == 0 || ReadsUpTo(es[i], expireTime))
    ensures !TakenOff(d, es, sid)
  {
    hide Apply, Enabled, K.Inv, Ends, ReadsUpTo, TakesOff;
    if es != [] {
      var front, e := es[..|es| - 1], es[|es| - 1];
      NotTakenOff(d, front, sid, expireTime);
      var s := Sub(sid, 0, 0, expireTime, false);
      ListedFrom(d, front, s);
      RunKeeps(d, front);
      NotNow(After(d, front).value, e, s);
    }
  }

  lemma NotNow(u: Device, e: Event, s: Sub)
    requires K.Inv(u) && Has(u.subs, s) && !Ends(e, s.sid) && (s.expireTime == 0 || ReadsUpTo(e, s.expireTime))
    ensures !TakesOff(u, e, s.sid)
  {
    hide K.Inv, TakesOff, Reading;
    var j :| 0 <= j < |u.subs| && u.subs[j].sid == s.sid && u.subs[j].expireTime == s.expireTime;
    OneTakesOff(u, e, j);
  }

  /** So one that nobody cancels or refuses stays as long as the time has not run out at any reading, and one without a
      time for ever. */
  lemma StaysInTime(d: Device, past: seq<Event>, s: Sub, es: seq<Event>, t: Device)
    requires After(InitialDevice(), past) == Some(d) && s in d.subs && After(d, es) == Some(t)
    requires forall i :: 0 <= i < |es| ==> !Ends(es[i], s.sid) && (s.expireTime == 0 || ReadsUpTo(es[i], s.expireTime))
    ensures Has(t.subs, s)
  {
    hide After, TakenOff, K.Inv, Ends, ReadsUpTo;
    K.RunKeeps(past);
    NotTakenOff(d, es, s.sid, s.expireTime);
    ListedIff(d, past, s, es, t);
  }

  /** The subscription at `k` is the one with the SID, and its time has not run out. */
  predicate IsGoodAt(d: Device, k: nat, sid: nat, now: int) {
    && k < |d.subs| && d.subs[k].sid == sid
    && (d.subs[k].expireTime == 0 || now <= d.subs[k].expireTime)
  }

  lemma FindsGood(d: Device, sid: nat, now: int)
    requires K.Inv(d)
    ensures var f := GetSub(d.subs, sid, now);
      match f.at
      case Some(k) => f.subs == d.subs && IsGoodAt(d, k, sid, now) && forall j: nat :: IsGoodAt(d, j, sid, now) ==> j == k
      case None => forall j: nat :: !IsGoodAt(d, j, sid, now)
  {
    hide GetSub, K.NotesOk, K.LogOk, K.IssuedOk, K.SubOk;
    forall j | 0 <= j < |d.subs|
      ensures IsGoodAt(d, j, sid, now) ==> GetSub(d.subs, sid, now).at == Some(j)
    {
      GetSubKeeps(d.subs, j, sid, now);
    }
    if GetSub(d.subs, sid, now).at.Some? {
      K.GetSubKeeps(d.subs, sid, now);
      GetSubKeeps(d.subs, GetSub(d.subs, sid, now).at.value, sid, now);
    }
  }

  /** The job has left the worker for an exchange, for the queue of the pool, or for good. */
  predicate IsSent(d: Device, t: Device, n: Note) {
    t.holding == d.holding - multiset{n} && t.queue == d.queue && t.sending == d.sending + multiset{n}
  }

  predicate IsPutBack(d: Device, t: Device, n: Note) {
    t.holding == d.holding - multiset{n} && t.queue == d.queue + [n] && t.sending == d.sending
  }

  predicate IsDropped(d: Device, t: Device, n: Note) {
    t.holding == d.holding - multiset{n} && t.queue == d.queue && t.sending == d.sending
  }

  lemma BeginCases(d: Device, n: Note, now: int)
    ensures var f, t := GetSub(d.subs, n.sid, now), Begin(d, n, now);
      match f.at
      case None => IsDropped(d, t, n)
      case Some(k) => k < |f.subs| && if n.key == f.subs[k].toSend then IsSent(d, t, n) else IsPutBack(d, t, n)
  {
    hide FindSub;
    FindSubFirst(d.subs, n.sid);
  }

  /** A notification is sent if its subscription is there, in time, and it is its turn by the keys; it is put back if it is
      not its turn, and dropped if there is no such subscription. */
  lemma SendsInTime(d: Device, past: seq<Event>, n: Note, now: int)
    requires After(InitialDevice(), past) == Some(d)
    ensures var t := Begin(d, n, now);
      && (forall k: nat :: IsGoodAt(d, k, n.sid, now) ==>
            if d.subs[k].toSend == n.key then IsSent(d, t, n) else IsPutBack(d, t, n))
      && ((forall k: nat :: !IsGoodAt(d, k, n.sid, now)) ==> IsDropped(d, t, n))
  {
    hide GetSub, K.Inv, IsSent, IsPutBack, IsDropped, Begin, After;
    K.RunKeeps(past);
    FindsGood(d, n.sid, now);
    BeginCases(d, n, now);
  }

  /** The subscription at `k` has become active and, with variables to send, been issued a notification with its key. */
  predicate IsNotified(d: Device, t: Device, k: nat, hasVars: bool) {
    && k < |d.subs| == |t.subs|
    && t.subs[k] == d.subs[k].(active := true, eventKey := if hasVars then d.subs[k].eventKey + 1 else d.subs[k].eventKey)
    && (forall j :: 0 <= j < |d.subs| && j != k ==> t.subs[j] == d.subs[j])
    && if hasVars then
         && |t.queue| == |d.queue| + 1 && t.queue[..|d.queue|] == d.queue
         && t.queue[|d.queue|].sid == d.subs[k].sid && t.queue[|d.queue|].key == d.subs[k].eventKey
       else t.queue == d.queue
  }

  lemma InitNotifyCases(d: Device, sid: nat, hasVars: bool, now: int)
    ensures var f, r := GetSub(d.subs, sid, now), InitNotify(d, sid, hasVars, now);
      match f.at
      case None => r.status == BAD_SID && r.device.queue == d.queue
      case Some(k) =>
        k < |f.subs| && if f.subs[k].active then r.status == BAD_SID && r.device.queue == d.queue
                        else r.status == SUCCESS && IsNotified(d.(subs := f.subs), r.device, k, hasVars)
  {
    hide FindSub;
    FindSubFirst(d.subs, sid);
  }

  /** `genaInitNotify` succeeds exactly if the subscription is there, in time, and not active yet. */
  lemma InitNotifiesInTime(d: Device, past: seq<Event>, sid: nat, hasVars: bool, now: int)
    requires After(InitialDevice(), past) == Some(d)
    ensures var r := InitNotify(d, sid, hasVars, now);
      && (forall k: nat :: IsGoodAt(d, k, sid, now) && !d.subs[k].active ==>
            r.status == SUCCESS && IsNotified(d, r.device, k, hasVars))
      && ((forall k: nat :: IsGoodAt(d, k, sid, now) ==> d.subs[k].active) ==> r.status == BAD_SID && r.device.queue == d.queue)
  {
    hide GetSub, K.Inv, InitNotify, After, IsNotified;
    K.RunKeeps(past);
    FindsGood(d, sid, now);
    InitNotifyCases(d, sid, hasVars, now);
    assert d.(subs := d.subs) == d;
  }
}
