/** A device and a control point together: gena_device.c on one side and gena_ctrlpt.c on the other. The control
    point closes the race between the answer to SUBSCRIBE and the first NOTIFY with `SubscribeLock`. */
module GenaEndToEnd {
  import opened Options
  import opened GenaDevice
  import K = GenaKeys

  datatype Code = OK200 | PRECONDITION_FAILED412

  /** `genaSubscribe`, which holds `SubscribeLock` from `Requesting` to `Leaving`: the request is under way, the
      device has accepted it and answered, or the subscription is on the list or given up. */
  datatype Subscriber = Idle | Requesting | Answered(sid: nat) | Leaving

  /** `gena_process_notification_event`: before it looks for the subscription, in the wait for `SubscribeLock`,
      with that lock, or with its answer sent */
  datatype Stage = Arrived | Waiting | Locked | Done(code: Code)

  datatype Handler = Handler(sid: nat, index: nat, key: int, stage: Stage)

  datatype Lock = Free | BySubscriber | ByHandler(h: nat)

  /** `known` are the `ActualSID`s on `ClientSubList`. The rest is history: which SIDs the device gave to this
      control point, which of them `genaSubscribe` did not put on the list, which were taken off the list, for
      which a NOTIFY was lost or timed out, and for which that happened when they were not on the list. */
  datatype World = World(device: Device, handlers: seq<Handler>, lock: Lock, subscriber: Subscriber, known: set<nat>,
                         mine: set<nat>, abandoned: set<nat>, cancelled: set<nat>, lost: set<nat>, lostEarly: set<nat>)

  function InitialWorld(): World {
    World(InitialDevice(), [], Free, Idle, {}, {}, {}, {}, {}, {})
  }

  datatype Move =
    | OnDevice(e: Event)
    | BeginSubscribe
    | Accept(sid: nat, expireTime: int)
    | AcceptLate(sid: nat, expireTime: int)
    | Insert
    | Abandon
    | EndSubscribe
    | Cancel(sid: nat)
    | Arrive(sid: nat, index: nat)
    | Check(h: nat)
    | TakeLock(h: nat)
    | Recheck(h: nat)
    | Answer(note: Note, h: nat, now: int)
    | GiveUp(note: Note, now: int)

  predicate IsFor(k: Handler, sid: nat, index: nat) {
    k.sid == sid && k.index == index
  }

  /** When a move can happen. The device moves on its own, except that it accepts requests and ends exchanges of this
      control point together with it; an exchange ends with the answer of a handler, or without one. A NOTIFY can
      arrive at any time after the device has begun to send it. */
  predicate Can(w: World, m: Move) {
    match m
    case OnDevice(e) =>
      Enabled(w.device, e) && (e.DoFinish? ==> e.note.sid !in w.mine)
    case BeginSubscribe => w.lock == Free
    case Accept(sid, _) => w.subscriber == Requesting && sid !in w.device.issued
    case AcceptLate(sid, _) => sid !in w.device.issued
    case Insert => w.subscriber.Answered?
    case Abandon => w.subscriber.Answered? || w.subscriber.Requesting?
    case EndSubscribe => w.subscriber == Leaving
    case Cancel(_) => true
    case Arrive(sid, i) =>
      && sid in w.mine && sid in w.device.issued && i < |w.device.issued[sid]|
      && Start(sid, i) in w.device.log && forall k <- w.handlers :: !IsFor(k, sid, i)
    case Check(h) => h < |w.handlers| && w.handlers[h].stage == Arrived
    case TakeLock(h) => h < |w.handlers| && w.handlers[h].stage == Waiting && w.lock == Free
    case Recheck(h) => h < |w.handlers| && w.handlers[h].stage == Locked
    case Answer(n, h, _) =>
      n in w.device.sending && n.sid in w.mine
      && h < |w.handlers| && IsFor(w.handlers[h], n.sid, n.index) && w.handlers[h].stage.Done?
    case GiveUp(n, _) => n in w.device.sending && n.sid in w.mine
  }

  function SetStage(w: World, h: nat, stage: Stage): World
    requires h < |w.handlers|
  {
    w.(handlers := w.handlers[h := w.handlers[h].(stage := stage)])
  }

  function CodeFor(w: World, sid: nat): Code {
    if sid in w.known then OK200 else PRECONDITION_FAILED412
  }

  /** `gena_process_notification_event` when it looks for the subscription for the first time */
  function FirstLook(w: World, k: Handler): Stage {
    if k.sid in w.known then Done(OK200)
    else if k.key == 0 then Waiting
    else Done(PRECONDITION_FAILED412)
  }

  function Do(w: World, m: Move): World
    requires Can(w, m)
  {
    match m
    case OnDevice(e) => w.(device := Apply(w.device, e))
    case BeginSubscribe => w.(lock := BySubscriber, subscriber := Requesting)
    case Accept(sid, expireTime) =>
      w.(device := Subscribe(w.device, sid, expireTime), mine := w.mine + {sid}, subscriber := Answered(sid))
    case AcceptLate(sid, expireTime) =>
      w.(device := Subscribe(w.device, sid, expireTime), mine := w.mine + {sid}, abandoned := w.abandoned + {sid})
    case Insert => w.(known := w.known + {w.subscriber.sid}, subscriber := Leaving)
    case Abandon =>
      w.(abandoned := w.abandoned + (if w.subscriber.Answered? then {w.subscriber.sid} else {}), subscriber := Leaving)
    case EndSubscribe => w.(lock := Free, subscriber := Idle)
    case Cancel(sid) => w.(known := w.known - {sid}, cancelled := w.cancelled + {sid})
    case Arrive(sid, i) =>
      w.(handlers := w.handlers + [Handler(sid, i, w.device.issued[sid][i].key, Arrived)])
    case Check(h) => SetStage(w, h, FirstLook(w, w.handlers[h]))
    case TakeLock(h) => SetStage(w, h, Locked).(lock := ByHandler(h))
    case Recheck(h) => SetStage(w, h, Done(CodeFor(w, w.handlers[h].sid))).(lock := Free)
    case Answer(n, h, now) =>
      w.(device := Finish(w.device, n, w.handlers[h].stage.code == PRECONDITION_FAILED412, now))
    case GiveUp(n, now) =>
      w.(device := Finish(w.device, n, false, now), lost := w.lost + {n.sid},
         lostEarly := w.lostEarly + (if n.sid in w.known then {} else {n.sid}))
  }

  function After(w: World, ms: seq<Move>): Option<World> {
    if ms == [] then Some(w)
    else
      var t := After(w, ms[..|ms| - 1]);
      if t.Some? && Can(t.value, ms[|ms| - 1]) then Some(Do(t.value, ms[|ms| - 1])) else None
  }

  // ---- Invariant ----

  /** A subscription that `genaSubscribe` does not give up, that is not cancelled, and whose NOTIFYs are all
      answered in time */
  predicate IsGood(w: World, sid: nat) {
    sid in w.mine && sid !in w.abandoned && sid !in w.cancelled && sid !in w.lost
  }

  predicate LocksOk(w: World) {
    && (w.lock == BySubscriber <==> w.subscriber != Idle)
    && (forall h :: 0 <= h < |w.handlers| && w.handlers[h].stage == Locked ==> w.lock == ByHandler(h))
  }

  /** The handlers of one subscription, in the order in which its NOTIFYs arrived */
  function HandlersOf(handlers: seq<Handler>, sid: nat): seq<Handler> {
    if handlers == [] then []
    else
      var k := handlers[|handlers| - 1];
      HandlersOf(handlers[..|handlers| - 1], sid) + (if k.sid == sid then [k] else [])
  }

  /** The NOTIFYs of a good subscription are answered 200, one after the other, in key order from 0. */
  predicate InOrder(ks: seq<Handler>) {
    forall i :: 0 <= i < |ks| ==>
      && ks[i].index == i && ks[i].key == Key(i)
      && (ks[i].stage.Done? ==> ks[i].stage.code == OK200)
      && (i < |ks| - 1 ==> ks[i].stage.Done?)
  }

  /** How far a good subscription has got: all exchanges that are over had a handler, and only the one that is
      under way may have one more. After an answer the subscription is known. */
  predicate GoodOk(w: World, sid: nat) {
    var ks := HandlersOf(w.handlers, sid);
    && (sid in w.known || w.subscriber == Answered(sid))
    && sid in w.device.ended
    && w.device.ended[sid] <= |ks| <= w.device.ended[sid] + 1
    && (w.device.ended[sid] > 0 ==> sid in w.known && ks[w.device.ended[sid] - 1].stage.Done?)
    && ((exists k <- ks :: k.stage.Done?) ==> sid in w.known)
    && InOrder(ks)
  }

  predicate Inv(w: World) {
    && K.Inv(w.device) && LocksOk(w)
    && (forall sid <- w.mine :: sid in w.device.ended)
    && (forall k <- w.handlers :: k.sid in w.mine)
    && (w.subscriber.Answered? ==> w.subscriber.sid in w.mine)
    && forall sid <- w.mine :: IsGood(w, sid) ==> GoodOk(w, sid)
  }

  // ---- The device ----

  lemma {:induction false} NotifyFromSame(d: Device, i: nat, b: nat, clock: Clock, r: nat)
    requires i <= |d.subs|
    ensures var t := NotifyFrom(d, i, b, clock, r); t.ended == d.ended && t.log == d.log
    decreases |d.subs| - i
  {
    if i < |d.subs| {
      if IsExpired(d.subs[i], clock(r)) {
        NotifyFromSame(d.(subs := RemoveAt(d.subs, i)), i, b, clock, r);
      } else if d.subs[i].active {
        NotifyFromSame(Issue(d, i, b, NextKey(d.subs[i].eventKey)), i + 1, b, clock, r + 1);
      } else {
        NotifyFromSame(d, i + 1, b, clock, r);
      }
    }
  }

  lemma {:induction false} FreeQueuedSame(d: Device)
    ensures FreeQueued(d).ended == d.ended
    decreases |d.queue|
  {
    if d.queue != [] {
      FreeQueuedSame(Release(d.(queue := d.queue[1..]), d.queue[0].buffer));
    }
  }

  /** What the device does for others does not end an exchange of this control point. */
  lemma DeviceSame(d: Device, e: Event, sid: nat)
    requires K.Inv(d) && Enabled(d, e) && sid in d.ended && (e.DoFinish? ==> e.note.sid != sid)
    ensures var t := Apply(d, e); sid in t.ended && t.ended[sid] == d.ended[sid]
  {
    hide GetSub, FindSub, RemoveSid, NotifyFrom, FreeQueued, K.SubsOk, K.NotesOk, K.LogOk;
    match e
    case DoNotifyAll(clock) =>
      var b := d.nextBuffer;
      NotifyFromSame(d.(refs := d.refs[b := 0], nextBuffer := b + 1), 0, b, clock, 0);
    case DoFreeQueued => FreeQueuedSame(d);
    case DoFinish(n, _, _) => FindSubFirst(d.subs, n.sid);
    case _ =>
  }

  lemma FinishCounts(d: Device, n: Note, refused: bool, now: int)
    requires K.Inv(d) && n in d.sending
    ensures n.sid in d.ended && n.index == d.ended[n.sid]
    ensures Finish(d, n, refused, now).ended == d.ended[n.sid := d.ended[n.sid] + 1]
  {
    hide K.Inv, Finish;
    K.SendsNext(d, n);
    FinishAdds(d, n, refused, now);
  }

  lemma FinishAdds(d: Device, n: Note, refused: bool, now: int)
    requires n.sid in d.ended
    ensures Finish(d, n, refused, now).ended == d.ended[n.sid := d.ended[n.sid] + 1]
  {
    hide GetSub, FindSub, RemoveSid, RefsOf;
    FindSubFirst(d.subs, n.sid);
  }

  lemma {:induction false} InTurnBelow(sid: nat, n: nat, i: nat)
    requires Start(sid, i) in K.InTurn(sid, n)
    ensures i < n
  {
    if n > 0 && i != n - 1 {
      InTurnBelow(sid, n - 1, i);
    }
  }

  lemma {:induction false} InOf(log: seq<Entry>, e: Entry)
    requires e in log
    ensures e in K.Of(log, e.sid)
  {
    var n := |log| - 1;
    if e != log[n] {
      assert e in log[..n];
      InOf(log[..n], e);
    }
  }

  /** A NOTIFY that was begun is over, or it is the turn of the next one. */
  lemma StartedBelow(d: Device, sid: nat, i: nat)
    requires K.Inv(d) && sid in d.ended && Start(sid, i) in d.log
    ensures i <= d.ended[sid]
    ensures sid in d.issued && i < |d.issued[sid]| ==> d.issued[sid][i].key == Key(i)
  {
    hide K.SubsOk, K.NotesOk;
    InOf(d.log, Start(sid, i));
    assert K.LogIs(d.sending, d.ended, d.log, sid);
    if i != d.ended[sid] {
      assert Start(sid, i) in K.InTurn(sid, d.ended[sid]);
      InTurnBelow(sid, d.ended[sid], i);
    }
    assert sid in d.issued ==> K.IsNumbered(d.issued[sid], sid);
  }

  // ---- The handlers of one subscription ----

  lemma {:induction false} HandlersUpdate(handlers: seq<Handler>, h: nat, k: Handler, sid: nat) returns (j: nat)
    requires h < |handlers| && k.sid == handlers[h].sid
    ensures var ks := HandlersOf(handlers, sid);
      if k.sid == sid then j < |ks| && ks[j] == handlers[h] && HandlersOf(handlers[h := k], sid) == ks[j := k]
      else HandlersOf(handlers[h := k], sid) == ks
  {
    var n := |handlers| - 1;
    if h == n {
      assert handlers[h := k][..n] == handlers[..n];
      j := |HandlersOf(handlers[..n], sid)|;
    } else {
      assert handlers[h := k][..n] == handlers[..n][h := k];
      j := HandlersUpdate(handlers[..n], h, k, sid);
    }
  }

  lemma HandlersAppend(handlers: seq<Handler>, k: Handler, sid: nat)
    ensures HandlersOf(handlers + [k], sid) == HandlersOf(handlers, sid) + (if k.sid == sid then [k] else [])
  {
    assert (handlers + [k])[..|handlers|] == handlers;
  }

  lemma {:induction false} HandlersIn(handlers: seq<Handler>, sid: nat, k: Handler)
    requires k in HandlersOf(handlers, sid)
    ensures k in handlers && k.sid == sid
  {
    var n := |handlers| - 1;
    if k in HandlersOf(handlers[..n], sid) {
      HandlersIn(handlers[..n], sid, k);
    }
  }

  // ---- Moves ----

  /** What the state of a good subscription depends on */
  lemma GoodSame(w: World, t: World, sid: nat)
    requires GoodOk(w, sid) && t.handlers == w.handlers
    requires sid in t.device.ended && t.device.ended[sid] == w.device.ended[sid]
    requires sid in w.known ==> sid in t.known
    requires w.subscriber == Answered(sid) ==> t.subscriber == Answered(sid) || sid in t.known
    ensures GoodOk(t, sid)
  {
  }

  lemma OnDeviceKeeps(w: World, e: Event)
    requires Inv(w) && Can(w, OnDevice(e))
    ensures Inv(Do(w, OnDevice(e)))
  {
    hide K.Inv, GoodOk, Apply, Enabled;
    K.EventKeeps(w.device, e);
    var t := Do(w, OnDevice(e));
    forall sid <- w.mine
      ensures sid in t.device.ended && (IsGood(t, sid) ==> GoodOk(t, sid))
    {
      DeviceSame(w.device, e, sid);
      if IsGood(w, sid) {
        GoodKnown(w, sid);
        GoodSame(w, t, sid);
      }
    }
  }

  lemma GoodKnown(w: World, sid: nat)
    requires Inv(w) && IsGood(w, sid)
    ensures GoodOk(w, sid)
  {
  }

  /** Moves of `genaSubscribe` that do not change the device, and cancellations */
  lemma SubscriberKeeps(w: World, m: Move)
    requires Inv(w) && Can(w, m)
    requires m.BeginSubscribe? || m.Insert? || m.Abandon? || m.EndSubscribe? || m.Cancel?
    ensures Inv(Do(w, m))
  {
    hide K.Inv, GoodOk;
    var t := Do(w, m);
    forall sid <- w.mine | IsGood(t, sid)
      ensures GoodOk(t, sid)
    {
      GoodKnown(w, sid);
      GoodMeans(w, sid);
      GoodSame(w, t, sid);
    }
  }

  lemma GoodMeans(w: World, sid: nat)
    requires GoodOk(w, sid)
    ensures sid in w.device.ended && (sid in w.known || w.subscriber == Answered(sid))
  {
  }

  lemma AcceptKeeps(w: World, m: Move)
    requires Inv(w) && Can(w, m) && (m.Accept? || m.AcceptLate?)
    ensures Inv(Do(w, m))
  {
    hide K.Inv, GoodOk;
    K.SubscribeKeeps(w.device, m.sid, m.expireTime);
    var t := Do(w, m);
    K.IssuedKeys(w.device);
    forall sid <- t.mine | IsGood(t, sid)
      ensures GoodOk(t, sid)
    {
      if sid == m.sid {
        FreshIsGood(w, t, sid);
      } else {
        GoodKnown(w, sid);
        GoodMeans(w, sid);
        GoodSame(w, t, sid);
      }
    }
  }

  lemma FreshIsGood(w: World, t: World, sid: nat)
    requires Inv(w) && sid !in w.device.ended && t.handlers == w.handlers
    requires sid in t.device.ended && t.device.ended[sid] == 0 && t.subscriber == Answered(sid)
    ensures GoodOk(t, sid)
  {
    hide K.Inv;
    if HandlersOf(w.handlers, sid) != [] {
      HandlersIn(w.handlers, sid, HandlersOf(w.handlers, sid)[0]);
    }
  }

  lemma ArriveKeeps(w: World, sid: nat, i: nat)
    requires Inv(w) && Can(w, Arrive(sid, i))
    ensures Inv(Do(w, Arrive(sid, i)))
  {
    hide K.Inv, GoodOk;
    var t := Do(w, Arrive(sid, i));
    var k := Handler(sid, i, w.device.issued[sid][i].key, Arrived);
    StartedBelow(w.device, sid, i);
    forall other <- w.mine | IsGood(t, other)
      ensures GoodOk(t, other)
    {
      GoodKnown(w, other);
      HandlersAppend(w.handlers, k, other);
      if other == sid {
        NextArrives(w, t, sid, k);
      } else {
        OthersSame(w, t, other);
      }
    }
  }

  lemma OthersSame(w: World, t: World, sid: nat)
    requires GoodOk(w, sid) && HandlersOf(t.handlers, sid) == HandlersOf(w.handlers, sid)
    requires t.device == w.device && t.known == w.known && t.subscriber == w.subscriber
    ensures GoodOk(t, sid)
  {
  }

  /** The NOTIFY that arrives is the next one: the ones before it have had their handlers. */
  lemma NextArrives(w: World, t: World, sid: nat, k: Handler)
    requires GoodOk(w, sid) && HandlersOf(t.handlers, sid) == HandlersOf(w.handlers, sid) + [k]
    requires t.device == w.device && t.known == w.known && t.subscriber == w.subscriber
    requires k.stage == Arrived && k.key == Key(k.index) && k.index <= w.device.ended[sid]
    requires forall x <- w.handlers :: !IsFor(x, sid, k.index)
    ensures GoodOk(t, sid)
  {
    hide Key;
    var ks := HandlersOf(w.handlers, sid);
    if k.index < |ks| {
      HandlersIn(w.handlers, sid, ks[k.index]);
    }
    assert |ks| == k.index == w.device.ended[sid];
    NextInOrder(ks, k);
    forall x <- ks + [k] | x.stage.Done?
      ensures x in ks
    {
    }
  }

  lemma NextInOrder(ks: seq<Handler>, k: Handler)
    requires InOrder(ks) && k.stage == Arrived && k.index == |ks| && k.key == Key(k.index)
    requires |ks| > 0 ==> ks[|ks| - 1].stage.Done?
    ensures InOrder(ks + [k])
  {
  }

  lemma CheckKeeps(w: World, h: nat)
    requires Inv(w) && Can(w, Check(h))
    ensures Inv(Do(w, Check(h)))
  {
    hide K.Inv, GoodOk;
    var k := w.handlers[h];
    StageKeeps(w, h, FirstLook(w, k), w.lock);
  }

  /** A handler of a good subscription takes its next step. */
  lemma StageKeeps(w: World, h: nat, stage: Stage, lock: Lock)
    requires Inv(w) && h < |w.handlers| && !w.handlers[h].stage.Done?
    requires stage != Arrived
    requires LocksOk(SetStage(w, h, stage).(lock := lock))
    requires stage.Done? ==> stage == Done(CodeFor(w, w.handlers[h].sid))
    requires stage.Done? && w.handlers[h].sid !in w.known ==>
      w.subscriber == Idle || (w.handlers[h].stage == Arrived && w.handlers[h].key != 0)
    ensures Inv(SetStage(w, h, stage).(lock := lock))
  {
    hide K.Inv, GoodOk, LocksOk;
    var t := SetStage(w, h, stage).(lock := lock);
    var k := w.handlers[h].(stage := stage);
    forall sid <- w.mine | IsGood(t, sid)
      ensures GoodOk(t, sid)
    {
      GoodKnown(w, sid);
      var j := HandlersUpdate(w.handlers, h, k, sid);
      if sid == k.sid {
        TurnKeeps(w, t, sid, j, k);
      } else {
        OthersSame(w, t, sid);
      }
    }
  }

  /** If a handler of a good subscription answers, the subscription is known: either it has answered an earlier
      NOTIFY, or `SubscribeLock` is free of `genaSubscribe`. */
  lemma TurnKeeps(w: World, t: World, sid: nat, j: nat, k: Handler)
    requires GoodOk(w, sid)
    requires var ks := HandlersOf(w.handlers, sid);
      && j < |ks| && !ks[j].stage.Done? && k == ks[j].(stage := k.stage)
      && HandlersOf(t.handlers, sid) == ks[j := k]
      && (k.stage.Done? ==> k.stage == Done(CodeFor(w, sid)))
      && (k.stage.Done? && sid !in w.known ==> w.subscriber == Idle || ks[j].key != 0)
    requires t.device == w.device && t.known == w.known && t.subscriber == w.subscriber
    ensures GoodOk(t, sid)
  {
    var ks := HandlersOf(w.handlers, sid);
    assert j == |ks| - 1;
    KeyNext(j);
    if k.stage.Done? {
      assert sid in w.known;
    }
  }

  lemma LockKeeps(w: World, m: Move)
    requires Inv(w) && Can(w, m) && (m.TakeLock? || m.Recheck?)
    ensures Inv(Do(w, m))
  {
    hide K.Inv, GoodOk;
    var h := m.h;
    if m.TakeLock? {
      StageKeeps(w, h, Locked, ByHandler(h));
    } else {
      StageKeeps(w, h, Done(CodeFor(w, w.handlers[h].sid)), Free);
    }
  }

  lemma AnswerKeeps(w: World, n: Note, h: nat, now: int)
    requires Inv(w) && Can(w, Answer(n, h, now))
    ensures Inv(Do(w, Answer(n, h, now)))
  {
    hide K.Inv, GoodOk, Finish;
    var refused := w.handlers[h].stage.code == PRECONDITION_FAILED412;
    var t := Do(w, Answer(n, h, now));
    K.FinishKeeps(w.device, n, refused, now);
    FinishCounts(w.device, n, refused, now);
    forall sid <- w.mine | IsGood(t, sid)
      ensures GoodOk(t, sid)
    {
      GoodKnown(w, sid);
      if sid == n.sid {
        var j := HandlersUpdate(w.handlers, h, w.handlers[h], sid);
        AnsweredInTurn(w, t, sid, j);
      } else {
        GoodMeans(w, sid);
        GoodSame(w, t, sid);
      }
    }
  }

  lemma AnsweredInTurn(w: World, t: World, sid: nat, j: nat)
    requires GoodOk(w, sid) && t.handlers == w.handlers && t.known == w.known && t.subscriber == w.subscriber
    requires var ks := HandlersOf(w.handlers, sid);
      j < |ks| && ks[j].stage.Done? && ks[j].index == w.device.ended[sid]
    requires sid in t.device.ended && t.device.ended[sid] == w.device.ended[sid] + 1
    ensures GoodOk(t, sid)
  {
  }

  lemma GiveUpKeeps(w: World, n: Note, now: int)
    requires Inv(w) && Can(w, GiveUp(n, now))
    ensures Inv(Do(w, GiveUp(n, now)))
  {
    hide K.Inv, GoodOk, Finish;
    var t := Do(w, GiveUp(n, now));
    K.FinishKeeps(w.device, n, false, now);
    FinishCounts(w.device, n, false, now);
    forall sid <- w.mine | IsGood(t, sid)
      ensures GoodOk(t, sid)
    {
      GoodKnown(w, sid);
      GoodMeans(w, sid);
      GoodSame(w, t, sid);
    }
  }

  lemma MoveKeeps(w: World, m: Move)
    requires Inv(w) && Can(w, m)
    ensures Inv(Do(w, m))
  {
    hide Inv, Apply, Subscribe, Finish, SetStage;
    match m
    case OnDevice(e) => OnDeviceKeeps(w, e);
    case Accept(_, _) => AcceptKeeps(w, m);
    case AcceptLate(_, _) => AcceptKeeps(w, m);
    case Arrive(sid, i) => ArriveKeeps(w, sid, i);
    case Check(h) => CheckKeeps(w, h);
    case TakeLock(_) => LockKeeps(w, m);
    case Recheck(_) => LockKeeps(w, m);
    case Answer(n, h, now) => AnswerKeeps(w, n, h, now);
    case GiveUp(n, now) => GiveUpKeeps(w, n, now);
    case _ => SubscriberKeeps(w, m);
  }

  lemma {:induction false} RunKeeps(ms: seq<Move>)
    requires After(InitialWorld(), ms).Some?
    ensures Inv(After(InitialWorld(), ms).value)
  {
    hide Do, Can;
    if ms != [] {
      var front := ms[..|ms| - 1];
      RunKeeps(front);
      MoveKeeps(After(InitialWorld(), front).value, ms[|ms| - 1]);
    }
  }

  // ---- Losses that come late ----

  predicate IsGivenUp(w: World, sid: nat) {
    sid !in w.mine || sid in w.abandoned || sid in w.cancelled || sid in w.lostEarly
  }

  /** For a subscription that is not given up, and that lost a NOTIFY only when it was on the list: it is on the list,
      or the answer to its request is on the way; and its answers are all 200. */
  predicate TightOk(w: World, sid: nat) {
    && (sid in w.known || w.subscriber == Answered(sid))
    && (sid in w.lost ==> sid in w.known)
    && forall k <- w.handlers :: k.sid == sid && k.stage.Done? ==> k.stage.code == OK200
  }

  predicate TightInv(w: World) {
    w.lost <= w.mine && forall sid <- w.mine :: !IsGivenUp(w, sid) ==> TightOk(w, sid)
  }

  /** A subscription without any loss is covered by the invariant of good ones. */
  lemma GoodIsTight(w: World, sid: nat)
    requires Inv(w) && IsGood(w, sid)
    ensures TightOk(w, sid)
  {
    hide K.Inv, LocksOk;
    GoodKnown(w, sid);
    forall k <- w.handlers | k.sid == sid && k.stage.Done?
      ensures k.stage.code == OK200
    {
      InHandlersOf(w.handlers, k);
      GoodAnswers(w, k);
    }
  }

  /** A subscription that has lost a NOTIFY is on the list, so that whatever a handler answers is 200. */
  lemma LateLossKeeps(w: World, m: Move, sid: nat)
    requires Can(w, m) && TightOk(w, sid) && sid in w.lost && !IsGivenUp(Do(w, m), sid)
    ensures TightOk(Do(w, m), sid)
  {
    hide Apply, Enabled, Subscribe, Finish;
    var t := Do(w, m);
    forall k <- t.handlers | k.sid == sid && k.stage.Done?
      ensures k.stage.code == OK200
    {
      var h :| 0 <= h < |t.handlers| && t.handlers[h] == k;
      if h < |w.handlers| {
        assert w.handlers[h] in w.handlers;
      }
    }
  }

  /** The loss itself changes no handler, and happens while the subscription is on the list. */
  lemma LossKeeps(w: World, m: Move, sid: nat)
    requires Can(w, m) && TightOk(w, sid) && sid !in w.lost && sid in Do(w, m).lost && !IsGivenUp(Do(w, m), sid)
    ensures TightOk(Do(w, m), sid)
  {
    hide Apply, Enabled, Subscribe, Finish;
  }

  lemma MoveKeepsTight(w: World, m: Move)
    requires Inv(w) && TightInv(w) && Can(w, m)
    ensures TightInv(Do(w, m))
  {
    hide Inv, TightOk, Do, Can;
    var t := Do(w, m);
    MoveKeeps(w, m);
    SetsGrow(w, m, 0);
    forall sid <- t.mine | !IsGivenUp(t, sid)
      ensures TightOk(t, sid)
    {
      if sid !in t.lost {
        GoodIsTight(t, sid);
      } else {
        SetsGrow(w, m, sid);
        if sid in w.lost {
          LateLossKeeps(w, m, sid);
        } else {
          LossKeeps(w, m, sid);
        }
      }
    }
  }

  /** The history only grows, and only a SID of this control point can lose a NOTIFY. */
  lemma SetsGrow(w: World, m: Move, sid: nat)
    requires Can(w, m) && w.lost <= w.mine
    ensures Do(w, m).lost <= Do(w, m).mine
    ensures sid in Do(w, m).lost && !IsGivenUp(Do(w, m), sid) ==> !IsGivenUp(w, sid)
  {
    hide Apply, Enabled, Subscribe, Finish;
  }

  lemma {:induction false} RunKeepsTight(ms: seq<Move>)
    requires After(InitialWorld(), ms).Some?
    ensures TightInv(After(InitialWorld(), ms).value)
  {
    hide Do, Can, Inv;
    if ms != [] {
      var front := ms[..|ms| - 1];
      RunKeepsTight(front);
      RunKeeps(front);
      MoveKeepsTight(After(InitialWorld(), front).value, ms[|ms| - 1]);
    }
  }

  // ---- Main results ----

  /** Once `genaSubscribe` has put a subscription on its list, and as long as it is not cancelled and no NOTIFY of it is
      lost or times out, its NOTIFYs arrive in key order from 0, each after the one before it was answered, and every
      answer is 200, never 412. */
  lemma LiveIsAnswered(w: World, ms: seq<Move>, sid: nat)
    requires After(InitialWorld(), ms) == Some(w)
    requires sid in w.mine && sid in w.known && sid !in w.abandoned && sid !in w.cancelled && sid !in w.lost
    ensures InOrder(HandlersOf(w.handlers, sid))
  {
    hide K.Inv;
    RunKeeps(ms);
    GoodKnown(w, sid);
  }

  /** An answer 412 is only for a subscription that was given up or cancelled, or that lost a NOTIFY before it was on
      the list. A loss that comes later never leads to one. */
  lemma RefusedOnlyIfDead(w: World, ms: seq<Move>, k: Handler)
    requires After(InitialWorld(), ms) == Some(w)
    requires k in w.handlers && k.stage == Done(PRECONDITION_FAILED412)
    ensures k.sid in w.abandoned || k.sid in w.cancelled || k.sid in w.lostEarly
  {
    hide K.Inv, GoodOk, LocksOk;
    RunKeeps(ms);
    RunKeepsTight(ms);
  }

  /** When a NOTIFY is refused: one that is being sent for a subscription that is neither given up nor cancelled is
      answered 412, if it is looked at now, if and only if the subscription is not on the list yet and the key is not
      0; and that can only be after an early loss. */
  lemma RefusedIff(w: World, ms: seq<Move>, n: Note)
    requires After(InitialWorld(), ms) == Some(w)
    requires n in w.device.sending && n.sid in w.mine && n.sid !in w.abandoned && n.sid !in w.cancelled
    requires forall k <- w.handlers :: !IsFor(k, n.sid, n.index)
    ensures Can(w, Arrive(n.sid, n.index)) && Can(Do(w, Arrive(n.sid, n.index)), Check(|w.handlers|))
    ensures var stage := Do(Do(w, Arrive(n.sid, n.index)), Check(|w.handlers|)).handlers[|w.handlers|].stage;
      && (stage == Done(PRECONDITION_FAILED412) <==> n.sid !in w.known && n.key != 0)
      && (stage == Done(PRECONDITION_FAILED412) ==> n.sid in w.lostEarly)
  {
    hide K.Inv, GoodOk, LocksOk;
    RunKeeps(ms);
    RunKeepsTight(ms);
    SentIsStarted(w.device, n);
    if n.sid !in w.known && n.key != 0 && n.sid !in w.lostEarly {
      GoodKnown(w, n.sid);
      LaterIsKnown(w, n);
    }
  }

  lemma SentIsStarted(d: Device, n: Note)
    requires K.Inv(d) && n in d.sending
    ensures Start(n.sid, n.index) in d.log
    ensures n.sid in d.issued && n.index < |d.issued[n.sid]| && d.issued[n.sid][n.index].key == n.key == Key(n.index)
    ensures n.sid in d.ended && n.index == d.ended[n.sid]
  {
    hide K.SubsOk, K.NotesOk, Out;
    K.SendsNext(d, n);
    K.InOut(d, n);
    K.NoteFacts(d, n);
    assert K.LogIs(d.sending, d.ended, d.log, n.sid);
    assert K.IsSending(d.sending, n.sid);
    assert Start(n.sid, n.index) in K.Of(d.log, n.sid);
    OfIn(d.log, n.sid, Start(n.sid, n.index));
  }

  lemma {:induction false} OfIn(log: seq<Entry>, sid: nat, e: Entry)
    requires e in K.Of(log, sid)
    ensures e in log
  {
    if log != [] {
      var n := |log| - 1;
      if e in K.Of(log[..n], sid) {
        OfIn(log[..n], sid, e);
      }
    }
  }

  /** A later key of a good subscription is sent only after an answer, which made the subscription known. */
  lemma LaterIsKnown(w: World, n: Note)
    requires GoodOk(w, n.sid) && n.index == w.device.ended[n.sid] && n.key == Key(n.index) && n.key != 0
    ensures n.sid in w.known
  {
    KeyNext(n.index);
  }

  lemma GoodAnswers(w: World, k: Handler)
    requires GoodOk(w, k.sid) && k in HandlersOf(w.handlers, k.sid) && k.stage.Done?
    ensures k.stage.code == OK200
  {
  }

  lemma {:induction false} InHandlersOf(handlers: seq<Handler>, k: Handler)
    requires k in handlers
    ensures k in HandlersOf(handlers, k.sid)
  {
    var n := |handlers| - 1;
    if handlers[n] != k {
      assert k in handlers[..n];
      InHandlersOf(handlers[..n], k);
    }
  }

  ghost predicate Reachable(w: World) {
    exists ms :: After(InitialWorld(), ms) == Some(w)
  }

  lemma Step(w: World, m: Move)
    requires Reachable(w) && Can(w, m)
    ensures Reachable(Do(w, m))
  {
    hide Can, Do;
    var ms :| After(InitialWorld(), ms) == Some(w);
    assert (ms + [m])[..|ms|] == ms;
    assert After(InitialWorld(), ms + [m]) == Some(Do(w, m));
  }

  /** The control point is waiting for the answer to its request, and has not received anything. */
  predicate IsSubscribing(w: World) {
    && w.lock == BySubscriber && w.subscriber == Answered(0) && w.handlers == [] && w.known == {}
    && w.mine == {0} && w.abandoned == {} == w.cancelled
  }

  /** The device has given the first SID and issued its first notification. */
  lemma FirstIsIssued() returns (w: World)
    ensures Reachable(w) && IsSubscribing(w)
    ensures w.device == Device([Sub(0, 1, 0, 0, true)], [Note(0, 0, 0, 0)], multiset{}, multiset{}, map[0 := 1], 1,
                               map[0 := [Note(0, 0, 0, 0)]], map[0 := 0], [], [])
  {
    hide Reachable;
    w := InitialWorld();
    Starts();
    Step(w, BeginSubscribe);
    w := Do(w, BeginSubscribe);
    Step(w, Accept(0, 0));
    w := Do(w, Accept(0, 0));
    var e := OnDevice(DoInitNotify(0, true, 0));
    Step(w, e);
    w := Do(w, e);
    assert w.device.subs == [Sub(0, 1, 0, 0, true)] && w.device.queue == [Note(0, 0, 0, 0)];
    assert w.device.refs == map[0 := 1] && w.device.issued == map[0 := [Note(0, 0, 0, 0)]];
  }

  /** The device has begun to send it. */
  lemma FirstIsSent() returns (w: World)
    ensures Reachable(w) && IsSubscribing(w)
    ensures w.device == Device([Sub(0, 1, 0, 0, true)], [], multiset{}, multiset{Note(0, 0, 0, 0)}, map[0 := 1], 1,
                               map[0 := [Note(0, 0, 0, 0)]], map[0 := 0], [Start(0, 0)], [])
  {
    hide Reachable;
    w := FirstIsIssued();
    var n := Note(0, 0, 0, 0);
    Step(w, OnDevice(DoTake(0)));
    w := Do(w, OnDevice(DoTake(0)));
    assert w.device.queue == [] && w.device.holding == multiset{n};
    Step(w, OnDevice(DoBegin(n, 0)));
    w := Do(w, OnDevice(DoBegin(n, 0)));
    assert w.device.sending == multiset{n} && w.device.holding == multiset{};
  }

  /** The device has not got an answer to it in time. */
  lemma FirstIsLost() returns (w: World)
    ensures Reachable(w) && IsSubscribing(w)
    ensures w.device.subs == [Sub(0, 1, 1, 0, true)] && w.device.queue == []
    ensures w.device.holding == multiset{} == w.device.sending
    ensures w.device.issued == map[0 := [Note(0, 0, 0, 0)]]
  {
    hide Reachable;
    w := FirstIsSent();
    var n := Note(0, 0, 0, 0);
    Step(w, GiveUp(n, 0));
    w := Do(w, GiveUp(n, 0));
  }

  lemma Starts()
    ensures Reachable(InitialWorld())
  {
    assert After(InitialWorld(), []) == Some(InitialWorld());
  }

  /** The device has begun to send the second notification. */
  lemma SecondIsSent() returns (w: World)
    ensures Reachable(w) && IsSubscribing(w)
    ensures Start(0, 1) in w.device.log && 0 in w.device.issued && |w.device.issued[0]| == 2
    ensures var n := w.device.issued[0][1]; n.sid == 0 && n.index == 1 && n.key == 1 && n in w.device.sending
    ensures |w.device.subs| == 1 && w.device.subs[0].sid == 0
  {
    hide Reachable;
    w := FirstIsLost();
    var n := Note(0, 1, 1, w.device.nextBuffer);
    var e := OnDevice(DoNotifyAll(_ => 0));
    NotifyOne(w.device, e.e.clock);
    Step(w, e);
    w := Do(w, e);
    Step(w, OnDevice(DoTake(0)));
    w := Do(w, OnDevice(DoTake(0)));
    assert w.device.holding == multiset{n};
    Step(w, OnDevice(DoBegin(n, 0)));
    w := Do(w, OnDevice(DoBegin(n, 0)));
  }

  /** That no NOTIFY is lost too early is needed: if the first one times out while `genaSubscribe` is still under way,
      the second one is refused, although the subscription is put on the list and never cancelled; and the device removes
      the subscription. */
  lemma LostNotifyIsRefused() returns (w: World)
    ensures Reachable(w) && 0 in w.mine && 0 in w.known && 0 !in w.abandoned && 0 !in w.cancelled
    ensures exists k <- w.handlers :: k.sid == 0 && k.stage == Done(PRECONDITION_FAILED412)
    ensures forall s <- w.device.subs :: s.sid != 0
  {
    hide Reachable;
    w := SecondIsSent();
    Step(w, Arrive(0, 1));
    w := Do(w, Arrive(0, 1));
    Step(w, Check(0));
    w := Do(w, Check(0));
    Step(w, Insert);
    w := Do(w, Insert);
    assert w.handlers == [Handler(0, 1, 1, Done(PRECONDITION_FAILED412))];
    var n := w.device.issued[0][1];
    RefusalRemoves(w.device, n, 0);
    Step(w, Answer(n, 0, 0));
    w := Do(w, Answer(n, 0, 0));
    assert w.handlers[0] in w.handlers;
  }

  lemma RefusalRemoves(d: Device, n: Note, now: int)
    requires |d.subs| == 1 && d.subs[0].sid == n.sid
    ensures Finish(d, n, true, now).subs == []
  {
  }

  lemma NotifyOne(d: Device, clock: Clock)
    requires d.subs == [Sub(0, 1, 1, 0, true)] && 0 in d.issued && |d.issued[0]| == 1 && d.queue == []
    ensures var t, n := NotifyAll(d, clock), Note(0, 1, 1, d.nextBuffer);
      && t.subs == [Sub(0, 2, 1, 0, true)] && t.queue == [n] && t.holding == d.holding && t.sending == d.sending
      && t.issued == d.issued[0 := d.issued[0] + [n]] && t.log == d.log
  {
    var b := d.nextBuffer;
    var d1 := d.(refs := d.refs[b := 0], nextBuffer := b + 1);
    var d2 := Issue(d1, 0, b, 2);
    assert NotifyFrom(d2, 1, b, clock, 1) == d2;
    assert NotifyFrom(d1, 0, b, clock, 0) == d2;
  }
}