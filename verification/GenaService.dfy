/** The device side of gena_device.c and the subscription list of service_table.c as an object that is updated in
    place. Each method is proved to do what the function of module GenaDevice says. */
module GenaService {
  import opened Options
  import opened GenaDevice

  class Service {
    var subscriptionList: seq<Sub>
    var jobs: seq<Note>
    var references: map<nat, int>
    var nextBuffer: nat

    /** Which notifications each subscription was issued; this numbers them, and C does not keep it. */
    var issued: map<nat, seq<Note>>

    ghost var holding: multiset<Note>
    ghost var sending: multiset<Note>
    ghost var ended: map<nat, nat>
    ghost var log: seq<Entry>
    ghost var freed: seq<nat>

    ghost function View(): Device
      reads this
    {
      Device(subscriptionList, jobs, holding, sending, references, nextBuffer, issued, ended, log, freed)
    }

    constructor ()
      ensures View() == InitialDevice()
    {
      subscriptionList, jobs, references, nextBuffer := [], [], map[], 0;
      holding, sending, issued, ended, log, freed := multiset{}, multiset{}, map[], map[], [], [];
    }

    /** `GetSubscriptionSID` */
    method GetSubscriptionSID(sid: nat, now: int) returns (found: Option<nat>)
      modifies this`subscriptionList
      ensures var f := GetSub(old(subscriptionList), sid, now); subscriptionList == f.subs && found == f.at
      ensures found.Some? ==>
        && found.value < |subscriptionList| && subscriptionList == old(subscriptionList)
        && var s := subscriptionList[found.value]; s.sid == sid && (s.expireTime == 0 || now <= s.expireTime)
    {
      hide FindSub;
      FindSubFirst(subscriptionList, sid);
      var i := Position(sid);
      if i == |subscriptionList| {
        return None;
      }
      if subscriptionList[i].expireTime != 0 && subscriptionList[i].expireTime < now {
        subscriptionList := RemoveAt(subscriptionList, i);
        return None;
      }
      return Some(i);
    }

    /** The loop of `GetSubscriptionSID` */
    method Position(sid: nat) returns (i: nat)
      ensures i == FindSub(subscriptionList, sid) <= |subscriptionList|
    {
      i := 0;
      while i < |subscriptionList| && subscriptionList[i].sid != sid
        invariant i <= |subscriptionList|
        invariant FindSub(subscriptionList, sid) == i + FindSub(subscriptionList[i..], sid)
      {
        assert subscriptionList[i..][1..] == subscriptionList[i + 1..];
        i := i + 1;
      }
    }

    /** `RemoveSubscriptionSID` */
    method RemoveSubscriptionSID(sid: nat)
      modifies this`subscriptionList
      ensures subscriptionList == RemoveSid(old(subscriptionList), sid)
    {
      var finger := 0;
      while finger < |subscriptionList| && subscriptionList[finger].sid != sid
        invariant finger <= |subscriptionList|
        invariant forall k :: 0 <= k < finger ==> subscriptionList[k].sid != sid
      {
        finger := finger + 1;
      }
      RemoveFirst(subscriptionList, sid, finger);
      if finger < |subscriptionList| {
        subscriptionList := RemoveAt(subscriptionList, finger);
      }
    }

    /** `GetNextSubscription` from the subscription before `i` (`GetFirstSubscription` for 0): the next one that is
        active, or the end of the list; what has expired before it is removed. */
    method GetNextSubscription(i: nat, now: int, ghost b: nat, ghost clock: Clock, ghost r: nat) returns (next: nat)
      requires i <= |subscriptionList| && now == clock(r)
      modifies this`subscriptionList
      ensures i <= next <= |subscriptionList| <= |old(subscriptionList)|
      ensures next < |subscriptionList| ==>
        var s := subscriptionList[next]; s.active && (s.expireTime == 0 || now <= s.expireTime)
      ensures NotifyFrom(View(), next, b, clock, r) == NotifyFrom(old(View()), i, b, clock, r)
    {
      hide Issue;
      next := i;
      var notDone := true;
      while notDone && next < |subscriptionList|
        invariant i <= next <= |subscriptionList| <= |old(subscriptionList)|
        invariant NotifyFrom(View(), next, b, clock, r) == NotifyFrom(old(View()), i, b, clock, r)
        invariant !notDone ==>
          next < |subscriptionList| && subscriptionList[next].active && !IsExpired(subscriptionList[next], now)
        decreases notDone, |subscriptionList| - next
      {
        if subscriptionList[next].expireTime != 0 && subscriptionList[next].expireTime < now {
          subscriptionList := RemoveAt(subscriptionList, next);
        } else if subscriptionList[next].active {
          notDone := false;
        } else {
          next := next + 1;
        }
      }
    }

    /** `gena_process_subscription_request` after its checks */
    method SubscriptionRequest(sid: nat, expireTime: int)
      modifies this
      ensures View() == Subscribe(old(View()), sid, expireTime)
      ensures subscriptionList == [Sub(sid, 0, 0, expireTime, false)] + old(subscriptionList)
    {
      subscriptionList := [Sub(sid, 0, 0, expireTime, false)] + subscriptionList;
      issued, ended := issued[sid := []], ended[sid := 0];
    }

    /** `genaUnregisterDevice` */
    method UnregisterDevice()
      modifies this`subscriptionList
      ensures View() == Unregister(old(View()))
    {
      subscriptionList := [];
    }

    /** A `notify_thread_struct` is filled in, and its job is added to the pool. */
    method AddJob(at: nat, b: nat, next: int)
      requires at < |subscriptionList| && b in references
      modifies this
      ensures View() == Issue(old(View()), at, b, next)
      ensures b in references && |subscriptionList| == |old(subscriptionList)|
    {
      var s := subscriptionList[at];
      var before := if s.sid in issued then issued[s.sid] else [];
      references := references[b := references[b] + 1];
      var n := Note(s.sid, |before|, s.eventKey, b);
      subscriptionList := subscriptionList[at := s.(eventKey := next)];
      jobs := jobs + [n];
      issued := issued[s.sid := before + [n]];
    }

    /** `genaInitNotify` */
    method GenaInitNotify(sid: nat, hasVars: bool, now: int) returns (ret: Status)
      modifies this
      ensures Notified(View(), ret) == InitNotify(old(View()), sid, hasVars, now)
    {
      hide GetSub, Issue;
      var b := nextBuffer;
      references, nextBuffer := references[b := 0], nextBuffer + 1;
      var found := GetSubscriptionSID(sid, now);
      if found.None? || subscriptionList[found.value].active {
        FreeBuffers(b);
        return BAD_SID;
      }
      var s := subscriptionList[found.value].(active := true);
      subscriptionList := subscriptionList[found.value := s];
      if hasVars {
        AddJob(found.value, b, s.eventKey + 1);
      } else {
        FreeBuffers(b);
      }
      return SUCCESS;
    }

    /** The `free` calls at the end of `genaInitNotify` and `genaNotifyAll` */
    method FreeBuffers(b: nat)
      modifies this`references, this`freed
      ensures View() == FreeUnused(old(View()), b)
    {
      references := references - {b};
      freed := freed + [b];
    }

    /** `genaNotifyAll` */
    method GenaNotifyAll(clock: Clock)
      modifies this
      ensures View() == NotifyAll(old(View()), clock)
    {
      hide NotifyFrom;
      var b := nextBuffer;
      references, nextBuffer := references[b := 0], nextBuffer + 1;
      NotifySubscriptions(b, clock);
      if references[b] == 0 {
        FreeBuffers(b);
      }
    }

    /** The loop of `genaNotifyAll` */
    method NotifySubscriptions(b: nat, clock: Clock)
      requires b in references
      modifies this
      ensures View() == NotifyFrom(old(View()), 0, b, clock, 0) && b in references
    {
      hide NotifyFrom;
      ghost var start := View();
      var r := 0;
      var finger := GetNextSubscription(0, clock(r), b, clock, r);
      while finger < |subscriptionList|
        invariant finger <= |subscriptionList| && b in references
        invariant finger < |subscriptionList| ==>
          subscriptionList[finger].active && !IsExpired(subscriptionList[finger], clock(r))
        invariant NotifyFrom(View(), finger, b, clock, r) == NotifyFrom(start, 0, b, clock, 0)
        decreases |subscriptionList| - finger
      {
        finger := NotifyNext(finger, b, clock, r);
        r := r + 1;
      }
      NotifyFromEnd(View(), b, clock, r);
    }

    /** The body of that loop */
    method NotifyNext(finger: nat, b: nat, clock: Clock, r: nat) returns (next: nat)
      requires finger < |subscriptionList| && b in references
      requires subscriptionList[finger].active && !IsExpired(subscriptionList[finger], clock(r))
      modifies this
      ensures finger < next <= |subscriptionList| <= |old(subscriptionList)| && b in references
      ensures next < |subscriptionList| ==>
        subscriptionList[next].active && !IsExpired(subscriptionList[next], clock(r + 1))
      ensures NotifyFrom(View(), next, b, clock, r + 1) == NotifyFrom(old(View()), finger, b, clock, r)
    {
      hide NotifyFrom, Issue;
      NotifyFromActive(View(), finger, b, clock, r);
      var key := subscriptionList[finger].eventKey;
      AddJob(finger, b, if key == INT_MAX then 1 else key + 1);
      next := GetNextSubscription(finger + 1, clock(r + 1), b, clock, r + 1);
    }

    /** `free_notify_struct` */
    method FreeNotifyStruct(b: nat)
      modifies this`references, this`freed
      ensures View() == Release(old(View()), b)
    {
      var n := (if b in references then references[b] else 0) - 1;
      if n == 0 {
        references := references - {b};
        freed := freed + [b];
      } else {
        references := references[b := n];
      }
    }

    /** `genaNotifyThread` up to the exchange; `send` says that there is one. */
    method NotifyThreadBegin(n: Note, now: int) returns (send: bool)
      modifies this
      ensures View() == Begin(old(View()), n, now)
    {
      hide GetSub, Begin, Release, Opened;
      BeginCases(View(), n, now);
      LetGo(n);
      var found := GetSubscriptionSID(n.sid, now);
      if found.None? {
        FreeNotifyStruct(n.buffer);
        return false;
      }
      send := n.key == subscriptionList[found.value].toSend;
      if !send {
        jobs := jobs + [n];
      } else {
        OpenExchange(n);
      }
    }

    ghost method LetGo(n: Note)
      modifies this`holding
      ensures View() == old(View()).(holding := old(holding) - multiset{n})
    {
      holding := holding - multiset{n};
    }

    ghost method OpenExchange(n: Note)
      modifies this`sending, this`log
      ensures View() == Opened(old(View()), n)
    {
      sending, log := sending + multiset{n}, log + [Start(n.sid, n.index)];
    }

    /** `genaNotifyThread` after the exchange */
    method NotifyThreadEnd(n: Note, refused: bool, now: int)
      modifies this
      ensures View() == Finish(old(View()), n, refused, now)
    {
      hide Finish, Release, ListAfter, Closed;
      FinishCases(View(), n, refused, now);
      AdvanceSubscription(n.sid, refused, now);
      CloseExchange(n);
      FreeNotifyStruct(n.buffer);
    }

    ghost method CloseExchange(n: Note)
      modifies this`sending, this`log, this`ended
      ensures View() == Closed(old(View()), n)
    {
      sending, log := sending - multiset{n}, log + [End(n.sid, n.index)];
      ended := ended[n.sid := (if n.sid in ended then ended[n.sid] else 0) + 1];
    }

    /** The part of it that concerns the subscription list */
    method AdvanceSubscription(sid: nat, refused: bool, now: int)
      modifies this`subscriptionList
      ensures subscriptionList == ListAfter(old(subscriptionList), sid, refused, now)
    {
      hide GetSub, RemoveSid;
      var found := GetSubscriptionSID(sid, now);
      if found.Some? {
        var s := subscriptionList[found.value];
        var key := if s.toSend == INT_MAX then 1 else s.toSend + 1;
        subscriptionList := subscriptionList[found.value := s.(toSend := key)];
        if refused {
          RemoveSubscriptionSID(sid);
        }
      }
    }
  }

  /** The subscription list after an exchange */
  function ListAfter(subs: seq<Sub>, sid: nat, refused: bool, now: int): seq<Sub> {
    FindSubFirst(subs, sid);
    var f := GetSub(subs, sid, now);
    match f.at
    case None => f.subs
    case Some(i) =>
      var subs' := f.subs[i := f.subs[i].(toSend := NextKey(f.subs[i].toSend))];
      if refused then RemoveSid(subs', sid) else subs'
  }

  /** What the history records at the beginning of an exchange */
  function Opened(d: Device, n: Note): Device {
    d.(sending := d.sending + multiset{n}, log := d.log + [Start(n.sid, n.index)])
  }

  /** What the history records at the end of an exchange */
  function Closed(d: Device, n: Note): Device {
    d.(sending := d.sending - multiset{n}, log := d.log + [End(n.sid, n.index)],
       ended := d.ended[n.sid := (if n.sid in d.ended then d.ended[n.sid] else 0) + 1])
  }

  lemma BeginCases(d: Device, n: Note, now: int)
    ensures var f, left := GetSub(d.subs, n.sid, now), d.holding - multiset{n};
      match f.at
      case None => Begin(d, n, now) == Release(d.(subs := f.subs, holding := left), n.buffer)
      case Some(i) =>
        i < |f.subs| &&
        Begin(d, n, now) ==
        if n.key != f.subs[i].toSend then d.(subs := f.subs, holding := left, queue := d.queue + [n])
        else Opened(d.(subs := f.subs, holding := left), n)
  {
    hide Release;
    FindSubFirst(d.subs, n.sid);
  }

  lemma FinishCases(d: Device, n: Note, refused: bool, now: int)
    ensures Finish(d, n, refused, now)
         == Release(Closed(d.(subs := ListAfter(d.subs, n.sid, refused, now)), n), n.buffer)
  {
    hide Release, RemoveSid;
    FindSubFirst(d.subs, n.sid);
  }

  lemma {:induction false} RemoveFirst(subs: seq<Sub>, sid: nat, i: nat)
    requires i <= |subs| && (i < |subs| ==> subs[i].sid == sid)
    requires forall k :: 0 <= k < i ==> subs[k].sid != sid
    ensures RemoveSid(subs, sid) == if i < |subs| then RemoveAt(subs, i) else subs
  {
    if i > 0 {
      RemoveFirst(subs[1..], sid, i - 1);
      if i < |subs| {
        assert RemoveAt(subs, i) == [subs[0]] + RemoveAt(subs[1..], i - 1);
      }
    }
  }

  lemma NotifyFromActive(d: Device, i: nat, b: nat, clock: Clock, r: nat)
    requires i < |d.subs| && d.subs[i].active && !IsExpired(d.subs[i], clock(r))
    ensures NotifyFrom(d, i, b, clock, r)
         == NotifyFrom(Issue(d, i, b, NextKey(d.subs[i].eventKey)), i + 1, b, clock, r + 1)
  {
  }

  lemma NotifyFromEnd(d: Device, b: nat, clock: Clock, r: nat)
    ensures NotifyFrom(d, |d.subs|, b, clock, r) == d
  {
  }
}
