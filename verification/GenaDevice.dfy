/** The notifications of a device, gena_device.c: subscriptions, the jobs that carry notifications, and the
    buffers that those jobs share. A function is a stretch of code that holds `HandleLock`. */
module GenaDevice {
  import opened Options

  const INT_MAX := 0x7FFF_FFFF
  const MAX_JOBS_TOTAL := 100
  const MAX_THREADS := 12

  /** `key++; if (key < 0) key = 1;` on a 32-bit `int` that wraps to a negative number */
  function NextKey(key: int): int {
    if key == INT_MAX then 1 else key + 1
  }

  /** The key of notification number `i` of a subscription */
  function Key(i: nat): int {
    if i == 0 then 0 else 1 + (i - 1) % INT_MAX
  }

  lemma KeyNext(i: nat)
    ensures Key(i + 1) == NextKey(Key(i))
    ensures 0 <= Key(i) <= INT_MAX && (Key(i) == 0 <==> i == 0)
  {
    if i > 0 {
      assert i % INT_MAX == (if (i - 1) % INT_MAX == INT_MAX - 1 then 0 else (i - 1) % INT_MAX + 1);
    }
  }

  /** Keys are different within a window that is shorter than the cycle. */
  lemma KeysDiffer(i: nat, j: nat)
    requires i < j < i + INT_MAX
    ensures Key(i) != Key(j)
  {
    if i > 0 {
      assert j - i
          == INT_MAX * ((j - 1) / INT_MAX - (i - 1) / INT_MAX) + ((j - 1) % INT_MAX - (i - 1) % INT_MAX);
    }
  }

  /** A `subscription` */
  datatype Sub = Sub(sid: nat, eventKey: int, toSend: int, expireTime: int, active: bool)

  /** A `notify_thread_struct`: `buffer` stands for the strings and the counter that it shares with others.
      C has no `index`: it is the number of the notification in its subscription, and `key` is all that is left
      of it. */
  datatype Note = Note(sid: nat, index: nat, key: int, buffer: nat)

  /** A notification is being sent, or its exchange is over. */
  datatype Entry = Start(sid: nat, index: nat) | End(sid: nat, index: nat)

  /** A device with one service. Its notify jobs are in the queue of the send pool, with a worker that waits for
      `HandleLock`, or with a worker that is sending. The rest is history: which notifications were issued to
      each subscription, how many exchanges are over, the exchanges in order, and the buffers freed. */
  datatype Device = Device(subs: seq<Sub>, queue: seq<Note>, holding: multiset<Note>, sending: multiset<Note>,
                           refs: map<nat, int>, nextBuffer: nat,
                           issued: map<nat, seq<Note>>, ended: map<nat, nat>, log: seq<Entry>, freed: seq<nat>)

  function InitialDevice(): Device {
    Device([], [], multiset{}, multiset{}, map[], 0, map[], map[], [], [])
  }

  // ---- The subscription list ----

  /** The index of the subscription with the SID, or |subs| */
  function FindSub(subs: seq<Sub>, sid: nat): nat {
    if subs == [] || subs[0].sid == sid then 0 else 1 + FindSub(subs[1..], sid)
  }

  lemma {:induction false} FindSubFirst(subs: seq<Sub>, sid: nat)
    ensures var i := FindSub(subs, sid);
      && i <= |subs|
      && (i < |subs| ==> subs[i].sid == sid)
      && forall k :: 0 <= k < i ==> subs[k].sid != sid
  {
    if subs != [] && subs[0].sid != sid {
      FindSubFirst(subs[1..], sid);
    }
  }

  predicate IsExpired(s: Sub, now: int) {
    s.expireTime != 0 && s.expireTime < now
  }

  function RemoveAt(subs: seq<Sub>, i: nat): seq<Sub>
    requires i < |subs|
  {
    subs[..i] + subs[i + 1..]
  }

  datatype Found = Found(subs: seq<Sub>, at: Option<nat>)

  /** `GetSubscriptionSID`: a subscription that has expired is removed when it is looked up. */
  function GetSub(subs: seq<Sub>, sid: nat, now: int): Found {
    FindSubFirst(subs, sid);
    var i := FindSub(subs, sid);
    if i == |subs| then Found(subs, None)
    else if IsExpired(subs[i], now) then Found(RemoveAt(subs, i), None)
    else Found(subs, Some(i))
  }

  /** `RemoveSubscriptionSID`: the loop ends at the first match. */
  function RemoveSid(subs: seq<Sub>, sid: nat): seq<Sub> {
    if subs == [] then []
    else if subs[0].sid == sid then subs[1..]
    else [subs[0]] + RemoveSid(subs[1..], sid)
  }

  // ---- Shared buffers ----

  /** The notify jobs that exist: `notify_thread_struct`s that are not freed */
  function Out(d: Device): multiset<Note> {
    multiset(d.queue) + d.holding + d.sending
  }

  /** The counter of a buffer that is in use */
  function RefsOf(d: Device, b: nat): int {
    if b in d.refs then d.refs[b] else 0
  }

  /** `free_notify_struct`, except for the `free` of the struct itself */
  function Release(d: Device, b: nat): Device {
    var n := RefsOf(d, b) - 1;
    if n == 0 then d.(refs := d.refs - {b}, freed := d.freed + [b]) else d.(refs := d.refs[b := n])
  }

  // ---- Subscribing and notifying ----

  /** `gena_process_subscription_request`, with a SID that no one has had before */
  function Subscribe(d: Device, sid: nat, expireTime: int): Device {
    d.(subs := [Sub(sid, 0, 0, expireTime, false)] + d.subs, issued := d.issued[sid := []], ended := d.ended[sid := 0])
  }

  /** The next notification of a subscription */
  function NextNote(d: Device, s: Sub, b: nat): Note {
    Note(s.sid, if s.sid in d.issued then |d.issued[s.sid]| else 0, s.eventKey, b)
  }

  /** A notify job is made for the subscription at `i` and added to the pool. The key behind the one that it takes
      is `next`. */
  function Issue(d: Device, i: nat, b: nat, next: int): Device
    requires i < |d.subs|
  {
    var s := d.subs[i];
    var n := NextNote(d, s, b);
    d.(subs := d.subs[i := s.(eventKey := next)], queue := d.queue + [n], refs := d.refs[b := RefsOf(d, b) + 1],
       issued := d.issued[s.sid := (if s.sid in d.issued then d.issued[s.sid] else []) + [n]])
  }

  /** Successive readings of the time */
  type Clock = nat -> int

  datatype Status = SUCCESS | BAD_SID

  datatype Notified = Notified(device: Device, status: Status)

  /** The caller's own `free` of the buffers that nobody uses */
  function FreeUnused(d: Device, b: nat): Device {
    d.(refs := d.refs - {b}, freed := d.freed + [b])
  }

  /** `genaInitNotify` on a device that is registered; `hasVars` is `var_count > 0`. The new key is not checked
      for overflow. */
  function InitNotify(d: Device, sid: nat, hasVars: bool, now: int): Notified {
    var b := d.nextBuffer;
    var f := GetSub(d.subs, sid, now);
    FindSubFirst(d.subs, sid);
    var d1 := d.(subs := f.subs, refs := d.refs[b := 0], nextBuffer := b + 1);
    if f.at.None? || f.subs[f.at.value].active then Notified(FreeUnused(d1, b), BAD_SID)
    else
      var i := f.at.value;
      var d2 := d1.(subs := f.subs[i := f.subs[i].(active := true)]);
      if hasVars then Notified(Issue(d2, i, b, d2.subs[i].eventKey + 1), SUCCESS)
      else Notified(FreeUnused(d2, b), SUCCESS)
  }

  /** The loop of `genaNotifyAll` from the subscription at `i` on, with `GetNextSubscription`: subscriptions that
      have expired are removed, and ones that are not active are passed over. The time is read at the beginning and
      again after each notification; `clock(r)` is the next reading that counts. */
  function NotifyFrom(d: Device, i: nat, b: nat, clock: Clock, r: nat): Device
    requires i <= |d.subs|
    decreases |d.subs| - i
  {
    if i == |d.subs| then d
    else if IsExpired(d.subs[i], clock(r)) then NotifyFrom(d.(subs := RemoveAt(d.subs, i)), i, b, clock, r)
    else if d.subs[i].active then NotifyFrom(Issue(d, i, b, NextKey(d.subs[i].eventKey)), i + 1, b, clock, r + 1)
    else NotifyFrom(d, i + 1, b, clock, r)
  }

  /** `genaNotifyAll` */
  function NotifyAll(d: Device, clock: Clock): Device {
    var b := d.nextBuffer;
    var t := NotifyFrom(d.(refs := d.refs[b := 0], nextBuffer := b + 1), 0, b, clock, 0);
    if RefsOf(t, b) == 0 then FreeUnused(t, b) else t
  }

  // ---- The notify thread ----

  /** A worker of the send pool takes a job, in whatever order the pool starts them. */
  function Take(d: Device, k: nat): Device
    requires k < |d.queue|
  {
    d.(queue := d.queue[..k] + d.queue[k + 1..], holding := d.holding + multiset{d.queue[k]})
  }

  function Drop(d: Device, n: Note): Device {
    Release(d.(holding := d.holding - multiset{n}), n.buffer)
  }

  /** `genaNotifyThread` until it sends, gives the job back to the pool, or drops it */
  function Begin(d: Device, n: Note, now: int): Device {
    var f := GetSub(d.subs, n.sid, now);
    FindSubFirst(d.subs, n.sid);
    var d1 := d.(subs := f.subs);
    if f.at.None? then Drop(d1, n)
    else
      var d2 := d1.(holding := d.holding - multiset{n});
      if n.key != f.subs[f.at.value].toSend then d2.(queue := d.queue + [n])
      else d2.(sending := d.sending + multiset{n}, log := d.log + [Start(n.sid, n.index)])
  }

  /** `genaNotifyThread` after the exchange; `refused` says that the answer was "412 Precondition Failed". */
  function Finish(d: Device, n: Note, refused: bool, now: int): Device {
    var f := GetSub(d.subs, n.sid, now);
    FindSubFirst(d.subs, n.sid);
    var d1 := d.(subs := f.subs, sending := d.sending - multiset{n}, log := d.log + [End(n.sid, n.index)],
                 ended := d.ended[n.sid := (if n.sid in d.ended then d.ended[n.sid] else 0) + 1]);
    if f.at.None? then Release(d1, n.buffer)
    else
      var s := f.subs[f.at.value];
      var subs := f.subs[f.at.value := s.(toSend := NextKey(s.toSend))];
      Release(d1.(subs := if refused then RemoveSid(subs, n.sid) else subs), n.buffer)
  }

  /** The subscription ends: it is cancelled by the control point or runs out. */
  function Unsubscribe(d: Device, sid: nat): Device {
    d.(subs := RemoveSid(d.subs, sid))
  }

  /** The device is unregistered: its service table is freed. A job that finds no handle or no service then does what
      it does for a subscription that is gone. */
  function Unregister(d: Device): Device {
    d.(subs := [])
  }

  /** `ThreadPoolShutdown` calls `free_notify_struct` for the jobs in the queue. */
  function FreeQueued(d: Device): Device
    decreases |d.queue|
  {
    if d.queue == [] then d
    else FreeQueued(Release(d.(queue := d.queue[1..]), d.queue[0].buffer))
  }

  // ---- Events ----

  datatype Event =
    | DoSubscribe(sid: nat, expireTime: int)
    | DoInitNotify(sid: nat, hasVars: bool, now: int)
    | DoNotifyAll(clock: Clock)
    | DoTake(k: nat)
    | DoBegin(note: Note, now: int)
    | DoFinish(note: Note, refused: bool, now: int)
    | DoUnsubscribe(sid: nat)
    | DoUnregister
    | DoFreeQueued

  /** When an event can happen. SIDs are new, the pool accepts the jobs that it is given (it does so below
      `maxJobsTotal`), and it has at most `maxThreads` workers. The pool is shut down after the devices are
      unregistered, so that there are no subscriptions then. */
  predicate Enabled(d: Device, e: Event) {
    match e
    case DoSubscribe(sid, _) => sid !in d.issued
    case DoInitNotify(_, _, _) => |d.queue| < MAX_JOBS_TOTAL
    case DoNotifyAll(_) => |d.queue| + |d.subs| <= MAX_JOBS_TOTAL
    case DoTake(k) => k < |d.queue| && |d.holding| + |d.sending| < MAX_THREADS
    case DoBegin(n, _) => n in d.holding && |d.queue| < MAX_JOBS_TOTAL
    case DoFinish(n, _, _) => n in d.sending
    case DoUnsubscribe(_) => true
    case DoUnregister => true
    case DoFreeQueued => d.subs == []
  }

  function Apply(d: Device, e: Event): Device
    requires Enabled(d, e)
  {
    match e
    case DoSubscribe(sid, expireTime) => Subscribe(d, sid, expireTime)
    case DoInitNotify(sid, hasVars, now) => InitNotify(d, sid, hasVars, now).device
    case DoNotifyAll(clock) => NotifyAll(d, clock)
    case DoTake(k) => Take(d, k)
    case DoBegin(n, now) => Begin(d, n, now)
    case DoFinish(n, refused, now) => Finish(d, n, refused, now)
    case DoUnsubscribe(sid) => Unsubscribe(d, sid)
    case DoUnregister => Unregister(d)
    case DoFreeQueued => FreeQueued(d)
  }

  /** The state that a sequence of events leads to, if each of them can happen when it is its turn */
  function After(d: Device, es: seq<Event>): Option<Device> {
    if es == [] then Some(d)
    else
      var t := After(d, es[..|es| - 1]);
      if t.Some? && Enabled(t.value, es[|es| - 1]) then Some(Apply(t.value, es[|es| - 1])) else None
  }
}
