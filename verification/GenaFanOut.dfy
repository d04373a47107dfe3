/** Whom genaNotifyAll notifies: its loop, which removes subscriptions from the list while it walks along it, gives one
    notification to each subscription that is active and has not expired, in the order of the list. */
module GenaFanOut {
  import opened GenaDevice
  import K = GenaKeys

  /** The subscription is active and has not run out. */
  predicate GetsOne(s: Sub, now: int) {
    s.active && (s.expireTime == 0 || now <= s.expireTime)
  }

  /** The notifications for a list of subscriptions, with the readings of the time from `r` on */
  function NotesFor(d: Device, subs: seq<Sub>, b: nat, clock: Clock, r: nat): seq<Note> {
    if subs == [] then []
    else if GetsOne(subs[0], clock(r)) then [NextNote(d, subs[0], b)] + NotesFor(d, subs[1..], b, clock, r + 1)
    else NotesFor(d, subs[1..], b, clock, r)
  }

  /** The list afterwards: without what has expired, and with the next key for each one that was notified */
  function Advanced(subs: seq<Sub>, clock: Clock, r: nat): seq<Sub> {
    if subs == [] then []
    else if subs[0].expireTime != 0 && subs[0].expireTime < clock(r) then Advanced(subs[1..], clock, r)
    else if subs[0].active then
      [subs[0].(eventKey := NextKey(subs[0].eventKey))] + Advanced(subs[1..], clock, r + 1)
    else [subs[0]] + Advanced(subs[1..], clock, r)
  }

  /** The notification of a subscription depends on its own history only. */
  lemma {:induction false} OthersDoNotMatter(d: Device, t: Device, subs: seq<Sub>, b: nat, clock: Clock, r: nat)
    requires forall s <- subs :: (s.sid in d.issued <==> s.sid in t.issued)
                                 && (s.sid in d.issued ==> d.issued[s.sid] == t.issued[s.sid])
    ensures NotesFor(t, subs, b, clock, r) == NotesFor(d, subs, b, clock, r)
  {
    if subs != [] {
      OthersDoNotMatter(d, t, subs[1..], b, clock, if GetsOne(subs[0], clock(r)) then r + 1 else r);
    }
  }

  lemma IssueForOne(d: Device, i: nat, b: nat, clock: Clock, r: nat)
    requires i < |d.subs| && K.DistinctSids(d.subs) && GetsOne(d.subs[i], clock(r))
    ensures var t := Issue(d, i, b, NextKey(d.subs[i].eventKey));
      && t.queue == d.queue + [NextNote(d, d.subs[i], b)]
      && RefsOf(t, b) == RefsOf(d, b) + 1
      && t.subs == d.subs[i := d.subs[i].(eventKey := NextKey(d.subs[i].eventKey))]
      && t.subs[i + 1..] == d.subs[i + 1..]
      && NotesFor(t, d.subs[i + 1..], b, clock, r + 1) == NotesFor(d, d.subs[i + 1..], b, clock, r + 1)
  {
    hide NotesFor;
    OthersDoNotMatter(d, Issue(d, i, b, NextKey(d.subs[i].eventKey)), d.subs[i + 1..], b, clock, r + 1);
  }

  /** What the loop has done when it is over */
  predicate IsNotified(d: Device, t: Device, i: nat, b: nat, clock: Clock, r: nat) {
    && i <= |d.subs|
    && var notes := NotesFor(d, d.subs[i..], b, clock, r);
       && t.queue == d.queue + notes && RefsOf(t, b) == RefsOf(d, b) + |notes|
       && t.subs == d.subs[..i] + Advanced(d.subs[i..], clock, r)
  }

  lemma Expires(d: Device, t: Device, i: nat, b: nat, clock: Clock, r: nat)
    requires i < |d.subs| && IsExpired(d.subs[i], clock(r))
    requires IsNotified(d.(subs := RemoveAt(d.subs, i)), t, i, b, clock, r)
    ensures IsNotified(d, t, i, b, clock, r)
  {
    var e := d.(subs := RemoveAt(d.subs, i));
    assert e.subs[i..] == d.subs[i..][1..] && e.subs[..i] == d.subs[..i];
    OthersDoNotMatter(d, e, e.subs[i..], b, clock, r);
  }

  lemma Passes(d: Device, t: Device, i: nat, b: nat, clock: Clock, r: nat)
    requires i < |d.subs| && !IsExpired(d.subs[i], clock(r)) && !d.subs[i].active
    requires IsNotified(d, t, i + 1, b, clock, r)
    ensures IsNotified(d, t, i, b, clock, r)
  {
    assert d.subs[i + 1..] == d.subs[i..][1..];
    assert d.subs[..i + 1] == d.subs[..i] + [d.subs[i]];
  }

  lemma Notifies(d: Device, t: Device, i: nat, b: nat, clock: Clock, r: nat)
    requires i < |d.subs| && K.DistinctSids(d.subs) && GetsOne(d.subs[i], clock(r))
    requires IsNotified(Issue(d, i, b, NextKey(d.subs[i].eventKey)), t, i + 1, b, clock, r + 1)
    ensures IsNotified(d, t, i, b, clock, r)
  {
    hide Issue, RefsOf, NextNote;
    IssueForOne(d, i, b, clock, r);
    assert d.subs[i + 1..] == d.subs[i..][1..];
    var e := Issue(d, i, b, NextKey(d.subs[i].eventKey));
    assert e.subs[..i + 1] == d.subs[..i] + [d.subs[i].(eventKey := NextKey(d.subs[i].eventKey))];
  }

  lemma {:induction false} LoopNotifies(d: Device, i: nat, b: nat, clock: Clock, r: nat)
    requires i <= |d.subs| && K.DistinctSids(d.subs)
    ensures IsNotified(d, NotifyFrom(d, i, b, clock, r), i, b, clock, r)
    decreases |d.subs| - i
  {
    hide Issue, IsNotified;
    if i == |d.subs| {
      NobodyLeft(d, b, clock, r);
    } else if IsExpired(d.subs[i], clock(r)) {
      var e := d.(subs := RemoveAt(d.subs, i));
      LoopNotifies(e, i, b, clock, r);
      Expires(d, NotifyFrom(e, i, b, clock, r), i, b, clock, r);
    } else if d.subs[i].active {
      IssueForOne(d, i, b, clock, r);
      var e := Issue(d, i, b, NextKey(d.subs[i].eventKey));
      LoopNotifies(e, i + 1, b, clock, r + 1);
      Notifies(d, NotifyFrom(e, i + 1, b, clock, r + 1), i, b, clock, r);
    } else {
      LoopNotifies(d, i + 1, b, clock, r);
      Passes(d, NotifyFrom(d, i + 1, b, clock, r), i, b, clock, r);
    }
  }

  lemma NobodyLeft(d: Device, b: nat, clock: Clock, r: nat)
    ensures IsNotified(d, d, |d.subs|, b, clock, r)
  {
    assert d.subs[|d.subs|..] == [];
    assert d.subs[..|d.subs|] == d.subs;
  }

  /** `genaNotifyAll` puts one job for each active, unexpired subscription at the end of the queue, with the next key of
      that subscription; the list loses what has expired; and the shared counter is the number of those jobs, or the
      buffers are freed at once if there is none. */
  lemma NotifyAllReachesAll(d: Device, clock: Clock)
    requires K.DistinctSids(d.subs)
    ensures var t, b, notes := NotifyAll(d, clock), d.nextBuffer, NotesFor(d, d.subs, d.nextBuffer, clock, 0);
      && t.queue == d.queue + notes
      && t.subs == Advanced(d.subs, clock, 0)
      && RefsOf(t, b) == |notes|
      && t.freed == (if notes == [] then d.freed + [b] else d.freed)
  {
    hide NotifyFrom, NotesFor, Advanced, IsNotified, K.DistinctSids, FreeUnused, RefsOf;
    var b := d.nextBuffer;
    var e := d.(refs := d.refs[b := 0], nextBuffer := b + 1);
    Opens(d, b);
    Closes(NotifyFrom(e, 0, b, clock, 0), b);
    LoopNotifies(e, 0, b, clock, 0);
    FromTheStart(e, NotifyFrom(e, 0, b, clock, 0), b, clock);
    SameHistory(d, e, b, clock);
    LoopFreesNothing(e, 0, b, clock, 0);
  }

  lemma Opens(d: Device, b: nat)
    ensures RefsOf(d.(refs := d.refs[b := 0], nextBuffer := b + 1), b) == 0
  {
  }

  lemma Closes(d: Device, b: nat)
    ensures var t := FreeUnused(d, b);
      t.queue == d.queue && t.subs == d.subs && RefsOf(t, b) == 0 && t.freed == d.freed + [b]
  {
  }

  lemma SameHistory(d: Device, t: Device, b: nat, clock: Clock)
    requires t.issued == d.issued
    ensures NotesFor(t, d.subs, b, clock, 0) == NotesFor(d, d.subs, b, clock, 0)
  {
    OthersDoNotMatter(d, t, d.subs, b, clock, 0);
  }

  lemma FromTheStart(d: Device, t: Device, b: nat, clock: Clock)
    requires IsNotified(d, t, 0, b, clock, 0)
    ensures var notes := NotesFor(d, d.subs, b, clock, 0);
      t.queue == d.queue + notes && RefsOf(t, b) == RefsOf(d, b) + |notes| && t.subs == Advanced(d.subs, clock, 0)
  {
    hide NotesFor, Advanced, RefsOf;
    assert d.subs[0..] == d.subs && d.subs[..0] == [];
  }

  lemma {:induction false} LoopFreesNothing(d: Device, i: nat, b: nat, clock: Clock, r: nat)
    requires i <= |d.subs|
    ensures NotifyFrom(d, i, b, clock, r).freed == d.freed
    decreases |d.subs| - i
  {
    if i < |d.subs| {
      if IsExpired(d.subs[i], clock(r)) {
        LoopFreesNothing(d.(subs := RemoveAt(d.subs, i)), i, b, clock, r);
      } else if d.subs[i].active {
        LoopFreesNothing(Issue(d, i, b, NextKey(d.subs[i].eventKey)), i + 1, b, clock, r + 1);
      } else {
        LoopFreesNothing(d, i + 1, b, clock, r);
      }
    }
  }
}
