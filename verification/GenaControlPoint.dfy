/** The subscription list of a control point, client_table.c, and how gena_ctrlpt.c uses it. */
module GenaControlPoint {
  import opened Bytes
  import opened GenaEndToEnd

  /** A `ClientSubscription`: the SID that the application knows, and the one that the device gave */
  datatype ClientSub = ClientSub(sid: CString, actualSid: CString)

  /** The SIDs that the devices gave */
  function ActualSids(subs: seq<ClientSub>): set<CString> {
    set s <- subs :: s.actualSid
  }

  predicate HasActual(subs: seq<ClientSub>, sid: CString) {
    exists s <- subs :: StartsWith(s.actualSid, sid)
  }

  /** The subscription with the SID is taken off the list, if there is one: the first one. */
  function WithoutSid(subs: seq<ClientSub>, sid: CString): seq<ClientSub> {
    if subs == [] then []
    else if subs[0].sid == sid then subs[1..]
    else [subs[0]] + WithoutSid(subs[1..], sid)
  }

  /** The comparison of `GetClientSubActualSID` stops at the end of the SID that is looked for. It finds a subscription
      exactly when that SID is on the list, if and only if the SID is on the list or no longer one begins with it. */
  lemma LookUpIsExact(subs: seq<ClientSub>, sid: CString)
    ensures (HasActual(subs, sid) <==> sid in ActualSids(subs))
      <==> (sid in ActualSids(subs) || forall s <- subs :: |s.actualSid| > |sid| ==> s.actualSid[..|sid|] != sid)
  {
    if s :| s in subs && s.actualSid == sid {
      assert StartsWith(s.actualSid, sid);
    }
    if s :| s in subs && StartsWith(s.actualSid, sid) {
      assert s.actualSid[..|sid|] == sid;
      assert |s.actualSid| == |sid| ==> s.actualSid == sid;
    }
    if s :| s in subs && |s.actualSid| > |sid| && s.actualSid[..|sid|] == sid {
      assert StartsWith(s.actualSid, sid);
    }
  }

  /** With SIDs of one length, as a device makes them, the comparison is therefore exact. */
  lemma OneLengthIsExact(subs: seq<ClientSub>, sid: CString)
    requires forall s <- subs :: |s.actualSid| == |sid|
    ensures HasActual(subs, sid) <==> sid in ActualSids(subs)
  {
    LookUpIsExact(subs, sid);
  }

  /** Taking a subscription off the list leaves all the others on it. */
  lemma {:induction false} WithoutKeepsOthers(subs: seq<ClientSub>, sid: CString)
    ensures forall s <- subs :: s.sid != sid ==> s in WithoutSid(subs, sid)
    ensures forall s <- WithoutSid(subs, sid) :: s in subs
    ensures (forall i, j :: 0 <= i < j < |subs| ==> subs[i].sid != subs[j].sid) ==>
      forall s <- WithoutSid(subs, sid) :: s.sid != sid
  {
    if subs != [] && subs[0].sid != sid {
      WithoutKeepsOthers(subs[1..], sid);
    }
  }

  lemma {:induction false} WithoutFirst(subs: seq<ClientSub>, sid: CString, i: nat)
    requires i <= |subs| && (i < |subs| ==> subs[i].sid == sid)
    requires forall k :: 0 <= k < i ==> subs[k].sid != sid
    ensures WithoutSid(subs, sid) == if i < |subs| then subs[..i] + subs[i + 1..] else subs
  {
    if i > 0 {
      WithoutFirst(subs[1..], sid, i - 1);
      if i < |subs| {
        var tl := subs[1..];
        assert tl[i..] == subs[i + 1..];
        assert [subs[0]] + tl[..i - 1] == subs[..i];
      }
    }
  }

  class ControlPoint {
    var clientSubList: seq<ClientSub>

    constructor ()
      ensures clientSubList == []
    {
      clientSubList := [];
    }

    /** `GetClientSubActualSID`: the index of the first subscription that matches, or the length of the list */
    method GetClientSubActualSID(sid: CString) returns (i: nat)
      ensures i <= |clientSubList|
      ensures i < |clientSubList| ==> StartsWith(clientSubList[i].actualSid, sid)
      ensures forall k :: 0 <= k < i ==> !StartsWith(clientSubList[k].actualSid, sid)
    {
      i := 0;
      while i < |clientSubList| && !StartsWith(clientSubList[i].actualSid, sid)
        invariant i <= |clientSubList|
        invariant forall k :: 0 <= k < i ==> !StartsWith(clientSubList[k].actualSid, sid)
      {
        i := i + 1;
      }
    }

    /** `genaSubscribe` when it puts the subscription on the list */
    method Insert(sid: CString, actualSid: CString)
      modifies this
      ensures clientSubList == [ClientSub(sid, actualSid)] + old(clientSubList)
      ensures ActualSids(clientSubList) == ActualSids(old(clientSubList)) + {actualSid}
    {
      clientSubList := [ClientSub(sid, actualSid)] + clientSubList;
    }

    /** `RemoveClientSubClientSID` */
    method RemoveClientSubClientSID(sid: CString)
      modifies this
      ensures clientSubList == WithoutSid(old(clientSubList), sid)
    {
      var finger := 0;
      while finger < |clientSubList| && clientSubList[finger].sid != sid
        invariant finger <= |clientSubList|
        invariant forall k :: 0 <= k < finger ==> clientSubList[k].sid != sid
      {
        finger := finger + 1;
      }
      WithoutFirst(clientSubList, sid, finger);
      if finger < |clientSubList| {
        clientSubList := clientSubList[..finger] + clientSubList[finger + 1..];
      }
    }

    /** `gena_process_notification_event` when it looks for the subscription: at first (`locked` is false), and
        again with `SubscribeLock`. The answer is 200 if there is one; a first event waits for the lock. */
    method LookFor(sid: CString, eventKey: int, locked: bool) returns (stage: Stage)
      ensures stage == if HasActual(clientSubList, sid) then Done(OK200)
                       else if eventKey == 0 && !locked then Waiting
                       else Done(PRECONDITION_FAILED412)
    {
      var i := GetClientSubActualSID(sid);
      if i == |clientSubList| {
        return if eventKey == 0 && !locked then Waiting else Done(PRECONDITION_FAILED412);
      }
      assert clientSubList[i] in clientSubList;
      return Done(OK200);
    }
  }
}