/** Runs and their prefixes, and some states that the thread pool gets into, from which runs with a bad end start. */
module PoolReach {
  import opened Options
  import opened PoolSpec
  import opened PoolSystem
  import T = PoolThreads

  lemma Extend(s: System, es: seq<Event>, e: Event)
    requires After(s, es).Some? && Enabled(After(s, es).value, e)
    ensures After(s, es + [e]) == Some(Apply(After(s, es).value, e))
  {
    hide Apply, Enabled;
    assert (es + [e])[..|es|] == es;
  }

  lemma {:induction false} AfterPrefix(s: System, es: seq<Event>, k: nat)
    requires After(s, es).Some? && k <= |es|
    ensures After(s, es[..k]).Some?
  {
    if k < |es| {
      var front := es[..|es| - 1];
      AfterPrefix(s, front, k);
      assert front[..k] == es[..k];
    } else {
      assert es[..k] == es;
    }
  }

  lemma ReachesNext(s: System, attr: Attr, e: Event)
    requires T.Reachable(s, attr) && Enabled(s, e)
    ensures T.Reachable(Apply(s, e), attr)
  {
    hide Apply, Enabled;
    var clients: nat, clock: Time, es :|
      IsTime(clock) && After(InitialSystem(attr, clients, clock), es) == Some(s);
    Extend(InitialSystem(attr, clients, clock), es, e);
  }

  lemma StartsReachable(attr: Attr, clients: nat, clock: Time)
    requires IsTime(clock)
    ensures T.Reachable(InitialSystem(attr, clients, clock), attr)
  {
    assert After(InitialSystem(attr, clients, clock), []) == Some(InitialSystem(attr, clients, clock));
  }

  const NOTHING := History([], [], [], [], [])

  /** A pool with one idle worker, and two clients that are outside */
  function OneIdle(attr: Attr, now: Time): System {
    System(EmptyPool(attr).(totalThreads := 1), [Fresh], [Outside, Outside], Ready, now, NOTHING)
  }

  lemma ReachesOneIdle(attr: Attr, now: Time)
    requires attr.minThreads == 1 && attr.maxThreads > 1 && IsTime(now)
    ensures T.Reachable(OneIdle(attr, now), attr)
  {
    hide T.Reachable;
    var x := Choice(now, true, 0);
    var s := InitialSystem(attr, 2, now);
    assert s.clients == [Outside, Outside];
    StartsReachable(attr, 2, now);
    ReachesNext(s, attr, BeginInit(0, x));
    s := Apply(s, BeginInit(0, x));
    assert s.clients == [Creating(Init(0), true, true), Outside] && s.workers == [Created];
    ReachesNext(s, attr, StartWorker(0));
    s := Apply(s, StartWorker(0));
    assert s.clients == [Creating(Init(0), true, false), Outside] && s.workers == [Fresh];
    ReachesNext(s, attr, Resume(0, x));
    s := Apply(s, Resume(0, x));
    assert s.clients == [Outside, Outside];
  }

  /** A pool without workers, and two clients that are outside */
  function NoWorkers(attr: Attr, now: Time): System {
    System(EmptyPool(attr), [], [Outside, Outside], Ready, now, NOTHING)
  }

  lemma ReachesNoWorkers(attr: Attr, now: Time)
    requires attr.minThreads == 0 && IsTime(now)
    ensures T.Reachable(NoWorkers(attr, now), attr)
  {
    hide T.Reachable;
    var x := Choice(now, true, 0);
    var s := InitialSystem(attr, 2, now);
    assert s.clients == [Outside, Outside];
    StartsReachable(attr, 2, now);
    ReachesNext(s, attr, BeginInit(0, x));
    s := Apply(s, BeginInit(0, x));
    assert s.clients == [Outside, Outside];
  }
}
