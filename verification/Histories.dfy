/** The lock and both workloads name only versions their keys have reached, so the histories of their calls are
    linearizable. */
module Histories {
  import opened KvServer
  import opened Clerk
  import opened LateWrites
  import opened Linearizability
  import Lock
  import Appends
  import OnePuts

  /** The history has a legal order, and if every call has returned the check of each key passes. */
  ghost predicate HistoryOk(s: Sys) {
    LinearizableSoFar(s) && (Quiet(s) ==> CheckPasses(s))
  }

  lemma ReachedHistory(e: Sys, t: Sys)
    requires Init(e) && e.store == map[] && Reaches(e, t)
    ensures HistoryOk(t)
  {
    var steps :| Valid(e, steps) && VersionsReached(e, steps) && After(e, steps) == t;
    LinearizableWhenVersionsReached(e, steps);
    if Quiet(t) {
      HarnessPasses(e, steps);
    }
  }

  // ----- The lock

  /** What clients do besides locking is disciplined too. */
  predicate PlainReached(u: Lock.Setup, s: Lock.State, acts: seq<Lock.Action>)
    requires Lock.Runs(u, s, acts)
    decreases |acts|
  {
    acts == [] ||
    (&& (acts[0].CallPlain? && acts[0].op.Put? ==> acts[0].op.version <= VersionOf(s.sys.store, acts[0].op.key))
     && PlainReached(u, Lock.Act(u, s, acts[0]), acts[1..]))
  }

  lemma LockStep(u: Lock.Setup, s: Lock.State, a: Lock.Action)
    requires Lock.Safe(u, s) && Lock.Can(u, s, a)
    requires a.CallPlain? && a.op.Put? ==> a.op.version <= VersionOf(s.sys.store, a.op.key)
    ensures Reaches(s.sys, Lock.Act(u, s, a).sys)
  {
    if a.CallAcquire? || a.CallRelease? {
      ReachesItself(s.sys);
    } else {
      if a.Request? {
        assert Lock.PcOk(u, s.sys, a.c, s.pcs[a.c]);
      }
      ReachesStep(s.sys, Lock.SysStep(u, s, a));
    }
  }

  lemma {:induction false} LockReaches(u: Lock.Setup, s: Lock.State, acts: seq<Lock.Action>)
    requires Lock.GoodSetup(u) && Lock.Safe(u, s) && Lock.Runs(u, s, acts) && PlainReached(u, s, acts)
    ensures Reaches(s.sys, Lock.End(u, s, acts).sys)
    decreases |acts|
  {
    if acts == [] {
      ReachesItself(s.sys);
    } else {
      var s' := Lock.Act(u, s, acts[0]);
      LockStep(u, s, acts[0]);
      Lock.ActSafe(u, s, acts[0]);
      LockReaches(u, s', acts[1..]);
      ReachesTransitive(s.sys, s'.sys, Lock.End(u, s', acts[1..]).sys);
    }
  }

  /** Over every run of clients that lock, unlock and make disciplined calls on other keys. */
  lemma LockHistory(u: Lock.Setup, s0: Lock.State, acts: seq<Lock.Action>)
    requires Lock.GoodSetup(u) && Lock.Start(s0) && s0.sys.store == map[]
    requires Lock.Runs(u, s0, acts) && PlainReached(u, s0, acts)
    ensures HistoryOk(Lock.End(u, s0, acts).sys)
  {
    Lock.StartSafe(u, s0);
    LockReaches(u, s0, acts);
    ReachedHistory(s0.sys, Lock.End(u, s0, acts).sys);
  }

  // ----- Appends

  lemma AppendsStep(j: Appends.Codec, s: Appends.State, a: Appends.Action)
    requires Appends.Safe(j, s) && Appends.Can(j, s, a)
    ensures Reaches(s.sys, Appends.Act(j, s, a).sys)
  {
    match a
    case Begin(_) => ReachesItself(s.sys);
    case Finish(_) => ReachesItself(s.sys);
    case Request(c) =>
      assert Appends.ProgOk(j, s.sys, c, s.progs[c]);
      ReachesStep(s.sys, Invoke(c, Appends.RequestAt(j, s.progs[c].pc)));
    case Network(step) => ReachesStep(s.sys, step);
    case Respond(c) => ReachesStep(s.sys, Deliver(c));
  }

  lemma {:induction false} AppendsReach(j: Appends.Codec, s: Appends.State, acts: seq<Appends.Action>)
    requires Appends.Lossless(j) && Appends.Safe(j, s) && Appends.Runs(j, s, acts)
    ensures Reaches(s.sys, Appends.End(j, s, acts).sys)
    decreases |acts|
  {
    if acts == [] {
      ReachesItself(s.sys);
    } else {
      var s' := Appends.Act(j, s, acts[0]);
      AppendsStep(j, s, acts[0]);
      Appends.ActSafe(j, s, acts[0]);
      AppendsReach(j, s', acts[1..]);
      ReachesTransitive(s.sys, s'.sys, Appends.End(j, s', acts[1..]).sys);
    }
  }

  /** Over every run of the append workload, from any disciplined way of putting the empty list on an empty server. */
  lemma AppendsHistory(j: Appends.Codec, e: Sys, s0: Appends.State, acts: seq<Appends.Action>)
    requires Appends.Lossless(j) && Init(e) && e.store == map[] && Reaches(e, s0.sys)
    requires Appends.Start(j, s0) && Appends.Runs(j, s0, acts)
    ensures HistoryOk(Appends.End(j, s0, acts).sys)
  {
    Appends.StartSafe(j, s0);
    AppendsReach(j, s0, acts);
    ReachesTransitive(e, s0.sys, Appends.End(j, s0, acts).sys);
    ReachedHistory(e, Appends.End(j, s0, acts).sys);
  }

  /** One such way: client c puts the list with a single call. */
  lemma AppendsCanStart(j: Appends.Codec, e: Sys, c: Client)
    requires Appends.Lossless(j) && Init(e) && e.store == map[] && IdleIn(e, c)
    ensures var sys := WholeCall(e, c, Put(Appends.KEY, j.enc([]), 0));
            var s0 := Appends.State(sys, map d | d in sys.clients :: Appends.Prog(Appends.Top, 0, 0, 0, {}, {}));
            Appends.Start(j, s0) && Reaches(e, s0.sys)
  {
    var put := Put(Appends.KEY, j.enc([]), 0);
    MakesCall(e, c, put);
    var steps :| Valid(e, steps) && VersionsReached(e, steps) && After(e, steps) == WholeCall(e, c, put);
    InitConsistent(e);
    RunConsistent(e, steps);
  }

  // ----- Racing puts

  lemma OnePutsStep(j: OnePuts.Codec, s: OnePuts.State, a: OnePuts.Action)
    requires OnePuts.Safe(j, s) && OnePuts.Can(j, s, a)
    ensures Reaches(s.sys, OnePuts.Act(j, s, a).sys)
  {
    match a
    case Begin(_) => ReachesItself(s.sys);
    case Finish(_) => ReachesItself(s.sys);
    case Request(c) =>
      assert OnePuts.PcOk(j, s.sys, c, s.progs[c].pc);
      ReachesStep(s.sys, Invoke(c, OnePuts.RequestAt(j, c, s.progs[c].pc)));
    case Network(step) => ReachesStep(s.sys, step);
    case Respond(c) => ReachesStep(s.sys, Deliver(c));
  }

  lemma {:induction false} OnePutsReach(j: OnePuts.Codec, s: OnePuts.State, acts: seq<OnePuts.Action>)
    requires OnePuts.Lossless(j) && OnePuts.Safe(j, s) && OnePuts.Runs(j, s, acts)
    ensures Reaches(s.sys, OnePuts.End(j, s, acts).sys)
    decreases |acts|
  {
    if acts == [] {
      ReachesItself(s.sys);
    } else {
      var s' := OnePuts.Act(j, s, acts[0]);
      OnePutsStep(j, s, acts[0]);
      OnePuts.ActSafe(j, s, acts[0]);
      OnePutsReach(j, s', acts[1..]);
      ReachesTransitive(s.sys, s'.sys, OnePuts.End(j, s', acts[1..]).sys);
    }
  }

  /** Over every run of racing clients. */
  lemma OnePutsHistory(j: OnePuts.Codec, s0: OnePuts.State, acts: seq<OnePuts.Action>)
    requires OnePuts.Lossless(j) && OnePuts.Start(s0) && s0.sys.store == map[] && OnePuts.Runs(j, s0, acts)
    ensures HistoryOk(OnePuts.End(j, s0, acts).sys)
  {
    OnePuts.StartSafe(j, s0);
    OnePutsReach(j, s0, acts);
    ReachedHistory(s0.sys, OnePuts.End(j, s0, acts).sys);
  }
}
