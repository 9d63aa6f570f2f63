/** Acquire takes a free lock and Release frees it: runs in which one client's calls go through and nobody else acts. */
module LockRuns {
  import opened KvServer
  import opened Clerk
  import opened LateWrites
  import L = Lock

  // ----- Runs of one client

  /** What client c does itself, and what the server does for it. */
  predicate Alone(a: L.Action, c: Client) {
    match a
    case CallAcquire(d, _) => d == c
    case CallRelease(d, _) => d == c
    case CallPlain(d, _) => d == c
    case Request(d) => d == c
    case Network(step) => step == Send(c) || step.Execute?
    case Respond(d) => d == c
  }

  predicate AllAlone(acts: seq<L.Action>, c: Client) {
    forall i | 0 <= i < |acts| :: Alone(acts[i], c)
  }

  /** Acting alone, client c can get from s to t. */
  ghost predicate Gets(u: L.Setup, s: L.State, c: Client, t: L.State) {
    exists acts :: L.Runs(u, s, acts) && AllAlone(acts, c) && L.End(u, s, acts) == t
  }

  lemma {:induction false} RunConcat(u: L.Setup, s: L.State, a: seq<L.Action>, b: seq<L.Action>)
    requires L.Runs(u, s, a) && L.Runs(u, L.End(u, s, a), b)
    ensures L.Runs(u, s, a + b) && L.End(u, s, a + b) == L.End(u, L.End(u, s, a), b)
    decreases |a|
  {
    if a == [] {
      assert a + b == b;
    } else {
      RunConcat(u, L.Act(u, s, a[0]), a[1..], b);
      assert (a + b)[0] == a[0] && (a + b)[1..] == a[1..] + b;
    }
  }

  lemma GetsTransitive(u: L.Setup, s: L.State, c: Client, t: L.State, v: L.State)
    requires Gets(u, s, c, t) && Gets(u, t, c, v)
    ensures Gets(u, s, c, v)
  {
    var a :| L.Runs(u, s, a) && AllAlone(a, c) && L.End(u, s, a) == t;
    var b :| L.Runs(u, t, b) && AllAlone(b, c) && L.End(u, t, b) == v;
    RunConcat(u, s, a, b);
    assert AllAlone(a + b, c);
  }

  lemma GetsStep(u: L.Setup, s: L.State, c: Client, a: L.Action)
    requires L.Can(u, s, a) && Alone(a, c)
    ensures Gets(u, s, c, L.Act(u, s, a))
  {
    var s' := L.Act(u, s, a);
    assert L.Runs(u, s', []) && L.End(u, s', []) == s';
    assert [a][1..] == [];
    assert L.Runs(u, s, [a]) && L.End(u, s, [a]) == s' && AllAlone([a], c);
  }

  lemma GetsTwo(u: L.Setup, s: L.State, c: Client, a: L.Action, b: L.Action)
    requires L.Can(u, s, a) && Alone(a, c) && L.Can(u, L.Act(u, s, a), b) && Alone(b, c)
    ensures Gets(u, s, c, L.Act(u, L.Act(u, s, a), b))
  {
    GetsStep(u, s, c, a);
    GetsStep(u, L.Act(u, s, a), c, b);
    GetsTransitive(u, s, c, L.Act(u, s, a), L.Act(u, L.Act(u, s, a), b));
  }

  // ----- One clerk call of Acquire or Release

  /** Client c is inside Acquire or Release, between two calls of the clerk. */
  predicate Between(s: L.State, c: Client) {
    c in s.pcs && IdleIn(s.sys, c) && (L.InAcquire(s.pcs[c]) || L.InRelease(s.pcs[c]))
  }

  /** The state when the call its program point makes has gone through. */
  function Through(u: L.Setup, s: L.State, c: Client): L.State
    requires Between(s, c)
  {
    var pc := s.pcs[c];
    var op := L.RequestAt(u, c, pc);
    var next := L.AfterReply(u, c, pc, Apply(s.sys.store, op).1);
    L.State(WholeCall(s.sys, c, op), s.pcs[c := next],
            if L.InAcquire(pc) && next == L.Out then s.held + {(c, pc.n)} else s.held)
  }

  lemma GoesThrough(u: L.Setup, s: L.State, c: Client)
    requires Between(s, c)
    ensures Gets(u, s, c, Through(u, s, c))
  {
    var op := L.RequestAt(u, c, s.pcs[c]);
    var s2 := s.(sys := InFlight(s.sys, c, op));
    SendsOff(s.sys, c, op);
    GetsTwo(u, s, c, L.Request(c), L.Network(Send(c)));
    Answered(u, s, c, op);
    GetsTransitive(u, s, c, s2, Through(u, s, c));
  }

  lemma Answered(u: L.Setup, s: L.State, c: Client, op: Op)
    requires Between(s, c) && op == L.RequestAt(u, c, s.pcs[c])
    ensures Gets(u, s.(sys := InFlight(s.sys, c, op)), c, Through(u, s, c))
  {
    ComesBack(s.sys, c, op);
    GetsTwo(u, s.(sys := InFlight(s.sys, c, op)), c, L.Network(Execute(|s.sys.msgs|)), L.Respond(c));
  }

  // ----- Acquire

  /** Client c holds n, and nothing has happened to any other lock or client. */
  ghost predicate Holding(u: L.Setup, s: L.State, c: Client, n: string, t: L.State) {
    && c in t.pcs && IdleIn(t.sys, c) && t.pcs == s.pcs[c := L.Out] && t.held == s.held + {(c, n)}
    && L.Owner(t.sys, n) == u.id(c, n)
    && (forall k | k != n :: L.Owner(t.sys, k) == L.Owner(s.sys, k))
  }

  /** Acting alone, client c can come to hold n. */
  ghost predicate CanTake(u: L.Setup, s: L.State, c: Client, n: string) {
    exists t :: Gets(u, s, c, t) && Holding(u, s, c, n, t)
  }

  lemma TakeAfter(u: L.Setup, s: L.State, s': L.State, c: Client, n: string)
    requires Gets(u, s, c, s') && CanTake(u, s', c, n)
    requires c in s.pcs && c in s'.pcs && s'.pcs == s.pcs[c := s'.pcs[c]] && s'.held == s.held
    requires forall k | k != n :: L.Owner(s'.sys, k) == L.Owner(s.sys, k)
    ensures CanTake(u, s, c, n)
  {
    var t :| Gets(u, s', c, t) && Holding(u, s', c, n, t);
    GetsTransitive(u, s, c, s', t);
    assert Holding(u, s, c, n, t);
  }

  /** The Put of Acquire, on a free lock whose version it knows. */
  lemma PutTakes(u: L.Setup, s: L.State, c: Client, n: string, v: nat)
    requires Between(s, c) && s.pcs[c] == L.AcqPut(n, v) && v == VersionOf(s.sys.store, n)
    ensures CanTake(u, s, c, n)
  {
    GoesThrough(u, s, c);
    assert Holding(u, s, c, n, Through(u, s, c));
  }

  predicate FreeOrOwn(u: L.Setup, s: L.State, c: Client, n: string) {
    L.Owner(s.sys, n) == "" || L.Owner(s.sys, n) == u.id(c, n)
  }

  /** The Get of Acquire, on a free lock or one's own. */
  lemma GetTakes(u: L.Setup, s: L.State, c: Client, n: string)
    requires L.GoodSetup(u) && StoreOk(s.sys.store) && Between(s, c) && s.pcs[c] == L.AcqGet(n) && FreeOrOwn(u, s, c, n)
    ensures CanTake(u, s, c, n)
  {
    var s' := Through(u, s, c);
    GoesThrough(u, s, c);
    if L.Owner(s.sys, n) == "" {
      PutTakes(u, s', c, n, VersionOf(s.sys.store, n));
      TakeAfter(u, s, s', c, n);
    } else {
      assert Holding(u, s, c, n, s');
    }
  }

  /** From any point of Acquire. */
  lemma AcquireGoesOn(u: L.Setup, s: L.State, c: Client, n: string)
    requires L.GoodSetup(u) && StoreOk(s.sys.store) && Between(s, c) && FreeOrOwn(u, s, c, n)
    requires L.InAcquire(s.pcs[c]) && s.pcs[c].n == n
    requires s.pcs[c].AcqPut? ==> s.pcs[c].v <= VersionOf(s.sys.store, n)
    requires s.pcs[c].AcqCheck? ==> n in s.sys.store
    ensures CanTake(u, s, c, n)
  {
    var s' := Through(u, s, c);
    match s.pcs[c]
    case AcqGet(_) => GetTakes(u, s, c, n);
    case AcqPut(_, v) =>
      if v == VersionOf(s.sys.store, n) {
        PutTakes(u, s, c, n, v);
      } else {
        GoesThrough(u, s, c);
        GetTakes(u, s', c, n);
        TakeAfter(u, s, s', c, n);
      }
    case AcqCheck(_) =>
      GoesThrough(u, s, c);
      if L.Owner(s.sys, n) == u.id(c, n) {
        assert Holding(u, s, c, n, s');
      } else {
        GetTakes(u, s', c, n);
        TakeAfter(u, s, s', c, n);
      }
  }

  /** In every safe state a client outside that calls Acquire on a lock that is free, or already its own, comes to
      hold it if its calls go through and nobody else acts. */
  lemma AcquireTakes(u: L.Setup, s: L.State, c: Client, n: string)
    requires L.GoodSetup(u) && L.Safe(u, s) && c in s.pcs && s.pcs[c] == L.Out && n in u.names && FreeOrOwn(u, s, c, n)
    ensures CanTake(u, s, c, n)
  {
    assert L.CallOk(u, s.sys, c, s.pcs[c]);
    var s' := L.Act(u, s, L.CallAcquire(c, n));
    GetsStep(u, s, c, L.CallAcquire(c, n));
    GetTakes(u, s', c, n);
    TakeAfter(u, s, s', c, n);
  }

  // ----- Release

  /** Client c is out again, n is free, and nothing has happened to any other lock or client. */
  ghost predicate Released(s: L.State, c: Client, n: string, t: L.State) {
    && c in t.pcs && IdleIn(t.sys, c) && t.pcs == s.pcs[c := L.Out] && t.held == s.held - {(c, n)}
    && L.Owner(t.sys, n) == ""
    && (forall k | k != n :: L.Owner(t.sys, k) == L.Owner(s.sys, k))
  }

  /** In every safe state Release by the owner frees the lock, if its calls go through and nobody else acts. */
  lemma ReleaseFrees(u: L.Setup, s: L.State, c: Client, n: string)
    requires L.GoodSetup(u) && L.Safe(u, s) && c in s.pcs && s.pcs[c] == L.Out && n in u.names && L.Owner(s.sys, n) == u.id(c, n)
    ensures exists t :: Gets(u, s, c, t) && Released(s, c, n, t)
  {
    assert L.CallOk(u, s.sys, c, s.pcs[c]);
    var s1 := L.Act(u, s, L.CallRelease(c, n));
    var s2 := Through(u, s1, c);
    assert s2.pcs[c] == L.RelPut(n, VersionOf(s.sys.store, n));
    var s3 := Through(u, s2, c);
    GetsStep(u, s, c, L.CallRelease(c, n));
    GoesThrough(u, s1, c);
    GoesThrough(u, s2, c);
    GetsTransitive(u, s, c, s1, s2);
    GetsTransitive(u, s, c, s2, s3);
    assert Released(s, c, n, s3);
  }

  /** Release by anybody else returns with the store as it was. */
  lemma ReleaseByOther(u: L.Setup, s: L.State, c: Client, n: string)
    requires L.Safe(u, s) && c in s.pcs && s.pcs[c] == L.Out && n in u.names && L.Owner(s.sys, n) != u.id(c, n)
    ensures exists t :: Gets(u, s, c, t) && t.pcs == s.pcs && t.sys.store == s.sys.store
  {
    assert L.CallOk(u, s.sys, c, s.pcs[c]);
    var s1 := L.Act(u, s, L.CallRelease(c, n));
    var s2 := Through(u, s1, c);
    GetsStep(u, s, c, L.CallRelease(c, n));
    GoesThrough(u, s1, c);
    GetsTransitive(u, s, c, s1, s2);
    assert s2.pcs == s.pcs && s2.sys.store == s.sys.store;
  }

  /** Client c is out again and does not own n. */
  ghost predicate CanLeave(u: L.Setup, s: L.State, c: Client, n: string) {
    exists t :: Gets(u, s, c, t) && c in s.pcs && t.pcs == s.pcs[c := L.Out] && L.Owner(t.sys, n) != u.id(c, n)
  }

  lemma LeaveAfter(u: L.Setup, s: L.State, c: Client, n: string)
    requires Between(s, c) && CanLeave(u, Through(u, s, c), c, n)
    ensures CanLeave(u, s, c, n)
  {
    var s' := Through(u, s, c);
    GoesThrough(u, s, c);
    var t :| Gets(u, s', c, t) && c in s'.pcs && t.pcs == s'.pcs[c := L.Out] && L.Owner(t.sys, n) != u.id(c, n);
    GetsTransitive(u, s, c, s', t);
    assert t.pcs == s.pcs[c := L.Out];
  }

  lemma LeavesNow(u: L.Setup, s: L.State, c: Client, n: string)
    requires Between(s, c) && Through(u, s, c).pcs[c] == L.Out && L.Owner(Through(u, s, c).sys, n) != u.id(c, n)
    ensures CanLeave(u, s, c, n)
  {
    GoesThrough(u, s, c);
    assert Through(u, s, c).pcs == s.pcs[c := L.Out];
  }

  lemma GetLeaves(u: L.Setup, s: L.State, c: Client, n: string)
    requires L.GoodSetup(u) && StoreOk(s.sys.store) && Between(s, c) && s.pcs[c] == L.RelGet(n)
    ensures CanLeave(u, s, c, n)
  {
    if L.Owner(s.sys, n) == u.id(c, n) {
      assert Through(u, s, c).pcs[c] == L.RelPut(n, VersionOf(s.sys.store, n));
      LeavesNow(u, Through(u, s, c), c, n);
      LeaveAfter(u, s, c, n);
    } else {
      LeavesNow(u, s, c, n);
    }
  }

  /** From every point of Release between two calls, the check after ErrMaybe included, the client gets out without the
      lock, if its calls go through and nobody else acts. */
  lemma ReleaseGoesOn(u: L.Setup, s: L.State, c: Client, n: string)
    requires L.GoodSetup(u) && L.Safe(u, s) && Between(s, c) && L.InRelease(s.pcs[c]) && s.pcs[c].n == n
    ensures CanLeave(u, s, c, n)
  {
    assert L.PcOk(u, s.sys, c, s.pcs[c]);
    ReleasePoints(u, s, c, n);
  }

  lemma ReleasePoints(u: L.Setup, s: L.State, c: Client, n: string)
    requires L.GoodSetup(u) && StoreOk(s.sys.store) && Between(s, c) && L.InRelease(s.pcs[c]) && s.pcs[c].n == n
    requires s.pcs[c].RelPut? ==> s.pcs[c].v == VersionOf(s.sys.store, n)
    requires s.pcs[c].RelCheck? ==> n in s.sys.store && L.Owner(s.sys, n) != u.id(c, n)
    ensures CanLeave(u, s, c, n)
  {
    match s.pcs[c]
    case RelGet(_) => GetLeaves(u, s, c, n);
    case RelPut(_, _) => LeavesNow(u, s, c, n);
    case RelCheck(_) =>
      if L.Owner(s.sys, n) == "" {
        LeavesNow(u, s, c, n);
      } else {
        GetLeaves(u, Through(u, s, c), c, n);
        LeaveAfter(u, s, c, n);
      }
  }
}
