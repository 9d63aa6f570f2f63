/** The test program's loop really goes round: with the lock free and nobody else acting, it marks and clears the key and
    gives the lock back. */
module LockLoop {
  import opened KvServer
  import opened Clerk
  import opened LateWrites
  import L = Lock
  import R = LockRuns
  import T = LockClients

  predicate Alone(a: T.Action, c: Client) {
    match a
    case Go(d) => d == c
    case Stop(_) => false
    case Inner(b) => R.Alone(b, c)
  }

  predicate AllAlone(acts: seq<T.Action>, c: Client) {
    forall i | 0 <= i < |acts| :: Alone(acts[i], c)
  }

  ghost predicate Gets(t: T.Test, s: T.State, c: Client, s': T.State) {
    exists acts :: T.Runs(t, s, acts) && AllAlone(acts, c) && T.End(t, s, acts) == s'
  }

  /** One action, then the rest. */
  lemma GetsAfter(t: T.Test, s: T.State, c: Client, a: T.Action, s': T.State)
    requires T.Can(t, s, a) && Alone(a, c) && Gets(t, T.Act(t, s, a), c, s')
    ensures Gets(t, s, c, s')
  {
    var s1 := T.Act(t, s, a);
    var rest :| T.Runs(t, s1, rest) && AllAlone(rest, c) && T.End(t, s1, rest) == s';
    assert ([a] + rest)[1..] == rest;
    assert T.Runs(t, s, [a] + rest) && AllAlone([a] + rest, c) && T.End(t, s, [a] + rest) == s';
  }

  lemma {:induction false} RunThenGets(t: T.Test, s: T.State, c: Client, acts: seq<T.Action>, s': T.State)
    requires T.Runs(t, s, acts) && AllAlone(acts, c) && Gets(t, T.End(t, s, acts), c, s')
    ensures Gets(t, s, c, s')
    decreases |acts|
  {
    if acts != [] {
      RunThenGets(t, T.Act(t, s, acts[0]), c, acts[1..], s');
      GetsAfter(t, s, c, acts[0], s');
    }
  }

  lemma GetsTransitive(t: T.Test, s: T.State, c: Client, s1: T.State, s2: T.State)
    requires Gets(t, s, c, s1) && Gets(t, s1, c, s2)
    ensures Gets(t, s, c, s2)
  {
    var a :| T.Runs(t, s, a) && AllAlone(a, c) && T.End(t, s, a) == s1;
    RunThenGets(t, s, c, a, s2);
  }

  lemma GetsStep(t: T.Test, s: T.State, c: Client, a: T.Action)
    requires T.Can(t, s, a) && Alone(a, c)
    ensures Gets(t, s, c, T.Act(t, s, a))
  {
    var s' := T.Act(t, s, a);
    assert T.Runs(t, s', []) && T.End(t, s', []) == s';
    assert [a][1..] == [];
    assert T.Runs(t, s, [a]) && T.End(t, s, [a]) == s' && AllAlone([a], c);
  }

  lemma GetsTwo(t: T.Test, s: T.State, c: Client, a: T.Action, b: T.Action)
    requires T.Can(t, s, a) && Alone(a, c) && T.Can(t, T.Act(t, s, a), b) && Alone(b, c)
    ensures Gets(t, s, c, T.Act(t, T.Act(t, s, a), b))
  {
    GetsStep(t, s, c, a);
    GetsStep(t, T.Act(t, s, a), c, b);
    GetsTransitive(t, s, c, T.Act(t, s, a), T.Act(t, T.Act(t, s, a), b));
  }

  /** A call of the clerk inside Acquire or Release goes through. */
  function Through(t: T.Test, s: T.State, c: Client): T.State
    requires R.Between(s.lk, c) && c in s.progs
  {
    var lk := R.Through(t.u, s.lk, c);
    var reply := Apply(s.lk.sys.store, L.RequestAt(t.u, c, s.lk.pcs[c])).1;
    T.State(lk, if lk.pcs[c] == L.Out then s.progs[c := T.Prog(T.Next(s.progs[c].at, reply), false)] else s.progs)
  }

  function WithSys(s: T.State, sys: Sys): T.State {
    s.(lk := s.lk.(sys := sys))
  }

  lemma GoesThrough(t: T.Test, s: T.State, c: Client)
    requires R.Between(s.lk, c) && c in s.progs
    ensures Gets(t, s, c, Through(t, s, c))
  {
    var op := L.RequestAt(t.u, c, s.lk.pcs[c]);
    var s2 := WithSys(s, InFlight(s.lk.sys, c, op));
    SendsOff(s.lk.sys, c, op);
    GetsTwo(t, s, c, T.Inner(L.Request(c)), T.Inner(L.Network(Send(c))));
    assert T.Act(t, T.Act(t, s, T.Inner(L.Request(c))), T.Inner(L.Network(Send(c)))) == s2;
    Answered(t, s, s2, c, op);
    GetsTransitive(t, s, c, s2, Through(t, s, c));
  }

  lemma Answered(t: T.Test, s: T.State, s2: T.State, c: Client, op: Op)
    requires R.Between(s.lk, c) && c in s.progs && op == L.RequestAt(t.u, c, s.lk.pcs[c])
    requires s2 == WithSys(s, InFlight(s.lk.sys, c, op))
    ensures Gets(t, s2, c, Through(t, s, c))
  {
    var n := |s.lk.sys.msgs|;
    ComesBack(s.lk.sys, c, op);
    var s3 := T.Act(t, s2, T.Inner(L.Network(Execute(n))));
    assert s3 == WithSys(s, Do(InFlight(s.lk.sys, c, op), Execute(n)));
    GetsTwo(t, s2, c, T.Inner(L.Network(Execute(n))), T.Inner(L.Respond(c)));
    assert L.Act(t.u, s3.lk, L.Respond(c)) == R.Through(t.u, s.lk, c);
  }

  predicate AtPlain(s: T.State, c: Client) {
    && c in s.progs && c in s.lk.pcs && IdleIn(s.lk.sys, c) && s.lk.pcs[c] == L.Out
    && !s.progs[c].called && T.Plainly(s.progs[c].at)
  }

  /** The program's own call of the clerk goes through. */
  function Done(t: T.Test, s: T.State, c: Client): T.State
    requires AtPlain(s, c)
  {
    var op := T.PlainOp(t, c, s.progs[c].at);
    T.State(s.lk.(sys := WholeCall(s.lk.sys, c, op), pcs := s.lk.pcs[c := L.Out]),
            s.progs[c := T.Prog(T.Next(s.progs[c].at, Apply(s.lk.sys.store, op).1), false)])
  }

  lemma GetsDone(t: T.Test, s: T.State, c: Client)
    requires T.GoodTest(t) && AtPlain(s, c)
    ensures Gets(t, s, c, Done(t, s, c))
  {
    var op := T.PlainOp(t, c, s.progs[c].at);
    var s2 := Started(t, s, c);
    SendsOff(s.lk.sys, c, op);
    GetsTwo(t, s, c, T.Go(c), T.Inner(L.Network(Send(c))));
    assert T.Act(t, T.Act(t, s, T.Go(c)), T.Inner(L.Network(Send(c)))) == s2;
    PlainAnswered(t, s, c);
    GetsTransitive(t, s, c, s2, Done(t, s, c));
  }

  function Started(t: T.Test, s: T.State, c: Client): T.State
    requires AtPlain(s, c)
  {
    T.State(s.lk.(sys := InFlight(s.lk.sys, c, T.PlainOp(t, c, s.progs[c].at)), pcs := s.lk.pcs[c := L.Plain]),
            s.progs[c := s.progs[c].(called := true)])
  }

  lemma PlainAnswered(t: T.Test, s: T.State, c: Client)
    requires AtPlain(s, c)
    ensures Gets(t, Started(t, s, c), c, Done(t, s, c))
  {
    var n, op := |s.lk.sys.msgs|, T.PlainOp(t, c, s.progs[c].at);
    var s2 := Started(t, s, c);
    ComesBack(s.lk.sys, c, op);
    var s3 := T.Act(t, s2, T.Inner(L.Network(Execute(n))));
    assert s3 == WithSys(s2, Do(InFlight(s.lk.sys, c, op), Execute(n)));
    GetsTwo(t, s2, c, T.Inner(L.Network(Execute(n))), T.Inner(L.Respond(c)));
    assert T.Act(t, s3, T.Inner(L.Respond(c))).lk == Done(t, s, c).lk;
    assert T.Act(t, s3, T.Inner(L.Respond(c))).progs == Done(t, s, c).progs;
  }

  // ----- Once round the loop

  /** Client c is back at the top, everybody else is where they were, the lock is free, and L0 is clear again after two
      writes. */
  ghost predicate Round(t: T.Test, s: T.State, c: Client, s': T.State) {
    && s'.progs == s.progs && s'.lk.pcs == s.lk.pcs && IdleIn(s'.lk.sys, c)
    && L.Owner(s'.lk.sys, t.name1) == "" && T.Value0(s'.lk.sys) == ""
    && VersionOf(s'.lk.sys.store, T.L0) == VersionOf(s.lk.sys.store, T.L0) + 2
  }

  predicate Ready(s: T.State, c: Client) {
    c in s.progs && c in s.lk.pcs && IdleIn(s.lk.sys, c) && s.lk.pcs[c] == L.Out && !s.progs[c].called && StoreOk(s.lk.sys.store)
  }

  predicate AtTop(t: T.Test, s: T.State, c: Client) {
    && Ready(s, c) && s.progs[c].at == T.Take && L.Owner(s.lk.sys, t.name1) == ""
    && T.L0 in s.lk.sys.store && T.Value0(s.lk.sys) == ""
  }

  /** No key but n has changed. */
  ghost predicate Else(s: T.State, s': T.State, n: string) {
    forall k | k != n :: (k in s'.lk.sys.store <==> k in s.lk.sys.store)
                         && (k in s.lk.sys.store ==> s'.lk.sys.store[k] == s.lk.sys.store[k])
  }

  /** Client c has moved from s to the point after the one it was at, and only key n has changed. */
  ghost predicate MovedOn(s: T.State, c: Client, s': T.State, n: string) {
    && Ready(s', c) && c in s.progs && c in s.lk.pcs
    && s'.progs == s.progs[c := T.Prog(T.Next(s.progs[c].at, Status(OK)), false)] && s'.lk.pcs == s.lk.pcs[c := L.Out]
    && Else(s, s', n)
  }

  /** Acquire and Release with two calls each. */
  function CallTwice(t: T.Test, s: T.State, c: Client): T.State
    requires TwoCalls(t, s, c)
  {
    Through(t, Through(t, T.Act(t, s, T.Go(c)), c), c)
  }

  predicate TwoCalls(t: T.Test, s: T.State, c: Client) {
    && T.Can(t, s, T.Go(c)) && R.Between(T.Act(t, s, T.Go(c)).lk, c) && c in T.Act(t, s, T.Go(c)).progs
    && R.Between(Through(t, T.Act(t, s, T.Go(c)), c).lk, c)
  }

  lemma GetsCallTwice(t: T.Test, s: T.State, c: Client)
    requires TwoCalls(t, s, c)
    ensures Gets(t, s, c, CallTwice(t, s, c))
  {
    var s1 := T.Act(t, s, T.Go(c));
    var s2 := Through(t, s1, c);
    GetsStep(t, s, c, T.Go(c));
    GoesThrough(t, s1, c);
    GoesThrough(t, s2, c);
    GetsTransitive(t, s, c, s1, s2);
    GetsTransitive(t, s, c, s2, Through(t, s2, c));
  }

  /** Acquire of a free lock, at whatever point of the program. */
  lemma TakesLock(t: T.Test, s: T.State, c: Client) returns (s': T.State)
    requires T.GoodTest(t) && Ready(s, c) && T.Takes(s.progs[c].at) && L.Owner(s.lk.sys, T.LockOf(t, s.progs[c].at)) == ""
    ensures Gets(t, s, c, s') && MovedOn(s, c, s', T.LockOf(t, s.progs[c].at))
    ensures L.Owner(s'.lk.sys, T.LockOf(t, s.progs[c].at)) == t.u.id(c, T.LockOf(t, s.progs[c].at))
  {
    assert Through(t, T.Act(t, s, T.Go(c)), c).lk.pcs[c].AcqPut?;
    s' := CallTwice(t, s, c);
    GetsCallTwice(t, s, c);
  }

  /** Release of one's own lock, at whatever point. */
  lemma GivesLock(t: T.Test, s: T.State, c: Client) returns (s': T.State)
    requires T.GoodTest(t) && Ready(s, c) && T.Gives(s.progs[c].at)
    requires L.Owner(s.lk.sys, T.LockOf(t, s.progs[c].at)) == t.u.id(c, T.LockOf(t, s.progs[c].at))
    ensures Gets(t, s, c, s') && MovedOn(s, c, s', T.LockOf(t, s.progs[c].at))
    ensures L.Owner(s'.lk.sys, T.LockOf(t, s.progs[c].at)) == ""
  {
    assert Through(t, T.Act(t, s, T.Go(c)), c).lk.pcs[c].RelPut?;
    s' := CallTwice(t, s, c);
    GetsCallTwice(t, s, c);
  }

  /** The critical section: client c has read, marked and cleared L0. */
  lemma MarksAndClears(t: T.Test, s: T.State, c: Client) returns (s': T.State)
    requires T.GoodTest(t) && Ready(s, c) && s.progs[c].at == T.Read
    requires T.L0 in s.lk.sys.store && T.Value0(s.lk.sys) == ""
    ensures Gets(t, s, c, s')
    ensures Ready(s', c) && s'.progs == s.progs[c := T.Prog(T.Give, false)] && s'.lk.pcs == s.lk.pcs[c := L.Out]
    ensures VersionOf(s'.lk.sys.store, T.L0) == VersionOf(s.lk.sys.store, T.L0) + 2 && T.Value0(s'.lk.sys) == ""
    ensures Else(s, s', T.L0)
  {
    var v := VersionOf(s.lk.sys.store, T.L0);
    var s1 := Done(t, s, c);
    assert s1.progs[c] == T.Prog(T.Mark(v), false);
    GetsDone(t, s, c);
    var s2 := Writes0(t, s1, c, v);
    GetsTransitive(t, s, c, s1, s2);
    s' := Writes0(t, s2, c, v + 1);
    GetsTransitive(t, s, c, s2, s');
  }

  /** Mark and Clear, with the version the key has. */
  lemma Writes0(t: T.Test, s: T.State, c: Client, v: nat) returns (s': T.State)
    requires T.GoodTest(t) && Ready(s, c) && (s.progs[c].at == T.Mark(v) || s.progs[c].at == T.Clear(v))
    requires T.L0 in s.lk.sys.store && VersionOf(s.lk.sys.store, T.L0) == v
    ensures Gets(t, s, c, s') && Ready(s', c) && s'.lk.pcs == s.lk.pcs[c := L.Out] && Else(s, s', T.L0)
    ensures s'.progs == s.progs[c := T.Prog(if s.progs[c].at.Mark? then T.Clear(v + 1) else T.Give, false)]
    ensures T.L0 in s'.lk.sys.store && VersionOf(s'.lk.sys.store, T.L0) == v + 1
    ensures s.progs[c].at.Clear? ==> T.Value0(s'.lk.sys) == ""
  {
    s' := Done(t, s, c);
    GetsDone(t, s, c);
  }

  lemma RoundFrom(t: T.Test, s: T.State, c: Client)
    requires T.GoodTest(t) && AtTop(t, s, c)
    ensures exists s' :: Gets(t, s, c, s') && Round(t, s, c, s')
  {
    var s1 := TakesLock(t, s, c);
    var s3 := RestOfRound(t, s1, c);
    GetsTransitive(t, s, c, s1, s3);
    assert s3.progs == s.progs && s3.lk.pcs == s.lk.pcs;
  }

  lemma RestOfRound(t: T.Test, s: T.State, c: Client) returns (s': T.State)
    requires T.GoodTest(t) && Ready(s, c) && s.progs[c].at == T.Read && L.Owner(s.lk.sys, t.name1) == t.u.id(c, t.name1)
    requires T.L0 in s.lk.sys.store && T.Value0(s.lk.sys) == ""
    ensures Gets(t, s, c, s') && Ready(s', c)
    ensures s'.progs == s.progs[c := T.Prog(T.Take, false)] && s'.lk.pcs == s.lk.pcs[c := L.Out]
    ensures VersionOf(s'.lk.sys.store, T.L0) == VersionOf(s.lk.sys.store, T.L0) + 2 && T.Value0(s'.lk.sys) == ""
    ensures L.Owner(s'.lk.sys, t.name1) == ""
  {
    var s1 := MarksAndClears(t, s, c);
    s' := GivesLock(t, s1, c);
    GetsTransitive(t, s, c, s1, s');
  }

  /** In every safe state of the test program a client at the top of its loop goes round it if the lock is free, its calls
      go through and nobody else acts. */
  lemma LoopGoesRound(t: T.Test, s: T.State, c: Client)
    requires T.GoodTest(t) && T.Safe(t, s) && c in s.progs && s.progs[c] == T.Prog(T.Take, false)
    requires L.Owner(s.lk.sys, t.name1) == ""
    ensures exists s' :: Gets(t, s, c, s') && Round(t, s, c, s')
  {
    SafeAtTop(t, s, c);
    RoundFrom(t, s, c);
  }

  lemma SafeAtTop(t: T.Test, s: T.State, c: Client)
    requires T.GoodTest(t) && T.Safe(t, s) && c in s.progs && s.progs[c] == T.Prog(T.Take, false)
    requires L.Owner(s.lk.sys, t.name1) == ""
    ensures AtTop(t, s, c)
  {
    assert T.Linked(t, s.lk.sys, c, s.lk.pcs[c], s.progs[c]) && L.CallOk(t.u, s.lk.sys, c, s.lk.pcs[c]) && T.CellOk(s.lk.sys, c, s.progs[c]);
    forall d | d in s.progs ensures !T.Dirty(s.progs[d]) {
      assert T.Dirty(s.progs[d]) ==> (d, t.name1) in s.lk.held;
    }
  }

  // ----- Up to the loop

  /** From the start, with both locks free, client c gets to the top of its loop, having created L0. */
  lemma ReachesLoop(t: T.Test, s: T.State, c: Client)
    requires T.GoodTest(t) && T.Start(s) && c in s.progs && t.name1 != t.name2
    requires L.Owner(s.lk.sys, t.name1) == "" && L.Owner(s.lk.sys, t.name2) == ""
    ensures exists s' :: Gets(t, s, c, s') && AtTop(t, s', c)
  {
    var s1 := TakesLock(t, s, c);
    var s2 := TakesLock(t, s1, c);
    GetsTransitive(t, s, c, s1, s2);
    var s3 := EndsWarmUp(t, s2, c);
    GetsTransitive(t, s, c, s2, s3);
  }

  lemma EndsWarmUp(t: T.Test, s: T.State, c: Client) returns (s': T.State)
    requires T.GoodTest(t) && Ready(s, c) && s.progs[c].at == T.Warm(2) && t.name1 != t.name2
    requires L.Owner(s.lk.sys, t.name1) == t.u.id(c, t.name1) && L.Owner(s.lk.sys, t.name2) == t.u.id(c, t.name2)
    requires T.L0 !in s.lk.sys.store
    ensures Gets(t, s, c, s') && AtTop(t, s', c)
  {
    var s1 := GivesLock(t, s, c);
    var s2 := GivesLock(t, s1, c);
    GetsTransitive(t, s, c, s1, s2);
    s' := Done(t, s2, c);
    GetsDone(t, s2, c);
    GetsTransitive(t, s, c, s2, s');
  }
}
