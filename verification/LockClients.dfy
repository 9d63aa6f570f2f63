/** The program that exercises the lock: inside it, each client reads key "l0", marks it, and clears the mark. If two
    clients were ever inside together, one would see the other's mark or have a Put refused. */
module LockClients {
  import opened KvServer
  import opened Clerk
  import opened Writes
  import L = Lock

  const L0 := "l0"

  /** The locks' identifiers, the names of the two locks, and what each client writes into L0. */
  datatype Test = Test(u: L.Setup, name1: string, name2: string, mark: Client -> string)

  ghost predicate GoodTest(t: Test) {
    L.GoodSetup(t.u) && t.name1 in t.u.names && t.name2 in t.u.names && L0 !in t.u.names
  }

  /** Which call of the program comes next, or is running. */
  datatype Point =
    | Warm(k: nat)          // the four calls before the loop
    | Create                // Put "" at version 0
    | Take                  // the loop: Acquire,
    | Read                  // Get,
    | Mark(v: nat)          // Put the mark,
    | Clear(v: nat)         // Put "",
    | Give                  // Release
    | Stopped
    | Fatal

  datatype Prog = Prog(at: Point, called: bool)

  datatype State = State(lk: L.State, progs: map<Client, Prog>)

  datatype Action =
    | Go(c: Client)
    | Stop(c: Client)
    | Inner(a: L.Action)    // inside Acquire and Release, in the clerk, or in the network

  predicate Plainly(p: Point) {
    p.Create? || p.Read? || p.Mark? || p.Clear?
  }

  /** What a program point asks of the clerk when it does not lock. */
  function PlainOp(t: Test, c: Client, p: Point): Op
    requires Plainly(p)
  {
    match p
    case Create => Put(L0, "", 0)
    case Read => Get(L0)
    case Mark(v) => Put(L0, t.mark(c), v)
    case Clear(v) => Put(L0, "", v)
  }

  predicate Takes(p: Point) {
    p.Take? || (p.Warm? && p.k < 2)
  }

  predicate Gives(p: Point) {
    p.Give? || (p.Warm? && p.k >= 2)
  }

  function LockOf(t: Test, p: Point): string {
    if p.Warm? && p.k % 2 == 1 then t.name2 else t.name1
  }

  predicate Runnable(p: Point) {
    Plainly(p) || Takes(p) || Gives(p)
  }

  function CallAt(t: Test, c: Client, p: Point): L.Action
    requires Runnable(p)
  {
    if Plainly(p) then L.CallPlain(c, PlainOp(t, c, p))
    else if Takes(p) then L.CallAcquire(c, LockOf(t, p))
    else L.CallRelease(c, LockOf(t, p))
  }

  /** Where the program goes when the call at p has returned; `reply` is the clerk's result, for the calls that use
      the clerk directly. */
  function Next(p: Point, reply: Reply): Point {
    match p
    case Warm(k) => if k < 3 then Warm(k + 1) else Create
    case Create => Take
    case Take => Read
    case Read => if reply.Value? && reply.value == "" then Mark(reply.version) else Fatal
    case Mark(v) => if reply in {Status(OK), Status(ErrMaybe)} then Clear(v + 1) else Fatal
    case Clear(v) => if reply in {Status(OK), Status(ErrMaybe)} then Give else Fatal
    case Give => Take
    case _ => p
  }

  predicate Can(t: Test, s: State, a: Action) {
    match a
    case Go(c) =>
      c in s.progs && !s.progs[c].called && Runnable(s.progs[c].at) && L.Can(t.u, s.lk, CallAt(t, c, s.progs[c].at))
    case Stop(c) => c in s.progs && s.progs[c] == Prog(Take, false)
    case Inner(a) =>
      (a.Request? || a.Network? || a.Respond?) && L.Can(t.u, s.lk, a) && (a.Respond? ==> a.c in s.progs)
  }

  function Act(t: Test, s: State, a: Action): State
    requires Can(t, s, a)
  {
    match a
    case Go(c) =>
      State(L.Act(t.u, s.lk, CallAt(t, c, s.progs[c].at)), s.progs[c := s.progs[c].(called := true)])
    case Stop(c) => s.(progs := s.progs[c := Prog(Stopped, false)])
    case Inner(a) =>
      var lk := L.Act(t.u, s.lk, a);
      if a.Respond? && lk.pcs[a.c] == L.Out
      then State(lk, s.progs[a.c := Prog(Next(s.progs[a.c].at, ResultFor(s.lk.sys, a.c)), false)])
      else s.(lk := lk)
  }

  predicate Runs(t: Test, s: State, acts: seq<Action>)
    decreases |acts|
  {
    acts == [] || (Can(t, s, acts[0]) && Runs(t, Act(t, s, acts[0]), acts[1..]))
  }

  function End(t: Test, s: State, acts: seq<Action>): State
    requires Runs(t, s, acts)
    decreases |acts|
  {
    if acts == [] then s else End(t, Act(t, s, acts[0]), acts[1..])
  }

  /** L0 is not there yet; the locks may hold anything. */
  predicate Start(s: State) {
    && L.Start(s.lk) && L0 !in s.lk.sys.store && s.progs.Keys == s.lk.pcs.Keys
    && forall c | c in s.progs :: s.progs[c] == Prog(Warm(0), false)
  }

  // ----- The invariant

  /** The client's place in Acquire, Release or the clerk is the one its program point says. */
  ghost predicate Linked(t: Test, s: Sys, c: Client, pc: L.Pc, p: Prog)
    requires c in s.clients
  {
    if !p.called then pc == L.Out
    else if Plainly(p.at) then
      pc == L.Plain && !s.clients[c].Idle? && s.clients[c].call < |s.calls| && s.calls[s.clients[c].call].op == PlainOp(t, c, p.at)
    else if Takes(p.at) then L.InAcquire(pc) && pc.n == LockOf(t, p.at)
    else Gives(p.at) && L.InRelease(pc) && pc.n == LockOf(t, p.at)
  }

  /** Between the return of Acquire and the call of Release, in the loop. */
  predicate Critical(p: Prog) {
    p.at.Read? || p.at.Mark? || p.at.Clear? || (p.at.Give? && !p.called)
  }

  predicate Dirty(p: Prog) {
    (p.at.Mark? && p.called) || p.at.Clear?
  }

  /** Past the call that creates L0. */
  predicate Beyond(p: Prog) {
    !p.at.Warm? && !p.at.Create?
  }

  function Value0(s: Sys): string {
    L.Owner(s, L0)
  }

  /** Client c's Put of version v is under way: it has written, or it has not and the version is still v. */
  ghost predicate Halfway(s: Sys, c: Client, v: nat)
    requires MsgsOk(s) && c in s.clients
  {
    && !s.clients[c].Idle?
    && (if Wrote(s, s.clients[c].call) then VersionOf(s.store, L0) == v + 1 else VersionOf(s.store, L0) == v)
  }

  /** Every answer to client c's Get so far shows L0 as it is. */
  ghost predicate SeesCell(s: Sys, c: Client)
    requires MsgsOk(s) && c in s.clients
  {
    && !s.clients[c].Idle?
    && forall m | 0 <= m < |s.msgs| && s.msgs[m].call == s.clients[c].call && s.msgs[m].status.Done? ::
         s.msgs[m].status.reply == Value("", VersionOf(s.store, L0))
  }

  /** What client c may rely on. */
  ghost predicate CellOk(s: Sys, c: Client, p: Prog)
    requires MsgsOk(s) && c in s.clients
  {
    && (Beyond(p) ==> L0 in s.store)
    && match p.at
       case Read => Value0(s) == "" && (p.called ==> SeesCell(s, c))
       case Mark(v) =>
         if p.called then Halfway(s, c, v) && (VersionOf(s.store, L0) == v ==> Value0(s) == "")
         else VersionOf(s.store, L0) == v && Value0(s) == ""
       case Clear(v) =>
         if p.called then Halfway(s, c, v) && (VersionOf(s.store, L0) == v + 1 ==> Value0(s) == "")
         else VersionOf(s.store, L0) == v
       case Give => !p.called ==> Value0(s) == ""
       case Fatal => false
       case _ => true
  }

  ghost predicate PutsSettled(s: Sys)
    requires MsgsOk(s)
  {
    forall o | 0 <= o < |s.calls| && s.calls[o].op.Put? && s.calls[o].op.key == L0 :: Settled(s, o)
  }

  ghost predicate AllLinked(t: Test, s: State) {
    forall c | c in s.progs :: c in s.lk.sys.clients && c in s.lk.pcs && Linked(t, s.lk.sys, c, s.lk.pcs[c], s.progs[c])
  }

  ghost predicate Guarded(t: Test, s: State) {
    forall c | c in s.progs && Critical(s.progs[c]) :: (c, t.name1) in s.lk.held
  }

  /** Unless somebody is in the middle of marking, L0 is clear. */
  ghost predicate Clean(s: State) {
    (forall c | c in s.progs :: !Dirty(s.progs[c])) ==> Value0(s.lk.sys) == ""
  }

  ghost predicate Safe(t: Test, s: State) {
    && L.Safe(t.u, s.lk) && s.progs.Keys == s.lk.pcs.Keys
    && PutsSettled(s.lk.sys)
    && AllLinked(t, s)
    && Guarded(t, s)
    && AllCells(s)
    && Clean(s)
  }

  ghost predicate AllCells(s: State) {
    && MsgsOk(s.lk.sys)
    && forall c | c in s.progs :: c in s.lk.sys.clients && CellOk(s.lk.sys, c, s.progs[c])
  }

  lemma CriticalOnce(t: Test, s: State, c: Client, d: Client)
    requires GoodTest(t) && L.Safe(t.u, s.lk) && Guarded(t, s)
    requires c in s.progs && d in s.progs && Critical(s.progs[c]) && Critical(s.progs[d])
    ensures c == d
  {
    L.SafeExcludes(t.u, s.lk);
  }

  // ----- A write of L0

  /** A copy that writes L0 belongs to the pending Put of a client at Create, Mark or Clear. */
  lemma WriterAt(t: Test, s: State, m: nat) returns (d: Client)
    requires GoodTest(t) && Safe(t, s) && Enabled(s.lk.sys, Execute(m)) && WritesKey(s.lk.sys, Execute(m), L0)
    ensures d in s.progs && !s.lk.sys.clients[d].Idle? && s.lk.sys.clients[d].call == s.lk.sys.msgs[m].call
    ensures var p := s.progs[d]; p.called && Plainly(p.at) && !p.at.Read? && OpOf(s.lk.sys, m) == PlainOp(t, d, p.at)
  {
    var sys := s.lk.sys;
    var o := sys.msgs[m].call;
    assert Settled(sys, o);
    SettledPut(sys, o);
    assert PendingOk(sys, o);
    d := sys.calls[o].client;
    assert d in s.lk.pcs && L.CallOk(t.u, sys, d, s.lk.pcs[d]);
    assert Linked(t, sys, d, s.lk.pcs[d], s.progs[d]);
  }

  /** The writer itself. */
  lemma WriteOwn(t: Test, s: Sys, m: nat, c: Client, p: Prog)
    requires Consistent(s) && Enabled(s, Execute(m)) && WritesKey(s, Execute(m), L0)
    requires c in s.clients && !s.clients[c].Idle? && s.clients[c].call == s.msgs[m].call
    requires p.called && Plainly(p.at) && OpOf(s, m) == PlainOp(t, c, p.at) && CellOk(s, c, p)
    ensures MsgsOk(Do(s, Execute(m))) && CellOk(Do(s, Execute(m)), c, p)
  {
    ExecuteWrites(s, m);
  }

  lemma WriteCell(t: Test, s: State, m: nat, c: Client)
    requires GoodTest(t) && Safe(t, s) && Enabled(s.lk.sys, Execute(m)) && WritesKey(s.lk.sys, Execute(m), L0) && c in s.progs
    ensures MsgsOk(Do(s.lk.sys, Execute(m))) && CellOk(Do(s.lk.sys, Execute(m)), c, s.progs[c])
  {
    StepMsgs(s.lk.sys, Execute(m));
    var d := WriterAt(t, s, m);
    assert CellOk(s.lk.sys, c, s.progs[c]) && CellOk(s.lk.sys, d, s.progs[d]);
    if Critical(s.progs[c]) {
      if s.progs[d].at.Create? {
        assert false;
      }
      CriticalOnce(t, s, c, d);
      WriteOwn(t, s.lk.sys, m, c, s.progs[c]);
    }
  }

  lemma WriteClean(t: Test, s: State, m: nat)
    requires GoodTest(t) && Safe(t, s) && Enabled(s.lk.sys, Execute(m)) && WritesKey(s.lk.sys, Execute(m), L0)
    ensures Clean(s.(lk := s.lk.(sys := Do(s.lk.sys, Execute(m)))))
  {
    var d := WriterAt(t, s, m);
  }

  // ----- Every other step of the network

  /** L0 is as it was, and so is what anybody knows of it. */
  lemma UnwrittenCell(t: Test, s: Sys, m: nat, c: Client, p: Prog)
    requires Consistent(s) && Enabled(s, Execute(m)) && !WritesKey(s, Execute(m), L0) && c in s.clients && CellOk(s, c, p)
    requires p.called && Plainly(p.at) ==> !s.clients[c].Idle? && s.clients[c].call < |s.calls| && s.calls[s.clients[c].call].op == PlainOp(t, c, p.at)
    ensures MsgsOk(Do(s, Execute(m))) && CellOk(Do(s, Execute(m)), c, p)
  {
    StepMsgs(s, Execute(m));
    KeyUntouched(s, Execute(m), L0);
    if p.called && Plainly(p.at) {
      StepWrote(s, Execute(m), s.clients[c].call);
    }
  }

  lemma QuietCell(s: Sys, step: Step, c: Client, p: Prog)
    requires Consistent(s) && Enabled(s, step) && !step.Execute? && c in s.clients && CellOk(s, c, p)
    requires (step.Deliver? || step.Invoke?) && step.c == c ==> !(p.called && Plainly(p.at))
    ensures MsgsOk(Do(s, step)) && CellOk(Do(s, step), c, p)
  {
    L.QuietStep(s, step);
    if p.called && Plainly(p.at) && !s.clients[c].Idle? {
      L.SameNewsWrote(s, Do(s, step), s.clients[c].call);
    }
  }

  // ----- A client's own steps

  /** The call it is about to make names the version L0 has. */
  lemma CallOwn(t: Test, s: Sys, c: Client, p: Prog)
    requires Consistent(s) && c in s.clients && s.clients[c].Idle? && !p.called && Plainly(p.at) && CellOk(s, c, p)
    ensures var op := PlainOp(t, c, p.at);
            && (op.Put? ==> op.version <= VersionOf(s.store, L0))
            && MsgsOk(Do(s, Invoke(c, op))) && CellOk(Do(s, Invoke(c, op)), c, p.(called := true))
  {
    var s' := Do(s, Invoke(c, PlainOp(t, c, p.at)));
    StepMsgs(s, Invoke(c, PlainOp(t, c, p.at)));
    assert forall m | 0 <= m < |s'.msgs| :: s'.msgs[m].call != |s.calls|;
    assert !Wrote(s', |s.calls|);
  }

  predicate Calling(t: Test, s: Sys, c: Client, p: Prog)
    requires c in s.clients
  {
    && p.called && Plainly(p.at) && !s.clients[c].Idle? && s.clients[c].call < |s.calls|
    && s.calls[s.clients[c].call].op == PlainOp(t, c, p.at)
  }

  /** The answer to a Put of L0 in the critical section is OK or ErrMaybe, and the Put has written. */
  lemma PutReturns(t: Test, s: Sys, c: Client, p: Prog, v: nat)
    requires Consistent(s) && PutsSettled(s) && Enabled(s, Deliver(c)) && Calling(t, s, c, p)
    requires PlainOp(t, c, p.at).Put? && PlainOp(t, c, p.at).version == v && Halfway(s, c, v)
    ensures VersionOf(s.store, L0) == v + 1 && ResultFor(s, c) in {Status(OK), Status(ErrMaybe)}
  {
    var o, m := s.clients[c].call, s.clients[c].rpc;
    assert PhaseOk(s, c) && Settled(s, o);
    SettledPut(s, o);
    var k :| 0 <= k < |s.msgs| && s.msgs[k].call == o && TookEffect(s, k);
  }

  lemma PlainReturns(t: Test, s: Sys, c: Client, p: Prog)
    requires Consistent(s) && PutsSettled(s) && Enabled(s, Deliver(c)) && Calling(t, s, c, p) && CellOk(s, c, p)
    ensures MsgsOk(Do(s, Deliver(c))) && CellOk(Do(s, Deliver(c)), c, Prog(Next(p.at, ResultFor(s, c)), false))
  {
    StepMsgs(s, Deliver(c));
    assert PhaseOk(s, c);
    match p.at
    case Create => assert Settled(s, s.clients[c].call);
    case Mark(v) => PutReturns(t, s, c, p, v);
    case Clear(v) => PutReturns(t, s, c, p, v);
    case _ =>
  }

  lemma StepPuts(s: Sys, step: Step)
    requires Consistent(s) && PutsSettled(s) && Enabled(s, step)
    requires step.Invoke? && step.op.Put? && step.op.key == L0 ==> step.op.version <= VersionOf(s.store, L0)
    ensures MsgsOk(Do(s, step)) && PutsSettled(Do(s, step))
  {
    var s' := Do(s, step);
    StepMsgs(s, step);
    StepKeeps(s, step);
    forall o | 0 <= o < |s'.calls| && s'.calls[o].op.Put? && s'.calls[o].op.key == L0 ensures Settled(s', o) {
      if o < |s.calls| {
        StepSettled(s, step, o);
      }
    }
  }

  // ----- Every action keeps the invariant

  lemma CallPuts(t: Test, s: State, c: Client)
    requires Safe(t, s) && Can(t, s, Go(c))
    ensures MsgsOk(Act(t, s, Go(c)).lk.sys) && PutsSettled(Act(t, s, Go(c)).lk.sys)
  {
    var p := s.progs[c];
    if Plainly(p.at) {
      assert CellOk(s.lk.sys, c, p);
      StepPuts(s.lk.sys, Invoke(c, PlainOp(t, c, p.at)));
    }
  }

  lemma CallCells(t: Test, s: State, c: Client)
    requires Safe(t, s) && Can(t, s, Go(c))
    ensures AllCells(Act(t, s, Go(c)))
  {
    var p := s.progs[c];
    assert CellOk(s.lk.sys, c, p);
    if Plainly(p.at) {
      CallOwn(t, s.lk.sys, c, p);
      forall d | d in s.progs && d != c ensures CellOk(Act(t, s, Go(c)).lk.sys, d, s.progs[d]) {
        QuietCell(s.lk.sys, Invoke(c, PlainOp(t, c, p.at)), d, s.progs[d]);
      }
    }
  }

  lemma CallGuards(t: Test, s: State, c: Client)
    requires Guarded(t, s) && Can(t, s, Go(c))
    ensures Guarded(t, Act(t, s, Go(c)))
  {
    forall d | d in s.progs && Critical(Act(t, s, Go(c)).progs[d]) ensures (d, t.name1) in Act(t, s, Go(c)).lk.held {
      assert Critical(s.progs[d]);
    }
  }

  lemma CallCleans(t: Test, s: State, c: Client)
    requires Clean(s) && Can(t, s, Go(c))
    ensures Clean(Act(t, s, Go(c)))
  {
    var s' := Act(t, s, Go(c));
    if forall d | d in s'.progs :: !Dirty(s'.progs[d]) {
      forall d | d in s.progs ensures !Dirty(s.progs[d]) {
        assert !Dirty(s'.progs[d]);
      }
    }
  }

  lemma CallSafe(t: Test, s: State, c: Client)
    requires GoodTest(t) && Safe(t, s) && Can(t, s, Go(c))
    ensures Safe(t, Act(t, s, Go(c)))
  {
    L.ActSafe(t.u, s.lk, CallAt(t, c, s.progs[c].at));
    CallPuts(t, s, c);
    CallCells(t, s, c);
    CallGuards(t, s, c);
    CallCleans(t, s, c);
    CallLinks(t, s, c);
  }

  lemma CallLinks(t: Test, s: State, c: Client)
    requires AllLinked(t, s) && s.progs.Keys == s.lk.pcs.Keys && Can(t, s, Go(c))
    ensures AllLinked(t, Act(t, s, Go(c)))
  {
    forall d | d in s.progs && d != c ensures Linked(t, Act(t, s, Go(c)).lk.sys, d, Act(t, s, Go(c)).lk.pcs[d], s.progs[d]) {
      assert Linked(t, s.lk.sys, d, s.lk.pcs[d], s.progs[d]);
    }
  }

  // ----- Inside Acquire, Release, the clerk and the network

  /** Only the client that is told something moves on. */
  predicate Returns(t: Test, s: State, a: L.Action)
    requires Can(t, s, Inner(a))
  {
    a.Respond? && L.Act(t.u, s.lk, a).pcs[a.c] == L.Out
  }

  lemma InnerPuts(t: Test, s: State, a: L.Action)
    requires L0 !in t.u.names && Consistent(s.lk.sys) && PutsSettled(s.lk.sys) && Can(t, s, Inner(a))
    requires a.Request? ==> a.c in s.lk.sys.clients && L.CallOk(t.u, s.lk.sys, a.c, s.lk.pcs[a.c])
    ensures MsgsOk(Act(t, s, Inner(a)).lk.sys) && PutsSettled(Act(t, s, Inner(a)).lk.sys)
  {
    StepPuts(s.lk.sys, L.SysStep(t.u, s.lk, a));
  }

  lemma QuietLink(t: Test, s: Sys, step: Step, c: Client, pc: L.Pc, p: Prog)
    requires c in s.clients && Linked(t, s, c, pc, p) && Enabled(s, step)
    requires (step.Invoke? || step.Deliver?) && step.c == c ==> !(p.called && Plainly(p.at))
    ensures c in Do(s, step).clients && Linked(t, Do(s, step), c, pc, p)
  {
  }

  /** Told something, a client inside Acquire or Release stays inside the same call or returns. */
  lemma RespondLink(t: Test, lk: L.State, c: Client, p: Prog)
    requires L.Can(t.u, lk, L.Respond(c)) && c in lk.sys.clients && Linked(t, lk.sys, c, lk.pcs[c], p)
    requires L.CallOk(t.u, lk.sys, c, lk.pcs[c]) && L.Act(t.u, lk, L.Respond(c)).pcs[c] != L.Panicked
    ensures var lk' := L.Act(t.u, lk, L.Respond(c));
            c in lk'.sys.clients && (lk'.pcs[c] != L.Out ==> Linked(t, lk'.sys, c, lk'.pcs[c], p))
  {
  }

  lemma InnerLinks(t: Test, s: State, a: L.Action)
    requires Safe(t, s) && Can(t, s, Inner(a)) && L.Safe(t.u, L.Act(t.u, s.lk, a))
    ensures AllLinked(t, Act(t, s, Inner(a)))
  {
    var s' := Act(t, s, Inner(a));
    forall c | c in s.progs ensures c in s'.lk.sys.clients && c in s'.lk.pcs && Linked(t, s'.lk.sys, c, s'.lk.pcs[c], s'.progs[c]) {
      assert Linked(t, s.lk.sys, c, s.lk.pcs[c], s.progs[c]) && L.CallOk(t.u, s.lk.sys, c, s.lk.pcs[c]);
      assert L.PcOk(t.u, L.Act(t.u, s.lk, a).sys, c, L.Act(t.u, s.lk, a).pcs[c]);
      InnerLink(t, s, a, c);
    }
  }

  lemma InnerLink(t: Test, s: State, a: L.Action, c: Client)
    requires Can(t, s, Inner(a)) && c in s.progs && c in s.lk.pcs && c in s.lk.sys.clients
    requires Linked(t, s.lk.sys, c, s.lk.pcs[c], s.progs[c]) && L.CallOk(t.u, s.lk.sys, c, s.lk.pcs[c])
    requires L.Act(t.u, s.lk, a).pcs[c] != L.Panicked
    ensures var s' := Act(t, s, Inner(a));
            c in s'.lk.sys.clients && c in s'.lk.pcs && Linked(t, s'.lk.sys, c, s'.lk.pcs[c], s'.progs[c])
  {
    if a == L.Respond(c) {
      RespondLink(t, s.lk, c, s.progs[c]);
    } else {
      QuietLink(t, s.lk.sys, L.SysStep(t.u, s.lk, a), c, s.lk.pcs[c], s.progs[c]);
    }
  }

  /** Nobody is in the middle of marking when Acquire returns. */
  lemma TakeReturns(t: Test, s: State, c: Client)
    requires Can(t, s, Inner(L.Respond(c))) && Returns(t, s, L.Respond(c)) && s.progs[c] == Prog(Take, true)
    requires c in s.lk.sys.clients && Linked(t, s.lk.sys, c, s.lk.pcs[c], s.progs[c]) && Guarded(t, s) && Clean(s)
    requires L.Exclusive(t.u, L.Act(t.u, s.lk, L.Respond(c)))
    ensures Value0(s.lk.sys) == "" && (c, t.name1) in L.Act(t.u, s.lk, L.Respond(c)).held
  {
    var lk := L.Act(t.u, s.lk, L.Respond(c));
    forall d | d in s.progs ensures !Dirty(s.progs[d]) {
      assert Dirty(s.progs[d]) ==> (d, t.name1) in lk.held;
    }
  }

  lemma EitherReturns(t: Test, s: Sys, c: Client, pc: L.Pc, p: Prog)
    requires Consistent(s) && PutsSettled(s) && Enabled(s, Deliver(c)) && CellOk(s, c, p) && (p == Prog(Take, true) ==> Value0(s) == "")
    requires Linked(t, s, c, pc, p) && L.CallOk(t.u, s, c, pc)
    ensures MsgsOk(Do(s, Deliver(c))) && c in Do(s, Deliver(c)).clients
    ensures CellOk(Do(s, Deliver(c)), c, Prog(Next(p.at, ResultFor(s, c)), false))
  {
    StepMsgs(s, Deliver(c));
    if Plainly(p.at) {
      PlainReturns(t, s, c, p);
    } else {
      LockReturns(s, Do(s, Deliver(c)), c, p, ResultFor(s, c));
    }
  }

  /** After Acquire or Release the program goes on to a point that asks nothing new of L0. */
  lemma LockReturns(s: Sys, s': Sys, c: Client, p: Prog, reply: Reply)
    requires MsgsOk(s) && MsgsOk(s') && c in s.clients && c in s'.clients && s'.store == s.store
    requires CellOk(s, c, p) && p.called && (Takes(p.at) || Gives(p.at)) && (p.at.Take? ==> Value0(s) == "")
    ensures CellOk(s', c, Prog(Next(p.at, reply), false))
  {
  }

  lemma InnerCells(t: Test, s: State, a: L.Action)
    requires GoodTest(t) && Safe(t, s) && Can(t, s, Inner(a)) && L.Exclusive(t.u, L.Act(t.u, s.lk, a))
    ensures AllCells(Act(t, s, Inner(a)))
  {
    var s' := Act(t, s, Inner(a));
    StepMsgs(s.lk.sys, L.SysStep(t.u, s.lk, a));
    forall c | c in s'.progs ensures c in s'.lk.sys.clients && CellOk(s'.lk.sys, c, s'.progs[c]) {
      if a.Network? && a.step.Execute? {
        ExecuteCell(t, s, a.step.m, c);
      } else {
        assert Linked(t, s.lk.sys, c, s.lk.pcs[c], s.progs[c]) && CellOk(s.lk.sys, c, s.progs[c]);
        assert L.CallOk(t.u, s.lk.sys, c, s.lk.pcs[c]);
        MoveCell(t, s, a, c);
      }
    }
  }

  lemma MoveCell(t: Test, s: State, a: L.Action, c: Client)
    requires Can(t, s, Inner(a)) && !(a.Network? && a.step.Execute?) && c in s.progs && c in s.lk.pcs && c in s.lk.sys.clients
    requires Consistent(s.lk.sys) && PutsSettled(s.lk.sys) && Guarded(t, s) && Clean(s)
    requires Linked(t, s.lk.sys, c, s.lk.pcs[c], s.progs[c]) && CellOk(s.lk.sys, c, s.progs[c])
    requires L.CallOk(t.u, s.lk.sys, c, s.lk.pcs[c]) && L.Exclusive(t.u, L.Act(t.u, s.lk, a))
    ensures var s' := Act(t, s, Inner(a));
            MsgsOk(s'.lk.sys) && c in s'.lk.sys.clients && CellOk(s'.lk.sys, c, s'.progs[c])
  {
    if a == L.Respond(c) && Returns(t, s, a) {
      if s.progs[c] == Prog(Take, true) {
        TakeReturns(t, s, c);
      }
      EitherReturns(t, s.lk.sys, c, s.lk.pcs[c], s.progs[c]);
    } else {
      QuietCell(s.lk.sys, L.SysStep(t.u, s.lk, a), c, s.progs[c]);
    }
  }

  lemma ExecuteCell(t: Test, s: State, m: nat, c: Client)
    requires GoodTest(t) && Safe(t, s) && Enabled(s.lk.sys, Execute(m)) && c in s.progs
    ensures MsgsOk(Do(s.lk.sys, Execute(m))) && CellOk(Do(s.lk.sys, Execute(m)), c, s.progs[c])
  {
    if WritesKey(s.lk.sys, Execute(m), L0) {
      WriteCell(t, s, m, c);
    } else {
      assert Linked(t, s.lk.sys, c, s.lk.pcs[c], s.progs[c]) && CellOk(s.lk.sys, c, s.progs[c]);
      UnwrittenCell(t, s.lk.sys, m, c, s.progs[c]);
    }
  }

  lemma InnerGuards(t: Test, s: State, a: L.Action)
    requires Can(t, s, Inner(a)) && AllLinked(t, s) && Guarded(t, s) && Clean(s) && L.Exclusive(t.u, L.Act(t.u, s.lk, a))
    requires forall c | c in s.lk.pcs && c in s.lk.sys.clients :: L.CallOk(t.u, s.lk.sys, c, s.lk.pcs[c])
    ensures Guarded(t, Act(t, s, Inner(a)))
  {
    var s' := Act(t, s, Inner(a));
    forall c | c in s'.progs && Critical(s'.progs[c]) ensures (c, t.name1) in s'.lk.held {
      if !Critical(s.progs[c]) {
        EntersByTaking(t, s, a, c);
        TakeReturns(t, s, c);
      }
    }
  }

  lemma EntersByTaking(t: Test, s: State, a: L.Action, c: Client)
    requires Can(t, s, Inner(a)) && c in s.progs && !Critical(s.progs[c]) && Critical(Act(t, s, Inner(a)).progs[c])
    requires AllLinked(t, s)
    requires forall d | d in s.lk.pcs && d in s.lk.sys.clients :: L.CallOk(t.u, s.lk.sys, d, s.lk.pcs[d])
    ensures a == L.Respond(c) && Returns(t, s, a) && s.progs[c] == Prog(Take, true)
  {
    assert Linked(t, s.lk.sys, c, s.lk.pcs[c], s.progs[c]);
  }

  lemma InnerCleans(t: Test, s: State, a: L.Action)
    requires GoodTest(t) && Safe(t, s) && Can(t, s, Inner(a)) && AllCells(Act(t, s, Inner(a)))
    ensures Clean(Act(t, s, Inner(a)))
  {
    if a.Network? && a.step.Execute? {
      ExecuteCleans(t, s, a.step.m);
    } else {
      if a.Respond? {
        assert Linked(t, s.lk.sys, a.c, s.lk.pcs[a.c], s.progs[a.c]) && L.CallOk(t.u, s.lk.sys, a.c, s.lk.pcs[a.c]);
      }
      MoveCleans(t, s, a);
    }
  }

  lemma ExecuteCleans(t: Test, s: State, m: nat)
    requires GoodTest(t) && Safe(t, s) && Enabled(s.lk.sys, Execute(m))
    ensures Clean(s.(lk := s.lk.(sys := Do(s.lk.sys, Execute(m)))))
  {
    if WritesKey(s.lk.sys, Execute(m), L0) {
      WriteClean(t, s, m);
    } else {
      KeyUntouched(s.lk.sys, Execute(m), L0);
    }
  }

  lemma MoveCleans(t: Test, s: State, a: L.Action)
    requires Can(t, s, Inner(a)) && !(a.Network? && a.step.Execute?) && Clean(s) && AllCells(Act(t, s, Inner(a)))
    requires a.Respond? ==> a.c in s.lk.sys.clients && a.c in s.lk.pcs
                            && Linked(t, s.lk.sys, a.c, s.lk.pcs[a.c], s.progs[a.c]) && L.CallOk(t.u, s.lk.sys, a.c, s.lk.pcs[a.c])
    ensures Clean(Act(t, s, Inner(a)))
  {
    var s' := Act(t, s, Inner(a));
    if Returns(t, s, a) {
      StillClean(s, s', a.c);
    } else {
      assert s'.progs == s.progs;
    }
  }

  /** Whoever stops marking leaves L0 clear. */
  lemma StillClean(s: State, s': State, c: Client)
    requires Clean(s) && AllCells(s') && s'.lk.sys.store == s.lk.sys.store && s'.progs.Keys == s.progs.Keys
    requires forall d | d in s.progs && d != c :: s'.progs[d] == s.progs[d]
    requires c in s.progs && Dirty(s.progs[c]) ==> Dirty(s'.progs[c]) || (s'.progs[c].at.Give? && !s'.progs[c].called) || s'.progs[c].at.Fatal?
    ensures Clean(s')
  {
    if forall d | d in s'.progs :: !Dirty(s'.progs[d]) {
      if c in s.progs && Dirty(s.progs[c]) {
        assert CellOk(s'.lk.sys, c, s'.progs[c]);
      } else {
        forall d | d in s.progs ensures !Dirty(s.progs[d]) {
          assert d != c ==> !Dirty(s'.progs[d]);
        }
      }
    }
  }

  lemma InnerSafe(t: Test, s: State, a: L.Action)
    requires GoodTest(t) && Safe(t, s) && Can(t, s, Inner(a))
    ensures Safe(t, Act(t, s, Inner(a)))
  {
    InnerShape(t, s, a);
    InnerLock(t, s, a);
    InnerProgs(t, s, a);
    InnerKey(t, s, a);
    SafeParts(t, Act(t, s, Inner(a)), L.Act(t.u, s.lk, a));
  }

  lemma InnerShape(t: Test, s: State, a: L.Action)
    requires Can(t, s, Inner(a))
    ensures Act(t, s, Inner(a)).lk == L.Act(t.u, s.lk, a) && Act(t, s, Inner(a)).progs.Keys == s.progs.Keys
  {
  }

  lemma SafeParts(t: Test, s: State, lk: L.State)
    requires s.lk == lk && L.Safe(t.u, lk) && s.progs.Keys == lk.pcs.Keys
    requires AllLinked(t, s) && Guarded(t, s) && AllCells(s) && PutsSettled(lk.sys) && Clean(s)
    ensures Safe(t, s)
  {
  }

  lemma InnerLock(t: Test, s: State, a: L.Action)
    requires GoodTest(t) && L.Safe(t.u, s.lk) && Can(t, s, Inner(a))
    ensures L.Safe(t.u, L.Act(t.u, s.lk, a)) && L.Exclusive(t.u, L.Act(t.u, s.lk, a))
    ensures L.Act(t.u, s.lk, a).pcs.Keys == s.lk.pcs.Keys
  {
    L.ActSafe(t.u, s.lk, a);
    L.SafeExcludes(t.u, L.Act(t.u, s.lk, a));
  }

  lemma InnerProgs(t: Test, s: State, a: L.Action)
    requires GoodTest(t) && Safe(t, s) && Can(t, s, Inner(a))
    requires L.Safe(t.u, L.Act(t.u, s.lk, a)) && L.Exclusive(t.u, L.Act(t.u, s.lk, a))
    ensures AllLinked(t, Act(t, s, Inner(a))) && Guarded(t, Act(t, s, Inner(a)))
  {
    InnerLinks(t, s, a);
    InnerGuards(t, s, a);
  }

  lemma InnerKey(t: Test, s: State, a: L.Action)
    requires GoodTest(t) && Safe(t, s) && Can(t, s, Inner(a)) && L.Exclusive(t.u, L.Act(t.u, s.lk, a))
    ensures AllCells(Act(t, s, Inner(a))) && PutsSettled(Act(t, s, Inner(a)).lk.sys) && Clean(Act(t, s, Inner(a)))
  {
    InnerPuts(t, s, a);
    InnerCells(t, s, a);
    InnerCleans(t, s, a);
  }

  lemma ActSafe(t: Test, s: State, a: Action)
    requires GoodTest(t) && Safe(t, s) && Can(t, s, a)
    ensures Safe(t, Act(t, s, a))
  {
    match a
    case Go(c) => CallSafe(t, s, c);
    case Stop(c) => StopSafe(t, s, c);
    case Inner(b) => InnerSafe(t, s, b);
  }

  lemma StopSafe(t: Test, s: State, c: Client)
    requires Safe(t, s) && Can(t, s, Stop(c))
    ensures Safe(t, Act(t, s, Stop(c)))
  {
    var s' := Act(t, s, Stop(c));
    StopKeeps(t, s, c);
    StillClean(s, s', c);
  }

  lemma StopKeeps(t: Test, s: State, c: Client)
    requires AllLinked(t, s) && AllCells(s) && Guarded(t, s) && Can(t, s, Stop(c))
    ensures AllLinked(t, Act(t, s, Stop(c))) && AllCells(Act(t, s, Stop(c))) && Guarded(t, Act(t, s, Stop(c)))
  {
    assert Linked(t, s.lk.sys, c, s.lk.pcs[c], s.progs[c]) && CellOk(s.lk.sys, c, s.progs[c]);
  }

  lemma {:induction false} RunSafe(t: Test, s: State, acts: seq<Action>)
    requires GoodTest(t) && Safe(t, s) && Runs(t, s, acts)
    ensures Safe(t, End(t, s, acts))
    decreases |acts|
  {
    if acts != [] {
      ActSafe(t, s, acts[0]);
      RunSafe(t, Act(t, s, acts[0]), acts[1..]);
    }
  }

  lemma StartSafe(t: Test, s: State)
    requires GoodTest(t) && Start(s)
    ensures Safe(t, s)
  {
    L.StartSafe(t.u, s.lk);
  }

  // ----- The result

  ghost predicate NoneFatal(s: State) {
    forall c | c in s.progs :: !s.progs[c].at.Fatal?
  }

  lemma SafeNoneFatal(t: Test, s: State)
    requires Safe(t, s)
    ensures NoneFatal(s)
  {
    forall c | c in s.progs ensures !s.progs[c].at.Fatal? {
      assert CellOk(s.lk.sys, c, s.progs[c]);
    }
  }

  /** In every run of any number of clients, whatever the network does: no client finds another's mark, no read of L0
      fails, and every Put of L0 in the critical section is answered OK or ErrMaybe. */
  lemma TestNeverFails(t: Test, s0: State, acts: seq<Action>)
    requires GoodTest(t) && Start(s0) && Runs(t, s0, acts)
    ensures NoneFatal(End(t, s0, acts))
  {
    StartSafe(t, s0);
    RunSafe(t, s0, acts);
    SafeNoneFatal(t, End(t, s0, acts));
  }
}
