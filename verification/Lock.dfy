/** The distributed lock: a spin protocol on Clerk.Get and Clerk.Put, with its own recovery from
    ErrMaybe. Each client makes one call at a time, on any number of locks, and may use its clerk for
    other keys in between. */
module Lock {
  import opened KvServer
  import opened Clerk

  /** The keys used as locks, and the identifier each client's Lock object drew for each of them. */
  datatype Setup = Setup(names: set<string>, id: (Client, string) -> string)

  /** Identifiers are non-empty and no two clients share one. */
  ghost predicate GoodSetup(u: Setup) {
    && (forall c: Client, n: string :: u.id(c, n) != "")
    && (forall c: Client, d: Client, n: string :: u.id(c, n) == u.id(d, n) ==> c == d)
  }

  /** Where a client is inside Acquire or Release of lock n. */
  datatype Pc =
    | Out
    | Plain                               // using the clerk for some other purpose
    | AcqGet(n: string)
    | AcqPut(n: string, v: nat)
    | AcqCheck(n: string)
    | RelGet(n: string)
    | RelPut(n: string, v: nat)
    | RelCheck(n: string)
    | Panicked

  /** `held` has (c, n) from the moment c's Acquire of n returns until c next calls Release of n. */
  datatype State = State(sys: Sys, pcs: map<Client, Pc>, held: set<(Client, string)>)

  datatype Action =
    | CallAcquire(c: Client, n: string)
    | CallRelease(c: Client, n: string)
    | CallPlain(c: Client, op: Op)
    | Request(c: Client)
    | Network(step: Step)
    | Respond(c: Client)

  predicate InAcquire(pc: Pc) {
    pc.AcqGet? || pc.AcqPut? || pc.AcqCheck?
  }

  predicate InRelease(pc: Pc) {
    pc.RelGet? || pc.RelPut? || pc.RelCheck?
  }

  /** The clerk call made at each program point. */
  function RequestAt(u: Setup, c: Client, pc: Pc): Op
    requires InAcquire(pc) || InRelease(pc)
  {
    match pc
    case AcqPut(n, v) => Put(n, u.id(c, n), v)
    case RelPut(n, v) => Put(n, "", v)
    case _ => Get(pc.n)
  }

  /** Where a client goes when its clerk call returns. */
  function AfterReply(u: Setup, c: Client, pc: Pc, reply: Reply): Pc {
    match pc
    case AcqGet(n) =>
      if reply.Status? then AcqPut(n, 0)
      else if reply.value == "" then AcqPut(n, reply.version)
      else if reply.value == u.id(c, n) then Out
      else AcqGet(n)
    case AcqPut(n, v) =>
      if reply == Status(OK) then Out
      else if reply == Status(ErrVersion) then AcqGet(n)
      else if reply == Status(ErrMaybe) then AcqCheck(n)
      else Panicked
    case AcqCheck(n) =>
      if reply.Status? then Panicked else if reply.value == u.id(c, n) then Out else AcqGet(n)
    case RelGet(n) =>
      if reply.Status? || reply.value == "" || reply.value != u.id(c, n) then Out else RelPut(n, reply.version)
    case RelPut(n, v) =>
      if reply == Status(OK) then Out
      else if reply == Status(ErrMaybe) then RelCheck(n)
      else Panicked
    case RelCheck(n) =>
      if reply.Status? then Panicked else if reply.value != "" then RelGet(n) else Out
    case _ => Out
  }

  predicate Can(u: Setup, s: State, a: Action) {
    match a
    case CallAcquire(c, n) => c in s.pcs && s.pcs[c] == Out && n in u.names
    case CallRelease(c, n) => c in s.pcs && s.pcs[c] == Out && n in u.names
    case CallPlain(c, op) =>
      c in s.pcs && s.pcs[c] == Out && Enabled(s.sys, Invoke(c, op)) && (op.Put? ==> op.key !in u.names)
    case Request(c) =>
      && c in s.pcs && (InAcquire(s.pcs[c]) || InRelease(s.pcs[c]))
      && Enabled(s.sys, Invoke(c, RequestAt(u, c, s.pcs[c])))
    case Network(step) => !step.Invoke? && !step.Deliver? && Enabled(s.sys, step)
    case Respond(c) => c in s.pcs && Enabled(s.sys, Deliver(c))
  }

  function Act(u: Setup, s: State, a: Action): State
    requires Can(u, s, a)
  {
    match a
    case CallAcquire(c, n) => s.(pcs := s.pcs[c := AcqGet(n)])
    case CallRelease(c, n) => s.(pcs := s.pcs[c := RelGet(n)], held := s.held - {(c, n)})
    case CallPlain(c, op) => s.(sys := Do(s.sys, Invoke(c, op)), pcs := s.pcs[c := Plain])
    case Request(c) => s.(sys := Do(s.sys, Invoke(c, RequestAt(u, c, s.pcs[c]))))
    case Network(step) => s.(sys := Do(s.sys, step))
    case Respond(c) =>
      var pc := s.pcs[c];
      var next := AfterReply(u, c, pc, ResultFor(s.sys, c));
      State(Do(s.sys, Deliver(c)), s.pcs[c := next],
            if InAcquire(pc) && next == Out then s.held + {(c, pc.n)} else s.held)
  }

  predicate Runs(u: Setup, s: State, acts: seq<Action>)
    decreases |acts|
  {
    acts == [] || (Can(u, s, acts[0]) && Runs(u, Act(u, s, acts[0]), acts[1..]))
  }

  function End(u: Setup, s: State, acts: seq<Action>): State
    requires Runs(u, s, acts)
    decreases |acts|
  {
    if acts == [] then s else End(u, Act(u, s, acts[0]), acts[1..])
  }

  /** Everyone outside, nothing held; the store may hold anything. */
  predicate Start(s: State) {
    && Clerk.Init(s.sys) && s.pcs.Keys == s.sys.clients.Keys && s.held == {}
    && forall c | c in s.pcs :: s.pcs[c] == Out
  }

  function Owner(s: Sys, n: string): string {
    if n in s.store then s.store[n].value else ""
  }

  // ----- The invariant

  /** Writes to lock keys come only from Lock, and name a version the key had reached. */
  ghost predicate WritesOk(u: Setup, s: Sys)
    requires MsgsOk(s)
  {
    forall o | 0 <= o < |s.calls| && s.calls[o].op.Put? && s.calls[o].op.key in u.names :: Settled(s, o)
  }

  /** What client c has been told about lock n while it is only reading still tells it whether it owns n. */
  ghost predicate ViewOk(u: Setup, s: Sys, c: Client, n: string)
    requires c in s.clients && !s.clients[c].Idle?
  {
    forall m | 0 <= m < |s.msgs| && s.msgs[m].call == s.clients[c].call && s.msgs[m].status.Done? ::
      var r := s.msgs[m].status.reply;
      if r.Value? && r.value == u.id(c, n) then r.version == VersionOf(s.store, n) else Owner(s, n) != u.id(c, n)
  }

  /** Client c's pending clerk call is the one its program point makes. */
  ghost predicate CallOk(u: Setup, s: Sys, c: Client, pc: Pc)
    requires c in s.clients
  {
    match pc
    case Out => s.clients[c].Idle?
    case Panicked => s.clients[c].Idle?
    case Plain =>
      && !s.clients[c].Idle? && s.clients[c].call < |s.calls|
      && (s.calls[s.clients[c].call].op.Put? ==> s.calls[s.clients[c].call].op.key !in u.names)
    case _ =>
      && pc.n in u.names
      && (!s.clients[c].Idle? ==>
            s.clients[c].call < |s.calls| && s.calls[s.clients[c].call].op == RequestAt(u, c, pc))
  }

  ghost predicate PcOk(u: Setup, s: Sys, c: Client, pc: Pc)
    requires MsgsOk(s) && c in s.clients
  {
    match pc
    case Out => true
    case Plain => true
    case Panicked => false
    case AcqPut(n, v) =>
      && v <= VersionOf(s.store, n)
      && (v == VersionOf(s.store, n) ==> Owner(s, n) == "")
      && (!s.clients[c].Idle? && Wrote(s, s.clients[c].call) ==> Owner(s, n) == u.id(c, n))
    case RelPut(n, v) =>
      || (v == VersionOf(s.store, n) && v >= 1 && Owner(s, n) == u.id(c, n))
      || (v < VersionOf(s.store, n) && Owner(s, n) != u.id(c, n) && !s.clients[c].Idle? && Wrote(s, s.clients[c].call))
    case AcqGet(n) => !s.clients[c].Idle? ==> ViewOk(u, s, c, n)
    case RelGet(n) => !s.clients[c].Idle? ==> ViewOk(u, s, c, n)
    case AcqCheck(n) => n in s.store && (!s.clients[c].Idle? ==> ViewOk(u, s, c, n) && CheckSeesKey(s, c))
    case RelCheck(n) =>
      n in s.store && Owner(s, n) != u.id(c, n) && (!s.clients[c].Idle? ==> ViewOk(u, s, c, n) && CheckSeesKey(s, c))
  }

  /** The read made after ErrMaybe finds the key. */
  ghost predicate CheckSeesKey(s: Sys, c: Client)
    requires c in s.clients && !s.clients[c].Idle?
  {
    forall m | 0 <= m < |s.msgs| && s.msgs[m].call == s.clients[c].call && s.msgs[m].status.Done? ::
      s.msgs[m].status.reply.Value?
  }

  ghost predicate HeldOk(u: Setup, s: State) {
    forall c, n | (c, n) in s.held ::
      c in s.pcs && n in u.names && Owner(s.sys, n) == u.id(c, n) && !(InRelease(s.pcs[c]) && s.pcs[c].n == n)
  }

  ghost predicate Safe(u: Setup, s: State) {
    && Consistent(s.sys)
    && s.pcs.Keys == s.sys.clients.Keys
    && WritesOk(u, s.sys)
    && (forall c | c in s.pcs :: CallOk(u, s.sys, c, s.pcs[c]))
    && (forall c | c in s.pcs :: PcOk(u, s.sys, c, s.pcs[c]))
    && HeldOk(u, s)
  }

  /** The heart of the protocol: a copy that writes lock n belongs to the pending call of a client d
      that is at the Put of Acquire, with the lock free, or at the Put of Release, owning it. */
  lemma WriterOwnsTurn(u: Setup, s: State, m: nat) returns (d: Client)
    requires Safe(u, s) && Enabled(s.sys, Execute(m))
    requires OpOf(s.sys, m).Put? && OpOf(s.sys, m).key in u.names
    requires OpOf(s.sys, m).version == VersionOf(s.sys.store, OpOf(s.sys, m).key)
    ensures d in s.pcs && !s.sys.clients[d].Idle? && s.sys.clients[d].call == s.sys.msgs[m].call
    ensures d == s.sys.calls[s.sys.msgs[m].call].client
    ensures var n := OpOf(s.sys, m).key;
            || (s.pcs[d] == AcqPut(n, OpOf(s.sys, m).version) && Owner(s.sys, n) == "" && OpOf(s.sys, m).value == u.id(d, n))
            || (s.pcs[d] == RelPut(n, OpOf(s.sys, m).version) && Owner(s.sys, n) == u.id(d, n) && OpOf(s.sys, m).value == "")
  {
    var o := s.sys.msgs[m].call;
    SettledPut(s.sys, o);
    assert PendingOk(s.sys, o);
    d := s.sys.calls[o].client;
    assert CallOk(u, s.sys, d, s.pcs[d]) && PcOk(u, s.sys, d, s.pcs[d]);
  }

  // ----- Every action keeps the invariant

  lemma ActWrites(u: Setup, s: State, a: Action)
    requires Safe(u, s) && Can(u, s, a)
    ensures Consistent(Act(u, s, a).sys) && WritesOk(u, Act(u, s, a).sys)
  {
    var s' := Act(u, s, a);
    if s'.sys != s.sys {
      var step := SysStep(u, s, a);
      StepConsistent(s.sys, step);
      forall o | 0 <= o < |s'.sys.calls| && s'.sys.calls[o].op.Put? && s'.sys.calls[o].op.key in u.names
        ensures Settled(s'.sys, o)
      {
        if o < |s.sys.calls| {
          StepKeeps(s.sys, step);
          StepSettled(s.sys, step, o);
        } else {
          NewCallSettled(u, s, a);
        }
      }
    }
  }

  /** A Put that Acquire or Release makes names a version the lock's key has reached. */
  lemma NewCallSettled(u: Setup, s: State, a: Action)
    requires Safe(u, s) && Can(u, s, a) && |Act(u, s, a).sys.calls| > |s.sys.calls|
    requires Act(u, s, a).sys.calls[|s.sys.calls|].op.Put? && Act(u, s, a).sys.calls[|s.sys.calls|].op.key in u.names
    ensures Settled(Act(u, s, a).sys, |s.sys.calls|)
  {
    assert a.Request? ==> PcOk(u, s.sys, a.c, s.pcs[a.c]) && CallOk(u, s.sys, a.c, s.pcs[a.c]);
  }

  /** The clerk-level step an action takes, if it takes one. */
  function SysStep(u: Setup, s: State, a: Action): Step
    requires Can(u, s, a) && !a.CallAcquire? && !a.CallRelease?
  {
    match a
    case CallPlain(c, op) => Invoke(c, op)
    case Request(c) => Invoke(c, RequestAt(u, c, s.pcs[c]))
    case Network(step) => step
    case Respond(c) => Deliver(c)
  }

  lemma ActCall(u: Setup, s: State, a: Action, c: Client)
    requires s.pcs.Keys == s.sys.clients.Keys && Can(u, s, a) && c in s.pcs
    requires MsgsOk(s.sys) && PhaseOk(s.sys, c) && CallOk(u, s.sys, c, s.pcs[c])
    requires a.Respond? ==> PhaseOk(s.sys, a.c)
    ensures CallOk(u, Act(u, s, a).sys, c, Act(u, s, a).pcs[c])
  {
    if a.Respond? && a.c == c {
      assert InAcquire(s.pcs[c]) || InRelease(s.pcs[c]) || AfterReply(u, c, s.pcs[c], ResultFor(s.sys, c)) == Out;
    }
  }

  /** Another client's write of lock n leaves it with c exactly when it was with c. */
  lemma OwnershipStable(u: Setup, s: State, m: nat, c: Client, n: string)
    requires GoodSetup(u) && Safe(u, s) && Enabled(s.sys, Execute(m))
    requires c in s.pcs && n in u.names
    requires !(s.sys.calls[s.sys.msgs[m].call].client == c && OpOf(s.sys, m).Put? && OpOf(s.sys, m).key == n
               && OpOf(s.sys, m).version == VersionOf(s.sys.store, n))
    ensures var s' := Do(s.sys, Execute(m));
            && (Owner(s', n) == u.id(c, n) <==> Owner(s.sys, n) == u.id(c, n))
            && (Owner(s.sys, n) == u.id(c, n) ==> VersionOf(s'.store, n) == VersionOf(s.sys.store, n))
  {
    var op := OpOf(s.sys, m);
    if op.Put? && op.key == n && op.version == VersionOf(s.sys.store, n) {
      var d := WriterOwnsTurn(u, s, m);
    }
  }

  /** Whatever copy executes, every client's knowledge stays true. */
  lemma ExecutePc(u: Setup, s: State, m: nat, c: Client)
    requires GoodSetup(u) && Safe(u, s) && Enabled(s.sys, Execute(m)) && c in s.pcs
    ensures MsgsOk(Do(s.sys, Execute(m))) && PcOk(u, Do(s.sys, Execute(m)), c, s.pcs[c])
  {
    var s' := Do(s.sys, Execute(m));
    StepConsistent(s.sys, Execute(m));
    StepKeeps(s.sys, Execute(m));
    var pc := s.pcs[c];
    assert CallOk(u, s.sys, c, pc) && PcOk(u, s.sys, c, pc) && PhaseOk(s.sys, c);
    if InAcquire(pc) || InRelease(pc) {
      var n := pc.n;
      var op := OpOf(s.sys, m);
      if s.sys.calls[s.sys.msgs[m].call].client == c && op.Put? && op.key == n && op.version == VersionOf(s.sys.store, n) {
        var d := WriterOwnsTurn(u, s, m);
        assert TookEffect(s', m);
      } else {
        OwnershipStable(u, s, m, c, n);
        if pc.AcqPut? || pc.RelPut? {
          ExecutePutPc(u, s, m, c);
        } else {
          ExecuteGetPc(u, s, m, c);
        }
      }
    }
  }

  lemma ExecutePutPc(u: Setup, s: State, m: nat, c: Client)
    requires Consistent(s.sys) && Enabled(s.sys, Execute(m)) && c in s.pcs && c in s.sys.clients
    requires s.pcs[c].AcqPut? || s.pcs[c].RelPut?
    requires CallOk(u, s.sys, c, s.pcs[c]) && PcOk(u, s.sys, c, s.pcs[c]) && PhaseOk(s.sys, c)
    requires var s', n := Do(s.sys, Execute(m)), s.pcs[c].n;
             && (Owner(s', n) == u.id(c, n) <==> Owner(s.sys, n) == u.id(c, n))
             && (Owner(s.sys, n) == u.id(c, n) ==> VersionOf(s'.store, n) == VersionOf(s.sys.store, n))
    requires s.sys.calls[s.sys.msgs[m].call].client == c && OpOf(s.sys, m).Put? && OpOf(s.sys, m).key == s.pcs[c].n
             ==> OpOf(s.sys, m).version != VersionOf(s.sys.store, s.pcs[c].n)
    ensures MsgsOk(Do(s.sys, Execute(m))) && PcOk(u, Do(s.sys, Execute(m)), c, s.pcs[c])
  {
    var s', p := Do(s.sys, Execute(m)), s.sys.clients[c];
    StepMsgs(s.sys, Execute(m));
    if !p.Idle? {
      if Wrote(s', p.call) {
        var k :| 0 <= k < |s'.msgs| && s'.msgs[k].call == p.call && TookEffect(s', k);
        assert k != m && TookEffect(s.sys, k);
      }
      if Wrote(s.sys, p.call) {
        var k :| 0 <= k < |s.sys.msgs| && s.sys.msgs[k].call == p.call && TookEffect(s.sys, k);
        assert TookEffect(s', k);
      }
    }
  }

  lemma ExecuteGetPc(u: Setup, s: State, m: nat, c: Client)
    requires GoodSetup(u) && Consistent(s.sys) && Enabled(s.sys, Execute(m)) && c in s.pcs && c in s.sys.clients
    requires s.pcs[c].AcqGet? || s.pcs[c].RelGet? || s.pcs[c].AcqCheck? || s.pcs[c].RelCheck?
    requires CallOk(u, s.sys, c, s.pcs[c]) && PcOk(u, s.sys, c, s.pcs[c])
    requires var s', n := Do(s.sys, Execute(m)), s.pcs[c].n;
             && (Owner(s', n) == u.id(c, n) <==> Owner(s.sys, n) == u.id(c, n))
             && (Owner(s.sys, n) == u.id(c, n) ==> VersionOf(s'.store, n) == VersionOf(s.sys.store, n))
    ensures MsgsOk(Do(s.sys, Execute(m))) && PcOk(u, Do(s.sys, Execute(m)), c, s.pcs[c])
  {
    var s', p, n := Do(s.sys, Execute(m)), s.sys.clients[c], s.pcs[c].n;
    StepMsgs(s.sys, Execute(m));
    if !p.Idle? {
      forall k | 0 <= k < |s'.msgs| && s'.msgs[k].call == p.call && s'.msgs[k].status.Done?
        ensures var r := s'.msgs[k].status.reply;
                if r.Value? && r.value == u.id(c, n) then r.version == VersionOf(s'.store, n) else Owner(s', n) != u.id(c, n)
      {
        if k != m {
          assert s'.msgs[k] == s.sys.msgs[k];
          assert ReplyOk(s.sys.store, OpOf(s.sys, k), s.sys.msgs[k].status.reply);
        } else {
          assert OpOf(s.sys, m) == Get(n);
        }
      }
    }
  }

  /** The same replies have come back, to the same calls. */
  ghost predicate SameNews(s: Sys, s': Sys)
    requires MsgsOk(s) && MsgsOk(s')
  {
    && s'.store == s.store && |s.msgs| <= |s'.msgs| && |s.calls| <= |s'.calls|
    && (forall o | 0 <= o < |s.calls| :: s'.calls[o].op == s.calls[o].op)
    && (forall m | 0 <= m < |s'.msgs| && s'.msgs[m].status.Done? :: m < |s.msgs| && s.msgs[m] == s'.msgs[m])
    && (forall m | 0 <= m < |s.msgs| && s.msgs[m].status.Done? :: s.msgs[m] == s'.msgs[m])
  }

  lemma QuietStep(s: Sys, step: Step)
    requires Consistent(s) && Enabled(s, step) && !step.Execute?
    ensures MsgsOk(Do(s, step)) && SameNews(s, Do(s, step))
  {
    StepMsgs(s, step);
  }

  lemma SameNewsWrote(s: Sys, s': Sys, o: nat)
    requires MsgsOk(s) && MsgsOk(s') && SameNews(s, s')
    ensures Wrote(s, o) <==> Wrote(s', o)
  {
    if Wrote(s', o) {
      var k :| 0 <= k < |s'.msgs| && s'.msgs[k].call == o && TookEffect(s', k);
      assert TookEffect(s, k);
    }
    if Wrote(s, o) {
      var k :| 0 <= k < |s.msgs| && s.msgs[k].call == o && TookEffect(s, k);
      assert TookEffect(s', k);
    }
  }

  /** Sending, losing and abandoning messages teach nobody anything. */
  lemma QuietPc(u: Setup, s: Sys, step: Step, c: Client, pc: Pc)
    requires Consistent(s) && Enabled(s, step) && !step.Execute? && c in s.clients
    requires step.Deliver? || step.Invoke? ==> step.c != c
    requires PcOk(u, s, c, pc)
    ensures MsgsOk(Do(s, step)) && PcOk(u, Do(s, step), c, pc)
  {
    QuietStep(s, step);
    var s', p := Do(s, step), s.clients[c];
    if !p.Idle? {
      SameNewsWrote(s, s', p.call);
    }
    SameKnowledge(u, s, s', c, pc);
  }

  lemma SameKnowledge(u: Setup, s: Sys, s': Sys, c: Client, pc: Pc)
    requires MsgsOk(s) && MsgsOk(s') && SameNews(s, s') && c in s.clients && c in s'.clients
    requires s.clients[c].Idle? <==> s'.clients[c].Idle?
    requires !s.clients[c].Idle? ==>
               s'.clients[c].call == s.clients[c].call && (Wrote(s, s.clients[c].call) <==> Wrote(s', s.clients[c].call))
    requires PcOk(u, s, c, pc)
    ensures PcOk(u, s', c, pc)
  {
  }

  /** The client that starts a clerk call has heard nothing about it yet. */
  lemma RequestPc(u: Setup, s: State, c: Client)
    requires Safe(u, s) && Can(u, s, Request(c))
    ensures MsgsOk(Act(u, s, Request(c)).sys) && PcOk(u, Act(u, s, Request(c)).sys, c, s.pcs[c])
  {
    var s' := Act(u, s, Request(c)).sys;
    StepMsgs(s.sys, Invoke(c, RequestAt(u, c, s.pcs[c])));
    assert PcOk(u, s.sys, c, s.pcs[c]);
    assert forall m | 0 <= m < |s'.msgs| :: s'.msgs[m].call != s'.clients[c].call;
  }

  /** What a returning call leaves behind: the client's next step is justified, Acquire returns to the
      owner, Release to a client that is not, and a doubtful Put of Release did write. */
  ghost predicate RespondOk(u: Setup, s: Sys, c: Client, pc: Pc)
    requires MsgsOk(s) && Enabled(s, Deliver(c)) && MsgsOk(Do(s, Deliver(c)))
  {
    var next := AfterReply(u, c, pc, ResultFor(s, c));
    && PcOk(u, Do(s, Deliver(c)), c, next)
    && (InAcquire(pc) && next == Out ==> Owner(s, pc.n) == u.id(c, pc.n))
    && (InRelease(pc) && next == Out ==> Owner(s, pc.n) != u.id(c, pc.n))
    && (InRelease(pc) && ResultFor(s, c) == Status(ErrMaybe) ==> Wrote(s, s.clients[c].call))
  }

  lemma RespondPut(u: Setup, s: Sys, c: Client, pc: Pc)
    requires GoodSetup(u) && Consistent(s) && WritesOk(u, s) && Enabled(s, Deliver(c)) && MsgsOk(Do(s, Deliver(c)))
    requires CallOk(u, s, c, pc) && PcOk(u, s, c, pc) && (pc.AcqPut? || pc.RelPut?)
    ensures RespondOk(u, s, c, pc)
  {
    var p := s.clients[c];
    assert PhaseOk(s, c);
    SettledPut(s, p.call);
    assert s.msgs[p.rpc].status.reply == Status(OK) ==> TookEffect(s, p.rpc);
  }

  lemma RespondGet(u: Setup, s: Sys, c: Client, pc: Pc)
    requires GoodSetup(u) && Consistent(s) && Enabled(s, Deliver(c)) && MsgsOk(Do(s, Deliver(c)))
    requires CallOk(u, s, c, pc) && PcOk(u, s, c, pc) && !pc.AcqPut? && !pc.RelPut?
    ensures RespondOk(u, s, c, pc)
  {
    var p := s.clients[c];
    assert PhaseOk(s, c);
    assert ReplyOk(s.store, OpOf(s, p.rpc), s.msgs[p.rpc].status.reply);
  }

  lemma RespondPc(u: Setup, s: State, c: Client)
    requires GoodSetup(u) && Safe(u, s) && Can(u, s, Respond(c))
    ensures MsgsOk(Do(s.sys, Deliver(c))) && RespondOk(u, s.sys, c, s.pcs[c])
  {
    var pc := s.pcs[c];
    assert CallOk(u, s.sys, c, pc) && PcOk(u, s.sys, c, pc);
    StepMsgs(s.sys, Deliver(c));
    if pc.AcqPut? || pc.RelPut? {
      RespondPut(u, s.sys, c, pc);
    } else {
      RespondGet(u, s.sys, c, pc);
    }
  }

  lemma ActPc(u: Setup, s: State, a: Action, c: Client)
    requires GoodSetup(u) && Safe(u, s) && Can(u, s, a) && c in s.pcs
    ensures MsgsOk(Act(u, s, a).sys) && PcOk(u, Act(u, s, a).sys, c, Act(u, s, a).pcs[c])
  {
    assert CallOk(u, s.sys, c, s.pcs[c]) && PcOk(u, s.sys, c, s.pcs[c]);
    match a
    case CallAcquire(d, n) =>
    case CallRelease(d, n) =>
    case CallPlain(d, op) =>
      StepMsgs(s.sys, Invoke(d, op));
      if c != d { QuietPc(u, s.sys, Invoke(d, op), c, s.pcs[c]); }
    case Request(d) =>
      if c == d { RequestPc(u, s, c); } else { QuietPc(u, s.sys, SysStep(u, s, a), c, s.pcs[c]); }
    case Network(step) =>
      if step.Execute? { ExecutePc(u, s, step.m, c); } else { QuietPc(u, s.sys, step, c, s.pcs[c]); }
    case Respond(d) =>
      if c == d { RespondPc(u, s, c); } else { QuietPc(u, s.sys, Deliver(d), c, s.pcs[c]); }
  }

  lemma ActHeld(u: Setup, s: State, a: Action)
    requires GoodSetup(u) && Safe(u, s) && Can(u, s, a)
    ensures HeldOk(u, Act(u, s, a))
  {
    if a.Respond? {
      RespondHeld(u, s, a.c);
    } else if a.Network? && a.step.Execute? {
      forall c, n | (c, n) in s.held ensures Owner(Do(s.sys, a.step), n) == u.id(c, n) {
        ExecuteHeld(u, s, a.step.m, c, n);
      }
    }
  }

  lemma RespondHeld(u: Setup, s: State, c: Client)
    requires GoodSetup(u) && Safe(u, s) && Can(u, s, Respond(c))
    ensures HeldOk(u, Act(u, s, Respond(c)))
  {
    RespondPc(u, s, c);
    HeldAfter(u, s, Act(u, s, Respond(c)), c);
  }

  /** The store is as it was, and c, whose call returned, holds at most the lock it acquired in addition. */
  lemma HeldAfter(u: Setup, s: State, s': State, c: Client)
    requires HeldOk(u, s) && c in s.pcs && c in s'.pcs && s'.sys.store == s.sys.store && s'.pcs == s.pcs[c := s'.pcs[c]]
    requires InRelease(s'.pcs[c]) ==> InRelease(s.pcs[c]) && s'.pcs[c].n == s.pcs[c].n
    requires s'.held == s.held
          || (InAcquire(s.pcs[c]) && s'.pcs[c] == Out && s'.held == s.held + {(c, s.pcs[c].n)}
              && s.pcs[c].n in u.names && Owner(s.sys, s.pcs[c].n) == u.id(c, s.pcs[c].n))
    ensures HeldOk(u, s')
  {
  }

  /** No execution takes a held lock away: its holder has no write under way. */
  lemma ExecuteHeld(u: Setup, s: State, m: nat, c: Client, n: string)
    requires GoodSetup(u) && Safe(u, s) && Enabled(s.sys, Execute(m)) && (c, n) in s.held
    ensures Owner(Do(s.sys, Execute(m)), n) == u.id(c, n)
  {
    var op := OpOf(s.sys, m);
    if s.sys.calls[s.sys.msgs[m].call].client == c && op.Put? && op.key == n && op.version == VersionOf(s.sys.store, n) {
      var d := WriterOwnsTurn(u, s, m);
      assert false;
    }
    OwnershipStable(u, s, m, c, n);
  }

  lemma ActClient(u: Setup, s: State, a: Action, c: Client)
    requires GoodSetup(u) && Safe(u, s) && Can(u, s, a) && c in s.pcs
    ensures MsgsOk(Act(u, s, a).sys)
    ensures CallOk(u, Act(u, s, a).sys, c, Act(u, s, a).pcs[c])
    ensures PcOk(u, Act(u, s, a).sys, c, Act(u, s, a).pcs[c])
  {
    if a.Respond? {
      assert PhaseOk(s.sys, a.c);
    }
    ActCall(u, s, a, c);
    ActPc(u, s, a, c);
  }

  lemma ActKeys(u: Setup, s: State, a: Action)
    requires s.pcs.Keys == s.sys.clients.Keys && Can(u, s, a)
    ensures Act(u, s, a).pcs.Keys == Act(u, s, a).sys.clients.Keys == s.pcs.Keys
  {
  }

  lemma ActSafe(u: Setup, s: State, a: Action)
    requires GoodSetup(u) && Safe(u, s) && Can(u, s, a)
    ensures Safe(u, Act(u, s, a))
  {
    ActKeys(u, s, a);
    ActWrites(u, s, a);
    ActHeld(u, s, a);
    forall c | c in s.pcs
      ensures CallOk(u, Act(u, s, a).sys, c, Act(u, s, a).pcs[c]) && PcOk(u, Act(u, s, a).sys, c, Act(u, s, a).pcs[c])
    {
      ActClient(u, s, a, c);
    }
    SafeParts(u, s.pcs, Act(u, s, a));
  }

  lemma SafeParts(u: Setup, pcs: map<Client, Pc>, s: State)
    requires Consistent(s.sys) && s.pcs.Keys == s.sys.clients.Keys == pcs.Keys && WritesOk(u, s.sys) && HeldOk(u, s)
    requires forall c | c in pcs :: CallOk(u, s.sys, c, s.pcs[c]) && PcOk(u, s.sys, c, s.pcs[c])
    ensures Safe(u, s)
  {
  }

  lemma {:induction false} RunSafe(u: Setup, s: State, acts: seq<Action>)
    requires GoodSetup(u) && Safe(u, s) && Runs(u, s, acts)
    ensures Safe(u, End(u, s, acts))
    decreases |acts|
  {
    if acts != [] {
      ActSafe(u, s, acts[0]);
      RunSafe(u, Act(u, s, acts[0]), acts[1..]);
    }
  }

  lemma StartSafe(u: Setup, s: State)
    requires Start(s)
    ensures Safe(u, s)
  {
    InitConsistent(s.sys);
  }

  // ----- Main results

  /** Whoever holds a lock owns it at the server, and nobody else holds it. */
  ghost predicate Exclusive(u: Setup, s: State) {
    && (forall c, n | (c, n) in s.held :: Owner(s.sys, n) == u.id(c, n))
    && (forall c, d, n | (c, n) in s.held && (d, n) in s.held :: c == d)
  }

  lemma SafeExcludes(u: Setup, s: State)
    requires GoodSetup(u) && Safe(u, s)
    ensures Exclusive(u, s)
  {
    forall c, d, n | (c, n) in s.held && (d, n) in s.held ensures c == d {
      assert u.id(c, n) == Owner(s.sys, n) == u.id(d, n);
    }
  }

  /** In every run, at most one client is between a returned Acquire and its next Release of a given
      lock, and for that whole time the server's value for the lock is that client's identifier. */
  lemma MutualExclusion(u: Setup, s0: State, acts: seq<Action>)
    requires GoodSetup(u) && Start(s0) && Runs(u, s0, acts)
    ensures Exclusive(u, End(u, s0, acts))
  {
    StartSafe(u, s0);
    RunSafe(u, s0, acts);
    SafeExcludes(u, End(u, s0, acts));
  }

  ghost predicate NonePanicked(s: State) {
    forall c | c in s.pcs :: !s.pcs[c].Panicked?
  }

  lemma SafeNonePanicked(u: Setup, s: State)
    requires Safe(u, s)
    ensures NonePanicked(s)
  {
    forall c | c in s.pcs ensures !s.pcs[c].Panicked? {
      assert PcOk(u, s.sys, c, s.pcs[c]);
    }
  }

  /** In every run, no panic of Acquire or Release is reached. */
  lemma NeverPanics(u: Setup, s0: State, acts: seq<Action>)
    requires GoodSetup(u) && Start(s0) && Runs(u, s0, acts)
    ensures NonePanicked(End(u, s0, acts))
  {
    StartSafe(u, s0);
    RunSafe(u, s0, acts);
    SafeNonePanicked(u, End(u, s0, acts));
  }

  /** What holds at the moment client c's clerk call returns: Acquire returns only to the owner, Release
      returns only to a client that is not the owner, and a Put inside Release that ends with
      ErrMaybe did write the store. */
  ghost predicate ReturnIsTrue(u: Setup, s: State, c: Client)
    requires Can(u, s, Respond(c)) && MsgsOk(s.sys)
  {
    var s', pc := Act(u, s, Respond(c)), s.pcs[c];
    && (InAcquire(pc) && s'.pcs[c] == Out ==> Owner(s'.sys, pc.n) == u.id(c, pc.n) && (c, pc.n) in s'.held)
    && (InRelease(pc) && s'.pcs[c] == Out ==> Owner(s'.sys, pc.n) != u.id(c, pc.n))
    && (InRelease(pc) && ResultFor(s.sys, c) == Status(ErrMaybe) ==> Wrote(s.sys, s.sys.clients[c].call))
  }

  lemma SafeReturn(u: Setup, s: State, c: Client)
    requires GoodSetup(u) && Safe(u, s) && Can(u, s, Respond(c))
    ensures ReturnIsTrue(u, s, c)
  {
    RespondPc(u, s, c);
  }

  lemma ReturnsTellTruth(u: Setup, s0: State, acts: seq<Action>, c: Client)
    requires GoodSetup(u) && Start(s0) && Runs(u, s0, acts) && Can(u, End(u, s0, acts), Respond(c))
    ensures MsgsOk(End(u, s0, acts).sys) && ReturnIsTrue(u, End(u, s0, acts), c)
  {
    StartSafe(u, s0);
    RunSafe(u, s0, acts);
    SafeReturn(u, End(u, s0, acts), c);
  }
}
