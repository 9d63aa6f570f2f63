/** The append workload: clients read a shared list, append one entry each and write it back, moving on
    after OK or ErrMaybe. No acknowledged append is lost, and the test harness's final check passes. */
module Appends {
  import opened KvServer
  import opened Clerk
  import opened Workloads
  import opened Writes

  const KEY := "k"

  datatype Entry = Entry(id: nat, n: nat)

  /** How lists are written as values; reading one back gives the same list. */
  datatype Codec = Codec(enc: seq<Entry> -> string, dec: string -> seq<Entry>)

  ghost predicate Lossless(j: Codec) {
    forall es :: j.dec(j.enc(es)) == es
  }

  datatype Pc =
    | Top
    | Getting
    | Putting(es: seq<Entry>, ver: nat)
    | Finished
    | Failed

  /** One client's loop: its iteration i and the counters it will report, together with which
      iterations those counters stand for. */
  datatype Prog = Prog(pc: Pc, i: nat, nok: nat, nmaybe: nat, oks: set<nat>, maybes: set<nat>)

  datatype State = State(sys: Sys, progs: map<Client, Prog>)

  datatype Action =
    | Begin(c: Client)
    | Finish(c: Client)
    | Request(c: Client)
    | Network(step: Step)
    | Respond(c: Client)

  function RequestAt(j: Codec, pc: Pc): Op
    requires pc.Getting? || pc.Putting?
  {
    match pc
    case Getting => Get(KEY)
    case Putting(es, ver) => Put(KEY, j.enc(es), ver)
  }

  function AfterReply(j: Codec, c: Client, p: Prog, reply: Reply): Prog {
    match p.pc
    case Getting =>
      if reply.Status? then p.(pc := Failed) else p.(pc := Putting(j.dec(reply.value) + [Entry(c, p.i)], reply.version))
    case Putting(_, _) =>
      if reply == Status(OK) then p.(pc := Top, i := p.i + 1, nok := p.nok + 1, oks := p.oks + {p.i})
      else if reply == Status(ErrMaybe) then p.(pc := Top, i := p.i + 1, nmaybe := p.nmaybe + 1, maybes := p.maybes + {p.i})
      else p.(pc := Getting)
    case _ => p
  }

  predicate Can(j: Codec, s: State, a: Action) {
    match a
    case Begin(c) => c in s.progs && s.progs[c].pc.Top?
    case Finish(c) => c in s.progs && s.progs[c].pc.Top?
    case Request(c) =>
      && c in s.progs && (s.progs[c].pc.Getting? || s.progs[c].pc.Putting?)
      && Enabled(s.sys, Invoke(c, RequestAt(j, s.progs[c].pc)))
    case Network(step) => !step.Invoke? && !step.Deliver? && Enabled(s.sys, step)
    case Respond(c) => c in s.progs && Enabled(s.sys, Deliver(c))
  }

  function Act(j: Codec, s: State, a: Action): State
    requires Can(j, s, a)
  {
    match a
    case Begin(c) => s.(progs := s.progs[c := s.progs[c].(pc := Getting)])
    case Finish(c) => s.(progs := s.progs[c := s.progs[c].(pc := Finished)])
    case Request(c) => s.(sys := Do(s.sys, Invoke(c, RequestAt(j, s.progs[c].pc))))
    case Network(step) => s.(sys := Do(s.sys, step))
    case Respond(c) =>
      State(Do(s.sys, Deliver(c)), s.progs[c := AfterReply(j, c, s.progs[c], ResultFor(s.sys, c))])
  }

  predicate Runs(j: Codec, s: State, acts: seq<Action>)
    decreases |acts|
  {
    acts == [] || (Can(j, s, acts[0]) && Runs(j, Act(j, s, acts[0]), acts[1..]))
  }

  function End(j: Codec, s: State, acts: seq<Action>): State
    requires Runs(j, s, acts)
    decreases |acts|
  {
    if acts == [] then s else End(j, Act(j, s, acts[0]), acts[1..])
  }

  /** The key holds the empty list, put there by earlier calls that may still have copies under way; every client
      is at the top of its loop. */
  ghost predicate Start(j: Codec, s: State) {
    && Consistent(s.sys) && CallsOk(s.sys) && NoGetMisses(s.sys) && (forall c | c in s.sys.clients :: s.sys.clients[c].Idle?)
    && s.sys.store == map[KEY := Cell(j.enc([]), 1)]
    && s.progs.Keys == s.sys.clients.Keys
    && forall c | c in s.progs :: s.progs[c] == Prog(Top, 0, 0, 0, {}, {})
  }

  function List(j: Codec, s: Sys): seq<Entry>
    requires KEY in s.store
  {
    j.dec(s.store[KEY].value)
  }

  // ----- The invariant

  ghost predicate Increasing(es: seq<Entry>) {
    forall a, b | 0 <= a < b < |es| && es[a].id == es[b].id :: es[a].n < es[b].n
  }

  /** The list and the version move together, and the list is in order. */
  ghost predicate ListOk(j: Codec, s: State) {
    && KEY in s.sys.store
    && |List(j, s.sys)| + 1 == s.sys.store[KEY].version
    && Increasing(List(j, s.sys))
    && forall a | 0 <= a < |List(j, s.sys)| :: List(j, s.sys)[a].id in s.progs
  }

  ghost predicate CallsOk(s: Sys)
    requires MsgsOk(s)
  {
    forall o | 0 <= o < |s.calls| :: s.calls[o].op.key == KEY && Settled(s, o)
  }

  /** Client c's clerk call is the one its program point makes. */
  ghost predicate CallOk(j: Codec, s: Sys, c: Client, pc: Pc) {
    && c in s.clients
    && (if pc.Getting? || pc.Putting? then
          !s.clients[c].Idle? ==> s.clients[c].call < |s.calls| && s.calls[s.clients[c].call].op == RequestAt(j, pc)
        else s.clients[c].Idle?)
  }

  /** The current iteration's entry is already in the list. */
  ghost predicate Published(s: Sys, c: Client, pc: Pc)
    requires MsgsOk(s) && c in s.clients
  {
    pc.Putting? && !s.clients[c].Idle? && Wrote(s, s.clients[c].call)
  }

  ghost predicate CountersOk(p: Prog) {
    && p.nok == |p.oks| && p.nmaybe == |p.maybes|
    && (forall x | x in p.oks :: x < p.i && x !in p.maybes)
    && (forall x | x in p.maybes :: x < p.i)
    && (forall x | 0 <= x < p.i :: x in p.oks || x in p.maybes)
  }

  ghost predicate ProgOk(j: Codec, s: Sys, c: Client, p: Prog)
    requires MsgsOk(s) && c in s.clients && KEY in s.store
  {
    && !p.pc.Failed?
    && CountersOk(p)
    && (p.pc.Putting? ==>
          && p.pc.ver <= s.store[KEY].version
          && (p.pc.ver == s.store[KEY].version ==> p.pc.es == List(j, s) + [Entry(c, p.i)]))
    && EntriesOk(List(j, s), c, p, Published(s, c, p.pc))
  }

  /** Client c's entries are from finished iterations, plus the current one if published; every
      acknowledged iteration has its entry. */
  ghost predicate EntriesOk(es: seq<Entry>, c: Client, p: Prog, published: bool) {
    && (forall a | 0 <= a < |es| && es[a].id == c :: es[a].n < p.i + (if published then 1 else 0))
    && (published ==> Entry(c, p.i) in es)
    && (forall x | x in p.oks :: Entry(c, x) in es)
  }

  ghost predicate NoGetMisses(s: Sys)
    requires MsgsOk(s)
  {
    forall m | 0 <= m < |s.msgs| && OpOf(s, m) == Get(KEY) && s.msgs[m].status.Done? :: s.msgs[m].status.reply.Value?
  }

  ghost predicate Safe(j: Codec, s: State) {
    && Consistent(s.sys)
    && NoGetMisses(s.sys)
    && s.progs.Keys == s.sys.clients.Keys
    && ListOk(j, s)
    && CallsOk(s.sys)
    && (forall c | c in s.progs :: CallOk(j, s.sys, c, s.progs[c].pc))
    && (forall c | c in s.progs :: ProgOk(j, s.sys, c, s.progs[c]))
  }

  // ----- A write

  /** A copy that writes belongs to the pending Put of a client whose list is the current one plus
      its own entry, not yet published. */
  lemma WriterTurn(j: Codec, s: State, m: nat) returns (d: Client)
    requires Safe(j, s) && Enabled(s.sys, Execute(m)) && WritesKey(s.sys, Execute(m), KEY)
    ensures d in s.progs && d in s.sys.clients && !s.sys.clients[d].Idle? && s.sys.clients[d].call == s.sys.msgs[m].call
    ensures s.progs[d].pc.Putting? && !Published(s.sys, d, s.progs[d].pc)
    ensures OpOf(s.sys, m) == Put(KEY, j.enc(List(j, s.sys) + [Entry(d, s.progs[d].i)]), s.sys.store[KEY].version)
  {
    var o := s.sys.msgs[m].call;
    assert Settled(s.sys, o);
    SettledPut(s.sys, o);
    assert PendingOk(s.sys, o);
    d := s.sys.calls[o].client;
    assert CallOk(j, s.sys, d, s.progs[d].pc) && ProgOk(j, s.sys, d, s.progs[d]);
    ExecuteWrites(s.sys, m);
  }

  lemma WriteAppends(j: Codec, s: State, m: nat, d: Client)
    requires Lossless(j) && Consistent(s.sys) && KEY in s.sys.store && Enabled(s.sys, Execute(m)) && d in s.progs
    requires OpOf(s.sys, m) == Put(KEY, j.enc(List(j, s.sys) + [Entry(d, s.progs[d].i)]), s.sys.store[KEY].version)
    ensures var s' := Do(s.sys, Execute(m));
            && KEY in s'.store && s'.store[KEY].version == s.sys.store[KEY].version + 1
            && List(j, s') == List(j, s.sys) + [Entry(d, s.progs[d].i)]
  {
  }

  lemma EntriesGrow(es: seq<Entry>, c: Client, p: Prog, published: bool, e: Entry)
    requires EntriesOk(es, c, p, published)
    requires e.id == c ==> !published && e.n == p.i
    ensures EntriesOk(es + [e], c, p, published || e.id == c)
  {
    forall x | x in p.oks ensures Entry(c, x) in es + [e] {
      assert Entry(c, x) in es;
    }
    assert e in es + [e];
  }

  lemma ExecuteProg(j: Codec, s: State, m: nat, c: Client)
    requires Lossless(j) && Safe(j, s) && Enabled(s.sys, Execute(m)) && c in s.progs
    ensures MsgsOk(Do(s.sys, Execute(m))) && KEY in Do(s.sys, Execute(m)).store
    ensures ProgOk(j, Do(s.sys, Execute(m)), c, s.progs[c])
  {
    var s', p := Do(s.sys, Execute(m)), s.progs[c];
    StepMsgs(s.sys, Execute(m));
    assert CallOk(j, s.sys, c, p.pc) && ProgOk(j, s.sys, c, p) && PhaseOk(s.sys, c);
    if !s.sys.clients[c].Idle? {
      StepWrote(s.sys, Execute(m), s.sys.clients[c].call);
    }
    if WritesKey(s.sys, Execute(m), KEY) {
      var d := WriterTurn(j, s, m);
      WriteAppends(j, s, m, d);
      ExecuteWrites(s.sys, m);
      assert PhaseOk(s.sys, d);
      EntriesGrow(List(j, s.sys), c, p, Published(s.sys, c, p.pc), Entry(d, s.progs[d].i));
      assert c == d <==> !s.sys.clients[c].Idle? && s.sys.clients[c].call == s.sys.msgs[m].call;
    } else {
      KeyUntouched(s.sys, Execute(m), KEY);
      assert Published(s', c, p.pc) <==> Published(s.sys, c, p.pc);
    }
  }

  lemma ExecuteList(j: Codec, s: State, m: nat)
    requires Lossless(j) && Safe(j, s) && Enabled(s.sys, Execute(m))
    ensures ListOk(j, Act(j, s, Network(Execute(m))))
  {
    if WritesKey(s.sys, Execute(m), KEY) {
      var d := WriterTurn(j, s, m);
      WriteAppends(j, s, m, d);
      assert ProgOk(j, s.sys, d, s.progs[d]);
    } else {
      KeyUntouched(s.sys, Execute(m), KEY);
    }
  }

  // ----- The other steps

  lemma QuietProg(j: Codec, s: Sys, step: Step, c: Client, p: Prog)
    requires Consistent(s) && Enabled(s, step) && !step.Execute? && c in s.clients && KEY in s.store
    requires step.Deliver? || step.Invoke? ==> step.c != c
    requires ProgOk(j, s, c, p)
    ensures MsgsOk(Do(s, step)) && ProgOk(j, Do(s, step), c, p)
  {
    StepMsgs(s, step);
    assert PhaseOk(s, c);
    if !s.clients[c].Idle? {
      StepWrote(s, step, s.clients[c].call);
    }
    assert Published(Do(s, step), c, p.pc) <==> Published(s, c, p.pc);
  }

  lemma RequestProg(j: Codec, s: State, c: Client)
    requires Safe(j, s) && Can(j, s, Request(c))
    ensures MsgsOk(Act(j, s, Request(c)).sys) && ProgOk(j, Act(j, s, Request(c)).sys, c, s.progs[c])
  {
    var s' := Act(j, s, Request(c)).sys;
    StepMsgs(s.sys, Invoke(c, RequestAt(j, s.progs[c].pc)));
    assert ProgOk(j, s.sys, c, s.progs[c]);
    assert !Wrote(s', s'.clients[c].call);
  }

  /** What each reply tells the loop about its entry. */
  lemma ReplyMeans(j: Codec, s: State, c: Client)
    requires Safe(j, s) && Can(j, s, Respond(c))
    ensures var r := ResultFor(s.sys, c);
            var pc := s.progs[c].pc;
            && (pc.Getting? ==> r.Value? && r.version <= s.sys.store[KEY].version
                                && (r.version == s.sys.store[KEY].version ==> r.value == s.sys.store[KEY].value))
            && (pc.Putting? ==> r in {Status(OK), Status(ErrVersion), Status(ErrMaybe)})
            && (pc.Putting? && r == Status(OK) ==> Published(s.sys, c, pc))
            && (pc.Putting? && r == Status(ErrVersion) ==> !Published(s.sys, c, pc))
  {
    var p, phase := s.progs[c], s.sys.clients[c];
    assert CallOk(j, s.sys, c, p.pc) && PhaseOk(s.sys, c);
    var m := phase.rpc;
    assert ReplyOk(s.sys.store, OpOf(s.sys, m), s.sys.msgs[m].status.reply);
    if p.pc.Putting? {
      SettledPut(s.sys, phase.call);
      if s.sys.msgs[m].status.reply == Status(OK) {
        assert TookEffect(s.sys, m);
      }
    } else {
      GetFindsKey(s.sys, m);
    }
  }

  /** The key was there from the start, so no Get misses it. */
  lemma GetFindsKey(s: Sys, m: nat)
    requires Consistent(s) && NoGetMisses(s) && m < |s.msgs|
    ensures OpOf(s, m) == Get(KEY) && s.msgs[m].status.Done? ==> s.msgs[m].status.reply.Value?
  {
  }

  lemma StepNoGetMisses(s: Sys, step: Step)
    requires Consistent(s) && Enabled(s, step) && NoGetMisses(s) && KEY in s.store
    ensures MsgsOk(Do(s, step)) && NoGetMisses(Do(s, step)) && KEY in Do(s, step).store
  {
    var s' := Do(s, step);
    StepMsgs(s, step);
    forall m | 0 <= m < |s'.msgs| && OpOf(s', m) == Get(KEY) && s'.msgs[m].status.Done?
      ensures s'.msgs[m].status.reply.Value?
    {
      assert m < |s.msgs| && OpOf(s, m) == Get(KEY);
    }
  }

  lemma CountersAfter(j: Codec, c: Client, p: Prog, r: Reply)
    requires CountersOk(p)
    ensures CountersOk(AfterReply(j, c, p, r))
  {
    if p.pc.Putting? {
      CountOk(p);
      CountMaybe(p);
    }
  }

  lemma CountOk(p: Prog)
    requires CountersOk(p)
    ensures CountersOk(p.(pc := Top, i := p.i + 1, nok := p.nok + 1, oks := p.oks + {p.i}))
  {
    assert p.i !in p.oks && p.i !in p.maybes;
  }

  lemma CountMaybe(p: Prog)
    requires CountersOk(p)
    ensures CountersOk(p.(pc := Top, i := p.i + 1, nmaybe := p.nmaybe + 1, maybes := p.maybes + {p.i}))
  {
    assert p.i !in p.oks && p.i !in p.maybes;
  }

  lemma RespondProg(j: Codec, s: State, c: Client)
    requires Safe(j, s) && Can(j, s, Respond(c))
    ensures var s' := Act(j, s, Respond(c));
            MsgsOk(s'.sys) && ProgOk(j, s'.sys, c, s'.progs[c]) && CallOk(j, s'.sys, c, s'.progs[c].pc)
  {
    var p := s.progs[c];
    var p' := AfterReply(j, c, p, ResultFor(s.sys, c));
    StepMsgs(s.sys, Deliver(c));
    assert CallOk(j, s.sys, c, p.pc) && ProgOk(j, s.sys, c, p);
    ReplyMeans(j, s, c);
    CountersAfter(j, c, p, ResultFor(s.sys, c));
    EntriesAfter(List(j, s.sys), c, p, p', Published(s.sys, c, p.pc));
    IdleProg(j, s.sys, Do(s.sys, Deliver(c)), c, p');
  }

  lemma IdleProg(j: Codec, s: Sys, s': Sys, c: Client, p: Prog)
    requires MsgsOk(s') && c in s'.clients && s'.clients[c].Idle? && KEY in s.store && s'.store == s.store
    requires !p.pc.Failed? && CountersOk(p) && EntriesOk(List(j, s), c, p, false)
    requires p.pc.Putting? ==> p.pc.ver <= s.store[KEY].version
                               && (p.pc.ver == s.store[KEY].version ==> p.pc.es == List(j, s) + [Entry(c, p.i)])
    ensures ProgOk(j, s', c, p) && CallOk(j, s', c, p.pc)
  {
  }

  lemma EntriesAfter(es: seq<Entry>, c: Client, p: Prog, p': Prog, published: bool)
    requires EntriesOk(es, c, p, published)
    requires (p'.i == p.i && !published) || p'.i == p.i + 1
    requires p'.oks == p.oks || (published && p'.oks == p.oks + {p.i})
    ensures EntriesOk(es, c, p', false)
  {
  }

  lemma ActProg(j: Codec, s: State, a: Action, c: Client)
    requires Lossless(j) && Safe(j, s) && Can(j, s, a) && c in s.progs
    ensures MsgsOk(Act(j, s, a).sys) && c in Act(j, s, a).sys.clients && KEY in Act(j, s, a).sys.store
    ensures ProgOk(j, Act(j, s, a).sys, c, Act(j, s, a).progs[c])
  {
    if a == Request(c) {
      RequestProg(j, s, c);
    } else if a == Respond(c) {
      RespondProg(j, s, c);
    } else if Moves(a) {
      OtherProg(j, s, a, c);
    } else {
      assert CallOk(j, s.sys, c, s.progs[c].pc) && ProgOk(j, s.sys, c, s.progs[c]);
      if a.c == c {
        LocalProg(j, s.sys, c, s.progs[c], Act(j, s, a).progs[c].pc);
      }
    }
  }

  /** The loop starts an iteration or ends. */
  lemma LocalProg(j: Codec, s: Sys, c: Client, p: Prog, pc: Pc)
    requires MsgsOk(s) && c in s.clients && KEY in s.store && s.clients[c].Idle? && ProgOk(j, s, c, p)
    requires pc.Getting? || pc.Finished?
    ensures ProgOk(j, s, c, p.(pc := pc))
  {
  }

  /** The network, or another client, moves. */
  lemma OtherProg(j: Codec, s: State, a: Action, c: Client)
    requires Lossless(j) && Safe(j, s) && Can(j, s, a) && c in s.progs && Moves(a) && a != Request(c) && a != Respond(c)
    ensures MsgsOk(Act(j, s, a).sys) && c in Act(j, s, a).sys.clients && KEY in Act(j, s, a).sys.store
    ensures Act(j, s, a).progs[c] == s.progs[c] && ProgOk(j, Act(j, s, a).sys, c, s.progs[c])
  {
    assert ProgOk(j, s.sys, c, s.progs[c]);
    if a.Network? && a.step.Execute? {
      ExecuteProg(j, s, a.step.m, c);
    } else {
      QuietProg(j, s.sys, SysStep(j, s, a), c, s.progs[c]);
    }
  }

  lemma ActCall(j: Codec, s: State, a: Action, c: Client)
    requires MsgsOk(s.sys) && Can(j, s, a) && c in s.progs && c in s.sys.clients
    requires PhaseOk(s.sys, c) && CallOk(j, s.sys, c, s.progs[c].pc)
    requires a.Respond? && a.c in s.sys.clients ==> PhaseOk(s.sys, a.c)
    ensures CallOk(j, Act(j, s, a).sys, c, Act(j, s, a).progs[c].pc)
  {
  }

  predicate Moves(a: Action) {
    a.Request? || a.Network? || a.Respond?
  }

  function SysStep(j: Codec, s: State, a: Action): Step
    requires Can(j, s, a) && Moves(a)
  {
    match a
    case Request(c) => Invoke(c, RequestAt(j, s.progs[c].pc))
    case Network(step) => step
    case Respond(c) => Deliver(c)
  }

  lemma ActCalls(j: Codec, s: State, a: Action)
    requires Safe(j, s) && Can(j, s, a) && Moves(a)
    ensures Consistent(Act(j, s, a).sys) && CallsOk(Act(j, s, a).sys) && NoGetMisses(Act(j, s, a).sys)
  {
    var step, s' := SysStep(j, s, a), Act(j, s, a).sys;
    StepConsistent(s.sys, step);
    StepNoGetMisses(s.sys, step);
    forall o | 0 <= o < |s'.calls| ensures s'.calls[o].op.key == KEY && Settled(s', o) {
      if o < |s.sys.calls| {
        OldCallSettled(s.sys, step, o);
      } else {
        NewCallSettled(j, s, a);
      }
    }
  }

  lemma OldCallSettled(s: Sys, step: Step, o: nat)
    requires Consistent(s) && Enabled(s, step) && o < |s.calls| && Settled(s, o)
    ensures MsgsOk(Do(s, step)) && o < |Do(s, step).calls| && Do(s, step).calls[o].op == s.calls[o].op && Settled(Do(s, step), o)
  {
    StepKeeps(s, step);
    StepSettled(s, step, o);
  }

  lemma NewCallSettled(j: Codec, s: State, a: Action)
    requires Safe(j, s) && Can(j, s, a) && Moves(a)
    requires MsgsOk(Act(j, s, a).sys) && |Act(j, s, a).sys.calls| > |s.sys.calls|
    ensures Act(j, s, a).sys.calls[|s.sys.calls|].op.key == KEY && Settled(Act(j, s, a).sys, |s.sys.calls|)
  {
    assert a.Request? && ProgOk(j, s.sys, a.c, s.progs[a.c]);
  }

  lemma ActList(j: Codec, s: State, a: Action)
    requires Lossless(j) && Safe(j, s) && Can(j, s, a)
    ensures ListOk(j, Act(j, s, a)) && Act(j, s, a).progs.Keys == Act(j, s, a).sys.clients.Keys == s.progs.Keys
  {
    ActKeys(j, s, a);
    if a.Network? && a.step.Execute? {
      ExecuteList(j, s, a.step.m);
    } else {
      SameList(j, s, Act(j, s, a));
    }
  }

  lemma ActKeys(j: Codec, s: State, a: Action)
    requires Can(j, s, a) && s.progs.Keys == s.sys.clients.Keys
    ensures Act(j, s, a).progs.Keys == Act(j, s, a).sys.clients.Keys == s.progs.Keys
    ensures !(a.Network? && a.step.Execute?) ==> Act(j, s, a).sys.store == s.sys.store
  {
  }

  lemma SameList(j: Codec, s: State, s': State)
    requires ListOk(j, s) && s'.sys.store == s.sys.store && s'.progs.Keys == s.progs.Keys
    ensures ListOk(j, s')
  {
  }

  lemma ActSafe(j: Codec, s: State, a: Action)
    requires Lossless(j) && Safe(j, s) && Can(j, s, a)
    ensures Safe(j, Act(j, s, a))
  {
    var s' := Act(j, s, a);
    ActList(j, s, a);
    if Moves(a) {
      ActCalls(j, s, a);
    }
    forall c | c in s.progs ensures CallOk(j, s'.sys, c, s'.progs[c].pc) && ProgOk(j, s'.sys, c, s'.progs[c]) {
      assert CallOk(j, s.sys, c, s.progs[c].pc) && PhaseOk(s.sys, c);
      ActCall(j, s, a, c);
      ActProg(j, s, a, c);
    }
  }

  lemma {:induction false} RunSafe(j: Codec, s: State, acts: seq<Action>)
    requires Lossless(j) && Safe(j, s) && Runs(j, s, acts)
    ensures Safe(j, End(j, s, acts)) && End(j, s, acts).progs.Keys == s.progs.Keys
    decreases |acts|
  {
    if acts != [] {
      ActSafe(j, s, acts[0]);
      ActList(j, s, acts[0]);
      RunSafe(j, Act(j, s, acts[0]), acts[1..]);
    }
  }

  lemma StartSafe(j: Codec, s: State)
    requires Lossless(j) && Start(j, s)
    ensures Safe(j, s)
  {
    assert List(j, s.sys) == [];
  }

  // ----- What the counters stand for

  /** A Put of a list that ends with an entry of client c. */
  predicate OwnEntry(j: Codec, op: Op, c: Client) {
    op.Put? && j.dec(op.value) != [] && j.dec(op.value)[|j.dec(op.value)| - 1].id == c
  }

  /** The number of the last entry. */
  function NumberOf(j: Codec, op: Op): nat
    requires op.Put? && j.dec(op.value) != []
  {
    j.dec(op.value)[|j.dec(op.value)| - 1].n
  }

  /** The iterations whose entry these Puts carry. */
  ghost function Iterations(j: Codec, s: Sys, puts: set<nat>, c: Client): set<nat> {
    set o | o in puts && o < |s.calls| && OwnEntry(j, s.calls[o].op, c) :: NumberOf(j, s.calls[o].op)
  }

  /** A client about to put its list has put its own entry at the end. */
  ghost predicate LastOk(pc: Pc, c: Client, i: nat) {
    pc.Putting? ==> pc.es != [] && pc.es[|pc.es| - 1] == Entry(c, i)
  }

  /** All Puts of client c carry an entry of its own, and its counters and records are of the answers they got. */
  ghost predicate BookedBy(j: Codec, s: Sys, from: nat, c: Client, p: Prog) {
    && (c in s.clients && !s.clients[c].Idle? ==> from <= s.clients[c].call)
    && LastOk(p.pc, c, p.i)
    && (forall o | from <= o < |s.calls| && s.calls[o].client == c && s.calls[o].op.Put? :: OwnEntry(j, s.calls[o].op, c))
    && Tallied(j, s, from, c, OK, p.nok, p.oks)
    && Tallied(j, s, from, c, ErrMaybe, p.nmaybe, p.maybes)
  }

  ghost predicate Tallied(j: Codec, s: Sys, from: nat, c: Client, err: Err, count: nat, which: set<nat>) {
    |Ended(s, from, c, err)| == count && Iterations(j, s, Ended(s, from, c, err), c) == which
  }

  ghost predicate Booked(j: Codec, s: State, from: nat) {
    from <= |s.sys.calls| && forall c | c in s.progs :: BookedBy(j, s.sys, from, c, s.progs[c])
  }

  lemma StartBooked(j: Codec, s: State)
    requires Start(j, s)
    ensures Booked(j, s, |s.sys.calls|)
  {
    forall c, err ensures Ended(s.sys, |s.sys.calls|, c, err) == {} {
    }
  }

  lemma IterationsSame(j: Codec, s: Sys, s': Sys, puts: set<nat>, c: Client)
    requires forall o | o in puts :: o < |s.calls| && o < |s'.calls| && s'.calls[o].op == s.calls[o].op
    ensures Iterations(j, s', puts, c) == Iterations(j, s, puts, c)
  {
  }

  lemma IterationsOneMore(j: Codec, s: Sys, puts: set<nat>, o: nat, c: Client)
    requires o < |s.calls| && OwnEntry(j, s.calls[o].op, c)
    ensures Iterations(j, s, puts + {o}, c) == Iterations(j, s, puts, c) + {NumberOf(j, s.calls[o].op)}
  {
    var x := NumberOf(j, s.calls[o].op);
    forall y ensures y in Iterations(j, s, puts + {o}, c) <==> y in Iterations(j, s, puts, c) || y == x {
      if y == x {
        assert o in puts + {o};
      }
    }
  }

  lemma TallyStays(j: Codec, s: Sys, step: Step, from: nat, c: Client, err: Err, count: nat, which: set<nat>)
    requires Consistent(s) && Enabled(s, step) && step != Deliver(c) && Tallied(j, s, from, c, err, count, which)
    ensures Tallied(j, Do(s, step), from, c, err, count, which)
  {
    StepEnded(s, from, step, c, err);
    StepKeeps(s, step);
    IterationsSame(j, s, Do(s, step), Ended(s, from, c, err), c);
  }

  lemma OneMoreTallied(j: Codec, s: Sys, s': Sys, from: nat, c: Client, err: Err, o: nat)
    requires |s.calls| == |s'.calls| && forall i | 0 <= i < |s.calls| :: s'.calls[i].op == s.calls[i].op
    requires o < |s.calls| && OwnEntry(j, s.calls[o].op, c) && o !in Ended(s, from, c, err)
    requires Ended(s', from, c, err) == Ended(s, from, c, err) + {o}
    ensures Tallied(j, s', from, c, err, |Ended(s, from, c, err)| + 1,
                    Iterations(j, s, Ended(s, from, c, err), c) + {NumberOf(j, s.calls[o].op)})
  {
    IterationsSame(j, s, s', Ended(s, from, c, err), c);
    IterationsOneMore(j, s', Ended(s, from, c, err), o, c);
  }

  /** A Put's answer adds its iteration to one tally. */
  lemma TallyGrows(j: Codec, s: Sys, from: nat, c: Client, err: Err, count: nat, which: set<nat>)
    requires Consistent(s) && Enabled(s, Deliver(c)) && from <= s.clients[c].call && Tallied(j, s, from, c, err, count, which)
    requires s.clients[c].call < |s.calls| && OwnEntry(j, s.calls[s.clients[c].call].op, c)
    ensures if ResultFor(s, c) == Status(err)
            then Tallied(j, Do(s, Deliver(c)), from, c, err, count + 1, which + {NumberOf(j, s.calls[s.clients[c].call].op)})
            else Tallied(j, Do(s, Deliver(c)), from, c, err, count, which)
  {
    StepEnded(s, from, Deliver(c), c, err);
    StepKeeps(s, Deliver(c));
    if ResultFor(s, c) == Status(err) {
      OneMoreTallied(j, s, Do(s, Deliver(c)), from, c, err, s.clients[c].call);
    } else {
      IterationsSame(j, s, Do(s, Deliver(c)), Ended(s, from, c, err), c);
    }
  }

  lemma TallyAfterGet(j: Codec, s: Sys, from: nat, c: Client, err: Err, count: nat, which: set<nat>)
    requires Consistent(s) && Enabled(s, Deliver(c)) && from <= s.clients[c].call && Tallied(j, s, from, c, err, count, which)
    requires s.clients[c].call < |s.calls| && s.calls[s.clients[c].call].op.Get?
    ensures Tallied(j, Do(s, Deliver(c)), from, c, err, count, which)
  {
    StepEnded(s, from, Deliver(c), c, err);
    StepKeeps(s, Deliver(c));
    IterationsSame(j, s, Do(s, Deliver(c)), Ended(s, from, c, err), c);
  }

  lemma RespondBooked(j: Codec, s: Sys, from: nat, c: Client, p: Prog)
    requires Lossless(j) && Consistent(s) && Enabled(s, Deliver(c)) && CallOk(j, s, c, p.pc) && BookedBy(j, s, from, c, p)
    ensures BookedBy(j, Do(s, Deliver(c)), from, c, AfterReply(j, c, p, ResultFor(s, c)))
  {
    assert PhaseOk(s, c);
    StepKeeps(s, Deliver(c));
    if p.pc.Putting? {
      TallyGrows(j, s, from, c, OK, p.nok, p.oks);
      TallyGrows(j, s, from, c, ErrMaybe, p.nmaybe, p.maybes);
    } else {
      TallyAfterGet(j, s, from, c, OK, p.nok, p.oks);
      TallyAfterGet(j, s, from, c, ErrMaybe, p.nmaybe, p.maybes);
    }
  }

  lemma StepBooked(j: Codec, s: Sys, step: Step, from: nat, c: Client, p: Prog)
    requires Lossless(j) && Consistent(s) && Enabled(s, step) && step != Deliver(c) && BookedBy(j, s, from, c, p)
    requires from <= |s.calls|
    requires step.Invoke? && step.c == c && step.op.Put? ==> OwnEntry(j, step.op, c)
    ensures BookedBy(j, Do(s, step), from, c, p)
  {
    StepKeeps(s, step);
    TallyStays(j, s, step, from, c, OK, p.nok, p.oks);
    TallyStays(j, s, step, from, c, ErrMaybe, p.nmaybe, p.maybes);
  }

  lemma ActBookedBy(j: Codec, s: State, from: nat, a: Action, c: Client)
    requires Lossless(j) && Consistent(s.sys) && Can(j, s, a) && c in s.progs && from <= |s.sys.calls|
    requires CallOk(j, s.sys, c, s.progs[c].pc) && BookedBy(j, s.sys, from, c, s.progs[c])
    ensures BookedBy(j, Act(j, s, a).sys, from, c, Act(j, s, a).progs[c])
  {
    if a == Respond(c) {
      RespondBooked(j, s.sys, from, c, s.progs[c]);
    } else if Moves(a) {
      StepBooked(j, s.sys, SysStep(j, s, a), from, c, s.progs[c]);
    }
  }

  lemma ActBooked(j: Codec, s: State, from: nat, a: Action)
    requires Lossless(j) && Safe(j, s) && Booked(j, s, from) && Can(j, s, a)
    ensures Booked(j, Act(j, s, a), from)
  {
    ActKeys(j, s, a);
    if Moves(a) {
      StepKeeps(s.sys, SysStep(j, s, a));
    }
    forall c | c in s.progs ensures BookedBy(j, Act(j, s, a).sys, from, c, Act(j, s, a).progs[c]) {
      assert BookedBy(j, s.sys, from, c, s.progs[c]) && CallOk(j, s.sys, c, s.progs[c].pc);
      ActBookedBy(j, s, from, a, c);
    }
  }

  lemma {:induction false} RunBooked(j: Codec, s: State, from: nat, acts: seq<Action>)
    requires Lossless(j) && Safe(j, s) && Booked(j, s, from) && Runs(j, s, acts)
    ensures Booked(j, End(j, s, acts), from)
    decreases |acts|
  {
    if acts != [] {
      ActSafe(j, s, acts[0]);
      ActBooked(j, s, from, acts[0]);
      RunBooked(j, Act(j, s, acts[0]), from, acts[1..]);
    }
  }

  // ----- The test harness's final check

  function Count(es: seq<Entry>, c: nat): nat {
    if es == [] then 0 else Count(es[..|es| - 1], c) + (if es[|es| - 1].id == c then 1 else 0)
  }

  /** One more than client c's last number in the list; 0 if it has none. */
  function LastPlus(es: seq<Entry>, c: nat): nat {
    if es == [] then 0
    else if es[|es| - 1].id == c then es[|es| - 1].n + 1
    else LastPlus(es[..|es| - 1], c)
  }

  /** A client the check looks at: one of the nclnt it was told of, or one with an entry. */
  ghost predicate Checked(es: seq<Entry>, nclnt: nat, c: nat) {
    c < nclnt || exists a :: 0 <= a < |es| && es[a].id == c
  }

  /** The client reported, skipped no more numbers than it was left in doubt about, and got no further than it
      went. */
  ghost predicate ReportFits(es: seq<Entry>, rs: seq<ClntRes>, c: nat) {
    c < |rs| && LastPlus(es, c) - Count(es, c) <= rs[c].nmaybe && LastPlus(es, c) <= rs[c].nok + rs[c].nmaybe
  }

  /** Each client's numbers increase, the version counts the appends, and every client's report fits. */
  ghost predicate Accepts(es: seq<Entry>, nclnt: nat, rs: seq<ClntRes>, ver: nat) {
    && Increasing(es)
    && |es| + 1 == ver
    && forall c: nat | Checked(es, nclnt, c) :: ReportFits(es, rs, c)
  }

  lemma {:induction false} BelowLastPlus(es: seq<Entry>, c: nat)
    requires Increasing(es)
    ensures forall a | 0 <= a < |es| && es[a].id == c :: es[a].n < LastPlus(es, c)
    ensures LastPlus(es, c) > 0 ==> exists a :: 0 <= a < |es| && es[a].id == c && es[a].n + 1 == LastPlus(es, c)
  {
    if es != [] {
      var last := |es| - 1;
      BelowLastPlus(es[..last], c);
      forall a | 0 <= a < |es| && es[a].id == c ensures es[a].n < LastPlus(es, c) {
        if a < last {
          assert es[..last][a] == es[a];
        }
      }
    }
  }

  lemma IncreasingAppend(es: seq<Entry>, e: Entry)
    requires Increasing(es)
    ensures Increasing(es + [e]) <==> LastPlus(es, e.id) <= e.n
  {
    BelowLastPlus(es, e.id);
    var es' := es + [e];
    if LastPlus(es, e.id) > e.n {
      var a :| 0 <= a < |es| && es[a].id == e.id && es[a].n + 1 == LastPlus(es, e.id);
      assert es'[a] == es[a] && es'[|es|] == e;
    }
  }

  lemma NotIncreasing(es: seq<Entry>, i: nat)
    requires i <= |es| && !Increasing(es[..i])
    ensures !Increasing(es)
  {
    var a, b :| 0 <= a < b < i && es[..i][a].id == es[..i][b].id && es[..i][a].n >= es[..i][b].n;
    assert es[a].id == es[b].id && es[a].n >= es[b].n;
  }

  function At(m: map<nat, int>, c: nat): int {
    if c in m then m[c] else 0
  }

  /** What the first loop has gathered from the entries so far; a client it meets is entered in the table. */
  ghost predicate Gathered(es: seq<Entry>, nclnt: nat, expected: map<nat, int>, skipped: map<nat, int>) {
    && (forall c: nat :: c in expected <==> Checked(es, nclnt, c))
    && (forall c: nat :: At(expected, c) == LastPlus(es, c))
    && (forall c: nat :: At(skipped, c) == LastPlus(es, c) - Count(es, c))
  }

  lemma GatherNext(es: seq<Entry>, e: Entry, nclnt: nat, expected: map<nat, int>, skipped: map<nat, int>)
    requires Gathered(es, nclnt, expected, skipped) && LastPlus(es, e.id) <= e.n
    ensures Gathered(es + [e], nclnt, expected[e.id := e.n + 1],
                     if At(expected, e.id) == e.n then skipped
                     else skipped[e.id := At(skipped, e.id) + (e.n - At(expected, e.id))])
  {
    var es' := es + [e];
    assert es'[..|es'| - 1] == es && es'[|es|] == e;
    forall c: nat ensures LastPlus(es', c) == (if c == e.id then e.n + 1 else LastPlus(es, c))
                       && Count(es', c) == Count(es, c) + (if c == e.id then 1 else 0) {
    }
    forall c: nat ensures Checked(es', nclnt, c) <==> Checked(es, nclnt, c) || c == e.id {
      if Checked(es, nclnt, c) && c >= nclnt {
        var a :| 0 <= a < |es| && es[a].id == c;
        assert es'[a].id == c;
      }
      assert es'[|es|].id == e.id;
    }
  }

  /** Answers false exactly where the test harness would stop the test: at a failed check, or at a client without a
      report, where the index is out of range. */
  method CheckAppends(es: seq<Entry>, nclnt: nat, rs: seq<ClntRes>, ver: nat) returns (ok: bool)
    ensures ok <==> Accepts(es, nclnt, rs, ver)
  {
    var expected: map<nat, int>, skipped: map<nat, int> := Zeros(nclnt);
    for i := 0 to |es|
      invariant Increasing(es[..i]) && Gathered(es[..i], nclnt, expected, skipped)
    {
      var e := es[i];
      assert es[..i + 1] == es[..i] + [e];
      IncreasingAppend(es[..i], e);
      if At(expected, e.id) > e.n {
        NotIncreasing(es, i + 1);
        return false;
      }
      GatherNext(es[..i], e, nclnt, expected, skipped);
      if At(expected, e.id) == e.n {
        expected := expected[e.id := At(expected, e.id) + 1];
      } else {
        var gap := e.n - At(expected, e.id);
        expected := expected[e.id := e.n + 1];
        skipped := skipped[e.id := At(skipped, e.id) + gap];
      }
    }
    assert es[..|es|] == es;
    if |es| + 1 != ver {
      return false;
    }
    ok := CheckReports(es, nclnt, rs, expected, skipped);
  }

  /** The two tables before the first entry. */
  method Zeros(nclnt: nat) returns (expected: map<nat, int>, skipped: map<nat, int>)
    ensures Gathered([], nclnt, expected, skipped)
  {
    expected, skipped := map[], map[];
    for i := 0 to nclnt
      invariant forall c: nat :: c in expected <==> c < i
      invariant forall c | c in expected :: expected[c] == 0
      invariant forall c | c in skipped :: skipped[c] == 0
    {
      expected, skipped := expected[i := 0], skipped[i := 0];
    }
  }

  /** The last loop, over a map in no particular order. */
  method CheckReports(ghost es: seq<Entry>, ghost nclnt: nat, rs: seq<ClntRes>, expected: map<nat, int>, skipped: map<nat, int>)
    returns (ok: bool)
    requires Gathered(es, nclnt, expected, skipped)
    ensures ok <==> forall c: nat | Checked(es, nclnt, c) :: ReportFits(es, rs, c)
  {
    var left := expected.Keys;
    while left != {}
      invariant left <= expected.Keys
      invariant forall c: nat | c in expected && c !in left :: ReportFits(es, rs, c)
      decreases |left|
    {
      var c: nat :| c in left;
      if c >= |rs| || At(skipped, c) > rs[c].nmaybe || expected[c] > rs[c].nok + rs[c].nmaybe {
        assert Checked(es, nclnt, c) && At(expected, c) == expected[c] && !ReportFits(es, rs, c);
        return false;
      }
      assert At(expected, c) == expected[c];
      left := left - {c};
    }
    ok := true;
  }

  // ----- Main results

  /** In every state of every run, in terms of what the clerk answered since the workload began: see AppendsKept. */
  lemma NoAppendLost(j: Codec, s0: State, acts: seq<Action>)
    requires Lossless(j) && Start(j, s0) && Runs(j, s0, acts)
    ensures AppendsKept(j, End(j, s0, acts), |s0.sys.calls|)
  {
    StartSafe(j, s0);
    StartBooked(j, s0);
    RunSafe(j, s0, acts);
    RunBooked(j, s0, |s0.sys.calls|, acts);
    SafeKeepsAppends(j, End(j, s0, acts), |s0.sys.calls|);
  }

  /** The list is one shorter than the version, and every client's entries increase. */
  ghost predicate AppendsKept(j: Codec, s: State, from: nat) {
    && KEY in s.sys.store
    && |List(j, s.sys)| + 1 == s.sys.store[KEY].version
    && Increasing(List(j, s.sys))
    && forall c | c in s.progs :: ClientKept(j, s.sys, from, c, s.progs[c], List(j, s.sys))
  }

  /** Client c has hit no failed read and counts its Puts by their answers, one to each finished iteration. Every Put answered
      OK has its entry in the list exactly once, and a finished iteration without an entry had its Put answered ErrMaybe. */
  ghost predicate ClientKept(j: Codec, s: Sys, from: nat, c: Client, p: Prog, es: seq<Entry>) {
    && !p.pc.Failed?
    && p.nok == |Ended(s, from, c, OK)| && p.nmaybe == |Ended(s, from, c, ErrMaybe)| && p.nok + p.nmaybe == p.i
    && (forall o | o in Ended(s, from, c, OK) ::
          OwnEntry(j, s.calls[o].op, c) && NumberOf(j, s.calls[o].op) < p.i && Once(es, Entry(c, NumberOf(j, s.calls[o].op))))
    && (forall x | 0 <= x < p.i && Entry(c, x) !in es ::
          exists o :: o in Ended(s, from, c, ErrMaybe) && OwnEntry(j, s.calls[o].op, c) && NumberOf(j, s.calls[o].op) == x)
  }

  ghost predicate Once(es: seq<Entry>, e: Entry) {
    e in es && forall a, b | 0 <= a < b < |es| :: es[a] != e || es[b] != e
  }

  lemma OnceIfIncreasing(es: seq<Entry>, e: Entry)
    requires Increasing(es) && e in es
    ensures Once(es, e)
  {
    forall a, b | 0 <= a < b < |es| ensures es[a] != e || es[b] != e {
      Apart(es, a, b);
    }
  }

  lemma Apart(es: seq<Entry>, a: nat, b: nat)
    requires Increasing(es) && a < b < |es|
    ensures es[a] != es[b]
  {
    assert es[a].id == es[b].id ==> es[a].n < es[b].n;
  }

  lemma ClientKeeps(j: Codec, s: Sys, from: nat, c: Client, p: Prog, es: seq<Entry>, published: bool)
    requires Increasing(es) && !p.pc.Failed? && CountersOk(p) && EntriesOk(es, c, p, published) && BookedBy(j, s, from, c, p)
    ensures ClientKept(j, s, from, c, p, es)
  {
    IterationsCounted(p);
    forall o | o in Ended(s, from, c, OK)
      ensures OwnEntry(j, s.calls[o].op, c) && NumberOf(j, s.calls[o].op) < p.i && Once(es, Entry(c, NumberOf(j, s.calls[o].op)))
    {
      assert NumberOf(j, s.calls[o].op) in Iterations(j, s, Ended(s, from, c, OK), c);
      OnceIfIncreasing(es, Entry(c, NumberOf(j, s.calls[o].op)));
    }
    forall x | 0 <= x < p.i && Entry(c, x) !in es
      ensures exists o :: o in Ended(s, from, c, ErrMaybe) && OwnEntry(j, s.calls[o].op, c) && NumberOf(j, s.calls[o].op) == x
    {
      assert x in Iterations(j, s, Ended(s, from, c, ErrMaybe), c);
    }
  }

  lemma IterationsCounted(p: Prog)
    requires CountersOk(p)
    ensures p.nok + p.nmaybe == p.i
  {
    CardBelow(p.oks + p.maybes, p.i);
    CardAtMost(p.oks + p.maybes, p.i);
    assert p.oks !! p.maybes;
  }

  lemma SafeKeepsAppends(j: Codec, s: State, from: nat)
    requires Safe(j, s) && Booked(j, s, from)
    ensures AppendsKept(j, s, from)
  {
    forall c | c in s.progs ensures ClientKept(j, s.sys, from, c, s.progs[c], List(j, s.sys)) {
      assert ProgOk(j, s.sys, c, s.progs[c]) && BookedBy(j, s.sys, from, c, s.progs[c]);
      ClientKeeps(j, s.sys, from, c, s.progs[c], List(j, s.sys), Published(s.sys, c, s.progs[c].pc));
    }
  }

  function Results(progs: map<Client, Prog>, n: nat): seq<ClntRes>
    requires forall c: Client | c < n :: c in progs
  {
    seq(n, c requires 0 <= c < n => ClntRes(progs[c].nok, progs[c].nmaybe))
  }

  /** The numbers client c has in the list. */
  ghost function Numbers(es: seq<Entry>, c: nat): set<nat> {
    set a | 0 <= a < |es| && es[a].id == c :: es[a].n
  }

  lemma NumbersLast(init: seq<Entry>, e: Entry, c: nat)
    ensures Numbers(init + [e], c) == Numbers(init, c) + (if e.id == c then {e.n} else {})
  {
    var es := init + [e];
    forall x ensures x in Numbers(es, c) <==> x in Numbers(init, c) || (e.id == c && x == e.n) {
      if x in Numbers(es, c) {
        var a :| 0 <= a < |es| && es[a].id == c && es[a].n == x;
        assert a < |init| ==> init[a] == es[a];
      }
      if x in Numbers(init, c) {
        var a :| 0 <= a < |init| && init[a].id == c && init[a].n == x;
        assert es[a] == init[a];
      }
      if e.id == c {
        assert es[|init|] == e;
      }
    }
  }

  lemma {:induction false} NumbersCount(es: seq<Entry>, c: nat)
    requires Increasing(es)
    ensures |Numbers(es, c)| == Count(es, c)
  {
    if es != [] {
      var init, e := es[..|es| - 1], es[|es| - 1];
      assert es == init + [e];
      NumbersCount(init, c);
      NumbersLast(init, e, c);
      BelowLastPlus(init, c);
      IncreasingAppend(init, e);
    }
  }

  lemma {:induction false} CardBelow(s: set<nat>, n: nat)
    requires forall x: nat | x < n :: x in s
    ensures |s| >= n
  {
    if n > 0 {
      CardBelow(s - {n - 1}, n - 1);
    }
  }

  lemma {:induction false} CardAtMost(s: set<nat>, n: nat)
    requires forall x | x in s :: x < n
    ensures |s| <= n
  {
    if n > 0 {
      CardAtMost(s - {n - 1}, n - 1);
    } else {
      assert s == {};
    }
  }

  /** For one client: the gaps in its numbers are covered by its doubtful iterations. */
  lemma ClientAccepted(es: seq<Entry>, c: Client, p: Prog)
    requires Increasing(es) && CountersOk(p) && EntriesOk(es, c, p, false)
    ensures LastPlus(es, c) - Count(es, c) <= p.nmaybe && LastPlus(es, c) <= p.nok + p.nmaybe
  {
    BelowLastPlus(es, c);
    NumbersCount(es, c);
    var seen := Numbers(es, c);
    assert LastPlus(es, c) <= p.i;
    forall x: nat | x < LastPlus(es, c) ensures x in seen + p.maybes {
      if x in p.oks {
        assert Entry(c, x) in es;
        var a :| 0 <= a < |es| && es[a] == Entry(c, x);
      }
    }
    CardBelow(seen + p.maybes, LastPlus(es, c));
    assert |seen + p.maybes| <= |seen| + |p.maybes|;
    forall x: nat | x < p.i ensures x in p.oks + p.maybes {
    }
    CardBelow(p.oks + p.maybes, p.i);
  }

  /** The test harness's final check of what the server holds succeeds. */
  ghost predicate Passes(j: Codec, s: State, n: nat) {
    && KEY in s.sys.store
    && (forall c: Client | c < n :: c in s.progs)
    && Accepts(List(j, s.sys), n, Results(s.progs, n), s.sys.store[KEY].version)
  }

  ghost predicate AllFinished(s: State) {
    forall c | c in s.progs :: s.progs[c].pc.Finished?
  }

  lemma SafeAccepted(j: Codec, s: State, n: nat)
    requires Safe(j, s) && Clients(s.progs, n) && AllFinished(s)
    ensures Passes(j, s, n)
  {
    var es, rs := List(j, s.sys), Results(s.progs, n);
    forall c: nat | Checked(es, n, c) ensures ReportFits(es, rs, c) {
      assert c in s.progs;
      assert ProgOk(j, s.sys, c, s.progs[c]);
      ClientAccepted(es, c, s.progs[c]);
    }
  }

  /** When all clients have finished, no failure branch of the final check is reachable. */
  lemma CheckAppendsPasses(j: Codec, s0: State, acts: seq<Action>, n: nat)
    requires Lossless(j) && Start(j, s0) && Runs(j, s0, acts) && Clients(s0.progs, n)
    requires AllFinished(End(j, s0, acts))
    ensures Passes(j, End(j, s0, acts), n)
  {
    StartSafe(j, s0);
    RunSafe(j, s0, acts);
    SameClients(s0.progs, End(j, s0, acts).progs, n);
    SafeAccepted(j, End(j, s0, acts), n);
  }
}
