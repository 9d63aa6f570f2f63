/** The racing-put workload: clients put to one fresh key until a put is acknowledged or left in doubt.
    The key's version accounts for every put. */
module OnePuts {
  import opened KvServer
  import opened Clerk
  import opened Workloads
  import opened Writes

  const KEY := "k"

  /** How (client, version) pairs are written as values; reading one back gives the same pair. */
  datatype Codec = Codec(enc: (nat, nat) -> string, dec: string -> (nat, nat))

  ghost predicate Lossless(j: Codec) {
    forall me: nat, v: nat :: j.dec(j.enc(me, v)) == (me, v)
  }

  datatype Pc =
    | Top(ver: nat)
    | Putting(ver: nat)
    | Reading(ver: nat, err: Err)
    | Finished
    | Failed

  datatype Prog = Prog(pc: Pc, nok: nat, nmaybe: nat)

  datatype State = State(sys: Sys, progs: map<Client, Prog>)

  datatype Action =
    | Begin(c: Client)
    | Finish(c: Client)
    | Request(c: Client)
    | Network(step: Step)
    | Respond(c: Client)

  function RequestAt(j: Codec, c: Client, pc: Pc): Op
    requires pc.Putting? || pc.Reading?
  {
    match pc
    case Putting(ver) => Put(KEY, j.enc(c, ver), ver)
    case Reading(_, _) => Get(KEY)
  }

  /** The rest of OnePut's loop body: a wrong error, a failed read or a wrong value stops the test. */
  function AfterReply(j: Codec, c: Client, p: Prog, reply: Reply): Prog {
    match p.pc
    case Putting(ver) =>
      if reply in {Status(OK), Status(ErrVersion), Status(ErrMaybe)} then p.(pc := Reading(ver, reply.err))
      else p.(pc := Failed)
    case Reading(ver, err) =>
      if reply.Status? then p.(pc := Failed)
      else
        var e := j.dec(reply.value);
        if err == OK && reply.version == ver + 1 && e.0 != c && e.1 != ver then p.(pc := Failed)
        else if err == OK then p.(pc := Top(reply.version), nok := p.nok + 1)
        else if err == ErrMaybe then p.(pc := Top(reply.version), nmaybe := p.nmaybe + 1)
        else p.(pc := Putting(reply.version))
    case _ => p
  }

  predicate Can(j: Codec, s: State, a: Action) {
    match a
    case Begin(c) => c in s.progs && s.progs[c].pc.Top?
    case Finish(c) => c in s.progs && s.progs[c].pc.Top?
    case Request(c) =>
      && c in s.progs && (s.progs[c].pc.Putting? || s.progs[c].pc.Reading?)
      && Enabled(s.sys, Invoke(c, RequestAt(j, c, s.progs[c].pc)))
    case Network(step) => !step.Invoke? && !step.Deliver? && Enabled(s.sys, step)
    case Respond(c) => c in s.progs && Enabled(s.sys, Deliver(c))
  }

  function Act(j: Codec, s: State, a: Action): State
    requires Can(j, s, a)
  {
    match a
    case Begin(c) => s.(progs := s.progs[c := s.progs[c].(pc := Putting(s.progs[c].pc.ver))])
    case Finish(c) => s.(progs := s.progs[c := s.progs[c].(pc := Finished)])
    case Request(c) => s.(sys := Do(s.sys, Invoke(c, RequestAt(j, c, s.progs[c].pc))))
    case Network(step) => s.(sys := Do(s.sys, step))
    case Respond(c) =>
      State(Do(s.sys, Deliver(c)), s.progs[c := AfterReply(j, c, s.progs[c], ResultFor(s.sys, c))])
  }

  predicate Runs(j: Codec, s: State, acts: seq<Action>)
    decreases |acts|
  {
    acts == [] || (Can(j, s, acts[0]) && Runs(j, Act(j, s, acts[0]), acts[1..]))
  }

  function End(j: Codec, s: State, acts: seq<Action>): State
    requires Runs(j, s, acts)
    decreases |acts|
  {
    if acts == [] then s else End(j, Act(j, s, acts[0]), acts[1..])
  }

  /** The key does not exist yet. */
  predicate Start(s: State) {
    && Clerk.Init(s.sys) && KEY !in s.sys.store
    && s.progs.Keys == s.sys.clients.Keys
    && forall c | c in s.progs :: s.progs[c] == Prog(Top(0), 0, 0)
  }

  // ----- The invariant

  ghost predicate CallsOk(s: Sys)
    requires MsgsOk(s)
  {
    forall o | 0 <= o < |s.calls| :: s.calls[o].op.key == KEY && s.calls[o].client in s.clients && Settled(s, o)
  }

  ghost predicate CallOk(j: Codec, s: Sys, c: Client, pc: Pc) {
    && c in s.clients
    && (if pc.Putting? || pc.Reading? then
          !s.clients[c].Idle? ==> s.clients[c].call < |s.calls| && s.calls[s.clients[c].call].op == RequestAt(j, c, pc)
        else s.clients[c].Idle?)
  }

  /** Client c's Put that named version ver took effect. */
  ghost predicate MyWrite(j: Codec, s: Sys, c: Client, ver: nat)
    requires MsgsOk(s)
  {
    exists m :: 0 <= m < |s.msgs| && TookEffect(s, m) && OpOf(s, m) == Put(KEY, j.enc(c, ver), ver)
  }

  ghost predicate PcOk(j: Codec, s: Sys, c: Client, pc: Pc)
    requires MsgsOk(s) && c in s.clients
  {
    match pc
    case Top(ver) => ver <= VersionOf(s.store, KEY)
    case Putting(ver) => ver <= VersionOf(s.store, KEY)
    case Reading(ver, err) =>
      && ver < VersionOf(s.store, KEY)
      && (err == OK ==> MyWrite(j, s, c, ver))
      && (!s.clients[c].Idle? ==>
            forall m | 0 <= m < |s.msgs| && s.msgs[m].call == s.clients[c].call && s.msgs[m].status.Done? ::
              s.msgs[m].status.reply.Value? && s.msgs[m].status.reply.version > ver)
    case Finished => true
    case Failed => false
  }

  ghost predicate CountersOk(s: Sys, c: Client, p: Prog) {
    && |Ended(s, 0, c, OK)| == p.nok + (if p.pc.Reading? && p.pc.err == OK then 1 else 0)
    && |Ended(s, 0, c, ErrMaybe)| == p.nmaybe + (if p.pc.Reading? && p.pc.err == ErrMaybe then 1 else 0)
  }

  ghost predicate Safe(j: Codec, s: State) {
    && SysOk(s.sys)
    && s.progs.Keys == s.sys.clients.Keys
    && CallsOk(s.sys)
    && (forall c | c in s.progs :: CallOk(j, s.sys, c, s.progs[c].pc))
    && (forall c | c in s.progs :: PcOk(j, s.sys, c, s.progs[c].pc))
    && (forall c | c in s.progs :: CountersOk(s.sys, c, s.progs[c]))
  }

  predicate Moves(a: Action) {
    a.Request? || a.Network? || a.Respond?
  }

  function SysStep(j: Codec, s: State, a: Action): Step
    requires Can(j, s, a) && Moves(a)
  {
    match a
    case Request(c) => Invoke(c, RequestAt(j, c, s.progs[c].pc))
    case Network(step) => step
    case Respond(c) => Deliver(c)
  }

  ghost predicate SysOk(s: Sys) {
    Consistent(s) && AllSeen(s) && Counted(map[], s, KEY)
  }

  lemma StepSys(s: Sys, step: Step)
    requires SysOk(s) && Enabled(s, step)
    ensures SysOk(Do(s, step))
  {
    StepConsistent(s, step);
    StepSeen(s, step);
    StepCounted(map[], s, step, KEY);
  }

  lemma ActSys(j: Codec, s: State, a: Action)
    requires SysOk(s.sys) && Can(j, s, a)
    ensures SysOk(Act(j, s, a).sys)
  {
    if Moves(a) {
      StepSys(s.sys, SysStep(j, s, a));
    }
  }

  lemma ActKeys(j: Codec, s: State, a: Action)
    requires s.progs.Keys == s.sys.clients.Keys && Can(j, s, a)
    ensures Act(j, s, a).progs.Keys == Act(j, s, a).sys.clients.Keys == s.progs.Keys
  {
  }

  lemma ActCalls(j: Codec, s: State, a: Action)
    requires Safe(j, s) && Can(j, s, a)
    ensures MsgsOk(Act(j, s, a).sys) && CallsOk(Act(j, s, a).sys)
  {
    if Moves(a) {
      var step, s' := SysStep(j, s, a), Act(j, s, a).sys;
      StepMsgs(s.sys, step);
      StepKeeps(s.sys, step);
      forall o | 0 <= o < |s'.calls| ensures s'.calls[o].op.key == KEY && s'.calls[o].client in s'.clients && Settled(s', o) {
        if o < |s.sys.calls| {
          StepSettled(s.sys, step, o);
        } else {
          assert a.Request? && PcOk(j, s.sys, a.c, s.progs[a.c].pc);
        }
      }
    }
  }

  lemma ActCall(j: Codec, s: State, a: Action, c: Client)
    requires MsgsOk(s.sys) && Can(j, s, a) && c in s.progs && c in s.sys.clients
    requires PhaseOk(s.sys, c) && CallOk(j, s.sys, c, s.progs[c].pc)
    requires a.Respond? && a.c in s.sys.clients ==> PhaseOk(s.sys, a.c)
    ensures CallOk(j, Act(j, s, a).sys, c, Act(j, s, a).progs[c].pc)
  {
  }

  lemma StepMyWrite(j: Codec, s: Sys, step: Step, c: Client, ver: nat)
    requires Consistent(s) && Enabled(s, step) && MyWrite(j, s, c, ver)
    ensures MsgsOk(Do(s, step)) && MyWrite(j, Do(s, step), c, ver)
  {
    StepMsgs(s, step);
    StepKeeps(s, step);
    var m :| 0 <= m < |s.msgs| && TookEffect(s, m) && OpOf(s, m) == Put(KEY, j.enc(c, ver), ver);
    assert TookEffect(Do(s, step), m);
  }

  /** Steps that do not end or start c's call keep what c knows. */
  lemma StepPc(j: Codec, s: Sys, step: Step, c: Client, pc: Pc)
    requires Consistent(s) && Enabled(s, step) && c in s.clients
    requires step.Deliver? || step.Invoke? ==> step.c != c
    requires CallOk(j, s, c, pc) && PcOk(j, s, c, pc)
    ensures MsgsOk(Do(s, step)) && PcOk(j, Do(s, step), c, pc)
  {
    var s' := Do(s, step);
    StepMsgs(s, step);
    StepKeeps(s, step);
    if pc.Reading? {
      if pc.err == OK {
        StepMyWrite(j, s, step, c, pc.ver);
      }
      if !s.clients[c].Idle? {
        assert PhaseOk(s, c);
        assert s'.clients[c].call == s.clients[c].call && KEY in s.store;
      }
    }
  }

  lemma RequestPc(j: Codec, s: State, c: Client)
    requires Safe(j, s) && Can(j, s, Request(c))
    ensures MsgsOk(Act(j, s, Request(c)).sys) && PcOk(j, Act(j, s, Request(c)).sys, c, s.progs[c].pc)
  {
    var step := SysStep(j, s, Request(c));
    StepMsgs(s.sys, step);
    var pc := s.progs[c].pc;
    assert PcOk(j, s.sys, c, pc);
    if pc.Reading? && pc.err == OK {
      StepMyWrite(j, s.sys, step, c, pc.ver);
    }
  }

  ghost predicate PutReplyOk(j: Codec, s: Sys, c: Client, ver: nat, r: Reply)
    requires MsgsOk(s)
  {
    && r in {Status(OK), Status(ErrVersion), Status(ErrMaybe)}
    && ver < VersionOf(s.store, KEY)
    && (r == Status(OK) ==> MyWrite(j, s, c, ver))
  }

  /** An acknowledged put wrote the key; no put is told the key is missing. */
  lemma PutReplyMeans(j: Codec, s: Sys, c: Client, ver: nat)
    requires Consistent(s) && CallsOk(s) && Enabled(s, Deliver(c))
    requires s.calls[s.clients[c].call].op == Put(KEY, j.enc(c, ver), ver)
    ensures PutReplyOk(j, s, c, ver, ResultFor(s, c))
  {
    var phase := s.clients[c];
    assert PhaseOk(s, c) && Settled(s, phase.call);
    SettledPut(s, phase.call);
    assert s.msgs[phase.rpc].status.reply == Status(OK) ==> TookEffect(s, phase.rpc);
  }

  ghost predicate ReadReplyOk(j: Codec, s: Sys, c: Client, ver: nat, err: Err, r: Reply) {
    && r.Value? && ver < r.version <= VersionOf(s.store, KEY)
    && (err == OK && r.version == ver + 1 ==> j.dec(r.value) == (c, ver))
  }

  /** If the read after an acknowledged put finds the next version, it finds exactly what was put. */
  lemma ReadReplyMeans(j: Codec, s: Sys, c: Client, ver: nat, err: Err)
    requires Lossless(j) && Consistent(s) && AllSeen(s) && Enabled(s, Deliver(c))
    requires s.calls[s.clients[c].call].op == Get(KEY) && PcOk(j, s, c, Reading(ver, err))
    ensures ReadReplyOk(j, s, c, ver, err, ResultFor(s, c))
  {
    var n := s.clients[c].rpc;
    assert PhaseOk(s, c);
    assert ReplyOk(s.store, OpOf(s, n), s.msgs[n].status.reply);
    if err == OK {
      var m :| 0 <= m < |s.msgs| && TookEffect(s, m) && OpOf(s, m) == Put(KEY, j.enc(c, ver), ver);
      assert WriteSeen(s, m);
    }
  }

  ghost predicate ReplyOkFor(j: Codec, s: Sys, c: Client, pc: Pc, r: Reply)
    requires MsgsOk(s)
  {
    && (pc.Putting? ==> PutReplyOk(j, s, c, pc.ver, r))
    && (pc.Reading? ==> ReadReplyOk(j, s, c, pc.ver, pc.err, r))
  }

  lemma ReplyMeans(j: Codec, s: State, c: Client)
    requires Lossless(j) && Safe(j, s) && Can(j, s, Respond(c))
    ensures ReplyOkFor(j, s.sys, c, s.progs[c].pc, ResultFor(s.sys, c))
  {
    var pc := s.progs[c].pc;
    assert CallOk(j, s.sys, c, pc) && PcOk(j, s.sys, c, pc);
    match pc
    case Putting(ver) => PutReplyMeans(j, s.sys, c, ver);
    case Reading(ver, err) => ReadReplyMeans(j, s.sys, c, ver, err);
    case _ =>
  }

  lemma RespondPc(j: Codec, s: Sys, c: Client, p: Prog)
    requires Consistent(s) && Enabled(s, Deliver(c)) && CallOk(j, s, c, p.pc) && PcOk(j, s, c, p.pc)
    requires ReplyOkFor(j, s, c, p.pc, ResultFor(s, c))
    ensures MsgsOk(Do(s, Deliver(c))) && PcOk(j, Do(s, Deliver(c)), c, AfterReply(j, c, p, ResultFor(s, c)).pc)
  {
    StepMsgs(s, Deliver(c));
    if p.pc.Putting? && ResultFor(s, c) == Status(OK) {
      StepMyWrite(j, s, Deliver(c), c, p.pc.ver);
    }
  }

  lemma RespondCounters(j: Codec, s: Sys, c: Client, p: Prog)
    requires Consistent(s) && Enabled(s, Deliver(c)) && CountersOk(s, c, p) && CallOk(j, s, c, p.pc)
    requires ReplyOkFor(j, s, c, p.pc, ResultFor(s, c))
    ensures CountersOk(Do(s, Deliver(c)), c, AfterReply(j, c, p, ResultFor(s, c)))
  {
    EndedOneMore(s, 0, c, OK);
    EndedOneMore(s, 0, c, ErrMaybe);
  }

  lemma OtherCounters(s: Sys, step: Step, c: Client, p: Prog)
    requires Consistent(s) && Enabled(s, step) && CountersOk(s, c, p) && step != Deliver(c)
    ensures CountersOk(Do(s, step), c, p)
  {
    StepEnded(s, 0, step, c, OK);
    StepEnded(s, 0, step, c, ErrMaybe);
  }

  lemma ActCounters(j: Codec, s: State, a: Action, c: Client)
    requires Lossless(j) && Safe(j, s) && Can(j, s, a) && c in s.progs
    ensures CountersOk(Act(j, s, a).sys, c, Act(j, s, a).progs[c])
  {
    assert CountersOk(s.sys, c, s.progs[c]) && CallOk(j, s.sys, c, s.progs[c].pc);
    if a == Respond(c) {
      ReplyMeans(j, s, c);
      RespondCounters(j, s.sys, c, s.progs[c]);
    } else if Moves(a) {
      OtherCounters(s.sys, SysStep(j, s, a), c, s.progs[c]);
    }
  }

  lemma ActPc(j: Codec, s: State, a: Action, c: Client)
    requires Lossless(j) && Safe(j, s) && Can(j, s, a) && c in s.progs
    ensures MsgsOk(Act(j, s, a).sys) && c in Act(j, s, a).sys.clients
    ensures PcOk(j, Act(j, s, a).sys, c, Act(j, s, a).progs[c].pc)
  {
    assert CallOk(j, s.sys, c, s.progs[c].pc) && PcOk(j, s.sys, c, s.progs[c].pc);
    if a == Request(c) {
      RequestPc(j, s, c);
    } else if a == Respond(c) {
      ReplyMeans(j, s, c);
      RespondPc(j, s.sys, c, s.progs[c]);
    } else if Moves(a) {
      StepPc(j, s.sys, SysStep(j, s, a), c, s.progs[c].pc);
    }
  }

  lemma ActSafe(j: Codec, s: State, a: Action)
    requires Lossless(j) && Safe(j, s) && Can(j, s, a)
    ensures Safe(j, Act(j, s, a)) && Act(j, s, a).progs.Keys == s.progs.Keys
  {
    var s' := Act(j, s, a);
    ActSys(j, s, a);
    ActKeys(j, s, a);
    ActCalls(j, s, a);
    forall c | c in s.progs
      ensures CallOk(j, s'.sys, c, s'.progs[c].pc) && PcOk(j, s'.sys, c, s'.progs[c].pc) && CountersOk(s'.sys, c, s'.progs[c])
    {
      assert CallOk(j, s.sys, c, s.progs[c].pc) && PhaseOk(s.sys, c);
      ActCall(j, s, a, c);
      ActPc(j, s, a, c);
      ActCounters(j, s, a, c);
    }
  }

  lemma {:induction false} RunSafe(j: Codec, s: State, acts: seq<Action>)
    requires Lossless(j) && Safe(j, s) && Runs(j, s, acts)
    ensures Safe(j, End(j, s, acts)) && End(j, s, acts).progs.Keys == s.progs.Keys
    decreases |acts|
  {
    if acts != [] {
      ActSafe(j, s, acts[0]);
      RunSafe(j, Act(j, s, acts[0]), acts[1..]);
    }
  }

  lemma StartSafe(j: Codec, s: State)
    requires Start(s)
    ensures Safe(j, s)
  {
    InitConsistent(s.sys);
    assert Writers(s.sys, KEY) == {};
    forall c ensures Ended(s.sys, 0, c, OK) == {} && Ended(s.sys, 0, c, ErrMaybe) == {} {
    }
  }

  // ----- Adding up

  /** What client results add up to: acknowledged puts for OK, doubtful ones otherwise. */
  function Sum(rs: seq<ClntRes>, err: Err): nat {
    if rs == [] then 0
    else Sum(rs[..|rs| - 1], err) + (if err == OK then rs[|rs| - 1].nok else rs[|rs| - 1].nmaybe)
  }

  /** The test harness's check of the final version; false where it would stop the test. */
  method CheckPutConcurrent(ver0: nat, rs: seq<ClntRes>, reliable: bool) returns (ok: bool)
    ensures ok <==> if reliable then ver0 == Sum(rs, OK) else ver0 <= Sum(rs, OK) + Sum(rs, ErrMaybe)
  {
    var nok, nmaybe := 0, 0;
    for i := 0 to |rs|
      invariant nok == Sum(rs[..i], OK) && nmaybe == Sum(rs[..i], ErrMaybe)
    {
      assert rs[..i + 1][..i] == rs[..i];
      nok, nmaybe := nok + rs[i].nok, nmaybe + rs[i].nmaybe;
    }
    assert rs[..|rs|] == rs;
    ok := if reliable then ver0 == nok else ver0 <= nok + nmaybe;
  }

  /** The Puts of the first n clients that ended with err. */
  ghost function EndedBelow(s: Sys, n: nat, err: Err): set<nat> {
    set o: nat | o < |s.calls| && s.calls[o].client < n && s.calls[o].op.Put?
                 && s.calls[o].outcome.Returned? && s.calls[o].outcome.reply == Status(err)
  }

  ghost predicate AllFinished(s: State) {
    forall c | c in s.progs :: s.progs[c].pc.Finished?
  }

  function Results(progs: map<Client, Prog>, n: nat): seq<ClntRes>
    requires forall c: Client | c < n :: c in progs
  {
    seq(n, c requires 0 <= c < n => ClntRes(progs[c].nok, progs[c].nmaybe))
  }

  lemma EndedSplit(s: Sys, n: nat, err: Err)
    ensures |EndedBelow(s, n + 1, err)| == |EndedBelow(s, n, err)| + |Ended(s, 0, n, err)|
  {
    assert EndedBelow(s, n + 1, err) == EndedBelow(s, n, err) + Ended(s, 0, n, err);
    assert EndedBelow(s, n, err) !! Ended(s, 0, n, err);
  }

  ghost predicate Final(s: Sys, progs: map<Client, Prog>) {
    forall c | c in progs :: progs[c].nok == |Ended(s, 0, c, OK)| && progs[c].nmaybe == |Ended(s, 0, c, ErrMaybe)|
  }

  function CountOf(p: Prog, err: Err): nat {
    if err == OK then p.nok else p.nmaybe
  }

  lemma SumSplit(progs: map<Client, Prog>, n: nat, err: Err)
    requires forall c: Client | c < n + 1 :: c in progs
    ensures Sum(Results(progs, n + 1), err) == Sum(Results(progs, n), err) + CountOf(progs[n], err)
  {
    assert Results(progs, n + 1)[..n] == Results(progs, n);
  }

  lemma CountIsEnded(s: Sys, progs: map<Client, Prog>, n: nat, err: Err)
    requires Final(s, progs) && (err == OK || err == ErrMaybe) && n in progs
    ensures CountOf(progs[n], err) == |Ended(s, 0, n, err)|
  {
  }

  lemma {:induction false} SumsAreEnded(s: Sys, progs: map<Client, Prog>, n: nat, err: Err)
    requires Final(s, progs) && (err == OK || err == ErrMaybe) && forall c: Client | c < n :: c in progs
    ensures Sum(Results(progs, n), err) == |EndedBelow(s, n, err)|
  {
    if n == 0 {
      assert EndedBelow(s, 0, err) == {};
    } else {
      SumsAreEnded(s, progs, n - 1, err);
      SumSplit(progs, n - 1, err);
      CountIsEnded(s, progs, n - 1, err);
      EndedSplit(s, n - 1, err);
    }
  }

  lemma SafeFinal(j: Codec, s: State)
    requires Safe(j, s) && AllFinished(s)
    ensures Final(s.sys, s.progs)
  {
    forall c | c in s.progs
      ensures s.progs[c].nok == |Ended(s.sys, 0, c, OK)| && s.progs[c].nmaybe == |Ended(s.sys, 0, c, ErrMaybe)|
    {
      assert CountersOk(s.sys, c, s.progs[c]);
    }
  }

  /** With nothing running: every acknowledged Put took effect, and every Put that took effect was
      acknowledged or left in doubt. */
  lemma WritersEnded(j: Codec, s: State, n: nat)
    requires Safe(j, s) && AllFinished(s) && Clients(s.progs, n)
    ensures EndedBelow(s.sys, n, OK) <= Writers(s.sys, KEY) <= EndedBelow(s.sys, n, OK) + EndedBelow(s.sys, n, ErrMaybe)
  {
    forall o | o in EndedBelow(s.sys, n, OK) ensures o in Writers(s.sys, KEY) {
      assert OutcomeOk(s.sys, o);
      assert TookEffect(s.sys, s.sys.calls[o].outcome.via);
    }
    forall o | o in Writers(s.sys, KEY) ensures o in EndedBelow(s.sys, n, OK) + EndedBelow(s.sys, n, ErrMaybe) {
      WriterEnded(j, s, n, o);
    }
  }

  lemma WriterEnded(j: Codec, s: State, n: nat, o: nat)
    requires Safe(j, s) && AllFinished(s) && Clients(s.progs, n) && o in Writers(s.sys, KEY)
    ensures o in EndedBelow(s.sys, n, OK) + EndedBelow(s.sys, n, ErrMaybe)
  {
    assert OutcomeOk(s.sys, o) && PendingOk(s.sys, o) && Settled(s.sys, o);
    SettledPut(s.sys, o);
    var c := s.sys.calls[o].client;
    assert c in s.progs && CallOk(j, s.sys, c, s.progs[c].pc);
    assert s.sys.calls[o].outcome.Returned?;
    var via := s.sys.calls[o].outcome.via;
    assert ReplyOk(s.sys.store, OpOf(s.sys, via), s.sys.msgs[via].status.reply);
  }

  /** The puts left in doubt that did take effect. */
  ghost function DoubtfulWriters(s: Sys, n: nat): set<nat>
    requires MsgsOk(s)
  {
    EndedBelow(s, n, ErrMaybe) * Writers(s, KEY)
  }

  /** The version is the number of acknowledged puts and of those left in doubt that took effect, so it lies between
      the two sums the clients report. */
  ghost predicate Accounted(s: State, n: nat) {
    && (forall c: Client | c < n :: c in s.progs) && MsgsOk(s.sys)
    && var rs := Results(s.progs, n);
       && VersionOf(s.sys.store, KEY) == Sum(rs, OK) + |DoubtfulWriters(s.sys, n)|
       && Sum(rs, OK) <= VersionOf(s.sys.store, KEY) <= Sum(rs, OK) + Sum(rs, ErrMaybe)
  }

  lemma SafeAccounted(j: Codec, s: State, n: nat)
    requires Safe(j, s) && AllFinished(s) && Clients(s.progs, n)
    ensures Accounted(s, n)
  {
    SafeFinal(j, s);
    SumsAreEnded(s.sys, s.progs, n, OK);
    SumsAreEnded(s.sys, s.progs, n, ErrMaybe);
    WritersEnded(j, s, n);
    var oks, maybes, ws := EndedBelow(s.sys, n, OK), EndedBelow(s.sys, n, ErrMaybe), Writers(s.sys, KEY);
    EndedApart(s.sys, n);
    SplitCard(oks, maybes, ws);
  }

  lemma EndedApart(s: Sys, n: nat)
    ensures EndedBelow(s, n, OK) !! EndedBelow(s, n, ErrMaybe)
  {
  }

  lemma SplitCard(oks: set<nat>, maybes: set<nat>, ws: set<nat>)
    requires oks <= ws <= oks + maybes && oks !! maybes
    ensures |ws| == |oks| + |maybes * ws| && |maybes * ws| <= |maybes|
  {
    assert ws == oks + maybes * ws && oks !! maybes * ws;
    SubsetCard(maybes * ws, maybes);
  }

  lemma {:induction false} SubsetCard(a: set<nat>, b: set<nat>)
    requires a <= b
    ensures |a| <= |b|
  {
    if a != {} {
      var x :| x in a;
      SubsetCard(a - {x}, b - {x});
    }
  }

  // ----- Main results

  ghost predicate NoneFailed(s: State) {
    forall c | c in s.progs :: !s.progs[c].pc.Failed?
  }

  lemma SafeNoneFailed(j: Codec, s: State)
    requires Safe(j, s)
    ensures NoneFailed(s)
  {
    forall c | c in s.progs ensures !s.progs[c].pc.Failed? {
      assert PcOk(j, s.sys, c, s.progs[c].pc);
    }
  }

  /** In every run of racing clients on a fresh key, whatever the network does: no client stops with a
      wrong error, a failed read or a wrong value. */
  lemma NeverFails(j: Codec, s0: State, acts: seq<Action>)
    requires Lossless(j) && Start(s0) && Runs(j, s0, acts)
    ensures NoneFailed(End(j, s0, acts))
  {
    StartSafe(j, s0);
    RunSafe(j, s0, acts);
    SafeNoneFailed(j, End(j, s0, acts));
  }

  /** When all clients have finished, the key's version is the number of acknowledged puts plus the number of those
      left in doubt that took effect. */
  lemma VersionAccounts(j: Codec, s0: State, acts: seq<Action>, n: nat)
    requires Lossless(j) && Start(s0) && Runs(j, s0, acts) && Clients(s0.progs, n) && AllFinished(End(j, s0, acts))
    ensures Accounted(End(j, s0, acts), n)
  {
    StartSafe(j, s0);
    RunSafe(j, s0, acts);
    SameClients(s0.progs, End(j, s0, acts).progs, n);
    SafeAccounted(j, End(j, s0, acts), n);
  }

  // ----- A client never names a version twice

  /** Client c's Puts, apart from the one it is making, name versions below v. */
  ghost predicate PutsBelow(s: Sys, c: Client, v: nat) {
    forall o | 0 <= o < |s.calls| && s.calls[o].client == c && s.calls[o].op.Put? && s.calls[o].outcome.Returned? ::
      s.calls[o].op.version < v
  }

  /** Each names a higher version than the one before. */
  ghost predicate Rising(s: Sys, c: Client) {
    forall o, q | 0 <= o < q < |s.calls| && s.calls[o].client == s.calls[q].client == c && s.calls[o].op.Put? && s.calls[q].op.Put? ::
      s.calls[o].op.version < s.calls[q].op.version
  }

  ghost predicate NamesOk(s: Sys, c: Client, pc: Pc) {
    Rising(s, c) &&
    match pc
    case Top(ver) => PutsBelow(s, c, ver)
    case Putting(ver) => PutsBelow(s, c, ver)
    case Reading(ver, _) => PutsBelow(s, c, ver + 1)
    case _ => true
  }

  /** A client without a call under way has had an answer to all its calls. */
  lemma AllReturned(s: Sys, c: Client)
    requires Consistent(s) && c in s.clients && s.clients[c].Idle?
    ensures forall o | 0 <= o < |s.calls| && s.calls[o].client == c :: s.calls[o].outcome.Returned?
  {
    forall o | 0 <= o < |s.calls| && s.calls[o].client == c ensures s.calls[o].outcome.Returned? {
      assert PendingOk(s, o);
    }
  }

  lemma StepNames(s: Sys, step: Step, c: Client, pc: Pc)
    requires Consistent(s) && Enabled(s, step) && c in s.clients && NamesOk(s, c, pc) && step != Deliver(c)
    requires step.Invoke? && step.c == c && step.op.Put? ==> pc == Putting(step.op.version)
    ensures NamesOk(Do(s, step), c, pc)
  {
    StepKeeps(s, step);
    if step.Invoke? && step.c == c {
      AllReturned(s, c);
    } else if step.Deliver? {
      assert PhaseOk(s, step.c);
    }
  }

  lemma RespondNames(j: Codec, s: Sys, c: Client, p: Prog)
    requires Consistent(s) && Enabled(s, Deliver(c)) && CallOk(j, s, c, p.pc) && NamesOk(s, c, p.pc)
    requires ReplyOkFor(j, s, c, p.pc, ResultFor(s, c))
    ensures NamesOk(Do(s, Deliver(c)), c, AfterReply(j, c, p, ResultFor(s, c)).pc)
  {
    assert PhaseOk(s, c);
    StepKeeps(s, Deliver(c));
  }

  lemma ActNames(j: Codec, s: State, a: Action, c: Client)
    requires Lossless(j) && Safe(j, s) && Can(j, s, a) && c in s.progs && NamesOk(s.sys, c, s.progs[c].pc)
    ensures NamesOk(Act(j, s, a).sys, c, Act(j, s, a).progs[c].pc)
  {
    assert CallOk(j, s.sys, c, s.progs[c].pc);
    if a == Respond(c) {
      ReplyMeans(j, s, c);
      RespondNames(j, s.sys, c, s.progs[c]);
    } else {
      OtherNames(j, s, a, c);
    }
  }

  lemma OtherNames(j: Codec, s: State, a: Action, c: Client)
    requires Consistent(s.sys) && Can(j, s, a) && a != Respond(c) && c in s.progs && c in s.sys.clients
    requires NamesOk(s.sys, c, s.progs[c].pc)
    ensures NamesOk(Act(j, s, a).sys, c, Act(j, s, a).progs[c].pc)
  {
    if Moves(a) {
      StepNames(s.sys, SysStep(j, s, a), c, s.progs[c].pc);
    }
  }

  lemma {:induction false} RunNames(j: Codec, s: State, acts: seq<Action>, c: Client)
    requires Lossless(j) && Safe(j, s) && Runs(j, s, acts) && c in s.progs && NamesOk(s.sys, c, s.progs[c].pc)
    ensures Rising(End(j, s, acts).sys, c)
    decreases |acts|
  {
    if acts != [] {
      ActSafe(j, s, acts[0]);
      ActNames(j, s, acts[0], c);
      RunNames(j, Act(j, s, acts[0]), acts[1..], c);
    }
  }

  /** In every run, whatever the answers, a client's next put names a higher version than all its puts before: OnePut hands
      back the version it read last, not the one it started with. */
  lemma VersionsRise(j: Codec, s0: State, acts: seq<Action>, c: Client)
    requires Lossless(j) && Start(s0) && Runs(j, s0, acts) && c in s0.progs
    ensures Rising(End(j, s0, acts).sys, c)
  {
    StartSafe(j, s0);
    RunNames(j, s0, acts, c);
  }

  // ----- A reliable network

  predicate Reliable(acts: seq<Action>) {
    acts == [] || (ReliableAction(acts[0]) && Reliable(acts[1..]))
  }

  predicate ReliableAction(a: Action) {
    a.Network? ==> a.step.Send? || a.step.Execute?
  }

  /** Nobody ever has to resend. */
  ghost predicate FirstTry(s: Sys) {
    && (forall c | c in s.clients ::
          && (s.clients[c].Ready? ==> s.clients[c].tries == 0)
          && (s.clients[c].Waiting? ==> s.clients[c].tries == 1))
    && (forall o | 0 <= o < |s.calls| && s.calls[o].outcome.Returned? :: s.calls[o].outcome.reply != Status(ErrMaybe))
  }

  lemma ActFirstTry(j: Codec, s: State, a: Action)
    requires Consistent(s.sys) && FirstTry(s.sys) && Can(j, s, a) && ReliableAction(a)
    ensures FirstTry(Act(j, s, a).sys)
  {
    if a.Respond? {
      var m := s.sys.clients[a.c].rpc;
      assert PhaseOk(s.sys, a.c);
      assert ReplyOk(s.sys.store, OpOf(s.sys, m), s.sys.msgs[m].status.reply);
    }
  }

  lemma {:induction false} RunFirstTry(j: Codec, s: State, acts: seq<Action>)
    requires Lossless(j) && Safe(j, s) && FirstTry(s.sys) && Runs(j, s, acts) && Reliable(acts)
    ensures FirstTry(End(j, s, acts).sys)
    decreases |acts|
  {
    if acts != [] {
      ActSafe(j, s, acts[0]);
      ActFirstTry(j, s, acts[0]);
      RunFirstTry(j, Act(j, s, acts[0]), acts[1..]);
    }
  }

  /** On a reliable network the version is exactly the number of acknowledged puts. */
  lemma ReliableVersion(j: Codec, s0: State, acts: seq<Action>, n: nat)
    requires Lossless(j) && Start(s0) && Runs(j, s0, acts) && Clients(s0.progs, n) && AllFinished(End(j, s0, acts))
    requires Reliable(acts)
    ensures AccountedExactly(End(j, s0, acts), n)
  {
    StartSafe(j, s0);
    RunFirstTry(j, s0, acts);
    RunSafe(j, s0, acts);
    SameClients(s0.progs, End(j, s0, acts).progs, n);
    SafeAccountedExactly(j, End(j, s0, acts), n);
  }

  ghost predicate AccountedExactly(s: State, n: nat) {
    && (forall c: Client | c < n :: c in s.progs)
    && VersionOf(s.sys.store, KEY) == Sum(Results(s.progs, n), OK)
  }

  lemma SafeAccountedExactly(j: Codec, s: State, n: nat)
    requires Safe(j, s) && AllFinished(s) && Clients(s.progs, n) && FirstTry(s.sys)
    ensures AccountedExactly(s, n)
  {
    SafeAccounted(j, s, n);
    SafeFinal(j, s);
    SumsAreEnded(s.sys, s.progs, n, OK);
    SumsAreEnded(s.sys, s.progs, n, ErrMaybe);
    assert EndedBelow(s.sys, n, ErrMaybe) == {};
  }
}
