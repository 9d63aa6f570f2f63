/** The retrying clerk over a lossy network, as a transition system: the server's store, every
    Clerk call ever made, every RPC copy ever sent, and what each client is doing.

    The network may lose a request, execute it, lose or delay the reply, or give up on a call
    whose handler has not run yet; that abandoned copy may still execute at any later time.
    No message is duplicated, and a reply reaches only the call it answers. */
module Clerk {
  import opened KvServer

  type Client = nat

  /** Where a client is inside Clerk.Get or Clerk.Put. `tries` is the loop's attempt counter. */
  datatype Phase =
    | Idle
    | Ready(call: nat, tries: nat)
    | Waiting(call: nat, tries: nat, rpc: nat)

  datatype Status =
    | Sent                             // may still execute
    | Dropped                          // lost before the server saw it
    | Done(reply: Reply, at: nat)      // executed, at this time

  /** One RPC copy: which Clerk call sent it, and what became of it. */
  datatype Message = Message(call: nat, status: Status)

  datatype Outcome =
    | Pending
    | Returned(reply: Reply, at: nat, via: nat)

  /** One call of Clerk.Get or Clerk.Put, as a caller's stopwatch sees it. `via` is the copy
      whose reply ended the call. */
  datatype Call = Call(client: Client, op: Op, start: nat, outcome: Outcome)

  datatype Sys = Sys(
    now: nat,
    store: Store,
    calls: seq<Call>,
    msgs: seq<Message>,
    clients: map<Client, Phase>,
    log: seq<nat>)                     // executed copies, oldest first

  datatype Step =
    | Invoke(c: Client, op: Op)
    | Send(c: Client)
    | LoseRequest(c: Client)
    | Abandon(c: Client)
    | Execute(m: nat)
    | LoseReply(c: Client)
    | Deliver(c: Client)

  /** How the clerk's switch turns the server's reply into its result. */
  function ClerkResult(reply: Reply, tries: nat): Reply {
    if reply == Status(ErrVersion) && tries > 1 then Status(ErrMaybe) else reply
  }

  predicate AwaitsReply(s: Sys, c: Client) {
    c in s.clients && s.clients[c].Waiting? && s.clients[c].rpc < |s.msgs| && s.clients[c].call < |s.calls|
  }

  predicate Enabled(s: Sys, step: Step) {
    match step
    case Invoke(c, op) => c in s.clients && s.clients[c].Idle?
    case Send(c) => c in s.clients && s.clients[c].Ready?
    case LoseRequest(c) => AwaitsReply(s, c) && s.msgs[s.clients[c].rpc].status.Sent?
    case Abandon(c) => AwaitsReply(s, c) && s.msgs[s.clients[c].rpc].status.Sent?
    case Execute(m) => m < |s.msgs| && s.msgs[m].status.Sent? && s.msgs[m].call < |s.calls|
    case LoseReply(c) => AwaitsReply(s, c) && s.msgs[s.clients[c].rpc].status.Done?
    case Deliver(c) => AwaitsReply(s, c) && s.msgs[s.clients[c].rpc].status.Done?
  }

  /** What copy m asks the server to do. */
  function OpOf(s: Sys, m: nat): Op
    requires m < |s.msgs| && s.msgs[m].call < |s.calls|
  {
    s.calls[s.msgs[m].call].op
  }

  /** The result the clerk would return to client c now. */
  function ResultFor(s: Sys, c: Client): Reply
    requires Enabled(s, Deliver(c))
  {
    ClerkResult(s.msgs[s.clients[c].rpc].status.reply, s.clients[c].tries)
  }

  function Do(s: Sys, step: Step): Sys
    requires Enabled(s, step)
  {
    match step
    case Invoke(c, op) =>
      s.(now := s.now + 1,
         calls := s.calls + [Call(c, op, s.now, Pending)],
         clients := s.clients[c := Ready(|s.calls|, 0)])
    case Send(c) =>
      var p := s.clients[c];
      s.(now := s.now + 1,
         msgs := s.msgs + [Message(p.call, Sent)],
         clients := s.clients[c := Waiting(p.call, p.tries + 1, |s.msgs|)])
    case LoseRequest(c) =>
      var p := s.clients[c];
      s.(now := s.now + 1,
         msgs := s.msgs[p.rpc := Message(s.msgs[p.rpc].call, Dropped)],
         clients := s.clients[c := Ready(p.call, p.tries)])
    case Abandon(c) =>
      var p := s.clients[c];
      s.(now := s.now + 1, clients := s.clients[c := Ready(p.call, p.tries)])
    case Execute(m) =>
      var (store, reply) := Apply(s.store, OpOf(s, m));
      s.(now := s.now + 1,
         store := store,
         msgs := s.msgs[m := Message(s.msgs[m].call, Done(reply, s.now))],
         log := s.log + [m])
    case LoseReply(c) =>
      var p := s.clients[c];
      s.(now := s.now + 1, clients := s.clients[c := Ready(p.call, p.tries)])
    case Deliver(c) =>
      var p := s.clients[c];
      s.(now := s.now + 1,
         calls := s.calls[p.call := s.calls[p.call].(outcome := Returned(ResultFor(s, c), s.now, p.rpc))],
         clients := s.clients[c := Idle])
  }

  /** A run is a sequence of steps, each enabled where it is taken. */
  predicate Valid(s: Sys, steps: seq<Step>)
    decreases |steps|
  {
    steps == [] || (Enabled(s, steps[0]) && Valid(Do(s, steps[0]), steps[1..]))
  }

  function After(s: Sys, steps: seq<Step>): Sys
    requires Valid(s, steps)
    decreases |steps|
  {
    if steps == [] then s else After(Do(s, steps[0]), steps[1..])
  }

  /** A fresh deployment: any stored keys, every client idle, nothing sent yet. */
  predicate Init(s: Sys) {
    && StoreOk(s.store)
    && s.calls == [] && s.msgs == [] && s.log == []
    && forall c | c in s.clients :: s.clients[c].Idle?
  }

  // ----- Structure: who is waiting for what

  predicate MsgsOk(s: Sys) {
    forall m | 0 <= m < |s.msgs| :: s.msgs[m].call < |s.calls|
  }

  predicate PhaseOk(s: Sys, c: Client)
    requires MsgsOk(s) && c in s.clients
  {
    match s.clients[c]
    case Idle => true
    case Ready(o, t) =>
      && o < |s.calls| && s.calls[o].client == c && s.calls[o].outcome.Pending?
      && (t == 0 ==> forall m | 0 <= m < |s.msgs| :: s.msgs[m].call != o)
    case Waiting(o, t, r) =>
      && o < |s.calls| && s.calls[o].client == c && s.calls[o].outcome.Pending?
      && r < |s.msgs| && s.msgs[r].call == o && !s.msgs[r].status.Dropped? && t >= 1
      && (t == 1 ==> forall m | 0 <= m < |s.msgs| && s.msgs[m].call == o :: m == r)
  }

  predicate PendingOk(s: Sys, o: nat)
    requires o < |s.calls|
  {
    s.calls[o].outcome.Pending? ==>
      var c := s.calls[o].client;
      c in s.clients && !s.clients[c].Idle? && s.clients[c].call == o
  }

  /** What an executed copy's reply still says about the store. */
  predicate ReplyOk(store: Store, op: Op, reply: Reply) {
    match op
    case Get(k) =>
      if reply.Value? then
        && k in store && 1 <= reply.version <= store[k].version
        && (reply.version == store[k].version ==> reply.value == store[k].value)
      else reply.err == ErrNoKey
    case Put(k, v, ver) =>
      && reply.Status? && reply.err != ErrMaybe
      && (reply.err == OK ==> ver < VersionOf(store, k))
      && (reply.err == ErrVersion ==> k in store)
      && (reply.err == ErrNoKey ==> ver > 0)
  }

  predicate RepliesOk(s: Sys)
    requires MsgsOk(s)
  {
    forall m | 0 <= m < |s.msgs| && s.msgs[m].status.Done? :: ReplyOk(s.store, OpOf(s, m), s.msgs[m].status.reply)
  }

  /** Copy m is the one that wrote the store. */
  predicate TookEffect(s: Sys, m: nat)
    requires m < |s.msgs| && s.msgs[m].call < |s.calls|
  {
    OpOf(s, m).Put? && s.msgs[m].status.Done? && s.msgs[m].status.reply == Status(OK)
  }

  /** Some copy of call o wrote the store. */
  ghost predicate Wrote(s: Sys, o: nat)
    requires MsgsOk(s)
  {
    exists m :: 0 <= m < |s.msgs| && s.msgs[m].call == o && TookEffect(s, m)
  }

  predicate AtMostOnce(s: Sys)
    requires MsgsOk(s)
  {
    forall m, n | 0 <= m < |s.msgs| && 0 <= n < |s.msgs| && s.msgs[m].call == s.msgs[n].call
                  && TookEffect(s, m) && TookEffect(s, n) :: m == n
  }

  /** What a returned call says about its copies. */
  predicate OutcomeOk(s: Sys, o: nat)
    requires MsgsOk(s) && o < |s.calls|
  {
    s.calls[o].outcome.Returned? ==>
      var r := s.calls[o].outcome;
      && r.via < |s.msgs| && s.msgs[r.via].call == o && s.msgs[r.via].status.Done?
      && (s.msgs[r.via].status.reply == r.reply
          || (r.reply == Status(ErrMaybe) && s.msgs[r.via].status.reply == Status(ErrVersion)))
      && (r.reply == Status(ErrVersion) ==> forall m | 0 <= m < |s.msgs| && s.msgs[m].call == o :: m == r.via)
  }

  /** Every copy executes after its call began, and every call ends after the copy that answers it. */
  predicate TimesOk(s: Sys)
    requires MsgsOk(s)
  {
    && (forall o | 0 <= o < |s.calls| :: s.calls[o].start < s.now)
    && (forall m | 0 <= m < |s.msgs| && s.msgs[m].status.Done? ::
          s.calls[s.msgs[m].call].start < s.msgs[m].status.at < s.now)
    && (forall o | 0 <= o < |s.calls| :: ReturnTimeOk(s, o))
  }

  predicate ReturnTimeOk(s: Sys, o: nat)
    requires o < |s.calls|
  {
    var r := s.calls[o].outcome;
    r.Returned? && r.via < |s.msgs| && s.msgs[r.via].status.Done? ==> s.msgs[r.via].status.at < r.at < s.now
  }

  /** A copy answered ErrNoKey executed before any copy of the same Put took effect. */
  predicate NoKeyFirst(s: Sys)
    requires MsgsOk(s)
  {
    forall m, n | 0 <= m < |s.msgs| && 0 <= n < |s.msgs| && s.msgs[m].call == s.msgs[n].call
                  && TookEffect(s, m) && s.msgs[n].status.Done? && s.msgs[n].status.reply == Status(ErrNoKey) ::
      s.msgs[n].status.at < s.msgs[m].status.at
  }

  predicate Consistent(s: Sys) {
    && MsgsOk(s)
    && TimesOk(s)
    && NoKeyFirst(s)
    && StoreOk(s.store)
    && (forall c | c in s.clients :: PhaseOk(s, c))
    && (forall o | 0 <= o < |s.calls| :: PendingOk(s, o))
    && (forall o | 0 <= o < |s.calls| :: OutcomeOk(s, o))
    && RepliesOk(s)
    && AtMostOnce(s)
  }

  lemma {:induction false} InitConsistent(s: Sys)
    requires Init(s)
    ensures Consistent(s)
  {
  }

  lemma ReplyStillOk(store: Store, op: Op, reply: Reply, write: Op)
    requires StoreOk(store) && ReplyOk(store, op, reply)
    ensures ReplyOk(Apply(store, write).0, op, reply)
  {
  }

  lemma StepMsgs(s: Sys, step: Step)
    requires Consistent(s) && Enabled(s, step)
    ensures StoreOk(Do(s, step).store) && MsgsOk(Do(s, step))
  {
  }

  lemma StepPhases(s: Sys, step: Step)
    requires Consistent(s) && Enabled(s, step)
    ensures MsgsOk(Do(s, step))
    ensures forall c | c in Do(s, step).clients :: PhaseOk(Do(s, step), c)
  {
    var s' := Do(s, step);
    StepMsgs(s, step);
    forall c | c in s'.clients ensures PhaseOk(s', c) {
      assert PhaseOk(s, c);
    }
  }

  lemma StepPendings(s: Sys, step: Step)
    requires Consistent(s) && Enabled(s, step)
    ensures forall o | 0 <= o < |Do(s, step).calls| :: PendingOk(Do(s, step), o)
  {
    var s' := Do(s, step);
    forall o | 0 <= o < |s'.calls| ensures PendingOk(s', o) {
      if o < |s.calls| {
        assert PendingOk(s, o);
      }
    }
  }

  lemma StepOutcomes(s: Sys, step: Step)
    requires Consistent(s) && Enabled(s, step)
    ensures MsgsOk(Do(s, step))
    ensures forall o | 0 <= o < |Do(s, step).calls| :: OutcomeOk(Do(s, step), o)
  {
    var s' := Do(s, step);
    StepMsgs(s, step);
    forall o | 0 <= o < |s'.calls| ensures OutcomeOk(s', o) {
      if o < |s.calls| {
        assert OutcomeOk(s, o);
      }
    }
  }

  lemma StepReplies(s: Sys, step: Step)
    requires Consistent(s) && Enabled(s, step)
    ensures MsgsOk(Do(s, step)) && RepliesOk(Do(s, step))
  {
    var s' := Do(s, step);
    StepMsgs(s, step);
    forall m | 0 <= m < |s'.msgs| && s'.msgs[m].status.Done?
      ensures ReplyOk(s'.store, OpOf(s', m), s'.msgs[m].status.reply)
    {
      if step.Execute? && m != step.m {
        ReplyStillOk(s.store, OpOf(s, m), s.msgs[m].status.reply, OpOf(s, step.m));
      }
    }
  }

  lemma StepAtMostOnce(s: Sys, step: Step)
    requires Consistent(s) && Enabled(s, step)
    ensures MsgsOk(Do(s, step)) && AtMostOnce(Do(s, step))
  {
    var s' := Do(s, step);
    StepMsgs(s, step);
    forall m, n | 0 <= m < |s'.msgs| && 0 <= n < |s'.msgs| && s'.msgs[m].call == s'.msgs[n].call
                  && TookEffect(s', m) && TookEffect(s', n)
      ensures m == n
    {
      assert m < |s.msgs| && n < |s.msgs|;
      assert step != Execute(m) ==> TookEffect(s, m);
      assert step != Execute(n) ==> TookEffect(s, n);
    }
  }

  lemma StepTimes(s: Sys, step: Step)
    requires Consistent(s) && Enabled(s, step)
    ensures MsgsOk(Do(s, step)) && TimesOk(Do(s, step))
  {
    var s' := Do(s, step);
    StepMsgs(s, step);
    forall o | 0 <= o < |s'.calls| ensures ReturnTimeOk(s', o) {
      if o < |s.calls| {
        StepReturnTime(s, step, o);
      }
    }
  }

  lemma StepReturnTime(s: Sys, step: Step, o: nat)
    requires MsgsOk(s) && Enabled(s, step) && o < |s.calls| && ReturnTimeOk(s, o) && OutcomeOk(s, o)
    requires forall m | 0 <= m < |s.msgs| && s.msgs[m].status.Done? :: s.msgs[m].status.at < s.now
    ensures ReturnTimeOk(Do(s, step), o)
  {
  }

  lemma StepNoKeyFirst(s: Sys, step: Step)
    requires Consistent(s) && Enabled(s, step)
    ensures MsgsOk(Do(s, step)) && NoKeyFirst(Do(s, step))
  {
    var s' := Do(s, step);
    StepMsgs(s, step);
    forall m, n | 0 <= m < |s'.msgs| && 0 <= n < |s'.msgs| && s'.msgs[m].call == s'.msgs[n].call
                  && TookEffect(s', m) && s'.msgs[n].status.Done? && s'.msgs[n].status.reply == Status(ErrNoKey)
      ensures s'.msgs[n].status.at < s'.msgs[m].status.at
    {
      assert m < |s.msgs| && n < |s.msgs|;
      if step != Execute(m) {
        assert TookEffect(s, m);
        assert ReplyOk(s.store, OpOf(s, m), s.msgs[m].status.reply);
      }
    }
  }

  lemma StepConsistent(s: Sys, step: Step)
    requires Consistent(s) && Enabled(s, step)
    ensures Consistent(Do(s, step))
  {
    StepMsgs(s, step);
    StepPhases(s, step);
    StepPendings(s, step);
    StepOutcomes(s, step);
    StepReplies(s, step);
    StepAtMostOnce(s, step);
    StepTimes(s, step);
    StepNoKeyFirst(s, step);
  }

  lemma {:induction false} RunConsistent(s: Sys, steps: seq<Step>)
    requires Consistent(s) && Valid(s, steps)
    ensures Consistent(After(s, steps))
    decreases |steps|
  {
    if steps != [] {
      StepConsistent(s, steps[0]);
      RunConsistent(Do(s, steps[0]), steps[1..]);
    }
  }

  // ----- What a Put's result says about the server

  /** Over every run: at most one copy of a Put ever writes the store. OK means exactly one did, the
      one that answered; ErrVersion means the only copy was refused, so none ever will; ErrMaybe
      means the answering copy was refused; ErrNoKey means none had written when the answering copy
      executed. */
  lemma PutOutcomes(s0: Sys, steps: seq<Step>, o: nat)
    requires Init(s0) && Valid(s0, steps)
    requires o < |After(s0, steps).calls| && After(s0, steps).calls[o].op.Put?
    ensures MsgsOk(After(s0, steps))
    ensures var s := After(s0, steps);
            forall m, n | 0 <= m < |s.msgs| && 0 <= n < |s.msgs| && s.msgs[m].call == s.msgs[n].call == o
                          && TookEffect(s, m) && TookEffect(s, n) :: m == n
    ensures var s := After(s0, steps);
            var r := s.calls[o].outcome;
            r.Returned? ==>
              && r.via < |s.msgs| && s.msgs[r.via].call == o && s.msgs[r.via].status.Done?
              && r.reply in {Status(OK), Status(ErrVersion), Status(ErrMaybe), Status(ErrNoKey)}
              && (TookEffect(s, r.via) <==> r.reply == Status(OK))
              && (r.reply == Status(ErrVersion) ==>
                    forall m | 0 <= m < |s.msgs| && s.msgs[m].call == o :: m == r.via && !TookEffect(s, m))
              && (r.reply == Status(ErrNoKey) ==>
                    forall m | 0 <= m < |s.msgs| && s.msgs[m].call == o && TookEffect(s, m) ::
                      s.msgs[r.via].status.at < s.msgs[m].status.at)
  {
    InitConsistent(s0);
    RunConsistent(s0, steps);
    var s := After(s0, steps);
    assert OutcomeOk(s, o);
  }

  /** What has happened never unhappens: calls keep their operation and, once returned, their
      result; an executed copy keeps its reply; versions do not go down. */
  lemma StepKeeps(s: Sys, step: Step)
    requires Consistent(s) && Enabled(s, step)
    ensures var s' := Do(s, step);
            && |s.calls| <= |s'.calls| && |s.msgs| <= |s'.msgs| && s.now < s'.now
            && (forall o | 0 <= o < |s.calls| :: s'.calls[o].op == s.calls[o].op && s'.calls[o].client == s.calls[o].client
                  && (s.calls[o].outcome.Returned? ==> s'.calls[o] == s.calls[o]))
            && (forall m | 0 <= m < |s.msgs| :: s'.msgs[m].call == s.msgs[m].call
                  && (!s.msgs[m].status.Sent? ==> s'.msgs[m] == s.msgs[m]))
            && (forall k :: VersionOf(s.store, k) <= VersionOf(s'.store, k))
  {
  }

  /** Call o is a Put that named a version the key had already reached, and every executed copy of
      it has been overtaken. */
  predicate Settled(s: Sys, o: nat)
    requires MsgsOk(s) && o < |s.calls|
  {
    s.calls[o].op.Put? ==>
      && s.calls[o].op.version <= VersionOf(s.store, s.calls[o].op.key)
      && forall m | 0 <= m < |s.msgs| && s.msgs[m].call == o && s.msgs[m].status.Done? ::
           s.calls[o].op.version < VersionOf(s.store, s.calls[o].op.key) && s.msgs[m].status.reply != Status(ErrNoKey)
  }

  lemma StepSettled(s: Sys, step: Step, o: nat)
    requires Consistent(s) && Enabled(s, step)
    requires o < |s.calls| && Settled(s, o)
    ensures MsgsOk(Do(s, step)) && Settled(Do(s, step), o)
  {
    StepMsgs(s, step);
    StepKeeps(s, step);
  }

  /** A settled Put is never refused with ErrNoKey, and once it has returned no copy can write. */
  lemma SettledPut(s: Sys, o: nat)
    requires Consistent(s) && o < |s.calls| && s.calls[o].op.Put? && Settled(s, o)
    ensures s.calls[o].outcome.Returned? ==>
              && s.calls[o].outcome.reply != Status(ErrNoKey)
              && s.calls[o].op.version < VersionOf(s.store, s.calls[o].op.key)
              && forall m | 0 <= m < |s.msgs| && s.msgs[m].call == o && s.msgs[m].status.Sent? ::
                   Apply(s.store, OpOf(s, m)) == (s.store, Status(ErrVersion))
    ensures forall m | 0 <= m < |s.msgs| && s.msgs[m].call == o && s.msgs[m].status.Done? ::
              s.msgs[m].status.reply == Status(OK) || s.msgs[m].status.reply == Status(ErrVersion)
  {
    assert OutcomeOk(s, o);
    forall m | 0 <= m < |s.msgs| && s.msgs[m].call == o && s.msgs[m].status.Done?
      ensures s.msgs[m].status.reply == Status(OK) || s.msgs[m].status.reply == Status(ErrVersion)
    {
      assert ReplyOk(s.store, OpOf(s, m), s.msgs[m].status.reply);
    }
  }

  lemma {:induction false} RunSettled(s: Sys, steps: seq<Step>, o: nat)
    requires Consistent(s) && Valid(s, steps)
    requires o < |s.calls| && Settled(s, o)
    ensures Consistent(After(s, steps))
    ensures o < |After(s, steps).calls| && After(s, steps).calls[o].op == s.calls[o].op && Settled(After(s, steps), o)
    decreases |steps|
  {
    if steps != [] {
      StepConsistent(s, steps[0]);
      StepSettled(s, steps[0], o);
      StepKeeps(s, steps[0]);
      RunSettled(Do(s, steps[0]), steps[1..], o);
    }
  }

  /** Callers name only versions the key has reached, as one does who got the version from a Get. */
  predicate VersionsReached(s: Sys, steps: seq<Step>)
    requires Valid(s, steps)
    decreases |steps|
  {
    steps == [] ||
    (&& (steps[0].Invoke? && steps[0].op.Put? ==> steps[0].op.version <= VersionOf(s.store, steps[0].op.key))
     && VersionsReached(Do(s, steps[0]), steps[1..]))
  }
}
