/** Every client-visible history of the clerk and server is a legal run of the sequential
    specification, with each operation taking place between its call and its return. */
module Linearizability {
  import opened KvServer
  import opened Clerk
  import opened KvModel

  // ----- The executed copies, in order, explain the store and every reply

  ghost predicate LogIn(s: Sys) {
    MsgsOk(s) && Executed(s.msgs, s.log)
  }

  /** The log lists the executed copies, oldest first. */
  ghost predicate Executed(msgs: seq<Message>, log: seq<nat>) {
    && (forall i | 0 <= i < |log| :: log[i] < |msgs| && msgs[log[i]].status.Done?)
    && (forall m | 0 <= m < |msgs| && msgs[m].status.Done? :: m in log)
    && (forall i, j | 0 <= i < j < |log| :: msgs[log[i]].status.at < msgs[log[j]].status.at)
  }

  ghost function OpsDone(s: Sys): seq<Op>
    requires LogIn(s)
  {
    seq(|s.log|, i requires 0 <= i < |s.log| => OpOf(s, s.log[i]))
  }

  ghost function RepliesDone(s: Sys): seq<Reply>
    requires LogIn(s)
  {
    seq(|s.log|, i requires 0 <= i < |s.log| => s.msgs[s.log[i]].status.reply)
  }

  ghost predicate LogExplains(store0: Store, s: Sys) {
    LogIn(s) && ApplyAll(store0, OpsDone(s)) == (s.store, RepliesDone(s))
  }

  lemma StepLog(store0: Store, s: Sys, step: Step)
    requires Consistent(s) && Enabled(s, step) && LogExplains(store0, s)
    ensures LogExplains(store0, Do(s, step))
  {
    StepLogIn(s, step);
    if step.Execute? {
      ExecuteLog(s, step.m);
      assert OpsDone(Do(s, step))[..|s.log|] == OpsDone(s);
    } else {
      QuietLog(s, step);
    }
  }

  lemma ExecuteLog(s: Sys, m: nat)
    requires Enabled(s, Execute(m)) && LogIn(s) && LogIn(Do(s, Execute(m)))
    ensures OpsDone(Do(s, Execute(m))) == OpsDone(s) + [OpOf(s, m)]
    ensures RepliesDone(Do(s, Execute(m))) == RepliesDone(s) + [Apply(s.store, OpOf(s, m)).1]
  {
  }

  lemma QuietLog(s: Sys, step: Step)
    requires Enabled(s, step) && LogIn(s) && LogIn(Do(s, step)) && !step.Execute?
    ensures OpsDone(Do(s, step)) == OpsDone(s) && RepliesDone(Do(s, step)) == RepliesDone(s)
  {
  }

  lemma StepLogIn(s: Sys, step: Step)
    requires Consistent(s) && Enabled(s, step) && LogIn(s)
    ensures LogIn(Do(s, step))
  {
    StepMsgs(s, step);
    if step.Execute? {
      ExecuteLogIn(s, step.m);
    }
  }

  lemma ExecuteLogIn(s: Sys, m: nat)
    requires MsgsOk(s) && TimesOk(s) && Enabled(s, Execute(m)) && LogIn(s) && MsgsOk(Do(s, Execute(m)))
    ensures LogIn(Do(s, Execute(m)))
  {
    ExecutedNext(s.msgs, s.log, m, Do(s, Execute(m)).msgs[m]);
  }

  lemma ExecutedNext(msgs: seq<Message>, log: seq<nat>, m: nat, x: Message)
    requires Executed(msgs, log) && m < |msgs| && !msgs[m].status.Done? && x.status.Done?
    requires forall n | 0 <= n < |msgs| && msgs[n].status.Done? :: msgs[n].status.at < x.status.at
    ensures Executed(msgs[m := x], log + [m])
  {
    Listed(msgs, log, m, x);
    Ordered(msgs, log, m, x);
  }

  lemma Listed(msgs: seq<Message>, log: seq<nat>, m: nat, x: Message)
    requires forall i | 0 <= i < |log| :: log[i] < |msgs| && msgs[log[i]].status.Done?
    requires forall n | 0 <= n < |msgs| && msgs[n].status.Done? :: n in log
    requires m < |msgs| && x.status.Done?
    ensures var msgs', log' := msgs[m := x], log + [m];
            && (forall i | 0 <= i < |log'| :: log'[i] < |msgs'| && msgs'[log'[i]].status.Done?)
            && (forall n | 0 <= n < |msgs'| && msgs'[n].status.Done? :: n in log')
  {
    forall n | 0 <= n < |msgs| && (n == m || msgs[n].status.Done?) ensures n in log + [m] {
      assert n == m || n in log;
    }
  }

  lemma Ordered(msgs: seq<Message>, log: seq<nat>, m: nat, x: Message)
    requires forall i | 0 <= i < |log| :: log[i] < |msgs| && msgs[log[i]].status.Done?
    requires forall i, j | 0 <= i < j < |log| :: msgs[log[i]].status.at < msgs[log[j]].status.at
    requires m < |msgs| && !msgs[m].status.Done? && x.status.Done?
    requires forall n | 0 <= n < |msgs| && msgs[n].status.Done? :: msgs[n].status.at < x.status.at
    ensures var msgs', log' := msgs[m := x], log + [m];
            && (forall i | 0 <= i < |log'| :: log'[i] < |msgs'| && msgs'[log'[i]].status.Done?)
            && (forall i, j | 0 <= i < j < |log'| :: msgs'[log'[i]].status.at < msgs'[log'[j]].status.at)
  {
    assert forall i | 0 <= i < |log| :: log[i] != m;
  }

  lemma InitLog(s: Sys)
    requires Init(s) && s.store == map[]
    ensures LogExplains(map[], s)
  {
    assert OpsDone(s) == [] && RepliesDone(s) == [];
  }

  lemma {:induction false} RunLog(store0: Store, s: Sys, steps: seq<Step>)
    requires Consistent(s) && Valid(s, steps) && LogExplains(store0, s)
    ensures LogExplains(store0, After(s, steps))
    decreases |steps|
  {
    if steps != [] {
      StepConsistent(s, steps[0]);
      StepLog(store0, s, steps[0]);
      RunLog(store0, Do(s, steps[0]), steps[1..]);
    }
  }

  /** The store before the n-th execution. */
  function StoreAt(store0: Store, ops: seq<Op>, n: nat): Store
    requires n <= |ops|
  {
    ApplyAll(store0, ops[..n]).0
  }

  lemma {:induction false} ReplyAt(store0: Store, ops: seq<Op>, n: nat)
    requires n < |ops|
    ensures |ApplyAll(store0, ops).1| == |ops|
    ensures Apply(StoreAt(store0, ops, n), ops[n]) == (StoreAt(store0, ops, n + 1), ApplyAll(store0, ops).1[n])
    decreases |ops|
  {
    var init := ops[..|ops| - 1];
    if n < |ops| - 1 {
      ReplyAt(store0, init, n);
      assert init[..n] == ops[..n] && init[..n + 1] == ops[..n + 1];
    } else {
      assert ops[..n + 1] == ops && ops[..n] == init;
      ApplyAllLength(store0, init);
    }
  }

  lemma {:induction false} ApplyAllLength(store0: Store, ops: seq<Op>)
    ensures |ApplyAll(store0, ops).1| == |ops|
    decreases |ops|
  {
    if ops != [] {
      ApplyAllLength(store0, ops[..|ops| - 1]);
    }
  }

  // ----- Where each operation takes place

  /** A call takes place when the copy that wrote the store executed, or, if none did, when the copy
      that answered it executed. */
  ghost predicate Chosen(s: Sys, m: nat)
    requires MsgsOk(s) && m < |s.msgs|
  {
    var call := s.calls[s.msgs[m].call];
    TookEffect(s, m) || (call.outcome.Returned? && call.outcome.via == m && !Wrote(s, s.msgs[m].call))
  }

  /** A copy that wrote the store did so before its call returned. */
  ghost predicate NoLateWrites(s: Sys)
    requires MsgsOk(s)
  {
    forall m | 0 <= m < |s.msgs| && TookEffect(s, m) && s.calls[s.msgs[m].call].outcome.Returned? ::
      s.msgs[m].status.at < s.calls[s.msgs[m].call].outcome.at
  }

  /** No Put told its caller that the key was missing. */
  ghost predicate NoPutMissedKey(s: Sys) {
    forall o | 0 <= o < |s.calls| && s.calls[o].op.Put? && s.calls[o].outcome.Returned? ::
      s.calls[o].outcome.reply != Status(ErrNoKey)
  }

  /** Call o as a completed operation; a call still running is completed, successfully, now. */
  function Entry(s: Sys, o: nat): Operation
    requires o < |s.calls|
  {
    var call := s.calls[o];
    if call.outcome.Returned?
    then Operation(call.client, call.op, call.start, call.outcome.reply, call.outcome.at)
    else Operation(call.client, call.op, call.start, Status(OK), s.now)
  }

  /** The calls that take place among the first n executions, in that order. */
  ghost function LinIds(s: Sys, n: nat): seq<nat>
    requires LogIn(s) && n <= |s.log|
  {
    if n == 0 then []
    else LinIds(s, n - 1) + (if Chosen(s, s.log[n - 1]) then [s.msgs[s.log[n - 1]].call] else [])
  }

  ghost function Lin(s: Sys, n: nat): seq<Operation>
    requires LogIn(s) && n <= |s.log|
  {
    if n == 0 then []
    else Lin(s, n - 1) + (if Chosen(s, s.log[n - 1]) then [Entry(s, s.msgs[s.log[n - 1]].call)] else [])
  }

  lemma {:induction false} LinMatchesIds(s: Sys, n: nat)
    requires LogIn(s) && n <= |s.log|
    ensures |Lin(s, n)| == |LinIds(s, n)|
    ensures forall i | 0 <= i < |Lin(s, n)| :: LinIds(s, n)[i] < |s.calls| && Lin(s, n)[i] == Entry(s, LinIds(s, n)[i])
  {
    if n > 0 {
      LinMatchesIds(s, n - 1);
    }
  }

  /** Which calls are placed: those with a chosen copy among the first n executions. */
  lemma {:induction false} Placed(s: Sys, n: nat, o: nat)
    requires LogIn(s) && n <= |s.log|
    ensures o in LinIds(s, n) <==> exists i :: 0 <= i < n && s.msgs[s.log[i]].call == o && Chosen(s, s.log[i])
  {
    if n > 0 {
      Placed(s, n - 1, o);
    }
  }

  lemma ChosenOnce(s: Sys, m: nat, n: nat)
    requires Consistent(s) && m < |s.msgs| && n < |s.msgs|
    requires s.msgs[m].call == s.msgs[n].call && Chosen(s, m) && Chosen(s, n)
    ensures m == n
  {
  }

  lemma {:induction false} PlacedOnce(s: Sys, n: nat)
    requires Consistent(s) && LogIn(s) && n <= |s.log|
    ensures forall i, j | 0 <= i < j < |LinIds(s, n)| :: LinIds(s, n)[i] != LinIds(s, n)[j]
  {
    if n > 0 {
      PlacedOnce(s, n - 1);
      if Chosen(s, s.log[n - 1]) {
        var o := s.msgs[s.log[n - 1]].call;
        Placed(s, n - 1, o);
        if o in LinIds(s, n - 1) {
          var i :| 0 <= i < n - 1 && s.msgs[s.log[i]].call == o && Chosen(s, s.log[i]);
          ChosenOnce(s, s.log[i], s.log[n - 1]);
          assert false;
        }
      }
    }
  }

  lemma ReturnedIsPlaced(s: Sys, o: nat)
    requires Consistent(s) && LogIn(s) && o < |s.calls| && s.calls[o].outcome.Returned?
    ensures o in LinIds(s, |s.log|)
  {
    assert OutcomeOk(s, o);
    var m := s.calls[o].outcome.via;
    if Wrote(s, o) {
      m :| 0 <= m < |s.msgs| && s.msgs[m].call == o && TookEffect(s, m);
    }
    assert m in s.log;
    var i :| 0 <= i < |s.log| && s.log[i] == m;
    assert Chosen(s, s.log[i]);
    Placed(s, |s.log|, o);
  }

  // ----- Real time

  lemma {:induction false} LinStarts(s: Sys, n: nat)
    requires Consistent(s) && LogIn(s) && 0 < n <= |s.log|
    ensures forall x | x in Lin(s, n) :: x.call < s.msgs[s.log[n - 1]].status.at
  {
    if n > 1 {
      LinStarts(s, n - 1);
      assert s.msgs[s.log[n - 2]].status.at < s.msgs[s.log[n - 1]].status.at;
    }
  }

  lemma {:induction false} LinRealTime(s: Sys, n: nat)
    requires Consistent(s) && LogIn(s) && NoLateWrites(s) && n <= |s.log|
    ensures RealTime(Lin(s, n)) && Timed(Lin(s, n))
  {
    if n > 0 {
      LinRealTime(s, n - 1);
      var m := s.log[n - 1];
      if Chosen(s, m) {
        ChosenInside(s, m);
        if n > 1 {
          LinStarts(s, n - 1);
          assert s.msgs[s.log[n - 2]].status.at < s.msgs[m].status.at;
        }
        AppendRealTime(Lin(s, n - 1), Entry(s, s.msgs[m].call), s.msgs[m].status.at);
      }
    }
  }

  /** A chosen copy executes between its call and its return. */
  lemma ChosenInside(s: Sys, m: nat)
    requires Consistent(s) && NoLateWrites(s) && m < |s.msgs| && s.msgs[m].status.Done? && Chosen(s, m)
    ensures var x := Entry(s, s.msgs[m].call); x.call < s.msgs[m].status.at < x.ret
  {
    assert OutcomeOk(s, s.msgs[m].call) && ReturnTimeOk(s, s.msgs[m].call);
  }

  lemma AppendRealTime(a: seq<Operation>, x: Operation, at: nat)
    requires RealTime(a) && Timed(a) && x.call < at < x.ret
    requires forall y | y in a :: y.call < at
    ensures RealTime(a + [x]) && Timed(a + [x])
  {
    var b := a + [x];
    forall i, j | 0 <= i < j < |b| ensures !(b[j].ret < b[i].call) {
      if j == |a| {
        assert b[i] in a;
      }
    }
  }

  // ----- Legality

  function RunMap(m: map<string, KvState>, ops: seq<Operation>): map<string, KvState>
    decreases |ops|
  {
    if ops == [] then m
    else
      var k := ops[0].input.key;
      RunMap(m[k := KvModel.Step(StateOf(m, k), ops[0].input, ops[0].output).1], ops[1..])
  }

  lemma {:induction false} LegalAppend(m: map<string, KvState>, a: seq<Operation>, x: Operation)
    requires MapLegal(m, a)
    requires KvModel.Step(StateOf(RunMap(m, a), x.input.key), x.input, x.output).0
    ensures MapLegal(m, a + [x])
    ensures RunMap(m, a + [x])
         == RunMap(m, a)[x.input.key := KvModel.Step(StateOf(RunMap(m, a), x.input.key), x.input, x.output).1]
    decreases |a|
  {
    if a == [] {
      assert a + [x] == [x] && [x][1..] == [];
    } else {
      var k := a[0].input.key;
      LegalAppend(m[k := KvModel.Step(StateOf(m, k), a[0].input, a[0].output).1], a[1..], x);
      assert (a + [x])[1..] == a[1..] + [x];
    }
  }

  /** The server's cell as the specification's state. */
  function Abs(s: Store, k: string): KvState {
    if k in s then KvState(s[k].value, s[k].version) else InitState
  }

  /** A chosen copy's execution is a step of the specification, with the answer its caller got. */
  lemma ChosenIsLegal(s: Sys, m: nat, before: Store)
    requires Consistent(s) && NoPutMissedKey(s) && m < |s.msgs| && s.msgs[m].status.Done? && Chosen(s, m)
    requires StoreOk(before) && Apply(before, OpOf(s, m)).1 == s.msgs[m].status.reply
    ensures var x := Entry(s, s.msgs[m].call);
            var (ok, next) := KvModel.Step(Abs(before, x.input.key), x.input, x.output);
            ok && next == Abs(Apply(before, x.input).0, x.input.key)
  {
    var o := s.msgs[m].call;
    assert OutcomeOk(s, o);
    if TookEffect(s, m) && s.calls[o].outcome.Returned? {
      var via := s.calls[o].outcome.via;
      assert ReplyOk(s.store, OpOf(s, via), s.msgs[via].status.reply);
    }
  }

  lemma {:induction false} StoreAtOk(ops: seq<Op>, n: nat)
    requires n <= |ops|
    ensures StoreOk(StoreAt(map[], ops, n))
  {
    if n > 0 {
      StoreAtOk(ops, n - 1);
      assert ops[..n][..n - 1] == ops[..n - 1];
    }
  }

  /** The n-th execution, in the stores around it. */
  lemma ExecutionAt(s: Sys, n: nat)
    requires LogExplains(map[], s) && n < |s.log|
    ensures StoreOk(StoreAt(map[], OpsDone(s), n))
    ensures Apply(StoreAt(map[], OpsDone(s), n), OpOf(s, s.log[n]))
         == (StoreAt(map[], OpsDone(s), n + 1), s.msgs[s.log[n]].status.reply)
  {
    StoreAtOk(OpsDone(s), n);
    ReplyAt(map[], OpsDone(s), n);
  }

  ghost predicate Explained(m: map<string, KvState>, store: Store) {
    forall k :: StateOf(m, k) == Abs(store, k)
  }

  lemma LinLegal(s: Sys, n: nat)
    requires Consistent(s) && NoPutMissedKey(s) && LogExplains(map[], s) && n <= |s.log|
    ensures LegalUpTo(s, n)
  {
    NoneLegal(s);
    forall i | 0 <= i < |s.log| ensures LegalStep(s, i) {
      if LegalUpTo(s, i) {
        LegalNext(s, i);
      }
    }
    LegalClimb(s, n);
  }

  ghost predicate LegalStep(s: Sys, n: nat)
    requires LogIn(s) && n < |s.log|
  {
    LegalUpTo(s, n) ==> LegalUpTo(s, n + 1)
  }

  lemma {:induction false} LegalClimb(s: Sys, n: nat)
    requires LogIn(s) && n <= |s.log| && LegalUpTo(s, 0) && forall i | 0 <= i < |s.log| :: LegalStep(s, i)
    ensures LegalUpTo(s, n)
  {
    if n > 0 {
      LegalClimb(s, n - 1);
      assert LegalStep(s, n - 1);
    }
  }

  lemma NoneLegal(s: Sys)
    requires LogIn(s)
    ensures LegalUpTo(s, 0)
  {
  }

  ghost predicate LegalUpTo(s: Sys, n: nat)
    requires LogIn(s) && n <= |s.log|
  {
    MapLegal(map[], Lin(s, n)) && Explained(RunMap(map[], Lin(s, n)), StoreAt(map[], OpsDone(s), n))
  }

  lemma LegalNext(s: Sys, n: nat)
    requires Consistent(s) && NoPutMissedKey(s) && LogExplains(map[], s) && n < |s.log| && LegalUpTo(s, n)
    ensures LegalUpTo(s, n + 1)
  {
    ExecutionAt(s, n);
    ExtendLegal(s, s.log[n], Lin(s, n), StoreAt(map[], OpsDone(s), n));
  }

  lemma ExtendLegal(s: Sys, m: nat, a: seq<Operation>, before: Store)
    requires Consistent(s) && NoPutMissedKey(s) && m < |s.msgs| && s.msgs[m].status.Done?
    requires MapLegal(map[], a) && Explained(RunMap(map[], a), before) && StoreOk(before)
    requires Apply(before, OpOf(s, m)).1 == s.msgs[m].status.reply
    ensures var b := a + (if Chosen(s, m) then [Entry(s, s.msgs[m].call)] else []);
            MapLegal(map[], b) && Explained(RunMap(map[], b), Apply(before, OpOf(s, m)).0)
  {
    ApplyEffect(before, OpOf(s, m));
    if Chosen(s, m) {
      ChosenIsLegal(s, m, before);
      LegalAppend(map[], a, Entry(s, s.msgs[m].call));
      forall k ensures StateOf(RunMap(map[], a + [Entry(s, s.msgs[m].call)]), k) == Abs(Apply(before, OpOf(s, m)).0, k) {
        assert StateOf(RunMap(map[], a), k) == Abs(before, k);
      }
    } else {
      assert a + [] == a;
    }
  }

  // ----- Histories

  /** h lists every returned call once, with its answer and times, and possibly some calls still
      running, completed with some answer no earlier than now. */
  ghost predicate Completes(s: Sys, h: seq<Operation>) {
    exists ids: seq<nat> :: CompletesAs(s, h, ids)
  }

  ghost predicate CompletesAs(s: Sys, h: seq<Operation>, ids: seq<nat>) {
    && |ids| == |h|
    && (forall i, j | 0 <= i < j < |ids| :: ids[i] != ids[j])
    && (forall i | 0 <= i < |ids| :: ids[i] < |s.calls| && Records(s, h[i], s.calls[ids[i]]))
    && (forall o | 0 <= o < |s.calls| && s.calls[o].outcome.Returned? :: o in ids)
  }

  ghost predicate Records(s: Sys, x: Operation, call: Call) {
    && x.client == call.client && x.input == call.op && x.call == call.start
    && (if call.outcome.Returned? then x.output == call.outcome.reply && x.ret == call.outcome.at else x.ret >= s.now)
  }

  /** Some completion of the calls made so far has a legal order that respects real time. */
  ghost predicate LinearizableSoFar(s: Sys) {
    exists h :: Completes(s, h) && Timed(h) && Linearizable(h)
  }

  lemma StateLinearizable(s: Sys)
    requires Consistent(s) && LogExplains(map[], s) && NoLateWrites(s) && NoPutMissedKey(s)
    ensures LinearizableSoFar(s)
  {
    LinCompletes(s);
    LinRealTime(s, |s.log|);
    LinLegal(s, |s.log|);
    OwnOrder(Lin(s, |s.log|));
    assert Completes(s, Lin(s, |s.log|));
  }

  lemma OwnOrder(h: seq<Operation>)
    requires RealTime(h) && MapLegal(map[], h)
    ensures Linearizable(h)
  {
  }

  lemma LinCompletes(s: Sys)
    requires Consistent(s) && LogIn(s)
    ensures CompletesAs(s, Lin(s, |s.log|), LinIds(s, |s.log|))
  {
    var n := |s.log|;
    LinMatchesIds(s, n);
    PlacedOnce(s, n);
    forall o | 0 <= o < |s.calls| && s.calls[o].outcome.Returned? ensures o in LinIds(s, n) {
      ReturnedIsPlaced(s, o);
    }
  }

  ghost predicate AllSettled(s: Sys)
    requires MsgsOk(s)
  {
    forall o | 0 <= o < |s.calls| :: Settled(s, o)
  }

  lemma StepAllSettled(s: Sys, step: Step)
    requires Consistent(s) && Enabled(s, step) && AllSettled(s) && NoLateWrites(s)
    requires step.Invoke? && step.op.Put? ==> step.op.version <= VersionOf(s.store, step.op.key)
    ensures MsgsOk(Do(s, step)) && AllSettled(Do(s, step)) && NoLateWrites(Do(s, step))
  {
    var s' := Do(s, step);
    StepMsgs(s, step);
    StepKeeps(s, step);
    forall o | 0 <= o < |s'.calls| ensures Settled(s', o) {
      if o < |s.calls| {
        StepSettled(s, step, o);
      }
    }
    forall m | 0 <= m < |s'.msgs| && TookEffect(s', m) && s'.calls[s'.msgs[m].call].outcome.Returned?
      ensures s'.msgs[m].status.at < s'.calls[s'.msgs[m].call].outcome.at
    {
      if step == Execute(m) {
        SettledPut(s, s.msgs[m].call);
      } else {
        assert TookEffect(s, m);
      }
    }
  }

  lemma {:induction false} RunAllSettled(s: Sys, steps: seq<Step>)
    requires Consistent(s) && Valid(s, steps) && VersionsReached(s, steps) && AllSettled(s) && NoLateWrites(s)
    ensures Consistent(After(s, steps)) && AllSettled(After(s, steps)) && NoLateWrites(After(s, steps))
    decreases |steps|
  {
    if steps != [] {
      StepConsistent(s, steps[0]);
      StepAllSettled(s, steps[0]);
      RunAllSettled(Do(s, steps[0]), steps[1..]);
    }
  }

  lemma SettledMissesNoKey(s: Sys)
    requires Consistent(s) && AllSettled(s)
    ensures NoPutMissedKey(s)
  {
    forall o | 0 <= o < |s.calls| && s.calls[o].op.Put? && s.calls[o].outcome.Returned?
      ensures s.calls[o].outcome.reply != Status(ErrNoKey)
    {
      SettledPut(s, o);
    }
  }

  /** From an empty server, whatever the network does, and however late abandoned copies execute: if
      callers name only versions a key has reached, the history is linearizable. */
  lemma LinearizableWhenVersionsReached(s0: Sys, steps: seq<Step>)
    requires Init(s0) && s0.store == map[] && Valid(s0, steps) && VersionsReached(s0, steps)
    ensures LinearizableSoFar(After(s0, steps))
  {
    InitConsistent(s0);
    InitLog(s0);
    RunAllSettled(s0, steps);
    RunLog(map[], s0, steps);
    SettledMissesNoKey(After(s0, steps));
    StateLinearizable(After(s0, steps));
  }

  // ----- Networks that never abandon a call

  /** Every copy that may still execute is the one its client is waiting for. */
  ghost predicate NoOrphans(s: Sys)
    requires MsgsOk(s)
  {
    forall m | 0 <= m < |s.msgs| && s.msgs[m].status.Sent? ::
      var c := s.calls[s.msgs[m].call].client;
      c in s.clients && s.clients[c].Waiting? && s.clients[c].rpc == m && s.clients[c].call == s.msgs[m].call
  }

  /** No step gives up on a copy that may still execute. */
  predicate NeverAbandons(steps: seq<Step>) {
    steps == [] || (!steps[0].Abandon? && NeverAbandons(steps[1..]))
  }

  lemma StepNoOrphans(s: Sys, step: Step)
    requires Consistent(s) && Enabled(s, step) && !step.Abandon? && NoOrphans(s) && NoLateWrites(s)
    ensures MsgsOk(Do(s, step)) && NoOrphans(Do(s, step)) && NoLateWrites(Do(s, step))
  {
    StepMsgs(s, step);
    StepAwaited(s, step);
    StepInTime(s, step);
  }

  lemma StepAwaited(s: Sys, step: Step)
    requires Consistent(s) && Enabled(s, step) && !step.Abandon? && NoOrphans(s) && MsgsOk(Do(s, step))
    ensures NoOrphans(Do(s, step))
  {
    var s' := Do(s, step);
    forall m | 0 <= m < |s'.msgs| && s'.msgs[m].status.Sent?
      ensures var c := s'.calls[s'.msgs[m].call].client;
              c in s'.clients && s'.clients[c].Waiting? && s'.clients[c].rpc == m && s'.clients[c].call == s'.msgs[m].call
    {
      if step.Send? {
        assert PhaseOk(s, step.c);
      }
    }
  }

  lemma StepInTime(s: Sys, step: Step)
    requires Consistent(s) && Enabled(s, step) && NoOrphans(s) && NoLateWrites(s) && MsgsOk(Do(s, step))
    ensures NoLateWrites(Do(s, step))
  {
    var s' := Do(s, step);
    StepKeeps(s, step);
    forall m | 0 <= m < |s'.msgs| && TookEffect(s', m) && s'.calls[s'.msgs[m].call].outcome.Returned?
      ensures s'.msgs[m].status.at < s'.calls[s'.msgs[m].call].outcome.at
    {
      if step != Execute(m) {
        assert TookEffect(s, m);
      }
    }
  }

  lemma InitNoOrphans(s: Sys)
    requires Init(s)
    ensures Consistent(s) && NoOrphans(s) && NoLateWrites(s)
  {
    InitConsistent(s);
  }

  lemma {:induction false} RunNoOrphans(s: Sys, steps: seq<Step>)
    requires Consistent(s) && Valid(s, steps) && NoOrphans(s) && NoLateWrites(s)
    requires NeverAbandons(steps)
    ensures Consistent(After(s, steps)) && NoLateWrites(After(s, steps))
    decreases |steps|
  {
    if steps != [] {
      StepConsistent(s, steps[0]);
      StepNoOrphans(s, steps[0]);
      RunNoOrphans(Do(s, steps[0]), steps[1..]);
    }
  }

  lemma {:induction false} LegalNeverMissesKey(m: map<string, KvState>, ops: seq<Operation>)
    requires MapLegal(m, ops)
    ensures forall x | x in ops && x.input.Put? :: x.output != Status(ErrNoKey)
    decreases |ops|
  {
    if ops != [] {
      var k := ops[0].input.key;
      LegalNeverMissesKey(m[k := KvModel.Step(StateOf(m, k), ops[0].input, ops[0].output).1], ops[1..]);
    }
  }

  /** The specification has no room for a Put that is told the key is missing. */
  lemma MissedKeyIsIllegal(s: Sys, h: seq<Operation>)
    requires Completes(s, h) && Linearizable(h)
    ensures NoPutMissedKey(s)
  {
    var ids: seq<nat> :| CompletesAs(s, h, ids);
    var lin :| multiset(lin) == multiset(h) && RealTime(lin) && MapLegal(map[], lin);
    LegalNeverMissesKey(map[], lin);
    forall o | 0 <= o < |s.calls| && s.calls[o].op.Put? && s.calls[o].outcome.Returned?
      ensures s.calls[o].outcome.reply != Status(ErrNoKey)
    {
      var i :| 0 <= i < |ids| && ids[i] == o;
      assert Records(s, h[i], s.calls[o]);
      assert h[i] in multiset(h);
      assert h[i] in multiset(lin);
    }
  }

  /** From an empty server, for any callers, when every failed call either had executed or never will:
      the history is linearizable exactly if no Put was told that the key is missing. */
  lemma LinearizableWithoutAbandons(s0: Sys, steps: seq<Step>)
    requires Init(s0) && s0.store == map[] && Valid(s0, steps) && NeverAbandons(steps)
    ensures LinearizableSoFar(After(s0, steps)) <==> NoPutMissedKey(After(s0, steps))
  {
    UnabandonedRun(s0, steps);
    LinearizableExactly(After(s0, steps));
  }

  lemma UnabandonedRun(s0: Sys, steps: seq<Step>)
    requires Init(s0) && s0.store == map[] && Valid(s0, steps) && NeverAbandons(steps)
    ensures Traceable(After(s0, steps))
  {
    InitNoOrphans(s0);
    InitLog(s0);
    RunNoOrphans(s0, steps);
    RunLog(map[], s0, steps);
  }

  ghost predicate Traceable(s: Sys) {
    Consistent(s) && LogExplains(map[], s) && NoLateWrites(s)
  }

  lemma LinearizableExactly(s: Sys)
    requires Traceable(s)
    ensures LinearizableSoFar(s) <==> NoPutMissedKey(s)
  {
    if NoPutMissedKey(s) {
      StateLinearizable(s);
    }
    if LinearizableSoFar(s) {
      var h :| Completes(s, h) && Timed(h) && Linearizable(h);
      MissedKeyIsIllegal(s, h);
    }
  }

  // ----- When every call has returned: what the test harness checks

  ghost predicate Quiet(s: Sys) {
    forall o | 0 <= o < |s.calls| :: s.calls[o].outcome.Returned?
  }

  /** The operation log, one entry per call. */
  function History(s: Sys): seq<Operation> {
    seq(|s.calls|, o requires 0 <= o < |s.calls| => Entry(s, o))
  }

  lemma {:induction false} Reordered(hist: seq<Operation>, ids: seq<nat>, lin: seq<Operation>)
    requires |lin| == |ids|
    requires forall i, j | 0 <= i < j < |ids| :: ids[i] != ids[j]
    requires forall i | 0 <= i < |ids| :: ids[i] < |hist| && lin[i] == hist[ids[i]]
    requires forall o | 0 <= o < |hist| :: o in ids
    ensures multiset(lin) == multiset(hist)
    decreases |hist|
  {
    if ids == [] {
      assert |hist| > 0 ==> 0 in ids;
    } else {
      assert ids[0] < |hist|;
      var n := |hist| - 1;
      assert n in ids;
      var p :| 0 <= p < |ids| && ids[p] == n;
      DropOne(hist, ids, lin, p);
      Reordered(hist[..n], ids[..p] + ids[p + 1..], lin[..p] + lin[p + 1..]);
      PutBack(hist, lin, p);
    }
  }

  lemma PutBack(hist: seq<Operation>, lin: seq<Operation>, p: nat)
    requires hist != [] && p < |lin| && lin[p] == hist[|hist| - 1]
    requires multiset(lin[..p] + lin[p + 1..]) == multiset(hist[..|hist| - 1])
    ensures multiset(lin) == multiset(hist)
  {
    assert lin == lin[..p] + [lin[p]] + lin[p + 1..];
    assert hist == hist[..|hist| - 1] + [hist[|hist| - 1]];
  }

  lemma DropOne(hist: seq<Operation>, ids: seq<nat>, lin: seq<Operation>, p: nat)
    requires |lin| == |ids| && hist != [] && p < |ids| && ids[p] == |hist| - 1
    requires forall i, j | 0 <= i < j < |ids| :: ids[i] != ids[j]
    requires forall i | 0 <= i < |ids| :: ids[i] < |hist| && lin[i] == hist[ids[i]]
    requires forall o | 0 <= o < |hist| :: o in ids
    ensures var ids', lin', hist' := ids[..p] + ids[p + 1..], lin[..p] + lin[p + 1..], hist[..|hist| - 1];
            && (forall i, j | 0 <= i < j < |ids'| :: ids'[i] != ids'[j])
            && (forall i | 0 <= i < |ids'| :: ids'[i] < |hist'| && lin'[i] == hist'[ids'[i]])
            && (forall o | 0 <= o < |hist'| :: o in ids')
  {
    var ids' := ids[..p] + ids[p + 1..];
    forall o | 0 <= o < |hist| - 1 ensures o in ids' {
      assert o in ids;
      var q :| 0 <= q < |ids| && ids[q] == o;
      assert o == ids'[if q < p then q else q - 1];
    }
  }

  lemma CompleteMeansAll(s: Sys, h: seq<Operation>)
    requires Quiet(s) && Completes(s, h)
    ensures multiset(h) == multiset(History(s))
  {
    var ids: seq<nat> :| CompletesAs(s, h, ids);
    CompletedAs(s, h, ids);
    Reordered(History(s), ids, h);
  }

  lemma CompletedAs(s: Sys, h: seq<Operation>, ids: seq<nat>)
    requires Quiet(s) && CompletesAs(s, h, ids)
    ensures |h| == |ids| && forall i | 0 <= i < |ids| :: ids[i] < |History(s)| && h[i] == History(s)[ids[i]]
    ensures forall o | 0 <= o < |History(s)| :: o in ids
    ensures forall i, j | 0 <= i < j < |ids| :: ids[i] != ids[j]
  {
    forall i | 0 <= i < |ids| ensures h[i] == History(s)[ids[i]] {
      assert Records(s, h[i], s.calls[ids[i]]);
    }
  }

  lemma HistoryCompletes(s: Sys)
    requires Quiet(s)
    ensures Completes(s, History(s))
  {
    var ids: seq<nat> := seq(|s.calls|, o requires 0 <= o < |s.calls| => o);
    forall o | 0 <= o < |s.calls| ensures o in ids {
      assert ids[o] == o;
    }
    assert CompletesAs(s, History(s), ids);
  }

  lemma HistoryTimed(s: Sys)
    requires Consistent(s) && Quiet(s)
    ensures Timed(History(s))
  {
    forall o | 0 <= o < |s.calls| ensures History(s)[o].call <= History(s)[o].ret {
      assert OutcomeOk(s, o) && ReturnTimeOk(s, o);
    }
  }

  /** The check of each key's list of the recorded history passes. */
  ghost predicate CheckPasses(s: Sys) {
    forall k | k in Keys(History(s)) :: KeyLinearizable(ForKey(History(s), k))
  }

  ghost predicate CheckIsExact(s: Sys) {
    CheckPasses(s) <==> LinearizableSoFar(s)
  }

  /** Once every call has returned, the test harness's check passes exactly if the history is linearizable. */
  lemma HarnessAccepts(s: Sys)
    requires Consistent(s) && Quiet(s)
    ensures CheckIsExact(s)
  {
    HistoryCompletes(s);
    HistoryTimed(s);
    CheckByKey(History(s));
    if LinearizableSoFar(s) {
      var h :| Completes(s, h) && Timed(h) && Linearizable(h);
      CompleteMeansAll(s, h);
      SameOrders(h, History(s));
    }
  }

  lemma SameOrders(a: seq<Operation>, b: seq<Operation>)
    requires multiset(a) == multiset(b) && Linearizable(a)
    ensures Linearizable(b)
  {
    var lin :| multiset(lin) == multiset(a) && RealTime(lin) && MapLegal(map[], lin);
  }

  lemma RunAccepts(s0: Sys, steps: seq<Step>)
    requires Init(s0) && Valid(s0, steps) && Quiet(After(s0, steps))
    ensures CheckIsExact(After(s0, steps))
  {
    InitConsistent(s0);
    RunConsistent(s0, steps);
    HarnessAccepts(After(s0, steps));
  }

  /** So it passes after every run of callers that name versions reached, whatever the network does. */
  lemma HarnessPasses(s0: Sys, steps: seq<Step>)
    requires Init(s0) && s0.store == map[] && Valid(s0, steps) && VersionsReached(s0, steps) && Quiet(After(s0, steps))
    ensures CheckPasses(After(s0, steps))
  {
    RunAccepts(s0, steps);
    LinearizableWhenVersionsReached(s0, steps);
  }

  /** After a run of any callers without abandoned copies it passes exactly if no Put was told that the key is
      missing. */
  lemma HarnessPassesPlainly(s0: Sys, steps: seq<Step>)
    requires Init(s0) && s0.store == map[] && Valid(s0, steps) && NeverAbandons(steps) && Quiet(After(s0, steps))
    ensures CheckPasses(After(s0, steps)) <==> NoPutMissedKey(After(s0, steps))
  {
    RunAccepts(s0, steps);
    LinearizableWithoutAbandons(s0, steps);
  }
}
