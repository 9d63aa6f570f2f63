/** Runs that callers can provoke, built step by step, and with them exactly when a Put can write the store
    after its caller was told otherwise. */
module LateWrites {
  import opened KvServer
  import opened Clerk

  // ----- Putting runs together

  /** Some run of callers who name only versions reached leads from s to t. */
  ghost predicate Reaches(s: Sys, t: Sys) {
    exists steps :: Valid(s, steps) && VersionsReached(s, steps) && After(s, steps) == t
  }

  lemma {:induction false} RunConcat(s: Sys, a: seq<Step>, b: seq<Step>)
    requires Valid(s, a) && VersionsReached(s, a) && Valid(After(s, a), b) && VersionsReached(After(s, a), b)
    ensures Valid(s, a + b) && VersionsReached(s, a + b) && After(s, a + b) == After(After(s, a), b)
    decreases |a|
  {
    if a == [] {
      assert a + b == b;
    } else {
      RunConcat(Do(s, a[0]), a[1..], b);
      assert (a + b)[0] == a[0] && (a + b)[1..] == a[1..] + b;
    }
  }

  lemma ReachesTransitive(s: Sys, t: Sys, u: Sys)
    requires Reaches(s, t) && Reaches(t, u)
    ensures Reaches(s, u)
  {
    var a :| Valid(s, a) && VersionsReached(s, a) && After(s, a) == t;
    var b :| Valid(t, b) && VersionsReached(t, b) && After(t, b) == u;
    RunConcat(s, a, b);
  }

  lemma ReachesItself(s: Sys)
    ensures Reaches(s, s)
  {
    assert Valid(s, []) && VersionsReached(s, []) && After(s, []) == s;
  }

  lemma ReachesStep(s: Sys, step: Step)
    requires Enabled(s, step)
    requires step.Invoke? && step.op.Put? ==> step.op.version <= VersionOf(s.store, step.op.key)
    ensures Reaches(s, Do(s, step))
  {
    var s' := Do(s, step);
    assert Valid(s', []) && VersionsReached(s', []) && After(s', []) == s';
    assert [step][1..] == [];
    assert Valid(s, [step]) && VersionsReached(s, [step]) && After(s, [step]) == s';
  }

  lemma ReachesTwo(s: Sys, a: Step, b: Step)
    requires Enabled(s, a) && !a.Invoke? && Enabled(Do(s, a), b) && !b.Invoke?
    ensures Reaches(s, Do(Do(s, a), b))
  {
    ReachesStep(s, a);
    ReachesStep(Do(s, a), b);
    ReachesTransitive(s, Do(s, a), Do(Do(s, a), b));
  }

  lemma ReachesThree(s: Sys, a: Step, b: Step, c: Step)
    requires Enabled(s, a) && !a.Invoke? && Enabled(Do(s, a), b) && !b.Invoke?
    requires Enabled(Do(Do(s, a), b), c) && !c.Invoke?
    ensures Reaches(s, Do(Do(Do(s, a), b), c))
  {
    ReachesTwo(s, a, b);
    ReachesStep(Do(Do(s, a), b), c);
    ReachesTransitive(s, Do(Do(s, a), b), Do(Do(Do(s, a), b), c));
  }

  predicate IdleIn(s: Sys, c: Client) {
    c in s.clients && s.clients[c].Idle?
  }

  /** A whole call by an idle client, with no losses. */
  function WholeCall(s: Sys, c: Client, op: Op): Sys {
    var (store, reply) := Apply(s.store, op);
    Sys(s.now + 4, store,
        s.calls + [Call(c, op, s.now, Returned(reply, s.now + 3, |s.msgs|))],
        s.msgs + [Message(|s.calls|, Done(reply, s.now + 2))],
        s.clients[c := Idle],
        s.log + [|s.msgs|])
  }

  /** The call has been made and its only copy is on its way. */
  function InFlight(s: Sys, c: Client, op: Op): Sys {
    Sys(s.now + 2, s.store,
        s.calls + [Call(c, op, s.now, Pending)],
        s.msgs + [Message(|s.calls|, Sent)],
        s.clients[c := Waiting(|s.calls|, 1, |s.msgs|)],
        s.log)
  }

  lemma SendsOff(s: Sys, c: Client, op: Op)
    requires IdleIn(s, c)
    ensures Enabled(s, Invoke(c, op)) && Enabled(Do(s, Invoke(c, op)), Send(c))
    ensures Do(Do(s, Invoke(c, op)), Send(c)) == InFlight(s, c, op)
  {
  }

  lemma ComesBack(s: Sys, c: Client, op: Op)
    requires IdleIn(s, c)
    ensures Enabled(InFlight(s, c, op), Execute(|s.msgs|))
    ensures var e := Do(InFlight(s, c, op), Execute(|s.msgs|));
            Enabled(e, Deliver(c)) && ResultFor(e, c) == Apply(s.store, op).1 && Do(e, Deliver(c)) == WholeCall(s, c, op)
  {
  }

  lemma FinishesCall(s: Sys, c: Client, op: Op)
    requires IdleIn(s, c)
    ensures Reaches(Do(s, Invoke(c, op)), WholeCall(s, c, op))
  {
    var s1 := Do(s, Invoke(c, op));
    ReachesThree(s1, Send(c), Execute(|s.msgs|), Deliver(c));
    assert Do(Do(Do(s1, Send(c)), Execute(|s.msgs|)), Deliver(c)) == WholeCall(s, c, op);
  }

  lemma MakesCall(s: Sys, c: Client, op: Op)
    requires IdleIn(s, c) && (op.Put? ==> op.version <= VersionOf(s.store, op.key))
    ensures Reaches(s, WholeCall(s, c, op))
  {
    ReachesStep(s, Invoke(c, op));
    FinishesCall(s, c, op);
    ReachesTransitive(s, Do(s, Invoke(c, op)), WholeCall(s, c, op));
  }

  /** Client c puts to key k until its version is v. */
  function Climb(s: Sys, c: Client, k: string, v: nat): Sys
    decreases v - VersionOf(s.store, k)
  {
    if VersionOf(s.store, k) >= v then s
    else Climb(WholeCall(s, c, Put(k, "", VersionOf(s.store, k))), c, k, v)
  }

  /** t came from s by complete calls of c: what was there is still there, and the new calls are
      acknowledged Puts to k of versions below v. */
  predicate Climbed(s: Sys, t: Sys, c: Client, k: string, v: nat) {
    && s.calls <= t.calls && s.msgs <= t.msgs && s.now <= t.now && IdleIn(t, c)
    && t.clients == s.clients[c := Idle]
    && (forall o | |s.calls| <= o < |t.calls| ::
          && t.calls[o].op.Put? && t.calls[o].op.key == k && t.calls[o].op.version < v
          && t.calls[o].outcome.Returned? && t.calls[o].outcome.reply == Status(OK))
  }

  lemma {:induction false} ClimbReaches(s: Sys, c: Client, k: string, v: nat)
    requires IdleIn(s, c) && VersionOf(s.store, k) <= v
    ensures Reaches(s, Climb(s, c, k, v))
    ensures Climbed(s, Climb(s, c, k, v), c, k, v) && VersionOf(Climb(s, c, k, v).store, k) == v
    decreases v - VersionOf(s.store, k)
  {
    if VersionOf(s.store, k) == v {
      ReachesItself(s);
    } else {
      var s1 := WholeCall(s, c, Put(k, "", VersionOf(s.store, k)));
      MakesCall(s, c, Put(k, "", VersionOf(s.store, k)));
      ClimbReaches(s1, c, k, v);
      ReachesTransitive(s, s1, Climb(s, c, k, v));
    }
  }

  /** A Put whose first copy is abandoned, and still under way, and whose second is refused. */
  function Refused(s: Sys, c: Client, put: Op): Sys {
    var reply := Apply(s.store, put).1;
    Sys(s.now + 6, s.store,
        s.calls + [Call(c, put, s.now, Returned(ClerkResult(reply, 2), s.now + 5, |s.msgs| + 1))],
        s.msgs + [Message(|s.calls|, Sent), Message(|s.calls|, Done(reply, s.now + 4))],
        s.clients[c := Idle],
        s.log + [|s.msgs| + 1])
  }

  /** The same before the second copy's reply is delivered. */
  function Answered(s: Sys, c: Client, put: Op): Sys {
    var reply := Apply(s.store, put).1;
    Sys(s.now + 5, s.store,
        s.calls + [Call(c, put, s.now, Pending)],
        s.msgs + [Message(|s.calls|, Sent), Message(|s.calls|, Done(reply, s.now + 4))],
        s.clients[c := Waiting(|s.calls|, 2, |s.msgs| + 1)],
        s.log + [|s.msgs| + 1])
  }

  lemma GetsAnswer(s: Sys, c: Client, put: Op)
    requires IdleIn(s, c) && put.Put? && put.version != VersionOf(s.store, put.key)
    ensures Reaches(Do(s, Invoke(c, put)), Answered(s, c, put))
  {
    var s1 := Do(s, Invoke(c, put));
    ReachesTwo(s1, Send(c), Abandon(c));
    var s3 := Do(Do(s1, Send(c)), Abandon(c));
    ReachesTwo(s3, Send(c), Execute(|s.msgs| + 1));
    var s5 := Do(Do(s3, Send(c)), Execute(|s.msgs| + 1));
    assert s5.msgs == Answered(s, c, put).msgs;
    assert s5 == Answered(s, c, put);
    ReachesTransitive(s1, s3, s5);
  }

  lemma IsRefused(s: Sys, c: Client, put: Op)
    requires IdleIn(s, c) && put.Put? && put.version != VersionOf(s.store, put.key)
    ensures Reaches(Do(s, Invoke(c, put)), Refused(s, c, put))
  {
    GetsAnswer(s, c, put);
    ReachesStep(Answered(s, c, put), Deliver(c));
    assert Do(Answered(s, c, put), Deliver(c)) == Refused(s, c, put);
    ReachesTransitive(Do(s, Invoke(c, put)), Answered(s, c, put), Refused(s, c, put));
  }

  /** The refused Put's key is brought up to the version it named. Its abandoned copy can now write. */
  lemma ReadyToWrite(s: Sys, c: Client, put: Op)
    requires IdleIn(s, c) && put.Put? && put.version > VersionOf(s.store, put.key)
    ensures var t := Climb(Refused(s, c, put), c, put.key, put.version);
            && Reaches(Do(s, Invoke(c, put)), t)
            && Refused(s, c, put).calls <= t.calls
            && LateWrite(t, |s.calls|, |s.msgs|)
  {
    var r := Refused(s, c, put);
    var t := Climb(r, c, put.key, put.version);
    IsRefused(s, c, put);
    ClimbReaches(r, c, put.key, put.version);
    ReachesTransitive(Do(s, Invoke(c, put)), r, t);
    assert t.msgs[|s.msgs|] == r.msgs[|s.msgs|] && t.calls[|s.calls|] == r.calls[|s.calls|];
  }

  // ----- Exactly when a Put can write after it has returned

  predicate LateWrite(s: Sys, o: nat, m: nat) {
    && Enabled(s, Execute(m)) && s.msgs[m].call == o && s.calls[o].outcome.Returned?
    && s.calls[o].op.Put? && Apply(s.store, s.calls[o].op).1 == Status(OK)
  }

  /** From s there is a run after which call o has returned and some copy of it then executes and
      writes the store. */
  ghost predicate CanWriteAfterReturn(s: Sys, o: nat) {
    exists steps, m :: Valid(s, steps) && LateWrite(After(s, steps), o, m)
  }

  /** A Put started now can write the store after it has returned exactly when it names a version
      the key has not reached yet. */
  lemma LateWriteExactly(s: Sys, c: Client, put: Op)
    requires Consistent(s) && IdleIn(s, c) && put.Put?
    ensures CanWriteAfterReturn(Do(s, Invoke(c, put)), |s.calls|) <==> put.version > VersionOf(s.store, put.key)
  {
    var s1 := Do(s, Invoke(c, put));
    var o := |s.calls|;
    StepConsistent(s, Invoke(c, put));
    if put.version > VersionOf(s.store, put.key) {
      ReadyToWrite(s, c, put);
    } else if CanWriteAfterReturn(s1, o) {
      var steps, m :| Valid(s1, steps) && LateWrite(After(s1, steps), o, m);
      RunSettled(s1, steps, o);
      SettledPut(After(s1, steps), o);
      assert false;
    }
  }

  // ----- Exactly when a Put can be told that the key is missing, and write

  /** Call o names version 0 or a key that is there, and no copy of it was told otherwise. */
  predicate Known(s: Sys, o: nat)
    requires MsgsOk(s) && o < |s.calls|
  {
    s.calls[o].op.Put? ==>
      && (s.calls[o].op.version == 0 || s.calls[o].op.key in s.store)
      && forall m | 0 <= m < |s.msgs| && s.msgs[m].call == o && s.msgs[m].status.Done? ::
           s.msgs[m].status.reply != Status(ErrNoKey)
  }

  lemma StepKnown(s: Sys, step: Step, o: nat)
    requires Consistent(s) && Enabled(s, step) && o < |s.calls| && Known(s, o)
    ensures MsgsOk(Do(s, step)) && Known(Do(s, step), o)
  {
    StepMsgs(s, step);
    StepKeeps(s, step);
  }

  lemma {:induction false} RunKnown(s: Sys, steps: seq<Step>, o: nat)
    requires Consistent(s) && Valid(s, steps) && o < |s.calls| && Known(s, o)
    ensures Consistent(After(s, steps)) && o < |After(s, steps).calls| && Known(After(s, steps), o)
    ensures After(s, steps).calls[o].op == s.calls[o].op
    decreases |steps|
  {
    if steps != [] {
      StepConsistent(s, steps[0]);
      StepKnown(s, steps[0], o);
      StepKeeps(s, steps[0]);
      RunKnown(Do(s, steps[0]), steps[1..], o);
    }
  }

  predicate MissedKey(s: Sys, o: nat) {
    o < |s.calls| && s.calls[o].outcome.Returned? && s.calls[o].outcome.reply == Status(ErrNoKey)
  }

  lemma KnownNeverMisses(s: Sys, o: nat)
    requires Consistent(s) && o < |s.calls| && s.calls[o].op.Put? && Known(s, o)
    ensures !MissedKey(s, o)
  {
    assert OutcomeOk(s, o);
  }

  /** From s there is a run after which call o has returned ErrNoKey and some copy of it has written. */
  ghost predicate CanMissAndWrite(s: Sys, o: nat) {
    exists steps, m :: Valid(s, steps) && MissedAndWrote(After(s, steps), o, m)
  }

  predicate MissedAndWrote(s: Sys, o: nat, m: nat) {
    MissedKey(s, o) && m < |s.msgs| && s.msgs[m].call == o && TookEffect(s, m)
  }

  /** The copy wrote while its caller was still waiting. */
  predicate WroteBeforeMiss(s: Sys, o: nat, m: nat) {
    MissedAndWrote(s, o, m) && s.msgs[m].status.at < s.calls[o].outcome.at
  }

  ghost predicate CanWriteBeforeMiss(s: Sys, o: nat) {
    exists steps, m :: Valid(s, steps) && WroteBeforeMiss(After(s, steps), o, m)
  }

  /** A Put started now can return ErrNoKey and write the store exactly when it names a version other than 0
      of a key that is missing. */
  lemma MissedPutWritesExactly(s: Sys, c: Client, put: Op)
    requires Consistent(s) && IdleIn(s, c) && put.Put?
    ensures CanMissAndWrite(Do(s, Invoke(c, put)), |s.calls|) <==> put.version > 0 && put.key !in s.store
  {
    var s1 := Do(s, Invoke(c, put));
    var o := |s.calls|;
    StepConsistent(s, Invoke(c, put));
    if put.version > 0 && put.key !in s.store {
      ReadyToWrite(s, c, put);
      var t := Climb(Refused(s, c, put), c, put.key, put.version);
      ReachesStep(t, Execute(|s.msgs|));
      ReachesTransitive(s1, t, Do(t, Execute(|s.msgs|)));
      assert t.calls[o] == Refused(s, c, put).calls[o];
      assert MissedAndWrote(Do(t, Execute(|s.msgs|)), o, |s.msgs|);
    } else if CanMissAndWrite(s1, o) {
      var steps, m :| Valid(s1, steps) && MissedAndWrote(After(s1, steps), o, m);
      RunKnown(s1, steps, o);
      KnownNeverMisses(After(s1, steps), o);
      assert false;
    }
  }

  /** With another client d at hand, it can even write before it returns ErrNoKey: d carries the key up after
      the refused copy has executed, and the abandoned copy executes before the refusal is delivered. */
  lemma WritesBeforeMissExactly(s: Sys, c: Client, d: Client, put: Op)
    requires Consistent(s) && IdleIn(s, c) && IdleIn(s, d) && c != d && put.Put?
    ensures CanWriteBeforeMiss(Do(s, Invoke(c, put)), |s.calls|) <==> put.version > 0 && put.key !in s.store
  {
    var s1 := Do(s, Invoke(c, put));
    var o := |s.calls|;
    if put.version > 0 && put.key !in s.store {
      WritesBeforeMiss(s, c, d, put);
    } else if CanWriteBeforeMiss(s1, o) {
      var steps, m :| Valid(s1, steps) && WroteBeforeMiss(After(s1, steps), o, m);
      assert MissedAndWrote(After(s1, steps), o, m);
      MissedPutWritesExactly(s, c, put);
      assert false;
    }
  }

  lemma WritesBeforeMiss(s: Sys, c: Client, d: Client, put: Op)
    requires IdleIn(s, c) && IdleIn(s, d) && c != d && put.Put? && put.version > 0 && put.key !in s.store
    ensures CanWriteBeforeMiss(Do(s, Invoke(c, put)), |s.calls|)
  {
    var s1 := Do(s, Invoke(c, put));
    var a := Answered(s, c, put);
    var t := Climb(a, d, put.key, put.version);
    GetsAnswer(s, c, put);
    ClimbReaches(a, d, put.key, put.version);
    assert t.msgs[|s.msgs|] == a.msgs[|s.msgs|] && t.msgs[|s.msgs| + 1] == a.msgs[|s.msgs| + 1];
    assert t.calls[|s.calls|] == a.calls[|s.calls|] && t.clients[c] == a.clients[c];
    ReachesTwo(t, Execute(|s.msgs|), Deliver(c));
    var u := Do(Do(t, Execute(|s.msgs|)), Deliver(c));
    ReachesTransitive(s1, a, t);
    ReachesTransitive(s1, t, u);
    assert WroteBeforeMiss(u, |s.calls|, |s.msgs|);
  }
}
