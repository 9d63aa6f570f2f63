/** What callers must do for their histories to be linearizable, exactly. */
module Limits {
  import opened KvServer
  import opened Clerk
  import opened KvModel
  import opened LateWrites
  import opened Linearizability

  // ----- An order that skips a version is not legal

  /** To get from version q of a key to an acknowledged Put of a later one, some Put must name q. */
  lemma {:induction false} SomePutNames(st: KvState, ops: seq<Operation>, j: nat) returns (m: nat)
    requires KeyLegal(st, ops) && j < |ops|
    requires ops[j].input.Put? && ops[j].output == Status(OK) && ops[j].input.version > st.version
    ensures m < j && ops[m].input.Put? && ops[m].input.version == st.version
    decreases |ops|
  {
    if ops[0].input.Put? && ops[0].input.version == st.version {
      m := 0;
    } else {
      var m' := SomePutNames(KvModel.Step(st, ops[0].input, ops[0].output).1, ops[1..], j - 1);
      m := m' + 1;
    }
  }

  /** Between an acknowledged Put of version q - 1 and one of a version beyond q, some Put names q. */
  lemma {:induction false} SomePutBetween(st: KvState, ops: seq<Operation>, i: nat, j: nat, q: nat) returns (m: nat)
    requires KeyLegal(st, ops) && i < j < |ops|
    requires ops[i].input.Put? && ops[i].output == Status(OK) && ops[i].input.version + 1 == q
    requires ops[j].input.Put? && ops[j].output == Status(OK) && ops[j].input.version > q
    ensures i < m < j && ops[m].input.Put? && ops[m].input.version == q
    decreases i
  {
    var next := KvModel.Step(st, ops[0].input, ops[0].output).1;
    var m';
    if i == 0 {
      m' := SomePutNames(next, ops[1..], j - 1);
    } else {
      m' := SomePutBetween(next, ops[1..], i - 1, j - 1, q);
    }
    m := m' + 1;
  }

  /** Call o is the only Put to k that names q. It returned before call l, an acknowledged Put of q - 1, began;
      and l returned before call f, an acknowledged Put of a version beyond q. */
  predicate Skips(s: Sys, k: string, q: nat, o: nat, l: nat, f: nat) {
    && o < |s.calls| && l < |s.calls| && f < |s.calls|
    && s.calls[o].outcome.Returned? && s.calls[l].outcome.Returned? && s.calls[f].outcome.Returned?
    && (forall x | 0 <= x < |s.calls| && s.calls[x].op.Put? && s.calls[x].op.key == k && s.calls[x].op.version == q :: x == o)
    && s.calls[l].op.Put? && s.calls[l].op.key == k && s.calls[l].op.version + 1 == q
    && s.calls[f].op.Put? && s.calls[f].op.key == k && s.calls[f].op.version > q
    && s.calls[l].outcome.reply == Status(OK) && s.calls[f].outcome.reply == Status(OK)
    && s.calls[o].outcome.at < s.calls[l].start && s.calls[l].outcome.at < s.calls[f].start
  }

  /** A returned call has its place in every order of a completed history. */
  lemma PlaceOf(s: Sys, h: seq<Operation>, lin: seq<Operation>, o: nat) returns (i: nat)
    requires Completes(s, h) && multiset(lin) == multiset(h)
    requires o < |s.calls| && s.calls[o].outcome.Returned?
    ensures i < |ForKey(lin, s.calls[o].op.key)| && Records(s, ForKey(lin, s.calls[o].op.key)[i], s.calls[o])
  {
    var k := s.calls[o].op.key;
    var ids: seq<nat> :| CompletesAs(s, h, ids);
    var j :| 0 <= j < |ids| && ids[j] == o;
    assert h[j] in multiset(h);
    assert h[j] in multiset(lin);
    ForKeyIn(lin, k, h[j]);
    i :| 0 <= i < |ForKey(lin, k)| && ForKey(lin, k)[i] == h[j];
  }

  /** Every place in such an order belongs to some call. */
  lemma CallAt(s: Sys, h: seq<Operation>, lin: seq<Operation>, k: string, i: nat) returns (o: nat)
    requires Completes(s, h) && multiset(lin) == multiset(h) && i < |ForKey(lin, k)|
    ensures o < |s.calls| && s.calls[o].op.key == k && Records(s, ForKey(lin, k)[i], s.calls[o])
  {
    var x := ForKey(lin, k)[i];
    var ids: seq<nat> :| CompletesAs(s, h, ids);
    ForKeyIn(lin, k, x);
    assert x in multiset(lin);
    assert x in multiset(h);
    var j :| 0 <= j < |h| && h[j] == x;
    o := ids[j];
  }

  lemma SkipIsIllegal(s: Sys, k: string, q: nat, o: nat, l: nat, f: nat)
    requires Skips(s, k, q, o, l, f)
    ensures !LinearizableSoFar(s)
  {
    if LinearizableSoFar(s) {
      var h :| Completes(s, h) && Timed(h) && Linearizable(h);
      var lin :| multiset(lin) == multiset(h) && RealTime(lin) && MapLegal(map[], lin);
      LegalByKey(map[], lin);
      ForKeyRealTime(lin, k);
      NoPlaceForIt(s, h, lin, k, q, o, l, f);
      assert false;
    }
  }

  lemma NoPlaceForIt(s: Sys, h: seq<Operation>, lin: seq<Operation>, k: string, q: nat, o: nat, l: nat, f: nat)
    requires Skips(s, k, q, o, l, f) && Completes(s, h) && multiset(lin) == multiset(h)
    requires RealTime(ForKey(lin, k))
    ensures !KeyLegal(StateOf(map[], k), ForKey(lin, k))
  {
    var ops := ForKey(lin, k);
    var i := PlaceOf(s, h, lin, l);
    var j := PlaceOf(s, h, lin, f);
    assert ops[i].ret < ops[j].call;
    if KeyLegal(StateOf(map[], k), ops) {
      var m := SomePutBetween(StateOf(map[], k), ops, i, j, q);
      var x := CallAt(s, h, lin, k, m);
      assert false;
    }
  }

  // ----- Naming a version the key has not reached

  /** A continuation in which everybody else names only versions reached ends in a history without a legal
      order. */
  ghost predicate CanBreak(s: Sys) {
    exists rest :: Valid(s, rest) && VersionsReached(s, rest) && !LinearizableSoFar(After(s, rest))
  }

  lemma ReachingBreaks(s: Sys, t: Sys)
    requires Reaches(s, t) && !LinearizableSoFar(t)
    ensures CanBreak(s)
  {
  }

  /** The state of the run that skips a version: the Put is refused, its caller carries the key to the version
      it named, the abandoned copy writes, and the caller puts once more. */
  function Skipping(s: Sys, c: Client, put: Op): Sys
    requires put.Put? && put.version > 0
  {
    WholeCall(Written(s, c, put), c, Put(put.key, "", put.version + 1))
  }

  function Written(s: Sys, c: Client, put: Op): Sys
    requires put.Put? && put.version > 0
  {
    var b := Caught(s, c, put);
    b.(now := b.now + 1,
       store := Apply(b.store, put).0,
       msgs := if |s.msgs| < |b.msgs| then b.msgs[|s.msgs| := Message(|s.calls|, Done(Status(OK), b.now))] else b.msgs,
       log := b.log + [|s.msgs|])
  }

  function Caught(s: Sys, c: Client, put: Op): Sys
    requires put.Put? && put.version > 0
  {
    WholeCall(Below(s, c, put), c, Put(put.key, "", put.version - 1))
  }

  function Below(s: Sys, c: Client, put: Op): Sys
    requires put.Put? && put.version > 0
  {
    Climb(Refused(s, c, put), c, put.key, put.version - 1)
  }

  predicate Ahead(s: Sys, c: Client, put: Op) {
    IdleIn(s, c) && put.Put? && put.key in s.store && put.version > VersionOf(s.store, put.key)
  }

  lemma ReachesBelow(s: Sys, c: Client, put: Op)
    requires Ahead(s, c, put)
    ensures Reaches(Do(s, Invoke(c, put)), Below(s, c, put))
    ensures Climbed(Refused(s, c, put), Below(s, c, put), c, put.key, put.version - 1)
    ensures VersionOf(Below(s, c, put).store, put.key) == put.version - 1
  {
    IsRefused(s, c, put);
    ClimbReaches(Refused(s, c, put), c, put.key, put.version - 1);
    ReachesTransitive(Do(s, Invoke(c, put)), Refused(s, c, put), Below(s, c, put));
  }

  lemma ReachesSkipping(s: Sys, c: Client, put: Op)
    requires Ahead(s, c, put)
    ensures Reaches(Do(s, Invoke(c, put)), Skipping(s, c, put))
    ensures VersionOf(Written(s, c, put).store, put.key) == put.version + 1
  {
    var s1 := Do(s, Invoke(c, put));
    var r, a, b, w := Refused(s, c, put), Below(s, c, put), Caught(s, c, put), Written(s, c, put);
    ReachesBelow(s, c, put);
    MakesCall(a, c, Put(put.key, "", put.version - 1));
    assert b.msgs[|s.msgs|] == a.msgs[|s.msgs|] == r.msgs[|s.msgs|];
    assert b.calls[|s.calls|] == a.calls[|s.calls|] == r.calls[|s.calls|];
    assert Do(b, Execute(|s.msgs|)) == w;
    ReachesStep(b, Execute(|s.msgs|));
    MakesCall(w, c, Put(put.key, "", put.version + 1));
    ReachesTransitive(s1, a, b);
    ReachesTransitive(s1, b, w);
    ReachesTransitive(s1, w, Skipping(s, c, put));
  }

  /** No Put so far named version v of k. */
  predicate Unnamed(s: Sys, k: string, v: nat) {
    forall x | 0 <= x < |s.calls| && s.calls[x].op.Put? && s.calls[x].op.key == k :: s.calls[x].op.version != v
  }

  lemma SkippingSkips(s: Sys, c: Client, put: Op)
    requires Ahead(s, c, put) && Unnamed(s, put.key, put.version)
    ensures var t := Skipping(s, c, put);
            Skips(t, put.key, put.version, |s.calls|, |t.calls| - 2, |t.calls| - 1)
  {
    var r, a, t := Refused(s, c, put), Below(s, c, put), Skipping(s, c, put);
    ReachesBelow(s, c, put);
    ReachesSkipping(s, c, put);
    assert t.calls[..|a.calls|] == a.calls && a.calls[..|r.calls|] == r.calls && r.calls[..|s.calls|] == s.calls;
    assert t.calls[|s.calls|] == r.calls[|s.calls|];
    forall x | 0 <= x < |t.calls|
      ensures t.calls[x].op.Put? && t.calls[x].op.key == put.key && t.calls[x].op.version == put.version ==> x == |s.calls|
    {
      assert x < |s.calls| ==> t.calls[x] == s.calls[x];
      assert |r.calls| <= x < |a.calls| ==> t.calls[x] == a.calls[x];
    }
  }

  /** From a state explained so far, in which every Put named a version its key had reached: one more Put, followed
      by whatever the network does and by callers that name only versions reached, can end in a history without a legal
      order exactly when it names a version its key has not reached. */
  lemma BreaksExactly(s: Sys, c: Client, put: Op)
    requires Traceable(s) && AllSettled(s) && IdleIn(s, c) && put.Put?
    ensures CanBreak(Do(s, Invoke(c, put))) <==> put.version > VersionOf(s.store, put.key)
  {
    if put.version <= VersionOf(s.store, put.key) {
      NeverBreaks(s, c, put);
    } else if put.key in s.store {
      ReachesSkipping(s, c, put);
      forall x | 0 <= x < |s.calls| && s.calls[x].op.Put? && s.calls[x].op.key == put.key
        ensures s.calls[x].op.version != put.version
      {
        assert Settled(s, x);
      }
      SkippingSkips(s, c, put);
      var t := Skipping(s, c, put);
      SkipIsIllegal(t, put.key, put.version, |s.calls|, |t.calls| - 2, |t.calls| - 1);
      ReachingBreaks(Do(s, Invoke(c, put)), t);
    } else {
      FinishesCall(s, c, put);
      MissIsIllegal(WholeCall(s, c, put), |s.calls|);
      ReachingBreaks(Do(s, Invoke(c, put)), WholeCall(s, c, put));
    }
  }

  lemma MissIsIllegal(s: Sys, o: nat)
    requires MissedKey(s, o) && s.calls[o].op.Put?
    ensures !LinearizableSoFar(s)
  {
    if LinearizableSoFar(s) {
      var h :| Completes(s, h) && Timed(h) && Linearizable(h);
      MissedKeyIsIllegal(s, h);
      assert false;
    }
  }

  lemma NeverBreaks(s: Sys, c: Client, put: Op)
    requires Traceable(s) && AllSettled(s) && IdleIn(s, c) && put.Put? && put.version <= VersionOf(s.store, put.key)
    ensures !CanBreak(Do(s, Invoke(c, put)))
  {
    var s1 := Do(s, Invoke(c, put));
    StepConsistent(s, Invoke(c, put));
    StepLog(map[], s, Invoke(c, put));
    StepAllSettled(s, Invoke(c, put));
    forall rest | Valid(s1, rest) && VersionsReached(s1, rest) ensures LinearizableSoFar(After(s1, rest)) {
      RunAllSettled(s1, rest);
      RunLog(map[], s1, rest);
      SettledMissesNoKey(After(s1, rest));
      StateLinearizable(After(s1, rest));
    }
  }

  /** The skipping run answers every call, and tells no Put that the key is missing. */
  lemma SkippingAnswers(s: Sys, c: Client, put: Op)
    requires Ahead(s, c, put) && Quiet(s) && NoPutMissedKey(s)
    ensures Quiet(Skipping(s, c, put)) && NoPutMissedKey(Skipping(s, c, put))
  {
    var r, a, t := Refused(s, c, put), Below(s, c, put), Skipping(s, c, put);
    ReachesBelow(s, c, put);
    ReachesSkipping(s, c, put);
    assert t.calls[..|a.calls|] == a.calls && a.calls[..|r.calls|] == r.calls && r.calls[..|s.calls|] == s.calls;
    forall x | 0 <= x < |t.calls|
      ensures t.calls[x].outcome.Returned? && (t.calls[x].op.Put? ==> t.calls[x].outcome.reply != Status(ErrNoKey))
    {
      assert x < |s.calls| ==> t.calls[x] == s.calls[x];
      assert x == |s.calls| ==> t.calls[x] == r.calls[x];
      assert |r.calls| <= x < |a.calls| ==> t.calls[x] == a.calls[x];
    }
  }

  /** So even from an empty server, for every key and every version beyond the first: a single client whose calls all
      return, none of them ErrNoKey, can end in a history without a legal order. */
  lemma UnreachedVersionBreaksIt(s0: Sys, c: Client, k: string, x: string, v: nat)
    requires Init(s0) && s0.store == map[] && IdleIn(s0, c) && v > 1
    ensures exists steps :: Valid(s0, steps) && BrokenThough(After(s0, steps))
  {
    var s := WholeCall(s0, c, Put(k, "", 0));
    var put := Put(k, x, v);
    var t := Skipping(s, c, put);
    MakesCall(s0, c, Put(k, "", 0));
    ReachesSkipping(s, c, put);
    SkippingSkips(s, c, put);
    SkippingAnswers(s, c, put);
    SkipIsIllegal(t, k, v, |s.calls|, |t.calls| - 2, |t.calls| - 1);
    InvokeThenReach(s0, s, c, put, t);
  }

  ghost predicate BrokenThough(s: Sys) {
    Quiet(s) && NoPutMissedKey(s) && !LinearizableSoFar(s)
  }

  lemma InvokeThenReach(s0: Sys, s: Sys, c: Client, op: Op, t: Sys)
    requires Reaches(s0, s) && IdleIn(s, c) && Reaches(Do(s, Invoke(c, op)), t)
    ensures exists steps :: Valid(s0, steps) && After(s0, steps) == t
  {
    var a :| Valid(s0, a) && VersionsReached(s0, a) && After(s0, a) == s;
    var b :| Valid(Do(s, Invoke(c, op)), b) && VersionsReached(Do(s, Invoke(c, op)), b) && After(Do(s, Invoke(c, op)), b) == t;
    assert ([Invoke(c, op)] + b)[1..] == b;
    ValidConcat(s0, a, [Invoke(c, op)] + b);
  }

  lemma {:induction false} ValidConcat(s: Sys, a: seq<Step>, b: seq<Step>)
    requires Valid(s, a) && Valid(After(s, a), b)
    ensures Valid(s, a + b) && After(s, a + b) == After(After(s, a), b)
    decreases |a|
  {
    if a == [] {
      assert a + b == b;
    } else {
      ValidConcat(Do(s, a[0]), a[1..], b);
      assert (a + b)[0] == a[0] && (a + b)[1..] == a[1..] + b;
    }
  }

  // ----- Naming a version of a missing key, on a network that abandons nothing

  /** Callers name version 0, or a key that is there. */
  predicate KeysKnown(s: Sys, steps: seq<Step>)
    requires Valid(s, steps)
    decreases |steps|
  {
    steps == [] ||
    (&& (steps[0].Invoke? && steps[0].op.Put? ==> steps[0].op.version == 0 || steps[0].op.key in s.store)
     && KeysKnown(Do(s, steps[0]), steps[1..]))
  }

  ghost predicate AllKnown(s: Sys)
    requires MsgsOk(s)
  {
    forall o | 0 <= o < |s.calls| :: Known(s, o)
  }

  lemma StepAllKnown(s: Sys, step: Step)
    requires Consistent(s) && Enabled(s, step) && AllKnown(s)
    requires step.Invoke? && step.op.Put? ==> step.op.version == 0 || step.op.key in s.store
    ensures MsgsOk(Do(s, step)) && AllKnown(Do(s, step))
  {
    StepMsgs(s, step);
    StepKeeps(s, step);
    forall o | 0 <= o < |Do(s, step).calls| ensures Known(Do(s, step), o) {
      if o < |s.calls| {
        StepKnown(s, step, o);
      }
    }
  }

  lemma {:induction false} RunAllKnown(s: Sys, steps: seq<Step>)
    requires Consistent(s) && Valid(s, steps) && KeysKnown(s, steps) && AllKnown(s)
    ensures Consistent(After(s, steps)) && AllKnown(After(s, steps))
    decreases |steps|
  {
    if steps != [] {
      StepConsistent(s, steps[0]);
      StepAllKnown(s, steps[0]);
      RunAllKnown(Do(s, steps[0]), steps[1..]);
    }
  }

  lemma KnownMissesNoKey(s: Sys)
    requires Consistent(s) && AllKnown(s)
    ensures NoPutMissedKey(s)
  {
    forall o | 0 <= o < |s.calls| && s.calls[o].op.Put? && s.calls[o].outcome.Returned?
      ensures s.calls[o].outcome.reply != Status(ErrNoKey)
    {
      KnownNeverMisses(s, o);
    }
  }

  /** A continuation without abandoned copies, in which everybody else names version 0 or a key that is there, ends
      in a history without a legal order. */
  ghost predicate CanBreakPlainly(s: Sys) {
    exists rest :: Valid(s, rest) && NeverAbandons(rest) && KeysKnown(s, rest) && !LinearizableSoFar(After(s, rest))
  }

  /** Without abandoned copies, one more Put can end in a history without a legal order exactly when it names a version
      other than 0 of a key that is missing. */
  lemma BreaksPlainlyExactly(s: Sys, c: Client, put: Op)
    requires Traceable(s) && NoOrphans(s) && AllKnown(s) && IdleIn(s, c) && put.Put?
    ensures CanBreakPlainly(Do(s, Invoke(c, put))) <==> put.version > 0 && put.key !in s.store
  {
    if put.version > 0 && put.key !in s.store {
      MissesPlainly(s, c, put);
    } else {
      NeverBreaksPlainly(s, c, put);
    }
  }

  lemma MissesPlainly(s: Sys, c: Client, put: Op)
    requires IdleIn(s, c) && put.Put? && put.version > 0 && put.key !in s.store
    ensures CanBreakPlainly(Do(s, Invoke(c, put)))
  {
    var s1 := Do(s, Invoke(c, put));
    var s2 := Do(s1, Send(c));
    var s3 := Do(s2, Execute(|s.msgs|));
    var t := Do(s3, Deliver(c));
    PlainCons(s3, Deliver(c), []);
    PlainCons(s2, Execute(|s.msgs|), [Deliver(c)] + []);
    PlainCons(s1, Send(c), [Execute(|s.msgs|)] + ([Deliver(c)] + []));
    MissIsIllegal(t, |s.calls|);
  }

  lemma PlainCons(s: Sys, step: Step, rest: seq<Step>)
    requires Enabled(s, step) && !step.Abandon? && !step.Invoke?
    requires Valid(Do(s, step), rest) && NeverAbandons(rest) && KeysKnown(Do(s, step), rest)
    ensures Valid(s, [step] + rest) && NeverAbandons([step] + rest) && KeysKnown(s, [step] + rest)
    ensures After(s, [step] + rest) == After(Do(s, step), rest)
  {
    assert ([step] + rest)[1..] == rest;
  }

  lemma NeverBreaksPlainly(s: Sys, c: Client, put: Op)
    requires Traceable(s) && NoOrphans(s) && AllKnown(s) && IdleIn(s, c) && put.Put?
    requires put.version == 0 || put.key in s.store
    ensures !CanBreakPlainly(Do(s, Invoke(c, put)))
  {
    var s1 := Do(s, Invoke(c, put));
    StepConsistent(s, Invoke(c, put));
    StepLog(map[], s, Invoke(c, put));
    StepNoOrphans(s, Invoke(c, put));
    StepAllKnown(s, Invoke(c, put));
    forall rest | Valid(s1, rest) && NeverAbandons(rest) && KeysKnown(s1, rest) ensures LinearizableSoFar(After(s1, rest)) {
      RunNoOrphans(s1, rest);
      RunLog(map[], s1, rest);
      RunAllKnown(s1, rest);
      KnownMissesNoKey(After(s1, rest));
      StateLinearizable(After(s1, rest));
    }
  }
}
