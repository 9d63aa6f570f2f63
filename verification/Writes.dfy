/** Facts about all writes of a run: each version of a key has one value, ever, and a key's version
    counts exactly the Puts that took effect. */
module Writes {
  import opened KvServer
  import opened Clerk

  /** The version that copy m's write created still has the value m wrote: in the store, if it is the
      current one, and in every reply that names it. */
  ghost predicate WriteSeen(s: Sys, m: nat)
    requires MsgsOk(s) && m < |s.msgs|
  {
    TookEffect(s, m) ==>
      var w := OpOf(s, m);
      && (VersionOf(s.store, w.key) == w.version + 1 ==> s.store[w.key].value == w.value)
      && (forall n | 0 <= n < |s.msgs| && OpOf(s, n) == Get(w.key) && s.msgs[n].status.Done?
                     && s.msgs[n].status.reply.Value? && s.msgs[n].status.reply.version == w.version + 1 ::
            s.msgs[n].status.reply.value == w.value)
  }

  ghost predicate AllSeen(s: Sys)
    requires MsgsOk(s)
  {
    forall m | 0 <= m < |s.msgs| :: WriteSeen(s, m)
  }

  lemma StepSeen(s: Sys, step: Step)
    requires Consistent(s) && Enabled(s, step) && AllSeen(s)
    ensures MsgsOk(Do(s, step)) && AllSeen(Do(s, step))
  {
    StepMsgs(s, step);
    var s' := Do(s, step);
    forall m | 0 <= m < |s'.msgs| ensures WriteSeen(s', m) {
      if TookEffect(s', m) {
        StepWriteSeen(s, step, m);
      }
    }
  }

  lemma StepWriteSeen(s: Sys, step: Step, m: nat)
    requires Consistent(s) && Enabled(s, step) && AllSeen(s)
    requires MsgsOk(Do(s, step)) && m < |Do(s, step).msgs| && TookEffect(Do(s, step), m)
    ensures WriteSeen(Do(s, step), m)
  {
    var s' := Do(s, step);
    var w := OpOf(s', m);
    assert m < |s.msgs| && OpOf(s, m) == w && WriteSeen(s, m);
    if step != Execute(m) {
      assert TookEffect(s, m);
      assert ReplyOk(s.store, w, s.msgs[m].status.reply);
    }
    forall n | 0 <= n < |s'.msgs| && OpOf(s', n) == Get(w.key) && s'.msgs[n].status.Done?
               && s'.msgs[n].status.reply.Value? && s'.msgs[n].status.reply.version == w.version + 1
      ensures s'.msgs[n].status.reply.value == w.value
    {
      assert n < |s.msgs| && OpOf(s, n) == Get(w.key);
      if step != Execute(n) {
        assert s'.msgs[n] == s.msgs[n];
        assert ReplyOk(s.store, OpOf(s, n), s.msgs[n].status.reply);
      }
    }
  }

  /** Over every run, each version of a key has one value: what the store or any Get reports for it is what the Put
      that made it wrote. */
  lemma RunSeen(s0: Sys, steps: seq<Step>)
    requires Init(s0) && Valid(s0, steps)
    ensures MsgsOk(After(s0, steps)) && AllSeen(After(s0, steps))
  {
    InitConsistent(s0);
    RunSeenFrom(s0, steps);
  }

  lemma {:induction false} RunSeenFrom(s: Sys, steps: seq<Step>)
    requires Consistent(s) && Valid(s, steps) && AllSeen(s)
    ensures MsgsOk(After(s, steps)) && AllSeen(After(s, steps))
    decreases |steps|
  {
    if steps != [] {
      StepConsistent(s, steps[0]);
      StepSeen(s, steps[0]);
      RunSeenFrom(Do(s, steps[0]), steps[1..]);
    }
  }

  // ----- Conservation

  /** The Puts on k that took effect. */
  ghost function Writers(s: Sys, k: string): set<nat>
    requires MsgsOk(s)
  {
    set o: nat | o < |s.calls| && s.calls[o].op.Put? && s.calls[o].op.key == k && Wrote(s, o)
  }

  ghost predicate Counted(s0: Store, s: Sys, k: string)
    requires MsgsOk(s)
  {
    VersionOf(s.store, k) == VersionOf(s0, k) + |Writers(s, k)|
  }

  /** Only an execution that writes makes a writer of its call. */
  lemma StepWrote(s: Sys, step: Step, o: nat)
    requires Consistent(s) && Enabled(s, step)
    ensures MsgsOk(Do(s, step))
    ensures Wrote(s, o) ==> Wrote(Do(s, step), o)
    ensures Wrote(Do(s, step), o) && !Wrote(s, o) ==>
              step.Execute? && s.msgs[step.m].call == o && OpOf(s, step.m).Put?
              && OpOf(s, step.m).version == VersionOf(s.store, OpOf(s, step.m).key)
  {
    StepMsgs(s, step);
    var s' := Do(s, step);
    if Wrote(s, o) {
      var m :| 0 <= m < |s.msgs| && s.msgs[m].call == o && TookEffect(s, m);
      assert TookEffect(s', m);
    } else if Wrote(s', o) {
      var m :| 0 <= m < |s'.msgs| && s'.msgs[m].call == o && TookEffect(s', m);
      NewEffect(s, step, m);
    }
  }

  lemma NewEffect(s: Sys, step: Step, m: nat)
    requires MsgsOk(s) && Enabled(s, step) && MsgsOk(Do(s, step)) && m < |Do(s, step).msgs| && TookEffect(Do(s, step), m)
    ensures m < |s.msgs| && s.msgs[m].call == Do(s, step).msgs[m].call
    ensures TookEffect(s, m)
         || (step == Execute(m) && OpOf(s, m).Put? && OpOf(s, m).version == VersionOf(s.store, OpOf(s, m).key))
  {
  }

  lemma ExecuteWrites(s: Sys, m: nat)
    requires Consistent(s) && Enabled(s, Execute(m))
    requires OpOf(s, m).Put? && OpOf(s, m).version == VersionOf(s.store, OpOf(s, m).key)
    ensures MsgsOk(Do(s, Execute(m))) && Wrote(Do(s, Execute(m)), s.msgs[m].call) && !Wrote(s, s.msgs[m].call)
  {
    StepMsgs(s, Execute(m));
    var s' := Do(s, Execute(m));
    assert TookEffect(s', m);
  }

  predicate WritesKey(s: Sys, step: Step, k: string)
    requires Enabled(s, step)
  {
    step.Execute? && OpOf(s, step.m).Put? && OpOf(s, step.m).key == k && OpOf(s, step.m).version == VersionOf(s.store, k)
  }

  lemma StepWriter(s: Sys, step: Step, k: string, o: nat)
    requires Consistent(s) && Enabled(s, step)
    ensures MsgsOk(Do(s, step))
    ensures o in Writers(Do(s, step), k) <==> o in Writers(s, k) || (WritesKey(s, step, k) && o == s.msgs[step.m].call)
  {
    StepMsgs(s, step);
    StepKeeps(s, step);
    StepWrote(s, step, o);
    if WritesKey(s, step, k) {
      ExecuteWrites(s, step.m);
    }
    if o >= |s.calls| {
      assert !Wrote(s, o);
    }
  }

  lemma WritersAfter(s: Sys, step: Step, k: string)
    requires Consistent(s) && Enabled(s, step)
    ensures MsgsOk(Do(s, step))
    ensures Writers(Do(s, step), k) == Writers(s, k) + (if WritesKey(s, step, k) then {s.msgs[step.m].call} else {})
  {
    StepMsgs(s, step);
    forall o: nat ensures o in Writers(Do(s, step), k)
                          <==> o in Writers(s, k) || (WritesKey(s, step, k) && o == s.msgs[step.m].call) {
      StepWriter(s, step, k, o);
    }
  }

  lemma VersionAfter(s: Sys, step: Step, k: string)
    requires Consistent(s) && Enabled(s, step)
    ensures VersionOf(Do(s, step).store, k) == VersionOf(s.store, k) + (if WritesKey(s, step, k) then 1 else 0)
    ensures WritesKey(s, step, k) ==> s.msgs[step.m].call !in Writers(s, k)
  {
    if WritesKey(s, step, k) {
      ExecuteWrites(s, step.m);
    }
  }

  lemma StepCounted(s0: Store, s: Sys, step: Step, k: string)
    requires Consistent(s) && Enabled(s, step) && Counted(s0, s, k)
    ensures MsgsOk(Do(s, step)) && Counted(s0, Do(s, step), k)
  {
    WritersAfter(s, step, k);
    VersionAfter(s, step, k);
  }

  lemma KeyUntouched(s: Sys, step: Step, k: string)
    requires Consistent(s) && Enabled(s, step) && !WritesKey(s, step, k)
    ensures VersionOf(Do(s, step).store, k) == VersionOf(s.store, k)
    ensures k in Do(s, step).store <==> k in s.store
    ensures k in s.store ==> Do(s, step).store[k] == s.store[k]
  {
  }

  lemma {:induction false} RunCounted(s0: Store, s: Sys, steps: seq<Step>, k: string)
    requires Consistent(s) && Valid(s, steps) && Counted(s0, s, k)
    ensures MsgsOk(After(s, steps)) && Counted(s0, After(s, steps), k)
    decreases |steps|
  {
    if steps != [] {
      StepConsistent(s, steps[0]);
      StepCounted(s0, s, steps[0], k);
      RunCounted(s0, Do(s, steps[0]), steps[1..], k);
    }
  }

  /** Over every run, whoever calls and whatever the network does: a key's version has grown by the
      number of Puts on it that took effect. */
  lemma Conservation(s0: Sys, steps: seq<Step>, k: string)
    requires Init(s0) && Valid(s0, steps)
    ensures MsgsOk(After(s0, steps))
    ensures VersionOf(After(s0, steps).store, k) == VersionOf(s0.store, k) + |Writers(After(s0, steps), k)|
  {
    InitConsistent(s0);
    assert Writers(s0, k) == {};
    RunCounted(s0.store, s0, steps, k);
  }

  // ----- A client that is alone with its key

  /** Call o is a Put whose version has been passed, and every executed copy of it was told so. */
  predicate Stale(s: Sys, o: nat)
    requires MsgsOk(s) && o < |s.calls|
  {
    && s.calls[o].op.Put? && s.calls[o].op.version < VersionOf(s.store, s.calls[o].op.key)
    && forall m | 0 <= m < |s.msgs| && s.msgs[m].call == o && s.msgs[m].status.Done? ::
         s.msgs[m].status.reply == Status(ErrVersion)
  }

  lemma StepStale(s: Sys, step: Step, o: nat)
    requires Consistent(s) && Enabled(s, step) && o < |s.calls| && Stale(s, o)
    ensures MsgsOk(Do(s, step)) && o < |Do(s, step).calls| && Stale(Do(s, step), o)
  {
    StepMsgs(s, step);
    StepKeeps(s, step);
  }

  lemma {:induction false} RunStale(s: Sys, steps: seq<Step>, o: nat)
    requires Consistent(s) && Valid(s, steps) && o < |s.calls| && Stale(s, o)
    ensures Consistent(After(s, steps)) && o < |After(s, steps).calls| && Stale(After(s, steps), o)
    decreases |steps|
  {
    if steps != [] {
      StepConsistent(s, steps[0]);
      StepStale(s, steps[0], o);
      RunStale(Do(s, steps[0]), steps[1..], o);
    }
  }

  /** A Put that names a version its key has passed never writes, and is told ErrVersion or ErrMaybe. */
  lemma StalePutFails(s: Sys, c: Client, put: Op, steps: seq<Step>)
    requires Consistent(s) && Enabled(s, Invoke(c, put)) && Valid(Do(s, Invoke(c, put)), steps)
    requires put.Put? && put.version < VersionOf(s.store, put.key)
    ensures StaleResult(After(Do(s, Invoke(c, put)), steps), |s.calls|)
  {
    StepConsistent(s, Invoke(c, put));
    RunStale(Do(s, Invoke(c, put)), steps, |s.calls|);
    StaleMeans(After(Do(s, Invoke(c, put)), steps), |s.calls|);
  }

  ghost predicate StaleResult(s: Sys, o: nat) {
    && MsgsOk(s) && o < |s.calls| && !Wrote(s, o)
    && (s.calls[o].outcome.Returned? ==> s.calls[o].outcome.reply in {Status(ErrVersion), Status(ErrMaybe)})
  }

  lemma StaleMeans(s: Sys, o: nat)
    requires Consistent(s) && o < |s.calls| && Stale(s, o)
    ensures StaleResult(s, o)
  {
    assert OutcomeOk(s, o);
  }

  /** What a client that was alone with key k learns from any result of its Put. */
  ghost predicate AloneResult(s: Sys, o: nat, put: Op)
    requires put.Put?
  {
    && MsgsOk(s) && o < |s.calls| && s.calls[o].outcome.Returned? && Wrote(s, o)
    && s.calls[o].outcome.reply in {Status(OK), Status(ErrMaybe)}
    && put.key in s.store && s.store[put.key] == Cell(put.value, put.version + 1)
  }

  /** No call but o has written k from s to t. */
  ghost predicate Alone(s: Sys, t: Sys, o: nat, k: string) {
    MsgsOk(s) && MsgsOk(t) && Writers(t, k) <= Writers(s, k) + {o}
  }

  ghost predicate Observed(base: Store, s: Sys, k: string) {
    Consistent(s) && AllSeen(s) && Counted(base, s, k)
  }

  lemma InitObserved(s: Sys, k: string)
    requires Init(s)
    ensures Observed(s.store, s, k)
  {
    InitConsistent(s);
    assert Writers(s, k) == {};
  }

  lemma {:induction false} RunObserved(base: Store, s: Sys, steps: seq<Step>, k: string)
    requires Observed(base, s, k) && Valid(s, steps)
    ensures Observed(base, After(s, steps), k)
    decreases |steps|
  {
    if steps != [] {
      StepObserved(base, s, steps[0], k);
      RunObserved(base, Do(s, steps[0]), steps[1..], k);
    }
  }

  lemma StepObserved(base: Store, s: Sys, step: Step, k: string)
    requires Observed(base, s, k) && Enabled(s, step)
    ensures Observed(base, Do(s, step), k)
  {
    StepConsistent(s, step);
    StepSeen(s, step);
    StepCounted(base, s, step, k);
  }

  /** If a Put names the current version when it is called, and has returned, and no other call has written its key in
      between: then it wrote, whether it was told OK or ErrMaybe, and the key holds what it wrote. Repeating it is a
      stale Put, which never gets OK. */
  lemma AloneMeansWrote(s0: Sys, before: seq<Step>, c: Client, put: Op, rest: seq<Step>)
    requires Init(s0) && Valid(s0, before) && Enabled(After(s0, before), Invoke(c, put)) && put.Put?
    requires put.version == VersionOf(After(s0, before).store, put.key)
    requires Valid(Do(After(s0, before), Invoke(c, put)), rest)
    requires var s, t := After(s0, before), After(Do(After(s0, before), Invoke(c, put)), rest);
             |s.calls| < |t.calls| && t.calls[|s.calls|].outcome.Returned? && Alone(s, t, |s.calls|, put.key)
    ensures AloneResult(After(Do(After(s0, before), Invoke(c, put)), rest), |After(s0, before).calls|, put)
  {
    InitObserved(s0, put.key);
    RunObserved(s0.store, s0, before, put.key);
    AloneFrom(s0.store, After(s0, before), c, put, rest);
  }

  lemma AloneFrom(base: Store, s: Sys, c: Client, put: Op, rest: seq<Step>)
    requires Observed(base, s, put.key) && Enabled(s, Invoke(c, put)) && put.Put? && put.version == VersionOf(s.store, put.key)
    requires Valid(Do(s, Invoke(c, put)), rest)
    requires var t := After(Do(s, Invoke(c, put)), rest);
             |s.calls| < |t.calls| && t.calls[|s.calls|].outcome.Returned? && Alone(s, t, |s.calls|, put.key)
    ensures AloneResult(After(Do(s, Invoke(c, put)), rest), |s.calls|, put)
  {
    var s1 := Do(s, Invoke(c, put));
    StepObserved(base, s, Invoke(c, put), put.key);
    RunObserved(base, s1, rest, put.key);
    RunSettled(s1, rest, |s.calls|);
    AloneEnd(base, s, After(s1, rest), |s.calls|, put);
  }

  lemma AloneEnd(base: Store, s: Sys, t: Sys, o: nat, put: Op)
    requires MsgsOk(s) && Counted(base, s, put.key) && put.Put? && put.version == VersionOf(s.store, put.key)
    requires Observed(base, t, put.key)
    requires o < |t.calls| && t.calls[o].op == put && Settled(t, o) && t.calls[o].outcome.Returned?
    requires Alone(s, t, o, put.key)
    ensures AloneResult(t, o, put)
  {
    SettledPut(t, o);
    AtMostOneMore(Writers(s, put.key), Writers(t, put.key), o);
    assert OutcomeOk(t, o);
    var m :| 0 <= m < |t.msgs| && t.msgs[m].call == o && TookEffect(t, m);
    assert WriteSeen(t, m);
    var via := t.calls[o].outcome.via;
    assert ReplyOk(t.store, OpOf(t, via), t.msgs[via].status.reply);
  }

  lemma AtMostOneMore(a: set<nat>, b: set<nat>, x: nat)
    requires b <= a + {x} && |b| > |a|
    ensures x in b && |b| == |a| + 1
  {
    CardOf(b, a + {x});
    if x !in b {
      CardOf(b, a);
    }
  }

  lemma {:induction false} CardOf(a: set<nat>, b: set<nat>)
    requires a <= b
    ensures |a| <= |b|
  {
    if a != {} {
      var x :| x in a;
      CardOf(a - {x}, b - {x});
    }
  }
}
