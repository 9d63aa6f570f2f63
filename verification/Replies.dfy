/** The reader delivers: a result it has picked for a caller is what that caller ends with, and a call on a quiet connection
    comes back with the server's answer. */
module Replies {
  import opened Demux

  /** Result r is caller c's, under tag t: it is being handed over or has arrived. */
  predicate Due(s: State, c: nat, t: nat, r: Result) {
    && c in s.callers
    && (s.callers[c].pc == Ended(t, r)
        || (s.reader.Handing? && s.reader.c == c && s.reader.r == r && Accepted(s.callers[c].pc) && s.callers[c].pc.t == t))
  }

  /** Whatever happens, c ends with that result or is still about to. */
  lemma {:induction false} StaysDue(s: State, steps: seq<Step>, c: nat, t: nat, r: Result)
    requires Valid(s, steps) && Due(s, c, t, r)
    ensures Due(After(s, steps), c, t, r)
    decreases |steps|
  {
    if steps != [] {
      assert Due(Do(s, steps[0]), c, t, r);
      StaysDue(Do(s, steps[0]), steps[1..], c, t, r);
    }
  }

  /** The reply at the front belongs to the caller that waits under its tag. */
  lemma ReadIsDue(s: State)
    requires Safe(s) && Enabled(s, ReadReply)
    ensures var m := s.net.down[0];
            && m.tag in s.cm.calls && s.cm.calls[m.tag] in s.callers
            && s.callers[s.cm.calls[m.tag]].pc == Waiting(m.tag)
            && Due(Do(s, ReadReply), s.cm.calls[m.tag], m.tag, Reply(m.rep, m.ok))
  {
    assert DeliveryOk(s, s.net.down[0]);
  }

  /** In every run, each reply the reader reads becomes the result of the caller that waits under its tag: in all that
      follows it is being handed to that caller or is what the call ended with. */
  lemma ReplyArrives(s: State, steps: seq<Step>, rest: seq<Step>)
    requires Init(s) && Valid(s, steps) && TagsFree(s, steps) && Enabled(After(s, steps), ReadReply)
    requires Valid(Do(After(s, steps), ReadReply), rest)
    ensures var m := After(s, steps).net.down[0];
            && m.tag in After(s, steps).cm.calls
            && Due(After(Do(After(s, steps), ReadReply), rest), After(s, steps).cm.calls[m.tag], m.tag, Reply(m.rep, m.ok))
  {
    InitSafe(s);
    RunSafe(s, steps);
    var s1 := After(s, steps);
    var m := s1.net.down[0];
    ReadIsDue(s1);
    StaysDue(Do(s1, ReadReply), rest, s1.cm.calls[m.tag], m.tag, Reply(m.rep, m.ok));
  }

  /** Likewise every call the reader sweeps out ends as broken. */
  lemma SweptArrives(s: State, rest: seq<Step>)
    requires Safe(s) && Enabled(s, SweepOne) && Valid(Do(s, SweepOne), rest)
    ensures var t := s.reader.left[0];
            t in s.cm.calls && Due(After(Do(s, SweepOne), rest), s.cm.calls[t], t, Broken)
  {
    var t := s.reader.left[0];
    SweepLeaves(s.cm, s.reader.left);
    StaysDue(Do(s, SweepOne), rest, s.cm.calls[t], t, Broken);
  }

  // ----- After Close

  /** A call that had not been accepted: it has yet to register or has been refused. */
  predicate TurnedAway(s: State, c: nat) {
    s.cm.closed && c in s.callers
    && match s.callers[c].pc
       case New => true
       case Tagged(_) => true
       case Ended(_, result) => result == Refused
       case _ => false
  }

  lemma {:induction false} StaysAway(s: State, steps: seq<Step>, c: nat)
    requires Valid(s, steps) && TurnedAway(s, c)
    ensures TurnedAway(After(s, steps), c)
    decreases |steps|
  {
    if steps != [] {
      assert TurnedAway(Do(s, steps[0]), c);
      StaysAway(Do(s, steps[0]), steps[1..], c);
    }
  }

  /** Once Close has been called, a call that has not registered is never accepted: if it ends, it is refused. */
  lemma ClosedRefuses(s: State, rest: seq<Step>, c: nat)
    requires c in s.callers && (s.callers[c].pc.New? || s.callers[c].pc.Tagged?) && Valid(Do(s, Close), rest)
    ensures TurnedAway(After(Do(s, Close), rest), c)
  {
    StaysAway(Do(s, Close), rest, c);
  }

  /** A call that was accepted: it has not ended, or not by being refused. */
  predicate LetIn(s: State, c: nat) {
    c in s.callers && (Accepted(s.callers[c].pc) || (s.callers[c].pc.Ended? && !s.callers[c].pc.result.Refused?))
  }

  lemma StepLetIn(s: State, step: Step, c: nat)
    requires Enabled(s, step) && LetIn(s, c) && (s.reader.Handing? ==> !s.reader.r.Refused?)
    ensures LetIn(Do(s, step), c)
  {
  }

  /** And a call that was accepted is never refused afterwards. */
  lemma {:induction false} AcceptedNeverRefused(s: State, steps: seq<Step>, c: nat)
    requires Safe(s) && Valid(s, steps) && TagsFree(s, steps) && LetIn(s, c)
    ensures LetIn(After(s, steps), c)
    decreases |steps|
  {
    if steps != [] {
      StepSafe(s, steps[0]);
      StepLetIn(s, steps[0], c);
      AcceptedNeverRefused(Do(s, steps[0]), steps[1..], c);
    }
  }

  // ----- Nobody is stuck

  ghost predicate CanEnd(s: State, c: nat) {
    exists steps :: Valid(s, steps) && c in After(s, steps).callers && After(s, steps).callers[c].pc.Ended?
  }

  lemma CanEndAfter(s: State, step: Step, c: nat)
    requires Enabled(s, step) && CanEnd(Do(s, step), c)
    ensures CanEnd(s, c)
  {
    var rest :| Valid(Do(s, step), rest) && c in After(Do(s, step), rest).callers && After(Do(s, step), rest).callers[c].pc.Ended?;
    RunCons(s, step, rest);
  }

  /** The reader's send finds its caller listening, after the caller has written if need be. */
  lemma Listens(s: State) returns (s': State)
    requires Safe(s) && s.reader.Handing?
    ensures Safe(s') && s'.reader == s.reader && s'.cm == s.cm && Enabled(s', Hand)
    ensures forall c | c in s.callers :: c in s'.callers && (Accepted(s.callers[c].pc) ==> Accepted(s'.callers[c].pc))
    ensures forall c :: CanEnd(s', c) ==> CanEnd(s, c)
  {
    var d := s.reader.c;
    if s.callers[d].pc.Waiting? {
      s' := s;
    } else {
      s' := Do(s, Write(d, false));
      StepSafe(s, Write(d, false));
      forall c | CanEnd(s', c) ensures CanEnd(s, c) {
        CanEndAfter(s, Write(d, false), c);
      }
    }
  }

  lemma HandedEnds(s: State, c: nat)
    requires Safe(s) && s.reader.Handing? && s.reader.c == c
    ensures CanEnd(s, c)
  {
    var s' := Listens(s);
    RunOne(s', Hand);
    assert CanEnd(s', c);
  }

  /** The sweep reaches every call that is left. */
  lemma {:induction false} SweptEnds(s: State, c: nat)
    requires Safe(s) && s.reader.Sweeping? && c in s.callers && Accepted(s.callers[c].pc)
    ensures CanEnd(s, c)
    decreases |s.reader.left|
  {
    assert CallerOk(s, c);
    assert s.callers[c].pc.t in s.reader.left;
    var s1 := Do(s, SweepOne);
    StepSafe(s, SweepOne);
    SweepLeaves(s.cm, s.reader.left);
    if s1.reader.c == c {
      HandedEnds(s1, c);
    } else {
      var s2 := Listens(s1);
      StepSafe(s2, Hand);
      SweptEnds(Do(s2, Hand), c);
      CanEndAfter(s2, Hand, c);
    }
    CanEndAfter(s, SweepOne, c);
  }

  /** Any finite set of tags can be listed. */
  lemma {:induction false} Listed(tags: set<nat>) returns (ts: seq<nat>)
    ensures Distinct(ts) && (set t | t in ts) == tags
    decreases |tags|
  {
    if tags == {} {
      ts := [];
    } else {
      var t :| t in tags;
      var rest := Listed(tags - {t});
      assert forall x :: x in rest <==> x in (set y | y in rest);
      ts := [t] + rest;
      assert forall x :: x in ts <==> x == t || x in rest;
      assert (set x | x in ts) == {t} + (tags - {t});
    }
  }

  lemma SnapshotEnds(s: State, c: nat)
    requires Safe(s) && s.reader.Snapshot? && c in s.callers && Accepted(s.callers[c].pc)
    ensures CanEnd(s, c)
  {
    var tags := Listed(s.cm.calls.Keys);
    StepSafe(s, TakeSnapshot(tags));
    SweptEnds(Do(s, TakeSnapshot(tags)), c);
    CanEndAfter(s, TakeSnapshot(tags), c);
  }

  lemma ReadingEnds(s: State, c: nat)
    requires Safe(s) && s.reader.Reading? && c in s.callers && Accepted(s.callers[c].pc)
    ensures CanEnd(s, c)
  {
    StepSafe(s, ReadFails);
    SnapshotEnds(Do(s, ReadFails), c);
    CanEndAfter(s, ReadFails, c);
  }

  /** In every safe state every accepted call can still end, whatever the reader is doing: at worst because a read fails. */
  lemma NobodyStuck(s: State, c: nat)
    requires Safe(s) && c in s.callers && Accepted(s.callers[c].pc)
    ensures CanEnd(s, c)
  {
    assert CallerOk(s, c);
    match s.reader
    case Reading => ReadingEnds(s, c);
    case Snapshot => SnapshotEnds(s, c);
    case Sweeping(_) => SweptEnds(s, c);
    case Handing(d, _, live, _) =>
      if d == c {
        HandedEnds(s, c);
      } else {
        var s' := Listens(s);
        StepSafe(s', Hand);
        if live {
          ReadingEnds(Do(s', Hand), c);
        } else {
          SweptEnds(Do(s', Hand), c);
        }
        CanEndAfter(s', Hand, c);
      }
    case _ =>
  }

  // ----- A call on a quiet connection

  /** The reader reads, calls are accepted, and nothing is on its way in either direction. */
  predicate Quiet(s: State) {
    s.reader == Reading && !s.cm.closed && s.net.greeted && s.net.up == [] && s.net.down == []
  }

  function CallRun(c: nat, m: Request, rep: Bytes, ok: bool): seq<Step> {
    [TakeTag(c), Register(c), Write(c, true), Serve, Finish(m, rep, ok, true), ReadReply, Hand]
  }

  /** The call has ended with that answer, and nothing else has changed. */
  function Answered(s: State, c: nat, rep: Bytes, ok: bool): State
    requires c in s.callers
  {
    var t := s.nextTag;
    State(s.callers[c := Caller(s.callers[c].req, Ended(t, Reply(rep, ok)))], (t + 1) % LIMIT, s.cm, s.reader,
          s.net.(answers := s.net.answers + {Answer(Request(c, t, s.callers[c].req), rep, ok)}))
  }

  /** The server has the request. */
  function Asked(s: State, c: nat): State
    requires c in s.callers
  {
    var t := s.nextTag;
    State(s.callers[c := Caller(s.callers[c].req, Waiting(t))], (t + 1) % LIMIT, s.cm.(calls := s.cm.calls[t := c]), s.reader,
          s.net.(busy := s.net.busy + multiset{Request(c, t, s.callers[c].req)}))
  }

  lemma Asks(s: State, c: nat, rest: seq<Step>)
    requires Quiet(s) && c in s.callers && s.callers[c].pc.New? && Valid(Asked(s, c), rest)
    ensures var steps := [TakeTag(c)] + ([Register(c)] + ([Write(c, true)] + ([Serve] + rest)));
            Valid(s, steps) && After(s, steps) == After(Asked(s, c), rest)
  {
    var s1 := Do(s, TakeTag(c));
    var s2 := Do(s1, Register(c));
    var s3 := Do(s2, Write(c, true));
    assert Do(s3, Serve) == Asked(s, c);
    RunCons(s3, Serve, rest);
    RunCons(s2, Write(c, true), [Serve] + rest);
    RunCons(s1, Register(c), [Write(c, true)] + ([Serve] + rest));
    RunCons(s, TakeTag(c), [Register(c)] + ([Write(c, true)] + ([Serve] + rest)));
  }

  lemma Answers(s: State, c: nat, rep: Bytes, ok: bool)
    requires Quiet(s) && c in s.callers && s.callers[c].pc.New? && s.nextTag !in s.cm.calls
    ensures var m := Request(c, s.nextTag, s.callers[c].req);
            var steps := [Finish(m, rep, ok, true)] + ([ReadReply] + [Hand]);
            Valid(Asked(s, c), steps) && After(Asked(s, c), steps) == Answered(s, c, rep, ok)
  {
    var m := Request(c, s.nextTag, s.callers[c].req);
    var s4 := Asked(s, c);
    var s5 := Do(s4, Finish(m, rep, ok, true));
    assert s5.net.down == [Response(m.tag, rep, ok)];
    var s6 := Do(s5, ReadReply);
    assert s6.cm.calls == s.cm.calls;
    assert s6.net.busy == s.net.busy && s6.net.down == s.net.down;
    assert Do(s6, Hand) == Answered(s, c, rep, ok);
    RunOne(s6, Hand);
    RunCons(s5, ReadReply, [Hand]);
    RunCons(s4, Finish(m, rep, ok, true), [ReadReply] + [Hand]);
  }

  /** On a quiet connection a call whose tag is free comes back with whatever the server answers, and leaves the
      connection as it was. */
  lemma CallAnswered(s: State, c: nat, rep: Bytes, ok: bool)
    requires Quiet(s) && Free(s) && c in s.callers && s.callers[c].pc.New?
    ensures var run := CallRun(c, Request(c, s.nextTag, s.callers[c].req), rep, ok);
            Valid(s, run) && After(s, run) == Answered(s, c, rep, ok)
  {
    var m := Request(c, s.nextTag, s.callers[c].req);
    var rest := [Finish(m, rep, ok, true)] + ([ReadReply] + [Hand]);
    Answers(s, c, rep, ok);
    Asks(s, c, rest);
    assert [TakeTag(c)] + ([Register(c)] + ([Write(c, true)] + ([Serve] + rest))) == CallRun(c, m, rep, ok);
  }
}
