/** OnePut by itself: runs in which one client's calls go through and nobody else acts. */
module OnePutRuns {
  import opened KvServer
  import opened Clerk
  import opened LateWrites
  import W = OnePuts

  // ----- Runs of one client

  /** What client c does itself, and what the server does for it. */
  predicate Alone(a: W.Action, c: Client) {
    match a
    case Begin(d) => d == c
    case Finish(d) => d == c
    case Request(d) => d == c
    case Network(step) => step == Send(c) || step.Execute?
    case Respond(d) => d == c
  }

  predicate AllAlone(acts: seq<W.Action>, c: Client) {
    forall i | 0 <= i < |acts| :: Alone(acts[i], c)
  }

  /** Acting alone, client c can get from s to t. */
  ghost predicate Gets(j: W.Codec, s: W.State, c: Client, t: W.State) {
    exists acts :: W.Runs(j, s, acts) && AllAlone(acts, c) && W.End(j, s, acts) == t
  }

  lemma GetsAfter(j: W.Codec, s: W.State, c: Client, a: W.Action, t: W.State)
    requires W.Can(j, s, a) && Alone(a, c) && Gets(j, W.Act(j, s, a), c, t)
    ensures Gets(j, s, c, t)
  {
    var s1 := W.Act(j, s, a);
    var rest :| W.Runs(j, s1, rest) && AllAlone(rest, c) && W.End(j, s1, rest) == t;
    assert ([a] + rest)[1..] == rest;
    assert W.Runs(j, s, [a] + rest) && AllAlone([a] + rest, c) && W.End(j, s, [a] + rest) == t;
  }

  lemma GetsStep(j: W.Codec, s: W.State, c: Client, a: W.Action)
    requires W.Can(j, s, a) && Alone(a, c)
    ensures Gets(j, s, c, W.Act(j, s, a))
  {
    var t := W.Act(j, s, a);
    assert W.Runs(j, t, []) && AllAlone([], c) && W.End(j, t, []) == t;
    GetsAfter(j, s, c, a, t);
  }

  lemma {:induction false} RunThenGets(j: W.Codec, s: W.State, c: Client, acts: seq<W.Action>, t: W.State)
    requires W.Runs(j, s, acts) && AllAlone(acts, c) && Gets(j, W.End(j, s, acts), c, t)
    ensures Gets(j, s, c, t)
    decreases |acts|
  {
    if acts != [] {
      RunThenGets(j, W.Act(j, s, acts[0]), c, acts[1..], t);
      GetsAfter(j, s, c, acts[0], t);
    }
  }

  lemma GetsTransitive(j: W.Codec, s: W.State, c: Client, t: W.State, v: W.State)
    requires Gets(j, s, c, t) && Gets(j, t, c, v)
    ensures Gets(j, s, c, v)
  {
    var acts :| W.Runs(j, s, acts) && AllAlone(acts, c) && W.End(j, s, acts) == t;
    RunThenGets(j, s, c, acts, v);
  }

  lemma GetsTwo(j: W.Codec, s: W.State, c: Client, a: W.Action, b: W.Action)
    requires W.Can(j, s, a) && Alone(a, c) && W.Can(j, W.Act(j, s, a), b) && Alone(b, c)
    ensures Gets(j, s, c, W.Act(j, W.Act(j, s, a), b))
  {
    GetsStep(j, W.Act(j, s, a), c, b);
    GetsAfter(j, s, c, a, W.Act(j, W.Act(j, s, a), b));
  }

  // ----- One clerk call

  predicate Between(s: W.State, c: Client) {
    c in s.progs && IdleIn(s.sys, c) && (s.progs[c].pc.Putting? || s.progs[c].pc.Reading?)
  }

  /** The state when the call its program point makes has gone through. */
  function Through(j: W.Codec, s: W.State, c: Client): W.State
    requires Between(s, c)
  {
    var op := W.RequestAt(j, c, s.progs[c].pc);
    W.State(WholeCall(s.sys, c, op), s.progs[c := W.AfterReply(j, c, s.progs[c], Apply(s.sys.store, op).1)])
  }

  lemma GoesThrough(j: W.Codec, s: W.State, c: Client)
    requires Between(s, c)
    ensures Gets(j, s, c, Through(j, s, c))
  {
    var op := W.RequestAt(j, c, s.progs[c].pc);
    SendsOff(s.sys, c, op);
    GetsTwo(j, s, c, W.Request(c), W.Network(Send(c)));
    Answered(j, s, c, op);
    GetsTransitive(j, s, c, s.(sys := InFlight(s.sys, c, op)), Through(j, s, c));
  }

  lemma Answered(j: W.Codec, s: W.State, c: Client, op: Op)
    requires Between(s, c) && op == W.RequestAt(j, c, s.progs[c].pc)
    ensures Gets(j, s.(sys := InFlight(s.sys, c, op)), c, Through(j, s, c))
  {
    ComesBack(s.sys, c, op);
    GetsTwo(j, s.(sys := InFlight(s.sys, c, op)), c, W.Network(Execute(|s.sys.msgs|)), W.Respond(c));
  }

  // ----- OnePut

  /** Client c has made one more acknowledged put, and OnePut has handed back the version it left; nobody else has moved. */
  ghost predicate PutOnce(j: W.Codec, s: W.State, c: Client, t: W.State) {
    && c in s.progs && IdleIn(t.sys, c)
    && VersionOf(t.sys.store, W.KEY) == VersionOf(s.sys.store, W.KEY) + 1
    && W.KEY in t.sys.store && t.sys.store[W.KEY].value == j.enc(c, VersionOf(s.sys.store, W.KEY))
    && t.progs == s.progs[c := W.Prog(W.Top(VersionOf(t.sys.store, W.KEY)), s.progs[c].nok + 1, s.progs[c].nmaybe)]
  }

  /** The put and the read after it: what the client is told, and what the store then holds. */
  lemma PutThenRead(j: W.Codec, s: W.State, c: Client, ver: nat) returns (t: W.State)
    requires W.Lossless(j) && Between(s, c) && s.progs[c].pc == W.Putting(ver) && ver <= VersionOf(s.sys.store, W.KEY)
    ensures Gets(j, s, c, t) && c in t.progs && IdleIn(t.sys, c)
    ensures ver == VersionOf(s.sys.store, W.KEY) ==> PutOnce(j, s, c, t)
    ensures ver < VersionOf(s.sys.store, W.KEY) ==>
              && t.sys.store == s.sys.store
              && t.progs == s.progs[c := s.progs[c].(pc := W.Putting(VersionOf(s.sys.store, W.KEY)))]
  {
    var err := if ver == VersionOf(s.sys.store, W.KEY) then OK else ErrVersion;
    var s1 := PutAnswered(j, s, c, ver, err);
    t := ReadAnswered(j, s1, c, ver, err);
    GetsTransitive(j, s, c, s1, t);
  }

  lemma PutAnswered(j: W.Codec, s: W.State, c: Client, ver: nat, err: Err) returns (t: W.State)
    requires Between(s, c) && s.progs[c].pc == W.Putting(ver) && ver <= VersionOf(s.sys.store, W.KEY)
    requires err == if ver == VersionOf(s.sys.store, W.KEY) then OK else ErrVersion
    ensures Gets(j, s, c, t) && Between(t, c) && t.progs == s.progs[c := s.progs[c].(pc := W.Reading(ver, err))]
    ensures W.KEY in t.sys.store
    ensures t.sys.store == if err == OK then s.sys.store[W.KEY := Cell(j.enc(c, ver), ver + 1)] else s.sys.store
  {
    t := Through(j, s, c);
    GoesThrough(j, s, c);
  }

  lemma ReadAnswered(j: W.Codec, s: W.State, c: Client, ver: nat, err: Err) returns (t: W.State)
    requires W.Lossless(j) && Between(s, c) && s.progs[c].pc == W.Reading(ver, err) && W.KEY in s.sys.store
    requires err == ErrVersion || (err == OK && s.sys.store[W.KEY] == Cell(j.enc(c, ver), ver + 1))
    ensures Gets(j, s, c, t) && IdleIn(t.sys, c) && t.sys.store == s.sys.store
    ensures var v := s.sys.store[W.KEY].version;
            t.progs == s.progs[c := if err == OK then W.Prog(W.Top(v), s.progs[c].nok + 1, s.progs[c].nmaybe)
                                    else s.progs[c].(pc := W.Putting(v))]
  {
    t := Through(j, s, c);
    GoesThrough(j, s, c);
  }

  /** With an old version in hand the first put is refused, and the read after it finds the version to use. */
  lemma Puts(j: W.Codec, s: W.State, c: Client, ver: nat)
    requires W.Lossless(j) && Between(s, c) && s.progs[c].pc == W.Putting(ver) && ver <= VersionOf(s.sys.store, W.KEY)
    ensures exists t :: Gets(j, s, c, t) && PutOnce(j, s, c, t)
  {
    var t := PutThenRead(j, s, c, ver);
    if ver < VersionOf(s.sys.store, W.KEY) {
      var t' := PutThenRead(j, t, c, VersionOf(s.sys.store, W.KEY));
      GetsTransitive(j, s, c, t, t');
      assert PutOnce(j, s, c, t');
    }
  }

  /** In every safe state OnePut, whatever version it starts from, comes back with an acknowledged put and the version that
      put left, if its calls go through and nobody else acts. */
  lemma OnePutReturns(j: W.Codec, s: W.State, c: Client)
    requires W.Lossless(j) && W.Safe(j, s) && c in s.progs && s.progs[c].pc.Top?
    ensures exists t :: Gets(j, s, c, t) && PutOnce(j, s, c, t)
  {
    assert W.CallOk(j, s.sys, c, s.progs[c].pc) && W.PcOk(j, s.sys, c, s.progs[c].pc);
    Starts(j, s, c);
  }

  lemma Starts(j: W.Codec, s: W.State, c: Client)
    requires W.Lossless(j) && c in s.progs && IdleIn(s.sys, c)
    requires s.progs[c].pc.Top? && s.progs[c].pc.ver <= VersionOf(s.sys.store, W.KEY)
    ensures exists t :: Gets(j, s, c, t) && PutOnce(j, s, c, t)
  {
    var s1 := W.Act(j, s, W.Begin(c));
    Puts(j, s1, c, s.progs[c].pc.ver);
    var t :| Gets(j, s1, c, t) && PutOnce(j, s1, c, t);
    GetsAfter(j, s, c, W.Begin(c), t);
    assert PutOnce(j, s, c, t);
  }
}
