/** An append by itself: runs in which one client's calls go through and nobody else acts. */
module AppendRuns {
  import opened KvServer
  import opened Clerk
  import opened LateWrites
  import W = Appends

  // ----- Runs of one client

  /** What client c does itself, and what the server does for it. */
  predicate Alone(a: W.Action, c: Client) {
    match a
    case Begin(d) => d == c
    case Finish(d) => d == c
    case Request(d) => d == c
    case Network(step) => step == Send(c) || step.Execute?
    case Respond(d) => d == c
  }

  predicate AllAlone(acts: seq<W.Action>, c: Client) {
    forall i | 0 <= i < |acts| :: Alone(acts[i], c)
  }

  /** Acting alone, client c can get from s to t. */
  ghost predicate Gets(j: W.Codec, s: W.State, c: Client, t: W.State) {
    exists acts :: W.Runs(j, s, acts) && AllAlone(acts, c) && W.End(j, s, acts) == t
  }

  lemma GetsAfter(j: W.Codec, s: W.State, c: Client, a: W.Action, t: W.State)
    requires W.Can(j, s, a) && Alone(a, c) && Gets(j, W.Act(j, s, a), c, t)
    ensures Gets(j, s, c, t)
  {
    var s1 := W.Act(j, s, a);
    var rest :| W.Runs(j, s1, rest) && AllAlone(rest, c) && W.End(j, s1, rest) == t;
    assert ([a] + rest)[1..] == rest;
    assert W.Runs(j, s, [a] + rest) && AllAlone([a] + rest, c) && W.End(j, s, [a] + rest) == t;
  }

  lemma GetsStep(j: W.Codec, s: W.State, c: Client, a: W.Action)
    requires W.Can(j, s, a) && Alone(a, c)
    ensures Gets(j, s, c, W.Act(j, s, a))
  {
    var t := W.Act(j, s, a);
    assert W.Runs(j, t, []) && AllAlone([], c) && W.End(j, t, []) == t;
    GetsAfter(j, s, c, a, t);
  }

  lemma {:induction false} RunThenGets(j: W.Codec, s: W.State, c: Client, acts: seq<W.Action>, t: W.State)
    requires W.Runs(j, s, acts) && AllAlone(acts, c) && Gets(j, W.End(j, s, acts), c, t)
    ensures Gets(j, s, c, t)
    decreases |acts|
  {
    if acts != [] {
      RunThenGets(j, W.Act(j, s, acts[0]), c, acts[1..], t);
      GetsAfter(j, s, c, acts[0], t);
    }
  }

  lemma GetsTransitive(j: W.Codec, s: W.State, c: Client, t: W.State, v: W.State)
    requires Gets(j, s, c, t) && Gets(j, t, c, v)
    ensures Gets(j, s, c, v)
  {
    var acts :| W.Runs(j, s, acts) && AllAlone(acts, c) && W.End(j, s, acts) == t;
    RunThenGets(j, s, c, acts, v);
  }

  lemma GetsTwo(j: W.Codec, s: W.State, c: Client, a: W.Action, b: W.Action)
    requires W.Can(j, s, a) && Alone(a, c) && W.Can(j, W.Act(j, s, a), b) && Alone(b, c)
    ensures Gets(j, s, c, W.Act(j, W.Act(j, s, a), b))
  {
    GetsStep(j, W.Act(j, s, a), c, b);
    GetsAfter(j, s, c, a, W.Act(j, W.Act(j, s, a), b));
  }

  // ----- One clerk call

  predicate Between(s: W.State, c: Client) {
    c in s.progs && IdleIn(s.sys, c) && (s.progs[c].pc.Getting? || s.progs[c].pc.Putting?)
  }

  /** The state when the call its program point makes has gone through. */
  function Through(j: W.Codec, s: W.State, c: Client): W.State
    requires Between(s, c)
  {
    var op := W.RequestAt(j, s.progs[c].pc);
    W.State(WholeCall(s.sys, c, op), s.progs[c := W.AfterReply(j, c, s.progs[c], Apply(s.sys.store, op).1)])
  }

  lemma GoesThrough(j: W.Codec, s: W.State, c: Client)
    requires Between(s, c)
    ensures Gets(j, s, c, Through(j, s, c))
  {
    var op := W.RequestAt(j, s.progs[c].pc);
    SendsOff(s.sys, c, op);
    GetsTwo(j, s, c, W.Request(c), W.Network(Send(c)));
    Answered(j, s, c, op);
    GetsTransitive(j, s, c, s.(sys := InFlight(s.sys, c, op)), Through(j, s, c));
  }

  lemma Answered(j: W.Codec, s: W.State, c: Client, op: Op)
    requires Between(s, c) && op == W.RequestAt(j, s.progs[c].pc)
    ensures Gets(j, s.(sys := InFlight(s.sys, c, op)), c, Through(j, s, c))
  {
    ComesBack(s.sys, c, op);
    GetsTwo(j, s.(sys := InFlight(s.sys, c, op)), c, W.Network(Execute(|s.sys.msgs|)), W.Respond(c));
  }

  // ----- One iteration

  /** Client c has finished its iteration with an acknowledged put, its entry is at the end of the list, and nobody else has
      moved. */
  ghost predicate Appended(j: W.Codec, s: W.State, c: Client, t: W.State) {
    && c in s.progs && c in t.progs && IdleIn(t.sys, c) && t.progs == s.progs[c := t.progs[c]]
    && W.KEY in s.sys.store && W.KEY in t.sys.store
    && W.List(j, t.sys) == W.List(j, s.sys) + [W.Entry(c, s.progs[c].i)]
    && t.progs[c].pc == W.Top && t.progs[c].i == s.progs[c].i + 1
    && t.progs[c].nok == s.progs[c].nok + 1 && t.progs[c].nmaybe == s.progs[c].nmaybe
  }

  /** From the read. */
  lemma ReadsAndPuts(j: W.Codec, s: W.State, c: Client)
    requires W.Lossless(j) && Between(s, c) && s.progs[c].pc.Getting? && W.KEY in s.sys.store
    ensures exists t :: Gets(j, s, c, t) && Appended(j, s, c, t)
  {
    var s1 := Through(j, s, c);
    assert s1.progs[c].pc == W.Putting(W.List(j, s.sys) + [W.Entry(c, s.progs[c].i)], s.sys.store[W.KEY].version);
    var t := Through(j, s1, c);
    GoesThrough(j, s, c);
    GoesThrough(j, s1, c);
    GetsTransitive(j, s, c, s1, t);
    assert Appended(j, s, c, t);
  }

  /** From a put that has been overtaken: it is refused, and the client reads again. */
  lemma PutsAgain(j: W.Codec, s: W.State, c: Client)
    requires W.Lossless(j) && Between(s, c) && s.progs[c].pc.Putting? && W.KEY in s.sys.store
    requires s.progs[c].pc.ver < s.sys.store[W.KEY].version
    ensures exists t :: Gets(j, s, c, t) && Appended(j, s, c, t)
  {
    var s1 := Through(j, s, c);
    assert s1.progs[c].pc == W.Getting && s1.sys.store == s.sys.store;
    GoesThrough(j, s, c);
    ReadsAndPuts(j, s1, c);
    var t :| Gets(j, s1, c, t) && Appended(j, s1, c, t);
    GetsTransitive(j, s, c, s1, t);
    assert Appended(j, s, c, t);
  }

  /** From a put with the current version. */
  lemma PutsNow(j: W.Codec, s: W.State, c: Client)
    requires W.Lossless(j) && Between(s, c) && W.KEY in s.sys.store
    requires s.progs[c].pc == W.Putting(W.List(j, s.sys) + [W.Entry(c, s.progs[c].i)], s.sys.store[W.KEY].version)
    ensures exists t :: Gets(j, s, c, t) && Appended(j, s, c, t)
  {
    GoesThrough(j, s, c);
    assert Appended(j, s, c, Through(j, s, c));
  }

  lemma StartsIteration(j: W.Codec, s: W.State, c: Client)
    requires W.Lossless(j) && c in s.progs && IdleIn(s.sys, c) && s.progs[c].pc.Top? && W.KEY in s.sys.store
    ensures exists t :: Gets(j, s, c, t) && Appended(j, s, c, t)
  {
    var s1 := W.Act(j, s, W.Begin(c));
    ReadsAndPuts(j, s1, c);
    var t :| Gets(j, s1, c, t) && Appended(j, s1, c, t);
    GetsAfter(j, s, c, W.Begin(c), t);
    assert Appended(j, s, c, t);
  }

  /** In every safe state a client that has not finished gets its entry into the list from wherever it is between two calls,
      if its calls go through and nobody else acts. */
  lemma IterationEnds(j: W.Codec, s: W.State, c: Client)
    requires W.Lossless(j) && W.Safe(j, s) && c in s.progs && IdleIn(s.sys, c) && !s.progs[c].pc.Finished?
    ensures exists t :: Gets(j, s, c, t) && Appended(j, s, c, t)
  {
    assert W.ProgOk(j, s.sys, c, s.progs[c]);
    match s.progs[c].pc
    case Top => StartsIteration(j, s, c);
    case Getting => ReadsAndPuts(j, s, c);
    case Putting(_, ver) =>
      if ver < s.sys.store[W.KEY].version {
        PutsAgain(j, s, c);
      } else {
        PutsNow(j, s, c);
      }
  }
}
