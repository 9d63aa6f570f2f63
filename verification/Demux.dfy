/** Many callers share one connection: each request carries a tag, a single reader hands each reply to
    the caller that waits under its tag, and when the connection fails the reader sweeps out the
    callers that are left. */
module Demux {

  type Bytes = seq<int>

  /** Tags are 32 bits wide and wrap around. */
  const LIMIT := 0x1_0000_0000

  datatype Result =
    | Refused                               // the call map was closed
    | Reply(rep: Bytes, ok: bool)           // the server's answer
    | Broken                                // swept out by the reader

  /** Where a caller is inside SendReceive. */
  datatype CallerPc =
    | New
    | Tagged(t: nat)
    | Registered(t: nat)
    | Waiting(t: nat)
    | Ended(t: nat, result: Result)

  datatype Caller = Caller(req: Bytes, pc: CallerPc)

  /** The reader. While Handing it blocks on a caller's channel; `left` are the tags it has yet to sweep. */
  datatype Reader =
    | Reading
    | Handing(c: nat, r: Result, live: bool, left: seq<nat>)
    | Snapshot
    | Sweeping(left: seq<nat>)
    | Exited
    | Crashed                               // "no matching req"

  datatype CallMap = CallMap(closed: bool, calls: map<nat, nat>)

  /** A request under way. The wire carries the tag and the bytes; `from` records who wrote it. */
  datatype Request = Request(from: nat, tag: nat, req: Bytes)
  datatype Response = Response(tag: nat, rep: Bytes, ok: bool)

  /** The server computed this answer for this request. */
  datatype Answer = Answer(request: Request, rep: Bytes, ok: bool)

  /** The two directions of the connection and the server's running handlers. */
  datatype Net = Net(greeted: bool, up: seq<Request>, busy: multiset<Request>, down: seq<Response>, answers: set<Answer>)

  datatype State = State(callers: map<nat, Caller>, nextTag: nat, cm: CallMap, reader: Reader, net: Net)

  datatype Step =
    | TakeTag(c: nat)
    | Register(c: nat)
    | Write(c: nat, sent: bool)
    | Greet
    | Serve
    | Finish(r: Request, rep: Bytes, ok: bool, sent: bool)
    | ReadReply
    | ReadFails
    | TakeSnapshot(tags: seq<nat>)
    | SweepOne
    | SweepEnds
    | Hand
    | Close

  predicate Distinct(s: seq<nat>) {
    forall i, j | 0 <= i < j < |s| :: s[i] != s[j]
  }

  predicate Enabled(s: State, step: Step) {
    match step
    case TakeTag(c) => c in s.callers && s.callers[c].pc.New?
    case Register(c) => c in s.callers && s.callers[c].pc.Tagged?
    case Write(c, sent) => c in s.callers && s.callers[c].pc.Registered?
    case Greet => !s.net.greeted && s.net.up != []
    case Serve => s.net.greeted && s.net.up != []
    case Finish(r, rep, ok, sent) => r in s.net.busy
    case ReadReply => s.reader.Reading? && s.net.down != []
    case ReadFails => s.reader.Reading?
    case TakeSnapshot(tags) => s.reader.Snapshot? && Distinct(tags) && (set t | t in tags) == s.cm.calls.Keys
    case SweepOne => s.reader.Sweeping? && s.reader.left != []
    case SweepEnds => s.reader.Sweeping? && s.reader.left == []
    case Hand => s.reader.Handing? && s.reader.c in s.callers && s.callers[s.reader.c].pc.Waiting?
    case Close => true
  }

  function SetPc(s: State, c: nat, pc: CallerPc): State
    requires c in s.callers
  {
    s.(callers := s.callers[c := s.callers[c].(pc := pc)])
  }

  /** The reader's reply(): take the caller out of the map and start handing it r. */
  function Dispatch(s: State, t: nat, r: Result, live: bool, left: seq<nat>): State {
    if t in s.cm.calls
    then s.(reader := Handing(s.cm.calls[t], r, live, left), cm := s.cm.(calls := s.cm.calls - {t}))
    else s.(reader := Crashed)
  }

  function Do(s: State, step: Step): State
    requires Enabled(s, step)
  {
    match step
    case TakeTag(c) => SetPc(s, c, Tagged(s.nextTag)).(nextTag := (s.nextTag + 1) % LIMIT)
    case Register(c) =>
      var t := s.callers[c].pc.t;
      if s.cm.closed then SetPc(s, c, Ended(t, Refused))
      else SetPc(s, c, Registered(t)).(cm := s.cm.(calls := s.cm.calls[t := c]))
    case Write(c, sent) =>
      var t := s.callers[c].pc.t;
      var s1 := SetPc(s, c, Waiting(t));
      if sent then s1.(net := s.net.(up := s.net.up + [Request(c, t, s.callers[c].req)])) else s1
    case Greet => s.(net := s.net.(greeted := true, up := s.net.up[1..]))
    case Serve => s.(net := s.net.(up := s.net.up[1..], busy := s.net.busy + multiset{s.net.up[0]}))
    case Finish(r, rep, ok, sent) =>
      s.(net := s.net.(busy := s.net.busy - multiset{r},
                       answers := s.net.answers + {Answer(r, rep, ok)},
                       down := if sent then s.net.down + [Response(r.tag, rep, ok)] else s.net.down))
    case ReadReply =>
      var m := s.net.down[0];
      Dispatch(s.(net := s.net.(down := s.net.down[1..])), m.tag, Reply(m.rep, m.ok), true, [])
    case ReadFails => s.(cm := s.cm.(closed := true), reader := Snapshot)
    case TakeSnapshot(tags) => s.(reader := Sweeping(tags))
    case SweepOne => Dispatch(s, s.reader.left[0], Broken, false, s.reader.left[1..])
    case SweepEnds => s.(reader := Exited)
    case Hand =>
      var c := s.reader.c;
      SetPc(s, c, Ended(s.callers[c].pc.t, s.reader.r))
        .(reader := if s.reader.live then Reading else Sweeping(s.reader.left))
    case Close => s.(cm := s.cm.(closed := true))
  }

  predicate Valid(s: State, steps: seq<Step>)
    decreases |steps|
  {
    steps == [] || (Enabled(s, steps[0]) && Valid(Do(s, steps[0]), steps[1..]))
  }

  function After(s: State, steps: seq<Step>): State
    requires Valid(s, steps)
    decreases |steps|
  {
    if steps == [] then s else After(Do(s, steps[0]), steps[1..])
  }

  /** The client has written its greeting under tag 0; nobody has called yet. */
  predicate Init(s: State) {
    && (forall c | c in s.callers :: s.callers[c].pc.New?)
    && s.nextTag == 1 && s.cm == CallMap(false, map[]) && s.reader == Reading
    && !s.net.greeted && |s.net.up| == 1 && s.net.up[0].tag == 0
    && s.net.busy == multiset{} && s.net.down == [] && s.net.answers == {}
  }

  // ----- The invariant

  predicate Accepted(pc: CallerPc) {
    pc.Registered? || pc.Waiting?
  }

  /** Nobody can still register under t, and nobody is registered under it. A caller that is being handed
      its result no longer needs its tag, and the greeting's is never answered. */
  predicate Unused(s: State, t: nat) {
    && (forall c | c in s.callers && s.callers[c].pc.Tagged? :: s.callers[c].pc.t != t)
    && t !in s.cm.calls
  }

  /** The next tag may be handed out: it is unused, or no call is accepted any more. */
  predicate Free(s: State) {
    s.cm.closed || Unused(s, s.nextTag)
  }

  /** No tag is handed out while it is in use. */
  predicate TagsFree(s: State, steps: seq<Step>)
    requires Valid(s, steps)
    decreases |steps|
  {
    steps == [] || ((steps[0].TakeTag? ==> Free(s)) && TagsFree(Do(s, steps[0]), steps[1..]))
  }

  ghost predicate TagsOk(s: State) {
    !s.cm.closed ==>
      && (forall c | c in s.callers && s.callers[c].pc.Tagged? :: s.callers[c].pc.t !in s.cm.calls)
      && (forall c, d | c in s.callers && d in s.callers && s.callers[c].pc.Tagged? && s.callers[d].pc.Tagged?
                        && s.callers[c].pc.t == s.callers[d].pc.t :: c == d)
  }

  predicate InMap(s: State, c: nat)
    requires c in s.callers
  {
    var pc := s.callers[c].pc;
    Accepted(pc) && pc.t in s.cm.calls && s.cm.calls[pc.t] == c
  }

  ghost predicate MapOk(s: State) {
    forall t | t in s.cm.calls ::
      s.cm.calls[t] in s.callers && Accepted(s.callers[s.cm.calls[t]].pc) && s.callers[s.cm.calls[t]].pc.t == t
  }

  /** A call is refused only once the map is closed, and swept out only once a read has failed; a reply is the server's
      answer to the caller's own request. */
  ghost predicate EndedOk(s: State, c: nat)
    requires c in s.callers && s.callers[c].pc.Ended?
  {
    var pc := s.callers[c].pc;
    match pc.result
    case Refused => s.cm.closed
    case Reply(rep, ok) => Answer(Request(c, pc.t, s.callers[c].req), rep, ok) in s.net.answers
    case Broken => s.cm.closed && !Live(s.reader)
  }

  /** An accepted call that has not ended is in the map or being handed its result. */
  ghost predicate CallerOk(s: State, c: nat)
    requires c in s.callers
  {
    var pc := s.callers[c].pc;
    && (Accepted(pc) ==> InMap(s, c) || (s.reader.Handing? && s.reader.c == c))
    && (pc.Ended? ==> EndedOk(s, c))
  }

  /** The tags still to be swept are exactly those in the map. */
  ghost predicate LeftOk(cm: CallMap, left: seq<nat>) {
    cm.closed && Distinct(left) && forall t :: t in left <==> t in cm.calls
  }

  ghost predicate ReaderOk(s: State) {
    match s.reader
    case Reading => true
    case Handing(c, r, live, left) =>
      && c in s.callers && Accepted(s.callers[c].pc) && !InMap(s, c) && !r.Refused?
      && (live <==> r.Reply?)
      && (r.Reply? ==> Answer(Request(c, s.callers[c].pc.t, s.callers[c].req), r.rep, r.ok) in s.net.answers
                       && s.callers[c].pc.Waiting?)
      && (!live ==> LeftOk(s.cm, left))
    case Snapshot => s.cm.closed
    case Sweeping(left) => LeftOk(s.cm, left)
    case Exited => s.cm.closed && s.cm.calls == map[]
    case Crashed => false
  }

  predicate Live(r: Reader) {
    r.Reading? || (r.Handing? && r.live)
  }

  /** Request m was written by the caller that waits in the map under its tag. */
  ghost predicate Owned(s: State, m: Request) {
    && m.tag in s.cm.calls && s.cm.calls[m.tag] == m.from && m.from in s.callers
    && s.callers[m.from] == Caller(m.req, Waiting(m.tag))
  }

  /** The requests on their way to the server; the greeting, until it is read, is in front of them. */
  function Requests(n: Net): seq<Request> {
    if n.greeted || n.up == [] then n.up else n.up[1..]
  }

  ghost predicate UpOk(s: State) {
    && (!s.net.greeted ==> s.net.up != [])
    && (forall i | 0 <= i < |Requests(s.net)| :: Owned(s, Requests(s.net)[i]))
  }

  ghost predicate BusyOk(s: State) {
    forall r | r in s.net.busy :: s.net.busy[r] == 1 && Owned(s, r)
  }

  /** Reply m is the server's answer to the request of a caller waiting in the map. */
  ghost predicate DeliveryOk(s: State, m: Response) {
    && m.tag in s.cm.calls && s.cm.calls[m.tag] in s.callers
    && s.callers[s.cm.calls[m.tag]].pc == Waiting(m.tag)
    && Answer(Request(s.cm.calls[m.tag], m.tag, s.callers[s.cm.calls[m.tag]].req), m.rep, m.ok) in s.net.answers
  }

  ghost predicate DownOk(s: State) {
    forall i | 0 <= i < |s.net.down| :: DeliveryOk(s, s.net.down[i])
  }

  /** A tag is in flight at most once. */
  ghost predicate UniqueAt(n: Net, t: nat) {
    && (forall i, j | 0 <= i < |Requests(n)| && 0 <= j < |Requests(n)| && Requests(n)[i].tag == t && Requests(n)[j].tag == t :: i == j)
    && (forall i, j | 0 <= i < |n.down| && 0 <= j < |n.down| && n.down[i].tag == t && n.down[j].tag == t :: i == j)
    && (forall r, q | r in n.busy && q in n.busy && r.tag == t && q.tag == t :: r == q)
    && (UpHas(n, t) ==> !BusyHas(n, t) && !DownHas(n, t))
    && (BusyHas(n, t) ==> !DownHas(n, t))
  }

  predicate UpHas(n: Net, t: nat) {
    exists i | 0 <= i < |Requests(n)| :: Requests(n)[i].tag == t
  }

  predicate BusyHas(n: Net, t: nat) {
    exists r | r in n.busy :: r.tag == t
  }

  predicate DownHas(n: Net, t: nat) {
    exists i | 0 <= i < |n.down| :: n.down[i].tag == t
  }

  predicate InFlight(n: Net, t: nat) {
    UpHas(n, t) || BusyHas(n, t) || DownHas(n, t)
  }

  ghost predicate Unique(n: Net) {
    forall t: nat :: UniqueAt(n, t)
  }

  /** What is known about the callers, the map and the reader. */
  ghost predicate Core(s: State) {
    && TagsOk(s)
    && MapOk(s)
    && (forall c | c in s.callers :: CallerOk(s, c))
    && ReaderOk(s)
  }

  /** What is known about the messages under way while the reader reads. */
  ghost predicate Flight(s: State) {
    UpOk(s) && BusyOk(s) && DownOk(s)
  }

  ghost predicate Safe(s: State) {
    Core(s) && (Live(s.reader) ==> Flight(s) && Unique(s.net))
  }

  // ----- Every step keeps what is known about the callers

  /** The reply at the front finds its caller. */
  ghost predicate FrontOk(s: State) {
    s.net.down != [] ==> DeliveryOk(s, s.net.down[0])
  }

  lemma CallersStay(s: State, step: Step)
    requires Core(s) && Enabled(s, step) && (s.reader.Reading? ==> FrontOk(s))
    ensures forall c | c in Do(s, step).callers :: CallerOk(Do(s, step), c)
  {
    forall c | c in Do(s, step).callers ensures CallerOk(Do(s, step), c) {
      assert CallerOk(s, c);
      PlaceStays(s, step, c);
      EndStays(s, step, c);
    }
  }

  lemma PlaceStays(s: State, step: Step, c: nat)
    requires TagsOk(s) && MapOk(s) && ReaderOk(s) && c in s.callers && CallerOk(s, c)
    requires Enabled(s, step) && (s.reader.Reading? ==> FrontOk(s))
    ensures Accepted(Do(s, step).callers[c].pc) ==>
              InMap(Do(s, step), c) || (Do(s, step).reader.Handing? && Do(s, step).reader.c == c)
  {
  }

  lemma EndStays(s: State, step: Step, c: nat)
    requires ReaderOk(s) && c in s.callers && (s.callers[c].pc.Ended? ==> EndedOk(s, c)) && Enabled(s, step)
    ensures Do(s, step).callers[c].pc.Ended? ==> EndedOk(Do(s, step), c)
  {
  }

  lemma TagsStay(s: State, step: Step)
    requires TagsOk(s) && Enabled(s, step)
    requires step.TakeTag? ==> Free(s)
    ensures TagsOk(Do(s, step))
  {
  }

  lemma MapStays(s: State, step: Step)
    requires TagsOk(s) && MapOk(s) && ReaderOk(s) && Enabled(s, step)
    ensures MapOk(Do(s, step))
  {
  }

  /** Sweeping one tag out of the map leaves the others to be swept. */
  lemma SweepLeaves(cm: CallMap, left: seq<nat>)
    requires LeftOk(cm, left) && left != []
    ensures left[0] in cm.calls && LeftOk(cm.(calls := cm.calls - {left[0]}), left[1..])
  {
    assert left[0] in left;
    assert left == [left[0]] + left[1..];
  }

  lemma ReaderStays(s: State, step: Step)
    requires TagsOk(s) && MapOk(s) && ReaderOk(s) && Enabled(s, step)
    requires s.reader.Reading? ==> FrontOk(s)
    ensures ReaderOk(Do(s, step))
  {
    match step
    case SweepOne => SweepLeaves(s.cm, s.reader.left);
    case TakeSnapshot(tags) =>
      assert forall t :: t in tags <==> t in (set x | x in tags);
    case SweepEnds =>
      assert s.cm.calls.Keys == {};
    case _ =>
  }

  // ----- Every step keeps what is known about the messages

  /** A caller that has not written yet has nothing under way. */
  lemma FreshTag(s: State, c: nat)
    requires Flight(s) && c in s.callers && s.callers[c].pc.Registered? && InMap(s, c)
    ensures !InFlight(s.net, s.callers[c].pc.t)
  {
    var t := s.callers[c].pc.t;
    forall i | 0 <= i < |Requests(s.net)| ensures Requests(s.net)[i].tag != t {
      assert Owned(s, Requests(s.net)[i]);
    }
    forall r | r in s.net.busy ensures r.tag != t {
    }
  }

  lemma WriteUnique(s: State, c: nat, t: nat)
    requires Flight(s) && Unique(s.net) && Enabled(s, Write(c, true)) && InMap(s, c)
    ensures UniqueAt(Do(s, Write(c, true)).net, t)
  {
    FreshTag(s, c);
    assert UniqueAt(s.net, t);
    var n := Do(s, Write(c, true)).net;
    assert Requests(n) == Requests(s.net) + [Request(c, s.callers[c].pc.t, s.callers[c].req)];
    assert UpHas(n, t) ==> UpHas(s.net, t) || t == s.callers[c].pc.t;
  }

  lemma GreetUnique(s: State, t: nat)
    requires Unique(s.net) && Enabled(s, Greet)
    ensures UniqueAt(Do(s, Greet).net, t)
  {
    assert UniqueAt(s.net, t);
    assert Requests(Do(s, Greet).net) == Requests(s.net);
  }

  lemma ServeUnique(s: State, t: nat)
    requires Unique(s.net) && Enabled(s, Serve)
    ensures UniqueAt(Do(s, Serve).net, t)
  {
    assert UniqueAt(s.net, t);
    var n := Do(s, Serve).net;
    assert Requests(s.net) == [s.net.up[0]] + Requests(n) && Requests(s.net)[0] == s.net.up[0];
    assert UpHas(n, t) ==> UpHas(s.net, t) && t != s.net.up[0].tag;
    assert BusyHas(n, t) ==> BusyHas(s.net, t) || t == s.net.up[0].tag;
  }

  lemma FinishUnique(s: State, r: Request, rep: Bytes, ok: bool, sent: bool, t: nat)
    requires Unique(s.net) && BusyOk(s) && Enabled(s, Finish(r, rep, ok, sent))
    ensures UniqueAt(Do(s, Finish(r, rep, ok, sent)).net, t)
  {
    assert UniqueAt(s.net, t);
    var n := Do(s, Finish(r, rep, ok, sent)).net;
    assert Requests(n) == Requests(s.net);
    assert DownHas(n, t) ==> DownHas(s.net, t) || t == r.tag;
    assert BusyHas(n, t) ==> BusyHas(s.net, t) && t != r.tag;
  }

  lemma ReadUnique(s: State, t: nat)
    requires Unique(s.net) && Enabled(s, ReadReply)
    ensures UniqueAt(Do(s, ReadReply).net, t)
  {
    assert UniqueAt(s.net, t);
    assert Requests(Do(s, ReadReply).net) == Requests(s.net);
    assert DownHas(Do(s, ReadReply).net, t) ==> DownHas(s.net, t);
  }

  lemma UniqueStays(s: State, step: Step)
    requires Flight(s) && Unique(s.net) && Enabled(s, step)
    requires step.Write? ==> InMap(s, step.c)
    ensures Unique(Do(s, step).net)
  {
    forall t: nat ensures UniqueAt(Do(s, step).net, t) {
      match step
      case Write(c, sent) => if sent { WriteUnique(s, c, t); }
      case Greet => GreetUnique(s, t);
      case Serve => ServeUnique(s, t);
      case Finish(r, rep, ok, sent) => FinishUnique(s, r, rep, ok, sent, t);
      case ReadReply => ReadUnique(s, t);
      case _ =>
    }
  }

  /** Everything but the message just read concerns other calls. */
  lemma OthersInFlight(n: Net)
    requires n.down != [] && UniqueAt(n, n.down[0].tag)
    ensures forall i | 0 <= i < |Requests(n)| :: Requests(n)[i].tag != n.down[0].tag
    ensures forall r | r in n.busy :: r.tag != n.down[0].tag
    ensures forall i | 1 <= i < |n.down| :: n.down[i].tag != n.down[0].tag
  {
    var t := n.down[0].tag;
    assert DownHas(n, t);
    forall i | 0 <= i < |Requests(n)| ensures Requests(n)[i].tag != t {
      assert Requests(n)[i].tag == t ==> UpHas(n, t);
    }
    forall r | r in n.busy ensures r.tag != t {
      assert r.tag == t ==> BusyHas(n, t);
    }
  }

  /** A waiting caller in the map stays there, except when its reply is read. */
  lemma OwnedStays(s: State, step: Step, m: Request)
    requires TagsOk(s) && ReaderOk(s) && Enabled(s, step) && Owned(s, m)
    requires Live(s.reader) && Live(Do(s, step).reader)
    requires step.ReadReply? ==> m.tag != s.net.down[0].tag
    ensures Owned(Do(s, step), m)
  {
  }

  lemma UpStays(s: State, step: Step)
    requires TagsOk(s) && ReaderOk(s) && UpOk(s) && Unique(s.net) && Enabled(s, step)
    requires Live(s.reader) && Live(Do(s, step).reader)
    requires step.Write? ==> InMap(s, step.c)
    ensures UpOk(Do(s, step))
  {
    var s' := Do(s, step);
    if step.ReadReply? {
      OthersInFlight(s.net);
    }
    forall i | 0 <= i < |Requests(s'.net)| ensures Owned(s', Requests(s'.net)[i]) {
      var m := Requests(s'.net)[i];
      if step.Write? && i == |Requests(s.net)| {
      } else {
        assert m in Requests(s.net);
        OwnedStays(s, step, m);
      }
    }
  }

  lemma BusyStays(s: State, step: Step)
    requires TagsOk(s) && ReaderOk(s) && UpOk(s) && BusyOk(s) && Unique(s.net) && Enabled(s, step)
    requires Live(s.reader) && Live(Do(s, step).reader)
    ensures BusyOk(Do(s, step))
  {
    var s' := Do(s, step);
    if step.ReadReply? {
      OthersInFlight(s.net);
    }
    if step.Serve? {
      NotServedYet(s.net);
      assert Owned(s, Requests(s.net)[0]);
    }
    forall r | r in s'.net.busy ensures s'.net.busy[r] == 1 && Owned(s', r) {
      OwnedStays(s, step, r);
    }
  }

  lemma NotServedYet(n: Net)
    requires Unique(n) && n.greeted && n.up != []
    ensures n.up[0] !in n.busy
  {
    var m := n.up[0];
    assert UniqueAt(n, m.tag);
    assert Requests(n)[0] == m && UpHas(n, m.tag);
    assert m in n.busy ==> BusyHas(n, m.tag);
  }

  lemma DownStays(s: State, step: Step)
    requires TagsOk(s) && ReaderOk(s) && BusyOk(s) && DownOk(s) && Unique(s.net) && Enabled(s, step)
    requires Live(s.reader) && Live(Do(s, step).reader)
    ensures DownOk(Do(s, step))
  {
    var s' := Do(s, step);
    if step.ReadReply? {
      OthersInFlight(s.net);
    }
    forall i | 0 <= i < |s'.net.down| ensures DeliveryOk(s', s'.net.down[i]) {
      var m := s'.net.down[i];
      if step.Finish? && i == |s.net.down| {
        OwnedStays(s, step, step.r);
      } else {
        assert DeliveryOk(s, m);
        OwnedStays(s, step, Request(s.cm.calls[m.tag], m.tag, s.callers[s.cm.calls[m.tag]].req));
      }
    }
  }

  lemma StepSafe(s: State, step: Step)
    requires Safe(s) && Enabled(s, step) && (step.TakeTag? ==> Free(s))
    ensures Safe(Do(s, step))
  {
    CallersStay(s, step);
    TagsStay(s, step);
    MapStays(s, step);
    ReaderStays(s, step);
    assert step.Write? ==> CallerOk(s, step.c);
    if Live(Do(s, step).reader) {
      UpStays(s, step);
      BusyStays(s, step);
      DownStays(s, step);
      UniqueStays(s, step);
    }
  }

  lemma {:induction false} RunSafe(s: State, steps: seq<Step>)
    requires Safe(s) && Valid(s, steps) && TagsFree(s, steps)
    ensures Safe(After(s, steps))
    decreases |steps|
  {
    if steps != [] {
      StepSafe(s, steps[0]);
      RunSafe(Do(s, steps[0]), steps[1..]);
    }
  }

  // ----- What callers may rely on

  /** Every call is matched: the reader never meets a reply nobody asked for; whoever it is handing a result
      to has had none and, for a reply, is listening; a caller's reply is the server's answer to that
      caller's own request, and it has another result only if the map was closed or a read failed; and once the
      reader has ended no accepted call is left. */
  ghost predicate Matched(s: State) {
    && !s.reader.Crashed?
    && (s.reader.Handing? ==> s.reader.c in s.callers && Accepted(s.callers[s.reader.c].pc)
                              && (s.reader.r.Reply? ==> Enabled(s, Hand)))
    && (forall c | c in s.callers && s.callers[c].pc.Ended? :: EndedOk(s, c))
    && (s.reader.Exited? ==> forall c | c in s.callers :: !Accepted(s.callers[c].pc))
  }

  lemma InitSafe(s: State)
    requires Init(s)
    ensures Safe(s)
  {
    assert Requests(s.net) == [];
    assert Unique(s.net) by {
      forall t: nat ensures UniqueAt(s.net, t) {
      }
    }
  }

  lemma SafeMatched(s: State)
    requires Safe(s)
    ensures Matched(s)
  {
    forall c | c in s.callers
      ensures (s.callers[c].pc.Ended? ==> EndedOk(s, c)) && (s.reader.Exited? ==> !Accepted(s.callers[c].pc))
    {
      assert CallerOk(s, c);
    }
  }

  /** Over every run in which no tag is reused while in use. */
  lemma CallsMatched(s: State, steps: seq<Step>)
    requires Init(s) && Valid(s, steps) && TagsFree(s, steps)
    ensures Matched(After(s, steps))
  {
    InitSafe(s);
    RunSafe(s, steps);
    SafeMatched(After(s, steps));
  }

  // ----- With at most 2^32 calls no tag is reused

  /** How many calls a run begins. */
  function Calls(steps: seq<Step>): nat {
    if steps == [] then 0 else (if steps[0].TakeTag? then 1 else 0) + Calls(steps[1..])
  }

  /** After k calls the tags 1 to k have been handed out, the last of 2^32 being 0. */
  ghost predicate Handed(s: State, k: nat) {
    && s.nextTag == (k + 1) % LIMIT
    && (forall c | c in s.callers && !s.callers[c].pc.New? ::
          1 <= s.callers[c].pc.t <= k || (s.callers[c].pc.t == 0 && k >= LIMIT))
  }

  lemma NextUnused(s: State, k: nat)
    requires MapOk(s) && Handed(s, k) && k < LIMIT
    ensures Unused(s, s.nextTag)
  {
    assert s.nextTag == if k + 1 == LIMIT then 0 else k + 1;
  }

  lemma StepHanded(s: State, step: Step, k: nat)
    requires Handed(s, k) && Enabled(s, step) && (step.TakeTag? ==> k < LIMIT)
    ensures Handed(Do(s, step), if step.TakeTag? then k + 1 else k)
  {
    if step.TakeTag? {
      assert s.nextTag == if k + 1 == LIMIT then 0 else k + 1;
      assert (s.nextTag + 1) % LIMIT == (k + 2) % LIMIT;
    }
  }

  lemma {:induction false} FewCallsFree(s: State, steps: seq<Step>, k: nat)
    requires Safe(s) && Valid(s, steps) && Handed(s, k) && k + Calls(steps) <= LIMIT
    ensures TagsFree(s, steps)
    decreases |steps|
  {
    if steps != [] {
      if steps[0].TakeTag? {
        NextUnused(s, k);
      }
      StepSafe(s, steps[0]);
      StepHanded(s, steps[0], k);
      FewCallsFree(Do(s, steps[0]), steps[1..], if steps[0].TakeTag? then k + 1 else k);
    }
  }

  /** Over every run of at most 2^32 calls on the connection. */
  lemma FewCallsMatched(s: State, steps: seq<Step>)
    requires Init(s) && Valid(s, steps) && Calls(steps) <= LIMIT
    ensures Matched(After(s, steps))
  {
    InitSafe(s);
    FewCallsFree(s, steps, 0);
    CallsMatched(s, steps);
  }

  // ----- A tag that is reused while in use loses a call

  /** Caller d waits, and nothing that could answer it is left. */
  ghost predicate Forgotten(s: State, d: nat) {
    && d in s.callers && s.callers[d].pc.Waiting?
    && (forall t | t in s.cm.calls :: s.cm.calls[t] != d)
    && !(s.reader.Handing? && s.reader.c == d)
  }

  lemma {:induction false} ForgottenStays(s: State, steps: seq<Step>, d: nat)
    requires Valid(s, steps) && Forgotten(s, d)
    ensures Forgotten(After(s, steps), d)
    decreases |steps|
  {
    if steps != [] {
      assert Forgotten(Do(s, steps[0]), d);
      ForgottenStays(Do(s, steps[0]), steps[1..], d);
    }
  }

  lemma SafeForgetsNone(s: State, d: nat)
    requires Safe(s)
    ensures !Forgotten(s, d)
  {
    assert d in s.callers ==> CallerOk(s, d);
  }

  /** Some continuation, with every later tag free, leaves a call waiting for ever. */
  ghost predicate CanLose(s: State) {
    exists rest, d :: Valid(s, rest) && TagsFree(s, rest) && Forgotten(After(s, rest), d)
  }

  /** The tag of a registered call d is handed to c: c's entry replaces d's. */
  lemma LosesRegistered(s: State, c: nat)
    requires Safe(s) && Enabled(s, TakeTag(c)) && !s.cm.closed && s.nextTag in s.cm.calls
    ensures CanLose(Do(s, TakeTag(c)))
  {
    var s1 := Do(s, TakeTag(c));
    var d := s.cm.calls[s.nextTag];
    var s2 := Do(s1, Register(c));
    if s.callers[d].pc.Waiting? {
      RunOne(s1, Register(c));
      assert Forgotten(s2, d);
    } else {
      RunTwo(s1, Register(c), Write(d, false));
      assert Forgotten(Do(s2, Write(d, false)), d);
    }
  }

  /** The tag of a call d that has yet to register is handed to c: d's entry replaces c's. */
  lemma LosesNewcomer(s: State, c: nat, d: nat)
    requires Safe(s) && Enabled(s, TakeTag(c)) && !s.cm.closed
    requires d in s.callers && s.callers[d].pc == Tagged(s.nextTag)
    ensures CanLose(Do(s, TakeTag(c)))
  {
    var s1 := Do(s, TakeTag(c));
    var s2 := Do(s1, Register(c));
    var s3 := Do(s2, Write(c, false));
    RunTwo(s2, Write(c, false), Register(d));
    assert [Register(c)] + [Write(c, false), Register(d)] == [Register(c), Write(c, false), Register(d)];
    RunCons(s1, Register(c), [Write(c, false), Register(d)]);
    assert Forgotten(Do(s3, Register(d)), c);
  }

  lemma RunCons(s: State, step: Step, rest: seq<Step>)
    requires Enabled(s, step) && Valid(Do(s, step), rest)
    ensures Valid(s, [step] + rest) && After(s, [step] + rest) == After(Do(s, step), rest)
    ensures !step.TakeTag? && TagsFree(Do(s, step), rest) ==> TagsFree(s, [step] + rest)
  {
    assert ([step] + rest)[1..] == rest;
  }

  lemma RunOne(s: State, a: Step)
    requires Enabled(s, a) && !a.TakeTag?
    ensures Valid(s, [a]) && TagsFree(s, [a]) && After(s, [a]) == Do(s, a)
  {
    RunCons(s, a, []);
    assert [a] + [] == [a];
  }

  lemma RunTwo(s: State, a: Step, b: Step)
    requires Enabled(s, a) && !a.TakeTag? && Enabled(Do(s, a), b) && !b.TakeTag?
    ensures Valid(s, [a, b]) && TagsFree(s, [a, b]) && After(s, [a, b]) == Do(Do(s, a), b)
  {
    RunOne(Do(s, a), b);
    RunCons(s, a, [b]);
    assert [a] + [b] == [a, b];
  }

  /** Handing out the next tag can cost a call its answer exactly when calls are still accepted and the tag is
      in use: by a registered call, or by one that has yet to register. */
  lemma ReuseExactly(s: State, c: nat)
    requires Safe(s) && Enabled(s, TakeTag(c))
    ensures CanLose(Do(s, TakeTag(c))) <==> !Free(s)
  {
    var s1 := Do(s, TakeTag(c));
    if Free(s) {
      StepSafe(s, TakeTag(c));
      forall rest, d | Valid(s1, rest) && TagsFree(s1, rest) ensures !Forgotten(After(s1, rest), d) {
        RunSafe(s1, rest);
        SafeForgetsNone(After(s1, rest), d);
      }
    } else if s.nextTag in s.cm.calls {
      LosesRegistered(s, c);
    } else {
      var d :| d in s.callers && s.callers[d].pc.Tagged? && s.callers[d].pc.t == s.nextTag;
      LosesNewcomer(s, c, d);
    }
  }
}
