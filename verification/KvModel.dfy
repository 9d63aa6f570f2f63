/** The sequential specification the test harness checks client histories against, one key at a
    time, and why checking one key at a time is enough. */
module KvModel {
  import opened KvServer
  import Strings

  /** One completed client operation, with the times the caller read before and after it. */
  datatype Operation = Operation(client: nat, input: Op, call: nat, output: Reply, ret: nat)

  datatype KvState = KvState(value: string, version: nat)

  const InitState := KvState("", 0)

  function OutValue(out: Reply): string {
    if out.Value? then out.value else ""
  }

  /** Is this output acceptable in this state, and what is the next state? */
  function Step(st: KvState, input: Op, out: Reply): (bool, KvState) {
    match input
    case Get(_) => (OutValue(out) == st.value, st)
    case Put(_, v, ver) =>
      if st.version == ver
      then (out == Status(OK) || out == Status(ErrMaybe), KvState(v, st.version + 1))
      else (out == Status(ErrVersion) || out == Status(ErrMaybe), st)
  }

  /** The operations of one key, in this order, are acceptable from state st. */
  predicate KeyLegal(st: KvState, ops: seq<Operation>)
    decreases |ops|
  {
    ops == [] ||
    var (ok, next) := Step(st, ops[0].input, ops[0].output);
    ok && KeyLegal(next, ops[1..])
  }

  function StateOf(m: map<string, KvState>, k: string): KvState {
    if k in m then m[k] else InitState
  }

  /** The same for operations on any keys, against the whole map. */
  predicate MapLegal(m: map<string, KvState>, ops: seq<Operation>)
    decreases |ops|
  {
    ops == [] ||
    var k := ops[0].input.key;
    var (ok, next) := Step(StateOf(m, k), ops[0].input, ops[0].output);
    ok && MapLegal(m[k := next], ops[1..])
  }

  /** An operation that returned before another was called does not come after it. */
  ghost predicate RealTime(ops: seq<Operation>) {
    forall i, j | 0 <= i < j < |ops| :: !(ops[j].ret < ops[i].call)
  }

  ghost predicate KeyLinearizable(h: seq<Operation>) {
    exists lin :: multiset(lin) == multiset(h) && RealTime(lin) && KeyLegal(InitState, lin)
  }

  ghost predicate Linearizable(h: seq<Operation>) {
    exists lin :: multiset(lin) == multiset(h) && RealTime(lin) && MapLegal(map[], lin)
  }

  /** The clock never runs backwards during an operation. */
  predicate Timed(h: seq<Operation>) {
    forall i | 0 <= i < |h| :: h[i].call <= h[i].ret
  }

  // ----- Partitioning a history by key

  function ForKey(h: seq<Operation>, k: string): seq<Operation> {
    if h == [] then []
    else if h[0].input.key == k then [h[0]] + ForKey(h[1..], k)
    else ForKey(h[1..], k)
  }

  function Keys(h: seq<Operation>): set<string> {
    set op | op in h :: op.input.key
  }

  lemma {:induction false} ForKeyAppend(h: seq<Operation>, op: Operation, k: string)
    ensures ForKey(h + [op], k) == ForKey(h, k) + (if op.input.key == k then [op] else [])
  {
    if h == [] {
      assert h + [op] == [op];
    } else {
      ForKeyAppend(h[1..], op, k);
      assert (h + [op])[1..] == h[1..] + [op];
    }
  }

  ghost predicate ListedByKey(m: map<string, seq<Operation>>, h: seq<Operation>) {
    && m.Keys == Keys(h)
    && (forall k | k in m :: m[k] == ForKey(h, k))
    && (forall k | k !in m :: ForKey(h, k) == [])
  }

  lemma ListOneMore(m: map<string, seq<Operation>>, h: seq<Operation>, op: Operation)
    requires ListedByKey(m, h)
    ensures var key := op.input.key;
            ListedByKey(m[key := (if key in m then m[key] else []) + [op]], h + [op])
  {
    var key := op.input.key;
    var m' := m[key := (if key in m then m[key] else []) + [op]];
    KeysAppend(h, op);
    forall k ensures ForKey(h + [op], k) == if k in m' then m'[k] else [] {
      ForKeyAppend(h, op, k);
    }
  }

  lemma KeysAppend(h: seq<Operation>, op: Operation)
    ensures Keys(h + [op]) == Keys(h) + {op.input.key}
  {
    assert forall x :: x in h + [op] <==> x in h || x == op;
  }

  /** The test harness's Partition: one list per key, the keys ascending, each list being exactly the
      operations of that key in the order of the history. */
  method Partition(history: seq<Operation>) returns (keys: seq<string>, parts: seq<seq<Operation>>)
    ensures Strings.Ascending(keys) && (set k | k in keys) == Keys(history)
    ensures |parts| == |keys| && forall i | 0 <= i < |keys| :: parts[i] == ForKey(history, keys[i])
  {
    var m: map<string, seq<Operation>> := map[];
    for i := 0 to |history|
      invariant ListedByKey(m, history[..i])
    {
      var op := history[i];
      var key := op.input.key;
      ListOneMore(m, history[..i], op);
      assert history[..i + 1] == history[..i] + [op];
      var had := if key in m then m[key] else [];
      m := m[key := had + [op]];
    }
    assert history[..|history|] == history;
    keys := Strings.SortedKeys(m.Keys);
    parts := [];
    for i := 0 to |keys|
      invariant |parts| == i && forall j | 0 <= j < i :: parts[j] == ForKey(history, keys[j])
    {
      assert keys[i] in (set k | k in keys);
      parts := parts + [m[keys[i]]];
    }
  }

  // ----- From the whole map to each key

  lemma {:induction false} ForKeyCount(h: seq<Operation>, k: string, x: Operation)
    ensures multiset(ForKey(h, k))[x] == if x.input.key == k then multiset(h)[x] else 0
  {
    if h != [] {
      ForKeyCount(h[1..], k, x);
      assert h == [h[0]] + h[1..];
    }
  }

  lemma ForKeyMultiset(a: seq<Operation>, b: seq<Operation>, k: string)
    requires multiset(a) == multiset(b)
    ensures multiset(ForKey(a, k)) == multiset(ForKey(b, k))
  {
    forall x ensures multiset(ForKey(a, k))[x] == multiset(ForKey(b, k))[x] {
      ForKeyCount(a, k, x);
      ForKeyCount(b, k, x);
    }
  }

  lemma ForKeyIn(h: seq<Operation>, k: string, x: Operation)
    ensures x in ForKey(h, k) <==> x in h && x.input.key == k
  {
    ForKeyCount(h, k, x);
    assert x in h <==> x in multiset(h);
    assert x in ForKey(h, k) <==> x in multiset(ForKey(h, k));
  }

  lemma {:induction false} ForKeyRealTime(h: seq<Operation>, k: string)
    requires RealTime(h)
    ensures RealTime(ForKey(h, k))
  {
    if h != [] {
      ForKeyRealTime(h[1..], k);
      var rest := ForKey(h[1..], k);
      forall j | 0 <= j < |rest| ensures !(rest[j].ret < h[0].call) {
        ForKeyIn(h[1..], k, rest[j]);
        assert rest[j] in rest;
      }
    }
  }

  /** A map-legal order is one whose every key sees a legal order of its own. */
  lemma {:induction false} LegalByKey(m: map<string, KvState>, ops: seq<Operation>)
    ensures MapLegal(m, ops) <==> forall k :: KeyLegal(StateOf(m, k), ForKey(ops, k))
    decreases |ops|
  {
    if ops != [] {
      var key := ops[0].input.key;
      var (ok, next) := Step(StateOf(m, key), ops[0].input, ops[0].output);
      var m' := m[key := next];
      LegalByKey(m', ops[1..]);
      assert ForKey(ops, key)[1..] == ForKey(ops[1..], key);
      assert KeyLegal(StateOf(m, key), ForKey(ops, key)) <==> ok && KeyLegal(StateOf(m', key), ForKey(ops[1..], key));
      assert forall k | k != key :: StateOf(m', k) == StateOf(m, k) && ForKey(ops, k) == ForKey(ops[1..], k);
    }
  }

  lemma WholeToParts(h: seq<Operation>, k: string)
    requires Linearizable(h)
    ensures KeyLinearizable(ForKey(h, k))
  {
    var lin :| multiset(lin) == multiset(h) && RealTime(lin) && MapLegal(map[], lin);
    ForKeyMultiset(lin, h, k);
    ForKeyRealTime(lin, k);
    LegalByKey(map[], lin);
    assert KeyLegal(StateOf(map[], k), ForKey(lin, k));
  }

  // ----- From each key back to the whole map

  /** x may be placed before everything in ops. */
  ghost predicate MayPrecede(x: Operation, ops: seq<Operation>) {
    forall j | 0 <= j < |ops| :: !(ops[j].ret < x.call)
  }

  /** Of two orders that respect time, one has a head that may come before all of the other. */
  lemma SomeHeadFits(a: seq<Operation>, b: seq<Operation>)
    requires a != [] && b != [] && RealTime(a) && RealTime(b) && Timed(a) && Timed(b)
    ensures MayPrecede(a[0], b) || MayPrecede(b[0], a)
  {
    if !MayPrecede(a[0], b) {
      var j :| 0 <= j < |b| && b[j].ret < a[0].call;
      assert b[0].call <= b[j].ret;
      forall i | 0 <= i < |a| ensures !(a[i].ret < b[0].call) {
        assert a[0].call <= a[i].ret;
      }
    }
  }

  /** c is made of a and of b, whose key is k0, keeps the order of each, and respects time. */
  ghost predicate Merged(a: seq<Operation>, b: seq<Operation>, k0: string, c: seq<Operation>) {
    && multiset(c) == multiset(a) + multiset(b)
    && RealTime(c) && Timed(c)
    && forall k :: ForKey(c, k) == if k == k0 then b else ForKey(a, k)
  }

  lemma MergedLeft(a: seq<Operation>, b: seq<Operation>, k0: string, c: seq<Operation>)
    requires a != [] && RealTime(a) && Timed(a) && MayPrecede(a[0], b) && a[0].input.key != k0
    requires Merged(a[1..], b, k0, c)
    ensures Merged(a, b, k0, [a[0]] + c)
  {
    assert a == [a[0]] + a[1..];
    Prepend(a[0], a[1..], b, c);
    assert ([a[0]] + c)[1..] == c;
  }

  lemma MergedRight(a: seq<Operation>, b: seq<Operation>, k0: string, c: seq<Operation>)
    requires b != [] && RealTime(b) && Timed(b) && MayPrecede(b[0], a) && b[0].input.key == k0
    requires (forall x | x in a :: x.input.key != k0) && Merged(a, b[1..], k0, c)
    ensures Merged(a, b, k0, [b[0]] + c)
  {
    assert b == [b[0]] + b[1..];
    Prepend(b[0], b[1..], a, c);
    assert ([b[0]] + c)[1..] == c;
  }

  /** Interleave orders of different keys without turning real time around. */
  lemma {:induction false} Merge(a: seq<Operation>, b: seq<Operation>, k0: string) returns (c: seq<Operation>)
    requires RealTime(a) && RealTime(b) && Timed(a) && Timed(b)
    requires forall x | x in a :: x.input.key != k0
    requires forall x | x in b :: x.input.key == k0
    ensures Merged(a, b, k0, c)
    decreases |a| + |b|
  {
    if b == [] {
      c := a;
      NoneForKey(a, k0);
    } else if a == [] {
      c := b;
      AllForKey(b, k0);
    } else {
      SomeHeadFits(a, b);
      if MayPrecede(a[0], b) {
        var c' := Merge(a[1..], b, k0);
        c := [a[0]] + c';
        MergedLeft(a, b, k0, c');
      } else {
        var c' := Merge(a, b[1..], k0);
        c := [b[0]] + c';
        MergedRight(a, b, k0, c');
      }
    }
  }

  lemma {:induction false} NoneForKey(a: seq<Operation>, k0: string)
    requires forall x | x in a :: x.input.key != k0
    ensures ForKey(a, k0) == []
  {
    if a != [] {
      NoneForKey(a[1..], k0);
    }
  }

  lemma {:induction false} AllForKey(b: seq<Operation>, k0: string)
    requires forall x | x in b :: x.input.key == k0
    ensures forall k :: ForKey(b, k) == if k == k0 then b else []
  {
    if b != [] {
      AllForKey(b[1..], k0);
      assert b == [b[0]] + b[1..];
    }
  }

  lemma Prepend(x: Operation, own: seq<Operation>, other: seq<Operation>, c: seq<Operation>)
    requires multiset(c) == multiset(own) + multiset(other) || multiset(c) == multiset(other) + multiset(own)
    requires RealTime([x] + own) && MayPrecede(x, other) && RealTime(c) && Timed(c) && x.call <= x.ret
    ensures RealTime([x] + c) && Timed([x] + c)
  {
    forall j | 0 <= j < |c| ensures !(c[j].ret < x.call) {
      assert c[j] in multiset(c);
      if c[j] in own {
        var i :| 0 <= i < |own| && own[i] == c[j];
        assert ([x] + own)[0] == x && ([x] + own)[i + 1] == c[j];
      } else {
        assert c[j] in multiset(other);
        var i :| 0 <= i < |other| && other[i] == c[j];
      }
    }
  }

  /** The keys listed can be linearized together. */
  lemma {:induction false} PartsToWhole(h: seq<Operation>, keys: seq<string>) returns (lin: seq<Operation>)
    requires Timed(h)
    requires forall i, j | 0 <= i < j < |keys| :: keys[i] != keys[j]
    requires forall k | k in keys :: KeyLinearizable(ForKey(h, k))
    ensures RealTime(lin) && Timed(lin)
    ensures forall k | k in keys :: KeyLegal(InitState, ForKey(lin, k))
    ensures forall k | k !in keys :: ForKey(lin, k) == []
    ensures forall x :: multiset(lin)[x] == if x.input.key in keys then multiset(h)[x] else 0
    decreases |keys|
  {
    if keys == [] {
      lin := [];
    } else {
      var k0, rest := keys[0], keys[1..];
      var a := PartsToWhole(h, rest);
      assert KeyLinearizable(ForKey(h, k0));
      var b :| multiset(b) == multiset(ForKey(h, k0)) && RealTime(b) && KeyLegal(InitState, b);
      lin := AddKey(h, rest, k0, a, b);
    }
  }

  lemma AddKey(h: seq<Operation>, rest: seq<string>, k0: string, a: seq<Operation>, b: seq<Operation>)
    returns (lin: seq<Operation>)
    requires Timed(h) && k0 !in rest && RealTime(a) && Timed(a) && RealTime(b)
    requires forall x :: multiset(a)[x] == if x.input.key in rest then multiset(h)[x] else 0
    requires multiset(b) == multiset(ForKey(h, k0))
    ensures RealTime(lin) && Timed(lin)
    ensures forall k :: ForKey(lin, k) == if k == k0 then b else ForKey(a, k)
    ensures forall x :: multiset(lin)[x] == if x.input.key == k0 || x.input.key in rest then multiset(h)[x] else 0
  {
    KeyOrderFacts(h, k0, b);
    forall x | x in a ensures x.input.key != k0 {
      assert multiset(a)[x] > 0;
    }
    lin := Merge(a, b, k0);
    forall x ensures multiset(lin)[x] == if x.input.key == k0 || x.input.key in rest then multiset(h)[x] else 0 {
      ForKeyCount(h, k0, x);
    }
  }

  lemma KeyOrderFacts(h: seq<Operation>, k: string, b: seq<Operation>)
    requires Timed(h) && multiset(b) == multiset(ForKey(h, k))
    ensures Timed(b) && forall x | x in b :: x.input.key == k
  {
    forall i | 0 <= i < |b| ensures b[i].call <= b[i].ret && b[i].input.key == k {
      assert b[i] in multiset(b);
      ForKeyIn(h, k, b[i]);
    }
  }

  lemma SequenceOf(keys: set<string>) returns (ks: seq<string>)
    ensures forall k :: k in ks <==> k in keys
    ensures forall i, j | 0 <= i < j < |ks| :: ks[i] != ks[j]
  {
    ks := [];
    var left := keys;
    while left != {}
      invariant left <= keys && (forall k :: k in ks <==> k in keys - left)
      invariant forall i, j | 0 <= i < j < |ks| :: ks[i] != ks[j]
      decreases |left|
    {
      var k :| k in left;
      assert k !in ks;
      ks, left := ks + [k], left - {k};
    }
  }

  /** Linearizing each key by itself is enough. */
  lemma PartsSuffice(h: seq<Operation>)
    requires Timed(h) && forall k | k in Keys(h) :: KeyLinearizable(ForKey(h, k))
    ensures Linearizable(h)
  {
    var ks := SequenceOf(Keys(h));
    var lin := PartsToWhole(h, ks);
    assert multiset(lin) == multiset(h) by {
      forall x ensures multiset(lin)[x] == multiset(h)[x] {
        if x in h {
          assert x.input.key in Keys(h);
        } else {
          assert x !in multiset(h);
        }
      }
    }
    forall k ensures KeyLegal(StateOf(map[], k), ForKey(lin, k)) {
      assert StateOf(map[], k) == InitState;
    }
    LegalByKey(map[], lin);
  }

  /** Checking by key is sound and complete: a history can be linearized against the whole map
      exactly when the list of each of its keys can be linearized by itself. */
  lemma CheckByKey(h: seq<Operation>)
    requires Timed(h)
    ensures Linearizable(h) <==> forall k | k in Keys(h) :: KeyLinearizable(ForKey(h, k))
  {
    if Linearizable(h) {
      forall k | k in Keys(h) ensures KeyLinearizable(ForKey(h, k)) {
        WholeToParts(h, k);
      }
    }
    if forall k | k in Keys(h) :: KeyLinearizable(ForKey(h, k)) {
      PartsSuffice(h);
    }
  }
}
