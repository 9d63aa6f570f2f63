/** What the sequential specification says of an order of operations, without running it: which writes count, what a
    read must return, and so which histories cannot be explained. */
module Orders {
  import opened KvServer
  import opened KvModel

  // ----- One key

  /** How many of the first n operations wrote. */
  function Written(ops: seq<Operation>, n: nat): nat
    requires n <= |ops|
    decreases n, 0
  {
    if n == 0 then 0 else Written(ops, n - 1) + (if Writes(ops, n - 1) then 1 else 0)
  }

  /** Operation i is a Put that names the number of writes before it. */
  predicate Writes(ops: seq<Operation>, i: nat)
    requires i < |ops|
    decreases i, 1
  {
    ops[i].input.Put? && ops[i].input.version == Written(ops, i)
  }

  /** Operation j is the last write before i. */
  ghost predicate LastWrite(ops: seq<Operation>, i: nat, j: nat)
    requires i <= |ops|
  {
    j < i && Writes(ops, j) && forall k | j < k < i :: !Writes(ops, k)
  }

  /** v is what the key holds before operation i: the value of the last write, or "" if there was none. */
  ghost predicate Holds(ops: seq<Operation>, i: nat, v: string)
    requires i <= |ops|
  {
    || ((forall k | 0 <= k < i :: !Writes(ops, k)) && v == "")
    || (exists j: nat :: LastWrite(ops, i, j) && ops[j].input.value == v)
  }

  /** Operation i got an answer that fits what came before it. */
  ghost predicate Fits(ops: seq<Operation>, i: nat)
    requires i < |ops|
  {
    if ops[i].input.Get? then Holds(ops, i, OutValue(ops[i].output))
    else if Writes(ops, i) then ops[i].output in {Status(OK), Status(ErrMaybe)}
    else ops[i].output in {Status(ErrVersion), Status(ErrMaybe)}
  }

  /** The state the specification is in after the first n operations. */
  function After(ops: seq<Operation>, n: nat): KvState
    requires n <= |ops|
  {
    if n == 0 then InitState else Step(After(ops, n - 1), ops[n - 1].input, ops[n - 1].output).1
  }

  lemma {:induction false} AfterMeans(ops: seq<Operation>, n: nat)
    requires n <= |ops|
    ensures After(ops, n).version == Written(ops, n) && Holds(ops, n, After(ops, n).value)
  {
    if n > 0 {
      AfterMeans(ops, n - 1);
      if Writes(ops, n - 1) {
        assert LastWrite(ops, n, n - 1);
      } else if !forall k | 0 <= k < n - 1 :: !Writes(ops, k) {
        var j: nat :| LastWrite(ops, n - 1, j) && ops[j].input.value == After(ops, n - 1).value;
        assert LastWrite(ops, n, j);
      }
    }
  }

  lemma HoldsOne(ops: seq<Operation>, i: nat, v: string, v': string)
    requires i <= |ops| && Holds(ops, i, v) && Holds(ops, i, v')
    ensures v == v'
  {
  }

  lemma {:induction false} LegalFrom(ops: seq<Operation>, n: nat)
    requires n <= |ops|
    ensures KeyLegal(After(ops, n), ops[n..]) <==>
            forall i | n <= i < |ops| :: Step(After(ops, i), ops[i].input, ops[i].output).0
    decreases |ops| - n
  {
    if n < |ops| {
      LegalFrom(ops, n + 1);
      assert ops[n..][1..] == ops[n + 1..];
    }
  }

  lemma StepFits(ops: seq<Operation>, i: nat)
    requires i < |ops|
    ensures Step(After(ops, i), ops[i].input, ops[i].output).0 <==> Fits(ops, i)
  {
    AfterMeans(ops, i);
    if ops[i].input.Get? && Fits(ops, i) {
      HoldsOne(ops, i, After(ops, i).value, OutValue(ops[i].output));
    }
  }

  /** An order of one key's operations is legal exactly if every Get returned what the key held, and every Put was
      acknowledged or refused as its version says, or left in doubt. */
  lemma LegalMeans(ops: seq<Operation>)
    ensures KeyLegal(InitState, ops) <==> forall i | 0 <= i < |ops| :: Fits(ops, i)
  {
    LegalFrom(ops, 0);
    assert ops[0..] == ops;
    forall i | 0 <= i < |ops| ensures Step(After(ops, i), ops[i].input, ops[i].output).0 <==> Fits(ops, i) {
      StepFits(ops, i);
    }
  }

  // ----- Histories

  /** Some Put of k in h wrote v. */
  ghost predicate SomePut(h: seq<Operation>, k: string, v: string) {
    exists y :: y in h && y.input.Put? && y.input.key == k && y.input.value == v
  }

  /** In a linearizable history, some legal order of the operations of k respects real time. */
  lemma KeyOrder(h: seq<Operation>, k: string) returns (ops: seq<Operation>)
    requires Linearizable(h)
    ensures KeyLegal(InitState, ops) && RealTime(ops)
    ensures forall x :: x in ops <==> x in h && x.input.key == k
  {
    WholeToParts(h, k);
    ops :| multiset(ops) == multiset(ForKey(h, k)) && RealTime(ops) && KeyLegal(InitState, ops);
    forall x ensures x in ops <==> x in h && x.input.key == k {
      assert x in ops <==> x in multiset(ops);
      assert x in ForKey(h, k) <==> x in multiset(ForKey(h, k));
      ForKeyIn(h, k, x);
    }
  }

  /** In a linearizable history a Get returns "" or something a Put of its key wrote. */
  lemma ReadHasSource(h: seq<Operation>, g: Operation)
    requires Linearizable(h) && g in h && g.input.Get?
    ensures OutValue(g.output) == "" || SomePut(h, g.input.key, OutValue(g.output))
  {
    var ops := KeyOrder(h, g.input.key);
    LegalMeans(ops);
    var i :| 0 <= i < |ops| && ops[i] == g;
    assert Fits(ops, i);
    if OutValue(g.output) != "" {
      var j: nat :| LastWrite(ops, i, j) && ops[j].input.value == OutValue(g.output);
      assert ops[j] in ops;
    }
  }

  /** Some Put of k wrote v and was not over when p began. */
  ghost predicate SomeLaterPut(h: seq<Operation>, k: string, v: string, p: Operation) {
    exists y :: y in h && y.input.Put? && y.input.key == k && y.input.value == v && !(y.ret < p.call)
  }

  /** And it returns nothing older than a Put that was acknowledged before it began. */
  lemma ReadIsFresh(h: seq<Operation>, g: Operation, p: Operation)
    requires Linearizable(h) && g in h && g.input.Get?
    requires p in h && p.input.Put? && p.input.key == g.input.key && p.output == Status(OK) && p.ret < g.call
    ensures p.input.value == OutValue(g.output) || SomeLaterPut(h, g.input.key, OutValue(g.output), p)
  {
    var ops := KeyOrder(h, g.input.key);
    var i :| 0 <= i < |ops| && ops[i] == g;
    var q :| 0 <= q < |ops| && ops[q] == p;
    var j := FreshIn(ops, i, q);
    assert ops[j] in ops;
  }

  /** The same in an order of one key's operations. */
  lemma FreshIn(ops: seq<Operation>, i: nat, q: nat) returns (j: nat)
    requires KeyLegal(InitState, ops) && RealTime(ops) && i < |ops| && q < |ops| && ops[i].input.Get?
    requires ops[q].input.Put? && ops[q].output == Status(OK) && ops[q].ret < ops[i].call
    ensures q <= j < i && ops[j].input.Put? && ops[j].input.value == OutValue(ops[i].output)
  {
    LegalMeans(ops);
    assert Fits(ops, i) && Fits(ops, q);
    assert Writes(ops, q) && q < i;
    j :| LastWrite(ops, i, j) && ops[j].input.value == OutValue(ops[i].output);
  }

  /** So a history with a Get of a value nobody wrote has no legal order. */
  lemma ReadOfNothing(h: seq<Operation>, g: Operation)
    requires g in h && g.input.Get? && OutValue(g.output) != "" && !SomePut(h, g.input.key, OutValue(g.output))
    ensures !Linearizable(h)
  {
    if Linearizable(h) {
      ReadHasSource(h, g);
    }
  }

  /** Nor has one with a Get of a value that was overwritten before it began: p was acknowledged before g, with another
      value than g returned, after every Put of that value was over. */
  lemma StaleRead(h: seq<Operation>, g: Operation, p: Operation)
    requires g in h && g.input.Get?
    requires p in h && p.input.Put? && p.input.key == g.input.key && p.output == Status(OK) && p.ret < g.call
    requires p.input.value != OutValue(g.output) && !SomeLaterPut(h, g.input.key, OutValue(g.output), p)
    ensures !Linearizable(h)
  {
    if Linearizable(h) {
      ReadIsFresh(h, g, p);
    }
  }
}
