/** The versioned key/value server: one goroutine takes operations from a queue and
    applies compare-version-then-write to an in-memory map. */
module KvServer {

  datatype Err = OK | ErrNoKey | ErrVersion | ErrMaybe

  datatype Cell = Cell(value: string, version: nat)

  type Store = map<string, Cell>

  datatype Op =
    | Get(key: string)
    | Put(key: string, value: string, version: nat)

  /** What the server answers, and also what the clerk hands to its caller. */
  datatype Reply =
    | Value(value: string, version: nat)
    | Status(err: Err)

  /** The version a reader sees; a key that does not exist has version 0. */
  function VersionOf(s: Store, k: string): nat {
    if k in s then s[k].version else 0
  }

  /** Stored versions start at 1. */
  predicate StoreOk(s: Store) {
    forall k | k in s :: s[k].version >= 1
  }

  /** One iteration of the server's loop: the new store and the answer. */
  function Apply(s: Store, op: Op): (Store, Reply) {
    match op
    case Get(k) =>
      if k in s then (s, Value(s[k].value, s[k].version)) else (s, Status(ErrNoKey))
    case Put(k, v, ver) =>
      if k in s then
        if s[k].version != ver then (s, Status(ErrVersion))
        else (s[k := Cell(v, s[k].version + 1)], Status(OK))
      else if ver == 0 then (s[k := Cell(v, 1)], Status(OK))
      else (s, Status(ErrNoKey))
  }

  /** The store after a sequence of operations, and the answers in order. */
  function ApplyAll(s: Store, ops: seq<Op>): (Store, seq<Reply>) {
    if ops == [] then (s, [])
    else
      var (s1, rs) := ApplyAll(s, ops[..|ops| - 1]);
      var (s2, r) := Apply(s1, ops[|ops| - 1]);
      (s2, rs + [r])
  }

  /** A write succeeds exactly when it names the current version; it then advances the version
      by one. Everything else leaves the store alone. No key ever disappears. */
  lemma ApplyEffect(s: Store, op: Op)
    requires StoreOk(s)
    ensures StoreOk(Apply(s, op).0)
    ensures forall k | k in s :: k in Apply(s, op).0
    ensures forall k :: VersionOf(s, k) <= VersionOf(Apply(s, op).0, k) <= VersionOf(s, k) + 1
    ensures op.Put? ==> (Apply(s, op).1 == Status(OK) <==> op.version == VersionOf(s, op.key))
    ensures op.Put? && op.version == VersionOf(s, op.key)
            ==> Apply(s, op).0 == s[op.key := Cell(op.value, op.version + 1)]
    ensures !(op.Put? && op.version == VersionOf(s, op.key)) ==> Apply(s, op).0 == s
  {
  }

  class Server {
    var kv: map<string, Cell>
    var opQ: seq<Op>

    constructor ()
      ensures kv == map[] && opQ == []
    {
      kv := map[];
      opQ := [];
    }

    /** A handler puts its operation at the back of the queue. */
    method Enqueue(op: Op)
      modifies this`opQ
      ensures opQ == old(opQ) + [op]
    {
      opQ := opQ + [op];
    }

    /** One round of the loop: take the oldest operation and answer it. */
    method ServeOne() returns (reply: Reply)
      requires opQ != []
      modifies this
      ensures opQ == old(opQ[1..])
      ensures (kv, reply) == Apply(old(kv), old(opQ[0]))
    {
      var op := opQ[0];
      opQ := opQ[1..];
      match op {
        case Get(k) =>
          if k in kv {
            reply := Value(kv[k].value, kv[k].version);
          } else {
            reply := Status(ErrNoKey);
          }
        case Put(k, v, ver) =>
          if k in kv {
            if kv[k].version != ver {
              reply := Status(ErrVersion);
              return;
            }
            kv := kv[k := Cell(v, kv[k].version + 1)];
            reply := Status(OK);
          } else if ver == 0 {
            kv := kv[k := Cell(v, 1)];
            reply := Status(OK);
          } else {
            reply := Status(ErrNoKey);
          }
      }
    }

    /** The loop until the queue is empty: every queued operation is answered once, in order. */
    method Drain() returns (replies: seq<Reply>)
      modifies this
      ensures opQ == []
      ensures (kv, replies) == ApplyAll(old(kv), old(opQ))
    {
      replies := [];
      ghost var n := 0;
      while opQ != []
        invariant 0 <= n <= |old(opQ)| && opQ == old(opQ)[n..]
        invariant (kv, replies) == ApplyAll(old(kv), old(opQ)[..n])
        decreases |opQ|
      {
        assert old(opQ)[..n + 1][..n] == old(opQ)[..n];
        var reply := ServeOne();
        replies := replies + [reply];
        n := n + 1;
      }
      assert old(opQ)[..n] == old(opQ);
    }
  }
}
