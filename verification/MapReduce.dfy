/** What a MapReduce job computes: the worker's map and reduce tasks, the sequential program, and why
    splitting the work over reducers gives the same answer. */
module MapReduce {
  import opened Strings

  datatype KeyValue = KeyValue(key: string, value: string)

  /** An intermediate file: for each key, the values emitted for it. */
  type Contents = map<string, seq<string>>

  type Results = map<string, string>

  /** The inputs, the number of reducers, and the plug-in's functions. */
  datatype Job = Job(
    files: seq<string>,
    texts: seq<string>,
    nReduce: nat,
    mapf: (string, string) -> seq<KeyValue>,
    reducef: (string, seq<string>) -> string,
    ihash: string -> nat)

  predicate GoodJob(job: Job) {
    |job.files| == |job.texts| && job.nReduce >= 1
  }

  /** The values emitted for k, in order. */
  function ValuesOf(kvs: seq<KeyValue>, k: string): seq<string> {
    if kvs == [] then []
    else ValuesOf(kvs[..|kvs| - 1], k) + (if kvs[|kvs| - 1].key == k then [kvs[|kvs| - 1].value] else [])
  }

  function KeysOf(kvs: seq<KeyValue>): set<string> {
    set kv | kv in kvs :: kv.key
  }

  lemma {:induction false} ValuesConcat(a: seq<KeyValue>, b: seq<KeyValue>, k: string)
    ensures ValuesOf(a + b, k) == ValuesOf(a, k) + ValuesOf(b, k)
    decreases |b|
  {
    if b == [] {
      assert a + b == a;
    } else {
      var init := b[..|b| - 1];
      ValuesConcat(a, init, k);
      assert (a + b)[..|a + b| - 1] == a + init;
    }
  }

  lemma {:induction false} ValuesNone(kvs: seq<KeyValue>, k: string)
    ensures ValuesOf(kvs, k) == [] <==> k !in KeysOf(kvs)
  {
    if kvs != [] {
      var init, last := kvs[..|kvs| - 1], kvs[|kvs| - 1];
      ValuesNone(init, k);
      assert kvs == init + [last];
      assert forall kv :: kv in kvs <==> kv in init || kv == last;
    }
  }

  lemma {:induction false} ValuesCount(kvs: seq<KeyValue>, k: string, v: string)
    ensures multiset(ValuesOf(kvs, k))[v] == multiset(kvs)[KeyValue(k, v)]
  {
    if kvs != [] {
      var init, last := kvs[..|kvs| - 1], kvs[|kvs| - 1];
      ValuesCount(init, k, v);
      assert kvs == init + [last];
    }
  }

  lemma ValuesPermuted(a: seq<KeyValue>, b: seq<KeyValue>, k: string)
    requires multiset(a) == multiset(b)
    ensures multiset(ValuesOf(a, k)) == multiset(ValuesOf(b, k))
  {
    forall v ensures multiset(ValuesOf(a, k))[v] == multiset(ValuesOf(b, k))[v] {
      ValuesCount(a, k, v);
      ValuesCount(b, k, v);
    }
  }

  // ----- A map task

  /** What a map task leaves for reducer r. */
  function Bucket(kvs: seq<KeyValue>, ihash: string -> nat, n: nat, r: nat): Contents
    requires n >= 1
  {
    map k | k in KeysOf(kvs) && ihash(k) % n == r :: ValuesOf(kvs, k)
  }

  /** A bucket after one more pair, if the pair belongs to it. */
  function AddTo(b: Contents, kv: KeyValue, belongs: bool): Contents {
    if belongs then b[kv.key := (if kv.key in b then b[kv.key] else []) + [kv.value]] else b
  }

  lemma BucketAppend(kvs: seq<KeyValue>, kv: KeyValue, ihash: string -> nat, n: nat, r: nat)
    requires n >= 1
    ensures Bucket(kvs + [kv], ihash, n, r) == AddTo(Bucket(kvs, ihash, n, r), kv, ihash(kv.key) % n == r)
  {
    assert (kvs + [kv])[..|kvs|] == kvs;
    assert KeysOf(kvs + [kv]) == KeysOf(kvs) + {kv.key} by {
      assert forall x :: x in kvs + [kv] <==> x in kvs || x == kv;
    }
    ValuesNone(kvs, kv.key);
    assert forall k | k != kv.key :: ValuesOf(kvs + [kv], k) == ValuesOf(kvs, k);
  }

  /** The worker's map task: every emitted pair goes to the file of reducer ihash(key) % n. */
  method DoMap(kvs: seq<KeyValue>, ihash: string -> nat, n: nat) returns (parts: seq<Contents>)
    requires n >= 1
    ensures |parts| == n && forall r | 0 <= r < n :: parts[r] == Bucket(kvs, ihash, n, r)
  {
    parts := seq(n, _ => map[]);
    for i := 0 to |kvs|
      invariant |parts| == n
      invariant forall r | 0 <= r < n :: parts[r] == Bucket(kvs[..i], ihash, n, r)
    {
      var kv := kvs[i];
      var r := ihash(kv.key) % n;
      var had := if kv.key in parts[r] then parts[r][kv.key] else [];
      assert kvs[..i + 1] == kvs[..i] + [kv];
      forall q | 0 <= q < n ensures Bucket(kvs[..i + 1], ihash, n, q) == AddTo(parts[q], kv, q == r) {
        BucketAppend(kvs[..i], kv, ihash, n, q);
      }
      parts := parts[r := parts[r][kv.key := had + [kv.value]]];
    }
    assert kvs[..|kvs|] == kvs;
  }

  // ----- A reduce task

  function ValuesIn(c: Contents, k: string): seq<string> {
    if k in c then c[k] else []
  }

  /** The values for k in a list of files, file by file. */
  function Gathered(cs: seq<Contents>, k: string): seq<string> {
    if cs == [] then [] else Gathered(cs[..|cs| - 1], k) + ValuesIn(cs[|cs| - 1], k)
  }

  function KeysIn(cs: seq<Contents>): set<string> {
    set c, k | c in cs && k in c :: k
  }

  function ReduceResult(reducef: (string, seq<string>) -> string, cs: seq<Contents>): Results {
    map k | k in KeysIn(cs) :: reducef(k, Gathered(cs, k))
  }

  lemma {:induction false} GatheredNone(cs: seq<Contents>, k: string)
    requires k !in KeysIn(cs)
    ensures Gathered(cs, k) == []
  {
    if cs != [] {
      var init := cs[..|cs| - 1];
      assert forall c | c in init :: c in cs;
      GatheredNone(init, k);
      assert cs[|cs| - 1] in cs;
    }
  }

  lemma KeysInAppend(cs: seq<Contents>, c: Contents)
    ensures KeysIn(cs + [c]) == KeysIn(cs) + c.Keys
  {
    assert forall x :: x in cs + [c] <==> x in cs || x == c;
  }

  /** The values gathered so far, with those of file c for the keys in done. */
  function Joined(had: Contents, c: Contents, done: set<string>): Contents {
    map k | k in had.Keys + done :: if k in done then ValuesIn(had, k) + ValuesIn(c, k) else had[k]
  }

  lemma JoinedNext(had: Contents, c: Contents, done: set<string>, k: string)
    requires k in c && k !in done
    ensures Joined(had, c, done + {k}) == Joined(had, c, done)[k := ValuesIn(Joined(had, c, done), k) + c[k]]
  {
    assert [] + c[k] == c[k];
  }

  /** Fold one file into the values gathered so far; the keys of the file come in any order. */
  method Absorb(had: Contents, c: Contents) returns (now: Contents)
    ensures now == Joined(had, c, c.Keys)
  {
    now := had;
    var done: set<string> := {};
    while done != c.Keys
      invariant done <= c.Keys && now == Joined(had, c, done)
      decreases c.Keys - done
    {
      var k :| k in c.Keys && k !in done;
      JoinedNext(had, c, done, k);
      now := now[k := ValuesIn(now, k) + c[k]];
      done := done + {k};
    }
  }

  /** Each key of the files, with all its values, file by file. */
  ghost predicate Gathers(gathered: Contents, cs: seq<Contents>) {
    gathered.Keys == KeysIn(cs) && forall k | k in gathered :: gathered[k] == Gathered(cs, k)
  }

  method GatherAll(cs: seq<Contents>) returns (gathered: Contents)
    ensures Gathers(gathered, cs)
  {
    gathered := map[];
    for i := 0 to |cs|
      invariant Gathers(gathered, cs[..i])
    {
      GathersNext(gathered, cs[..i], cs[i]);
      assert cs[..i + 1] == cs[..i] + [cs[i]];
      gathered := Absorb(gathered, cs[i]);
    }
    assert cs[..|cs|] == cs;
  }

  lemma GathersNext(had: Contents, cs: seq<Contents>, c: Contents)
    requires Gathers(had, cs)
    ensures Gathers(Joined(had, c, c.Keys), cs + [c])
  {
    KeysInAppend(cs, c);
    forall k | k in had.Keys + c.Keys ensures Gathered(cs + [c], k) == ValuesIn(had, k) + ValuesIn(c, k) {
      GatheredNext(had, cs, c, k);
    }
    JoinedValues(had, c, cs + [c]);
  }

  lemma GatheredNext(had: Contents, cs: seq<Contents>, c: Contents, k: string)
    requires k in had <==> k in KeysIn(cs)
    requires k in had ==> had[k] == Gathered(cs, k)
    ensures Gathered(cs + [c], k) == ValuesIn(had, k) + ValuesIn(c, k)
  {
    assert (cs + [c])[..|cs|] == cs;
    if k !in had {
      GatheredNone(cs, k);
    }
  }

  lemma JoinedValues(had: Contents, c: Contents, cs: seq<Contents>)
    requires KeysIn(cs) == had.Keys + c.Keys
    requires forall k | k in had.Keys + c.Keys :: Gathered(cs, k) == ValuesIn(had, k) + ValuesIn(c, k)
    ensures Gathers(Joined(had, c, c.Keys), cs)
  {
    forall k | k in had.Keys + c.Keys ensures Joined(had, c, c.Keys)[k] == ValuesIn(had, k) + ValuesIn(c, k) {
      assert k !in c ==> had[k] + [] == had[k];
    }
  }

  /** The worker's reduce task. */
  method DoReduce(reducef: (string, seq<string>) -> string, cs: seq<Contents>) returns (out: Results)
    ensures out == ReduceResult(reducef, cs)
  {
    var gathered := GatherAll(cs);
    out := ReduceEach(reducef, gathered);
    ReducedAll(reducef, cs, gathered);
  }

  /** The loop over the gathered keys, in no particular order. */
  method ReduceEach(reducef: (string, seq<string>) -> string, gathered: Contents) returns (out: Results)
    ensures out == map k | k in gathered :: reducef(k, gathered[k])
  {
    out := map[];
    var left := gathered.Keys;
    while left != {}
      invariant left <= gathered.Keys && out.Keys == gathered.Keys - left
      invariant forall k | k in out :: out[k] == reducef(k, gathered[k])
      decreases |left|
    {
      var k :| k in left;
      out := out[k := reducef(k, gathered[k])];
      left := left - {k};
    }
  }

  lemma ReducedAll(reducef: (string, seq<string>) -> string, cs: seq<Contents>, gathered: Contents)
    requires Gathers(gathered, cs)
    ensures (map k | k in gathered :: reducef(k, gathered[k])) == ReduceResult(reducef, cs)
  {
  }

  // ----- The whole job

  function MapOut(job: Job, t: nat): seq<KeyValue>
    requires GoodJob(job) && t < |job.files|
  {
    job.mapf(job.files[t], job.texts[t])
  }

  /** Everything the first n map tasks emit, in task order. */
  function Emitted(job: Job, n: nat): seq<KeyValue>
    requires GoodJob(job) && n <= |job.files|
  {
    if n == 0 then [] else Emitted(job, n - 1) + MapOut(job, n - 1)
  }

  /** The answer: each emitted key with its reduction. */
  function Answer(job: Job): Results
    requires GoodJob(job)
  {
    var all := Emitted(job, |job.files|);
    map k | k in KeysOf(all) :: job.reducef(k, ValuesOf(all, k))
  }

  /** What map task t leaves for reducer r. */
  function MapPart(job: Job, t: nat, r: nat): Contents
    requires GoodJob(job) && t < |job.files|
  {
    Bucket(MapOut(job, t), job.ihash, job.nReduce, r)
  }

  /** Reducer r's input from the first n map tasks, in task order. */
  function PartsFor(job: Job, r: nat, n: nat): seq<Contents>
    requires GoodJob(job) && n <= |job.files|
  {
    seq(n, t requires 0 <= t < n => MapPart(job, t, r))
  }

  function ReducePart(job: Job, r: nat): Results
    requires GoodJob(job)
  {
    ReduceResult(job.reducef, PartsFor(job, r, |job.files|))
  }

  /** Files cs hold for key k exactly the values emitted for it in kvs, in order, if k is theirs, and nothing
      otherwise. */
  ghost predicate Routed(cs: seq<Contents>, kvs: seq<KeyValue>, k: string, theirs: bool) {
    && Gathered(cs, k) == (if theirs then ValuesOf(kvs, k) else [])
    && (k in KeysIn(cs) <==> theirs && k in KeysOf(kvs))
  }

  /** Of the first n map tasks, reducer r is given a key's values exactly if the key hashes to r. */
  lemma {:induction false} Shuffle(job: Job, r: nat, n: nat, k: string)
    requires GoodJob(job) && n <= |job.files|
    ensures Routed(PartsFor(job, r, n), Emitted(job, n), k, job.ihash(k) % job.nReduce == r)
  {
    if n == 0 {
      assert PartsFor(job, r, 0) == [];
    } else {
      Shuffle(job, r, n - 1, k);
      assert PartsFor(job, r, n) == PartsFor(job, r, n - 1) + [MapPart(job, n - 1, r)];
      OneMoreFile(PartsFor(job, r, n - 1), MapPart(job, n - 1, r), Emitted(job, n - 1), MapOut(job, n - 1), k,
                  job.ihash(k) % job.nReduce == r);
    }
  }

  lemma OneMoreFile(cs: seq<Contents>, c: Contents, kvs: seq<KeyValue>, out: seq<KeyValue>, k: string, theirs: bool)
    requires Routed(cs, kvs, k, theirs)
    requires k in c <==> theirs && k in KeysOf(out)
    requires k in c ==> c[k] == ValuesOf(out, k)
    ensures Routed(cs + [c], kvs + out, k, theirs)
  {
    KeysInAppend(cs, c);
    KeysOfConcat(kvs, out, k);
    ValuesConcat(kvs, out, k);
    ValuesNone(out, k);
    assert (cs + [c])[..|cs|] == cs;
  }

  lemma KeysOfConcat(a: seq<KeyValue>, b: seq<KeyValue>, k: string)
    ensures k in KeysOf(a + b) <==> k in KeysOf(a) || k in KeysOf(b)
  {
    assert forall kv :: kv in a + b <==> kv in a || kv in b;
  }

  /** Each reducer's results are the answer restricted to the keys that hash to it: results of different
      reducers never share a key, and together they are the whole answer. */
  lemma ReducersCoverAnswer(job: Job, r: nat)
    requires GoodJob(job) && r < job.nReduce
    ensures ReducePart(job, r) == map k | k in Answer(job) && job.ihash(k) % job.nReduce == r :: Answer(job)[k]
  {
    var n := |job.files|;
    forall k ensures k in ReducePart(job, r) <==> k in Answer(job) && job.ihash(k) % job.nReduce == r {
      Shuffle(job, r, n, k);
    }
    forall k | k in ReducePart(job, r) ensures ReducePart(job, r)[k] == Answer(job)[k] {
      Shuffle(job, r, n, k);
    }
  }

  // ----- The sequential program

  ghost predicate OrderInsensitive(reducef: (string, seq<string>) -> string) {
    forall k, a, b :: multiset(a) == multiset(b) ==> reducef(k, a) == reducef(k, b)
  }

  ghost predicate SortedByKey(s: seq<KeyValue>) {
    forall i, j | 0 <= i < j < |s| :: !Less(s[j].key, s[i].key)
  }

  predicate OneKey(s: seq<KeyValue>, k: string) {
    forall i | 0 <= i < |s| :: s[i].key == k
  }

  function Values(s: seq<KeyValue>): seq<string> {
    seq(|s|, i requires 0 <= i < |s| => s[i].value)
  }

  lemma {:induction false} ValuesOfOneKey(s: seq<KeyValue>, k: string)
    requires OneKey(s, k)
    ensures ValuesOf(s, k) == Values(s)
  {
    if s != [] {
      ValuesOfOneKey(s[..|s| - 1], k);
    }
  }

  lemma NoKeyIn(s: seq<KeyValue>, k: string)
    requires forall i | 0 <= i < |s| :: s[i].key != k
    ensures ValuesOf(s, k) == []
  {
    ValuesNone(s, k);
  }

  lemma RunIsAlone(s: seq<KeyValue>, i: nat, j: nat)
    requires SortedByKey(s) && i < j <= |s| && OneKey(s[i..j], s[i].key)
    requires i > 0 ==> s[i - 1].key != s[i].key
    requires j < |s| ==> s[j].key != s[i].key
    ensures forall p | 0 <= p < i || j <= p < |s| :: s[p].key != s[i].key
  {
    var k := s[i].key;
    forall p | 0 <= p < i ensures s[p].key != k {
      LessTotal(s[i - 1].key, k);
      LessTotal(s[p].key, s[i - 1].key);
    }
    forall p | j <= p < |s| ensures s[p].key != k {
      LessTotal(s[j].key, k);
      LessTotal(s[p].key, s[j].key);
    }
  }

  lemma ValuesInThree(s: seq<KeyValue>, i: nat, j: nat, k: string)
    requires i <= j <= |s|
    ensures ValuesOf(s, k) == ValuesOf(s[..i], k) + ValuesOf(s[i..j], k) + ValuesOf(s[j..], k)
  {
    ValuesConcat(s[..i], s[i..j], k);
    ValuesConcat(s[..i] + s[i..j], s[j..], k);
    assert s == (s[..i] + s[i..j]) + s[j..];
  }

  lemma OnlyIn(s: seq<KeyValue>, i: nat, j: nat, k: string)
    requires i <= j <= |s| && forall p | 0 <= p < i || j <= p < |s| :: s[p].key != k
    ensures ValuesOf(s, k) == ValuesOf(s[i..j], k)
  {
    ValuesInThree(s, i, j, k);
    NoKeyIn(s[..i], k);
    NoKeyIn(s[j..], k);
  }

  /** In a sorted list, a maximal run of one key holds all of that key's values. */
  lemma RunHoldsAll(s: seq<KeyValue>, i: nat, j: nat)
    requires SortedByKey(s) && i < j <= |s| && OneKey(s[i..j], s[i].key)
    requires i > 0 ==> s[i - 1].key != s[i].key
    requires j < |s| ==> s[j].key != s[i].key
    ensures ValuesOf(s, s[i].key) == Values(s[i..j])
  {
    RunIsAlone(s, i, j);
    OnlyIn(s, i, j, s[i].key);
    ValuesOfOneKey(s[i..j], s[i].key);
  }

  function LineKeys(lines: seq<(string, string)>): set<string> {
    set line | line in lines :: line.0
  }

  /** No two lines share a key, and each line carries the reduction of its key's values in s. */
  ghost predicate LinesOk(lines: seq<(string, string)>, s: seq<KeyValue>, reducef: (string, seq<string>) -> string) {
    && (forall a, b | 0 <= a < b < |lines| :: lines[a].0 != lines[b].0)
    && (forall a | 0 <= a < |lines| :: lines[a].1 == reducef(lines[a].0, ValuesOf(s, lines[a].0)))
  }

  /** What the sequential program prints for the list s. */
  ghost predicate Prints(lines: seq<(string, string)>, s: seq<KeyValue>, reducef: (string, seq<string>) -> string) {
    LinesOk(lines, s, reducef) && LineKeys(lines) == KeysOf(s) && InKeyOrder(lines)
  }

  ghost predicate InKeyOrder(lines: seq<(string, string)>) {
    forall a, b | 0 <= a < b < |lines| :: Less(lines[a].0, lines[b].0)
  }

  /** The lines have distinct keys and say exactly what the table says. */
  ghost predicate Tabulates(lines: seq<(string, string)>, results: Results) {
    && (forall a, b | 0 <= a < b < |lines| :: lines[a].0 != lines[b].0)
    && LineKeys(lines) == results.Keys
    && (forall a | 0 <= a < |lines| :: lines[a].0 in results && lines[a].1 == results[lines[a].0])
  }

  /** What was emitted, sorted by key; equal keys in any order. */
  ghost predicate Rearranged(job: Job, sorted: seq<KeyValue>)
    requires GoodJob(job)
  {
    SortedByKey(sorted) && multiset(sorted) == multiset(Emitted(job, |job.files|))
  }

  /** The program's grouping loop over its sorted intermediate list; sort.Sort is not stable, so the
      list is some sorted rearrangement of what was emitted. */
  method Sequential(s: seq<KeyValue>, reducef: (string, seq<string>) -> string) returns (lines: seq<(string, string)>)
    requires SortedByKey(s)
    ensures Prints(lines, s, reducef)
  {
    lines := [];
    var i := 0;
    while i < |s|
      invariant 0 <= i <= |s|
      invariant 0 < i < |s| ==> s[i - 1].key != s[i].key
      invariant LinesOk(lines, s, reducef) && LineKeys(lines) == KeysOf(s[..i]) && InKeyOrder(lines)
    {
      var j := i + 1;
      while j < |s| && s[j].key == s[i].key
        invariant i < j <= |s| && OneKey(s[i..j], s[i].key)
      {
        assert s[i..j + 1] == s[i..j] + [s[j]];
        j := j + 1;
      }
      var values := Collect(s, i, j);
      var output := reducef(s[i].key, values);
      LineAdded(s, i, j, lines, reducef);
      LineFollows(s, i, j, lines, output);
      lines := lines + [(s[i].key, output)];
      assert s[i..j][j - 1 - i].key == s[i].key;
      i := j;
    }
    assert s[..i] == s;
  }

  method Collect(s: seq<KeyValue>, i: nat, j: nat) returns (values: seq<string>)
    requires i <= j <= |s|
    ensures values == Values(s[i..j])
  {
    values := [];
    for k := i to j
      invariant values == Values(s[i..k])
    {
      assert s[i..k + 1] == s[i..k] + [s[k]];
      values := values + [s[k].value];
    }
  }

  /** The line for the run s[i..j] has a new key. */
  lemma LineAdded(s: seq<KeyValue>, i: nat, j: nat, lines: seq<(string, string)>, reducef: (string, seq<string>) -> string)
    requires SortedByKey(s) && i < j <= |s| && OneKey(s[i..j], s[i].key)
    requires i > 0 ==> s[i - 1].key != s[i].key
    requires j < |s| ==> s[j].key != s[i].key
    requires LinesOk(lines, s, reducef) && LineKeys(lines) == KeysOf(s[..i])
    ensures var r := lines + [(s[i].key, reducef(s[i].key, Values(s[i..j])))];
            LinesOk(r, s, reducef) && LineKeys(r) == KeysOf(s[..j])
  {
    RunIsAlone(s, i, j);
    RunHoldsAll(s, i, j);
    var line := (s[i].key, reducef(s[i].key, Values(s[i..j])));
    forall a | 0 <= a < |lines| ensures lines[a].0 != line.0 {
      assert lines[a] in lines && lines[a].0 in LineKeys(lines);
    }
    LineKeysNext(lines, line);
    KeysOfRun(s, i, j);
  }

  lemma LineFollows(s: seq<KeyValue>, i: nat, j: nat, lines: seq<(string, string)>, output: string)
    requires SortedByKey(s) && i < j <= |s| && OneKey(s[i..j], s[i].key) && LineKeys(lines) == KeysOf(s[..i]) && InKeyOrder(lines)
    requires i > 0 ==> s[i - 1].key != s[i].key
    requires j < |s| ==> s[j].key != s[i].key
    ensures InKeyOrder(lines + [(s[i].key, output)])
  {
    RunIsAlone(s, i, j);
    forall a | 0 <= a < |lines| ensures Less(lines[a].0, s[i].key) {
      assert lines[a] in lines && lines[a].0 in LineKeys(lines);
      var kv :| kv in s[..i] && kv.key == lines[a].0;
      var p :| 0 <= p < i && s[..i][p] == kv;
      LessTotal(s[p].key, s[i].key);
    }
  }

  lemma LineKeysNext(lines: seq<(string, string)>, line: (string, string))
    ensures LineKeys(lines + [line]) == LineKeys(lines) + {line.0}
  {
    assert forall x :: x in lines + [line] <==> x in lines || x == line;
  }

  lemma KeysOfRun(s: seq<KeyValue>, i: nat, j: nat)
    requires i < j <= |s| && OneKey(s[i..j], s[i].key)
    ensures KeysOf(s[..j]) == KeysOf(s[..i]) + {s[i].key}
  {
    assert s[..j] == s[..i] + s[i..j];
    assert forall kv :: kv in s[..j] <==> kv in s[..i] || kv in s[i..j];
    assert s[i..j][0] == s[i];
  }

  lemma SortedHasSameKeys(a: seq<KeyValue>, b: seq<KeyValue>)
    requires multiset(a) == multiset(b)
    ensures KeysOf(a) == KeysOf(b)
  {
    forall kv ensures kv in a <==> kv in b {
      assert kv in a <==> kv in multiset(a);
      assert kv in b <==> kv in multiset(b);
    }
  }

  lemma PrintsAnswer(job: Job, sorted: seq<KeyValue>, lines: seq<(string, string)>)
    requires GoodJob(job) && OrderInsensitive(job.reducef) && Rearranged(job, sorted) && Prints(lines, sorted, job.reducef)
    ensures Tabulates(lines, Answer(job))
  {
    var all := Emitted(job, |job.files|);
    SortedHasSameKeys(sorted, all);
    forall a | 0 <= a < |lines| ensures lines[a].0 in Answer(job) && lines[a].1 == Answer(job)[lines[a].0] {
      assert lines[a] in lines && lines[a].0 in LineKeys(lines);
      ValuesPermuted(sorted, all, lines[a].0);
    }
  }

  /** The sequential program computes the answer, however its sort arranges equal keys. */
  method RunSequential(job: Job, sorted: seq<KeyValue>) returns (lines: seq<(string, string)>)
    requires GoodJob(job) && OrderInsensitive(job.reducef) && Rearranged(job, sorted)
    ensures Prints(lines, sorted, job.reducef) && Tabulates(lines, Answer(job))
  {
    lines := Sequential(sorted, job.reducef);
    PrintsAnswer(job, sorted, lines);
  }
}
