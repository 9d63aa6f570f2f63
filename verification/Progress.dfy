/** The coordinator never gets stuck: a task handed out, executed and reported is done, and from every state of every run
    the job can still be finished. */
module Progress {
  import opened MapReduce
  import opened Coordinator

  // ----- Putting runs together

  ghost predicate CanReach(job: Job, w: World, w': World) {
    exists steps :: Valid(job, w, steps) && After(job, w, steps) == w'
  }

  lemma ReachItself(job: Job, w: World)
    ensures CanReach(job, w, w)
  {
    assert Valid(job, w, []) && After(job, w, []) == w;
  }

  lemma ReachAfter(job: Job, w: World, step: Step, w': World)
    requires Enabled(job, w, step) && CanReach(job, Do(job, w, step), w')
    ensures CanReach(job, w, w')
  {
    var w1 := Do(job, w, step);
    var rest :| Valid(job, w1, rest) && After(job, w1, rest) == w';
    assert ([step] + rest)[1..] == rest;
    assert Valid(job, w, [step] + rest) && After(job, w, [step] + rest) == w';
  }

  lemma ReachStep(job: Job, w: World, step: Step)
    requires Enabled(job, w, step)
    ensures CanReach(job, w, Do(job, w, step))
  {
    ReachItself(job, Do(job, w, step));
    ReachAfter(job, w, step, Do(job, w, step));
  }

  lemma {:induction false} RunThenReach(job: Job, w: World, steps: seq<Step>, w': World)
    requires Valid(job, w, steps) && CanReach(job, After(job, w, steps), w')
    ensures CanReach(job, w, w')
    decreases |steps|
  {
    if steps != [] {
      RunThenReach(job, Do(job, w, steps[0]), steps[1..], w');
      ReachAfter(job, w, steps[0], w');
    }
  }

  lemma ReachTransitive(job: Job, w: World, w1: World, w2: World)
    requires CanReach(job, w, w1) && CanReach(job, w1, w2)
    ensures CanReach(job, w, w2)
  {
    var steps :| Valid(job, w, steps) && After(job, w, steps) == w1;
    RunThenReach(job, w, steps, w2);
  }

  lemma ReachSafe(job: Job, w: World, w': World)
    requires Safe(job, w) && CanReach(job, w, w')
    ensures Safe(job, w')
  {
    var steps :| Valid(job, w, steps) && After(job, w, steps) == w';
    RunSafe(job, w, steps);
  }

  // ----- One task

  function MapRun(tid: nat, names: seq<string>): seq<Step> {
    [Check(Task(tid, Mapping)), FinishMap(RunMap(tid), names), Collect]
  }

  function ReduceRun(tid: nat, files: seq<string>): seq<Step> {
    [Check(Task(tid, Reducing)), FinishReduce(RunReduce(tid, files), true), Collect]
  }

  predicate Fresh(fs: map<string, Contents>, names: seq<string>, n: nat) {
    |names| == n && Distinct(names) && forall i | 0 <= i < n :: names[i] !in fs
  }

  lemma ThreeSteps(job: Job, w: World, a: Step, b: Step, c: Step)
    requires Enabled(job, w, a) && Enabled(job, Do(job, w, a), b) && Enabled(job, Do(job, Do(job, w, a), b), c)
    ensures Valid(job, w, [a, b, c]) && After(job, w, [a, b, c]) == Do(job, Do(job, Do(job, w, a), b), c)
  {
    var w1, w2 := Do(job, w, a), Do(job, Do(job, w, a), b);
    assert Valid(job, w2, [c]) && After(job, w2, [c]) == Do(job, w2, c);
    assert [b, c][1..] == [c] && [a, b, c][1..] == [b, c];
    assert Valid(job, w1, [b, c]) && After(job, w1, [b, c]) == After(job, w2, [c]);
  }

  lemma MapsMissing(job: Job, co: Coord, tid: nat)
    requires PhasesOk(job, co) && tid < |co.maps| && !co.maps[tid].done
    ensures co.missingMaps > 0
  {
    UndoneZero(co.maps);
  }

  lemma ReducesMissing(job: Job, co: Coord, tid: nat)
    requires PhasesOk(job, co) && co.main.CollectReduces? && tid < |co.reduces| && !co.reduces[tid].done
    ensures co.missingReduces > 0
  {
    UndoneReducesZero(co.reduces);
  }

  /** A map task that a handler holds, handed out, executed into new files and reported, is done with those files. */
  lemma MapTaskDone(job: Job, w: World, tid: nat, names: seq<string>)
    requires Safe(job, w) && w.co.main.CollectMaps? && Task(tid, Mapping) in w.pool.held && Needed(w.co, Task(tid, Mapping))
    requires w.plant.reports == [] && Fresh(w.plant.fs, names, job.nReduce)
    ensures Valid(job, w, MapRun(tid, names))
    ensures var co' := After(job, w, MapRun(tid, names)).co;
            co' == w.co.(maps := w.co.maps[tid := MapState(true, Refs(names))], missingMaps := w.co.missingMaps - 1)
  {
    MapsMissing(job, w.co, tid);
    var w1 := Do(job, w, Check(Task(tid, Mapping)));
    assert RunMap(tid) in multiset([RunMap(tid)]);
    var w2 := Do(job, w1, FinishMap(RunMap(tid), names));
    assert w2.plant.reports == [Report(Mapping, tid, Refs(names))];
    ThreeSteps(job, w, Check(Task(tid, Mapping)), FinishMap(RunMap(tid), names), Collect);
  }

  /** The same for a reduce task: its input files are there, and it is done with the answer on its keys written. */
  lemma ReduceTaskDone(job: Job, w: World, tid: nat)
    requires Safe(job, w) && w.co.main.CollectReduces? && Task(tid, Reducing) in w.pool.held
    requires Needed(w.co, Task(tid, Reducing)) && w.plant.reports == []
    ensures Valid(job, w, ReduceRun(tid, w.co.reduces[tid].files))
    ensures var w' := After(job, w, ReduceRun(tid, w.co.reduces[tid].files));
            && w'.co == w.co.(reduces := w.co.reduces[tid := ReduceState(true, w.co.reduces[tid].files)],
                              missingReduces := w.co.missingReduces - 1)
            && w'.plant.outputs == w.plant.outputs + [Output(tid, ReducePart(job, tid))]
  {
    var t, a := Task(tid, Reducing), RunReduce(tid, w.co.reduces[tid].files);
    ReducesMissing(job, w.co, tid);
    var w1 := Do(job, w, Check(t));
    assert a in multiset([a]);
    CheckSafe(job, w, t);
    InputsExist(job, w1, a);
    ReduceReads(job, w1, a);
    var w2 := Do(job, w1, FinishReduce(a, true));
    assert w2.plant.reports == [Report(Reducing, tid, [])];
    ThreeSteps(job, w, Check(t), FinishReduce(a, true), Collect);
  }

  // ----- New file names

  lemma {:induction false} LongerThanAll(names: set<string>) returns (n: nat)
    ensures forall f | f in names :: |f| < n
    decreases |names|
  {
    n := 0;
    if names != {} {
      var f :| f in names;
      var m := LongerThanAll(names - {f});
      n := m + |f| + 1;
      forall g | g in names ensures |g| < n {
        assert g == f || g in names - {f};
      }
    }
  }

  lemma SomeFresh(fs: map<string, Contents>, n: nat) returns (names: seq<string>)
    ensures Fresh(fs, names, n)
  {
    var m := LongerThanAll(fs.Keys);
    names := seq(n, i requires 0 <= i < n => seq(m + i, _ => 'x'));
    forall i, j | 0 <= i < j < n ensures names[i] != names[j] {
      assert |names[i]| != |names[j]|;
    }
    forall i | 0 <= i < n ensures names[i] !in fs {
      assert |names[i]| >= m;
    }
  }

  // ----- Getting hold of a task

  /** Nothing has happened but to where the tasks are, and a handler holds t. */
  ghost predicate Fetched(w: World, t: Task, w': World) {
    w'.co == w.co && w'.plant == w.plant && t in w'.pool.held
  }

  lemma {:induction false} PopsTo(job: Job, w: World, t: Task, i: nat) returns (w': World)
    requires GoodJob(job) && i < |w.pool.queue| && w.pool.queue[i] == t
    ensures CanReach(job, w, w') && Fetched(w, t, w')
    decreases i
  {
    var w1 := Do(job, w, Pop);
    if i == 0 {
      w' := w1;
      ReachStep(job, w, Pop);
    } else {
      w' := PopsTo(job, w1, t, i - 1);
      ReachAfter(job, w, Pop, w');
    }
  }

  lemma Requeued(job: Job, w: World, t: Task) returns (w': World)
    requires GoodJob(job) && t in w.pool.requeue
    ensures CanReach(job, w, w') && Fetched(w, t, w')
  {
    var w1 := Do(job, w, Requeue(t));
    w' := PopsTo(job, w1, t, |w.pool.queue|);
    ReachAfter(job, w, Requeue(t), w');
  }

  /** A needed task can be got to a handler from wherever it is: if it is being executed, by its timeout. */
  lemma Fetch(job: Job, w: World, t: Task) returns (w': World)
    requires Safe(job, w) && Readable(w.co) && Needed(w.co, t)
    ensures CanReach(job, w, w') && Fetched(w, t, w')
  {
    assert Pending(w.pool, t);
    if t in w.pool.held {
      w' := w;
      ReachItself(job, w);
    } else if t in w.pool.requeue {
      w' := Requeued(job, w, t);
    } else if t in w.pool.queue {
      var i :| 0 <= i < |w.pool.queue| && w.pool.queue[i] == t;
      w' := PopsTo(job, w, t, i);
    } else {
      RequeuesNeeded(job, w, t);
      w' := Requeued(job, Do(job, w, Expire(t)), t);
      ReachAfter(job, w, Expire(t), w');
    }
  }

  // ----- Getting on

  function Stage(co: Coord): nat {
    match co.main
    case CollectMaps => 3
    case Spawning(_) => 2
    case CollectReduces => 1
    case Over => 0
  }

  /** What is left of the goroutine's present loop. */
  function ToGo(job: Job, co: Coord): int {
    match co.main
    case CollectMaps => co.missingMaps
    case Spawning(next) => job.nReduce - next
    case CollectReduces => co.missingReduces
    case Over => 0
  }

  ghost predicate Nearer(job: Job, w: World, w': World) {
    || Stage(w'.co) < Stage(w.co)
    || (Stage(w'.co) == Stage(w.co)
        && (ToGo(job, w'.co) < ToGo(job, w.co)
            || (ToGo(job, w'.co) == ToGo(job, w.co) && |w'.plant.reports| < |w.plant.reports|)))
  }

  lemma ToGoNat(job: Job, co: Coord)
    requires PhasesOk(job, co)
    ensures ToGo(job, co) >= 0
  {
  }

  lemma CollectNearer(job: Job, w: World)
    requires Safe(job, w) && Enabled(job, w, Collect)
    ensures Nearer(job, w, Do(job, w, Collect))
  {
    assert ReportOk(job, w.plant, w.plant.reports[0]);
  }

  lemma MapNearer(job: Job, w: World) returns (w': World)
    requires Safe(job, w) && w.co.main.CollectMaps? && w.co.missingMaps > 0 && w.plant.reports == []
    ensures CanReach(job, w, w') && Nearer(job, w, w')
  {
    UndoneZero(w.co.maps);
    var tid: nat :| tid < |w.co.maps| && !w.co.maps[tid].done;
    var w1 := Fetch(job, w, Task(tid, Mapping));
    ReachSafe(job, w, w1);
    var names := SomeFresh(w.plant.fs, job.nReduce);
    MapTaskDone(job, w1, tid, names);
    w' := After(job, w1, MapRun(tid, names));
    assert CanReach(job, w1, w');
    ReachTransitive(job, w, w1, w');
  }

  lemma ReduceNearer(job: Job, w: World) returns (w': World)
    requires Safe(job, w) && w.co.main.CollectReduces? && w.co.missingReduces > 0 && w.plant.reports == []
    ensures CanReach(job, w, w') && Nearer(job, w, w')
  {
    UndoneReducesZero(w.co.reduces);
    var tid: nat :| tid < |w.co.reduces| && !w.co.reduces[tid].done;
    var w1 := Fetch(job, w, Task(tid, Reducing));
    ReachSafe(job, w, w1);
    ReduceTaskDone(job, w1, tid);
    w' := After(job, w1, ReduceRun(tid, w1.co.reduces[tid].files));
    assert CanReach(job, w1, w');
    ReachTransitive(job, w, w1, w');
  }

  lemma GetsNearer(job: Job, w: World) returns (w': World)
    requires Safe(job, w) && !w.co.main.Over?
    ensures CanReach(job, w, w') && Nearer(job, w, w')
  {
    if ToGo(job, w.co) <= 0 || w.co.main.Spawning? {
      var step := match w.co.main
        case CollectMaps => BeginSpawn
        case Spawning(next) => if next < job.nReduce then SpawnOne else EndSpawn
        case CollectReduces => Finish
        case Over => Pop;
      w' := Do(job, w, step);
      ReachStep(job, w, step);
    } else if w.plant.reports != [] {
      w' := Do(job, w, Collect);
      ReachStep(job, w, Collect);
      CollectNearer(job, w);
    } else if w.co.main.CollectMaps? {
      w' := MapNearer(job, w);
    } else {
      w' := ReduceNearer(job, w);
    }
  }

  lemma {:induction false} ReachesDone(job: Job, w: World) returns (w': World)
    requires Safe(job, w)
    ensures CanReach(job, w, w') && w'.co.phase == AllDone
    decreases Stage(w.co), ToGo(job, w.co), |w.plant.reports|
  {
    ToGoNat(job, w.co);
    if w.co.main.Over? {
      w' := w;
      ReachItself(job, w);
    } else {
      var w1 := GetsNearer(job, w);
      ReachSafe(job, w, w1);
      ToGoNat(job, w1.co);
      w' := ReachesDone(job, w1);
      ReachTransitive(job, w, w1, w');
    }
  }

  // ----- Main result

  /** Whatever has happened in a run, crashes, timeouts and duplicates included, the job can still be finished, and then
      every reducer's results are there. */
  lemma CanAlwaysFinish(job: Job, fs: map<string, Contents>, steps: seq<Step>)
    requires GoodJob(job) && Valid(job, Init(job, fs), steps)
    ensures exists w' :: CanReach(job, After(job, Init(job, fs), steps), w') && w'.co.phase == AllDone && Complete(job, w')
  {
    InitSafe(job, fs);
    RunSafe(job, Init(job, fs), steps);
    var w := After(job, Init(job, fs), steps);
    var w' := ReachesDone(job, w);
    ReachSafe(job, w, w');
    SafeComplete(job, w');
  }
}
