/** The MapReduce coordinator and its workers as a transition system: a task queue, handlers that
    have popped a task, timeouts that requeue, duplicate and late executions, crashes, two phases. */
module Coordinator {
  import opened MapReduce

  datatype Phase = Mapping | Reducing | AllDone

  datatype Task = Task(tid: nat, kind: Phase)

  datatype FileRef = FileRef(reducer: nat, file: string)

  datatype MapState = MapState(done: bool, files: seq<FileRef>)

  datatype ReduceState = ReduceState(done: bool, files: seq<string>)

  /** A CompleteTask message. */
  datatype Report = Report(kind: Phase, tid: int, files: seq<FileRef>)

  /** What a worker has been told to do. */
  datatype Assignment =
    | RunMap(tid: nat)
    | RunReduce(tid: nat, files: seq<string>)

  /** Where the mapReduce goroutine is. While Spawning it holds the write lock. */
  datatype Main = CollectMaps | Spawning(next: nat) | CollectReduces | Over

  datatype Output = Output(tid: nat, results: Results)

  /** The coordinator's state under its lock, and the goroutine's counters. */
  datatype Coord = Coord(
    phase: Phase,
    maps: seq<MapState>,
    reduces: seq<ReduceState>,
    missingMaps: int,
    missingReduces: int,
    main: Main)

  /** Where the tasks are. */
  datatype Pool = Pool(
    queue: seq<Task>,
    held: multiset<Task>,          // popped by a ReqTask handler, not yet looked at
    timers: multiset<Task>,        // assigned, timeout pending
    requeue: multiset<Task>)       // timed out, about to be sent to the queue

  /** The workers, the file system, and what executions have produced. */
  datatype Plant = Plant(
    workers: multiset<Assignment>,
    fs: map<string, Contents>,
    outputs: seq<Output>,
    reports: seq<Report>)

  datatype World = World(co: Coord, pool: Pool, plant: Plant)

  datatype Step =
    | Pop
    | Check(t: Task)
    | Expire(t: Task)
    | Requeue(t: Task)
    | FinishMap(a: Assignment, names: seq<string>)
    | FinishReduce(a: Assignment, reported: bool)   // not reported: the worker dies in between
    | Crash(a: Assignment, litter: map<string, Contents>)
    | Collect
    | BeginSpawn
    | SpawnOne
    | EndSpawn
    | Finish

  // ----- The coordinator's own computations

  function FilesOf(files: seq<FileRef>, r: nat): seq<string> {
    if files == [] then []
    else FilesOf(files[..|files| - 1], r) + (if files[|files| - 1].reducer == r then [files[|files| - 1].file] else [])
  }

  /** The files the map tasks recorded for reducer r, in task order. */
  function FilesFor(maps: seq<MapState>, r: nat): seq<string> {
    if maps == [] then [] else FilesFor(maps[..|maps| - 1], r) + FilesOf(maps[|maps| - 1].files, r)
  }

  /** The first completion of a map task records its files; later ones are ignored. */
  function RecordMap(co: Coord, t: nat, files: seq<FileRef>): Coord
    requires t < |co.maps|
  {
    if co.maps[t].done then co
    else co.(maps := co.maps[t := MapState(true, files)], missingMaps := co.missingMaps - 1)
  }

  function RecordReduce(co: Coord, t: nat): Coord
    requires t < |co.reduces|
  {
    if co.reduces[t].done then co
    else co.(reduces := co.reduces[t := ReduceState(true, co.reduces[t].files)], missingReduces := co.missingReduces - 1)
  }

  /** Give each reducer its input files. */
  function Distribute(maps: seq<MapState>, reduces: seq<ReduceState>): seq<ReduceState> {
    seq(|reduces|, r requires 0 <= r < |reduces| =>
      ReduceState(reduces[r].done, reduces[r].files + FilesFor(maps, r)))
  }

  predicate TaskDone(co: Coord, t: Task) {
    match t.kind
    case Mapping => t.tid < |co.maps| && co.maps[t.tid].done
    case Reducing => t.tid < |co.reduces| && co.reduces[t.tid].done
    case AllDone => true
  }

  /** What the goroutine does with a completion message: the new state, and the tasks sent back to the
      queue because a map report listed the wrong number of files. */
  function Handle(job: Job, co: Coord, r: Report): (Coord, seq<Task>) {
    if co.main.CollectMaps? then
      if r.kind != Mapping || r.tid < 0 || r.tid >= |co.maps| then (co, [])
      else if |r.files| != job.nReduce then (co, [Task(r.tid, Mapping)])
      else (RecordMap(co, r.tid, r.files), [])
    else
      if r.kind != Reducing || r.tid < 0 || r.tid >= |co.reduces| then (co, [])
      else (RecordReduce(co, r.tid), [])
  }

  /** The work handed out for a popped task, if it belongs to the current phase. */
  function Assign(co: Coord, t: Task): (as': seq<Assignment>) {
    if t.kind != co.phase then []
    else match t.kind
      case Mapping => [RunMap(t.tid)]
      case Reducing => if t.tid < |co.reduces| then [RunReduce(t.tid, co.reduces[t.tid].files)] else []
      case AllDone => []
  }

  // ----- Steps

  /** No writer holds the lock. */
  predicate Readable(co: Coord) {
    !co.main.Spawning?
  }

  predicate Distinct(names: seq<string>) {
    forall i, j | 0 <= i < j < |names| :: names[i] != names[j]
  }

  predicate Enabled(job: Job, w: World, step: Step) {
    GoodJob(job) &&
    match step
    case Pop => w.pool.queue != []
    case Check(t) => t in w.pool.held && Readable(w.co)
    case Expire(t) => t in w.pool.timers && Readable(w.co)
    case Requeue(t) => t in w.pool.requeue
    case FinishMap(a, names) =>
      && a in w.plant.workers && a.RunMap? && a.tid < |job.files|
      && |names| == job.nReduce && Distinct(names) && forall i | 0 <= i < |names| :: names[i] !in w.plant.fs
    case FinishReduce(a, reported) =>
      a in w.plant.workers && a.RunReduce? && forall i | 0 <= i < |a.files| :: a.files[i] in w.plant.fs
    case Crash(a, litter) => a in w.plant.workers && litter.Keys !! w.plant.fs.Keys
    case Collect =>
      && w.plant.reports != []
      && ((w.co.main.CollectMaps? && w.co.missingMaps > 0) || (w.co.main.CollectReduces? && w.co.missingReduces > 0))
    case BeginSpawn => w.co.main.CollectMaps? && w.co.missingMaps <= 0
    case SpawnOne => w.co.main.Spawning? && w.co.main.next < job.nReduce
    case EndSpawn => w.co.main.Spawning? && w.co.main.next >= job.nReduce
    case Finish => w.co.main.CollectReduces? && w.co.missingReduces <= 0
  }

  /** The files a map execution writes. */
  function Written(job: Job, t: nat, names: seq<string>): map<string, Contents>
    requires GoodJob(job) && t < |job.files| && Distinct(names)
  {
    map i | 0 <= i < |names| :: names[i] := MapPart(job, t, i)
  }

  function Refs(names: seq<string>): seq<FileRef> {
    seq(|names|, i requires 0 <= i < |names| => FileRef(i, names[i]))
  }

  function Read(fs: map<string, Contents>, files: seq<string>): seq<Contents>
    requires forall i | 0 <= i < |files| :: files[i] in fs
  {
    seq(|files|, i requires 0 <= i < |files| => fs[files[i]])
  }

  function Do(job: Job, w: World, step: Step): World
    requires Enabled(job, w, step)
  {
    var (co, pool, plant) := (w.co, w.pool, w.plant);
    match step
    case Pop => w.(pool := pool.(queue := pool.queue[1..], held := pool.held + multiset{pool.queue[0]}))
    case Check(t) =>
      var work := Assign(co, t);
      World(co,
            pool.(held := pool.held - multiset{t}, timers := if work == [] then pool.timers else pool.timers + multiset{t}),
            plant.(workers := plant.workers + multiset(work)))
    case Expire(t) =>
      w.(pool := pool.(timers := pool.timers - multiset{t},
                       requeue := if t.kind != co.phase || TaskDone(co, t) then pool.requeue else pool.requeue + multiset{t}))
    case Requeue(t) => w.(pool := pool.(requeue := pool.requeue - multiset{t}, queue := pool.queue + [t]))
    case FinishMap(a, names) =>
      w.(plant := plant.(workers := plant.workers - multiset{a},
                         fs := plant.fs + Written(job, a.tid, names),
                         reports := plant.reports + [Report(Mapping, a.tid, Refs(names))]))
    case FinishReduce(a, reported) =>
      w.(plant := plant.(workers := plant.workers - multiset{a},
                         outputs := plant.outputs + [Output(a.tid, ReduceResult(job.reducef, Read(plant.fs, a.files)))],
                         reports := plant.reports + if reported then [Report(Reducing, a.tid, [])] else []))
    case Crash(a, litter) =>
      w.(plant := plant.(workers := plant.workers - multiset{a}, fs := plant.fs + litter))
    case Collect =>
      var (co', back) := Handle(job, co, plant.reports[0]);
      World(co', pool.(queue := pool.queue + back), plant.(reports := plant.reports[1..]))
    case BeginSpawn => w.(co := co.(main := Spawning(0), missingReduces := job.nReduce))
    case SpawnOne =>
      w.(co := co.(main := Spawning(co.main.next + 1)), pool := pool.(queue := pool.queue + [Task(co.main.next, Reducing)]))
    case EndSpawn =>
      w.(co := co.(main := CollectReduces, phase := Reducing, reduces := Distribute(co.maps, co.reduces)))
    case Finish => w.(co := co.(main := Over, phase := AllDone))
  }

  predicate Valid(job: Job, w: World, steps: seq<Step>)
    decreases |steps|
  {
    steps == [] || (Enabled(job, w, steps[0]) && Valid(job, Do(job, w, steps[0]), steps[1..]))
  }

  function After(job: Job, w: World, steps: seq<Step>): World
    requires Valid(job, w, steps)
    decreases |steps|
  {
    if steps == [] then w else After(job, Do(job, w, steps[0]), steps[1..])
  }

  /** MakeCoordinator: every map task queued; some files may exist already. */
  function Init(job: Job, fs: map<string, Contents>): World {
    World(Coord(Mapping,
                seq(|job.files|, _ => MapState(false, seq(job.nReduce, _ => FileRef(0, "")))),
                seq(job.nReduce, _ => ReduceState(false, [])),
                |job.files|, 0, CollectMaps),
          Pool(seq(|job.files|, t requires 0 <= t < |job.files| => Task(t, Mapping)), multiset{}, multiset{}, multiset{}),
          Plant(multiset{}, fs, [], []))
  }

  // ----- Files

  /** These files are what map task t leaves for reducers 0, 1, 2, ... */
  ghost predicate GoodFiles(job: Job, fs: map<string, Contents>, t: int, files: seq<FileRef>)
    requires GoodJob(job)
  {
    && 0 <= t < |job.files| && |files| == job.nReduce
    && forall r | 0 <= r < |files| ::
         files[r].reducer == r && files[r].file in fs && fs[files[r].file] == MapPart(job, t, r)
  }

  lemma {:induction false} OneFileEach(files: seq<FileRef>, r: nat)
    requires forall i | 0 <= i < |files| :: files[i].reducer == i
    ensures FilesOf(files, r) == if r < |files| then [files[r].file] else []
  {
    if files != [] {
      OneFileEach(files[..|files| - 1], r);
    }
  }

  /** The r-th file of every map task, in task order. */
  function Column(maps: seq<MapState>, r: nat): seq<string>
    requires forall t | 0 <= t < |maps| :: r < |maps[t].files|
  {
    seq(|maps|, t requires 0 <= t < |maps| => maps[t].files[r].file)
  }

  lemma {:induction false} FilesForIsColumn(maps: seq<MapState>, r: nat)
    requires forall t | 0 <= t < |maps| :: r < |maps[t].files|
    requires forall t, i | 0 <= t < |maps| && 0 <= i < |maps[t].files| :: maps[t].files[i].reducer == i
    ensures FilesFor(maps, r) == Column(maps, r)
  {
    if maps != [] {
      var init := maps[..|maps| - 1];
      FilesForIsColumn(init, r);
      OneFileEach(maps[|maps| - 1].files, r);
      ColumnNext(maps, r);
    }
  }

  lemma ColumnNext(maps: seq<MapState>, r: nat)
    requires maps != [] && forall t | 0 <= t < |maps| :: r < |maps[t].files|
    ensures Column(maps, r) == Column(maps[..|maps| - 1], r) + [maps[|maps| - 1].files[r].file]
  {
  }

  // ----- The invariant

  function Undone(maps: seq<MapState>): nat {
    if maps == [] then 0 else Undone(maps[..|maps| - 1]) + (if maps[|maps| - 1].done then 0 else 1)
  }

  function UndoneReduces(reduces: seq<ReduceState>): nat {
    if reduces == [] then 0 else UndoneReduces(reduces[..|reduces| - 1]) + (if reduces[|reduces| - 1].done then 0 else 1)
  }

  function PhaseOf(main: Main): Phase {
    match main
    case CollectMaps => Mapping
    case Spawning(_) => Mapping
    case CollectReduces => Reducing
    case Over => AllDone
  }

  /** The phases follow one another, each with all of the previous phase's tasks done, and the counters
      count undone tasks. */
  ghost predicate PhasesOk(job: Job, co: Coord) {
    && |co.maps| == |job.files| && |co.reduces| == job.nReduce
    && co.phase == PhaseOf(co.main)
    && co.missingMaps == Undone(co.maps)
    && (co.main.Spawning? ==> co.main.next <= job.nReduce)
    && (!co.main.CollectMaps? ==> Undone(co.maps) == 0 && co.missingReduces == UndoneReduces(co.reduces))
    && (co.main.Over? ==> UndoneReduces(co.reduces) == 0)
  }

  ghost predicate HasOutput(outputs: seq<Output>, r: int) {
    exists i :: 0 <= i < |outputs| && outputs[i].tid == r
  }

  ghost predicate ReportOk(job: Job, plant: Plant, r: Report)
    requires GoodJob(job)
  {
    match r.kind
    case Mapping => GoodFiles(job, plant.fs, r.tid, r.files)
    case Reducing => 0 <= r.tid < job.nReduce && HasOutput(plant.outputs, r.tid)
    case AllDone => false
  }

  ghost predicate ReportsOk(job: Job, plant: Plant)
    requires GoodJob(job)
  {
    forall i | 0 <= i < |plant.reports| :: ReportOk(job, plant, plant.reports[i])
  }

  ghost predicate MapsOk(job: Job, co: Coord, plant: Plant)
    requires GoodJob(job)
  {
    forall t | 0 <= t < |co.maps| && co.maps[t].done :: GoodFiles(job, plant.fs, t, co.maps[t].files)
  }

  /** Reducer r's input is one file per map task, in task order, each holding what that task left for r. */
  ghost predicate InputOk(job: Job, co: Coord, plant: Plant, r: nat, files: seq<string>)
    requires GoodJob(job)
  {
    && |files| == |co.maps| == |job.files|
    && forall t | 0 <= t < |files| ::
         r < |co.maps[t].files| && files[t] == co.maps[t].files[r].file
         && files[t] in plant.fs && plant.fs[files[t]] == MapPart(job, t, r)
  }

  ghost predicate ReduceOk(job: Job, co: Coord, plant: Plant, r: nat)
    requires GoodJob(job) && r < |co.reduces|
  {
    && (co.phase == Mapping ==> co.reduces[r] == ReduceState(false, []))
    && (co.phase != Mapping ==> InputOk(job, co, plant, r, co.reduces[r].files))
    && (co.reduces[r].done ==> HasOutput(plant.outputs, r))
  }

  ghost predicate ReducesOk(job: Job, co: Coord, plant: Plant)
    requires GoodJob(job)
  {
    forall r | 0 <= r < |co.reduces| :: ReduceOk(job, co, plant, r)
  }

  ghost predicate WorkerOk(job: Job, co: Coord, a: Assignment) {
    match a
    case RunMap(t) => t < |job.files|
    case RunReduce(r, files) => r < |co.reduces| && co.phase != Mapping && files == co.reduces[r].files
  }

  ghost predicate WorkersOk(job: Job, co: Coord, plant: Plant) {
    forall a | a in plant.workers :: WorkerOk(job, co, a)
  }

  ghost predicate OutputsOk(job: Job, plant: Plant)
    requires GoodJob(job)
  {
    forall i | 0 <= i < |plant.outputs| ::
      plant.outputs[i].tid < job.nReduce && plant.outputs[i].results == ReducePart(job, plant.outputs[i].tid)
  }

  /** Every place a task can be. */
  ghost predicate Pending(pool: Pool, t: Task) {
    t in pool.queue || t in pool.held || t in pool.timers || t in pool.requeue
  }

  ghost predicate TaskOk(job: Job, co: Coord, t: Task) {
    match t.kind
    case Mapping => t.tid < |job.files|
    case Reducing => t.tid < job.nReduce && !co.main.CollectMaps?
    case AllDone => false
  }

  ghost predicate TasksOk(job: Job, co: Coord, pool: Pool) {
    forall t | Pending(pool, t) :: TaskOk(job, co, t)
  }

  /** Task t still has to be done for the run to go on. */
  ghost predicate Needed(co: Coord, t: Task) {
    match t.kind
    case Mapping => co.phase == Mapping && t.tid < |co.maps| && !co.maps[t.tid].done
    case Reducing =>
      || (co.main.Spawning? && t.tid < co.main.next)
      || (co.phase == Reducing && t.tid < |co.reduces| && !co.reduces[t.tid].done)
    case AllDone => false
  }

  /** No needed task is lost. */
  ghost predicate NothingLost(co: Coord, pool: Pool) {
    forall t | Needed(co, t) :: Pending(pool, t)
  }

  ghost predicate Safe(job: Job, w: World) {
    && GoodJob(job)
    && PhasesOk(job, w.co)
    && ReportsOk(job, w.plant)
    && MapsOk(job, w.co, w.plant)
    && ReducesOk(job, w.co, w.plant)
    && WorkersOk(job, w.co, w.plant)
    && OutputsOk(job, w.plant)
    && TasksOk(job, w.co, w.pool)
    && NothingLost(w.co, w.pool)
  }

  // ----- Counting

  lemma {:induction false} UndoneZero(maps: seq<MapState>)
    ensures Undone(maps) == 0 <==> forall t | 0 <= t < |maps| :: maps[t].done
  {
    if maps != [] {
      UndoneZero(maps[..|maps| - 1]);
      assert forall t | 0 <= t < |maps| - 1 :: maps[..|maps| - 1][t] == maps[t];
    }
  }

  lemma {:induction false} UndoneRecord(maps: seq<MapState>, t: nat, files: seq<FileRef>)
    requires t < |maps| && !maps[t].done
    ensures Undone(maps[t := MapState(true, files)]) == Undone(maps) - 1
  {
    var last, maps' := |maps| - 1, maps[t := MapState(true, files)];
    if t < last {
      UndoneRecord(maps[..last], t, files);
      assert maps'[..last] == maps[..last][t := MapState(true, files)];
    } else {
      assert maps'[..last] == maps[..last];
    }
  }

  lemma {:induction false} UndoneReducesZero(reduces: seq<ReduceState>)
    ensures UndoneReduces(reduces) == 0 <==> forall t | 0 <= t < |reduces| :: reduces[t].done
  {
    if reduces != [] {
      UndoneReducesZero(reduces[..|reduces| - 1]);
      assert forall t | 0 <= t < |reduces| - 1 :: reduces[..|reduces| - 1][t] == reduces[t];
    }
  }

  lemma {:induction false} UndoneReducesRecord(reduces: seq<ReduceState>, t: nat)
    requires t < |reduces| && !reduces[t].done
    ensures UndoneReduces(reduces[t := ReduceState(true, reduces[t].files)]) == UndoneReduces(reduces) - 1
  {
    var last, rs := |reduces| - 1, reduces[t := ReduceState(true, reduces[t].files)];
    if t < last {
      UndoneReducesRecord(reduces[..last], t);
      assert rs[..last] == reduces[..last][t := ReduceState(true, reduces[..last][t].files)];
    } else {
      assert rs[..last] == reduces[..last];
    }
  }

  lemma {:induction false} UndoneAll(reduces: seq<ReduceState>)
    requires forall r | 0 <= r < |reduces| :: !reduces[r].done
    ensures UndoneReduces(reduces) == |reduces|
  {
    if reduces != [] {
      UndoneAll(reduces[..|reduces| - 1]);
    }
  }

  lemma {:induction false} UndoneSame(a: seq<ReduceState>, b: seq<ReduceState>)
    requires |a| == |b| && forall r | 0 <= r < |a| :: a[r].done == b[r].done
    ensures UndoneReduces(a) == UndoneReduces(b)
  {
    if a != [] {
      UndoneSame(a[..|a| - 1], b[..|b| - 1]);
    }
  }

  lemma {:induction false} UndoneMapsAll(maps: seq<MapState>)
    requires forall t | 0 <= t < |maps| :: !maps[t].done
    ensures Undone(maps) == |maps|
  {
    if maps != [] {
      UndoneMapsAll(maps[..|maps| - 1]);
    }
  }

  // ----- Moving tasks

  lemma PopPending(pool: Pool, t: Task)
    requires pool.queue != []
    ensures Pending(pool.(queue := pool.queue[1..], held := pool.held + multiset{pool.queue[0]}), t) <==> Pending(pool, t)
  {
    assert pool.queue == [pool.queue[0]] + pool.queue[1..];
  }

  lemma PopSafe(job: Job, w: World)
    requires Safe(job, w) && Enabled(job, w, Pop)
    ensures Safe(job, Do(job, w, Pop))
  {
    var pool' := Do(job, w, Pop).pool;
    forall t ensures Pending(pool', t) <==> Pending(w.pool, t) {
      PopPending(w.pool, t);
    }
  }

  lemma RequeueSafe(job: Job, w: World, t: Task)
    requires Safe(job, w) && Enabled(job, w, Requeue(t))
    ensures Safe(job, Do(job, w, Requeue(t)))
  {
    var pool' := Do(job, w, Requeue(t)).pool;
    forall x ensures Pending(pool', x) <==> Pending(w.pool, x) {
      assert x in pool'.queue <==> x in w.pool.queue || x == t;
    }
  }

  /** A timeout drops only tasks nobody needs any more. */
  lemma ExpireSafe(job: Job, w: World, t: Task)
    requires Safe(job, w) && Enabled(job, w, Expire(t))
    ensures Safe(job, Do(job, w, Expire(t)))
  {
    var pool' := Do(job, w, Expire(t)).pool;
    assert Pending(w.pool, t) && TaskOk(job, w.co, t);
    forall x | Pending(pool', x) ensures Pending(w.pool, x) {
    }
    forall x | Needed(w.co, x) ensures Pending(pool', x) {
      assert Pending(w.pool, x);
    }
  }

  /** A handler discards a popped task only if nobody needs it: in particular never an undone reduce
      task, although reduce tasks are queued while the phase still reads Mapping. */
  lemma DiscardedUnneeded(job: Job, w: World, t: Task)
    requires Safe(job, w) && Enabled(job, w, Check(t)) && Assign(w.co, t) == []
    ensures !Needed(w.co, t)
  {
    assert Pending(w.pool, t) && TaskOk(job, w.co, t);
  }

  /** One piece of work: task t itself, a reduce task with what every map task left for it. */
  ghost predicate WorkFor(job: Job, w: World, t: Task, work: seq<Assignment>)
    requires GoodJob(job)
  {
    && |work| == 1 && work[0].tid == t.tid && (work[0].RunMap? <==> t.kind == Mapping)
    && (work[0].RunReduce? ==> InputOk(job, w.co, w.plant, t.tid, work[0].files))
  }

  /** A handler hands out a needed task, and what it hands out is that task. */
  lemma HandsOut(job: Job, w: World, t: Task)
    requires Safe(job, w) && Enabled(job, w, Check(t)) && Needed(w.co, t)
    ensures WorkFor(job, w, t, Assign(w.co, t))
  {
    if t.kind == Reducing {
      assert ReduceOk(job, w.co, w.plant, t.tid);
    }
  }

  /** A timeout sends a task back exactly if it still has to be done. */
  lemma RequeuesNeeded(job: Job, w: World, t: Task)
    requires Safe(job, w) && Enabled(job, w, Expire(t))
    ensures t.kind == w.co.phase && !TaskDone(w.co, t) <==> Needed(w.co, t)
  {
    assert Pending(w.pool, t) && TaskOk(job, w.co, t);
  }

  // ----- Work done outside

  /** Files and outputs are only added. */
  ghost predicate Grows(plant: Plant, plant': Plant) {
    && (forall f | f in plant.fs :: f in plant'.fs && plant'.fs[f] == plant.fs[f])
    && plant.outputs <= plant'.outputs
  }

  lemma OutputStays(a: seq<Output>, b: seq<Output>, r: int)
    requires a <= b && HasOutput(a, r)
    ensures HasOutput(b, r)
  {
    var i :| 0 <= i < |a| && a[i].tid == r;
    assert b[i] == a[i];
  }

  lemma ReportStays(job: Job, plant: Plant, plant': Plant, r: Report)
    requires GoodJob(job) && Grows(plant, plant') && ReportOk(job, plant, r)
    ensures ReportOk(job, plant', r)
  {
    if r.kind == Reducing {
      OutputStays(plant.outputs, plant'.outputs, r.tid);
    }
  }

  lemma MapsStay(job: Job, co: Coord, plant: Plant, plant': Plant)
    requires GoodJob(job) && Grows(plant, plant') && MapsOk(job, co, plant)
    ensures MapsOk(job, co, plant')
  {
    forall t | 0 <= t < |co.maps| && co.maps[t].done ensures GoodFiles(job, plant'.fs, t, co.maps[t].files) {
      assert GoodFiles(job, plant.fs, t, co.maps[t].files);
    }
  }

  lemma ReducesStay(job: Job, co: Coord, plant: Plant, plant': Plant)
    requires GoodJob(job) && Grows(plant, plant') && ReducesOk(job, co, plant)
    ensures ReducesOk(job, co, plant')
  {
    forall r | 0 <= r < |co.reduces| ensures ReduceOk(job, co, plant', r) {
      assert ReduceOk(job, co, plant, r);
      if co.reduces[r].done {
        OutputStays(plant.outputs, plant'.outputs, r);
      }
    }
  }

  lemma ReportsStay(job: Job, plant: Plant, plant': Plant)
    requires GoodJob(job) && Grows(plant, plant') && ReportsOk(job, plant)
    requires forall i | 0 <= i < |plant'.reports| :: plant'.reports[i] in plant.reports || ReportOk(job, plant', plant'.reports[i])
    ensures ReportsOk(job, plant')
  {
    forall i | 0 <= i < |plant'.reports| ensures ReportOk(job, plant', plant'.reports[i]) {
      if plant'.reports[i] in plant.reports {
        var k :| 0 <= k < |plant.reports| && plant.reports[k] == plant'.reports[i];
        ReportStays(job, plant, plant', plant.reports[k]);
      }
    }
  }

  lemma PlantGrows(job: Job, w: World, plant': Plant)
    requires Safe(job, w) && Grows(w.plant, plant')
    requires forall i | 0 <= i < |plant'.reports| :: plant'.reports[i] in w.plant.reports || ReportOk(job, plant', plant'.reports[i])
    requires forall a | a in plant'.workers :: WorkerOk(job, w.co, a)
    requires OutputsOk(job, plant')
    ensures Safe(job, w.(plant := plant'))
  {
    ReportsStay(job, w.plant, plant');
    MapsStay(job, w.co, w.plant, plant');
    ReducesStay(job, w.co, w.plant, plant');
  }

  lemma CheckSafe(job: Job, w: World, t: Task)
    requires Safe(job, w) && Enabled(job, w, Check(t))
    ensures Safe(job, Do(job, w, Check(t)))
  {
    var w' := Do(job, w, Check(t));
    var work := Assign(w.co, t);
    assert Pending(w.pool, t) && TaskOk(job, w.co, t);
    forall x | Pending(w'.pool, x) ensures Pending(w.pool, x) {
    }
    forall x | Needed(w.co, x) ensures Pending(w'.pool, x) {
      assert Pending(w.pool, x);
      if x == t && work == [] {
        DiscardedUnneeded(job, w, t);
      }
    }
    forall a | a in w'.plant.workers ensures WorkerOk(job, w.co, a) {
      if a !in w.plant.workers {
        assert a in work;
      }
    }
    PlantGrows(job, w, w'.plant);
  }

  /** A map execution's message describes the files it has just written. */
  lemma FreshReport(job: Job, w: World, a: Assignment, names: seq<string>)
    requires GoodJob(job) && Enabled(job, w, FinishMap(a, names))
    ensures GoodFiles(job, w.plant.fs + Written(job, a.tid, names), a.tid, Refs(names))
    ensures forall f | f in Written(job, a.tid, names) :: f !in w.plant.fs
  {
    forall r | 0 <= r < |names|
      ensures names[r] in Written(job, a.tid, names) && Written(job, a.tid, names)[names[r]] == MapPart(job, a.tid, r)
    {
    }
  }

  lemma FinishMapSafe(job: Job, w: World, a: Assignment, names: seq<string>)
    requires Safe(job, w) && Enabled(job, w, FinishMap(a, names))
    ensures Safe(job, Do(job, w, FinishMap(a, names)))
  {
    FreshReport(job, w, a, names);
    PlantGrows(job, w, Do(job, w, FinishMap(a, names)).plant);
  }

  /** Every input file a reduce execution was given is there, whenever it reads it. */
  lemma InputsExist(job: Job, w: World, a: Assignment)
    requires Safe(job, w) && a in w.plant.workers && a.RunReduce?
    ensures forall i | 0 <= i < |a.files| :: a.files[i] in w.plant.fs
  {
    assert WorkerOk(job, w.co, a) && ReduceOk(job, w.co, w.plant, a.tid);
  }

  /** A reduce execution reads what the map tasks left for its reducer. */
  lemma ReduceReads(job: Job, w: World, a: Assignment)
    requires Safe(job, w) && Enabled(job, w, FinishReduce(a, true))
    ensures a.tid < job.nReduce && Read(w.plant.fs, a.files) == PartsFor(job, a.tid, |job.files|)
  {
    assert WorkerOk(job, w.co, a) && ReduceOk(job, w.co, w.plant, a.tid);
  }

  lemma FinishReduceSafe(job: Job, w: World, a: Assignment, reported: bool)
    requires Safe(job, w) && Enabled(job, w, FinishReduce(a, reported))
    ensures Safe(job, Do(job, w, FinishReduce(a, reported)))
  {
    ReduceReads(job, w, a);
    var plant' := Do(job, w, FinishReduce(a, reported)).plant;
    assert plant'.outputs[|w.plant.outputs|].tid == a.tid;
    PlantGrows(job, w, plant');
  }

  lemma CrashSafe(job: Job, w: World, a: Assignment, litter: map<string, Contents>)
    requires Safe(job, w) && Enabled(job, w, Crash(a, litter))
    ensures Safe(job, Do(job, w, Crash(a, litter)))
  {
    PlantGrows(job, w, Do(job, w, Crash(a, litter)).plant);
  }

  // ----- The goroutine

  lemma RecordMapSafe(job: Job, w: World, t: nat, files: seq<FileRef>)
    requires Safe(job, w) && w.co.main.CollectMaps? && t < |w.co.maps| && GoodFiles(job, w.plant.fs, t, files)
    ensures Safe(job, w.(co := RecordMap(w.co, t, files)))
  {
    var co' := RecordMap(w.co, t, files);
    if !w.co.maps[t].done {
      UndoneRecord(w.co.maps, t, files);
      forall r | 0 <= r < |co'.reduces| ensures ReduceOk(job, co', w.plant, r) {
        assert ReduceOk(job, w.co, w.plant, r);
      }
      forall a | a in w.plant.workers ensures WorkerOk(job, co', a) {
        assert WorkerOk(job, w.co, a);
      }
      forall x | Needed(co', x) ensures Pending(w.pool, x) {
        assert Needed(w.co, x);
      }
      forall x | Pending(w.pool, x) ensures TaskOk(job, co', x) {
        assert TaskOk(job, w.co, x);
      }
    }
  }

  lemma RecordReduceSafe(job: Job, w: World, t: nat)
    requires Safe(job, w) && w.co.main.CollectReduces? && t < |w.co.reduces| && HasOutput(w.plant.outputs, t)
    ensures Safe(job, w.(co := RecordReduce(w.co, t)))
  {
    var co' := RecordReduce(w.co, t);
    if !w.co.reduces[t].done {
      UndoneReducesRecord(w.co.reduces, t);
      forall r | 0 <= r < |co'.reduces| ensures ReduceOk(job, co', w.plant, r) {
        assert ReduceOk(job, w.co, w.plant, r);
      }
      forall a | a in w.plant.workers ensures WorkerOk(job, co', a) {
        assert WorkerOk(job, w.co, a);
      }
      forall x | Needed(co', x) ensures Pending(w.pool, x) {
        assert Needed(w.co, x);
      }
      forall x | Pending(w.pool, x) ensures TaskOk(job, co', x) {
        assert TaskOk(job, w.co, x);
      }
    }
  }

  /** Dropping the oldest message changes nothing else. */
  lemma TakeReport(job: Job, w: World)
    requires Safe(job, w) && w.plant.reports != []
    ensures Safe(job, w.(plant := w.plant.(reports := w.plant.reports[1..])))
    ensures ReportOk(job, w.plant, w.plant.reports[0])
  {
    PlantGrows(job, w, w.plant.(reports := w.plant.reports[1..]));
  }

  lemma CollectSafe(job: Job, w: World)
    requires Safe(job, w) && Enabled(job, w, Collect)
    ensures Safe(job, Do(job, w, Collect))
  {
    var r := w.plant.reports[0];
    TakeReport(job, w);
    var w1 := w.(plant := w.plant.(reports := w.plant.reports[1..]));
    if w.co.main.CollectMaps? && r.kind == Mapping {
      RecordMapSafe(job, w1, r.tid, r.files);
    } else if w.co.main.CollectReduces? && r.kind == Reducing {
      RecordReduceSafe(job, w1, r.tid);
    }
    assert Handle(job, w.co, r).1 == [];
    assert w.pool.queue + [] == w.pool.queue;
  }

  lemma BeginSpawnSafe(job: Job, w: World)
    requires Safe(job, w) && Enabled(job, w, BeginSpawn)
    ensures Safe(job, Do(job, w, BeginSpawn))
  {
    var co' := Do(job, w, BeginSpawn).co;
    forall r | 0 <= r < |co'.reduces| ensures ReduceOk(job, co', w.plant, r) && !w.co.reduces[r].done {
      assert ReduceOk(job, w.co, w.plant, r);
    }
    UndoneAll(w.co.reduces);
    forall a | a in w.plant.workers ensures WorkerOk(job, co', a) {
      assert WorkerOk(job, w.co, a);
    }
    forall x | Needed(co', x) ensures Pending(w.pool, x) {
      assert Needed(w.co, x);
    }
    forall x | Pending(w.pool, x) ensures TaskOk(job, co', x) {
      assert TaskOk(job, w.co, x);
    }
  }

  lemma SpawnOneSafe(job: Job, w: World)
    requires Safe(job, w) && Enabled(job, w, SpawnOne)
    ensures Safe(job, Do(job, w, SpawnOne))
  {
    var w' := Do(job, w, SpawnOne);
    var added := Task(w.co.main.next, Reducing);
    forall r | 0 <= r < |w'.co.reduces| ensures ReduceOk(job, w'.co, w.plant, r) {
      assert ReduceOk(job, w.co, w.plant, r);
    }
    forall a | a in w.plant.workers ensures WorkerOk(job, w'.co, a) {
      assert WorkerOk(job, w.co, a);
    }
    forall x ensures Pending(w'.pool, x) <==> Pending(w.pool, x) || x == added {
    }
    forall x | Needed(w'.co, x) ensures Pending(w'.pool, x) {
      assert x == added || Needed(w.co, x);
    }
    forall x | Pending(w'.pool, x) ensures TaskOk(job, w'.co, x) {
      assert x == added || TaskOk(job, w.co, x);
    }
  }

  /** When the reduce phase opens, each reducer's list is one file per map task, in task order. */
  lemma SpawnedInput(job: Job, w: World, r: nat)
    requires Safe(job, w) && Enabled(job, w, EndSpawn) && r < |w.co.reduces|
    ensures InputOk(job, Do(job, w, EndSpawn).co, w.plant, r, Do(job, w, EndSpawn).co.reduces[r].files)
  {
    AllRecorded(job, w);
    assert ReduceOk(job, w.co, w.plant, r);
    assert [] + FilesFor(w.co.maps, r) == FilesFor(w.co.maps, r);
    ColumnIsInput(job, Do(job, w, EndSpawn).co, w.plant, r);
  }

  lemma ColumnIsInput(job: Job, co: Coord, plant: Plant, r: nat)
    requires GoodJob(job) && |co.maps| == |job.files| && r < job.nReduce
    requires forall t | 0 <= t < |co.maps| :: GoodFiles(job, plant.fs, t, co.maps[t].files)
    ensures InputOk(job, co, plant, r, FilesFor(co.maps, r))
  {
    assert forall t, i | 0 <= t < |co.maps| && 0 <= i < |co.maps[t].files| :: co.maps[t].files[i].reducer == i;
    FilesForIsColumn(co.maps, r);
  }

  /** When the reduce tasks are spawned, every map task has recorded its files. */
  lemma AllRecorded(job: Job, w: World)
    requires Safe(job, w) && w.co.main.Spawning?
    ensures forall t | 0 <= t < |w.co.maps| :: w.co.maps[t].done && GoodFiles(job, w.plant.fs, t, w.co.maps[t].files)
  {
    UndoneZero(w.co.maps);
  }

  lemma EndSpawnSafe(job: Job, w: World)
    requires Safe(job, w) && Enabled(job, w, EndSpawn)
    ensures Safe(job, Do(job, w, EndSpawn))
  {
    var co' := Do(job, w, EndSpawn).co;
    forall r | 0 <= r < |co'.reduces| ensures ReduceOk(job, co', w.plant, r) {
      assert ReduceOk(job, w.co, w.plant, r);
      SpawnedInput(job, w, r);
    }
    UndoneSame(w.co.reduces, co'.reduces);
    forall a | a in w.plant.workers ensures WorkerOk(job, co', a) {
      assert WorkerOk(job, w.co, a);
    }
    forall x | Needed(co', x) ensures Pending(w.pool, x) {
      assert Needed(w.co, x);
    }
    forall x | Pending(w.pool, x) ensures TaskOk(job, co', x) {
      assert TaskOk(job, w.co, x);
    }
  }

  lemma FinishSafe(job: Job, w: World)
    requires Safe(job, w) && Enabled(job, w, Finish)
    ensures Safe(job, Do(job, w, Finish))
  {
    var co' := Do(job, w, Finish).co;
    forall r | 0 <= r < |co'.reduces| ensures ReduceOk(job, co', w.plant, r) {
      assert ReduceOk(job, w.co, w.plant, r);
    }
    forall a | a in w.plant.workers ensures WorkerOk(job, co', a) {
      assert WorkerOk(job, w.co, a);
    }
    forall x | Pending(w.pool, x) ensures TaskOk(job, co', x) {
      assert TaskOk(job, w.co, x);
    }
  }

  // ----- Runs

  lemma StepSafe(job: Job, w: World, step: Step)
    requires Safe(job, w) && Enabled(job, w, step)
    ensures Safe(job, Do(job, w, step))
  {
    match step
    case Pop => PopSafe(job, w);
    case Check(t) => CheckSafe(job, w, t);
    case Expire(t) => ExpireSafe(job, w, t);
    case Requeue(t) => RequeueSafe(job, w, t);
    case FinishMap(a, names) => FinishMapSafe(job, w, a, names);
    case FinishReduce(a, reported) => FinishReduceSafe(job, w, a, reported);
    case Crash(a, litter) => CrashSafe(job, w, a, litter);
    case Collect => CollectSafe(job, w);
    case BeginSpawn => BeginSpawnSafe(job, w);
    case SpawnOne => SpawnOneSafe(job, w);
    case EndSpawn => EndSpawnSafe(job, w);
    case Finish => FinishSafe(job, w);
  }

  lemma InitSafe(job: Job, fs: map<string, Contents>)
    requires GoodJob(job)
    ensures Safe(job, Init(job, fs))
  {
    var w := Init(job, fs);
    UndoneMapsAll(w.co.maps);
    forall x | Needed(w.co, x) ensures Pending(w.pool, x) {
      assert w.pool.queue[x.tid] == x;
    }
  }

  lemma {:induction false} RunSafe(job: Job, w: World, steps: seq<Step>)
    requires Safe(job, w) && Valid(job, w, steps)
    ensures Safe(job, After(job, w, steps))
    decreases |steps|
  {
    if steps != [] {
      StepSafe(job, w, steps[0]);
      RunSafe(job, Do(job, w, steps[0]), steps[1..]);
    }
  }

  // ----- Main results

  /** In every reachable state the incomplete counters count the undone tasks, a later phase is entered
      only with all tasks of the earlier one done, and every undone task of the current phase is
      in the queue or about to be, held by a handler, or covered by a pending timeout. */
  lemma NoTaskLost(job: Job, fs: map<string, Contents>, steps: seq<Step>)
    requires GoodJob(job) && Valid(job, Init(job, fs), steps)
    ensures var w := After(job, Init(job, fs), steps); PhasesOk(job, w.co) && NothingLost(w.co, w.pool)
  {
    InitSafe(job, fs);
    RunSafe(job, Init(job, fs), steps);
  }

  /** In every run, the handler that pops an undone reduce task hands it out: it is never discarded for
      being out of phase. */
  lemma ReduceTaskNeverDiscarded(job: Job, fs: map<string, Contents>, steps: seq<Step>, r: nat)
    requires GoodJob(job) && Valid(job, Init(job, fs), steps)
    requires Enabled(job, After(job, Init(job, fs), steps), Check(Task(r, Reducing)))
    requires !TaskDone(After(job, Init(job, fs), steps).co, Task(r, Reducing))
    ensures var co := After(job, Init(job, fs), steps).co;
            r < |co.reduces| && Assign(co, Task(r, Reducing)) == [RunReduce(r, co.reduces[r].files)]
  {
    InitSafe(job, fs);
    RunSafe(job, Init(job, fs), steps);
    HandsOutReduce(job, After(job, Init(job, fs), steps), r);
  }

  lemma HandsOutReduce(job: Job, w: World, r: nat)
    requires Safe(job, w) && Enabled(job, w, Check(Task(r, Reducing))) && !TaskDone(w.co, Task(r, Reducing))
    ensures r < |w.co.reduces| && Assign(w.co, Task(r, Reducing)) == [RunReduce(r, w.co.reduces[r].files)]
  {
    assert Pending(w.pool, Task(r, Reducing)) && TaskOk(job, w.co, Task(r, Reducing));
    UndoneReducesZero(w.co.reduces);
  }

  /** Phases only advance; a map task's record never changes once made, and it is made from a single
      completion message; a reducer's inputs never change once the reduce phase has begun. */
  ghost predicate Frozen(co: Coord, co': Coord) {
    && |co'.maps| == |co.maps| && |co'.reduces| == |co.reduces|
    && (co.phase != Mapping ==> co'.phase != Mapping) && (co.phase == AllDone ==> co'.phase == AllDone)
    && (forall t | 0 <= t < |co.maps| && co.maps[t].done :: co'.maps[t] == co.maps[t])
    && (forall r | 0 <= r < |co.reduces| :: co.reduces[r].done ==> co'.reduces[r].done)
    && (co.phase != Mapping ==> forall r | 0 <= r < |co.reduces| :: co'.reduces[r].files == co.reduces[r].files)
  }

  lemma StepFrozen(job: Job, w: World, step: Step)
    requires Safe(job, w) && Enabled(job, w, step)
    ensures Frozen(w.co, Do(job, w, step).co)
    ensures forall t | 0 <= t < |w.co.maps| && !w.co.maps[t].done && Do(job, w, step).co.maps[t].done ::
              step.Collect? && w.plant.reports[0] == Report(Mapping, t, Do(job, w, step).co.maps[t].files)
  {
    if step.Collect? {
      assert ReportOk(job, w.plant, w.plant.reports[0]);
    }
  }

  lemma {:induction false} RunFrozen(job: Job, w: World, steps: seq<Step>)
    requires Safe(job, w) && Valid(job, w, steps)
    ensures Frozen(w.co, After(job, w, steps).co)
    decreases |steps|
  {
    if steps != [] {
      StepFrozen(job, w, steps[0]);
      StepSafe(job, w, steps[0]);
      RunFrozen(job, Do(job, w, steps[0]), steps[1..]);
      FrozenTransitive(w.co, Do(job, w, steps[0]).co, After(job, w, steps).co);
    }
  }

  /** Whatever a completion message says, malformed or late: a task of the current phase that it names is then done or back in
      the queue, a map task is recorded only with one file per reducer, and the counters go on counting. */
  ghost predicate Handled(job: Job, co: Coord, r: Report, co': Coord, back: seq<Task>) {
    && PhasesOk(job, co') && Frozen(co, co')
    && (r.kind == co.phase && 0 <= r.tid < (if co.phase == Mapping then |job.files| else job.nReduce) ==>
          TaskDone(co', Task(r.tid, r.kind)) || back == [Task(r.tid, r.kind)])
    && (forall t | 0 <= t < |co.maps| && !co.maps[t].done && co'.maps[t].done ::
          r.kind == Mapping && t == r.tid && co'.maps[t].files == r.files && |r.files| == job.nReduce)
    && (forall t | 0 <= t < |co.reduces| && !co.reduces[t].done && co'.reduces[t].done :: r.kind == Reducing && t == r.tid)
  }

  lemma AnyReport(job: Job, co: Coord, r: Report)
    requires PhasesOk(job, co) && (co.main.CollectMaps? || co.main.CollectReduces?)
    ensures Handled(job, co, r, Handle(job, co, r).0, Handle(job, co, r).1)
  {
    if co.main.CollectMaps? && 0 <= r.tid < |co.maps| && !co.maps[r.tid].done {
      UndoneRecord(co.maps, r.tid, r.files);
    }
    if co.main.CollectReduces? && 0 <= r.tid < |co.reduces| && !co.reduces[r.tid].done {
      UndoneReducesRecord(co.reduces, r.tid);
    }
  }

  lemma FrozenTransitive(a: Coord, b: Coord, c: Coord)
    requires Frozen(a, b) && Frozen(b, c)
    ensures Frozen(a, c)
  {
    forall t | 0 <= t < |a.maps| && a.maps[t].done ensures c.maps[t] == a.maps[t] {
      assert b.maps[t] == a.maps[t];
    }
  }

  /** A run that reaches Done has, for every reducer, at least one execution's results, and all
      executions of a reducer, duplicates and late ones included, computed the same: the answer on
      the keys that hash to that reducer. */
  ghost predicate Complete(job: Job, w: World)
    requires GoodJob(job)
  {
    && (forall r | 0 <= r < job.nReduce :: HasOutput(w.plant.outputs, r))
    && (forall i | 0 <= i < |w.plant.outputs| ::
          w.plant.outputs[i].results
          == map k | k in Answer(job) && job.ihash(k) % job.nReduce == w.plant.outputs[i].tid :: Answer(job)[k])
  }

  lemma SafeComplete(job: Job, w: World)
    requires Safe(job, w) && w.co.phase == AllDone
    ensures Complete(job, w)
  {
    UndoneReducesZero(w.co.reduces);
    forall r | 0 <= r < job.nReduce ensures HasOutput(w.plant.outputs, r) {
      assert ReduceOk(job, w.co, w.plant, r);
    }
    forall i | 0 <= i < |w.plant.outputs|
      ensures w.plant.outputs[i].results
           == map k | k in Answer(job) && job.ihash(k) % job.nReduce == w.plant.outputs[i].tid :: Answer(job)[k]
    {
      ReducersCoverAnswer(job, w.plant.outputs[i].tid);
    }
  }

  lemma DoneMeansAnswer(job: Job, fs: map<string, Contents>, steps: seq<Step>)
    requires GoodJob(job) && Valid(job, Init(job, fs), steps)
    requires After(job, Init(job, fs), steps).co.phase == AllDone
    ensures Complete(job, After(job, Init(job, fs), steps))
  {
    InitSafe(job, fs);
    RunSafe(job, Init(job, fs), steps);
    SafeComplete(job, After(job, Init(job, fs), steps));
  }

  /** The results of any one execution per reducer, put together. */
  ghost predicate Picks(w: World, picks: seq<nat>, n: nat) {
    |picks| == n && forall r | 0 <= r < n :: picks[r] < |w.plant.outputs| && w.plant.outputs[picks[r]].tid == r
  }

  function Union(outputs: seq<Output>, picks: seq<nat>): Results
    requires forall r | 0 <= r < |picks| :: picks[r] < |outputs|
  {
    if picks == [] then map[] else Union(outputs, picks[..|picks| - 1]) + outputs[picks[|picks| - 1]].results
  }

  lemma {:induction false} UnionBelow(job: Job, w: World, picks: seq<nat>, n: nat)
    requires GoodJob(job) && Complete(job, w) && n <= job.nReduce && Picks(w, picks, n)
    ensures Union(w.plant.outputs, picks) == map k | k in Answer(job) && job.ihash(k) % job.nReduce < n :: Answer(job)[k]
  {
    if n > 0 {
      UnionBelow(job, w, picks[..n - 1], n - 1);
    }
  }

  /** The results of the reducers, whichever execution of each, have disjoint keys, and together they are the
      lines of the sequential program: every key it prints, with the value it prints, and nothing else. */
  lemma DistributedEqualsSequential(job: Job, fs: map<string, Contents>, steps: seq<Step>, picks: seq<nat>,
                                    sorted: seq<KeyValue>, lines: seq<(string, string)>)
    requires GoodJob(job) && Valid(job, Init(job, fs), steps)
    requires After(job, Init(job, fs), steps).co.phase == AllDone
    requires Picks(After(job, Init(job, fs), steps), picks, job.nReduce)
    requires OrderInsensitive(job.reducef) && Rearranged(job, sorted) && Prints(lines, sorted, job.reducef)
    ensures SplitsAnswer(job, After(job, Init(job, fs), steps).plant.outputs, picks)
    ensures Tabulates(lines, Union(After(job, Init(job, fs), steps).plant.outputs, picks))
  {
    DoneMeansAnswer(job, fs, steps);
    PicksSplit(job, After(job, Init(job, fs), steps), picks);
    PrintsAnswer(job, sorted, lines);
  }

  ghost predicate SplitsAnswer(job: Job, outputs: seq<Output>, picks: seq<nat>)
    requires GoodJob(job)
  {
    && (forall r | 0 <= r < |picks| :: picks[r] < |outputs|)
    && (forall q, r | 0 <= q < r < |picks| :: outputs[picks[q]].results.Keys !! outputs[picks[r]].results.Keys)
    && Union(outputs, picks) == Answer(job)
  }

  lemma PicksSplit(job: Job, w: World, picks: seq<nat>)
    requires GoodJob(job) && Complete(job, w) && Picks(w, picks, job.nReduce)
    ensures SplitsAnswer(job, w.plant.outputs, picks)
  {
    UnionBelow(job, w, picks, job.nReduce);
  }

  // ----- The coordinator object

  function ReduceTasks(n: nat): seq<Task> {
    seq(n, r requires 0 <= r < n => Task(r, Reducing))
  }

  class Service {
    const nReduce: nat
    var phase: Phase
    var maps: seq<MapState>
    var reduces: seq<ReduceState>
    var missingMaps: int
    var missingReduces: int
    var main: Main
    var taskQueue: seq<Task>

    ghost function View(): Coord
      reads this
    {
      Coord(phase, maps, reduces, missingMaps, missingReduces, main)
    }

    constructor (job: Job)
      ensures nReduce == job.nReduce
      ensures forall fs :: View() == Init(job, fs).co && taskQueue == Init(job, fs).pool.queue
    {
      nReduce := job.nReduce;
      phase, main := Mapping, CollectMaps;
      missingMaps, missingReduces := |job.files|, 0;
      var ms, rs, q := [], [], [];
      for tid := 0 to |job.files|
        invariant ms == seq(tid, _ => MapState(false, seq(job.nReduce, _ => FileRef(0, ""))))
        invariant |q| == tid && forall t | 0 <= t < tid :: q[t] == Task(t, Mapping)
      {
        ms := ms + [MapState(false, seq(job.nReduce, _ => FileRef(0, "")))];
        q := q + [Task(tid, Mapping)];
      }
      for tid := 0 to job.nReduce
        invariant rs == seq(tid, _ => ReduceState(false, []))
      {
        rs := rs + [ReduceState(false, [])];
      }
      maps, reduces, taskQueue := ms, rs, q;
    }

    /** ReqTask, once it holds the read lock: the work for task t, if it is still in phase. */
    method CheckTask(t: Task) returns (work: seq<Assignment>)
      ensures work == Assign(View(), t)
      ensures forall job, w | Safe(job, w) && w.co == View() && Readable(w.co) && t in w.pool.held && Needed(w.co, t) ::
                WorkFor(job, w, t, work)
    {
      forall job, w | Safe(job, w) && w.co == View() && Readable(w.co) && t in w.pool.held && Needed(w.co, t)
        ensures WorkFor(job, w, t, Assign(View(), t))
      {
        HandsOut(job, w, t);
      }
      if t.kind != phase {
        return [];
      }
      match t.kind
      case Mapping => work := [RunMap(t.tid)];
      case Reducing =>
        if t.tid < |reduces| {
          work := [RunReduce(t.tid, reduces[t.tid].files)];
        } else {
          work := [];
        }
      case AllDone => work := [];
    }

    /** The timeout goroutine: should t go back to the queue? */
    method TimedOut(t: Task) returns (again: bool)
      ensures again <==> t.kind == phase && !TaskDone(View(), t)
      ensures forall job, w | Safe(job, w) && w.co == View() && Readable(w.co) && t in w.pool.timers ::
                && (again <==> Needed(w.co, t))
                && Do(job, w, Expire(t)).pool.requeue == w.pool.requeue + if again then multiset{t} else multiset{}
    {
      var taskDone;
      match t.kind {
        case Mapping => taskDone := t.tid < |maps| && maps[t.tid].done;
        case Reducing => taskDone := t.tid < |reduces| && reduces[t.tid].done;
        case AllDone => taskDone := true;
      }
      again := t.kind == phase && !taskDone;
      forall job, w | Safe(job, w) && w.co == View() && Readable(w.co) && t in w.pool.timers
        ensures t.kind == phase && !TaskDone(w.co, t) <==> Needed(w.co, t)
      {
        RequeuesNeeded(job, w, t);
      }
    }

    /** One turn of the loop that collects map completions; every map state has room for nReduce files. */
    method CollectMap(job: Job, r: Report)
      requires main.CollectMaps? && nReduce == job.nReduce
      requires forall t | 0 <= t < |maps| :: |maps[t].files| == nReduce
      modifies this
      ensures View() == Handle(job, old(View()), r).0
      ensures taskQueue == old(taskQueue) + Handle(job, old(View()), r).1
      ensures forall t | 0 <= t < |maps| :: |maps[t].files| == nReduce
    {
      assert taskQueue + [] == taskQueue;
      if r.kind != Mapping || r.tid < 0 || r.tid >= |maps| {
        return;
      }
      if |r.files| != nReduce {
        taskQueue := taskQueue + [Task(r.tid, Mapping)];
        return;
      }
      if maps[r.tid].done {
        return;
      }
      var files := maps[r.tid].files;
      for i := 0 to |r.files|
        invariant |files| == nReduce && files[..i] == r.files[..i]
      {
        files := files[i := r.files[i]];
      }
      assert files == files[..nReduce] == r.files;
      maps := maps[r.tid := MapState(true, files)];
      missingMaps := missingMaps - 1;
    }

    /** One turn of the loop that collects reduce completions. */
    method CollectReduce(job: Job, r: Report)
      requires main.CollectReduces?
      modifies this
      ensures View() == Handle(job, old(View()), r).0
      ensures taskQueue == old(taskQueue) + Handle(job, old(View()), r).1
    {
      assert taskQueue + [] == taskQueue;
      if r.kind != Reducing || r.tid < 0 || r.tid >= |reduces| {
        return;
      }
      if reduces[r.tid].done {
        return;
      }
      reduces := reduces[r.tid := ReduceState(true, reduces[r.tid].files)];
      missingReduces := missingReduces - 1;
    }

    /** From the map phase to the reduce phase, under the write lock: queue the reduce tasks and hand out
        the intermediate files. A reducer number outside the range would be a run-time error. */
    method SpawnReduces()
      requires main.CollectMaps? && |reduces| == nReduce
      requires forall t, i | 0 <= t < |maps| && 0 <= i < |maps[t].files| :: maps[t].files[i].reducer < nReduce
      modifies this
      ensures View() == Coord(Reducing, old(maps), Distribute(old(maps), old(reduces)), old(missingMaps), nReduce, CollectReduces)
      ensures taskQueue == old(taskQueue) + ReduceTasks(nReduce)
    {
      missingReduces := nReduce;
      for tid := 0 to nReduce
        invariant taskQueue == old(taskQueue) + ReduceTasks(tid)
        invariant phase == old(phase) && maps == old(maps) && reduces == old(reduces) && main == old(main)
        invariant missingMaps == old(missingMaps) && missingReduces == nReduce
      {
        taskQueue := taskQueue + [Task(tid, Reducing)];
        assert ReduceTasks(tid + 1) == ReduceTasks(tid) + [Task(tid, Reducing)];
      }
      HandOutFiles();
      phase, main := Reducing, CollectReduces;
    }

    method HandOutFiles()
      requires |reduces| == nReduce
      requires forall t, i | 0 <= t < |maps| && 0 <= i < |maps[t].files| :: maps[t].files[i].reducer < nReduce
      modifies this`reduces
      ensures reduces == Distribute(old(maps), old(reduces))
    {
      assert forall r | 0 <= r < nReduce :: reduces[r].files + [] == reduces[r].files;
      for t := 0 to |maps|
        invariant reduces == Distribute(maps[..t], old(reduces))
      {
        HandOutFilesOf(t);
        assert maps[..t + 1][..t] == maps[..t];
        forall r | 0 <= r < nReduce
          ensures reduces[r] == ReduceState(old(reduces)[r].done, old(reduces)[r].files + FilesFor(maps[..t + 1], r))
        {
          var a, b, c := old(reduces)[r].files, FilesFor(maps[..t], r), FilesOf(maps[t].files, r);
          assert (a + b) + c == a + (b + c);
        }
      }
      assert maps[..|maps|] == maps;
    }

    /** The inner loop: the files of one map task, each to its reducer. */
    method HandOutFilesOf(t: nat)
      requires |reduces| == nReduce && t < |maps|
      requires forall i | 0 <= i < |maps[t].files| :: maps[t].files[i].reducer < nReduce
      modifies this`reduces
      ensures |reduces| == nReduce
      ensures forall r | 0 <= r < nReduce ::
                reduces[r] == ReduceState(old(reduces)[r].done, old(reduces)[r].files + FilesOf(maps[t].files, r))
    {
      for i := 0 to |maps[t].files|
        invariant |reduces| == nReduce
        invariant forall r | 0 <= r < nReduce ::
                    reduces[r] == ReduceState(old(reduces)[r].done, old(reduces)[r].files + FilesOf(maps[t].files[..i], r))
      {
        var im := maps[t].files[i];
        var r := im.reducer;
        assert maps[t].files[..i + 1][..i] == maps[t].files[..i];
        reduces := reduces[r := ReduceState(reduces[r].done, reduces[r].files + [im.file])];
      }
      assert maps[t].files[..|maps[t].files|] == maps[t].files;
    }
  }
}
