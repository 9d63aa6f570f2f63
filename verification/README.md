# Proofs about the 6.5840 lab code

A Dafny model of the parts of the repository that implement a protocol or an algorithm, with proofs of what they
guarantee. `dafny verify dfyconfig.toml` checks all of it.

| file | what it models |
|---|---|
| `KvServer.dfy` | the versioned key/value server and its single operation loop |
| `Clerk.dfy` | clients with the clerk's retry loop, and a network that loses, delays and abandons messages |
| `LateWrites.dfy` | exactly when a `Put` can write although its caller was told otherwise |
| `Lock.dfy` | `Acquire` and `Release` running on that system, any number of clients and locks |
| `LockRuns.dfy` | a client alone with the lock: `Acquire` takes it, `Release` frees it |
| `LockClients.dfy`, `LockLoop.dfy` | the test program that uses the lock to protect a key, and one client going round its loop |
| `KvModel.dfy`, `Strings.dfy` | the sequential specification, and checking a history one key at a time |
| `Orders.dfy` | what the sequential specification accepts, said without running it |
| `Linearizability.dfy` | histories of the clerk and server against that specification |
| `Limits.dfy` | exactly which `Put`s can make a history not linearizable |
| `Writes.dfy` | what a key's version counts, and what a client that is alone with a key can conclude |
| `Workloads.dfy`, `Appends.dfy`, `OnePuts.dfy` | the two concurrent workloads of the key/value tests and their final checks |
| `AppendRuns.dfy`, `OnePutRuns.dfy` | a client of each workload alone with the key |
| `Histories.dfy` | the histories of the calls that the lock and the workloads make |
| `MapReduce.dfy` | map task, reduce task, the sequential program |
| `Coordinator.dfy` | coordinator, workers, timeouts, duplicate and late executions, crashes |
| `Progress.dfy` | from every state of every run the job can still be finished |
| `Shards.dfy`, `Frugal.dfy`, `ShardConfig.dfy` | balancing shards over groups; that no way to balance moves fewer; the configuration object |
| `Framing.dfy`, `Demux.dfy` | length-prefixed messages; many callers sharing one connection |
| `Replies.dfy` | that the connection's reader delivers what it reads, and leaves nobody waiting |

## How the model is built

Concurrent code is a transition system. A state is a value. A step is one thing that can happen atomically: a clerk
sends a copy of its request, the server executes a copy, a reply is delivered, a timer fires, a worker crashes. A run
is any sequence of enabled steps. Invariants are proved for every step, so the main results hold for every reachable
state and every interleaving. Code that runs alone and updates variables or objects is a method or a class, proved
against the functions the other results are about.

Results of the form "it can" name or build a finite run. They show what the invariants alone leave open: that a step
does what it is for. "Alone" means that one client's calls go through and nobody else acts.

In `Clerk.dfy` a network step can lose a request, lose a reply, or abandon a copy: the caller is told that the call
failed while the copy may still execute, any time later. The last one is what `processReq` does on a long delay.

## Where code and documentation disagree

- A `Put` that returns `ErrNoKey` may still take effect: an abandoned earlier copy can execute after the copy that
  answered, and even before its answer arrives. It can happen if and only if the `Put` names a version other than 0
  of a key that is missing when it is called (`LateWrites.MissedPutWritesExactly`, `WritesBeforeMissExactly`).
- A `Put` can write after it has returned, with `ErrNoKey` or with `ErrMaybe`, if and only if it names a version that
  the key has not reached when it is called (`LateWrites.LateWriteExactly`).
- The sequential specification has no transition for a `Put` that is answered `ErrNoKey`, although the server gives
  that answer. Without abandoned copies a history is linearizable if and only if no `Put` got it
  (`Linearizability.LinearizableWithoutAbandons`), and one more `Put` can break it if and only if it names a version
  other than 0 of a missing key (`Limits.BreaksPlainlyExactly`).
- With abandoned copies, histories are linearizable when callers name only versions the key has reached
  (`Linearizability.LinearizableWhenVersionsReached`), and one more `Put` can break that if and only if it names a
  version the key has not reached (`Limits.BreaksExactly`). The lock and both workloads name only such versions
  (`Histories`).
- `Join` and `Leave` with several groups can fail half way. The number and the shards are then unchanged, but the
  groups before the one that failed have been added or removed. For `Leave` that is nothing exactly if the first
  group was not a member. For `Join` it depends on the order in which the map is iterated, and some order leaves
  part of the call behind exactly when the call must fail and some group could be added alone
  (`ShardConfig.PartlyJoinedExactly`).
- A connection's 32-bit tags wrap around. Calls are matched correctly on every connection with at most 2^32 calls
  (`Demux.FewCallsMatched`), and beyond that as long as no tag is handed out while a call is registered under it or
  about to be. `Demux.ReuseExactly` shows that handing one out otherwise can cost a call its answer.
- A message of 2^32 bytes or more loses the top of its length on the wire; `Framing.FrameExactly` is the exact bound.
- A reduce worker that cannot read an input file means to give the task up, but its `continue` only skips the file. The
  branch is not reached while files stay readable: every input file exists whenever it is read
  (`Coordinator.InputsExist`).

## Model

| member | source | states |
|---|---|---|
| `KvServer.ApplyEffect` | src/kvsrv1/server.go:61-109 | A Put is OK exactly when it names the key's current version (0 for a missing key) and then advances it by one; all else leaves the store alone; keys never disappear |
| `KvServer.Server.ServeOne` | src/kvsrv1/server.go:61-109 | One round of the loop answers the oldest queued operation and has exactly its effect |
| `KvServer.Server.Drain` | src/kvsrv1/server.go:61-109 | The loop answers every queued operation once, in order: concurrent handlers are serialized by the queue |
| `Clerk.RunConsistent` | src/kvsrv1/client.go:42-110 | The invariant of clerks, messages and store (at most one effective copy per Put, replies consistent with the store, times ordered) holds after every run |
| `Clerk.PutOutcomes` | src/kvsrv1/client.go:80-110 | Over every run: at most one copy of a Put writes; OK exactly if the answering copy wrote; ErrVersion means the only copy sent was refused; ErrNoKey means none had written before the answering copy executed |
| `Clerk.StepKeeps` | src/kvsrv1/server.go:61-109 | Versions never go down, returned calls keep their result and executed copies their reply |
| `Clerk.SettledPut` | src/kvsrv1/client.go:80-110 | A Put that named a version already reached never gets ErrNoKey, and once it has returned every copy still under way will be refused |
| `Clerk.RunSettled` | src/kvsrv1/client.go:80-110 | That stays so over every run, however late the copies execute |
| `LateWrites.LateWriteExactly` | src/labrpc/labrpc.go:290-383 | A Put can write after returning if and only if it names a version the key has not reached when it is called |
| `LateWrites.MissedPutWritesExactly` | src/kvsrv1/client.go:80-110 | A Put can return ErrNoKey and write if and only if it names a version other than 0 of a key that is missing when it is called |
| `LateWrites.WritesBeforeMissExactly` | src/kvsrv1/client.go:80-110 | With another idle client, it can write even before it returns ErrNoKey under the same condition and no other |
| `LateWrites.RunKnown` | src/kvsrv1/server.go:61-109 | A Put that names version 0 or a key that is there is never told, by any copy of any run, that the key is missing |
| `Lock.WriterOwnsTurn` | src/kvsrv1/lock/lock.go:38-125 | A copy that is about to write a lock's key belongs to the current call of a client inside Acquire or Release of that lock |
| `Lock.OwnershipStable` | src/kvsrv1/lock/lock.go:38-125 | Nobody but the owner can change who owns a lock |
| `Lock.MutualExclusion` | src/kvsrv1/lock/lock.go:38-125 | In every run at most one client is between a returned Acquire and its Release, and the server names it owner all that time |
| `Lock.NeverPanics` | src/kvsrv1/lock/lock.go:38-125 | No panic in Acquire or Release is reachable, whatever the network does |
| `Lock.ReturnsTellTruth` | src/kvsrv1/lock/lock.go:38-125 | Acquire returns only to the owner, Release only to a client that is not the owner, and ErrMaybe inside Release means the Put did write |
| `LockRuns.AcquireTakes` | src/kvsrv1/lock/lock.go:38-83 | In every safe state a client alone that calls Acquire on a lock that is free (key missing or empty), or already its own, comes to hold it, and no other lock or client is touched |
| `LockRuns.AcquireGoesOn` | src/kvsrv1/lock/lock.go:46-82 | The same from every point inside Acquire, after a refused Put and at the check after ErrMaybe included |
| `LockRuns.ReleaseFrees` | src/kvsrv1/lock/lock.go:85-125 | Release by the owner, alone, returns with the lock free and every other lock as it was |
| `LockRuns.ReleaseByOther` | src/kvsrv1/lock/lock.go:92-98 | Release by anybody else, alone, returns with the store as it was |
| `LockRuns.ReleaseGoesOn` | src/kvsrv1/lock/lock.go:92-124 | From every point inside Release, the check after ErrMaybe included, the client alone gets out and does not own the lock |
| `LockClients.WriterAt` | src/kvsrv1/lock/lock_test.go:61-109 | A copy that is about to write the protected key belongs to the running Put of a client that creates, marks or clears it |
| `LockClients.TestNeverFails` | src/kvsrv1/lock/lock_test.go:61-109 | Over every run of any number of clients of the test program: "two clients acquired lock", "get failed" and "put failed" are unreachable |
| `LockLoop.ReachesLoop` | src/kvsrv1/lock/lock_test.go:61-72 | From the start with two different locks, both free, a client alone gets through both and creates the protected key |
| `LockLoop.LoopGoesRound` | src/kvsrv1/lock/lock_test.go:73-109 | In every safe state with the lock free, a client alone at the top of its loop goes round it: two writes of the protected key, which is empty again, and the lock free again |
| `Strings.LessMeans` | src/models1/kv.go:37 | The order of keys is the order of their first differing characters, a prefix first |
| `KvModel.Partition` | src/models1/kv.go:27-43 | The lists are per key exactly that key's operations in history order, keys ascending, none missing |
| `KvModel.LegalByKey` | src/models1/kv.go:44-67 | An order is legal for the whole map if and only if each key's part is legal for one cell |
| `Orders.LegalMeans` | src/models1/kv.go:49-67 | An order is legal for one cell if and only if every Get returned the value of the last write before it ("" if none) and every Put's answer fits, a Put being a write exactly when it names the number of writes before it |
| `Orders.ReadHasSource` | src/models1/kv.go:44-67 | In a linearizable history a Get returns "" or a value that a Put of its key carried |
| `Orders.ReadIsFresh` | src/models1/kv.go:44-67 | And it returns the value of a Put acknowledged before it began, or one carried by a Put that was not over when that one began |
| `Orders.ReadOfNothing` | src/models1/kv.go:44-67 | A history with a Get of a value nobody put is not linearizable |
| `Orders.StaleRead` | src/models1/kv.go:44-67 | Nor is one with a Get of a value that an acknowledged Put had overwritten before the Get began |
| `KvModel.Merge` | src/models1/kv.go:27-43 | Two orders of different keys that respect real time can be interleaved into one that does |
| `KvModel.CheckByKey` | src/models1/kv.go:27-67 | A history is linearizable if and only if the list of each of its keys is: checking by key is sound and complete |
| `Linearizability.RunLog` | src/kvsrv1/server.go:61-147 | After every run, the executed copies in order explain the store and every reply as a sequential execution |
| `Linearizability.LinRealTime` | src/kvtest1/porcupine.go:50-82 | Placing each call at its effective or answering copy respects the order of calls and returns |
| `Linearizability.LinLegal` | src/models1/kv.go:44-67 | That placement is a legal run of the sequential specification and ends in the server's store |
| `Linearizability.LinearizableWhenVersionsReached` | src/kvsrv1/client.go:42-110 | From an empty server, over every run with losses, delays and abandoned copies: histories are linearizable if Puts name versions the key has reached |
| `Linearizability.MissedKeyIsIllegal` | src/models1/kv.go:49-67 | No history with a Put answered ErrNoKey has a legal order |
| `Linearizability.LinearizableWithoutAbandons` | src/kvsrv1/client.go:42-110 | For any callers, when no copy is abandoned: linearizable if and only if no Put was answered ErrNoKey |
| `Linearizability.HarnessAccepts` | src/kvtest1/porcupine.go:86-115 | When all calls have returned, the check of each key's list of the recorded history passes if and only if the history is linearizable |
| `Linearizability.HarnessPasses` | src/kvtest1/porcupine.go:86-115 | It passes after every run of callers that name versions reached, whatever the network does |
| `Linearizability.HarnessPassesPlainly` | src/kvtest1/porcupine.go:86-115 | Without abandoned copies and for any callers, it passes if and only if no Put was answered ErrNoKey |
| `Limits.SkipIsIllegal` | src/models1/kv.go:49-67 | No order is legal for a history in which the only Put to name a version returned before that version existed and the key went beyond it |
| `Limits.BreaksExactly` | src/labrpc/labrpc.go:290-383 | From any state explained so far, one more Put, then any network and disciplined callers, can end in a history without a legal order if and only if it names a version its key has not reached |
| `Limits.BreaksPlainlyExactly` | src/kvsrv1/client.go:80-110 | Without abandoned copies it can if and only if it names a version other than 0 of a missing key |
| `Limits.UnreachedVersionBreaksIt` | src/labrpc/labrpc.go:290-383 | From an empty server, for every key and version above 1, a single client whose calls all return, none with ErrNoKey, can end in such a history |
| `Histories.LockHistory` | src/kvsrv1/lock/lock.go:38-125 | Over every run of the lock, with disciplined calls on other keys, the history of its calls is linearizable and would pass the check |
| `Histories.AppendsHistory` | src/kvtest1/kvtest.go:338-363 | Over every run of the append workload, the call that puts the empty list included, the recorded history is linearizable and its check passes |
| `Histories.OnePutsHistory` | src/kvtest1/kvtest.go:270-295 | The same over every run of racing clients |
| `Writes.RunSeen` | src/kvsrv1/server.go:61-109 | Over every run each version of a key has one value: what the store or any Get reports for it is what its Put wrote |
| `Writes.Conservation` | src/kvsrv1/server.go:61-109 | Over every run a key's version grows by exactly the number of Puts on it that took effect |
| `Writes.AloneMeansWrote` | src/kvsrv1/kvsrv_test.go:113-151 | A Put that named the current version, and during which no other call wrote its key, has written when it returns; it was told OK or ErrMaybe, and the key holds its value at the next version |
| `Writes.StalePutFails` | src/kvsrv1/kvsrv_test.go:113-151 | Repeating such a Put, or any Put of a version its key has passed, never writes and is told ErrVersion or ErrMaybe |
| `Appends.WriterTurn` | src/kvtest1/kvtest.go:338-363 | A copy that is about to write the list belongs to a client's current iteration and writes the current list with one entry appended |
| `Appends.NoAppendLost` | src/kvtest1/kvtest.go:338-363 | Over every run: list length and version agree and each client's entries increase; the counters a client reports are the numbers of its Puts that the clerk answered OK and ErrMaybe, together one per finished iteration; every Put answered OK has its entry in the list exactly once, and a finished iteration without an entry had its Put answered ErrMaybe; no read fails |
| `AppendRuns.IterationEnds` | src/kvtest1/kvtest.go:348-360 | In every safe state a client alone, from any point between two calls, ends its iteration with an acknowledged Put and its entry at the end of the list |
| `Appends.CheckAppends` | src/kvtest1/kvtest.go:372-401 | For any entries and reports, the check gets through if and only if entries increase per client, the version counts them, and every client it looks at has a report that fits its skipped and total counts |
| `Appends.ClientAccepted` | src/kvtest1/kvtest.go:372-401 | A client's gaps are at most its doubtful appends, its last number at most its appends |
| `Appends.CheckAppendsPasses` | src/kvtest1/kvtest.go:372-401 | After every run in which all clients finish, the final check succeeds |
| `OnePuts.NeverFails` | src/kvtest1/kvtest.go:219-238 | Over every run of racing clients on a fresh key, no wrong error, failed read or wrong value is reported |
| `OnePuts.VersionsRise` | src/kvtest1/kvtest.go:219-238 | Over every run, whatever the answers, each Put of a client names a higher version than all its Puts before: what OnePut hands back is the version it read last |
| `OnePutRuns.OnePutReturns` | src/kvtest1/kvtest.go:219-238 | In every safe state OnePut alone, started from the current or any older version, returns with one acknowledged Put and the version that Put left |
| `OnePuts.CheckPutConcurrent` | src/kvtest1/kvtest.go:137-151 | The check compares the version with the sums of the clients' reports |
| `OnePuts.VersionAccounts` | src/kvtest1/kvtest.go:137-151 | When all have finished, the version is the number of acknowledged puts plus the number of doubtful ones that took effect, and so lies between the sums the check compares |
| `OnePuts.ReliableVersion` | src/kvtest1/kvtest.go:137-151 | On a reliable network the version is exactly the number of acknowledged puts |
| `MapReduce.DoMap` | src/mr/worker.go:156-196 | File r holds, for exactly the emitted keys with ihash(key) % nReduce equal to r, all their values in emission order |
| `MapReduce.GatherAll` | src/mr/worker.go:132-154 | Folding the files, keys in any order, gives every key its values file by file |
| `MapReduce.DoReduce` | src/mr/worker.go:132-154 | The output has one result per key of the files, the reduction of all its values |
| `MapReduce.Shuffle` | src/mr/worker.go:132-196 | A reducer receives a key's values, all of them and in task order, if and only if the key hashes to it |
| `MapReduce.ReducersCoverAnswer` | src/mr/worker.go:132-196 | Each reducer's results are the job's answer restricted to the keys that hash to it |
| `MapReduce.RunHoldsAll` | src/main/mrsequential.go:68-84 | In the sorted list a maximal run of one key holds all of that key's values |
| `MapReduce.Sequential` | src/main/mrsequential.go:68-84 | One line per key, in the order of the keys, each the reduction of all values of the key |
| `MapReduce.RunSequential` | src/main/mrsequential.go:38-84 | However the unstable sort arranges equal keys, the sequential program computes the job's answer if the reduce function ignores the order of values |
| `Coordinator.HandsOut` | src/mr/coordinator.go:67-96 | In every safe state the handler of a needed task hands out exactly that task, a reduce task with what every map task left for it |
| `Coordinator.DiscardedUnneeded` | src/mr/coordinator.go:67-96 | A handler drops a popped task only if it need not be done any more |
| `Coordinator.SpawnedInput` | src/mr/coordinator.go:255-270 | When the reduce phase opens, each reducer's input is one file per map task, in order, with that task's output for it |
| `Coordinator.FilesForIsColumn` | src/mr/coordinator.go:255-270 | The nested loops over recorded files give reducer r the r-th file of every map task |
| `Coordinator.InputsExist` | src/mr/worker.go:100-108 | In every safe state all input files of a running reduce execution exist |
| `Coordinator.NoTaskLost` | src/mr/coordinator.go:64-301 | In every reachable state the counters count undone tasks, phases change only when all are done, and every undone task is queued, held, timed or about to be requeued |
| `Coordinator.ReduceTaskNeverDiscarded` | src/mr/coordinator.go:67-96 | Although reduce tasks are queued before the phase changes, an undone one that is popped is always handed out with its final input |
| `Progress.MapTaskDone` | src/mr/coordinator.go:67-96 | A needed map task that a handler holds, handed out, executed into new files and reported, is done with those files |
| `Progress.ReduceTaskDone` | src/mr/coordinator.go:67-96 | The same for a reduce task, whose execution computes the answer on its keys |
| `Progress.Fetch` | src/mr/coordinator.go:64-118 | A needed task can be brought back to a handler from wherever it is, a lost execution by its timeout |
| `Progress.CanAlwaysFinish` | src/mr/coordinator.go:207-301 | After every run, crashes, timeouts and duplicates included, Done can still be reached, with every reducer's results |
| `Coordinator.AnyReport` | src/mr/coordinator.go:217-295 | Whatever a completion message says: a task of the current phase that it names is then done or back in the queue, a map task is recorded only with one file per reducer, and the counters go on counting |
| `Coordinator.StepFrozen` | src/mr/coordinator.go:217-253 | A map task's files come from one completion message; duplicates and late ones change nothing |
| `Coordinator.RunFrozen` | src/mr/coordinator.go:207-301 | Over every run phases only advance, and recorded files and reducers' inputs never change once made |
| `Coordinator.DoneMeansAnswer` | src/mr/coordinator.go:207-301 | When a run reaches Done every reducer has an output, and all executions of a reducer, duplicate, late and unreported ones included, computed the answer on its keys |
| `Coordinator.DistributedEqualsSequential` | src/mr/coordinator.go:207-301 | Whichever execution's output survives for each reducer, the outputs have disjoint keys and their union is exactly what the sequential program prints, however its sort arranges equal keys |
| `Coordinator.Service.constructor` | src/mr/coordinator.go:166-205 | The object starts in the initial state of the transition system |
| `Coordinator.Service.CheckTask` | src/mr/coordinator.go:67-96 | The handler's check gives the assignment of the transition system, which for a needed task is that task and nothing else |
| `Coordinator.RequeuesNeeded` | src/mr/coordinator.go:99-118 | In every safe state a timed-out task is sent back if and only if the run still needs it done |
| `Coordinator.Service.TimedOut` | src/mr/coordinator.go:99-118 | The object's decision is that of the expiry step, and true exactly for tasks that are still needed |
| `Coordinator.Service.CollectMap` | src/mr/coordinator.go:217-253 | One turn of the map loop is one collecting step: wrong kind, range or file count, duplicate, first completion |
| `Coordinator.Service.SpawnReduces` | src/mr/coordinator.go:255-270 | The phase change queues every reduce task and distributes the recorded files |
| `Coordinator.Service.CollectReduce` | src/mr/coordinator.go:273-295 | One turn of the reduce loop is one collecting step |
| `Shards.MoveLowersEnergy` | src/shardkv1/shardcfg/shardcfg.go:135-153 | Moving a shard to a group at least two lighter lowers the sum of squared loads, so the loop ends |
| `Shards.RebalanceBalances` | src/shardkv1/shardcfg/shardcfg.go:122-154 | From any assignment, every shard ends on a member group and loads differ by at most one |
| `Shards.RebalanceIdempotent` | src/shardkv1/shardcfg/shardcfg.go:122-154 | Rebalancing a rebalanced configuration changes nothing |
| `Shards.JoinMinimal` | src/shardkv1/shardcfg/shardcfg.go:122-154 | When a group joins a balanced configuration, shards move only to it, exactly its share rounded down |
| `Shards.LeaveMinimal` | src/shardkv1/shardcfg/shardcfg.go:122-154 | When a group leaves a balanced configuration and others remain, exactly its shards move |
| `Frugal.RebalanceMovesFewest` | src/shardkv1/shardcfg/shardcfg.go:122-154 | From any assignment, no balanced assignment differs from it in fewer shards than the result |
| `ShardConfig.ChangeMovesFewest` | src/shardkv1/shardcfg/shardcfg.go:207-221 | After every run, a change of any number of groups that leaves some group moves as few shards as any way to balance them |
| `ShardConfig.RunPassesCheck` | src/shardkv1/shardcfg/shardcfg.go:238-279 | After every run of successful changes the number counts them, no server is in two groups and the check accepts |
| `ShardConfig.JoinOneMoves` | src/shardkv1/shardcfg/shardcfg.go:207-213 | After every run, one more group joining moves exactly its share of the shards, rounded down, and only to itself, unless it is number 0 (no group) joining first |
| `ShardConfig.LeaveOneMoves` | src/shardkv1/shardcfg/shardcfg.go:215-221 | After every run, one group leaving moves exactly the shards it owned, unless it is number 0 (no group) leaving last |
| `ShardConfig.ShardCfg.constructor` | src/shardkv1/shardcfg/shardcfg.go:44-49 | A new configuration has number 0, no groups and unassigned shards |
| `ShardConfig.ShardCfg.Analyze` | src/shardkv1/shardcfg/shardcfg.go:80-111 | The heaviest and lightest groups with their loads, ties to the smaller number, whatever the map order |
| `ShardConfig.ShardCfg.Rebalance` | src/shardkv1/shardcfg/shardcfg.go:122-154 | In place, terminating, and determined by the shards and the set of groups alone |
| `ShardConfig.ShardCfg.Join` | src/shardkv1/shardcfg/shardcfg.go:156-183 | Succeeds if and only if there are groups to add, all new, and no server is listed twice; on failure the groups before the first blocked one, in iteration order, have been added, so nothing exactly if the first was blocked |
| `ShardConfig.PartlyJoinedExactly` | src/shardkv1/shardcfg/shardcfg.go:156-183 | Some iteration order leaves part of a call behind if and only if the call must fail and some group could be added alone |
| `ShardConfig.LeavesOneBehind` | src/shardkv1/shardcfg/shardcfg.go:156-183 | A call that does |
| `ShardConfig.ShardCfg.Leave` | src/shardkv1/shardcfg/shardcfg.go:185-205 | Succeeds if and only if the list is non-empty, without repeats, and all members; a refused call has removed exactly the groups before the first missing or repeated one, so nothing exactly if the first was not a member |
| `ShardConfig.ShardCfg.JoinBalance` | src/shardkv1/shardcfg/shardcfg.go:207-213 | Is the change the run results are about, or leaves number and shards alone and the groups as far as they got |
| `ShardConfig.ShardCfg.LeaveBalance` | src/shardkv1/shardcfg/shardcfg.go:215-221 | Is the change the run results are about, or leaves number and shards alone and the groups as far as they got |
| `ShardConfig.ShardCfg.CheckConfig` | src/shardkv1/shardcfg/shardcfg.go:238-279 | Accepts if and only if the groups are the expected ones, all shards on members, loads within one |
| `Framing.FrameExactly` | src/tester1/demux/transport.go:48-79 | A message comes back as written, whatever follows it, if and only if its encoding is shorter than 2^32 bytes |
| `Framing.LittleEndian` | src/tester1/demux/transport.go:48-79 | The length is written low byte first: byte i counts 256^i |
| `Framing.StreamRead` | src/tester1/demux/transport.go:48-79 | Reading a stream returns exactly the messages written, in order, then a clean end |
| `Framing.WholeMeans` | src/tester1/demux/transport.go:48-79 | The number of whole messages in a cut stream is the largest that fits |
| `Framing.TruncatedRead` | src/tester1/demux/transport.go:48-64 | A stream cut anywhere yields exactly its whole messages, then an error, which is a clean end only at a message boundary or right after a length |
| `Framing.Transport.WriteCall` | src/tester1/demux/transport.go:66-79 | Appends exactly one frame to the outgoing stream |
| `Framing.Transport.ReadCall` | src/tester1/demux/transport.go:48-64 | Takes exactly one frame off the incoming stream, or reports how the stream ended |
| `Framing.Transport.ReadUntilError` | src/tester1/demux/transport.go:48-64 | Repeated reading gives the decoded messages of the stream and its final error |
| `Framing.RoundTrip` | src/tester1/demux/transport.go:48-79 | What one end writes the other reads, message for message |
| `Demux.FreshTag` | src/tester1/demux/dmxclnt.go:83-101 | While the reader reads, a caller that has registered but not written has no message under its tag anywhere |
| `Demux.StepSafe` | src/tester1/demux/dmxclnt.go:49-111 | Every step of callers, reader and server keeps the matching invariant: each message under way belongs to a waiting caller in the map, once |
| `Demux.CallsMatched` | src/tester1/demux/dmxclnt.go:58-101 | Over every run that hands out no tag in use: the fatal "no matching req" is unreachable, whoever is handed a result has had none, a reply finds its caller listening and is the server's answer to that caller's own request, a call ends as refused only if the map is closed and as broken only if a read has failed, and no accepted call is left when the reader has ended |
| `Demux.FewCallsMatched` | src/tester1/demux/dmxclnt.go:49-101 | The same over every run of at most 2^32 calls |
| `Replies.ReplyArrives` | src/tester1/demux/dmxclnt.go:58-101 | Over every run each reply the reader reads becomes the result of the caller that waits under its tag: in all that follows it is being handed over or is what the call ended with |
| `Replies.SweptArrives` | src/tester1/demux/dmxclnt.go:66-81 | Likewise every call the reader sweeps out ends as broken |
| `Replies.ClosedRefuses` | src/tester1/demux/callmap.go:18-42 | Once Close has been called, a call that has not registered is never accepted and can only be refused |
| `Replies.AcceptedNeverRefused` | src/tester1/demux/callmap.go:34-42 | A call that was accepted is never refused later |
| `Replies.CallAnswered` | src/tester1/demux/dmxclnt.go:49-101 | On a quiet connection a call with a free tag comes back with whatever the server answers, and leaves the connection as it was |
| `Replies.NobodyStuck` | src/tester1/demux/dmxclnt.go:66-101 | In every safe state every accepted call can still end, whatever the reader is doing |
| `Demux.ReuseExactly` | src/tester1/demux/callmap.go:34-54 | Handing out the next tag can leave some call waiting for ever if and only if calls are still accepted and the tag belongs to a registered call or to one about to register |
| `Demux.ForgottenStays` | src/tester1/demux/callmap.go:34-54 | A waiting call that is neither in the map nor being handed a result never gets one |

## Left out

- Liveness under fairness: that retries succeed, contended locks are granted or a job finishes in every fair infinite run; channel capacities and blocking on a full queue. What is proved is that finite runs that get there exist from every state.
- Integer widths of versions and try counters (64 bits): modelled as unbounded numbers. Tags and frame lengths are modelled at their width.
- The clerk, lock and workload loops as methods: they wait on others for ever, so they are steps of a transition system on values, without update in place.
- Server restarts and persistence: the key/value server loses its store when it stops, and its tests do not restart it.
- Encodings (gob, JSON): functions with an inverse, which is assumed of them as a parameter.
- Lock identifiers: random in the source, here given, non-empty and different for different clients.
- Files of MapReduce otherwise: creating, writing and reading them succeeds; the text format of lines is not modelled.
- The sort of the sequential program: any sorted rearrangement of what was emitted.
- `ihash` and the map and reduce functions: arbitrary functions; that `ihash` is FNV is not used.
- The search of the linearizability checker and its timeouts; linearizability itself is defined and proved.
- `NShards`: any number below 257, the bound the source's initial minimum relies on.
- Reading a configuration (`GidServers`, `IsMember`, `Copy`, `String`) and the hash of keys to shards (`Key2Shard`): they do not change a configuration, and no result here depends on them.
- The bytes of output files: `mr-out` files are written in place, so two executions of one reducer that overlap, or one that dies while writing, can leave a file that is no execution's result. The results are about the value each execution computes.
- Raft, the replicated state machine and the sharded key/value service, whose code is only a skeleton.
- `labgob`, the socket RPC layer, process management, test scaffolding and visual annotations.
