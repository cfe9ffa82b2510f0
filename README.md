# MaxHeapTaskManager: task queue model

A Dafny model of the core of MaxHeapTaskManager, a small Android task manager.
The core holds tasks in a fixed-capacity array that is meant to be kept as a
max-heap: the doc comments of `percolateUp` (TaskQueue.kt:124-128) and
`reprioritize` (TaskQueue.kt:241-243) say it fixes heap violations and
leaves "a proper priority queue". The queue is ordered by one of three
criteria: estimated TIME (longer ranks higher), TITLE (the earlier title in
lexicographic order ranks higher) or priority LEVEL (HIGH ranks highest).
The criterion may also be null, and then every pair of tasks ties.
`reprioritize` switches the criterion and re-runs percolate-down over the
array.

The model follows the Kotlin code as written, including where the code does
not keep a real heap:

- `percolateUp` compares slot `index` (its parameter) with that slot's parent
  on every pass, and never the moving `currentIndex`. So an enqueue moves the
  new task at most one level up. When the new task ties with a parent that is
  not the root, the loop swaps the two slots back and forth forever.
- `percolateDown` also works on its parameter `index`. It swaps at most once:
  on the next pass no child of `index` outranks it, so it returns.
- The global heap order therefore does not hold. Under TIME, enqueuing 1, 2,
  3, 4 leaves the slots as [3, 4, 2, 1], and `peekBest` returns the time-3
  task.

Files:

- `wrappers.dfy`: `Option`, `Result` and `Outcome`.
- `task.dfy` (module `Tasks`): the `Task` record, `equals`, Java's
  `String.compareTo` and `compareTo` under each criterion, with the lemmas
  showing each criterion is a total preorder.
- `task_queue.dfy` (module `TaskQueues`):
  - functions on slot sequences stating what every loop leaves in the array;
  - the class `TaskQueue` (an `array` of slots, `size`, the criterion), whose
    methods keep the source's loops and are proved against those functions.
- `queue_traces.dfy` (module `QueueTraces`): client methods that replay
  concrete runs of the queue.

Exceptions become values. `init`, `enqueue`, `peekBest` and `dequeue` return
a `QueueError` case where the source throws. Kotlin's `null` slot is `None`.

Where the source's comments and its code disagree, the model follows the
code:

- TITLE: Task.kt:94 calls the order "reverse lexicographic". The code
  multiplies `String.compareTo` by -1 (Task.kt:104), so the lexicographically
  earlier title ranks higher, which is also what the example in the comment
  at Task.kt:99-102 says ("a" has greater priority than "b").
- Heap order: the doc comments at TaskQueue.kt:124-128 and 241-243 promise a
  repaired heap. As written, percolate-down does not continue from the child
  and percolate-up moves at most one level (see above). `reprioritize` does
  not build a heap either, and running it twice can change the slots again:
  `ReprioritizeTwiceByTime` enqueues titles "a" to "d" (times 1 to 4) under
  TITLE, reprioritizes by TIME, and gets [d, a, c, b], where slot 1 ranks
  below its child in slot 3; a second reprioritize by TIME gives
  [d, b, c, a].

## Model

| member | source | states |
|---|---|---|
| Tasks.NewTask | java/com/varughese/maxheaptaskmanager/Task.kt:11-23 | a task built with the default flag is not completed, and is `equals` to the same fields with the flag set |
| Tasks.MarkCompleted | java/com/varughese/maxheaptaskmanager/Task.kt:38-40 | afterwards the task reports completed, is still `equals` to the task before, and differs from it in the flag only |
| Tasks.EqualsIgnoresCompletion | java/com/varughese/maxheaptaskmanager/Task.kt:60-66 | `equals` holds exactly when the tasks agree on title, description, level and time, whatever their completion flags |
| Tasks.EqualsIsEquivalence | java/com/varughese/maxheaptaskmanager/Task.kt:60-66 | `equals` is reflexive, symmetric and transitive |
| Tasks.Equals | java/com/varughese/maxheaptaskmanager/Task.kt:60-66 | definition of `equals` over title, description, level and time; its properties are stated by `EqualsIgnoresCompletion` and `EqualsIsEquivalence` |
| Tasks.CheckIfCompleted | java/com/varughese/maxheaptaskmanager/Task.kt:30-32 | definition: the completion flag; `NewTask` and `MarkCompleted` state how it is set |
| Tasks.LexCompare | java/com/varughese/maxheaptaskmanager/Task.kt:104 | definition of Java's `String.compareTo`; its properties are stated by the `LexCompare*` lemmas against `LexBefore` |
| Tasks.LexCompareZero | java/com/varughese/maxheaptaskmanager/Task.kt:104 | `String.compareTo` is zero exactly on equal strings |
| Tasks.LexCompareAntisymmetric | java/com/varughese/maxheaptaskmanager/Task.kt:104 | swapping the arguments of `String.compareTo` negates the result |
| Tasks.LexCompareTransitive | java/com/varughese/maxheaptaskmanager/Task.kt:104 | "compares below" is transitive |
| Tasks.LexCompareNegativeIffBefore | java/com/varughese/maxheaptaskmanager/Task.kt:104 | `String.compareTo` is negative exactly when the first string is a proper prefix of the second or is smaller at the first difference (the reference `LexBefore`) |
| Tasks.CompareTo | java/com/varughese/maxheaptaskmanager/Task.kt:78-130 | tasks that are `equals` tie under every criterion; a null criterion ties everything; TIME gives the difference of the times; LEVEL gives the difference of the ordinals |
| Tasks.CompareTitleOrder | java/com/varughese/maxheaptaskmanager/Task.kt:93-106 | under TITLE a task ranks higher exactly when its title comes lexicographically first, and two tasks tie exactly when their titles are equal |
| Tasks.CompareAntisymmetric | java/com/varughese/maxheaptaskmanager/Task.kt:78-130 | under every criterion, `b.compareTo(a)` is the negation of `a.compareTo(b)` |
| Tasks.CompareStrictTransitive | java/com/varughese/maxheaptaskmanager/Task.kt:78-130 | under every criterion, "ranks strictly higher" is transitive |
| Tasks.CompareWeakTransitive | java/com/varughese/maxheaptaskmanager/Task.kt:78-130 | under every criterion, "ranks at least as high" is transitive, so together with antisymmetry each criterion is a total preorder |
| TaskQueues.TruncHalf | java/com/varughese/maxheaptaskmanager/TaskQueue.kt:250 | Kotlin's `/ 2`: the remainder has the sign of the dividend and lies strictly between -2 and 2 |
| TaskQueues.RebuildStartInRange | java/com/varughese/maxheaptaskmanager/TaskQueue.kt:250 | the first index of the `downTo` loop is in range for a non-empty queue, and is 0 (not -1) for an empty one |
| TaskQueues.Swap | java/com/varughese/maxheaptaskmanager/TaskQueue.kt:142-144 | the two slots are exchanged and every other slot is unchanged |
| TaskQueues.SwapPreservesOccupancy | java/com/varughese/maxheaptaskmanager/TaskQueue.kt:233-235 | swapping two occupied slots keeps the occupied prefix and its multiset of tasks |
| TaskQueues.UpStep | java/com/varughese/maxheaptaskmanager/TaskQueue.kt:131-147 | one pass of the loop body keeps the slot count and the slots `index` and its parent present; the passes are characterised by `UpRunStops` and `UpRunDiverges` |
| TaskQueues.UpRun | java/com/varughese/maxheaptaskmanager/TaskQueue.kt:131-147 | the loop's state after `n` passes keeps the slot count and the slots it reads present |
| TaskQueues.PercolateUpResult | java/com/varughese/maxheaptaskmanager/TaskQueue.kt:136-146 | what a halting percolate-up leaves keeps the slot count and the two slots it reads present; `PercolateUpOrdersEdge` states its order |
| TaskQueues.EnqueueHangs | java/com/varughese/maxheaptaskmanager/TaskQueue.kt:92-149 | definition of the enqueue calls that reach the endless percolate-up loop; `EnqueueHangsIffNoExit` proves it is exactly that |
| TaskQueues.UpRunStops | java/com/varughese/maxheaptaskmanager/TaskQueue.kt:129-149 | unless the first comparison ties below slot 3, the percolate-up loop has stopped within two passes, and the slots are then those of `PercolateUpResult` |
| TaskQueues.UpRunDiverges | java/com/varughese/maxheaptaskmanager/TaskQueue.kt:129-149 | on a tie with a non-root parent the loop never stops: after every pass `currentIndex` is the parent, and the slots alternate between the original and the swapped ones |
| TaskQueues.PercolateUpOrdersEdge | java/com/varughese/maxheaptaskmanager/TaskQueue.kt:136-146 | percolate-up permutes the slots, changes only slot `index` and its parent, and leaves `index` ranked no higher than its parent |
| TaskQueues.EnqueueSlots | java/com/varughese/maxheaptaskmanager/TaskQueue.kt:102-112 | a successful enqueue grows the occupied prefix by one, and its tasks are the old ones plus the new task |
| TaskQueues.EnqueueOrdersNewEdge | java/com/varughese/maxheaptaskmanager/TaskQueue.kt:102-112 | after an enqueue the new slot ranks no higher than its parent, the new task is in one of those two slots, and every other occupied slot is unchanged |
| TaskQueues.EnqueueHangsIffNoExit | java/com/varughese/maxheaptaskmanager/TaskQueue.kt:92-149 | an enqueue hangs (`EnqueueHangs`) exactly when its percolate-up never stops; otherwise the loop has stopped after two passes |
| TaskQueues.NullCriterionHangsOnFourthEnqueue | java/com/varughese/maxheaptaskmanager/TaskQueue.kt:131-146 | with a null criterion, the fourth enqueue into a queue with room never returns |
| TaskQueues.ScanChildren | java/com/varughese/maxheaptaskmanager/TaskQueue.kt:204-222 | the inner loop's pick is either the task at `index` with slot 0, or an in-range child of `index` together with that child's slot |
| TaskQueues.ScanIsRunningMax | java/com/varughese/maxheaptaskmanager/TaskQueue.kt:211-222 | after `k` steps of the inner loop the pick, once replaced, outranks slot `index`, and no child looked at outranks the pick |
| TaskQueues.PercolateDownResult | java/com/varughese/maxheaptaskmanager/TaskQueue.kt:197-239 | what one percolate-down leaves keeps the occupied prefix; `PercolateDownSettles`, `PercolateDownSwapsBestChild` and `PercolateDownPermutes` state the rest |
| TaskQueues.PercolateDownSettles | java/com/varughese/maxheaptaskmanager/TaskQueue.kt:197-239 | after percolate-down no in-range child of `index` outranks slot `index` |
| TaskQueues.PercolateDownSwapsBestChild | java/com/varughese/maxheaptaskmanager/TaskQueue.kt:197-239 | percolate-down either changes nothing on a settled slot, or swaps slot `index` with a child that strictly outranks it and that no other child outranks |
| TaskQueues.PercolateDownPermutes | java/com/varughese/maxheaptaskmanager/TaskQueue.kt:233-235 | percolate-down only rearranges the occupied slots |
| TaskQueues.MoveLastToRoot | java/com/varughese/maxheaptaskmanager/TaskQueue.kt:167-172 | moving the last task into slot 0 and clearing the last slot shrinks the occupied prefix by one and removes exactly the old root task |
| TaskQueues.DequeueSlots | java/com/varughese/maxheaptaskmanager/TaskQueue.kt:167-181 | after a dequeue the occupied prefix is one shorter and holds the old tasks minus the old root |
| TaskQueues.DequeueSettlesRoot | java/com/varughese/maxheaptaskmanager/TaskQueue.kt:177-181 | after a dequeue that leaves tasks behind, no child of the root outranks the root |
| TaskQueues.RebuildFrom | java/com/varughese/maxheaptaskmanager/TaskQueue.kt:250-252 | percolate-down at `i`, `i - 1`, ..., 0 keeps the occupied prefix |
| TaskQueues.RebuildSlots | java/com/varughese/maxheaptaskmanager/TaskQueue.kt:250-252 | the whole `downTo` loop keeps the occupied prefix; `RebuildPermutes` and `RebuildSettlesRoot` state the rest |
| TaskQueues.RebuildPermutes | java/com/varughese/maxheaptaskmanager/TaskQueue.kt:250-252 | the `downTo` loop of `reprioritize` only rearranges the occupied slots |
| TaskQueues.RebuildSettlesRoot | java/com/varughese/maxheaptaskmanager/TaskQueue.kt:250-252 | the last percolate-down of the loop is at the root, so afterwards no child of the root outranks it |
| TaskQueues.TaskQueue.constructor | java/com/varughese/maxheaptaskmanager/TaskQueue.kt:35-37 | an empty queue with `capacity` null slots and the given criterion |
| TaskQueues.TaskQueue.Create | java/com/varughese/maxheaptaskmanager/TaskQueue.kt:29-42 | `init` fails with the capacity error exactly when the capacity is not positive, and otherwise gives a fresh empty queue of that capacity |
| TaskQueues.TaskQueue.IsEmpty | java/com/varughese/maxheaptaskmanager/TaskQueue.kt:44-54 | true exactly when every slot is null |
| TaskQueues.TaskQueue.Size | java/com/varughese/maxheaptaskmanager/TaskQueue.kt:61-63 | the number of tasks: exactly the slots below it are occupied |
| TaskQueues.TaskQueue.PeekBest | java/com/varughese/maxheaptaskmanager/TaskQueue.kt:72-83 | fails with the empty error exactly when the queue is empty; otherwise it returns the task in slot 0, which is one of the stored tasks |
| TaskQueues.TaskQueue.Enqueue | java/com/varughese/maxheaptaskmanager/TaskQueue.kt:92-122 | fails when the task is completed (checked first), then fails when the queue is full, changing nothing either way; otherwise the slots are `EnqueueSlots` and one more task is stored |
| TaskQueues.TaskQueue.PercolateUp | java/com/varughese/maxheaptaskmanager/TaskQueue.kt:129-149 | the loop exits after at most two passes, and the slots are `PercolateUpResult` |
| TaskQueues.TaskQueue.Dequeue | java/com/varughese/maxheaptaskmanager/TaskQueue.kt:159-190 | fails with the empty error exactly on an empty queue, changing nothing; otherwise it returns the old slot 0, the slots are `DequeueSlots`, that task is gone from the stored ones, and the root is settled |
| TaskQueues.TaskQueue.MoveLast | java/com/varughese/maxheaptaskmanager/TaskQueue.kt:169-172 | slot 0 takes the last task, the last slot is cleared, `size` drops by one and the old root task is removed |
| TaskQueues.TaskQueue.MaxChild | java/com/varughese/maxheaptaskmanager/TaskQueue.kt:201-222 | the inner loop computes `ScanChildren` over both children |
| TaskQueues.TaskQueue.PercolateDown | java/com/varughese/maxheaptaskmanager/TaskQueue.kt:197-239 | the slots are `PercolateDownResult`, and slot `index` is settled when it is in range |
| TaskQueues.TaskQueue.Reprioritize | java/com/varughese/maxheaptaskmanager/TaskQueue.kt:248-253 | the criterion is replaced, the slots are `RebuildSlots` under the new criterion, the stored tasks are unchanged as a multiset, and the root is settled |
| TaskQueues.TaskQueue.Rebuild | java/com/varughese/maxheaptaskmanager/TaskQueue.kt:250-252 | the `downTo` loop leaves exactly `RebuildSlots` |
| TaskQueues.TaskQueue.GetHeapData | java/com/varughese/maxheaptaskmanager/TaskQueue.kt:260-263 | a fresh array with the same slots, so writes to it leave the queue unchanged |
| QueueTraces.EnqueueOneToFourByTime | java/com/varughese/maxheaptaskmanager/TaskQueue.kt:129-149 | under TIME, enqueuing 1, 2, 3, 4 leaves [3, 4, 2, 1], and `peekBest` returns the time-3 task although the time-4 task outranks it |
| QueueTraces.TimeExample | java/com/varughese/maxheaptaskmanager/TaskQueue.kt:159-190 | with capacity 3 under TIME, after 5, 10, 1: peek and dequeue give 10, the next peek gives 5, and a fourth enqueue succeeds |
| QueueTraces.LevelThenTitleExample | java/com/varughese/maxheaptaskmanager/TaskQueue.kt:248-253 | a HIGH task "a" beats a LOW task "b" under LEVEL, and is still best after reprioritizing by TITLE |
| QueueTraces.ReprioritizeTwiceByTime | java/com/varughese/maxheaptaskmanager/TaskQueue.kt:248-253 | after enqueuing titles "a" to "d" under TITLE, a reprioritize by TIME gives [d, a, c, b] with slot 1 not settled, and a second one gives [d, b, c, a] |
| QueueTraces.CompletedRejectedWhenFull | java/com/varughese/maxheaptaskmanager/TaskQueue.kt:94-100 | on a full queue, a completed task is rejected as completed, not as full |

## Left out

- TaskQueues.TaskQueue.Enqueue: requires that the call does not reach the
  endless percolate-up loop (`EnqueueHangs`), because the model has no
  non-terminating loops. `UpRunDiverges`, `EnqueueHangsIffNoExit` and
  `NullCriterionHangsOnFourthEnqueue` state that hang.
- TaskQueues.TaskQueue.PercolateUp: requires `UpHalts` for the same reason.
- Tasks.CompareTo: the TIME difference is an unbounded integer. Kotlin's
  32-bit `Int` subtraction can wrap for times far apart; that wrap is not
  modelled.
- Tasks.LexCompare: compares Dafny characters. Java compares UTF-16 code
  units, so strings outside the Basic Multilingual Plane may order
  differently.
- Ordinals: `PriorityLevel` and `CompareCriteria` are declared in files
  that are not part of this model. The model assumes the order OPTIONAL,
  LOW, MEDIUM, HIGH, with ordinals 0 to 3, and exactly the criteria TIME,
  TITLE and LEVEL. Any further criterion would fall into the `else` branch
  at Task.kt:126-128 and tie like null.
- Aliasing: `Task` is an immutable value, so `markCompleted` returns a new
  task. In the source it mutates a task that may be shared, for example with
  the shallow `clone()` of `getHeapData` or with a task already in the queue.
  The model does not capture that sharing.
- The public setter of `size` is not modelled. The class invariant assumes
  only the queue changes it.
- `toString`, `Serializable`, `printStackTrace` and the exception messages
  are left out. Exceptions become error values. The catch-and-rethrow blocks
  change only the message.
- The Android files (`ActivityMain`, `TaskAdapter`, `LayoutActivity`) are
  left out. They are UI callers of the queue.
- The global max-heap property and sorted extraction are not stated, because
  the code does not achieve them (see `EnqueueOneToFourByTime` and
  `ReprioritizeTwiceByTime`). Only the local orderings the loops achieve are
  proved.
