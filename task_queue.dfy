/** TaskQueue.kt: a fixed-capacity array of task slots, meant to be kept as
    a max-heap by percolating (the doc comments of percolateUp and
    reprioritize say so), under a criterion that can be switched at runtime.
    As written, the percolate loops do not establish that order; see
    QueueTraces.

    The functions on slot sequences below say what each loop of the class
    leaves in the array, exactly as the Kotlin code computes it (including its
    two percolate loops, which work on the parameter `index` rather than on
    the loop variable). The class `TaskQueue` holds the array and the counters
    and is proved against them. */
module TaskQueues {
  import opened Wrappers
  import opened Tasks

  /** The exceptions of the source, as values. */
  datatype QueueError =
    | InvalidCapacity       // IllegalArgumentException from `init`
    | TaskAlreadyCompleted  // IllegalArgumentException from `enqueue`
    | QueueFull             // IllegalStateException from `enqueue`
    | QueueEmpty            // NoSuchElementException from `peekBest` and `dequeue`

  /** The contents of `heapData`: `None` is Kotlin's `null`. */
  type Slots = seq<Option<Task>>

  /** Slots [0, size) hold tasks and slots [size, |s|) are empty. */
  ghost predicate Occupancy(s: Slots, size: int) {
    0 <= size <= |s| && forall i :: 0 <= i < |s| ==> (s[i].Some? <==> i < size)
  }

  /** Kotlin's `a / 2` on Int, which truncates toward zero; Dafny's `/` is
      Euclidean and gives -1 for `-1 / 2`. */
  function TruncHalf(a: int): (q: int)
    ensures var rem := a - 2 * q; -2 < rem < 2 && (rem == 0 || (rem < 0 <==> a < 0))
  {
    if a >= 0 then a / 2 else -((-a) / 2)
  }

  /** `(index - 1) / 2` for the non-negative operands the source uses. */
  function Parent(i: int): int {
    (i - 1) / 2
  }

  function FirstChild(i: int): int {
    2 * i + 1
  }

  function Swap(s: Slots, i: int, j: int): (r: Slots)
    requires 0 <= i < |s| && 0 <= j < |s|
    ensures |r| == |s| && r[i] == s[j] && r[j] == s[i]
    ensures forall k :: 0 <= k < |s| && k != i && k != j ==> r[k] == s[k]
  {
    s[i := s[j]][j := s[i]]
  }

  lemma SwapPermutesPrefix(s: Slots, i: int, j: int, n: int)
    requires 0 <= i < n && 0 <= j < n && n <= |s|
    ensures multiset(Swap(s, i, j)[..n]) == multiset(s[..n])
  {
    assert Swap(s, i, j)[..n] == Swap(s[..n], i, j);
  }

  lemma SwapPreservesOccupancy(s: Slots, i: int, j: int, size: int)
    requires Occupancy(s, size) && 0 <= i < size && 0 <= j < size
    ensures Occupancy(Swap(s, i, j), size)
    ensures multiset(Swap(s, i, j)[..size]) == multiset(s[..size])
  {
    SwapPermutesPrefix(s, i, j, size);
  }

  // ---------------------------------------------------------------------
  // percolateUp (TaskQueue.kt:129-149)
  // ---------------------------------------------------------------------

  /** The slots the percolate-up loop reads are present. */
  ghost predicate UpSlots(s: Slots, index: int) {
    0 < index < |s| && s[index].Some? && s[Parent(index)].Some?
  }

  /** The state of the percolate-up loop: still in the `while`, with the
      current value of `currentIndex`, or left through the early `return`. */
  datatype UpState = Looping(slots: Slots, current: int) | Returned(slots: Slots)

  predicate Stopped(st: UpState) {
    st.Returned? || st.current <= 0
  }

  /** One pass of the loop body: it compares slot `index`, not slot
      `currentIndex`, with `Parent(index)`; a pass on a stopped loop changes
      nothing. */
  function UpStep(st: UpState, index: int, crit: Option<CompareCriteria>): (next: UpState)
    requires UpSlots(st.slots, index)
    ensures UpSlots(next.slots, index) && |next.slots| == |st.slots|
  {
    if Stopped(st) then st
    else if CompareTo(st.slots[index].value, st.slots[Parent(index)].value, crit) < 0 then Returned(st.slots)
    else Looping(Swap(st.slots, index, Parent(index)), Parent(index))
  }

  /** The loop's state after `n` passes of its body, starting at `index`. */
  function UpRun(s: Slots, index: int, crit: Option<CompareCriteria>, n: nat): (st: UpState)
    requires UpSlots(s, index)
    ensures UpSlots(st.slots, index) && |st.slots| == |s|
  {
    if n == 0 then Looping(s, index) else UpStep(UpRun(s, index, crit, n - 1), index, crit)
  }

  /** The loop exits: the first comparison is not a tie, or the parent is the root. */
  ghost predicate UpHalts(s: Slots, index: int, crit: Option<CompareCriteria>)
    requires UpSlots(s, index)
  {
    index <= 2 || CompareTo(s[index].value, s[Parent(index)].value, crit) != 0
  }

  /** What percolate-up leaves in the slots when it exits: the element at
      `index` swapped with its parent unless it ranks strictly lower. */
  function PercolateUpResult(s: Slots, index: int, crit: Option<CompareCriteria>): (r: Slots)
    requires UpSlots(s, index) && UpHalts(s, index, crit)
    ensures |r| == |s| && UpSlots(r, index)
  {
    if CompareTo(s[index].value, s[Parent(index)].value, crit) < 0 then s
    else Swap(s, index, Parent(index))
  }

  /** When the loop halts, it has stopped after two passes at the latest, and
      whenever it has stopped the slots are `PercolateUpResult`. */
  lemma {:induction false} UpRunStops(s: Slots, index: int, crit: Option<CompareCriteria>, n: nat)
    requires UpSlots(s, index) && UpHalts(s, index, crit)
    ensures n >= 2 ==> Stopped(UpRun(s, index, crit, n))
    ensures Stopped(UpRun(s, index, crit, n)) ==> UpRun(s, index, crit, n).slots == PercolateUpResult(s, index, crit)
  {
    if n <= 2 {
      UpRunFirstTwo(s, index, crit);
    } else {
      UpRunStops(s, index, crit, n - 1);
      UpRunStaysStopped(s, index, crit, n);
    }
  }

  /** A pass on a stopped loop changes nothing. */
  lemma UpRunStaysStopped(s: Slots, index: int, crit: Option<CompareCriteria>, n: nat)
    requires UpSlots(s, index) && n >= 1 && Stopped(UpRun(s, index, crit, n - 1))
    ensures UpRun(s, index, crit, n) == UpRun(s, index, crit, n - 1)
  {
  }

  /** The first two passes of a halting loop: it has stopped after the
      second, with the slots of `PercolateUpResult`. */
  lemma UpRunFirstTwo(s: Slots, index: int, crit: Option<CompareCriteria>)
    requires UpSlots(s, index) && UpHalts(s, index, crit)
    ensures Stopped(UpRun(s, index, crit, 1)) ==> UpRun(s, index, crit, 1).slots == PercolateUpResult(s, index, crit)
    ensures Stopped(UpRun(s, index, crit, 2)) && UpRun(s, index, crit, 2).slots == PercolateUpResult(s, index, crit)
  {
    var p := Parent(index);
    var one := UpStep(Looping(s, index), index, crit);
    assert UpRun(s, index, crit, 1) == one;
    if !Stopped(one) {
      CompareAntisymmetric(s[index].value, s[p].value, crit);
      assert one == Looping(Swap(s, index, p), p);
      assert UpRun(s, index, crit, 2) == UpStep(one, index, crit) == Returned(Swap(s, index, p));
    }
  }

  lemma SwapTwice(s: Slots, i: int, j: int)
    requires 0 <= i < |s| && 0 <= j < |s|
    ensures Swap(Swap(s, i, j), i, j) == s
  {
  }

  /** On a tie with a parent other than the root, the loop swaps the two slots
      back and forth and `currentIndex` stays at the parent: it never exits. */
  lemma {:induction false} UpRunDiverges(s: Slots, index: int, crit: Option<CompareCriteria>, n: nat)
    requires UpSlots(s, index) && !UpHalts(s, index, crit)
    ensures !Stopped(UpRun(s, index, crit, n))
    ensures n >= 1 ==> UpRun(s, index, crit, n).current == Parent(index)
    ensures UpRun(s, index, crit, n).slots == s || UpRun(s, index, crit, n).slots == Swap(s, index, Parent(index))
  {
    if n >= 1 {
      UpRunDiverges(s, index, crit, n - 1);
      TiePassSwaps(s, index, crit, UpRun(s, index, crit, n - 1));
    }
  }

  /** One pass of the loop on a tie swaps the two slots back (or forth). */
  lemma TiePassSwaps(s: Slots, index: int, crit: Option<CompareCriteria>, st: UpState)
    requires UpSlots(s, index) && !UpHalts(s, index, crit)
    requires st.slots == s || st.slots == Swap(s, index, Parent(index))
    requires !Stopped(st)
    ensures var next := UpStep(st, index, crit);
      && next.Looping? && next.current == Parent(index)
      && (next.slots == s || next.slots == Swap(s, index, Parent(index)))
  {
    var p := Parent(index);
    CompareAntisymmetric(s[index].value, s[p].value, crit);
    SwapTwice(s, index, p);
  }

  /** Percolate-up changes at most slot `index` and its parent, and afterwards
      the element at `index` does not outrank the one at its parent. */
  lemma PercolateUpOrdersEdge(s: Slots, index: int, crit: Option<CompareCriteria>)
    requires UpSlots(s, index) && UpHalts(s, index, crit)
    ensures var r := PercolateUpResult(s, index, crit);
      && |r| == |s| && multiset(r) == multiset(s)
      && (forall k :: 0 <= k < |s| && k != index && k != Parent(index) ==> r[k] == s[k])
      && CompareTo(r[index].value, r[Parent(index)].value, crit) <= 0
  {
    CompareAntisymmetric(s[index].value, s[Parent(index)].value, crit);
  }

  // ---------------------------------------------------------------------
  // enqueue (TaskQueue.kt:92-122)
  // ---------------------------------------------------------------------

  /** The enqueue of `t` gets past both checks and reaches a percolate-up from
      slot `size` that never exits (see `UpRunDiverges`). */
  ghost predicate EnqueueHangs(s: Slots, size: int, t: Task, crit: Option<CompareCriteria>)
    requires Occupancy(s, size)
  {
    !t.isCompleted && 3 <= size < |s| && CompareTo(t, s[Parent(size)].value, crit) == 0
  }

  /** The slots after a successful enqueue of `t` into `size` occupied slots. */
  function EnqueueSlots(s: Slots, size: int, t: Task, crit: Option<CompareCriteria>): (r: Slots)
    requires Occupancy(s, size) && size < |s| && !t.isCompleted && !EnqueueHangs(s, size, t, crit)
    ensures Occupancy(r, size + 1)
    ensures multiset(r[..size + 1]) == multiset(s[..size]) + multiset{Some(t)}
  {
    var placed := s[size := Some(t)];
    assert placed[..size + 1] == s[..size] + [Some(t)];
    if size + 1 == 1 then placed
    else
      SwapPreservesOccupancy(placed, size, Parent(size), size + 1);
      PercolateUpResult(placed, size, crit)
  }

  /** An enqueue that does not hang leaves the new slot ordered below its
      parent and changes no slot other than those two. */
  lemma EnqueueOrdersNewEdge(s: Slots, size: int, t: Task, crit: Option<CompareCriteria>)
    requires Occupancy(s, size) && 0 < size < |s| && !t.isCompleted && !EnqueueHangs(s, size, t, crit)
    ensures var r := EnqueueSlots(s, size, t, crit);
      && CompareTo(r[size].value, r[Parent(size)].value, crit) <= 0
      && (r[size] == Some(t) || r[Parent(size)] == Some(t))
      && forall k :: 0 <= k < size && k != Parent(size) ==> r[k] == s[k]
  {
    PercolateUpOrdersEdge(s[size := Some(t)], size, crit);
  }

  /** Enqueue hangs exactly when its percolate-up loop never stops; otherwise
      the loop has stopped after two passes. */
  lemma EnqueueHangsIffNoExit(s: Slots, size: int, t: Task, crit: Option<CompareCriteria>, n: nat)
    requires Occupancy(s, size) && 0 < size < |s| && !t.isCompleted
    ensures EnqueueHangs(s, size, t, crit) ==> !Stopped(UpRun(s[size := Some(t)], size, crit, n))
    ensures !EnqueueHangs(s, size, t, crit) ==> Stopped(UpRun(s[size := Some(t)], size, crit, 2))
  {
    var placed := s[size := Some(t)];
    if EnqueueHangs(s, size, t, crit) {
      UpRunDiverges(placed, size, crit, n);
    } else {
      UpRunStops(placed, size, crit, 2);
    }
  }

  /** With no criterion every comparison is a tie, so the fourth enqueue hangs. */
  lemma NullCriterionHangsOnFourthEnqueue(s: Slots, t: Task, n: nat)
    requires Occupancy(s, 3) && |s| > 3 && !t.isCompleted
    ensures EnqueueHangs(s, 3, t, None)
    ensures !Stopped(UpRun(s[3 := Some(t)], 3, None, n))
  {
    EnqueueHangsIffNoExit(s, 3, t, None, n);
  }

  // ---------------------------------------------------------------------
  // percolateDown (TaskQueue.kt:197-239)
  // ---------------------------------------------------------------------

  /** The running maximum of the inner loop after it has looked at `k` children
      of `index`: the task and its slot, the slot still 0 if no child has
      strictly outranked the running maximum. */
  function ScanChildren(s: Slots, index: int, size: int, crit: Option<CompareCriteria>, k: nat): (best: (Task, int))
    requires Occupancy(s, size) && 0 <= index < size && k <= 2
    ensures best.1 == 0 ==> best.0 == s[index].value
    ensures best.1 != 0 ==> FirstChild(index) <= best.1 < FirstChild(index) + k && best.1 < size
    ensures best.1 != 0 ==> s[best.1] == Some(best.0)
  {
    if k == 0 then (s[index].value, 0)
    else
      var prev := ScanChildren(s, index, size, crit, k - 1);
      var j := FirstChild(index) + k - 1;
      if j < size && CompareTo(s[j].value, prev.0, crit) > 0 then (s[j].value, j) else prev
  }

  /** Once the inner loop's guard fails, the remaining steps change nothing. */
  lemma ScanCompleted(s: Slots, index: int, size: int, crit: Option<CompareCriteria>, k: nat)
    requires Occupancy(s, size) && 0 <= index < size && k <= 2
    requires k == 2 || FirstChild(index) + k >= size
    ensures ScanChildren(s, index, size, crit, k) == ScanChildren(s, index, size, crit, 2)
  {
    if k == 0 {
      assert ScanChildren(s, index, size, crit, 1) == ScanChildren(s, index, size, crit, 0);
    }
  }

  /** The running maximum outranks the task at `index` whenever it has been
      replaced, and no child looked at outranks it. */
  ghost predicate RunningMax(s: Slots, index: int, size: int, crit: Option<CompareCriteria>, k: nat)
    requires Occupancy(s, size) && 0 <= index < size && k <= 2
  {
    var best := ScanChildren(s, index, size, crit, k);
    && (best.1 != 0 ==> CompareTo(best.0, s[index].value, crit) > 0)
    && forall j :: FirstChild(index) <= j < FirstChild(index) + k && j < size ==>
         CompareTo(s[j].value, best.0, crit) <= 0
  }

  lemma {:induction false} ScanIsRunningMax(s: Slots, index: int, size: int, crit: Option<CompareCriteria>, k: nat)
    requires Occupancy(s, size) && 0 <= index < size && k <= 2
    ensures RunningMax(s, index, size, crit, k)
  {
    if k > 0 {
      ScanIsRunningMax(s, index, size, crit, k - 1);
      ScanStepKeepsMax(s, index, size, crit, k);
    }
  }

  /** One step of the inner loop keeps `RunningMax`. */
  lemma ScanStepKeepsMax(s: Slots, index: int, size: int, crit: Option<CompareCriteria>, k: nat)
    requires Occupancy(s, size) && 0 <= index < size && 0 < k <= 2
    requires RunningMax(s, index, size, crit, k - 1)
    ensures RunningMax(s, index, size, crit, k)
  {
    var prev := ScanChildren(s, index, size, crit, k - 1);
    var best := ScanChildren(s, index, size, crit, k);
    var j := FirstChild(index) + k - 1;
    if best != prev {
      var t := s[index].value;
      if prev.1 != 0 {
        CompareStrictTransitive(best.0, prev.0, t, crit);
      }
      forall i | FirstChild(index) <= i < j && i < size
        ensures CompareTo(s[i].value, best.0, crit) <= 0
      {
        if CompareTo(s[i].value, best.0, crit) > 0 {
          CompareStrictTransitive(s[i].value, best.0, prev.0, crit);
        }
      }
    }
  }

  /** No child of `index` within the first `size` slots outranks slot `index`. */
  ghost predicate Settled(s: Slots, index: int, size: int, crit: Option<CompareCriteria>)
    requires Occupancy(s, size) && 0 <= index < size
  {
    forall j :: FirstChild(index) <= j <= FirstChild(index) + 1 && j < size ==>
      CompareTo(s[j].value, s[index].value, crit) <= 0
  }

  /** What one call of percolateDown leaves in the slots: at most one swap of
      slot `index` with the child the inner loop selected. The exit test is
      the source's `maxPriorityTask == currentTask`, that is `Equals`. */
  function PercolateDownResult(s: Slots, index: int, size: int, crit: Option<CompareCriteria>): (r: Slots)
    requires Occupancy(s, size) && 0 <= index
    ensures Occupancy(r, size)
  {
    if index >= size then s
    else
      var best := ScanChildren(s, index, size, crit, 2);
      if Equals(best.0, s[index].value) then s
      else
        SwapPreservesOccupancy(s, index, best.1, size);
        Swap(s, index, best.1)
  }

  /** percolateDown only rearranges the occupied slots. */
  lemma PercolateDownPermutes(s: Slots, index: int, size: int, crit: Option<CompareCriteria>)
    requires Occupancy(s, size) && 0 <= index
    ensures multiset(PercolateDownResult(s, index, size, crit)[..size]) == multiset(s[..size])
  {
    if index < size {
      var best := ScanChildren(s, index, size, crit, 2);
      SwapPreservesOccupancy(s, index, best.1, size);
    }
  }

  /** After percolateDown no in-range child of `index` outranks it. */
  lemma PercolateDownSettles(s: Slots, index: int, size: int, crit: Option<CompareCriteria>)
    requires Occupancy(s, size) && 0 <= index < size
    ensures Settled(PercolateDownResult(s, index, size, crit), index, size, crit)
  {
    ScanIsRunningMax(s, index, size, crit, 2);
    var best := ScanChildren(s, index, size, crit, 2);
    if best.1 != 0 {
      CompareAntisymmetric(best.0, s[index].value, crit);
      assert PercolateDownResult(s, index, size, crit) == Swap(s, index, best.1);
    }
  }

  /** percolateDown either changes nothing, because no in-range child
      outranks slot `index`, or swaps slot `index` with an in-range child that
      strictly outranks it and that no other child outranks. */
  lemma PercolateDownSwapsBestChild(s: Slots, index: int, size: int, crit: Option<CompareCriteria>)
    requires Occupancy(s, size) && 0 <= index < size
    ensures var r := PercolateDownResult(s, index, size, crit);
      || (r == s && Settled(s, index, size, crit))
      || exists j :: FirstChild(index) <= j <= FirstChild(index) + 1 && j < size && r == Swap(s, index, j)
           && CompareTo(s[j].value, s[index].value, crit) > 0
           && forall k :: FirstChild(index) <= k <= FirstChild(index) + 1 && k < size ==>
                CompareTo(s[k].value, s[j].value, crit) <= 0
  {
    ScanIsRunningMax(s, index, size, crit, 2);
    var best := ScanChildren(s, index, size, crit, 2);
    if best.1 != 0 {
      assert PercolateDownResult(s, index, size, crit) == Swap(s, index, best.1);
    }
  }

  /** On a settled slot the inner loop keeps the current task as the maximum. */
  lemma SettledScanKeepsCurrent(s: Slots, index: int, size: int, crit: Option<CompareCriteria>)
    requires Occupancy(s, size) && 0 <= index < size && Settled(s, index, size, crit)
    ensures ScanChildren(s, index, size, crit, 2) == (s[index].value, 0)
  {
    assert ScanChildren(s, index, size, crit, 1) == (s[index].value, 0);
  }

  // ---------------------------------------------------------------------
  // dequeue (TaskQueue.kt:159-190)
  // ---------------------------------------------------------------------

  /** Moving the last task to the root and clearing the last slot. */
  lemma MoveLastToRoot(s: Slots, size: int)
    requires Occupancy(s, size) && size >= 1
    ensures var moved := s[0 := s[size - 1]][size - 1 := None];
      && Occupancy(moved, size - 1)
      && multiset(moved[..size - 1]) == multiset(s[..size]) - multiset{s[0]}
  {
    var last := size - 1;
    var moved := s[0 := s[last]][last := None];
    assert Occupancy(moved, last);
    MoveLastPermutes(s, size);
  }

  lemma MoveLastPermutes(s: Slots, size: int)
    requires 0 < size <= |s|
    ensures var moved := s[0 := s[size - 1]][size - 1 := None];
      multiset(moved[..size - 1]) == multiset(s[..size]) - multiset{s[0]}
  {
    var last := size - 1;
    var moved := s[0 := s[last]][last := None];
    if last >= 1 {
      assert s[..size] == [s[0]] + s[1..last] + [s[last]];
      assert moved[..last] == [s[last]] + s[1..last];
    } else {
      assert s[..size] == [s[0]];
    }
  }

  /** The slots after a successful dequeue from `size` occupied slots. */
  function DequeueSlots(s: Slots, size: int, crit: Option<CompareCriteria>): (r: Slots)
    requires Occupancy(s, size) && size >= 1
    ensures Occupancy(r, size - 1)
    ensures multiset(r[..size - 1]) == multiset(s[..size]) - multiset{s[0]}
  {
    var last := size - 1;
    var moved := s[0 := s[last]][last := None];
    MoveLastToRoot(s, size);
    if last == 1 then moved
    else
      PercolateDownPermutes(moved, 0, last, crit);
      PercolateDownResult(moved, 0, last, crit)
  }

  /** After a dequeue that leaves tasks behind, no child of the root outranks it. */
  lemma DequeueSettlesRoot(s: Slots, size: int, crit: Option<CompareCriteria>)
    requires Occupancy(s, size) && size >= 2
    ensures Settled(DequeueSlots(s, size, crit), 0, size - 1, crit)
  {
    var last := size - 1;
    if last > 1 {
      MoveLastToRoot(s, size);
      PercolateDownSettles(s[0 := s[last]][last := None], 0, last, crit);
    }
  }

  // ---------------------------------------------------------------------
  // reprioritize (TaskQueue.kt:248-253)
  // ---------------------------------------------------------------------

  /** percolateDown at `i`, `i - 1`, ..., 0, in that order. */
  function RebuildFrom(s: Slots, size: int, crit: Option<CompareCriteria>, i: int): (r: Slots)
    requires Occupancy(s, size)
    ensures Occupancy(r, size)
    decreases i
  {
    if i < 0 then s
    else RebuildFrom(PercolateDownResult(s, i, size, crit), size, crit, i - 1)
  }

  /** The rebuild only rearranges the occupied slots. */
  lemma {:induction false} RebuildPermutes(s: Slots, size: int, crit: Option<CompareCriteria>, i: int)
    requires Occupancy(s, size)
    ensures multiset(RebuildFrom(s, size, crit, i)[..size]) == multiset(s[..size])
    decreases i
  {
    if i >= 0 {
      PercolateDownPermutes(s, i, size, crit);
      RebuildPermutes(PercolateDownResult(s, i, size, crit), size, crit, i - 1);
    }
  }

  /** The first index of the `downTo` loop, with Kotlin's truncating division
      (0, not -1, for an empty queue). */
  function RebuildStart(size: int): int {
    TruncHalf(size - 1)
  }

  /** The slots after `reprioritize` with criterion `crit`. */
  function RebuildSlots(s: Slots, size: int, crit: Option<CompareCriteria>): (r: Slots)
    requires Occupancy(s, size)
    ensures Occupancy(r, size)
  {
    RebuildFrom(s, size, crit, RebuildStart(size))
  }

  /** The last percolateDown of the rebuild is at the root, so the root ends settled. */
  lemma {:induction false} RebuildSettlesRoot(s: Slots, size: int, crit: Option<CompareCriteria>, i: int)
    requires Occupancy(s, size) && 0 <= i && 0 < size
    ensures Settled(RebuildFrom(s, size, crit, i), 0, size, crit)
    decreases i
  {
    var next := PercolateDownResult(s, i, size, crit);
    if i == 0 {
      PercolateDownSettles(s, 0, size, crit);
      assert RebuildFrom(s, size, crit, i) == RebuildFrom(next, size, crit, -1) == next;
    } else {
      RebuildSettlesRoot(next, size, crit, i - 1);
    }
  }

  lemma RebuildStartInRange(size: int)
    requires size >= 0
    ensures 0 <= RebuildStart(size) && (size > 0 ==> RebuildStart(size) < size)
    ensures size == 0 ==> RebuildStart(size) == 0 && (size - 1) / 2 == -1
  {
  }

  // ---------------------------------------------------------------------
  // The queue
  // ---------------------------------------------------------------------

  class TaskQueue {
    /** Sized once to the capacity; slot contents change in place. */
    const heapData: array<Option<Task>>
    /** The number of tasks in the queue. */
    var size: int
    var priorityCriteria: Option<CompareCriteria>

    ghost predicate Valid()
      reads this, heapData
    {
      0 < heapData.Length && Occupancy(heapData[..], size)
    }

    /** The allocation part of `init`; `Create` adds the capacity check. */
    constructor (capacity: int, priorityCriteria: Option<CompareCriteria>)
      requires capacity > 0
      ensures Valid() && fresh(heapData)
      ensures heapData.Length == capacity && size == 0 && this.priorityCriteria == priorityCriteria
      ensures forall i :: 0 <= i < capacity ==> heapData[i] == None
    {
      heapData := new Option<Task>[capacity](_ => None);
      size := 0;
      this.priorityCriteria := priorityCriteria;
    }

    /** `init`: fails for a non-positive capacity; otherwise an empty queue. */
    static method Create(capacity: int, priorityCriteria: Option<CompareCriteria>) returns (r: Result<TaskQueue, QueueError>)
      ensures r.Err? <==> capacity <= 0
      ensures r.Err? ==> r.error == InvalidCapacity
      ensures r.Ok? ==> fresh(r.value) && fresh(r.value.heapData) && r.value.Valid()
      ensures r.Ok? ==> r.value.heapData.Length == capacity && r.value.size == 0
      ensures r.Ok? ==> r.value.priorityCriteria == priorityCriteria
      ensures r.Ok? ==> forall i :: 0 <= i < capacity ==> r.value.heapData[i] == None
    {
      if capacity <= 0 {
        return Err(InvalidCapacity);
      }
      var q := new TaskQueue(capacity, priorityCriteria);
      return Ok(q);
    }

    /** `isEmpty`: no task is stored in any slot. */
    function IsEmpty(): (b: bool)
      reads this, heapData
      requires Valid()
      ensures b <==> forall i :: 0 <= i < heapData.Length ==> heapData[i] == None
    {
      assert size > 0 ==> heapData[..][0].Some?;
      Size() == 0
    }

    /** `size()`: the number of occupied slots, which form a prefix. */
    function Size(): (n: int)
      reads this, heapData
      requires Valid()
      ensures 0 <= n <= heapData.Length
      ensures forall i :: 0 <= i < heapData.Length ==> (heapData[i].Some? <==> i < n)
    {
      assert forall i :: 0 <= i < heapData.Length ==> heapData[i] == heapData[..][i];
      size
    }

    /** `peekBest`: the task in slot 0, which is one of the stored tasks. */
    method PeekBest() returns (r: Result<Task, QueueError>)
      requires Valid()
      ensures r.Err? <==> size == 0
      ensures r.Err? ==> r.error == QueueEmpty
      ensures r.Ok? ==> heapData[0] == Some(r.value) && Some(r.value) in multiset(heapData[..size])
    {
      if IsEmpty() {
        return Err(QueueEmpty);
      }
      return Ok(heapData[0].value);
    }

    /** `enqueue`: the completed check first, then the full check; on success
        the task is stored and percolated up. A call that would hang in the
        source's percolate-up loop (EnqueueHangs) is excluded. */
    method Enqueue(newTask: Task) returns (r: Outcome<QueueError>)
      requires Valid()
      requires !EnqueueHangs(heapData[..], size, newTask, priorityCriteria)
      modifies this, heapData
      ensures Valid() && priorityCriteria == old(priorityCriteria)
      ensures r == if newTask.isCompleted then Fail(TaskAlreadyCompleted)
                   else if old(size) == heapData.Length then Fail(QueueFull)
                   else Pass
      ensures r.Fail? ==> size == old(size) && heapData[..] == old(heapData[..])
      ensures r.Pass? ==> size == old(size) + 1
      ensures r.Pass? ==> heapData[..] == EnqueueSlots(old(heapData[..]), old(size), newTask, priorityCriteria)
      ensures r.Pass? ==> multiset(heapData[..size]) == multiset(old(heapData[..size])) + multiset{Some(newTask)}
    {
      if CheckIfCompleted(newTask) {
        return Fail(TaskAlreadyCompleted);
      }
      if heapData.Length == size {
        return Fail(QueueFull);
      }
      ghost var s0 := heapData[..];
      heapData[size] := Some(newTask);
      size := size + 1;
      assert heapData[..] == s0[size - 1 := Some(newTask)];
      if size == 1 {
        return Pass;
      }
      ghost var passes := PercolateUp(size - 1);
      return Pass;
    }

    /** percolateUp as written: each pass compares slot `index` (not
        `currentIndex`) with `Parent(index)`, so the loop runs at most two
        passes and moves the element at most one level. */
    method PercolateUp(index: int) returns (ghost passes: nat)
      requires Valid() && 0 < index < size
      requires UpHalts(heapData[..], index, priorityCriteria)
      modifies heapData
      ensures Valid()
      ensures passes <= 2 && Stopped(UpRun(old(heapData[..]), index, priorityCriteria, passes))
      ensures heapData[..] == PercolateUpResult(old(heapData[..]), index, priorityCriteria)
    {
      ghost var s0 := heapData[..];
      passes := 0;
      var currentIndex := index;
      while currentIndex > 0
        invariant passes <= 2
        invariant UpRun(s0, index, priorityCriteria, passes) == Looping(heapData[..], currentIndex)
        decreases 2 - passes
      {
        UpRunStops(s0, index, priorityCriteria, passes);
        var parentIndex := (index - 1) / 2;
        if CompareTo(heapData[index].value, heapData[parentIndex].value, priorityCriteria) < 0 {
          passes := passes + 1;
          UpRunStops(s0, index, priorityCriteria, passes);
          SwapPreservesOccupancy(s0, index, parentIndex, size);
          return;
        }
        var tempTask := heapData[index];
        heapData[index] := heapData[parentIndex];
        heapData[parentIndex] := tempTask;
        currentIndex := parentIndex;
        passes := passes + 1;
      }
      UpRunStops(s0, index, priorityCriteria, passes);
      SwapPreservesOccupancy(s0, index, Parent(index), size);
    }

    /** `dequeue`: takes the task in slot 0, moves the last task into slot 0,
        clears the last slot and percolates down from the root. */
    method Dequeue() returns (r: Result<Task, QueueError>)
      requires Valid()
      modifies this, heapData
      ensures Valid() && priorityCriteria == old(priorityCriteria)
      ensures r.Err? <==> old(size) == 0
      ensures r.Err? ==> r.error == QueueEmpty && size == old(size) && heapData[..] == old(heapData[..])
      ensures r.Ok? ==> old(heapData[0]) == Some(r.value) && size == old(size) - 1 && heapData[size] == None
      ensures r.Ok? ==> heapData[..] == DequeueSlots(old(heapData[..]), old(size), priorityCriteria)
      ensures r.Ok? ==> multiset(heapData[..size]) == multiset(old(heapData[..size])) - multiset{Some(r.value)}
      ensures r.Ok? && size >= 1 ==> Settled(heapData[..], 0, size, priorityCriteria)
    {
      if IsEmpty() {
        return Err(QueueEmpty);
      }
      ghost var s0 := heapData[..];
      var highestPriorityTask := heapData[0];
      MoveLast();
      if size == 1 {
        DequeueSettlesRoot(s0, size + 1, priorityCriteria);
        return Ok(highestPriorityTask.value);
      }
      PercolateDown(0);
      if size >= 1 {
        DequeueSettlesRoot(s0, size + 1, priorityCriteria);
      }
      return Ok(highestPriorityTask.value);
    }

    /** The first half of `dequeue`: the last task moves into slot 0, the last
        slot is cleared and `size` drops by one. */
    method MoveLast()
      requires Valid() && size >= 1
      modifies this, heapData
      ensures Valid() && priorityCriteria == old(priorityCriteria) && size == old(size) - 1
      ensures heapData[..] == old(heapData[..])[0 := old(heapData[size - 1])][size := None]
      ensures multiset(heapData[..size]) == multiset(old(heapData[..size])) - multiset{old(heapData[0])}
    {
      ghost var s0 := heapData[..];
      heapData[0] := heapData[size - 1];
      heapData[size - 1] := None;
      size := size - 1;
      assert heapData[..] == s0[0 := s0[size]][size := None];
      MoveLastToRoot(s0, size + 1);
    }

    /** percolateDown as written: the loop tests and swaps slot `index` (not
        `currentIndex`), so after one swap the next pass finds no child of
        `index` outranking it and returns. */
    method PercolateDown(index: int)
      requires Valid() && 0 <= index
      modifies heapData
      ensures Valid()
      ensures heapData[..] == PercolateDownResult(old(heapData[..]), index, size, priorityCriteria)
      ensures index < size ==> Settled(heapData[..], index, size, priorityCriteria)
    {
      ghost var s0 := heapData[..];
      ghost var passes := 0;
      if index < size {
        PercolateDownSettles(s0, index, size, priorityCriteria);
      }
      var currentIndex := index;  // updated but never read, as in the source
      while index < size
        invariant 0 <= passes <= 1
        invariant Valid()
        invariant passes == 0 ==> heapData[..] == s0
        invariant passes == 1 ==> heapData[..] == PercolateDownResult(s0, index, size, priorityCriteria)
        invariant passes == 1 ==> index < size && Settled(heapData[..], index, size, priorityCriteria)
        decreases 1 - passes
      {
        var currentTask := heapData[index].value;
        var maxPriorityTask, maxPriorityTaskIndex := MaxChild(index);
        if passes == 1 {
          SettledScanKeepsCurrent(heapData[..], index, size, priorityCriteria);
        }
        if Equals(maxPriorityTask, currentTask) {
          return;
        }
        var tempTask := heapData[index];
        heapData[index] := heapData[maxPriorityTaskIndex];
        heapData[maxPriorityTaskIndex] := tempTask;
        assert heapData[..] == Swap(s0, index, maxPriorityTaskIndex);
        currentIndex := 2 * currentIndex + 1;
        passes := passes + 1;
      }
    }

    /** The inner loop of percolateDown: scans the (at most two) in-range
        children of `index` for one that strictly outranks the best so far,
        starting from the task at `index` with index 0. */
    method MaxChild(index: int) returns (maxPriorityTask: Task, maxPriorityTaskIndex: int)
      requires Valid() && 0 <= index < size
      ensures (maxPriorityTask, maxPriorityTaskIndex) == ScanChildren(heapData[..], index, size, priorityCriteria, 2)
    {
      var childIndex := 2 * index + 1;
      maxPriorityTask := heapData[index].value;
      maxPriorityTaskIndex := 0;
      var i := 0;
      while i < 2 && i + childIndex < size
        invariant 0 <= i <= 2
        invariant (maxPriorityTask, maxPriorityTaskIndex) == ScanChildren(heapData[..], index, size, priorityCriteria, i)
      {
        assert ScanChildren(heapData[..], index, size, priorityCriteria, i + 1) ==
          if CompareTo(heapData[..][i + childIndex].value, maxPriorityTask, priorityCriteria) > 0
          then (heapData[..][i + childIndex].value, i + childIndex)
          else (maxPriorityTask, maxPriorityTaskIndex);
        if CompareTo(heapData[i + childIndex].value, maxPriorityTask, priorityCriteria) > 0 {
          maxPriorityTask := heapData[i + childIndex].value;
          maxPriorityTaskIndex := i + childIndex;
        }
        i := i + 1;
      }
      ScanCompleted(heapData[..], index, size, priorityCriteria, i);
    }

    /** `reprioritize`: replaces the criterion, then percolates down from every
        index `(size - 1) / 2` down to 0. */
    method Reprioritize(priorityCriteria: Option<CompareCriteria>)
      requires Valid()
      modifies this, heapData
      ensures Valid() && size == old(size) && this.priorityCriteria == priorityCriteria
      ensures heapData[..] == RebuildSlots(old(heapData[..]), size, priorityCriteria)
      ensures multiset(heapData[..size]) == multiset(old(heapData[..size]))
      ensures size > 0 ==> Settled(heapData[..], 0, size, priorityCriteria)
    {
      ghost var s0 := heapData[..];
      this.priorityCriteria := priorityCriteria;
      Rebuild();
      RebuildPermutes(s0, size, priorityCriteria, RebuildStart(size));
      if size > 0 {
        RebuildSettlesRoot(s0, size, priorityCriteria, RebuildStart(size));
      }
    }

    /** The `downTo` loop of `reprioritize` under the current criterion. */
    method Rebuild()
      requires Valid()
      modifies heapData
      ensures Valid()
      ensures heapData[..] == RebuildSlots(old(heapData[..]), size, priorityCriteria)
    {
      ghost var s0 := heapData[..];
      RebuildStartInRange(size);
      var i := TruncHalf(size - 1);
      while i >= 0
        invariant Valid()
        invariant RebuildFrom(heapData[..], size, priorityCriteria, i) == RebuildSlots(s0, size, priorityCriteria)
        decreases i
      {
        ghost var prev := heapData[..];
        PercolateDown(i);
        assert RebuildFrom(prev, size, priorityCriteria, i) == RebuildFrom(heapData[..], size, priorityCriteria, i - 1);
        i := i - 1;
      }
      assert heapData[..] == RebuildFrom(heapData[..], size, priorityCriteria, i);
    }

    /** `getHeapData`: a fresh array holding the same slots. */
    method GetHeapData() returns (cloneArray: array<Option<Task>>)
      requires Valid()
      ensures fresh(cloneArray) && cloneArray[..] == heapData[..]
    {
      cloneArray := new Option<Task>[heapData.Length](i reads heapData requires 0 <= i < heapData.Length => heapData[i]);
    }
  }
}
