/** Clients of TaskQueue that replay concrete runs, the way ActivityMain.kt
    drives a TIME queue through enqueue and getHeapData. Each one states what
    the queue holds as the code is written. */
module QueueTraces {
  import opened Wrappers
  import opened Tasks
  import opened TaskQueues

  /** A task that differs from the others only in its estimated time. */
  function Timed(minutes: int): (t: Task)
    ensures !t.isCompleted && t.time == minutes
  {
    NewTask("task", "work", minutes, Optional)
  }

  /** Under TIME, enqueuing times 1, 2, 3, 4 leaves the slots as [3, 4, 2, 1]:
      the time-4 task moves only one level, so `peekBest` returns the time-3
      task although the time-4 task outranks it. Writing into the snapshot
      leaves the queue as it was. */
  method EnqueueOneToFourByTime() returns (slots: seq<Option<Task>>, best: Result<Task, QueueError>)
    ensures slots == [Some(Timed(3)), Some(Timed(4)), Some(Timed(2)), Some(Timed(1))]
    ensures best == Ok(Timed(3))
    ensures CompareTo(Timed(4), Timed(3), Some(Time)) > 0
  {
    var q := OneToThreeByTime();
    OneToFourFourth();
    var o := q.Enqueue(Timed(4));
    var snapshot := q.GetHeapData();
    slots := snapshot[..];
    snapshot[0] := None;
    best := q.PeekBest();
  }

  /** The first three enqueues of `EnqueueOneToFourByTime`. */
  method OneToThreeByTime() returns (q: TaskQueue)
    ensures fresh(q) && fresh(q.heapData) && q.Valid()
    ensures q.size == 3 && q.priorityCriteria == Some(Time)
    ensures q.heapData[..] == [Some(Timed(3)), Some(Timed(1)), Some(Timed(2)), None]
  {
    var created := TaskQueue.Create(4, Some(Time));
    q := created.value;
    assert q.heapData[..] == [None, None, None, None];
    OneToFourSecond();
    OneToFourThird();
    var o := q.Enqueue(Timed(1));
    assert q.heapData[..] == [Some(Timed(1)), None, None, None];
    o := q.Enqueue(Timed(2));
    o := q.Enqueue(Timed(3));
  }

  lemma OneToFourSecond()
    ensures Occupancy([Some(Timed(1)), None, None, None], 1)
    ensures !EnqueueHangs([Some(Timed(1)), None, None, None], 1, Timed(2), Some(Time))
    ensures EnqueueSlots([Some(Timed(1)), None, None, None], 1, Timed(2), Some(Time))
         == [Some(Timed(2)), Some(Timed(1)), None, None]
  {
    var placed := [Some(Timed(1)), Some(Timed(2)), None, None];
    assert [Some(Timed(1)), None, None, None][1 := Some(Timed(2))] == placed;
    assert PercolateUpResult(placed, 1, Some(Time)) == Swap(placed, 1, 0);
  }

  lemma OneToFourThird()
    ensures Occupancy([Some(Timed(2)), Some(Timed(1)), None, None], 2)
    ensures !EnqueueHangs([Some(Timed(2)), Some(Timed(1)), None, None], 2, Timed(3), Some(Time))
    ensures EnqueueSlots([Some(Timed(2)), Some(Timed(1)), None, None], 2, Timed(3), Some(Time))
         == [Some(Timed(3)), Some(Timed(1)), Some(Timed(2)), None]
  {
    var placed := [Some(Timed(2)), Some(Timed(1)), Some(Timed(3)), None];
    assert [Some(Timed(2)), Some(Timed(1)), None, None][2 := Some(Timed(3))] == placed;
    assert PercolateUpResult(placed, 2, Some(Time)) == Swap(placed, 2, 0);
  }

  /** The time-4 task lands in slot 3, is swapped with its parent in slot 1,
      and the second pass compares the two back and returns. */
  lemma OneToFourFourth()
    ensures Occupancy([Some(Timed(3)), Some(Timed(1)), Some(Timed(2)), None], 3)
    ensures !EnqueueHangs([Some(Timed(3)), Some(Timed(1)), Some(Timed(2)), None], 3, Timed(4), Some(Time))
    ensures EnqueueSlots([Some(Timed(3)), Some(Timed(1)), Some(Timed(2)), None], 3, Timed(4), Some(Time))
         == [Some(Timed(3)), Some(Timed(4)), Some(Timed(2)), Some(Timed(1))]
  {
    var placed := [Some(Timed(3)), Some(Timed(1)), Some(Timed(2)), Some(Timed(4))];
    assert [Some(Timed(3)), Some(Timed(1)), Some(Timed(2)), None][3 := Some(Timed(4))] == placed;
    assert CompareTo(Timed(4), Timed(1), Some(Time)) == 3;
    assert PercolateUpResult(placed, 3, Some(Time)) == Swap(placed, 3, 1);
  }

  /** Capacity 3 under TIME: after 5, 10, 1 the best is the time-10 task;
      dequeue returns it and the time-5 task is then at the root; a fourth
      enqueue fits, because the dequeue made room. */
  method TimeExample() returns (first: Result<Task, QueueError>, removed: Result<Task, QueueError>,
                                 second: Result<Task, QueueError>, added: Outcome<QueueError>)
    ensures first == Ok(Timed(10)) && removed == Ok(Timed(10)) && second == Ok(Timed(5))
    ensures added == Pass
  {
    var q := FiveTenOne();
    first := q.PeekBest();
    TimeExampleDequeue();
    removed := q.Dequeue();
    assert q.heapData[..] == [Some(Timed(5)), Some(Timed(1)), None];
    second := q.PeekBest();
    added := q.Enqueue(Timed(7));
  }

  /** The three enqueues of `TimeExample`. */
  method FiveTenOne() returns (q: TaskQueue)
    ensures fresh(q) && fresh(q.heapData) && q.Valid()
    ensures q.size == 3 && q.priorityCriteria == Some(Time)
    ensures q.heapData[..] == [Some(Timed(10)), Some(Timed(5)), Some(Timed(1))]
  {
    var created := TaskQueue.Create(3, Some(Time));
    q := created.value;
    assert q.heapData[..] == [None, None, None];
    FiveTenOneSecond();
    FiveTenOneThird();
    var o := q.Enqueue(Timed(5));
    assert q.heapData[..] == [Some(Timed(5)), None, None];
    o := q.Enqueue(Timed(10));
    o := q.Enqueue(Timed(1));
  }

  lemma FiveTenOneSecond()
    ensures Occupancy([Some(Timed(5)), None, None], 1)
    ensures !EnqueueHangs([Some(Timed(5)), None, None], 1, Timed(10), Some(Time))
    ensures EnqueueSlots([Some(Timed(5)), None, None], 1, Timed(10), Some(Time))
         == [Some(Timed(10)), Some(Timed(5)), None]
  {
    var placed := [Some(Timed(5)), Some(Timed(10)), None];
    assert [Some(Timed(5)), None, None][1 := Some(Timed(10))] == placed;
    assert PercolateUpResult(placed, 1, Some(Time)) == Swap(placed, 1, 0);
  }

  lemma FiveTenOneThird()
    ensures Occupancy([Some(Timed(10)), Some(Timed(5)), None], 2)
    ensures !EnqueueHangs([Some(Timed(10)), Some(Timed(5)), None], 2, Timed(1), Some(Time))
    ensures EnqueueSlots([Some(Timed(10)), Some(Timed(5)), None], 2, Timed(1), Some(Time))
         == [Some(Timed(10)), Some(Timed(5)), Some(Timed(1))]
  {
    var placed := [Some(Timed(10)), Some(Timed(5)), Some(Timed(1))];
    assert [Some(Timed(10)), Some(Timed(5)), None][2 := Some(Timed(1))] == placed;
    assert PercolateUpResult(placed, 2, Some(Time)) == placed;
  }

  /** The dequeue of `TimeExample` on the slot level: the time-1 task moved
      to the root is swapped with the time-5 task. */
  lemma TimeExampleDequeue()
    ensures DequeueSlots([Some(Timed(10)), Some(Timed(5)), Some(Timed(1))], 3, Some(Time))
         == [Some(Timed(5)), Some(Timed(1)), None]
  {
    var moved := [Some(Timed(1)), Some(Timed(5)), None];
    assert [Some(Timed(10)), Some(Timed(5)), Some(Timed(1))][0 := Some(Timed(1))][2 := None] == moved;
    TimeExampleScan(moved);
    assert PercolateDownResult(moved, 0, 2, Some(Time)) == Swap(moved, 0, 1);
  }

  lemma TimeExampleScan(moved: Slots)
    requires moved == [Some(Timed(1)), Some(Timed(5)), None]
    ensures Occupancy(moved, 2)
    ensures ScanChildren(moved, 0, 2, Some(Time), 2) == (Timed(5), 1)
  {
    assert ScanChildren(moved, 0, 2, Some(Time), 1) == (Timed(5), 1);
  }

  /** Capacity 2 under LEVEL: a LOW task titled "b", then a HIGH task titled
      "a"; the HIGH task is best, and stays best after reprioritizing by
      TITLE, where the earlier title ranks higher. */
  method LevelThenTitleExample() returns (byLevel: Result<Task, QueueError>, byTitle: Result<Task, QueueError>)
    ensures byLevel == Ok(NewTask("a", "work", 1, High))
    ensures byTitle == Ok(NewTask("a", "work", 1, High))
  {
    var low := NewTask("b", "work", 1, Low);
    var high := NewTask("a", "work", 1, High);
    var created := TaskQueue.Create(2, Some(Level));
    var q := created.value;
    var o := q.Enqueue(low);
    o := q.Enqueue(high);
    assert q.heapData[..] == [Some(high), Some(low)];
    byLevel := q.PeekBest();
    ghost var s := [Some(high), Some(low)];
    assert LexCompare("b", "a") == 1;
    assert ScanChildren(s, 0, 2, Some(Title), 2) == (high, 0);
    assert RebuildFrom(s, 2, Some(Title), 0) == PercolateDownResult(s, 0, 2, Some(Title)) == s;
    assert RebuildStart(2) == 0;
    q.Reprioritize(Some(Title));
    assert q.heapData[..] == [Some(high), Some(low)];
    byTitle := q.PeekBest();
  }

  /** A completed task is rejected before the capacity is looked at. */
  method CompletedRejectedWhenFull() returns (o: Outcome<QueueError>)
    ensures o == Fail(TaskAlreadyCompleted)
  {
    var created := TaskQueue.Create(1, Some(Time));
    var q := created.value;
    o := q.Enqueue(Timed(1));
    o := q.Enqueue(MarkCompleted(Timed(2)));
  }

  /** A task that takes `minutes` and is titled `title`. */
  function Lettered(title: string, minutes: int): (t: Task)
    ensures !t.isCompleted && t.title == title && t.time == minutes
  {
    NewTask(title, "work", minutes, Optional)
  }

  /** Titles "a", "b", "c", "d" with times 1 to 4, enqueued under TITLE (they
      stay in that order), then reprioritized by TIME twice. The first
      reprioritize leaves slot 1 below its child in slot 3, and the second
      one changes the slots again: the rebuild is neither a heap-building
      nor an idempotent operation. */
  method ReprioritizeTwiceByTime() returns (once: seq<Option<Task>>, twice: seq<Option<Task>>)
    ensures once == [Some(Lettered("d", 4)), Some(Lettered("a", 1)), Some(Lettered("c", 3)), Some(Lettered("b", 2))]
    ensures twice == [Some(Lettered("d", 4)), Some(Lettered("b", 2)), Some(Lettered("c", 3)), Some(Lettered("a", 1))]
    ensures once != twice
    ensures !Settled(once, 1, 4, Some(Time))
  {
    var q := FourTitles();
    RebuildByTimeOnce();
    RebuildByTimeAgain();
    q.Reprioritize(Some(Time));
    var snapshot := q.GetHeapData();
    once := snapshot[..];
    q.Reprioritize(Some(Time));
    snapshot := q.GetHeapData();
    twice := snapshot[..];
    assert once[1] != twice[1];
    assert CompareTo(once[3].value, once[1].value, Some(Time)) > 0;
  }

  /** The four enqueues of `ReprioritizeTwiceByTime`. */
  method FourTitles() returns (q: TaskQueue)
    ensures fresh(q) && fresh(q.heapData) && q.Valid()
    ensures q.size == 4 && q.priorityCriteria == Some(Title)
    ensures q.heapData[..] == [Some(Lettered("a", 1)), Some(Lettered("b", 2)), Some(Lettered("c", 3)), Some(Lettered("d", 4))]
  {
    var created := TaskQueue.Create(4, Some(Title));
    q := created.value;
    assert q.heapData[..] == [None, None, None, None];
    FourTitlesSecond();
    FourTitlesThird();
    FourTitlesFourth();
    var o := q.Enqueue(Lettered("a", 1));
    assert q.heapData[..] == [Some(Lettered("a", 1)), None, None, None];
    o := q.Enqueue(Lettered("b", 2));
    o := q.Enqueue(Lettered("c", 3));
    o := q.Enqueue(Lettered("d", 4));
  }

  lemma FourTitlesSecond()
    ensures Occupancy([Some(Lettered("a", 1)), None, None, None], 1)
    ensures !EnqueueHangs([Some(Lettered("a", 1)), None, None, None], 1, Lettered("b", 2), Some(Title))
    ensures EnqueueSlots([Some(Lettered("a", 1)), None, None, None], 1, Lettered("b", 2), Some(Title))
         == [Some(Lettered("a", 1)), Some(Lettered("b", 2)), None, None]
  {
    var placed := [Some(Lettered("a", 1)), Some(Lettered("b", 2)), None, None];
    assert [Some(Lettered("a", 1)), None, None, None][1 := Some(Lettered("b", 2))] == placed;
    assert LexCompare("b", "a") == 1;
    assert PercolateUpResult(placed, 1, Some(Title)) == placed;
  }

  lemma FourTitlesThird()
    ensures Occupancy([Some(Lettered("a", 1)), Some(Lettered("b", 2)), None, None], 2)
    ensures !EnqueueHangs([Some(Lettered("a", 1)), Some(Lettered("b", 2)), None, None], 2, Lettered("c", 3), Some(Title))
    ensures EnqueueSlots([Some(Lettered("a", 1)), Some(Lettered("b", 2)), None, None], 2, Lettered("c", 3), Some(Title))
         == [Some(Lettered("a", 1)), Some(Lettered("b", 2)), Some(Lettered("c", 3)), None]
  {
    var placed := [Some(Lettered("a", 1)), Some(Lettered("b", 2)), Some(Lettered("c", 3)), None];
    assert [Some(Lettered("a", 1)), Some(Lettered("b", 2)), None, None][2 := Some(Lettered("c", 3))] == placed;
    assert LexCompare("c", "a") == 2;
    assert PercolateUpResult(placed, 2, Some(Title)) == placed;
  }

  lemma FourTitlesFourth()
    ensures Occupancy([Some(Lettered("a", 1)), Some(Lettered("b", 2)), Some(Lettered("c", 3)), None], 3)
    ensures !EnqueueHangs([Some(Lettered("a", 1)), Some(Lettered("b", 2)), Some(Lettered("c", 3)), None], 3, Lettered("d", 4), Some(Title))
    ensures EnqueueSlots([Some(Lettered("a", 1)), Some(Lettered("b", 2)), Some(Lettered("c", 3)), None], 3, Lettered("d", 4), Some(Title))
         == [Some(Lettered("a", 1)), Some(Lettered("b", 2)), Some(Lettered("c", 3)), Some(Lettered("d", 4))]
  {
    var placed := [Some(Lettered("a", 1)), Some(Lettered("b", 2)), Some(Lettered("c", 3)), Some(Lettered("d", 4))];
    assert [Some(Lettered("a", 1)), Some(Lettered("b", 2)), Some(Lettered("c", 3)), None][3 := Some(Lettered("d", 4))] == placed;
    assert LexCompare("d", "b") == 2;
    assert PercolateUpResult(placed, 3, Some(Title)) == placed;
  }

  /** The first rebuild by TIME: percolateDown(1) swaps "b" with its child
      "d", then percolateDown(0) swaps "a" with "d". */
  lemma RebuildByTimeOnce()
    ensures RebuildSlots([Some(Lettered("a", 1)), Some(Lettered("b", 2)), Some(Lettered("c", 3)), Some(Lettered("d", 4))], 4, Some(Time))
         == [Some(Lettered("d", 4)), Some(Lettered("a", 1)), Some(Lettered("c", 3)), Some(Lettered("b", 2))]
  {
    var s := [Some(Lettered("a", 1)), Some(Lettered("b", 2)), Some(Lettered("c", 3)), Some(Lettered("d", 4))];
    var mid := [Some(Lettered("a", 1)), Some(Lettered("d", 4)), Some(Lettered("c", 3)), Some(Lettered("b", 2))];
    var r := [Some(Lettered("d", 4)), Some(Lettered("a", 1)), Some(Lettered("c", 3)), Some(Lettered("b", 2))];
    assert Occupancy(s, 4) && Occupancy(mid, 4);
    assert RebuildStart(4) == 1;
    assert ScanChildren(s, 1, 4, Some(Time), 1) == (Lettered("d", 4), 3);
    assert ScanChildren(s, 1, 4, Some(Time), 2) == (Lettered("d", 4), 3);
    assert PercolateDownResult(s, 1, 4, Some(Time)) == Swap(s, 1, 3) == mid;
    assert ScanChildren(mid, 0, 4, Some(Time), 1) == (Lettered("d", 4), 1);
    assert ScanChildren(mid, 0, 4, Some(Time), 2) == (Lettered("d", 4), 1);
    assert PercolateDownResult(mid, 0, 4, Some(Time)) == Swap(mid, 0, 1) == r;
    assert RebuildFrom(r, 4, Some(Time), -1) == r;
  }

  /** The second rebuild by TIME: percolateDown(1) swaps "a" with its child
      "b"; percolateDown(0) finds the root settled. */
  lemma RebuildByTimeAgain()
    ensures RebuildSlots([Some(Lettered("d", 4)), Some(Lettered("a", 1)), Some(Lettered("c", 3)), Some(Lettered("b", 2))], 4, Some(Time))
         == [Some(Lettered("d", 4)), Some(Lettered("b", 2)), Some(Lettered("c", 3)), Some(Lettered("a", 1))]
  {
    var s := [Some(Lettered("d", 4)), Some(Lettered("a", 1)), Some(Lettered("c", 3)), Some(Lettered("b", 2))];
    var r := [Some(Lettered("d", 4)), Some(Lettered("b", 2)), Some(Lettered("c", 3)), Some(Lettered("a", 1))];
    assert Occupancy(s, 4) && Occupancy(r, 4);
    assert RebuildStart(4) == 1;
    assert ScanChildren(s, 1, 4, Some(Time), 1) == (Lettered("b", 2), 3);
    assert ScanChildren(s, 1, 4, Some(Time), 2) == (Lettered("b", 2), 3);
    assert PercolateDownResult(s, 1, 4, Some(Time)) == Swap(s, 1, 3) == r;
    assert ScanChildren(r, 0, 4, Some(Time), 1) == (Lettered("d", 4), 0);
    assert ScanChildren(r, 0, 4, Some(Time), 2) == (Lettered("d", 4), 0);
    assert PercolateDownResult(r, 0, 4, Some(Time)) == r;
    assert RebuildFrom(r, 4, Some(Time), -1) == r;
  }
}
