/** The task record of Task.kt and its criterion-dependent comparison. */
module Tasks {
  import opened Wrappers

  /** Priority levels in declaration order; `Ordinal` gives their Kotlin ordinals. */
  datatype PriorityLevel = Optional | Low | Medium | High

  /** The criteria a queue can order by. A queue's criterion is an
      `Option<CompareCriteria>`, because the Kotlin parameter is nullable. */
  datatype CompareCriteria = Time | Title | Level

  function Ordinal(p: PriorityLevel): nat {
    match p
    case Optional => 0
    case Low => 1
    case Medium => 2
    case High => 3
  }

  /** A task. `time` is the estimated number of minutes it takes. */
  datatype Task = Task(
    title: string,
    description: string,
    time: int,
    priorityLevel: PriorityLevel,
    isCompleted: bool)

  /** The Kotlin primary constructor with its default argument `isCompleted = false`. */
  function NewTask(title: string, description: string, time: int, priorityLevel: PriorityLevel): (t: Task)
    ensures !CheckIfCompleted(t)
    ensures Equals(t, Task(title, description, time, priorityLevel, true))
  {
    Task(title, description, time, priorityLevel, false)
  }

  function CheckIfCompleted(t: Task): bool {
    t.isCompleted
  }

  /** `markCompleted`: the same task with its flag set. */
  function MarkCompleted(t: Task): (r: Task)
    ensures CheckIfCompleted(r)
    ensures Equals(r, t)
    ensures r.(isCompleted := t.isCompleted) == t
  {
    t.(isCompleted := true)
  }

  /** Kotlin `equals`: structural over title, description, level and time; the
      completion flag takes no part. */
  function Equals(a: Task, b: Task): bool {
    a.title == b.title && a.description == b.description
    && a.priorityLevel == b.priorityLevel && a.time == b.time
  }

  /** Two tasks are `Equals` exactly when they agree once their flags are cleared. */
  lemma EqualsIgnoresCompletion(a: Task, b: Task)
    ensures Equals(a, b) <==> a.(isCompleted := false) == b.(isCompleted := false)
  {
  }

  lemma EqualsIsEquivalence(a: Task, b: Task, c: Task)
    ensures Equals(a, a)
    ensures Equals(a, b) ==> Equals(b, a)
    ensures Equals(a, b) && Equals(b, c) ==> Equals(a, c)
  {
  }

  /** Java's `String.compareTo`: the difference of the first differing
      characters, or else the difference of the lengths. */
  function LexCompare(a: string, b: string): int {
    if |a| == 0 || |b| == 0 then |a| - |b|
    else if a[0] != b[0] then a[0] as int - b[0] as int
    else LexCompare(a[1..], b[1..])
  }

  /** Reference definition of "a comes strictly before b in lexicographic order". */
  ghost predicate LexBefore(a: string, b: string) {
    || (|a| < |b| && a == b[..|a|])
    || (exists k :: 0 <= k < |a| && k < |b| && a[..k] == b[..k] && a[k] < b[k])
  }

  lemma {:induction false} LexCompareZero(a: string, b: string)
    ensures LexCompare(a, b) == 0 <==> a == b
  {
    if |a| == 0 || |b| == 0 {
    } else if a[0] != b[0] {
    } else {
      LexCompareZero(a[1..], b[1..]);
      assert a == [a[0]] + a[1..];
      assert b == [b[0]] + b[1..];
    }
  }

  lemma {:induction false} LexCompareAntisymmetric(a: string, b: string)
    ensures LexCompare(b, a) == -LexCompare(a, b)
  {
    if |a| == 0 || |b| == 0 {
    } else if a[0] != b[0] {
    } else {
      LexCompareAntisymmetric(a[1..], b[1..]);
    }
  }

  lemma {:induction false} LexCompareTransitive(a: string, b: string, c: string)
    requires LexCompare(a, b) < 0 && LexCompare(b, c) < 0
    ensures LexCompare(a, c) < 0
  {
    if |a| == 0 || |b| == 0 || |c| == 0 {
    } else if a[0] == b[0] && b[0] == c[0] {
      LexCompareTransitive(a[1..], b[1..], c[1..]);
    }
  }

  /** Dropping an equal first character preserves `LexBefore` both ways. */
  lemma LexBeforeTail(a: string, b: string)
    requires |a| > 0 && |b| > 0 && a[0] == b[0]
    ensures LexBefore(a, b) <==> LexBefore(a[1..], b[1..])
  {
    ProperPrefixTail(a, b);
    if exists k :: 0 <= k < |a| && k < |b| && a[..k] == b[..k] && a[k] < b[k] {
      FirstDifferenceToTail(a, b);
    }
    if exists k :: 0 <= k < |a| - 1 && k < |b| - 1 && a[1..][..k] == b[1..][..k] && a[1..][k] < b[1..][k] {
      FirstDifferenceFromTail(a, b);
    }
  }

  lemma ProperPrefixTail(a: string, b: string)
    requires |a| > 0 && |b| > 0 && a[0] == b[0]
    ensures (|a| < |b| && a == b[..|a|]) <==> (|a| - 1 < |b| - 1 && a[1..] == b[1..][..|a| - 1])
  {
    assert a == [a[0]] + a[1..];
    if |a| <= |b| {
      assert b[..|a|] == [b[0]] + b[1..][..|a| - 1];
    }
  }

  lemma FirstDifferenceToTail(a: string, b: string)
    requires |a| > 0 && |b| > 0 && a[0] == b[0]
    requires exists k :: 0 <= k < |a| && k < |b| && a[..k] == b[..k] && a[k] < b[k]
    ensures exists k :: 0 <= k < |a| - 1 && k < |b| - 1 && a[1..][..k] == b[1..][..k] && a[1..][k] < b[1..][k]
  {
    var k :| 0 <= k < |a| && k < |b| && a[..k] == b[..k] && a[k] < b[k];
    assert k != 0;
    assert a[1..][..k - 1] == a[1..k] == b[1..k] == b[1..][..k - 1];
    assert a[1..][k - 1] < b[1..][k - 1];
  }

  lemma FirstDifferenceFromTail(a: string, b: string)
    requires |a| > 0 && |b| > 0 && a[0] == b[0]
    requires exists k :: 0 <= k < |a| - 1 && k < |b| - 1 && a[1..][..k] == b[1..][..k] && a[1..][k] < b[1..][k]
    ensures exists k :: 0 <= k < |a| && k < |b| && a[..k] == b[..k] && a[k] < b[k]
  {
    var k :| 0 <= k < |a| - 1 && k < |b| - 1 && a[1..][..k] == b[1..][..k] && a[1..][k] < b[1..][k];
    assert a[..k + 1] == [a[0]] + a[1..][..k];
    assert b[..k + 1] == [b[0]] + b[1..][..k];
    assert a[k + 1] < b[k + 1];
  }

  /** `LexCompare` is negative exactly when its first argument comes first. */
  lemma {:induction false} LexCompareNegativeIffBefore(a: string, b: string)
    ensures LexCompare(a, b) < 0 <==> LexBefore(a, b)
  {
    if |a| == 0 {
      assert a == b[..0];
    } else if |b| == 0 {
    } else if a[0] != b[0] {
      if a[0] < b[0] {
        assert a[..0] == b[..0];
      } else {
      }
    } else {
      LexCompareNegativeIffBefore(a[1..], b[1..]);
      LexBeforeTail(a, b);
    }
  }

  /** `compareTo(other, criteria)`: positive when `a` ranks above `other`. */
  function CompareTo(a: Task, other: Task, criteria: Option<CompareCriteria>): (r: int)
    ensures Equals(a, other) ==> r == 0
    ensures criteria == None ==> r == 0
    ensures criteria == Some(Time) ==> r == a.time - other.time
    ensures criteria == Some(Level) ==> r == Ordinal(a.priorityLevel) - Ordinal(other.priorityLevel)
  {
    match criteria
    case Some(Time) =>
      if Equals(a, other) then 0 else a.time - other.time
    case Some(Title) =>
      if Equals(a, other) then 0 else LexCompare(a.title, other.title) * -1
    case Some(Level) =>
      if Equals(a, other) then 0 else Ordinal(a.priorityLevel) - Ordinal(other.priorityLevel)
    case None => 0
  }

  /** Under TITLE a task ranks higher exactly when its title comes first, and
      two tasks tie exactly when their titles are equal. */
  lemma CompareTitleOrder(a: Task, b: Task)
    ensures CompareTo(a, b, Some(Title)) > 0 <==> LexBefore(a.title, b.title)
    ensures CompareTo(a, b, Some(Title)) == 0 <==> a.title == b.title
  {
    LexCompareNegativeIffBefore(a.title, b.title);
    LexCompareZero(a.title, b.title);
  }

  lemma CompareAntisymmetric(a: Task, b: Task, criteria: Option<CompareCriteria>)
    ensures CompareTo(b, a, criteria) == -CompareTo(a, b, criteria)
  {
    LexCompareAntisymmetric(a.title, b.title);
  }

  lemma CompareStrictTransitive(a: Task, b: Task, c: Task, criteria: Option<CompareCriteria>)
    requires CompareTo(a, b, criteria) > 0 && CompareTo(b, c, criteria) > 0
    ensures CompareTo(a, c, criteria) > 0
  {
    if criteria == Some(Title) {
      LexCompareTransitive(a.title, b.title, c.title);
      LexCompareZero(a.title, c.title);
    }
  }

  /** "Ranks at least as high" is transitive: with antisymmetry, each criterion
      is a total preorder. */
  lemma CompareWeakTransitive(a: Task, b: Task, c: Task, criteria: Option<CompareCriteria>)
    requires CompareTo(a, b, criteria) >= 0 && CompareTo(b, c, criteria) >= 0
    ensures CompareTo(a, c, criteria) >= 0
  {
    if criteria == Some(Title) {
      LexCompareZero(a.title, b.title);
      LexCompareZero(b.title, c.title);
      LexCompareZero(a.title, c.title);
      assert LexCompare(a.title, b.title) <= 0;
      assert LexCompare(b.title, c.title) <= 0;
      if LexCompare(a.title, b.title) < 0 && LexCompare(b.title, c.title) < 0 {
        LexCompareTransitive(a.title, b.title, c.title);
      }
    }
  }
}
