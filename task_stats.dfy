/** The counters shown above the list (client/src/components/TaskStats.tsx). */
module TaskStats {
  import opened TaskSchema

  /** `tasks.filter(task => task.completed)`: the completed tasks, in list order. */
  function CompletedTasks(tasks: seq<Task>): (r: seq<Task>)
    ensures |r| <= |tasks|
    ensures forall t :: t in r <==> t in tasks && t.completed
  {
    if tasks == [] then []
    else if tasks[0].completed then [tasks[0]] + CompletedTasks(tasks[1..])
    else CompletedTasks(tasks[1..])
  }

  /** `Math.round((completed / total) * 100)` as integer round-half-up; 0 for an empty list. */
  function CompletionPercentage(completed: nat, total: nat): (p: int)
    ensures total == 0 ==> p == 0
    ensures completed <= total ==> 0 <= p <= 100
    ensures 0 < total && completed == total ==> p == 100
    ensures completed == 0 ==> p == 0
  {
    if total > 0 then
      PercentBounds(completed, total);
      (200 * completed + total) / (2 * total)
    else 0
  }

  /** For a non-empty list, the percentage is within one half of `100 * completed / total`. */
  lemma PercentageIsNearest(completed: nat, total: nat)
    requires total > 0
    ensures var p := CompletionPercentage(completed, total);
      2 * total * p <= 200 * completed + total < 2 * total * (p + 1)
  {
    var p := CompletionPercentage(completed, total);
    var n := 200 * completed + total;
    assert n == (2 * total) * (n / (2 * total)) + n % (2 * total);
  }

  /** Multiplying by a non-negative `d` is monotone, in steps of `d`. */
  lemma MulStep(d: int, a: int, b: int)
    requires d >= 0 && a < b
    ensures d * a + d <= d * b
    decreases b - a
  {
    assert d * b == d * (b - 1) + d;
    if a < b - 1 {
      MulStep(d, a, b - 1);
    }
  }

  /** `n / d` is the `q` that brackets `n` between `d * q` and `d * q + d`. */
  lemma DivisionBracket(n: int, d: int, q: int)
    requires d > 0 && d * q <= n < d * q + d
    ensures n / d == q
  {
    var r := n / d;
    assert n == d * r + n % d && 0 <= n % d < d;
    if r < q {
      MulStep(d, r, q);
    } else if r > q {
      MulStep(d, q, r);
    }
  }

  lemma PercentBounds(completed: nat, total: nat)
    requires total > 0
    ensures var p := (200 * completed + total) / (2 * total);
      && p >= 0
      && (completed <= total ==> p <= 100)
      && (completed == total ==> p == 100)
      && (completed == 0 ==> p == 0)
  {
    var d := 2 * total;
    var n := 200 * completed + total;
    var p := n / d;
    assert n == d * p + n % d && 0 <= n % d < d;
    if completed <= total {
      assert n <= 201 * total;
    }
    if completed == total {
      DivisionBracket(n, d, 100);
    }
    if completed == 0 {
      DivisionBracket(n, d, 0);
    }
  }

  datatype Summary = Summary(total: nat, completed: nat, remaining: int, percentage: int)

  /** The four counters of the stats bar. */
  function Summarize(tasks: seq<Task>): (s: Summary)
    ensures s.total == |tasks|
    ensures s.completed == |CompletedTasks(tasks)|
    ensures s.percentage == CompletionPercentage(s.completed, s.total)
    ensures s.completed <= s.total
    ensures s.remaining >= 0 && s.completed + s.remaining == s.total
    ensures 0 <= s.percentage <= 100
    ensures s.total == 0 ==> s.percentage == 0
  {
    var completed := |CompletedTasks(tasks)|;
    var total := |tasks|;
    Summary(total, completed, total - completed, CompletionPercentage(completed, total))
  }

  /** The percentage badge is rendered only for a non-empty list. */
  function ShowsPercentageBadge(tasks: seq<Task>): (shown: bool)
    ensures shown <==> tasks != []
  {
    Summarize(tasks).total > 0
  }

  /** When every task is completed, the filter keeps the whole list. */
  lemma {:induction false} AllCompletedKept(tasks: seq<Task>)
    requires forall t :: t in tasks ==> t.completed
    ensures CompletedTasks(tasks) == tasks
  {
    if tasks != [] {
      AllCompletedKept(tasks[1..]);
    }
  }

  /** All tasks completed: nothing remains and a non-empty list shows 100%. */
  lemma AllCompletedIsHundred(tasks: seq<Task>)
    requires tasks != [] && forall t :: t in tasks ==> t.completed
    ensures Summarize(tasks).percentage == 100 && Summarize(tasks).remaining == 0
  {
    AllCompletedKept(tasks);
  }

  /** No task completed: everything remains and the percentage is 0. */
  lemma NoneCompletedIsZero(tasks: seq<Task>)
    requires forall t :: t in tasks ==> !t.completed
    ensures Summarize(tasks).completed == 0 && Summarize(tasks).percentage == 0
    ensures Summarize(tasks).remaining == |tasks|
  {
    NoneCompletedDropped(tasks);
  }

  /** When no task is completed, the filter keeps nothing. */
  lemma {:induction false} NoneCompletedDropped(tasks: seq<Task>)
    requires forall t :: t in tasks ==> !t.completed
    ensures CompletedTasks(tasks) == []
  {
    if tasks != [] {
      NoneCompletedDropped(tasks[1..]);
    }
  }

  /** Counting completed tasks distributes over concatenation. */
  lemma {:induction false} CompletedTasksAppend(a: seq<Task>, b: seq<Task>)
    ensures CompletedTasks(a + b) == CompletedTasks(a) + CompletedTasks(b)
  {
    if a != [] {
      assert (a + b)[0] == a[0] && (a + b)[1..] == a[1..] + b;
      CompletedTasksAppend(a[1..], b);
    } else {
      assert a + b == b;
    }
  }
}
