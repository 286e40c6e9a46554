/**
 * The figures the dashboard derives from the store: the number of tasks and
 * of completed tasks, the completion rate in whole percent, the number of
 * tasks per priority and, for each project, its number of tasks and of
 * completed tasks.
 */
module Dashboard {
  import opened Types
  import opened Lists
  import opened Helpers
  import opened Store

  /** The number of completed tasks. */
  function CompletedCount(tasks: seq<Task>): (n: nat)
    ensures n <= |tasks|
    ensures n == 0 <==> forall t :: t in tasks ==> !t.completed
  {
    var done := Filter(IsDone, tasks);
    assert |done| > 0 ==> done[0] in done;
    Count(IsDone, tasks)
  }

  /** The number of tasks. */
  function TotalCount(tasks: seq<Task>): (n: nat)
    ensures n >= CompletedCount(tasks)
  {
    |tasks|
  }

  /**
   * `Math.round(completed / total * 100)`, or 0 without tasks, rounded from
   * the exact share: the completed share in whole percent, halves rounded up.
   */
  function CompletionRate(tasks: seq<Task>): (r: int)
    ensures r >= 0
    ensures |tasks| == 0 ==> r == 0
  {
    var c, t := CompletedCount(tasks), TotalCount(tasks);
    if t > 0 then (200 * c + t) / (2 * t) else 0
  }

  /** The completed tasks are some of the tasks; with the open ones they make up all of them. */
  lemma CountsAddUp(tasks: seq<Task>)
    ensures CompletedCount(tasks) <= TotalCount(tasks)
    ensures CompletedCount(tasks) + Count(IsOpen, tasks) == TotalCount(tasks)
  {
    CountComplement(IsDone, tasks);
    FilterAgree(Not(IsDone), IsOpen, tasks);
  }

  /**
   * With tasks present, the rate is the whole percentage nearest to the
   * completed share `c / t`, halves rounded up:
   * `rate - 1/2 <= 100 c / t < rate + 1/2`. So it lies between 0 and 100; it
   * is 100 exactly when at least 99.5% of the tasks are completed (in
   * particular when all are) and 0 exactly when fewer than 0.5% are (or there
   * are no tasks).
   */
  lemma CompletionRateNearest(tasks: seq<Task>)
    ensures 0 <= CompletionRate(tasks) <= 100
    ensures |tasks| > 0 ==>
              2 * |tasks| * CompletionRate(tasks) - |tasks| <= 200 * CompletedCount(tasks)
                                                           < 2 * |tasks| * CompletionRate(tasks) + |tasks|
    ensures CompletionRate(tasks) == 100 <==> |tasks| > 0 && 200 * CompletedCount(tasks) >= 199 * |tasks|
    ensures CompletionRate(tasks) == 0 <==> 200 * CompletedCount(tasks) < |tasks| || |tasks| == 0
    ensures |tasks| > 0 && CompletedCount(tasks) == |tasks| ==> CompletionRate(tasks) == 100
  {
    CountsAddUp(tasks);
    if |tasks| > 0 {
      RoundedShare(CompletedCount(tasks), |tasks|);
    }
  }

  /** The arithmetic behind `CompletionRateNearest`: `(200 c + t) / (2 t)` rounds `100 c / t` to the nearest whole number. */
  lemma RoundedShare(c: int, t: int)
    requires 0 <= c <= t && t > 0
    ensures var r := (200 * c + t) / (2 * t);
      0 <= r <= 100 &&
      2 * t * r - t <= 200 * c < 2 * t * r + t &&
      (r == 100 <==> 200 * c >= 199 * t) &&
      (r == 0 <==> 200 * c < t)
  {
    DivBounds(200 * c + t, 2 * t);
    ShareRange(c, t, (200 * c + t) / (2 * t));
    ShareFull(c, t, (200 * c + t) / (2 * t));
    ShareNone(c, t, (200 * c + t) / (2 * t));
  }

  lemma ShareRange(c: int, t: int, r: int)
    requires 0 <= c <= t && t > 0
    requires 2 * t * r <= 200 * c + t < 2 * t * r + 2 * t
    ensures 0 <= r <= 100
  {
    MulCancelLess(2 * t, 0, r + 1);
    MulCancelLess(2 * t, r, 101);
  }

  lemma ShareFull(c: int, t: int, r: int)
    requires 0 <= c <= t && t > 0 && 0 <= r <= 100
    requires 2 * t * r <= 200 * c + t < 2 * t * r + 2 * t
    ensures r == 100 <==> 200 * c >= 199 * t
  {
    if 200 * c >= 199 * t {
      ShareAtLeast(t, r, 99);
    }
  }

  lemma ShareNone(c: int, t: int, r: int)
    requires 0 <= c <= t && t > 0 && 0 <= r <= 100
    requires 2 * t * r <= 200 * c + t < 2 * t * r + 2 * t
    ensures r == 0 <==> 200 * c < t
  {
    if 200 * c >= t {
      ShareAtLeast(t, r, 0);
    } else if r > 0 {
      MulMonotone(2 * t, 1, r);
    }
  }

  /** The rate exceeds `k` once the doubled share is past `2 k + 1`. */
  lemma ShareAtLeast(t: int, r: int, k: int)
    requires t > 0
    requires 2 * t * k + t <= 2 * t * r + 2 * t - 1
    ensures k < r + 1
  {
    assert 2 * t * k < 2 * t * (r + 1) by {
      assert 2 * t * (r + 1) == 2 * t * r + 2 * t;
    }
    MulCancelLess(2 * t, k, r + 1);
  }

  /** Euclidean division by a positive divisor. */
  lemma DivBounds(n: int, d: int)
    requires d > 0
    ensures d * (n / d) <= n < d * (n / d) + d
  {
  }

  /** A positive factor can be cancelled from a strict inequality. */
  lemma MulCancelLess(d: int, a: int, b: int)
    requires d > 0 && d * a < d * b
    ensures a < b
  {
    if a >= b {
      MulMonotone(d, b, a);
    }
  }

  lemma MulMonotone(d: int, a: int, b: int)
    requires d >= 0 && a <= b
    ensures d * a <= d * b
  {
    assert d * b - d * a == d * (b - a);
  }

  /**
   * Completing one more task, or adding a completed one, never lowers the
   * rate: with `c <= t` completed of `t` tasks, `c / t <= (c + 1) / (t + 1)`.
   */
  lemma CompletionRateGrows(tasks: seq<Task>, done: Task)
    requires done.completed
    ensures CompletionRate(tasks) <= CompletionRate(tasks + [done])
  {
    var c, t := CompletedCount(tasks), |tasks|;
    CountsAddUp(tasks);
    CountAppend(IsDone, tasks, [done]);
    assert CompletedCount(tasks + [done]) == c + 1 by {
      assert Filter(IsDone, [done]) == [done] + Filter(IsDone, []);
    }
    CompletionRateNearest(tasks + [done]);
    if t > 0 {
      CompletionRateNearest(tasks);
      RateGrows(c, t, CompletionRate(tasks), CompletionRate(tasks + [done]));
    }
  }

  /** The arithmetic behind `CompletionRateGrows`. */
  lemma RateGrows(c: int, t: int, r: int, r': int)
    requires 0 <= c <= t && t > 0
    requires 2 * t * r - t <= 200 * c
    requires 200 * (c + 1) < 2 * (t + 1) * r' + (t + 1)
    ensures r <= r'
  {
    if r' < r {
      var a := 200 * c + t;
      var b := a + 201;
      MulMonotone(2 * (t + 1), r' + 1, r);
      assert b < 2 * (t + 1) * r;
      MulMonotone(t + 1, 2 * t * r, a);
      assert t * b < t * (2 * (t + 1) * r) by {
        MulCancelLessConverse(t, b, 2 * (t + 1) * r);
      }
      assert false;
    }
  }

  lemma MulCancelLessConverse(d: int, a: int, b: int)
    requires d > 0 && a < b
    ensures d * a < d * b
  {
    assert d * b - d * a == d * (b - a);
  }

  /** One slice of the priority chart. */
  datatype Slice = Slice(name: string, value: nat)

  /** The priority chart: the number of tasks at each level, high first. */
  function TasksByPriority(tasks: seq<Task>): (slices: seq<Slice>)
    ensures |slices| == 3
  {
    [
      Slice("High", Count(AtLevel(High), tasks)),
      Slice("Medium", Count(AtLevel(Medium), tasks)),
      Slice("Low", Count(AtLevel(Low), tasks))
    ]
  }

  /**
   * The chart has one slice per level, labelled as the task badges label the
   * level, and every task falls in exactly one slice.
   */
  lemma TasksByPriorityPartition(tasks: seq<Task>)
    ensures forall i :: 0 <= i < 3 ==>
              TasksByPriority(tasks)[i].name == GetPriorityLabel([High, Medium, Low][i].Name())
    ensures TasksByPriority(tasks)[0].value + TasksByPriority(tasks)[1].value + TasksByPriority(tasks)[2].value
         == |tasks|
  {
    CountPartition3(AtLevel(High), AtLevel(Medium), AtLevel(Low), tasks);
  }

  /** One bar of the project chart. */
  datatype Progress = Progress(name: string, total: nat, completed: nat)

  function InProjectAndDone(projectId: string): Task -> bool {
    Both(InProject(projectId), IsDone)
  }

  /** The project chart: for each project, in order, its name, its tasks and its completed tasks. */
  function TasksByProject(tasks: seq<Task>, projects: seq<Project>): (bars: seq<Progress>)
    ensures |bars| == |projects|
    ensures forall i :: 0 <= i < |projects| ==>
              bars[i] == Progress(projects[i].name, Count(InProject(projects[i].id), tasks),
                                  Count(InProjectAndDone(projects[i].id), tasks))
  {
    if projects == [] then []
    else
      var p := projects[0];
      [Progress(p.name, Count(InProject(p.id), tasks), Count(InProjectAndDone(p.id), tasks))]
        + TasksByProject(tasks, projects[1..])
  }

  /** The sum of the totals of a list of bars. */
  function SumTotals(bars: seq<Progress>): nat {
    if bars == [] then 0 else bars[0].total + SumTotals(bars[1..])
  }

  /** How many of the projects carry the identifier. */
  function Occurrences(projects: seq<Project>, id: string): nat {
    Count(ProjectWithId(id), projects)
  }

  /**
   * No bar counts more completed tasks than tasks, and when the project
   * identifiers are distinct and every task is filed under a listed project,
   * the bars' totals add up to the number of tasks: each task is counted in
   * exactly one bar.
   */
  lemma TasksByProjectCounts(tasks: seq<Task>, projects: seq<Project>)
    ensures forall i :: 0 <= i < |projects| ==>
              TasksByProject(tasks, projects)[i].completed <= TasksByProject(tasks, projects)[i].total
    ensures DistinctProjectIds(projects) && TasksReferToProjects(tasks, projects) ==>
              SumTotals(TasksByProject(tasks, projects)) == |tasks|
  {
    forall i | 0 <= i < |projects|
      ensures Count(InProjectAndDone(projects[i].id), tasks) <= Count(InProject(projects[i].id), tasks)
    {
      CountMonotone(InProjectAndDone(projects[i].id), InProject(projects[i].id), tasks);
    }
    if DistinctProjectIds(projects) && TasksReferToProjects(tasks, projects) {
      SumTotalsByTask(tasks, projects);
      forall t | t in tasks
        ensures Occurrences(projects, t.projectId) == 1
      {
        assert t.projectId in ProjectIds(projects);
        OccursOnce(projects, t.projectId);
      }
      SumOfOnes(tasks, projects);
    }
  }

  /** Summing the per-project totals is summing, over the tasks, the number of projects each task is filed under. */
  lemma {:induction false} SumTotalsByTask(tasks: seq<Task>, projects: seq<Project>)
    ensures SumTotals(TasksByProject(tasks, projects)) == Hits(tasks, projects)
    decreases |tasks|
  {
    if tasks != [] {
      SumTotalsByTask(tasks[1..], projects);
      SplitFirstTask(tasks, projects);
    } else {
      NoTasksNoTotals(projects);
    }
  }

  /** For each task in turn, the number of projects it is filed under. */
  function Hits(tasks: seq<Task>, projects: seq<Project>): nat {
    if tasks == [] then 0 else Occurrences(projects, tasks[0].projectId) + Hits(tasks[1..], projects)
  }

  lemma {:induction false} NoTasksNoTotals(projects: seq<Project>)
    ensures SumTotals(TasksByProject([], projects)) == 0
  {
    if projects != [] {
      NoTasksNoTotals(projects[1..]);
    }
  }

  /** The first task adds one to the total of every project it is filed under. */
  lemma {:induction false} SplitFirstTask(tasks: seq<Task>, projects: seq<Project>)
    requires tasks != []
    ensures SumTotals(TasksByProject(tasks, projects))
         == Occurrences(projects, tasks[0].projectId) + SumTotals(TasksByProject(tasks[1..], projects))
  {
    if projects != [] {
      SplitFirstTask(tasks, projects[1..]);
      assert Count(InProject(projects[0].id), tasks)
          == (if tasks[0].projectId == projects[0].id then 1 else 0) + Count(InProject(projects[0].id), tasks[1..]);
    }
  }

  /** With distinct identifiers, a listed identifier occurs once. */
  lemma {:induction false} OccursOnce(projects: seq<Project>, id: string)
    requires DistinctProjectIds(projects)
    requires id in ProjectIds(projects)
    ensures Occurrences(projects, id) == 1
  {
    if projects[0].id == id {
      Absent(projects[1..], id);
    } else {
      var p :| p in projects && p.id == id;
      assert p in projects[1..];
      OccursOnce(projects[1..], id);
    }
  }

  lemma {:induction false} Absent(projects: seq<Project>, id: string)
    requires forall p :: p in projects ==> p.id != id
    ensures Occurrences(projects, id) == 0
  {
    if projects != [] {
      Absent(projects[1..], id);
    }
  }

  lemma {:induction false} SumOfOnes(tasks: seq<Task>, projects: seq<Project>)
    requires forall t :: t in tasks ==> Occurrences(projects, t.projectId) == 1
    ensures Hits(tasks, projects) == |tasks|
  {
    if tasks != [] {
      assert tasks[0] in tasks;
      SumOfOnes(tasks[1..], projects);
    }
  }
}
