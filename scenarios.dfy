/**
 * Worked examples of the store and the view pipeline on concrete data, as
 * the views use them.
 */
module Scenarios {
  import opened Types
  import opened Lists
  import opened Helpers
  import opened Store

  /** A searched term occurs only in a text that contains each of its characters. */
  lemma IncludesNeedsChars(text: string, term: string)
    requires Includes(text, term)
    ensures forall k :: 0 <= k < |term| ==> term[k] in text
  {
    IncludesIffOccurs(text, term);
    var i :| OccursAt(text, term, i);
    forall k | 0 <= k < |term|
      ensures term[k] in text
    {
      assert text[i..i + |term|][k] == text[i + k];
    }
  }

  /**
   * Searching for "run" among a task titled "Morning run" and one titled
   * "Grocery shopping" keeps only the first: the match ignores case and
   * looks for the term anywhere in the title.
   */
  lemma SearchScenario(run: Task, shopping: Task)
    requires run.title == "Morning run" && run.description == ""
    requires shopping.title == "Grocery shopping" && shopping.description == ""
    ensures Selected(TaskFilter(AnyStatus, None, AnyPriority, "run"), [run, shopping]) == [run]
  {
    var filter := TaskFilter(AnyStatus, None, AnyPriority, "run");
    RunFound(run);
    ShoppingMissed(shopping);
    assert Matching(filter)(run) && !Matching(filter)(shopping);
    assert [run, shopping][1..] == [shopping];
    assert Filter(Matching(filter), [shopping]) == [];
  }

  lemma RunFound(run: Task)
    requires run.title == "Morning run"
    ensures Mentions("run", run)
  {
    assert Lower("run") == "run";
    var lowered := Lower(run.title);
    assert lowered[8..11] == "run";
    assert OccursAt(lowered, "run", 8);
    IncludesIffOccurs(lowered, "run");
  }

  lemma ShoppingMissed(shopping: Task)
    requires shopping.title == "Grocery shopping" && shopping.description == ""
    ensures !Mentions("run", shopping)
  {
    assert Lower("run") == "run";
    var lowered := Lower(shopping.title);
    assert 'u' !in lowered by {
      forall k | 0 <= k < |lowered|
        ensures lowered[k] != 'u'
      {
        assert lowered[k] == LowerChar(shopping.title[k]);
      }
    }
    if Includes(lowered, "run") {
      IncludesNeedsChars(lowered, "run");
    }
  }

  /** By priority, three tasks of the three levels come out high, medium, low. */
  lemma SortByPriorityScenario(a: Task, b: Task, c: Task)
    requires a.priority == Low && b.priority == High && c.priority == Medium
    ensures SortBy(ByPriority, [a, b, c]) == [b, c, a]
  {
    SortThree(ByPriority, a, b, c);
    InsertIntoOne(ByPriority, b, a);
    InsertIntoTwo(ByPriority, c, b, a);
    InsertIntoOne(ByPriority, c, b);
  }

  /** By due date, A (due at 5), B (no due date), C (due at 1) come out C, A, B: the undated task last. */
  lemma SortByDueDateScenario(a: Task, b: Task, c: Task)
    requires a.dueDate == Some(5) && b.dueDate == None && c.dueDate == Some(1)
    ensures SortBy(ByDueDate, [a, b, c]) == [c, a, b]
  {
    SortThree(ByDueDate, a, b, c);
    InsertIntoOne(ByDueDate, b, a);
    InsertIntoTwo(ByDueDate, c, a, b);
    InsertIntoOne(ByDueDate, c, a);
  }

  /**
   * Tasks without a due date keep their input order under 'dueDate': undated
   * U1, dated D and undated U2 come out D, U1, U2.
   */
  lemma UndatedKeepOrderScenario(u1: Task, d: Task, u2: Task)
    requires u1.dueDate == None && d.dueDate.Some? && u2.dueDate == None
    ensures SortBy(ByDueDate, [u1, d, u2]) == [d, u1, u2]
  {
    SortThree(ByDueDate, u1, d, u2);
    InsertIntoOne(ByDueDate, d, u1);
    InsertIntoTwo(ByDueDate, u2, d, u1);
  }

  lemma InsertIntoOne(option: SortOption, x: Task, y: Task)
    ensures Insert(option, x, [y]) == if Compare(option, x, y) < 0 then [x, y] else [y, x]
  {
    assert [y][..0] == [];
  }

  lemma InsertIntoTwo(option: SortOption, x: Task, y: Task, z: Task)
    ensures Insert(option, x, [y, z]) == if Compare(option, x, z) < 0 then Insert(option, x, [y]) + [z] else [y, z, x]
  {
    assert [y, z][..1] == [y];
  }

  /** Sorting three tasks is inserting the second and then the third. */
  lemma SortThree(option: SortOption, a: Task, b: Task, c: Task)
    ensures SortBy(option, [a, b, c]) == Insert(option, c, Insert(option, b, [a]))
  {
    var s1 := [a];
    var s2 := s1 + [b];
    var s3 := s2 + [c];
    assert s3 == [a, b, c];
    assert [] + [a] == s1;
    SortBySnoc(option, [], a);
    SortBySnoc(option, s1, b);
    SortBySnoc(option, s2, c);
  }

  /**
   * Two filter updates that give different fields both survive: searching
   * for "x" and then showing active tasks leaves both in force.
   */
  lemma MergeScenario(prev: TaskFilter)
    ensures var f := MergeFilter(MergeFilter(prev, FilterPatch(None, None, None, Some("x"))),
                                 FilterPatch(Some(Active), None, None, None));
            f.search == "x" && f.status == Active && f.projectId == prev.projectId && f.priority == prev.priority
  {
  }

  /**
   * Choosing a project in the sidebar shows all of its tasks whatever their
   * status, and keeps the chosen priority and search text.
   */
  lemma SidebarScenario(prev: TaskFilter, projectId: string)
    ensures var f := MergeFilter(prev, FilterPatch(Some(AnyStatus), Some(Some(projectId)), None, None));
            f == TaskFilter(AnyStatus, Some(projectId), prev.priority, prev.search)
  {
  }

  /**
   * Ticking a task's checkbox flips its completion and changes nothing
   * else in it; the other tasks stay as they were.
   */
  lemma ToggleCompletedScenario(tasks: seq<Task>, i: int)
    requires 0 <= i < |tasks| && DistinctTaskIds(tasks)
    ensures var u := TaskPatch(None, None, None, Some(!tasks[i].completed), None, None, None, None, None);
            var r := UpdateTasks(tasks, tasks[i].id, u);
            |r| == |tasks| &&
            r[i] == tasks[i].(completed := !tasks[i].completed) &&
            forall k :: 0 <= k < |tasks| && k != i ==> r[k] == tasks[k]
  {
    var u := TaskPatch(None, None, None, Some(!tasks[i].completed), None, None, None, None, None);
    UpdateTasksSpec(tasks, tasks[i].id, u);
  }

  /** A fresh store shows the three sample tasks in their due-date order: t2 (due now), t3 (tomorrow), t1. */
  lemma DefaultViewScenario(now: int)
    ensures SortBy(ByDueDate, Selected(DefaultFilter, DefaultTasks(now)))
         == [DefaultTasks(now)[1], DefaultTasks(now)[2], DefaultTasks(now)[0]]
  {
    var ts := DefaultTasks(now);
    DefaultFilterKeepsAll(ts);
    var t1, t2, t3 := ts[0], ts[1], ts[2];
    assert ts == [t1, t2, t3];
    SortThree(ByDueDate, t1, t2, t3);
    InsertIntoOne(ByDueDate, t2, t1);
    InsertIntoTwo(ByDueDate, t3, t2, t1);
    InsertIntoOne(ByDueDate, t3, t2);
  }
}
