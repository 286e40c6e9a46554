/**
 * The application store: the task and project lists, the users, the active
 * project, the task filter, the sort option and the colour theme, with the
 * operations the views call to change them.
 *
 * What the store reads from the outside world is passed in: the lists and
 * theme restored from local storage (absent when nothing was saved), the
 * user's dark-mode preference, the clock (`now`, in milliseconds) and the
 * identifier `generateId` would have produced.
 */
module Store {
  import opened Types
  import opened Lists
  import opened Helpers

  // ---------------------------------------------------------------------
  // Defaults
  // ---------------------------------------------------------------------

  const Day := 86400000

  const DefaultUsers: seq<User> := [
    User("1", "You", "https://i.pravatar.cc/150?img=1"),
    User("2", "Alex Johnson", "https://i.pravatar.cc/150?img=2"),
    User("3", "Sam Wilson", "https://i.pravatar.cc/150?img=3"),
    User("4", "Taylor Kim", "https://i.pravatar.cc/150?img=4")
  ]

  /** The projects a first visit starts with, created at `now`. */
  function DefaultProjects(now: int): (r: seq<Project>)
    ensures |r| == 3
    ensures forall p :: p in r ==> p.createdAt == now
  {
    [
      Project("p1", "Personal", "#3B82F6", now),
      Project("p2", "Work", "#F59E0B", now),
      Project("p3", "Health", "#10B981", now)
    ]
  }

  /** The tasks a first visit starts with, created at `now` and due within two days of it. */
  function DefaultTasks(now: int): (r: seq<Task>)
    ensures |r| == 3
    ensures forall t :: t in r ==>
              t.createdAt == now && t.dueDate.Some? && now <= t.dueDate.value <= now + 2 * Day
  {
    [
      Task("t1", "Finalize project proposal", "Review and submit the final version of the proposal.",
           false, "p2", High, Some(now + 2 * Day), Some("1"), now),
      Task("t2", "Morning run", "30 minute jog in the park",
           true, "p3", Medium, Some(now), Some("1"), now),
      Task("t3", "Grocery shopping", "Buy fruits, vegetables, and milk",
           false, "p1", Low, Some(now + Day), Some("1"), now)
    ]
  }

  /** The identifiers of a list of projects. */
  function ProjectIds(projects: seq<Project>): set<string> {
    set p | p in projects :: p.id
  }

  /** The identifiers of a list of users. */
  function UserIds(users: seq<User>): set<string> {
    set u | u in users :: u.id
  }

  /** Every task belongs to a listed project. */
  predicate TasksReferToProjects(tasks: seq<Task>, projects: seq<Project>) {
    forall t :: t in tasks ==> t.projectId in ProjectIds(projects)
  }

  /** Every assigned task is assigned to a listed user. */
  predicate TasksReferToUsers(tasks: seq<Task>, users: seq<User>) {
    forall t :: t in tasks && t.assignedTo.Some? ==> t.assignedTo.value in UserIds(users)
  }

  /** No two elements of the list share an identifier. */
  predicate DistinctTaskIds(tasks: seq<Task>) {
    forall i, j :: 0 <= i < j < |tasks| ==> tasks[i].id != tasks[j].id
  }

  predicate DistinctProjectIds(projects: seq<Project>) {
    forall i, j :: 0 <= i < j < |projects| ==> projects[i].id != projects[j].id
  }

  /**
   * The sample data hangs together: identifiers are distinct, and every task
   * belongs to one of the sample projects and is assigned to one of the users.
   */
  lemma DefaultsConsistent(now: int)
    ensures |DefaultUsers| == 4 && |DefaultProjects(now)| == 3 && |DefaultTasks(now)| == 3
    ensures DistinctTaskIds(DefaultTasks(now)) && DistinctProjectIds(DefaultProjects(now))
    ensures TasksReferToProjects(DefaultTasks(now), DefaultProjects(now))
    ensures TasksReferToUsers(DefaultTasks(now), DefaultUsers)
  {
    var ps, ts := DefaultProjects(now), DefaultTasks(now);
    assert ps[0] in ps && ps[1] in ps && ps[2] in ps;
    assert DefaultUsers[0] in DefaultUsers;
    assert ts[0].id[1] != ts[1].id[1] && ts[0].id[1] != ts[2].id[1] && ts[1].id[1] != ts[2].id[1];
    assert ps[0].id[1] != ps[1].id[1] && ps[0].id[1] != ps[2].id[1] && ps[1].id[1] != ps[2].id[1];
  }

  /** One sample task of three is completed, and each priority level occurs once. */
  lemma DefaultCounts(now: int)
    ensures Count(IsDone, DefaultTasks(now)) == 1
    ensures forall level :: Count(AtLevel(level), DefaultTasks(now)) == 1
  {
    var ts := DefaultTasks(now);
    assert ts[1..] == [ts[1], ts[2]] && ts[2..] == [ts[2]] && ts[3..] == [];
    assert Filter(IsDone, ts[1..]) == [ts[1]];
    forall level: Priority
      ensures Count(AtLevel(level), ts) == 1
    {
      var p := AtLevel(level);
      assert Filter(p, ts[2..]) == if level == Low then [ts[2]] else [];
      assert Filter(p, ts[1..]) == if level == Medium then [ts[1]] + Filter(p, ts[2..]) else Filter(p, ts[2..]);
    }
  }

  /** The filter with no restriction: status 'all', no project, priority 'all', empty search. */
  const DefaultFilter := TaskFilter(AnyStatus, None, AnyPriority, "")

  /** The default filter lets every task through, in order. */
  lemma DefaultFilterKeepsAll(tasks: seq<Task>)
    ensures Selected(DefaultFilter, tasks) == tasks
  {
    FilterKeepsAll(Matching(DefaultFilter), tasks);
  }

  // ---------------------------------------------------------------------
  // Creating tasks and projects
  // ---------------------------------------------------------------------

  /** What the caller of `addTask` supplies: a task without its identifier and creation time. */
  datatype TaskDraft = TaskDraft(
    title: string,
    description: string,
    completed: bool,
    projectId: string,
    priority: Priority,
    dueDate: Option<int>,
    assignedTo: Option<string>
  )

  /** What the caller of `addProject` supplies: a project without its identifier and creation time. */
  datatype ProjectDraft = ProjectDraft(name: string, color: string)

  /** The task `addTask` appends: the draft's fields, the fresh identifier and the current time. */
  function NewTask(draft: TaskDraft, id: string, now: int): Task {
    Task(id, draft.title, draft.description, draft.completed, draft.projectId,
         draft.priority, draft.dueDate, draft.assignedTo, now)
  }

  /** The fields of a task that a caller chooses. */
  function TaskDraftOf(t: Task): TaskDraft {
    TaskDraft(t.title, t.description, t.completed, t.projectId, t.priority, t.dueDate, t.assignedTo)
  }

  function NewProject(draft: ProjectDraft, id: string, now: int): Project {
    Project(id, draft.name, draft.color, now)
  }

  function ProjectDraftOf(p: Project): ProjectDraft {
    ProjectDraft(p.name, p.color)
  }

  /**
   * A new task carries the draft unchanged together with the given identifier
   * and time, and every task is the new task made from its own draft,
   * identifier and time.
   */
  lemma NewTaskRoundTrip(draft: TaskDraft, id: string, now: int, t: Task)
    ensures TaskDraftOf(NewTask(draft, id, now)) == draft
    ensures NewTask(draft, id, now).id == id && NewTask(draft, id, now).createdAt == now
    ensures NewTask(TaskDraftOf(t), t.id, t.createdAt) == t
  {
  }

  lemma NewProjectRoundTrip(draft: ProjectDraft, id: string, now: int, p: Project)
    ensures ProjectDraftOf(NewProject(draft, id, now)) == draft
    ensures NewProject(draft, id, now).id == id && NewProject(draft, id, now).createdAt == now
    ensures NewProject(ProjectDraftOf(p), p.id, p.createdAt) == p
  {
  }

  // ---------------------------------------------------------------------
  // Partial updates: `{ ...record, ...updates }`
  // ---------------------------------------------------------------------

  /**
   * `Partial<Task>`: each field is either left out (`None`) or given a new
   * value. A due date or assignee may be given the value `null`, hence the
   * nested options.
   */
  datatype TaskPatch = TaskPatch(
    id: Option<string>,
    title: Option<string>,
    description: Option<string>,
    completed: Option<bool>,
    projectId: Option<string>,
    priority: Option<Priority>,
    dueDate: Option<Option<int>>,
    assignedTo: Option<Option<string>>,
    createdAt: Option<int>
  )

  const NoTaskChanges := TaskPatch(None, None, None, None, None, None, None, None, None)

  /** `{ ...t, ...u }`: the fields `u` gives win, the others come from `t`. */
  function PatchTask(t: Task, u: TaskPatch): (r: Task)
    ensures u == NoTaskChanges ==> r == t
    ensures u.id.None? ==> r.id == t.id
    ensures u.projectId.None? ==> r.projectId == t.projectId
  {
    Task(u.id.GetOr(t.id), u.title.GetOr(t.title), u.description.GetOr(t.description),
         u.completed.GetOr(t.completed), u.projectId.GetOr(t.projectId),
         u.priority.GetOr(t.priority), u.dueDate.GetOr(t.dueDate),
         u.assignedTo.GetOr(t.assignedTo), u.createdAt.GetOr(t.createdAt))
  }

  /** `{ ...u, ...v }` on two patches. */
  function ThenPatch(u: TaskPatch, v: TaskPatch): TaskPatch {
    TaskPatch(Later(u.id, v.id), Later(u.title, v.title), Later(u.description, v.description),
              Later(u.completed, v.completed), Later(u.projectId, v.projectId),
              Later(u.priority, v.priority), Later(u.dueDate, v.dueDate),
              Later(u.assignedTo, v.assignedTo), Later(u.createdAt, v.createdAt))
  }

  /** The value of a field after two spreads: the later one wins when it gives the field. */
  function Later<T>(first: Option<T>, second: Option<T>): Option<T> {
    if second.Some? then second else first
  }

  /** The patch that gives every field of `t`. */
  function WholeTask(t: Task): TaskPatch {
    TaskPatch(Some(t.id), Some(t.title), Some(t.description), Some(t.completed),
              Some(t.projectId), Some(t.priority), Some(t.dueDate), Some(t.assignedTo),
              Some(t.createdAt))
  }

  /**
   * The spread laws for tasks: the empty patch changes nothing, a patch
   * applied twice acts once, two patches in a row act as their merge, and a
   * patch giving every field replaces the task outright.
   */
  lemma PatchTaskLaws(t: Task, u: TaskPatch, v: TaskPatch, w: Task)
    ensures PatchTask(t, NoTaskChanges) == t
    ensures PatchTask(PatchTask(t, u), u) == PatchTask(t, u)
    ensures PatchTask(PatchTask(t, u), v) == PatchTask(t, ThenPatch(u, v))
    ensures PatchTask(t, WholeTask(w)) == w
  {
  }

  /** Each field of a patched task is the patch's value when the patch gives one, else the task's own. */
  lemma PatchTaskFields(t: Task, u: TaskPatch)
    ensures var r := PatchTask(t, u);
      (u.id.Some? ==> r.id == u.id.value) && (u.id.None? ==> r.id == t.id) &&
      (u.title.Some? ==> r.title == u.title.value) && (u.title.None? ==> r.title == t.title) &&
      (u.description.Some? ==> r.description == u.description.value) &&
      (u.description.None? ==> r.description == t.description) &&
      (u.completed.Some? ==> r.completed == u.completed.value) && (u.completed.None? ==> r.completed == t.completed) &&
      (u.projectId.Some? ==> r.projectId == u.projectId.value) && (u.projectId.None? ==> r.projectId == t.projectId) &&
      (u.priority.Some? ==> r.priority == u.priority.value) && (u.priority.None? ==> r.priority == t.priority) &&
      (u.dueDate.Some? ==> r.dueDate == u.dueDate.value) && (u.dueDate.None? ==> r.dueDate == t.dueDate) &&
      (u.assignedTo.Some? ==> r.assignedTo == u.assignedTo.value) &&
      (u.assignedTo.None? ==> r.assignedTo == t.assignedTo) &&
      (u.createdAt.Some? ==> r.createdAt == u.createdAt.value) && (u.createdAt.None? ==> r.createdAt == t.createdAt)
  {
  }

  /** `Partial<Project>`. */
  datatype ProjectPatch = ProjectPatch(
    id: Option<string>,
    name: Option<string>,
    color: Option<string>,
    createdAt: Option<int>
  )

  const NoProjectChanges := ProjectPatch(None, None, None, None)

  /** `{ ...p, ...u }` for projects. */
  function PatchProject(p: Project, u: ProjectPatch): (r: Project)
    ensures u == NoProjectChanges ==> r == p
    ensures u.id.None? ==> r.id == p.id
  {
    Project(u.id.GetOr(p.id), u.name.GetOr(p.name), u.color.GetOr(p.color), u.createdAt.GetOr(p.createdAt))
  }

  /** The spread laws for projects. */
  lemma PatchProjectLaws(p: Project, u: ProjectPatch, v: ProjectPatch, w: Project)
    ensures PatchProject(p, NoProjectChanges) == p
    ensures PatchProject(PatchProject(p, u), u) == PatchProject(p, u)
    ensures PatchProject(PatchProject(p, u), v)
         == PatchProject(p, ProjectPatch(Later(u.id, v.id), Later(u.name, v.name),
                                         Later(u.color, v.color), Later(u.createdAt, v.createdAt)))
    ensures PatchProject(p, ProjectPatch(Some(w.id), Some(w.name), Some(w.color), Some(w.createdAt))) == w
  {
  }

  /** `Partial<TaskFilter>`; the project may be given the value `null`. */
  datatype FilterPatch = FilterPatch(
    status: Option<StatusFilter>,
    projectId: Option<Option<string>>,
    priority: Option<PriorityFilter>,
    search: Option<string>
  )

  const NoFilterChanges := FilterPatch(None, None, None, None)

  /** `setTaskFilter`: `{ ...prev, ...filter }`. */
  function MergeFilter(prev: TaskFilter, f: FilterPatch): (r: TaskFilter)
    ensures f == NoFilterChanges ==> r == prev
    ensures f.status.Some? ==> r.status == f.status.value
    ensures f.projectId.Some? ==> r.projectId == f.projectId.value
    ensures f.priority.Some? ==> r.priority == f.priority.value
    ensures f.search.Some? ==> r.search == f.search.value
  {
    TaskFilter(f.status.GetOr(prev.status), f.projectId.GetOr(prev.projectId),
               f.priority.GetOr(prev.priority), f.search.GetOr(prev.search))
  }

  /** Two filter patches that give no field in common. */
  predicate Disjoint(f: FilterPatch, g: FilterPatch) {
    (f.status.None? || g.status.None?) && (f.projectId.None? || g.projectId.None?) &&
    (f.priority.None? || g.priority.None?) && (f.search.None? || g.search.None?)
  }

  /**
   * Updating the filter: the empty patch changes nothing, repeating a patch
   * changes nothing more, patches that give different fields can be applied
   * in either order, and the fields a patch leaves out keep their values (so
   * choosing a project and resetting the status keeps the priority and the
   * search text).
   */
  lemma MergeFilterLaws(prev: TaskFilter, f: FilterPatch, g: FilterPatch)
    ensures MergeFilter(prev, NoFilterChanges) == prev
    ensures MergeFilter(MergeFilter(prev, f), f) == MergeFilter(prev, f)
    ensures Disjoint(f, g) ==> MergeFilter(MergeFilter(prev, f), g) == MergeFilter(MergeFilter(prev, g), f)
    ensures f.status.None? ==> MergeFilter(prev, f).status == prev.status
    ensures f.projectId.None? ==> MergeFilter(prev, f).projectId == prev.projectId
    ensures f.priority.None? ==> MergeFilter(prev, f).priority == prev.priority
    ensures f.search.None? ==> MergeFilter(prev, f).search == prev.search
  {
  }

  /** Giving every field of the default filter resets the filter, whatever it was. */
  lemma ResetFilter(prev: TaskFilter)
    ensures MergeFilter(prev, FilterPatch(Some(AnyStatus), Some(None), Some(AnyPriority), Some(""))) == DefaultFilter
    ensures forall tasks :: Selected(MergeFilter(prev, FilterPatch(Some(AnyStatus), Some(None), Some(AnyPriority), Some(""))), tasks) == tasks
  {
    forall tasks: seq<Task> {
      DefaultFilterKeepsAll(tasks);
    }
  }

  // ---------------------------------------------------------------------
  // List updates
  // ---------------------------------------------------------------------

  function TaskWithId(id: string): Task -> bool {
    (t: Task) => t.id == id
  }

  function ProjectWithId(id: string): Project -> bool {
    (p: Project) => p.id == id
  }

  /** `updateTask`: every task with the identifier gets the patch, the others stay as they are. */
  function UpdateTasks(tasks: seq<Task>, id: string, u: TaskPatch): (r: seq<Task>)
    ensures |r| == |tasks|
    ensures forall i :: 0 <= i < |tasks| && tasks[i].id == id ==> r[i] == PatchTask(tasks[i], u)
    ensures forall i :: 0 <= i < |tasks| && tasks[i].id != id ==> r[i] == tasks[i]
  {
    Replace(TaskWithId(id), (t: Task) => PatchTask(t, u), tasks)
  }

  /** `updateProject`: every project with the identifier gets the patch, the others stay as they are. */
  function UpdateProjects(projects: seq<Project>, id: string, u: ProjectPatch): (r: seq<Project>)
    ensures |r| == |projects|
    ensures forall i :: 0 <= i < |projects| && projects[i].id == id ==> r[i] == PatchProject(projects[i], u)
    ensures forall i :: 0 <= i < |projects| && projects[i].id != id ==> r[i] == projects[i]
  {
    Replace(ProjectWithId(id), (p: Project) => PatchProject(p, u), projects)
  }

  /** `deleteTask`: the tasks with another identifier, in order. */
  function DeleteTasks(tasks: seq<Task>, id: string): (r: seq<Task>)
    ensures forall t :: t in r <==> t in tasks && t.id != id
  {
    Filter(Not(TaskWithId(id)), tasks)
  }

  /** The first half of `deleteProject`: the projects with another identifier, in order. */
  function DeleteProjects(projects: seq<Project>, id: string): (r: seq<Project>)
    ensures forall p :: p in r <==> p in projects && p.id != id
  {
    Filter(Not(ProjectWithId(id)), projects)
  }

  /** The cascade of `deleteProject`: the tasks of the other projects, in order. */
  function TasksOutside(tasks: seq<Task>, projectId: string): (r: seq<Task>)
    ensures forall t :: t in r <==> t in tasks && t.projectId != projectId
  {
    Filter(Not(InProject(projectId)), tasks)
  }

  /**
   * Updating a task keeps the list's length and order: the tasks with the
   * identifier are patched in place, every other task is untouched, and an
   * update that names no listed task, or gives no field, changes nothing.
   * Applying the same update twice is applying it once.
   */
  lemma UpdateTasksSpec(tasks: seq<Task>, id: string, u: TaskPatch)
    ensures |UpdateTasks(tasks, id, u)| == |tasks|
    ensures forall i :: 0 <= i < |tasks| ==>
              UpdateTasks(tasks, id, u)[i] == if tasks[i].id == id then PatchTask(tasks[i], u) else tasks[i]
    ensures (forall t :: t in tasks ==> t.id != id) ==> UpdateTasks(tasks, id, u) == tasks
    ensures UpdateTasks(tasks, id, NoTaskChanges) == tasks
    ensures UpdateTasks(UpdateTasks(tasks, id, u), id, u) == UpdateTasks(tasks, id, u)
  {
    var f := (t: Task) => PatchTask(t, u);
    if forall t :: t in tasks ==> t.id != id {
      ReplaceUnchanged(TaskWithId(id), f, tasks);
    }
    ReplaceUnchanged(TaskWithId(id), (t: Task) => PatchTask(t, NoTaskChanges), tasks);
    ReplaceIdempotent(TaskWithId(id), f, tasks);
  }

  /** An update that does not give an identifier keeps every identifier, so it keeps them distinct. */
  lemma UpdateTasksKeepsIds(tasks: seq<Task>, id: string, u: TaskPatch)
    requires u.id.None?
    ensures forall i :: 0 <= i < |tasks| ==> UpdateTasks(tasks, id, u)[i].id == tasks[i].id
    ensures DistinctTaskIds(tasks) ==> DistinctTaskIds(UpdateTasks(tasks, id, u))
  {
  }

  /** An update that leaves the project alone, or moves tasks to a listed project, keeps every task in a listed project. */
  lemma UpdateTasksKeepsReferences(tasks: seq<Task>, projects: seq<Project>, id: string, u: TaskPatch)
    requires TasksReferToProjects(tasks, projects)
    requires u.projectId.Some? ==> u.projectId.value in ProjectIds(projects)
    ensures TasksReferToProjects(UpdateTasks(tasks, id, u), projects)
  {
    var r := UpdateTasks(tasks, id, u);
    forall t | t in r
      ensures t.projectId in ProjectIds(projects)
    {
      var i :| 0 <= i < |r| && r[i] == t;
      assert tasks[i] in tasks;
    }
  }

  /** Updating a project keeps the list's length and order and patches exactly the projects with the identifier. */
  lemma UpdateProjectsSpec(projects: seq<Project>, id: string, u: ProjectPatch)
    ensures |UpdateProjects(projects, id, u)| == |projects|
    ensures forall i :: 0 <= i < |projects| ==>
              UpdateProjects(projects, id, u)[i] == if projects[i].id == id then PatchProject(projects[i], u) else projects[i]
    ensures (forall p :: p in projects ==> p.id != id) ==> UpdateProjects(projects, id, u) == projects
    ensures UpdateProjects(projects, id, NoProjectChanges) == projects
  {
    if forall p :: p in projects ==> p.id != id {
      ReplaceUnchanged(ProjectWithId(id), (p: Project) => PatchProject(p, u), projects);
    }
    ReplaceUnchanged(ProjectWithId(id), (p: Project) => PatchProject(p, NoProjectChanges), projects);
  }

  /** An update that does not give an identifier keeps the set of project identifiers, so tasks keep their projects. */
  lemma UpdateProjectsKeepsReferences(tasks: seq<Task>, projects: seq<Project>, id: string, u: ProjectPatch)
    requires u.id.None?
    ensures ProjectIds(UpdateProjects(projects, id, u)) == ProjectIds(projects)
    ensures TasksReferToProjects(tasks, projects) ==> TasksReferToProjects(tasks, UpdateProjects(projects, id, u))
  {
    var r := UpdateProjects(projects, id, u);
    forall x | x in ProjectIds(projects)
      ensures x in ProjectIds(r)
    {
      var p :| p in projects && p.id == x;
      var i :| 0 <= i < |projects| && projects[i] == p;
      assert r[i] in r;
    }
    forall x | x in ProjectIds(r)
      ensures x in ProjectIds(projects)
    {
      var p :| p in r && p.id == x;
      var i :| 0 <= i < |r| && r[i] == p;
      assert projects[i] in projects;
    }
  }

  /**
   * Deleting a task removes every task with the identifier and keeps every
   * other task, as often as it occurred and in its order; the list shrinks by
   * the number of tasks removed. Deleting an identifier no task has changes
   * nothing, and deleting twice is deleting once.
   */
  lemma DeleteTasksSpec(tasks: seq<Task>, id: string, x: Task)
    ensures forall t :: t in DeleteTasks(tasks, id) <==> t in tasks && t.id != id
    ensures multiset(DeleteTasks(tasks, id))[x] == if x.id == id then 0 else multiset(tasks)[x]
    ensures Subsequence(DeleteTasks(tasks, id), tasks)
    ensures |DeleteTasks(tasks, id)| == |tasks| - Count(TaskWithId(id), tasks)
    ensures (forall t :: t in tasks ==> t.id != id) ==> DeleteTasks(tasks, id) == tasks
    ensures DeleteTasks(DeleteTasks(tasks, id), id) == DeleteTasks(tasks, id)
  {
    var keep := Not(TaskWithId(id));
    FilterMultiplicity(keep, tasks, x);
    FilterSubsequence(keep, tasks);
    CountComplement(TaskWithId(id), tasks);
    if forall t :: t in tasks ==> t.id != id {
      FilterKeepsAll(keep, tasks);
    }
    FilterIdempotent(keep, tasks);
  }

  /**
   * Deleting a project removes it and every task filed under it, keeps the
   * other projects and tasks in order, and leaves every remaining task in a
   * remaining project when every task was in a listed project before.
   */
  lemma DeleteProjectCascades(tasks: seq<Task>, projects: seq<Project>, id: string)
    ensures forall p :: p in DeleteProjects(projects, id) <==> p in projects && p.id != id
    ensures forall t :: t in TasksOutside(tasks, id) <==> t in tasks && t.projectId != id
    ensures ProjectIds(DeleteProjects(projects, id)) == ProjectIds(projects) - {id}
    ensures Subsequence(DeleteProjects(projects, id), projects)
    ensures forall x :: multiset(TasksOutside(tasks, id))[x] == if x.projectId == id then 0 else multiset(tasks)[x]
    ensures Subsequence(TasksOutside(tasks, id), tasks)
    ensures TasksReferToProjects(tasks, projects) ==>
              TasksReferToProjects(TasksOutside(tasks, id), DeleteProjects(projects, id))
  {
    FilterSubsequence(Not(ProjectWithId(id)), projects);
    FilterSubsequence(Not(InProject(id)), tasks);
    forall x
      ensures multiset(TasksOutside(tasks, id))[x] == if x.projectId == id then 0 else multiset(tasks)[x]
    {
      FilterMultiplicity(Not(InProject(id)), tasks, x);
    }
    var rest := DeleteProjects(projects, id);
    forall x | x in ProjectIds(projects) - {id}
      ensures x in ProjectIds(rest)
    {
      var p :| p in projects && p.id == x;
      assert p in rest;
    }
  }

  /** A task added to a listed project keeps every task in a listed project; a fresh identifier keeps identifiers distinct. */
  lemma AddTaskKeepsReferences(tasks: seq<Task>, projects: seq<Project>, draft: TaskDraft, id: string, now: int)
    ensures TasksReferToProjects(tasks, projects) && draft.projectId in ProjectIds(projects) ==>
              TasksReferToProjects(tasks + [NewTask(draft, id, now)], projects)
    ensures DistinctTaskIds(tasks) && (forall t :: t in tasks ==> t.id != id) ==>
              DistinctTaskIds(tasks + [NewTask(draft, id, now)])
  {
    var r := tasks + [NewTask(draft, id, now)];
    if DistinctTaskIds(tasks) && (forall t :: t in tasks ==> t.id != id) {
      forall i, j | 0 <= i < j < |r|
        ensures r[i].id != r[j].id
      {
        if j == |tasks| {
          assert r[i] == tasks[i] && tasks[i] in tasks;
        }
      }
    }
  }

  /** Deleting a task keeps every remaining task in a listed project and keeps identifiers distinct. */
  lemma DeleteTaskKeepsReferences(tasks: seq<Task>, projects: seq<Project>, id: string)
    ensures TasksReferToProjects(tasks, projects) ==> TasksReferToProjects(DeleteTasks(tasks, id), projects)
    ensures DistinctTaskIds(tasks) ==> DistinctTaskIds(DeleteTasks(tasks, id))
  {
    if DistinctTaskIds(tasks) {
      DistinctFilter(Not(TaskWithId(id)), tasks);
    }
  }

  /** Filtering a list of tasks with distinct identifiers leaves them distinct. */
  lemma {:induction false} DistinctFilter(p: Task -> bool, tasks: seq<Task>)
    requires DistinctTaskIds(tasks)
    ensures DistinctTaskIds(Filter(p, tasks))
  {
    if tasks != [] {
      DistinctFilter(p, tasks[1..]);
      var rest := Filter(p, tasks[1..]);
      if p(tasks[0]) {
        var r := [tasks[0]] + rest;
        forall i, j | 0 <= i < j < |r|
          ensures r[i].id != r[j].id
        {
          if i == 0 {
            assert r[j] in rest;
            var k :| 1 <= k < |tasks| && tasks[k] == r[j];
          }
        }
      }
    }
  }

  // ---------------------------------------------------------------------
  // Theme
  // ---------------------------------------------------------------------

  /** `toggleTheme`: light becomes dark and dark becomes light. */
  function Toggled(m: ThemeMode): (r: ThemeMode)
    ensures r != m
  {
    if m == Light then Dark else Light
  }

  /** Toggling twice restores the theme. */
  lemma ToggleInvolution(m: ThemeMode)
    ensures Toggled(Toggled(m)) == m
  {
  }

  /** The theme at start-up: the saved one, else the user's colour-scheme preference. */
  function InitialTheme(saved: Option<ThemeMode>, prefersDark: bool): (r: ThemeMode)
    ensures saved.Some? ==> r == saved.value
    ensures saved.None? ==> (r == Dark <==> prefersDark)
  {
    if saved.Some? then saved.value else if prefersDark then Dark else Light
  }

  // ---------------------------------------------------------------------
  // The store
  // ---------------------------------------------------------------------

  class AppStore {
    var tasks: seq<Task>
    var projects: seq<Project>
    const users: seq<User>
    var activeProject: Option<string>
    var taskFilter: TaskFilter
    var sortOption: SortOption
    var theme: ThemeMode

    /** The store at start-up: saved lists and theme when there are any, else the defaults. */
    constructor (savedTasks: Option<seq<Task>>, savedProjects: Option<seq<Project>>,
                 savedTheme: Option<ThemeMode>, prefersDark: bool, now: int)
      ensures tasks == savedTasks.GetOr(DefaultTasks(now))
      ensures projects == savedProjects.GetOr(DefaultProjects(now))
      ensures theme == InitialTheme(savedTheme, prefersDark)
      ensures savedTheme.None? ==> (theme == Dark <==> prefersDark)
      ensures users == DefaultUsers
      ensures activeProject == None
      ensures taskFilter == DefaultFilter
      ensures sortOption == ByDueDate
      ensures savedTasks.None? && savedProjects.None? ==>
                TasksReferToProjects(tasks, projects) && TasksReferToUsers(tasks, users)
    {
      tasks := savedTasks.GetOr(DefaultTasks(now));
      projects := savedProjects.GetOr(DefaultProjects(now));
      theme := InitialTheme(savedTheme, prefersDark);
      users := DefaultUsers;
      activeProject := None;
      taskFilter := DefaultFilter;
      sortOption := ByDueDate;
      DefaultsConsistent(now);
    }

    /** `addTask`: appends the draft as a new task with the given identifier, created at `now`. */
    method AddTask(draft: TaskDraft, id: string, now: int)
      modifies this`tasks
      ensures tasks == old(tasks) + [NewTask(draft, id, now)]
      ensures |tasks| == |old(tasks)| + 1 && tasks[..|old(tasks)|] == old(tasks)
      ensures TaskDraftOf(tasks[|tasks| - 1]) == draft
      ensures tasks[|tasks| - 1].id == id && tasks[|tasks| - 1].createdAt == now
      ensures old(TasksReferToProjects(tasks, projects)) && draft.projectId in ProjectIds(projects) ==>
                TasksReferToProjects(tasks, projects)
    {
      AddTaskKeepsReferences(tasks, projects, draft, id, now);
      NewTaskRoundTrip(draft, id, now, NewTask(draft, id, now));
      tasks := tasks + [NewTask(draft, id, now)];
    }

    /** `updateTask`: patches every task with the identifier. */
    method UpdateTask(id: string, updates: TaskPatch)
      modifies this`tasks
      ensures tasks == UpdateTasks(old(tasks), id, updates)
      ensures |tasks| == |old(tasks)|
      ensures forall i :: 0 <= i < |tasks| ==>
                tasks[i] == if old(tasks)[i].id == id then PatchTask(old(tasks)[i], updates) else old(tasks)[i]
      ensures old(TasksReferToProjects(tasks, projects)) &&
              (updates.projectId.Some? ==> updates.projectId.value in ProjectIds(projects)) ==>
                TasksReferToProjects(tasks, projects)
    {
      UpdateTasksSpec(tasks, id, updates);
      if TasksReferToProjects(tasks, projects) &&
         (updates.projectId.Some? ==> updates.projectId.value in ProjectIds(projects)) {
        UpdateTasksKeepsReferences(tasks, projects, id, updates);
      }
      tasks := UpdateTasks(tasks, id, updates);
    }

    /** `deleteTask`: removes every task with the identifier. */
    method DeleteTask(id: string)
      modifies this`tasks
      ensures tasks == DeleteTasks(old(tasks), id)
      ensures forall t :: t in tasks <==> t in old(tasks) && t.id != id
      ensures Subsequence(tasks, old(tasks))
      ensures old(TasksReferToProjects(tasks, projects)) ==> TasksReferToProjects(tasks, projects)
    {
      DeleteTasksSpec(tasks, id, Task(id, "", "", false, "", Low, None, None, 0));
      DeleteTaskKeepsReferences(tasks, projects, id);
      tasks := DeleteTasks(tasks, id);
    }

    /** `addProject`: appends the draft as a new project with the given identifier, created at `now`. */
    method AddProject(draft: ProjectDraft, id: string, now: int)
      modifies this`projects
      ensures projects == old(projects) + [NewProject(draft, id, now)]
      ensures ProjectIds(projects) == ProjectIds(old(projects)) + {id}
      ensures old(TasksReferToProjects(tasks, projects)) ==> TasksReferToProjects(tasks, projects)
    {
      var added := NewProject(draft, id, now);
      assert forall p :: p in projects + [added] <==> p in projects || p == added;
      projects := projects + [added];
    }

    /** `updateProject`: patches every project with the identifier. */
    method UpdateProject(id: string, updates: ProjectPatch)
      modifies this`projects
      ensures projects == UpdateProjects(old(projects), id, updates)
      ensures forall i :: 0 <= i < |projects| ==>
                projects[i] == if old(projects)[i].id == id then PatchProject(old(projects)[i], updates) else old(projects)[i]
      ensures updates.id.None? && old(TasksReferToProjects(tasks, projects)) ==> TasksReferToProjects(tasks, projects)
    {
      UpdateProjectsSpec(projects, id, updates);
      if updates.id.None? {
        UpdateProjectsKeepsReferences(tasks, projects, id, updates);
      }
      projects := UpdateProjects(projects, id, updates);
    }

    /** `deleteProject`: removes the project and every task filed under it. */
    method DeleteProject(id: string)
      modifies this`projects, this`tasks
      ensures projects == DeleteProjects(old(projects), id)
      ensures tasks == TasksOutside(old(tasks), id)
      ensures id !in ProjectIds(projects)
      ensures forall t :: t in tasks ==> t.projectId != id
      ensures old(TasksReferToProjects(tasks, projects)) ==> TasksReferToProjects(tasks, projects)
    {
      DeleteProjectCascades(tasks, projects, id);
      projects := DeleteProjects(projects, id);
      tasks := TasksOutside(tasks, id);
    }

    method SetActiveProject(projectId: Option<string>)
      modifies this`activeProject
      ensures activeProject == projectId
    {
      activeProject := projectId;
    }

    /** `setTaskFilter`: the fields the patch gives replace the current ones; the rest are kept. */
    method SetTaskFilter(filter: FilterPatch)
      modifies this`taskFilter
      ensures taskFilter == MergeFilter(old(taskFilter), filter)
      ensures filter.status.None? ==> taskFilter.status == old(taskFilter).status
      ensures filter.projectId.None? ==> taskFilter.projectId == old(taskFilter).projectId
      ensures filter.priority.None? ==> taskFilter.priority == old(taskFilter).priority
      ensures filter.search.None? ==> taskFilter.search == old(taskFilter).search
    {
      taskFilter := MergeFilter(taskFilter, filter);
    }

    method SetSortOption(option: SortOption)
      modifies this`sortOption
      ensures sortOption == option
    {
      sortOption := option;
    }

    /** `toggleTheme`: switches between light and dark. */
    method ToggleTheme()
      modifies this`theme
      ensures theme == Toggled(old(theme))
      ensures theme != old(theme)
    {
      theme := Toggled(theme);
    }
  }
}
