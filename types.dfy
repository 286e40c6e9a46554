/**
 * The records of the task manager: tasks, projects, users, the task filter,
 * the sort option and the colour theme.
 *
 * Timestamps (a task's due date and creation time, a project's creation
 * time) are milliseconds since the epoch, as `int`; the application keeps
 * them as ISO date strings and turns them into milliseconds only where it
 * compares them.
 */
module Types {

  /** `T | null`: a value that may be absent. */
  datatype Option<T> = None | Some(value: T) {
    function GetOr(default: T): T {
      match this
      case Some(v) => v
      case None => default
    }
  }

  /** A task's priority: exactly one of three levels. */
  datatype Priority = Low | Medium | High {
    /** The string literal the application stores for this level. */
    function Name(): (s: string)
      ensures |s| > 0
    {
      match this
      case Low => "low"
      case Medium => "medium"
      case High => "high"
    }
  }

  datatype Task = Task(
    id: string,
    title: string,
    description: string,
    completed: bool,
    projectId: string,
    priority: Priority,
    dueDate: Option<int>,        // null: no deadline
    assignedTo: Option<string>,  // null: nobody
    createdAt: int
  )

  datatype Project = Project(id: string, name: string, color: string, createdAt: int)

  datatype User = User(id: string, name: string, avatar: string)

  /** The status part of a filter: 'all' | 'active' | 'completed'. */
  datatype StatusFilter = AnyStatus | Active | Completed

  /** The priority part of a filter: 'all' or one priority level. */
  datatype PriorityFilter = AnyPriority | Exactly(level: Priority)

  datatype TaskFilter = TaskFilter(
    status: StatusFilter,
    projectId: Option<string>,
    priority: PriorityFilter,
    search: string
  )

  /** 'dueDate' | 'priority' | 'createdAt'. */
  datatype SortOption = ByDueDate | ByPriority | ByCreatedAt

  /** 'light' | 'dark'. */
  datatype ThemeMode = Light | Dark

  /** The priority names are pairwise distinct, so a level is determined by its name. */
  lemma PriorityNameInjective(p: Priority, q: Priority)
    ensures p.Name() == q.Name() <==> p == q
  {
    if p != q {
      assert p.Name()[0] != q.Name()[0] || |p.Name()| != |q.Name()|;
    }
  }
}
