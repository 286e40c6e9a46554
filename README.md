# Task manager: a verified model of the store, the task view pipeline and the dashboard figures

The task manager is a single-user, in-browser application. Tasks belong to
projects, carry a priority, an optional due date and an optional assignee, and
are shown through a view. The view filters tasks by status, project, priority
and search text, and sorts them by due date, priority or creation time. A
dashboard counts them. This project models its core in Dafny:

- `types.dfy` (module `Types`) holds the records: `Task`, `Project`, `User`, the task filter, the sort option and the theme. Timestamps are milliseconds as `int`, and a missing due date or assignee is `None`.
- `lists.dfy` (module `Lists`) models `Array.prototype.filter` (`Filter`), `filter(...).length` (`Count`) and the conditional `map` of the update operations (`Replace`). It also proves their laws: membership, multiplicity, order (`Subsequence`), idempotence, composition and counting.
- `helpers.dfy` (module `Helpers`) models the view helpers:
  - the priority badge colour and label;
  - `truncateText`;
  - the case-insensitive search;
  - `filterTasks` as a method. It runs four filter stages, then sorts an array copy in place with a stable insertion sort over the source's comparator. The method is proved against the specification functions `Selected` (the filter) and `SortBy` (the sort).
- `store.dfy` (module `Store`) models the application store. It is the class `AppStore`, whose fields are reassigned by the store's operations. It also holds the defaults, the partial-update ("spread") semantics, the list updates those operations perform, and the invariants they keep: every task in a listed project, and distinct identifiers.
- `dashboard.dfy` (module `Dashboard`) models the dashboard figures: completed and total counts, the completion rate, the per-priority counts and the per-project counts.
- `scenarios.dfy` (module `Scenarios`) holds worked examples on concrete data: a search, the two sort orders, filter merges, the sidebar's project selection, ticking a task, and the first view of a fresh store.

The store takes the outside world as parameters:
- the lists and theme found in local storage (`None` when nothing was saved);
- the dark-mode preference;
- the clock (`now`);
- the identifier `generateId` would have returned.

Notes on the code's behaviour:
- `updateTask` and `updateProject` patch every record with the identifier.
- A patch may overwrite `id` and `createdAt`.
- `addTask` does not check that the task's project exists. The model states under which conditions "every task is in a listed project" is preserved (`AddTaskKeepsReferences`).
- Two tasks without a due date compare as 1 both ways, so the code leaves their relative order to the JavaScript engine. The model's sort calls the comparator with the moving task first, as V8's does, so undated tasks keep their input order; see "## Left out".

## Model

| member | source | states |
|---|---|---|
| Types.PriorityNameInjective | project/src/types/index.ts:7 | the three priority literals are distinct, so a priority is determined by its name |
| Lists.Count | project/src/components/dashboard/Dashboard.tsx:9 | `filter(...).length` is at most the length of the list |
| Lists.Filter | project/src/utils/helpers.ts:72-94 | `filter` keeps exactly the elements that satisfy the predicate and never lengthens the list |
| Lists.FilterMultiplicity | project/src/utils/helpers.ts:72-94 | `filter` keeps each accepted element as often as it occurs and drops every rejected one |
| Lists.FilterSubsequence | project/src/utils/helpers.ts:72-94 | `filter` keeps the relative order of the elements it keeps |
| Lists.FilterThen | project/src/utils/helpers.ts:70-95 | two filters in a row are one filter by the conjunction |
| Lists.Replace | project/src/context/AppContext.tsx:138 | the conditional `map` keeps length and order, replaces exactly the picked elements and passes every other element through |
| Lists.CountPartition3 | project/src/components/dashboard/Dashboard.tsx:13-17 | when every element satisfies exactly one of three predicates, the three counts add up to the length |
| Helpers.GetPriorityColor | project/src/utils/helpers.ts:32-43 | the colour is the grey fallback exactly when the string is not 'high', 'medium' or 'low' |
| Helpers.GetPriorityLabel | project/src/utils/helpers.ts:45-56 | the label is "None" exactly when the string is not 'high', 'medium' or 'low' |
| Helpers.PriorityBadgesDistinct | project/src/utils/helpers.ts:32-56 | no priority level gets the fallback, and different levels get different colours and different labels |
| Helpers.TruncateText | project/src/utils/helpers.ts:58-61 | text within the limit is returned unchanged; longer text becomes its first `maxLength` characters followed by "...", of length `maxLength + 3`; a negative limit keeps no characters |
| Helpers.Lower | project/src/utils/helpers.ts:89-93 | lowering keeps the length and lowers each character on its own |
| Helpers.LowerIdempotent | project/src/utils/helpers.ts:89-93 | a lowered string has no upper-case letter, and lowering it again changes nothing |
| Helpers.Includes | project/src/utils/helpers.ts:92-93 | the empty term is found in every text, and a found term is no longer than the text |
| Helpers.IncludesIffOccurs | project/src/utils/helpers.ts:92-93 | `includes` holds exactly when the term occurs at some position of the text |
| Helpers.Matches | project/src/utils/helpers.ts:70-95 | a filter with no active restriction (status and priority 'all', no project, empty search) matches every task |
| Helpers.Selected | project/src/utils/helpers.ts:70-95 | the selection is no longer than the input and holds exactly the input tasks that match the filter |
| Helpers.SelectedSoundComplete | project/src/utils/helpers.ts:70-95 | a task is selected exactly when it is in the input and satisfies every active restriction at once; the selection keeps input order |
| Helpers.StagesAgree | project/src/utils/helpers.ts:70-95 | a task passes the four stages (status, project, priority, search) exactly when it satisfies the whole filter |
| Helpers.StagesSelect | project/src/utils/helpers.ts:70-95 | running the four stages one after another selects the same tasks as the whole filter |
| Helpers.CompareSign | project/src/utils/helpers.ts:98-112 | the comparator's sign: under 'dueDate' negative exactly when the first task has a due date and the second has none or a later one, under 'priority' exactly when the first ranks higher, under 'createdAt' exactly when the first is newer; so negative exactly when the second may not come before the first |
| Helpers.CompareConsistent | project/src/utils/helpers.ts:98-112 | the order the comparator induces is a total preorder: reflexive, total and transitive |
| Helpers.SortedReadings | project/src/utils/helpers.ts:98-112 | in a sorted list priority never rises; under 'dueDate' no dated task follows an undated one and due dates never fall; creation times never rise |
| Helpers.Insert | project/src/utils/helpers.ts:98-113 | one insertion step adds exactly the inserted task, once, and keeps every other element |
| Helpers.SortBy | project/src/utils/helpers.ts:98-113 | the sort returns a permutation of its input |
| Helpers.InsertSorted | project/src/utils/helpers.ts:98-113 | inserting into a sorted list keeps it sorted |
| Helpers.SortBySorted | project/src/utils/helpers.ts:98-113 | the sort's output is ordered as the comparator asks |
| Helpers.InsertKeepsTies | project/src/utils/helpers.ts:98-113 | an insertion step appends the inserted task to its tie group and leaves every other tie group as it was |
| Helpers.SortByStable | project/src/utils/helpers.ts:98-113 | the sort is stable: tasks the comparator cannot tell apart, undated tasks under 'dueDate' included, leave in the order they entered |
| Helpers.InsertLands | project/src/utils/helpers.ts:98-113 | the inserted task lands just after the last element the comparator does not put after it |
| Helpers.SortBySnoc | project/src/utils/helpers.ts:98-113 | sorting one more task is inserting it into the sorted rest |
| Helpers.MakeRoom | project/src/utils/helpers.ts:98-113 | the in-place pass shifts right by one place exactly the run of sorted elements the comparator puts after the task, stops at the first one it does not, and leaves the rest of the array alone |
| Helpers.InsertInPlace | project/src/utils/helpers.ts:98-113 | one in-place pass turns the prefix into the insertion of the next task and leaves the rest of the array alone |
| Helpers.SortStep | project/src/utils/helpers.ts:98-113 | after pass `i` the array's first `i + 1` elements are the sort of the input's first `i + 1`, and the elements after them are still the input's |
| Helpers.SortInPlace | project/src/utils/helpers.ts:98-113 | the in-place sort leaves the array holding the sort of its old contents |
| Helpers.SortedSelection | project/src/utils/helpers.ts:63-116 | the sorted selection holds exactly the matching tasks, each as often as in the input, in comparator order, with ties in input order |
| Helpers.NarrowTasks | project/src/utils/helpers.ts:68-95 | the four filter stages on the copy produce exactly the selection of the filter |
| Helpers.SortTasks | project/src/utils/helpers.ts:98-113 | sorting an array copy of the tasks yields their sort |
| Helpers.FilterTasks | project/src/utils/helpers.ts:63-116 | `filterTasks` returns a sorted permutation of the matching sub-multiset of its input: sound, complete, ordered and stable |
| Store.DefaultProjects | project/src/context/AppContext.tsx:32-36 | three sample projects, all created at start-up |
| Store.DefaultTasks | project/src/context/AppContext.tsx:38-72 | three sample tasks, all created at start-up and due within two days of it |
| Store.DefaultsConsistent | project/src/context/AppContext.tsx:25-72 | the sample data has 4 users, 3 projects and 3 tasks with distinct identifiers; every sample task is in a sample project and assigned to a sample user |
| Store.DefaultCounts | project/src/context/AppContext.tsx:38-72 | one sample task is completed and each priority level occurs once |
| Store.DefaultFilterKeepsAll | project/src/context/AppContext.tsx:74-79 | the default filter lets every task through, in order |
| Store.NewTaskRoundTrip | project/src/context/AppContext.tsx:128-135 | a new task carries the supplied fields unchanged plus the given identifier and time, and every task is rebuilt from its own fields |
| Store.NewProjectRoundTrip | project/src/context/AppContext.tsx:145-152 | the same for a new project |
| Store.PatchTask | project/src/context/AppContext.tsx:138 | the empty patch leaves the task as it is; a patch without an identifier or project keeps the task's identifier or project |
| Store.PatchTaskLaws | project/src/context/AppContext.tsx:138 | the task spread: the empty patch changes nothing; a patch applied twice acts once; two patches in a row act as their merge; a full patch replaces the task |
| Store.PatchTaskFields | project/src/context/AppContext.tsx:138 | a patched field takes the patch's value and an unpatched field keeps its old value, `id` and `createdAt` included |
| Store.PatchProject | project/src/context/AppContext.tsx:155 | the empty patch leaves the project as it is; a patch without an identifier keeps the identifier |
| Store.PatchProjectLaws | project/src/context/AppContext.tsx:155 | the same spread laws for projects |
| Store.MergeFilter | project/src/context/AppContext.tsx:164 | the empty patch changes nothing, and every field the patch gives replaces the current one |
| Store.MergeFilterLaws | project/src/context/AppContext.tsx:163-165 | filter merge: the empty patch changes nothing; merging is idempotent; disjoint patches commute; fields a patch leaves out keep their values |
| Store.ResetFilter | project/src/context/AppContext.tsx:163-165 | a patch giving every field of the default filter resets it from any filter, after which every task is selected |
| Store.UpdateTasks | project/src/context/AppContext.tsx:138 | the list keeps its length; each task with the identifier is patched at its position and every other task is untouched |
| Store.UpdateTasksSpec | project/src/context/AppContext.tsx:137-139 | updating keeps length and order and patches exactly the tasks with the identifier; an unknown identifier or an empty patch changes nothing; updating twice equals once |
| Store.UpdateTasksKeepsIds | project/src/context/AppContext.tsx:137-139 | an update that gives no identifier keeps every identifier, so distinct identifiers stay distinct |
| Store.UpdateTasksKeepsReferences | project/src/context/AppContext.tsx:137-139 | an update that leaves the project alone, or names a listed one, keeps every task in a listed project |
| Store.UpdateProjects | project/src/context/AppContext.tsx:155 | the list keeps its length; each project with the identifier is patched at its position and every other project is untouched |
| Store.UpdateProjectsSpec | project/src/context/AppContext.tsx:154-156 | updating keeps length and order and patches exactly the projects with the identifier; an unknown identifier or an empty patch changes nothing |
| Store.UpdateProjectsKeepsReferences | project/src/context/AppContext.tsx:154-156 | an update that gives no identifier keeps the set of project identifiers, so no task loses its project |
| Store.DeleteTasks | project/src/context/AppContext.tsx:142 | a task is kept exactly when it was listed and has another identifier |
| Store.DeleteTasksSpec | project/src/context/AppContext.tsx:141-143 | deleting removes every task with the identifier and keeps every other task, as often as before and in order; the length drops by the number removed; an unknown identifier is a no-op; deleting twice equals once |
| Store.DeleteTaskKeepsReferences | project/src/context/AppContext.tsx:141-143 | deleting a task keeps every remaining task in a listed project and keeps identifiers distinct |
| Store.DeleteProjects | project/src/context/AppContext.tsx:159 | a project is kept exactly when it was listed and has another identifier |
| Store.TasksOutside | project/src/context/AppContext.tsx:160 | a task is kept exactly when it was listed and belongs to another project |
| Store.DeleteProjectCascades | project/src/context/AppContext.tsx:158-161 | deleting a project removes it and all of its tasks; the other projects stay, in order, and every other task stays, in order and as often as it occurred; if every task was in a listed project, every remaining task is in a remaining project |
| Store.AddTaskKeepsReferences | project/src/context/AppContext.tsx:128-135 | adding a task to a listed project keeps every task in a listed project; a fresh identifier keeps identifiers distinct |
| Store.InitialTheme | project/src/context/AppContext.tsx:94-100 | the saved theme when there is one, else dark exactly when the user prefers a dark colour scheme |
| Store.Toggled | project/src/context/AppContext.tsx:124-126 | toggling always changes the theme |
| Store.ToggleInvolution | project/src/context/AppContext.tsx:124-126 | toggling twice restores the theme |
| Store.AppStore.constructor | project/src/context/AppContext.tsx:84-105 | the saved lists and theme are used when present, else the defaults and the dark-mode preference; no active project, default filter, sort by due date; a fresh store's tasks are all in listed projects and assigned to listed users |
| Store.AppStore.AddTask | project/src/context/AppContext.tsx:128-135 | the list grows by one; the old list is its prefix; the last task carries the supplied fields, the identifier and the time; nothing but `tasks` changes |
| Store.AppStore.UpdateTask | project/src/context/AppContext.tsx:137-139 | each task with the identifier is patched in place and the others are unchanged; only `tasks` changes |
| Store.AppStore.DeleteTask | project/src/context/AppContext.tsx:141-143 | exactly the tasks with the identifier disappear and the rest keep their order; only `tasks` changes |
| Store.AppStore.AddProject | project/src/context/AppContext.tsx:145-152 | the project is appended, its identifier joins the project identifiers, and `tasks` is untouched |
| Store.AppStore.UpdateProject | project/src/context/AppContext.tsx:154-156 | each project with the identifier is patched in place; `tasks` is untouched |
| Store.AppStore.DeleteProject | project/src/context/AppContext.tsx:158-161 | no project keeps the identifier and no task keeps that project; `users` and the view settings are untouched |
| Store.AppStore.SetActiveProject | project/src/context/AppContext.tsx:103 | replaces only the active project |
| Store.AppStore.SetTaskFilter | project/src/context/AppContext.tsx:163-165 | fields in the patch are replaced and the others kept; nothing else changes |
| Store.AppStore.SetSortOption | project/src/context/AppContext.tsx:105 | replaces only the sort option |
| Store.AppStore.ToggleTheme | project/src/context/AppContext.tsx:124-126 | switches light and dark; nothing else changes |
| Dashboard.CompletedCount | project/src/components/dashboard/Dashboard.tsx:9 | at most the number of tasks, and zero exactly when no task is completed |
| Dashboard.TotalCount | project/src/components/dashboard/Dashboard.tsx:10 | never below the number of completed tasks |
| Dashboard.CompletionRate | project/src/components/dashboard/Dashboard.tsx:11 | never negative, and 0 without tasks (its full characterisation is `CompletionRateNearest`) |
| Dashboard.CountsAddUp | project/src/components/dashboard/Dashboard.tsx:9-10 | completed tasks are at most all tasks, and completed plus open tasks are all tasks |
| Dashboard.CompletionRateNearest | project/src/components/dashboard/Dashboard.tsx:11 | the rate is 0 without tasks; otherwise it is the whole percent nearest the completed share, halves up, so it lies in [0, 100]; it is 100 when all are completed (exactly when at least 99.5% are) and 0 exactly when fewer than 0.5% are |
| Dashboard.RoundedShare | project/src/components/dashboard/Dashboard.tsx:11 | the integer form of the rounding: `(200 c + t) / (2 t)` is within one half of `100 c / t` |
| Dashboard.CompletionRateGrows | project/src/components/dashboard/Dashboard.tsx:11 | adding a completed task never lowers the rate |
| Dashboard.TasksByPriority | project/src/components/dashboard/Dashboard.tsx:13-17 | the priority chart has three slices |
| Dashboard.TasksByPriorityPartition | project/src/components/dashboard/Dashboard.tsx:13-17 | the slices are High, Medium, Low, labelled as the badges label them, and their counts add up to the number of tasks |
| Dashboard.TasksByProject | project/src/components/dashboard/Dashboard.tsx:19-23 | one bar per project, in project order, with the project's name, the number of its tasks and the number of its completed tasks |
| Dashboard.TasksByProjectCounts | project/src/components/dashboard/Dashboard.tsx:19-23 | no bar has more completed tasks than tasks; with distinct project identifiers and every task in a listed project, the totals add up to the number of tasks |
| Scenarios.SearchScenario | project/src/utils/helpers.ts:88-94 | searching "run" among "Morning run" and "Grocery shopping" keeps only the first |
| Scenarios.SortByPriorityScenario | project/src/utils/helpers.ts:104-107 | low A, high B, medium C sort by priority to B, C, A |
| Scenarios.SortByDueDateScenario | project/src/utils/helpers.ts:100-103 | A due at 5, undated B and C due at 1 sort by due date to C, A, B |
| Scenarios.UndatedKeepOrderScenario | project/src/utils/helpers.ts:100-103 | undated U1, dated D and undated U2 sort by due date to D, U1, U2: undated tasks keep their order |
| Scenarios.MergeScenario | project/src/context/AppContext.tsx:163-165 | setting the search and then the status keeps both |
| Scenarios.SidebarScenario | project/src/components/layout/Sidebar.tsx:39-42 | choosing a project shows all its tasks whatever their status and keeps the priority and search |
| Scenarios.ToggleCompletedScenario | project/src/components/tasks/TaskItem.tsx:24-26 | ticking a task flips its completion, changes nothing else in it, and leaves the other tasks alone |
| Scenarios.DefaultViewScenario | project/src/context/AppContext.tsx:38-72 | a fresh store lists the sample tasks by due date as t2, t3, t1 |

## Left out

- Local storage, JSON serialisation and the document's `dark` class are not modelled. They are browser I/O (`AppContext.tsx:84-100`, `107-122`). Saved data enters as optional constructor arguments, and nothing is written back.
- The theme read back from storage is cast, unchecked, to a theme in the source. The model accepts only light or dark. The `typeof window` branch for rendering without a browser is not modelled.
- `generateId` is random and only probably unique, so the identifier is a parameter. Distinct identifiers are proved only under the assumption that the given one is fresh.
- `formatDate` is not modelled. It depends on the clock, the time zone and the locale.
- Dates are integer milliseconds, and ISO date parsing is not modelled. An invalid date string (`NaN`) cannot be expressed, and neither can an empty-string due date, which the comparator treats as missing.
- Helpers.Lower: lowers ASCII letters only; `toLowerCase` also folds the rest of Unicode.
- Helpers.TruncateText: lengths and cuts count characters (Unicode scalar values), where `text.length` and `substring` count UTF-16 code units. Text with characters outside the Basic Multilingual Plane is therefore cut at a different place, and a cut through a surrogate pair cannot be expressed. For example, three U+1F600 emoji with a limit of 4 are returned whole, where the source keeps two of them and appends "...".
- A patch key present with the value `undefined`, which a spread copies as `undefined`, cannot be expressed: a field is either given a value or left out.
- The defaults read the clock several times. The model uses one `now` for all of them.
- The comparator's `default: return 0` branch is unreachable, because the sort option is typed.
- Two tasks without a due date compare as 1 both ways, so the 'dueDate' comparator is inconsistent and ECMAScript leaves their order to the engine. The model keeps them in input order, as an insertion pass that calls `comparefn(moving, placed)` does. An engine that calls the comparator the other way round reverses them, and that order is not modelled. On every other pair the comparator is consistent, and a stable sort has exactly one possible result. That is why a stable insertion sort stands for `Array.prototype.sort`.
- Dashboard.CompletionRate / CompletionRateNearest: round the exact rational share, halves up; `Math.round` on the floating-point product can differ from it when the product lands a rounding error away from a half. For 23 completed tasks of 40 the product is 57.49999…, so the code shows 57 where the model gives 58; 29 of 200 behaves the same way.
- The `useApp` provider check is not modelled. It is React context plumbing.
- React's batching of state updates and stale closures are not modelled. Each operation is one atomic step, and `deleteProject`'s two updates happen together.
- The presentation components are not modelled: task and project forms, lists, board, header, sidebar and charts. Their handlers appear as scenarios. Their rejection of blank titles and names happens before the store is called, and the store itself accepts any draft.
- `filterTasks` in the source accepts untyped tasks and filter strings. The model takes the typed records, so a priority or status string outside the declared values cannot occur.
