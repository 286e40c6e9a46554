/**
 * The view helpers: the priority colour and label, text truncation, and the
 * filter-and-sort pipeline that derives the task list shown to the user.
 *
 * Lower-casing is ASCII only (A-Z to a-z); `String.prototype.toLowerCase`
 * also folds the rest of Unicode.
 */
module Helpers {
  import opened Types
  import opened Lists

  // ---------------------------------------------------------------------
  // Priority colour and label
  // ---------------------------------------------------------------------

  /** The badge colour class for a priority string; unknown strings get grey. */
  function GetPriorityColor(priority: string): (color: string)
    ensures color == "bg-gray-500" <==> priority !in {"high", "medium", "low"}
  {
    if priority == "high" then "bg-red-500"
    else if priority == "medium" then "bg-amber-500"
    else if priority == "low" then "bg-blue-500"
    else "bg-gray-500"
  }

  /** The display label for a priority string; unknown strings read "None". */
  function GetPriorityLabel(priority: string): (text: string)
    ensures text == "None" <==> priority !in {"high", "medium", "low"}
  {
    if priority == "high" then "High"
    else if priority == "medium" then "Medium"
    else if priority == "low" then "Low"
    else "None"
  }

  /** The three levels get three different colours and three different labels, none of them the fallback. */
  lemma PriorityBadgesDistinct(p: Priority, q: Priority)
    ensures GetPriorityColor(p.Name()) != "bg-gray-500"
    ensures GetPriorityLabel(p.Name()) != "None"
    ensures GetPriorityColor(p.Name()) == GetPriorityColor(q.Name()) <==> p == q
    ensures GetPriorityLabel(p.Name()) == GetPriorityLabel(q.Name()) <==> p == q
  {
    PriorityNameInjective(p, q);
  }

  // ---------------------------------------------------------------------
  // truncateText
  // ---------------------------------------------------------------------

  /**
   * Text no longer than `maxLength` is returned as it is; longer text is cut
   * to its first `maxLength` characters and followed by "...". As with
   * `substring`, a negative `maxLength` counts as 0.
   */
  function TruncateText(text: string, maxLength: int): (r: string)
    ensures |text| <= maxLength ==> r == text
    ensures |text| > maxLength && maxLength >= 0 ==>
              |r| == maxLength + 3 && r[..maxLength] == text[..maxLength] && r[maxLength..] == "..."
    ensures maxLength < 0 ==> r == "..."
  {
    if |text| <= maxLength then text
    else text[..if maxLength < 0 then 0 else maxLength] + "..."
  }

  // ---------------------------------------------------------------------
  // Case-insensitive substring search
  // ---------------------------------------------------------------------

  function LowerChar(c: char): char {
    if 'A' <= c <= 'Z' then (c as int - 'A' as int + 'a' as int) as char else c
  }

  /** `s.toLowerCase()`, restricted to ASCII letters. */
  function Lower(s: string): (r: string)
    ensures |r| == |s|
    ensures forall i :: 0 <= i < |s| ==> r[i] == LowerChar(s[i])
  {
    if s == [] then [] else [LowerChar(s[0])] + Lower(s[1..])
  }

  /** Lowering leaves no upper-case letter, so lowering twice is lowering once. */
  lemma LowerIdempotent(s: string)
    ensures forall i :: 0 <= i < |s| ==> !('A' <= Lower(s)[i] <= 'Z')
    ensures Lower(Lower(s)) == Lower(s)
  {
  }

  /** `text.includes(term)`: `term` occurs in `text` as a contiguous block. */
  function Includes(text: string, term: string): (r: bool)
    ensures term == [] ==> r
    ensures r ==> |term| <= |text|
    decreases |text|
  {
    if |term| > |text| then false
    else if text[..|term|] == term then true
    else if text == [] then false
    else Includes(text[1..], term)
  }

  /** `term` occurs in `text` starting at position `i`. */
  predicate OccursAt(text: string, term: string, i: int) {
    0 <= i <= |text| - |term| && text[i..i + |term|] == term
  }

  /** `Includes` finds exactly the positions where `term` occurs. */
  lemma {:induction false} IncludesIffOccurs(text: string, term: string)
    ensures Includes(text, term) <==> exists i :: OccursAt(text, term, i)
  {
    if |term| > |text| {
    } else if text[..|term|] == term {
      assert OccursAt(text, term, 0);
    } else if text == [] {
    } else {
      IncludesIffOccurs(text[1..], term);
      if exists i :: OccursAt(text, term, i) {
        var i :| OccursAt(text, term, i);
        assert i != 0;
        assert text[1..][i - 1..i - 1 + |term|] == text[i..i + |term|];
        assert OccursAt(text[1..], term, i - 1);
      }
      if Includes(text[1..], term) {
        var i :| OccursAt(text[1..], term, i);
        assert text[1..][i..i + |term|] == text[i + 1..i + 1 + |term|];
        assert OccursAt(text, term, i + 1);
      }
    }
  }

  /** The search stage: the lower-cased term occurs in the lower-cased title or description. */
  predicate Mentions(term: string, t: Task) {
    Includes(Lower(t.title), Lower(term)) || Includes(Lower(t.description), Lower(term))
  }

  // ---------------------------------------------------------------------
  // The four filter stages and what they select together
  // ---------------------------------------------------------------------

  /** JavaScript truthiness of `filter.projectId`: present and not the empty string. */
  predicate RestrictsProject(projectId: Option<string>) {
    projectId.Some? && projectId.value != ""
  }

  /** All active restrictions of the filter hold of the task at once. */
  predicate Matches(filter: TaskFilter, t: Task)
    ensures (filter.status == AnyStatus && !RestrictsProject(filter.projectId) &&
             filter.priority == AnyPriority && filter.search == "") ==> Matches(filter, t)
  {
    && (filter.status == Active ==> !t.completed)
    && (filter.status == Completed ==> t.completed)
    && (RestrictsProject(filter.projectId) ==> t.projectId == filter.projectId.value)
    && (filter.priority.Exactly? ==> t.priority == filter.priority.level)
    && (filter.search != "" ==> Mentions(filter.search, t))
  }

  function Matching(filter: TaskFilter): Task -> bool {
    (t: Task) => Matches(filter, t)
  }

  /** The tasks the filter lets through, in input order. */
  function Selected(filter: TaskFilter, tasks: seq<Task>): (r: seq<Task>)
    ensures |r| <= |tasks|
    ensures forall t :: t in r <==> t in tasks && Matches(filter, t)
  {
    Filter(Matching(filter), tasks)
  }

  // The predicates handed to `filter` by the four stages.

  predicate IsOpen(t: Task) { !t.completed }

  predicate IsDone(t: Task) { t.completed }

  function InProject(projectId: string): Task -> bool {
    (t: Task) => t.projectId == projectId
  }

  function AtLevel(level: Priority): Task -> bool {
    (t: Task) => t.priority == level
  }

  function Mentioning(term: string): Task -> bool {
    (t: Task) => Mentions(term, t)
  }

  /** Each selected task satisfies the filter, and each input task that satisfies it is selected, in order. */
  lemma SelectedSoundComplete(filter: TaskFilter, tasks: seq<Task>)
    ensures forall t :: t in Selected(filter, tasks) <==> t in tasks && Matches(filter, t)
    ensures Subsequence(Selected(filter, tasks), tasks)
  {
    FilterSubsequence(Matching(filter), tasks);
  }

  // ---------------------------------------------------------------------
  // The sort comparator and the order it produces
  // ---------------------------------------------------------------------

  /** The weights of the 'priority' comparator. */
  function Rank(p: Priority): int {
    match p
    case High => 3
    case Medium => 2
    case Low => 1
  }

  /**
   * The comparator: negative puts `a` first, positive puts `b` first. For
   * 'dueDate' a task without a due date compares as 1 on the left and -1 on
   * the right, so two undated tasks compare as 1 both ways.
   */
  function Compare(option: SortOption, a: Task, b: Task): int {
    match option
    case ByDueDate =>
      if a.dueDate.None? then 1
      else if b.dueDate.None? then -1
      else a.dueDate.value - b.dueDate.value
    case ByPriority => Rank(b.priority) - Rank(a.priority)
    case ByCreatedAt => b.createdAt - a.createdAt
  }

  /**
   * `a` may come before `b`: dated tasks by ascending due date and before
   * every undated one; priority high to low; newest creation time first.
   */
  predicate InOrder(option: SortOption, a: Task, b: Task) {
    match option
    case ByDueDate => b.dueDate.None? || (a.dueDate.Some? && a.dueDate.value <= b.dueDate.value)
    case ByPriority => Rank(a.priority) >= Rank(b.priority)
    case ByCreatedAt => a.createdAt >= b.createdAt
  }

  predicate Sorted(option: SortOption, s: seq<Task>) {
    forall i, j :: 0 <= i < j < |s| ==> InOrder(option, s[i], s[j])
  }

  /**
   * What a sorted list looks like under each option: priority never rises;
   * no dated task follows an undated one and due dates never fall; creation
   * times never rise.
   */
  lemma SortedReadings(option: SortOption, s: seq<Task>)
    requires Sorted(option, s)
    ensures option == ByPriority ==>
              forall i, j :: 0 <= i < j < |s| ==> Rank(s[i].priority) >= Rank(s[j].priority)
    ensures option == ByDueDate ==>
              forall i, j :: 0 <= i < j < |s| && s[i].dueDate.None? ==> s[j].dueDate.None?
    ensures option == ByDueDate ==>
              forall i, j :: 0 <= i < j < |s| && s[j].dueDate.Some? ==>
                s[i].dueDate.Some? && s[i].dueDate.value <= s[j].dueDate.value
    ensures option == ByCreatedAt ==>
              forall i, j :: 0 <= i < j < |s| ==> s[i].createdAt >= s[j].createdAt
  {
  }

  /**
   * The tasks the comparator cannot tell from `x`: neither may be put
   * strictly before the other. That is the same due date (or none at all),
   * the same priority, the same creation time.
   */
  function TiedWith(option: SortOption, x: Task): Task -> bool {
    (t: Task) => InOrder(option, t, x) && InOrder(option, x, t)
  }

  /**
   * What the comparator's sign means: under 'dueDate' it is negative exactly
   * when `a` has a due date and `b` has none or a later one; under
   * 'priority' when `a` ranks higher; under 'createdAt' when `a` is newer.
   * So a negative result is exactly the case where `b` may not come before `a`.
   */
  lemma CompareSign(option: SortOption, a: Task, b: Task)
    ensures option == ByDueDate ==>
              (Compare(option, a, b) < 0 <==> a.dueDate.Some? && (b.dueDate.None? || a.dueDate.value < b.dueDate.value))
    ensures option == ByPriority ==> (Compare(option, a, b) < 0 <==> Rank(a.priority) > Rank(b.priority))
    ensures option == ByCreatedAt ==> (Compare(option, a, b) < 0 <==> a.createdAt > b.createdAt)
    ensures Compare(option, a, b) < 0 <==> !InOrder(option, b, a)
  {
  }

  /** `InOrder` is a total preorder: reflexive, total and transitive. */
  lemma CompareConsistent(option: SortOption, a: Task, b: Task, c: Task)
    ensures InOrder(option, a, a)
    ensures InOrder(option, a, b) || InOrder(option, b, a)
    ensures InOrder(option, a, b) && InOrder(option, b, c) ==> InOrder(option, a, c)
  {
  }

  /**
   * One step of insertion sort: `x` moves left past every element the
   * comparator puts after it (`comparefn(x, e)` negative, the new element
   * on the left as the engine's insertion passes call it) and stops at the
   * first that it does not. Adds exactly `x`.
   */
  function Insert(option: SortOption, x: Task, sorted: seq<Task>): (r: seq<Task>)
    ensures |r| == |sorted| + 1
    ensures multiset(r) == multiset(sorted) + multiset{x}
  {
    if sorted == [] then [x]
    else
      var n := |sorted| - 1;
      assert sorted == sorted[..n] + [sorted[n]];
      if Compare(option, x, sorted[n]) < 0 then Insert(option, x, sorted[..n]) + [sorted[n]]
      else sorted + [x]
  }

  /** Stable insertion sort with the comparator: each element in turn is inserted into the sorted prefix. */
  function SortBy(option: SortOption, s: seq<Task>): (r: seq<Task>)
    ensures multiset(r) == multiset(s)
  {
    if s == [] then []
    else
      var n := |s| - 1;
      assert s == s[..n] + [s[n]];
      Insert(option, s[n], SortBy(option, s[..n]))
  }

  /** A sorted sequence extended by an element that may follow all of it stays sorted. */
  lemma AppendSorted(option: SortOption, s: seq<Task>, y: Task)
    requires Sorted(option, s)
    requires forall z :: z in s ==> InOrder(option, z, y)
    ensures Sorted(option, s + [y])
  {
    forall i, j | 0 <= i < j < |s + [y]|
      ensures InOrder(option, (s + [y])[i], (s + [y])[j])
    {
      if j == |s| {
        assert (s + [y])[i] in s;
      }
    }
  }

  /** Inserting into a sorted sequence keeps it sorted. */
  lemma {:induction false} InsertSorted(option: SortOption, x: Task, sorted: seq<Task>)
    requires Sorted(option, sorted)
    ensures Sorted(option, Insert(option, x, sorted))
  {
    if sorted != [] {
      var n := |sorted| - 1;
      var last := sorted[n];
      forall z | z in sorted
        ensures InOrder(option, z, last)
      {
        var i :| 0 <= i < |sorted| && sorted[i] == z;
        if i < n {
          assert InOrder(option, sorted[i], sorted[n]);
        } else {
          CompareConsistent(option, z, z, z);
        }
      }
      CompareSign(option, x, last);
      if Compare(option, x, last) < 0 {
        var front := sorted[..n];
        assert Sorted(option, front);
        InsertSorted(option, x, front);
        var ins := Insert(option, x, front);
        forall z | z in ins
          ensures InOrder(option, z, last)
        {
          assert z in multiset(ins);
          if z != x {
            assert z in multiset(front);
            assert z in front;
          } else {
            CompareConsistent(option, x, last, last);
          }
        }
        AppendSorted(option, ins, last);
      } else {
        forall z | z in sorted
          ensures InOrder(option, z, x)
        {
          CompareConsistent(option, z, last, x);
        }
        AppendSorted(option, sorted, x);
      }
    }
  }

  /**
   * Where insertion stops: if the comparator puts `x` before every element
   * from position `j` on and not before the one at `j - 1` (if any), `x`
   * lands at `j`.
   */
  lemma {:induction false} InsertLands(option: SortOption, x: Task, sorted: seq<Task>, j: int)
    requires 0 <= j <= |sorted|
    requires j > 0 ==> Compare(option, x, sorted[j - 1]) >= 0
    requires forall k :: j <= k < |sorted| ==> Compare(option, x, sorted[k]) < 0
    ensures Insert(option, x, sorted) == sorted[..j] + [x] + sorted[j..]
  {
    if sorted == [] {
      assert sorted[..j] + [x] + sorted[j..] == [x];
    } else if j < |sorted| {
      var n := |sorted| - 1;
      InsertLands(option, x, sorted[..n], j);
      ShiftedPast(sorted, n, j, x);
    } else {
      assert sorted[..j] == sorted && sorted[j..] == [];
    }
  }

  /** Appending the last element after an insertion at `j` is inserting at `j` into the whole. */
  lemma ShiftedPast(sorted: seq<Task>, n: int, j: int, x: Task)
    requires 0 <= j <= n && n + 1 == |sorted|
    ensures (sorted[..n][..j] + [x] + sorted[..n][j..]) + [sorted[n]] == sorted[..j] + [x] + sorted[j..]
  {
    assert sorted[..n][..j] == sorted[..j];
    assert sorted[..n][j..] + [sorted[n]] == sorted[j..];
  }

  /** `InsertLands`, position by position: a sequence laid out that way is the insertion. */
  lemma InsertedAt(option: SortOption, x: Task, sorted: seq<Task>, j: int, b: seq<Task>)
    requires 0 <= j <= |sorted| && |b| == |sorted| + 1
    requires j > 0 ==> Compare(option, x, sorted[j - 1]) >= 0
    requires forall k :: j <= k < |sorted| ==> Compare(option, x, sorted[k]) < 0
    requires forall k :: 0 <= k < j ==> b[k] == sorted[k]
    requires b[j] == x
    requires forall k :: j < k <= |sorted| ==> b[k] == sorted[k - 1]
    ensures b == Insert(option, x, sorted)
  {
    InsertLands(option, x, sorted, j);
    var landed := sorted[..j] + [x] + sorted[j..];
    assert forall k :: j < k <= |sorted| ==> landed[k] == sorted[j..][k - j - 1];
  }

  /** The result of the sort is ordered as the comparator asks. */
  lemma {:induction false} SortBySorted(option: SortOption, s: seq<Task>)
    ensures Sorted(option, SortBy(option, s))
  {
    if s != [] {
      var n := |s| - 1;
      SortBySorted(option, s[..n]);
      InsertSorted(option, s[n], SortBy(option, s[..n]));
    }
  }

  /** Two tasks not tied to each other are not both tied with `x`, so their tie groups commute. */
  lemma UntiedCommute(option: SortOption, x: Task, y: Task, z: Task)
    requires !TiedWith(option, y)(z)
    ensures Filter(TiedWith(option, x), [y]) + Filter(TiedWith(option, x), [z])
         == Filter(TiedWith(option, x), [z]) + Filter(TiedWith(option, x), [y])
  {
    CompareConsistent(option, z, x, y);
    CompareConsistent(option, y, x, z);
  }

  /** Inserting `y` adds `y` at the end of the tasks tied with `x`, and disturbs no other tie group. */
  lemma {:induction false} InsertKeepsTies(option: SortOption, x: Task, y: Task, sorted: seq<Task>)
    ensures Filter(TiedWith(option, x), Insert(option, y, sorted))
         == Filter(TiedWith(option, x), sorted) + Filter(TiedWith(option, x), [y])
  {
    var tied := TiedWith(option, x);
    if sorted != [] {
      var n := |sorted| - 1;
      var front, last := sorted[..n], sorted[n];
      assert sorted == front + [last];
      if Compare(option, y, last) < 0 {
        CompareSign(option, y, last);
        InsertKeepsTies(option, x, y, front);
        UntiedCommute(option, x, y, last);
        TiesAfterShift(tied, Insert(option, y, front), front, last, y);
      } else {
        FilterAppend(tied, sorted, [y]);
      }
    }
  }

  /** The step of `InsertKeepsTies` where the inserted task moves past `last`, which is not tied with it. */
  lemma TiesAfterShift(tied: Task -> bool, inserted: seq<Task>, front: seq<Task>, last: Task, y: Task)
    requires Filter(tied, inserted) == Filter(tied, front) + Filter(tied, [y])
    requires Filter(tied, [y]) + Filter(tied, [last]) == Filter(tied, [last]) + Filter(tied, [y])
    ensures Filter(tied, inserted + [last]) == Filter(tied, front + [last]) + Filter(tied, [y])
  {
    FilterAppend(tied, inserted, [last]);
    FilterAppend(tied, front, [last]);
    SwapLast(Filter(tied, front), Filter(tied, [y]), Filter(tied, [last]));
  }

  lemma SwapLast<T>(f: seq<T>, b: seq<T>, c: seq<T>)
    requires b + c == c + b
    ensures (f + b) + c == (f + c) + b
  {
    assert (f + b) + c == f + (b + c);
    assert (f + c) + b == f + (c + b);
  }

  /**
   * Stability: for every task `x`, the tasks tied with `x` leave the sort in
   * the order they entered it. Under 'dueDate' the undated tasks are tied
   * with one another, so they keep their input order.
   */
  lemma {:induction false} SortByStable(option: SortOption, x: Task, s: seq<Task>)
    ensures Filter(TiedWith(option, x), SortBy(option, s)) == Filter(TiedWith(option, x), s)
  {
    if s != [] {
      var n := |s| - 1;
      SortByStable(option, x, s[..n]);
      InsertKeepsTies(option, x, s[n], SortBy(option, s[..n]));
      FilterAppend(TiedWith(option, x), s[..n], [s[n]]);
      assert s == s[..n] + [s[n]];
    }
  }

  // ---------------------------------------------------------------------
  // The in-place sort and filterTasks
  // ---------------------------------------------------------------------

  /**
   * The shifting half of one pass of the in-place insertion sort: every
   * element of the sorted prefix `a[..i]` that the comparator puts after `x` moves one
   * place right, and the returned `j` is the hole left for `x`.
   */
  method MakeRoom(a: array<Task>, i: nat, x: Task, option: SortOption) returns (j: nat)
    requires i < a.Length
    modifies a
    ensures j <= i
    ensures forall k :: 0 <= k < a.Length && (k < j || i < k) ==> a[k] == old(a[k])
    ensures forall k :: j < k <= i ==> a[k] == old(a[k - 1]) && Compare(option, x, a[k]) < 0
    ensures j > 0 ==> Compare(option, x, a[j - 1]) >= 0
  {
    j := i;
    while j > 0 && Compare(option, x, a[j - 1]) < 0
      invariant j <= i
      invariant forall k :: 0 <= k < a.Length && (k < j || i < k) ==> a[k] == old(a[k])
      invariant forall k :: j < k <= i ==> a[k] == old(a[k - 1]) && Compare(option, x, a[k]) < 0
    {
      a[j] := a[j - 1];
      j := j - 1;
    }
  }

  /**
   * One pass of the in-place insertion sort: `a[i]` is moved left into the
   * sorted prefix `a[..i]`, shifting right every element it passes.
   */
  method InsertInPlace(a: array<Task>, i: nat, option: SortOption)
    requires i < a.Length
    modifies a
    ensures a[..i + 1] == Insert(option, old(a[i]), old(a[..i]))
    ensures forall k :: i < k < a.Length ==> a[k] == old(a[k])
  {
    var x := a[i];
    ghost var sorted := a[..i];
    var j := MakeRoom(a, i, x, option);
    assert forall k :: j <= k < i ==> sorted[k] == a[k + 1];
    a[j] := x;
    InsertedAt(option, x, sorted, j, a[..i + 1]);
  }

  /** Sorting one more element is inserting it into the sorted rest. */
  lemma SortBySnoc(option: SortOption, s: seq<Task>, x: Task)
    ensures SortBy(option, s + [x]) == Insert(option, x, SortBy(option, s))
  {
    assert (s + [x])[..|s|] == s;
  }

  /** Sorting the first `i + 1` elements is inserting element `i` into the sorted first `i`. */
  lemma SortByPrefix(option: SortOption, s: seq<Task>, i: nat)
    requires i < |s|
    ensures SortBy(option, s[..i + 1]) == Insert(option, s[i], SortBy(option, s[..i]))
  {
    assert s[..i + 1][..i] == s[..i];
  }

  /** One pass of the in-place sort, stated against the sort of the input's first `i + 1` elements. */
  method SortStep(a: array<Task>, i: nat, option: SortOption, ghost input: seq<Task>)
    requires i < a.Length == |input|
    requires a[..i] == SortBy(option, input[..i])
    requires forall k :: i <= k < a.Length ==> a[k] == input[k]
    modifies a
    ensures a[..i + 1] == SortBy(option, input[..i + 1])
    ensures forall k :: i < k < a.Length ==> a[k] == input[k]
  {
    SortByPrefix(option, input, i);
    ghost var goal := Insert(option, input[i], a[..i]);
    InsertInPlace(a, i, option);
    assert a[..i + 1] == goal;
  }

  /** `Array.prototype.sort` with the comparator, as the insertion sort `SortBy` describes. */
  method SortInPlace(a: array<Task>, option: SortOption)
    modifies a
    ensures a[..] == SortBy(option, old(a[..]))
  {
    ghost var input := a[..];
    for i := 0 to a.Length
      invariant a[..i] == SortBy(option, input[..i])
      invariant forall k :: i <= k < a.Length ==> a[k] == input[k]
    {
      SortStep(a, i, option, input);
    }
    assert input[..a.Length] == input;
  }

  /**
   * What the sorted selection is: exactly the matching tasks, each as often
   * as in the input, ordered as the comparator asks, with ties in input order.
   */
  lemma SortedSelection(filter: TaskFilter, tasks: seq<Task>, option: SortOption)
    ensures forall t :: t in SortBy(option, Selected(filter, tasks)) <==> t in tasks && Matches(filter, t)
    ensures forall t :: multiset(SortBy(option, Selected(filter, tasks)))[t] ==
                        if Matches(filter, t) then multiset(tasks)[t] else 0
    ensures Sorted(option, SortBy(option, Selected(filter, tasks)))
    ensures forall x :: Filter(TiedWith(option, x), SortBy(option, Selected(filter, tasks)))
                     == Filter(TiedWith(option, x), Selected(filter, tasks))
  {
    var selected := Selected(filter, tasks);
    forall t
      ensures multiset(SortBy(option, selected))[t] == if Matches(filter, t) then multiset(tasks)[t] else 0
    {
      FilterMultiplicity(Matching(filter), tasks, t);
    }
    forall t
      ensures t in SortBy(option, selected) <==> t in tasks && Matches(filter, t)
    {
      assert t in SortBy(option, selected) <==> t in multiset(SortBy(option, selected));
    }
    SortBySorted(option, selected);
    forall x
      ensures Filter(TiedWith(option, x), SortBy(option, selected)) == Filter(TiedWith(option, x), selected)
    {
      SortByStable(option, x, selected);
    }
  }

  // What each stage keeps; a stage that is switched off keeps everything.

  function StatusStage(status: StatusFilter): Task -> bool {
    match status
    case Active => IsOpen
    case Completed => IsDone
    case AnyStatus => _ => true
  }

  function ProjectStage(projectId: Option<string>): Task -> bool {
    if RestrictsProject(projectId) then InProject(projectId.value) else _ => true
  }

  function PriorityStage(priority: PriorityFilter): Task -> bool {
    match priority
    case Exactly(level) => AtLevel(level)
    case AnyPriority => _ => true
  }

  function SearchStage(search: string): Task -> bool {
    if search != "" then Mentioning(search) else _ => true
  }

  /** Running the four stages one after another selects exactly the tasks that match the whole filter. */
  lemma StagesSelect(filter: TaskFilter, tasks: seq<Task>)
    ensures Filter(SearchStage(filter.search),
              Filter(PriorityStage(filter.priority),
                Filter(ProjectStage(filter.projectId),
                  Filter(StatusStage(filter.status), tasks))))
         == Selected(filter, tasks)
  {
    var s1, s2 := StatusStage(filter.status), ProjectStage(filter.projectId);
    var s3, s4 := PriorityStage(filter.priority), SearchStage(filter.search);
    FilterThen(s1, s2, tasks);
    FilterThen(Both(s1, s2), s3, tasks);
    FilterThen(Both(Both(s1, s2), s3), s4, tasks);
    StagesAgree(filter);
    FilterAgree(Both(Both(Both(s1, s2), s3), s4), Matching(filter), tasks);
  }

  /** A task passes all four stages exactly when it matches the filter. */
  lemma StagesAgree(filter: TaskFilter)
    ensures forall t: Task ::
      Both(Both(Both(StatusStage(filter.status), ProjectStage(filter.projectId)),
                PriorityStage(filter.priority)), SearchStage(filter.search))(t)
      == Matches(filter, t)
  {
    forall t: Task
      ensures StatusStage(filter.status)(t) == ((filter.status == Active ==> !t.completed) &&
                                                (filter.status == Completed ==> t.completed))
      ensures ProjectStage(filter.projectId)(t) == (RestrictsProject(filter.projectId) ==> t.projectId == filter.projectId.value)
      ensures PriorityStage(filter.priority)(t) == (filter.priority.Exactly? ==> t.priority == filter.priority.level)
      ensures SearchStage(filter.search)(t) == (filter.search != "" ==> Mentions(filter.search, t))
    {
    }
  }

  /**
   * The four filter stages of filterTasks: narrow the list by status,
   * project, priority and search text in turn.
   */
  method NarrowTasks(tasks: seq<Task>, filter: TaskFilter) returns (filtered: seq<Task>)
    ensures filtered == Selected(filter, tasks)
  {
    filtered := tasks;

    if filter.status == Active {
      filtered := Filter(IsOpen, filtered);
    } else if filter.status == Completed {
      filtered := Filter(IsDone, filtered);
    } else {
      FilterKeepsAll(StatusStage(filter.status), filtered);
    }
    ghost var afterStatus := filtered;
    assert afterStatus == Filter(StatusStage(filter.status), tasks);

    if RestrictsProject(filter.projectId) {
      filtered := Filter(InProject(filter.projectId.value), filtered);
    } else {
      FilterKeepsAll(ProjectStage(filter.projectId), filtered);
    }
    ghost var afterProject := filtered;
    assert afterProject == Filter(ProjectStage(filter.projectId), afterStatus);

    if filter.priority != AnyPriority {
      filtered := Filter(AtLevel(filter.priority.level), filtered);
    } else {
      FilterKeepsAll(PriorityStage(filter.priority), filtered);
    }
    ghost var afterPriority := filtered;
    assert afterPriority == Filter(PriorityStage(filter.priority), afterProject);

    if filter.search != "" {
      filtered := Filter(Mentioning(filter.search), filtered);
    } else {
      FilterKeepsAll(SearchStage(filter.search), filtered);
    }
    assert filtered == Filter(SearchStage(filter.search), afterPriority);
    StagesSelect(filter, tasks);
  }

  /** The sort step of filterTasks: the list is copied into an array and sorted there in place. */
  method SortTasks(tasks: seq<Task>, option: SortOption) returns (sorted: seq<Task>)
    ensures sorted == SortBy(option, tasks)
  {
    var copy := new Task[|tasks|](i requires 0 <= i < |tasks| => tasks[i]);
    assert copy[..] == tasks;
    SortInPlace(copy, option);
    sorted := copy[..];
  }

  /** filterTasks: the filter stages on a copy of the list, then the sort. */
  method FilterTasks(tasks: seq<Task>, filter: TaskFilter, sortOption: SortOption) returns (result: seq<Task>)
    ensures result == SortBy(sortOption, Selected(filter, tasks))
    ensures forall t :: t in result <==> t in tasks && Matches(filter, t)
    ensures forall t :: multiset(result)[t] == if Matches(filter, t) then multiset(tasks)[t] else 0
    ensures Sorted(sortOption, result)
    ensures forall x :: Filter(TiedWith(sortOption, x), result) == Filter(TiedWith(sortOption, x), Selected(filter, tasks))
  {
    var filtered := NarrowTasks(tasks, filter);
    result := SortTasks(filtered, sortOption);
    SortedSelection(filter, tasks, sortOption);
  }
}
