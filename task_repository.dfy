/** The read queries of the task repository, as functions over the stored rows. */
module TaskRepository {
  import opened Wrappers
  import opened Text
  import opened Clock
  import opened Seqs
  import opened Sorting
  import opened TaskEntity

  /** The arguments of `findByFilters`; `None` is a PHP `null` (no filter). */
  datatype Filters = Filters(
    completed: Option<bool>,
    priority: Option<string>,
    category: Option<string>,
    search: Option<string>,
    user: Option<UserId>)

  /** `t.user = :user`, applied only when a user is given. */
  predicate InScope(t: TaskData, user: Option<UserId>) {
    user.None? || t.owner == user
  }

  /** `t.title LIKE :search OR t.description LIKE :search` with `%search%`;
      a null column never matches. */
  predicate MatchesSearch(t: TaskData, search: string) {
    || (t.title.Some? && IsSubstring(search, t.title.value))
    || (t.description.Some? && IsSubstring(search, t.description.value))
  }

  /** The conjunction of all active conditions of `findByFilters`. */
  predicate Matches(f: Filters, t: TaskData) {
    && InScope(t, f.user)
    && (f.completed.Some? ==> t.completed == f.completed.value)
    && (f.priority.Some? ==> t.priority == f.priority.value)
    && (f.category.Some? ==> t.category == Some(f.category.value))
    && (f.search.Some? ==> MatchesSearch(t, f.search.value))
  }

  /** `ORDER BY createdAt DESC`; PostgreSQL places nulls first in descending order. */
  predicate CreatedNoEarlier(a: TaskData, b: TaskData) {
    match (a.createdAt, b.createdAt)
    case (None, _) => true
    case (Some(_), None) => false
    case (Some(x), Some(y)) => x >= y
  }

  /** `ORDER BY dueDate ASC`; nulls last. */
  predicate DueNoLater(a: TaskData, b: TaskData) {
    match (a.dueDate, b.dueDate)
    case (_, None) => true
    case (None, Some(_)) => false
    case (Some(x), Some(y)) => x <= y
  }

  lemma CreatedOrderIsPreorder()
    ensures TotalPreorder(CreatedNoEarlier)
  {
  }

  lemma DueOrderIsPreorder()
    ensures TotalPreorder(DueNoLater)
  {
  }

  /** The rows matching every active filter, newest first. Ties keep no particular
      order in the database; the model fixes one. */
  function FindByFilters(tasks: seq<TaskData>, f: Filters): seq<TaskData> {
    CreatedOrderIsPreorder();
    SortBy(CreatedNoEarlier, Filter(t => Matches(f, t), tasks))
  }

  /** Sound and complete: a row is returned, as often as it is stored, exactly when it
      matches every active filter; and the result is ordered by creation, newest first. */
  lemma FindByFiltersCorrect(tasks: seq<TaskData>, f: Filters)
    ensures var r := FindByFilters(tasks, f);
      && (forall t :: multiset(r)[t] == if Matches(f, t) then multiset(tasks)[t] else 0)
      && (forall i, j :: 0 <= i < j < |r| ==> CreatedNoEarlier(r[i], r[j]))
  {
    CreatedOrderIsPreorder();
    forall t ensures multiset(FindByFilters(tasks, f))[t] == if Matches(f, t) then multiset(tasks)[t] else 0 {
      FilterMultiplicity(t => Matches(f, t), tasks, t);
    }
  }

  /** Every result matches each active filter by exact equality, and lies in the user's
      scope. */
  lemma FindByFiltersSound(tasks: seq<TaskData>, f: Filters, t: TaskData)
    requires t in FindByFilters(tasks, f)
    ensures t in tasks
    ensures f.user.Some? ==> t.owner == f.user
    ensures f.completed.Some? ==> t.completed == f.completed.value
    ensures f.priority.Some? ==> t.priority == f.priority.value
    ensures f.category.Some? ==> t.category == f.category
    ensures f.search.Some? ==> MatchesSearch(t, f.search.value)
  {
    FindByFiltersCorrect(tasks, f);
    assert multiset(FindByFilters(tasks, f))[t] > 0;
  }

  /** Every stored row that passes all active filters is returned. */
  lemma FindByFiltersComplete(tasks: seq<TaskData>, f: Filters, t: TaskData)
    requires t in tasks && Matches(f, t)
    ensures t in FindByFilters(tasks, f)
  {
    FindByFiltersCorrect(tasks, f);
    assert multiset(tasks)[t] > 0;
  }

  /** With no user, and nothing else, every row comes back. */
  lemma FindByFiltersUnscoped(tasks: seq<TaskData>)
    ensures multiset(FindByFilters(tasks, Filters(None, None, None, None, None))) == multiset(tasks)
  {
    var f := Filters(None, None, None, None, None);
    FindByFiltersCorrect(tasks, f);
    assert forall t :: Matches(f, t);
  }

  /** An empty search text matches every row: `LIKE '%%'` on a non-null title. */
  lemma EmptySearchMatchesTitled(t: TaskData)
    requires t.title.Some?
    ensures MatchesSearch(t, "")
  {
    EmptyIsSubstring(t.title.value);
  }

  // ---------------------------------------------------------------------------

  /** The counts of `getTaskStats`. */
  datatype TaskStats = TaskStats(total: int, completed: int, pending: int)

  predicate OwnedBy(user: UserId, t: TaskData) {
    t.owner == Some(user)
  }

  predicate OwnedCompleted(user: UserId, t: TaskData) {
    t.owner == Some(user) && t.completed
  }

  predicate OwnedPending(user: UserId, t: TaskData) {
    t.owner == Some(user) && !t.completed
  }

  /** `COUNT` of the user's tasks, `COUNT` of the completed ones, and their difference. */
  function GetTaskStats(tasks: seq<TaskData>, user: UserId): TaskStats {
    var total := |Filter(t => OwnedBy(user, t), tasks)|;
    var completed := |Filter(t => OwnedCompleted(user, t), tasks)|;
    TaskStats(total, completed, total - completed)
  }

  /** The counts are bounded by each other, and `pending` is exactly the number of the
      user's tasks that are not completed. */
  lemma GetTaskStatsCorrect(tasks: seq<TaskData>, user: UserId)
    ensures var s := GetTaskStats(tasks, user);
      && 0 <= s.completed <= s.total <= |tasks|
      && s.pending == s.total - s.completed
      && s.pending == |Filter(t => OwnedPending(user, t), tasks)|
  {
    var owned := Filter(t => OwnedBy(user, t), tasks);
    FilterOfFilter(t => OwnedBy(user, t), t => OwnedCompleted(user, t), tasks);
    FilterOfFilter(t => OwnedBy(user, t), t => OwnedPending(user, t), tasks);
    FilterPartition(t => OwnedCompleted(user, t), t => OwnedPending(user, t), owned);
  }

  // ---------------------------------------------------------------------------

  /** `dueDate < :now AND completed = false AND user = :user`; a null due date
      compares as unknown and is never selected. */
  predicate IsOverdue(user: UserId, now: Instant, t: TaskData) {
    t.owner == Some(user) && !t.completed && t.dueDate.Some? && t.dueDate.value < now
  }

  /** The user's overdue tasks, earliest due date first. */
  function FindOverdueTasks(tasks: seq<TaskData>, user: UserId, now: Instant): seq<TaskData> {
    DueOrderIsPreorder();
    SortBy(DueNoLater, Filter(t => IsOverdue(user, now, t), tasks))
  }

  /** Exactly the user's uncompleted tasks due strictly before `now`, each as often as it
      is stored, sorted by due date ascending. */
  lemma FindOverdueTasksCorrect(tasks: seq<TaskData>, user: UserId, now: Instant)
    ensures var r := FindOverdueTasks(tasks, user, now);
      && (forall t :: multiset(r)[t] == if IsOverdue(user, now, t) then multiset(tasks)[t] else 0)
      && (forall i :: 0 <= i < |r| ==> IsOverdue(user, now, r[i]))
      && (forall i, j :: 0 <= i < j < |r| ==> r[i].dueDate.value <= r[j].dueDate.value)
  {
    DueOrderIsPreorder();
    var r := FindOverdueTasks(tasks, user, now);
    forall t ensures multiset(r)[t] == if IsOverdue(user, now, t) then multiset(tasks)[t] else 0 {
      FilterMultiplicity(t => IsOverdue(user, now, t), tasks, t);
    }
    forall i | 0 <= i < |r| ensures IsOverdue(user, now, r[i]) {
      assert r[i] in multiset(r);
    }
  }

  /** A task due yesterday that is pending is overdue; the same task completed is not. */
  lemma OverdueExample(t: TaskData, user: UserId, now: Instant)
    requires t.owner == Some(user) && t.dueDate == Some(now - SecondsPerDay)
    ensures IsOverdue(user, now, t.(completed := false))
    ensures !IsOverdue(user, now, t.(completed := true))
  {
  }

  // ---------------------------------------------------------------------------

  /** Strictly ascending: sorted with no repetitions. */
  ghost predicate StrictlyAscending(s: seq<string>) {
    forall i, j :: 0 <= i < j < |s| ==> LexLess(s[i], s[j])
  }

  ghost function Elems(s: seq<string>): set<string> {
    set x | x in s
  }

  /** Inserts `c` into an ascending list of distinct categories, unless present. */
  function InsertCategory(c: string, s: seq<string>): (r: seq<string>)
    requires StrictlyAscending(s)
    ensures StrictlyAscending(r)
    ensures Elems(r) == Elems(s) + {c}
  {
    if s == [] then [c]
    else if c == s[0] then s
    else if LexLess(c, s[0]) then
      InsertBefore(c, s);
      [c] + s
    else
      LexLessTotal(c, s[0]);
      var t := InsertCategory(c, s[1..]);
      InsertAfter(c, s, t);
      [s[0]] + t
  }

  lemma InsertBefore(c: string, s: seq<string>)
    requires StrictlyAscending(s) && s != [] && LexLess(c, s[0])
    ensures StrictlyAscending([c] + s)
    ensures Elems([c] + s) == Elems(s) + {c}
  {
    forall j | 0 < j < |s| ensures LexLess(c, s[j]) {
      LexLessTransitive(c, s[0], s[j]);
    }
  }

  lemma InsertAfter(c: string, s: seq<string>, t: seq<string>)
    requires StrictlyAscending(s) && s != [] && LexLess(s[0], c)
    requires StrictlyAscending(t) && Elems(t) == Elems(s[1..]) + {c}
    ensures StrictlyAscending([s[0]] + t)
    ensures Elems([s[0]] + t) == Elems(s) + {c}
  {
    assert s == [s[0]] + s[1..];
    forall k | 0 <= k < |t| ensures LexLess(s[0], t[k]) {
      assert t[k] in Elems(t);
      if t[k] != c {
        assert t[k] in Elems(s[1..]);
        var m :| 0 <= m < |s[1..]| && s[1..][m] == t[k];
        assert s[1 + m] == t[k];
      }
    }
    assert Elems([s[0]] + t) == {s[0]} + Elems(t);
    assert Elems(s) == {s[0]} + Elems(s[1..]);
  }

  /** The categories of a user's tasks, in the order they are collected. */
  function DistinctCategories(tasks: seq<TaskData>, user: UserId): (r: seq<string>)
    ensures StrictlyAscending(r)
    ensures Elems(r) == CategoriesOf(tasks, user)
  {
    if tasks == [] then []
    else
      var rest := DistinctCategories(tasks[1..], user);
      var t := tasks[0];
      assert tasks == [t] + tasks[1..];
      if t.owner == Some(user) && t.category.Some? then InsertCategory(t.category.value, rest) else rest
  }

  /** The non-null categories among the user's tasks. */
  ghost function CategoriesOf(tasks: seq<TaskData>, user: UserId): set<string> {
    set t | t in tasks && t.owner == Some(user) && t.category.Some? :: t.category.value
  }

  /** `SELECT DISTINCT t.category ... WHERE t.category IS NOT NULL ORDER BY t.category ASC`:
      no nulls, no duplicates, ascending, and exactly the categories in use. */
  function GetAvailableCategories(tasks: seq<TaskData>, user: UserId): (r: seq<string>)
    ensures forall i, j :: 0 <= i < j < |r| ==> LexLess(r[i], r[j]) && r[i] != r[j]
    ensures forall c :: c in r <==> c in CategoriesOf(tasks, user)
  {
    var r := DistinctCategories(tasks, user);
    assert forall i, j :: 0 <= i < j < |r| ==> r[i] != r[j] by {
      forall i, j | 0 <= i < j < |r| ensures r[i] != r[j] {
        LexLessIrreflexive(r[i]);
      }
    }
    assert forall c :: c in r <==> c in Elems(r);
    r
  }
}
