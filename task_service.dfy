/** The task service: creating, updating, toggling and deleting tasks against the
    persisted table, and the statistics it combines from the repository. */
module TaskService {
  import opened Wrappers
  import opened Json
  import opened Clock
  import opened Http
  import opened Seqs
  import opened TaskEntity
  import opened TaskTable
  import opened TaskRepository

  /** `['success' => false, 'errors' => ...]`, `['success' => true, 'task' => ...]`, or
      `Failed` when `flush` throws because the database refuses the row; nothing in the
      service catches that exception. */
  datatype Outcome = Invalid(errors: seq<Violation>) | Failed | Saved(task: TaskData)

  /** `validateDueDate`: no due date passes; otherwise it must not lie before now. */
  predicate ValidateDueDate(dueDate: Option<Instant>, now: Instant) {
    dueDate.None? || dueDate.value >= now
  }

  /** No due date, one a day ahead and one exactly now pass; one a day ago fails. */
  lemma ValidateDueDateCases(now: Instant)
    ensures ValidateDueDate(None, now)
    ensures ValidateDueDate(Some(now + SecondsPerDay), now)
    ensures ValidateDueDate(Some(now), now)
    ensures !ValidateDueDate(Some(now - SecondsPerDay), now)
  {
  }

  /** The check holds exactly for no due date or one not before now. A date that passes
      never falls on an earlier day than now, and one that passes now passed at every
      earlier instant too. */
  lemma ValidDueDateNotPastDay(dueDate: Option<Instant>, now: Instant, earlier: Instant)
    requires earlier <= now
    ensures ValidateDueDate(dueDate, now) <==> dueDate.None? || !(dueDate.value < now)
    ensures ValidateDueDate(dueDate, now) ==> ValidateDueDate(dueDate, earlier)
    ensures ValidateDueDate(dueDate, now) && dueDate.Some? ==> DayOf(dueDate.value) >= DayOf(now)
  {
    if dueDate.Some? && dueDate.value >= now {
      DayOfMonotone(now, dueDate.value);
    }
  }

  // ---------------------------------------------------------------------------
  // populateTaskFromArray

  /** The due date stored for a non-null `dueDate` input: a falsy value clears it, an
      unparsable one is dropped, and a date on a day before today is dropped because
      the exception raised for it is caught. A date earlier today is kept. */
  function NormalizeDueDate(raw: Json, now: Instant, parse: string -> Option<Instant>): Option<Instant>
    requires raw != JNull
  {
    if !Truthy(raw) then None
    else match parse(AsString(raw))
      case None => None
      case Some(d) => if !ValidateDueDate(Some(d), now) && DayOf(d) < DayOf(now) then None else Some(d)
  }

  /** The stored due date is the parsed one exactly when the input is truthy, parses, and
      falls on today or a later day; in every other case it is null. */
  lemma DueDateNormalization(raw: Json, now: Instant, parse: string -> Option<Instant>)
    requires raw != JNull
    ensures var r := NormalizeDueDate(raw, now, parse);
      && (!Truthy(raw) ==> r.None?)
      && (Truthy(raw) && parse(AsString(raw)).None? ==> r.None?)
      && (Truthy(raw) && parse(AsString(raw)).Some? ==>
            var d := parse(AsString(raw)).value;
            (r == Some(d) <==> DayOf(d) >= DayOf(now)) && (r.None? <==> DayOf(d) < DayOf(now)))
      && (r.Some? ==> DayOf(r.value) >= DayOf(now))
  {
    if Truthy(raw) && parse(AsString(raw)).Some? {
      var d := parse(AsString(raw)).value;
      if d >= now {
        DayOfMonotone(now, d);
      }
    }
  }

  /** An empty string clears the due date, and so does a date from yesterday. */
  lemma DueDateExamples(now: Instant, parse: string -> Option<Instant>, s: string)
    requires s != "" && s != "0" && parse(s) == Some(now - SecondsPerDay)
    ensures NormalizeDueDate(JString(""), now, parse) == None
    ensures NormalizeDueDate(JString(s), now, parse) == None
  {
    assert DayOf(now - SecondsPerDay) == DayOf(now) - 1;
  }

  /** The fields after `populateTaskFromArray`: each key that is set (present and not
      null) overwrites its field, after PHP's scalar conversion. */
  function Populate(d: TaskData, data: JsonObject, now: Instant, parse: string -> Option<Instant>): TaskData {
    d.(title := if IsSet(data, "title") then Some(AsString(data["title"])) else d.title,
       description := if IsSet(data, "description") then Some(AsString(data["description"])) else d.description,
       completed := if IsSet(data, "completed") then Truthy(data["completed"]) else d.completed,
       priority := if IsSet(data, "priority") then AsString(data["priority"]) else d.priority,
       category := if IsSet(data, "category") then Some(AsString(data["category"])) else d.category,
       dueDate := if IsSet(data, "dueDate") then NormalizeDueDate(data["dueDate"], now, parse) else d.dueDate)
  }

  /** A key that is absent or null leaves its field as it was, and the id, the owner
      and the timestamps are never touched. */
  lemma PopulateKeepsUnsetFields(d: TaskData, data: JsonObject, now: Instant, parse: string -> Option<Instant>)
    ensures var p := Populate(d, data, now, parse);
      && p.id == d.id && p.owner == d.owner && p.createdAt == d.createdAt && p.updatedAt == d.updatedAt
      && (!IsSet(data, "title") ==> p.title == d.title)
      && (!IsSet(data, "description") ==> p.description == d.description)
      && (!IsSet(data, "completed") ==> p.completed == d.completed)
      && (!IsSet(data, "priority") ==> p.priority == d.priority)
      && (!IsSet(data, "category") ==> p.category == d.category)
      && (!IsSet(data, "dueDate") ==> p.dueDate == d.dueDate)
  {
  }

  /** An explicit null cannot clear the description or the category; an empty string
      stores the empty string. */
  lemma PopulateNullKeeps(d: TaskData, data: JsonObject, now: Instant, parse: string -> Option<Instant>)
    requires "description" in data && data["description"] == JNull
    ensures Populate(d, data, now, parse).description == d.description
    ensures Populate(d, data["description" := JString("")], now, parse).description == Some("")
  {
  }

  /** Applying the same input twice is the same as applying it once. */
  lemma PopulateIdempotent(d: TaskData, data: JsonObject, now: Instant, parse: string -> Option<Instant>)
    ensures Populate(Populate(d, data, now, parse), data, now, parse) == Populate(d, data, now, parse)
  {
  }

  /** `populateTaskFromArray`, one setter per set key, in the source's order. */
  method PopulateTaskFromArray(task: Task, data: JsonObject, now: Instant, parse: string -> Option<Instant>)
    modifies task
    ensures task.Data() == Populate(old(task.Data()), data, now, parse)
  {
    PopulateFirstHalf(task, data);
    PopulateSecondHalf(task, data, now, parse);
  }

  /** The title, description and completed setters. */
  method PopulateFirstHalf(task: Task, data: JsonObject)
    modifies task
    ensures task.Data() == old(task.Data()).(
      title := if IsSet(data, "title") then Some(AsString(data["title"])) else old(task.title),
      description := if IsSet(data, "description") then Some(AsString(data["description"])) else old(task.description),
      completed := if IsSet(data, "completed") then Truthy(data["completed"]) else old(task.completed))
  {
    if IsSet(data, "title") {
      task.SetTitle(AsString(data["title"]));
    }
    if IsSet(data, "description") {
      task.SetDescription(Some(AsString(data["description"])));
    }
    if IsSet(data, "completed") {
      task.SetCompleted(Truthy(data["completed"]));
    }
  }

  /** The priority, category and due-date setters. */
  method PopulateSecondHalf(task: Task, data: JsonObject, now: Instant, parse: string -> Option<Instant>)
    modifies task
    ensures task.Data() == old(task.Data()).(
      priority := if IsSet(data, "priority") then AsString(data["priority"]) else old(task.priority),
      category := if IsSet(data, "category") then Some(AsString(data["category"])) else old(task.category),
      dueDate := if IsSet(data, "dueDate") then NormalizeDueDate(data["dueDate"], now, parse) else old(task.dueDate))
  {
    if IsSet(data, "priority") {
      task.SetPriority(AsString(data["priority"]));
    }
    if IsSet(data, "category") {
      task.SetCategory(Some(AsString(data["category"])));
    }
    if IsSet(data, "dueDate") {
      var dueDate := ReadDueDate(data["dueDate"], now, parse);
      task.SetDueDate(dueDate);
    }
  }

  /** The `dueDate` branch: null unless the value is truthy and parses, and null again
      when the date fails `validateDueDate` on a day before today, where the exception
      thrown for it is caught. */
  method ReadDueDate(raw: Json, now: Instant, parse: string -> Option<Instant>) returns (dueDate: Option<Instant>)
    requires raw != JNull
    ensures dueDate == NormalizeDueDate(raw, now, parse)
  {
    dueDate := None;
    if Truthy(raw) {
      var parsed := parse(AsString(raw));
      if parsed.Some? {
        dueDate := parsed;
        if !ValidateDueDate(dueDate, now) && DayOf(parsed.value) < DayOf(now) {
          dueDate := None;
        }
      }
    }
  }

  // ---------------------------------------------------------------------------
  // createTask, updateTask, deleteTask, toggleTaskComplete

  /** The task `createTask` validates: a new task owned by the user, then populated. */
  function Drafted(data: JsonObject, user: UserId, now: Instant, parse: string -> Option<Instant>): TaskData {
    Populate(NewTask.(owner := Some(user)), data, now, parse)
  }

  /** `createTask`: a valid draft that fits the columns is stored as one new row owned by
      the user, with a new id and both timestamps set to now; a valid one whose category
      overflows its column fails in `flush` and stores nothing; an invalid one is
      refused with its violations and nothing is stored. */
  method CreateTask(table: TaskTable, data: JsonObject, user: UserId, now: Instant, parse: string -> Option<Instant>)
      returns (r: Outcome)
    requires table.Valid()
    modifies table
    ensures table.Valid()
    ensures var d := Drafted(data, user, now, parse);
      if IsValid(d) && ColumnsFit(d) then
        && r == Saved(d.(id := Some(old(table.nextId)), createdAt := Some(now), updatedAt := Some(now)))
        && table.rows == old(table.rows) + [r.task]
      else if IsValid(d) then
        && r == Failed
        && table.rows == old(table.rows)
      else
        && r == Invalid(Violations(d))
        && table.rows == old(table.rows) && table.nextId == old(table.nextId)
    ensures r.Saved? ==> r.task.owner == Some(user) && IsValid(r.task)
  {
    var task := new Task();
    task.SetUser(user);
    PopulateTaskFromArray(task, data, now, parse);
    var errors := Violations(task.Data());
    if |errors| > 0 {
      return Invalid(errors);
    }
    task.SetCreatedAtValue(now);
    var stored := table.Insert(task.Data());
    if stored.None? {
      return Failed;
    }
    return Saved(stored.value);
  }

  /** Whether `flush` finds a change to write: some field differs, or the due date holds
      a new DateTime object, which the ORM compares by identity. */
  predicate Dirty(before: TaskData, after: TaskData, data: JsonObject) {
    after != before || (IsSet(data, "dueDate") && after.dueDate.Some?)
  }

  /** The task after `flush`: PreUpdate moves the update timestamp when there is a change. */
  function Flushed(before: TaskData, after: TaskData, data: JsonObject, now: Instant): TaskData {
    if Dirty(before, after, data) then after.(updatedAt := Some(now)) else after
  }

  /** `updateTask` on a stored task: the populated task, if valid, is flushed (its row
      replaced, its update timestamp moved when it changed), unless the changed row no
      longer fits the columns, when `flush` fails and the row stays; if invalid, its
      violations are returned and the table is left as it was. */
  method UpdateTask(table: TaskTable, task: Task, data: JsonObject, now: Instant, parse: string -> Option<Instant>)
      returns (r: Outcome)
    requires table.Valid() && task.id.Some? && table.Find(task.id.value) == Some(task.Data())
    modifies table, task
    ensures table.Valid()
    ensures var before := old(task.Data());
      var after := Populate(before, data, now, parse);
      if IsValid(after) then
        && task.Data() == Flushed(before, after, data, now)
        && (Dirty(before, after, data) && ColumnsFit(after) ==>
              r == Saved(task.Data()) && table.rows == ReplaceById(old(table.rows), task.Data()))
        && (Dirty(before, after, data) && !ColumnsFit(after) ==> r == Failed && table.rows == old(table.rows))
        && (!Dirty(before, after, data) ==> r == Saved(task.Data()) && table.rows == old(table.rows))
      else
        && task.Data() == after
        && r == Invalid(Violations(after))
        && table.rows == old(table.rows)
    ensures r.Saved? ==> && r.task.id == old(task.id) && r.task.owner == old(task.owner)
                         && r.task.createdAt == old(task.createdAt) && IsValid(r.task)
  {
    var before := task.Data();
    PopulateTaskFromArray(task, data, now, parse);
    var errors := Violations(task.Data());
    if |errors| > 0 {
      return Invalid(errors);
    }
    if Dirty(before, task.Data(), data) {
      task.SetUpdatedAtValue(now);
      var written := table.Write(task.Data());
      if !written {
        return Failed;
      }
    }
    return Saved(task.Data());
  }

  /** `deleteTask`: the task's row is removed, and it was the only one removed. */
  method DeleteTask(table: TaskTable, task: Task)
    requires table.Valid() && task.id.Some?
    modifies table
    ensures table.Valid()
    ensures table.rows == RemoveById(old(table.rows), task.id.value)
    ensures table.Find(task.id.value).None?
    ensures forall t :: t in old(table.rows) && t.id != task.id ==> t in table.rows
  {
    table.Delete(task.id.value);
  }

  /** The task after `toggleTaskComplete` has been flushed. */
  function Toggled(d: TaskData, now: Instant): TaskData {
    d.(completed := !d.completed, updatedAt := Some(now))
  }

  /** Toggling twice restores the completion flag and every field but the update
      timestamp, which ends at the later instant. */
  lemma ToggleTwice(d: TaskData, first: Instant, second: Instant)
    ensures Toggled(Toggled(d, first), second) == d.(updatedAt := Some(second))
    ensures Toggled(d, first).completed != d.completed
  {
  }

  /** `toggleTaskComplete`: flips the flag and flushes; the completion flag always changes,
      so PreUpdate always moves the update timestamp. The stored row fits the columns
      and the flag does not change that, so this `flush` always succeeds. */
  method ToggleTaskComplete(table: TaskTable, task: Task, now: Instant) returns (t: TaskData)
    requires table.Valid() && task.id.Some? && table.Find(task.id.value) == Some(task.Data())
    modifies table, task
    ensures table.Valid()
    ensures task.Data() == Toggled(old(task.Data()), now) && t == task.Data()
    ensures table.rows == ReplaceById(old(table.rows), t)
  {
    task.SetCompleted(!task.completed);
    task.SetUpdatedAtValue(now);
    var written := table.Write(task.Data());
    t := task.Data();
  }

  // ---------------------------------------------------------------------------
  // Read views

  /** `getFilteredTasks`: the repository query with the filters as given. */
  function GetFilteredTasks(rows: seq<TaskData>, f: Filters): seq<TaskData> {
    FindByFilters(rows, f)
  }

  /** `getTaskStatistics`: the repository counts merged with the overdue count. */
  datatype TaskStatistics = TaskStatistics(total: int, completed: int, pending: int, overdue: int)

  function GetTaskStatistics(rows: seq<TaskData>, user: UserId, now: Instant): TaskStatistics {
    var s := GetTaskStats(rows, user);
    TaskStatistics(s.total, s.completed, s.pending, |FindOverdueTasks(rows, user, now)|)
  }

  /** The statistics are the repository's counts plus the length of the overdue list,
      and no more tasks are overdue than are pending. */
  lemma GetTaskStatisticsCorrect(rows: seq<TaskData>, user: UserId, now: Instant)
    ensures var s := GetTaskStatistics(rows, user, now);
      && s.total == GetTaskStats(rows, user).total
      && s.completed == GetTaskStats(rows, user).completed
      && s.pending == s.total - s.completed
      && s.overdue == |FindOverdueTasks(rows, user, now)|
      && 0 <= s.overdue <= s.pending
  {
    GetTaskStatsCorrect(rows, user);
    FilterOfFilter(t => OwnedPending(user, t), t => IsOverdue(user, now, t), rows);
  }

  function GetOverdueTasks(rows: seq<TaskData>, user: UserId, now: Instant): seq<TaskData> {
    FindOverdueTasks(rows, user, now)
  }
}
