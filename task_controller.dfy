/** The `/tasks` endpoints: which status and envelope each request gets, and what it
    does to the stored rows. Each handler that writes is a pure decision over the rows
    and a method that carries it out through the service. The authenticated user is a
    parameter. */
module TaskController {
  import opened Wrappers
  import opened Json
  import opened Clock
  import opened Http
  import opened TaskEntity
  import opened TaskTable
  import opened TaskRepository
  import opened TaskService

  const AccessDenied := "Acesso negado"
  const InvalidData := "Dados inválidos"
  const TaskCreated := "Tarefa criada com sucesso"
  const TaskUpdated := "Tarefa atualizada com sucesso"
  const TaskRemoved := "Tarefa removida com sucesso"
  const TaskToggled := "Status da tarefa atualizado"

  /** `['success' => true, 'message' => ..., 'data' => ...]`. */
  function Success<T>(status: int, message: Option<string>, data: T): Response<T> {
    Response(status, true, message, Some(data), [], None)
  }

  /** `['success' => false, 'errors' => ...]` with 422. */
  function Unprocessable<T>(errors: seq<Violation>): Response<T> {
    Response(UnprocessableEntity, false, None, None, errors, None)
  }

  /** The framework's answer to an exception nobody catches: 500, outside the envelope. */
  function ServerError<T>(): Response<T> {
    Response(InternalServerError, false, None, None, [], None)
  }

  /** The framework's answer when the `{id}` of the route names no task: the entity
      converter fails before the handler runs. */
  function UnknownTask<T>(): Response<T> {
    Response(NotFound, false, None, None, [], None)
  }

  // ---------------------------------------------------------------------------
  // Read handlers

  /** The query string of `GET /tasks`: each parameter absent, or present as text. */
  datatype Query = Query(
    completed: Option<string>,
    priority: Option<string>,
    category: Option<string>,
    search: Option<string>)

  /** The filters `index` builds: `completed` is converted only when present, and the
      current user is always added. */
  function IndexFilters(q: Query, user: UserId, parseBool: string -> bool): Filters {
    Filters(
      if q.completed.Some? then Some(parseBool(q.completed.value)) else None,
      q.priority, q.category, q.search, Some(user))
  }

  function Index(rows: seq<TaskData>, user: UserId, q: Query, parseBool: string -> bool): Response<seq<TaskData>> {
    var tasks := GetFilteredTasks(rows, IndexFilters(q, user, parseBool));
    Response(Ok, true, None, Some(tasks), [], Some(|tasks|))
  }

  /** `index` answers 200 with a count equal to the number of tasks returned; every task
      returned belongs to the current user, a missing `completed` parameter filters
      nothing, and every task of the user matching the query is returned. */
  lemma IndexScopedAndCounted(rows: seq<TaskData>, user: UserId, q: Query, parseBool: string -> bool)
    ensures var r := Index(rows, user, q, parseBool);
      && r.status == Ok && r.success && r.data.Some? && r.count == Some(|r.data.value|)
      && (forall i :: 0 <= i < |r.data.value| ==> r.data.value[i].owner == Some(user))
      && (q.completed.None? ==> IndexFilters(q, user, parseBool).completed.None?)
      && (forall t :: t in rows && Matches(IndexFilters(q, user, parseBool), t) ==> t in r.data.value)
  {
    var f := IndexFilters(q, user, parseBool);
    var data := FindByFilters(rows, f);
    forall i | 0 <= i < |data| ensures data[i].owner == Some(user) {
      FindByFiltersSound(rows, f, data[i]);
    }
    forall t | t in rows && Matches(f, t) ensures t in data {
      FindByFiltersComplete(rows, f, t);
    }
  }

  function Stats(rows: seq<TaskData>, user: UserId, now: Instant): Response<TaskStatistics> {
    Response(Ok, true, None, Some(GetTaskStatistics(rows, user, now)), [], None)
  }

  function Categories(rows: seq<TaskData>, user: UserId): Response<seq<string>> {
    Response(Ok, true, None, Some(GetAvailableCategories(rows, user)), [], None)
  }

  function Overdue(rows: seq<TaskData>, user: UserId, now: Instant): Response<seq<TaskData>> {
    var tasks := GetOverdueTasks(rows, user, now);
    Response(Ok, true, None, Some(tasks), [], Some(|tasks|))
  }

  /** `overdue` answers 200 with exactly the user's overdue tasks and their count. */
  lemma OverdueCounted(rows: seq<TaskData>, user: UserId, now: Instant)
    ensures var r := Overdue(rows, user, now);
      && r.status == Ok && r.data.Some? && r.count == Some(|r.data.value|)
      && (forall i :: 0 <= i < |r.data.value| ==> IsOverdue(user, now, r.data.value[i]))
      && (forall i :: 0 <= i < |rows| && IsOverdue(user, now, rows[i]) ==> rows[i] in r.data.value)
  {
    var r := FindOverdueTasks(rows, user, now);
    FindOverdueTasksCorrect(rows, user, now);
    forall i | 0 <= i < |rows| && IsOverdue(user, now, rows[i]) ensures rows[i] in r {
      assert multiset(rows)[rows[i]] > 0;
    }
  }

  function Show(rows: seq<TaskData>, user: UserId, id: int): Response<TaskData> {
    match FindById(rows, id)
    case None => UnknownTask()
    case Some(t) => if t.owner != Some(user) then Refusal(Forbidden, AccessDenied) else Success(Ok, None, t)
  }

  /** `show` returns a task only to its owner, and only the stored task with that id;
      an unknown id is 404. */
  lemma ShowOnlyOwn(rows: seq<TaskData>, user: UserId, id: int)
    ensures var r := Show(rows, user, id);
      && (r.success ==> r.status == Ok && r.data.Some? && r.data.value in rows
                        && r.data.value.id == Some(id) && r.data.value.owner == Some(user))
      && (!r.success ==> r.status in {NotFound, Forbidden})
      && (r.status == NotFound <==> FindById(rows, id).None?)
  {
  }

  // ---------------------------------------------------------------------------
  // Write handlers as decisions

  /** What a write request answers and the rows it leaves behind. */
  datatype Decision<T> = Decision(response: Response<T>, rows: seq<TaskData>)

  function CreateDecision(rows: seq<TaskData>, nextId: int, user: UserId, body: Body, now: Instant,
                          parse: string -> Option<Instant>): Decision<TaskData>
  {
    if IsEmptyBody(body) then Decision(Refusal(BadRequest, InvalidData), rows)
    else
      var d := Drafted(body.fields, user, now, parse);
      if !IsValid(d) then Decision(Unprocessable(Violations(d)), rows)
      else if !ColumnsFit(d) then Decision(ServerError(), rows)
      else
        var t := d.(id := Some(nextId), createdAt := Some(now), updatedAt := Some(now));
        Decision(Success(Created, Some(TaskCreated), t), rows + [t])
  }

  function UpdateDecision(rows: seq<TaskData>, user: UserId, id: int, body: Body, now: Instant,
                          parse: string -> Option<Instant>): Decision<TaskData>
  {
    match FindById(rows, id)
    case None => Decision(UnknownTask(), rows)
    case Some(t) =>
      if t.owner != Some(user) then Decision(Refusal(Forbidden, AccessDenied), rows)
      else if IsEmptyBody(body) then Decision(Refusal(BadRequest, InvalidData), rows)
      else
        var after := Populate(t, body.fields, now, parse);
        if !IsValid(after) then Decision(Unprocessable(Violations(after)), rows)
        else if Dirty(t, after, body.fields) && !ColumnsFit(after) then Decision(ServerError(), rows)
        else
          var saved := Flushed(t, after, body.fields, now);
          Decision(Success(Ok, Some(TaskUpdated), saved),
                   if Dirty(t, after, body.fields) then ReplaceById(rows, saved) else rows)
  }

  function DeleteDecision(rows: seq<TaskData>, user: UserId, id: int): Decision<TaskData> {
    match FindById(rows, id)
    case None => Decision(UnknownTask(), rows)
    case Some(t) =>
      if t.owner != Some(user) then Decision(Refusal(Forbidden, AccessDenied), rows)
      else Decision(Response(Ok, true, Some(TaskRemoved), None, [], None), RemoveById(rows, id))
  }

  function ToggleDecision(rows: seq<TaskData>, user: UserId, id: int, now: Instant): Decision<TaskData> {
    match FindById(rows, id)
    case None => Decision(UnknownTask(), rows)
    case Some(t) =>
      if t.owner != Some(user) then Decision(Refusal(Forbidden, AccessDenied), rows)
      else
        var saved := Toggled(t, now);
        Decision(Success(Ok, Some(TaskToggled), saved), ReplaceById(rows, saved))
  }

  /** A task of another user is refused with 403 by every handler that names it, before
      the body is looked at, and the rows stay as they were. */
  lemma OwnerGuardFirst(rows: seq<TaskData>, user: UserId, id: int, body: Body, now: Instant,
                        parse: string -> Option<Instant>)
    requires FindById(rows, id).Some? && FindById(rows, id).value.owner != Some(user)
    ensures Show(rows, user, id) == Refusal(Forbidden, AccessDenied)
    ensures UpdateDecision(rows, user, id, body, now, parse) == Decision(Refusal(Forbidden, AccessDenied), rows)
    ensures DeleteDecision(rows, user, id) == Decision(Refusal(Forbidden, AccessDenied), rows)
    ensures ToggleDecision(rows, user, id, now) == Decision(Refusal(Forbidden, AccessDenied), rows)
  {
  }

  /** Every refused write leaves the rows as they were; an empty body is 400 for `create`
      and, for the owner, for `update`; a valid task whose row the database refuses (a
      category over 100 characters) is 500 and stores nothing. */
  lemma RefusalsChangeNothing(rows: seq<TaskData>, nextId: int, user: UserId, id: int, body: Body,
                              now: Instant, parse: string -> Option<Instant>)
    ensures var c := CreateDecision(rows, nextId, user, body, now, parse);
      && (!c.response.success ==> c.rows == rows)
      && (IsEmptyBody(body) ==> c.response == Refusal(BadRequest, InvalidData))
      && (!IsEmptyBody(body) ==>
            var d := Drafted(body.fields, user, now, parse);
            && (c.response.success <==> IsValid(d) && ColumnsFit(d))
            && (c.response.status == InternalServerError <==> IsValid(d) && !ColumnsFit(d)))
    ensures var u := UpdateDecision(rows, user, id, body, now, parse);
      && (!u.response.success ==> u.rows == rows)
      && (FindById(rows, id).Some? && FindById(rows, id).value.owner == Some(user) && IsEmptyBody(body)
          ==> u.response == Refusal(BadRequest, InvalidData))
      && (FindById(rows, id).Some? && FindById(rows, id).value.owner == Some(user) && !IsEmptyBody(body)
          ==> var t := FindById(rows, id).value;
              var after := Populate(t, body.fields, now, parse);
              (u.response.status == InternalServerError <==>
                 IsValid(after) && Dirty(t, after, body.fields) && !ColumnsFit(after)))
    ensures !DeleteDecision(rows, user, id).response.success ==> DeleteDecision(rows, user, id).rows == rows
    ensures !ToggleDecision(rows, user, id, now).response.success ==> ToggleDecision(rows, user, id, now).rows == rows
  {
  }

  /** The tasks of other users are the same before and after. */
  ghost predicate OthersUntouched(before: seq<TaskData>, after: seq<TaskData>, user: UserId) {
    && (forall i :: 0 <= i < |before| && before[i].owner != Some(user) ==> before[i] in after)
    && (forall i :: 0 <= i < |after| && after[i].owner != Some(user) ==> after[i] in before)
  }

  lemma ReplaceOwnKeepsOthers(rows: seq<TaskData>, nextId: int, user: UserId, t: TaskData, saved: TaskData)
    requires WellFormed(rows, nextId) && t in rows && t.owner == Some(user)
    requires saved.id == t.id && saved.owner == Some(user)
    ensures OthersUntouched(rows, ReplaceById(rows, saved), user)
  {
    var k :| 0 <= k < |rows| && rows[k] == t;
    ReplaceByIdExact(rows, nextId, k, saved);
    var after := rows[k := saved];
    forall i | 0 <= i < |rows| && rows[i].owner != Some(user) ensures rows[i] in after {
      assert after[i] == rows[i];
    }
    forall i | 0 <= i < |after| && after[i].owner != Some(user) ensures after[i] in rows {
      assert after[i] == rows[i];
    }
  }

  lemma RemoveOwnKeepsOthers(rows: seq<TaskData>, nextId: int, user: UserId, id: int, t: TaskData)
    requires WellFormed(rows, nextId) && t in rows && t.id == Some(id) && t.owner == Some(user)
    ensures OthersUntouched(rows, RemoveById(rows, id), user)
  {
    var k :| 0 <= k < |rows| && rows[k] == t;
    forall i | 0 <= i < |rows| && rows[i].owner != Some(user) ensures rows[i].id != Some(id) {
      assert i != k;
    }
  }

  /** A create only ever appends a task owned by the user. */
  lemma CreateKeepsOthers(rows: seq<TaskData>, nextId: int, user: UserId, body: Body,
                          now: Instant, parse: string -> Option<Instant>)
    ensures OthersUntouched(rows, CreateDecision(rows, nextId, user, body, now, parse).rows, user)
  {
    var c := CreateDecision(rows, nextId, user, body, now, parse);
    if c.rows != rows {
      var d := Drafted(body.fields, user, now, parse);
      assert c.rows == rows + [c.rows[|rows|]] && c.rows[|rows|].owner == Some(user);
      forall i | 0 <= i < |c.rows| && c.rows[i].owner != Some(user) ensures c.rows[i] in rows {
        assert i < |rows| && c.rows[i] == rows[i];
      }
    }
  }

  /** An update only ever replaces a task the user owns, and the saved task keeps its
      id, owner and creation time. */
  lemma UpdateKeepsOthers(rows: seq<TaskData>, nextId: int, user: UserId, id: int, body: Body,
                          now: Instant, parse: string -> Option<Instant>)
    requires WellFormed(rows, nextId)
    ensures OthersUntouched(rows, UpdateDecision(rows, user, id, body, now, parse).rows, user)
    ensures var u := UpdateDecision(rows, user, id, body, now, parse);
      u.response.success ==>
        && FindById(rows, id).Some? && u.response.data.Some?
        && u.response.data.value.id == Some(id) && u.response.data.value.owner == Some(user)
        && u.response.data.value.createdAt == FindById(rows, id).value.createdAt
  {
    match FindById(rows, id)
    case None =>
    case Some(t) =>
      if t.owner == Some(user) && !IsEmptyBody(body) {
        var after := Populate(t, body.fields, now, parse);
        ReplaceOwnKeepsOthers(rows, nextId, user, t, Flushed(t, after, body.fields, now));
      }
  }

  /** Whatever a user asks, the tasks of every other user are left exactly as they were:
      a write only ever adds, replaces or removes a task the user owns, and a replaced
      task keeps its id, owner and creation time. */
  lemma OnlyOwnTasksChange(rows: seq<TaskData>, nextId: int, user: UserId, id: int, body: Body,
                           now: Instant, parse: string -> Option<Instant>)
    requires WellFormed(rows, nextId)
    ensures OthersUntouched(rows, CreateDecision(rows, nextId, user, body, now, parse).rows, user)
    ensures OthersUntouched(rows, UpdateDecision(rows, user, id, body, now, parse).rows, user)
    ensures OthersUntouched(rows, DeleteDecision(rows, user, id).rows, user)
    ensures OthersUntouched(rows, ToggleDecision(rows, user, id, now).rows, user)
    ensures var u := UpdateDecision(rows, user, id, body, now, parse);
      u.response.success ==>
        && FindById(rows, id).Some? && u.response.data.Some?
        && u.response.data.value.id == Some(id) && u.response.data.value.owner == Some(user)
        && u.response.data.value.createdAt == FindById(rows, id).value.createdAt
  {
    CreateKeepsOthers(rows, nextId, user, body, now, parse);
    UpdateKeepsOthers(rows, nextId, user, id, body, now, parse);
    match FindById(rows, id)
    case None =>
    case Some(t) =>
      if t.owner == Some(user) {
        RemoveOwnKeepsOthers(rows, nextId, user, id, t);
        ReplaceOwnKeepsOthers(rows, nextId, user, t, Toggled(t, now));
      }
  }

  // ---------------------------------------------------------------------------
  // Write handlers carried out

  method Create(table: TaskTable, user: UserId, body: Body, now: Instant, parse: string -> Option<Instant>)
      returns (r: Response<TaskData>)
    requires table.Valid()
    modifies table
    ensures table.Valid()
    ensures var d := CreateDecision(old(table.rows), old(table.nextId), user, body, now, parse);
      r == d.response && table.rows == d.rows
  {
    if IsEmptyBody(body) {
      return Refusal(BadRequest, InvalidData);
    }
    var result := CreateTask(table, body.fields, user, now, parse);
    match result
    case Invalid(errors) => r := Unprocessable(errors);
    case Failed => r := ServerError();
    case Saved(t) => r := Success(Created, Some(TaskCreated), t);
  }

  method Update(table: TaskTable, user: UserId, id: int, body: Body, now: Instant, parse: string -> Option<Instant>)
      returns (r: Response<TaskData>)
    requires table.Valid()
    modifies table
    ensures table.Valid()
    ensures var d := UpdateDecision(old(table.rows), user, id, body, now, parse);
      r == d.response && table.rows == d.rows
  {
    var found := table.Find(id);
    if found.None? {
      return UnknownTask();
    }
    var task := new Task.Load(found.value);
    if task.owner != Some(user) {
      return Refusal(Forbidden, AccessDenied);
    }
    if IsEmptyBody(body) {
      return Refusal(BadRequest, InvalidData);
    }
    var result := UpdateTask(table, task, body.fields, now, parse);
    match result
    case Invalid(errors) => r := Unprocessable(errors);
    case Failed => r := ServerError();
    case Saved(t) => r := Success(Ok, Some(TaskUpdated), t);
  }

  method Delete(table: TaskTable, user: UserId, id: int) returns (r: Response<TaskData>)
    requires table.Valid()
    modifies table
    ensures table.Valid()
    ensures var d := DeleteDecision(old(table.rows), user, id);
      r == d.response && table.rows == d.rows
  {
    var found := table.Find(id);
    if found.None? {
      return UnknownTask();
    }
    var task := new Task.Load(found.value);
    if task.owner != Some(user) {
      return Refusal(Forbidden, AccessDenied);
    }
    DeleteTask(table, task);
    r := Response(Ok, true, Some(TaskRemoved), None, [], None);
  }

  method Toggle(table: TaskTable, user: UserId, id: int, now: Instant) returns (r: Response<TaskData>)
    requires table.Valid()
    modifies table
    ensures table.Valid()
    ensures var d := ToggleDecision(old(table.rows), user, id, now);
      r == d.response && table.rows == d.rows
  {
    var found := table.Find(id);
    if found.None? {
      return UnknownTask();
    }
    var task := new Task.Load(found.value);
    if task.owner != Some(user) {
      return Refusal(Forbidden, AccessDenied);
    }
    var t := ToggleTaskComplete(table, task, now);
    r := Success(Ok, Some(TaskToggled), t);
  }
}
