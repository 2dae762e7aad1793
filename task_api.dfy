/** The frontend's task API client: the query string of `getTasks` and the method and
    endpoint of every other call. */
module TaskApi {
  import opened Wrappers
  import opened Text
  import opened Json
  import opened ClientTypes

  /** One `params.append(key, value)`. */
  datatype Param = Param(key: string, value: string)

  /** A string option that is truthy in JavaScript. */
  predicate Present(v: Option<string>) {
    v.Some? && v.value != ""
  }

  /** `String(b)`. */
  function BoolText(b: bool): string {
    if b then "true" else "false"
  }

  /** The parameters `getTasks` appends, in order. */
  function QueryParams(filters: Option<ClientFilters>): seq<Param> {
    match filters
    case None => []
    case Some(f) =>
      (if f.completed.Some? then [Param("completed", BoolText(f.completed.value))] else [])
      + (if Present(f.priority) then [Param("priority", f.priority.value)] else [])
      + (if Present(f.category) then [Param("category", f.category.value)] else [])
      + (if Present(f.search) then [Param("search", f.search.value)] else [])
  }

  /** `getTasks` appending to its `URLSearchParams` one filter at a time. */
  method BuildQueryParams(filters: Option<ClientFilters>) returns (params: seq<Param>)
    ensures params == QueryParams(filters)
  {
    params := [];
    if filters.Some? && filters.value.completed.Some? {
      params := params + [Param("completed", BoolText(filters.value.completed.value))];
    }
    if filters.Some? && Present(filters.value.priority) {
      params := params + [Param("priority", filters.value.priority.value)];
    }
    if filters.Some? && Present(filters.value.category) {
      params := params + [Param("category", filters.value.category.value)];
    }
    if filters.Some? && Present(filters.value.search) {
      params := params + [Param("search", filters.value.search.value)];
    }
  }

  predicate HasKey(params: seq<Param>, key: string) {
    exists i :: 0 <= i < |params| && params[i].key == key
  }

  /** The position of a key in the fixed order completed, priority, category, search. */
  function KeyRank(key: string): int {
    if key == "completed" then 0 else if key == "priority" then 1 else if key == "category" then 2 else 3
  }

  /** `completed` is sent whenever it is defined, `false` included; the other filters
      are sent exactly when non-empty and verbatim; keys keep the fixed order. */
  lemma QueryParamsCorrect(f: ClientFilters)
    ensures var ps := QueryParams(Some(f));
      && |ps| <= 4
      && (f.completed.Some? <==> HasKey(ps, "completed"))
      && (f.completed.Some? ==> ps[0] == Param("completed", BoolText(f.completed.value)))
      && (f.completed == Some(false) ==> Param("completed", "false") in ps)
      && (Present(f.priority) <==> HasKey(ps, "priority"))
      && (Present(f.priority) ==> Param("priority", f.priority.value) in ps)
      && (Present(f.category) <==> HasKey(ps, "category"))
      && (Present(f.category) ==> Param("category", f.category.value) in ps)
      && (Present(f.search) <==> HasKey(ps, "search"))
      && (Present(f.search) ==> Param("search", f.search.value) in ps)
      && (forall i, j :: 0 <= i < j < |ps| ==> KeyRank(ps[i].key) < KeyRank(ps[j].key))
  {
    var ps := QueryParams(Some(f));
    var c := if f.completed.Some? then [Param("completed", BoolText(f.completed.value))] else [];
    var p := if Present(f.priority) then [Param("priority", f.priority.value)] else [];
    var k := if Present(f.category) then [Param("category", f.category.value)] else [];
    var s := if Present(f.search) then [Param("search", f.search.value)] else [];
    assert ps == c + p + k + s;
    QueryParamsLayout(f);
    if Present(f.priority) { assert ps[|c|] == p[0]; }
    if Present(f.category) { assert ps[|c + p|] == k[0]; }
    if Present(f.search) { assert ps[|c + p + k|] == s[0]; }
  }

  /** Each position of the query holds the key of one filter that is sent, with ranks
      rising from left to right. */
  lemma QueryParamsLayout(f: ClientFilters)
    ensures var ps := QueryParams(Some(f));
      && (forall i :: 0 <= i < |ps| ==>
            && (ps[i].key == "completed" ==> f.completed.Some?)
            && (ps[i].key == "priority" ==> Present(f.priority))
            && (ps[i].key == "category" ==> Present(f.category))
            && (ps[i].key == "search" ==> Present(f.search)))
      && (forall i, j :: 0 <= i < j < |ps| ==> KeyRank(ps[i].key) < KeyRank(ps[j].key))
  {
    var ps := QueryParams(Some(f));
    var c := if f.completed.Some? then [Param("completed", BoolText(f.completed.value))] else [];
    var p := if Present(f.priority) then [Param("priority", f.priority.value)] else [];
    var k := if Present(f.category) then [Param("category", f.category.value)] else [];
    var s := if Present(f.search) then [Param("search", f.search.value)] else [];
    assert ps == c + p + k + s;
    KeysDistinct();
    forall i | 0 <= i < |ps|
      ensures ps[i].key == "completed" ==> i < |c|
      ensures ps[i].key == "priority" ==> |c| <= i < |c + p|
      ensures ps[i].key == "category" ==> |c + p| <= i < |c + p + k|
      ensures ps[i].key == "search" ==> |c + p + k| <= i
      ensures KeyRank(ps[i].key) == if i < |c| then 0 else if i < |c + p| then 1 else if i < |c + p + k| then 2 else 3
    {
    }
  }

  lemma KeysDistinct()
    ensures "completed" != "priority" && "completed" != "category" && "completed" != "search"
    ensures "priority" != "category" && "priority" != "search" && "category" != "search"
  {
    assert "completed"[0] != "priority"[0] && "completed"[1] != "category"[1] && "completed"[0] != "search"[0];
    assert "priority"[0] != "category"[0] && "priority"[0] != "search"[0] && "category"[0] != "search"[0];
  }

  /** `params.toString()` with every value taken as it is. */
  function Serialize(params: seq<Param>): (s: string)
    ensures s == "" <==> params == []
  {
    if params == [] then ""
    else
      var first := params[0].key + "=" + params[0].value;
      if |params| == 1 then first else first + "&" + Serialize(params[1..])
  }

  /** The endpoint of `getTasks`. */
  function TasksEndpoint(filters: Option<ClientFilters>): string {
    var query := Serialize(QueryParams(filters));
    "/tasks" + (if query != "" then "?" + query else "")
  }

  /** The endpoint is exactly `/tasks`, with no `?`, when no filter is sent; sending
      only `completed: false` still adds the query. */
  lemma TasksEndpointBare(filters: Option<ClientFilters>)
    ensures TasksEndpoint(filters) == "/tasks" <==> QueryParams(filters) == []
    ensures TasksEndpoint(Some(NoFilters.(completed := Some(false)))) == "/tasks?completed=false"
    ensures TasksEndpoint(Some(NoFilters.(priority := Some(""), search := Some("")))) == "/tasks"
  {
    var query := Serialize(QueryParams(filters));
    if query != "" {
      assert |TasksEndpoint(filters)| > |"/tasks"|;
    }
  }

  datatype HttpMethod = GET | POST | PUT | PATCH | DELETE

  /** A call to the API: its method, endpoint and JSON body, if any. */
  datatype ApiCall = ApiCall(verb: HttpMethod, endpoint: string, body: Option<JsonObject>)

  /** `/tasks/${id}`. */
  function TaskPath(id: int): string {
    "/tasks/" + IntToString(id)
  }

  function GetTasks(filters: Option<ClientFilters>): ApiCall { ApiCall(GET, TasksEndpoint(filters), None) }
  function GetTask(id: int): ApiCall { ApiCall(GET, TaskPath(id), None) }
  function CreateTask(data: TaskPayload): ApiCall { ApiCall(POST, "/tasks", Some(PayloadJson(data))) }
  function UpdateTask(id: int, data: TaskPayload): ApiCall { ApiCall(PUT, TaskPath(id), Some(PayloadJson(data))) }
  function DeleteTask(id: int): ApiCall { ApiCall(DELETE, TaskPath(id), None) }
  function ToggleTask(id: int): ApiCall { ApiCall(PATCH, TaskPath(id) + "/toggle", None) }
  function GetStats(): ApiCall { ApiCall(GET, "/tasks/stats", None) }
  function GetCategories(): ApiCall { ApiCall(GET, "/tasks/categories", None) }
  function GetOverdueTasks(): ApiCall { ApiCall(GET, "/tasks/overdue", None) }

  /** Toggle, delete and update of a task all address the same `{id}` segment, which
      reads back as that id; toggle is PATCH on its `/toggle` sub-path, delete and
      update are DELETE and PUT on the task's own path. */
  lemma TaskCallsAddressTheTask(id: nat, data: TaskPayload)
    ensures ToggleTask(id).verb == PATCH && DeleteTask(id).verb == DELETE && UpdateTask(id, data).verb == PUT
    ensures DeleteTask(id).endpoint == UpdateTask(id, data).endpoint == TaskPath(id)
    ensures ToggleTask(id).endpoint[..|TaskPath(id)|] == TaskPath(id)
    ensures ToggleTask(id).endpoint != TaskPath(id)
    ensures var digits := TaskPath(id)[7..]; AllDigits(digits) && DigitsValue(digits) == id
  {
    assert TaskPath(id)[7..] == NatToString(id);
    DigitsValueOfNatToString(id);
    assert |ToggleTask(id).endpoint| > |TaskPath(id)|;
  }
}
