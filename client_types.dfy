/** The frontend's data shapes: a task as the API returns it, the filter object, the
    payload of the task form, and the signed-in user. A TypeScript optional property
    that is `undefined` is `None`. */
module ClientTypes {
  import opened Wrappers
  import opened Json

  /** A task as the API serializes it; instants are ISO strings. */
  datatype ClientTask = ClientTask(
    id: int,
    title: string,
    description: Option<string>,
    completed: bool,
    priority: string,
    category: Option<string>,
    createdAt: string,
    updatedAt: string,
    dueDate: Option<string>)

  /** `TaskFilters`: each key present or absent. */
  datatype ClientFilters = ClientFilters(
    completed: Option<bool>,
    priority: Option<string>,
    category: Option<string>,
    search: Option<string>)

  /** `{}`. */
  const NoFilters: ClientFilters := ClientFilters(None, None, None, None)

  /** `Object.keys(filters).length`. */
  function KeyCount(f: ClientFilters): (n: nat)
    ensures n <= 4
    ensures n == 0 <==> f == NoFilters
  {
    (if f.completed.Some? then 1 else 0) + (if f.priority.Some? then 1 else 0)
    + (if f.category.Some? then 1 else 0) + (if f.search.Some? then 1 else 0)
  }

  /** `CreateTaskData`, and with `completed` the `UpdateTaskData` sent on edit. */
  datatype TaskPayload = TaskPayload(
    title: string,
    priority: string,
    description: Option<string>,
    category: Option<string>,
    dueDate: Option<string>)

  /** The object `JSON.stringify` sends and `json_decode` reads back: keys whose value
      is `undefined` are dropped. */
  function PayloadJson(p: TaskPayload): (m: JsonObject)
    ensures "title" in m && m["title"] == JString(p.title)
    ensures "priority" in m && m["priority"] == JString(p.priority)
    ensures "description" in m <==> p.description.Some?
    ensures "category" in m <==> p.category.Some?
    ensures "dueDate" in m <==> p.dueDate.Some?
  {
    var m := map["title" := JString(p.title), "priority" := JString(p.priority)];
    var m := if p.description.Some? then m["description" := JString(p.description.value)] else m;
    var m := if p.category.Some? then m["category" := JString(p.category.value)] else m;
    if p.dueDate.Some? then m["dueDate" := JString(p.dueDate.value)] else m
  }

  /** The signed-in user as the API returns it. */
  datatype ClientUser = ClientUser(id: int, email: string, name: string, createdAt: string, updatedAt: string)
}
