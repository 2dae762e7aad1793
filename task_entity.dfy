/** The Task entity: its fields, their defaults, the validation constraints
    declared on them, its setters and its lifecycle callbacks. */
module TaskEntity {
  import opened Wrappers
  import opened Clock
  import opened Http

  /** The id of a User; the User entity itself is not part of this model. */
  type UserId = int

  /** The three priorities the entity accepts. */
  const Priorities: seq<string> := ["baixa", "media", "alta"]

  /** A snapshot of a Task's fields; the persisted table holds these. The owner,
      which the service sets and the controller reads, is an explicit field. */
  datatype TaskData = TaskData(
    id: Option<int>,
    owner: Option<UserId>,
    title: Option<string>,
    description: Option<string>,
    completed: bool,
    priority: string,
    category: Option<string>,
    createdAt: Option<Instant>,
    updatedAt: Option<Instant>,
    dueDate: Option<Instant>)

  /** The fields of `new Task()`. */
  const NewTask: TaskData :=
    TaskData(None, None, None, None, false, "media", None, None, None, None)

  const TitleRequired := "O título é obrigatório"
  const TitleTooShort := "O título deve ter pelo menos 3 caracteres"
  const TitleTooLong := "O título não pode ter mais de 255 caracteres"
  const DescriptionTooLong := "A descrição não pode ter mais de 1000 caracteres"
  const PriorityInvalid := "A prioridade deve ser: baixa, media ou alta"

  /** NotBlank: null and "" are blank; white space and "0" are not. */
  predicate IsBlank(s: Option<string>) {
    s.None? || s.value == ""
  }

  /** NotBlank, then Length(min 3, max 255; the maximum is checked first). */
  function TitleViolations(title: Option<string>): seq<Violation> {
    (if IsBlank(title) then [Violation("title", TitleRequired)] else [])
    + (match title
       case None => []
       case Some(t) =>
         if |t| > 255 then [Violation("title", TitleTooLong)]
         else if |t| < 3 then [Violation("title", TitleTooShort)]
         else [])
  }

  /** Length(max 1000); null is not checked. */
  function DescriptionViolations(description: Option<string>): seq<Violation> {
    match description
    case Some(d) => if |d| > 1000 then [Violation("description", DescriptionTooLong)] else []
    case None => []
  }

  /** Choice(baixa, media, alta). */
  function PriorityViolations(priority: string): seq<Violation> {
    if priority in Priorities then [] else [Violation("priority", PriorityInvalid)]
  }

  /** What the entity's constraints demand: a non-blank title of 3 to 255 characters,
      a description of at most 1000 characters, and one of the three priorities.
      The category has only a column length, no constraint. */
  predicate IsValid(d: TaskData) {
    && d.title.Some? && d.title.value != "" && 3 <= |d.title.value| <= 255
    && (d.description.Some? ==> |d.description.value| <= 1000)
    && d.priority in Priorities
  }

  /** The violations the validator reports, in property declaration order. */
  function Violations(d: TaskData): (v: seq<Violation>)
    ensures v == [] <==> IsValid(d)
    ensures forall i :: 0 <= i < |v| ==> v[i].field in {"title", "description", "priority"}
  {
    TitleViolations(d.title) + DescriptionViolations(d.description) + PriorityViolations(d.priority)
  }

  /** A new task is invalid until it is given a title: the default priority passes. */
  lemma NewTaskViolations()
    ensures NewTask.id.None? && NewTask.title.None? && !NewTask.completed && NewTask.priority == "media"
    ensures Violations(NewTask) == [Violation("title", TitleRequired)]
  {
  }

  /** A title of two characters fails, one of three passes (other fields valid). */
  lemma TitleBoundary(d: TaskData)
    requires d.description.None? && d.priority == "alta"
    ensures Violations(d.(title := Some("ab"))) == [Violation("title", TitleTooShort)]
    ensures Violations(d.(title := Some("abc"))) == []
  {
  }

  /** The category is never checked: any category, however long, changes nothing. */
  lemma CategoryUnchecked(d: TaskData, c: Option<string>)
    ensures Violations(d.(category := c)) == Violations(d)
  {
  }

  /** The column lengths of the `tasks` table: `title VARCHAR(255) NOT NULL`,
      `priority VARCHAR(50)` and `category VARCHAR(100)`, counted in characters. A row
      that does not fit makes its INSERT or UPDATE fail. */
  predicate ColumnsFit(d: TaskData) {
    && d.title.Some? && |d.title.value| <= 255
    && |d.priority| <= 50
    && (d.category.Some? ==> |d.category.value| <= 100)
  }

  /** The constraints already keep the title and the priority within their columns, so
      a valid task overflows a column exactly when its category is over 100 characters. */
  lemma ValidOverflowsOnlyCategory(d: TaskData)
    requires IsValid(d)
    ensures !ColumnsFit(d) <==> d.category.Some? && |d.category.value| > 100
  {
  }

  /** A category of 101 characters passes validation but does not fit its column. */
  lemma CategoryOverflow(d: TaskData)
    requires IsValid(d) && d.category == Some(seq(101, _ => 'a'))
    ensures Violations(d) == [] && !ColumnsFit(d)
  {
  }

  class Task {
    var id: Option<int>
    var owner: Option<UserId>
    var title: Option<string>
    var description: Option<string>
    var completed: bool
    var priority: string
    var category: Option<string>
    var createdAt: Option<Instant>
    var updatedAt: Option<Instant>
    var dueDate: Option<Instant>

    /** The current field values. */
    function Data(): TaskData
      reads this
    {
      TaskData(id, owner, title, description, completed, priority, category, createdAt, updatedAt, dueDate)
    }

    /** `new Task()`: the declared defaults. */
    constructor ()
      ensures Data() == NewTask
    {
      id, owner, title, description := None, None, None, None;
      completed, priority, category := false, "media", None;
      createdAt, updatedAt, dueDate := None, None, None;
    }

    /** The object the ORM hydrates from a stored row. */
    constructor Load(d: TaskData)
      ensures Data() == d
    {
      id, owner, title, description := d.id, d.owner, d.title, d.description;
      completed, priority, category := d.completed, d.priority, d.category;
      createdAt, updatedAt, dueDate := d.createdAt, d.updatedAt, d.dueDate;
    }

    method SetUser(u: UserId)
      modifies this
      ensures Data() == old(Data()).(owner := Some(u))
    {
      owner := Some(u);
    }

    method SetTitle(t: string)
      modifies this
      ensures Data() == old(Data()).(title := Some(t))
    {
      title := Some(t);
    }

    method SetDescription(d: Option<string>)
      modifies this
      ensures Data() == old(Data()).(description := d)
    {
      description := d;
    }

    method SetCompleted(c: bool)
      modifies this
      ensures Data() == old(Data()).(completed := c)
    {
      completed := c;
    }

    method SetPriority(p: string)
      modifies this
      ensures Data() == old(Data()).(priority := p)
    {
      priority := p;
    }

    method SetCategory(c: Option<string>)
      modifies this
      ensures Data() == old(Data()).(category := c)
    {
      category := c;
    }

    method SetCreatedAt(t: Instant)
      modifies this
      ensures Data() == old(Data()).(createdAt := Some(t))
    {
      createdAt := Some(t);
    }

    method SetUpdatedAt(t: Instant)
      modifies this
      ensures Data() == old(Data()).(updatedAt := Some(t))
    {
      updatedAt := Some(t);
    }

    method SetDueDate(t: Option<Instant>)
      modifies this
      ensures Data() == old(Data()).(dueDate := t)
    {
      dueDate := t;
    }

    /** PrePersist: both timestamps become the current instant. */
    method SetCreatedAtValue(now: Instant)
      modifies this
      ensures Data() == old(Data()).(createdAt := Some(now), updatedAt := Some(now))
    {
      createdAt := Some(now);
      updatedAt := Some(now);
    }

    /** PreUpdate: only the update timestamp moves, and with a monotone clock it never
        moves back. */
    method SetUpdatedAtValue(now: Instant)
      modifies this
      ensures Data() == old(Data()).(updatedAt := Some(now))
      ensures old(updatedAt).Some? && old(updatedAt).value <= now ==> updatedAt.value >= old(updatedAt).value
    {
      updatedAt := Some(now);
    }
  }
}
