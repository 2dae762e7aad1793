/** The task form: the `datetime-local` rendering of a due date, the prefill of an
    edit, the mapping of the submitted form to the request payload, and the field
    rules. */
module TaskForm {
  import opened Wrappers
  import opened Text
  import opened Clock
  import opened ClientTypes
  import opened FormRules
  import TaskEntity
  import TaskService
  import Http

  // ---------------------------------------------------------------------------
  // formatDateTimeLocal

  /** The local calendar fields a `Date` reads back; `getMonth()` counts from 0. */
  datatype DateParts = DateParts(year: int, month: int, day: int, hours: int, minutes: int)

  /** The ranges the `Date` getters return, for a four-digit year. */
  predicate InRange(d: DateParts) {
    && 1000 <= d.year <= 9999 && 0 <= d.month <= 11 && 1 <= d.day <= 31
    && 0 <= d.hours <= 23 && 0 <= d.minutes <= 59
  }

  /** `String(n).padStart(2, '0')`. */
  function Two(n: int): string {
    PadStart(IntToString(n), 2, '0')
  }

  /** `${year}-${month}-${day}T${hours}:${minutes}`. */
  function FormatDateTimeLocal(d: DateParts): string {
    IntToString(d.year) + "-" + Two(d.month + 1) + "-" + Two(d.day) + "T" + Two(d.hours) + ":" + Two(d.minutes)
  }

  lemma TwoDigits(n: int)
    requires 0 <= n < 100
    ensures |Two(n)| == 2 && AllDigits(Two(n)) && DigitsValue(Two(n)) == n
  {
    var s := Two(n);
    if n < 10 {
      assert s == ['0', DigitChar(n)];
      assert s[..1] == ['0'];
      assert DigitsValue(s[..1]) == 0 by { assert s[..1][..0] == []; }
    } else {
      assert Pow10(2) == 100 && Pow10(1) == 10;
      NatToStringLength(n, 2);
      DigitsValueOfNatToString(n);
    }
  }

  /** Where the five numerals sit in `YYYY-MM-DDTHH:MM`. */
  lemma DateTimeLayout(y: string, mo: string, da: string, ho: string, mi: string)
    requires |y| == 4 && |mo| == 2 && |da| == 2 && |ho| == 2 && |mi| == 2
    ensures var s := y + "-" + mo + "-" + da + "T" + ho + ":" + mi;
      && |s| == 16
      && s[4] == '-' && s[7] == '-' && s[10] == 'T' && s[13] == ':'
      && s[0..4] == y && s[5..7] == mo && s[8..10] == da && s[11..13] == ho && s[14..16] == mi
  {
  }

  /** A date in range renders as the 16 characters `YYYY-MM-DDTHH:MM`, and each
      numeral reads back as its field (the month counted from 1). */
  lemma FormatDateTimeLocalShape(d: DateParts)
    requires InRange(d)
    ensures var s := FormatDateTimeLocal(d);
      && |s| == 16
      && s[4] == '-' && s[7] == '-' && s[10] == 'T' && s[13] == ':'
      && AllDigits(s[0..4]) && DigitsValue(s[0..4]) == d.year
      && AllDigits(s[5..7]) && DigitsValue(s[5..7]) == d.month + 1
      && AllDigits(s[8..10]) && DigitsValue(s[8..10]) == d.day
      && AllDigits(s[11..13]) && DigitsValue(s[11..13]) == d.hours
      && AllDigits(s[14..16]) && DigitsValue(s[14..16]) == d.minutes
  {
    assert Pow10(4) == 10000 && Pow10(3) == 1000 by {
      assert Pow10(2) == 100 && Pow10(1) == 10;
    }
    NatToStringLength(d.year, 4);
    DigitsValueOfNatToString(d.year);
    TwoDigits(d.month + 1);
    TwoDigits(d.day);
    TwoDigits(d.hours);
    TwoDigits(d.minutes);
    DateTimeLayout(IntToString(d.year), Two(d.month + 1), Two(d.day), Two(d.hours), Two(d.minutes));
  }

  // ---------------------------------------------------------------------------
  // Form values, prefill and submission

  /** The form's values; an unchecked priority radio group is `None`. */
  datatype FormData = FormData(
    title: string,
    description: Option<string>,
    priority: Option<string>,
    category: Option<string>,
    dueDate: Option<string>)

  /** `v || ''`. */
  function OrEmpty(v: Option<string>): (r: string)
    ensures v.Some? ==> r == v.value
    ensures v.None? ==> r == ""
  {
    if v.Some? then v.value else ""
  }

  /** `v || undefined`: an empty or missing value is dropped. */
  function OrUndefined(v: Option<string>): (r: Option<string>)
    ensures r.None? <==> IsEmptyValue(v)
    ensures r.Some? ==> r == v
  {
    if IsEmptyValue(v) then None else v
  }

  /** The values `reset` puts into the form when a task is edited; `localParts` is
      `new Date(...)` read in the local time zone. */
  function Prefill(t: ClientTask, localParts: string -> DateParts): FormData {
    FormData(
      t.title,
      Some(OrEmpty(t.description)),
      Some(t.priority),
      Some(OrEmpty(t.category)),
      Some(if IsEmptyValue(t.dueDate) then "" else FormatDateTimeLocal(localParts(t.dueDate.value))))
  }

  /** `onFormSubmit`: nothing without a priority; otherwise title and priority as
      they are, empty optional fields dropped, and the due date converted back to an
      instant string by `toIso` (`new Date(v).toISOString()`). */
  function OnFormSubmit(data: FormData, toIso: string -> string): Option<TaskPayload> {
    if IsEmptyValue(data.priority) then None
    else
      Some(TaskPayload(
        data.title,
        data.priority.value,
        OrUndefined(data.description),
        OrUndefined(data.category),
        if IsEmptyValue(data.dueDate) then None else Some(toIso(data.dueDate.value))))
  }

  /** Nothing is submitted exactly when no priority is chosen; otherwise the payload
      carries the title and the priority verbatim and exactly the non-empty optional
      fields. */
  lemma OnFormSubmitCorrect(data: FormData, toIso: string -> string)
    ensures OnFormSubmit(data, toIso).None? <==> IsEmptyValue(data.priority)
    ensures OnFormSubmit(data, toIso).Some? ==>
      var p := OnFormSubmit(data, toIso).value;
      && p.title == data.title && Some(p.priority) == data.priority
      && (p.description.None? <==> IsEmptyValue(data.description))
      && (p.description.Some? ==> p.description == data.description)
      && (p.category.None? <==> IsEmptyValue(data.category))
      && (p.category.Some? ==> p.category == data.category)
      && (p.dueDate.None? <==> IsEmptyValue(data.dueDate))
      && (p.dueDate.Some? ==> p.dueDate == Some(toIso(data.dueDate.value)))
  {
  }

  /** Submitting an edit form unchanged sends the task's title and priority, a
      missing description, category or due date as undefined, and a present one as
      it was (the due date through its local rendering). */
  lemma PrefillThenSubmit(t: ClientTask, localParts: string -> DateParts, toIso: string -> string)
    requires t.priority in TaskEntity.Priorities
    ensures OnFormSubmit(Prefill(t, localParts), toIso).Some?
    ensures var p := OnFormSubmit(Prefill(t, localParts), toIso).value;
      && p.title == t.title && p.priority == t.priority
      && p.description == OrUndefined(t.description)
      && p.category == OrUndefined(t.category)
      && (p.dueDate.None? <==> IsEmptyValue(t.dueDate))
      && (p.dueDate.Some? ==> p.dueDate == Some(toIso(FormatDateTimeLocal(localParts(t.dueDate.value)))))
  {
    var f := Prefill(t, localParts);
    assert !IsEmptyValue(f.priority);
    if !IsEmptyValue(t.dueDate) {
      assert |FormatDateTimeLocal(localParts(t.dueDate.value))| > 0;
    }
  }

  /** Clearing the description, the category or the due date of an edit does not
      clear it on the server: the emptied field is left out of the request body, and
      a missing key leaves the stored field as it was. */
  lemma ClearedFieldsKeptOnServer(d: TaskEntity.TaskData, data: FormData, toIso: string -> string,
                                  now: Instant, parse: string -> Option<Instant>)
    requires OnFormSubmit(data, toIso).Some?
    ensures var stored := TaskService.Populate(d, PayloadJson(OnFormSubmit(data, toIso).value), now, parse);
      && (IsEmptyValue(data.description) ==> stored.description == d.description)
      && (IsEmptyValue(data.category) ==> stored.category == d.category)
      && (IsEmptyValue(data.dueDate) ==> stored.dueDate == d.dueDate)
  {
    var body := PayloadJson(OnFormSubmit(data, toIso).value);
    TaskService.PopulateKeepsUnsetFields(d, body, now, parse);
  }

  /** The form's state: `reset` replaces its values with the task being edited. */
  class TaskFormState {
    var values: FormData

    /** A fresh form: empty text fields and no priority chosen. */
    constructor ()
      ensures values == FormData("", Some(""), None, Some(""), Some(""))
    {
      values := FormData("", Some(""), None, Some(""), Some(""));
    }

    /** The prefill effect: with a task, `reset(formData)`; without one, nothing. */
    method Reset(task: Option<ClientTask>, localParts: string -> DateParts)
      modifies this
      ensures task.Some? ==> values == Prefill(task.value, localParts)
      ensures task.None? ==> values == old(values)
    {
      if task.Some? {
        values := Prefill(task.value, localParts);
      }
    }
  }

  // ---------------------------------------------------------------------------
  // Field rules

  const TitleRequiredMessage := "Título é obrigatório"
  const TitleTooShortMessage := "Título deve ter pelo menos 3 caracteres"
  const TitleTooLongMessage := "Título não pode ter mais de 255 caracteres"
  const DescriptionTooLongMessage := "Descrição não pode ter mais de 1000 caracteres"
  const PriorityRequiredMessage := "Selecione uma prioridade"

  /** The radio choices, in display order. */
  const PriorityChoices: seq<string> := ["alta", "media", "baixa"]

  function TitleRules(): Rules {
    Rules(Some(TitleRequiredMessage), Some(Bound(3, TitleTooShortMessage)),
          Some(Bound(255, TitleTooLongMessage)), None, None)
  }

  function DescriptionRules(): Rules {
    Rules(None, None, Some(Bound(1000, DescriptionTooLongMessage)), None, None)
  }

  function PriorityRules(): Rules {
    Rules(Some(PriorityRequiredMessage), None, None, None, None)
  }

  /** For titles without characters beyond U+FFFF, the form accepts exactly the
      titles the entity accepts. */
  lemma TitleRulesAgreeInBmp(title: string)
    requires InBmp(title)
    ensures FieldError(Some(title), TitleRules()).None? <==> TaskEntity.TitleViolations(Some(title)) == []
  {
    Utf16LengthInBmp(title);
  }

  /** The form counts UTF-16 code units and the entity counts code points, so a
      title of two emoji passes the form and is refused by the entity. */
  lemma TitleRulesDisagreeBeyondBmp()
    ensures FieldError(Some("\U{1F600}\U{1F600}"), TitleRules()).None?
    ensures TaskEntity.TitleViolations(Some("\U{1F600}\U{1F600}")) == [Http.Violation("title", TaskEntity.TitleTooShort)]
  {
    assert Utf16Length("\U{1F600}\U{1F600}") == 4;
  }

  /** For descriptions without characters beyond U+FFFF, the form accepts exactly
      the descriptions the entity accepts. */
  lemma DescriptionRulesAgreeInBmp(description: string)
    requires InBmp(description)
    ensures FieldError(Some(description), DescriptionRules()).None?
      <==> TaskEntity.DescriptionViolations(Some(description)) == []
  {
    Utf16LengthInBmp(description);
  }

  /** The choices are the entity's priorities, each passes, and choosing none is
      refused with the priority message. */
  lemma PriorityChoicesMatchEntity(p: string)
    ensures p in PriorityChoices <==> TaskEntity.PriorityViolations(p) == []
    ensures p in PriorityChoices ==> FieldError(Some(p), PriorityRules()).None?
    ensures FieldError(None, PriorityRules()) == Some(PriorityRequiredMessage)
  {
  }
}
