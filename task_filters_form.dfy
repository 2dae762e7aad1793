/** The filter form above the task list: building the filter object from the form's
    values, clearing the form, and whether any filter is active. */
module TaskFiltersForm {
  import opened Wrappers
  import opened Text
  import opened ClientTypes

  /** The form's values; a field the form never set is `undefined`. */
  datatype FormValues = FormValues(
    search: Option<string>,
    completed: Option<string>,
    priority: Option<string>,
    category: Option<string>)

  /** `value && value !== ''`. */
  predicate Filled(v: Option<string>) {
    v.Some? && v.value != ""
  }

  /** The filters `onSubmit` emits for the given values. */
  function FiltersOf(v: FormValues): ClientFilters {
    ClientFilters(
      if Filled(v.completed) then Some(v.completed.value == "true") else None,
      if Filled(v.priority) then v.priority else None,
      if Filled(v.category) then v.category else None,
      if v.search.Some? && Trim(v.search.value) != "" then Some(Trim(v.search.value)) else None)
  }

  /** `onSubmit`: starts from `{}` and sets one key per filled field. */
  method OnSubmit(v: FormValues) returns (filters: ClientFilters)
    ensures filters == FiltersOf(v)
  {
    filters := NoFilters;
    if Filled(v.completed) {
      filters := filters.(completed := Some(v.completed.value == "true"));
    }
    if Filled(v.priority) {
      filters := filters.(priority := v.priority);
    }
    if Filled(v.category) {
      filters := filters.(category := v.category);
    }
    if v.search.Some? && Trim(v.search.value) != "" {
      filters := filters.(search := Some(Trim(v.search.value)));
    }
  }

  /** `completed` is present exactly for a filled selection and is true exactly for
      `'true'`; priority and category are copied verbatim when filled; the search is
      present exactly when it is not all white space, and then it is a non-empty part
      of the typed text with no white space at either end. */
  lemma FiltersOfCorrect(v: FormValues)
    ensures var f := FiltersOf(v);
      && (f.completed.Some? <==> Filled(v.completed))
      && (f.completed == Some(true) <==> v.completed == Some("true"))
      && (f.priority.Some? <==> Filled(v.priority)) && (f.priority.Some? ==> f.priority == v.priority)
      && (f.category.Some? <==> Filled(v.category)) && (f.category.Some? ==> f.category == v.category)
      && (f.search.Some? <==> v.search.Some? && !AllWhitespace(v.search.value))
      && (f.search.Some? ==>
            && f.search.value != []
            && !IsJsWhitespace(f.search.value[0])
            && !IsJsWhitespace(f.search.value[|f.search.value| - 1])
            && IsSubstring(f.search.value, v.search.value))
  {
    CompletedFilter(v);
    SearchFilter(v);
  }

  /** The `completed` selection: present when filled, true exactly for `'true'`. */
  lemma CompletedFilter(v: FormValues)
    ensures var f := FiltersOf(v);
      && (f.completed.Some? <==> Filled(v.completed))
      && (f.completed == Some(true) <==> v.completed == Some("true"))
  {
    if v.completed == Some("true") {
      assert Filled(v.completed);
    }
  }

  /** The search: present when not all white space, trimmed, and part of the typed text. */
  lemma SearchFilter(v: FormValues)
    ensures var f := FiltersOf(v);
      && (f.search.Some? <==> v.search.Some? && !AllWhitespace(v.search.value))
      && (f.search.Some? ==>
            && f.search.value != []
            && !IsJsWhitespace(f.search.value[0])
            && !IsJsWhitespace(f.search.value[|f.search.value| - 1])
            && IsSubstring(f.search.value, v.search.value))
  {
    if v.search.Some? {
      var t := Trim(v.search.value);
      TrimProperties(v.search.value);
      assert FiltersOf(v).search == if t != "" then Some(t) else None;
    }
  }

  /** A form with nothing filled in yields `{}`. */
  lemma BlankFormNoFilters(v: FormValues)
    requires !Filled(v.completed) && !Filled(v.priority) && !Filled(v.category)
    requires v.search.None? || AllWhitespace(v.search.value)
    ensures FiltersOf(v) == NoFilters
  {
    if v.search.Some? {
      TrimProperties(v.search.value);
    }
  }

  /** `handleClear`: the form is reset to its empty values and `{}` is emitted. */
  function HandleClear(): (r: (FormValues, ClientFilters))
    ensures r.1 == NoFilters && FiltersOf(r.0) == r.1 && !HasActiveFilters(r.0)
  {
    (FormValues(None, None, None, None), NoFilters)
  }

  /** `hasActiveFilters`: some value of the form is filled. */
  predicate HasActiveFilters(v: FormValues) {
    Filled(v.search) || Filled(v.completed) || Filled(v.priority) || Filled(v.category)
  }

  /** Whenever the form would emit a filter, it counts as active; the converse fails for
      a search of white space only, which is active but emits `{}`. */
  lemma ActiveVersusEmitted(v: FormValues)
    ensures FiltersOf(v) != NoFilters ==> HasActiveFilters(v)
    ensures var blank := FormValues(Some(" "), None, None, None);
      HasActiveFilters(blank) && FiltersOf(blank) == NoFilters
  {
    assert AllWhitespace(" ");
    TrimProperties(" ");
  }
}
