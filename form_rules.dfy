/** Declarative field rules of the forms, checked in the form library's order:
    `required` first, then the length bounds (maximum before minimum), then
    `pattern`, then `validate`. Bounds and the pattern are skipped for an empty value;
    lengths are JavaScript UTF-16 lengths. The first failing rule's message is the
    field's error. */
module FormRules {
  import opened Wrappers
  import opened Text

  /** A length bound with its message. */
  datatype Bound = Bound(limit: nat, message: string)

  /** A pattern test with its message. */
  datatype Pattern = Pattern(test: string -> bool, message: string)

  /** `validate`: `None` means the value passes, `Some(m)` is the message. */
  datatype Rules = Rules(
    required: Option<string>,
    minLength: Option<Bound>,
    maxLength: Option<Bound>,
    pattern: Option<Pattern>,
    validate: Option<string -> Option<string>>)

  /** A field's value: `None` when nothing was chosen, as for a radio group. */
  predicate IsEmptyValue(v: Option<string>) {
    v.None? || v.value == ""
  }

  function FieldError(v: Option<string>, rules: Rules): Option<string> {
    var empty := IsEmptyValue(v);
    if rules.required.Some? && empty then rules.required
    else if !empty && rules.maxLength.Some? && Utf16Length(v.value) > rules.maxLength.value.limit then
      Some(rules.maxLength.value.message)
    else if !empty && rules.minLength.Some? && Utf16Length(v.value) < rules.minLength.value.limit then
      Some(rules.minLength.value.message)
    else if !empty && rules.pattern.Some? && !rules.pattern.value.test(v.value) then
      Some(rules.pattern.value.message)
    else if rules.validate.Some? then rules.validate.value(v.GetOr(""))
    else None
  }

  /** A value passes exactly when every rule holds of it, the bounds and the pattern
      only for a non-empty value. */
  lemma FieldErrorNoneIff(v: Option<string>, rules: Rules)
    ensures FieldError(v, rules).None? <==>
      && (rules.required.Some? ==> !IsEmptyValue(v))
      && (!IsEmptyValue(v) && rules.maxLength.Some? ==> Utf16Length(v.value) <= rules.maxLength.value.limit)
      && (!IsEmptyValue(v) && rules.minLength.Some? ==> Utf16Length(v.value) >= rules.minLength.value.limit)
      && (!IsEmptyValue(v) && rules.pattern.Some? ==> rules.pattern.value.test(v.value))
      && (rules.validate.Some? ==> rules.validate.value(v.GetOr("")).None?)
  {
  }

  // ---------------------------------------------------------------------------
  // /^[A-Z0-9._%+-]+@[A-Z0-9.-]+\.[A-Z]{2,}$/i

  predicate IsLocalChar(c: char) {
    IsAsciiLetter(c) || IsAsciiDigit(c) || c == '.' || c == '_' || c == '%' || c == '+' || c == '-'
  }

  predicate IsDomainChar(c: char) {
    IsAsciiLetter(c) || IsAsciiDigit(c) || c == '.' || c == '-'
  }

  /** `s` matches with its `@` at `at` and the dot before the final letters at `dot`. */
  predicate EmailSplit(s: string, at: int, dot: int) {
    && 0 < at && at + 1 < dot && dot + 2 < |s|
    && s[at] == '@' && s[dot] == '.'
    && (forall i :: 0 <= i < at ==> IsLocalChar(s[i]))
    && (forall i :: at < i < dot ==> IsDomainChar(s[i]))
    && (forall i :: dot < i < |s| ==> IsAsciiLetter(s[i]))
  }

  /** The email pattern, case-insensitive over ASCII letters. */
  predicate MatchesEmail(s: string) {
    exists at, dot :: 0 <= at < dot < |s| && EmailSplit(s, at, dot)
  }

  /** The last `k` characters of `s` are letters and a dot precedes them. */
  predicate EndsWithLetters(s: string, k: int) {
    0 <= k < |s| && s[|s| - k - 1] == '.' && forall i :: |s| - k <= i < |s| ==> IsAsciiLetter(s[i])
  }

  /** An accepted email has exactly one `@`, no white space, and ends with a dot
      followed by at least two letters. */
  lemma EmailShape(s: string)
    requires MatchesEmail(s)
    ensures exists at :: 0 <= at < |s| && s[at] == '@' && forall i :: 0 <= i < |s| && s[i] == '@' ==> i == at
    ensures forall i :: 0 <= i < |s| ==> !IsJsWhitespace(s[i])
    ensures exists k :: k >= 2 && EndsWithLetters(s, k)
  {
    var at, dot :| 0 <= at < dot < |s| && EmailSplit(s, at, dot);
    forall i | 0 <= i < |s| && i != at ensures s[i] != '@' {
      if i < at { assert IsLocalChar(s[i]); }
      else if i < dot { assert IsDomainChar(s[i]); }
      else if i > dot { assert IsAsciiLetter(s[i]); }
    }
    forall i | 0 <= i < |s| ensures !IsJsWhitespace(s[i]) {
      if i < at { assert IsLocalChar(s[i]); }
      else if at < i < dot { assert IsDomainChar(s[i]); }
      else if i > dot { assert IsAsciiLetter(s[i]); }
    }
    assert EndsWithLetters(s, |s| - dot - 1);
  }

  /** A plain address is accepted, in lower or upper case. */
  lemma EmailAccepted()
    ensures MatchesEmail("ana@mail.com")
    ensures MatchesEmail("ANA@MAIL.COM")
  {
    assert EmailSplit("ana@mail.com", 3, 8);
    assert EmailSplit("ANA@MAIL.COM", 3, 8);
  }

  /** A string with white space anywhere is refused. */
  lemma WhitespaceRefused(s: string, w: int)
    requires 0 <= w < |s| && IsJsWhitespace(s[w])
    ensures !MatchesEmail(s)
  {
    forall at, dot | 0 <= at < dot < |s| ensures !EmailSplit(s, at, dot) {
      if w < at { assert !IsLocalChar(s[w]); }
      else if at < w < dot { assert !IsDomainChar(s[w]); }
      else if w > dot { assert !IsAsciiLetter(s[w]); }
    }
  }

  /** A string with two `@` is refused. */
  lemma TwoAtSignsRefused(s: string, i: int, j: int)
    requires 0 <= i < j < |s| && s[i] == '@' && s[j] == '@'
    ensures !MatchesEmail(s)
  {
    forall at, dot | 0 <= at < dot < |s| ensures !EmailSplit(s, at, dot) {
      var other := if i == at then j else i;
      if other < at { assert !IsLocalChar(s[other]); }
      else if at < other < dot { assert !IsDomainChar(s[other]); }
      else if other > dot { assert !IsAsciiLetter(s[other]); }
    }
  }

  lemma EmailRefusedExamples()
    ensures !MatchesEmail("ana maria@mail.com")
    ensures !MatchesEmail("ana@@mail.com")
  {
    WhitespaceRefused("ana maria@mail.com", 3);
    TwoAtSignsRefused("ana@@mail.com", 3, 4);
  }

  /** The email rules shared by the login and registration forms. */
  const EmailRequired := "Email é obrigatório"
  const EmailInvalid := "Email inválido"

  function EmailRules(): Rules {
    Rules(Some(EmailRequired), None, None, Some(Pattern(MatchesEmail, EmailInvalid)), None)
  }

  /** The password rules shared by the login and registration forms. */
  const PasswordRequired := "Senha é obrigatória"
  const PasswordTooShort := "Senha deve ter pelo menos 6 caracteres"

  function PasswordRules(): Rules {
    Rules(Some(PasswordRequired), Some(Bound(6, PasswordTooShort)), None, None, None)
  }

  /** An email passes exactly when it matches the pattern, and an empty one is
      reported as missing. */
  lemma EmailRulesCorrect(email: string)
    ensures FieldError(Some(email), EmailRules()).None? <==> MatchesEmail(email)
    ensures FieldError(Some(""), EmailRules()) == Some(EmailRequired)
  {
  }

  /** A password passes exactly when it has at least six UTF-16 code units. */
  lemma PasswordRulesCorrect(password: string)
    ensures FieldError(Some(password), PasswordRules()).None? <==> Utf16Length(password) >= 6
    ensures FieldError(Some(""), PasswordRules()) == Some(PasswordRequired)
  {
  }
}
