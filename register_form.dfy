/** The registration form: its four field rules, the body it sends, and the error
    line its submission leaves. */
module RegisterForm {
  import opened Wrappers
  import opened Text
  import opened Json
  import opened FormRules
  import opened AuthContext
  import AuthController

  const NameRequired := "Nome é obrigatório"
  const NameTooShort := "Nome deve ter pelo menos 2 caracteres"
  const ConfirmRequired := "Confirmação de senha é obrigatória"
  const PasswordsDiffer := "As senhas não coincidem"

  datatype RegisterValues = RegisterValues(name: string, email: string, password: string, confirmPassword: string)

  function NameRules(): Rules {
    Rules(Some(NameRequired), Some(Bound(2, NameTooShort)), None, None, None)
  }

  /** The confirmation must equal the password currently typed. */
  function ConfirmRules(password: string): Rules {
    Rules(Some(ConfirmRequired), None, None, None,
          Some((c: string) => if c == password then None else Some(PasswordsDiffer)))
  }

  predicate CanSubmit(v: RegisterValues) {
    && FieldError(Some(v.name), NameRules()).None?
    && FieldError(Some(v.email), EmailRules()).None?
    && FieldError(Some(v.password), PasswordRules()).None?
    && FieldError(Some(v.confirmPassword), ConfirmRules(v.password)).None?
  }

  /** A registration passes the form's rules exactly when the name has at least two
      UTF-16 code units, the email matches the pattern, the password has at least six,
      and the confirmation repeats it. */
  lemma CanSubmitIff(v: RegisterValues)
    ensures CanSubmit(v) <==>
      && Utf16Length(v.name) >= 2
      && MatchesEmail(v.email)
      && Utf16Length(v.password) >= 6
      && v.confirmPassword == v.password
  {
    EmailRulesCorrect(v.email);
    PasswordRulesCorrect(v.password);
  }

  /** An empty confirmation is reported as missing; a different one as a mismatch. */
  lemma ConfirmMessages(password: string, c: string)
    ensures FieldError(Some(""), ConfirmRules(password)) == Some(ConfirmRequired)
    ensures c != "" && c != password ==> FieldError(Some(c), ConfirmRules(password)) == Some(PasswordsDiffer)
    ensures c != "" && c == password ==> FieldError(Some(c), ConfirmRules(password)).None?
  {
  }

  /** The body `authService.register` sends: the values without `confirmPassword`. */
  function RegisterBody(v: RegisterValues): (m: JsonObject)
    ensures m.Keys == {"name", "email", "password"}
    ensures m["name"] == JString(v.name) && m["email"] == JString(v.email) && m["password"] == JString(v.password)
  {
    map["name" := JString(v.name), "email" := JString(v.email), "password" := JString(v.password)]
  }

  /** A submitted registration always gets past the server's required-fields check,
      and the server reads back the very email and name that were typed. */
  lemma SubmittedBodyHasRequiredFields(v: RegisterValues, hash: string -> string)
    ensures var m := RegisterBody(v);
      && !IsEmptyBody(Object(m))
      && IsSet(m, "email") && IsSet(m, "password") && IsSet(m, "name")
      && AuthController.Registrant(m, hash).email == Some(v.email)
      && AuthController.Registrant(m, hash).name == Some(v.name)
      && AuthController.Registrant(m, hash).password == Some(hash(v.password))
  {
    var m := RegisterBody(v);
    assert "name" in m;
  }

  /** `onSubmit`: the error line is cleared, then set to the thrown message, or to
      the default text when that message is empty. */
  function SubmitError(thrown: Option<string>): (shown: string)
    ensures thrown.None? ==> shown == ""
    ensures thrown.Some? ==> shown != ""
    ensures thrown.Some? && thrown.value != "" ==> shown == thrown.value
  {
    if thrown.None? then "" else MessageOr(thrown, RegisterFailed)
  }

  /** After the context's `register`, the form shows no error exactly when the answer
      was accepted; a refused answer shows the server's message, or the default text
      when the server sent none; a request that threw shows its error's message. */
  lemma RegisterErrorLine(reply: Reply<ClientSession>)
    ensures SubmitError(Thrown(reply, RegisterFailed)) == "" <==> Accepted(reply)
    ensures reply.Answered? && !Accepted(reply) ==>
      SubmitError(Thrown(reply, RegisterFailed)) == MessageOr(reply.message, RegisterFailed)
    ensures reply.Threw? ==> SubmitError(Thrown(reply, RegisterFailed)) == MessageOr(Some(reply.error), RegisterFailed)
  {
  }
}
