/** The login form: its two field rules and the error line its submission leaves. */
module LoginForm {
  import opened Wrappers
  import opened Text
  import opened FormRules
  import opened AuthContext

  datatype LoginValues = LoginValues(email: string, password: string)

  /** The form's rules let a submission through only when neither field has an error. */
  predicate CanSubmit(v: LoginValues) {
    FieldError(Some(v.email), EmailRules()).None? && FieldError(Some(v.password), PasswordRules()).None?
  }

  /** A login passes the form's rules exactly when the email matches the pattern and
      the password has at least six UTF-16 code units. */
  lemma CanSubmitIff(v: LoginValues)
    ensures CanSubmit(v) <==> MatchesEmail(v.email) && Utf16Length(v.password) >= 6
  {
    EmailRulesCorrect(v.email);
    PasswordRulesCorrect(v.password);
  }

  /** A missing email and a missing password are reported by their own messages. */
  lemma EmptyFieldsReported()
    ensures FieldError(Some(""), EmailRules()) == Some(EmailRequired)
    ensures FieldError(Some(""), PasswordRules()) == Some(PasswordRequired)
  {
    EmailRulesCorrect("");
    PasswordRulesCorrect("");
  }

  /** `onSubmit`: the error line is cleared, then set to the thrown message, or to
      the default text when that message is empty. */
  function SubmitError(thrown: Option<string>): (shown: string)
    ensures thrown.None? ==> shown == ""
    ensures thrown.Some? ==> shown != ""
    ensures thrown.Some? && thrown.value != "" ==> shown == thrown.value
  {
    if thrown.None? then "" else MessageOr(thrown, LoginFailed)
  }

  /** After the context's `login`, the form shows no error exactly when the answer was
      accepted; a refused answer shows the server's message, or the default text when
      the server sent none. */
  lemma LoginErrorLine(reply: Reply<ClientSession>)
    ensures SubmitError(Thrown(reply, LoginFailed)) == "" <==> Accepted(reply)
    ensures reply.Answered? && !Accepted(reply) ==>
      SubmitError(Thrown(reply, LoginFailed)) == MessageOr(reply.message, LoginFailed)
    ensures reply.Threw? ==> SubmitError(Thrown(reply, LoginFailed)) == MessageOr(Some(reply.error), LoginFailed)
  {
  }
}
