/** The `/auth` endpoints: registration, login, the current user and token refresh.
    The password hasher, its verifier, the entity validator and the token issuer are
    parameters; the current user is what the firewall authenticated, if anyone. */
module AuthController {
  import opened Wrappers
  import opened Json
  import opened Http
  import opened Users
  import opened UserService

  const InvalidData := "Dados inválidos"
  const RegisterFieldsRequired := "Email, senha e nome são obrigatórios"
  const UserCreated := "Usuário criado com sucesso"
  const LoginFieldsRequired := "Email e senha são obrigatórios"
  const LoginSucceeded := "Login realizado com sucesso"
  const NotAuthenticated := "Usuário não autenticado"

  /** `['user' => ..., 'token' => ...]`. */
  datatype Session = Session(user: UserData, token: string)

  /** What a registration answers and the user rows it leaves behind. */
  datatype Registration = Registration(response: Response<Session>, users: seq<UserData>)

  /** The user `register` builds: email, name and the hash of the password. */
  function Registrant(data: JsonObject, hash: string -> string): UserData
    requires IsSet(data, "email") && IsSet(data, "password") && IsSet(data, "name")
  {
    NewUser.(email := Some(AsString(data["email"])), name := Some(AsString(data["name"])),
             password := Some(hash(AsString(data["password"]))))
  }

  function RegisterDecision(users: seq<UserData>, nextId: int, body: Body, hash: string -> string,
                            validate: UserData -> seq<Violation>, issue: UserData -> string): Registration
  {
    if IsEmptyBody(body) then Registration(Refusal(BadRequest, InvalidData), users)
    else
      var data := body.fields;
      if !IsSet(data, "email") || !IsSet(data, "password") || !IsSet(data, "name") then
        Registration(Refusal(BadRequest, RegisterFieldsRequired), users)
      else if FindByEmail(users, AsString(data["email"])).Some? then
        Registration(Refusal(Conflict, EmailInUse), users)
      else
        var u := Registrant(data, hash);
        if validate(u) != [] then
          Registration(Response(UnprocessableEntity, false, None, None, validate(u), None), users)
        else
          var stored := u.(id := Some(nextId));
          Registration(Response(Created, true, Some(UserCreated), Some(Session(stored, issue(stored))), [], None),
                       users + [stored])
  }

  /** Registration adds a user only on 201, and then exactly one, holding the given email
      and a fresh id, with the token issued for it; every refusal (400 for an empty body
      or a missing field, 409 for a taken email, 422 for validation errors) leaves the
      table as it was, and after 201 no two users share an email. A complete body with a
      free email gets 422 with the validation errors exactly when there are some, and 201
      exactly when there are none. */
  lemma RegisterOutcomes(users: seq<UserData>, nextId: int, body: Body, hash: string -> string,
                         validate: UserData -> seq<Violation>, issue: UserData -> string)
    requires WellFormed(users, nextId)
    ensures var r := RegisterDecision(users, nextId, body, hash, validate, issue);
      && (r.response.status != Created ==> r.users == users && !r.response.success)
      && (r.response.status in {BadRequest, Conflict, UnprocessableEntity, Created})
      && (!IsEmptyBody(body) && (!IsSet(body.fields, "email") || !IsSet(body.fields, "password") || !IsSet(body.fields, "name"))
          ==> r.response == Refusal(BadRequest, RegisterFieldsRequired))
      && (r.response.status == Conflict <==>
            !IsEmptyBody(body) && IsSet(body.fields, "email") && IsSet(body.fields, "password") && IsSet(body.fields, "name")
            && exists i :: 0 <= i < |users| && users[i].email == Some(AsString(body.fields["email"])))
      && (IsEmptyBody(body) ==> r.response == Refusal(BadRequest, InvalidData))
      && (!IsEmptyBody(body) && IsSet(body.fields, "email") && IsSet(body.fields, "password") && IsSet(body.fields, "name")
          && (forall i :: 0 <= i < |users| ==> users[i].email != Some(AsString(body.fields["email"]))) ==>
            var u := Registrant(body.fields, hash);
            && (validate(u) != [] <==> r.response.status == UnprocessableEntity)
            && (validate(u) != [] ==> r.response.errors == validate(u))
            && (validate(u) == [] <==> r.response.status == Created))
      && (r.response.status == Created ==>
            && r.response.data.Some?
            && var s := r.response.data.value;
               && r.users == users + [s.user]
               && s.user.id == Some(nextId) && s.user.email == Some(AsString(body.fields["email"]))
               && s.token == issue(s.user)
               && WellFormed(r.users, nextId + 1))
  {
    var r := RegisterDecision(users, nextId, body, hash, validate, issue);
    if r.response.status == Created {
      var s := r.response.data.value;
      forall i, j | 0 <= i < j < |r.users| && r.users[i].email.Some? ensures r.users[i].email != r.users[j].email {
        if j == |users| {
          assert r.users[i] == users[i];
        } else {
          assert r.users[i] == users[i] && r.users[j] == users[j];
        }
      }
    }
  }

  method Register(table: UserTable, body: Body, hash: string -> string,
                  validate: UserData -> seq<Violation>, issue: UserData -> string) returns (r: Response<Session>)
    requires table.Valid()
    modifies table
    ensures table.Valid()
    ensures var d := RegisterDecision(old(table.users), old(table.nextId), body, hash, validate, issue);
      r == d.response && table.users == d.users
    ensures table.nextId == old(table.nextId) + (if r.status == Created then 1 else 0)
  {
    if IsEmptyBody(body) {
      return Refusal(BadRequest, InvalidData);
    }
    var data := body.fields;
    if !IsSet(data, "email") || !IsSet(data, "password") || !IsSet(data, "name") {
      return Refusal(BadRequest, RegisterFieldsRequired);
    }
    var existing := FindByEmail(table.users, AsString(data["email"]));
    if existing.Some? {
      return Refusal(Conflict, EmailInUse);
    }
    var u := NewUser.(email := Some(AsString(data["email"])), name := Some(AsString(data["name"])));
    u := u.(password := Some(hash(AsString(data["password"]))));
    var errors := validate(u);
    if |errors| > 0 {
      return Response(UnprocessableEntity, false, None, None, errors, None);
    }
    var stored := table.Insert(u);
    var token := issue(stored);
    r := Response(Created, true, Some(UserCreated), Some(Session(stored, token)), [], None);
  }

  /** `login`. */
  function Login(users: seq<UserData>, body: Body, verify: (UserData, string) -> bool,
                 issue: UserData -> string): Response<Session>
  {
    if IsEmptyBody(body) || !IsSet(body.fields, "email") || !IsSet(body.fields, "password") then
      Refusal(BadRequest, LoginFieldsRequired)
    else
      match FindByEmail(users, AsString(body.fields["email"]))
      case None => Refusal(Unauthorized, BadCredentials)
      case Some(u) =>
        if !verify(u, AsString(body.fields["password"])) then Refusal(Unauthorized, BadCredentials)
        else Response(Ok, true, Some(LoginSucceeded), Some(Session(u, issue(u))), [], None)
  }

  /** An unknown email and a wrong password get the very same 401 answer, so a caller
      cannot tell them apart; a login succeeds exactly when `validateLogin` would, and
      then carries the token issued for that user. */
  lemma LoginIndistinguishable(users: seq<UserData>, nextId: int, body: Body,
                               verify: (UserData, string) -> bool, issue: UserData -> string)
    requires WellFormed(users, nextId)
    requires !IsEmptyBody(body) && IsSet(body.fields, "email") && IsSet(body.fields, "password")
    ensures var email := AsString(body.fields["email"]);
      var password := AsString(body.fields["password"]);
      var r := Login(users, body, verify, issue);
      && ((forall i :: 0 <= i < |users| ==> users[i].email != Some(email)) ==> r == Refusal(Unauthorized, BadCredentials))
      && ((exists i :: 0 <= i < |users| && users[i].email == Some(email) && !verify(users[i], password))
            ==> r == Refusal(Unauthorized, BadCredentials))
      && (r.success <==> ValidateLogin(users, email, password, verify).Success?)
      && (r.success ==> r.data == Some(Session(ValidateLogin(users, email, password, verify).value,
                                               issue(ValidateLogin(users, email, password, verify).value))))
  {
    var email := AsString(body.fields["email"]);
    var password := AsString(body.fields["password"]);
    ValidateLoginCorrect(users, nextId, email, password, verify);
    if exists i :: 0 <= i < |users| && users[i].email == Some(email) && !verify(users[i], password) {
      var i :| 0 <= i < |users| && users[i].email == Some(email) && !verify(users[i], password);
      SameEmailSameRow(users, nextId, i, FindByEmail(users, email).value);
    }
  }

  /** A missing email or password is 400, whatever the table holds. */
  lemma LoginNeedsBothFields(users: seq<UserData>, body: Body, verify: (UserData, string) -> bool,
                             issue: UserData -> string)
    requires body.Object? && (!IsSet(body.fields, "email") || !IsSet(body.fields, "password"))
    ensures Login(users, body, verify, issue) == Refusal(BadRequest, LoginFieldsRequired)
  {
  }

  /** `me`. */
  function Me(current: Option<UserData>): Response<UserData> {
    match current
    case None => Refusal(Unauthorized, NotAuthenticated)
    case Some(u) => Response(Ok, true, None, Some(u), [], None)
  }

  /** `refresh`: a new token for the current user. */
  function Refresh(current: Option<UserData>, issue: UserData -> string): Response<string> {
    match current
    case None => Refusal(Unauthorized, NotAuthenticated)
    case Some(u) => Response(Ok, true, None, Some(issue(u)), [], None)
  }

  /** Without an authenticated user both answer 401; with one, `me` returns that user and
      `refresh` a token issued for them. */
  lemma SessionEndpoints(current: Option<UserData>, issue: UserData -> string)
    ensures current.None? ==> Me(current).status == Unauthorized && Refresh(current, issue).status == Unauthorized
    ensures current.None? ==> Me(current).data.None? && Refresh(current, issue).data.None?
    ensures current.Some? ==> Me(current).data == current && Refresh(current, issue).data == Some(issue(current.value))
  {
  }
}
