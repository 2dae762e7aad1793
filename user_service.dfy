/** The user service: account creation and update with their duplicate-email guards,
    login credential checks, email availability, per-user task counts and the password
    strength rules. The password hasher, its verifier and the entity validator are
    parameters. */
module UserService {
  import opened Wrappers
  import opened Text
  import opened Json
  import opened Http
  import opened Seqs
  import opened Users
  import opened TaskEntity
  import opened TaskRepository

  const EmailInUse := "Este email já está sendo usado"
  const BadCredentials := "Credenciais inválidas"
  const PasswordTooShort := "A senha deve ter pelo menos 8 caracteres"
  const PasswordNoUpper := "A senha deve conter pelo menos uma letra maiúscula"
  const PasswordNoLower := "A senha deve conter pelo menos uma letra minúscula"
  const PasswordNoDigit := "A senha deve conter pelo menos um número"

  /** A refusal with a message, validation errors, or the saved user. */
  datatype UserOutcome = Rejected(message: string) | Invalid(errors: seq<Violation>) | Saved(user: UserData)

  /** `populateUserFromArray`: a set `email` or `name` overwrites its field. */
  function PopulateUser(u: UserData, data: JsonObject): UserData {
    u.(email := if IsSet(data, "email") then Some(AsString(data["email"])) else u.email,
       name := if IsSet(data, "name") then Some(AsString(data["name"])) else u.name)
  }

  /** The user `createUser` validates: a populated new user whose password is the hash
      of the given one, when given. */
  function DraftedUser(data: JsonObject, hash: string -> string): UserData {
    var u := PopulateUser(NewUser, data);
    if IsSet(data, "password") then u.(password := Some(hash(AsString(data["password"])))) else u
  }

  /** `createUser` refuses an email some user already holds, before anything else. */
  predicate EmailTaken(users: seq<UserData>, data: JsonObject) {
    IsSet(data, "email") && FindByEmail(users, AsString(data["email"])).Some?
  }

  /** `createUser`: a taken email is refused and nothing is stored; otherwise the drafted
      user is validated and, if valid, stored as one new row. Emails stay unique. */
  method CreateUser(table: UserTable, data: JsonObject, hash: string -> string,
                    validate: UserData -> seq<Violation>) returns (r: UserOutcome)
    requires table.Valid()
    modifies table
    ensures table.Valid()
    ensures EmailTaken(old(table.users), data) ==>
      r == Rejected(EmailInUse) && table.users == old(table.users) && table.nextId == old(table.nextId)
    ensures !EmailTaken(old(table.users), data) ==>
      var u := DraftedUser(data, hash);
      if validate(u) == [] then
        r == Saved(u.(id := Some(old(table.nextId)))) && table.users == old(table.users) + [r.user]
          && table.nextId == old(table.nextId) + 1
      else
        r == Invalid(validate(u)) && table.users == old(table.users) && table.nextId == old(table.nextId)
  {
    if IsSet(data, "email") {
      var existing := FindByEmail(table.users, AsString(data["email"]));
      if existing.Some? {
        return Rejected(EmailInUse);
      }
    }
    var u := PopulateUser(NewUser, data);
    if IsSet(data, "password") {
      u := u.(password := Some(hash(AsString(data["password"]))));
    }
    var errors := validate(u);
    if |errors| > 0 {
      return Invalid(errors);
    }
    var stored := table.Insert(u);
    return Saved(stored);
  }

  /** `updateUser` looks the email up only when it is set and not identical (`!==`) to
      the user's current one; a non-string value is never identical to it. */
  predicate EmailChangeChecked(u: UserData, data: JsonObject) {
    IsSet(data, "email") && !(u.email.Some? && data["email"] == JString(u.email.value))
  }

  /** The email given to `updateUser` is held by a different user. */
  predicate EmailTakenByOther(users: seq<UserData>, u: UserData, data: JsonObject) {
    EmailChangeChecked(u, data)
    && var holder := FindByEmail(users, AsString(data["email"]));
       holder.Some? && holder.value.id != u.id
  }

  /** The user after `updateUser` has populated it: a new password is hashed only when
      it is set and not empty in PHP's sense (so neither "" nor "0"). */
  function UpdatedUser(u: UserData, data: JsonObject, hash: string -> string): UserData {
    var p := PopulateUser(u, data);
    if IsSet(data, "password") && Truthy(data["password"]) then p.(password := Some(hash(AsString(data["password"])))) else p
  }

  /** The password hash is replaced exactly when a non-empty password is supplied; the
      id never changes. */
  lemma UpdatedPassword(u: UserData, data: JsonObject, hash: string -> string)
    ensures UpdatedUser(u, data, hash).id == u.id
    ensures !(IsSet(data, "password") && Truthy(data["password"])) ==> UpdatedUser(u, data, hash).password == u.password
    ensures IsSet(data, "password") && Truthy(data["password"]) ==>
      UpdatedUser(u, data, hash).password == Some(hash(AsString(data["password"])))
    ensures UpdatedUser(u, data["password" := JString("")], hash).password == u.password
  {
  }

  /** After the guard lets an update through, no other user holds the new email. */
  lemma UpdateKeepsEmailsUnique(users: seq<UserData>, nextId: int, u: UserData, data: JsonObject, hash: string -> string)
    requires WellFormed(users, nextId) && u in users && !EmailTakenByOther(users, u, data)
    ensures var v := UpdatedUser(u, data, hash);
      forall i :: 0 <= i < |users| && users[i].id != v.id && users[i].email.Some? ==> users[i].email != v.email
  {
    var v := UpdatedUser(u, data, hash);
    forall i | 0 <= i < |users| && users[i].id != v.id && users[i].email.Some?
      ensures users[i].email != v.email
    {
      var k :| 0 <= k < |users| && users[k] == u;
      assert i != k;
      if IsSet(data, "email") && EmailChangeChecked(u, data) {
        var holder := FindByEmail(users, AsString(data["email"]));
        if holder.Some? {
          SameIdSameRow(users, nextId, holder.value, u);
        }
      }
    }
  }

  /** `updateUser` on a stored user: an email held by another user is refused; otherwise
      the updated user, if valid, is written back; on refusal or errors nothing is
      flushed. Keeping one's own email always passes the guard. */
  method UpdateUser(table: UserTable, u: UserData, data: JsonObject, hash: string -> string,
                    validate: UserData -> seq<Violation>) returns (r: UserOutcome)
    requires table.Valid() && u.id.Some? && table.Find(u.id.value) == Some(u)
    modifies table
    ensures table.Valid() && table.nextId == old(table.nextId)
    ensures EmailTakenByOther(old(table.users), u, data) ==>
      r == Rejected(EmailInUse) && table.users == old(table.users)
    ensures !EmailTakenByOther(old(table.users), u, data) ==>
      var v := UpdatedUser(u, data, hash);
      if validate(v) == [] then r == Saved(v) && table.users == ReplaceById(old(table.users), v)
      else r == Invalid(validate(v)) && table.users == old(table.users)
  {
    if EmailChangeChecked(u, data) {
      var existing := FindByEmail(table.users, AsString(data["email"]));
      if existing.Some? && existing.value.id != u.id {
        return Rejected(EmailInUse);
      }
    }
    var v := PopulateUser(u, data);
    if IsSet(data, "password") && Truthy(data["password"]) {
      v := v.(password := Some(hash(AsString(data["password"]))));
    }
    var errors := validate(v);
    if |errors| > 0 {
      return Invalid(errors);
    }
    UpdateKeepsEmailsUnique(table.users, table.nextId, u, data, hash);
    table.Write(v);
    return Saved(v);
  }

  /** Resubmitting one's own email (as the same string) never triggers the guard. */
  lemma OwnEmailPassesGuard(users: seq<UserData>, u: UserData, data: JsonObject)
    requires u.email.Some? && "email" in data && data["email"] == JString(u.email.value)
    ensures !EmailTakenByOther(users, u, data)
  {
  }

  /** `deleteUser`. */
  method DeleteUser(table: UserTable, u: UserData)
    requires table.Valid() && u.id.Some?
    modifies table
    ensures table.Valid() && table.nextId == old(table.nextId)
    ensures table.users == RemoveById(old(table.users), u.id.value)
    ensures table.Find(u.id.value).None?
  {
    table.Delete(u.id.value);
  }

  /** `validateLogin`: the user with that email whose password verifies. */
  function ValidateLogin(users: seq<UserData>, email: string, password: string,
                         verify: (UserData, string) -> bool): Result<UserData, string>
  {
    match FindByEmail(users, email)
    case None => Failure(BadCredentials)
    case Some(u) => if !verify(u, password) then Failure(BadCredentials) else Success(u)
  }

  /** Login succeeds exactly for a stored user with that email whose password verifies;
      an unknown email and a wrong password fail with the same message. */
  lemma ValidateLoginCorrect(users: seq<UserData>, nextId: int, email: string, password: string,
                             verify: (UserData, string) -> bool)
    requires WellFormed(users, nextId)
    ensures var r := ValidateLogin(users, email, password, verify);
      && (r.Success? <==> exists i :: 0 <= i < |users| && users[i].email == Some(email) && verify(users[i], password))
      && (r.Success? ==> r.value in users && r.value.email == Some(email))
      && (r.Failure? ==> r.error == BadCredentials)
  {
    var r := ValidateLogin(users, email, password, verify);
    if r.Failure? {
      forall i | 0 <= i < |users| && users[i].email == Some(email) ensures !verify(users[i], password) {
        SameEmailSameRow(users, nextId, i, FindByEmail(users, email).value);
      }
    }
  }

  lemma SameEmailSameRow(users: seq<UserData>, nextId: int, i: nat, u: UserData)
    requires WellFormed(users, nextId) && i < |users| && u in users
    requires users[i].email.Some? && u.email == users[i].email
    ensures u == users[i]
  {
    var k :| 0 <= k < |users| && users[k] == u;
    assert i == k;
  }

  /** `isEmailAvailable`: nobody holds the email, or the holder is the excluded user. */
  function IsEmailAvailable(users: seq<UserData>, email: string, exclude: Option<UserData>): bool {
    match FindByEmail(users, email)
    case None => true
    case Some(u) => exclude.Some? && u.id == exclude.value.id
  }

  lemma IsEmailAvailableIff(users: seq<UserData>, nextId: int, email: string, exclude: Option<UserData>)
    requires WellFormed(users, nextId)
    ensures IsEmailAvailable(users, email, exclude) <==>
      forall i :: 0 <= i < |users| && users[i].email == Some(email) ==> exclude.Some? && users[i].id == exclude.value.id
  {
    match FindByEmail(users, email)
    case None =>
    case Some(u) =>
      forall i | 0 <= i < |users| && users[i].email == Some(email) ensures users[i] == u {
        SameEmailSameRow(users, nextId, i, u);
      }
  }

  /** The counts of `getUserStatistics` over the user's task collection. */
  datatype UserStatistics = UserStatistics(totalTasks: int, completedTasks: int, pendingTasks: int)

  function GetUserStatistics(tasks: seq<TaskData>, user: UserId): UserStatistics {
    var total := |Filter(t => OwnedBy(user, t), tasks)|;
    var completed := |Filter((t: TaskData) => t.completed, Filter(t => OwnedBy(user, t), tasks))|;
    UserStatistics(total, completed, total - completed)
  }

  /** The user's statistics agree with the repository's counts, so the pending tasks are
      exactly the user's uncompleted ones. */
  lemma GetUserStatisticsCorrect(tasks: seq<TaskData>, user: UserId)
    ensures var s := GetUserStatistics(tasks, user);
      && s.totalTasks == GetTaskStats(tasks, user).total
      && s.completedTasks == GetTaskStats(tasks, user).completed
      && s.pendingTasks == s.totalTasks - s.completedTasks
      && 0 <= s.completedTasks <= s.totalTasks
      && s.pendingTasks == |Filter(t => OwnedPending(user, t), tasks)|
  {
    var owned := Filter(t => OwnedBy(user, t), tasks);
    OwnedCompletedSplit(tasks, user);
    GetTaskStatsCorrect(tasks, user);
  }

  lemma {:induction false} OwnedCompletedSplit(tasks: seq<TaskData>, user: UserId)
    ensures Filter((t: TaskData) => t.completed, Filter(t => OwnedBy(user, t), tasks))
         == Filter(t => OwnedCompleted(user, t), tasks)
  {
    if tasks != [] {
      OwnedCompletedSplit(tasks[1..], user);
      var rest := Filter(t => OwnedBy(user, t), tasks[1..]);
      FilterAppend((t: TaskData) => t.completed, if OwnedBy(user, tasks[0]) then [tasks[0]] else [], rest);
    }
  }

  // ---------------------------------------------------------------------------
  // validatePasswordStrength

  predicate HasAsciiUpper(s: string) {
    exists i :: 0 <= i < |s| && IsAsciiUpper(s[i])
  }

  predicate HasAsciiLower(s: string) {
    exists i :: 0 <= i < |s| && IsAsciiLower(s[i])
  }

  predicate HasAsciiDigit(s: string) {
    exists i :: 0 <= i < |s| && IsAsciiDigit(s[i])
  }

  /** The strength errors in their fixed order: length (in UTF-8 bytes), uppercase,
      lowercase, digit; the letter and digit classes are ASCII only. */
  function PasswordErrors(password: string): seq<string> {
    (if Utf8Length(password) < 8 then [PasswordTooShort] else [])
    + (if !HasAsciiUpper(password) then [PasswordNoUpper] else [])
    + (if !HasAsciiLower(password) then [PasswordNoLower] else [])
    + (if !HasAsciiDigit(password) then [PasswordNoDigit] else [])
  }

  /** `validatePasswordStrength`: the errors are appended one check at a time; the
      password is valid exactly when none was appended, which is exactly when it has at
      least 8 bytes, an uppercase and a lowercase ASCII letter and an ASCII digit. */
  method ValidatePasswordStrength(password: string) returns (valid: bool, errors: seq<string>)
    ensures errors == PasswordErrors(password)
    ensures valid <==> errors == []
    ensures valid <==> Utf8Length(password) >= 8 && HasAsciiUpper(password)
                       && HasAsciiLower(password) && HasAsciiDigit(password)
  {
    errors := [];
    if Utf8Length(password) < 8 {
      errors := errors + [PasswordTooShort];
    }
    if !HasAsciiUpper(password) {
      errors := errors + [PasswordNoUpper];
    }
    if !HasAsciiLower(password) {
      errors := errors + [PasswordNoLower];
    }
    if !HasAsciiDigit(password) {
      errors := errors + [PasswordNoDigit];
    }
    valid := |errors| == 0;
  }

  /** The four messages are pairwise different. */
  lemma MessagesDistinct()
    ensures PasswordTooShort != PasswordNoUpper && PasswordTooShort != PasswordNoLower
    ensures PasswordTooShort != PasswordNoDigit && PasswordNoUpper != PasswordNoLower
    ensures PasswordNoUpper != PasswordNoDigit && PasswordNoLower != PasswordNoDigit
  {
    assert PasswordTooShort[13] != PasswordNoUpper[13];
    assert PasswordTooShort[13] != PasswordNoLower[13];
    assert PasswordTooShort[13] != PasswordNoDigit[13];
    assert PasswordNoUpper[42] != PasswordNoLower[42];
    assert PasswordNoUpper[33] != PasswordNoDigit[33];
    assert PasswordNoLower[33] != PasswordNoDigit[33];
  }

  /** Each check reports its own message exactly when it fails, and no message is
      reported twice. */
  lemma PasswordErrorsExact(password: string)
    ensures var e := PasswordErrors(password);
      && (PasswordTooShort in e <==> Utf8Length(password) < 8)
      && (PasswordNoUpper in e <==> !HasAsciiUpper(password))
      && (PasswordNoLower in e <==> !HasAsciiLower(password))
      && (PasswordNoDigit in e <==> !HasAsciiDigit(password))
      && (forall i, j :: 0 <= i < j < |e| ==> e[i] != e[j])
  {
    MessagesDistinct();
    var a := if Utf8Length(password) < 8 then [PasswordTooShort] else [];
    var b := if !HasAsciiUpper(password) then [PasswordNoUpper] else [];
    var c := if !HasAsciiLower(password) then [PasswordNoLower] else [];
    var d := if !HasAsciiDigit(password) then [PasswordNoDigit] else [];
    var e := PasswordErrors(password);
    assert e == a + b + c + d;
    assert forall m :: m in e <==> m in a || m in b || m in c || m in d;
    forall i, j | 0 <= i < j < |e| ensures e[i] != e[j] {
      assert e[i] in a + b + c + d && e[j] in a + b + c + d;
      RankOrdered(password, i, j);
    }
  }

  /** The rank of a strength message in the fixed order of the checks. */
  function MessageRank(m: string): int {
    if m == PasswordTooShort then 0 else if m == PasswordNoUpper then 1
    else if m == PasswordNoLower then 2 else 3
  }

  /** The errors are listed in strictly increasing rank, so none repeats. */
  lemma RankOrdered(password: string, i: int, j: int)
    requires 0 <= i < j < |PasswordErrors(password)|
    ensures MessageRank(PasswordErrors(password)[i]) < MessageRank(PasswordErrors(password)[j])
  {
    MessagesDistinct();
  }

  /** The length is counted in bytes: seven characters one of which is `é` are long
      enough, while "abc" fails on length, uppercase and digit. */
  lemma PasswordExamples()
    ensures PasswordErrors("Abcdé12") == []
    ensures PasswordErrors("abc") == [PasswordTooShort, PasswordNoUpper, PasswordNoDigit]
  {
    AccentedPasswordPasses();
    ShortPasswordFails();
  }

  /** "Abcdé12" has seven characters and eight bytes, and all three character classes. */
  lemma AccentedPasswordPasses()
    ensures PasswordErrors("Abcdé12") == []
  {
    var p := "Abcdé12";
    assert Utf8Length(p) == 8 by {
      assert p[1..] == "bcdé12" && p[2..] == "cdé12" && p[3..] == "dé12";
      assert p[4..] == "é12" && p[5..] == "12" && p[6..] == "2" && p[7..] == "";
    }
    assert HasAsciiUpper(p) && HasAsciiLower(p) && HasAsciiDigit(p) by {
      assert IsAsciiUpper(p[0]) && IsAsciiLower(p[1]) && IsAsciiDigit(p[5]);
    }
  }

  /** "abc" has three bytes, lowercase letters only. */
  lemma ShortPasswordFails()
    ensures PasswordErrors("abc") == [PasswordTooShort, PasswordNoUpper, PasswordNoDigit]
  {
    var p := "abc";
    assert Utf8Length(p) == 3 by {
      assert p[1..] == "bc" && p[2..] == "c" && p[3..] == "";
    }
    assert HasAsciiLower(p) by {
      assert IsAsciiLower(p[0]);
    }
    assert !HasAsciiUpper(p) && !HasAsciiDigit(p);
    assert PasswordErrors(p) == [PasswordTooShort] + [PasswordNoUpper] + [] + [PasswordNoDigit];
  }
}
