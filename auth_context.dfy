/** The authentication context of the frontend: the signed-in user, the token, the
    loading flag and the token saved in local storage, with the operations that
    change them. Each reply of the authentication API is a parameter: either the
    request threw (with the error's message) or it answered with a body. */
module AuthContext {
  import opened Wrappers
  import opened ClientTypes

  /** What an `authService` call ends in. */
  datatype Reply<T> = Threw(error: string) | Answered(success: bool, data: Option<T>, message: Option<string>)

  /** `{ user, token }` of a login or registration answer. */
  datatype ClientSession = ClientSession(user: ClientUser, token: string)

  const LoginFailed := "Erro ao fazer login"
  const RegisterFailed := "Erro ao registrar"
  const OutsideProvider := "useAuth deve ser usado dentro de um AuthProvider"

  /** `response.success && response.data`. */
  predicate Accepted<T>(reply: Reply<T>) {
    reply.Answered? && reply.success && reply.data.Some?
  }

  /** `message || fallback`. */
  function MessageOr(message: Option<string>, fallback: string): (r: string)
    ensures message.Some? && message.value != "" ==> r == message.value
    ensures message.None? || message.value == "" ==> r == fallback
  {
    if message.Some? && message.value != "" then message.value else fallback
  }

  /** The message of the error `login` or `register` throws, or `None` when it
      returns: a request that threw passes its error on, and an answer without
      success or data becomes an error with the answer's message or `fallback`. */
  function Thrown<T>(reply: Reply<T>, fallback: string): (e: Option<string>)
    ensures e.None? <==> Accepted(reply)
    ensures reply.Threw? ==> e == Some(reply.error)
    ensures reply.Answered? && !Accepted(reply) ==> e == Some(MessageOr(reply.message, fallback))
  {
    match reply
    case Threw(m) => Some(m)
    case Answered(_, _, m) => if Accepted(reply) then None else Some(MessageOr(m, fallback))
  }

  /** An error thrown by an unsuccessful answer is never empty. */
  lemma ThrownAnswerNotEmpty<T>(reply: Reply<T>, fallback: string)
    requires fallback != "" && reply.Answered? && !Accepted(reply)
    ensures Thrown(reply, fallback).Some? && Thrown(reply, fallback).value != ""
  {
  }

  /** `useAuth`: the context, or the error thrown outside a provider. */
  function UseAuth<C>(context: Option<C>): (r: Result<C, string>)
    ensures context.Some? <==> r.Success?
    ensures r.Success? ==> r.value == context.value
    ensures r.Failure? ==> r.error == OutsideProvider
  {
    if context.Some? then Success(context.value) else Failure(OutsideProvider)
  }

  class AuthProvider {
    var user: Option<ClientUser>
    var token: Option<string>
    var isLoading: bool
    /** `localStorage.getItem('token')`. */
    var stored: Option<string>

    /** The token in state and the saved token agree; an empty saved token is
        ignored at start-up and stays behind. */
    predicate Synced()
      reads this
    {
      token == stored || (token.None? && stored == Some(""))
    }

    /** `isAuthenticated`: a user and a non-empty token. */
    function IsAuthenticated(): (b: bool)
      reads this
      ensures b ==> user.Some? && token.Some?
      ensures token.None? || token == Some("") ==> !b
    {
      user.Some? && token.Some? && token.value != ""
    }

    /** Mounting with the saved token: a non-empty one is taken as the token and its
        validation is pending; otherwise loading is over at once. */
    constructor (saved: Option<string>)
      ensures stored == saved && user.None?
      ensures saved.Some? && saved.value != "" ==> token == saved && isLoading
      ensures saved.None? || saved.value == "" ==> token.None? && !isLoading
      ensures Synced()
    {
      user := None;
      stored := saved;
      if saved.Some? && saved.value != "" {
        token := saved;
        isLoading := true;
      } else {
        token := None;
        isLoading := false;
      }
    }

    /** `logout`: user, token and saved token are cleared. */
    method Logout()
      modifies this
      ensures user.None? && token.None? && stored.None? && isLoading == old(isLoading)
      ensures Synced() && !IsAuthenticated()
    {
      user := None;
      token := None;
      stored := None;
    }

    /** `validateToken` after `/auth/me` replied: an accepted answer sets the user,
        anything else logs out; loading is over either way. */
    method ValidateToken(reply: Reply<ClientUser>)
      requires Synced()
      modifies this
      ensures Accepted(reply) ==> user == reply.data && token == old(token) && stored == old(stored)
      ensures !Accepted(reply) ==> user.None? && token.None? && stored.None?
      ensures !isLoading && Synced()
    {
      if Accepted(reply) {
        user := reply.data;
      } else {
        Logout();
      }
      isLoading := false;
    }

    /** `login` and `register` after the request replied: an accepted answer sets
        the user, the token and the saved token, anything else changes none of them
        and throws; loading is over either way. */
    method SignIn(reply: Reply<ClientSession>, fallback: string) returns (error: Option<string>)
      requires Synced()
      modifies this
      ensures error == Thrown(reply, fallback)
      ensures Accepted(reply) ==>
        var s := reply.data.value;
        user == Some(s.user) && token == Some(s.token) && stored == Some(s.token)
      ensures !Accepted(reply) ==> user == old(user) && token == old(token) && stored == old(stored)
      ensures !isLoading && Synced()
    {
      isLoading := true;
      if Accepted(reply) {
        var s := reply.data.value;
        user := Some(s.user);
        token := Some(s.token);
        stored := Some(s.token);
        error := None;
      } else {
        error := Thrown(reply, fallback);
      }
      isLoading := false;
    }

    /** `login`. */
    method Login(reply: Reply<ClientSession>) returns (error: Option<string>)
      requires Synced()
      modifies this
      ensures error == Thrown(reply, LoginFailed)
      ensures Accepted(reply) ==>
        user == Some(reply.data.value.user) && token == Some(reply.data.value.token) && stored == token
      ensures !Accepted(reply) ==> user == old(user) && token == old(token) && stored == old(stored)
      ensures !isLoading && Synced()
    {
      error := SignIn(reply, LoginFailed);
    }

    /** `register`. */
    method Register(reply: Reply<ClientSession>) returns (error: Option<string>)
      requires Synced()
      modifies this
      ensures error == Thrown(reply, RegisterFailed)
      ensures Accepted(reply) ==>
        user == Some(reply.data.value.user) && token == Some(reply.data.value.token) && stored == token
      ensures !Accepted(reply) ==> user == old(user) && token == old(token) && stored == old(stored)
      ensures !isLoading && Synced()
    {
      error := SignIn(reply, RegisterFailed);
    }

    /** `refreshToken`: without a token nothing is sent; a request that threw logs
        out, an accepted answer replaces the token and the saved token, and any other
        answer changes nothing. */
    method RefreshToken(reply: Reply<string>)
      requires Synced()
      modifies this
      ensures old(token).None? || old(token) == Some("") ==>
        user == old(user) && token == old(token) && stored == old(stored)
      ensures old(token).Some? && old(token) != Some("") ==>
        if reply.Threw? then user.None? && token.None? && stored.None?
        else if Accepted(reply) then user == old(user) && token == reply.data && stored == reply.data
        else user == old(user) && token == old(token) && stored == old(stored)
      ensures isLoading == old(isLoading) && Synced()
    {
      if token.None? || token.value == "" {
        return;
      }
      if reply.Threw? {
        Logout();
      } else if Accepted(reply) {
        token := reply.data;
        stored := reply.data;
      }
    }
  }
}
