/**
 * The client-side authentication state machine (`FastApiAuthRepository`). The two
 * backend calls are inputs: the outcome of `login`/`signup`, and `me` as a function of
 * the access token it is called with. A failed call carries the exception message, if any.
 */
module Auth {
  import opened Wrappers

  /** `AuthState`. */
  datatype AuthState =
    | Loading
    | Unauthenticated
    | Authenticated(userId: string, accessToken: string, username: Option<string>, email: Option<string>)
    | Error(message: string)

  /** `AuthResponse`: what login and signup return. */
  datatype AuthResponse = AuthResponse(userId: string, accessToken: string)

  /** `MeResponse`: the profile the backend returns for a token. */
  datatype MeResponse = MeResponse(userId: string, email: Option<string>, username: Option<string>)

  /** A remote call: its value, or the message of the exception it threw (possibly none). */
  type ApiResult<T> = Result<T, Option<string>>

  /** A state a login, signup or logout ends in. */
  predicate Settled(s: AuthState) {
    s.Unauthenticated? || s.Authenticated?
  }

  /** The states written after `Loading` by `login`, in order. */
  function LoginSteps(res: ApiResult<AuthResponse>, me: string -> ApiResult<MeResponse>): (steps: seq<AuthState>)
    ensures 1 <= |steps| <= 2 && Settled(steps[|steps| - 1])
    ensures steps[|steps| - 1].Authenticated? <==> res.Success? && me(res.value.accessToken).Success?
    ensures steps[|steps| - 1].Authenticated? ==>
              var p := me(res.value.accessToken).value;
              steps == [Authenticated(res.value.userId, res.value.accessToken, p.username, p.email)]
    ensures !steps[|steps| - 1].Authenticated? ==>
              steps == [Error(FailureMessage(res, me, "Login failed")), Unauthenticated]
  {
    match res
    case Failure(msg) => [Error(msg.GetOr("Login failed")), Unauthenticated]
    case Success(r) =>
      match me(r.accessToken)
      case Failure(msg) => [Error(msg.GetOr("Login failed")), Unauthenticated]
      case Success(p) => [Authenticated(r.userId, r.accessToken, p.username, p.email)]
  }

  /** The message of the first call that failed, or `fallback` when it carried none. */
  function FailureMessage(res: ApiResult<AuthResponse>, me: string -> ApiResult<MeResponse>, fallback: string): string
  {
    if res.Failure? then res.error.GetOr(fallback)
    else if me(res.value.accessToken).Failure? then me(res.value.accessToken).error.GetOr(fallback)
    else fallback
  }

  /** The states written after `Loading` by `signup`: like login, but missing profile fields fall back to the submitted ones. */
  function SignupSteps(email: string, username: string, res: ApiResult<AuthResponse>,
                       me: string -> ApiResult<MeResponse>): (steps: seq<AuthState>)
    ensures 1 <= |steps| <= 2 && Settled(steps[|steps| - 1])
    ensures steps[|steps| - 1].Authenticated? <==> res.Success? && me(res.value.accessToken).Success?
    ensures steps[|steps| - 1].Authenticated? ==>
              var p := me(res.value.accessToken).value;
              steps == [Authenticated(res.value.userId, res.value.accessToken,
                                      Some(if p.username.Some? then p.username.value else username),
                                      Some(if p.email.Some? then p.email.value else email))]
    ensures !steps[|steps| - 1].Authenticated? ==>
              steps == [Error(FailureMessage(res, me, "Signup failed")), Unauthenticated]
  {
    match res
    case Failure(msg) => [Error(msg.GetOr("Signup failed")), Unauthenticated]
    case Success(r) =>
      match me(r.accessToken)
      case Failure(msg) => [Error(msg.GetOr("Signup failed")), Unauthenticated]
      case Success(p) =>
        [Authenticated(r.userId, r.accessToken, Some(p.username.GetOr(username)), Some(p.email.GetOr(email)))]
  }

  /** Login and signup agree except for the fallback and the default message. */
  lemma SignupRefinesLogin(email: string, username: string, res: ApiResult<AuthResponse>,
                           me: string -> ApiResult<MeResponse>)
    ensures var l := LoginSteps(res, me); var s := SignupSteps(email, username, res, me);
      && |l| == |s|
      && (l[0].Authenticated? <==> s[0].Authenticated?)
      && (l[0].Authenticated? ==>
            && l[0].userId == s[0].userId && l[0].accessToken == s[0].accessToken
            && (l[0].username.Some? ==> s[0].username == l[0].username)
            && (l[0].email.Some? ==> s[0].email == l[0].email))
  {
  }

  class FastApiAuthRepository {
    /** The current value of `state`. */
    var state: AuthState
    /** Every value `state` has taken, oldest first. */
    ghost var history: seq<AuthState>

    ghost predicate Valid()
      reads this
    {
      history != [] && state == history[|history| - 1]
    }

    constructor ()
      ensures Valid() && state == Unauthenticated && history == [Unauthenticated]
    {
      state := Unauthenticated;
      history := [Unauthenticated];
    }

    method SetState(s: AuthState)
      requires Valid()
      modifies this
      ensures Valid() && state == s && history == old(history) + [s]
    {
      state := s;
      history := history + [s];
    }

    /** `login`: Loading, then Authenticated with the `me` profile as is, or a transient Error and Unauthenticated. */
    method Login(res: ApiResult<AuthResponse>, me: string -> ApiResult<MeResponse>)
      requires Valid()
      modifies this
      ensures Valid() && Settled(state)
      ensures history == old(history) + [Loading] + LoginSteps(res, me)
    {
      SetState(Loading);
      if res.Failure? {
        SetState(Error(res.error.GetOr("Login failed")));
        SetState(Unauthenticated);
        return;
      }
      var r := res.value;
      var profile := me(r.accessToken);
      if profile.Failure? {
        SetState(Error(profile.error.GetOr("Login failed")));
        SetState(Unauthenticated);
        return;
      }
      var p := profile.value;
      SetState(Authenticated(r.userId, r.accessToken, p.username, p.email));
    }

    /** `signup`: as `login`, with the submitted username and email as fallbacks. */
    method Signup(email: string, password: string, username: string,
                  res: ApiResult<AuthResponse>, me: string -> ApiResult<MeResponse>)
      requires Valid()
      modifies this
      ensures Valid() && Settled(state)
      ensures history == old(history) + [Loading] + SignupSteps(email, username, res, me)
    {
      SetState(Loading);
      if res.Failure? {
        SetState(Error(res.error.GetOr("Signup failed")));
        SetState(Unauthenticated);
        return;
      }
      var r := res.value;
      var profile := me(r.accessToken);
      if profile.Failure? {
        SetState(Error(profile.error.GetOr("Signup failed")));
        SetState(Unauthenticated);
        return;
      }
      var p := profile.value;
      SetState(Authenticated(r.userId, r.accessToken, Some(p.username.GetOr(username)), Some(p.email.GetOr(email))));
    }

    /** `logout`. */
    method Logout()
      requires Valid()
      modifies this
      ensures Valid() && state == Unauthenticated && history == old(history) + [Unauthenticated]
    {
      SetState(Unauthenticated);
    }
  }

  /** A failed login shows its Error only transiently and ends logged out. */
  method FailedLoginScenario(repo: FastApiAuthRepository, me: string -> ApiResult<MeResponse>)
    requires repo.Valid()
    modifies repo
    ensures repo.Valid() && repo.state == Unauthenticated
    ensures repo.history == old(repo.history) + [Loading, Error("Login failed"), Unauthenticated]
  {
    repo.Login(Failure(None), me);
    assert LoginSteps(Failure(None), me) == [Error("Login failed"), Unauthenticated];
  }
}
