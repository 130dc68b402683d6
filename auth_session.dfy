/** The authentication session: the signed-in token and user, the browser's
    key-value store that keeps them across reloads, and the transitions that
    change both. */
module Auth {
  import opened Wrappers
  import Registration

  datatype User = User(
    id: string, email: string, name: string, phone: string,
    role: string, isEmailVerified: bool)

  /** The login endpoint's reply body. */
  datatype LoginResponse = LoginResponse(token: string, user: User)

  /** A stored string counts as present when it exists and is not empty. */
  predicate Truthy(s: Option<string>) {
    s.Some? && s.value != ""
  }

  /** The dashboard a role lands on after logging in. */
  function DashboardFor(role: string): (route: string)
    ensures role in {"admin", "driver", "welder", "student"} ==> route == "/dashboard/" + role
    ensures role !in {"admin", "driver", "welder", "student"} ==> route == "/dashboard"
  {
    match role
    case "admin" => "/dashboard/admin"
    case "driver" => "/dashboard/driver"
    case "welder" => "/dashboard/welder"
    case "student" => "/dashboard/student"
    case _ => "/dashboard"
  }

  /** The session the restore effect recovers from storage: both the token
      and the user must be there. */
  function Restored(storedToken: Option<string>, storedUser: Option<User>): (r: Option<LoginResponse>)
    ensures r.Some? <==> Truthy(storedToken) && storedUser.Some?
    ensures r.Some? ==> r.value == LoginResponse(storedToken.value, storedUser.value)
  {
    if Truthy(storedToken) && storedUser.Some? then
      Some(LoginResponse(storedToken.value, storedUser.value))
    else None
  }

  datatype VerifyOutcome = NoPendingVerification | VerificationFailed | Verified

  /** The body sent to the verification endpoint. */
  datatype VerifyRequest = VerifyRequest(email: string, code: string)

  class Session {
    var token: Option<string>
    var user: Option<User>
    var isLoading: bool
    /** The stored `token`, `user` and `pendingVerification` entries. */
    var storedToken: Option<string>
    var storedUser: Option<User>
    var pendingVerification: Option<string>
    /** The route last navigated to. */
    var route: string

    /** Signed in or signed out, never half of each; a signed-in session is
        the one in storage. */
    ghost predicate Valid()
      reads this
    {
      (token.Some? <==> user.Some?) &&
      (token.Some? ==> storedToken == token && storedUser == user)
    }

    /** The provider mounts signed out and loading, over whatever storage
        holds. */
    constructor (storedToken: Option<string>, storedUser: Option<User>,
                 pendingVerification: Option<string>, route: string)
      ensures Valid()
      ensures token == None && user == None && isLoading
      ensures this.storedToken == storedToken && this.storedUser == storedUser
      ensures this.pendingVerification == pendingVerification && this.route == route
    {
      token, user, isLoading := None, None, true;
      this.storedToken, this.storedUser := storedToken, storedUser;
      this.pendingVerification, this.route := pendingVerification, route;
    }

    /** The mount effect: takes the stored session when both parts are
        there; loading ends either way. */
    method Restore()
      requires Valid()
      modifies this`token, this`user, this`isLoading
      ensures Valid() && !isLoading
      ensures Restored(storedToken, storedUser).Some? ==>
        token == storedToken && user == storedUser
      ensures Restored(storedToken, storedUser).None? ==>
        token == old(token) && user == old(user)
    {
      var r := Restored(storedToken, storedUser);
      if r.Some? {
        token := Some(r.value.token);
        user := Some(r.value.user);
      }
      isLoading := false;
    }

    /** `login`, with the reply as a parameter (`None` is a failed request).
        A success stores and sets both parts and goes to the role's
        dashboard; a failure changes nothing and is reported as `false`. */
    method Login(reply: Option<LoginResponse>) returns (ok: bool)
      requires Valid()
      modifies this`token, this`user, this`storedToken, this`storedUser, this`route
      ensures Valid()
      ensures ok <==> reply.Some?
      ensures reply.Some? ==>
        token == storedToken == Some(reply.value.token) &&
        user == storedUser == Some(reply.value.user) &&
        route == DashboardFor(reply.value.user.role)
      ensures reply.None? ==>
        token == old(token) && user == old(user) && storedToken == old(storedToken) &&
        storedUser == old(storedUser) && route == old(route)
    {
      if reply.None? {
        return false;
      }
      storedToken := Some(reply.value.token);
      storedUser := Some(reply.value.user);
      token := Some(reply.value.token);
      user := Some(reply.value.user);
      route := DashboardFor(reply.value.user.role);
      ok := true;
    }

    /** `register`, with the request's success as a parameter: a success
        remembers the email awaiting verification and goes to the
        verification page. */
    method Register(data: Registration.RegisterRequest, succeeded: bool) returns (ok: bool)
      requires Valid()
      modifies this`pendingVerification, this`route
      ensures Valid()
      ensures ok == succeeded
      ensures succeeded ==> pendingVerification == Some(data.email) && route == "/verify-email"
      ensures !succeeded ==> pendingVerification == old(pendingVerification) && route == old(route)
    {
      if succeeded {
        pendingVerification := Some(data.email);
        route := "/verify-email";
      }
      ok := succeeded;
    }

    /** `verifyEmail`: without a pending email it fails before any request;
        otherwise it sends the email and code, and a success clears the
        pending entry and goes to the login page. */
    method VerifyEmail(code: string, succeeded: bool)
      returns (outcome: VerifyOutcome, request: Option<VerifyRequest>)
      requires Valid()
      modifies this`pendingVerification, this`route
      ensures Valid()
      ensures !Truthy(old(pendingVerification)) ==>
        outcome == NoPendingVerification && request == None &&
        pendingVerification == old(pendingVerification) && route == old(route)
      ensures Truthy(old(pendingVerification)) ==>
        request == Some(VerifyRequest(old(pendingVerification).value, code))
      ensures Truthy(old(pendingVerification)) && succeeded ==>
        outcome == Verified && pendingVerification == None && route == "/login"
      ensures Truthy(old(pendingVerification)) && !succeeded ==>
        outcome == VerificationFailed &&
        pendingVerification == old(pendingVerification) && route == old(route)
    {
      if !Truthy(pendingVerification) {
        return NoPendingVerification, None;
      }
      request := Some(VerifyRequest(pendingVerification.value, code));
      if succeeded {
        pendingVerification := None;
        route := "/login";
        outcome := Verified;
      } else {
        outcome := VerificationFailed;
      }
    }

    /** `logout`: both parts leave storage and state; the pending
        verification is kept. */
    method Logout()
      requires Valid()
      modifies this`token, this`user, this`storedToken, this`storedUser, this`route
      ensures Valid()
      ensures token == None && user == None && storedToken == None && storedUser == None
      ensures route == "/login"
    {
      storedToken, storedUser := None, None;
      token, user := None, None;
      route := "/login";
    }
  }
}
