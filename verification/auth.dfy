/** The session held by the authentication provider: the signed-in user, the
    loading flag, and the token in session storage that the HTTP client's
    interceptors read and clear. Each backend call goes through the client,
    so a 401 reply clears the token before the provider sees the error. */
module Auth {
  import opened Wrappers
  import opened Types
  import opened Api

  /** What login and signup return: the user and, normally, a token. */
  datatype Session = Session(user: User, token: Option<string>)

  /** JavaScript truthiness of an optional string. */
  predicate Present(s: Option<string>) {
    s.Some? && s.value != ""
  }

  class AuthProvider {
    var user: Option<User>
    var isLoading: bool
    const api: ApiService

    constructor (api: ApiService)
      ensures this.api == api
      ensures user == None && isLoading
    {
      this.api := api;
      user := None;
      isLoading := true;
    }

    /** `isAuthenticated`. */
    predicate IsAuthenticated()
      reads this
      ensures IsAuthenticated() ==> user.Some?
    {
      user.Some?
    }

    /** `storeToken`: a missing or empty token is ignored, any other
        replaces the stored one. */
    method StoreToken(token: Option<string>)
      modifies api
      ensures api.authToken == if Present(token) then token else old(api.authToken)
    {
      if Present(token) {
        api.authToken := token;
      }
    }

    /** `logout`: no user and no token, so no later request is authorised. */
    method Logout()
      modifies this, api
      ensures user == None && api.authToken == None
      ensures isLoading == old(isLoading)
      ensures !IsAuthenticated()
      ensures forall c :: Authorize(c, api.authToken) == c
    {
      user := None;
      api.authToken := None;
    }

    /** `login` (and `signup`, which differs only in the endpoint): on
        success the returned user is set and the returned token stored; on
        failure the error is thrown back, the user is left alone and the
        token is left alone unless the reply was a 401, which the response
        interceptor has already cleared it for. */
    method SignIn(endpoint: string, reply: Outcome<Session>) returns (thrown: Option<HttpError>)
      modifies this, api
      ensures isLoading == old(isLoading)
      ensures thrown.None? <==> reply.Success?
      ensures reply.Success? ==>
                user == Some(reply.value.user) &&
                api.authToken == (if Present(reply.value.token) then reply.value.token else old(api.authToken))
      ensures reply.Failure? ==>
                thrown == Some(reply.error) && user == old(user) &&
                api.authToken == (if Unauthorized(reply) then None else old(api.authToken))
    {
      var sent, result := api.Send(RequestConfig(endpoint, map[]), reply);
      match result
      case Success(session) =>
        user := Some(session.user);
        StoreToken(session.token);
        thrown := None;
      case Failure(e) =>
        thrown := Some(e);
    }

    method Login(reply: Outcome<Session>) returns (thrown: Option<HttpError>)
      modifies this, api
      ensures isLoading == old(isLoading)
      ensures thrown.None? <==> reply.Success?
      ensures reply.Success? ==>
                user == Some(reply.value.user) &&
                api.authToken == (if Present(reply.value.token) then reply.value.token else old(api.authToken))
      ensures reply.Failure? ==>
                thrown == Some(reply.error) && user == old(user) &&
                api.authToken == (if Unauthorized(reply) then None else old(api.authToken))
    {
      thrown := SignIn("/auth/login", reply);
    }

    method Signup(reply: Outcome<Session>) returns (thrown: Option<HttpError>)
      modifies this, api
      ensures isLoading == old(isLoading)
      ensures thrown.None? <==> reply.Success?
      ensures reply.Success? ==>
                user == Some(reply.value.user) &&
                api.authToken == (if Present(reply.value.token) then reply.value.token else old(api.authToken))
      ensures reply.Failure? ==>
                thrown == Some(reply.error) && user == old(user) &&
                api.authToken == (if Unauthorized(reply) then None else old(api.authToken))
    {
      thrown := SignIn("/auth/signup", reply);
    }

    /** `checkAuth`: with no stored token nothing is asked and nothing
        changes; otherwise the current user is fetched and set, and a failed
        fetch removes the token. Loading is over in every case. */
    method CheckAuth(reply: Outcome<User>) returns (requested: bool)
      modifies this, api
      ensures !isLoading
      ensures requested <==> Present(old(api.authToken))
      ensures !requested ==> user == old(user) && api.authToken == old(api.authToken)
      ensures requested && reply.Success? ==> user == Some(reply.value) && api.authToken == old(api.authToken)
      ensures requested && reply.Failure? ==> user == old(user) && api.authToken == None
    {
      requested := Present(api.authToken);
      if requested {
        var sent, result := api.Send(RequestConfig("/auth/me", map[]), reply);
        match result
        case Success(u) =>
          user := Some(u);
        case Failure(_) =>
          api.authToken := None;
      }
      isLoading := false;
    }
  }

  /** A successful sign-in with a token authorises every later request with
      that token and marks the session authenticated. */
  lemma SignedInRequestsCarryToken(p: AuthProvider, token: string, c: RequestConfig)
    requires p.user.Some? && p.api.authToken == Some(token) && token != ""
    ensures p.IsAuthenticated()
    ensures Authorize(c, p.api.authToken).headers[AuthorizationHeader] == "Bearer " + token
  {
  }
}
