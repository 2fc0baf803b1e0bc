/**
 * `authenticate` (cmd/auth.go:140-197): the Authorization Code grant with PKCE.
 * The HTTP callback server, its router and the shutdown handshake are not
 * modelled; what they deliver is the `Callback` input: what `ListenAndServe`
 * returned, what `Close` reported, and the `state` and `code` the handler saw.
 */
module Auth {
  import opened Wrappers
  import opened Pkce

  /** An OAuth2 token as the token endpoint returns it. */
  datatype Token = Token(accessToken: string, refreshToken: string, tokenType: string, expiry: int)

  /** `cfg.RedirectURL` (cmd/auth.go:129). */
  const RedirectUrl: string := "http://localhost:8080/callback"

  /** `cfg.Scopes` (cmd/auth.go:130-137), by the values of the Spotify scope constants. */
  const Scopes: seq<string> := [
    "playlist-read-private", "playlist-modify-private", "playlist-read-collaborative",
    "playlist-modify-public", "user-library-read", "user-library-modify"]

  /** The argument of `generateCodeChallenge` (cmd/auth.go:142). */
  const VerifierLength: nat := 100

  /** The literal `client_id` sent with the code exchange (cmd/auth.go:190). */
  const ExchangeClientId: string := "60212408a4914e6da50e448a73fbe4ac"

  /** The parameters `cfg.AuthCodeURL` puts into the authorization URL. */
  datatype AuthRequest = AuthRequest(
    responseType: string, clientId: string, redirectUri: string, scopes: seq<string>,
    state: string, codeChallengeMethod: string, codeChallenge: string)

  /** The parameters `cfg.Exchange` posts to the token endpoint. */
  datatype ExchangeRequest = ExchangeRequest(
    grantType: string, code: string, redirectUri: string, codeVerifier: seq<byte>, clientId: string)

  /** What `srv.ListenAndServe()` returned: the deliberate-shutdown sentinel or another error. */
  datatype ServeResult = ServerClosed | ServeFailed(cause: string)

  /** The observable outcome of the callback listener. */
  datatype Callback = Callback(serve: ServeResult, closeErr: Option<string>, gotState: string, gotCode: string)

  /** Everything `authenticate` takes from outside: the uuid, the random source, the hash, the encoder, the listener and the token endpoint. */
  datatype AuthEnv = AuthEnv(
    state: string,
    rng: seq<Draw>,
    sha256: seq<byte> -> seq<byte>,
    base64url: seq<byte> -> string,
    callback: Callback,
    exchange: ExchangeRequest -> Result<Token, string>)

  datatype AuthError =
    | RandomSourceFailed                          // the panic in generateCodeChallenge
    | CaptureFailed(cause: string)                // "failed to capture auth callback"
    | StateMismatch(expected: string, got: string) // "state mismatch, expected %s, got %s"
    | ExchangeFailed(cause: string)               // "failed to exchange auth code"

  /** What one run of `authenticate` sent out and what it returned. */
  datatype AuthRun = AuthRun(authorization: Option<AuthRequest>, exchanged: Option<ExchangeRequest>, result: Result<Token, AuthError>)

  /** The random source can serve the verifier's draws, and every value it yields is an index into the alphabet. */
  predicate WellFormedEnv(env: AuthEnv) {
    VerifierLength <= |env.rng| && DrawsBelow(env.rng, |CharSetText|)
  }

  /** The authorization request `authenticate` builds for a verifier. */
  function AuthorizationFor(clientId: string, env: AuthEnv, verifier: seq<byte>): AuthRequest {
    AuthRequest("code", clientId, RedirectUrl, Scopes, env.state, "S256",
                S256Challenge(verifier, env.sha256, env.base64url))
  }

  /** The token request `authenticate` sends for a verifier. */
  function ExchangeFor(env: AuthEnv, verifier: seq<byte>): ExchangeRequest {
    ExchangeRequest("authorization_code", env.callback.gotCode, RedirectUrl, verifier, ExchangeClientId)
  }

  /** The callback passed every check that guards the exchange. */
  predicate CallbackAccepted(env: AuthEnv) {
    env.callback.serve == ServerClosed && env.callback.closeErr == None && env.callback.gotState == env.state
  }

  /**
   * The value form of `Authenticate`: the result its step machine returns, written as one
   * expression so that functions and the client provider's contract can name it.
   * `Authenticate` proves `run.result == AuthOutcome(env)`.
   */
  function AuthOutcome(env: AuthEnv): Result<Token, AuthError>
    requires WellFormedEnv(env)
  {
    if !SourceHolds(env.rng[..VerifierLength]) then Failure(RandomSourceFailed)
    else if env.callback.serve.ServeFailed? then Failure(CaptureFailed(env.callback.serve.cause))
    else if env.callback.closeErr.Some? then Failure(CaptureFailed(env.callback.closeErr.value))
    else if env.callback.gotState != env.state then Failure(StateMismatch(env.state, env.callback.gotState))
    else match env.exchange(ExchangeFor(env, Verifier(env.rng[..VerifierLength])))
      case Success(tok) => Success(tok)
      case Failure(e) => Failure(ExchangeFailed(e))
  }

  method Authenticate(clientId: string, env: AuthEnv) returns (run: AuthRun)
    requires WellFormedEnv(env)
    ensures run.result == AuthOutcome(env)
    // The authorization URL carries the S256 challenge of the verifier and the fresh state.
    ensures run.authorization.Some? <==> SourceHolds(env.rng[..VerifierLength])
    ensures run.authorization.Some? ==>
      run.authorization.value == AuthorizationFor(clientId, env, Verifier(env.rng[..VerifierLength]))
    // The code is exchanged exactly when listening, closing and the state check all succeeded.
    ensures run.exchanged.Some? <==> run.authorization.Some? && CallbackAccepted(env)
    // The verifier sent to the token endpoint is the one whose hash went into the authorization URL.
    ensures run.exchanged.Some? ==>
      run.exchanged.value == ExchangeFor(env, Verifier(env.rng[..VerifierLength])) &&
      run.authorization.value.codeChallenge == S256Challenge(run.exchanged.value.codeVerifier, env.sha256, env.base64url) &&
      |run.exchanged.value.codeVerifier| == VerifierLength
    // A token is returned only from an exchange that succeeded, and it is that exchange's token.
    ensures run.result.Success? <==> run.exchanged.Some? && env.exchange(run.exchanged.value).Success?
    ensures run.result.Success? ==> run.result.value == env.exchange(run.exchanged.value).value
    // Each failed step ends the flow with its own error.
    ensures run.authorization.Some? && env.callback.serve.ServeFailed? ==>
      run.result == Failure(CaptureFailed(env.callback.serve.cause))
    ensures run.authorization.Some? && env.callback.serve == ServerClosed && env.callback.closeErr.Some? ==>
      run.result == Failure(CaptureFailed(env.callback.closeErr.value))
    ensures run.authorization.Some? && env.callback.serve == ServerClosed && env.callback.closeErr == None &&
            env.callback.gotState != env.state ==>
      run.result == Failure(StateMismatch(env.state, env.callback.gotState)) && run.exchanged.None?
  {
    var verifier := GenerateCodeChallenge(VerifierLength, env.rng);
    if verifier.None? {
      return AuthRun(None, None, Failure(RandomSourceFailed));
    }
    var challenge := S256Challenge(verifier.value, env.sha256, env.base64url);
    var authorization := AuthRequest("code", clientId, RedirectUrl, Scopes, env.state, "S256", challenge);

    var gotState, gotCode := env.callback.gotState, env.callback.gotCode;

    if env.callback.serve.ServeFailed? {
      return AuthRun(Some(authorization), None, Failure(CaptureFailed(env.callback.serve.cause)));
    }

    var shutdownErr := env.callback.closeErr;
    if shutdownErr.Some? {
      return AuthRun(Some(authorization), None, Failure(CaptureFailed(shutdownErr.value)));
    }

    if gotState != env.state {
      return AuthRun(Some(authorization), None, Failure(StateMismatch(env.state, gotState)));
    }

    var request := ExchangeRequest("authorization_code", gotCode, RedirectUrl, verifier.value, ExchangeClientId);
    var token := env.exchange(request);
    if token.Failure? {
      return AuthRun(Some(authorization), Some(request), Failure(ExchangeFailed(token.error)));
    }
    return AuthRun(Some(authorization), Some(request), Success(token.value));
  }
}
