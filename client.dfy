/**
 * `getClient` (cmd/auth.go:26-122): the lazily created, process-wide Spotify
 * client. The read/write lock is not modelled; a call runs its steps in order.
 * The package-level state is a `Process` object: the published client,
 * `cfg.ClientID`, and the token cache file at ~/.playlistinator/token.json.
 */
module ClientProvider {
  import opened Wrappers
  import opened Auth

  /** `spotify.New(cfg.Client(ctx, tok), spotify.WithRetry(true))`: a client bound to a token, with retries on. */
  datatype Client = Client(token: Token, retry: bool)

  /** The steps of `getClient` that reach outside the process. */
  datatype Event = ReadEnv | LoadCache | RunAuthentication | StoreCache | Publish

  /**
   * How the best-effort cache write ended: written; not written because the home directory,
   * marshalling, `MkdirAll` or `OpenFile` failed; or truncated by `OpenFile` and then not written.
   */
  datatype StoreOutcome = Stored | NotStored | TruncatedOnly

  datatype ClientError = ClientIdNotSet | AuthenticationFailed(cause: AuthError)

  /**
   * The token cache file ~/.playlistinator/token.json as a load finds it: unreachable (no home
   * directory, no file, or a read error), present but not a JSON token, or holding a token.
   */
  datatype CacheFile = Unreadable | Malformed | Holds(token: Token)

  /**
   * The best-effort cache read of `getClient`: the file's token after `TokenSource(...).Token()`,
   * or a miss. `tokenSource` is what refreshing a cached token yields.
   */
  function LoadToken(file: CacheFile, tokenSource: Token -> Option<Token>): (r: Option<Token>)
    ensures r.Some? <==> file.Holds? && tokenSource(file.token).Some?
    ensures r.Some? ==> r.value == tokenSource(file.token).value
  {
    match file
    case Unreadable => None
    case Malformed => None
    case Holds(t) => tokenSource(t)
  }

  /** The cache file after a best-effort write of `tok` that ended with `outcome`. */
  function StoreToken(file: CacheFile, tok: Token, outcome: StoreOutcome): (r: CacheFile)
    ensures r.Holds? <==> outcome == Stored || (outcome == NotStored && file.Holds?)
    ensures r.Holds? ==> r.token == (if outcome == Stored then tok else file.token)
  {
    match outcome
    case Stored => Holds(tok)
    case NotStored => file
    case TruncatedOnly => Malformed   // an empty or partial file does not parse
  }

  /**
   * What the next load finds after a write: the written token (refreshed), nothing after a write
   * that truncated the file and failed, and what it found before when nothing was written.
   */
  lemma StoreThenLoad(file: CacheFile, tok: Token, outcome: StoreOutcome, tokenSource: Token -> Option<Token>)
    ensures outcome == Stored ==> LoadToken(StoreToken(file, tok, outcome), tokenSource) == tokenSource(tok)
    ensures outcome == TruncatedOnly ==> LoadToken(StoreToken(file, tok, outcome), tokenSource).None?
    ensures outcome == NotStored ==>
      LoadToken(StoreToken(file, tok, outcome), tokenSource) == LoadToken(file, tokenSource)
  {}

  function CountPublish(trace: seq<Event>): nat {
    if trace == [] then 0 else CountPublish(trace[..|trace| - 1]) + (if trace[|trace| - 1] == Publish then 1 else 0)
  }

  lemma CountPublishAppend(trace: seq<Event>, e: Event)
    ensures CountPublish(trace + [e]) == CountPublish(trace) + (if e == Publish then 1 else 0)
  {
    assert (trace + [e])[..|trace|] == trace;
  }

  class Process {
    var spotifyClient: Option<Client>
    var cfgClientId: string
    var tokenFile: CacheFile
    ghost var trace: seq<Event>

    /** A client is published at most once, it is the client of the last publish, and `cfg.ClientID` was set before it. */
    ghost predicate Valid()
      reads this
    {
      CountPublish(trace) <= 1 &&
      (spotifyClient.Some? <==> CountPublish(trace) == 1) &&
      (spotifyClient.Some? ==> cfgClientId != "")
    }

    constructor (tokenFile: CacheFile)
      ensures Valid()
      ensures spotifyClient == None && cfgClientId == "" && this.tokenFile == tokenFile && trace == []
    {
      spotifyClient := None;
      cfgClientId := "";
      this.tokenFile := tokenFile;
      trace := [];
    }

    /**
     * `envClientId` is what `os.Getenv("SPOTIFY_CLIENT_ID")` returns, `tokenSource` what refreshing
     * a cached token yields, `auth` what `authenticate` meets, `store` how the cache write ends.
     */
    method GetClient(envClientId: string, tokenSource: Token -> Option<Token>, auth: AuthEnv, store: StoreOutcome)
      returns (r: Result<Client, ClientError>)
      requires Valid() && WellFormedEnv(auth)
      modifies this
      ensures Valid()
      // A published client is returned as it is, and nothing else is consulted or changed.
      ensures old(spotifyClient).Some? ==>
        r == Success(old(spotifyClient).value) && unchanged(this)
      // A published client never changes.
      ensures old(spotifyClient).Some? ==> spotifyClient == old(spotifyClient)
      // Without a client ID: an error, and nothing set.
      ensures old(spotifyClient).None? && envClientId == "" ==>
        r == Failure(ClientIdNotSet) && spotifyClient.None? && cfgClientId == old(cfgClientId) &&
        tokenFile == old(tokenFile) && trace == old(trace) + [ReadEnv]
      // A cache hit publishes the cached (refreshed) token's client and writes nothing.
      ensures old(spotifyClient).None? && envClientId != "" && LoadToken(old(tokenFile), tokenSource).Some? ==>
        r == Success(Client(LoadToken(old(tokenFile), tokenSource).value, true)) &&
        spotifyClient == Some(r.value) && cfgClientId == envClientId && tokenFile == old(tokenFile) &&
        trace == old(trace) + [ReadEnv, LoadCache, Publish]
      // A cache miss authenticates; a failure publishes nothing and writes nothing.
      ensures old(spotifyClient).None? && envClientId != "" && LoadToken(old(tokenFile), tokenSource).None? &&
              AuthOutcome(auth).Failure? ==>
        r == Failure(AuthenticationFailed(AuthOutcome(auth).error)) && spotifyClient.None? &&
        cfgClientId == envClientId && tokenFile == old(tokenFile) &&
        trace == old(trace) + [ReadEnv, LoadCache, RunAuthentication]
      // A successful authentication writes the cache (best effort) and publishes the new token's client.
      ensures old(spotifyClient).None? && envClientId != "" && LoadToken(old(tokenFile), tokenSource).None? &&
              AuthOutcome(auth).Success? ==>
        r == Success(Client(AuthOutcome(auth).value, true)) && spotifyClient == Some(r.value) &&
        cfgClientId == envClientId && tokenFile == StoreToken(old(tokenFile), AuthOutcome(auth).value, store) &&
        trace == old(trace) + [ReadEnv, LoadCache, RunAuthentication, StoreCache, Publish]
    {
      if spotifyClient.Some? {
        return Success(spotifyClient.value);
      }

      Record(ReadEnv);
      var clientId := envClientId;
      if clientId == "" {
        return Failure(ClientIdNotSet);
      }
      cfgClientId := clientId;
      ghost var before := trace;
      r := CreateClient(tokenSource, auth, store);
      assert before + [LoadCache, Publish] == old(trace) + [ReadEnv, LoadCache, Publish];
      assert before + [LoadCache, RunAuthentication] == old(trace) + [ReadEnv, LoadCache, RunAuthentication];
      assert before + [LoadCache, RunAuthentication, StoreCache, Publish] ==
             old(trace) + [ReadEnv, LoadCache, RunAuthentication, StoreCache, Publish];
    }

    /** The part of `getClient` after `cfg.ClientID` is set (cmd/auth.go:48-121): cache, authentication, publication. */
    method CreateClient(tokenSource: Token -> Option<Token>, auth: AuthEnv, store: StoreOutcome)
      returns (r: Result<Client, ClientError>)
      requires Valid() && WellFormedEnv(auth) && spotifyClient.None? && cfgClientId != ""
      modifies this
      ensures Valid() && cfgClientId == old(cfgClientId)
      ensures LoadToken(old(tokenFile), tokenSource).Some? ==>
        r == Success(Client(LoadToken(old(tokenFile), tokenSource).value, true)) &&
        spotifyClient == Some(r.value) && tokenFile == old(tokenFile) &&
        trace == old(trace) + [LoadCache, Publish]
      ensures LoadToken(old(tokenFile), tokenSource).None? && AuthOutcome(auth).Failure? ==>
        r == Failure(AuthenticationFailed(AuthOutcome(auth).error)) && spotifyClient.None? &&
        tokenFile == old(tokenFile) && trace == old(trace) + [LoadCache, RunAuthentication]
      ensures LoadToken(old(tokenFile), tokenSource).None? && AuthOutcome(auth).Success? ==>
        r == Success(Client(AuthOutcome(auth).value, true)) && spotifyClient == Some(r.value) &&
        tokenFile == StoreToken(old(tokenFile), AuthOutcome(auth).value, store) &&
        trace == old(trace) + [LoadCache, RunAuthentication, StoreCache, Publish]
    {
      Record(LoadCache);
      var tok := LoadToken(tokenFile, tokenSource);

      if tok.None? {
        var authenticated := AuthenticateAndStore(auth, store);
        if authenticated.Failure? {
          return Failure(AuthenticationFailed(authenticated.error));
        }
        tok := Some(authenticated.value);
      }

      var c := Client(tok.value, true);
      spotifyClient := Some(c);
      Record(Publish);
      return Success(c);
    }

    /** The cache-miss path of `getClient` (cmd/auth.go:75-114): authenticate, then write the cache on success. */
    method AuthenticateAndStore(auth: AuthEnv, store: StoreOutcome) returns (tok: Result<Token, AuthError>)
      requires WellFormedEnv(auth)
      modifies this`tokenFile, this`trace
      ensures tok == AuthOutcome(auth)
      ensures tok.Failure? ==> tokenFile == old(tokenFile) && trace == old(trace) + [RunAuthentication]
      ensures tok.Success? ==>
        tokenFile == StoreToken(old(tokenFile), tok.value, store) && trace == old(trace) + [RunAuthentication, StoreCache]
      ensures CountPublish(trace) == CountPublish(old(trace))
    {
      Record(RunAuthentication);
      var run := Authenticate(cfgClientId, auth);
      tok := run.result;
      if tok.Success? {
        Record(StoreCache);
        tokenFile := StoreToken(tokenFile, tok.value, store);
      }
    }

    /** Appends a step to the trace. */
    ghost method Record(e: Event)
      modifies this`trace
      ensures trace == old(trace) + [e]
      ensures CountPublish(trace) == CountPublish(old(trace)) + (if e == Publish then 1 else 0)
    {
      CountPublishAppend(trace, e);
      trace := trace + [e];
    }
  }
}
