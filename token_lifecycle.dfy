/**
 * The token lifecycle of the Strava client: the access token, the rotating refresh token and the
 * expiry instant; the request interceptor that refreshes a token about to expire before it sets
 * `Authorization: Bearer <token>` (section 2.1 of RFC 6750); the refresh-token grant (section 6
 * of RFC 6749); and the response interceptor that refreshes and resends a request once after a
 * 401.
 *
 * The behaviour is specified by pure functions over the token triple and a `Wire`, which holds
 * the scripted answers of the upstream API and of its token endpoint (consumed in order) and
 * the log of what the client sent. Class `StravaClient` holds the fields that the client
 * overwrites, and its methods are proved to do what those functions say.
 */
module TokenLifecycle {
  import opened Wrappers

  /** A token that expires within this many seconds already counts as expired (`5 * 60`). */
  const ExpiryBufferSeconds: int := 5 * 60

  /** The `grant_type` of the refresh exchange. */
  const RefreshGrantType: string := "refresh_token"

  /** The message of a call that never gets an answer (its script is exhausted). */
  const NoAnswerMessage: string := "no answer"

  datatype Credentials = Credentials(clientId: string, clientSecret: string)

  /** `accessToken`, `refreshToken` and `tokenExpiresAt` (unix seconds). */
  datatype TokenState = TokenState(accessToken: string, refreshToken: string, expiresAt: int)

  /** The JSON body of the POST to the token endpoint. */
  datatype TokenRequest = TokenRequest(clientId: string, clientSecret: string, refreshToken: string, grantType: string)

  /** The token endpoint's answer: a new triple, or the error that the POST is rejected with. */
  datatype TokenReply =
    | Granted(accessToken: string, refreshToken: string, expiresAt: int)
    | Refused(message: string)

  /** The calls that the cleanup makes through the client. */
  datatype Call =
    | ListActivities(page: int, perPage: int)
    | UpdateActivity(id: int, hideFromHome: bool)

  /** The upstream API's answer to one sent request: a status, or none at all. */
  datatype Reply = Answered(status: int, message: string) | NoAnswer(message: string)

  /** What a request can be rejected with. */
  datatype ApiError =
    | HttpError(status: int, message: string)
    | NetworkError(message: string)
    | RefreshError(message: string)

  /** How a request settles: resolved with a 2xx status, or rejected. */
  datatype Outcome = Resolved(status: int) | Rejected(error: ApiError)

  /** One request as it left the client: which call, with which `Authorization` header. */
  datatype Sent = Sent(call: Call, authorization: string)

  /** The answers still to come, and everything sent so far. */
  datatype Wire = Wire(apiReplies: seq<Reply>, tokenReplies: seq<TokenReply>, apiLog: seq<Sent>, tokenLog: seq<TokenRequest>)

  function Drop<T>(s: seq<T>): seq<T>
  {
    if s == [] then [] else s[1..]
  }

  function NextReply(w: Wire): Reply
  {
    if w.apiReplies == [] then NoAnswer(NoAnswerMessage) else w.apiReplies[0]
  }

  function NextTokenReply(w: Wire): TokenReply
  {
    if w.tokenReplies == [] then Refused(NoAnswerMessage) else w.tokenReplies[0]
  }

  function Bearer(token: string): string
  {
    "Bearer " + token
  }

  /**
   * `isTokenExpired` at the clock reading `now`, in unix seconds: the clock has passed the
   * instant five minutes before expiry.
   */
  predicate Expired(expiresAt: int, now: int): (r: bool)
    ensures r <==> now > expiresAt - ExpiryBufferSeconds
  {
    expiresAt - now < ExpiryBufferSeconds
  }

  /** axios's default `validateStatus`; every other status rejects the request. */
  predicate IsSuccessStatus(status: int)
  {
    200 <= status < 300
  }

  /** `error.response?.status === 401`. */
  predicate IsUnauthorized(e: ApiError)
  {
    e.HttpError? && e.status == 401
  }

  function ErrorOf(reply: Reply): ApiError
  {
    match reply
    case Answered(status, message) => HttpError(status, message)
    case NoAnswer(message) => NetworkError(message)
  }

  /** How one reply settles a sent request. */
  function Settle(reply: Reply): (o: Outcome)
    ensures o.Resolved? <==> reply.Answered? && IsSuccessStatus(reply.status)
  {
    if reply.Answered? && IsSuccessStatus(reply.status) then Resolved(reply.status) else Rejected(ErrorOf(reply))
  }

  /** The token reply that installs exactly the triple `t`. */
  function Grant(t: TokenState): TokenReply
  {
    Granted(t.accessToken, t.refreshToken, t.expiresAt)
  }

  /** A new client: no access token, expiry at instant 0, the configured seed refresh token. */
  function InitialTokens(seed: string): TokenState
  {
    TokenState("", seed, 0)
  }

  /** The transport: the request goes into the log and the next scripted answer is used up. */
  function Deliver(w: Wire, sent: Sent): (w': Wire)
    ensures w'.apiLog == w.apiLog + [sent] && w'.apiReplies == Drop(w.apiReplies)
    ensures w'.tokenLog == w.tokenLog && w'.tokenReplies == w.tokenReplies
  {
    w.(apiReplies := Drop(w.apiReplies), apiLog := w.apiLog + [sent])
  }

  datatype Refreshed = Refreshed(tokens: TokenState, wire: Wire, error: Option<ApiError>)

  /**
   * `refreshAccessToken`: POST the refresh grant; only once the POST has resolved are the three
   * token fields overwritten, all together.
   */
  function Refresh(c: Credentials, s: TokenState, w: Wire): (r: Refreshed)
    ensures r.wire.tokenLog == w.tokenLog + [TokenRequest(c.clientId, c.clientSecret, s.refreshToken, RefreshGrantType)]
    ensures r.wire.tokenReplies == Drop(w.tokenReplies)
    ensures r.wire.apiLog == w.apiLog && r.wire.apiReplies == w.apiReplies
    ensures r.error.None? <==> NextTokenReply(w).Granted?
    ensures r.error.None? ==> Grant(r.tokens) == NextTokenReply(w)
    ensures r.error.Some? ==> r.tokens == s && r.error == Some(RefreshError(NextTokenReply(w).message))
  {
    var posted := w.(tokenReplies := Drop(w.tokenReplies),
                     tokenLog := w.tokenLog + [TokenRequest(c.clientId, c.clientSecret, s.refreshToken, RefreshGrantType)]);
    match NextTokenReply(w)
    case Granted(access, refresh, expiresAt) => Refreshed(TokenState(access, refresh, expiresAt), posted, None)
    case Refused(message) => Refreshed(s, posted, Some(RefreshError(message)))
  }

  datatype Gate = Gate(tokens: TokenState, wire: Wire, authorization: string, error: Option<ApiError>)

  /**
   * The request interceptor: when the token is expired, refresh and wait for the refresh;
   * then set the `Authorization` header from the (possibly new) access token. A failed refresh
   * rejects the request with the refresh error and leaves the header as it was.
   */
  function Authorize(c: Credentials, s: TokenState, w: Wire, now: int, authorization: string): (g: Gate)
    ensures g.error.None? ==> g.authorization == Bearer(g.tokens.accessToken)
    ensures g.error.Some? ==> g.authorization == authorization && g.tokens == s && g.error.value.RefreshError?
    ensures Expired(s.expiresAt, now) ==> g.wire == Refresh(c, s, w).wire && g.tokens == Refresh(c, s, w).tokens
    ensures Expired(s.expiresAt, now) ==> g.error == Refresh(c, s, w).error
    ensures !Expired(s.expiresAt, now) ==> g.tokens == s && g.wire == w && g.error.None?
  {
    if Expired(s.expiresAt, now) then
      var f := Refresh(c, s, w);
      match f.error
      case Some(_) => Gate(s, f.wire, authorization, f.error)
      case None => Gate(f.tokens, f.wire, Bearer(f.tokens.accessToken), None)
    else
      Gate(s, w, Bearer(s.accessToken), None)
  }

  /** What one request leaves behind: how it settled, the tokens, the wire, and its config. */
  datatype Exchange = Exchange(outcome: Outcome, tokens: TokenState, wire: Wire, retry: bool, authorization: string)

  /** A request not yet retried may still be resent once; a retried one may not. */
  function Rank(retry: bool): nat
  {
    if retry then 0 else 1
  }

  /**
   * `this.api(config)`: the request interceptor, the transport, then the response interceptor
   * for a rejection. `retry` and `authorization` are the config's `_retry` flag and header.
   */
  function Perform(c: Credentials, s: TokenState, w: Wire, now: int, call: Call, retry: bool, authorization: string): (ex: Exchange)
    decreases Rank(retry), 1
    ensures w.apiLog <= ex.wire.apiLog
    ensures ex.outcome.Resolved? ==> ex.authorization == Bearer(ex.tokens.accessToken)
    ensures retry ==> ex.retry
    ensures ex.wire.apiLog == w.apiLog ==> ex.outcome.Rejected? && ex.outcome.error.RefreshError?
  {
    var g := Authorize(c, s, w, now, authorization);
    match g.error
    case Some(e) => OnRejected(c, g.tokens, g.wire, now, call, retry, g.authorization, e)
    case None =>
      var w' := Deliver(g.wire, Sent(call, g.authorization));
      match Settle(NextReply(g.wire))
      case Resolved(status) => Exchange(Resolved(status), g.tokens, w', retry, g.authorization)
      case Rejected(e) => OnRejected(c, g.tokens, w', now, call, retry, g.authorization, e)
  }

  /**
   * The response interceptor's rejection handler: on a 401 for a request not yet retried, mark
   * it retried, refresh, set the new header and resend it through `Perform`; a failed refresh
   * rejects with the refresh error. Every other rejection passes through unchanged.
   */
  function OnRejected(c: Credentials, s: TokenState, w: Wire, now: int, call: Call, retry: bool, authorization: string, e: ApiError): (ex: Exchange)
    decreases Rank(retry), 0
    ensures w.apiLog <= ex.wire.apiLog
    ensures ex.outcome.Resolved? ==> ex.authorization == Bearer(ex.tokens.accessToken)
    ensures retry || IsUnauthorized(e) ==> ex.retry
    ensures !IsUnauthorized(e) ==> ex.outcome == Rejected(e) && ex.tokens == s && ex.wire == w
  {
    if IsUnauthorized(e) && !retry then
      var f := Refresh(c, s, w);
      match f.error
      case Some(refreshError) => Exchange(Rejected(refreshError), f.tokens, f.wire, true, authorization)
      case None => Perform(c, f.tokens, f.wire, now, call, true, Bearer(f.tokens.accessToken))
    else
      Exchange(Rejected(e), s, w, retry, authorization)
  }

  /** The mutable request config: its call, its `Authorization` header and its `_retry` flag. */
  class RequestConfig {
    const call: Call
    var authorization: string
    var retry: bool

    /** A new request: no `Authorization` header yet and `_retry` unset. */
    constructor (call: Call)
      ensures this.call == call && authorization == "" && !retry
    {
      this.call := call;
      authorization := "";
      retry := false;
    }
  }

  /** The client object: its credentials and the token fields that each refresh overwrites. */
  class StravaClient {
    const clientId: string
    const clientSecret: string
    var refreshToken: string
    var accessToken: string
    var tokenExpiresAt: int

    constructor (clientId: string, clientSecret: string, initialRefreshToken: string)
      ensures this.clientId == clientId && this.clientSecret == clientSecret
      ensures Tokens() == InitialTokens(initialRefreshToken)
    {
      this.clientId := clientId;
      this.clientSecret := clientSecret;
      refreshToken := initialRefreshToken;
      accessToken := "";
      tokenExpiresAt := 0;
    }

    function Client(): Credentials
    {
      Credentials(clientId, clientSecret)
    }

    function Tokens(): TokenState
      reads this
    {
      TokenState(accessToken, refreshToken, tokenExpiresAt)
    }

    predicate IsTokenExpired(now: int): (r: bool)
      reads this
      ensures r <==> now > Tokens().expiresAt - ExpiryBufferSeconds
    {
      Expired(tokenExpiresAt, now)
    }

    method RefreshAccessToken(w: Wire) returns (error: Option<ApiError>, w': Wire)
      modifies this
      ensures Refresh(Client(), old(Tokens()), w) == Refreshed(Tokens(), w', error)
    {
      w' := w.(tokenReplies := Drop(w.tokenReplies),
               tokenLog := w.tokenLog + [TokenRequest(clientId, clientSecret, refreshToken, RefreshGrantType)]);
      match NextTokenReply(w)
      case Granted(access, refresh, expiresAt) =>
        accessToken := access;
        refreshToken := refresh;
        tokenExpiresAt := expiresAt;
        error := None;
      case Refused(message) =>
        error := Some(RefreshError(message));
    }

    /** The request interceptor, on `config`. */
    method AuthorizeRequest(config: RequestConfig, now: int, w: Wire) returns (error: Option<ApiError>, w': Wire)
      modifies this, config
      ensures config.retry == old(config.retry)
      ensures Authorize(Client(), old(Tokens()), w, now, old(config.authorization))
              == Gate(Tokens(), w', config.authorization, error)
    {
      error, w' := None, w;
      if IsTokenExpired(now) {
        error, w' := RefreshAccessToken(w);
        if error.Some? {
          return;
        }
      }
      config.authorization := Bearer(accessToken);
    }

    /** `this.api(config)`. */
    method Request(config: RequestConfig, now: int, w: Wire) returns (outcome: Outcome, w': Wire)
      modifies this, config
      decreases Rank(config.retry), 1
      ensures Perform(Client(), old(Tokens()), w, now, config.call, old(config.retry), old(config.authorization))
              == Exchange(outcome, Tokens(), w', config.retry, config.authorization)
    {
      var error: Option<ApiError>;
      error, w' := AuthorizeRequest(config, now, w);
      if error.Some? {
        outcome, w' := OnResponseError(config, error.value, now, w');
        return;
      }
      outcome := Settle(NextReply(w'));
      w' := Deliver(w', Sent(config.call, config.authorization));
      if outcome.Rejected? {
        outcome, w' := OnResponseError(config, outcome.error, now, w');
      }
    }

    /** The response interceptor's rejection handler, on `config`. */
    method OnResponseError(config: RequestConfig, e: ApiError, now: int, w: Wire) returns (outcome: Outcome, w': Wire)
      modifies this, config
      decreases Rank(config.retry), 0
      ensures OnRejected(Client(), old(Tokens()), w, now, config.call, old(config.retry), old(config.authorization), e)
              == Exchange(outcome, Tokens(), w', config.retry, config.authorization)
    {
      if IsUnauthorized(e) && !config.retry {
        config.retry := true;
        var error: Option<ApiError>;
        error, w' := RefreshAccessToken(w);
        if error.Some? {
          outcome := Rejected(error.value);
          return;
        }
        config.authorization := Bearer(accessToken);
        outcome, w' := Request(config, now, w');
      } else {
        outcome, w' := Rejected(e), w;
      }
    }
  }
}
