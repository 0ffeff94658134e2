/** The client side of the users API: the bearer token it sends, the retry on 401 and the
    errors it raises. Responses and refresh replies are inputs, one `Round` per send. */
module UserApi {
  import opened Wrappers
  import opened Strings
  import opened Json
  import opened KeychainHelper
  import opened Auth
  import Base64
  import Claims

  type Byte = Base64.Byte

  /** A `URLRequest`: method, URL, header fields and body. */
  datatype Request = Request(httpMethod: string, url: string, headers: map<string, string>, body: seq<Byte>)

  /** What one `URLSession` send produced: a thrown error, a response that is not HTTP, or an
      HTTP status with its body. */
  datatype Response = TransportFailure | NotHttp | Http(statusCode: int, body: seq<Byte>)

  /** One send: the response, and what the token endpoint answers should that response be a
      401 and a refresh follow. */
  datatype Round = Round(response: Response, refreshReply: TokenReply)

  /** The errors the service raises: `URLError(.userAuthenticationRequired)`,
      `URLError(.badServerResponse)`, a transport error passed through, and
      `APIServiceError.httpError(code:message:)`. */
  datatype ApiError = AuthenticationRequired | BadServerResponse | TransportError | HttpError(code: int, message: string)

  /** The outcome of `performRequestWithRetry`: the body or the error, every request sent
      (oldest first), how many refreshes were attempted, and the client state afterwards. */
  datatype Outcome = Outcome(result: Result<seq<Byte>, ApiError>, sent: seq<Request>, refreshes: nat, state: AuthState)

  const AuthorizationHeader := "Authorization"
  const BearerPrefix := "Bearer "

  /** `APIServiceError.errorDescription`. */
  function HttpErrorDescription(code: int, message: string): string
  {
    "HTTP " + IntToDecimal(code) + ": " + message
  }

  /** `parseErrorMessage(from:)`: the body's `message` field when the body is a JSON object and that field is a string. */
  function ParseErrorMessage(data: seq<Byte>, parse: Claims.JsonParser): (r: Option<string>)
    ensures r.Some? <==> (parse(data).Some? && parse(data).value.JObject?
                          && "message" in parse(data).value.fields && parse(data).value.fields["message"].JString?)
    ensures r.Some? ==> parse(data).value.fields["message"] == JString(r.value)
  {
    match AsObject(parse(data))
    case None => None
    case Some(fields) => StringField(fields, "message")
  }

  /** The request with its `Authorization` header set to the bearer token. */
  function WithBearer(request: Request, token: string): Request
  {
    request.(headers := request.headers[AuthorizationHeader := BearerPrefix + token])
  }

  /** `getAccessToken()`: the stored token; otherwise one refresh and a second read. */
  function TokenFor(st: AuthState, reply: TokenReply): (Result<string, ApiError>, AuthState)
  {
    match Lookup(st.keychain, AccessTokenKey)
    case Some(token) => (Ok(token), st)
    case None =>
      var (refreshed, st') := Refresh(st, reply);
      if !refreshed then (Err(AuthenticationRequired), st')
      else
        match Lookup(st'.keychain, AccessTokenKey)
        case Some(token) => (Ok(token), st')
        case None => (Err(AuthenticationRequired), st')
  }

  /** A response other than 401: the body for 2xx, `httpError` otherwise; `describe` is
      `HTTPURLResponse.localizedString(forStatusCode:)`. */
  function Settle(response: Response, parse: Claims.JsonParser, describe: int -> string): Result<seq<Byte>, ApiError>
  {
    match response
    case TransportFailure => Err(TransportError)
    case NotHttp => Err(BadServerResponse)
    case Http(code, data) =>
      if 200 <= code <= 299 then Ok(data)
      else Err(HttpError(code, ParseErrorMessage(data, parse).GetOr(describe(code))))
  }

  /** `performRequestWithRetry(_:)` run against `script`: each send takes the next round; a
      send with no round left fails in transport. */
  function Perform(st: AuthState, request: Request, script: seq<Round>, parse: Claims.JsonParser, describe: int -> string): Outcome
    decreases |script|
  {
    if script == [] then Outcome(Err(TransportError), [request], 0, st)
    else if script[0].response.Http? && script[0].response.statusCode == 401 then
      var (refreshed, st') := Refresh(st, script[0].refreshReply);
      if refreshed && Lookup(st'.keychain, AccessTokenKey).Some? then
        var rest := Perform(st', WithBearer(request, st'.keychain[AccessTokenKey]), script[1..], parse, describe);
        Outcome(rest.result, [request] + rest.sent, rest.refreshes + 1, rest.state)
      else Outcome(Err(AuthenticationRequired), [request], 1, st')
    else Outcome(Settle(script[0].response, parse, describe), [request], 0, st)
  }

  method GetAccessToken(auth: AuthManager, reply: TokenReply) returns (r: Result<string, ApiError>)
    modifies auth, auth.keychain
    ensures (r, auth.State()) == TokenFor(old(auth.State()), reply)
    ensures auth.authSession == old(auth.authSession)
  {
    var token := auth.keychain.Read(AccessTokenKey);
    if token.Some? {
      return Ok(token.value);
    }
    var refreshed := auth.RefreshAccessToken(reply);
    if refreshed {
      var newToken := auth.keychain.Read(AccessTokenKey);
      if newToken.Some? {
        return Ok(newToken.value);
      }
    }
    r := Err(AuthenticationRequired);
  }

  method PerformRequestWithRetry(auth: AuthManager, request: Request, script: seq<Round>,
                                 parse: Claims.JsonParser, describe: int -> string)
    returns (result: Result<seq<Byte>, ApiError>, sent: seq<Request>, refreshes: nat)
    modifies auth, auth.keychain
    ensures Outcome(result, sent, refreshes, auth.State()) == Perform(old(auth.State()), request, script, parse, describe)
    ensures auth.authSession == old(auth.authSession)
    decreases |script|
  {
    sent, refreshes := [request], 0;
    if script == [] {
      return Err(TransportError), sent, refreshes;
    }
    var response := script[0].response;
    if response.Http? && response.statusCode == 401 {
      var refreshed := auth.RefreshAccessToken(script[0].refreshReply);
      refreshes := 1;
      if refreshed {
        var newToken := auth.keychain.Read(AccessTokenKey);
        if newToken.Some? {
          var newRequest := WithBearer(request, newToken.value);
          var later: seq<Request>;
          var n: nat;
          result, later, n := PerformRequestWithRetry(auth, newRequest, script[1..], parse, describe);
          return result, [request] + later, n + 1;
        }
      }
      return Err(AuthenticationRequired), sent, refreshes;
    }
    result := Settle(response, parse, describe);
  }

  // ---------------------------------------------------------------------------
  // Lemmas

  /** The error description carries the status code and the message, both recoverable. */
  lemma DescriptionRecoversError(code: int, message: string)
    ensures var d := HttpErrorDescription(code, message);
      && "HTTP " <= d
      && var i := 5 + IndexOf(d[5..], ':');
      && i + 2 <= |d|
      && ParseInt(d[5..i]) == code && d[i..i + 2] == ": " && d[i + 2..] == message
  {
    var digits := IntToDecimal(code);
    var d := HttpErrorDescription(code, message);
    assert ':' !in digits by {
      if code < 0 {
        assert forall j :: 1 <= j < |digits| ==> digits[j] == NatToDecimal(-code)[j - 1];
      }
    }
    assert d[5..] == digits + [':'] + (" " + message);
    IndexOfAfter(digits, ':', " " + message);
    assert d[5..5 + |digits|] == digits;
    ParseIntOfDecimal(code);
  }

  /** The bearer header replaces `Authorization` and keeps everything else of the request. */
  lemma WithBearerKeepsRequest(request: Request, token: string)
    ensures var r := WithBearer(request, token);
      && r.httpMethod == request.httpMethod && r.url == request.url && r.body == request.body
      && AuthorizationHeader in r.headers && r.headers[AuthorizationHeader] == BearerPrefix + token
      && (forall h :: h != AuthorizationHeader ==> (h in r.headers <==> h in request.headers))
      && (forall h :: h != AuthorizationHeader && h in request.headers ==> r.headers[h] == request.headers[h])
  {
  }

  /** A stored token is returned without a refresh. */
  lemma StoredTokenNoRefresh(st: AuthState, reply: TokenReply)
    requires AccessTokenKey in st.keychain
    ensures TokenFor(st, reply) == (Ok(st.keychain[AccessTokenKey]), st)
  {
  }

  /** Without a stored token: one refresh; the token it brings back, or `userAuthenticationRequired`. */
  lemma MissingTokenRefreshesOnce(st: AuthState, reply: TokenReply)
    requires AccessTokenKey !in st.keychain
    ensures var (r, st') := TokenFor(st, reply);
      && st' == Refresh(st, reply).1
      && |st'.tokenPosts| <= |st.tokenPosts| + 1
      && (r.Ok? <==> RefreshTokenKey in st.keychain && RefreshedToken(reply).Some?)
      && (r.Ok? ==> r == Ok(RefreshedToken(reply).value))
      && (r.Err? ==> r == Err(AuthenticationRequired) && st'.keychain == st.keychain)
  {
    RefreshTouchesOnlyAccessToken(st, reply);
  }

  /** A 2xx response returns its body: one send, no refresh, nothing changed. */
  lemma SuccessReturnsBody(st: AuthState, request: Request, script: seq<Round>, parse: Claims.JsonParser, describe: int -> string)
    requires script != [] && script[0].response.Http? && 200 <= script[0].response.statusCode <= 299
    ensures Perform(st, request, script, parse, describe) == Outcome(Ok(script[0].response.body), [request], 0, st)
  {
  }

  /** Any other status except 401 raises `httpError` with the body's message or the status description. */
  lemma OtherStatusRaises(st: AuthState, request: Request, script: seq<Round>, parse: Claims.JsonParser, describe: int -> string)
    requires script != [] && script[0].response.Http?
    requires var code := script[0].response.statusCode; code != 401 && !(200 <= code <= 299)
    ensures var code, data := script[0].response.statusCode, script[0].response.body;
      var o := Perform(st, request, script, parse, describe);
      && o.sent == [request] && o.refreshes == 0 && o.state == st
      && o.result.Err? && o.result.error.HttpError? && o.result.error.code == code
      && (ParseErrorMessage(data, parse).Some? ==> o.result.error.message == ParseErrorMessage(data, parse).value)
      && (ParseErrorMessage(data, parse).None? ==> o.result.error.message == describe(code))
  {
  }

  /** A 401 whose refresh fails raises `userAuthenticationRequired` after one refresh and without re-sending. */
  lemma UnauthorizedRefreshFails(st: AuthState, request: Request, script: seq<Round>, parse: Claims.JsonParser, describe: int -> string)
    requires script != [] && script[0].response.Http? && script[0].response.statusCode == 401
    requires !Refresh(st, script[0].refreshReply).0
    ensures Perform(st, request, script, parse, describe)
         == Outcome(Err(AuthenticationRequired), [request], 1, Refresh(st, script[0].refreshReply).1)
  {
  }

  /** A 401 whose refresh succeeds re-sends the request with the new token as its bearer header. */
  lemma UnauthorizedResends(st: AuthState, request: Request, script: seq<Round>, parse: Claims.JsonParser, describe: int -> string)
    requires script != [] && script[0].response.Http? && script[0].response.statusCode == 401
    requires Refresh(st, script[0].refreshReply).0
    ensures var o := Perform(st, request, script, parse, describe);
      && |o.sent| >= 2 && o.sent[0] == request && o.refreshes >= 1
      && o.sent[1] == WithBearer(request, RefreshedToken(script[0].refreshReply).value)
  {
    RefreshTouchesOnlyAccessToken(st, script[0].refreshReply);
  }

  /** Whether the first `k` rounds are all 401 answered by a refresh reply with an access token. */
  predicate RefreshedUnauthorized(script: seq<Round>, k: nat)
  {
    k <= |script|
    && forall i :: 0 <= i < k ==>
         script[i].response.Http? && script[i].response.statusCode == 401 && RefreshedToken(script[i].refreshReply).Some?
  }

  /** With a refresh token stored and `k` 401s each followed by a successful refresh, the
      request is sent `k + 1` times after `k` refreshes, the resends carry the refreshed tokens
      in order, and the outcome is that of the last round; there is no fixed bound on `k`. */
  lemma {:induction false} RepeatedUnauthorized(st: AuthState, request: Request, script: seq<Round>, k: nat,
                                                parse: Claims.JsonParser, describe: int -> string)
    requires RefreshTokenKey in st.keychain
    requires RefreshedUnauthorized(script, k) && k < |script|
    requires !(script[k].response.Http? && script[k].response.statusCode == 401)
    ensures var o := Perform(st, request, script, parse, describe);
      && o.refreshes == k && |o.sent| == k + 1 && o.sent[0] == request
      && (forall i :: 1 <= i <= k ==>
            o.sent[i] == WithBearer(o.sent[i - 1], RefreshedToken(script[i - 1].refreshReply).value))
      && o.result == Settle(script[k].response, parse, describe)
    decreases k
  {
    if k > 0 {
      var reply := script[0].refreshReply;
      RefreshTouchesOnlyAccessToken(st, reply);
      var st' := Refresh(st, reply).1;
      var token := RefreshedToken(reply).value;
      assert Lookup(st'.keychain, RefreshTokenKey) == Lookup(st.keychain, RefreshTokenKey);
      assert RefreshedUnauthorized(script[1..], k - 1) by {
        forall i | 0 <= i < k - 1
          ensures script[1..][i].response.Http? && script[1..][i].response.statusCode == 401
               && RefreshedToken(script[1..][i].refreshReply).Some?
        {
          assert script[1..][i] == script[i + 1];
        }
      }
      assert script[1..][k - 1] == script[k];
      RepeatedUnauthorized(st', WithBearer(request, token), script[1..], k - 1, parse, describe);
      var rest := Perform(st', WithBearer(request, token), script[1..], parse, describe);
      var o := Perform(st, request, script, parse, describe);
      assert o.sent == [request] + rest.sent;
      forall i | 1 <= i <= k
        ensures o.sent[i] == WithBearer(o.sent[i - 1], RefreshedToken(script[i - 1].refreshReply).value)
      {
        if i == 1 {
          assert o.sent[1] == rest.sent[0];
        } else {
          assert o.sent[i] == rest.sent[i - 1] && o.sent[i - 1] == rest.sent[i - 2];
          assert script[i - 1] == script[1..][i - 2];
        }
      }
    }
  }
}
