/** The OAuth2 authorization-code client and the session it keeps (AuthManager). */
module Auth {
  import opened Wrappers
  import opened Strings
  import opened Json
  import opened KeychainHelper

  const ClientId := "3qsuhghh7deonv78rcqtrgpe52"
  /** The custom URL scheme both browser sessions return through. */
  const CallbackScheme := "myapp"
  const RedirectUri := CallbackScheme + "://callback"
  const LogoutRedirectUri := CallbackScheme + "://signout"
  const Domain := "https://ap-southeast-24hnx0bumu.auth.ap-southeast-2.amazoncognito.com"
  const Scope := "openid+email+profile"
  const ResponseType := "code"
  const FormContentType := "application/x-www-form-urlencoded"

  /** The keychain accounts of the three tokens. */
  const AccessTokenKey := "accessToken"
  const RefreshTokenKey := "refreshToken"
  const IdTokenKey := "idToken"

  /** The hosted login page, with the anti-replay `state` last. */
  function AuthorizeUrl(state: string): string
  {
    Domain + "/login?client_id=" + ClientId + "&response_type=" + ResponseType + "&scope=" + Scope
      + "&redirect_uri=" + RedirectUri + "&state=" + state
  }

  /** The hosted logout page. */
  function LogoutUrl(): string
  {
    Domain + "/logout?client_id=" + ClientId + "&logout_uri=" + LogoutRedirectUri
  }

  function TokenUrl(): string
  {
    Domain + "/oauth2/token"
  }

  /** The form body of the authorization-code grant. */
  function ExchangeBody(code: string): string
  {
    "grant_type=authorization_code&client_id=" + ClientId + "&code=" + code + "&redirect_uri=" + RedirectUri
  }

  /** The form body of the refresh grant. */
  function RefreshBody(refreshToken: string): string
  {
    "grant_type=refresh_token&client_id=" + ClientId + "&refresh_token=" + refreshToken
  }

  /** `URL(string: uri)?.scheme`: the text before the first colon (validity is not modelled). */
  function Scheme(uri: string): (r: Option<string>)
    ensures r.Some? <==> ':' in uri
    ensures r.Some? ==> ':' !in r.value && r.value + ":" <= uri
  {
    var i := IndexOf(uri, ':');
    if i < |uri| then Some(uri[..i]) else None
  }

  /** A POST of a form body to the token endpoint. */
  datatype FormPost = FormPost(url: string, contentType: string, body: string)

  function TokenPost(body: string): FormPost
  {
    FormPost(TokenUrl(), FormContentType, body)
  }

  /** An interactive browser session: the page it opens and the redirect scheme it waits for. */
  datatype AuthSession = AuthSession(url: string, callbackScheme: string)

  /** One item of a redirect URL's query (`URLQueryItem`). */
  datatype QueryItem = QueryItem(name: string, value: Option<string>)

  /** What the browser session hands to its completion handler: an error, or the redirect's
      query items (none when there is no redirect URL or it cannot be taken apart). */
  datatype Callback = Callback(error: Option<string>, queryItems: Option<seq<QueryItem>>)

  /** What one POST to the token endpoint produced: a thrown error (transport, or a body that
      is not JSON), or the parsed JSON body. The HTTP status is not looked at. */
  datatype TokenReply = Thrown | Parsed(json: Json)

  /** The three tokens of a successful code exchange. */
  datatype Tokens = Tokens(access: string, refresh: string, id: string)

  /** The client's state: the published fields, the keychain, how often `loginCompleted`
      was posted and the POSTs sent to the token endpoint, oldest first. */
  datatype AuthState = AuthState(
    accessToken: Option<string>,
    isLoggedIn: bool,
    keychain: Items,
    loginCompleted: nat,
    tokenPosts: seq<FormPost>)

  /** Index of the first item named `name` (`first(where:)`), or `|items|` when there is none. */
  function FirstNamed(items: seq<QueryItem>, name: string): (r: nat)
    ensures r <= |items|
    ensures r < |items| ==> items[r].name == name
    ensures forall j :: 0 <= j < r ==> items[j].name != name
    decreases |items|
  {
    if items == [] then 0
    else if items[0].name == name then 0
    else 1 + FirstNamed(items[1..], name)
  }

  /** The authorization code the sign-in completion handler goes on with, if any. */
  function CallbackCode(callback: Callback): Option<string>
  {
    if callback.error.Some? || callback.queryItems.None? then None
    else
      var items := callback.queryItems.value;
      var i := FirstNamed(items, "code");
      if i < |items| then items[i].value else None
  }

  /** The tokens of a code-exchange reply: all three fields must be strings. */
  function IssuedTokens(reply: TokenReply): (r: Option<Tokens>)
    ensures r.Some? <==> (reply.Parsed? && reply.json.JObject?
      && StringField(reply.json.fields, "access_token").Some?
      && StringField(reply.json.fields, "refresh_token").Some?
      && StringField(reply.json.fields, "id_token").Some?)
    ensures r.Some? ==> var f := reply.json.fields;
      f["access_token"] == JString(r.value.access) && f["refresh_token"] == JString(r.value.refresh)
      && f["id_token"] == JString(r.value.id)
  {
    match reply
    case Parsed(JObject(f)) =>
      (match (StringField(f, "access_token"), StringField(f, "refresh_token"), StringField(f, "id_token"))
       case (Some(a), Some(r), Some(i)) => Some(Tokens(a, r, i))
       case _ => None)
    case _ => None
  }

  /** The new access token of a refresh reply. */
  function RefreshedToken(reply: TokenReply): (r: Option<string>)
    ensures r.Some? <==> reply.Parsed? && reply.json.JObject? && StringField(reply.json.fields, "access_token").Some?
    ensures r.Some? ==> reply.json.fields["access_token"] == JString(r.value)
  {
    match reply
    case Parsed(JObject(f)) => StringField(f, "access_token")
    case _ => None
  }

  /** `exchangeCodeForToken(code:)`. */
  function Exchange(st: AuthState, code: string, reply: TokenReply): AuthState
  {
    var sent := st.(tokenPosts := st.tokenPosts + [TokenPost(ExchangeBody(code))]);
    match IssuedTokens(reply)
    case None => sent
    case Some(t) =>
      sent.(accessToken := Some(t.access), isLoggedIn := true,
            keychain := Saved(Saved(Saved(st.keychain, AccessTokenKey, t.access), RefreshTokenKey, t.refresh), IdTokenKey, t.id),
            loginCompleted := st.loginCompleted + 1)
  }

  /** The sign-in completion handler: exchange the code when there is one. */
  function SignInCallback(st: AuthState, callback: Callback, reply: TokenReply): AuthState
  {
    match CallbackCode(callback)
    case None => st
    case Some(code) => Exchange(st, code, reply)
  }

  /** `refreshAccessToken()`: whether it succeeded, and the state after it. */
  function Refresh(st: AuthState, reply: TokenReply): (bool, AuthState)
  {
    match Lookup(st.keychain, RefreshTokenKey)
    case None => (false, st)
    case Some(rt) =>
      var sent := st.(tokenPosts := st.tokenPosts + [TokenPost(RefreshBody(rt))]);
      match RefreshedToken(reply)
      case None => (false, sent)
      case Some(t) => (true, sent.(accessToken := Some(t), keychain := Saved(sent.keychain, AccessTokenKey, t)))
  }

  /** The sign-out completion handler's effect, whatever the session reported. */
  function SignOutEffect(st: AuthState): AuthState
  {
    st.(accessToken := None, isLoggedIn := false,
        keychain := Deleted(Deleted(st.keychain, AccessTokenKey), RefreshTokenKey))
  }

  /** Session restore at launch: a stored access token logs the user in and posts `loginCompleted`. */
  function Restore(st: AuthState): AuthState
  {
    match Lookup(st.keychain, AccessTokenKey)
    case None => st
    case Some(t) => st.(accessToken := Some(t), isLoggedIn := true, loginCompleted := st.loginCompleted + 1)
  }

  // ---------------------------------------------------------------------------
  // Fixed strings

  lemma SchemeBeforeColon(a: string, b: string)
    requires ':' !in a
    ensures Scheme(a + ":" + b) == Some(a)
  {
    IndexOfAfter(a, ':', b);
    assert (a + ":" + b)[..|a|] == a;
  }

  /** The sign-in redirect URI has the scheme `myapp`. */
  lemma RedirectScheme()
    ensures Scheme(RedirectUri) == Some(CallbackScheme)
  {
    assert RedirectUri == CallbackScheme + ":" + "//callback";
    SchemeBeforeColon(CallbackScheme, "//callback");
  }

  /** The logout redirect URI has the scheme `myapp` too. */
  lemma LogoutScheme()
    ensures Scheme(LogoutRedirectUri) == Some(CallbackScheme)
  {
    assert LogoutRedirectUri == CallbackScheme + ":" + "//signout";
    SchemeBeforeColon(CallbackScheme, "//signout");
  }

  /** The query parameters of the authorize URL, in the order it lists them. */
  function AuthorizeParameters(state: string): seq<string>
  {
    ["client_id=" + ClientId, "response_type=" + ResponseType, "scope=" + Scope,
     "redirect_uri=" + RedirectUri, "state=" + state]
  }

  /** The form fields of the code-exchange body, in order. */
  function ExchangeFields(code: string): seq<string>
  {
    ["grant_type=authorization_code", "client_id=" + ClientId, "code=" + code, "redirect_uri=" + RedirectUri]
  }

  /** The form fields of the refresh body, in order. */
  function RefreshFields(refreshToken: string): seq<string>
  {
    ["grant_type=refresh_token", "client_id=" + ClientId, "refresh_token=" + refreshToken]
  }

  lemma ReassociateQuery(d: string, l: string, amp: string, p0: string, v0: string, p1: string, v1: string,
                         p2: string, v2: string, p3: string, v3: string, p4: string, v4: string)
    ensures d + (l + p0) + v0 + (amp + p1) + v1 + (amp + p2) + v2 + (amp + p3) + v3 + (amp + p4) + v4
         == d + l + ((p0 + v0) + amp + (p1 + v1) + amp + (p2 + v2) + amp + (p3 + v3) + amp + (p4 + v4))
  {
  }

  lemma JoinThree(a: string, b: string, c: string, sep: string)
    ensures Join([a, b, c], sep) == a + sep + b + sep + c
  {
    assert [b, c][1..] == [c];
    assert Join([b, c], sep) == b + sep + c;
    assert [a, b, c][1..] == [b, c];
  }

  lemma JoinFour(a: string, b: string, c: string, d: string, sep: string)
    ensures Join([a, b, c, d], sep) == a + sep + b + sep + c + sep + d
  {
    assert [a, b, c, d][1..] == [b, c, d];
    JoinThree(b, c, d, sep);
  }

  lemma JoinFive(a: string, b: string, c: string, d: string, e: string, sep: string)
    ensures Join([a, b, c, d, e], sep) == a + sep + b + sep + c + sep + d + sep + e
  {
    assert [a, b, c, d, e][1..] == [b, c, d, e];
    JoinFour(b, c, d, e, sep);
  }

  lemma ReassociateFields(f0: string, amp: string, p1: string, v1: string, p2: string, v2: string, p3: string, v3: string)
    ensures (f0 + amp + p1) + v1 + (amp + p2) + v2 + (amp + p3) + v3
         == f0 + amp + (p1 + v1) + amp + (p2 + v2) + amp + (p3 + v3)
    ensures (f0 + amp + p1) + v1 + (amp + p2) + v2
         == f0 + amp + (p1 + v1) + amp + (p2 + v2)
  {
  }

  lemma AuthorizeUrlIsJoin(state: string)
    ensures AuthorizeUrl(state) == Domain + "/login?" + Join(AuthorizeParameters(state), "&")
  {
    JoinFive("client_id=" + ClientId, "response_type=" + ResponseType, "scope=" + Scope,
             "redirect_uri=" + RedirectUri, "state=" + state, "&");
    assert "/login?client_id=" == "/login?" + "client_id=";
    assert "&response_type=" == "&" + "response_type=";
    assert "&scope=" == "&" + "scope=";
    assert "&redirect_uri=" == "&" + "redirect_uri=";
    assert "&state=" == "&" + "state=";
    ReassociateQuery(Domain, "/login?", "&", "client_id=", ClientId, "response_type=", ResponseType,
                     "scope=", Scope, "redirect_uri=", RedirectUri, "state=", state);
  }

  lemma ExchangeBodyIsJoin(code: string)
    ensures ExchangeBody(code) == Join(ExchangeFields(code), "&")
  {
    JoinFour("grant_type=authorization_code", "client_id=" + ClientId, "code=" + code, "redirect_uri=" + RedirectUri, "&");
    assert "grant_type=authorization_code&client_id=" == "grant_type=authorization_code" + "&" + "client_id=";
    assert "&code=" == "&" + "code=";
    assert "&redirect_uri=" == "&" + "redirect_uri=";
    ReassociateFields("grant_type=authorization_code", "&", "client_id=", ClientId, "code=", code, "redirect_uri=", RedirectUri);
  }

  lemma RefreshBodyIsJoin(refreshToken: string)
    ensures RefreshBody(refreshToken) == Join(RefreshFields(refreshToken), "&")
  {
    JoinThree("grant_type=refresh_token", "client_id=" + ClientId, "refresh_token=" + refreshToken, "&");
    assert "grant_type=refresh_token&client_id=" == "grant_type=refresh_token" + "&" + "client_id=";
    assert "&refresh_token=" == "&" + "refresh_token=";
    ReassociateFields("grant_type=refresh_token", "&", "client_id=", ClientId, "refresh_token=", refreshToken, "", "");
  }

  /** The authorize URL's query holds its five parameters in a fixed order, `state` last. */
  lemma AuthorizeUrlParameters(state: string)
    requires '&' !in state
    ensures exists query ::
      AuthorizeUrl(state) == Domain + "/login?" + query && Split(query, '&') == AuthorizeParameters(state)
  {
    AuthorizeUrlIsJoin(state);
    SplitJoin(AuthorizeParameters(state), '&');
  }

  /** The code-exchange body holds its four form fields in a fixed order. */
  lemma ExchangeBodyFields(code: string)
    requires '&' !in code
    ensures Split(ExchangeBody(code), '&') == ExchangeFields(code)
  {
    ExchangeBodyIsJoin(code);
    SplitJoin(ExchangeFields(code), '&');
  }

  /** The refresh body holds its three form fields in a fixed order. */
  lemma RefreshBodyFields(refreshToken: string)
    requires '&' !in refreshToken
    ensures Split(RefreshBody(refreshToken), '&') == RefreshFields(refreshToken)
  {
    RefreshBodyIsJoin(refreshToken);
    SplitJoin(RefreshFields(refreshToken), '&');
  }

  // ---------------------------------------------------------------------------
  // Sign-in

  /** The handler goes on exactly when there is no error and the first `code` item has a value. */
  lemma CallbackCodeIsFirstCodeItem(callback: Callback, code: string)
    ensures CallbackCode(callback) == Some(code) <==>
      callback.error.None? && callback.queryItems.Some? &&
      exists i :: 0 <= i < |callback.queryItems.value| && callback.queryItems.value[i] == QueryItem("code", Some(code))
        && forall j :: 0 <= j < i ==> callback.queryItems.value[j].name != "code"
  {
    if callback.error.None? && callback.queryItems.Some? {
      var items := callback.queryItems.value;
      var k := FirstNamed(items, "code");
      if exists i :: (0 <= i < |items| && items[i] == QueryItem("code", Some(code))
        && forall j :: 0 <= j < i ==> items[j].name != "code")
      {
        var i :| 0 <= i < |items| && items[i] == QueryItem("code", Some(code))
          && forall j :: 0 <= j < i ==> items[j].name != "code";
        assert k == i;
      }
    }
  }

  /** A completion handler without a code changes nothing. */
  lemma NoCodeNoChange(st: AuthState, callback: Callback, reply: TokenReply)
    requires CallbackCode(callback).None?
    ensures SignInCallback(st, callback, reply) == st
  {
  }

  /** A complete reply stores all three tokens of that reply and logs in; anything else stores
      nothing and changes no field: there is no partial save. One POST is made either way. */
  lemma ExchangeAllOrNothing(st: AuthState, code: string, reply: TokenReply)
    ensures var st' := Exchange(st, code, reply);
      && st'.tokenPosts == st.tokenPosts + [FormPost(TokenUrl(), FormContentType, ExchangeBody(code))]
      && match IssuedTokens(reply)
         case Some(t) =>
           && Lookup(st'.keychain, AccessTokenKey) == Some(t.access)
           && Lookup(st'.keychain, RefreshTokenKey) == Some(t.refresh)
           && Lookup(st'.keychain, IdTokenKey) == Some(t.id)
           && (forall k :: k !in {AccessTokenKey, RefreshTokenKey, IdTokenKey} ==> Lookup(st'.keychain, k) == Lookup(st.keychain, k))
           && st'.accessToken == Some(t.access) && st'.isLoggedIn
           && st'.loginCompleted == st.loginCompleted + 1
         case None =>
           && st'.keychain == st.keychain && st'.accessToken == st.accessToken
           && st'.isLoggedIn == st.isLoggedIn && st'.loginCompleted == st.loginCompleted
  {
  }

  // ---------------------------------------------------------------------------
  // Refresh

  /** Without a stored refresh token, refresh fails, sends nothing and changes nothing. */
  lemma RefreshWithoutToken(st: AuthState, reply: TokenReply)
    requires RefreshTokenKey !in st.keychain
    ensures Refresh(st, reply) == (false, st)
  {
  }

  /** Refresh succeeds exactly when a refresh token is stored and the reply carries a string
      access token; success changes only the access token (field and key), and one POST with
      the stored refresh token is made whenever one is stored. */
  lemma RefreshTouchesOnlyAccessToken(st: AuthState, reply: TokenReply)
    ensures var (ok, st') := Refresh(st, reply);
      && (ok <==> RefreshTokenKey in st.keychain && RefreshedToken(reply).Some?)
      && st'.isLoggedIn == st.isLoggedIn && st'.loginCompleted == st.loginCompleted
      && (forall k :: k != AccessTokenKey ==> Lookup(st'.keychain, k) == Lookup(st.keychain, k))
      && (RefreshTokenKey in st.keychain ==>
            st'.tokenPosts == st.tokenPosts + [FormPost(TokenUrl(), FormContentType, RefreshBody(st.keychain[RefreshTokenKey]))])
      && (ok ==> st'.accessToken == RefreshedToken(reply) && Lookup(st'.keychain, AccessTokenKey) == RefreshedToken(reply))
      && (!ok ==> st'.keychain == st.keychain && st'.accessToken == st.accessToken)
  {
  }

  // ---------------------------------------------------------------------------
  // Sign-out and restore

  /** Sign-out clears the session and the access and refresh tokens, and keeps the identity token. */
  lemma SignOutKeepsIdToken(st: AuthState)
    ensures var st' := SignOutEffect(st);
      && st'.accessToken == None && !st'.isLoggedIn
      && Lookup(st'.keychain, AccessTokenKey) == None
      && Lookup(st'.keychain, RefreshTokenKey) == None
      && Lookup(st'.keychain, IdTokenKey) == Lookup(st.keychain, IdTokenKey)
      && (forall k :: k != AccessTokenKey && k != RefreshTokenKey ==> Lookup(st'.keychain, k) == Lookup(st.keychain, k))
      && st'.loginCompleted == st.loginCompleted && st'.tokenPosts == st.tokenPosts
  {
  }

  /** Restoring a stored session publishes what a fresh exchange of the same access token does:
      the same token, logged in, and one more `loginCompleted`. */
  lemma RestoreMatchesExchange(st: AuthState, code: string, reply: TokenReply)
    requires IssuedTokens(reply).Some?
    requires Lookup(st.keychain, AccessTokenKey) == Some(IssuedTokens(reply).value.access)
    ensures var restored, exchanged := Restore(st), Exchange(st, code, reply);
      && restored.accessToken == exchanged.accessToken
      && restored.isLoggedIn == exchanged.isLoggedIn
      && restored.loginCompleted == exchanged.loginCompleted == st.loginCompleted + 1
  {
  }

  /** The client object: its published fields and the keychain it writes. */
  class AuthManager {
    const keychain: Keychain
    var accessToken: Option<string>
    var isLoggedIn: bool
    var authSession: Option<AuthSession>
    var loginCompleted: nat
    var tokenPosts: seq<FormPost>

    function State(): AuthState
      reads this, keychain
    {
      AuthState(accessToken, isLoggedIn, keychain.items, loginCompleted, tokenPosts)
    }

    constructor (keychain: Keychain)
      ensures this.keychain == keychain
      ensures accessToken == None && !isLoggedIn && authSession == None
      ensures loginCompleted == 0 && tokenPosts == []
    {
      this.keychain := keychain;
      accessToken := None;
      isLoggedIn := false;
      authSession := None;
      loginCompleted := 0;
      tokenPosts := [];
    }

    /** `signIn()`: opens the hosted login page; `state` stands for the generated UUID. */
    method SignIn(state: string)
      modifies this`authSession
      ensures authSession == Some(AuthSession(AuthorizeUrl(state), CallbackScheme))
    {
      RedirectScheme();
      var scheme := Scheme(RedirectUri);
      authSession := Some(AuthSession(AuthorizeUrl(state), scheme.value));
    }

    /** The sign-in session's completion handler; `reply` is what the token endpoint answers. */
    method SignInCompleted(callback: Callback, reply: TokenReply)
      modifies this, keychain
      ensures State() == SignInCallback(old(State()), callback, reply)
      ensures authSession == old(authSession)
    {
      if callback.error.Some? || callback.queryItems.None? {
        return;
      }
      var items := callback.queryItems.value;
      var i := FirstNamed(items, "code");
      if i == |items| || items[i].value.None? {
        return;
      }
      ExchangeCodeForToken(items[i].value.value, reply);
    }

    /** `exchangeCodeForToken(code:)`. */
    method ExchangeCodeForToken(code: string, reply: TokenReply)
      modifies this, keychain
      ensures State() == Exchange(old(State()), code, reply)
      ensures authSession == old(authSession)
    {
      tokenPosts := tokenPosts + [TokenPost(ExchangeBody(code))];
      var tokens := IssuedTokens(reply);
      if tokens.None? {
        return;
      }
      accessToken := Some(tokens.value.access);
      isLoggedIn := true;
      keychain.Save(AccessTokenKey, tokens.value.access);
      keychain.Save(RefreshTokenKey, tokens.value.refresh);
      keychain.Save(IdTokenKey, tokens.value.id);
      loginCompleted := loginCompleted + 1;
    }

    /** `refreshAccessToken()`. */
    method RefreshAccessToken(reply: TokenReply) returns (ok: bool)
      modifies this, keychain
      ensures (ok, State()) == Refresh(old(State()), reply)
      ensures authSession == old(authSession)
    {
      var refreshToken := keychain.Read(RefreshTokenKey);
      if refreshToken.None? {
        return false;
      }
      tokenPosts := tokenPosts + [TokenPost(RefreshBody(refreshToken.value))];
      var newAccessToken := RefreshedToken(reply);
      if newAccessToken.None? {
        return false;
      }
      accessToken := newAccessToken;
      keychain.Save(AccessTokenKey, newAccessToken.value);
      return true;
    }

    /** `signOut()`: opens the hosted logout page. */
    method SignOut()
      modifies this`authSession
      ensures authSession == Some(AuthSession(LogoutUrl(), CallbackScheme))
    {
      LogoutScheme();
      var scheme := Scheme(LogoutRedirectUri);
      authSession := Some(AuthSession(LogoutUrl(), scheme.value));
    }

    /** The sign-out session's completion handler: the error, if any, is only logged. */
    method SignOutCompleted(error: Option<string>)
      modifies this, keychain
      ensures State() == SignOutEffect(old(State()))
      ensures authSession == old(authSession)
    {
      accessToken := None;
      isLoggedIn := false;
      keychain.Delete(AccessTokenKey);
      keychain.Delete(RefreshTokenKey);
    }

    /** Session restore when the app's first screen appears. */
    method RestoreSession()
      modifies this
      ensures State() == Restore(old(State()))
      ensures authSession == old(authSession)
    {
      var token := keychain.Read(AccessTokenKey);
      if token.Some? {
        accessToken := token;
        isLoggedIn := true;
        loginCompleted := loginCompleted + 1;
      }
    }
  }
}
