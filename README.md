# HealthAppV2 client session and users API, modelled in Dafny

HealthAppV2 is an iOS app that signs its user in through a hosted OAuth2 login page
(Amazon Cognito). It keeps the tokens in the keychain and calls a users API whose backend is a
single Lambda over a DynamoDB table. This project models the logic at the core of that flow:

- **`KeychainHelper`** (`keychain.dfy`). The store is a map from account to string.
  - `save` deletes and then adds.
  - `read` and `delete` are modelled beside it.
  - The store is both a class with methods and the functions that specify it.
- **`AuthManager`** (`auth.dfy`). This is a class with the published fields `accessToken` and `isLoggedIn`, its keychain and its browser session. It covers:
  - the authorize, logout and token-request strings;
  - how the sign-in completion handler picks out the code;
  - the code exchange and the refresh;
  - the sign-out completion handler;
  - the session restore the first screen performs.

  The token endpoint's reply is an input. The `loginCompleted` notification is a counter, and the POSTs sent to the token endpoint are a list.
- **`UserAPIService`** (`user_api.dfy`, `claims.dfy`, `base64.dfy`). It covers:
  - `getAccessToken`;
  - the 401 retry of `performRequestWithRetry`, driven by a finite script of responses and refresh replies;
  - `parseErrorMessage` and `APIServiceError`'s description;
  - `decodeJWT`, with the payload normalisation loop and a base 64 decoder following section 4 of RFC 4648.
- **`UserCrudLambda.py`** (`user_crud.dfy`). It covers:
  - `lambda_handler`'s dispatch, following Python's rules for `or`, `not`, `in` and `dict.get`;
  - the four handlers;
  - the `update_user` expression builder;
  - the `Users` table as a class holding a map from email to item.

Shared helpers are in `wrappers.dfy` (`Option`, `Result`), `strings.dfy` (split, join, `rstrip`, decimal text) and `json.dfy` (parsed JSON values).

Five points where the model states behaviour that differs from what one might expect:

- **The retry has no bound.** On every 401, `performRequestWithRetry` calls itself again after a successful refresh (`UserAPIService.swift:59`). The model follows that code. `UserApi.RepeatedUnauthorized` proves that k successive 401s, each followed by a successful refresh, cost k refreshes and k + 1 sends, for every k.
- **`rstrip(", ")` strips a set of characters, not a suffix.** `UserCrud.UpdateExpressionStripped` proves that here it removes exactly the final `", "`, because every key ends in a letter.
- **`queryStringParameters` can be present and `null`.** API Gateway sends it that way when there are none. `.get` then raises: `get_users` turns that into a 500, and a DELETE lets the exception escape `lambda_handler` (`UserCrud.NullQueryFetch`, `UserCrud.NullQueryDelete`).
- **An update that sets `name` always fails.** The update expression names its attributes as they are, without `ExpressionAttributeNames`, and `name` is a DynamoDB reserved word. DynamoDB rejects such an expression, and `update_user` answers 500 with that error and writes nothing. The app's `User` always carries a `name`, so every update it sends ends this way (`UserCrud.NameAlwaysRejected`).
- **A stored user with a number is never served.** boto3 reads every stored number back as a `Decimal`, and `json.dumps` at `UserCrudLambda.py:80` refuses it. So `get_users` answers 500 with that `TypeError` for any item holding a number, such as `"weight": 70`. `UserCrud.FetchOutcomes` and `UserCrud.CreateThenFetch` state it. A value with a fractional part is a `float` after `json.loads`, and boto3 refuses to send it: the handlers answer 500 with that `TypeError` before any write (`UserCrud.CreateOutcomes`, `UserCrud.UpdateRejects`).

## Model

| member | source | states |
|---|---|---|
| `Auth.AuthManager.constructor` | healthAppv2/healthAppv2/AuthManager.swift:22-25 | a new manager is signed out: no access token, not logged in, no session, nothing posted or sent |
| `Auth.AuthManager.SignIn` | healthAppv2/healthAppv2/AuthManager.swift:27-41 | the session opened is the authorize URL for the given state with callback scheme `myapp` |
| `Auth.Scheme` | healthAppv2/healthAppv2/AuthManager.swift:35 | a URI has a scheme exactly when it contains `:`, and the scheme is the colon-free text before the first one |
| `Auth.RedirectScheme` | healthAppv2/healthAppv2/AuthManager.swift:19-35 | the sign-in redirect URI has the scheme `myapp`, so the `guard` goes on |
| `Auth.LogoutScheme` | healthAppv2/healthAppv2/AuthManager.swift:121-125 | the logout redirect URI has the scheme `myapp`, so the `guard` goes on |
| `Auth.AuthorizeUrlIsJoin` | healthAppv2/healthAppv2/AuthManager.swift:28-32 | the authorize URL is the domain, `/login?` and the five parameters client_id, response_type=code, scope=openid+email+profile, redirect_uri, state joined by `&` in that order |
| `Auth.AuthorizeUrlParameters` | healthAppv2/healthAppv2/AuthManager.swift:32 | when the state has no `&`, splitting the query on `&` gives back exactly those five parameters |
| `Auth.ExchangeBodyIsJoin` | healthAppv2/healthAppv2/AuthManager.swift:65 | the code-exchange body is grant_type=authorization_code, client_id, code, redirect_uri joined by `&` |
| `Auth.ExchangeBodyFields` | healthAppv2/healthAppv2/AuthManager.swift:65 | for a code without `&`, splitting the body on `&` gives back exactly those four fields |
| `Auth.RefreshBodyIsJoin` | healthAppv2/healthAppv2/AuthManager.swift:100 | the refresh body is grant_type=refresh_token, client_id, refresh_token joined by `&` |
| `Auth.RefreshBodyFields` | healthAppv2/healthAppv2/AuthManager.swift:100 | for a token without `&`, splitting the body on `&` gives back exactly those three fields |
| `Auth.FirstNamed` | healthAppv2/healthAppv2/AuthManager.swift:46 | the index found holds the first item with the name, or is the length when no item has it |
| `Auth.CallbackCodeIsFirstCodeItem` | healthAppv2/healthAppv2/AuthManager.swift:43-46 | the handler goes on with `code` exactly when there is no error, the query exists and the first item named `code` has the value `code` |
| `Auth.NoCodeNoChange` | healthAppv2/healthAppv2/AuthManager.swift:43-49 | without a usable code the completion handler changes nothing at all |
| `Auth.AuthManager.SignInCompleted` | healthAppv2/healthAppv2/AuthManager.swift:42-53 | the new state is the old one after the completion handler: an exchange of the first code, or nothing |
| `Auth.IssuedTokens` | healthAppv2/healthAppv2/AuthManager.swift:71-74 | a reply yields tokens exactly when it is a JSON object whose three token fields are strings, and the tokens are those strings |
| `Auth.ExchangeAllOrNothing` | healthAppv2/healthAppv2/AuthManager.swift:60-89 | one POST to the token URL with the exchange body; a complete reply saves all three tokens, sets the access token, logs in and posts `loginCompleted` once, touching no other key; any other reply changes no key, field or count |
| `Auth.AuthManager.ExchangeCodeForToken` | healthAppv2/healthAppv2/AuthManager.swift:60-89 | the new state is the old one after the exchange |
| `Auth.RefreshedToken` | healthAppv2/healthAppv2/AuthManager.swift:106-107 | a refresh reply yields a token exactly when it is a JSON object with a string `access_token` |
| `Auth.RefreshWithoutToken` | healthAppv2/healthAppv2/AuthManager.swift:92-94 | without a stored refresh token, refresh returns false, sends nothing and changes nothing |
| `Auth.RefreshTouchesOnlyAccessToken` | healthAppv2/healthAppv2/AuthManager.swift:91-118 | refresh succeeds exactly when a refresh token is stored and the reply has an access token; it posts the refresh body once; success changes only the access-token field and key; failure changes neither; login state and count are untouched |
| `Auth.AuthManager.RefreshAccessToken` | healthAppv2/healthAppv2/AuthManager.swift:91-118 | the result and the new state are those of the refresh on the old state |
| `Auth.AuthManager.SignOut` | healthAppv2/healthAppv2/AuthManager.swift:120-131 | the session opened is the logout URL with callback scheme `myapp` |
| `Auth.SignOutKeepsIdToken` | healthAppv2/healthAppv2/AuthManager.swift:132-142 | sign-out clears the access token and login, deletes the access and refresh keys, keeps the identity token and every other key |
| `Auth.AuthManager.SignOutCompleted` | healthAppv2/healthAppv2/AuthManager.swift:132-142 | the new state is the sign-out effect, whether or not an error was reported |
| `Auth.RestoreMatchesExchange` | healthAppv2/healthAppv2/ContentView.swift:69-76 | restoring a stored access token publishes what a fresh exchange of that token does: the token, logged in, one more `loginCompleted` |
| `Auth.AuthManager.RestoreSession` | healthAppv2/healthAppv2/ContentView.swift:69-76 | the new state is the old one with a stored access token published and logged in, or unchanged without one |
| `KeychainHelper.SecItemDelete` | healthAppv2/healthAppv2/KeychainHelper.swift:20 | the account's entry is removed and every other entry kept; the status says whether there was one |
| `KeychainHelper.SecItemAdd` | healthAppv2/healthAppv2/KeychainHelper.swift:21 | an add never overwrites: it stores the value only when the account is absent and reports a duplicate otherwise |
| `KeychainHelper.Saved` | healthAppv2/healthAppv2/KeychainHelper.swift:12-23 | delete-then-add leaves the store with the key mapped to the value and nothing else changed |
| `KeychainHelper.Deleted` | healthAppv2/healthAppv2/KeychainHelper.swift:43-50 | the store without the key |
| `KeychainHelper.Lookup` | healthAppv2/healthAppv2/KeychainHelper.swift:25-41 | a read finds a value exactly when the key is stored, and it is the stored value |
| `KeychainHelper.ReadAfterSave` | healthAppv2/healthAppv2/KeychainHelper.swift:12-41 | after saving v under k, reading k gives v |
| `KeychainHelper.SaveOverwrites` | healthAppv2/healthAppv2/KeychainHelper.swift:20-21 | a later save replaces an earlier one |
| `KeychainHelper.SaveIdempotent` | healthAppv2/healthAppv2/KeychainHelper.swift:20-21 | saving the same value twice is saving it once |
| `KeychainHelper.SaveKeepsOtherKeys` | healthAppv2/healthAppv2/KeychainHelper.swift:14-18 | a save leaves every other key as it was |
| `KeychainHelper.ReadAfterDelete` | healthAppv2/healthAppv2/KeychainHelper.swift:43-50 | after deleting k, reading k gives nothing and other keys read as before |
| `KeychainHelper.DeleteAbsentIsNoOp` | healthAppv2/healthAppv2/KeychainHelper.swift:49 | deleting an absent key changes nothing |
| `KeychainHelper.ReadNeverSaved` | healthAppv2/healthAppv2/KeychainHelper.swift:34-40 | after any sequence of saves, a key that none of them named reads as before, so a key never saved reads nothing |
| `KeychainHelper.Keychain.Save` | healthAppv2/healthAppv2/KeychainHelper.swift:12-23 | the store becomes the delete-then-add result |
| `KeychainHelper.Keychain.Read` | healthAppv2/healthAppv2/KeychainHelper.swift:25-41 | returns the lookup of the key and changes nothing |
| `KeychainHelper.Keychain.Delete` | healthAppv2/healthAppv2/KeychainHelper.swift:43-50 | the store loses the key |
| `UserApi.DescriptionRecoversError` | healthAppv2/healthAppv2/UserAPIService.swift:19-28 | the description is `HTTP `, the code in decimal, `: ` and the message, and both code and message can be read back from it |
| `UserApi.ParseErrorMessage` | healthAppv2/healthAppv2/UserAPIService.swift:74-81 | a message is found exactly when the body parses to a JSON object with a string `message`, and it is that string |
| `UserApi.StoredTokenNoRefresh` | healthAppv2/healthAppv2/UserAPIService.swift:37-38 | a stored access token is returned with no refresh and no state change |
| `UserApi.MissingTokenRefreshesOnce` | healthAppv2/healthAppv2/UserAPIService.swift:36-45 | without a stored token, one refresh is made (at most one POST); the token comes back exactly when a refresh token is stored and the reply has an access token; otherwise it fails with authentication required and the keychain is unchanged |
| `UserApi.GetAccessToken` | healthAppv2/healthAppv2/UserAPIService.swift:36-45 | result and new state are those of the token lookup with its fallback refresh |
| `UserApi.WithBearerKeepsRequest` | healthAppv2/healthAppv2/UserAPIService.swift:57-58 | the re-sent request equals the original except that `Authorization` is `Bearer ` and the token |
| `UserApi.SuccessReturnsBody` | healthAppv2/healthAppv2/UserAPIService.swift:54-71 | a 2xx response returns its body unchanged after one send, no refresh, no state change |
| `UserApi.OtherStatusRaises` | healthAppv2/healthAppv2/UserAPIService.swift:65-68 | any other non-401 status raises `httpError` with that code and the body's message, or the status description when there is none; no refresh, no resend |
| `UserApi.UnauthorizedRefreshFails` | healthAppv2/healthAppv2/UserAPIService.swift:54-62 | a 401 whose refresh fails raises authentication required after one refresh, without re-sending |
| `UserApi.UnauthorizedResends` | healthAppv2/healthAppv2/UserAPIService.swift:54-59 | a 401 whose refresh succeeds re-sends the request with the refreshed token as its bearer header |
| `UserApi.RepeatedUnauthorized` | healthAppv2/healthAppv2/UserAPIService.swift:47-72 | k 401s each followed by a successful refresh cost k refreshes and k + 1 sends, each resend carrying the next refreshed token, and end as the next response decides; for every k |
| `UserApi.PerformRequestWithRetry` | healthAppv2/healthAppv2/UserAPIService.swift:47-72 | result, requests sent, refresh count and new state are those of the retry policy on the script |
| `Strings.SplitNonEmpty` | healthAppv2/healthAppv2/UserAPIService.swift:128 | `split(separator:)` yields only non-empty pieces free of the separator |
| `Strings.SplitNonEmptyKeepsText` | healthAppv2/healthAppv2/UserAPIService.swift:128 | no character other than the separator is lost and their order is kept: the pieces run together are the text with the separators taken out |
| `Strings.SplitNonEmptyJoin` | healthAppv2/healthAppv2/UserAPIService.swift:128 | separator-free pieces joined by the separator split back into exactly the non-empty ones, in order, so empty pieces are dropped |
| `Strings.SplitNonEmptyDoubleSeparator` | healthAppv2/healthAppv2/UserAPIService.swift:128-130 | `h..p` splits into `[h, p]`, as `"a..b"` gives `["a", "b"]` |
| `Strings.SplitNonEmptyTwoPieces` | healthAppv2/healthAppv2/UserAPIService.swift:128-130 | for `h.p.rest` with non-empty, dot-free `h` and `p`, the first two segments are `h` and `p` |
| `Claims.Normalised` | healthAppv2/healthAppv2/UserAPIService.swift:131-135 | the normalised payload starts with the segment with `-`/`_` mapped to `+`/`/`, followed by 0–3 `=`, and has a length that is a multiple of four |
| `Claims.NormalisePayload` | healthAppv2/healthAppv2/UserAPIService.swift:131-135 | the padding loop produces the normalised payload |
| `Claims.DecodeJWT` | healthAppv2/healthAppv2/UserAPIService.swift:127-141 | the claims returned are those of the payload, as the claims function defines them |
| `Claims.NoSeparatorNoClaims` | healthAppv2/healthAppv2/UserAPIService.swift:128-129 | a token without `.` has fewer than two segments and gives the empty map |
| `Claims.FewSegmentsNoClaims` | healthAppv2/healthAppv2/UserAPIService.swift:127-128 | any token with fewer than two non-empty `.`-separated segments gives the empty map |
| `Claims.TrailingSeparatorNoClaims` | healthAppv2/healthAppv2/UserAPIService.swift:127-128 | `abc.` has the single segment `abc`, because the empty piece is dropped, and gives the empty map |
| `Claims.BadPayloadNoClaims` | healthAppv2/healthAppv2/UserAPIService.swift:136-139 | a payload that is not base 64, or not a JSON object, gives the empty map |
| `Claims.ShortPayloadNoClaims` | healthAppv2/healthAppv2/UserAPIService.swift:133-139 | a payload one longer than a multiple of four is padded with three `=` and gives the empty map |
| `Claims.UrlEncodeBack` | healthAppv2/healthAppv2/UserAPIService.swift:131-132 | mapping a base64url text back to the standard alphabet gives the standard encoding, which has no `.` |
| `Claims.UrlEncodePadding` | healthAppv2/healthAppv2/UserAPIService.swift:133-135 | the `=` the loop appends to a base64url payload are exactly the padding of the standard encoding, and a non-empty payload encodes to a non-empty text |
| `Claims.CompactJwsClaims` | healthAppv2/healthAppv2/UserAPIService.swift:127-141 | for a token `header.payload.signature` whose payload is base64url of some bytes, the claims are those bytes parsed as a JSON object (or empty when they are not one) |
| `Base64.EncodedInAlphabet` | healthAppv2/healthAppv2/UserAPIService.swift:136 | every character of an encoding is in the base 64 alphabet |
| `Base64.OutsideAlphabet` | healthAppv2/healthAppv2/UserAPIService.swift:131-136 | `=`, `-`, `_` and `.` are not base 64 digits |
| `Base64.EncodedQuanta` | healthAppv2/healthAppv2/UserAPIService.swift:136 | a padded encoding has a length that is a multiple of four, and is non-empty for non-empty input |
| `Base64.DecodeEncode` | healthAppv2/healthAppv2/UserAPIService.swift:136 | decoding the padded encoding of any bytes gives those bytes back |
| `Base64.TriplePaddingRejected` | healthAppv2/healthAppv2/UserAPIService.swift:133-136 | a text one longer than a multiple of four, padded with `===`, is not base 64 |
| `UserCrud.Get` | UserCrudLambda.py:13 | `.get` on a dict gives the stored value or the default; on anything else it raises the `AttributeError` naming the value's type |
| `UserCrud.MethodFallback` | UserCrudLambda.py:13 | the method is a truthy `httpMethod`, and otherwise the `requestContext.http.method` fallback |
| `UserCrud.ContextMethodCases` | UserCrudLambda.py:13 | the fallback is `http.method` whatever other keys `requestContext` and `http` hold; `None` when a level is missing; the `AttributeError` naming the type when a level is not a dict |
| `UserCrud.QueryEmail` | UserCrudLambda.py:59 | `{}` stands in only for a missing `queryStringParameters`; a dict gives its `email` or `None`; any other value, `null` included, raises the `AttributeError` naming its type |
| `UserCrud.GetRoutesToFetch` | UserCrudLambda.py:15-16 | a GET is answered by `get_users` on the same event, and the table is unchanged |
| `UserCrud.UnsupportedMethod` | UserCrudLambda.py:26-30 | any method other than GET, POST, PUT, DELETE is answered 400 `Unsupported method` and the table is unchanged |
| `UserCrud.LambdaHandler` | UserCrudLambda.py:9-30 | response (or escaping exception) and new table are those of the dispatch |
| `UserCrud.CreateOutcomes` | UserCrudLambda.py:32-55 | 201 exactly when every required field is present, the body holds no `float` and the email is a non-empty string; then the whole body is stored under its email, replacing any item; any missing field gives 400 `Missing required user fields`; a `float` gives 500 with boto3's `TypeError`; every other outcome leaves the table unchanged |
| `UserCrud.UsersTable.PutItem` | UserCrudLambda.py:44 | the item is stored under its key, replacing any earlier one, and no other key changes |
| `UserCrud.CreateUser` | UserCrudLambda.py:32-55 | response and new table are those of `create_user` |
| `UserCrud.FetchOutcomes` | UserCrudLambda.py:57-87 | for any event whose query email is `e`: a falsy `e` is 400, a truthy `e` that is not a string key is 500, an email with no item 404, and an item with no number 200 with that item; an item holding a number is 500 with the `Decimal` `TypeError` of `json.dumps` |
| `UserCrud.NullQueryFetch` | UserCrudLambda.py:57-87 | with `queryStringParameters: null`, `get_users` catches the `NoneType` `AttributeError` of its `.get` and answers 500 with it |
| `UserCrud.NullQueryDelete` | UserCrudLambda.py:23-25 | with `queryStringParameters: null`, a DELETE raises the `NoneType` `AttributeError` out of the handler |
| `UserCrud.CreateThenFetch` | UserCrudLambda.py:44-87 | a user created with 201 is fetched by any event carrying its email with exactly the body that created it, unless the body holds a number, which answers 500 |
| `UserCrud.UsersTable.GetItem` | UserCrudLambda.py:69-71 | the item under the key, if any |
| `UserCrud.GetUsers` | UserCrudLambda.py:57-87 | the response is that of `get_users` on the current table |
| `UserCrud.BuildUpdate` | UserCrudLambda.py:101-106 | the loop yields `SET ` followed by `k = :k, ` for each present key of name, dob, gender, weight, height in order, and the values `:k` → body value for those keys |
| `UserCrud.ValuesForDomain` | UserCrudLambda.py:103-106 | the values map binds `:k` exactly for the present listed keys, each to the body's value |
| `UserCrud.UpdateExpressionStripped` | UserCrudLambda.py:115 | `rstrip(", ")` of the built expression is `SET ` and the clauses joined by `, `, with no trailing separator |
| `UserCrud.UpdateNeverAssignsEmail` | UserCrudLambda.py:103-106 | `email` is never assigned and `:email` never bound |
| `UserCrud.NothingToUpdateIffNoKey` | UserCrudLambda.py:109-113 | the values map is empty exactly when the body has none of the five updatable keys |
| `UserCrud.UpdateRejects` | UserCrudLambda.py:91-133 | a missing or empty email gives 400 `Email is required`, no updatable key gives 400 `Nothing to update`, a `float` email or value gives 500 with boto3's `TypeError`, a 200 needs a body without `name`, and every non-200 outcome leaves the table unchanged |
| `UserCrud.NameAlwaysRejected` | UserCrudLambda.py:101-133 | a body with a truthy email, a `name` and no `float` is answered 500 with DynamoDB's error, and the table is unchanged |
| `UserCrud.Upserted` | UserCrudLambda.py:118-122 | `update_item` upserts: every assigned attribute takes its value; the stored item keeps its other attributes, or a new item holds only the email key |
| `UserCrud.UsersTable.UpdateItem` | UserCrudLambda.py:118-122 | the item under the key becomes its upsert and no other key changes |
| `UserCrud.UpdateApplies` | UserCrudLambda.py:115-127 | a successful update sets exactly the body's updatable attributes on the item under the email, keeps its other attributes (creating an item holding the email when there was none), and changes no other item |
| `UserCrud.UpdateUser` | UserCrudLambda.py:89-133 | response and new table are those of `update_user` |
| `UserCrud.DeleteOutcomes` | UserCrudLambda.py:135-155 | a missing or empty email gives 400 and no change; a non-empty email gives 200 and the item is gone, whether or not it existed; no other item changes; every non-200 outcome leaves the table unchanged |
| `UserCrud.UsersTable.DeleteItem` | UserCrudLambda.py:144 | the key is removed, with no error when it was absent, and no other key changes |
| `UserCrud.DeleteThenFetch` | UserCrudLambda.py:135-149 | a deleted user is not found afterwards by any event carrying its email |
| `UserCrud.DeleteUser` | UserCrudLambda.py:135-155 | response and new table are those of `delete_user` |

## Left out

- Browser sessions (`ASWebAuthenticationSession`, its presentation anchor and window lookup): the callback is an input, an optional error and an optional list of query items.
- Transport, `async`/`Task` scheduling and `@MainActor`: responses and token-endpoint replies are inputs, in the order they arrive; concurrent refreshes are not modelled.
- `NotificationCenter`: `loginCompleted` is a counter.
- JSON parsing (`JSONSerialization`, `json.loads`, `json.dumps`): an input function from bytes to an optional JSON value on the client side; on the Lambda side the body arrives parsed and the response body is the JSON value before `json.dumps`.
- `HTTPURLResponse.localizedString(forStatusCode:)`: an input function from status code to text.
- `UUID()` for the sign-in state: the state is a parameter.
- `URL(string:)` and `URLComponents` validity and percent-decoding: every URL is a constant concatenation; the query items are taken as already decoded.
- The Security framework and UTF-8 conversion: the keychain is a map from account to string; a value whose conversion fails is not modelled.
- `createUser`, `getUser`, `updateUser` and `deleteUser` request builders and the `User` codec: only `getAccessToken` and the retry policy they call are modelled.
- `UserApi.PerformRequestWithRetry`: a send for which the script has no round left is taken as a transport failure.
- `Claims.NormalisePayload`, `Strings.SplitNonEmpty` and `Strings.ReplaceChar`: Swift's `count`, `split(separator:)` and `replacingOccurrences` work on grapheme clusters; the model works on characters. The two agree on plain ASCII text. They part when a combining mark follows a `.`: Swift does not split `"h.\u{301}.eyJhIjoxfQ.s"` at `.\u{301}`, so its payload is `eyJhIjoxfQ`, while the model's payload is `"\u{301}"`, which yields no claims.
- `Base64.DecodeEncode`: the decoder accepts any final digit whose unused bits are non-zero, as a lenient decoder may; canonical-encoding checks are not modelled.
- boto3 and DynamoDB: the generic `except Exception` → 500 branches are modelled for the `AttributeError` of `.get` on a non-dict (`UserCrud.NullQueryFetch`), for a `float` boto3 refuses to send, for a stored number `json.dumps` refuses as a `Decimal`, and for two requests DynamoDB rejects, whose error text is the parameter `dbError`: a key that is not a non-empty string, and an update expression that names a reserved word. Other service errors (throttling, a missing table) are not modelled.
- `UserCrud.ReservedWords`: of the five updatable attributes only `name` is taken as reserved, following DynamoDB's published keyword list; the service's other checks on an update expression are not modelled.
- A POST or PUT body that is not a JSON object, or an event whose `body` is `null`: the body is taken as an already-parsed object.
- `UserCrud.TypeName` and `UserCrud.HoldsFloat`: an integral JSON number is taken as an `int` and any other as a `float`; `1.0` in the event text would be a `float` to Python, and boto3 would refuse it.
- `print` logging in every handler and in the Swift client.
