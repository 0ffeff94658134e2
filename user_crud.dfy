/** The users Lambda: method dispatch, the four handlers and the `Users` table they write.
    The event's body arrives already parsed; values follow Python's rules for `or`, `not`,
    `in` and `dict.get`. */
module UserCrud {
  import opened Wrappers
  import opened Strings
  import opened Json

  /** A stored user item: attribute name to value. */
  type Record = map<string, Json>

  /** What a handler returns: the status code and the JSON that `json.dumps` turns into the body. */
  datatype LambdaResponse = LambdaResponse(statusCode: int, body: Json)

  /** A Lambda event: its top-level fields, and the parsed `body` (`json.loads(event.get('body', '{}'))`). */
  datatype Event = Event(fields: map<string, Json>, body: Record)

  const RequiredFields := ["email", "name", "dob", "gender", "weight", "height"]
  const UpdatableKeys := ["name", "dob", "gender", "weight", "height"]

  function ErrorBody(message: string): Json { JObject(map["error" := JString(message)]) }
  function MessageBody(message: string): Json { JObject(map["message" := JString(message)]) }

  // ---------------------------------------------------------------------------
  // Python values

  /** Python truthiness of a JSON value. */
  predicate Truthy(j: Json)
  {
    match j
    case JNull => false
    case JBool(b) => b
    case JNumber(n) => n != 0.0
    case JString(s) => s != ""
    case JArray(items) => items != []
    case JObject(fields) => fields != map[]
  }

  /** The Python type name of a JSON value (`json.loads` makes integral numbers `int`). */
  function TypeName(j: Json): string
  {
    match j
    case JNull => "NoneType"
    case JBool(_) => "bool"
    case JNumber(n) => if n.Floor as real == n then "int" else "float"
    case JString(_) => "str"
    case JArray(_) => "list"
    case JObject(_) => "dict"
  }

  /** The message of the `AttributeError` raised by `.get` on a value of the named type. */
  function NoGet(typeName: string): string
  {
    "'" + typeName + "' object has no attribute 'get'"
  }

  /** Whether `j` holds a number anywhere inside it: boto3 reads every stored number back as a
      `Decimal`, which `json.dumps` refuses. */
  predicate HoldsNumber(j: Json)
    decreases j
  {
    match j
    case JNumber(_) => true
    case JArray(items) => exists i :: 0 <= i < |items| && HoldsNumber(items[i])
    case JObject(fields) => exists k :: k in fields && HoldsNumber(fields[k])
    case _ => false
  }

  /** Whether `j` holds a number with a fractional part anywhere inside it: `json.loads` makes it a
      `float`, which boto3 refuses to send. */
  predicate HoldsFloat(j: Json)
    decreases j
  {
    match j
    case JNumber(n) => n.Floor as real != n
    case JArray(items) => exists i :: 0 <= i < |items| && HoldsFloat(items[i])
    case JObject(fields) => exists k :: k in fields && HoldsFloat(fields[k])
    case _ => false
  }

  /** The updatable attribute names that DynamoDB reserves as keywords: without
      `ExpressionAttributeNames` an update expression naming one is rejected. */
  const ReservedWords: set<string> := {"name"}

  /** Whether the `SET` clauses over `names` name a reserved word. */
  predicate NamesReservedWord(names: seq<string>)
  {
    exists i :: 0 <= i < |names| && names[i] in ReservedWords
  }

  /** The `TypeError` boto3 raises for a `float` in a request. */
  const FloatError := "Float types are not supported. Use Decimal types instead."

  /** The `TypeError` `json.dumps` raises for a `Decimal`. */
  const DecimalError := "Object of type Decimal is not JSON serializable"

  /** `d.get(key, default)`; an `AttributeError` with its message when `d` is not a dict. */
  function Get(d: Json, key: string, default: Json): (r: Result<Json, string>)
    ensures r.Ok? <==> d.JObject?
    ensures r.Ok? ==> r.value == (if key in d.fields then d.fields[key] else default)
    ensures r.Err? ==> r.error == NoGet(TypeName(d))
  {
    match d
    case JObject(fields) => Ok(if key in fields then fields[key] else default)
    case _ => Err(NoGet(TypeName(d)))
  }

  /** The table key DynamoDB accepts for an email: a non-empty string. */
  function KeyOf(email: Json): Option<string>
  {
    if email.JString? && email.s != "" then Some(email.s) else None
  }

  // ---------------------------------------------------------------------------
  // The update expression

  /** The keys of `keys` present in the body, in order. */
  function PresentIn(keys: seq<string>, body: Record): (r: seq<string>)
    ensures forall k :: k in r <==> k in keys && k in body
    ensures |r| <= |keys|
    decreases |keys|
  {
    if keys == [] then []
    else
      var last := keys[|keys| - 1];
      PresentIn(keys[..|keys| - 1], body) + (if last in body then [last] else [])
  }

  /** The assignment for one attribute. */
  function Clause(key: string): string
  {
    key + " = :" + key
  }

  function Clauses(keys: seq<string>): (r: seq<string>)
    ensures |r| == |keys| && forall i :: 0 <= i < |keys| ==> r[i] == Clause(keys[i])
  {
    seq(|keys|, i requires 0 <= i < |keys| => Clause(keys[i]))
  }

  /** The expression as the loop leaves it: every clause followed by `", "`. */
  function Terminated(keys: seq<string>): string
    decreases |keys|
  {
    if keys == [] then "" else Terminated(keys[..|keys| - 1]) + Clause(keys[|keys| - 1]) + ", "
  }

  /** The values bound by the loop: `":k"` to the body's value of `k` for each present `k`. */
  function ValuesFor(keys: seq<string>, body: Record): (r: map<string, Json>)
    decreases |keys|
  {
    if keys == [] then map[]
    else
      var last := keys[|keys| - 1];
      var v := ValuesFor(keys[..|keys| - 1], body);
      if last in body then v[":" + last := body[last]] else v
  }

  /** The update expression DynamoDB receives: `"SET "` and the clauses joined by `", "`. */
  function UpdateExpression(body: Record): string
  {
    "SET " + Join(Clauses(PresentIn(UpdatableKeys, body)), ", ")
  }

  /** What `SET k = :k, …` over `names` assigns. */
  function Assigned(names: seq<string>, values: map<string, Json>): Record
  {
    map k | k in names && ":" + k in values :: values[":" + k]
  }

  /** The loop of `update_user` that builds the expression and its values. */
  method BuildUpdate(body: Record) returns (expression: string, values: map<string, Json>)
    ensures expression == "SET " + Terminated(PresentIn(UpdatableKeys, body))
    ensures values == ValuesFor(UpdatableKeys, body)
  {
    expression := "SET ";
    values := map[];
    for i := 0 to |UpdatableKeys|
      invariant expression == "SET " + Terminated(PresentIn(UpdatableKeys[..i], body))
      invariant values == ValuesFor(UpdatableKeys[..i], body)
    {
      var key := UpdatableKeys[i];
      ghost var done := UpdatableKeys[..i];
      assert UpdatableKeys[..i + 1] == done + [key];
      Snoc(done, key, body);
      if key in body {
        TerminatedSnoc(PresentIn(done, body), key);
        expression := expression + key + " = :" + key + ", ";
      } else {
        assert PresentIn(done, body) + [] == PresentIn(done, body);
      }
      if key in body {
        values := values[":" + key := body[key]];
      }
    }
    assert UpdatableKeys[..|UpdatableKeys|] == UpdatableKeys;
  }

  /** One more key: the present keys and the values grow by that key when the body has it. */
  lemma Snoc(keys: seq<string>, key: string, body: Record)
    ensures PresentIn(keys + [key], body) == PresentIn(keys, body) + (if key in body then [key] else [])
    ensures ValuesFor(keys + [key], body) == (if key in body then ValuesFor(keys, body)[":" + key := body[key]] else ValuesFor(keys, body))
  {
    assert (keys + [key])[..|keys|] == keys;
  }

  lemma TerminatedSnoc(keys: seq<string>, key: string)
    ensures "SET " + Terminated(keys + [key]) == "SET " + Terminated(keys) + key + " = :" + key + ", "
  {
    assert (keys + [key])[..|keys|] == keys;
    var t := Terminated(keys);
    assert Terminated(keys + [key]) == t + Clause(key) + ", ";
  }

  // ---------------------------------------------------------------------------
  // The table

  /** The `Users` table, keyed by `email`. */
  class UsersTable {
    var items: map<string, Record>

    constructor ()
      ensures items == map[]
    {
      items := map[];
    }

    /** `put_item`: stores the item under `key`, replacing any earlier one. */
    method PutItem(key: string, item: Record)
      modifies this
      ensures items == old(items)[key := item]
    {
      items := items[key := item];
    }

    /** `get_item`: the item under `key`, if any. */
    method GetItem(key: string) returns (r: Option<Record>)
      ensures r == (if key in items then Some(items[key]) else None)
    {
      r := if key in items then Some(items[key]) else None;
    }

    /** `update_item` with `SET n = :n, …` over `names`: creates the item when absent. */
    method UpdateItem(key: string, names: seq<string>, values: map<string, Json>)
      modifies this
      ensures items == old(items)[key := Upserted(old(items), key, names, values)]
    {
      items := items[key := Upserted(items, key, names, values)];
    }

    /** `delete_item`: no error when nothing is stored under `key`. */
    method DeleteItem(key: string)
      modifies this
      ensures items == old(items) - {key}
    {
      items := items - {key};
    }
  }

  /** The item under `key` after `SET` over `names`: the stored one, or a new one holding only the key. */
  function Upserted(items: map<string, Record>, key: string, names: seq<string>, values: map<string, Json>): (r: Record)
    ensures forall k :: k in Assigned(names, values) ==> k in r && r[k] == values[":" + k]
    ensures key in items ==>
      forall k :: k in items[key] && k !in Assigned(names, values) ==> k in r && r[k] == items[key][k]
    ensures key in items ==> forall k :: k in r ==> k in items[key] || k in Assigned(names, values)
    ensures key !in items ==> forall k :: k in r ==> k == "email" || k in Assigned(names, values)
    ensures key !in items && "email" !in Assigned(names, values) ==> "email" in r && r["email"] == JString(key)
  {
    (if key in items then items[key] else map["email" := JString(key)]) + Assigned(names, values)
  }

  // ---------------------------------------------------------------------------
  // The handlers as functions of the table; `dbError` stands for the text of the error
  // DynamoDB raises for a request it rejects: a key that is not a non-empty string, or an
  // update expression that names a reserved word.

  /** `create_user(body)`. */
  function Created(items: map<string, Record>, body: Record, dbError: string): (LambdaResponse, map<string, Record>)
  {
    if !(forall i :: 0 <= i < |RequiredFields| ==> RequiredFields[i] in body) then
      (LambdaResponse(400, ErrorBody("Missing required user fields")), items)
    else
      assert RequiredFields[0] in body;
      if HoldsFloat(JObject(body)) then (LambdaResponse(500, ErrorBody(FloatError)), items)
      else
        match KeyOf(body["email"])
        case None => (LambdaResponse(500, ErrorBody(dbError)), items)
        case Some(key) => (LambdaResponse(201, MessageBody("User created successfully")), items[key := body])
  }

  /** `event.get('queryStringParameters', {}).get('email')`. */
  function QueryEmail(event: Event): (r: Result<Json, string>)
    ensures "queryStringParameters" !in event.fields ==> r == Ok(JNull)
    ensures "queryStringParameters" in event.fields ==>
      var params := event.fields["queryStringParameters"];
      && (r.Ok? <==> params.JObject?)
      && (r.Ok? ==> r.value == if "email" in params.fields then params.fields["email"] else JNull)
      && (r.Err? ==> r.error == NoGet(TypeName(params)))
  {
    var params := if "queryStringParameters" in event.fields then event.fields["queryStringParameters"] else JObject(map[]);
    Get(params, "email", JNull)
  }

  /** `get_users(event)`. */
  function Fetched(items: map<string, Record>, event: Event, dbError: string): LambdaResponse
  {
    match QueryEmail(event)
    case Err(message) => LambdaResponse(500, ErrorBody(message))
    case Ok(email) =>
      if !Truthy(email) then LambdaResponse(400, ErrorBody("Email is required"))
      else if HoldsFloat(email) then LambdaResponse(500, ErrorBody(FloatError))
      else
        match KeyOf(email)
        case None => LambdaResponse(500, ErrorBody(dbError))
        case Some(key) =>
          if key !in items then LambdaResponse(404, ErrorBody("User not found"))
          else if HoldsNumber(JObject(items[key])) then LambdaResponse(500, ErrorBody(DecimalError))
          else LambdaResponse(200, JObject(items[key]))
  }

  /** `update_user(body)`. */
  function Updated(items: map<string, Record>, body: Record, dbError: string): (LambdaResponse, map<string, Record>)
  {
    var email := if "email" in body then body["email"] else JNull;
    if !Truthy(email) then (LambdaResponse(400, ErrorBody("Email is required")), items)
    else
      var values := ValuesFor(UpdatableKeys, body);
      if values == map[] then (LambdaResponse(400, ErrorBody("Nothing to update")), items)
      else if HoldsFloat(email) || HoldsFloat(JObject(values)) then (LambdaResponse(500, ErrorBody(FloatError)), items)
      else if NamesReservedWord(PresentIn(UpdatableKeys, body)) then (LambdaResponse(500, ErrorBody(dbError)), items)
      else
        match KeyOf(email)
        case None => (LambdaResponse(500, ErrorBody(dbError)), items)
        case Some(key) =>
          (LambdaResponse(200, MessageBody("User updated successfully")),
           items[key := Upserted(items, key, PresentIn(UpdatableKeys, body), values)])
  }

  /** `delete_user(email)`. */
  function Removed(items: map<string, Record>, email: Json, dbError: string): (LambdaResponse, map<string, Record>)
  {
    if !Truthy(email) then (LambdaResponse(400, ErrorBody("Email is required")), items)
    else if HoldsFloat(email) then (LambdaResponse(500, ErrorBody(FloatError)), items)
    else
      match KeyOf(email)
      case None => (LambdaResponse(500, ErrorBody(dbError)), items)
      case Some(key) => (LambdaResponse(200, MessageBody("User deleted successfully")), items - {key})
  }

  /** The method `lambda_handler` dispatches on: `httpMethod` when truthy, else
      `requestContext.http.method`; an `AttributeError` when a step is not a dict. */
  function MethodOf(event: Event): Result<Json, string>
  {
    var direct := if "httpMethod" in event.fields then event.fields["httpMethod"] else JNull;
    if Truthy(direct) then Ok(direct) else ContextMethod(event)
  }

  /** `event.get('requestContext', {}).get('http', {}).get('method')`. */
  function ContextMethod(event: Event): Result<Json, string>
  {
    var context := if "requestContext" in event.fields then event.fields["requestContext"] else JObject(map[]);
    match Get(context, "http", JObject(map[]))
    case Err(message) => Err(message)
    case Ok(http) => Get(http, "method", JNull)
  }

  /** `lambda_handler(event, context)`: the response, or the exception it lets escape. */
  function Handled(items: map<string, Record>, event: Event, dbError: string): (Result<LambdaResponse, string>, map<string, Record>)
  {
    match MethodOf(event)
    case Err(message) => (Err(message), items)
    case Ok(verb) =>
      if verb == JString("GET") then (Ok(Fetched(items, event, dbError)), items)
      else if verb == JString("POST") then
        var (r, items') := Created(items, event.body, dbError); (Ok(r), items')
      else if verb == JString("PUT") then
        var (r, items') := Updated(items, event.body, dbError); (Ok(r), items')
      else if verb == JString("DELETE") then
        match QueryEmail(event)
        case Err(message) => (Err(message), items)
        case Ok(email) => var (r, items') := Removed(items, email, dbError); (Ok(r), items')
      else (Ok(LambdaResponse(400, ErrorBody("Unsupported method"))), items)
  }

  // ---------------------------------------------------------------------------
  // The handlers as they run against the table

  method CreateUser(table: UsersTable, body: Record, dbError: string) returns (r: LambdaResponse)
    modifies table
    ensures (r, table.items) == Created(old(table.items), body, dbError)
  {
    var i := 0;
    while i < |RequiredFields| && RequiredFields[i] in body
      invariant 0 <= i <= |RequiredFields|
      invariant forall j :: 0 <= j < i ==> RequiredFields[j] in body
    {
      i := i + 1;
    }
    if i < |RequiredFields| {
      return LambdaResponse(400, ErrorBody("Missing required user fields"));
    }
    assert RequiredFields[0] in body;
    if HoldsFloat(JObject(body)) {
      return LambdaResponse(500, ErrorBody(FloatError));
    }
    var key := KeyOf(body["email"]);
    if key.None? {
      return LambdaResponse(500, ErrorBody(dbError));
    }
    table.PutItem(key.value, body);
    r := LambdaResponse(201, MessageBody("User created successfully"));
  }

  method GetUsers(table: UsersTable, event: Event, dbError: string) returns (r: LambdaResponse)
    ensures r == Fetched(table.items, event, dbError)
  {
    var email := QueryEmail(event);
    if email.Err? {
      return LambdaResponse(500, ErrorBody(email.error));
    }
    if !Truthy(email.value) {
      return LambdaResponse(400, ErrorBody("Email is required"));
    }
    if HoldsFloat(email.value) {
      return LambdaResponse(500, ErrorBody(FloatError));
    }
    var key := KeyOf(email.value);
    if key.None? {
      return LambdaResponse(500, ErrorBody(dbError));
    }
    var item := table.GetItem(key.value);
    if item.None? {
      return LambdaResponse(404, ErrorBody("User not found"));
    }
    if HoldsNumber(JObject(item.value)) {
      return LambdaResponse(500, ErrorBody(DecimalError));
    }
    r := LambdaResponse(200, JObject(item.value));
  }

  method UpdateUser(table: UsersTable, body: Record, dbError: string) returns (r: LambdaResponse)
    modifies table
    ensures (r, table.items) == Updated(old(table.items), body, dbError)
  {
    var email := if "email" in body then body["email"] else JNull;
    if !Truthy(email) {
      return LambdaResponse(400, ErrorBody("Email is required"));
    }
    var expression, values := BuildUpdate(body);
    if values == map[] {
      return LambdaResponse(400, ErrorBody("Nothing to update"));
    }
    expression := RStrip(expression, {',', ' '});
    UpdateExpressionStripped(body);
    assert expression == UpdateExpression(body);
    if HoldsFloat(email) || HoldsFloat(JObject(values)) {
      return LambdaResponse(500, ErrorBody(FloatError));
    }
    if NamesReservedWord(PresentIn(UpdatableKeys, body)) {
      return LambdaResponse(500, ErrorBody(dbError));
    }
    var key := KeyOf(email);
    if key.None? {
      return LambdaResponse(500, ErrorBody(dbError));
    }
    table.UpdateItem(key.value, PresentIn(UpdatableKeys, body), values);
    r := LambdaResponse(200, MessageBody("User updated successfully"));
  }

  method DeleteUser(table: UsersTable, email: Json, dbError: string) returns (r: LambdaResponse)
    modifies table
    ensures (r, table.items) == Removed(old(table.items), email, dbError)
  {
    if !Truthy(email) {
      return LambdaResponse(400, ErrorBody("Email is required"));
    }
    if HoldsFloat(email) {
      return LambdaResponse(500, ErrorBody(FloatError));
    }
    var key := KeyOf(email);
    if key.None? {
      return LambdaResponse(500, ErrorBody(dbError));
    }
    table.DeleteItem(key.value);
    r := LambdaResponse(200, MessageBody("User deleted successfully"));
  }

  method LambdaHandler(table: UsersTable, event: Event, dbError: string) returns (r: Result<LambdaResponse, string>)
    modifies table
    ensures (r, table.items) == Handled(old(table.items), event, dbError)
  {
    var verb := MethodOf(event);
    if verb.Err? {
      return Err(verb.error);
    }
    if verb.value == JString("GET") {
      var response := GetUsers(table, event, dbError);
      r := Ok(response);
    } else if verb.value == JString("POST") {
      var response := CreateUser(table, event.body, dbError);
      r := Ok(response);
    } else if verb.value == JString("PUT") {
      var response := UpdateUser(table, event.body, dbError);
      r := Ok(response);
    } else if verb.value == JString("DELETE") {
      var email := QueryEmail(event);
      if email.Err? {
        return Err(email.error);
      }
      var response := DeleteUser(table, email.value, dbError);
      r := Ok(response);
    } else {
      r := Ok(LambdaResponse(400, ErrorBody("Unsupported method")));
    }
  }

  // ---------------------------------------------------------------------------
  // Lemmas: the update expression

  lemma {:induction false} TerminatedIsJoin(keys: seq<string>)
    requires keys != []
    ensures Terminated(keys) == Join(Clauses(keys), ", ") + ", "
    decreases |keys|
  {
    if |keys| > 1 {
      var init := keys[..|keys| - 1];
      TerminatedIsJoin(init);
      JoinSnoc(Clauses(init), Clause(keys[|keys| - 1]), ", ");
      assert Clauses(init) + [Clause(keys[|keys| - 1])] == Clauses(keys);
    }
  }

  lemma {:induction false} JoinSnoc(parts: seq<string>, last: string, sep: string)
    requires parts != []
    ensures Join(parts + [last], sep) == Join(parts, sep) + sep + last
    decreases |parts|
  {
    if |parts| == 1 {
      assert parts + [last] == [parts[0], last];
    } else {
      JoinSnoc(parts[1..], last, sep);
      assert (parts + [last])[1..] == parts[1..] + [last];
    }
  }

  /** Whether every key is non-empty and ends in a character `rstrip(", ")` keeps. */
  predicate EndsInLetter(keys: seq<string>)
  {
    forall i :: 0 <= i < |keys| ==> keys[i] != "" && keys[i][|keys[i]| - 1] !in {',', ' '}
  }

  /** `rstrip(", ")` removes a set of characters, and when the keys end in letters that is
      exactly the final `", "`. */
  lemma StripTerminated(keys: seq<string>)
    requires keys != [] && EndsInLetter(keys)
    ensures RStrip("SET " + Terminated(keys), {',', ' '}) == "SET " + Join(Clauses(keys), ", ")
  {
    TerminatedIsJoin(keys);
    var t := "SET " + Join(Clauses(keys), ", ");
    var last := keys[|keys| - 1];
    JoinLastPart(Clauses(keys), ", ");
    assert Clause(last)[|Clause(last)| - 1] == last[|last| - 1];
    assert t[|t| - 1] == last[|last| - 1];
    assert "SET " + Terminated(keys) == t + ", ";
    RStripSuffix(t, ", ", {',', ' '});
  }

  /** The update expression has no trailing separator: stripping the loop's result gives the
      clauses of the present keys joined by `", "`. */
  lemma UpdateExpressionStripped(body: Record)
    requires ValuesFor(UpdatableKeys, body) != map[]
    ensures RStrip("SET " + Terminated(PresentIn(UpdatableKeys, body)), {',', ' '}) == UpdateExpression(body)
  {
    assert EndsInLetter(UpdatableKeys);
    PresentStripped(UpdatableKeys, body);
  }

  /** Over any keys ending in letters, with at least one present, stripping removes just the final separator. */
  lemma PresentStripped(keys: seq<string>, body: Record)
    requires EndsInLetter(keys) && ValuesFor(keys, body) != map[]
    ensures RStrip("SET " + Terminated(PresentIn(keys, body)), {',', ' '}) == "SET " + Join(Clauses(PresentIn(keys, body)), ", ")
  {
    PresentNonEmpty(keys, body);
    PresentEndsInLetter(keys, body);
    StripTerminated(PresentIn(keys, body));
  }

  lemma PresentNonEmpty(keys: seq<string>, body: Record)
    requires ValuesFor(keys, body) != map[]
    ensures PresentIn(keys, body) != []
  {
    ValuesForDomain(keys, body);
    var q :| q in ValuesFor(keys, body);
    assert q[1..] in PresentIn(keys, body);
  }

  lemma PresentEndsInLetter(keys: seq<string>, body: Record)
    requires EndsInLetter(keys)
    ensures EndsInLetter(PresentIn(keys, body))
  {
    var p := PresentIn(keys, body);
    forall i | 0 <= i < |p|
      ensures p[i] != "" && p[i][|p[i]| - 1] !in {',', ' '}
    {
      assert p[i] in p;
      var j :| 0 <= j < |keys| && keys[j] == p[i];
    }
  }

  lemma {:induction false} JoinLastPart(parts: seq<string>, sep: string)
    requires parts != [] && parts[|parts| - 1] != ""
    ensures var j := Join(parts, sep); |j| > 0 && j[|j| - 1] == parts[|parts| - 1][|parts[|parts| - 1]| - 1]
    decreases |parts|
  {
    if |parts| > 1 {
      JoinLastPart(parts[1..], sep);
    }
  }

  /** The values map binds `":k"` exactly for the present keys, to the body's values. */
  lemma {:induction false} ValuesForDomain(keys: seq<string>, body: Record)
    ensures forall k :: k in keys ==> (":" + k in ValuesFor(keys, body) <==> k in body)
    ensures forall k :: k in keys && k in body ==> ValuesFor(keys, body)[":" + k] == body[k]
    ensures forall q :: q in ValuesFor(keys, body) ==> |q| >= 1 && q[0] == ':' && q[1..] in keys && q[1..] in body
    decreases |keys|
  {
    if keys != [] {
      var init := keys[..|keys| - 1];
      var last := keys[|keys| - 1];
      ValuesForDomain(init, body);
      assert (":" + last)[1..] == last;
      forall k | k in keys
        ensures (":" + k in ValuesFor(keys, body) <==> k in body)
      {
        assert k in init || k == last;
        assert (":" + k)[1..] == k;
      }
      forall k | k in keys && k in body
        ensures ValuesFor(keys, body)[":" + k] == body[k]
      {
        assert k in init || k == last;
        assert (":" + k)[1..] == k;
        if k != last {
          assert ":" + k != ":" + last;
        }
      }
    }
  }

  /** The update assigns exactly the listed attributes the body has, to the body's values. */
  lemma AssignedPresent(keys: seq<string>, body: Record)
    ensures Assigned(PresentIn(keys, body), ValuesFor(keys, body)) == map k | k in keys && k in body :: body[k]
  {
    ValuesForDomain(keys, body);
  }

  /** `email` is never assigned by the update. */
  lemma UpdateNeverAssignsEmail(body: Record)
    ensures "email" !in Assigned(PresentIn(UpdatableKeys, body), ValuesFor(UpdatableKeys, body))
    ensures ":email" !in ValuesFor(UpdatableKeys, body)
  {
    ValuesForDomain(UpdatableKeys, body);
    assert ":email"[1..] == "email";
    assert "email" !in UpdatableKeys;
  }

  /** The values map is empty exactly when the body has no updatable key. */
  lemma NothingToUpdateIffNoKey(body: Record)
    ensures ValuesFor(UpdatableKeys, body) == map[] <==> (forall i :: 0 <= i < |UpdatableKeys| ==> UpdatableKeys[i] !in body)
  {
    ValuesForDomain(UpdatableKeys, body);
    if ValuesFor(UpdatableKeys, body) != map[] {
      var q :| q in ValuesFor(UpdatableKeys, body);
      assert q[1..] in UpdatableKeys;
    } else {
      forall i | 0 <= i < |UpdatableKeys|
        ensures UpdatableKeys[i] !in body
      {
        assert ":" + UpdatableKeys[i] !in ValuesFor(UpdatableKeys, body);
      }
    }
  }

  // ---------------------------------------------------------------------------
  // Lemmas: the handlers

  /** The method comes from `httpMethod` when that is truthy, else from
      `requestContext.http.method`; with neither, it is `None`. */
  lemma MethodFallback(event: Event)
    ensures "httpMethod" in event.fields && Truthy(event.fields["httpMethod"]) ==>
      MethodOf(event) == Ok(event.fields["httpMethod"])
    ensures !("httpMethod" in event.fields && Truthy(event.fields["httpMethod"])) ==>
      MethodOf(event) == ContextMethod(event)
  {
  }

  /** The fallback `event.get('requestContext', {}).get('http', {}).get('method')`, case by case:
      any other keys of `requestContext` and `http` are ignored. */
  lemma ContextMethodCases(event: Event)
    ensures "requestContext" !in event.fields ==> ContextMethod(event) == Ok(JNull)
    ensures "requestContext" in event.fields ==>
      var context := event.fields["requestContext"];
      && (!context.JObject? ==> ContextMethod(event) == Err(NoGet(TypeName(context))))
      && (context.JObject? && "http" !in context.fields ==> ContextMethod(event) == Ok(JNull))
      && (context.JObject? && "http" in context.fields ==>
            var http := context.fields["http"];
            && (!http.JObject? ==> ContextMethod(event) == Err(NoGet(TypeName(http))))
            && (http.JObject? && "method" !in http.fields ==> ContextMethod(event) == Ok(JNull))
            && (http.JObject? && "method" in http.fields ==> ContextMethod(event) == Ok(http.fields["method"])))
  {
  }

  /** Any method other than the four is answered 400 `Unsupported method` and leaves the table alone. */
  lemma UnsupportedMethod(items: map<string, Record>, event: Event, dbError: string)
    requires MethodOf(event).Ok?
    requires MethodOf(event).value !in {JString("GET"), JString("POST"), JString("PUT"), JString("DELETE")}
    ensures Handled(items, event, dbError) == (Ok(LambdaResponse(400, ErrorBody("Unsupported method"))), items)
  {
  }

  /** `create_user` stores the whole body under its email exactly when every required field is
      present (and the email is a key DynamoDB takes); otherwise nothing changes. */
  lemma CreateOutcomes(items: map<string, Record>, body: Record, dbError: string)
    ensures var (r, items') := Created(items, body, dbError);
      && (r.statusCode == 201 <==>
            (forall f :: f in RequiredFields ==> f in body) && !HoldsFloat(JObject(body)) && KeyOf(body["email"]).Some?)
      && (r.statusCode == 201 ==> items' == items[body["email"].s := body])
      && (r.statusCode != 201 ==> items' == items)
      && ((exists f :: f in RequiredFields && f !in body) ==>
            r == LambdaResponse(400, ErrorBody("Missing required user fields")))
      && ((forall f :: f in RequiredFields ==> f in body) && HoldsFloat(JObject(body)) ==>
            r == LambdaResponse(500, ErrorBody(FloatError)))
  {
    if forall f :: f in RequiredFields ==> f in body {
      assert forall i :: 0 <= i < |RequiredFields| ==> RequiredFields[i] in body;
      assert "email" in body by { assert RequiredFields[0] == "email"; }
    } else {
      var f :| f in RequiredFields && f !in body;
      var i :| 0 <= i < |RequiredFields| && RequiredFields[i] == f;
    }
  }

  /** `get_users` answers 400 for a missing or empty email, 404 for an email with no item,
      200 with the stored item for one that has it, and 500 with the database's error for a truthy
      email that is not a string key; whatever else the event holds. */
  lemma FetchOutcomes(items: map<string, Record>, event: Event, email: Json, dbError: string)
    requires QueryEmail(event) == Ok(email)
    ensures var r := Fetched(items, event, dbError);
      && (!Truthy(email) ==> r == LambdaResponse(400, ErrorBody("Email is required")))
      && (Truthy(email) && KeyOf(email).None? ==>
            r == LambdaResponse(500, ErrorBody(if HoldsFloat(email) then FloatError else dbError)))
      && (email.JString? && email.s != "" && email.s !in items ==> r == LambdaResponse(404, ErrorBody("User not found")))
      && (email.JString? && email.s != "" && email.s in items ==>
            r == if HoldsNumber(JObject(items[email.s])) then LambdaResponse(500, ErrorBody(DecimalError))
                 else LambdaResponse(200, JObject(items[email.s])))
  {
  }

  /** A GET is answered by `get_users` and leaves the table alone. */
  lemma GetRoutesToFetch(items: map<string, Record>, event: Event, dbError: string)
    requires MethodOf(event) == Ok(JString("GET"))
    ensures Handled(items, event, dbError) == (Ok(Fetched(items, event, dbError)), items)
  {
  }

  /** API Gateway sends `queryStringParameters: null` when there are none: `get_users` turns the
      `AttributeError` into a 500. */
  lemma NullQueryFetch(items: map<string, Record>, event: Event, dbError: string)
    requires "queryStringParameters" in event.fields && event.fields["queryStringParameters"] == JNull
    ensures Fetched(items, event, dbError) == LambdaResponse(500, ErrorBody(NoGet("NoneType")))
  {
    assert QueryEmail(event) == Err(NoGet("NoneType"));
  }

  /** With `queryStringParameters: null`, a DELETE lets the `AttributeError` escape the handler. */
  lemma NullQueryDelete(items: map<string, Record>, event: Event, dbError: string)
    requires "queryStringParameters" in event.fields && event.fields["queryStringParameters"] == JNull
    requires MethodOf(event) == Ok(JString("DELETE"))
    ensures Handled(items, event, dbError) == (Err(NoGet("NoneType")), items)
  {
    assert QueryEmail(event) == Err(NoGet("NoneType"));
  }

  /** A created user is found again by its email, with exactly the body that created it. */
  lemma CreateThenFetch(items: map<string, Record>, body: Record, event: Event, dbError: string)
    requires "email" in body && Created(items, body, dbError).0.statusCode == 201
    requires QueryEmail(event) == Ok(body["email"])
    ensures Fetched(Created(items, body, dbError).1, event, dbError)
         == if HoldsNumber(JObject(body)) then LambdaResponse(500, ErrorBody(DecimalError)) else LambdaResponse(200, JObject(body))
  {
    CreateOutcomes(items, body, dbError);
  }

  /** `update_user` answers 400 and leaves the table alone without an email or without anything to
      update, and 500 when a value boto3 must send is a `float`. */
  lemma UpdateRejects(items: map<string, Record>, body: Record, dbError: string)
    ensures var (r, items') := Updated(items, body, dbError);
      && (!("email" in body && Truthy(body["email"])) ==> r == LambdaResponse(400, ErrorBody("Email is required")) && items' == items)
      && ("email" in body && Truthy(body["email"]) && (forall k :: k in UpdatableKeys ==> k !in body) ==>
            r == LambdaResponse(400, ErrorBody("Nothing to update")) && items' == items)
      && ("email" in body && Truthy(body["email"]) && ValuesFor(UpdatableKeys, body) != map[]
          && (HoldsFloat(body["email"]) || HoldsFloat(JObject(ValuesFor(UpdatableKeys, body)))) ==>
            r == LambdaResponse(500, ErrorBody(FloatError)) && items' == items)
      && (r.statusCode == 200 ==> "name" !in body)
      && (r.statusCode != 200 ==> items' == items)
  {
    NothingToUpdateIffNoKey(body);
    if forall k :: k in UpdatableKeys ==> k !in body {
      assert forall i :: 0 <= i < |UpdatableKeys| ==> UpdatableKeys[i] !in body;
    }
    if "name" in body {
      NamePresent(body);
    }
  }

  /** A successful update gives the item under the email the body's updatable attributes and
      keeps its others (a missing item is created holding the email); no other item changes. */
  lemma UpdateApplies(items: map<string, Record>, body: Record, dbError: string)
    requires Updated(items, body, dbError).0.statusCode == 200
    ensures "email" in body && KeyOf(body["email"]).Some?
    ensures var items', key := Updated(items, body, dbError).1, body["email"].s;
      && items' == items[key := items'[key]]
      && (forall a :: a in UpdatableKeys && a in body ==> a in items'[key] && items'[key][a] == body[a])
      && (forall a :: !(a in UpdatableKeys && a in body) ==>
            var before := if key in items then items[key] else map["email" := JString(key)];
            (a in items'[key] <==> a in before) && (a in before ==> items'[key][a] == before[a]))
  {
    assert "email" in body && KeyOf(body["email"]).Some?;
    var key, names, values := body["email"].s, PresentIn(UpdatableKeys, body), ValuesFor(UpdatableKeys, body);
    assert Updated(items, body, dbError).1 == items[key := Upserted(items, key, names, values)];
    AssignedPresent(UpdatableKeys, body);
  }

  /** The client always sends `name`, a reserved word the expression names as it is: a body with an
      email, a `name` and no `float` is rejected by DynamoDB, and nothing is written. */
  lemma NameAlwaysRejected(items: map<string, Record>, body: Record, dbError: string)
    requires "email" in body && Truthy(body["email"]) && "name" in body
    requires !HoldsFloat(body["email"]) && !HoldsFloat(JObject(ValuesFor(UpdatableKeys, body)))
    ensures Updated(items, body, dbError) == (LambdaResponse(500, ErrorBody(dbError)), items)
  {
    NamePresent(body);
  }

  lemma NamePresent(body: Record)
    requires "name" in body
    ensures ValuesFor(UpdatableKeys, body) != map[]
    ensures NamesReservedWord(PresentIn(UpdatableKeys, body))
  {
    assert UpdatableKeys[0] == "name";
    assert "name" in UpdatableKeys;
    ValuesForDomain(UpdatableKeys, body);
    assert ":" + "name" in ValuesFor(UpdatableKeys, body);
    var names := PresentIn(UpdatableKeys, body);
    assert "name" in names;
    var i :| 0 <= i < |names| && names[i] == "name";
  }

  /** `delete_user`: 400 for a missing or empty email; otherwise the item is gone afterwards,
      200 whether or not it existed, and no other item changes. */
  lemma DeleteOutcomes(items: map<string, Record>, email: Json, dbError: string)
    ensures var (r, items') := Removed(items, email, dbError);
      && (!Truthy(email) ==> r == LambdaResponse(400, ErrorBody("Email is required")) && items' == items)
      && (email.JString? && email.s != "" ==>
            r == LambdaResponse(200, MessageBody("User deleted successfully"))
            && email.s !in items' && (forall other :: other != email.s ==> (other in items' <==> other in items)))
      && (forall other :: other in items' ==> other in items && items'[other] == items[other])
      && (r.statusCode != 200 ==> items' == items)
  {
  }

  /** A deleted user is not found afterwards. */
  lemma DeleteThenFetch(items: map<string, Record>, email: string, event: Event, dbError: string)
    requires email != "" && QueryEmail(event) == Ok(JString(email))
    ensures Fetched(Removed(items, JString(email), dbError).1, event, dbError)
         == LambdaResponse(404, ErrorBody("User not found"))
  {
  }
}
