/** The request handling of app.py: the bearer-token check every protected
    endpoint depends on, the permission gate of the write endpoint, and the
    endpoints that use or change the instrument registry. An endpoint's
    reply is a body (HTTP 200) or an HTTP error with its status code; the
    library calls each endpoint makes are given as their outcomes. */
module App {
  import opened Wrappers
  import opened Visa
  import opened Text
  import opened Auth
  import opened Instruments

  /** The scheme prefix of the `Authorization` header, matched exactly. */
  const BearerPrefix: string := "Bearer "

  /** The only permission level that may write. */
  const ReadWrite: string := "readwrite"

  /** The command `read_gpib` always sends. */
  const IdentifyCommand: string := "*IDN?"

  /** The endpoints whose handler turns an exception into a 500. */
  datatype Endpoint = ReadEndpoint | WriteEndpoint | QueryEndpoint | CloseEndpoint

  /** The `detail` of an HTTP error: the fixed authentication and permission
      messages, or the exception an endpoint caught. */
  datatype Detail =
    | MissingToken
    | InvalidToken
    | ReadOnly
    | Internal(endpoint: Endpoint, cause: Failure)

  datatype HttpError = HttpError(status: int, detail: Detail)

  /** The JSON bodies of the successful replies. */
  datatype Body =
    | ReadData(data: string, address: string)
    | WriteDone(address: string, command: string)
    | QueryData(data: string, address: string, command: string)
    | CloseReport(success: bool, address: string)
    | AllClosed

  type Reply = Result<Body, HttpError>

  /** A token is accepted when its owner's name is truthy (non-empty). */
  predicate Authenticated(users: Config, token: string)
  {
    var username := VerifyToken(users, token);
    username.Some? && username.value != ""
  }

  /** `get_current_user`: 401 when the `Authorization` header is missing,
      empty or does not start with "Bearer "; otherwise the token is the
      header without its first 7 characters, and it is returned when
      accepted, 403 when not. */
  function GetCurrentUser(users: Config, authorization: Option<string>): (r: Result<string, HttpError>)
    ensures r.Ok? ==> authorization == Some(BearerPrefix + r.value) && Authenticated(users, r.value)
    ensures r.Err? ==> r.error == HttpError(401, MissingToken) || r.error == HttpError(403, InvalidToken)
    ensures r.Err? && r.error.status == 401 <==>
      authorization.None? || !StartsWith(authorization.value, BearerPrefix)
  {
    if authorization.None? || authorization.value == [] || !StartsWith(authorization.value, BearerPrefix) then
      Err(HttpError(401, MissingToken))
    else
      var header := authorization.value;
      var token := header[7..];
      assert header == BearerPrefix + token;
      if !Authenticated(users, token) then Err(HttpError(403, InvalidToken))
      else Ok(token)
  }

  /** A header "Bearer " followed by a token authenticates exactly that
      token, or is refused with 403. */
  lemma BearerHeader(users: Config, token: string)
    ensures GetCurrentUser(users, Some(BearerPrefix + token)) ==
      if Authenticated(users, token) then Ok(token) else Err(HttpError(403, InvalidToken))
  {
    var header := BearerPrefix + token;
    assert StartsWith(header, BearerPrefix);
    assert header[7..] == token;
  }

  /** A token is accepted exactly when the user listed last with it has a
      non-empty name; a token nobody holds is refused. */
  lemma AuthenticatedOwner(users: Config, token: string)
    ensures (exists i :: LastOwner(users, token, i) && users.names[i] != "") ==> Authenticated(users, token)
    ensures Authenticated(users, token) ==> exists i :: LastOwner(users, token, i) && users.names[i] != ""
    ensures (forall i :: 0 <= i < |users.names| ==> users.entries[users.names[i]].token != token) ==>
      !Authenticated(users, token)
  {
    if i :| LastOwner(users, token, i) && users.names[i] != "" {
      VerifyTokenLastWins(users, token, i);
    }
    if forall i :: 0 <= i < |users.names| ==> users.entries[users.names[i]].token != token {
      UnknownToken(users, token);
    }
    if Authenticated(users, token) {
      var items := Items(users);
      var table := Tokens(users);
      assert token in table;
      var i :| LastOwnerBefore(items, token, i, |items|) && table[token] == items[i].0;
      VerifyTokenLastWins(users, token, i);
    }
  }

  /** The decision `write_gpib` takes before it touches the registry: the
      authentication of `get_current_user`, then 403 unless the token's
      permission level is "readwrite". */
  function WriteGate(users: Config, authorization: Option<string>): (r: Result<string, HttpError>)
    ensures GetCurrentUser(users, authorization).Err? ==> r == GetCurrentUser(users, authorization)
    ensures r.Ok? ==> && GetCurrentUser(users, authorization) == Ok(r.value)
                      && GetPermissions(users, r.value) == Some(ReadWrite)
    ensures GetCurrentUser(users, authorization).Ok? && r.Err? ==>
      && r.error == HttpError(403, ReadOnly)
      && GetPermissions(users, GetCurrentUser(users, authorization).value) != Some(ReadWrite)
  {
    match GetCurrentUser(users, authorization)
    case Err(e) => Err(e)
    case Ok(token) =>
      if GetPermissions(users, token) != Some(ReadWrite) then Err(HttpError(403, ReadOnly))
      else Ok(token)
  }

  /** With the header of a token whose last owner has a non-empty name,
      writing is allowed exactly when that owner is configured "readwrite". */
  lemma WriteAllowedIffReadWrite(users: Config, token: string, i: int)
    requires LastOwner(users, token, i) && users.names[i] != ""
    ensures WriteGate(users, Some(BearerPrefix + token)) ==
      if users.entries[users.names[i]].permissions == ReadWrite then Ok(token)
      else Err(HttpError(403, ReadOnly))
  {
    AuthenticatedOwner(users, token);
    BearerHeader(users, token);
    PermissionsOfOwner(users, token, i);
  }

  /** A sample configuration: token "abc123" (the token the repository's
      client sends) belongs to a "readwrite" user, and "def456" to a "read"
      user. */
  function ExampleUsers(): Config
  {
    Users(["admin", "viewer"],
          map["admin" := UserEntry("abc123", "readwrite"), "viewer" := UserEntry("def456", "read")])
  }

  /** With the example configuration, writing with "abc123" passes the
      gate, writing with "def456" is refused with 403, and a header without
      the scheme is refused with 401. */
  lemma WriteScenario()
    ensures WriteGate(ExampleUsers(), Some("Bearer abc123")) == Ok("abc123")
    ensures WriteGate(ExampleUsers(), Some("Bearer def456")) == Err(HttpError(403, ReadOnly))
    ensures WriteGate(ExampleUsers(), Some("abc123")) == Err(HttpError(401, MissingToken))
    ensures WriteGate(ExampleUsers(), None) == Err(HttpError(401, MissingToken))
  {
    var users := ExampleUsers();
    assert LastOwner(users, "abc123", 0);
    assert LastOwner(users, "def456", 1);
    assert "Bearer abc123" == BearerPrefix + "abc123";
    assert "Bearer def456" == BearerPrefix + "def456";
    WriteAllowedIffReadWrite(users, "abc123", 0);
    WriteAllowedIffReadWrite(users, "def456", 1);
  }

  /** The reply of an endpoint that sent a query to a handle. */
  function QueryReply(endpoint: Endpoint, answer: QueryOutcome, body: string -> Body): Reply
  {
    match answer
    case Answered(text) => Ok(body(text))
    case QueryFailed(reason) => Err(HttpError(500, Internal(endpoint, LibraryError(reason))))
  }

  /** `read_gpib`: authentication only; then `get_instrument(address)` and
      the query "*IDN?" on the handle, whose raw reply is returned. Any
      failure after authentication is a 500. */
  method ReadGpib(reg: Registry, users: Config, authorization: Option<string>, address: string,
                  opening: OpenOutcome, instrument: string -> QueryOutcome) returns (r: Reply)
    requires reg.Valid()
    modifies reg
    ensures reg.Valid()
    ensures GetCurrentUser(users, authorization).Err? ==>
      r == Err(GetCurrentUser(users, authorization).error) && unchanged(reg)
    ensures GetCurrentUser(users, authorization).Ok? ==>
      var g := GetOutcome(old(reg.handles), address, opening);
      && GetEffect(old(reg.handles), old(reg.order), reg.handles, reg.order, address, opening)
      && r == if g.Err? then Err(HttpError(500, Internal(ReadEndpoint, g.error)))
              else QueryReply(ReadEndpoint, instrument(IdentifyCommand), text => ReadData(text, address))
  {
    var auth := GetCurrentUser(users, authorization);
    if auth.Err? {
      return Err(auth.error);
    }
    var instr := reg.GetInstrument(address, opening);
    if instr.Err? {
      return Err(HttpError(500, Internal(ReadEndpoint, instr.error)));
    }
    r := QueryReply(ReadEndpoint, instrument(IdentifyCommand), text => ReadData(text, address));
  }

  /** `query_gpib`: authentication only; then `get_instrument(address)` and
      the caller's command as a query, whose raw reply is returned. Any
      failure after authentication is a 500. */
  method QueryGpib(reg: Registry, users: Config, authorization: Option<string>, address: string,
                   command: string, opening: OpenOutcome, instrument: string -> QueryOutcome) returns (r: Reply)
    requires reg.Valid()
    modifies reg
    ensures reg.Valid()
    ensures GetCurrentUser(users, authorization).Err? ==>
      r == Err(GetCurrentUser(users, authorization).error) && unchanged(reg)
    ensures GetCurrentUser(users, authorization).Ok? ==>
      var g := GetOutcome(old(reg.handles), address, opening);
      && GetEffect(old(reg.handles), old(reg.order), reg.handles, reg.order, address, opening)
      && r == if g.Err? then Err(HttpError(500, Internal(QueryEndpoint, g.error)))
              else QueryReply(QueryEndpoint, instrument(command), text => QueryData(text, address, command))
  {
    var auth := GetCurrentUser(users, authorization);
    if auth.Err? {
      return Err(auth.error);
    }
    var instr := reg.GetInstrument(address, opening);
    if instr.Err? {
      return Err(HttpError(500, Internal(QueryEndpoint, instr.error)));
    }
    r := QueryReply(QueryEndpoint, instrument(command), text => QueryData(text, address, command));
  }

  /** `write_gpib`: the write gate first, its 401 or 403 passed on as it is
      and the registry untouched; then `get_instrument(address)` and the
      write of the command. Any other failure is a 500. */
  method WriteGpib(reg: Registry, users: Config, authorization: Option<string>, address: string,
                   command: string, opening: OpenOutcome, writing: Outcome) returns (r: Reply)
    requires reg.Valid()
    modifies reg
    ensures reg.Valid()
    ensures WriteGate(users, authorization).Err? ==>
      r == Err(WriteGate(users, authorization).error) && unchanged(reg)
    ensures WriteGate(users, authorization).Ok? ==>
      var g := GetOutcome(old(reg.handles), address, opening);
      && GetEffect(old(reg.handles), old(reg.order), reg.handles, reg.order, address, opening)
      && r == if g.Err? then Err(HttpError(500, Internal(WriteEndpoint, g.error)))
              else if writing.Raised? then Err(HttpError(500, Internal(WriteEndpoint, LibraryError(writing.reason))))
              else Ok(WriteDone(address, command))
  {
    var gate := WriteGate(users, authorization);
    if gate.Err? {
      return Err(gate.error);
    }
    var instr := reg.GetInstrument(address, opening);
    if instr.Err? {
      return Err(HttpError(500, Internal(WriteEndpoint, instr.error)));
    }
    match writing
    case Raised(reason) =>
      r := Err(HttpError(500, Internal(WriteEndpoint, LibraryError(reason))));
    case Done =>
      r := Ok(WriteDone(address, command));
  }

  /** `close_instrument`: after authentication, "nothing to close" for an
      unregistered address; otherwise the handle's close, then the removal
      of that entry alone. A close that raises skips the removal and is a
      500. */
  method CloseInstrument(reg: Registry, users: Config, authorization: Option<string>, address: string,
                         closing: Outcome) returns (r: Reply)
    requires reg.Valid()
    modifies reg
    ensures reg.Valid()
    ensures GetCurrentUser(users, authorization).Err? ==>
      r == Err(GetCurrentUser(users, authorization).error) && unchanged(reg)
    ensures GetCurrentUser(users, authorization).Ok? && address !in old(reg.handles) ==>
      r == Ok(CloseReport(false, address)) && unchanged(reg)
    ensures GetCurrentUser(users, authorization).Ok? && address in old(reg.handles) && closing.Raised? ==>
      r == Err(HttpError(500, Internal(CloseEndpoint, LibraryError(closing.reason)))) && unchanged(reg)
    ensures GetCurrentUser(users, authorization).Ok? && address in old(reg.handles) && closing.Done? ==>
      && r == Ok(CloseReport(true, address))
      && reg.handles == old(reg.handles) - {address}
      && reg.order == Without(old(reg.order), address)
  {
    var auth := GetCurrentUser(users, authorization);
    if auth.Err? {
      return Err(auth.error);
    }
    if address !in reg.handles {
      return Ok(CloseReport(false, address));
    }
    match closing
    case Raised(reason) =>
      r := Err(HttpError(500, Internal(CloseEndpoint, LibraryError(reason))));
    case Done =>
      reg.Delete(address);
      r := Ok(CloseReport(true, address));
  }

  /** `close_all_connections`: after authentication, `close_all_instruments`,
      which never raises; the registry ends empty. */
  method CloseAllConnections(reg: Registry, users: Config, authorization: Option<string>,
                             closing: string -> Outcome) returns (r: Reply, closed: seq<Handle>)
    requires reg.Valid()
    modifies reg
    ensures reg.Valid()
    ensures GetCurrentUser(users, authorization).Err? ==>
      r == Err(GetCurrentUser(users, authorization).error) && unchanged(reg) && closed == []
    ensures GetCurrentUser(users, authorization).Ok? ==>
      && r == Ok(AllClosed)
      && reg.handles == map[] && reg.order == []
      && |closed| == |old(reg.order)|
      && (forall k :: 0 <= k < |closed| ==> closed[k] == old(reg.handles)[old(reg.order)[k]])
  {
    var auth := GetCurrentUser(users, authorization);
    if auth.Err? {
      return Err(auth.error), [];
    }
    var errors;
    closed, errors := reg.CloseAll(closing);
    r := Ok(AllClosed);
  }

  /** The shutdown hook: `close_all_instruments`, unconditionally. */
  method ShutdownEvent(reg: Registry, closing: string -> Outcome) returns (closed: seq<Handle>)
    requires reg.Valid()
    modifies reg
    ensures reg.Valid() && reg.handles == map[] && reg.order == []
    ensures |closed| == |old(reg.order)|
    ensures forall k :: 0 <= k < |closed| ==> closed[k] == old(reg.handles)[old(reg.order)[k]]
  {
    var errors;
    closed, errors := reg.CloseAll(closing);
  }
}
