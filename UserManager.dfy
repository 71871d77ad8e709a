/**
 * The users server's request logic (backend/users_server/user_manager.py):
 * resolving a session to a user instance, the transactions GET and POST,
 * registration and login. The sqlite `users` table is the `users` field;
 * whether an INSERT or UPDATE succeeds is a parameter, as are a fresh uuid,
 * `str(datetime.now())`, `time.time()`, the handle of a newly created user
 * instance, and what the user instance's own methods return or raise.
 */
module UserManager {
  import opened Wrappers
  import opened PyText
  import opened PyDict
  import opened MinerAction
  import opened SessionManager

  /** A row of the `users` table (the key columns are not modelled). */
  datatype Row = Row(username: string, password: string, sessionId: Option<string>)

  /** One entry of the GET listing. */
  datatype TxJson = TxJson(id: string, kind: string, amount: real, status: string, timestamp: Instant, details: Details)

  /** The POST body; `None` is a missing key. */
  datatype PostBody = PostBody(kind: Option<string>, amount: Option<real>, details: Option<string>, status: Option<string>)

  /** The record echoed by an accepted POST. */
  datatype Posted = Posted(id: string, kind: string, amount: real, status: string, timestamp: string, details: string)

  datatype Body =
    | TxList(items: seq<TxJson>)
    | TxRecord(record: Posted)
    | ErrorBody(error: string)
    | SessionBody(message: string, sessionId: string)

  datatype Reply = Reply(body: Body, code: int)

  /** The user-instance method a POST calls. */
  datatype Call = BuyDinis(amount: real) | SellDinis(amount: real) | AddTransaction(details: string, amount: real)

  /** An exception raised by the user instance. */
  datatype Raised = ValueError(message: string) | OtherError(message: string)

  const PostTypes: seq<string> := ["buy", "sell", "transfer"]
  const IdWidth: nat := 10

  /** `SELECT * FROM users WHERE username = ?` with `fetchone`: the first row with the name. */
  function ByName(users: seq<Row>, name: string): (r: Option<Row>)
    ensures r.None? <==> forall i :: 0 <= i < |users| ==> users[i].username != name
    ensures r.Some? ==> r.value in users && r.value.username == name
  {
    if |users| == 0 then None
    else if users[0].username == name then Some(users[0])
    else ByName(users[1..], name)
  }

  /** `SELECT * FROM users WHERE session_id = ?` with `fetchone`. */
  function BySession(users: seq<Row>, sessionId: string): (r: Option<Row>)
    ensures r.None? <==> forall i :: 0 <= i < |users| ==> users[i].sessionId != Some(sessionId)
    ensures r.Some? ==> r.value in users && r.value.sessionId == Some(sessionId)
  {
    if |users| == 0 then None
    else if users[0].sessionId == Some(sessionId) then Some(users[0])
    else BySession(users[1..], sessionId)
  }

  /** `UPDATE users SET session_id = ? WHERE username = ?`. */
  function SetSession(users: seq<Row>, name: string, sessionId: Option<string>): (r: seq<Row>)
    ensures |r| == |users|
    ensures forall i :: 0 <= i < |users| ==>
              r[i] == if users[i].username == name then users[i].(sessionId := sessionId) else users[i]
  {
    seq(|users|, i requires 0 <= i < |users| =>
      if users[i].username == name then users[i].(sessionId := sessionId) else users[i])
  }

  /** `UPDATE users SET session_id = NULL WHERE session_id = ?`. */
  function ClearSession(users: seq<Row>, sessionId: string): (r: seq<Row>)
    ensures |r| == |users|
    ensures forall i :: 0 <= i < |users| ==>
              r[i] == if users[i].sessionId == Some(sessionId) then users[i].(sessionId := None) else users[i]
  {
    seq(|users|, i requires 0 <= i < |users| =>
      if users[i].sessionId == Some(sessionId) then users[i].(sessionId := None) else users[i])
  }

  predicate DistinctNames(users: seq<Row>)
  {
    forall i, j :: 0 <= i < j < |users| ==> users[i].username != users[j].username
  }

  /** `action.details or ""`: a falsy value (None, "", an empty dict) becomes "". */
  function OrEmpty(d: Details): (r: Details)
    ensures r != NoDetails && r != Fields([])
    ensures d.Text? && d.text != "" ==> r == d
    ensures d.NoDetails? ==> r == Text("")
  {
    match d
    case NoDetails => Text("")
    case Fields(f) => if f == [] then Text("") else d
    case _ => d
  }

  /** The GET reply: one entry per action with its id cut to 10 characters, or 500 if fetching raised. */
  function ListReply(recent: Result<seq<Action>, string>): (r: Reply)
    ensures recent.Err? ==> r == Reply(ErrorBody("Internal server error - " + recent.error), 500)
    ensures recent.Ok? ==> r.code == 200 && r.body.TxList? && |r.body.items| == |recent.value|
    ensures recent.Ok? ==> forall i :: 0 <= i < |recent.value| ==>
              var a := recent.value[i];
              var t := r.body.items[i];
              |t.id| <= IdWidth && |t.id| <= |a.id| && t.id == a.id[..|t.id|] && (|a.id| >= IdWidth ==> |t.id| == IdWidth) &&
              t.kind == a.kind && t.amount == a.amount && t.status == a.status && t.timestamp == a.timestamp &&
              t.details == OrEmpty(a.details)
  {
    if recent.Err? then Reply(ErrorBody("Internal server error - " + recent.error), 500)
    else
      var acts := recent.value;
      Reply(TxList(seq(|acts|, i requires 0 <= i < |acts| =>
        TxJson(PyTake(acts[i].id, IdWidth), acts[i].kind, acts[i].amount, acts[i].status, acts[i].timestamp,
               OrEmpty(acts[i].details)))), 200)
  }

  /** The two `ValueError` checks of the POST branch, in order; `None` means accepted. */
  function Rejection(body: PostBody): (r: Option<string>)
    ensures r.None? <==> body.kind.Some? && body.kind.value in PostTypes && body.amount.Some? && body.amount.value > 0.0
    ensures (body.kind.None? || body.kind.value !in PostTypes) ==> r == Some("Invalid transaction type")
    ensures body.kind.Some? && body.kind.value in PostTypes && !(body.amount.Some? && body.amount.value > 0.0) ==>
              r == Some("Invalid amount")
  {
    var amount := if body.amount.Some? then body.amount.value else 0.0;
    if body.kind.None? || body.kind.value !in PostTypes then Some("Invalid transaction type")
    else if amount <= 0.0 then Some("Invalid amount")
    else None
  }

  /** The user-instance call an accepted POST makes. */
  function CallFor(kind: string, amount: real, details: string): (c: Call)
    requires kind in PostTypes
    ensures kind == "buy" <==> c.BuyDinis?
    ensures kind == "sell" <==> c.SellDinis?
    ensures c.amount == amount
  {
    if kind == "buy" then BuyDinis(amount)
    else if kind == "sell" then SellDinis(amount)
    else AddTransaction(details, amount)
  }

  /**
   * The POST branch: `body` is `None` when there is no request data (the
   * `.get` raises), `outcome` is what the called user method returns or
   * raises, `nowText` is `str(datetime.now())`. Returns the call made, if any.
   */
  function PostReply(body: Option<PostBody>, outcome: Result<string, Raised>, nowText: string): (r: (Option<Call>, Reply))
    ensures body.None? ==> r.0.None? && r.1.code == 500
    ensures body.Some? && Rejection(body.value).Some? ==>
              r == (None, Reply(ErrorBody(Rejection(body.value).value), 400))
    ensures body.Some? && Rejection(body.value).None? ==>
              var b := body.value;
              var details := if b.details.Some? then b.details.value else "";
              r.0 == Some(CallFor(b.kind.value, b.amount.value, details)) &&
              (outcome.Err? && outcome.error.ValueError? ==> r.1 == Reply(ErrorBody(outcome.error.message), 400)) &&
              (outcome.Err? && outcome.error.OtherError? ==> r.1.code == 500) &&
              (outcome.Ok? ==> r.1 == Reply(TxRecord(Posted(outcome.value, b.kind.value, b.amount.value,
                                       if b.status.Some? then b.status.value else "pending", nowText, details)), 201))
  {
    if body.None? then (None, Reply(ErrorBody("Internal server error - 'NoneType' object has no attribute 'get'"), 500))
    else
      var b := body.value;
      var rejection := Rejection(b);
      if rejection.Some? then (None, Reply(ErrorBody(rejection.value), 400))
      else
        var details := if b.details.Some? then b.details.value else "";
        var status := if b.status.Some? then b.status.value else "pending";
        var call := CallFor(b.kind.value, b.amount.value, details);
        if outcome.Err? then
          if outcome.error.ValueError? then (Some(call), Reply(ErrorBody(outcome.error.message), 400))
          else (Some(call), Reply(ErrorBody("Internal server error - " + outcome.error.message), 500))
        else (Some(call), Reply(TxRecord(Posted(outcome.value, b.kind.value, b.amount.value, status, nowText, details)), 201))
  }

  /** After a login stores a session nobody else holds, looking that session up finds the user. */
  lemma LoginThenLookup(users: seq<Row>, name: string, s: string)
    requires DistinctNames(users) && ByName(users, name).Some?
    requires forall i :: 0 <= i < |users| ==> users[i].sessionId != Some(s)
    ensures BySession(SetSession(users, name, Some(s)), s) == Some(ByName(users, name).value.(sessionId := Some(s)))
  {
    var row := ByName(users, name).value;
    var j :| 0 <= j < |users| && users[j] == row;
    ByNameAt(users, name, j);
    BySessionAt(SetSession(users, name, Some(s)), s, j);
  }

  /** A logged-out session is no longer found. */
  lemma LogoutThenLookup(users: seq<Row>, s: string)
    ensures BySession(ClearSession(users, s), s) == None
  {
  }

  /** After registration the new name is found, with its password and session. */
  lemma RegisterThenLookup(users: seq<Row>, name: string, password: string, s: string)
    requires ByName(users, name).None?
    ensures ByName(users + [Row(name, password, Some(s))], name) == Some(Row(name, password, Some(s)))
    ensures DistinctNames(users) ==> DistinctNames(users + [Row(name, password, Some(s))])
  {
    ByNameAt(users + [Row(name, password, Some(s))], name, |users|);
  }

  lemma {:induction false} ByNameAt(users: seq<Row>, name: string, j: nat)
    requires j < |users| && users[j].username == name
    requires forall i :: 0 <= i < j ==> users[i].username != name
    ensures ByName(users, name) == Some(users[j])
  {
    if j > 0 {
      ByNameAt(users[1..], name, j - 1);
    }
  }

  lemma {:induction false} BySessionAt(users: seq<Row>, s: string, j: nat)
    requires j < |users| && users[j].sessionId == Some(s)
    requires forall i :: 0 <= i < j ==> users[i].sessionId != Some(s)
    ensures BySession(users, s) == Some(users[j])
  {
    if j > 0 {
      BySessionAt(users[1..], s, j - 1);
    }
  }

  /** `UserManager`: the user table, the global `all_users` registry and the session manager singleton. */
  class UserManager {
    var users: seq<Row>
    var allUsers: Items<string, UserInstance>
    const sessions: UserSessionManager

    predicate Valid()
      reads this, sessions
    {
      sessions.Valid() && DistinctKeys(allUsers) && DistinctNames(users)
    }

    constructor (users: seq<Row>, sessions: UserSessionManager)
      requires DistinctNames(users) && sessions.Valid()
      ensures Valid()
      ensures this.users == users && allUsers == [] && this.sessions == sessions
    {
      this.users := users;
      allUsers := [];
      this.sessions := sessions;
    }

    /**
     * The session part of `handle_transactions`: an active session first,
     * else the user table and the registry (creating and registering the
     * instance on a miss), then the session is added to the manager.
     */
    method ResolveUser(sessionId: string, now: real, freshHandle: nat) returns (u: Option<UserInstance>)
      requires Valid()
      modifies this, sessions
      ensures Valid()
      ensures users == old(users) && sessions.cleanedUp == old(sessions.cleanedUp)
      ensures HasKey(old(sessions.activeUsers), sessionId) ==>
                var inst := Get(old(sessions.activeUsers), sessionId).value.0;
                u == Some(inst) && allUsers == old(allUsers) &&
                sessions.activeUsers == Put(old(sessions.activeUsers), sessionId, (inst, now))
      ensures !HasKey(old(sessions.activeUsers), sessionId) && BySession(users, sessionId).None? ==>
                u == None && allUsers == old(allUsers) && sessions.activeUsers == old(sessions.activeUsers)
      ensures !HasKey(old(sessions.activeUsers), sessionId) && BySession(users, sessionId).Some? ==>
                var name := BySession(users, sessionId).value.username;
                var known := Get(old(allUsers), name);
                var inst := if known.Some? then known.value else UserInstance(freshHandle, name);
                u == Some(inst) &&
                allUsers == (if known.Some? then old(allUsers) else Put(old(allUsers), name, inst)) &&
                sessions.activeUsers == Put(old(sessions.activeUsers), sessionId, (inst, now))
      ensures u.Some? ==> HasKey(sessions.activeUsers, sessionId)
    {
      u := sessions.GetUser(sessionId, now);
      if u.Some? {
        return;
      }
      var row := BySession(users, sessionId);
      if row.None? {
        return None;
      }
      var name := row.value.username;
      var known := Get(allUsers, name);
      var inst: UserInstance;
      if known.Some? {
        inst := known.value;
      } else {
        inst := UserInstance(freshHandle, name);
        PutKeepsDistinct(allUsers, name, inst);
        allUsers := Put(allUsers, name, inst);
      }
      sessions.AddUser(sessionId, inst, now);
      u := Some(inst);
    }

    /**
     * `handle_transactions`: 401 for a session nobody knows, then the GET or
     * POST branch; any other method gets no reply (`None`).
     */
    method HandleTransactions(sessionId: string, httpMethod: string, body: Option<PostBody>,
                              recent: Result<seq<Action>, string>, outcome: Result<string, Raised>,
                              nowText: string, now: real, freshHandle: nat)
      returns (reply: Option<Reply>, call: Option<Call>)
      requires Valid()
      modifies this, sessions
      ensures Valid() && users == old(users) && sessions.cleanedUp == old(sessions.cleanedUp)
      ensures HasKey(old(sessions.activeUsers), sessionId) ==>
                var inst := Get(old(sessions.activeUsers), sessionId).value.0;
                allUsers == old(allUsers) &&
                sessions.activeUsers == Put(old(sessions.activeUsers), sessionId, (inst, now))
      ensures !HasKey(old(sessions.activeUsers), sessionId) && BySession(users, sessionId).Some? ==>
                var name := BySession(users, sessionId).value.username;
                var known := Get(old(allUsers), name);
                var inst := if known.Some? then known.value else UserInstance(freshHandle, name);
                allUsers == (if known.Some? then old(allUsers) else Put(old(allUsers), name, inst)) &&
                sessions.activeUsers == Put(old(sessions.activeUsers), sessionId, (inst, now))
      ensures !HasKey(old(sessions.activeUsers), sessionId) && BySession(users, sessionId).None? ==>
                reply == Some(Reply(ErrorBody("Invalid session"), 401)) && call == None &&
                allUsers == old(allUsers) && sessions.activeUsers == old(sessions.activeUsers)
      ensures HasKey(old(sessions.activeUsers), sessionId) || BySession(users, sessionId).Some? ==>
                HasKey(sessions.activeUsers, sessionId) &&
                (httpMethod == "GET" ==> reply == Some(ListReply(recent)) && call == None) &&
                (httpMethod == "POST" ==> reply == Some(PostReply(body, outcome, nowText).1) &&
                                          call == PostReply(body, outcome, nowText).0) &&
                (httpMethod != "GET" && httpMethod != "POST" ==> reply == None && call == None)
    {
      var u := ResolveUser(sessionId, now, freshHandle);
      if u.None? {
        return Some(Reply(ErrorBody("Invalid session"), 401)), None;
      }
      if httpMethod == "GET" {
        return Some(ListReply(recent)), None;
      } else if httpMethod == "POST" {
        var r := PostReply(body, outcome, nowText);
        return Some(r.1), r.0;
      }
      return None, None;
    }

    /** `create_user`: 400 for a taken name, else insert the row and register an instance. */
    method CreateUser(username: string, password: string, freshSession: string, insertOk: bool, freshHandle: nat)
      returns (reply: Reply)
      requires Valid()
      modifies this
      ensures Valid()
      ensures ByName(old(users), username).Some? ==>
                reply == Reply(ErrorBody("Username already exists"), 400) &&
                users == old(users) && allUsers == old(allUsers)
      ensures ByName(old(users), username).None? && insertOk ==>
                reply == Reply(SessionBody("Registration successful", freshSession), 201) &&
                users == old(users) + [Row(username, password, Some(freshSession))] &&
                allUsers == Put(old(allUsers), username, UserInstance(freshHandle, username))
      ensures ByName(old(users), username).None? && !insertOk ==>
                reply == Reply(ErrorBody("Registration failed"), 500) &&
                users == old(users) && allUsers == old(allUsers)
    {
      if ByName(users, username).Some? {
        return Reply(ErrorBody("Username already exists"), 400);
      }
      if !insertOk {
        return Reply(ErrorBody("Registration failed"), 500);
      }
      RegisterThenLookup(users, username, password, freshSession);
      users := users + [Row(username, password, Some(freshSession))];
      var row := ByName(users, username);
      if row.Some? {
        PutKeepsDistinct(allUsers, username, UserInstance(freshHandle, row.value.username));
        allUsers := Put(allUsers, username, UserInstance(freshHandle, row.value.username));
      }
      reply := Reply(SessionBody("Registration successful", freshSession), 201);
    }

    /** `authenticate_user`: 401 and no new session for an unknown name or a wrong password. */
    method AuthenticateUser(username: string, password: string, freshSession: string, updateOk: bool)
      returns (reply: Reply)
      requires Valid()
      modifies this
      ensures Valid() && allUsers == old(allUsers)
      ensures var row := ByName(old(users), username);
        (row.None? || row.value.password != password) ==>
          reply == Reply(ErrorBody("Invalid username or password"), 401) && users == old(users)
      ensures var row := ByName(old(users), username);
        row.Some? && row.value.password == password && updateOk ==>
          reply == Reply(SessionBody("Login successful", freshSession), 200) &&
          users == SetSession(old(users), username, Some(freshSession))
      ensures var row := ByName(old(users), username);
        row.Some? && row.value.password == password && !updateOk ==>
          reply == Reply(ErrorBody("Login failed"), 500) && users == old(users)
    {
      var row := ByName(users, username);
      if row.None? || row.value.password != password {
        return Reply(ErrorBody("Invalid username or password"), 401);
      }
      if !updateOk {
        return Reply(ErrorBody("Login failed"), 500);
      }
      users := SetSession(users, username, Some(freshSession));
      reply := Reply(SessionBody("Login successful", freshSession), 200);
    }

    /** `logout_user`: clear the session column wherever it holds this id. */
    method LogoutUser(sessionId: string, updateOk: bool) returns (reply: Reply)
      requires Valid()
      modifies this
      ensures Valid() && allUsers == old(allUsers)
      ensures sessions.activeUsers == old(sessions.activeUsers)
      ensures updateOk ==> reply == Reply(SessionBody("Logout successful", ""), 200) &&
                           users == ClearSession(old(users), sessionId)
      ensures !updateOk ==> reply == Reply(ErrorBody("Logout failed"), 500) && users == old(users)
    {
      if !updateOk {
        return Reply(ErrorBody("Logout failed"), 500);
      }
      users := ClearSession(users, sessionId);
      reply := Reply(SessionBody("Logout successful", ""), 200);
    }
  }
}
