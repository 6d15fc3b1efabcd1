/**
 * backend/server.js: the Express routes. Each handler normalises its
 * parameters, runs one statement through the provider and turns the outcome
 * into a status and a JSON (or text) body. Writing to the socket is not
 * modelled: a handler's result is the reply it sends, or none.
 */
module Server {
  import opened Basics
  import opened Js
  import opened Db

  /** `req.query.hours`: absent, or the query-string text. */
  function QueryParam(q: Option<string>): Value
  {
    match q
    case None => Undefined
    case Some(s) => Str(s)
  }

  const DefaultHours: real := 8.0

  /** `Number(req.query.hours) || 8`: never NaN and never zero. */
  function NormaliseHours(q: Option<string>): (n: Number)
    ensures n != NaN && n != Finite(0.0)
    ensures n == ToNumber(QueryParam(q)) || n == Finite(DefaultHours)
  {
    var x := ToNumber(QueryParam(q));
    if Truthy(Num(x)) then x else Finite(DefaultHours)
  }

  /** An absent `hours` falls back to 8, and so does one that is not a number. */
  lemma HoursAbsentOrNaN(s: string)
    ensures NormaliseHours(None) == Finite(8.0)
    ensures StringToNumber(s) == NaN ==> NormaliseHours(Some(s)) == Finite(8.0)
  {
  }

  /** An empty or whitespace-only `hours` reads as 0 and falls back to 8. */
  lemma HoursBlank(s: string)
    requires forall k :: 0 <= k < |s| ==> IsWhiteSpace(s[k])
    ensures NormaliseHours(Some(s)) == Finite(8.0)
  {
    BlankIsZero(s);
  }

  /** Any other number passes through unchanged, negative and fractional
      ones included: there is no bounds check. */
  lemma HoursPassThrough(s: string)
    requires StringToNumber(s) != NaN && StringToNumber(s) != Finite(0.0)
    ensures NormaliseHours(Some(s)) == StringToNumber(s)
  {
  }

  /** A whole number of hours written in decimal arrives as that number, and
      "0" as 8. */
  lemma HoursOfNatural(n: nat)
    ensures NormaliseHours(Some(NatToString(n))) == if n == 0 then Finite(8.0) else Finite(n as real)
  {
    NatRoundTrip(n);
  }

  /** "-3" is passed on as -3. */
  lemma HoursNegative()
    ensures NormaliseHours(Some("-3")) == Finite(-3.0)
  {
    TrimUnchanged("-3");
    MinusThree();
    assert StringToNumber("-3") == Finite(-3.0);
  }

  lemma MinusThree()
    ensures LiteralToNumber("-3") == Finite(-3.0)
  {
    assert "-3"[1..] == "3";
    DigitsDecimal("3");
    assert SignedDecimal("-3") == Finite(-3.0);
  }

  /** "1.5" is passed on as 1.5. */
  lemma HoursFractional()
    ensures NormaliseHours(Some("1.5")) == Finite(1.5)
  {
    OnePointFive();
    TrimUnchanged("1.5");
    DecimalLiteral("1.5", 1.5);
    HoursPassThrough("1.5");
  }

  lemma OnePointFive()
    ensures UnsignedDecimal("1.5") == Some(1.5)
  {
    PointDecimal("1", "5");
    assert "1" + ("." + "5") == "1.5";
    assert DigitsValue("1") == 1 && DigitsValue("5") == 5 && Pow10(1) == 10;
    assert DecimalValue("1", "5") == 1.5;
  }

  // ---------------------------------------------------------------------------
  // Replies

  /** What `res.json(…)` or `res.send(…)` carries. */
  datatype Body =
    | RowArray(rows: Rows)                           // res.json(rows)
    | Text(text: string)                             // res.send("DB error")
    | Message(success: bool, message: string)        // { success, message }
    | RowsEnvelope(success: bool, key: string, rows: Rows)  // { success: true, <key>: rows }

  datatype Reply = Reply(status: int, body: Body)

  /** A handler replies, or never replies (an awaited step never settles, or
      the handler throws outside its try block). */
  datatype Handled = Replied(reply: Reply) | NoReply

  /** The envelope of summary, trend, long-running and terminated: the bare
      rows, or 500 "DB error". */
  function RowsReply(r: Call<Rows>): (h: Handled)
    ensures r.Returned? ==> h == Replied(Reply(200, RowArray(r.value)))
    ensures r.Threw? ==> h == Replied(Reply(500, Text("DB error")))
    ensures r.Hangs? ==> h == NoReply
  {
    match r
    case Returned(rows) => Replied(Reply(200, RowArray(rows)))
    case Threw(_) => Replied(Reply(500, Text("DB error")))
    case Hangs => NoReply
  }

  /** The outcome of validating the body's `query`. */
  datatype QueryCheck = Missing | NotAString | Sql(text: string)

  /** `if (!query || query.trim() === "")`; a truthy non-string makes `trim`
      throw a TypeError. */
  function ValidateQuery(query: Value): QueryCheck
  {
    if !Truthy(query) then Missing
    else if !query.Str? then NotAString
    else if Trim(query.s) == "" then Missing
    else Sql(query.s)
  }

  /** The query is refused with 400 exactly when it is absent or falsy or a
      string of whitespace only; an accepted query is sent as written,
      untrimmed. */
  lemma ValidateQueryIff(query: Value)
    ensures ValidateQuery(query) == Missing <==>
      !Truthy(query) || (query.Str? && forall k :: 0 <= k < |query.s| ==> IsWhiteSpace(query.s[k]))
    ensures ValidateQuery(query).Sql? ==> query == Str(ValidateQuery(query).text)
  {
    if query.Str? {
      TrimEmptyIff(query.s);
    }
  }

  const QueryRequired: string := "SQL query is required"

  /** The envelope of /api/run-query. */
  function RunQueryReply(r: Call<Rows>): (h: Handled)
    ensures r.Returned? ==> h == Replied(Reply(200, RowsEnvelope(true, "rows", r.value)))
    ensures r.Threw? ==> h == Replied(Reply(500, Message(false, r.message)))
    ensures r.Hangs? ==> h == NoReply
  {
    match r
    case Returned(rows) => Replied(Reply(200, RowsEnvelope(true, "rows", rows)))
    case Threw(m) => Replied(Reply(500, Message(false, m)))
    case Hangs => NoReply
  }

  // ---------------------------------------------------------------------------
  // Handlers

  /** GET /api/test-connection: connect, close, report. */
  method TestConnection(p: Provider, tunnel: TunnelRun, connect: Outcome) returns (h: Handled)
    requires p.Valid()
    modifies p
    ensures p.Valid()
    ensures p.tunnelReady == ReadyAfter(old(p.tunnelReady), tunnel)
    ensures p.setupCalls == old(p.setupCalls) + (if SetsUp(old(p.tunnelReady)) then 1 else 0)
    ensures match ConnectResult(old(p.tunnelReady), tunnel, connect)
      case Returned(_) =>
        && h == Replied(Reply(200, Message(true, "Database connection successful!")))
        && |p.connections| == |old(p.connections)| + 1
        && p.connections[..|old(p.connections)|] == old(p.connections)
        && p.connections[|old(p.connections)|].closeCount == 1
        && p.connections[|old(p.connections)|].executed == []
      case Threw(_) =>
        h == Replied(Reply(500, Message(false, "Failed to connect to database."))) && p.connections == old(p.connections)
      case Hangs => h == NoReply && p.connections == old(p.connections)
  {
    var acquired := p.ConnectToDb(tunnel, connect);
    match acquired
    case Hangs =>
      h := NoReply;
    case Threw(_) =>
      h := Replied(Reply(500, Message(false, "Failed to connect to database.")));
    case Returned(c) =>
      c.Close();
      h := Replied(Reply(200, Message(true, "Database connection successful!")));
  }

  /** GET /api/test-db-name. */
  method TestDbName(p: Provider, tunnel: TunnelRun, connect: Outcome, db: Database)
    returns (h: Handled, ghost conn: Option<Connection>)
    requires p.Valid()
    modifies p
    ensures p.Valid()
    ensures h == match QueryResult(old(p.tunnelReady), tunnel, connect, db, DatabaseNameSql, NoBinds)
      case Returned(rows) => Replied(Reply(200, RowsEnvelope(true, "databaseName", rows)))
      case Threw(_) => Replied(Reply(500, Message(false, "Query failed")))
      case Hangs => NoReply
    ensures p.Acquired(old(p.tunnelReady), old(p.setupCalls), old(p.setupSuccesses), old(p.connections), tunnel, connect, conn)
    ensures conn.Some? ==> conn.value.executed == [(DatabaseNameSql, NoBinds)] && conn.value.closeCount == 1
  {
    var r;
    r, conn := p.RunQuery(DatabaseNameSql, NoBinds, tunnel, connect, db);
    match r
    case Returned(rows) =>
      h := Replied(Reply(200, RowsEnvelope(true, "databaseName", rows)));
    case Threw(_) =>
      h := Replied(Reply(500, Message(false, "Query failed")));
    case Hangs =>
      h := NoReply;
  }

  /** GET /api/summary, /api/trend and /api/terminated: one windowed query
      with the normalised `hours` bound. */
  method WindowedRoute(p: Provider, st: Statement, hours: Option<string>,
                       tunnel: TunnelRun, connect: Outcome, db: Database)
    returns (h: Handled, ghost conn: Option<Connection>)
    requires st == SummarySql || st == TrendSql || st == TerminatedSql
    requires p.Valid()
    modifies p
    ensures p.Valid()
    ensures h == RowsReply(QueryResult(old(p.tunnelReady), tunnel, connect, db, st, HoursBind(NormaliseHours(hours))))
    ensures p.Acquired(old(p.tunnelReady), old(p.setupCalls), old(p.setupSuccesses), old(p.connections), tunnel, connect, conn)
    ensures conn.Some? ==> conn.value.executed == [(st, HoursBind(NormaliseHours(hours)))] && conn.value.closeCount == 1
  {
    var r;
    r, conn := p.RunQuery(st, HoursBind(NormaliseHours(hours)), tunnel, connect, db);
    h := RowsReply(r);
  }

  /** GET /api/long-running: no binds at all. */
  method LongRunningRoute(p: Provider, tunnel: TunnelRun, connect: Outcome, db: Database)
    returns (h: Handled, ghost conn: Option<Connection>)
    requires p.Valid()
    modifies p
    ensures p.Valid()
    ensures h == RowsReply(QueryResult(old(p.tunnelReady), tunnel, connect, db, LongRunningSql, NoBinds))
    ensures p.Acquired(old(p.tunnelReady), old(p.setupCalls), old(p.setupSuccesses), old(p.connections), tunnel, connect, conn)
    ensures conn.Some? ==> conn.value.executed == [(LongRunningSql, NoBinds)] && conn.value.closeCount == 1
  {
    var r;
    r, conn := p.RunQuery(LongRunningSql, NoBinds, tunnel, connect, db);
    h := RowsReply(r);
  }

  /** POST /api/run-query. A refused query never reaches the provider. */
  method RunQueryRoute(p: Provider, query: Value, tunnel: TunnelRun, connect: Outcome, db: Database)
    returns (h: Handled, ghost conn: Option<Connection>)
    requires p.Valid()
    modifies p
    ensures p.Valid()
    ensures ValidateQuery(query) == Missing ==>
      h == Replied(Reply(400, Message(false, QueryRequired))) && conn == None
      && p.tunnelReady == old(p.tunnelReady) && p.setupCalls == old(p.setupCalls)
      && p.setupSuccesses == old(p.setupSuccesses) && p.connections == old(p.connections)
    ensures ValidateQuery(query) == NotAString ==>
      h == NoReply && conn == None
      && p.tunnelReady == old(p.tunnelReady) && p.setupCalls == old(p.setupCalls)
      && p.setupSuccesses == old(p.setupSuccesses) && p.connections == old(p.connections)
    ensures ValidateQuery(query).Sql? ==>
      h == RunQueryReply(QueryResult(old(p.tunnelReady), tunnel, connect, db, AdHoc(ValidateQuery(query).text), NoBinds))
      && p.Acquired(old(p.tunnelReady), old(p.setupCalls), old(p.setupSuccesses), old(p.connections), tunnel, connect, conn)
      && (conn.Some? ==> conn.value.executed == [(AdHoc(ValidateQuery(query).text), NoBinds)] && conn.value.closeCount == 1)
  {
    match ValidateQuery(query)
    case Missing =>
      return Replied(Reply(400, Message(false, QueryRequired))), None;
    case NotAString =>
      return NoReply, None;
    case Sql(text) =>
      var r;
      r, conn := p.RunQuery(AdHoc(text), NoBinds, tunnel, connect, db);
      h := RunQueryReply(r);
  }
}
