/**
 * backend/db.js: the connection provider. A module-level `tunnelReady` flag
 * guards a one-time SSH tunnel setup; `connectToDb` opens a fresh Oracle
 * connection through the tunnel's local end; `runQuery` acquires a
 * connection, executes one statement and always closes it.
 *
 * The tunnel, the driver's connect and the database's answer to a statement
 * are not code this model can see: each call receives how they turn out as a
 * parameter. Calls are sequential.
 */
module Db {
  import opened Basics
  import opened Js

  /** The statements the backend sends. */
  datatype Statement =
    | SummarySql | TrendSql | LongRunningSql | TerminatedSql
    | DatabaseNameSql          // `SELECT name FROM v$database`
    | AdHoc(text: string)      // the body of /api/run-query

  /** `runQuery(sql)` binds nothing; the windowed queries bind `{ hours }`. */
  datatype Binds = NoBinds | HoursBind(hours: Number)

  type Rows = seq<Row>

  /** What the database answers to a statement with its binds: the rows, or
      the driver error's message. */
  type Database = (Statement, Binds) -> Result<Rows, string>

  /** A step that may fail with an error message. */
  datatype Outcome = Pass | Fail(message: string)

  // ---------------------------------------------------------------------------
  // The tunnel promise

  /** How far `createSshTunnel` gets. */
  datatype TunnelRun =
    | SetupThrew(message: string) // the executor throws: reading the key file, or the bastion's connect
    | BastionNeverReady           // the bastion never emits "ready"
    | ForwardOutError(message: string)
    | TargetNeverReady            // the target never emits "ready"
    | ListenerBound               // the local server's listen callback ran

  datatype Settlement = Resolved | Rejected(message: string) | Unsettled

  /** The promise resolves in the listen callback. It rejects when the
      executor itself throws (the promise constructor turns that into a
      rejection) and in the bastion forwardOut callback; otherwise it never
      settles. */
  function Settle(run: TunnelRun): (s: Settlement)
    ensures s == Resolved <==> run == ListenerBound
    ensures s.Rejected? <==> run.SetupThrew? || run.ForwardOutError?
    ensures s.Rejected? ==> s.message == run.message
  {
    match run
    case ListenerBound => Resolved
    case SetupThrew(m) => Rejected(m)
    case ForwardOutError(m) => Rejected(m)
    case _ => Unsettled
  }

  // ---------------------------------------------------------------------------
  // The connect descriptor

  /** The environment variables `connectToDb` reads; an unset one is None. */
  datatype Settings = Settings(
    localPort: Option<string>, serviceName: Option<string>,
    user: Option<string>, password: Option<string>)

  /** Interpolation in the connect string's template literal: an unset variable
      reads "undefined". */
  function Interpolate(v: Option<string>): string
  {
    v.GetOr("undefined")
  }

  const TunnelHost: string := "127.0.0.1"

  datatype Descriptor = Descriptor(host: string, port: string, serviceName: string)

  /** Every connection goes to the tunnel's local end. */
  function DescriptorOf(s: Settings): (d: Descriptor)
    ensures d.host == TunnelHost
  {
    Descriptor(TunnelHost, Interpolate(s.localPort), Interpolate(s.serviceName))
  }

  const DescriptionHead: string := "(DESCRIPTION=\n  (ADDRESS=(PROTOCOL=TCP)(HOST="
  const PortHead: string := ")(PORT="
  const ServiceHead: string := "))\n  (CONNECT_DATA=(SERVICE_NAME="
  const DescriptionTail: string := "))\n)"

  /** The `connectString` template. */
  function ConnectString(d: Descriptor): string
  {
    DescriptionHead + (d.host + (PortHead + (d.port + (ServiceHead + (d.serviceName + DescriptionTail)))))
  }

  /** The text of s before its first c (all of s when c does not occur). */
  function UpTo(s: string, c: char): (r: string)
    ensures |r| <= |s| && r == s[..|r|] && c !in r
  {
    if s == [] || s[0] == c then [] else [s[0]] + UpTo(s[1..], c)
  }

  lemma {:induction false} UpToAppend(a: string, b: string, c: char)
    requires c !in a && b != [] && b[0] == c
    ensures UpTo(a + b, c) == a
  {
    if a != [] {
      assert (a + b)[1..] == a[1..] + b;
      UpToAppend(a[1..], b, c);
    } else {
      assert a + b == b;
    }
  }

  /** Reads `head`, then a value up to the next ')': the value and what follows it. */
  function Field(text: string, head: string): Option<(string, string)>
  {
    if |text| < |head| || text[..|head|] != head then None
    else
      var value := UpTo(text[|head|..], ')');
      Some((value, text[|head| + |value|..]))
  }

  lemma FieldOf(head: string, value: string, rest: string)
    requires ')' !in value && rest != [] && rest[0] == ')'
    ensures Field(head + (value + rest), head) == Some((value, rest))
  {
    var text := head + (value + rest);
    assert text[..|head|] == head;
    assert text[|head|..] == value + rest;
    UpToAppend(value, rest, ')');
    assert text[|head| + |value|..] == rest;
  }

  /** Reads host, port and service name back out of a connect string. */
  function ParseConnectString(text: string): Option<Descriptor>
  {
    match Field(text, DescriptionHead)
    case None => None
    case Some((host, afterHost)) =>
      match Field(afterHost, PortHead)
      case None => None
      case Some((port, afterPort)) =>
        match Field(afterPort, ServiceHead)
        case None => None
        case Some((service, _)) => Some(Descriptor(host, port, service))
  }

  /** The connect string names exactly the descriptor's host, port and
      service, provided none of them contains ')'. */
  lemma ConnectStringRoundTrip(d: Descriptor)
    requires ')' !in d.host && ')' !in d.port && ')' !in d.serviceName
    ensures ParseConnectString(ConnectString(d)) == Some(d)
  {
    var e := ServiceHead + (d.serviceName + DescriptionTail);
    var c := PortHead + (d.port + e);
    assert PortHead[0] == ')' && ServiceHead[0] == ')' && DescriptionTail[0] == ')';
    FieldOf(DescriptionHead, d.host, c);
    FieldOf(PortHead, d.port, e);
    FieldOf(ServiceHead, d.serviceName, DescriptionTail);
  }

  /** The connect string built from the settings names host 127.0.0.1, the
      LOCAL_PORT text as port and the DB_SERVICE_NAME text as service, an
      unset variable reading "undefined"; provided neither contains ')'. */
  lemma SettingsConnectString(s: Settings)
    requires ')' !in Interpolate(s.localPort) && ')' !in Interpolate(s.serviceName)
    ensures ParseConnectString(ConnectString(DescriptorOf(s)))
      == Some(Descriptor("127.0.0.1", Interpolate(s.localPort), Interpolate(s.serviceName)))
    ensures s.localPort == None ==> ParseConnectString(ConnectString(DescriptorOf(s))).value.port == "undefined"
  {
    assert ')' !in TunnelHost;
    ConnectStringRoundTrip(DescriptorOf(s));
  }

  // ---------------------------------------------------------------------------
  // Reference outcomes of one call

  /** A call that returns, throws (rejects with a message) or never completes. */
  datatype Call<T> = Returned(value: T) | Threw(message: string) | Hangs

  /** Whether `connectToDb` runs the tunnel setup. */
  predicate SetsUp(ready: bool) { !ready }

  /** `tunnelReady` after one `connectToDb`. */
  function ReadyAfter(ready: bool, tunnel: TunnelRun): bool
  {
    ready || Settle(tunnel) == Resolved
  }

  /** How one `connectToDb` ends: the awaited tunnel (only when not ready)
      can throw or never settle; then the driver connect can throw. */
  function ConnectResult(ready: bool, tunnel: TunnelRun, connect: Outcome): Call<()>
  {
    if SetsUp(ready) && Settle(tunnel) == Unsettled then Hangs
    else if SetsUp(ready) && Settle(tunnel).Rejected? then Threw(Settle(tunnel).message)
    else if connect.Fail? then Threw(connect.message)
    else Returned(())
  }

  /** How one `runQuery` ends: a failed acquire propagates, otherwise the
      statement's rows or the driver's error. */
  function QueryResult(ready: bool, tunnel: TunnelRun, connect: Outcome,
                       db: Database, st: Statement, b: Binds): Call<Rows>
  {
    match ConnectResult(ready, tunnel, connect)
    case Hangs => Hangs
    case Threw(m) => Threw(m)
    case Returned(_) =>
      match db(st, b)
      case Success(rows) => Returned(rows)
      case Failure(m) => Threw(m)
  }

  /** A tunnel that is ready stays ready; once ready the tunnel is never
      consulted again. */
  lemma ReadyIsStable(tunnel: TunnelRun, connect: Outcome)
    ensures ReadyAfter(true, tunnel)
    ensures ConnectResult(true, tunnel, connect) == ConnectResult(true, ListenerBound, connect)
  {
  }

  /** Setups run by a sequence of completed `connectToDb` calls whose
      tunnel attempts (when made) turn out as `tunnels` says. Each step adds
      what one `Provider.ConnectToDb` call adds to `setupCalls` by its
      ensures, and passes on the `tunnelReady` it leaves. */
  function SetupsRun(ready: bool, tunnels: seq<TunnelRun>): nat
    decreases |tunnels|
  {
    if tunnels == [] then 0
    else (if SetsUp(ready) then 1 else 0) + SetupsRun(ReadyAfter(ready, tunnels[0]), tunnels[1..])
  }

  /** Successful setups in the same sequence: per call, what
      `Provider.ConnectToDb` adds to `setupSuccesses`. */
  function SetupSuccesses(ready: bool, tunnels: seq<TunnelRun>): nat
    decreases |tunnels|
  {
    if tunnels == [] then 0
    else (if SetsUp(ready) && Settle(tunnels[0]) == Resolved then 1 else 0)
         + SetupSuccesses(ReadyAfter(ready, tunnels[0]), tunnels[1..])
  }

  /** Index of the first tunnel run that resolves, or |tunnels| if none does. */
  function FirstResolved(tunnels: seq<TunnelRun>): (i: nat)
    ensures i <= |tunnels|
    ensures forall k :: 0 <= k < i ==> tunnels[k] != ListenerBound
    ensures i < |tunnels| ==> tunnels[i] == ListenerBound
  {
    if tunnels == [] || tunnels[0] == ListenerBound then 0 else 1 + FirstResolved(tunnels[1..])
  }

  /** Starting from a fresh process, the calls up to and including the first
      resolving tunnel each run the setup, later calls never do, and the setup
      succeeds at most once. */
  lemma {:induction false} SetupAtMostOnce(tunnels: seq<TunnelRun>)
    ensures SetupsRun(false, tunnels) == if FirstResolved(tunnels) < |tunnels| then FirstResolved(tunnels) + 1 else |tunnels|
    ensures SetupSuccesses(false, tunnels) == if FirstResolved(tunnels) < |tunnels| then 1 else 0
  {
    if tunnels != [] {
      if tunnels[0] == ListenerBound {
        NoSetupWhenReady(tunnels[1..]);
      } else {
        SetupAtMostOnce(tunnels[1..]);
      }
    }
  }

  lemma {:induction false} NoSetupWhenReady(tunnels: seq<TunnelRun>)
    ensures SetupsRun(true, tunnels) == 0 && SetupSuccesses(true, tunnels) == 0
  {
    if tunnels != [] {
      NoSetupWhenReady(tunnels[1..]);
    }
  }

  // ---------------------------------------------------------------------------
  // Connections and the provider

  /** An oracledb connection: the credentials it was opened with (passed
      through as read, so an unset variable is None, not text), which
      statements it executed, how often it was closed. */
  class Connection {
    const descriptor: Descriptor
    const user: Option<string>
    const password: Option<string>
    var executed: seq<(Statement, Binds)>
    var closeCount: nat

    constructor(descriptor: Descriptor, user: Option<string>, password: Option<string>)
      ensures this.descriptor == descriptor && this.user == user && this.password == password
      ensures executed == [] && closeCount == 0
    {
      this.descriptor := descriptor;
      this.user := user;
      this.password := password;
      executed := [];
      closeCount := 0;
    }

    /** `connection.execute(sql, binds)`: the database's answer. */
    method Execute(db: Database, st: Statement, b: Binds) returns (r: Result<Rows, string>)
      modifies this
      ensures r == db(st, b)
      ensures executed == old(executed) + [(st, b)] && closeCount == old(closeCount)
    {
      executed := executed + [(st, b)];
      r := db(st, b);
    }

    /** `connection.close()`. */
    method Close()
      modifies this
      ensures closeCount == old(closeCount) + 1 && executed == old(executed)
    {
      closeCount := closeCount + 1;
    }

    /** `try { execute } finally { close }`: the connection is closed whether
        the statement succeeds or fails. */
    method ExecuteThenClose(db: Database, st: Statement, b: Binds) returns (r: Result<Rows, string>)
      modifies this
      ensures r == db(st, b)
      ensures executed == old(executed) + [(st, b)] && closeCount == old(closeCount) + 1
    {
      r := Execute(db, st, b);
      Close();
    }
  }

  class Provider {
    const settings: Settings
    /** `let tunnelReady`. */
    var tunnelReady: bool
    /** Calls of `createSshTunnel` so far, and how many of them resolved. */
    var setupCalls: nat
    var setupSuccesses: nat
    /** Every connection `connectToDb` has handed out, in order. */
    var connections: seq<Connection>

    /** The flag is set exactly when one setup has resolved, and at most one ever does. */
    ghost predicate Valid()
      reads this
    {
      setupSuccesses <= 1 && (tunnelReady <==> setupSuccesses == 1) && setupSuccesses <= setupCalls
    }

    /** What acquiring one connection did to the provider, given its state
        before: `conn` is the connection handed out, when `connectToDb`
        returned one, and the setup counters grew as that call's setup ran
        and resolved. */
    ghost predicate Acquired(ready0: bool, calls0: nat, successes0: nat, connections0: seq<Connection>,
                             tunnel: TunnelRun, connect: Outcome, conn: Option<Connection>)
      reads this
    {
      && (conn.Some? <==> ConnectResult(ready0, tunnel, connect).Returned?)
      && tunnelReady == ReadyAfter(ready0, tunnel)
      && setupCalls == calls0 + (if SetsUp(ready0) then 1 else 0)
      && setupSuccesses == successes0 + (if SetsUp(ready0) && Settle(tunnel) == Resolved then 1 else 0)
      && connections == connections0 + (if conn.Some? then [conn.value] else [])
    }

    /** Module load: `tunnelReady` starts false. */
    constructor(settings: Settings)
      ensures Valid()
      ensures this.settings == settings
      ensures !tunnelReady && setupCalls == 0 && setupSuccesses == 0 && connections == []
    {
      this.settings := settings;
      tunnelReady := false;
      setupCalls := 0;
      setupSuccesses := 0;
      connections := [];
    }

    /** `connectToDb()`. */
    method ConnectToDb(tunnel: TunnelRun, connect: Outcome) returns (r: Call<Connection>)
      requires Valid()
      modifies this
      ensures Valid()
      ensures setupCalls == old(setupCalls) + (if SetsUp(old(tunnelReady)) then 1 else 0)
      ensures setupSuccesses == old(setupSuccesses) + (if SetsUp(old(tunnelReady)) && Settle(tunnel) == Resolved then 1 else 0)
      ensures tunnelReady == ReadyAfter(old(tunnelReady), tunnel)
      ensures match ConnectResult(old(tunnelReady), tunnel, connect)
        case Returned(_) => r.Returned? && fresh(r.value)
          && r.value.descriptor == DescriptorOf(settings) && r.value.user == settings.user && r.value.password == settings.password
          && r.value.executed == [] && r.value.closeCount == 0
          && connections == old(connections) + [r.value]
        case Threw(m) => r == Threw(m) && connections == old(connections)
        case Hangs => r == Hangs && connections == old(connections)
    {
      if !tunnelReady {
        setupCalls := setupCalls + 1;
        match Settle(tunnel)
        case Unsettled =>
          return Hangs;
        case Rejected(m) =>
          return Threw(m);
        case Resolved =>
          setupSuccesses := setupSuccesses + 1;
          tunnelReady := true;
      }
      if connect.Fail? {
        return Threw(connect.message);
      }
      var c := new Connection(DescriptorOf(settings), settings.user, settings.password);
      connections := connections + [c];
      r := Returned(c);
    }

    /** `runQuery(sql, binds)`: acquire, execute, and close in `finally`. The
        ghost `conn` is the connection acquired, if any. */
    method RunQuery(st: Statement, b: Binds, tunnel: TunnelRun, connect: Outcome, db: Database)
      returns (r: Call<Rows>, ghost conn: Option<Connection>)
      requires Valid()
      modifies this
      ensures Valid()
      ensures Acquired(old(tunnelReady), old(setupCalls), old(setupSuccesses), old(connections), tunnel, connect, conn)
      ensures r == QueryResult(old(tunnelReady), tunnel, connect, db, st, b)
      ensures conn.Some? ==> (fresh(conn.value)
        && conn.value.descriptor == DescriptorOf(settings)
        && conn.value.executed == [(st, b)] && conn.value.closeCount == 1)
      ensures forall c :: c in old(connections) ==> unchanged(c)
    {
      ghost var outcome := ConnectResult(tunnelReady, tunnel, connect);
      ghost var expected := QueryResult(tunnelReady, tunnel, connect, db, st, b);
      var acquired := ConnectToDb(tunnel, connect);
      match acquired
      case Hangs =>
        assert outcome == Hangs && expected == Hangs;
        return Hangs, None;
      case Threw(m) =>
        assert outcome == Threw(m) && expected == Threw(m);
        return Threw(m), None;
      case Returned(c) =>
        assert outcome == Returned(()) && connections == old(connections) + [c];
        assert c.executed == [] && c.closeCount == 0;
        assert forall d :: d in old(connections) ==> d != c;
        var answer := c.ExecuteThenClose(db, st, b);
        conn := Some(c);
        assert Acquired(old(tunnelReady), old(setupCalls), old(setupSuccesses), old(connections), tunnel, connect, conn);
        match answer
        case Success(rows) =>
          assert expected == Returned(rows);
          r := Returned(rows);
        case Failure(m) =>
          assert expected == Threw(m);
          r := Threw(m);
    }
  }
}
