/**
 * The mysqli proxy (Driver/Mysqli/Proxy.php): the lazy connection, the query
 * counter and log, statement preparation and binding, the result-shape
 * getters, the payload filter, and the insert/update builders.
 *
 * The server is an oracle. `Env` holds what the surroundings decide once
 * (the parsed DSN, the outcome of connecting, the escaping routine), and a
 * `Native` record what the server answers for one statement. Each method of
 * `Proxy` updates the fields in place; its contract ties the result and the
 * new fields to a function of the old fields (`State`), and the lemmas at
 * the end state what those functions promise.
 */
module MysqliProxy {
  import opened Php
  import opened Strings
  import Config
  import Retry
  import Shapes
  import Quoting
  import Identifiers
  import SqlBuilder
  import MysqliStatement
  import MysqliValues
  import MysqliFilter

  // ----- connecting -----

  /** The parts of the DSN that `parse_url` yields and `connect` reads. */
  datatype UrlParts = UrlParts(host: Option<string>, user: Option<string>, pass: Option<string>,
                               path: Option<string>, port: Option<int>)

  /** The arguments of `new \Mysqli(host, user, pass, dbname, port, socket)`. */
  datatype Target = Target(host: string, user: string, pass: Option<string>, dbname: string,
                           port: Option<int>, socket: Option<string>)

  /** What the surroundings of one proxy decide. */
  datatype Env = Env(
    url: UrlParts,                     // `parse_url` of the DSN
    server: Target -> (int, string),   // connect_errno and connect_error of a connection attempt
    escaper: string -> string,         // real_escape_string on the open connection
    handlerExists: bool)               // whether the error handler class is loaded

  const DsnIncorrect: string := "Could not connect to database: DSN incorrect"
  const ConnectFailed: string := "Could not connect to database: "

  /** `substr($s, 1)`. */
  function Substr1(s: string): string {
    if s == [] then [] else s[1..]
  }

  /**
   * The connection arguments `connect` derives from the parsed DSN: a host
   * `unix(` names a socket, which runs up to the first `)` of the path; the
   * database name is the path without its first character.
   */
  function TargetOf(url: UrlParts): Result<Target> {
    if url.path.None? || url.host.None? || url.user.None? then Err(ConnectionError(DsnIncorrect))
    else if url.host.value == "unix(" then
      var (socket, rest) := Strtok(url.path.value, {')'});
      var (path, _) := Strtok(rest, {});
      Ok(Target("localhost", url.user.value, url.pass, Substr1(path.GetOr("")), url.port, Some(socket.GetOr(""))))
    else
      Ok(Target(url.host.value, url.user.value, url.pass, Substr1(url.path.value), url.port, None))
  }

  /** The fields of a proxy. */
  datatype State = State(database: Option<Target>, connected: bool, queryCounter: int, queryLog: seq<string>)

  const Initial: State := State(None, false, 0, [])

  /**
   * `connect`: a DSN without path, host or user is refused before any
   * attempt; otherwise the attempt is recorded, and the proxy is connected
   * when the server reports no error.
   */
  function ConnectOn(env: Env, s: State): (Result<bool>, State) {
    match TargetOf(env.url)
    case Err(e) => (Err(e), s)
    case Ok(t) =>
      var (errno, error) := env.server(t);
      if errno != 0 then (Err(ConnectionError(ConnectFailed + error)), s.(database := Some(t)))
      else (Ok(true), s.(database := Some(t), connected := true))
  }

  /** Connecting succeeds for this environment. */
  predicate Reachable(env: Env) {
    TargetOf(env.url).Ok? && env.server(TargetOf(env.url).value).0 == 0
  }

  /** The lazy connect at the start of `get_statement` and `escape`. */
  function ReadyOn(env: Env, s: State): (Result<()>, State) {
    if s.connected then (Ok(()), s)
    else
      var (r, s1) := ConnectOn(env, s);
      (if r.Ok? then Ok(()) else Err(r.error), s1)
  }

  // ----- one statement -----

  /** What the server answers for one statement. */
  datatype Native = Native(
    sqlstate: string,                  // SQLSTATE after prepare
    prepareError: string,              // error text after prepare
    bindFailure: Option<Error>,        // what bind_param throws, if anything
    errno: int,                        // errno after execute
    error: string,                     // error text after execute
    retries: nat -> Retry.Outcome,     // what each re-execution would do
    meta: Option<seq<MysqliStatement.FieldMeta>>,  // result_metadata(): None for no result set
    fetched: seq<seq<Value>>)          // the values of each successful fetch

  /** Every fetch binds one value per result column. */
  predicate Sound(n: Native) {
    MysqliStatement.Fits(n.meta, n.fetched)
  }

  /**
   * The statement `get_statement` returns: the constructor's SQLSTATE check,
   * then (for a non-empty parameter list) the type loop and `bind_param`,
   * whose exceptions come back as Query errors and whose engine errors pass.
   */
  function Prepared(n: Native, params: Row): Result<MysqliValues.Binding> {
    var _ :- MysqliStatement.Construct(n.sqlstate, n.prepareError);
    if |params| == 0 then Ok(MysqliValues.Binding("", []))
    else
      var b :- MysqliValues.Bind(Values(params));
      match n.bindFailure
      case Some(e) => Err(if e.EngineError? then e else QueryError(e.message))
      case None => Ok(b)
  }

  /**
   * `get_statement`: connect if needed, log the query with its parameters
   * filled in, count it, then prepare and bind.
   */
  function StatementOn(env: Env, c: Config.Settings, s: State, query: string, params: Row, n: Native)
    : (Result<MysqliValues.Binding>, State)
  {
    var (ready, s1) := ReadyOn(env, s);
    if ready.Err? then (Err(ready.error), s1)
    else
      var logged := MysqliValues.LogText(query, Values(params));
      if c.queryLog && logged.Err? then (Err(logged.error), s1)
      else
        var s2 := s1.(queryLog := s1.queryLog + (if c.queryLog then [logged.value] else []),
                      queryCounter := s1.queryCounter + (if c.queryCounter then 1 else 0));
        (Prepared(n, params), s2)
  }

  /**
   * `try { execute } catch (Query) { Retry::handle }`: what a call site gets
   * from a statement whose first execute has outcome `first`.
   */
  function Caught(c: Config.Settings, h: bool, first: Retry.Outcome, retries: nat -> Retry.Outcome): Result<Value> {
    match first
    case Succeeded(v) => Ok(v)
    case OtherFailed(e) => Err(e)
    case QueryFailed(errno, error) =>
      match Retry.Handled(c, h, errno, error, retries).0
      case Ok(b) => Ok(VBool(b))
      case Err(e) => Err(e)
  }

  /** The execute step with the statement's own error check. */
  function Executed(c: Config.Settings, h: bool, n: Native): Result<Value> {
    Caught(c, h, MysqliStatement.Execute(n.errno, n.error), n.retries)
  }

  /** A statement that is executed and whose value is returned (`query`, `insert`, `update`). */
  function ExecOn(env: Env, c: Config.Settings, s: State, query: string, params: Row, n: Native)
    : (Result<Value>, State)
  {
    var (b, s1) := StatementOn(env, c, s, query, params, n);
    if b.Err? then (Err(b.error), s1) else (Executed(c, env.handlerExists, n), s1)
  }

  /** A statement that is executed and whose rows are fetched (`get_all` and the getters). */
  function RowsOn(env: Env, c: Config.Settings, s: State, query: string, params: Row, n: Native)
    : (Result<seq<Row>>, State)
    requires Sound(n)
  {
    var (b, s1) := StatementOn(env, c, s, query, params, n);
    if b.Err? then (Err(b.error), s1)
    else match Executed(c, env.handlerExists, n)
      case Err(e) => (Err(e), s1)
      case Ok(_) => (MysqliStatement.DecodeAll(n.meta, n.fetched), s1)
  }

  /** `try { execute } catch (Query) { Retry::handle }`, as a call site runs it. */
  method Perform(c: Config.Settings, h: bool, first: Retry.Outcome, retries: nat -> Retry.Outcome)
    returns (r: Result<Value>)
    ensures r == Caught(c, h, first, retries)
  {
    match first
    case Succeeded(v) =>
      r := Ok(v);
    case OtherFailed(e) =>
      r := Err(e);
    case QueryFailed(errno, error) =>
      var handled, _ := Retry.Handle(c, h, errno, error, retries);
      r := match handled
        case Ok(b) => Ok(VBool(b))
        case Err(e) => Err(e);
  }

  // ----- payloads and generated SQL -----

  function DescQuery(table: string): string {
    "DESC " + Identifiers.MysqlIdentifier(table)
  }

  /**
   * `filter_table_data`: with every correction off the payload comes back
   * untouched and no statement is issued; otherwise the table is described
   * first and the corrections run over its fields.
   */
  function FilterOn(env: Env, c: Config.Settings, s: State, table: string, data: Row, desc: Native)
    : (Result<Row>, State)
    requires Sound(desc)
  {
    if !Config.Corrects(c) then (Ok(data), s)
    else
      var (rows, s1) := RowsOn(env, c, s, DescQuery(table), [], desc);
      if rows.Err? then (Err(rows.error), s1)
      else (MysqliFilter.Filtered(c, MysqliFilter.DescribeAll(rows.value), data), s1)
  }

  function InsertQuery(table: string, params: Row): string {
    SqlBuilder.InsertText(Identifiers.MysqlIdentifier(table),
                          SqlBuilder.QuoteAll(Identifiers.MysqlIdentifier, Keys(params)), |params|)
  }

  function UpdateQuery(table: string, params: Row, where: string): string {
    SqlBuilder.UpdateText(Identifiers.MysqlIdentifier(table),
                          SqlBuilder.QuoteAll(Identifiers.MysqlIdentifier, Keys(params)), where)
  }

  /** `insert`: filter the payload, then one statement over the filtered parameters. */
  function InsertOn(env: Env, c: Config.Settings, s: State, table: string, params: Row, desc: Native, n: Native)
    : (Result<Value>, State)
    requires Sound(desc)
  {
    var (f, s1) := FilterOn(env, c, s, table, params, desc);
    if f.Err? then (Err(f.error), s1)
    else ExecOn(env, c, s1, InsertQuery(table, f.value), f.value, n)
  }

  /** `update`: filter the payload, then one statement over the filtered parameters. */
  function UpdateOn(env: Env, c: Config.Settings, s: State, table: string, params: Row, where: string,
                    desc: Native, n: Native): (Result<Value>, State)
    requires Sound(desc)
  {
    var (f, s1) := FilterOn(env, c, s, table, params, desc);
    if f.Err? then (Err(f.error), s1)
    else ExecOn(env, c, s1, UpdateQuery(table, f.value, where), f.value, n)
  }

  /** `quote`: connects first when some part of the value reaches the escaping routine. */
  function QuoteOn(env: Env, s: State, v: Value, quotes: bool, numeric: string -> bool): (Result<Value>, State) {
    if !s.connected && Quoting.ReachesEscape(v, numeric) then
      var (ready, s1) := ReadyOn(env, s);
      if ready.Err? then (Err(ready.error), s1)
      else (Quoting.Quote(v, quotes, numeric, env.escaper), s1)
    else (Quoting.Quote(v, quotes, numeric, env.escaper), s)
  }

  /** `escape`: connects first when the value holds any scalar. */
  function EscapeOn(env: Env, s: State, v: Value): (Result<Value>, State) {
    if !s.connected && Quoting.HasScalar(v) then
      var (ready, s1) := ReadyOn(env, s);
      if ready.Err? then (Err(ready.error), s1)
      else (Quoting.Escape(v, env.escaper), s1)
    else (Quoting.Escape(v, env.escaper), s)
  }

  const LockQuery: string := "SELECT GET_LOCK(?, ?)"
  const UnlockQuery: string := "SELECT RELEASE_LOCK(?)"
  const LockFailed: string := "Could not get a lock on the database"

  /** The value of a `get_one`, null when there is no row. */
  function OneOrNull(o: Option<Value>): Value {
    o.GetOr(VNull)
  }

  /** The `Field` of a DESC row; a missing one reads as null. */
  function FieldOf(row: Row): Value {
    Get(row, "Field").GetOr(VNull)
  }

  /** The `foreach` of `get_columns`: the `Field` of each definition row, in order. */
  method FieldsOf(defs: seq<Row>) returns (columns: seq<Value>)
    ensures |columns| == |defs|
    ensures forall i :: 0 <= i < |defs| ==> columns[i] == FieldOf(defs[i])
  {
    columns := [];
    var i := 0;
    while i < |defs|
      invariant 0 <= i <= |defs| && |columns| == i
      invariant forall j :: 0 <= j < i ==> columns[j] == FieldOf(defs[j])
    {
      columns := columns + [FieldOf(defs[i])];
      i := i + 1;
    }
  }

  class Proxy {
    const env: Env
    var database: Option<Target>
    var connected: bool
    var queryCounter: int
    var queryLog: seq<string>

    function Snapshot(): State
      reads this
    {
      State(database, connected, queryCounter, queryLog)
    }

    /** The constructor only records the DSN; it does not connect. */
    constructor(env: Env)
      ensures this.env == env && Snapshot() == Initial
    {
      this.env := env;
      database := None;
      connected := false;
      queryCounter := 0;
      queryLog := [];
    }

    method Connect() returns (r: Result<bool>)
      modifies this
      ensures (r, Snapshot()) == ConnectOn(env, old(Snapshot()))
    {
      var t := TargetOf(env.url);
      if t.Err? {
        return Err(t.error);
      }
      var (errno, error) := env.server(t.value);
      database := Some(t.value);
      if errno != 0 {
        return Err(ConnectionError(ConnectFailed + error));
      }
      connected := true;
      return Ok(true);
    }

    method EnsureConnected() returns (r: Result<()>)
      modifies this
      ensures (r, Snapshot()) == ReadyOn(env, old(Snapshot()))
    {
      if connected {
        return Ok(());
      }
      var c := Connect();
      r := if c.Ok? then Ok(()) else Err(c.error);
    }

    method Quote(v: Value, quotes: bool, numeric: string -> bool) returns (r: Result<Value>)
      modifies this
      ensures (r, Snapshot()) == QuoteOn(env, old(Snapshot()), v, quotes, numeric)
    {
      if !connected && Quoting.ReachesEscape(v, numeric) {
        var ready := EnsureConnected();
        if ready.Err? {
          return Err(ready.error);
        }
      }
      r := Quoting.Quote(v, quotes, numeric, env.escaper);
    }

    method Escape(v: Value) returns (r: Result<Value>)
      modifies this
      ensures (r, Snapshot()) == EscapeOn(env, old(Snapshot()), v)
    {
      if !connected && Quoting.HasScalar(v) {
        var ready := EnsureConnected();
        if ready.Err? {
          return Err(ready.error);
        }
      }
      r := Quoting.Escape(v, env.escaper);
    }

    method GetStatement(c: Config.Settings, query: string, params: Row, n: Native)
      returns (r: Result<MysqliValues.Binding>)
      modifies this
      ensures (r, Snapshot()) == StatementOn(env, c, old(Snapshot()), query, params, n)
    {
      var ready := EnsureConnected();
      if ready.Err? {
        return Err(ready.error);
      }
      ghost var mid := Snapshot();
      var logged := MysqliValues.LogText(query, Values(params));
      if c.queryLog {
        if logged.Err? {
          return Err(logged.error);
        }
        queryLog := queryLog + [logged.value];
      }
      if c.queryCounter {
        queryCounter := queryCounter + 1;
      }
      assert Snapshot() == mid.(queryLog := mid.queryLog + (if c.queryLog then [logged.value] else []),
                                queryCounter := mid.queryCounter + (if c.queryCounter then 1 else 0));
      assert StatementOn(env, c, old(Snapshot()), query, params, n) == (Prepared(n, params), Snapshot());
      var made := MysqliStatement.Construct(n.sqlstate, n.prepareError);
      if made.Err? {
        return Err(made.error);
      }
      if |params| == 0 {
        return Ok(MysqliValues.Binding("", []));
      }
      var b := MysqliValues.BindTypes(Values(params));
      if b.Err? {
        return Err(b.error);
      }
      if n.bindFailure.Some? {
        var e := n.bindFailure.value;
        return Err(if e.EngineError? then e else QueryError(e.message));
      }
      return Ok(b.value);
    }

    method Query(c: Config.Settings, query: string, params: Row, n: Native) returns (r: Result<Value>)
      modifies this
      ensures (r, Snapshot()) == ExecOn(env, c, old(Snapshot()), query, params, n)
    {
      var b := GetStatement(c, query, params, n);
      if b.Err? {
        return Err(b.error);
      }
      r := Perform(c, env.handlerExists, MysqliStatement.Execute(n.errno, n.error), n.retries);
    }

    method GetAll(c: Config.Settings, query: string, params: Row, n: Native) returns (r: Result<seq<Row>>)
      requires Sound(n)
      modifies this
      ensures (r, Snapshot()) == RowsOn(env, c, old(Snapshot()), query, params, n)
    {
      var b := GetStatement(c, query, params, n);
      if b.Err? {
        return Err(b.error);
      }
      var e := Perform(c, env.handlerExists, MysqliStatement.Execute(n.errno, n.error), n.retries);
      if e.Err? {
        return Err(e.error);
      }
      r := MysqliStatement.FetchAssoc(n.meta, n.fetched);
    }

    method GetRow(c: Config.Settings, query: string, params: Row, n: Native) returns (r: Result<Option<Row>>)
      requires Sound(n)
      modifies this
      ensures var (rows, s') := RowsOn(env, c, old(Snapshot()), query, params, n);
              && Snapshot() == s'
              && r == if rows.Err? then Err(rows.error) else Shapes.SingleRow(Shapes.QueryException, rows.value)
    {
      var rows := GetAll(c, query, params, n);
      if rows.Err? {
        return Err(rows.error);
      }
      r := Shapes.SingleRow(Shapes.QueryException, rows.value);
    }

    method GetOne(c: Config.Settings, query: string, params: Row, n: Native) returns (r: Result<Option<Value>>)
      requires Sound(n)
      modifies this
      ensures var (rows, s') := RowsOn(env, c, old(Snapshot()), query, params, n);
              && Snapshot() == s'
              && r == if rows.Err? then Err(rows.error) else Shapes.SingleValue(Shapes.QueryException, rows.value)
    {
      var rows := GetAll(c, query, params, n);
      if rows.Err? {
        return Err(rows.error);
      }
      r := Shapes.SingleValue(Shapes.QueryException, rows.value);
    }

    method GetColumn(c: Config.Settings, query: string, params: Row, n: Native) returns (r: Result<seq<Value>>)
      requires Sound(n)
      modifies this
      ensures var (rows, s') := RowsOn(env, c, old(Snapshot()), query, params, n);
              && Snapshot() == s'
              && (rows.Err? ==> r == Err(rows.error))
              && (rows.Ok? ==> (r.Err? <==> |rows.value| > 0 && |rows.value[0]| != 1))
              && (rows.Ok? && r.Err? ==> r.error == QueryError(Shapes.TooManyColumns))
              && (rows.Ok? && r.Ok? ==> (|r.value| == |rows.value| &&
                  forall i :: 0 <= i < |rows.value| ==> r.value[i] == Shapes.Shift(rows.value[i])))
    {
      var rows := GetAll(c, query, params, n);
      if rows.Err? {
        return Err(rows.error);
      }
      r := Shapes.FirstColumn(Shapes.QueryException, rows.value);
    }

    method GetTables(c: Config.Settings, n: Native) returns (r: Result<seq<Value>>)
      requires Sound(n)
      modifies this
      ensures var (rows, s') := RowsOn(env, c, old(Snapshot()), "SHOW TABLES", [], n);
              && Snapshot() == s'
              && (rows.Err? ==> r == Err(rows.error))
              && (rows.Ok? ==> (r.Err? <==> |rows.value| > 0 && |rows.value[0]| != 1))
              && (rows.Ok? && r.Err? ==> r.error == QueryError(Shapes.TooManyColumns))
              && (rows.Ok? && r.Ok? ==> (|r.value| == |rows.value| &&
                  forall i :: 0 <= i < |rows.value| ==> r.value[i] == Shapes.Shift(rows.value[i])))
    {
      r := GetColumn(c, "SHOW TABLES", [], n);
    }

    method GetTableDefinition(c: Config.Settings, table: string, n: Native) returns (r: Result<seq<Row>>)
      requires Sound(n)
      modifies this
      ensures (r, Snapshot()) == RowsOn(env, c, old(Snapshot()), DescQuery(table), [], n)
    {
      r := GetAll(c, DescQuery(table), [], n);
    }

    method GetTableIndexes(c: Config.Settings, table: string, n: Native) returns (r: Result<seq<Row>>)
      requires Sound(n)
      modifies this
      ensures (r, Snapshot()) ==
              RowsOn(env, c, old(Snapshot()), "SHOW INDEXES FROM " + Identifiers.MysqlIdentifier(table), [], n)
    {
      r := GetAll(c, "SHOW INDEXES FROM " + Identifiers.MysqlIdentifier(table), [], n);
    }

    /** `get_columns`: the `Field` of every row of the table definition, in order. */
    method GetColumns(c: Config.Settings, table: string, n: Native) returns (r: Result<seq<Value>>)
      requires Sound(n)
      modifies this
      ensures var (rows, s') := RowsOn(env, c, old(Snapshot()), DescQuery(table), [], n);
              && Snapshot() == s'
              && (rows.Err? ==> r == Err(rows.error))
              && (rows.Ok? ==> (r.Ok? && |r.value| == |rows.value| &&
                  forall i :: 0 <= i < |rows.value| ==> r.value[i] == FieldOf(rows.value[i])))
    {
      var rows := GetTableDefinition(c, table, n);
      if rows.Err? {
        return Err(rows.error);
      }
      var columns := FieldsOf(rows.value);
      return Ok(columns);
    }

    method GetInsertId(c: Config.Settings, n: Native) returns (r: Result<Option<Value>>)
      requires Sound(n)
      modifies this
      ensures var (rows, s') := RowsOn(env, c, old(Snapshot()), "SELECT LAST_INSERT_ID()", [], n);
              && Snapshot() == s'
              && r == if rows.Err? then Err(rows.error) else Shapes.SingleValue(Shapes.QueryException, rows.value)
    {
      r := GetOne(c, "SELECT LAST_INSERT_ID()", [], n);
    }

    method FilterTableData(c: Config.Settings, table: string, data: Row, desc: Native) returns (r: Result<Row>)
      requires Sound(desc)
      modifies this
      ensures (r, Snapshot()) == FilterOn(env, c, old(Snapshot()), table, data, desc)
    {
      if !Config.Corrects(c) {
        return Ok(data);
      }
      var rows := GetTableDefinition(c, table, desc);
      if rows.Err? {
        return Err(rows.error);
      }
      var defs := MysqliFilter.DescribeAll(rows.value);
      var corrected := MysqliFilter.Correct(c, defs, data);
      if corrected.Err? {
        return Err(corrected.error);
      }
      if |data| == 0 {
        return Ok([]);
      }
      return corrected;
    }

    method Insert(c: Config.Settings, table: string, params: Row, desc: Native, n: Native) returns (r: Result<Value>)
      requires Sound(desc)
      modifies this
      ensures (r, Snapshot()) == InsertOn(env, c, old(Snapshot()), table, params, desc, n)
    {
      var f := FilterTableData(c, table, params, desc);
      if f.Err? {
        return Err(f.error);
      }
      var query := SqlBuilder.Insert(Identifiers.MysqlIdentifier, table, f.value);
      r := Query(c, query, f.value, n);
    }

    method Update(c: Config.Settings, table: string, params: Row, where: string, desc: Native, n: Native)
      returns (r: Result<Value>)
      requires Sound(desc)
      modifies this
      ensures (r, Snapshot()) == UpdateOn(env, c, old(Snapshot()), table, params, where, desc, n)
    {
      var f := FilterTableData(c, table, params, desc);
      if f.Err? {
        return Err(f.error);
      }
      var query := SqlBuilder.Update(Identifiers.MysqlIdentifier, table, f.value, where);
      r := Query(c, query, f.value, n);
    }

    /** `get_lock`: a falsy (or missing) GET_LOCK answer is refused. */
    method GetLock(c: Config.Settings, identifier: Value, timeout: Value, n: Native) returns (r: Result<bool>)
      requires Sound(n)
      modifies this
      ensures var (rows, s') := RowsOn(env, c, old(Snapshot()), LockQuery, [Entry("0", identifier), Entry("1", timeout)], n);
              var one := if rows.Err? then Err(rows.error) else Shapes.SingleValue(Shapes.QueryException, rows.value);
              && Snapshot() == s'
              && (one.Err? ==> r == Err(one.error))
              && (one.Ok? ==> r == if Truthy(OneOrNull(one.value)) then Ok(true) else Err(QueryError(LockFailed)))
    {
      var one := GetOne(c, LockQuery, [Entry("0", identifier), Entry("1", timeout)], n);
      if one.Err? {
        return Err(one.error);
      }
      if !Truthy(OneOrNull(one.value)) {
        return Err(QueryError(LockFailed));
      }
      return Ok(true);
    }

    method ReleaseLock(c: Config.Settings, identifier: Value, n: Native) returns (r: Result<Value>)
      modifies this
      ensures (r, Snapshot()) == ExecOn(env, c, old(Snapshot()), UnlockQuery, [Entry("0", identifier)], n)
    {
      r := Query(c, UnlockQuery, [Entry("0", identifier)], n);
    }
  }
  // ----- what the proxy promises -----

  /**
   * A DSN whose host is `unix(` connects through the socket named by the
   * path up to its first `)`, on localhost; the rest of the path, without
   * its first character, names the database.
   */
  lemma UnixSocketTarget(user: string, pass: Option<string>, port: Option<int>, socket: string, rest: string)
    requires socket != [] && ')' !in socket
    ensures TargetOf(UrlParts(Some("unix("), Some(user), pass, Some(socket + ")" + rest), port))
            == Ok(Target("localhost", user, pass, Substr1(rest), port, Some(socket)))
  {
    assert socket + ")" + rest == socket + [')'] + rest;
    StrtokAt(socket, ')', rest, {')'});
    StrtokWhole(rest);
  }

  /** Any other host is used as given, with no socket; a missing part refuses the DSN. */
  lemma HostTarget(url: UrlParts)
    ensures TargetOf(url).Err? <==> url.path.None? || url.host.None? || url.user.None?
    ensures TargetOf(url).Err? ==> TargetOf(url).error == ConnectionError(DsnIncorrect)
    ensures TargetOf(url).Ok? && url.host.value != "unix(" ==>
      TargetOf(url).value == Target(url.host.value, url.user.value, url.pass, Substr1(url.path.value), url.port, None)
  {
  }

  /**
   * A statement is counted (when counting is on) and logged (when logging
   * is on) exactly once, as soon as the connection is up and the log text
   * could be built; up to there a failure leaves counter and log alone.
   */
  lemma StatementCounts(env: Env, c: Config.Settings, s: State, query: string, params: Row, n: Native)
    ensures var (r, s') := StatementOn(env, c, s, query, params, n);
            var logged := MysqliValues.LogText(query, Values(params));
            var passes := (s.connected || Reachable(env)) && !(c.queryLog && logged.Err?);
            && s'.connected == (s.connected || Reachable(env))
            && s'.queryCounter == s.queryCounter + (if passes && c.queryCounter then 1 else 0)
            && s'.queryLog == s.queryLog + (if passes && c.queryLog then [logged.value] else [])
            && (!passes ==> r.Err?)
            && (passes ==> r == Prepared(n, params))
  {
  }

  /** Once connected, statements never reconnect or replace the connection. */
  lemma ConnectedStays(env: Env, c: Config.Settings, s: State, query: string, params: Row, n: Native)
    requires s.connected
    ensures StatementOn(env, c, s, query, params, n).1.connected
    ensures StatementOn(env, c, s, query, params, n).1.database == s.database
  {
  }

  /**
   * The statement's own check throws a plain exception for any positive
   * errno, so the `catch (Query)` around execute never fires: a deadlock
   * (1213) fails at once, and `Retry::handle` is never reached, whatever
   * the retry settings and whatever a re-execution would have done.
   */
  lemma DeadlockNotRetried(c: Config.Settings, h: bool, n: Native)
    ensures Executed(c, h, n) == if n.errno > 0 then Err(GenericError(n.error)) else Ok(VNull)
  {
  }

  /**
   * Were execute to throw a Query exception instead, a deadlock with a
   * retry budget would go through `Retry::handle`.
   */
  lemma QueryFailureRetried(c: Config.Settings, h: bool, error: string, retries: nat -> Retry.Outcome)
    requires c.maxRetry > 0
    ensures var handled := Retry.Attempts(c, h, retries, 1, Retry.Deadlock, error).0;
            Caught(c, h, Retry.QueryFailed(Retry.Deadlock, error), retries) ==
            if handled.Ok? then Ok(VBool(handled.value)) else Err(handled.error)
  {
  }

  /** With every correction off, filtering issues no statement and returns the payload. */
  lemma FilterOffNoStatement(env: Env, c: Config.Settings, s: State, table: string, data: Row, desc: Native)
    requires Sound(desc) && !Config.Corrects(c)
    ensures FilterOn(env, c, s, table, data, desc) == (Ok(data), s)
  {
  }

  /**
   * An insert issues one statement, or two when the payload is filtered
   * first; the counter rises by at most that many.
   */
  lemma InsertCounts(env: Env, c: Config.Settings, s: State, table: string, params: Row, desc: Native, n: Native)
    requires Sound(desc)
    ensures var s' := InsertOn(env, c, s, table, params, desc, n).1;
            s.queryCounter <= s'.queryCounter <= s.queryCounter + (if Config.Corrects(c) then 2 else 1)
    ensures var s' := InsertOn(env, c, s, table, params, desc, n).1;
            !Config.Corrects(c) && s.connected && !c.queryLog && c.queryCounter ==> s'.queryCounter == s.queryCounter + 1
  {
    var (f, s1) := FilterOn(env, c, s, table, params, desc);
    if Config.Corrects(c) {
      StatementCounts(env, c, s, DescQuery(table), [], desc);
    }
    if f.Ok? {
      StatementCounts(env, c, s1, InsertQuery(table, f.value), f.value, n);
    }
  }

  /** The insert text binds exactly one placeholder per parameter, when no name holds a `?`. */
  lemma InsertMarks(table: string, params: Row)
    requires '?' !in table
    requires forall i :: 0 <= i < |params| ==> '?' !in params[i].key
    ensures Count(InsertQuery(table, params), '?') == |params|
  {
    var columns := SqlBuilder.QuoteAll(Identifiers.MysqlIdentifier, Keys(params));
    Identifiers.MysqlNoMark(table);
    forall i | 0 <= i < |columns| ensures '?' !in columns[i] {
      Identifiers.MysqlNoMark(params[i].key);
    }
    SqlBuilder.InsertPlaceholders(Identifiers.MysqlIdentifier(table), columns, |params|);
  }

  /** The update text binds one placeholder per parameter, followed by those of the WHERE clause. */
  lemma UpdateMarks(table: string, params: Row, where: string)
    requires '?' !in table
    requires forall i :: 0 <= i < |params| ==> '?' !in params[i].key
    ensures Count(UpdateQuery(table, params, where), '?') == |params| + Count(where, '?')
  {
    var columns := SqlBuilder.QuoteAll(Identifiers.MysqlIdentifier, Keys(params));
    Identifiers.MysqlNoMark(table);
    forall i | 0 <= i < |columns| ensures '?' !in columns[i] {
      Identifiers.MysqlNoMark(params[i].key);
    }
    SqlBuilder.UpdatePlaceholders(Identifiers.MysqlIdentifier(table), columns, where);
  }

  /**
   * `quote` connects only when some part of the value reaches the escaping
   * routine; otherwise it leaves the proxy alone and cannot fail.
   */
  lemma QuoteConnectsOnlyToEscape(env: Env, s: State, v: Value, quotes: bool, numeric: string -> bool)
    ensures !Quoting.ReachesEscape(v, numeric) ==>
      QuoteOn(env, s, v, quotes, numeric).1 == s && QuoteOn(env, s, v, quotes, numeric).0.Ok?
    ensures Quoting.ReachesEscape(v, numeric) ==>
      QuoteOn(env, s, v, quotes, numeric).1.connected == (s.connected || Reachable(env))
  {
    if !Quoting.ReachesEscape(v, numeric) {
      Quoting.QuoteWithoutEscape(v, quotes, numeric, env.escaper, env.escaper);
    }
  }
}
