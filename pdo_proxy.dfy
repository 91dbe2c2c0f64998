/**
 * The PDO proxy (Driver/Pdo/Proxy.php): connecting from a DSN that may carry
 * credentials, the query counter and log, statement preparation and
 * binding, the result-shape getters, the column filter, the insert/update
 * builders and the driver-specific insert id.
 *
 * As for the mysqli proxy, the server is an oracle: `Env` holds what the
 * surroundings decide (the DSN, `parse_str`, whether `new PDO` throws,
 * `PDO::quote`, `is_numeric`) and a `Native` record what the server answers
 * for one statement. Each method of `Proxy` ties its result and the new
 * fields to a function of the old fields (`State`).
 */
module PdoProxy {
  import opened Php
  import opened Strings
  import Config
  import Shapes
  import Quoting
  import Identifiers
  import SqlBuilder
  import PdoValues

  type Credential = PdoValues.Credential

  // ----- connecting -----

  /** The arguments of `new \PDO(dsn, username, password, options)`. */
  datatype Attempt = Attempt(dsn: string, username: Credential, password: Credential, options: Row)

  /** What the surroundings of one proxy decide. */
  datatype Env = Env(
    dsn: string,                       // the DSN the proxy was made for
    parseStr: string -> Row,           // `parse_str` of the options token
    open: Attempt -> Option<string>,   // the message of the PDOException `new PDO` throws, if any
    quoter: string -> string,          // PDO::quote on the open connection
    numeric: string -> bool)           // `is_numeric` on text

  const ConnectFailed: string := "Could not connect to database: "

  /** PDO::ATTR_ERRMODE (3) is always set to PDO::ERRMODE_EXCEPTION (2). */
  const ErrModeKey: string := "3"
  const ErrModeException: Value := VInt(2)

  /** One query log entry: the query and its parameters as given. */
  datatype LogEntry = LogEntry(query: string, params: Row)

  /** The fields of a proxy. */
  datatype State = State(driver: Credential, databaseName: Credential, username: Credential,
                         password: Credential, options: Row, connected: bool,
                         queryCounter: int, queryLog: seq<LogEntry>)

  /** What the constructor records before it connects. */
  function Initial(username: Credential, password: Credential, options: Row): State {
    State(PdoValues.Null, PdoValues.Null, username, password, options, false, 0, [])
  }

  /** The DSN `new PDO` receives: driver and settings, without the options. */
  function AttemptDsn(t: PdoValues.DsnTokens): string {
    t.driver.GetOr("") + ":" + t.settings.GetOr("")
  }

  /**
   * `connect`: the options token (if any) replaces the options, which then
   * always ask for exceptions; the settings may replace the credentials and
   * the database name; all of this stays even when `new PDO` throws. Only a
   * successful attempt records the driver and the connection.
   */
  function ConnectOn(env: Env, s: State): (Result<()>, State) {
    var t := PdoValues.Tokens(env.dsn);
    var s1 := Configured(env, s);
    match env.open(Attempt(AttemptDsn(t), s1.username, s1.password, s1.options))
    case Some(message) => (Err(ConnectionError(ConnectFailed + message)), s1)
    case None => (Ok(()), s1.(driver := PdoValues.TokenValue(t.driver), connected := true))
  }

  /** The options and credentials `connect` settles on before it opens the connection. */
  function Configured(env: Env, s: State): State {
    var t := PdoValues.Tokens(env.dsn);
    var options := Set(if t.options.Some? then env.parseStr(t.options.value) else s.options,
                       ErrModeKey, ErrModeException);
    var cr := PdoValues.Settled(t.driver, t.settings, PdoValues.Creds(s.username, s.password, s.databaseName));
    s.(options := options, username := cr.username, password := cr.password, databaseName := cr.databaseName)
  }

  /** The lazy connect at the start of `get_statement`. */
  function ReadyOn(env: Env, s: State): (Result<()>, State) {
    if s.connected then (Ok(()), s) else ConnectOn(env, s)
  }

  // ----- one statement -----

  /** What the server answers for one statement. */
  datatype Native = Native(
    prepareFailure: Option<string>,    // the PDOException `prepare` throws, if any
    executeFailure: Option<string>,    // the PDOException `execute` throws, if any
    rows: seq<Row>)                    // what `fetchAll(PDO::FETCH_ASSOC)` returns

  /** `prepare`, then (for a non-empty parameter list) the binding loop. */
  function Prepared(n: Native, params: Row): Result<seq<PdoValues.BoundParam>> {
    if n.prepareFailure.Some? then Err(NativeError(n.prepareFailure.value))
    else if |params| == 0 then Ok([])
    else PdoValues.Bind(Values(params))
  }

  /**
   * `get_statement`: connect if needed, log the query with its parameters
   * as given, count it, then prepare and bind.
   */
  function StatementOn(env: Env, c: Config.Settings, s: State, query: string, params: Row, n: Native)
    : (Result<seq<PdoValues.BoundParam>>, State)
  {
    var (ready, s1) := ReadyOn(env, s);
    if ready.Err? then (Err(ready.error), s1)
    else
      var s2 := s1.(queryLog := s1.queryLog + (if c.queryLog then [LogEntry(query, params)] else []),
                    queryCounter := s1.queryCounter + (if c.queryCounter then 1 else 0));
      (Prepared(n, params), s2)
  }

  /** A statement that is executed for its effect (`query`, `insert`, `update`). */
  function ExecOn(env: Env, c: Config.Settings, s: State, query: string, params: Row, n: Native)
    : (Result<()>, State)
  {
    var (b, s1) := StatementOn(env, c, s, query, params, n);
    if b.Err? then (Err(b.error), s1)
    else if n.executeFailure.Some? then (Err(NativeError(n.executeFailure.value)), s1)
    else (Ok(()), s1)
  }

  /** A statement that is executed and whose rows are fetched (`get_all` and the getters). */
  function RowsOn(env: Env, c: Config.Settings, s: State, query: string, params: Row, n: Native)
    : (Result<seq<Row>>, State)
  {
    var (e, s1) := ExecOn(env, c, s, query, params, n);
    if e.Err? then (Err(e.error), s1) else (Ok(n.rows), s1)
  }

  // ----- generated SQL -----

  /** The PHP value a credential property holds. */
  function CredValue(c: Credential): (v: Value)
    ensures v.VNull? || v.VBool? || v.VStr?
  {
    match c
    case Null => VNull
    case False => VBool(false)
    case Text(s) => VStr(s)
  }

  /** `$this->driver == 'mysql'`. */
  predicate Mysql(s: State) {
    s.driver == PdoValues.Text("mysql")
  }

  /** The driver name `quote_identifier` compares against. */
  function DriverName(s: State): string {
    if s.driver.Text? then s.driver.s else ""
  }

  /**
   * The text `quote($v)` contributes to a query for null, a boolean or text:
   * NULL, 1 or 0, numeric text as it is, other text as PDO::quote renders it.
   */
  function Literal(env: Env, v: Value): string
    requires v.VNull? || v.VBool? || v.VStr?
  {
    if v.VNull? then "NULL"
    else if v.VBool? then (if v.b then "1" else "0")
    else if env.numeric(v.s) then v.s
    else env.quoter(v.s)
  }

  function SchemaField(s: State): string {
    if Mysql(s) then "TABLE_SCHEMA" else "TABLE_CATALOG"
  }

  const DefinitionHead: string :=
    "SELECT COLUMN_NAME as \"Field\", DATA_TYPE as \"Type\", IS_NULLABLE as \"Null\", " +
    "COLUMN_DEFAULT as \"Default\" FROM information_schema.COLUMNS WHERE TABLE_NAME LIKE "

  /** `get_table_definition`'s query: the table and the database name, both quoted. */
  function DefinitionQuery(env: Env, s: State, table: string): string {
    DefinitionHead + Literal(env, VStr(table)) + " AND " + SchemaField(s) + " LIKE " +
    Literal(env, CredValue(s.databaseName))
  }

  /** `get_tables`' query; for a driver other than mysql only the `public` schema. */
  function TablesQuery(env: Env, s: State): string {
    "SELECT table_name FROM information_schema.tables WHERE table_type LIKE " + Literal(env, VStr("BASE TABLE")) +
    " AND " + SchemaField(s) + " LIKE " + Literal(env, CredValue(s.databaseName)) +
    (if Mysql(s) then "" else " AND table_schema LIKE " + Literal(env, VStr("public")))
  }

  const SequenceHead: string :=
    "SELECT currval(( SELECT sn.nspname || '.' ||  s.relname as sequence_name FROM pg_class s " +
    "JOIN pg_namespace sn ON sn.oid = s.relnamespace " +
    "JOIN pg_depend d ON d.refobjid = s.oid AND d.refclassid='pg_class'::regclass " +
    "JOIN pg_attrdef ad ON ad.oid = d.objid AND d.classid = 'pg_attrdef'::regclass " +
    "JOIN pg_attribute col ON col.attrelid = ad.adrelid AND col.attnum = ad.adnum " +
    "JOIN pg_class tbl ON tbl.oid = ad.adrelid JOIN pg_namespace n ON n.oid = tbl.relnamespace " +
    "WHERE s.relkind = 'S' AND d.deptype IN ('a', 'n') AND n.nspname = 'public' AND tbl.relname = '"

  /** The pgsql sequence lookup; table and column are pasted in unescaped. */
  function SequenceQuery(table: string, column: string): string {
    SequenceHead + table + "' AND col.attname = '" + column + "' ))"
  }

  const LastInsertId: string := "SELECT LAST_INSERT_ID()"
  const UnsupportedDbms: string := "Unsupported DBMS"
  const NotImplemented: string := "not implemented yet"

  /** `quote_identifier` for the driver the proxy is connected with. */
  function Identifier(s: State): string -> string {
    (f: string) => Identifiers.PdoIdentifier(DriverName(s), f)
  }

  function InsertQuery(s: State, table: string, params: Row): string {
    SqlBuilder.InsertText(Identifier(s)(table), SqlBuilder.QuoteAll(Identifier(s), Keys(params)), |params|)
  }

  function UpdateQuery(s: State, table: string, params: Row, where: string): string {
    SqlBuilder.UpdateText(Identifier(s)(table), SqlBuilder.QuoteAll(Identifier(s), Keys(params)), where)
  }

  // ----- the payload filter -----

  /** The `Field` of a definition row; a missing one reads as null. */
  function FieldOf(row: Row): Value {
    Get(row, "Field").GetOr(VNull)
  }

  /** `get_columns`: the `Field` of every definition row, in order. */
  function Columns(rows: seq<Row>): (cols: seq<Value>)
    ensures |cols| == |rows|
    ensures forall i :: 0 <= i < |rows| ==> cols[i] == FieldOf(rows[i])
  {
    seq(|rows|, i requires 0 <= i < |rows| => FieldOf(rows[i]))
  }

  /** The `foreach` of `get_columns`: the `Field` of each definition row, in order. */
  method FieldsOf(defs: seq<Row>) returns (columns: seq<Value>)
    ensures columns == Columns(defs)
  {
    columns := [];
    var i := 0;
    while i < |defs|
      invariant 0 <= i <= |defs| && |columns| == i
      invariant forall j :: 0 <= j < i ==> columns[j] == FieldOf(defs[j])
    {
      columns := columns + [FieldOf(defs[i])];
      i := i + 1;
    }
  }

  /** The array key a column name stands for in `array_key_exists`. */
  function ColumnKey(v: Value): string {
    match v
    case VStr(s) => s
    case VInt(i) => IntText(i)
    case VBool(b) => if b then "1" else "0"
    case _ => ""
  }

  function ColumnKeys(cols: seq<Value>): (ks: seq<string>)
    ensures |ks| == |cols|
    ensures forall i :: 0 <= i < |cols| ==> ks[i] == ColumnKey(cols[i])
  {
    seq(|cols|, i requires 0 <= i < |cols| => ColumnKey(cols[i]))
  }

  /**
   * `filter_table_data`: the table definition is always fetched; the
   * payload keeps exactly the keys that are columns, in column order.
   */
  function FilterOn(env: Env, c: Config.Settings, s: State, table: string, data: Row, n: Native)
    : (Result<Row>, State)
  {
    var (rows, s1) := RowsOn(env, c, s, DefinitionQuery(env, s, table), [], n);
    if rows.Err? then (Err(rows.error), s1)
    else if |data| == 0 then (Ok([]), s1)
    else (Ok(PdoValues.Keep(ColumnKeys(Columns(rows.value)), data)), s1)
  }

  /** `insert`: filter the payload, then one statement over the filtered parameters. */
  function InsertOn(env: Env, c: Config.Settings, s: State, table: string, params: Row, desc: Native, n: Native)
    : (Result<()>, State)
  {
    var (f, s1) := FilterOn(env, c, s, table, params, desc);
    if f.Err? then (Err(f.error), s1)
    else ExecOn(env, c, s1, InsertQuery(s1, table, f.value), f.value, n)
  }

  /** `update`: filter the payload, then one statement over the filtered parameters. */
  function UpdateOn(env: Env, c: Config.Settings, s: State, table: string, params: Row, where: string,
                    desc: Native, n: Native): (Result<()>, State)
  {
    var (f, s1) := FilterOn(env, c, s, table, params, desc);
    if f.Err? then (Err(f.error), s1)
    else ExecOn(env, c, s1, UpdateQuery(s1, table, f.value, where), f.value, n)
  }

  /** `get_insert_id`: by driver; any driver but mysql and pgsql is refused without a statement. */
  function InsertIdOn(env: Env, c: Config.Settings, s: State, table: string, column: string, n: Native)
    : (Result<Option<Value>>, State)
  {
    if s.driver == PdoValues.Text("mysql") || s.driver == PdoValues.Text("pgsql") then
      var query := if s.driver == PdoValues.Text("mysql") then LastInsertId else SequenceQuery(table, column);
      var (rows, s1) := RowsOn(env, c, s, query, [], n);
      (if rows.Err? then Err(rows.error) else Shapes.SingleValue(Shapes.PlainException, rows.value), s1)
    else (Err(GenericError(UnsupportedDbms)), s)
  }

  class Proxy {
    const env: Env
    var driver: Credential
    var databaseName: Credential
    var username: Credential
    var password: Credential
    var options: Row
    var connected: bool
    var queryCounter: int
    var queryLog: seq<LogEntry>

    function Snapshot(): State
      reads this
    {
      State(driver, databaseName, username, password, options, connected, queryCounter, queryLog)
    }

    constructor Record(env: Env, username: Credential, password: Credential, options: Row)
      ensures this.env == env && Snapshot() == Initial(username, password, options)
    {
      this.env := env;
      driver := PdoValues.Null;
      databaseName := PdoValues.Null;
      this.username := username;
      this.password := password;
      this.options := options;
      connected := false;
      queryCounter := 0;
      queryLog := [];
    }

    /** `new Proxy($dsn, $username, $password, $options)`: record, then connect; a failure is thrown. */
    static method Create(env: Env, username: Credential, password: Credential, options: Row)
      returns (r: Result<Proxy>)
      ensures r.Ok? ==> fresh(r.value) && r.value.env == env
      ensures r.Ok? ==> ConnectOn(env, Initial(username, password, options)) == (Ok(()), r.value.Snapshot())
      ensures r.Err? ==> ConnectOn(env, Initial(username, password, options)).0 == Err(r.error)
    {
      var p := new Proxy.Record(env, username, password, options);
      var c := p.Connect();
      if c.Err? {
        return Err(c.error);
      }
      return Ok(p);
    }

    /** The first half of `connect`: options from the DSN, then credentials from its settings. */
    method Configure() returns (t: PdoValues.DsnTokens)
      modifies this
      ensures t == PdoValues.Tokens(env.dsn)
      ensures Snapshot() == Configured(env, old(Snapshot()))
    {
      t := PdoValues.Tokens(env.dsn);
      if t.options.Some? {
        options := env.parseStr(t.options.value);
      }
      options := Set(options, ErrModeKey, ErrModeException);
      if t.settings.Some? && ';' in t.settings.value {
        var cr := PdoValues.ReadSettings(t.driver, t.settings.value, PdoValues.Creds(username, password, databaseName));
        username := cr.username;
        password := cr.password;
        databaseName := cr.databaseName;
      }
    }

    method Connect() returns (r: Result<()>)
      modifies this
      ensures (r, Snapshot()) == ConnectOn(env, old(Snapshot()))
    {
      var t := Configure();
      var failure := env.open(Attempt(AttemptDsn(t), username, password, options));
      if failure.Some? {
        return Err(ConnectionError(ConnectFailed + failure.value));
      }
      driver := PdoValues.TokenValue(t.driver);
      connected := true;
      return Ok(());
    }

    method EnsureConnected() returns (r: Result<()>)
      modifies this
      ensures (r, Snapshot()) == ReadyOn(env, old(Snapshot()))
    {
      if connected {
        return Ok(());
      }
      r := Connect();
    }

    /** `quote`: the flag is passed down but PDO::quote adds its own quotes either way. */
    method Quote(v: Value, quotes: bool) returns (r: Result<Value>)
      ensures r == Quoting.Quote(v, false, env.numeric, env.quoter)
    {
      r := Quoting.Quote(v, false, env.numeric, env.quoter);
    }

    method Escape(v: Value) returns (r: Result<Value>)
      ensures r == Quoting.Escape(v, env.quoter)
    {
      r := Quoting.Escape(v, env.quoter);
    }

    method GetStatement(c: Config.Settings, query: string, params: Row, n: Native)
      returns (r: Result<seq<PdoValues.BoundParam>>)
      modifies this
      ensures (r, Snapshot()) == StatementOn(env, c, old(Snapshot()), query, params, n)
    {
      var ready := EnsureConnected();
      if ready.Err? {
        return Err(ready.error);
      }
      ghost var mid := Snapshot();
      if c.queryLog {
        queryLog := queryLog + [LogEntry(query, params)];
      }
      if c.queryCounter {
        queryCounter := queryCounter + 1;
      }
      assert Snapshot() == mid.(queryLog := mid.queryLog + (if c.queryLog then [LogEntry(query, params)] else []),
                                queryCounter := mid.queryCounter + (if c.queryCounter then 1 else 0));
      assert StatementOn(env, c, old(Snapshot()), query, params, n) == (Prepared(n, params), Snapshot());
      if n.prepareFailure.Some? {
        return Err(NativeError(n.prepareFailure.value));
      }
      if |params| == 0 {
        return Ok([]);
      }
      r := PdoValues.BindParams(Values(params));
    }

    method Query(c: Config.Settings, query: string, params: Row, n: Native) returns (r: Result<()>)
      modifies this
      ensures (r, Snapshot()) == ExecOn(env, c, old(Snapshot()), query, params, n)
    {
      var b := GetStatement(c, query, params, n);
      if b.Err? {
        return Err(b.error);
      }
      if n.executeFailure.Some? {
        return Err(NativeError(n.executeFailure.value));
      }
      return Ok(());
    }

    method GetAll(c: Config.Settings, query: string, params: Row, n: Native) returns (r: Result<seq<Row>>)
      modifies this
      ensures (r, Snapshot()) == RowsOn(env, c, old(Snapshot()), query, params, n)
    {
      var e := Query(c, query, params, n);
      if e.Err? {
        return Err(e.error);
      }
      return Ok(n.rows);
    }

    method GetRow(c: Config.Settings, query: string, params: Row, n: Native) returns (r: Result<Option<Row>>)
      modifies this
      ensures var (rows, s') := RowsOn(env, c, old(Snapshot()), query, params, n);
              && Snapshot() == s'
              && r == if rows.Err? then Err(rows.error) else Shapes.SingleRow(Shapes.PlainException, rows.value)
    {
      var rows := GetAll(c, query, params, n);
      if rows.Err? {
        return Err(rows.error);
      }
      r := Shapes.SingleRow(Shapes.PlainException, rows.value);
    }

    method GetOne(c: Config.Settings, query: string, params: Row, n: Native) returns (r: Result<Option<Value>>)
      modifies this
      ensures var (rows, s') := RowsOn(env, c, old(Snapshot()), query, params, n);
              && Snapshot() == s'
              && r == if rows.Err? then Err(rows.error) else Shapes.SingleValue(Shapes.PlainException, rows.value)
    {
      var rows := GetAll(c, query, params, n);
      if rows.Err? {
        return Err(rows.error);
      }
      r := Shapes.SingleValue(Shapes.PlainException, rows.value);
    }

    method GetColumn(c: Config.Settings, query: string, params: Row, n: Native) returns (r: Result<seq<Value>>)
      modifies this
      ensures var (rows, s') := RowsOn(env, c, old(Snapshot()), query, params, n);
              && Snapshot() == s'
              && (rows.Err? ==> r == Err(rows.error))
              && (rows.Ok? ==> (r.Err? <==> |rows.value| > 0 && |rows.value[0]| != 1))
              && (rows.Ok? && r.Err? ==> r.error == GenericError(Shapes.TooManyColumns))
              && (rows.Ok? && r.Ok? ==> (|r.value| == |rows.value| &&
                  forall i :: 0 <= i < |rows.value| ==> r.value[i] == Shapes.Shift(rows.value[i])))
    {
      var rows := GetAll(c, query, params, n);
      if rows.Err? {
        return Err(rows.error);
      }
      r := Shapes.FirstColumn(Shapes.PlainException, rows.value);
    }

    method GetTables(c: Config.Settings, n: Native) returns (r: Result<seq<Value>>)
      modifies this
      ensures var (rows, s') := RowsOn(env, c, old(Snapshot()), TablesQuery(env, old(Snapshot())), [], n);
              && Snapshot() == s'
              && (rows.Err? ==> r == Err(rows.error))
              && (rows.Ok? ==> (r.Err? <==> |rows.value| > 0 && |rows.value[0]| != 1))
              && (rows.Ok? && r.Err? ==> r.error == GenericError(Shapes.TooManyColumns))
              && (rows.Ok? && r.Ok? ==> (|r.value| == |rows.value| &&
                  forall i :: 0 <= i < |rows.value| ==> r.value[i] == Shapes.Shift(rows.value[i])))
    {
      r := GetColumn(c, TablesQuery(env, Snapshot()), [], n);
    }

    method GetTableDefinition(c: Config.Settings, table: string, n: Native) returns (r: Result<seq<Row>>)
      modifies this
      ensures (r, Snapshot()) == RowsOn(env, c, old(Snapshot()), DefinitionQuery(env, old(Snapshot()), table), [], n)
    {
      r := GetAll(c, DefinitionQuery(env, Snapshot(), table), [], n);
    }

    /** `get_table_indexes` is not implemented for PDO: always an empty list, no statement. */
    method GetTableIndexes(table: string) returns (r: seq<Row>)
      ensures r == []
    {
      r := [];
    }

    /** `get_columns`: the `Field` of every row of the table definition, in order. */
    method GetColumns(c: Config.Settings, table: string, n: Native) returns (r: Result<seq<Value>>)
      modifies this
      ensures var (rows, s') := RowsOn(env, c, old(Snapshot()), DefinitionQuery(env, old(Snapshot()), table), [], n);
              && Snapshot() == s'
              && r == if rows.Err? then Err(rows.error) else Ok(Columns(rows.value))
    {
      var rows := GetTableDefinition(c, table, n);
      if rows.Err? {
        return Err(rows.error);
      }
      var columns := FieldsOf(rows.value);
      return Ok(columns);
    }

    method FilterTableData(c: Config.Settings, table: string, data: Row, n: Native) returns (r: Result<Row>)
      modifies this
      ensures (r, Snapshot()) == FilterOn(env, c, old(Snapshot()), table, data, n)
    {
      var columns := GetColumns(c, table, n);
      if columns.Err? {
        return Err(columns.error);
      }
      var kept := PdoValues.FilterColumns(ColumnKeys(columns.value), data);
      if |data| == 0 {
        return Ok([]);
      }
      return Ok(kept);
    }

    method Insert(c: Config.Settings, table: string, params: Row, desc: Native, n: Native) returns (r: Result<()>)
      modifies this
      ensures (r, Snapshot()) == InsertOn(env, c, old(Snapshot()), table, params, desc, n)
    {
      var f := FilterTableData(c, table, params, desc);
      if f.Err? {
        return Err(f.error);
      }
      var query := SqlBuilder.Insert(Identifier(Snapshot()), table, f.value);
      r := Query(c, query, f.value, n);
    }

    method Update(c: Config.Settings, table: string, params: Row, where: string, desc: Native, n: Native)
      returns (r: Result<()>)
      modifies this
      ensures (r, Snapshot()) == UpdateOn(env, c, old(Snapshot()), table, params, where, desc, n)
    {
      var f := FilterTableData(c, table, params, desc);
      if f.Err? {
        return Err(f.error);
      }
      var query := SqlBuilder.Update(Identifier(Snapshot()), table, f.value, where);
      r := Query(c, query, f.value, n);
    }

    method GetInsertId(c: Config.Settings, table: string, column: string, n: Native) returns (r: Result<Option<Value>>)
      modifies this
      ensures (r, Snapshot()) == InsertIdOn(env, c, old(Snapshot()), table, column, n)
    {
      if driver == PdoValues.Text("mysql") {
        r := GetOne(c, LastInsertId, [], n);
      } else if driver == PdoValues.Text("pgsql") {
        r := GetOne(c, SequenceQuery(table, column), [], n);
      } else {
        r := Err(GenericError(UnsupportedDbms));
      }
    }

    /** `get_lock` is not implemented for PDO. */
    method GetLock(identifier: Value, timeout: Value) returns (r: Result<bool>)
      ensures r == Err(GenericError(NotImplemented))
    {
      r := Err(GenericError(NotImplemented));
    }

    /** `release_lock` is not implemented for PDO. */
    method ReleaseLock(identifier: Value) returns (r: Result<bool>)
      ensures r == Err(GenericError(NotImplemented))
    {
      r := Err(GenericError(NotImplemented));
    }
  }

  // ----- what the proxy promises -----

  /** Connecting from this state succeeds. */
  predicate Opens(env: Env, s: State) {
    ConnectOn(env, s).0.Ok?
  }

  /**
   * Whatever the outcome, connecting leaves the options asking for
   * exceptions; it succeeds exactly when `new PDO` does not throw, and then
   * records the DSN's driver; a failed attempt leaves the connection flag
   * and the driver as they were.
   */
  lemma ConnectOutcome(env: Env, s: State)
    ensures var (r, s') := ConnectOn(env, s);
            var t := PdoValues.Tokens(env.dsn);
            && Get(s'.options, ErrModeKey) == Some(ErrModeException)
            && (r.Ok? <==> env.open(Attempt(AttemptDsn(t), s'.username, s'.password, s'.options)).None?)
            && (r.Ok? ==> s'.connected && s'.driver == PdoValues.TokenValue(t.driver))
            && (r.Err? ==> s'.connected == s.connected && s'.driver == s.driver)
            && (r.Err? ==> r.error.ConnectionError?)
  {
    var t := PdoValues.Tokens(env.dsn);
    SetGet(if t.options.Some? then env.parseStr(t.options.value) else s.options, ErrModeKey, ErrModeException, ErrModeKey);
  }

  /**
   * For a mysql DSN whose settings hold a `;`, the user, password and
   * database name the connection uses are the last `user`, `password` and
   * `dbname` settings, or what the proxy had when there is none.
   */
  lemma MysqlDsnCredentials(env: Env, s: State, settings: string)
    requires PdoValues.Plain(settings) && ';' in settings
    requires env.dsn == "mysql:" + settings
    ensures var s' := ConnectOn(env, s).1;
            var parts := Split(settings, ';');
            && s'.username == PdoValues.LastFor(parts, "user").GetOr(s.username)
            && s'.password == PdoValues.LastFor(parts, "password").GetOr(s.password)
            && s'.databaseName == PdoValues.LastFor(parts, "dbname").GetOr(s.databaseName)
  {
    var cr := PdoValues.Creds(s.username, s.password, s.databaseName);
    assert PdoValues.Plain("mysql");
    PdoValues.TokensOfPlain("mysql", settings);
    assert env.dsn == "mysql" + ":" + settings;
    assert PdoValues.Tokens(env.dsn) == PdoValues.DsnTokens(Some("mysql"), Some(settings), None);
    ConnectSettles(env, s);
    assert PdoValues.Settled(Some("mysql"), Some(settings), cr) ==
           PdoValues.AbsorbAll(Some("mysql"), cr, Split(settings, ';'));
    PdoValues.AbsorbAllLast(Some("mysql"), cr, Split(settings, ';'));
  }

  /** The credentials after connecting are those the settings loop leaves, whatever the outcome. */
  lemma ConnectSettles(env: Env, s: State)
    ensures var t := PdoValues.Tokens(env.dsn);
            var cr := PdoValues.Settled(t.driver, t.settings, PdoValues.Creds(s.username, s.password, s.databaseName));
            var s' := ConnectOn(env, s).1;
            s'.username == cr.username && s'.password == cr.password && s'.databaseName == cr.databaseName
  {
  }

  /** Any other driver keeps the user and password the proxy was given, whatever the DSN says. */
  lemma OtherDriverKeepsCredentials(env: Env, s: State)
    requires PdoValues.Tokens(env.dsn).driver != Some("mysql")
    ensures ConnectOn(env, s).1.username == s.username
    ensures ConnectOn(env, s).1.password == s.password
  {
    var t := PdoValues.Tokens(env.dsn);
    if t.settings.Some? && ';' in t.settings.value {
      PdoValues.AbsorbAllLast(t.driver, PdoValues.Creds(s.username, s.password, s.databaseName),
                              Split(t.settings.value, ';'));
    }
  }

  /**
   * A DSN with a single setting (`pgsql:dbname=shop`) never sets the
   * database name, so a proxy made without one looks its tables up in the
   * schema `LIKE NULL`.
   */
  lemma SingleSettingNoSchema(env: Env, s: State, driver: string, settings: string, table: string)
    requires PdoValues.Plain(driver) && PdoValues.Plain(settings) && ';' !in settings
    requires env.dsn == driver + ":" + settings && s.databaseName == PdoValues.Null
    ensures var s' := ConnectOn(env, s).1;
            && s'.databaseName == PdoValues.Null
            && exists head :: DefinitionQuery(env, s', table) == head + " LIKE " + "NULL"
  {
    PdoValues.TokensOfPlain(driver, settings);
    var s' := ConnectOn(env, s).1;
    assert s'.databaseName == PdoValues.Null;
    NullSchema(env, s', table);
  }

  /** Without a database name the definition query compares the schema with NULL. */
  lemma NullSchema(env: Env, s: State, table: string)
    requires s.databaseName == PdoValues.Null
    ensures exists head :: DefinitionQuery(env, s, table) == head + " LIKE " + "NULL"
  {
    var head := DefinitionHead + Literal(env, VStr(table)) + " AND " + SchemaField(s);
    assert DefinitionQuery(env, s, table) == head + " LIKE " + "NULL";
  }

  /** What `quote` puts in the generated SQL is the text of the quoted value. */
  lemma LiteralIsQuote(env: Env, v: Value)
    requires v.VNull? || v.VBool? || v.VStr?
    ensures Quoting.Quote(v, false, env.numeric, env.quoter).Ok?
    ensures ToText(Quoting.Quote(v, false, env.numeric, env.quoter).value) == Ok(Literal(env, v))
  {
  }

  /**
   * A statement is counted (when counting is on) and logged with its
   * parameters as given (when logging is on) exactly once, as soon as the
   * connection is up; a failed lazy connect leaves counter and log alone.
   */
  lemma StatementCounts(env: Env, c: Config.Settings, s: State, query: string, params: Row, n: Native)
    ensures var (r, s') := StatementOn(env, c, s, query, params, n);
            var passes := s.connected || Opens(env, s);
            && s'.connected == passes
            && s'.queryCounter == s.queryCounter + (if passes && c.queryCounter then 1 else 0)
            && s'.queryLog == s.queryLog + (if passes && c.queryLog then [LogEntry(query, params)] else [])
            && (!passes ==> r.Err? && r.error.ConnectionError?)
            && (passes ==> r == Prepared(n, params))
  {
    if !s.connected {
      ConnectOutcome(env, s);
    }
  }

  /** Once connected, statements never reconnect or touch the connection properties. */
  lemma ConnectedStays(env: Env, c: Config.Settings, s: State, query: string, params: Row, n: Native)
    requires s.connected
    ensures var s' := StatementOn(env, c, s, query, params, n).1;
            s' == s.(queryCounter := s'.queryCounter, queryLog := s'.queryLog)
  {
  }

  /**
   * The payload filter keeps a key exactly when it names a column of the
   * table definition, with the payload's value; with distinct column names
   * the kept keys come in column order. It fails only when fetching the
   * definition fails.
   */
  lemma FilterKeeps(env: Env, c: Config.Settings, s: State, table: string, data: Row, n: Native, k: string)
    ensures var f := FilterOn(env, c, s, table, data, n).0;
            var rows := RowsOn(env, c, s, DefinitionQuery(env, s, table), [], n).0;
            && (f.Ok? <==> rows.Ok?)
            && (f.Ok? ==> Get(f.value, k) ==
                          if k in ColumnKeys(Columns(rows.value)) then Get(data, k) else None)
            && (f.Ok? && NoDup(ColumnKeys(Columns(rows.value))) ==>
                Keys(f.value) == PdoValues.Present(ColumnKeys(Columns(rows.value)), data))
  {
    var rows := RowsOn(env, c, s, DefinitionQuery(env, s, table), [], n).0;
    if rows.Ok? {
      var keys := ColumnKeys(Columns(rows.value));
      PdoValues.KeepGet(keys, data, k);
      if |data| == 0 {
        assert data == [];
        PdoValues.KeepEmpty(keys);
      }
      if NoDup(keys) {
        PdoValues.KeepKeys(keys, data);
      }
    }
  }

  /**
   * An insert always issues the definition statement and then, when that
   * succeeds, the insert itself: on a connected proxy that counts, the
   * counter rises by two, or by one when the filter fails.
   */
  lemma InsertCounts(env: Env, c: Config.Settings, s: State, table: string, params: Row, desc: Native, n: Native)
    requires s.connected && c.queryCounter
    ensures var s' := InsertOn(env, c, s, table, params, desc, n).1;
            s'.queryCounter == s.queryCounter + (if FilterOn(env, c, s, table, params, desc).0.Ok? then 2 else 1)
  {
    var (f, s1) := FilterOn(env, c, s, table, params, desc);
    StatementCounts(env, c, s, DefinitionQuery(env, s, table), [], desc);
    if f.Ok? {
      StatementCounts(env, c, s1, InsertQuery(s1, table, f.value), f.value, n);
    }
  }

  /**
   * The insert text holds exactly one placeholder per parameter, whatever
   * the names: the identifier sanitiser removes every `?`.
   */
  lemma InsertMarks(s: State, table: string, params: Row)
    ensures Count(InsertQuery(s, table, params), '?') == |params|
  {
    var columns := SqlBuilder.QuoteAll(Identifier(s), Keys(params));
    Identifiers.PdoNoMark(DriverName(s), table);
    forall i | 0 <= i < |columns| ensures '?' !in columns[i] {
      Identifiers.PdoNoMark(DriverName(s), Keys(params)[i]);
    }
    SqlBuilder.InsertPlaceholders(Identifier(s)(table), columns, |params|);
  }

  /** The update text holds one placeholder per parameter, then those of the WHERE clause. */
  lemma UpdateMarks(s: State, table: string, params: Row, where: string)
    ensures Count(UpdateQuery(s, table, params, where), '?') == |params| + Count(where, '?')
  {
    var columns := SqlBuilder.QuoteAll(Identifier(s), Keys(params));
    Identifiers.PdoNoMark(DriverName(s), table);
    forall i | 0 <= i < |columns| ensures '?' !in columns[i] {
      Identifiers.PdoNoMark(DriverName(s), Keys(params)[i]);
    }
    SqlBuilder.UpdatePlaceholders(Identifier(s)(table), columns, where);
  }

  /** `get_insert_id` refuses every driver but mysql and pgsql, without a statement. */
  lemma InsertIdDrivers(env: Env, c: Config.Settings, s: State, table: string, column: string, n: Native)
    ensures var (r, s') := InsertIdOn(env, c, s, table, column, n);
            && (s.driver != PdoValues.Text("mysql") && s.driver != PdoValues.Text("pgsql") ==>
                r == Err(GenericError(UnsupportedDbms)) && s' == s)
            && (s.driver == PdoValues.Text("mysql") ==> s' == RowsOn(env, c, s, LastInsertId, [], n).1)
            && (s.driver == PdoValues.Text("pgsql") ==> s' == RowsOn(env, c, s, SequenceQuery(table, column), [], n).1)
  {
  }
}
