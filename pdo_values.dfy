/**
 * What the PDO proxy (Driver/Pdo/Proxy.php) computes from plain values: the
 * DSN tokens and the credentials `connect` reads from them, the parameter
 * bindings of `get_statement`, and the column filter of `filter_table_data`.
 */
module PdoValues {
  import opened Php
  import opened Strings
  import Quoting

  // ----- the DSN -----

  /**
   * A credential property of the proxy: null until set, `false` when strtok
   * found no value, or text.
   */
  datatype Credential = Null | False | Text(s: string)

  /** What `strtok` hands back: the token, or `false` when there is none. */
  function TokenValue(t: Option<string>): (c: Credential)
    ensures c != Null
    ensures t.Some? <==> c.Text?
    ensures t.Some? ==> c.s == t.value
  {
    if t.Some? then Text(t.value) else False
  }

  /** The three tokens `connect` cuts from the DSN: driver, settings, options. */
  datatype DsnTokens = DsnTokens(driver: Option<string>, settings: Option<string>, options: Option<string>)

  const DsnDelims: set<char> := {':', '?'}

  /** Three `strtok` calls on the DSN, each resuming where the previous one stopped. */
  function Tokens(dsn: string): DsnTokens {
    var (driver, r1) := Strtok(dsn, DsnDelims);
    var (settings, r2) := Strtok(r1, DsnDelims);
    var (options, _) := Strtok(r2, DsnDelims);
    DsnTokens(driver, settings, options)
  }

  predicate Plain(s: string) {
    s != [] && forall i :: 0 <= i < |s| ==> s[i] !in DsnDelims
  }

  /** `driver:settings?options` yields its three parts. */
  lemma TokensOfFull(driver: string, settings: string, options: string)
    requires Plain(driver) && Plain(settings) && Plain(options)
    ensures Tokens(driver + ":" + settings + "?" + options) == DsnTokens(Some(driver), Some(settings), Some(options))
  {
    var rest := settings + "?" + options;
    assert driver + ":" + settings + "?" + options == driver + [':'] + rest;
    assert rest == settings + ['?'] + options;
    StrtokAt(driver, ':', rest, DsnDelims);
    StrtokAt(settings, '?', options, DsnDelims);
    StrtokAll(options, DsnDelims);
  }

  /** Without a `?` part there are no options. */
  lemma TokensOfPlain(driver: string, settings: string)
    requires Plain(driver) && Plain(settings)
    ensures Tokens(driver + ":" + settings) == DsnTokens(Some(driver), Some(settings), None)
  {
    assert driver + ":" + settings == driver + [':'] + settings;
    StrtokAt(driver, ':', settings, DsnDelims);
    StrtokAll(settings, DsnDelims);
  }

  // ----- the settings loop -----

  /** `$key = strtok($setting, '='); $value = strtok('=');`: a value stops at the next `=`. */
  function Pair(setting: string): (Option<string>, Option<string>) {
    var (key, rest) := Strtok(setting, {'='});
    (key, Strtok(rest, {'='}).0)
  }

  lemma PairOf(key: string, value: string, more: string)
    requires key != [] && value != [] && '=' !in key && '=' !in value
    ensures Pair(key + "=" + value) == (Some(key), Some(value))
    ensures Pair(key + "=" + value + "=" + more) == (Some(key), Some(value))
  {
    assert key + "=" + value == key + ['='] + value;
    assert key + "=" + value + "=" + more == key + ['='] + (value + ['='] + more);
    StrtokAt(key, '=', value, {'='});
    StrtokAll(value, {'='});
    StrtokAt(key, '=', value + ['='] + more, {'='});
    StrtokAt(value, '=', more, {'='});
  }

  /** The properties the settings loop may overwrite. */
  datatype Creds = Creds(username: Credential, password: Credential, databaseName: Credential)

  /**
   * One pass of the loop: `user` and `password` are taken only for the mysql
   * driver, `dbname` for every driver.
   */
  function Absorb(driver: Option<string>, cr: Creds, setting: string): Creds {
    var (key, value) := Pair(setting);
    var v := TokenValue(value);
    var mysql := driver == Some("mysql");
    var cr1 := if mysql && key == Some("user") then cr.(username := v) else cr;
    var cr2 := if mysql && key == Some("password") then cr1.(password := v) else cr1;
    if key == Some("dbname") then cr2.(databaseName := v) else cr2
  }

  /** The loop over the settings, left to right. */
  function AbsorbAll(driver: Option<string>, cr: Creds, parts: seq<string>): Creds
    decreases |parts|
  {
    if parts == [] then cr
    else Absorb(driver, AbsorbAll(driver, cr, parts[..|parts| - 1]), parts[|parts| - 1])
  }

  /** The settings are read only when the token exists and holds a `;`. */
  function Settled(driver: Option<string>, settings: Option<string>, cr: Creds): Creds {
    if settings.Some? && ';' in settings.value then AbsorbAll(driver, cr, Split(settings.value, ';'))
    else cr
  }

  /** The `foreach` over the `;`-separated settings. */
  method ReadSettings(driver: Option<string>, settings: string, cr: Creds) returns (r: Creds)
    ensures r == AbsorbAll(driver, cr, Split(settings, ';'))
  {
    var parts := Split(settings, ';');
    r := cr;
    var i := 0;
    while i < |parts|
      invariant 0 <= i <= |parts|
      invariant r == AbsorbAll(driver, cr, parts[..i])
    {
      assert parts[..i + 1][..i] == parts[..i];
      var (key, value) := Pair(parts[i]);
      if driver == Some("mysql") {
        if key == Some("user") {
          r := r.(username := TokenValue(value));
        }
        if key == Some("password") {
          r := r.(password := TokenValue(value));
        }
      }
      if key == Some("dbname") {
        r := r.(databaseName := TokenValue(value));
      }
      i := i + 1;
    }
    assert parts[..i] == parts;
  }

  /** The reference reading: the value of the last setting named `key`, if any. */
  function LastFor(parts: seq<string>, key: string): Option<Credential>
    decreases |parts|
  {
    if parts == [] then None
    else
      var (k, v) := Pair(parts[|parts| - 1]);
      if k == Some(key) then Some(TokenValue(v)) else LastFor(parts[..|parts| - 1], key)
  }

  /**
   * After the loop the database name is the last `dbname` setting; for the
   * mysql driver the user and password are the last `user` and `password`
   * settings; for any other driver they are never touched. A property with
   * no setting keeps its value.
   */
  lemma {:induction false} AbsorbAllLast(driver: Option<string>, cr: Creds, parts: seq<string>)
    ensures AbsorbAll(driver, cr, parts).databaseName == LastFor(parts, "dbname").GetOr(cr.databaseName)
    ensures driver == Some("mysql") ==>
      && AbsorbAll(driver, cr, parts).username == LastFor(parts, "user").GetOr(cr.username)
      && AbsorbAll(driver, cr, parts).password == LastFor(parts, "password").GetOr(cr.password)
    ensures driver != Some("mysql") ==>
      AbsorbAll(driver, cr, parts).username == cr.username && AbsorbAll(driver, cr, parts).password == cr.password
    decreases |parts|
  {
    if parts != [] {
      AbsorbAllLast(driver, cr, parts[..|parts| - 1]);
    }
  }

  /** A settings token without `;` is not read at all, not even a lone `dbname=`. */
  lemma SingleSettingIgnored(driver: Option<string>, settings: string, cr: Creds)
    requires ';' !in settings
    ensures Settled(driver, Some(settings), cr) == cr
    ensures Settled(driver, None, cr) == cr
  {
  }

  // ----- bindParam -----

  /** PDO::PARAM_NULL, PDO::PARAM_INT and PDO::PARAM_STR. */
  datatype ParamKind = ParamNull | ParamInt | ParamStr

  /** The type of a (rewritten) bindable parameter; floats are bound as text. */
  function KindOf(v: Value): (k: ParamKind)
    ensures v.VInt? <==> k == ParamInt
    ensures v.VNull? <==> k == ParamNull
  {
    if v.VInt? then ParamInt else if v.VNull? then ParamNull else ParamStr
  }

  /** One `bindParam($i, $param, $type)` call. */
  datatype BoundParam = BoundParam(position: nat, value: Value, kind: ParamKind)

  const Unacceptable: string := "Unacceptable type used for bindParam."

  /** The binding loop over the parameters; the first unbindable one stops it. */
  function Bind(params: seq<Value>): Result<seq<BoundParam>>
    decreases |params|
  {
    if params == [] then Ok([])
    else
      var bound :- Bind(params[..|params| - 1]);
      var v := Quoting.Normalize(params[|params| - 1]);
      if !Quoting.Bindable(v) then Err(QueryError(Unacceptable))
      else Ok(bound + [BoundParam(|params|, v, KindOf(v))])
  }

  /** The `foreach` of `get_statement` that binds each parameter by position. */
  method BindParams(params: seq<Value>) returns (r: Result<seq<BoundParam>>)
    ensures r == Bind(params)
  {
    var bound: seq<BoundParam> := [];
    var i := 0;
    while i < |params|
      invariant 0 <= i <= |params|
      invariant Bind(params[..i]) == Ok(bound)
    {
      assert params[..i + 1][..i] == params[..i];
      var v := Quoting.Normalize(params[i]);
      if !Quoting.Bindable(v) {
        BindShape(params);
        return Err(QueryError(Unacceptable));
      }
      bound := bound + [BoundParam(i + 1, v, KindOf(v))];
      i := i + 1;
    }
    assert params[..i] == params;
    return Ok(bound);
  }

  /**
   * Binding succeeds exactly when every parameter is bindable; then the
   * i-th parameter is bound at position i + 1, rewritten (booleans to 1 and
   * 0), as an integer, null or text according to its type.
   */
  lemma {:induction false} BindShape(params: seq<Value>)
    ensures Bind(params).Ok? <==> forall i :: 0 <= i < |params| ==> Quoting.Bindable(params[i])
    ensures Bind(params).Err? ==> Bind(params).error == QueryError(Unacceptable)
    ensures Bind(params).Ok? ==>
      var b := Bind(params).value;
      && |b| == |params|
      && (forall i :: 0 <= i < |params| ==> b[i].position == i + 1)
      && (forall i :: 0 <= i < |params| ==> b[i].value == Quoting.Normalize(params[i]))
      && (forall i :: 0 <= i < |params| ==> b[i].kind == KindOf(b[i].value))
    decreases |params|
  {
    if params != [] {
      var init := params[..|params| - 1];
      BindShape(init);
      assert forall i :: 0 <= i < |init| ==> init[i] == params[i];
    }
  }

  // ----- the column filter -----

  /** The payload restricted to the table's columns, in column order. */
  function Keep(columns: seq<string>, data: Row): Row
    decreases |columns|
  {
    if columns == [] then []
    else
      var kept := Keep(columns[..|columns| - 1], data);
      var f := columns[|columns| - 1];
      match Get(data, f)
      case Some(v) => Set(kept, f, v)
      case None => kept
  }

  /** The columns the payload has a value for, in column order. */
  function Present(columns: seq<string>, data: Row): seq<string>
    decreases |columns|
  {
    if columns == [] then []
    else
      var init := Present(columns[..|columns| - 1], data);
      if HasKey(data, columns[|columns| - 1]) then init + [columns[|columns| - 1]] else init
  }

  /** The `foreach` over the table fields that copies each one the payload has. */
  method FilterColumns(columns: seq<string>, data: Row) returns (result: Row)
    ensures result == Keep(columns, data)
  {
    result := [];
    var i := 0;
    while i < |columns|
      invariant 0 <= i <= |columns|
      invariant result == Keep(columns[..i], data)
    {
      assert columns[..i + 1][..i] == columns[..i];
      var f := columns[i];
      if HasKey(data, f) {
        result := Set(result, f, Get(data, f).value);
      }
      i := i + 1;
    }
    assert columns[..i] == columns;
  }

  /** A key survives the filter exactly when it is a column, with the payload's value. */
  lemma {:induction false} KeepGet(columns: seq<string>, data: Row, k: string)
    ensures Get(Keep(columns, data), k) == if k in columns then Get(data, k) else None
    decreases |columns|
  {
    if columns != [] {
      var init := columns[..|columns| - 1];
      var f := columns[|columns| - 1];
      KeepGet(init, data, k);
      assert columns == init + [f];
      if Get(data, f).Some? {
        SetGet(Keep(init, data), f, Get(data, f).value, k);
      }
    }
  }

  /** An empty payload filters to nothing, whatever the columns. */
  lemma {:induction false} KeepEmpty(columns: seq<string>)
    ensures Keep(columns, []) == []
    ensures Present(columns, []) == []
    decreases |columns|
  {
    if columns != [] {
      KeepEmpty(columns[..|columns| - 1]);
    }
  }

  /** With distinct columns, the filtered payload lists the present columns in column order. */
  lemma {:induction false} KeepKeys(columns: seq<string>, data: Row)
    requires NoDup(columns)
    ensures Keys(Keep(columns, data)) == Present(columns, data)
    decreases |columns|
  {
    if columns != [] {
      var init := columns[..|columns| - 1];
      var f := columns[|columns| - 1];
      assert NoDup(init);
      KeepKeys(init, data);
      if Get(data, f).Some? {
        var kept := Keep(init, data);
        KeepGet(init, data, f);
        assert f !in init;
        SetKeys(kept, f, Get(data, f).value);
      }
    }
  }
}
