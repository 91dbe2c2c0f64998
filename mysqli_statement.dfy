/**
 * The mysqli prepared statement (Driver/Mysqli/Statement.php): the error
 * checks after prepare and execute, the qualified column names of a result,
 * and the decoding of fetched rows into associative arrays.
 *
 * The native statement is an oracle: its sqlstate and errno, the field
 * metadata of its result, and the values each successful `fetch` binds.
 */
module MysqliStatement {
  import opened Php
  import Retry
  import Shapes

  /** One entry of `result_metadata()`, as `fetch_field` returns it. */
  datatype FieldMeta = FieldMeta(db: string, table: string, name: string)

  /** `db.table.name`. */
  function QualifiedName(f: FieldMeta): string {
    f.db + "." + f.table + "." + f.name
  }

  /** `bind_result` with fewer references than the result has fields. */
  const BindMismatch: string := "Number of bind variables doesn't match number of fields in prepared statement"
  /** `bind_result` with no reference at all. */
  const BindNone: string := "mysqli_stmt::bind_result() expects at least 1 argument, 0 given"
  /** `$meta->fetch_field()` when `result_metadata()` returned false: a statement without a result set. */
  const NoResult: string := "Call to a member function fetch_field() on bool"
  /** `bind_result` reached with string keys, which PHP 8 passes as named arguments. */
  const NamedBind: string := "mysqli_stmt::bind_result() does not accept unknown named parameters"

  // ----- construction and execution -----

  /** The blanks PHP allows around a numeric string: space, tab, LF, CR, VT and FF. */
  predicate Blank(c: char) {
    c == ' ' || c == '\t' || c == '\n' || c == '\r' || c == 11 as char || c == 12 as char
  }

  function TrimLeft(s: string): (t: string)
    ensures |t| <= |s|
  {
    if s != [] && Blank(s[0]) then TrimLeft(s[1..]) else s
  }

  function TrimRight(s: string): (t: string)
    ensures |t| <= |s|
  {
    if s != [] && Blank(s[|s| - 1]) then TrimRight(s[..|s| - 1]) else s
  }

  /** `s` without one leading sign. */
  function Unsigned(s: string): string {
    if s != [] && (s[0] == '+' || s[0] == '-') then s[1..] else s
  }

  /** Where the exponent of a numeral starts: its first `e` or `E`, else its length. */
  function ExpAt(s: string): (k: nat)
    ensures k <= |s|
    ensures forall i :: 0 <= i < k ==> s[i] != 'e' && s[i] != 'E'
    ensures k < |s| ==> s[k] == 'e' || s[k] == 'E'
  {
    if s == [] || s[0] == 'e' || s[0] == 'E' then 0 else 1 + ExpAt(s[1..])
  }

  /** A mantissa whose value is zero: zeros and at most one point, with at least one zero. */
  predicate ZeroMantissa(m: string) {
    && '0' in m
    && (forall i :: 0 <= i < |m| ==> m[i] == '0' || m[i] == '.')
    && (forall i, j :: 0 <= i < j < |m| && m[i] == '.' ==> m[j] != '.')
  }

  /** An exponent: `e` or `E`, an optional sign, then at least one digit. */
  predicate Exponent(x: string) {
    && |x| >= 2 && (x[0] == 'e' || x[0] == 'E')
    && var d := Unsigned(x[1..]);
       |d| > 0 && forall i :: 0 <= i < |d| ==> '0' <= d[i] <= '9'
  }

  /**
   * `$sqlstate != 0` is false in PHP 8 exactly when the SQLSTATE is a numeric
   * string of value zero: blanks around, an optional sign, a mantissa of
   * zeros with at most one point, and an optional exponent. Any other text
   * is compared with "0" as a string, and differs from it.
   */
  predicate ZeroState(sqlstate: string) {
    var t := Unsigned(TrimRight(TrimLeft(sqlstate)));
    var k := ExpAt(t);
    ZeroMantissa(t[..k]) && (k == |t| || Exponent(t[k..]))
  }

  /** A SQLSTATE made of zeros only, such as "00000", is zero. */
  lemma AllZerosIsZero(sqlstate: string)
    requires |sqlstate| > 0 && forall i :: 0 <= i < |sqlstate| ==> sqlstate[i] == '0'
    ensures ZeroState(sqlstate)
  {
    assert TrimLeft(sqlstate) == sqlstate;
    assert TrimRight(sqlstate) == sqlstate;
    assert Unsigned(sqlstate) == sqlstate;
    assert sqlstate[0] in sqlstate;
    ExpAtNone(sqlstate);
    assert sqlstate[..|sqlstate|] == sqlstate;
  }

  lemma {:induction false} ExpAtNone(s: string)
    requires forall i :: 0 <= i < |s| ==> s[i] != 'e' && s[i] != 'E'
    ensures ExpAt(s) == |s|
  {
    if s != [] {
      assert forall i :: 0 <= i < |s[1..]| ==> s[1..][i] == s[i + 1];
      ExpAtNone(s[1..]);
    }
  }

  /** A numeral with no blanks around it, no sign and no exponent is zero exactly when its mantissa is. */
  lemma PlainZero(s: string)
    requires s == [] || (!Blank(s[0]) && !Blank(s[|s| - 1]) && s[0] != '+' && s[0] != '-')
    requires ExpAt(s) == |s|
    ensures ZeroState(s) <==> ZeroMantissa(s)
  {
    assert TrimLeft(s) == s;
    assert TrimRight(s) == s;
    assert Unsigned(s) == s;
    assert s[..|s|] == s;
  }

  /** "0E000": zero with an exponent. */
  lemma ZeroWithExponent()
    ensures ZeroState("0E000")
  {
    var s := "0E000";
    assert TrimLeft(s) == s && TrimRight(s) == s && Unsigned(s) == s;
    assert ExpAt(s[1..]) == 0;
    assert ExpAt(s) == 1;
    assert s[..1] == "0" && '0' in s[..1];
    assert s[1..][1..] == "000";
    assert Unsigned("000") == "000";
  }

  /** Zeros, a point, then zeros: a mantissa of value zero. */
  lemma PointedZeros(a: string, b: string)
    requires |a| + |b| > 0
    requires forall i :: 0 <= i < |a| ==> a[i] == '0'
    requires forall i :: 0 <= i < |b| ==> b[i] == '0'
    ensures ZeroMantissa(a + "." + b)
  {
    var m := a + "." + b;
    assert forall i :: 0 <= i < |m| && i != |a| ==> m[i] == '0';
    if |a| > 0 {
      assert m[0] == '0';
    } else {
      assert m[1] == '0';
    }
  }

  /** "000.0": zero with a point. */
  lemma ZeroWithPoint()
    ensures ZeroState("000.0")
  {
    var s := "000.0";
    PointedZeros("000", "0");
    assert s == "000" + "." + "0";
    PlainZero(s);
  }

  /** " 0": zero after a blank. */
  lemma ZeroAfterBlank()
    ensures ZeroState(" 0")
  {
    assert TrimLeft(" 0") == TrimLeft(" 0"[1..]) == "0";
    PlainZero("0");
    assert "0"[0] == '0';
  }

  /** "HY000", the general error class, is not zero. */
  lemma GeneralErrorNotZero()
    ensures !ZeroState("HY000")
  {
    var s := "HY000";
    PlainZero(s);
    assert s[0] == 'H';
  }

  /** "01000", the warning class, is a numeral but not zero. */
  lemma WarningNotZero()
    ensures !ZeroState("01000")
  {
    var s := "01000";
    PlainZero(s);
    assert s[1] == '1';
  }

  /** Text after a zero, and the empty text, are not zero. */
  lemma TextNotZero()
    ensures !ZeroState("0abc")
    ensures !ZeroState("")
  {
    var s := "0abc";
    PlainZero(s);
    assert s[1] == 'a';
    PlainZero("");
  }

  /** The constructor: a prepare that left a non-zero SQLSTATE throws its error text. */
  function Construct(sqlstate: string, error: string): (r: Result<()>)
    ensures r.Ok? <==> ZeroState(sqlstate)
    ensures r.Err? ==> r.error == GenericError(error)
  {
    if ZeroState(sqlstate) then Ok(()) else Err(GenericError(error))
  }

  /**
   * `execute`: a positive errno throws a plain exception with the error
   * text; otherwise the method returns nothing (null).
   */
  function Execute(errno: int, error: string): (o: Retry.Outcome)
    ensures o.OtherFailed? <==> errno > 0
    ensures o.OtherFailed? ==> o.err == GenericError(error)
    ensures o.Succeeded? ==> o.ret == VNull
    ensures !o.QueryFailed?
  {
    if errno > 0 then Retry.OtherFailed(GenericError(error)) else Retry.Succeeded(VNull)
  }

  // ----- column names -----

  /**
   * `get_columns`: one qualified name per field, in metadata order. A
   * statement without a result set has no metadata (None), and asking it
   * for a field is an Error.
   */
  method GetColumns(meta: Option<seq<FieldMeta>>) returns (r: Result<seq<string>>)
    ensures r.Err? <==> meta.None?
    ensures r.Err? ==> r.error == EngineError(NoResult)
    ensures r.Ok? ==> |r.value| == |meta.value|
    ensures r.Ok? ==> forall i :: 0 <= i < |meta.value| ==> r.value[i] == QualifiedName(meta.value[i])
  {
    if meta.None? {
      return Err(EngineError(NoResult));
    }
    var fields := meta.value;
    var columns := [];
    var i := 0;
    while i < |fields|
      invariant 0 <= i <= |fields|
      invariant |columns| == i
      invariant forall j :: 0 <= j < i ==> columns[j] == QualifiedName(fields[j])
    {
      columns := columns + [QualifiedName(fields[i])];
      i := i + 1;
    }
    return Ok(columns);
  }

  function QualifiedNames(meta: seq<FieldMeta>): (names: seq<string>)
    ensures |names| == |meta|
    ensures forall i :: 0 <= i < |meta| ==> names[i] == QualifiedName(meta[i])
  {
    if meta == [] then [] else [QualifiedName(meta[0])] + QualifiedNames(meta[1..])
  }

  /** Index of the last `c` in `s` (`strrpos`), None for PHP's false. */
  function LastIndex(s: string, c: char): (r: Option<nat>)
    ensures r.None? <==> c !in s
    ensures r.Some? ==> r.value < |s| && s[r.value] == c && c !in s[r.value + 1..]
  {
    if s == [] then None
    else if s[|s| - 1] == c then Some(|s| - 1)
    else
      var r := LastIndex(s[..|s| - 1], c);
      assert forall x :: x in s[..|s| - 1] ==> x in s;
      assert c in s ==> c in s[..|s| - 1] by {
        if c in s {
          var k :| 0 <= k < |s| && s[k] == c;
          assert s[..|s| - 1][k] == c;
        }
      }
      if r.Some? then
        assert s[r.value + 1..] == s[..|s| - 1][r.value + 1..] + [s[|s| - 1]];
        r
      else r
  }

  /**
   * `substr($key, strrpos($key, '.') + 1)`: the text after the last dot.
   * Without a dot `strrpos` is false, which counts as 0, and the first
   * character is dropped.
   */
  function BareName(key: string): (b: string)
    ensures '.' !in b
    ensures '.' in key ==> |b| < |key| && key[|key| - |b| - 1] == '.' && key[|key| - |b|..] == b
    ensures '.' !in key ==> b == if key == [] then [] else key[1..]
  {
    match LastIndex(key, '.')
    case Some(p) => key[p + 1..]
    case None => if key == [] then [] else
      assert forall x :: x in key[1..] ==> x in key;
      key[1..]
  }

  /** The bare name of a qualified column is its own name, as long as that has no dot. */
  lemma BareOfQualified(f: FieldMeta)
    requires '.' !in f.name
    ensures BareName(QualifiedName(f)) == f.name
  {
    var q := QualifiedName(f);
    var p := |f.db| + |f.table| + 1;
    assert q[p] == '.';
    assert q[p + 1..] == f.name;
    var l := LastIndex(q, '.').value;
  }

  // ----- decoding rows -----

  /**
   * `$row[$key] = $value` for each pair in order: a new key is appended, a
   * key already present is overwritten where it stands.
   */
  function Store(keys: seq<string>, values: seq<Value>): Row
    requires |values| == |keys|
    decreases |keys|
  {
    if keys == [] then []
    else
      var n := |keys| - 1;
      Set(Store(keys[..n], values[..n]), keys[n], values[n])
  }

  lemma {:induction false} StoreDistinct(keys: seq<string>, values: seq<Value>)
    requires |values| == |keys|
    ensures Distinct(Store(keys, values))
    decreases |keys|
  {
    if keys != [] {
      var n := |keys| - 1;
      StoreDistinct(keys[..n], values[..n]);
      SetDistinct(Store(keys[..n], values[..n]), keys[n], values[n]);
    }
  }

  lemma {:induction false} StoreHas(keys: seq<string>, values: seq<Value>, k: string)
    requires |values| == |keys|
    ensures Get(Store(keys, values), k).Some? <==> k in keys
    decreases |keys|
  {
    if keys != [] {
      var n := |keys| - 1;
      StoreHas(keys[..n], values[..n], k);
      SetGet(Store(keys[..n], values[..n]), keys[n], values[n], k);
      assert keys == keys[..n] + [keys[n]];
    }
  }

  lemma {:induction false} StoreLast(keys: seq<string>, values: seq<Value>, i: nat)
    requires |values| == |keys| && i < |keys| && keys[i] !in keys[i + 1..]
    ensures Get(Store(keys, values), keys[i]) == Some(values[i])
    decreases |keys|
  {
    var n := |keys| - 1;
    var pre, pv := keys[..n], values[..n];
    var before := Store(pre, pv);
    assert Store(keys, values) == Set(before, keys[n], values[n]);
    SetGet(before, keys[n], values[n], keys[i]);
    if i == n {
      assert Get(Set(before, keys[n], values[n]), keys[i]) == Some(values[i]);
    } else {
      assert keys[i + 1..][n - i - 1] == keys[n];
      var tail := pre[i + 1..];
      forall j | 0 <= j < |tail| ensures tail[j] != keys[i] {
        assert tail[j] == keys[i + 1..][j];
      }
      assert keys[i] !in tail;
      StoreLast(pre, pv, i);
      assert pre[i] == keys[i] && pv[i] == values[i];
      assert Get(before, keys[i]) == Some(values[i]);
      assert Get(Set(before, keys[n], values[n]), keys[i]) == Get(before, keys[i]);
    }
  }

  /** The bare name of every column, in order. */
  function BareNames(columns: seq<string>): (b: seq<string>)
    ensures |b| == |columns|
    ensures forall i :: 0 <= i < |columns| ==> b[i] == BareName(columns[i])
  {
    seq(|columns|, i requires 0 <= i < |columns| => BareName(columns[i]))
  }

  /** The row built from one fetch: each value under its column's bare name. */
  function DecodeRow(columns: seq<string>, values: seq<Value>): Row
    requires |values| == |columns|
  {
    Store(BareNames(columns), values)
  }

  /** Keys are unique in a decoded row. */
  lemma DecodeRowDistinct(columns: seq<string>, values: seq<Value>)
    requires |values| == |columns|
    ensures Distinct(DecodeRow(columns, values))
  {
    StoreDistinct(BareNames(columns), values);
  }

  /** The keys of a decoded row are exactly the bare names of the columns. */
  lemma DecodeRowHas(columns: seq<string>, values: seq<Value>, k: string)
    requires |values| == |columns|
    ensures Get(DecodeRow(columns, values), k).Some? <==> exists i :: 0 <= i < |columns| && BareName(columns[i]) == k
  {
    var b := BareNames(columns);
    StoreHas(b, values, k);
    if k in b {
      var i :| 0 <= i < |b| && b[i] == k;
    }
  }

  /** Each key holds the value of the LAST column with that bare name. */
  lemma DecodeRowLast(columns: seq<string>, values: seq<Value>, i: nat)
    requires |values| == |columns| && i < |columns|
    requires forall j :: i < j < |columns| ==> BareName(columns[j]) != BareName(columns[i])
    ensures Get(DecodeRow(columns, values), BareName(columns[i])) == Some(values[i])
  {
    var b := BareNames(columns);
    var tail := b[i + 1..];
    forall y | 0 <= y < |tail| ensures tail[y] != b[i] {
      assert tail[y] == BareName(columns[i + 1 + y]);
    }
    StoreLast(b, values, i);
  }

  /**
   * A later column whose bare name was already seen neither adds a key nor
   * moves one: the keys stay in first-occurrence order.
   */
  lemma RepeatKeepsPosition(columns: seq<string>, values: seq<Value>, c: string, v: Value, i: nat)
    requires |values| == |columns| && i < |columns| && BareName(columns[i]) == BareName(c)
    ensures Keys(DecodeRow(columns + [c], values + [v])) == Keys(DecodeRow(columns, values))
  {
    var b := BareNames(columns);
    var b' := BareNames(columns + [c]);
    var n := |columns|;
    assert b'[..n] == b;
    assert (values + [v])[..n] == values;
    assert Store(b', values + [v]) == Set(Store(b, values), BareName(c), v);
    assert b[i] == BareName(c);
    StoreHas(b, values, BareName(c));
    SetKeys(Store(b, values), BareName(c), v);
  }

  /** The keys `$params` ends up with: each qualified name once, first occurrence first. */
  function Unique(columns: seq<string>): (u: seq<string>)
    ensures NoDup(u)
    ensures forall x :: x in u <==> x in columns
    ensures |u| <= |columns|
    ensures |u| == |columns| <==> NoDup(columns)
    ensures NoDup(columns) ==> u == columns
    decreases |columns|
  {
    if columns == [] then []
    else
      var n := |columns| - 1;
      var u := Unique(columns[..n]);
      assert columns == columns[..n] + [columns[n]];
      assert forall x :: x in columns <==> x in columns[..n] || x == columns[n];
      if columns[n] in u then
        assert !NoDup(columns) by {
          var k :| 0 <= k < n && columns[..n][k] == columns[n];
        }
        u
      else
        assert NoDup(columns) <==> NoDup(columns[..n]);
        u + [columns[n]]
  }

  /** Every fetch of a statement with a result set binds one value per field. */
  predicate Fits(meta: Option<seq<FieldMeta>>, fetched: seq<seq<Value>>) {
    meta.Some? ==> forall k :: 0 <= k < |fetched| ==> |fetched[k]| == |meta.value|
  }

  /**
   * `fetch_assoc` as a function of the native answers, with the references
   * of `$params` handed to `bind_result` by position, on PHP 8.
   */
  function DecodeAll(meta: Option<seq<FieldMeta>>, fetched: seq<seq<Value>>): (r: Result<seq<Row>>)
    requires Fits(meta, fetched)
    ensures r.Ok? <==> meta.Some? && |meta.value| > 0 && NoDup(QualifiedNames(meta.value))
    ensures meta.None? ==> r == Err(EngineError(NoResult))
    ensures meta == Some([]) ==> r == Err(EngineError(BindNone))
    ensures meta.Some? && |meta.value| > 0 && !NoDup(QualifiedNames(meta.value)) ==> r == Err(EngineError(BindMismatch))
    ensures r.Ok? ==> |r.value| == |fetched|
    ensures r.Ok? ==> forall k :: 0 <= k < |fetched| ==>
              r.value[k] == DecodeRow(QualifiedNames(meta.value), fetched[k])
  {
    match meta
    case None => Err(EngineError(NoResult))
    case Some(fields) =>
      if |fields| == 0 then Err(EngineError(BindNone))
      else if !NoDup(QualifiedNames(fields)) then Err(EngineError(BindMismatch))
      else Ok(seq(|fetched|, k requires 0 <= k < |fetched| => DecodeRow(QualifiedNames(fields), fetched[k])))
  }

  /**
   * `fetch_assoc` as written, on PHP 8: `call_user_func_array` passes the
   * string keys of `$params` as named arguments, which `bind_result`
   * refuses, so no result can be fetched.
   */
  function FetchAssocAsWritten(meta: Option<seq<FieldMeta>>): (r: Result<seq<Row>>)
    ensures r.Err? && r.error.EngineError?
    ensures meta.None? ==> r.error == EngineError(NoResult)
  {
    match meta
    case None => Err(EngineError(NoResult))
    case Some(fields) => Err(EngineError(if |fields| == 0 then BindNone else NamedBind))
  }

  /**
   * Where the two readings part: a result with fields of distinct names is
   * decoded when bound by position, and refused as written.
   */
  lemma NamedBindingRefused(meta: Option<seq<FieldMeta>>, fetched: seq<seq<Value>>)
    requires Fits(meta, fetched)
    requires meta.Some? && |meta.value| > 0 && NoDup(QualifiedNames(meta.value))
    ensures DecodeAll(meta, fetched).Ok?
    ensures FetchAssocAsWritten(meta) == Err(EngineError(NamedBind))
  {
  }

  /** One fetched row, stored column by column under the bare names. */
  method DecodeOne(columns: seq<string>, values: seq<Value>) returns (row: Row)
    requires |values| == |columns|
    ensures row == DecodeRow(columns, values)
  {
    row := [];
    ghost var b := BareNames(columns);
    var i := 0;
    while i < |columns|
      invariant 0 <= i <= |columns|
      invariant row == Store(b[..i], values[..i])
    {
      assert b[..i + 1][..i] == b[..i];
      assert values[..i + 1][..i] == values[..i];
      row := Set(row, BareName(columns[i]), values[i]);
      i := i + 1;
    }
    assert b[..i] == b && values[..i] == values;
  }

  /**
   * Any one-column result, such as field `db.t.c` holding 1: by position it
   * is one row with the value under the field's name; as written it is an Error.
   */
  lemma OneColumnResult(f: FieldMeta, v: Value)
    requires '.' !in f.name
    ensures DecodeAll(Some([f]), [[v]]) == Ok([[Entry(f.name, v)]])
    ensures FetchAssocAsWritten(Some([f])) == Err(EngineError(NamedBind))
  {
    var q := QualifiedName(f);
    BareOfQualified(f);
    assert QualifiedNames([f]) == [q];
    var keys := BareNames([q]);
    assert keys == [f.name];
    var values := [v];
    assert keys[..0] == [] && values[..0] == [];
    assert Store(keys, values) == Set(Store([], []), f.name, v);
    assert Set([], f.name, v) == [Entry(f.name, v)];
    assert DecodeRow([q], values) == [Entry(f.name, v)];
    assert NoDup([q]);
    var r := DecodeAll(Some([f]), [values]);
    assert r.Ok? && |r.value| == 1 && r.value[0] == DecodeRow([q], values);
    assert r.value == [[Entry(f.name, v)]];
  }

  /**
   * `fetch_assoc`, binding by position: one row per successful fetch, in
   * fetch order. Binding fails when two columns share a qualified name,
   * because `$params` then holds fewer references than the result has
   * fields, and when there is no reference at all.
   */
  method FetchAssoc(meta: Option<seq<FieldMeta>>, fetched: seq<seq<Value>>) returns (r: Result<seq<Row>>)
    requires Fits(meta, fetched)
    ensures r == DecodeAll(meta, fetched)
  {
    var got := GetColumns(meta);
    if got.Err? {
      return Err(got.error);
    }
    var columns := got.value;
    assert columns == QualifiedNames(meta.value);
    var params := Unique(columns);
    if |params| == 0 {
      return Err(EngineError(BindNone));
    }
    if |params| != |columns| {
      return Err(EngineError(BindMismatch));
    }
    assert params == QualifiedNames(meta.value);
    var data := DecodeRows(params, fetched);
    assert data == DecodeAll(meta, fetched).value;
    r := Ok(data);
  }

  /** The `while ($stmt->fetch())` loop: every fetched row decoded under the bound names, in order. */
  method DecodeRows(columns: seq<string>, fetched: seq<seq<Value>>) returns (data: seq<Row>)
    requires forall k :: 0 <= k < |fetched| ==> |fetched[k]| == |columns|
    ensures |data| == |fetched|
    ensures forall k :: 0 <= k < |fetched| ==> data[k] == DecodeRow(columns, fetched[k])
  {
    data := [];
    var k := 0;
    while k < |fetched|
      invariant 0 <= k <= |fetched| && |data| == k
      invariant forall j :: 0 <= j < k ==> data[j] == DecodeRow(columns, fetched[j])
    {
      var row := DecodeOne(columns, fetched[k]);
      DecodedSnoc(columns, fetched, data, row, k);
      data := data + [row];
      k := k + 1;
    }
  }

  lemma DecodedSnoc(columns: seq<string>, fetched: seq<seq<Value>>, data: seq<Row>, row: Row, k: nat)
    requires k < |fetched| && |data| == k && |fetched[k]| == |columns|
    requires forall j :: 0 <= j < k ==> |fetched[j]| == |columns| && data[j] == DecodeRow(columns, fetched[j])
    requires row == DecodeRow(columns, fetched[k])
    ensures forall j :: 0 <= j < k + 1 ==> |fetched[j]| == |columns| && (data + [row])[j] == DecodeRow(columns, fetched[j])
  {
  }

  /** The keys a stored row ends up with depend on the keys alone. */
  lemma {:induction false} StoreKeys(keys: seq<string>, v1: seq<Value>, v2: seq<Value>)
    requires |v1| == |keys| && |v2| == |keys|
    ensures Keys(Store(keys, v1)) == Keys(Store(keys, v2))
    decreases |keys|
  {
    if keys != [] {
      var n := |keys| - 1;
      StoreKeys(keys[..n], v1[..n], v2[..n]);
      SetKeys(Store(keys[..n], v1[..n]), keys[n], v1[n]);
      SetKeys(Store(keys[..n], v2[..n]), keys[n], v2[n]);
      StoreHas(keys[..n], v1[..n], keys[n]);
      StoreHas(keys[..n], v2[..n], keys[n]);
    }
  }

  /** Every row of one result carries the same keys in the same order. */
  lemma DecodeAllSameKeys(meta: Option<seq<FieldMeta>>, fetched: seq<seq<Value>>)
    requires Fits(meta, fetched)
    requires DecodeAll(meta, fetched).Ok?
    ensures Shapes.SameKeys(DecodeAll(meta, fetched).value)
  {
    var rows := DecodeAll(meta, fetched).value;
    forall k | 0 <= k < |rows| ensures Keys(rows[k]) == Keys(rows[0]) {
      StoreKeys(BareNames(QualifiedNames(meta.value)), fetched[k], fetched[0]);
    }
  }
}
