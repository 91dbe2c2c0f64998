/**
 * The corrections the mysqli proxy's `filter_table_data` applies to an
 * insert or update payload against the table definition (`DESC table`):
 * discarding keys that are not columns, cutting values to the declared
 * length of their column, and filling absent nullable columns.
 */
module MysqliFilter {
  import opened Php
  import opened Strings
  import Config

  /** One row of `DESC table`, as far as the filter reads it. */
  datatype FieldDef = FieldDef(field: string, typ: string, isNull: string, dflt: Option<string>)

  /** A text column of a DESC row; SQL NULL (and a missing column) read as None. */
  function Text(row: Row, name: string): Option<string> {
    match Get(row, name)
    case Some(VStr(s)) => Some(s)
    case _ => None
  }

  /** The field definition a DESC row describes; a null where text is expected reads as "". */
  function Describe(row: Row): FieldDef {
    FieldDef(Text(row, "Field").GetOr(""), Text(row, "Type").GetOr(""),
             Text(row, "Null").GetOr(""), Text(row, "Default"))
  }

  function DescribeAll(rows: seq<Row>): (defs: seq<FieldDef>)
    ensures |defs| == |rows|
    ensures forall i :: 0 <= i < |rows| ==> defs[i] == Describe(rows[i])
  {
    seq(|rows|, i requires 0 <= i < |rows| => Describe(rows[i]))
  }

  // ----- the trim rules -----

  const TinyLimit: nat := 256
  const TextLimit: nat := 65536
  const MediumLimit: nat := 16777216
  const LongLimit: nat := 4294967296

  const LengthTypeError: string := "mb_substr(): Argument #3 ($length) must be of type ?int, string given"
  const StringTypeError: string := "mb_substr(): Argument #1 ($string) must be of type string"

  /** What a column type says about cutting: nothing, a length, or a length PHP cannot read as a number. */
  datatype Rule = NoLimit | Limit(n: nat) | BadLimit

  function StartsWith(s: string, prefix: string): bool {
    |prefix| <= |s| && s[..|prefix|] == prefix
  }

  /** `strstr($s, $c)`: from the first `c` on; false (read as "") when absent. */
  function From(s: string, c: char): (r: string)
    ensures c !in s ==> r == []
    ensures c in s ==> |r| > 0 && r[0] == c
  {
    if s == [] then []
    else if s[0] == c then s
    else From(s[1..], c)
  }

  /** `strstr($s, $c, true)`: up to the first `c`; false (read as "") when absent. */
  function Before(s: string, c: char): (r: string)
    ensures c !in r
  {
    if c !in s then [] else BeforeAll(s, c)
  }

  function BeforeAll(s: string, c: char): (r: string)
    ensures c !in r
  {
    if s == [] || s[0] == c then [] else [s[0]] + BeforeAll(s[1..], c)
  }

  /** `trim($s, $c)`: every `c` removed from both ends. */
  function TrimEnds(s: string, c: char): string
    decreases |s|
  {
    if s != [] && s[0] == c then TrimEnds(s[1..], c)
    else if s != [] && s[|s| - 1] == c then TrimEnds(s[..|s| - 1], c)
    else s
  }

  /** The text between the parentheses of `varchar(n)`. */
  function LimitText(typ: string): string {
    TrimEnds(Before(From(typ, '('), ')'), '(')
  }

  predicate IsDigit(ch: char) { '0' <= ch <= '9' }

  /** The leading run of decimal digits. */
  function LeadingDigits(s: string): (d: string)
    ensures |d| <= |s| && d == s[..|d|]
    ensures forall i :: 0 <= i < |d| ==> IsDigit(d[i])
    ensures |d| < |s| ==> !IsDigit(s[|d|])
  {
    if s == [] || !IsDigit(s[0]) then [] else [s[0]] + LeadingDigits(s[1..])
  }

  function DigitsValue(d: string): nat
    requires forall i :: 0 <= i < |d| ==> IsDigit(d[i])
  {
    if d == [] then 0
    else
      assert IsDigit(d[|d| - 1]);
      DigitsValue(d[..|d| - 1]) * 10 + (d[|d| - 1] as int - '0' as int)
  }

  /**
   * The cutting rule of a column type: `varchar(n)` cuts to n characters
   * (a length string with a numeric prefix is read as that number), the
   * four text and blob sizes cut to their fixed limits.
   */
  function RuleOf(typ: string): (r: Rule)
    ensures r.Limit? && !StartsWith(typ, "varchar") ==>
      r.n == (if typ == "tinytext" || typ == "tinyblob" then TinyLimit
              else if typ == "text" || typ == "blob" then TextLimit
              else if typ == "mediumtext" || typ == "mediumblob" then MediumLimit
              else LongLimit)
    ensures r.BadLimit? ==> StartsWith(typ, "varchar")
    ensures r.NoLimit? <==> (!StartsWith(typ, "varchar") &&
      typ !in {"tinytext", "tinyblob", "text", "blob", "mediumtext", "mediumblob", "longtext", "longblob"})
  {
    if StartsWith(typ, "varchar") then
      var d := LeadingDigits(LimitText(typ));
      if d == [] then BadLimit else Limit(DigitsValue(d))
    else if typ == "tinytext" || typ == "tinyblob" then Limit(TinyLimit)
    else if typ == "text" || typ == "blob" then Limit(TextLimit)
    else if typ == "mediumtext" || typ == "mediumblob" then Limit(MediumLimit)
    else if typ == "longtext" || typ == "longblob" then Limit(LongLimit)
    else NoLimit
  }

  lemma {:induction false} FromAt(a: string, c: char, b: string)
    requires c !in a
    ensures From(a + [c] + b, c) == [c] + b
  {
    if a != [] {
      assert (a + [c] + b)[1..] == a[1..] + [c] + b;
      assert a[0] in a;
      assert forall x :: x in a[1..] ==> x in a;
      FromAt(a[1..], c, b);
    }
  }

  lemma {:induction false} BeforeAt(a: string, c: char, b: string)
    requires c !in a
    ensures Before(a + [c] + b, c) == a
  {
    assert (a + [c] + b)[|a|] == c;
    BeforeAllAt(a, c, b);
  }

  lemma {:induction false} BeforeAllAt(a: string, c: char, b: string)
    requires c !in a
    ensures BeforeAll(a + [c] + b, c) == a
  {
    if a != [] {
      assert (a + [c] + b)[1..] == a[1..] + [c] + b;
      assert a[0] in a;
      assert forall x :: x in a[1..] ==> x in a;
      BeforeAllAt(a[1..], c, b);
      assert [a[0]] + a[1..] == a;
    }
  }

  lemma {:induction false} LeadingDigitsAll(s: string)
    requires forall i :: 0 <= i < |s| ==> IsDigit(s[i])
    ensures LeadingDigits(s) == s
  {
  }

  /** The limit text of `varchar(n)` is n. */
  lemma LimitTextOf(digits: string)
    requires digits != [] && forall i :: 0 <= i < |digits| ==> IsDigit(digits[i])
    ensures LimitText("varchar(" + digits + ")") == digits
  {
    var typ := "varchar(" + digits + ")";
    var paren := "(" + digits;
    assert typ == "varchar" + ['('] + (digits + ")");
    FromAt("varchar", '(', digits + ")");
    assert ['('] + (digits + ")") == paren + [')'] + [];
    assert ')' !in paren by {
      assert forall i :: 0 <= i < |paren| ==> paren[i] == '(' || IsDigit(paren[i]);
    }
    BeforeAt(paren, ')', []);
    assert paren[1..] == digits;
    assert Before(From(typ, '('), ')') == paren;
    assert TrimEnds(paren, '(') == TrimEnds(digits, '(');
    assert IsDigit(digits[0]) && IsDigit(digits[|digits| - 1]);
    assert TrimEnds(digits, '(') == digits;
  }

  /** A `varchar(n)` column, n written in decimal digits, is cut to n characters. */
  lemma VarcharLimit(digits: string)
    requires digits != [] && forall i :: 0 <= i < |digits| ==> IsDigit(digits[i])
    ensures RuleOf("varchar(" + digits + ")") == Limit(DigitsValue(digits))
  {
    var typ := "varchar(" + digits + ")";
    assert typ[..7] == "varchar";
    LimitTextOf(digits);
    LeadingDigitsAll(digits);
  }

  /** The string argument `mb_substr` receives: arrays and resources are refused. */
  function StringArg(v: Value): (r: Result<string>)
    ensures r.Ok? ==> ToText(v) == r
  {
    match v
    case VArray(_) => Err(EngineError(StringTypeError + ", array given"))
    case VResource(_) => Err(EngineError(StringTypeError + ", resource given"))
    case _ => ToText(v)
  }

  /** The value stored for a column after the trim rules (only when auto_trim is set and the value is not null). */
  function Trim(c: Config.Settings, typ: string, v: Value): Result<Value> {
    if !c.autoTrim || v == VNull then Ok(v)
    else match RuleOf(typ)
      case NoLimit => Ok(v)
      case Limit(n) =>
        var t :- StringArg(v);
        Ok(VStr(Take(t, n)))
      case BadLimit =>
        var _ :- StringArg(v);
        Err(EngineError(LengthTypeError))
  }

  /**
   * A trimmed value is the value itself, or the string form of the value cut
   * to a prefix no longer than the column's limit. Errors only come with
   * auto_trim set.
   */
  lemma TrimIsPrefix(c: Config.Settings, typ: string, v: Value)
    ensures Trim(c, typ, v).Err? ==> c.autoTrim && v != VNull && !RuleOf(typ).NoLimit?
    ensures Trim(c, typ, v).Ok? ==>
      var w := Trim(c, typ, v).value;
      w == v ||
      (c.autoTrim && RuleOf(typ).Limit? && ToText(v).Ok? &&
       w.VStr? && w.s <= ToText(v).value && |w.s| <= RuleOf(typ).n)
  {
  }

  /** Without auto_trim, or for a null value, nothing is cut. */
  lemma NoTrimKeepsValue(c: Config.Settings, typ: string, v: Value)
    requires !c.autoTrim || v == VNull || RuleOf(typ).NoLimit?
    ensures Trim(c, typ, v) == Ok(v)
  {
  }

  // ----- the loop over the table definition -----

  /** What auto_null stores for an absent nullable column: null for a null or empty default. */
  function NullFill(dflt: Option<string>): Value {
    if dflt == None || dflt == Some("") then VNull else VStr(dflt.value)
  }

  /** The result the loop starts from: empty with auto_discard, else the payload. */
  function Start(c: Config.Settings, data: Row): Row {
    if c.autoDiscard then [] else data
  }

  /** One pass of the loop body for field `d`. */
  function Step(c: Config.Settings, d: FieldDef, data: Row, result: Row): Result<Row> {
    var r1 :- (match Get(data, d.field)
               case Some(v) =>
                 var w :- Trim(c, d.typ, v);
                 Ok(Set(result, d.field, w))
               case None => Ok(result));
    if c.autoNull && !HasKey(data, d.field) && d.isNull == "YES" then Ok(Set(r1, d.field, NullFill(d.dflt)))
    else Ok(r1)
  }

  /** The loop over the first |defs| fields. */
  function Run(c: Config.Settings, defs: seq<FieldDef>, data: Row): Result<Row>
    decreases |defs|
  {
    if defs == [] then Ok(Start(c, data))
    else
      var res :- Run(c, defs[..|defs| - 1], data);
      Step(c, defs[|defs| - 1], data, res)
  }

  /** The corrections loop (the `foreach` over the table definition). */
  method Correct(c: Config.Settings, defs: seq<FieldDef>, data: Row) returns (r: Result<Row>)
    ensures r == Run(c, defs, data)
  {
    var result := Start(c, data);
    var i := 0;
    while i < |defs|
      invariant 0 <= i <= |defs|
      invariant Run(c, defs[..i], data) == Ok(result)
    {
      RunNext(c, defs, data, i);
      ghost var before := result;
      var d := defs[i];
      var value := Get(data, d.field);
      if value.Some? {
        var w := Trim(c, d.typ, value.value);
        if w.Err? {
          assert Step(c, d, data, before) == Err(w.error);
          RunStops(c, defs, data, i + 1);
          return Err(w.error);
        }
        result := Set(result, d.field, w.value);
      }
      if c.autoNull && !HasKey(data, d.field) && d.isNull == "YES" {
        result := Set(result, d.field, NullFill(d.dflt));
      }
      assert Step(c, d, data, before) == Ok(result);
      i := i + 1;
    }
    assert defs[..i] == defs;
    return Ok(result);
  }

  /** One more field: the pass over it, unless the loop has already failed. */
  lemma RunNext(c: Config.Settings, defs: seq<FieldDef>, data: Row, i: nat)
    requires i < |defs|
    ensures Run(c, defs[..i + 1], data) ==
            if Run(c, defs[..i], data).Err? then Run(c, defs[..i], data)
            else Step(c, defs[i], data, Run(c, defs[..i], data).value)
  {
    assert defs[..i + 1][..i] == defs[..i];
  }

  /** Once the loop fails it stays failed with the same error. */
  lemma {:induction false} RunStops(c: Config.Settings, defs: seq<FieldDef>, data: Row, i: nat)
    requires i <= |defs| && Run(c, defs[..i], data).Err?
    ensures Run(c, defs, data) == Run(c, defs[..i], data)
    decreases |defs| - i
  {
    if i < |defs| {
      assert defs[..i + 1][..i] == defs[..i];
      RunStops(c, defs, data, i + 1);
    } else {
      assert defs[..i] == defs;
    }
  }

  /** `filter_table_data` once the definition is known. */
  function Filtered(c: Config.Settings, defs: seq<FieldDef>, data: Row): Result<Row> {
    if !Config.Corrects(c) then Ok(data)
    else
      var r :- Run(c, defs, data);
      if |data| == 0 then Ok([]) else Ok(r)
  }

  // ----- what the filter promises -----

  function Names(defs: seq<FieldDef>): (ns: seq<string>)
    ensures |ns| == |defs|
    ensures forall i :: 0 <= i < |defs| ==> ns[i] == defs[i].field
  {
    seq(|defs|, i requires 0 <= i < |defs| => defs[i].field)
  }

  /** DESC lists every column once. */
  predicate UniqueNames(defs: seq<FieldDef>) {
    forall i, j :: 0 <= i < j < |defs| ==> defs[i].field != defs[j].field
  }

  /** The definition of column `k`, if the table has one. */
  function Find(defs: seq<FieldDef>, k: string): (r: Option<FieldDef>)
    ensures r.Some? <==> k in Names(defs)
    ensures r.Some? ==> r.value in defs && r.value.field == k
  {
    if defs == [] then None
    else if defs[|defs| - 1].field == k then Some(defs[|defs| - 1])
    else
      var r := Find(defs[..|defs| - 1], k);
      assert Names(defs) == Names(defs[..|defs| - 1]) + [defs[|defs| - 1].field];
      r
  }

  /**
   * What the loop leaves under key `k`, read off the definition directly:
   * a key that is no column keeps its starting value; a column present in
   * the payload holds its trimmed value; an absent column is filled only by
   * auto_null and only when nullable.
   */
  function Expected(c: Config.Settings, defs: seq<FieldDef>, data: Row, k: string): Option<Result<Value>> {
    match Find(defs, k)
    case None => (match Get(Start(c, data), k) case Some(v) => Some(Ok(v)) case None => None)
    case Some(d) =>
      match Get(data, k)
      case Some(v) => Some(Trim(c, d.typ, v))
      case None =>
        if c.autoNull && d.isNull == "YES" then Some(Ok(NullFill(d.dflt)))
        else (match Get(Start(c, data), k) case Some(v) => Some(Ok(v)) case None => None)
  }

  function Lift(o: Option<Value>): Option<Result<Value>> {
    match o
    case Some(v) => Some(Ok(v))
    case None => None
  }

  /** What one pass leaves under key `k`. */
  lemma StepGet(c: Config.Settings, d: FieldDef, data: Row, res: Row, k: string)
    requires Step(c, d, data, res).Ok?
    ensures d.field != k ==> Get(Step(c, d, data, res).value, k) == Get(res, k)
    ensures d.field == k ==> (Lift(Get(Step(c, d, data, res).value, k)) ==
      match Get(data, k)
      case Some(v) => Some(Trim(c, d.typ, v))
      case None => if c.autoNull && d.isNull == "YES" then Some(Ok(NullFill(d.dflt))) else Lift(Get(res, k)))
  {
    var v := Get(data, d.field);
    var r1 := if v.Some? then Set(res, d.field, Trim(c, d.typ, v.value).value) else res;
    if v.Some? {
      SetGet(res, d.field, Trim(c, d.typ, v.value).value, k);
    }
    if c.autoNull && !HasKey(data, d.field) && d.isNull == "YES" {
      SetGet(r1, d.field, NullFill(d.dflt), k);
    }
  }

  /** The loop agrees with the direct reading, key by key. */
  lemma {:induction false} RunGet(c: Config.Settings, defs: seq<FieldDef>, data: Row, k: string)
    requires UniqueNames(defs) && Run(c, defs, data).Ok?
    ensures Lift(Get(Run(c, defs, data).value, k)) == Expected(c, defs, data, k)
    decreases |defs|
  {
    if defs != [] {
      var n := |defs| - 1;
      var pre := defs[..n];
      var d := defs[n];
      assert UniqueNames(pre);
      RunGet(c, pre, data, k);
      var res := Run(c, pre, data).value;
      StepGet(c, d, data, res, k);
      if d.field == k {
        assert Find(pre, k).None? by {
          forall i | 0 <= i < |pre| ensures pre[i].field != k {
            assert defs[i].field != defs[n].field;
          }
        }
      }
    }
  }

  // ----- corollaries -----

  /** With every flag off, the payload comes back unchanged (and the table is never read). */
  lemma FilterOff(c: Config.Settings, defs: seq<FieldDef>, data: Row)
    requires !Config.Corrects(c)
    ensures Filtered(c, defs, data) == Ok(data)
  {
  }

  /** The defaults switch every correction off. */
  lemma DefaultsPassThrough()
    ensures !Config.Corrects(Config.Defaults)
  {
  }

  /** The loop never fails on an empty payload: nothing is there to trim. */
  lemma {:induction false} RunEmptyOk(c: Config.Settings, defs: seq<FieldDef>)
    ensures Run(c, defs, []).Ok?
    decreases |defs|
  {
    if defs != [] {
      RunEmptyOk(c, defs[..|defs| - 1]);
    }
  }

  /** With some correction on, an empty payload gives an empty result. */
  lemma FilterEmpty(c: Config.Settings, defs: seq<FieldDef>)
    requires Config.Corrects(c)
    ensures Filtered(c, defs, []) == Ok([])
  {
    RunEmptyOk(c, defs);
  }

  /** With auto_discard, every key of the result is a column of the table. */
  lemma DiscardKeepsOnlyColumns(c: Config.Settings, defs: seq<FieldDef>, data: Row, k: string)
    requires Config.Corrects(c) && c.autoDiscard && UniqueNames(defs)
    requires Filtered(c, defs, data).Ok? && HasKey(Filtered(c, defs, data).value, k)
    ensures k in Names(defs)
  {
    if data != [] {
      RunGet(c, defs, data, k);
    }
  }

  /**
   * Without auto_discard, every key of the payload survives, and a key that
   * is no column keeps its value.
   */
  lemma NoDiscardKeepsPayload(c: Config.Settings, defs: seq<FieldDef>, data: Row, k: string)
    requires Config.Corrects(c) && !c.autoDiscard && UniqueNames(defs)
    requires Filtered(c, defs, data).Ok? && HasKey(data, k)
    ensures HasKey(Filtered(c, defs, data).value, k)
    ensures k !in Names(defs) ==> Get(Filtered(c, defs, data).value, k) == Get(data, k)
  {
    RunGet(c, defs, data, k);
  }

  /** A column present in the payload holds its value as the trim rules leave it. */
  lemma PresentColumnTrimmed(c: Config.Settings, defs: seq<FieldDef>, data: Row, i: nat)
    requires Config.Corrects(c) && UniqueNames(defs) && i < |defs|
    requires Filtered(c, defs, data).Ok? && HasKey(data, defs[i].field)
    ensures HasKey(Filtered(c, defs, data).value, defs[i].field)
    ensures Ok(Get(Filtered(c, defs, data).value, defs[i].field).value) ==
            Trim(c, defs[i].typ, Get(data, defs[i].field).value)
  {
    RunGet(c, defs, data, defs[i].field);
    assert Find(defs, defs[i].field) == Some(defs[i]) by {
      var f := Find(defs, defs[i].field).value;
      var j :| 0 <= j < |defs| && defs[j] == f;
    }
  }

  /**
   * A column absent from the payload appears in the result only through
   * auto_null, only when nullable, and then holds null or its default (an
   * empty payload always gives an empty result, see FilterEmpty).
   */
  lemma AbsentColumnFilled(c: Config.Settings, defs: seq<FieldDef>, data: Row, i: nat)
    requires Config.Corrects(c) && UniqueNames(defs) && i < |defs|
    requires data != [] && Filtered(c, defs, data).Ok? && !HasKey(data, defs[i].field)
    ensures HasKey(Filtered(c, defs, data).value, defs[i].field) <==> c.autoNull && defs[i].isNull == "YES"
    ensures HasKey(Filtered(c, defs, data).value, defs[i].field) ==>
            Get(Filtered(c, defs, data).value, defs[i].field) == Some(NullFill(defs[i].dflt))
  {
    RunGet(c, defs, data, defs[i].field);
    assert Find(defs, defs[i].field) == Some(defs[i]) by {
      var f := Find(defs, defs[i].field).value;
      var j :| 0 <= j < |defs| && defs[j] == f;
    }
  }
}
