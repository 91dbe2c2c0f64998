/**
 * PHP runtime values as the database layer sees them, the error kinds it
 * raises, and ordered associative arrays (PHP's `array` with string keys).
 */
module Php {

  datatype Option<+T> = None | Some(value: T) {
    function GetOr(default: T): T {
      match this
      case Some(v) => v
      case None => default
    }
  }

  /** Every exception class the core raises or lets through. */
  datatype Error =
    | QueryError(message: string)       // \Skeleton\Database\Exception\Query
    | ConnectionError(message: string)  // \Skeleton\Database\Exception\Connection
    | GenericError(message: string)     // a plain \Exception
    | NativeError(message: string)      // raised by the native client (PDOException, mysqli)
    | EngineError(message: string)      // raised by the PHP engine (TypeError, ValueError)

  datatype Result<+T> = Ok(value: T) | Err(error: Error) {
    predicate IsFailure() { Err? }
    function PropagateFailure<U>(): Result<U>
      requires Err?
    {
      Err(error)
    }
    function Extract(): T
      requires Ok?
    {
      value
    }
  }

  /**
   * A PHP value. A float is kept as its canonical text (the model never does
   * float arithmetic); an object carries the result of its __toString, if it
   * has one; array keys are kept as text (an integer key as its decimal form).
   */
  datatype Value =
    | VNull
    | VBool(b: bool)
    | VInt(i: int)
    | VFloat(repr: string)
    | VStr(s: string)
    | VArray(entries: seq<Entry>)
    | VObject(toText: Option<string>)
    | VResource(id: int)

  datatype Entry = Entry(key: string, value: Value)

  /** An associative array: entries in insertion order. */
  type Row = seq<Entry>

  function Keys(r: Row): (ks: seq<string>)
    ensures |ks| == |r|
    ensures forall i :: 0 <= i < |r| ==> ks[i] == r[i].key
  {
    if r == [] then [] else [r[0].key] + Keys(r[1..])
  }

  function Values(r: Row): (vs: seq<Value>)
    ensures |vs| == |r|
    ensures forall i :: 0 <= i < |r| ==> vs[i] == r[i].value
  {
    if r == [] then [] else [r[0].value] + Values(r[1..])
  }

  predicate HasKey(r: Row, k: string) {
    k in Keys(r)
  }

  /** No element occurs twice. */
  predicate NoDup<T(==)>(xs: seq<T>) {
    forall i, j :: 0 <= i < j < |xs| ==> xs[i] != xs[j]
  }

  /** No key occurs twice, as in every PHP array. */
  predicate Distinct(r: Row) {
    forall i, j :: 0 <= i < j < |r| ==> r[i].key != r[j].key
  }

  /** `$r[$k]` (None when `array_key_exists` is false). */
  function Get(r: Row, k: string): (v: Option<Value>)
    ensures v.Some? <==> HasKey(r, k)
    ensures v.Some? ==> exists i :: 0 <= i < |r| && r[i].key == k && r[i].value == v.value
  {
    if r == [] then None
    else if r[0].key == k then Some(r[0].value)
    else
      assert Keys(r) == [r[0].key] + Keys(r[1..]);
      var t := Get(r[1..], k);
      assert t.Some? ==> exists i :: 0 <= i < |r| && r[i].key == k && r[i].value == t.value by {
        if t.Some? {
          var i :| 0 <= i < |r[1..]| && r[1..][i].key == k && r[1..][i].value == t.value;
          assert r[i + 1] == r[1..][i];
        }
      }
      t
  }

  /**
   * `$r[$k] = $v`: an existing key keeps its position and takes the new
   * value; a new key is appended.
   */
  function Set(r: Row, k: string, v: Value): (r': Row)
    ensures |r'| == if HasKey(r, k) then |r| else |r| + 1
  {
    if r == [] then [Entry(k, v)]
    else if r[0].key == k then [Entry(k, v)] + r[1..]
    else
      assert Keys(r) == [r[0].key] + Keys(r[1..]);
      [r[0]] + Set(r[1..], k, v)
  }

  lemma {:induction false} SetKeys(r: Row, k: string, v: Value)
    ensures HasKey(r, k) ==> Keys(Set(r, k, v)) == Keys(r)
    ensures !HasKey(r, k) ==> Keys(Set(r, k, v)) == Keys(r) + [k]
  {
    if r != [] && r[0].key != k {
      SetKeys(r[1..], k, v);
      assert Keys(r) == [r[0].key] + Keys(r[1..]);
      assert Keys([r[0]] + Set(r[1..], k, v)) == [r[0].key] + Keys(Set(r[1..], k, v));
    }
  }

  lemma {:induction false} SetGet(r: Row, k: string, v: Value, k': string)
    ensures Get(Set(r, k, v), k') == if k' == k then Some(v) else Get(r, k')
  {
    if r != [] && r[0].key != k {
      SetGet(r[1..], k, v, k');
      assert ([r[0]] + Set(r[1..], k, v))[1..] == Set(r[1..], k, v);
    } else if r != [] {
      assert ([Entry(k, v)] + r[1..])[1..] == r[1..];
    }
  }

  lemma {:induction false} SetDistinct(r: Row, k: string, v: Value)
    requires Distinct(r)
    ensures Distinct(Set(r, k, v))
  {
    var r' := Set(r, k, v);
    SetKeys(r, k, v);
    forall i, j | 0 <= i < j < |r'| ensures r'[i].key != r'[j].key {
      if HasKey(r, k) {
        assert Keys(r') == Keys(r);
        assert Keys(r')[i] == Keys(r)[i] && Keys(r')[j] == Keys(r)[j];
      } else {
        assert Keys(r') == Keys(r) + [k];
        assert Keys(r')[i] == (Keys(r) + [k])[i];
        assert Keys(r')[j] == (Keys(r) + [k])[j];
        if j == |r| {
          assert Keys(r)[i] in Keys(r);
        }
      }
    }
  }

  /** PHP's boolean conversion `(bool)$v`. */
  predicate Truthy(v: Value) {
    match v
    case VNull => false
    case VBool(b) => b
    case VInt(i) => i != 0
    case VFloat(repr) => repr != "0" && repr != "-0"
    case VStr(s) => s != "" && s != "0"
    case VArray(es) => es != []
    case VObject(_) => true
    case VResource(_) => true
  }

  function DigitChar(d: nat): (c: char)
    requires d < 10
    ensures '0' <= c <= '9'
  {
    "0123456789"[d]
  }

  /** Decimal text of a natural number, no leading zeros. */
  function NatText(n: nat): (s: string)
    ensures |s| > 0
    ensures forall i :: 0 <= i < |s| ==> '0' <= s[i] <= '9'
    ensures n > 0 <==> s[0] != '0'
  {
    if n < 10 then [DigitChar(n)] else NatText(n / 10) + [DigitChar(n % 10)]
  }

  /** PHP's string conversion of an integer. */
  function IntText(i: int): string {
    if i < 0 then "-" + NatText(-i) else NatText(i)
  }

  /**
   * PHP's string conversion `(string)$v`; fails where PHP raises an Error
   * (an object without __toString).
   */
  function ToText(v: Value): (r: Result<string>)
    ensures r.Err? <==> v.VObject? && v.toText.None?
    ensures v.VStr? ==> r == Ok(v.s)
  {
    match v
    case VNull => Ok("")
    case VBool(b) => Ok(if b then "1" else "")
    case VInt(i) => Ok(IntText(i))
    case VFloat(repr) => Ok(repr)
    case VStr(s) => Ok(s)
    case VArray(_) => Ok("Array")
    case VObject(t) =>
      if t.Some? then Ok(t.value) else Err(EngineError("Object could not be converted to string"))
    case VResource(id) => Ok("Resource id #" + IntText(id))
  }
}
