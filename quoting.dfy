/**
 * Value rendering both proxies share: `quote` and `escape` (Mysqli/Proxy.php
 * and Pdo/Proxy.php), and the boolean rewrite and type gate that
 * `get_statement` applies to bound parameters.
 *
 * `is_numeric` on text and the native escaping routine
 * (`real_escape_string`, `PDO::quote`) are oracles handed in as functions.
 */
module Quoting {
  import opened Php

  const EscapeTypeError: string := "Argument #1 ($string) must be of type string"

  /**
   * The text the native escaping routine receives for a scalar: PHP's string
   * conversion, refused (TypeError) for a resource or an object without
   * __toString.
   */
  function EscapeArg(v: Value): (r: Result<string>)
    requires !v.VArray?
    ensures r.Err? <==> v.VResource? || (v.VObject? && v.toText.None?)
    ensures r.Ok? ==> ToText(v) == r
  {
    match v
    case VResource(_) => Err(EngineError(EscapeTypeError + ", resource given"))
    case VObject(None) => Err(EngineError(EscapeTypeError + ", object given"))
    case _ => ToText(v)
  }

  /** `escape`: arrays element by element with their keys, a scalar through the native routine. */
  function Escape(v: Value, escape: string -> string): Result<Value>
    decreases v, 1
  {
    if v.VArray? then
      var es' :- EscapeEntries(v.entries, escape);
      Ok(VArray(es'))
    else
      var t :- EscapeArg(v);
      Ok(VStr(escape(t)))
  }

  function EscapeEntries(es: seq<Entry>, escape: string -> string): Result<seq<Entry>>
    decreases es, 0
  {
    if es == [] then Ok([])
    else
      var v :- Escape(es[0].value, escape);
      var rest :- EscapeEntries(es[1..], escape);
      Ok([Entry(es[0].key, v)] + rest)
  }

  /** Whether `escape` hands anything to the native routine: a scalar at any depth. */
  predicate HasScalar(v: Value)
    decreases v, 1
  {
    if v.VArray? then EntriesHaveScalar(v.entries) else true
  }

  predicate EntriesHaveScalar(es: seq<Entry>)
    decreases es, 0
  {
    es != [] && (HasScalar(es[0].value) || EntriesHaveScalar(es[1..]))
  }

  /**
   * `escape` keeps the shape of the value (an array keeps its keys in order,
   * every scalar becomes text) and fails only where the native routine is reached.
   */
  lemma {:induction false} EscapeShape(v: Value, escape: string -> string)
    ensures var r := Escape(v, escape);
            && (r.Err? ==> HasScalar(v))
            && (r.Ok? ==> r.value.VArray? == v.VArray?)
            && (r.Ok? && !v.VArray? ==> r.value.VStr?)
            && (r.Ok? && v.VArray? ==> Keys(r.value.entries) == Keys(v.entries))
    decreases v, 1
  {
    if v.VArray? {
      EscapeEntriesShape(v.entries, escape);
    }
  }

  lemma {:induction false} EscapeEntriesShape(es: seq<Entry>, escape: string -> string)
    ensures var r := EscapeEntries(es, escape);
            && (r.Err? ==> EntriesHaveScalar(es))
            && (r.Ok? ==> Keys(r.value) == Keys(es))
    decreases es, 0
  {
    if es != [] {
      EscapeShape(es[0].value, escape);
      EscapeEntriesShape(es[1..], escape);
      var r := EscapeEntries(es, escape);
      if r.Ok? {
        var rest := EscapeEntries(es[1..], escape).value;
        assert r.value[1..] == rest;
        assert Keys(r.value) == [es[0].key] + Keys(rest);
        assert Keys(es) == [es[0].key] + Keys(es[1..]);
      }
    }
  }

  /** `is_numeric`: integers and floats always, text as the oracle says. */
  predicate Numeric(v: Value, numeric: string -> bool) {
    v.VInt? || v.VFloat? || (v.VStr? && numeric(v.s))
  }

  /**
   * `quote`: arrays element by element with their keys; null becomes the
   * text NULL, a boolean 1 or 0, a numeric value stays as it is; anything
   * else is escaped and, when `wrap` is set, put between double quotes.
   */
  function Quote(v: Value, wrap: bool, numeric: string -> bool, escape: string -> string): Result<Value>
    decreases v, 1
  {
    if v.VArray? then
      var es' :- QuoteEntries(v.entries, wrap, numeric, escape);
      Ok(VArray(es'))
    else if v.VNull? then Ok(VStr("NULL"))
    else if v.VBool? then Ok(VInt(if v.b then 1 else 0))
    else if Numeric(v, numeric) then Ok(v)
    else
      var t :- EscapeArg(v);
      Ok(VStr(if wrap then "\"" + escape(t) + "\"" else escape(t)))
  }

  function QuoteEntries(es: seq<Entry>, wrap: bool, numeric: string -> bool, escape: string -> string)
    : Result<seq<Entry>>
    decreases es, 0
  {
    if es == [] then Ok([])
    else
      var v :- Quote(es[0].value, wrap, numeric, escape);
      var rest :- QuoteEntries(es[1..], wrap, numeric, escape);
      Ok([Entry(es[0].key, v)] + rest)
  }

  /** Whether quoting `v` calls the native escaping routine at least once. */
  predicate ReachesEscape(v: Value, numeric: string -> bool)
    decreases v, 1
  {
    match v
    case VArray(es) => EntriesReachEscape(es, numeric)
    case VNull => false
    case VBool(_) => false
    case _ => !Numeric(v, numeric)
  }

  predicate EntriesReachEscape(es: seq<Entry>, numeric: string -> bool)
    decreases es, 0
  {
    es != [] && (ReachesEscape(es[0].value, numeric) || EntriesReachEscape(es[1..], numeric))
  }

  /** A quoted value holds no null and no boolean, at any depth. */
  predicate Rendered(v: Value)
    decreases v, 1
  {
    match v
    case VArray(es) => EntriesRendered(es)
    case VNull => false
    case VBool(_) => false
    case _ => true
  }

  predicate EntriesRendered(es: seq<Entry>)
    decreases es, 0
  {
    es != [] ==> Rendered(es[0].value) && EntriesRendered(es[1..])
  }

  /**
   * Quoting keeps the shape of the value: an array stays an array with the
   * same keys in the same order, a scalar stays a scalar; nothing null or
   * boolean survives; and it fails only where the escaping routine is reached.
   */
  lemma {:induction false} QuoteShape(v: Value, wrap: bool, numeric: string -> bool, escape: string -> string)
    ensures var r := Quote(v, wrap, numeric, escape);
            && (r.Err? ==> ReachesEscape(v, numeric))
            && (r.Ok? ==> r.value.VArray? == v.VArray? && Rendered(r.value))
            && (r.Ok? && v.VArray? ==> Keys(r.value.entries) == Keys(v.entries))
    decreases v, 1
  {
    if v.VArray? {
      QuoteEntriesShape(v.entries, wrap, numeric, escape);
    }
  }

  lemma {:induction false} QuoteEntriesShape(es: seq<Entry>, wrap: bool, numeric: string -> bool,
                                            escape: string -> string)
    ensures var r := QuoteEntries(es, wrap, numeric, escape);
            && (r.Err? ==> EntriesReachEscape(es, numeric))
            && (r.Ok? ==> Keys(r.value) == Keys(es) && EntriesRendered(r.value))
    decreases es, 0
  {
    if es != [] {
      QuoteShape(es[0].value, wrap, numeric, escape);
      QuoteEntriesShape(es[1..], wrap, numeric, escape);
      var r := QuoteEntries(es, wrap, numeric, escape);
      if r.Ok? {
        var v := Quote(es[0].value, wrap, numeric, escape).value;
        var rest := QuoteEntries(es[1..], wrap, numeric, escape).value;
        assert r.value == [Entry(es[0].key, v)] + rest;
        assert r.value[1..] == rest;
        assert Keys(r.value) == [es[0].key] + Keys(rest);
        assert Keys(es) == [es[0].key] + Keys(es[1..]);
      }
    }
  }

  /** A value that never reaches the escaping routine quotes without failing, whatever the routine does. */
  lemma {:induction false} QuoteWithoutEscape(v: Value, wrap: bool, numeric: string -> bool,
                                              escape: string -> string, other: string -> string)
    requires !ReachesEscape(v, numeric)
    ensures Quote(v, wrap, numeric, escape).Ok?
    ensures Quote(v, wrap, numeric, escape) == Quote(v, wrap, numeric, other)
    decreases v, 1
  {
    if v.VArray? {
      QuoteEntriesWithoutEscape(v.entries, wrap, numeric, escape, other);
    }
  }

  lemma {:induction false} QuoteEntriesWithoutEscape(es: seq<Entry>, wrap: bool, numeric: string -> bool,
                                                     escape: string -> string, other: string -> string)
    requires !EntriesReachEscape(es, numeric)
    ensures QuoteEntries(es, wrap, numeric, escape).Ok?
    ensures QuoteEntries(es, wrap, numeric, escape) == QuoteEntries(es, wrap, numeric, other)
    decreases es, 0
  {
    if es != [] {
      QuoteWithoutEscape(es[0].value, wrap, numeric, escape, other);
      QuoteEntriesWithoutEscape(es[1..], wrap, numeric, escape, other);
    }
  }

  /** The scalar cases of `quote`, one by one. */
  lemma QuoteScalars(v: Value, wrap: bool, numeric: string -> bool, escape: string -> string)
    ensures v == VNull ==> Quote(v, wrap, numeric, escape) == Ok(VStr("NULL"))
    ensures v == VBool(true) ==> Quote(v, wrap, numeric, escape) == Ok(VInt(1))
    ensures v == VBool(false) ==> Quote(v, wrap, numeric, escape) == Ok(VInt(0))
    ensures Numeric(v, numeric) ==> Quote(v, wrap, numeric, escape) == Ok(v)
    ensures v.VStr? && !numeric(v.s) ==>
      Quote(v, wrap, numeric, escape) == Ok(VStr(if wrap then "\"" + escape(v.s) + "\"" else escape(v.s)))
  {
  }

  // ----- bound parameters -----

  /** `get_statement` rewrites a boolean parameter to 1 or 0 before typing it. */
  function Normalize(v: Value): (w: Value)
    ensures !w.VBool?
    ensures v.VBool? ==> w == VInt(if v.b then 1 else 0)
    ensures !v.VBool? ==> w == v
  {
    if v.VBool? then VInt(if v.b then 1 else 0) else v
  }

  /** A parameter the drivers accept for binding: not an array, object or resource. */
  predicate Bindable(v: Value) {
    !(v.VArray? || v.VObject? || v.VResource?)
  }
}
