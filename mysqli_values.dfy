/**
 * What the mysqli proxy's `get_statement` computes from a query and its
 * parameters before anything reaches the server: the text it appends to the
 * query log, and the type string and values it hands to `bind_param`.
 */
module MysqliValues {
  import opened Php
  import opened Strings
  import Quoting

  // ----- the query log -----

  /**
   * How the logging callback renders the parameter that replaces a `?`:
   * null (also once the parameters run out) as NULL, text in double quotes
   * followed by a space, anything else as its string conversion.
   */
  function Render(p: Value): (r: Result<string>)
    ensures p.VStr? ==> r == Ok("\"" + p.s + "\" ")
    ensures r.Err? <==> p.VObject? && p.toText.None?
  {
    if p.VNull? then Ok("NULL")
    else if p.VStr? then Ok("\"" + p.s + "\" ")
    else ToText(p)
  }

  /** The parameter the next `?` takes: the first one left, or null when none is left. */
  function Next(params: seq<Value>): Value {
    if params == [] then VNull else params[0]
  }

  function Rest(params: seq<Value>): seq<Value> {
    if params == [] then [] else params[1..]
  }

  /** The logged text: the query with every `?`, left to right, replaced by the next rendered parameter. */
  function LogText(query: string, params: seq<Value>): Result<string>
    decreases |query|
  {
    if query == [] then Ok([])
    else if query[0] == '?' then
      var t :- Render(Next(params));
      var rest :- LogText(query[1..], Rest(params));
      Ok(t + rest)
    else
      var rest :- LogText(query[1..], params);
      Ok([query[0]] + rest)
  }

  /**
   * The reference reading of the log: the pieces of the query between the
   * `?` marks, with the rendered parameters placed between them in order.
   */
  function Interleave(pieces: seq<string>, params: seq<Value>): Result<string>
    requires |pieces| >= 1
    decreases |pieces|
  {
    if |pieces| == 1 then Ok(pieces[0])
    else
      var t :- Render(Next(params));
      var rest :- Interleave(pieces[1..], Rest(params));
      Ok(pieces[0] + t + rest)
  }

  lemma {:induction false} InterleavePrepend(c: char, pieces: seq<string>, params: seq<Value>)
    requires |pieces| >= 1
    ensures Interleave([[c] + pieces[0]] + pieces[1..], params) ==
            (var r := Interleave(pieces, params); if r.Ok? then Ok([c] + r.value) else r)
  {
    var ps := [[c] + pieces[0]] + pieces[1..];
    assert ps[1..] == pieces[1..];
    if |pieces| > 1 {
      var t := Render(Next(params));
      var rest := Interleave(pieces[1..], Rest(params));
      if t.Ok? && rest.Ok? {
        assert [c] + pieces[0] + t.value + rest.value == [c] + (pieces[0] + t.value + rest.value);
      }
    }
  }

  /** An empty piece before a `?`: the rendered parameter, then the interleaving of the rest. */
  lemma InterleaveHole(rest: seq<string>, params: seq<Value>)
    requires |rest| >= 1
    ensures Interleave([[]] + rest, params) ==
            (var t := Render(Next(params));
             var r := Interleave(rest, Rest(params));
             if t.Err? then Err(t.error) else if r.Err? then Err(r.error) else Ok(t.value + r.value))
  {
    var ps := [[]] + rest;
    assert |ps| > 1 && ps[0] == [] && ps[1..] == rest;
    var t := Render(Next(params));
    var r := Interleave(rest, Rest(params));
    if t.Ok? && r.Ok? {
      calc {
        Interleave(ps, params);
        Ok(ps[0] + t.value + r.value);
        { assert ps[0] + t.value == t.value; }
        Ok(t.value + r.value);
      }
    }
  }

  /** The log text is the interleaving of the query's `?`-separated pieces with the rendered parameters. */
  lemma {:induction false} LogTextPieces(query: string, params: seq<Value>)
    ensures LogText(query, params) == Interleave(Split(query, '?'), params)
    decreases |query|
  {
    if query != [] {
      var rest := Split(query[1..], '?');
      if query[0] == '?' {
        LogTextPieces(query[1..], Rest(params));
        assert Split(query, '?') == [[]] + rest;
        InterleaveHole(rest, params);
      } else {
        LogTextPieces(query[1..], params);
        InterleavePrepend(query[0], rest, params);
      }
    }
  }

  /** A query without placeholders is logged as it is. */
  lemma LogPlain(query: string, params: seq<Value>)
    requires '?' !in query
    ensures LogText(query, params) == Ok(query)
  {
    LogTextPieces(query, params);
    SplitFree(query, '?');
  }

  /** One placeholder: the text before it, the rendered first parameter, then the rest. */
  lemma LogOne(a: string, b: string, p: Value, params: seq<Value>)
    requires '?' !in a && '?' !in b
    requires Render(p).Ok?
    ensures LogText(a + "?" + b, [p] + params) == Ok(a + Render(p).value + b)
  {
    LogTextPieces(a + "?" + b, [p] + params);
    assert a + "?" + b == a + ['?'] + b;
    SplitAround(a, b, '?');
    SplitFree(b, '?');
    assert Split(a + "?" + b, '?') == [a, b];
    assert [a, b][1..] == [b];
  }

  // ----- the bind_param arguments -----

  const Unacceptable: string := "Unacceptable type used for bind_param."

  /** The type character of a (rewritten) bindable parameter. */
  function TypeChar(v: Value): (c: char)
    ensures v.VInt? ==> c == 'i'
    ensures v.VFloat? ==> c == 'd'
    ensures v.VNull? || v.VStr? ==> c == 's'
  {
    if v.VInt? then 'i' else if v.VFloat? then 'd' else 's'
  }

  /** What `bind_param` receives: the type string and the parameters in order. */
  datatype Binding = Binding(types: string, values: seq<Value>)

  /** The type loop over the first |params| parameters; the first unbindable one stops it. */
  function Bind(params: seq<Value>): Result<Binding>
    decreases |params|
  {
    if params == [] then Ok(Binding("", []))
    else
      var b :- Bind(params[..|params| - 1]);
      var v := Quoting.Normalize(params[|params| - 1]);
      if !Quoting.Bindable(v) then Err(QueryError(Unacceptable))
      else Ok(Binding(b.types + [TypeChar(v)], b.values + [v]))
  }

  /** The loop of `get_statement` that builds the type string and the references. */
  method BindTypes(params: seq<Value>) returns (r: Result<Binding>)
    ensures r == Bind(params)
  {
    var types := "";
    var values: seq<Value> := [];
    var i := 0;
    while i < |params|
      invariant 0 <= i <= |params|
      invariant Bind(params[..i]) == Ok(Binding(types, values))
    {
      assert params[..i + 1][..i] == params[..i];
      var v := Quoting.Normalize(params[i]);
      if !Quoting.Bindable(v) {
        BindShape(params);
        return Err(QueryError(Unacceptable));
      }
      types := types + [TypeChar(v)];
      values := values + [v];
      i := i + 1;
    }
    assert params[..i] == params;
    return Ok(Binding(types, values));
  }

  /**
   * Binding succeeds exactly when every parameter is bindable; then there is
   * one type character per parameter, `i`, `d` or `s` as the rewritten
   * parameter is an integer, a float, or null or text, and booleans are
   * passed as 1 and 0.
   */
  lemma {:induction false} BindShape(params: seq<Value>)
    ensures Bind(params).Ok? <==> forall i :: 0 <= i < |params| ==> Quoting.Bindable(params[i])
    ensures Bind(params).Err? ==> Bind(params).error == QueryError(Unacceptable)
    ensures Bind(params).Ok? ==>
      var b := Bind(params).value;
      && |b.types| == |b.values| == |params|
      && (forall i :: 0 <= i < |params| ==> b.values[i] == Quoting.Normalize(params[i]))
      && (forall i :: 0 <= i < |params| ==> b.types[i] == TypeChar(b.values[i]))
      && (forall i :: 0 <= i < |params| ==> b.types[i] in "ids")
    decreases |params|
  {
    if params != [] {
      var init := params[..|params| - 1];
      BindShape(init);
      assert forall i :: 0 <= i < |init| ==> init[i] == params[i];
    }
  }
}
