/**
 * The SQL text `insert` and `update` build, identical in both proxies up to
 * the identifier quoting they pass in. The values never enter the text:
 * every value is a `?` placeholder bound later.
 */
module SqlBuilder {
  import opened Php
  import opened Strings

  /** `count` placeholders separated by ", ". */
  function Placeholders(count: nat): string {
    if count == 0 then ""
    else Placeholders(count - 1) + (if count > 1 then ", " else "") + "?"
  }

  /** Each name through the identifier quoting. */
  function QuoteAll(qi: string -> string, names: seq<string>): (q: seq<string>)
    ensures |q| == |names|
    ensures forall i :: 0 <= i < |names| ==> q[i] == qi(names[i])
  {
    seq(|names|, i requires 0 <= i < |names| => qi(names[i]))
  }

  function InsertText(table: string, columns: seq<string>, count: nat): string {
    "INSERT INTO " + table + " (" + Join(",", columns) + ") VALUES (" + Placeholders(count) + ") "
  }

  /** One `column= ?` per column, separated by ", ". */
  function Assignments(columns: seq<string>): (a: seq<string>)
    ensures |a| == |columns|
    ensures forall i :: 0 <= i < |columns| ==> a[i] == columns[i] + "= ?"
  {
    seq(|columns|, i requires 0 <= i < |columns| => columns[i] + "= ?")
  }

  function UpdateText(table: string, columns: seq<string>, where: string): string {
    "UPDATE " + table + " SET " + Join(", ", Assignments(columns)) + " WHERE " + where
  }

  /**
   * `insert`'s query text for the (already filtered) parameters: the quoted
   * keys in parameter order, then one placeholder per parameter.
   */
  method Insert(qi: string -> string, table: string, params: Row) returns (query: string)
    ensures query == InsertText(qi(table), QuoteAll(qi, Keys(params)), |params|)
  {
    var keys := Keys(params);
    var quoted: seq<string> := [];
    var k := 0;
    while k < |keys|
      invariant 0 <= k <= |keys|
      invariant quoted == QuoteAll(qi, keys[..k])
    {
      quoted := quoted + [qi(keys[k])];
      k := k + 1;
    }
    assert keys[..k] == keys;
    var head := "INSERT INTO " + qi(table) + " (" + Join(",", quoted) + ") VALUES (";
    query := head;
    var i := 0;
    while i < |params|
      invariant 0 <= i <= |params|
      invariant query == head + Placeholders(i)
    {
      if i > 0 {
        query := query + ", ";
      }
      query := query + "?";
      i := i + 1;
    }
    query := query + ") ";
  }

  /**
   * `update`'s query text: one `column= ?` per parameter in order, then the
   * caller's WHERE clause verbatim.
   */
  method Update(qi: string -> string, table: string, params: Row, where: string) returns (query: string)
    ensures query == UpdateText(qi(table), QuoteAll(qi, Keys(params)), where)
  {
    var keys := Keys(params);
    ghost var sets := Assignments(QuoteAll(qi, keys));
    var head := "UPDATE " + qi(table) + " SET ";
    query := head;
    var first := true;
    var i := 0;
    while i < |keys|
      invariant 0 <= i <= |keys|
      invariant first <==> i == 0
      invariant query == head + Join(", ", sets[..i])
    {
      var assignment := qi(keys[i]) + "= ?";
      AppendPart(head, sets, i);
      if !first {
        query := query + ", ";
      }
      query := query + assignment;
      first := false;
      i := i + 1;
    }
    assert sets[..i] == sets;
    query := query + " WHERE " + where;
  }

  /** One more part of a ", "-separated list, appended to text that ends with the list so far. */
  lemma AppendPart(head: string, parts: seq<string>, i: nat)
    requires i < |parts|
    ensures head + Join(", ", parts[..i + 1]) ==
            (if i == 0 then head else head + Join(", ", parts[..i]) + ", ") + parts[i]
  {
    assert parts[..i + 1] == parts[..i] + [parts[i]];
    JoinSnoc(", ", parts[..i], parts[i]);
    if i != 0 {
      var j := Join(", ", parts[..i]);
      assert head + (j + ", " + parts[i]) == head + j + ", " + parts[i];
    }
  }

  // ----- placeholders -----

  lemma {:induction false} PlaceholderCount(count: nat)
    ensures Count(Placeholders(count), '?') == count
  {
    if count > 0 {
      PlaceholderCount(count - 1);
      CountAbsent(", ", '?');
      assert Count("?", '?') == 1;
      CountAppend(Placeholders(count - 1) + (if count > 1 then ", " else ""), "?", '?');
      CountAppend(Placeholders(count - 1), if count > 1 then ", " else "", '?');
    }
  }

  /** Texts that are free of `?` contribute no placeholder. */
  predicate NoMark(texts: seq<string>) {
    forall i :: 0 <= i < |texts| ==> '?' !in texts[i]
  }

  /**
   * An insert binds as many values as it has placeholders, provided the
   * quoted table and column names hold no `?` of their own.
   */
  lemma InsertPlaceholders(table: string, columns: seq<string>, count: nat)
    requires '?' !in table && NoMark(columns)
    ensures Count(InsertText(table, columns, count), '?') == count
  {
    var cols := Join(",", columns);
    JoinFree(",", columns, '?');
    var head := "INSERT INTO " + table + " (" + cols + ") VALUES (";
    assert '?' !in head;
    CountAbsent(head, '?');
    CountAbsent(") ", '?');
    PlaceholderCount(count);
    CountAppend(head, Placeholders(count), '?');
    CountAppend(head + Placeholders(count), ") ", '?');
  }

  /**
   * An update has one placeholder per column, plus whatever the raw WHERE
   * clause carries, provided the quoted names hold no `?` of their own.
   */
  lemma UpdatePlaceholders(table: string, columns: seq<string>, where: string)
    requires '?' !in table && NoMark(columns)
    ensures Count(UpdateText(table, columns, where), '?') == |columns| + Count(where, '?')
  {
    AssignmentsCount(columns);
    var a := "UPDATE " + table + " SET ";
    var sets := Join(", ", Assignments(columns));
    CountAbsent(table, '?');
    CountAbsent("UPDATE ", '?');
    CountAbsent(" SET ", '?');
    CountAbsent(" WHERE ", '?');
    CountAppend("UPDATE ", table, '?');
    CountAppend("UPDATE " + table, " SET ", '?');
    CountAppend(a, sets, '?');
    CountAppend(a + sets, " WHERE ", '?');
    CountAppend(a + sets + " WHERE ", where, '?');
  }

  lemma {:induction false} AssignmentsCount(columns: seq<string>)
    requires NoMark(columns)
    ensures Count(Join(", ", Assignments(columns)), '?') == |columns|
    decreases |columns|
  {
    if columns != [] {
      var n := |columns| - 1;
      var pre := columns[..n];
      AssignmentsCount(pre);
      assert Assignments(columns) == Assignments(pre) + [columns[n] + "= ?"];
      JoinSnoc(", ", Assignments(pre), columns[n] + "= ?");
      CountAbsent(columns[n], '?');
      CountAbsent("= ", '?');
      assert Count("?", '?') == 1;
      CountAppend("= ", "?", '?');
      assert "= " + "?" == "= ?";
      CountAppend(columns[n], "= ?", '?');
      if pre != [] {
        CountAbsent(", ", '?');
        CountAppend(Join(", ", Assignments(pre)), ", ", '?');
        CountAppend(Join(", ", Assignments(pre)) + ", ", columns[n] + "= ?", '?');
      }
    }
  }
}
