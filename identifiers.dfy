/**
 * `quote_identifier` of both proxies. The mysqli proxy doubles backticks,
 * explodes on '.', wraps every part in backticks and implodes on '.'. The
 * PDO proxy first deletes everything outside `[A-Za-z0-9_.-]`, then wraps
 * the parts in backticks for the `mysql` driver and in double quotes for
 * every other driver.
 */
module Identifiers {
  import opened Strings

  /** Every part surrounded by the delimiter `d`. */
  function Wrap(parts: seq<string>, d: char): (w: seq<string>)
    ensures |w| == |parts|
    ensures forall i :: 0 <= i < |parts| ==> w[i] == [d] + parts[i] + [d]
  {
    seq(|parts|, i requires 0 <= i < |parts| => [d] + parts[i] + [d])
  }

  /** The inside of a wrapped part. */
  function Unwrap(p: string): string {
    if |p| >= 2 then p[1..|p| - 1] else p
  }

  function UnwrapAll(parts: seq<string>): (u: seq<string>)
    ensures |u| == |parts|
    ensures forall i :: 0 <= i < |parts| ==> u[i] == Unwrap(parts[i])
  {
    seq(|parts|, i requires 0 <= i < |parts| => Unwrap(parts[i]))
  }

  lemma UnwrapWrap(parts: seq<string>, d: char)
    ensures UnwrapAll(Wrap(parts, d)) == parts
  {
    var u := UnwrapAll(Wrap(parts, d));
    forall i | 0 <= i < |parts| ensures u[i] == parts[i] {
      var w := [d] + parts[i] + [d];
      assert w[1..|w| - 1] == parts[i];
    }
  }

  /** A wrapped part holds '.' only where its inside does. */
  lemma WrapFree(parts: seq<string>, d: char, c: char)
    requires c != d
    requires forall i :: 0 <= i < |parts| ==> c !in parts[i]
    ensures forall i :: 0 <= i < |parts| ==> c !in Wrap(parts, d)[i]
  {
  }

  // ----- mysqli -----

  /** The mysqli `quote_identifier`. */
  function MysqlIdentifier(field: string): string {
    Join(".", Wrap(Split(Double(field, '`'), '.'), '`'))
  }

  /** Reads a mysqli identifier back: unwrap each part, rejoin, undouble. */
  function MysqlUnquote(quoted: string): string {
    Undouble(Join(".", UnwrapAll(Split(quoted, '.'))), '`')
  }

  /**
   * A quoted identifier has one backtick-wrapped part per '.'-separated
   * segment of the name: the number of dots plus one.
   */
  lemma MysqlIdentifierParts(field: string)
    ensures Split(MysqlIdentifier(field), '.') == Wrap(Split(Double(field, '`'), '.'), '`')
    ensures |Split(MysqlIdentifier(field), '.')| == Count(field, '.') + 1
  {
    var parts := Split(Double(field, '`'), '.');
    SplitPartsFree(Double(field, '`'), '.');
    WrapFree(parts, '`', '.');
    JoinSplit(Wrap(parts, '`'), '.');
    SplitCount(Double(field, '`'), '.');
    DoubleCount(field, '`', '.');
  }

  /** Quoting loses nothing: the name can always be read back. */
  lemma MysqlRoundTrip(field: string)
    ensures MysqlUnquote(MysqlIdentifier(field)) == field
  {
    var doubled := Double(field, '`');
    MysqlIdentifierParts(field);
    UnwrapWrap(Split(doubled, '.'), '`');
    SplitJoin(doubled, '.');
    UndoubleDouble(field, '`');
  }

  /** So two different names never quote to the same text. */
  lemma MysqlInjective(a: string, b: string)
    requires MysqlIdentifier(a) == MysqlIdentifier(b)
    ensures a == b
  {
    MysqlRoundTrip(a);
    MysqlRoundTrip(b);
  }

  /** The example in the documentation: `a.b` becomes `` `a`.`b` ``. */
  lemma MysqlExample()
    ensures MysqlIdentifier("a.b") == "`a`.`b`"
  {
    ExampleParts();
    ExampleJoin();
  }

  lemma ExampleParts()
    ensures Split(Double("a.b", '`'), '.') == ["a", "b"]
  {
    DoubleAbsent("a.b", '`');
    assert "a.b" == "a" + ['.'] + "b";
    SplitAround("a", "b", '.');
    SplitFree("b", '.');
  }

  lemma ExampleJoin()
    ensures Join(".", Wrap(["a", "b"], '`')) == "`a`.`b`"
  {
    var w := Wrap(["a", "b"], '`');
    assert w[0] == "`a`" && w[1] == "`b`";
    assert w[1..] == ["`b`"];
    assert Join(".", w) == "`a`" + "." + "`b`";
  }

  // ----- PDO -----

  /** The characters the PDO sanitiser keeps. */
  predicate Allowed(ch: char) {
    ('A' <= ch <= 'Z') || ('a' <= ch <= 'z') || ('0' <= ch <= '9') || ch == '_' || ch == '-' || ch == '.'
  }

  /** `preg_replace("/[^A-Za-z0-9_\-\.]/", '', $field)`. */
  function Sanitize(s: string): (r: string)
    ensures |r| <= |s|
    ensures forall i :: 0 <= i < |r| ==> Allowed(r[i])
  {
    if s == [] then []
    else (if Allowed(s[0]) then [s[0]] else []) + Sanitize(s[1..])
  }

  /** A name made only of allowed characters passes unchanged. */
  lemma {:induction false} SanitizeClean(s: string)
    requires forall i :: 0 <= i < |s| ==> Allowed(s[i])
    ensures Sanitize(s) == s
  {
    if s != [] {
      SanitizeClean(s[1..]);
      assert [s[0]] + s[1..] == s;
    }
  }

  /** Sanitising twice is sanitising once. */
  lemma SanitizeIdempotent(s: string)
    ensures Sanitize(Sanitize(s)) == Sanitize(s)
  {
    SanitizeClean(Sanitize(s));
  }

  function Delimiter(driver: string): char {
    if driver == "mysql" then '`' else '"'
  }

  /** The PDO `quote_identifier`. */
  function PdoIdentifier(driver: string, field: string): string {
    var s := Sanitize(field);
    var s' := if driver == "mysql" then Double(s, '`') else s;
    Join(".", Wrap(Split(s', '.'), Delimiter(driver)))
  }

  /** Neither delimiter survives the sanitiser. */
  lemma SanitizedHasNoDelimiter(field: string)
    ensures '`' !in Sanitize(field) && '"' !in Sanitize(field)
  {
  }

  /**
   * A PDO identifier is one wrapped part per '.'-separated segment of the
   * sanitised name, and no part holds a delimiter or a dot inside.
   */
  lemma PdoIdentifierParts(driver: string, field: string)
    ensures Split(PdoIdentifier(driver, field), '.') == Wrap(Split(Sanitize(field), '.'), Delimiter(driver))
    ensures |Split(PdoIdentifier(driver, field), '.')| == Count(Sanitize(field), '.') + 1
    ensures forall i :: 0 <= i < |Split(Sanitize(field), '.')| ==>
              Delimiter(driver) !in Split(Sanitize(field), '.')[i] && '.' !in Split(Sanitize(field), '.')[i]
  {
    var s := Sanitize(field);
    SanitizedHasNoDelimiter(field);
    DoubleAbsent(s, '`');
    var parts := Split(s, '.');
    SplitPartsFree(s, '.');
    WrapFree(parts, Delimiter(driver), '.');
    JoinSplit(Wrap(parts, Delimiter(driver)), '.');
    SplitCount(s, '.');
    forall i | 0 <= i < |parts| ensures Delimiter(driver) !in parts[i] {
      SplitSub(s, '.', i, Delimiter(driver));
    }
  }

  /** A character absent from the text is absent from every exploded part. */
  lemma {:induction false} SplitSub(s: string, c: char, i: nat, x: char)
    requires x !in s && i < |Split(s, c)|
    ensures x !in Split(s, c)[i]
  {
    SplitJoin(s, c);
    JoinHas(Split(s, c), [c], i);
  }

  /** Every part appears inside the implode. */
  lemma {:induction false} JoinHas(parts: seq<string>, sep: string, i: nat)
    requires i < |parts|
    ensures forall x :: x in parts[i] ==> x in Join(sep, parts)
  {
    if |parts| > 1 {
      if i > 0 {
        JoinHas(parts[1..], sep, i - 1);
      }
    }
  }

  /** A name of allowed characters is read back from its PDO identifier. */
  lemma PdoRoundTrip(driver: string, field: string)
    requires forall i :: 0 <= i < |field| ==> Allowed(field[i])
    ensures Join(".", UnwrapAll(Split(PdoIdentifier(driver, field), '.'))) == field
  {
    SanitizeClean(field);
    PdoIdentifierParts(driver, field);
    UnwrapWrap(Split(field, '.'), Delimiter(driver));
    SplitJoin(field, '.');
  }

  // ----- no placeholder marks -----

  /** Wrapping and joining the parts of a text adds only dots and delimiters. */
  lemma WrappedFree(s: string, d: char, x: char)
    requires x !in s && x != '.' && x != d
    ensures x !in Join(".", Wrap(Split(s, '.'), d))
  {
    var parts := Split(s, '.');
    forall i | 0 <= i < |parts| ensures x !in Wrap(parts, d)[i] {
      SplitSub(s, '.', i, x);
    }
    JoinFree(".", Wrap(parts, d), x);
  }

  /** A mysqli identifier holds a `?` only when the name does. */
  lemma MysqlNoMark(field: string)
    requires '?' !in field
    ensures '?' !in MysqlIdentifier(field)
  {
    DoubleFree(field, '`', '?');
    WrappedFree(Double(field, '`'), '`', '?');
  }

  /** A PDO identifier never holds a `?`: the sanitiser deletes it. */
  lemma PdoNoMark(driver: string, field: string)
    ensures '?' !in PdoIdentifier(driver, field)
  {
    var s := Sanitize(field);
    assert '?' !in s by {
      assert !Allowed('?');
    }
    DoubleAbsent(s, '`');
    WrappedFree(s, Delimiter(driver), '?');
  }
}
