/**
 * The PHP string primitives the core is built from: explode, implode,
 * str_replace, strtok and mb_substr, over strings of code points.
 */
module Strings {
  import opened Php

  /** Number of occurrences of `c` in `s`. */
  function Count(s: string, c: char): nat {
    if s == [] then 0 else (if s[0] == c then 1 else 0) + Count(s[1..], c)
  }

  lemma {:induction false} CountAppend(a: string, b: string, c: char)
    ensures Count(a + b, c) == Count(a, c) + Count(b, c)
  {
    if a != [] {
      assert (a + b)[1..] == a[1..] + b;
      CountAppend(a[1..], b, c);
    } else {
      assert a + b == b;
    }
  }

  lemma {:induction false} CountAbsent(s: string, c: char)
    requires c !in s
    ensures Count(s, c) == 0
  {
    if s != [] {
      assert forall x :: x in s[1..] ==> x in s;
      CountAbsent(s[1..], c);
    }
  }

  /** `explode($c, $s)` for a one-character separator. */
  function Split(s: string, c: char): (parts: seq<string>)
    ensures |parts| >= 1
  {
    if s == [] then [[]]
    else
      var rest := Split(s[1..], c);
      if s[0] == c then [[]] + rest else [[s[0]] + rest[0]] + rest[1..]
  }

  /** `implode($sep, $parts)`. */
  function Join(sep: string, parts: seq<string>): string {
    if |parts| == 0 then ""
    else if |parts| == 1 then parts[0]
    else parts[0] + sep + Join(sep, parts[1..])
  }

  lemma {:induction false} SplitCount(s: string, c: char)
    ensures |Split(s, c)| == Count(s, c) + 1
  {
    if s != [] {
      SplitCount(s[1..], c);
    }
  }

  lemma {:induction false} SplitPartsFree(s: string, c: char)
    ensures forall i :: 0 <= i < |Split(s, c)| ==> c !in Split(s, c)[i]
  {
    if s != [] {
      SplitPartsFree(s[1..], c);
      var rest := Split(s[1..], c);
      if s[0] != c {
        assert c !in rest[0];
        assert c !in [s[0]] + rest[0];
      }
    }
  }

  /** Joining the pieces of an explode with the separator gives the text back. */
  lemma {:induction false} SplitJoin(s: string, c: char)
    ensures Join([c], Split(s, c)) == s
  {
    if s != [] {
      SplitJoin(s[1..], c);
      var rest := Split(s[1..], c);
      if s[0] == c {
        assert Join([c], [[]] + rest) == [] + [c] + Join([c], rest);
      } else {
        var parts := [[s[0]] + rest[0]] + rest[1..];
        if |rest| == 1 {
          assert Join([c], parts) == [s[0]] + rest[0];
        } else {
          assert parts[1..] == rest[1..];
          assert Join([c], rest) == rest[0] + [c] + Join([c], rest[1..]);
          assert Join([c], parts) == [s[0]] + rest[0] + [c] + Join([c], rest[1..]);
        }
      }
    }
  }

  /** Imploding one more piece adds the separator and the piece at the end. */
  lemma {:induction false} JoinSnoc(sep: string, parts: seq<string>, p: string)
    ensures Join(sep, parts + [p]) == if parts == [] then p else Join(sep, parts) + sep + p
  {
    if |parts| > 1 {
      assert (parts + [p])[1..] == parts[1..] + [p];
      JoinSnoc(sep, parts[1..], p);
    } else if |parts| == 1 {
      assert (parts + [p])[1..] == [p];
    }
  }

  /** A character in no piece and not in the separator is not in the implode. */
  lemma {:induction false} JoinFree(sep: string, parts: seq<string>, x: char)
    requires x !in sep
    requires forall i :: 0 <= i < |parts| ==> x !in parts[i]
    ensures x !in Join(sep, parts)
  {
    if |parts| > 1 {
      JoinFree(sep, parts[1..], x);
    }
  }

  /** Exploding an implode of separator-free pieces gives the pieces back. */
  lemma {:induction false} JoinSplit(parts: seq<string>, c: char)
    requires |parts| >= 1
    requires forall i :: 0 <= i < |parts| ==> c !in parts[i]
    ensures Split(Join([c], parts), c) == parts
  {
    if |parts| == 1 {
      SplitFree(parts[0], c);
    } else {
      JoinSplit(parts[1..], c);
      assert c !in parts[0];
      SplitAround(parts[0], Join([c], parts[1..]), c);
      assert [parts[0]] + parts[1..] == parts;
    }
  }

  /** Text with no separator in it is a single piece. */
  lemma {:induction false} SplitFree(s: string, c: char)
    requires c !in s
    ensures Split(s, c) == [s]
  {
    if s != [] {
      assert forall x :: x in s[1..] ==> x in s;
      assert s[0] in s;
      SplitFree(s[1..], c);
      assert [s[0]] + s[1..] == s;
    }
  }

  /** Split over a concatenation around one separator. */
  lemma {:induction false} SplitAround(a: string, b: string, c: char)
    requires c !in a
    ensures Split(a + [c] + b, c) == [a] + Split(b, c)
  {
    if a == [] {
      assert a + [c] + b == [c] + b;
      assert ([c] + b)[1..] == b;
    } else {
      assert (a + [c] + b)[1..] == a[1..] + [c] + b;
      assert forall x :: x in a[1..] ==> x in a;
      SplitAround(a[1..], b, c);
      assert [a[0]] + a[1..] == a;
    }
  }

  /** `str_replace($needle, '', $s)`: one left-to-right pass, no rescanning. */
  function RemoveAll(s: string, needle: string): string
    requires |needle| > 0
    decreases |s|
  {
    if |s| < |needle| then s
    else if s[..|needle|] == needle then RemoveAll(s[|needle|..], needle)
    else [s[0]] + RemoveAll(s[1..], needle)
  }

  /** When some character of the needle never occurs, nothing is removed. */
  lemma {:induction false} RemoveAllAbsent(s: string, needle: string, c: char)
    requires |needle| > 0 && c in needle && c !in s
    ensures RemoveAll(s, needle) == s
    decreases |s|
  {
    if |s| >= |needle| {
      var i :| 0 <= i < |needle| && needle[i] == c;
      assert s[..|needle|][i] != c by {
        assert s[i] in s;
      }
      assert forall x :: x in s[1..] ==> x in s;
      RemoveAllAbsent(s[1..], needle, c);
      assert [s[0]] + s[1..] == s;
    }
  }

  /** `str_replace($c, $c . $c, $s)`: every `c` doubled. */
  function Double(s: string, c: char): (r: string)
    ensures |r| == |s| + Count(s, c)
  {
    if s == [] then []
    else (if s[0] == c then [c, c] else [s[0]]) + Double(s[1..], c)
  }

  lemma {:induction false} DoubleAbsent(s: string, c: char)
    requires c !in s
    ensures Double(s, c) == s
  {
    if s != [] {
      assert forall x :: x in s[1..] ==> x in s;
      DoubleAbsent(s[1..], c);
      assert [s[0]] + s[1..] == s;
    }
  }

  /** Reads a doubled text back: every `cc` pair becomes one `c`. */
  function Undouble(s: string, c: char): string
    decreases |s|
  {
    if |s| >= 2 && s[0] == c && s[1] == c then [c] + Undouble(s[2..], c)
    else if s == [] then []
    else [s[0]] + Undouble(s[1..], c)
  }

  lemma {:induction false} UndoubleDouble(s: string, c: char)
    ensures Undouble(Double(s, c), c) == s
  {
    if s != [] {
      UndoubleDouble(s[1..], c);
      var d := Double(s, c);
      if s[0] == c {
        assert d[2..] == Double(s[1..], c);
      } else {
        assert d[1..] == Double(s[1..], c);
      }
      assert [s[0]] + s[1..] == s;
    }
  }

  /** Doubling one character leaves the count of every other one alone. */
  lemma {:induction false} DoubleCount(s: string, c: char, d: char)
    requires c != d
    ensures Count(Double(s, c), d) == Count(s, d)
  {
    if s != [] {
      DoubleCount(s[1..], c, d);
      CountAppend(if s[0] == c then [c, c] else [s[0]], Double(s[1..], c), d);
      if s[0] == c {
        assert Count([c, c], d) == Count([c], d);
      }
    }
  }

  /** Doubling one character introduces no other character. */
  lemma {:induction false} DoubleFree(s: string, c: char, d: char)
    requires c != d && d !in s
    ensures d !in Double(s, c)
  {
    DoubleCount(s, c, d);
    CountAbsent(s, d);
    CountZero(Double(s, c), d);
  }

  lemma {:induction false} CountZero(s: string, c: char)
    requires Count(s, c) == 0
    ensures c !in s
  {
    if s != [] {
      CountZero(s[1..], c);
      assert s == [s[0]] + s[1..];
    }
  }

  /** `mb_substr($s, 0, $n)` for a non-negative length. */
  function Take(s: string, n: nat): (r: string)
    ensures |r| == if n < |s| then n else |s|
    ensures r <= s
  {
    if n < |s| then s[..n] else s
  }

  /** Leading delimiters skipped, as strtok does before each token. */
  function SkipDelims(s: string, delims: set<char>): (r: string)
    ensures |r| <= |s|
    ensures r == [] || r[0] !in delims
  {
    if s != [] && s[0] in delims then SkipDelims(s[1..], delims) else s
  }

  /** Index of the first delimiter, or the length when there is none. */
  function TokenEnd(s: string, delims: set<char>): (e: nat)
    ensures e <= |s|
    ensures forall i :: 0 <= i < e ==> s[i] !in delims
    ensures e < |s| ==> s[e] in delims
  {
    if s == [] || s[0] in delims then 0 else 1 + TokenEnd(s[1..], delims)
  }

  /**
   * One call of `strtok`: the next token (None stands for PHP's false) and
   * the text the following call continues from, which starts just after the
   * delimiter that ended the token.
   */
  function Strtok(s: string, delims: set<char>): (r: (Option<string>, string))
    ensures r.0.Some? ==> r.0.value != [] && forall i :: 0 <= i < |r.0.value| ==> r.0.value[i] !in delims
    ensures r.0.None? <==> forall i :: 0 <= i < |s| ==> s[i] in delims
  {
    var t := SkipDelims(s, delims);
    SkipDelimsAllDelims(s, delims);
    if t == [] then (None, [])
    else
      var e := TokenEnd(t, delims);
      (Some(t[..e]), if e < |t| then t[e + 1..] else [])
  }

  lemma {:induction false} SkipDelimsAllDelims(s: string, delims: set<char>)
    ensures SkipDelims(s, delims) == [] <==> forall i :: 0 <= i < |s| ==> s[i] in delims
  {
    if s != [] && s[0] in delims {
      SkipDelimsAllDelims(s[1..], delims);
      assert forall i :: 1 <= i < |s| ==> s[i] == s[1..][i - 1];
    }
  }

  /** strtok on text that starts with a token: the token runs up to the first delimiter. */
  lemma {:induction false} StrtokAt(a: string, d: char, b: string, delims: set<char>)
    requires a != [] && d in delims
    requires forall i :: 0 <= i < |a| ==> a[i] !in delims
    ensures Strtok(a + [d] + b, delims) == (Some(a), b)
  {
    var s := a + [d] + b;
    assert SkipDelims(s, delims) == s;
    TokenEndAt(a, d, b, delims);
    assert s[..|a|] == a;
    assert s[|a| + 1..] == b;
  }

  lemma {:induction false} TokenEndAt(a: string, d: char, b: string, delims: set<char>)
    requires d in delims
    requires forall i :: 0 <= i < |a| ==> a[i] !in delims
    ensures TokenEnd(a + [d] + b, delims) == |a|
  {
    if a != [] {
      assert (a + [d] + b)[1..] == a[1..] + [d] + b;
      TokenEndAt(a[1..], d, b, delims);
    }
  }

  /** `strtok` with no delimiters hands back all the remaining text (false when none is left). */
  lemma StrtokWhole(s: string)
    ensures Strtok(s, {}) == (if s == [] then None else Some(s), [])
  {
    if s != [] {
      assert TokenEnd(s, {}) == |s|;
      assert s[..|s|] == s;
    }
  }
  /** strtok on text holding no delimiter at all: one token, nothing left. */
  lemma StrtokAll(s: string, delims: set<char>)
    requires s != [] && forall i :: 0 <= i < |s| ==> s[i] !in delims
    ensures Strtok(s, delims) == (Some(s), [])
  {
    assert SkipDelims(s, delims) == s;
    TokenEndAll(s, delims);
    assert s[..|s|] == s;
  }

  lemma {:induction false} TokenEndAll(s: string, delims: set<char>)
    requires forall i :: 0 <= i < |s| ==> s[i] !in delims
    ensures TokenEnd(s, delims) == |s|
  {
    if s != [] {
      TokenEndAll(s[1..], delims);
    }
  }
}
