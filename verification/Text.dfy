/** The few string operations of the source language that the models below need. */
module Text {

  function Digit(d: nat): (c: char)
    requires d < 10
    ensures '0' <= c <= '9'
  {
    '0' + d as char
  }

  predicate IsDigit(c: char) {
    '0' <= c <= '9'
  }

  predicate AllDigits(s: string) {
    forall i | 0 <= i < |s| :: IsDigit(s[i])
  }

  /** The decimal form of a number, as template strings print it. */
  function Decimal(n: nat): (s: string)
    ensures s != [] && AllDigits(s)
  {
    if n < 10 then [Digit(n)] else Decimal(n / 10) + [Digit(n % 10)]
  }

  /** The value of a string of digits, as `parseInt` reads it. */
  function ParseDecimal(s: string): nat
    requires AllDigits(s)
  {
    if s == [] then 0 else 10 * ParseDecimal(s[..|s| - 1]) + (s[|s| - 1] - '0') as nat
  }

  lemma {:induction false} ParseDecimalInverts(n: nat)
    ensures ParseDecimal(Decimal(n)) == n
  {
    if n >= 10 {
      ParseDecimalInverts(n / 10);
      assert Decimal(n)[..|Decimal(n)| - 1] == Decimal(n / 10);
    }
  }

  /** The part of s before the first c, or all of s. */
  function Before(s: string, c: char): (p: string)
    ensures p <= s && c !in p && (p == s || s[|p|] == c)
  {
    if s == [] || s[0] == c then [] else [s[0]] + Before(s[1..], c)
  }

  /** `s.split(c)` for a separator of one character. */
  function Split(s: string, c: char): (parts: seq<string>)
    ensures |parts| >= 1 && forall i | 0 <= i < |parts| :: c !in parts[i]
    decreases |s|
  {
    var p := Before(s, c);
    if |p| == |s| then [p] else [p] + Split(s[|p| + 1..], c)
  }

  /** `parts.join(sep)`. */
  function Join(parts: seq<string>, sep: string): string {
    if parts == [] then "" else if |parts| == 1 then parts[0] else parts[0] + sep + Join(parts[1..], sep)
  }

  lemma {:induction false} BeforeFirst(p: string, c: char, rest: string)
    requires c !in p
    ensures Before(p, c) == p && Before(p + [c] + rest, c) == p
  {
    if p == [] {
      assert p + [c] + rest == [c] + rest;
    } else {
      BeforeFirst(p[1..], c, rest);
      assert (p + [c] + rest)[1..] == p[1..] + [c] + rest;
    }
  }

  lemma SplitSingle(p: string, c: char)
    requires c !in p
    ensures Split(p, c) == [p]
  {
    BeforeFirst(p, c, "");
  }

  lemma SplitCons(p: string, c: char, rest: string)
    requires c !in p
    ensures Split(p + [c] + rest, c) == [p] + Split(rest, c)
  {
    BeforeFirst(p, c, rest);
    assert (p + [c] + rest)[|p| + 1..] == rest;
  }

  lemma SplitPair(p: string, c: char, q: string)
    requires c !in p && c !in q
    ensures Split(p + [c] + q, c) == [p, q]
  {
    SplitCons(p, c, q);
    SplitSingle(q, c);
  }

  /** Splitting undoes joining when no part contains the separator. */
  lemma {:induction false} SplitInvertsJoin(parts: seq<string>, c: char)
    requires |parts| >= 1 && forall i | 0 <= i < |parts| :: c !in parts[i]
    ensures Split(Join(parts, [c]), c) == parts
  {
    if |parts| == 1 {
      SplitSingle(parts[0], c);
    } else {
      SplitCons(parts[0], c, Join(parts[1..], [c]));
      SplitInvertsJoin(parts[1..], c);
    }
  }

  lemma {:induction false} JoinInvertsSplit(s: string, c: char)
    ensures Join(Split(s, c), [c]) == s
    decreases |s|
  {
    var p := Before(s, c);
    if |p| < |s| {
      var rest := s[|p| + 1..];
      JoinInvertsSplit(rest, c);
      JoinFirst(p, Split(rest, c), [c]);
      assert s == p + [c] + rest;
    }
  }

  lemma JoinFirst(first: string, others: seq<string>, sep: string)
    requires others != []
    ensures Join([first] + others, sep) == first + sep + Join(others, sep)
  {
    assert ([first] + others)[1..] == others;
  }

  /** `toLowerCase` on the letters of ASCII. */
  function LowerChar(c: char): char {
    if 'A' <= c <= 'Z' then c - 'A' + 'a' else c
  }

  function Lower(s: string): (l: string)
    ensures |l| == |s| && forall i | 0 <= i < |s| :: l[i] == LowerChar(s[i])
  {
    if s == "" then "" else [LowerChar(s[0])] + Lower(s[1..])
  }

  predicate StartsWith(s: string, prefix: string) {
    prefix <= s
  }
}
