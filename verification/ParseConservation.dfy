/** What parsing a condition does with the names between quotes: it takes each into its tree, in order. */
module ParseConservation {
  import opened Sequences
  import opened Statements

  function QuotedIn(ts: seq<Token>): seq<string> {
    if ts == [] then [] else (if ts[0].Quoted? then [ts[0].text] else []) + QuotedIn(ts[1..])
  }

  /** The number of opening brackets. */
  function Brackets(ts: seq<Token>): nat {
    if ts == [] then 0 else (if ts[0].LBracket? then 1 else 0) + Brackets(ts[1..])
  }

  function InTree(t: Tree): seq<string> {
    match t
    case Compare(left, _, right) => left.path + right.path
    case AndTree(l, r) => InTree(l) + InTree(r)
    case OrTree(l, r) => InTree(l) + InTree(r)
  }

  /** From ts to rest just these names were taken, each behind a bracket of its own. */
  ghost predicate Takes(ts: seq<Token>, taken: seq<string>, rest: seq<Token>) {
    QuotedIn(ts) == taken + QuotedIn(rest) && Brackets(ts) == |taken| + Brackets(rest)
  }

  lemma TakesNothing(ts: seq<Token>)
    requires ts != [] && !ts[0].Quoted? && !ts[0].LBracket?
    ensures Takes(ts, [], ts[1..])
  {
  }

  lemma TakesBoth(ts: seq<Token>, a: seq<string>, middle: seq<Token>, b: seq<string>, rest: seq<Token>)
    requires Takes(ts, a, middle) && Takes(middle, b, rest)
    ensures Takes(ts, a + b, rest)
  {
    Reassociate(a, b, QuotedIn(rest));
  }

  /** Nothing is taken before or after. */
  lemma TakesOnly(ts: seq<Token>, start: seq<Token>, a: seq<string>, end: seq<Token>, rest: seq<Token>)
    requires Takes(ts, [], start) && Takes(start, a, end) && Takes(end, [], rest)
    ensures Takes(ts, a, rest)
  {
    TakesBoth(ts, [], start, a, end);
    TakesBoth(ts, [] + a, end, [], rest);
    assert [] + a + [] == a;
  }

  lemma {:induction false} PathTakes(ts: seq<Token>)
    ensures var (path, rest) := ParsePath(ts); Takes(ts, path, rest)
    decreases |ts|
  {
    if |ts| >= 3 && ts[0] == LBracket && ts[1].Quoted? && ts[2] == RBracket {
      var (path, rest) := ParsePath(ts[3..]);
      PathTakes(ts[3..]);
      KeyTakes(ts);
      TakesBoth(ts, [ts[1].text], ts[3..], path, rest);
    } else {
      assert [] + QuotedIn(ts) == QuotedIn(ts);
    }
  }

  lemma KeyTakes(ts: seq<Token>)
    requires |ts| >= 3 && ts[0] == LBracket && ts[1].Quoted? && ts[2] == RBracket
    ensures Takes(ts, [ts[1].text], ts[3..])
  {
    assert ts[1..][0] == ts[1] && ts[1..][1..] == ts[2..];
    assert ts[2..][0] == ts[2] && ts[2..][1..] == ts[3..];
    assert QuotedIn(ts[2..]) == QuotedIn(ts[3..]) && Brackets(ts[2..]) == Brackets(ts[3..]);
    assert QuotedIn(ts[1..]) == [ts[1].text] + QuotedIn(ts[2..]) && Brackets(ts[1..]) == Brackets(ts[2..]);
  }

  lemma OperandTakes(ts: seq<Token>)
    ensures var o := ParseOperand(ts); o.Some? ==> Takes(ts, o.value.0.path, o.value.1)
  {
    if ParseOperand(ts).Some? {
      var (path, rest) := ParsePath(ts[1..]);
      TakesNothing(ts);
      PathTakes(ts[1..]);
      TakesBoth(ts, [], ts[1..], path, rest);
      assert [] + path == path;
    }
  }

  lemma ComparisonTakes(ts: seq<Token>)
    ensures var p := ParseComparison(ts); p.Parsed? ==> Takes(ts, InTree(p.tree), p.rest)
  {
    OperandTakes(ts);
    if ParseComparison(ts).Parsed? {
      var (left, middle) := ParseOperand(ts).value;
      var (right, rest) := ParseOperand(middle[1..]).value;
      TakesNothing(middle);
      OperandTakes(middle[1..]);
      TakesBoth(middle, [], middle[1..], right.path, rest);
      assert [] + right.path == right.path;
      TakesBoth(ts, left.path, middle, right.path, rest);
    }
  }

  /** Parsing takes the names between quotes into the tree, in order, and leaves the others. */
  lemma {:induction false} PrimaryTakes(ts: seq<Token>)
    ensures var p := ParsePrimary(ts); p.Parsed? ==> Takes(ts, InTree(p.tree), p.rest)
    decreases |ts|, 0
  {
    if ts != [] && ts[0] == LPar {
      OrTakes(ts[1..]);
      if ParsePrimary(ts).Parsed? {
        var p := ParseOr(ts[1..]);
        TakesNothing(ts);
        TakesNothing(p.rest);
        TakesOnly(ts, ts[1..], InTree(p.tree), p.rest, p.rest[1..]);
      }
    } else {
      ComparisonTakes(ts);
    }
  }

  lemma {:induction false} AndTakes(ts: seq<Token>)
    ensures var p := ParseAnd(ts); p.Parsed? ==> Takes(ts, InTree(p.tree), p.rest)
    decreases |ts|, 1
  {
    var p := ParsePrimary(ts);
    PrimaryTakes(ts);
    if p.Parsed? && p.rest != [] && p.rest[0] == Word("and") {
      var q := ParseAnd(p.rest[1..]);
      AndTakes(p.rest[1..]);
      if q.Parsed? {
        JoinTakes(ts, InTree(p.tree), p.rest, InTree(q.tree), q.rest);
      }
    }
  }

  lemma {:induction false} OrTakes(ts: seq<Token>)
    ensures var p := ParseOr(ts); p.Parsed? ==> Takes(ts, InTree(p.tree), p.rest)
    decreases |ts|, 2
  {
    var p := ParseAnd(ts);
    AndTakes(ts);
    if p.Parsed? && p.rest != [] && p.rest[0] == Word("or") {
      var q := ParseOr(p.rest[1..]);
      OrTakes(p.rest[1..]);
      if q.Parsed? {
        JoinTakes(ts, InTree(p.tree), p.rest, InTree(q.tree), q.rest);
      }
    }
  }

  lemma JoinTakes(ts: seq<Token>, a: seq<string>, middle: seq<Token>, b: seq<string>, rest: seq<Token>)
    requires Takes(ts, a, middle) && middle != [] && middle[0].Word? && Takes(middle[1..], b, rest)
    ensures Takes(ts, a + b, rest)
  {
    TakesNothing(middle);
    TakesBoth(middle, [], middle[1..], b, rest);
    assert [] + b == b;
    TakesBoth(ts, a, middle, b, rest);
  }

  /** A text that parses has in its tree just the names between its quotes, and as many brackets. */
  lemma ParsedNames(ts: seq<Token>)
    ensures var p := ParseOr(ts); p.Parsed? && p.rest == [] ==> QuotedIn(ts) == InTree(p.tree) && Brackets(ts) == |QuotedIn(ts)|
  {
    OrTakes(ts);
    var p := ParseOr(ts);
    if p.Parsed? && p.rest == [] {
      assert InTree(p.tree) + [] == InTree(p.tree);
    }
  }

  lemma {:induction false} QuotedTogether(a: seq<Token>, b: seq<Token>)
    ensures QuotedIn(a + b) == QuotedIn(a) + QuotedIn(b)
    ensures Brackets(a + b) == Brackets(a) + Brackets(b)
  {
    if a == [] {
      assert a + b == b;
    } else {
      QuotedTogether(a[1..], b);
      assert (a + b)[0] == a[0] && (a + b)[1..] == a[1..] + b;
      Reassociate(if a[0].Quoted? then [a[0].text] else [], QuotedIn(a[1..]), QuotedIn(b));
    }
  }
}
