/** Cosmos DB statements contain property names between quotes as they are: which of them survive. */
module CosmosNames {
  import opened Wrappers
  import opened Filters
  import opened Statements
  import opened StatementProofs
  import opened ParseConservation

  /** The number of backslashes that a text begins with. */
  function Lead(s: string): nat {
    if s == [] || s[0] != '\\' then 0 else 1 + Lead(s[1..])
  }

  lemma {:induction false} LeadOf(name: string, rest: string)
    ensures Lead(name + "\"" + rest) == Lead(name)
  {
    var t := name + "\"" + rest;
    if name == [] {
      assert t[0] == '"';
    } else {
      LeadOf(name[1..], rest);
      assert t[1..] == name[1..] + "\"" + rest;
    }
  }

  lemma {:induction false} EscapesShortenLead(s: string)
    requires s != [] && s[0] == '\\' && QuotedText(s).Some?
    ensures Lead(QuotedText(s).value.0) < Lead(s)
    decreases |s|
  {
    var q, q' := QuotedText(s).value, QuotedText(s[2..]).value;
    assert q.0 == [s[1]] + q'.0 && q.0[1..] == q'.0;
    assert s[1..][1..] == s[2..];
    if s[1] == '\\' && s[2] == '\\' {
      EscapesShortenLead(s[2..]);
    }
  }

  /** What is read between the quotes is the name only if the name is plain. */
  lemma {:induction false} QuotedNeverRestored(name: string, rest: string)
    requires !Plain(name)
    ensures var q := QuotedText(name + "\"" + rest); q.Some? ==> q.value.0 != name
  {
    var t := name + "\"" + rest;
    assert t[0] == name[0] && t[1..] == name[1..] + "\"" + rest;
    if name[0] == '\\' {
      LeadOf(name, rest);
      if QuotedText(t).Some? {
        EscapesShortenLead(t);
      }
    } else if name[0] != '"' {
      assert name == [name[0]] + name[1..];
      QuotedNeverRestored(name[1..], rest);
    }
  }

  lemma LexMisread(name: string, rest: string)
    requires !Plain(name)
    ensures var all := Lex("\"" + name + "\"" + rest); all.Some? ==> all.value != [] && QuotedIn(all.value)[..1] != [name]
  {
    var t := name + "\"" + rest;
    assert "\"" + name + "\"" + rest == "\"" + t && ("\"" + t)[1..] == t;
    QuotedNeverRestored(name, rest);
    if QuotedText(t).Some? && Lex(t[QuotedText(t).value.1..]).Some? {
      var q := QuotedText(t).value.0;
      QuotedTogether([Quoted(q)], Lex(t[QuotedText(t).value.1..]).value);
      assert QuotedIn([Quoted(q)]) == [q] + QuotedIn([Quoted(q)][1..]);
    }
  }

  lemma Cancel<T>(a: seq<T>, b: seq<T>, c: seq<T>)
    ensures a + b == a + c <==> b == c
  {
    assert (a + b)[|a|..] == b && (a + c)[|a|..] == c;
  }

  /** A text whose quotes are not all plain is not read with the names that were written, if at all. */
  lemma {:induction false} QuotesAreLost(ls: seq<Lexeme>)
    requires WellSpaced(ls) && !PlainQuotes(ls)
    ensures var all := Lex(TextOf(ls)); all.Some? ==> QuotedIn(all.value) != QuotedIn(TokensIn(ls))
  {
    var first, rest := ls[0], ls[1..];
    assert ls == [first] + rest;
    SpacedTail(ls);
    Spelt(first, rest);
    QuotedTogether(first.Tokens(), TokensIn(rest));
    if first.QuotedOf? && !Plain(first.s) {
      LexMisread(first.s, TextOf(rest));
      assert first.Spelling() + TextOf(rest) == "\"" + first.s + "\"" + TextOf(rest);
      assert first.Tokens() == [Quoted(first.s)] && QuotedIn([Quoted(first.s)]) == [first.s] + QuotedIn([Quoted(first.s)][1..]);
      assert QuotedIn(TokensIn(ls)) == [first.s] + QuotedIn(TokensIn(rest));
      assert QuotedIn(TokensIn(ls))[..1] == [first.s];
    } else {
      var i :| 0 <= i < |ls| && ls[i].QuotedOf? && !Plain(ls[i].s);
      assert rest[i - 1] == ls[i];
      QuotesAreLost(rest);
      LexFirst(ls);
      if Lex(TextOf(rest)).Some? {
        QuotedTogether(first.Tokens(), Lex(TextOf(rest)).value);
        Cancel(QuotedIn(first.Tokens()), QuotedIn(Lex(TextOf(rest)).value), QuotedIn(TokensIn(rest)));
      }
    }
  }

  /** For every filter without empty groups: its statement reads as its tree if and only if none of its
      names has a quote or a backslash. */
  lemma FilterReadsExactly<V>(f: Filter<V>, j: nat)
    requires NonEmpty(f)
    ensures Parse(Statement(CosmosDb, f, j)) == Some(TreeOf(CosmosDb, f, j)) <==> PlainNames(f)
  {
    var ls := Lexemes(CosmosDb, f, j);
    StatementIsWritten(CosmosDb, f, j);
    PlainLexemes(CosmosDb, f, j);
    if PlainNames(f) {
      StatementReadsAsItsTree(CosmosDb, f, j);
    } else {
      QuotesAreLost(ls);
      StatementParses(CosmosDb, f, j);
      ParsedNames(Tokens(CosmosDb, f, j));
      if Lex(TextOf(ls)).Some? {
        ParsedNames(Lex(TextOf(ls)).value);
      }
    }
  }
}
