/** Reading a statement gives back the filter it was written for. */
module StatementProofs {
  import opened Wrappers
  import opened Sequences
  import opened Text
  import opened Filters
  import opened Statements

  // ---------------------------------------------------------------- lexing

  predicate IsWord(s: string) {
    s != [] && AllWordChars(s)
  }

  lemma {:induction false} WordLengthOf(s: string, rest: string)
    requires AllWordChars(s)
    requires rest == [] || !WordChar(rest[0])
    ensures WordLength(s + rest) == |s|
  {
    if s == [] {
      assert s + rest == rest;
    } else {
      WordLengthOf(s[1..], rest);
      assert (s + rest)[1..] == s[1..] + rest;
    }
  }

  lemma LexWord(s: string, rest: string)
    requires IsWord(s) && (rest == [] || !WordChar(rest[0]))
    ensures Lex(s + rest) == Prepend(Word(s), Lex(rest))
  {
    WordLengthOf(s, rest);
    var t := s + rest;
    assert t[0] == s[0] && t[..|s|] == s && t[|s|..] == rest;
  }

  lemma LexSpace(rest: string)
    ensures Lex(" " + rest) == Lex(rest)
  {
    assert (" " + rest)[1..] == rest;
  }

  lemma LexOperator(op: Operator, rest: string)
    requires rest == [] || !CmpChar(rest[0])
    ensures Lex(op.Spelling() + rest) == Prepend(Cmp(op.Spelling()), Lex(rest))
  {
    var s := op.Spelling();
    var t := s + rest;
    assert CmpLength(rest) == 0;
    assert t[|s|..] == rest && t[..|s|] == s;
    if |s| == 2 {
      assert t[1..][1..] == rest;
      assert CmpLength(t[1..]) == 1 + CmpLength(t[1..][1..]);
    } else {
      assert t[1..] == rest;
    }
  }

  lemma LexBracket(rest: string)
    ensures Lex("(" + rest) == Prepend(LPar, Lex(rest))
    ensures Lex(")" + rest) == Prepend(RPar, Lex(rest))
    ensures Lex("[" + rest) == Prepend(LBracket, Lex(rest))
    ensures Lex("]" + rest) == Prepend(RBracket, Lex(rest))
  {
    assert ("(" + rest)[1..] == rest;
    assert (")" + rest)[1..] == rest;
    assert ("[" + rest)[1..] == rest;
    assert ("]" + rest)[1..] == rest;
  }

  /** A name between quotes reads as itself, with nothing swallowed, exactly when it is plain. */
  lemma {:induction false} QuotedExactly(name: string, rest: string)
    ensures QuotedText(name + "\"" + rest) == Some((name, |name| + 1)) <==> Plain(name)
  {
    var t := name + "\"" + rest;
    if name == [] {
      assert t[0] == '"';
    } else {
      assert t[1..] == name[1..] + "\"" + rest;
      QuotedExactly(name[1..], rest);
      assert name == [name[0]] + name[1..];
      assert Plain(name) <==> name[0] != '"' && name[0] != '\\' && Plain(name[1..]);
      if name[0] == '"' {
        assert QuotedText(t) == Some(("", 1));
      } else if name[0] == '\\' {
        EscapesShorten(t);
      }
    }
  }

  /** Reading an escape uses up more characters than it gives. */
  lemma EscapesShorten(s: string)
    requires s != [] && s[0] == '\\'
    ensures var q := QuotedText(s); q.Some? ==> |q.value.0| < q.value.1 - 1
  {
  }

  lemma LexQuoted(name: string, rest: string)
    requires Plain(name)
    ensures Lex("\"" + name + "\"" + rest) == Prepend(Quoted(name), Lex(rest))
  {
    QuotedExactly(name, rest);
    var t := "\"" + name + "\"" + rest;
    assert t[0] == '"' && t[1..] == name + "\"" + rest;
    assert t[1..][|name| + 1..] == rest;
  }

  // ---------------------------------------------------------------- lexemes

  /** A text as the pieces it is written from. */
  datatype Lexeme = Space | Mark(t: Token) | WordOf(s: string) | QuotedOf(s: string) | CmpOf(op: Operator) {
    predicate Good() {
      match this
      case Space => true
      case Mark(t) => t.LPar? || t.RPar? || t.LBracket? || t.RBracket?
      case WordOf(s) => IsWord(s)
      case QuotedOf(_) => true
      case CmpOf(_) => true
    }

    function Spelling(): string {
      match this
      case Space => " "
      case Mark(t) => if t.LPar? then "(" else if t.RPar? then ")" else if t.LBracket? then "[" else "]"
      case WordOf(s) => s
      case QuotedOf(s) => "\"" + s + "\""
      case CmpOf(op) => op.Spelling()
    }

    function Tokens(): seq<Token> {
      match this
      case Space => []
      case Mark(t) => [t]
      case WordOf(s) => [Word(s)]
      case QuotedOf(s) => [Quoted(s)]
      case CmpOf(op) => [Cmp(op.Spelling())]
    }
  }

  function TextOf(ls: seq<Lexeme>): string {
    Concat(seq(|ls|, i requires 0 <= i < |ls| => ls[i].Spelling()))
  }

  function TokensIn(ls: seq<Lexeme>): seq<Token> {
    Concat(seq(|ls|, i requires 0 <= i < |ls| => ls[i].Tokens()))
  }

  predicate Apart(l: Lexeme, m: Lexeme) {
    !(l.WordOf? && m.WordOf?) && !(l.CmpOf? && m.CmpOf?)
  }

  /** What stands between quotes means itself. */
  ghost predicate PlainQuotes(ls: seq<Lexeme>) {
    forall i | 0 <= i < |ls| && ls[i].QuotedOf? :: Plain(ls[i].s)
  }

  /** Good pieces, none of which runs into the next. */
  ghost predicate WellSpaced(ls: seq<Lexeme>) {
    && (forall i | 0 <= i < |ls| :: ls[i].Good())
    && (forall i, j | 0 <= i < j < |ls| && j == i + 1 :: Apart(ls[i], ls[j]))
  }

  /** What one piece adds in front of a text, as far as that can be read at all. */
  lemma LexOne(l: Lexeme, rest: string)
    requires l.Good() && (l.QuotedOf? ==> Plain(l.s))
    requires l.WordOf? ==> rest == [] || !WordChar(rest[0])
    requires l.CmpOf? ==> rest == [] || !CmpChar(rest[0])
    ensures Lex(l.Spelling() + rest) == if Lex(rest).Some? then Some(l.Tokens() + Lex(rest).value) else None
  {
    match l
    case Space =>
      LexSpace(rest);
      assert Lex(rest).Some? ==> [] + Lex(rest).value == Lex(rest).value;
    case Mark(_) => LexBracket(rest);
    case WordOf(s) => LexWord(s, rest);
    case QuotedOf(s) =>
      LexQuoted(s, rest);
      assert l.Spelling() + rest == "\"" + s + "\"" + rest;
    case CmpOf(op) => LexOperator(op, rest);
  }

  lemma Appended(a: seq<Lexeme>, b: seq<Lexeme>)
    ensures TextOf(a + b) == TextOf(a) + TextOf(b)
    ensures TokensIn(a + b) == TokensIn(a) + TokensIn(b)
  {
    var c := a + b;
    var texts, tokens := seq(|a|, i requires 0 <= i < |a| => a[i].Spelling()), seq(|a|, i requires 0 <= i < |a| => a[i].Tokens());
    var texts', tokens' := seq(|b|, i requires 0 <= i < |b| => b[i].Spelling()), seq(|b|, i requires 0 <= i < |b| => b[i].Tokens());
    ConcatAppend(texts, texts');
    ConcatAppend(tokens, tokens');
    assert seq(|c|, i requires 0 <= i < |c| => c[i].Spelling()) == texts + texts';
    assert seq(|c|, i requires 0 <= i < |c| => c[i].Tokens()) == tokens + tokens';
  }

  lemma Spelt(l: Lexeme, ls: seq<Lexeme>)
    ensures TextOf([l] + ls) == l.Spelling() + TextOf(ls)
    ensures TokensIn([l] + ls) == l.Tokens() + TokensIn(ls)
  {
    Spelt1(l);
    Appended([l], ls);
  }

  lemma Spelt1(l: Lexeme)
    ensures TextOf([l]) == l.Spelling() && TokensIn([l]) == l.Tokens()
  {
    var texts, tokens := [l.Spelling()], [l.Tokens()];
    assert seq(1, i requires 0 <= i < 1 => [l][i].Spelling()) == texts;
    assert seq(1, i requires 0 <= i < 1 => [l][i].Tokens()) == tokens;
    assert Concat(texts) == texts[0] + Concat(texts[1..]);
    assert Concat(tokens) == tokens[0] + Concat(tokens[1..]);
  }

  lemma FirstChar(ls: seq<Lexeme>)
    requires ls != [] && ls[0].Good()
    ensures TextOf(ls) != "" && TextOf(ls)[0] == ls[0].Spelling()[0]
  {
    assert ls == [ls[0]] + ls[1..];
    Spelt(ls[0], ls[1..]);
  }

  /** The text of the pieces that follow does not run into a piece. */
  lemma StaysApart(l: Lexeme, ls: seq<Lexeme>)
    requires ls != [] ==> ls[0].Good() && Apart(l, ls[0])
    ensures l.WordOf? ==> TextOf(ls) == "" || !WordChar(TextOf(ls)[0])
    ensures l.CmpOf? ==> TextOf(ls) == "" || !CmpChar(TextOf(ls)[0])
  {
    if ls != [] {
      FirstChar(ls);
    }
  }

  lemma SpacedTail(ls: seq<Lexeme>)
    requires WellSpaced(ls) && ls != []
    ensures ls[0].Good() && WellSpaced(ls[1..])
    ensures ls[1..] != [] ==> ls[1..][0].Good() && Apart(ls[0], ls[1..][0])
  {
    var rest := ls[1..];
    assert forall i | 0 <= i < |rest| :: rest[i] == ls[i + 1];
    if rest != [] {
      assert Apart(ls[0], ls[1]);
    }
  }

  /** What the first piece adds to what follows it. */
  lemma LexFirst(ls: seq<Lexeme>)
    requires WellSpaced(ls) && ls != [] && (ls[0].QuotedOf? ==> Plain(ls[0].s))
    ensures var rest := Lex(TextOf(ls[1..]));
            Lex(TextOf(ls)) == if rest.Some? then Some(ls[0].Tokens() + rest.value) else None
  {
    SpacedTail(ls);
    StaysApart(ls[0], ls[1..]);
    LexOne(ls[0], TextOf(ls[1..]));
    Spelt(ls[0], ls[1..]);
    assert ls == [ls[0]] + ls[1..];
  }

  /** A well-spaced text reads as the tokens of its pieces. */
  lemma {:induction false} LexLexemes(ls: seq<Lexeme>)
    requires WellSpaced(ls) && PlainQuotes(ls)
    ensures Lex(TextOf(ls)) == Some(TokensIn(ls))
  {
    if ls != [] {
      var rest := ls[1..];
      SpacedTail(ls);
      assert forall i | 0 <= i < |rest| :: rest[i] == ls[i + 1];
      LexLexemes(rest);
      LexFirst(ls);
      Spelt(ls[0], rest);
      assert ls == [ls[0]] + rest;
    }
  }

  lemma SpacedTogether(a: seq<Lexeme>, b: seq<Lexeme>)
    requires WellSpaced(a) && WellSpaced(b)
    requires a != [] && b != [] ==> Apart(a[|a| - 1], b[0])
    ensures WellSpaced(a + b)
  {
    var c := a + b;
    forall i, j | 0 <= i < j < |c| && j == i + 1 ensures Apart(c[i], c[j]) {
      if j < |a| {
        assert Apart(a[i], a[j]);
      } else if i >= |a| {
        assert Apart(b[i - |a|], b[j - |a|]);
      }
    }
  }

  // ---------------------------------------------------------------- the pieces of a statement

  function LeftLexemes(style: Style, name: string): seq<Lexeme> {
    match style
    case DynamoDb => [WordOf("#r." + name)]
    case CosmosDb => [WordOf("root")] + KeyLexemes("resource") + KeyLexemes(name)
  }

  function Lexemes<V>(style: Style, f: Filter<V>, j: nat): seq<Lexeme>
    requires NonEmpty(f)
    decreases f, 1
  {
    match f
    case Criteria(name, op, _) => LeftLexemes(style, name) + [Space, CmpOf(op), Space, WordOf(ValueKey(style, j))]
    case Group(children, op) => [Mark(LPar)] + LexemesOf(style, children, op, j) + [Mark(RPar)]
  }

  function LexemesOf<V>(style: Style, fs: seq<Filter<V>>, op: LogicalOperator, j: nat): seq<Lexeme>
    requires fs != [] && forall i | 0 <= i < |fs| :: NonEmpty(fs[i])
    decreases fs, 0
  {
    if |fs| == 1 then Lexemes(style, fs[0], j)
    else
      Lexemes(style, fs[0], j) + [Space, WordOf(JoinWord(op)), Space]
      + LexemesOf(style, fs[1..], op, j + |Leaves(fs[0])|)
  }

  lemma Keys(style: Style, j: nat)
    ensures IsWord(ValueKey(style, j)) && ValueKey(style, j)[0] in ":@"
  {
    var d := Decimal(j);
    assert forall i | 0 <= i < |d| :: WordChar(d[i]);
  }

  /** One key of a path. */
  function KeyLexemes(name: string): seq<Lexeme> {
    [Mark(LBracket), QuotedOf(name), Mark(RBracket)]
  }

  lemma KeyIsWritten(name: string)
    ensures WellSpaced(KeyLexemes(name))
    ensures TextOf(KeyLexemes(name)) == "[\"" + name + "\"]"
    ensures TokensIn(KeyLexemes(name)) == [LBracket, Quoted(name), RBracket]
  {
    Spelt1(Mark(RBracket));
    Spelt(QuotedOf(name), [Mark(RBracket)]);
    Spelt(Mark(LBracket), [QuotedOf(name), Mark(RBracket)]);
    assert KeyLexemes(name) == [Mark(LBracket)] + [QuotedOf(name), Mark(RBracket)];
    assert [QuotedOf(name), Mark(RBracket)] == [QuotedOf(name)] + [Mark(RBracket)];
    assert "[" + (("\"" + name + "\"") + "]") == "[\"" + name + "\"]";
  }

  lemma RootIsWritten()
    ensures WellSpaced([WordOf("root")]) && TextOf([WordOf("root")]) == "root" && TokensIn([WordOf("root")]) == [Word("root")]
  {
    Spelt1(WordOf("root"));
  }

  /** `root["a"]`. */
  lemma RootKeyIsWritten(a: string)
    ensures var ls := [WordOf("root")] + KeyLexemes(a);
            && WellSpaced(ls)
            && TextOf(ls) == "root" + ("[\"" + a + "\"]")
            && TokensIn(ls) == OperandTokens(Operand("root", [a]))
  {
    KeyIsWritten(a);
    RootIsWritten();
    Appended([WordOf("root")], KeyLexemes(a));
    SpacedTogether([WordOf("root")], KeyLexemes(a));
    assert [a][1..] == [];
    assert PathTokens([a]) == [LBracket, Quoted(a), RBracket] + PathTokens([]);
  }

  /** `root["a"]["b"]`. */
  lemma RootPathIsWritten(a: string, b: string)
    ensures var ls := [WordOf("root")] + KeyLexemes(a) + KeyLexemes(b);
            && WellSpaced(ls)
            && TextOf(ls) == "root" + ("[\"" + a + "\"]") + ("[\"" + b + "\"]")
            && TokensIn(ls) == OperandTokens(Operand("root", [a, b]))
  {
    var front := [WordOf("root")] + KeyLexemes(a);
    RootKeyIsWritten(a);
    KeyIsWritten(b);
    Appended(front, KeyLexemes(b));
    SpacedTogether(front, KeyLexemes(b));
    TwoKeys(a, b);
  }

  lemma TwoKeys(a: string, b: string)
    ensures OperandTokens(Operand("root", [a, b])) == OperandTokens(Operand("root", [a])) + [LBracket, Quoted(b), RBracket]
  {
    assert [a, b][1..] == [b] && [b][1..] == [] && [a][1..] == [];
    assert PathTokens([b]) == [LBracket, Quoted(b), RBracket] + PathTokens([]);
    assert PathTokens([a, b]) == [LBracket, Quoted(a), RBracket] + PathTokens([b]);
    assert PathTokens([a]) == [LBracket, Quoted(a), RBracket] + PathTokens([]);
  }

  lemma CosmosLeftText(name: string)
    ensures LeftText(CosmosDb, name) == "root" + ("[\"" + "resource" + "\"]") + ("[\"" + name + "\"]")
  {
    assert "root" + ("[\"" + "resource" + "\"]") + "[\"" == "root[\"resource\"][\"";
    Reassociate("root" + ("[\"" + "resource" + "\"]"), "[\"" + name, "\"]");
    Reassociate("root" + ("[\"" + "resource" + "\"]"), "[\"", name);
  }

  lemma LeftIsWritten(style: Style, name: string)
    requires style.DynamoDb? ==> AllWordChars(name)
    ensures var ls := LeftLexemes(style, name);
            && WellSpaced(ls)
            && TextOf(ls) == LeftText(style, name)
            && TokensIn(ls) == OperandTokens(LeftOperand(style, name))
  {
    match style
    case DynamoDb =>
      var w := "#r." + name;
      Spelt1(WordOf(w));
      assert OperandTokens(Operand(w, [])) == [Word(w)];
    case CosmosDb =>
      RootPathIsWritten("resource", name);
      CosmosLeftText(name);
  }

  /** A statement is written in well-spaced pieces that begin and end like an operand or a group. */
  ghost predicate Written(ls: seq<Lexeme>, text: string, tokens: seq<Token>) {
    && WellSpaced(ls) && ls != []
    && TextOf(ls) == text && TokensIn(ls) == tokens
    && !ls[0].CmpOf? && !ls[|ls| - 1].CmpOf?
  }

  /** An operator and its right operand. */
  lemma RightIsWritten(op: Operator, key: string)
    requires IsWord(key)
    ensures var ls := [Space, CmpOf(op), Space, WordOf(key)];
            && WellSpaced(ls)
            && TextOf(ls) == " " + op.Spelling() + " " + key
            && TokensIn(ls) == [Cmp(op.Spelling()), Word(key)]
  {
    Spelt1(WordOf(key));
    Spelt(Space, [WordOf(key)]);
    assert [Space, WordOf(key)] == [Space] + [WordOf(key)];
    Spelt(CmpOf(op), [Space, WordOf(key)]);
    assert [CmpOf(op), Space, WordOf(key)] == [CmpOf(op)] + [Space, WordOf(key)];
    Spelt(Space, [CmpOf(op), Space, WordOf(key)]);
    assert [Space, CmpOf(op), Space, WordOf(key)] == [Space] + [CmpOf(op), Space, WordOf(key)];
    assert " " + (op.Spelling() + (" " + key)) == " " + op.Spelling() + " " + key;
  }

  lemma ComparisonIsWritten(left: seq<Lexeme>, op: Operator, key: string)
    requires WellSpaced(left) && left != [] && !left[0].CmpOf? && IsWord(key)
    ensures Written(left + [Space, CmpOf(op), Space, WordOf(key)],
                    TextOf(left) + (" " + op.Spelling() + " " + key),
                    TokensIn(left) + [Cmp(op.Spelling()), Word(key)])
  {
    var right := [Space, CmpOf(op), Space, WordOf(key)];
    RightIsWritten(op, key);
    Appended(left, right);
    SpacedTogether(left, right);
  }

  lemma CriteriaText(left: string, op: string, key: string)
    ensures left + (" " + op + " " + key) == left + " " + op + " " + key
  {
  }

  lemma {:induction false} StatementIsWritten<V>(style: Style, f: Filter<V>, j: nat)
    requires NonEmpty(f) && (style.DynamoDb? ==> WordNames(f))
    ensures Written(Lexemes(style, f, j), Statement(style, f, j), Tokens(style, f, j))
    decreases f, 1
  {
    match f
    case Criteria(name, op, _) =>
      LeftIsWritten(style, name);
      Keys(style, j);
      ComparisonIsWritten(LeftLexemes(style, name), op, ValueKey(style, j));
      CriteriaText(LeftText(style, name), op.Spelling(), ValueKey(style, j));
    case Group(children, op) =>
      ChildrenAreWritten(style, children, op, j);
      GroupIsWritten(LexemesOf(style, children, op, j));
  }

  lemma GroupIsWritten(inner: seq<Lexeme>)
    requires WellSpaced(inner)
    ensures Written([Mark(LPar)] + inner + [Mark(RPar)], "(" + TextOf(inner) + ")", [LPar] + TokensIn(inner) + [RPar])
  {
    Appended([Mark(LPar)], inner);
    Appended([Mark(LPar)] + inner, [Mark(RPar)]);
    Spelt1(Mark(LPar));
    Spelt1(Mark(RPar));
    SpacedTogether([Mark(LPar)], inner);
    SpacedTogether([Mark(LPar)] + inner, [Mark(RPar)]);
  }

  lemma {:induction false} ChildrenAreWritten<V>(style: Style, fs: seq<Filter<V>>, op: LogicalOperator, j: nat)
    requires fs != [] && forall i | 0 <= i < |fs| :: NonEmpty(fs[i]) && (style.DynamoDb? ==> WordNames(fs[i]))
    ensures Written(LexemesOf(style, fs, op, j), Join(StatementsOf(style, fs, j), " " + JoinWord(op) + " "), TokensOf(style, fs, op, j))
    decreases fs, 0
  {
    StatementIsWritten(style, fs[0], j);
    if |fs| == 1 {
      assert StatementsOf(style, fs, j) == [Statement(style, fs[0], j)];
    } else {
      var next := j + |Leaves(fs[0])|;
      var first, others := Statement(style, fs[0], j), StatementsOf(style, fs[1..], next);
      assert StatementsOf(style, fs, j) == [first] + others;
      ChildrenAreWritten(style, fs[1..], op, next);
      JoinFirst(first, others, " " + JoinWord(op) + " ");
      BothWritten(Lexemes(style, fs[0], j), first, Tokens(style, fs[0], j), op,
                  LexemesOf(style, fs[1..], op, next), Join(others, " " + JoinWord(op) + " "), TokensOf(style, fs[1..], op, next));
    }
  }

  lemma JoinWordIsWritten(op: LogicalOperator)
    ensures var ls := [Space, WordOf(JoinWord(op)), Space];
            && WellSpaced(ls)
            && TextOf(ls) == " " + JoinWord(op) + " "
            && TokensIn(ls) == [Word(JoinWord(op))]
  {
    var w := JoinWord(op);
    Spelt1(Space);
    Spelt(WordOf(w), [Space]);
    assert [WordOf(w), Space] == [WordOf(w)] + [Space];
    Spelt(Space, [WordOf(w), Space]);
    assert [Space, WordOf(w), Space] == [Space] + [WordOf(w), Space];
    assert " " + (w + " ") == " " + w + " ";
  }

  lemma JoinIsWritten(left: seq<Lexeme>, op: LogicalOperator, right: seq<Lexeme>)
    requires Written(left, TextOf(left), TokensIn(left)) && Written(right, TextOf(right), TokensIn(right))
    ensures Written(left + [Space, WordOf(JoinWord(op)), Space] + right,
                    TextOf(left) + (" " + JoinWord(op) + " ") + TextOf(right),
                    TokensIn(left) + [Word(JoinWord(op))] + TokensIn(right))
  {
    var middle := [Space, WordOf(JoinWord(op)), Space];
    JoinWordIsWritten(op);
    Appended(left, middle);
    SpacedTogether(left, middle);
    Appended(left + middle, right);
    SpacedTogether(left + middle, right);
  }

  lemma BothWritten(left: seq<Lexeme>, leftText: string, leftTokens: seq<Token>, op: LogicalOperator,
                    right: seq<Lexeme>, rightText: string, rightTokens: seq<Token>)
    requires Written(left, leftText, leftTokens) && Written(right, rightText, rightTokens)
    ensures Written(left + [Space, WordOf(JoinWord(op)), Space] + right, leftText + (" " + JoinWord(op) + " ") + rightText,
                    leftTokens + [Word(JoinWord(op))] + rightTokens)
  {
    JoinIsWritten(left, op, right);
  }

  // ---------------------------------------------------------------- parsing

  /** Tokens that cannot continue an operand. */
  predicate EndsOperand(rest: seq<Token>) {
    rest == [] || rest[0] != LBracket
  }

  predicate StartsWord(ts: seq<Token>, w: string) {
    ts != [] && ts[0] == Word(w)
  }

  lemma {:induction false} ParsePathOf(path: seq<string>, rest: seq<Token>)
    requires EndsOperand(rest)
    ensures ParsePath(PathTokens(path) + rest) == (path, rest)
  {
    var ts := PathTokens(path) + rest;
    if path == [] {
      assert ts == rest;
    } else {
      ParsePathOf(path[1..], rest);
      assert ts[3..] == PathTokens(path[1..]) + rest;
      assert [path[0]] + path[1..] == path;
    }
  }

  lemma ParseOperandOf(o: Operand, rest: seq<Token>)
    requires EndsOperand(rest) && o.base != "and" && o.base != "or"
    ensures ParseOperand(OperandTokens(o) + rest) == Some((o, rest))
  {
    var ts := OperandTokens(o) + rest;
    assert ts[1..] == PathTokens(o.path) + rest;
    ParsePathOf(o.path, rest);
  }

  lemma ParseComparisonOf(left: Operand, op: string, right: Operand, rest: seq<Token>)
    requires EndsOperand(rest)
    requires left.base != "and" && left.base != "or" && right.base != "and" && right.base != "or"
    ensures ParsePrimary(OperandTokens(left) + [Cmp(op)] + OperandTokens(right) + rest) == Parsed(Compare(left, op, right), rest)
  {
    var after := OperandTokens(right) + rest;
    var ts := OperandTokens(left) + [Cmp(op)] + OperandTokens(right) + rest;
    assert ts == OperandTokens(left) + ([Cmp(op)] + after);
    ParseOperandOf(left, [Cmp(op)] + after);
    assert ([Cmp(op)] + after)[1..] == after;
    ParseOperandOf(right, rest);
    assert ts[0] == Word(left.base);
  }

  lemma ParseCriteria(style: Style, name: string, op: Operator, j: nat, rest: seq<Token>)
    requires EndsOperand(rest)
    ensures ParsePrimary(OperandTokens(LeftOperand(style, name)) + [Cmp(op.Spelling()), Word(ValueKey(style, j))] + rest)
         == Parsed(Compare(LeftOperand(style, name), op.Spelling(), Operand(ValueKey(style, j), [])), rest)
  {
    var left, key := LeftOperand(style, name), ValueKey(style, j);
    Keys(style, j);
    assert key[0] != 'a' && key[0] != 'o' && left.base[0] in "#r";
    assert PathTokens([]) == [] && OperandTokens(Operand(key, [])) == [Word(key)];
    ParseComparisonOf(left, op.Spelling(), Operand(key, []), rest);
    assert OperandTokens(left) + [Cmp(op.Spelling()), Word(key)] == OperandTokens(left) + [Cmp(op.Spelling())] + [Word(key)];
  }

  lemma ParseParentheses(inner: seq<Token>, tree: Tree, rest: seq<Token>)
    requires ParseOr(inner + ([RPar] + rest)) == Parsed(tree, [RPar] + rest)
    ensures ParsePrimary([LPar] + inner + [RPar] + rest) == Parsed(tree, rest)
  {
    var ts := [LPar] + inner + [RPar] + rest;
    assert ts[0] == LPar && ts[1..] == inner + ([RPar] + rest);
    assert ([RPar] + rest)[1..] == rest;
  }

  lemma {:induction false} ParseStatementTokens<V>(style: Style, f: Filter<V>, j: nat, rest: seq<Token>)
    requires NonEmpty(f) && EndsOperand(rest)
    ensures ParsePrimary(Tokens(style, f, j) + rest) == Parsed(TreeOf(style, f, j), rest)
    decreases f, 2
  {
    match f
    case Criteria(name, op, _) =>
      ParseCriteria(style, name, op, j, rest);
    case Group(children, op) =>
      ParseGroup(style, children, op, j, [RPar] + rest);
      ParseParentheses(TokensOf(style, children, op, j), TreeOf(style, f, j), rest);
  }

  lemma LastOfAnd(ts: seq<Token>, tree: Tree, rest: seq<Token>)
    requires ParsePrimary(ts) == Parsed(tree, rest) && !StartsWord(rest, "and")
    ensures ParseAnd(ts) == Parsed(tree, rest)
    ensures !StartsWord(rest, "or") ==> ParseOr(ts) == Parsed(tree, rest)
  {
  }

  lemma NextOfAnd(ts: seq<Token>, tree: Tree, rest: seq<Token>, tree': Tree, rest': seq<Token>)
    requires ParsePrimary(ts) == Parsed(tree, rest) && StartsWord(rest, "and")
    requires ParseAnd(rest[1..]) == Parsed(tree', rest') && !StartsWord(rest', "or")
    ensures ParseAnd(ts) == Parsed(AndTree(tree, tree'), rest')
    ensures ParseOr(ts) == Parsed(AndTree(tree, tree'), rest')
  {
  }

  lemma NextOfOr(ts: seq<Token>, tree: Tree, rest: seq<Token>, tree': Tree, rest': seq<Token>)
    requires ParsePrimary(ts) == Parsed(tree, rest) && StartsWord(rest, "or")
    requires ParseOr(rest[1..]) == Parsed(tree', rest')
    ensures ParseOr(ts) == Parsed(OrTree(tree, tree'), rest')
  {
    assert rest[0] != Word("and");
  }

  function Joined(op: LogicalOperator, l: Tree, r: Tree): Tree {
    if op.And? then AndTree(l, r) else OrTree(l, r)
  }

  /** `ts`, followed by a closing parenthesis, reads as the tree of a group. */
  ghost predicate ReadsAsGroup(ts: seq<Token>, tree: Tree, op: LogicalOperator, rest: seq<Token>) {
    && ParseOr(ts + rest) == Parsed(tree, rest)
    && (op.And? ==> ParseAnd(ts + rest) == Parsed(tree, rest))
  }

  /** A child, the join word and the other children. */
  lemma ParseMore(first: seq<Token>, tree: Tree, op: LogicalOperator, others: seq<Token>, tree': Tree, rest: seq<Token>)
    requires rest != [] && rest[0] == RPar
    requires var after := [Word(JoinWord(op))] + (others + rest); ParsePrimary(first + after) == Parsed(tree, after)
    requires ReadsAsGroup(others, tree', op, rest)
    ensures ReadsAsGroup(first + [Word(JoinWord(op))] + others, Joined(op, tree, tree'), op, rest)
  {
    var after := [Word(JoinWord(op))] + (others + rest);
    var ts := first + after;
    assert first + [Word(JoinWord(op))] + others + rest == ts && after[1..] == others + rest;
    if op.And? {
      NextOfAnd(ts, tree, after, tree', rest);
    } else {
      NextOfOr(ts, tree, after, tree', rest);
    }
  }

  /** The children of a group, up to its closing parenthesis. */
  lemma {:induction false} ParseGroup<V>(style: Style, fs: seq<Filter<V>>, op: LogicalOperator, j: nat, rest: seq<Token>)
    requires fs != [] && forall i | 0 <= i < |fs| :: NonEmpty(fs[i])
    requires rest != [] && rest[0] == RPar
    ensures ReadsAsGroup(TokensOf(style, fs, op, j), TreeOfAll(style, fs, op, j), op, rest)
    decreases fs, 1
  {
    var first, tree := Tokens(style, fs[0], j), TreeOf(style, fs[0], j);
    if |fs| == 1 {
      ParseStatementTokens(style, fs[0], j, rest);
      LastOfAnd(first + rest, tree, rest);
    } else {
      var next := j + |Leaves(fs[0])|;
      ParseStatementTokens(style, fs[0], j, [Word(JoinWord(op))] + (TokensOf(style, fs[1..], op, next) + rest));
      ParseGroup(style, fs[1..], op, next, rest);
      ParseMore(first, tree, op, TokensOf(style, fs[1..], op, next), TreeOfAll(style, fs[1..], op, next), rest);
    }
  }

  /** The tokens of a statement parse to its tree, whatever its names are. */
  lemma StatementParses<V>(style: Style, f: Filter<V>, j: nat)
    requires NonEmpty(f)
    ensures ParseOr(Tokens(style, f, j)) == Parsed(TreeOf(style, f, j), [])
  {
    var ts := Tokens(style, f, j);
    assert ts + [] == ts;
    ParseStatementTokens(style, f, j, []);
    LastOfAnd(ts, TreeOf(style, f, j), []);
  }

  // ---------------------------------------------------------------- quotes

  lemma PlainTogether(a: seq<Lexeme>, b: seq<Lexeme>)
    ensures PlainQuotes(a + b) <==> PlainQuotes(a) && PlainQuotes(b)
  {
    var c := a + b;
    assert forall i | 0 <= i < |a| :: c[i] == a[i];
    assert forall i | 0 <= i < |b| :: b[i] == c[|a| + i];
    assert forall i | |a| <= i < |c| :: c[i] == b[i - |a|];
  }

  /** What stands between quotes in a statement is `resource` and its names. */
  lemma {:induction false} PlainLexemes<V>(style: Style, f: Filter<V>, j: nat)
    requires NonEmpty(f)
    ensures PlainQuotes(Lexemes(style, f, j)) <==> style.DynamoDb? || PlainNames(f)
    decreases f, 1
  {
    match f
    case Criteria(name, op, _) =>
      PlainLeft(style, name);
      PlainTogether(LeftLexemes(style, name), [Space, CmpOf(op), Space, WordOf(ValueKey(style, j))]);
    case Group(children, op) =>
      PlainChildren(style, children, op, j);
      PlainTogether([Mark(LPar)] + LexemesOf(style, children, op, j), [Mark(RPar)]);
      PlainTogether([Mark(LPar)], LexemesOf(style, children, op, j));
  }

  lemma PlainLeft(style: Style, name: string)
    ensures PlainQuotes(LeftLexemes(style, name)) <==> style.DynamoDb? || Plain(name)
  {
    if style.CosmosDb? {
      PlainTogether([WordOf("root")] + KeyLexemes("resource"), KeyLexemes(name));
      PlainTogether([WordOf("root")], KeyLexemes("resource"));
      PlainKey("resource");
      PlainKey(name);
    }
  }

  lemma PlainKey(name: string)
    ensures PlainQuotes(KeyLexemes(name)) <==> Plain(name)
  {
    assert KeyLexemes(name)[1] == QuotedOf(name);
  }

  lemma {:induction false} PlainChildren<V>(style: Style, fs: seq<Filter<V>>, op: LogicalOperator, j: nat)
    requires fs != [] && forall i | 0 <= i < |fs| :: NonEmpty(fs[i])
    ensures PlainQuotes(LexemesOf(style, fs, op, j)) <==> style.DynamoDb? || forall i | 0 <= i < |fs| :: PlainNames(fs[i])
    decreases fs, 0
  {
    PlainLexemes(style, fs[0], j);
    if |fs| > 1 {
      var rest, next := fs[1..], j + |Leaves(fs[0])|;
      PlainChildren(style, rest, op, next);
      PlainTogether(Lexemes(style, fs[0], j) + [Space, WordOf(JoinWord(op)), Space], LexemesOf(style, rest, op, next));
      PlainTogether(Lexemes(style, fs[0], j), [Space, WordOf(JoinWord(op)), Space]);
      assert forall i | 0 < i < |fs| :: fs[i] == rest[i - 1];
      assert forall i | 0 <= i < |rest| :: rest[i] == fs[i + 1];
    }
  }

  /** A statement with legible names reads as its tree. */
  lemma StatementReadsAsItsTree<V>(style: Style, f: Filter<V>, j: nat)
    requires NonEmpty(f) && Legible(style, f)
    ensures Parse(Statement(style, f, j)) == Some(TreeOf(style, f, j))
  {
    StatementIsWritten(style, f, j);
    PlainLexemes(style, f, j);
    LexLexemes(Lexemes(style, f, j));
    StatementParses(style, f, j);
  }
}
