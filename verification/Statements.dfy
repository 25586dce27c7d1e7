/**
 The conditions that DynamoDB and Cosmos DB read: a lexer and a parser for the common grammar, in
 which `and` binds tighter than `or`, and the statement that each compiler writes for a filter.
*/
module Statements {
  import opened Wrappers
  import opened Text
  import opened Filters

  // ---------------------------------------------------------------- reading

  datatype Token = LPar | RPar | LBracket | RBracket | Word(text: string) | Quoted(text: string) | Cmp(text: string)

  predicate WordChar(c: char) {
    'a' <= c <= 'z' || 'A' <= c <= 'Z' || IsDigit(c) || c == '_' || c == '#' || c == ':' || c == '@' || c == '.'
  }

  predicate CmpChar(c: char) {
    c == '=' || c == '!' || c == '<' || c == '>'
  }

  function WordLength(s: string): (n: nat)
    ensures n <= |s|
  {
    if s == [] || !WordChar(s[0]) then 0 else 1 + WordLength(s[1..])
  }

  function CmpLength(s: string): (n: nat)
    ensures n <= |s|
  {
    if s == [] || !CmpChar(s[0]) then 0 else 1 + CmpLength(s[1..])
  }

  /** The string up to its closing quote, with a backslash taking the next character as it is, and
      the number of characters read; None if the quote is missing. */
  function QuotedText(s: string): (r: Option<(string, nat)>)
    ensures r.Some? ==> 0 < r.value.1 <= |s| && |r.value.0| < r.value.1
    decreases |s|
  {
    if s == [] then None
    else if s[0] == '"' then Some(("", 1))
    else if s[0] == '\\' then
      if |s| == 1 then None
      else match QuotedText(s[2..]) { case None => None case Some(q) => Some(([s[1]] + q.0, q.1 + 2)) }
    else match QuotedText(s[1..]) { case None => None case Some(q) => Some(([s[0]] + q.0, q.1 + 1)) }
  }

  function Prepend(t: Token, ts: Option<seq<Token>>): Option<seq<Token>> {
    if ts.Some? then Some([t] + ts.value) else None
  }

  function Lex(s: string): Option<seq<Token>>
    decreases |s|
  {
    if s == [] then Some([])
    else if s[0] == ' ' then Lex(s[1..])
    else if s[0] == '(' then Prepend(LPar, Lex(s[1..]))
    else if s[0] == ')' then Prepend(RPar, Lex(s[1..]))
    else if s[0] == '[' then Prepend(LBracket, Lex(s[1..]))
    else if s[0] == ']' then Prepend(RBracket, Lex(s[1..]))
    else if s[0] == '"' then
      match QuotedText(s[1..]) { case None => None case Some(q) => Prepend(Quoted(q.0), Lex(s[1..][q.1..])) }
    else if WordChar(s[0]) then Prepend(Word(s[..WordLength(s)]), Lex(s[WordLength(s)..]))
    else if CmpChar(s[0]) then Prepend(Cmp(s[..CmpLength(s)]), Lex(s[CmpLength(s)..]))
    else None
  }

  datatype Operand = Operand(base: string, path: seq<string>)

  datatype Tree = Compare(left: Operand, op: string, right: Operand) | AndTree(l: Tree, r: Tree) | OrTree(l: Tree, r: Tree)

  datatype Parsed = Failed | Parsed(tree: Tree, rest: seq<Token>)

  function ParsePath(ts: seq<Token>): (r: (seq<string>, seq<Token>))
    ensures |r.1| <= |ts|
    decreases |ts|
  {
    if |ts| >= 3 && ts[0] == LBracket && ts[1].Quoted? && ts[2] == RBracket then
      var (path, rest) := ParsePath(ts[3..]);
      ([ts[1].text] + path, rest)
    else ([], ts)
  }

  function ParseOperand(ts: seq<Token>): (r: Option<(Operand, seq<Token>)>)
    ensures r.Some? ==> |r.value.1| < |ts|
  {
    if ts == [] || !ts[0].Word? || ts[0].text == "and" || ts[0].text == "or" then None
    else
      var (path, rest) := ParsePath(ts[1..]);
      Some((Operand(ts[0].text, path), rest))
  }

  function ParseComparison(ts: seq<Token>): (p: Parsed)
    ensures p.Parsed? ==> |p.rest| < |ts|
  {
    match ParseOperand(ts)
    case None => Failed
    case Some(left) =>
      if left.1 == [] || !left.1[0].Cmp? then Failed
      else
        match ParseOperand(left.1[1..])
        case None => Failed
        case Some(right) => Parsed(Compare(left.0, left.1[0].text, right.0), right.1)
  }

  function ParsePrimary(ts: seq<Token>): (p: Parsed)
    ensures p.Parsed? ==> |p.rest| < |ts|
    decreases |ts|, 0
  {
    if ts != [] && ts[0] == LPar then
      var p := ParseOr(ts[1..]);
      if p.Parsed? && p.rest != [] && p.rest[0] == RPar then Parsed(p.tree, p.rest[1..]) else Failed
    else ParseComparison(ts)
  }

  function ParseAnd(ts: seq<Token>): (p: Parsed)
    ensures p.Parsed? ==> |p.rest| < |ts|
    decreases |ts|, 1
  {
    var p := ParsePrimary(ts);
    if p.Parsed? && p.rest != [] && p.rest[0] == Word("and") then
      var q := ParseAnd(p.rest[1..]);
      if q.Parsed? then Parsed(AndTree(p.tree, q.tree), q.rest) else Failed
    else p
  }

  function ParseOr(ts: seq<Token>): (p: Parsed)
    ensures p.Parsed? ==> |p.rest| < |ts|
    decreases |ts|, 2
  {
    var p := ParseAnd(ts);
    if p.Parsed? && p.rest != [] && p.rest[0] == Word("or") then
      var q := ParseOr(p.rest[1..]);
      if q.Parsed? then Parsed(OrTree(p.tree, q.tree), q.rest) else Failed
    else p
  }

  /** The condition a whole text states, if it states one. */
  function Parse(s: string): Option<Tree> {
    match Lex(s)
    case None => None
    case Some(ts) =>
      var p := ParseOr(ts);
      if p.Parsed? && p.rest == [] then Some(p.tree) else None
  }

  // ---------------------------------------------------------------- writing

  datatype Style = DynamoDb | CosmosDb

  /** The left operand of a criterion. */
  function LeftText(style: Style, name: string): string {
    match style
    case DynamoDb => "#r." + name
    case CosmosDb => "root[\"resource\"][\"" + name + "\"]"
  }

  /** The placeholder of the value of criterion number j. */
  function ValueKey(style: Style, j: nat): string {
    match style
    case DynamoDb => ":a" + Decimal(j)
    case CosmosDb => "@p" + Decimal(j)
  }

  function JoinWord(op: LogicalOperator): string {
    if op.Or? then "or" else "and"
  }

  /** The statement for a filter whose values are numbered from j on. For DynamoDB the names in the
      filter are the keys that its properties are written under. */
  function Statement<V>(style: Style, f: Filter<V>, j: nat): string
    decreases f, 1
  {
    match f
    case Criteria(name, op, _) => LeftText(style, name) + " " + op.Spelling() + " " + ValueKey(style, j)
    case Group(children, op) =>
      if children == [] then "" else "(" + Join(StatementsOf(style, children, j), " " + JoinWord(op) + " ") + ")"
  }

  function StatementsOf<V>(style: Style, fs: seq<Filter<V>>, j: nat): (texts: seq<string>)
    ensures |texts| == |fs|
    decreases fs, 0
  {
    if fs == [] then []
    else [Statement(style, fs[0], j)] + StatementsOf(style, fs[1..], j + |Leaves(fs[0])|)
  }

  /** A name that means itself between quotes. */
  predicate Plain(name: string) {
    '"' !in name && '\\' !in name
  }

  predicate AllWordChars(s: string) {
    forall i | 0 <= i < |s| :: WordChar(s[i])
  }

  predicate PlainNames<V>(f: Filter<V>)
    decreases f
  {
    if f.Criteria? then Plain(f.propertyName) else forall i | 0 <= i < |f.children| :: PlainNames(f.children[i])
  }

  predicate WordNames<V>(f: Filter<V>)
    decreases f
  {
    if f.Criteria? then AllWordChars(f.propertyName) else forall i | 0 <= i < |f.children| :: WordNames(f.children[i])
  }

  /** The names stand in the text as they are: in DynamoDB statements bare, in those of Cosmos DB between
      quotes. */
  predicate Legible<V>(style: Style, f: Filter<V>) {
    match style
    case DynamoDb => WordNames(f)
    case CosmosDb => PlainNames(f)
  }

  // ---------------------------------------------------------------- the tokens of a statement

  function LeftOperand(style: Style, name: string): Operand {
    match style
    case DynamoDb => Operand("#r." + name, [])
    case CosmosDb => Operand("root", ["resource", name])
  }

  function OperandTokens(o: Operand): seq<Token> {
    [Word(o.base)] + PathTokens(o.path)
  }

  function PathTokens(path: seq<string>): seq<Token> {
    if path == [] then [] else [LBracket, Quoted(path[0]), RBracket] + PathTokens(path[1..])
  }

  function Tokens<V>(style: Style, f: Filter<V>, j: nat): seq<Token>
    decreases f, 1
  {
    match f
    case Criteria(name, op, _) =>
      OperandTokens(LeftOperand(style, name)) + [Cmp(op.Spelling()), Word(ValueKey(style, j))]
    case Group(children, op) =>
      if children == [] then [] else [LPar] + TokensOf(style, children, op, j) + [RPar]
  }

  function TokensOf<V>(style: Style, fs: seq<Filter<V>>, op: LogicalOperator, j: nat): seq<Token>
    decreases fs, 0
  {
    if fs == [] then []
    else if |fs| == 1 then Tokens(style, fs[0], j)
    else Tokens(style, fs[0], j) + [Word(JoinWord(op))] + TokensOf(style, fs[1..], op, j + |Leaves(fs[0])|)
  }

  /** The tree of a statement. */
  function TreeOf<V>(style: Style, f: Filter<V>, j: nat): Tree
    requires NonEmpty(f)
    decreases f, 1
  {
    match f
    case Criteria(name, op, _) => Compare(LeftOperand(style, name), op.Spelling(), Operand(ValueKey(style, j), []))
    case Group(children, op) => TreeOfAll(style, children, op, j)
  }

  function TreeOfAll<V>(style: Style, fs: seq<Filter<V>>, op: LogicalOperator, j: nat): Tree
    requires fs != [] && forall i | 0 <= i < |fs| :: NonEmpty(fs[i])
    decreases fs, 0
  {
    var first := TreeOf(style, fs[0], j);
    if |fs| == 1 then first
    else
      var rest := TreeOfAll(style, fs[1..], op, j + |Leaves(fs[0])|);
      if op.And? then AndTree(first, rest) else OrTree(first, rest)
  }
}
