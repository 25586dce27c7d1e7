/** What the SQL that `buildQueryDefinition` writes means, once its parameters are looked up. */
module CosmosQueryProofs {
  import opened Wrappers
  import opened Sequences
  import opened Text
  import opened Filters
  import opened Statements
  import opened StatementProofs
  import opened Denotations
  import opened CosmosQueries
  import opened ParseConservation
  import opened CosmosNames

  // ---------------------------------------------------------------- reading a query

  datatype Order = Unordered | By(operand: Operand, direction: Option<SortOrder>)

  /** The condition `null` is true of nothing. */
  datatype Where = Everything | Nothing | When(tree: Tree)

  datatype Selection = Selection(where: Where, order: Order)

  function SelectTokens(): seq<Token> {
    [Word("SELECT"), Word("VALUE"), Word("root"), Word("FROM"), Word("root")]
  }

  function ParseWhere(ts: seq<Token>): Option<(Where, seq<Token>)> {
    if !StartsWord(ts, "WHERE") then Some((Everything, ts))
    else if StartsWord(ts[1..], "null") && (|ts| == 2 || ts[2] == Word("ORDER")) then Some((Nothing, ts[2..]))
    else
      match ParseOr(ts[1..])
      case Failed => None
      case Parsed(tree, rest) => Some((When(tree), rest))
  }

  function ParseOrder(ts: seq<Token>): Option<Order> {
    if ts == [] then Some(Unordered)
    else if |ts| >= 2 && ts[0] == Word("ORDER") && ts[1] == Word("BY") then
      match ParseOperand(ts[2..])
      case None => None
      case Some(o) =>
        if o.1 == [] then Some(By(o.0, None))
        else if o.1 == [Word("asc")] then Some(By(o.0, Some(Ascending)))
        else if o.1 == [Word("desc")] then Some(By(o.0, Some(Descending)))
        else None
    else None
  }

  function ParseTokens(ts: seq<Token>): Option<Selection> {
    if !(SelectTokens() <= ts) then None
    else
      match ParseWhere(ts[|SelectTokens()|..])
      case None => None
      case Some(w) =>
        match ParseOrder(w.1) { case None => None case Some(order) => Some(Selection(w.0, order)) }
  }

  /** A selection from `root`, with a condition and an order if it has them. */
  function ParseSelection(s: string): Option<Selection> {
    match Lex(s) { case None => None case Some(ts) => ParseTokens(ts) }
  }

  // ---------------------------------------------------------------- what a condition says about a stored item

  /** An item as it is stored: its keys, and the resource under `resource`. */
  datatype Item<V> = Item(keys: map<string, V>, resource: Document<V>)

  /** None for an operand the model does not know. */
  function ValueIn<V>(o: Operand, item: Item<V>): Option<Option<V>> {
    if o.base == "root" && |o.path| == 1 then Some(Property(item.keys, o.path[0]))
    else if o.base == "root" && |o.path| == 2 && o.path[0] == "resource" then Some(Property(item.resource, o.path[1]))
    else None
  }

  /** Parameter number i is named `@pi`. */
  function Environment<V>(parameters: seq<V>): map<string, V> {
    if parameters == [] then map[]
    else
      var n := |parameters| - 1;
      Environment(parameters[..n])["@p" + Decimal(n) := parameters[n]]
  }

  function Truth<V>(cmp: Comparison<V>, item: Item<V>, t: Tree, values: map<string, V>): Option<bool> {
    match t
    case Compare(left, op, right) =>
      (match (ValueIn(left, item), OperatorOf(CosmosDb, op), ValueOf(right, values))
       case (Some(x), Some(o), Some(v)) => Some(cmp(o, x, v))
       case _ => None)
    case AndTree(l, r) =>
      (match (Truth(cmp, item, l, values), Truth(cmp, item, r, values))
       case (Some(a), Some(b)) => Some(a && b)
       case _ => None)
    case OrTree(l, r) =>
      (match (Truth(cmp, item, l, values), Truth(cmp, item, r, values))
       case (Some(a), Some(b)) => Some(a || b)
       case _ => None)
  }

  function WhereTruth<V>(cmp: Comparison<V>, item: Item<V>, w: Where, values: map<string, V>): Option<bool> {
    match w
    case Everything => Some(true)
    case Nothing => Some(false)
    case When(t) => Truth(cmp, item, t, values)
  }

  // ---------------------------------------------------------------- parameters

  lemma {:induction false} EnvironmentHas<V>(parameters: seq<V>, i: nat)
    requires i < |parameters|
    ensures "@p" + Decimal(i) in Environment(parameters) && Environment(parameters)["@p" + Decimal(i)] == parameters[i]
  {
    var n := |parameters| - 1;
    if i < n {
      EnvironmentHas(parameters[..n], i);
      ParseDecimalInverts(i);
      ParseDecimalInverts(n);
      assert ("@p" + Decimal(i))[2..] == Decimal(i) && ("@p" + Decimal(n))[2..] == Decimal(n);
    }
  }

  lemma ParametersSupply<V>(f: Filter<V>, path: V)
    ensures Supplies(CosmosDb, Environment([path] + ValuesOf(Leaves(f))), Leaves(f), 1)
  {
    var leaves, parameters := Leaves(f), [path] + ValuesOf(Leaves(f));
    forall i | 0 <= i < |leaves| ensures SuppliesOne(CosmosDb, Environment(parameters), leaves[i], 1 + i) {
      EnvironmentHas(parameters, i + 1);
      assert parameters[i + 1] == leaves[i].propertyValue;
    }
  }

  /** What a condition on resources says, it says about every item with that resource. */
  lemma {:induction false} DenotedTruth<V>(cmp: Comparison<V>, item: Item<V>, t: Tree, names: map<string, string>, values: map<string, V>)
    requires Denote(CosmosDb, t, names, values).Some?
    ensures Truth(cmp, item, t, values) == Some(Satisfies(cmp, item.resource, Denote(CosmosDb, t, names, values).value))
  {
    match t
    case Compare(_, _, _) =>
    case AndTree(l, r) =>
      DenotedTruth(cmp, item, l, names, values);
      DenotedTruth(cmp, item, r, names, values);
    case OrTree(l, r) =>
      DenotedTruth(cmp, item, l, names, values);
      DenotedTruth(cmp, item, r, names, values);
  }

  // ---------------------------------------------------------------- the pieces of a query

  lemma KeywordIsWritten(w: string)
    requires IsWord(w)
    ensures var ls := [Space, WordOf(w), Space]; WellSpaced(ls) && TextOf(ls) == " " + w + " " && TokensIn(ls) == [Word(w)]
  {
    Spelt1(Space);
    Spelt(WordOf(w), [Space]);
    assert [WordOf(w), Space] == [WordOf(w)] + [Space];
    Spelt(Space, [WordOf(w), Space]);
    assert [Space, WordOf(w), Space] == [Space] + [WordOf(w), Space];
    assert " " + (w + " ") == " " + w + " ";
  }

  /** Two texts side by side, the second beginning with a space, or the first ending with one. */
  lemma SideBySide(a: seq<Lexeme>, b: seq<Lexeme>)
    requires WellSpaced(a) && WellSpaced(b)
    requires b == [] || b[0].Space? || (a != [] && (a[|a| - 1].Space? || a[|a| - 1].Mark?))
    ensures WellSpaced(a + b) && TextOf(a + b) == TextOf(a) + TextOf(b) && TokensIn(a + b) == TokensIn(a) + TokensIn(b)
  {
    Appended(a, b);
    SpacedTogether(a, b);
  }

  /** Words with spaces between them. */
  function WordLexemes(words: seq<string>): seq<Lexeme> {
    if words == [] then [] else if |words| == 1 then [WordOf(words[0])] else [WordOf(words[0]), Space] + WordLexemes(words[1..])
  }

  lemma {:induction false} WordsAreWritten(words: seq<string>)
    requires forall i | 0 <= i < |words| :: IsWord(words[i])
    ensures var ls := WordLexemes(words);
            && WellSpaced(ls) && TextOf(ls) == Join(words, " ")
            && TokensIn(ls) == seq(|words|, i requires 0 <= i < |words| => Word(words[i]))
  {
    if |words| == 1 {
      Spelt1(WordOf(words[0]));
    } else if |words| > 1 {
      var w := [WordOf(words[0]), Space];
      WordsAreWritten(words[1..]);
      Spelt1(Space);
      Spelt(WordOf(words[0]), [Space]);
      assert w == [WordOf(words[0])] + [Space];
      SideBySide(w, WordLexemes(words[1..]));
    }
  }

  // ---------------------------------------------------------------- the condition

  /** Groups are not empty, except perhaps the whole filter. */
  ghost predicate GoodGroups<V>(q: Query<V>) {
    HasFilterCriteria(q.filter) ==> NonEmpty(q.filter.value)
  }

  /** The names that are written mean themselves between quotes. */
  ghost predicate PlainQuery<V>(q: Query<V>, partitionKeyName: string) {
    && (q.path.Some? ==> Plain(partitionKeyName))
    && (q.path.Some? && HasFilterCriteria(q.filter) ==> PlainNames(q.filter.value))
    && (q.sortBy.Some? ==> Plain(q.sortBy.value))
  }

  function PartitionTree(partitionKeyName: string): Tree {
    Compare(Operand("root", [partitionKeyName]), "=", Operand("@p0", []))
  }

  function PartitionTokens(partitionKeyName: string): seq<Token> {
    OperandTokens(Operand("root", [partitionKeyName])) + [Cmp("="), Word("@p0")]
  }

  function PartitionLexemes(partitionKeyName: string): seq<Lexeme> {
    [WordOf("root")] + KeyLexemes(partitionKeyName) + [Space, CmpOf(Eq), Space, WordOf("@p0")]
  }

  lemma PartitionIsWritten(partitionKeyName: string)
    ensures Written(PartitionLexemes(partitionKeyName), KeyText(partitionKeyName) + " = " + "@p0", PartitionTokens(partitionKeyName))
  {
    var left := [WordOf("root")] + KeyLexemes(partitionKeyName);
    RootKeyIsWritten(partitionKeyName);
    assert IsWord("@p0");
    ComparisonIsWritten(left, Eq, "@p0");
    PartitionText(partitionKeyName);
  }

  lemma PartitionText(a: string)
    ensures "root" + ("[\"" + a + "\"]") + (" " + "=" + " " + "@p0") == KeyText(a) + " = " + "@p0"
  {
    assert " " + "=" + " " + "@p0" == " = " + "@p0";
    assert "root" + ("[\"" + a + "\"]") == KeyText(a);
    Reassociate(KeyText(a), " = ", "@p0");
  }

  function BothTokens<V>(f: Filter<V>, partitionKeyName: string): seq<Token> {
    ([LPar] + PartitionTokens(partitionKeyName) + [RPar]) + [Word("and")] + ([LPar] + Tokens(CosmosDb, f, 1) + [RPar])
  }

  function BothLexemes<V>(f: Filter<V>, partitionKeyName: string): seq<Lexeme>
    requires NonEmpty(f)
  {
    ([Mark(LPar)] + PartitionLexemes(partitionKeyName) + [Mark(RPar)]) + [Space, WordOf("and"), Space]
    + ([Mark(LPar)] + Lexemes(CosmosDb, f, 1) + [Mark(RPar)])
  }

  /** What the condition of a query is to say. */
  function WhereOf<V>(q: Query<V>, partitionKeyName: string): Where
    requires GoodGroups(q)
  {
    var partition := PartitionTree(partitionKeyName);
    if q.path.Some? then
      if HasFilterCriteria(q.filter) then When(AndTree(partition, TreeOf(CosmosDb, q.filter.value, 1))) else When(partition)
    else if HasFilterCriteria(q.filter) then Nothing
    else Everything
  }

  function WhereTokens<V>(q: Query<V>, partitionKeyName: string): seq<Token> {
    if q.path.Some? then
      [Word("WHERE")]
      + if HasFilterCriteria(q.filter) then BothTokens(q.filter.value, partitionKeyName) else PartitionTokens(partitionKeyName)
    else if HasFilterCriteria(q.filter) then [Word("WHERE"), Word("null")]
    else []
  }

  function WhereLexemes<V>(q: Query<V>, partitionKeyName: string): seq<Lexeme>
    requires GoodGroups(q)
  {
    if q.path.Some? then
      [Space, WordOf("WHERE"), Space]
      + if HasFilterCriteria(q.filter) then BothLexemes(q.filter.value, partitionKeyName) else PartitionLexemes(partitionKeyName)
    else if HasFilterCriteria(q.filter) then [Space, WordOf("WHERE"), Space, WordOf("null")]
    else []
  }

  /** A filter clause is empty exactly for a group without children. */
  lemma ClauseIsEmpty<V>(q: Query<V>)
    ensures FilterClause(q) == "" <==> !HasFilterCriteria(q.filter)
  {
  }

  lemma WhereIsWritten<V>(q: Query<V>, partitionKeyName: string)
    requires GoodGroups(q)
    ensures var ls := WhereLexemes(q, partitionKeyName);
            && WellSpaced(ls) && TextOf(ls) == WhereText(q, partitionKeyName) && TokensIn(ls) == WhereTokens(q, partitionKeyName)
            && (ls != [] ==> ls[0].Space?)
  {
    ClauseIsEmpty(q);
    if q.path.Some? {
      WhereWord();
      if HasFilterCriteria(q.filter) {
        BothAreWritten(q.filter.value, partitionKeyName);
        WhereParts(KeyText(partitionKeyName) + " = " + "@p0", FilterClause(q));
        SideBySide([Space, WordOf("WHERE"), Space], BothLexemes(q.filter.value, partitionKeyName));
      } else {
        PartitionIsWritten(partitionKeyName);
        SideBySide([Space, WordOf("WHERE"), Space], PartitionLexemes(partitionKeyName));
      }
    } else if HasFilterCriteria(q.filter) {
      NullIsWritten();
    }
  }

  lemma WhereWord()
    ensures var ls := [Space, WordOf("WHERE"), Space]; WellSpaced(ls) && TextOf(ls) == " WHERE " && TokensIn(ls) == [Word("WHERE")]
  {
    KeywordIsWritten("WHERE");
    assert " " + "WHERE" + " " == " WHERE ";
  }

  lemma NullIsWritten()
    ensures var ls := [Space, WordOf("WHERE"), Space, WordOf("null")];
            WellSpaced(ls) && TextOf(ls) == " WHERE null" && TokensIn(ls) == [Word("WHERE"), Word("null")]
  {
    WhereWord();
    Spelt1(WordOf("null"));
    SideBySide([Space, WordOf("WHERE"), Space], [WordOf("null")]);
    assert [Space, WordOf("WHERE"), Space] + [WordOf("null")] == [Space, WordOf("WHERE"), Space, WordOf("null")];
    assert " WHERE " + "null" == " WHERE null";
  }

  lemma WhereParts(partition: string, filter: string)
    ensures " WHERE (" + partition + ") and (" + filter + ")"
         == " WHERE " + (("(" + partition + ")") + " and " + ("(" + filter + ")"))
  {
    var l, r := " WHERE (" + partition + ") and (" + filter + ")", " WHERE " + (("(" + partition + ")") + " and " + ("(" + filter + ")"));
    assert " WHERE (" == " WHERE " + "(" && ") and (" == ")" + " and " + "(";
    Reassociate(" WHERE ", "(" + partition, ")");
  }

  lemma BothAreWritten<V>(f: Filter<V>, partitionKeyName: string)
    requires NonEmpty(f)
    ensures Written(BothLexemes(f, partitionKeyName),
                    ("(" + (KeyText(partitionKeyName) + " = " + "@p0") + ")") + " and " + ("(" + Statement(CosmosDb, f, 1) + ")"),
                    BothTokens(f, partitionKeyName))
  {
    PartitionIsWritten(partitionKeyName);
    StatementIsWritten(CosmosDb, f, 1);
    var left, right := PartitionLexemes(partitionKeyName), Lexemes(CosmosDb, f, 1);
    GroupIsWritten(left);
    GroupIsWritten(right);
    JoinIsWritten([Mark(LPar)] + left + [Mark(RPar)], And, [Mark(LPar)] + right + [Mark(RPar)]);
    assert " " + "and" + " " == " and ";
  }

  // ---------------------------------------------------------------- the order

  function OrderByLexemes(): seq<Lexeme> {
    [Space, WordOf("ORDER"), Space] + [WordOf("BY"), Space]
  }

  function OrderLexemes<V>(q: Query<V>): seq<Lexeme> {
    if q.sortBy.None? || q.sortBy.value == "" then []
    else
      var order := OrderByLexemes() + LeftLexemes(CosmosDb, q.sortBy.value);
      if q.sortOrder.Some? then order + [Space, WordOf(q.sortOrder.value.Spelling())] else order
  }

  function OrderTokens<V>(q: Query<V>): seq<Token> {
    if q.sortBy.None? || q.sortBy.value == "" then []
    else
      var order := [Word("ORDER"), Word("BY")] + OperandTokens(Operand("root", ["resource", q.sortBy.value]));
      if q.sortOrder.Some? then order + [Word(q.sortOrder.value.Spelling())] else order
  }

  function OrderOf<V>(q: Query<V>): Order {
    if q.sortBy.None? || q.sortBy.value == "" then Unordered
    else By(Operand("root", ["resource", q.sortBy.value]), q.sortOrder)
  }

  lemma OrderParses<V>(q: Query<V>)
    ensures ParseOrder(OrderTokens(q)) == Some(OrderOf(q))
  {
    if q.sortBy.Some? && q.sortBy.value != "" {
      var operand := Operand("root", ["resource", q.sortBy.value]);
      var rest := if q.sortOrder.Some? then [Word(q.sortOrder.value.Spelling())] else [];
      assert OrderTokens(q) == [Word("ORDER"), Word("BY")] + (OperandTokens(operand) + rest);
      assert OrderTokens(q)[2..] == OperandTokens(operand) + rest;
      ParseOperandOf(operand, rest);
    }
  }

  // ---------------------------------------------------------------- parsing the condition

  predicate EndsCondition(rest: seq<Token>) {
    rest == [] || rest[0] == RPar || rest[0] == Word("ORDER")
  }

  lemma PartitionParses(partitionKeyName: string, rest: seq<Token>)
    requires EndsCondition(rest)
    ensures ParseOr(PartitionTokens(partitionKeyName) + rest) == Parsed(PartitionTree(partitionKeyName), rest)
  {
    var left, right := Operand("root", [partitionKeyName]), Operand("@p0", []);
    var ts := PartitionTokens(partitionKeyName) + rest;
    ParseComparisonOf(left, "=", right, rest);
    assert OperandTokens(right) == [Word("@p0")];
    assert OperandTokens(left) + [Cmp("=")] + [Word("@p0")] + rest == ts;
    LastOfAnd(ts, PartitionTree(partitionKeyName), rest);
  }

  lemma FilterParses<V>(f: Filter<V>, rest: seq<Token>)
    requires NonEmpty(f) && EndsCondition(rest)
    ensures ParseOr(Tokens(CosmosDb, f, 1) + rest) == Parsed(TreeOf(CosmosDb, f, 1), rest)
  {
    ParseStatementTokens(CosmosDb, f, 1, rest);
    LastOfAnd(Tokens(CosmosDb, f, 1) + rest, TreeOf(CosmosDb, f, 1), rest);
  }

  lemma BothParse<V>(f: Filter<V>, partitionKeyName: string, rest: seq<Token>)
    requires NonEmpty(f) && EndsCondition(rest)
    ensures ParseOr(BothTokens(f, partitionKeyName) + rest)
         == Parsed(AndTree(PartitionTree(partitionKeyName), TreeOf(CosmosDb, f, 1)), rest)
  {
    var left, right := [LPar] + PartitionTokens(partitionKeyName) + [RPar], [LPar] + Tokens(CosmosDb, f, 1) + [RPar];
    var after := [Word("and")] + (right + rest);
    FilterParses(f, [RPar] + rest);
    ParseParentheses(Tokens(CosmosDb, f, 1), TreeOf(CosmosDb, f, 1), rest);
    LastOfAnd(right + rest, TreeOf(CosmosDb, f, 1), rest);
    PartitionParses(partitionKeyName, [RPar] + after);
    ParseParentheses(PartitionTokens(partitionKeyName), PartitionTree(partitionKeyName), after);
    BothRegroup(left, right, rest);
    NextOfAnd(left + after, PartitionTree(partitionKeyName), after, TreeOf(CosmosDb, f, 1), rest);
  }

  lemma BothRegroup(left: seq<Token>, right: seq<Token>, rest: seq<Token>)
    ensures var after := [Word("and")] + (right + rest);
            after[1..] == right + rest && left + [Word("and")] + right + rest == left + after
  {
  }

  lemma WhereParses<V>(q: Query<V>, partitionKeyName: string, rest: seq<Token>)
    requires GoodGroups(q) && (rest == [] || rest[0] == Word("ORDER"))
    ensures ParseWhere(WhereTokens(q, partitionKeyName) + rest) == Some((WhereOf(q, partitionKeyName), rest))
  {
    var ts := WhereTokens(q, partitionKeyName) + rest;
    if q.path.Some? {
      if HasFilterCriteria(q.filter) {
        AfterWhere(BothTokens(q.filter.value, partitionKeyName), rest);
        BothParse(q.filter.value, partitionKeyName, rest);
      } else {
        AfterWhere(PartitionTokens(partitionKeyName), rest);
        PartitionParses(partitionKeyName, rest);
      }
    } else if HasFilterCriteria(q.filter) {
      assert ts[1..][0] == Word("null") && ts[2..] == rest;
    } else {
      assert ts == rest;
    }
  }

  lemma AfterWhere(condition: seq<Token>, rest: seq<Token>)
    requires condition != [] && condition[0] != Word("null")
    ensures var ts := [Word("WHERE")] + condition + rest; ts[0] == Word("WHERE") && ts[1..] == condition + rest && !StartsWord(ts[1..], "null")
  {
  }

  // ---------------------------------------------------------------- the whole query

  lemma OrderIsWritten<V>(q: Query<V>)
    ensures var ls := OrderLexemes(q);
            && WellSpaced(ls) && TextOf(ls) == OrderText(q) && TokensIn(ls) == OrderTokens(q)
            && (ls != [] ==> ls[0].Space?)
  {
    if q.sortBy.Some? && q.sortBy.value != "" {
      var name := q.sortBy.value;
      var left := LeftLexemes(CosmosDb, name);
      OrderByIsWritten();
      LeftIsWritten(CosmosDb, name);
      SideBySide(OrderByLexemes(), left);
      OrderByText(name);
      if q.sortOrder.Some? {
        DirectionIsWritten(q.sortOrder.value);
        SideBySide(OrderByLexemes() + left, [Space, WordOf(q.sortOrder.value.Spelling())]);
      }
    }
  }

  lemma OrderByText(name: string)
    ensures " ORDER BY " + LeftText(CosmosDb, name) == " ORDER BY root[\"resource\"][\"" + name + "\"]"
  {
    assert " ORDER BY " + "root[\"resource\"][\"" == " ORDER BY root[\"resource\"][\"";
    Reassociate(" ORDER BY ", "root[\"resource\"][\"", name);
    Reassociate(" ORDER BY ", "root[\"resource\"][\"" + name, "\"]");
  }

  lemma OrderByIsWritten()
    ensures var ls := OrderByLexemes();
            WellSpaced(ls) && TextOf(ls) == " ORDER BY " && TokensIn(ls) == [Word("ORDER"), Word("BY")]
  {
    KeywordIsWritten("ORDER");
    Spelt1(Space);
    Spelt(WordOf("BY"), [Space]);
    assert [WordOf("BY"), Space] == [WordOf("BY")] + [Space];
    SideBySide([Space, WordOf("ORDER"), Space], [WordOf("BY"), Space]);
    assert " ORDER " + "BY " == " ORDER BY ";
  }

  lemma DirectionIsWritten(d: SortOrder)
    ensures var ls := [Space, WordOf(d.Spelling())];
            WellSpaced(ls) && TextOf(ls) == " " + d.Spelling() && TokensIn(ls) == [Word(d.Spelling())]
  {
    Spelt1(WordOf(d.Spelling()));
    Spelt(Space, [WordOf(d.Spelling())]);
    assert [Space, WordOf(d.Spelling())] == [Space] + [WordOf(d.Spelling())];
  }

  function SelectLexemes(): seq<Lexeme> {
    WordLexemes(["SELECT", "VALUE", "root", "FROM", "root"])
  }

  lemma SelectIsWritten()
    ensures var ls := SelectLexemes();
            && WellSpaced(ls) && TextOf(ls) == "SELECT VALUE root FROM root" && TokensIn(ls) == SelectTokens()
  {
    SelectWords();
    WordsAreWritten(["SELECT", "VALUE", "root", "FROM", "root"]);
  }

  lemma SelectWords()
    ensures Join(["SELECT", "VALUE", "root", "FROM", "root"], " ") == "SELECT VALUE root FROM root"
    ensures IsWord("SELECT") && IsWord("VALUE") && IsWord("root") && IsWord("FROM")
  {
    assert Join(["FROM", "root"], " ") == "FROM root";
    assert ["root", "FROM", "root"][1..] == ["FROM", "root"];
    assert Join(["root", "FROM", "root"], " ") == "root FROM root";
    assert ["VALUE", "root", "FROM", "root"][1..] == ["root", "FROM", "root"];
    assert ["SELECT", "VALUE", "root", "FROM", "root"][1..] == ["VALUE", "root", "FROM", "root"];
  }

  function QueryTokens<V>(q: Query<V>, partitionKeyName: string): seq<Token> {
    SelectTokens() + (WhereTokens(q, partitionKeyName) + OrderTokens(q))
  }

  function QueryLexemes<V>(q: Query<V>, partitionKeyName: string): seq<Lexeme>
    requires GoodGroups(q)
  {
    SelectLexemes() + (WhereLexemes(q, partitionKeyName) + OrderLexemes(q))
  }

  lemma QueryIsWritten<V>(q: Query<V>, partitionKeyName: string)
    requires GoodGroups(q)
    ensures var ls := QueryLexemes(q, partitionKeyName);
            WellSpaced(ls) && TextOf(ls) == QueryText(q, partitionKeyName) && TokensIn(ls) == QueryTokens(q, partitionKeyName)
  {
    var select: seq<Lexeme>, condition: seq<Lexeme>, order: seq<Lexeme> := SelectLexemes(), WhereLexemes(q, partitionKeyName), OrderLexemes(q);
    SelectIsWritten();
    WhereIsWritten(q, partitionKeyName);
    OrderIsWritten(q);
    SideBySide(condition, order);
    SpaceFirst(condition, order);
    SideBySide(select, condition + order);
    Reassociate("SELECT VALUE root FROM root", WhereText(q, partitionKeyName), OrderText(q));
  }

  lemma SpaceFirst(a: seq<Lexeme>, b: seq<Lexeme>)
    requires (a != [] ==> a[0].Space?) && (b != [] ==> b[0].Space?)
    ensures a + b != [] ==> (a + b)[0].Space?
  {
  }

  /** The selection that a query is to be. */
  function SelectionOf<V>(q: Query<V>, partitionKeyName: string): Selection
    requires GoodGroups(q)
  {
    Selection(WhereOf(q, partitionKeyName), OrderOf(q))
  }

  lemma QueryParses<V>(q: Query<V>, partitionKeyName: string)
    requires GoodGroups(q)
    ensures ParseTokens(QueryTokens(q, partitionKeyName)) == Some(SelectionOf(q, partitionKeyName))
  {
    var ts := QueryTokens(q, partitionKeyName);
    assert SelectTokens() <= ts && ts[|SelectTokens()|..] == WhereTokens(q, partitionKeyName) + OrderTokens(q);
    WhereParses(q, partitionKeyName, OrderTokens(q));
    OrderParses(q);
  }

  // ---------------------------------------------------------------- which names survive

  /** The names between quotes that a selection holds, in order. */
  function InSelection(s: Selection): seq<string> {
    (if s.where.When? then InTree(s.where.tree) else []) + (if s.order.By? then s.order.operand.path else [])
  }

  lemma WhereTakes(ts: seq<Token>)
    ensures var w := ParseWhere(ts); w.Some? ==> Takes(ts, if w.value.0.When? then InTree(w.value.0.tree) else [], w.value.1)
  {
    if StartsWord(ts, "WHERE") {
      TakesNothing(ts);
      if StartsWord(ts[1..], "null") {
        TakesNothing(ts[1..]);
        assert ts[1..][1..] == ts[2..];
        TakesBoth(ts, [], ts[1..], [], ts[2..]);
      }
      OrTakes(ts[1..]);
      var p := ParseOr(ts[1..]);
      if p.Parsed? {
        TakesBoth(ts, [], ts[1..], InTree(p.tree), p.rest);
        assert [] + InTree(p.tree) == InTree(p.tree);
      }
    } else {
      assert [] + QuotedIn(ts) == QuotedIn(ts);
    }
  }

  lemma OrderTakes(ts: seq<Token>)
    ensures var o := ParseOrder(ts); o.Some? ==> QuotedIn(ts) == if o.value.By? then o.value.operand.path else []
  {
    if ParseOrder(ts).Some? && ts != [] {
      var o := ParseOperand(ts[2..]).value;
      TakesNothing(ts);
      TakesNothing(ts[1..]);
      assert ts[1..][1..] == ts[2..];
      OperandTakes(ts[2..]);
      assert QuotedIn([Word("asc")]) == QuotedIn([Word("asc")][1..]) && QuotedIn([Word("desc")]) == QuotedIn([Word("desc")][1..]);
      assert o.0.path + [] == o.0.path;
    }
  }

  lemma SelectTakes(ts: seq<Token>)
    requires SelectTokens() <= ts
    ensures QuotedIn(ts) == QuotedIn(ts[|SelectTokens()|..])
  {
    var rest := ts[|SelectTokens()|..];
    assert ts == SelectTokens() + rest;
    QuotedTogether(SelectTokens(), rest);
    assert QuotedIn(SelectTokens()) == [] by {
      var s := SelectTokens();
      assert QuotedIn(s[5..]) == [] && QuotedIn(s[4..]) == QuotedIn(s[4..][1..]) && s[4..][1..] == s[5..];
      assert s[3..][1..] == s[4..] && s[2..][1..] == s[3..] && s[1..][1..] == s[2..];
    }
    assert [] + QuotedIn(rest) == QuotedIn(rest);
  }

  /** Parsing a selection takes the names between quotes into it, in order. */
  lemma SelectionTakes(ts: seq<Token>)
    ensures ParseTokens(ts).Some? ==> QuotedIn(ts) == InSelection(ParseTokens(ts).value)
  {
    if ParseTokens(ts).Some? {
      var rest := ts[|SelectTokens()|..];
      SelectTakes(ts);
      WhereTakes(rest);
      OrderTakes(ParseWhere(rest).value.1);
    }
  }

  lemma PlainWhere<V>(q: Query<V>, partitionKeyName: string)
    requires GoodGroups(q)
    ensures PlainQuotes(WhereLexemes(q, partitionKeyName))
       <==> (q.path.Some? ==> Plain(partitionKeyName) && (HasFilterCriteria(q.filter) ==> PlainNames(q.filter.value)))
  {
    if q.path.Some? {
      PlainPartition(partitionKeyName);
      if HasFilterCriteria(q.filter) {
        var f := q.filter.value;
        PlainTogether([Space, WordOf("WHERE"), Space], BothLexemes(f, partitionKeyName));
        PlainBoth(f, partitionKeyName);
      } else {
        PlainTogether([Space, WordOf("WHERE"), Space], PartitionLexemes(partitionKeyName));
      }
    }
  }

  lemma PlainPartition(partitionKeyName: string)
    ensures PlainQuotes(PartitionLexemes(partitionKeyName)) <==> Plain(partitionKeyName)
  {
    PlainTogether([WordOf("root")] + KeyLexemes(partitionKeyName), [Space, CmpOf(Eq), Space, WordOf("@p0")]);
    PlainTogether([WordOf("root")], KeyLexemes(partitionKeyName));
    PlainKey(partitionKeyName);
  }

  lemma PlainGroup(inner: seq<Lexeme>)
    ensures PlainQuotes([Mark(LPar)] + inner + [Mark(RPar)]) <==> PlainQuotes(inner)
  {
    PlainTogether([Mark(LPar)] + inner, [Mark(RPar)]);
    PlainTogether([Mark(LPar)], inner);
  }

  lemma PlainBoth<V>(f: Filter<V>, partitionKeyName: string)
    requires NonEmpty(f)
    ensures PlainQuotes(BothLexemes(f, partitionKeyName)) <==> Plain(partitionKeyName) && PlainNames(f)
  {
    var left, right := PartitionLexemes(partitionKeyName), Lexemes(CosmosDb, f, 1);
    var l, r := [Mark(LPar)] + left + [Mark(RPar)], [Mark(LPar)] + right + [Mark(RPar)];
    PlainPartition(partitionKeyName);
    PlainLexemes(CosmosDb, f, 1);
    PlainGroup(left);
    PlainGroup(right);
    PlainTogether(l + [Space, WordOf("and"), Space], r);
    PlainTogether(l, [Space, WordOf("and"), Space]);
  }

  lemma PlainOrder<V>(q: Query<V>)
    ensures PlainQuotes(OrderLexemes(q)) <==> (q.sortBy.Some? ==> Plain(q.sortBy.value))
  {
    if q.sortBy.Some? && q.sortBy.value != "" {
      var order := OrderByLexemes() + LeftLexemes(CosmosDb, q.sortBy.value);
      PlainLeft(CosmosDb, q.sortBy.value);
      PlainTogether(OrderByLexemes(), LeftLexemes(CosmosDb, q.sortBy.value));
      if q.sortOrder.Some? {
        PlainTogether(order, [Space, WordOf(q.sortOrder.value.Spelling())]);
      }
    }
  }

  lemma {:induction false} PlainWords(words: seq<string>)
    ensures PlainQuotes(WordLexemes(words))
  {
    if |words| > 1 {
      PlainWords(words[1..]);
      PlainTogether([WordOf(words[0]), Space], WordLexemes(words[1..]));
    }
  }

  lemma PlainLexemesOfQuery<V>(q: Query<V>, partitionKeyName: string)
    requires GoodGroups(q)
    ensures PlainQuotes(QueryLexemes(q, partitionKeyName)) <==> PlainQuery(q, partitionKeyName)
  {
    PlainWords(["SELECT", "VALUE", "root", "FROM", "root"]);
    PlainWhere(q, partitionKeyName);
    PlainOrder(q);
    PlainTogether(SelectLexemes(), WhereLexemes(q, partitionKeyName) + OrderLexemes(q));
    PlainTogether(WhereLexemes(q, partitionKeyName), OrderLexemes(q));
  }

  /** For every query: its text reads as the selection it is to be if and only if no name that is written,
      be it that of the partition key, of a criterion or of the order, has a quote or a backslash. */
  lemma QueryReadsExactly<V>(q: Query<V>, partitionKeyName: string)
    requires GoodGroups(q)
    ensures ParseSelection(QueryText(q, partitionKeyName)) == Some(SelectionOf(q, partitionKeyName)) <==> PlainQuery(q, partitionKeyName)
  {
    var ls := QueryLexemes(q, partitionKeyName);
    QueryIsWritten(q, partitionKeyName);
    QueryParses(q, partitionKeyName);
    PlainLexemesOfQuery(q, partitionKeyName);
    if PlainQuery(q, partitionKeyName) {
      LexLexemes(ls);
    } else {
      QuotesAreLost(ls);
      SelectionTakes(QueryTokens(q, partitionKeyName));
      if Lex(TextOf(ls)).Some? {
        SelectionTakes(Lex(TextOf(ls)).value);
      }
    }
  }

  // ---------------------------------------------------------------- what a query means

  lemma PartitionTruth<V>(cmp: Comparison<V>, item: Item<V>, partitionKeyName: string, path: V, parameters: seq<V>)
    requires parameters != [] && parameters[0] == path
    ensures Truth(cmp, item, PartitionTree(partitionKeyName), Environment(parameters))
         == Some(cmp(Eq, Property(item.keys, partitionKeyName), path))
  {
    EnvironmentHas(parameters, 0);
    FirstKey();
  }

  lemma FilterTruth<V>(cmp: Comparison<V>, item: Item<V>, f: Filter<V>, path: V)
    requires NonEmpty(f)
    ensures Truth(cmp, item, TreeOf(CosmosDb, f, 1), Environment([path] + ValuesOf(Leaves(f)))) == Some(Holds(cmp, item.resource, f))
  {
    var values := Environment([path] + ValuesOf(Leaves(f)));
    ParametersSupply(f, path);
    CosmosNamesResolve(map[], f);
    TreeDenotes(CosmosDb, f, f, 1, map[], values);
    DenotedTruth(cmp, item, TreeOf(CosmosDb, f, 1), map[], values);
    NormalKeepsMeaning(cmp, item.resource, f);
  }

  /** What a query asks of a stored item. */
  ghost predicate Wanted<V>(q: Query<V>, partitionKeyName: string, cmp: Comparison<V>, item: Item<V>) {
    && (q.path.Some? ==> cmp(Eq, Property(item.keys, partitionKeyName), q.path.value))
    && (HasFilterCriteria(q.filter) ==> Holds(cmp, item.resource, q.filter.value))
  }

  /** The condition of the SQL, with every `@pi` looked up among the parameters; None if it does not read. */
  function Answer<V>(q: Query<V>, partitionKeyName: string, cmp: Comparison<V>, item: Item<V>): Option<bool> {
    match ParseSelection(QueryText(q, partitionKeyName))
    case None => None
    case Some(s) => WhereTruth(cmp, item, s.where, Environment(ParametersOf(q)))
  }

  /** For every query whose names are plain: the SQL selects a stored item exactly when the partition key
      is the path and the filter holds of the resource; only without a path, a filter selects nothing. The
      path is parameter 0, the values of the criteria follow from left to right, one each, and the order
      is the one asked for. */
  lemma QueryKeepsMeaning<V>(q: Query<V>, partitionKeyName: string, cmp: Comparison<V>, item: Item<V>)
    requires GoodGroups(q) && PlainQuery(q, partitionKeyName)
    ensures Answer(q, partitionKeyName, cmp, item)
         == Some(if q.path.None? && HasFilterCriteria(q.filter) then false else Wanted(q, partitionKeyName, cmp, item))
    ensures ParseSelection(QueryText(q, partitionKeyName)).value.order == OrderOf(q)
  {
    QueryReadsExactly(q, partitionKeyName);
    WantedTruth(q, partitionKeyName, cmp, item);
  }

  lemma WantedTruth<V>(q: Query<V>, partitionKeyName: string, cmp: Comparison<V>, item: Item<V>)
    requires GoodGroups(q)
    ensures WhereTruth(cmp, item, WhereOf(q, partitionKeyName), Environment(ParametersOf(q)))
         == Some(if q.path.None? && HasFilterCriteria(q.filter) then false else Wanted(q, partitionKeyName, cmp, item))
  {
    if q.path.Some? {
      Parameters(q);
      PartitionTruth(cmp, item, partitionKeyName, q.path.value, ParametersOf(q));
      if HasFilterCriteria(q.filter) {
        assert [] + [q.path.value] == [q.path.value];
        FilterTruth(cmp, item, q.filter.value, q.path.value);
      }
    }
  }

  /** So with plain names the SQL means the query, on every item and under every comparison, if and only
      if there is a path or no filter. */
  lemma QueryMeansExactly<V>(q: Query<V>, partitionKeyName: string)
    requires GoodGroups(q) && PlainQuery(q, partitionKeyName)
    ensures (forall cmp: Comparison<V>, item: Item<V> ::
               Answer(q, partitionKeyName, cmp, item) == Some(Wanted(q, partitionKeyName, cmp, item)))
       <==> q.path.Some? || !HasFilterCriteria(q.filter)
  {
    forall cmp: Comparison<V>, item: Item<V>
      ensures Answer(q, partitionKeyName, cmp, item)
           == Some(if q.path.None? && HasFilterCriteria(q.filter) then false else Wanted(q, partitionKeyName, cmp, item))
    {
      QueryKeepsMeaning(q, partitionKeyName, cmp, item);
    }
    if q.path.None? && HasFilterCriteria(q.filter) {
      var always: Comparison<V>, item := (o: Operator, x: Option<V>, v: V) => true, Item(map[], map[]);
      AlwaysHolds(always, item.resource, q.filter.value);
      assert Wanted(q, partitionKeyName, always, item);
      assert Answer(q, partitionKeyName, always, item) == Some(false);
    }
  }

  lemma {:induction false} AlwaysHolds<V>(cmp: Comparison<V>, d: Document<V>, f: Filter<V>)
    requires NonEmpty(f) && forall o: Operator, x: Option<V>, v: V :: cmp(o, x, v)
    ensures Holds(cmp, d, f)
    decreases f
  {
    if f.Group? {
      forall i | 0 <= i < |f.children| ensures Holds(cmp, d, f.children[i]) {
        AlwaysHolds(cmp, d, f.children[i]);
      }
      assert Holds(cmp, d, f.children[0]);
    }
  }
}
