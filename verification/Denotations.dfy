/** What a parsed statement says, once its placeholders are looked up in the maps sent along with it. */
module Denotations {
  import opened Wrappers
  import opened Text
  import opened Filters
  import opened Statements
  import opened StatementProofs

  /** An attribute name, which DynamoDB replaces if it begins with a number sign. */
  function AttributeName(part: string, names: map<string, string>): Option<string> {
    if part == "" || part[0] != '#' then Some(part)
    else if part in names then Some(names[part])
    else None
  }

  /** The property of the resource that the left operand stands for. */
  function PropertyOf(style: Style, o: Operand, names: map<string, string>): Option<string> {
    match style
    case DynamoDb =>
      var parts := Split(o.base, '.');
      if o.path == [] && |parts| == 2 && AttributeName(parts[0], names) == Some("resource") then AttributeName(parts[1], names) else None
    case CosmosDb =>
      if o.base == "root" && |o.path| == 2 && o.path[0] == "resource" then Some(o.path[1]) else None
  }

  function ValueOf<V>(o: Operand, values: map<string, V>): Option<V> {
    if o.path == [] && o.base in values then Some(values[o.base]) else None
  }

  /** The comparators of the two databases: DynamoDB writes inequality as `<>` only. */
  function OperatorOf(style: Style, s: string): Option<Operator> {
    if s == "=" then Some(Eq)
    else if s == "<>" then Some(Ne)
    else if s == "!=" && style.CosmosDb? then Some(Ne)
    else if s == "<" then Some(Lt)
    else if s == "<=" then Some(Le)
    else if s == ">" then Some(Gt)
    else if s == ">=" then Some(Ge)
    else None
  }

  /** None for a statement the database would refuse. */
  function Denote<V>(style: Style, t: Tree, names: map<string, string>, values: map<string, V>): Option<Condition<V>> {
    match t
    case Compare(left, op, right) =>
      (match (PropertyOf(style, left, names), OperatorOf(style, op), ValueOf(right, values))
       case (Some(p), Some(o), Some(v)) => Some(Test(p, o, v))
       case _ => None)
    case AndTree(l, r) =>
      (match (Denote(style, l, names, values), Denote(style, r, names, values))
       case (Some(c), Some(d)) => Some(Both(c, d))
       case _ => None)
    case OrTree(l, r) =>
      (match (Denote(style, l, names, values), Denote(style, r, names, values))
       case (Some(c), Some(d)) => Some(Either(c, d))
       case _ => None)
  }

  predicate Refused<V>(style: Style, f: Filter<V>) {
    style.DynamoDb? && UsesInequality(f)
  }

  /** The map holds the values of the criteria, numbered from j on. */
  ghost predicate Supplies<V>(style: Style, values: map<string, V>, leaves: seq<Filter<V>>, j: nat)
    requires forall i | 0 <= i < |leaves| :: leaves[i].Criteria?
  {
    forall i | 0 <= i < |leaves| :: SuppliesOne(style, values, leaves[i], j + i)
  }

  predicate SuppliesOne<V(==)>(style: Style, values: map<string, V>, leaf: Filter<V>, k: nat)
    requires leaf.Criteria?
  {
    ValueKey(style, k) in values && values[ValueKey(style, k)] == leaf.propertyValue
  }

  /** What is written stands for what is meant. */
  predicate Resolves(style: Style, names: map<string, string>, written: string, meant: string) {
    PropertyOf(style, LeftOperand(style, written), names) == Some(meant)
  }

  /** Every name in g stands for the one at the same place in f. */
  predicate Resolved<V>(style: Style, names: map<string, string>, g: Filter<V>, f: Filter<V>)
    decreases f, 1
  {
    if f.Criteria? then g.Criteria? && Resolves(style, names, g.propertyName, f.propertyName)
    else g.Group? && ResolvedAll(style, names, g.children, f.children)
  }

  predicate ResolvedAll<V>(style: Style, names: map<string, string>, gs: seq<Filter<V>>, fs: seq<Filter<V>>)
    decreases fs, 0
  {
    if gs == [] || fs == [] then gs == [] && fs == []
    else Resolved(style, names, gs[0], fs[0]) && ResolvedAll(style, names, gs[1..], fs[1..])
  }

  predicate AnyRefused<V>(style: Style, fs: seq<Filter<V>>) {
    fs != [] && (Refused(style, fs[0]) || AnyRefused(style, fs[1..]))
  }

  lemma {:induction false} AnyRefusedExactly<V>(style: Style, fs: seq<Filter<V>>)
    ensures AnyRefused(style, fs) <==> exists i :: 0 <= i < |fs| && Refused(style, fs[i])
  {
    if fs != [] {
      var rest := fs[1..];
      AnyRefusedExactly(style, rest);
      assert forall i | 0 < i < |fs| :: fs[i] == rest[i - 1];
      assert forall i | 0 <= i < |rest| :: rest[i] == fs[i + 1];
    }
  }

  /** The condition c is read back from a statement just if every name stands for the one that is meant,
      and there is nothing the database refuses. */
  ghost predicate Exactly<V>(c: Option<Condition<V>>, normal: Condition<V>, resolved: bool, refused: bool) {
    && (resolved ==> c == if refused then None else Some(normal))
    && (c == Some(normal) ==> resolved && !refused)
  }

  /** The filter g is written where f is meant. */
  lemma {:induction false} TreeDenotes<V>(style: Style, g: Filter<V>, f: Filter<V>, j: nat, names: map<string, string>, values: map<string, V>)
    requires NonEmpty(f) && NonEmpty(g) && SameShape(g, f) && Supplies(style, values, Leaves(f), j)
    ensures Exactly(Denote(style, TreeOf(style, g, j), names, values), Normal(f), Resolved(style, names, g, f), Refused(style, f))
    decreases f, 1
  {
    match f
    case Criteria(name, op, v) =>
      assert Leaves(f)[0] == f && SuppliesOne(style, values, Leaves(f)[0], j + 0);
      assert ValueOf(Operand(ValueKey(style, j), []), values) == Some(v);
      assert OperatorOf(style, op.Spelling()) == if op.Ne? && style.DynamoDb? then None else Some(op);
    case Group(children, op) =>
      AnyRefusedExactly(style, children);
      ChildrenDenote(style, g.children, children, op, j, names, values);
  }

  lemma {:induction false} ChildrenDenote<V>(style: Style, gs: seq<Filter<V>>, fs: seq<Filter<V>>, op: LogicalOperator, j: nat,
                                             names: map<string, string>, values: map<string, V>)
    requires fs != [] && SameShapes(gs, fs) && AllNonEmpty(fs) && AllNonEmpty(gs)
    requires Supplies(style, values, LeavesAll(fs), j)
    ensures Exactly(Denote(style, TreeOfAll(style, gs, op, j), names, values), NormalAll(fs, op),
                    ResolvedAll(style, names, gs, fs), AnyRefused(style, fs))
    decreases fs, 0
  {
    var first, others := Leaves(fs[0]), LeavesAll(fs[1..]);
    SuppliesParts(style, values, first, others, j);
    TreeDenotes(style, gs[0], fs[0], j, names, values);
    if |fs| == 1 {
      OneDenotes(style, gs, fs, op, j, names, values);
    } else {
      TailShapes(gs, fs);
      ChildrenDenote(style, gs[1..], fs[1..], op, j + |first|, names, values);
      ShapeKeeps(gs[0], fs[0]);
      MoreDenotes(style, gs, fs, op, j, j + |first|, names, values);
    }
  }

  /** An only child. */
  lemma OneDenotes<V>(style: Style, gs: seq<Filter<V>>, fs: seq<Filter<V>>, op: LogicalOperator, j: nat,
                      names: map<string, string>, values: map<string, V>)
    requires |fs| == 1 && |gs| == 1 && AllNonEmpty(fs) && AllNonEmpty(gs)
    requires Exactly(Denote(style, TreeOf(style, gs[0], j), names, values), Normal(fs[0]),
                     Resolved(style, names, gs[0], fs[0]), Refused(style, fs[0]))
    ensures Exactly(Denote(style, TreeOfAll(style, gs, op, j), names, values), NormalAll(fs, op),
                    ResolvedAll(style, names, gs, fs), AnyRefused(style, fs))
  {
    assert ResolvedAll(style, names, gs[1..], fs[1..]) && !AnyRefused(style, fs[1..]);
  }

  /** The first of several children, and the others. */
  lemma MoreDenotes<V>(style: Style, gs: seq<Filter<V>>, fs: seq<Filter<V>>, op: LogicalOperator, j: nat, next: nat,
                       names: map<string, string>, values: map<string, V>)
    requires |fs| > 1 && |gs| == |fs| && AllNonEmpty(fs) && AllNonEmpty(gs) && next == j + |Leaves(gs[0])|
    requires AllNonEmpty(fs[1..]) && AllNonEmpty(gs[1..])
    requires Exactly(Denote(style, TreeOf(style, gs[0], j), names, values), Normal(fs[0]),
                     Resolved(style, names, gs[0], fs[0]), Refused(style, fs[0]))
    requires Exactly(Denote(style, TreeOfAll(style, gs[1..], op, next), names, values), NormalAll(fs[1..], op),
                     ResolvedAll(style, names, gs[1..], fs[1..]), AnyRefused(style, fs[1..]))
    ensures Exactly(Denote(style, TreeOfAll(style, gs, op, j), names, values), NormalAll(fs, op),
                    ResolvedAll(style, names, gs, fs), AnyRefused(style, fs))
  {
    JoinedDenotes(style, op, TreeOf(style, gs[0], j), TreeOfAll(style, gs[1..], op, next), names, values,
                  Normal(fs[0]), NormalAll(fs[1..], op),
                  Resolved(style, names, gs[0], fs[0]), ResolvedAll(style, names, gs[1..], fs[1..]),
                  Refused(style, fs[0]), AnyRefused(style, fs[1..]));
  }

  ghost predicate AllNonEmpty<V>(fs: seq<Filter<V>>) {
    forall i | 0 <= i < |fs| :: NonEmpty(fs[i])
  }

  /** Two conditions joined. */
  lemma JoinedDenotes<V>(style: Style, op: LogicalOperator, t: Tree, u: Tree, names: map<string, string>, values: map<string, V>,
                         c: Condition<V>, d: Condition<V>, tResolved: bool, uResolved: bool, tRefused: bool, uRefused: bool)
    requires Exactly(Denote(style, t, names, values), c, tResolved, tRefused)
    requires Exactly(Denote(style, u, names, values), d, uResolved, uRefused)
    ensures Exactly(Denote(style, Joined(op, t, u), names, values), if op.And? then Both(c, d) else Either(c, d),
                    tResolved && uResolved, tRefused || uRefused)
  {
  }

  lemma TailShapes<V>(gs: seq<Filter<V>>, fs: seq<Filter<V>>)
    requires fs != [] && SameShapes(gs, fs) && AllNonEmpty(fs) && AllNonEmpty(gs)
    ensures SameShapes(gs[1..], fs[1..]) && AllNonEmpty(fs[1..]) && AllNonEmpty(gs[1..])
  {
    var gs', fs' := gs[1..], fs[1..];
    assert forall i | 0 <= i < |fs'| :: gs'[i] == gs[i + 1] && fs'[i] == fs[i + 1];
  }

  lemma SuppliesParts<V>(style: Style, values: map<string, V>, a: seq<Filter<V>>, b: seq<Filter<V>>, j: nat)
    requires forall i | 0 <= i < |a| :: a[i].Criteria?
    requires forall i | 0 <= i < |b| :: b[i].Criteria?
    requires Supplies(style, values, a + b, j)
    ensures Supplies(style, values, a, j) && Supplies(style, values, b, j + |a|)
  {
    forall i | 0 <= i < |a| ensures SuppliesOne(style, values, a[i], j + i) {
      assert (a + b)[i] == a[i];
    }
    forall i | 0 <= i < |b| ensures SuppliesOne(style, values, b[i], j + |a| + i) {
      assert (a + b)[|a| + i] == b[i] && j + (|a| + i) == j + |a| + i;
    }
  }

  /** In Cosmos DB statements every name stands for itself. */
  lemma {:induction false} CosmosNamesResolve<V>(names: map<string, string>, f: Filter<V>)
    ensures Resolved(CosmosDb, names, f, f) && SameShape(f, f)
    decreases f, 1
  {
    if f.Group? {
      AllCosmosNamesResolve(names, f.children);
    }
  }

  lemma {:induction false} AllCosmosNamesResolve<V>(names: map<string, string>, fs: seq<Filter<V>>)
    ensures ResolvedAll(CosmosDb, names, fs, fs) && SameShapes(fs, fs)
    decreases fs, 0
  {
    if fs != [] {
      var rest := fs[1..];
      CosmosNamesResolve(names, fs[0]);
      AllCosmosNamesResolve(names, rest);
      assert forall i | 0 <= i < |rest| :: rest[i] == fs[i + 1];
      assert forall i | 0 < i < |fs| :: fs[i] == rest[i - 1];
    }
  }

  /** A statement means what its filter means, under good values, exactly if what is written stands for
      what is meant and nothing is refused. */
  lemma StatementMeans<V>(style: Style, g: Filter<V>, f: Filter<V>, j: nat, names: map<string, string>, values: map<string, V>)
    requires NonEmpty(f) && SameShape(g, f) && Legible(style, g) && Supplies(style, values, Leaves(f), j)
    ensures Parse(Statement(style, g, j)).Some?
    ensures Exactly(Denote(style, Parse(Statement(style, g, j)).value, names, values), Normal(f),
                    Resolved(style, names, g, f), Refused(style, f))
  {
    ShapeKeeps(g, f);
    StatementReadsAsItsTree(style, g, j);
    TreeDenotes(style, g, f, j, names, values);
  }
}
