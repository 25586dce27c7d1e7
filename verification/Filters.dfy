/** Filter expressions and what they say about a document. */
module Filters {
  import opened Wrappers

  datatype Operator = Eq | Ne | Lt | Le | Gt | Ge {
    /** The operator as the source spells it. */
    function Spelling(): string {
      match this
      case Eq => "="
      case Ne => "!="
      case Lt => "<"
      case Le => "<="
      case Gt => ">"
      case Ge => ">="
    }
  }

  datatype LogicalOperator = Or | And

  datatype Filter<V> =
    | Criteria(propertyName: string, operator: Operator, propertyValue: V)
    | Group(children: seq<Filter>, logicalOperator: LogicalOperator)

  type Document<V> = map<string, V>

  /** How the database compares what a document has, if anything, under an operator. */
  type Comparison<!V> = (Operator, Option<V>, V) -> bool

  function Property<V>(d: Document<V>, name: string): Option<V> {
    if name in d then Some(d[name]) else None
  }

  /** The filter's own truth value on a document. */
  predicate Holds<V>(cmp: Comparison<V>, d: Document<V>, f: Filter<V>)
    decreases f
  {
    match f
    case Criteria(name, op, v) => cmp(op, Property(d, name), v)
    case Group(children, And) => forall i | 0 <= i < |children| :: Holds(cmp, d, children[i])
    case Group(children, Or) => exists i :: 0 <= i < |children| && Holds(cmp, d, children[i])
  }

  /** No group, at any depth, is empty. */
  predicate NonEmpty<V>(f: Filter<V>)
    decreases f
  {
    f.Group? ==> f.children != [] && forall i | 0 <= i < |f.children| :: NonEmpty(f.children[i])
  }

  /** Some criterion is an inequality. */
  predicate UsesInequality<V>(f: Filter<V>)
    decreases f
  {
    if f.Criteria? then f.operator.Ne? else exists i :: 0 <= i < |f.children| && UsesInequality(f.children[i])
  }

  /** A condition in the normal form that parsing a statement yields. */
  datatype Condition<V> =
    | Test(propertyName: string, operator: Operator, value: V)
    | Both(left: Condition<V>, right: Condition<V>)
    | Either(left: Condition<V>, right: Condition<V>)

  predicate Satisfies<V>(cmp: Comparison<V>, d: Document<V>, c: Condition<V>) {
    match c
    case Test(name, op, v) => cmp(op, Property(d, name), v)
    case Both(l, r) => Satisfies(cmp, d, l) && Satisfies(cmp, d, r)
    case Either(l, r) => Satisfies(cmp, d, l) || Satisfies(cmp, d, r)
  }

  /** The condition that says what the filter says. */
  function Normal<V>(f: Filter<V>): Condition<V>
    requires NonEmpty(f)
    decreases f, 1
  {
    match f
    case Criteria(name, op, v) => Test(name, op, v)
    case Group(children, op) => NormalAll(children, op)
  }

  function NormalAll<V>(fs: seq<Filter<V>>, op: LogicalOperator): Condition<V>
    requires fs != [] && forall i | 0 <= i < |fs| :: NonEmpty(fs[i])
    decreases fs, 0
  {
    if |fs| == 1 then Normal(fs[0])
    else if op.And? then Both(Normal(fs[0]), NormalAll(fs[1..], op))
    else Either(Normal(fs[0]), NormalAll(fs[1..], op))
  }

  lemma {:induction false} NormalKeepsMeaning<V>(cmp: Comparison<V>, d: Document<V>, f: Filter<V>)
    requires NonEmpty(f)
    ensures Satisfies(cmp, d, Normal(f)) <==> Holds(cmp, d, f)
    decreases f, 1
  {
    if f.Group? {
      NormalAllKeepsMeaning(cmp, d, f.children, f.logicalOperator);
    }
  }

  lemma {:induction false} NormalAllKeepsMeaning<V>(cmp: Comparison<V>, d: Document<V>, fs: seq<Filter<V>>, op: LogicalOperator)
    requires fs != [] && forall i | 0 <= i < |fs| :: NonEmpty(fs[i])
    ensures Satisfies(cmp, d, NormalAll(fs, op)) <==>
              if op.And? then forall i | 0 <= i < |fs| :: Holds(cmp, d, fs[i])
              else exists i :: 0 <= i < |fs| && Holds(cmp, d, fs[i])
    decreases fs, 0
  {
    NormalKeepsMeaning(cmp, d, fs[0]);
    if |fs| > 1 {
      var rest := fs[1..];
      NormalAllKeepsMeaning(cmp, d, rest, op);
      assert forall i | 0 < i < |fs| :: fs[i] == rest[i - 1];
      assert forall i | 0 <= i < |rest| :: rest[i] == fs[i + 1];
    }
  }

  // ---------------------------------------------------------------- criteria in order

  /** The criteria of a filter from left to right. */
  function Leaves<V>(f: Filter<V>): (ls: seq<Filter<V>>)
    ensures forall i | 0 <= i < |ls| :: ls[i].Criteria?
    decreases f, 1
  {
    if f.Criteria? then [f] else LeavesAll(f.children)
  }

  function LeavesAll<V>(fs: seq<Filter<V>>): (ls: seq<Filter<V>>)
    ensures forall i | 0 <= i < |ls| :: ls[i].Criteria?
    decreases fs, 0
  {
    if fs == [] then [] else Leaves(fs[0]) + LeavesAll(fs[1..])
  }

  lemma {:induction false} LeavesExist<V>(f: Filter<V>)
    requires NonEmpty(f)
    ensures Leaves(f) != []
    decreases f
  {
    if f.Group? {
      LeavesExist(f.children[0]);
    }
  }

  /** Two filters that differ in their property names at most. */
  ghost predicate SameShape<V>(g: Filter<V>, f: Filter<V>)
    decreases f
  {
    match f
    case Criteria(_, op, v) => g.Criteria? && g.operator == op && g.propertyValue == v
    case Group(children, op) => g.Group? && g.logicalOperator == op && SameShapes(g.children, children)
  }

  ghost predicate SameShapes<V>(gs: seq<Filter<V>>, fs: seq<Filter<V>>)
    decreases fs
  {
    |gs| == |fs| && forall i | 0 <= i < |fs| :: SameShape(gs[i], fs[i])
  }

  lemma {:induction false} ShapeKeeps<V>(g: Filter<V>, f: Filter<V>)
    requires SameShape(g, f)
    ensures NonEmpty(g) <==> NonEmpty(f)
    ensures |Leaves(g)| == |Leaves(f)|
    decreases f, 1
  {
    if f.Group? {
      ShapesKeep(g.children, f.children);
    }
  }

  lemma {:induction false} ShapesKeep<V>(gs: seq<Filter<V>>, fs: seq<Filter<V>>)
    requires SameShapes(gs, fs)
    ensures forall i | 0 <= i < |fs| :: NonEmpty(gs[i]) <==> NonEmpty(fs[i])
    ensures |LeavesAll(gs)| == |LeavesAll(fs)|
    decreases fs, 0
  {
    if fs != [] {
      var gs', fs' := gs[1..], fs[1..];
      assert forall i | 0 <= i < |fs'| :: gs'[i] == gs[i + 1] && fs'[i] == fs[i + 1];
      ShapeKeeps(gs[0], fs[0]);
      ShapesKeep(gs', fs');
      assert forall i | 0 < i < |fs| :: gs[i] == gs'[i - 1] && fs[i] == fs'[i - 1];
    }
  }

  /** `hasFilterCriteria`. */
  predicate HasFilterCriteria<V>(f: Option<Filter<V>>) {
    f.Some? && (f.value.Group? ==> f.value.children != [])
  }
}
