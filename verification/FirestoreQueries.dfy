/** `buildFirestoreQuery`: a filter as a chain of `where` calls. */
module FirestoreQueries {
  import opened Wrappers
  import opened Sequences
  import opened Text
  import opened Filters

  datatype Where<V> = Where(fieldPath: string, operator: string, value: V)

  /** A query object of the client library: every call gives a new one. */
  datatype FirestoreQuery<V> = FirestoreQuery(wheres: seq<Where<V>>, limit: Option<nat>, startAfter: Option<string>) {
    function AddWhere(fieldPath: string, operator: string, value: V): FirestoreQuery<V> {
      this.(wheres := wheres + [Where(fieldPath, operator, value)])
    }
  }

  datatype Unsupported = NotEquals | LogicalOr

  // ---------------------------------------------------------------- the specification

  function WhereOf<V>(name: string, op: Operator, v: V): Where<V> {
    Where(name, if op.Eq? then "==" else op.Spelling(), v)
  }

  /** The calls for a filter, or the first thing in it, from left to right, that Firestore lacks. */
  function Chain<V>(f: Filter<V>): Result<seq<Where<V>>, Unsupported>
    decreases f, 1
  {
    match f
    case Criteria(name, op, v) => if op.Ne? then Err(NotEquals) else Ok([WhereOf(name, op, v)])
    case Group(children, op) => if op.Or? then Err(LogicalOr) else ChainAll(children)
  }

  function ChainAll<V>(fs: seq<Filter<V>>): Result<seq<Where<V>>, Unsupported>
    decreases fs, 0
  {
    if fs == [] then Ok([])
    else
      match Chain(fs[0])
      case Err(e) => Err(e)
      case Ok(first) =>
        match ChainAll(fs[1..])
        case Err(e) => Err(e)
        case Ok(others) => Ok(first + others)
  }

  /** A query with these calls added to its chain. */
  function Extended<V>(query: FirestoreQuery<V>, chain: Result<seq<Where<V>>, Unsupported>): Result<FirestoreQuery<V>, Unsupported> {
    match chain
    case Err(e) => Err(e)
    case Ok(ws) => Ok(query.(wheres := query.wheres + ws))
  }

  // ---------------------------------------------------------------- the compiler

  method AddFilterToQuery<V>(query: FirestoreQuery<V>, f: Filter<V>) returns (r: Result<FirestoreQuery<V>, Unsupported>)
    ensures r == Extended(query, Chain(f))
    decreases f, 1
  {
    match f
    case Group(_, _) => r := AddFilterCriteriaGroupToQuery(query, f);
    case Criteria(name, op, v) => r := AddFilterCriteriaToQuery(query, name, op, v);
  }

  method AddFilterCriteriaToQuery<V>(query: FirestoreQuery<V>, name: string, op: Operator, v: V)
    returns (r: Result<FirestoreQuery<V>, Unsupported>)
    ensures r == Extended(query, Chain(Criteria(name, op, v)))
  {
    if op == Ne {
      return Err(NotEquals);
    }
    r := Ok(query.AddWhere(name, if op == Eq then "==" else op.Spelling(), v));
  }

  method AddFilterCriteriaGroupToQuery<V>(query: FirestoreQuery<V>, group: Filter<V>) returns (r: Result<FirestoreQuery<V>, Unsupported>)
    requires group.Group?
    ensures r == Extended(query, Chain(group))
    decreases group, 0
  {
    if group.logicalOperator == Or {
      return Err(LogicalOr);
    }
    var firestoreQuery := query;
    var fs := group.children;
    assert fs[0..] == fs;
    for i := 0 to |fs|
      invariant Extended(firestoreQuery, ChainAll(fs[i..])) == Extended(query, ChainAll(fs))
    {
      assert fs[i..][0] == fs[i] && fs[i..][1..] == fs[i + 1..];
      ExtendedTwice(firestoreQuery, fs[i..]);
      var next := AddFilterToQuery(firestoreQuery, fs[i]);
      if next.Err? {
        return next;
      }
      firestoreQuery := next.value;
    }
    assert fs[|fs|..] == [] && firestoreQuery.wheres + [] == firestoreQuery.wheres;
    r := Ok(firestoreQuery);
  }

  lemma ExtendedTwice<V>(query: FirestoreQuery<V>, fs: seq<Filter<V>>)
    requires fs != []
    ensures var first := Extended(query, Chain(fs[0]));
            Extended(query, ChainAll(fs)) == if first.Err? then first else Extended(first.value, ChainAll(fs[1..]))
  {
    if Chain(fs[0]).Ok? && ChainAll(fs[1..]).Ok? {
      Reassociate(query.wheres, Chain(fs[0]).value, ChainAll(fs[1..]).value);
    }
  }

  /** A page size of 0 and an empty token are as good as none. */
  method BuildFirestoreQuery<V>(collection: FirestoreQuery<V>, filter: Option<Filter<V>>, pageSize: nat, pageStartToken: string)
    returns (r: Result<FirestoreQuery<V>, Unsupported>)
    ensures r.Err? <==> filter.Some? && Chain(filter.value).Err?
    ensures r.Err? ==> r.error == Chain(filter.value).error
    ensures r.Ok? ==>
      && r.value.wheres == collection.wheres + (if filter.Some? then Chain(filter.value).value else [])
      && r.value.limit == (if pageSize > 0 then Some(pageSize) else collection.limit)
      && r.value.startAfter == (if pageStartToken != "" then Some(pageStartToken) else collection.startAfter)
  {
    var firestoreQuery := collection;
    if filter.Some? {
      var added := AddFilterToQuery(firestoreQuery, filter.value);
      if added.Err? {
        return added;
      }
      firestoreQuery := added.value;
    }
    if pageSize != 0 {
      firestoreQuery := firestoreQuery.(limit := Some(pageSize));
    }
    if pageStartToken != "" {
      firestoreQuery := firestoreQuery.(startAfter := Some(pageStartToken));
    }
    r := Ok(firestoreQuery);
  }

  // ---------------------------------------------------------------- what a chain accepts

  /** The operators that Firestore knows, by their spelling there. */
  function FirestoreOperator(s: string): Option<Operator> {
    if s == "==" then Some(Eq)
    else if s == "<" then Some(Lt)
    else if s == "<=" then Some(Le)
    else if s == ">" then Some(Gt)
    else if s == ">=" then Some(Ge)
    else None
  }

  /** How Firestore follows a field path of several parts into nested maps; what it finds is left open. */
  type Nesting<!V> = (Document<V>, seq<string>) -> Option<V>

  function Field<V>(nesting: Nesting<V>, d: Document<V>, fieldPath: string): Option<V> {
    if |Split(fieldPath, '.')| == 1 then Property(d, fieldPath) else nesting(d, Split(fieldPath, '.'))
  }

  predicate WhereAccepts<V>(cmp: Comparison<V>, nesting: Nesting<V>, d: Document<V>, w: Where<V>) {
    var op := FirestoreOperator(w.operator);
    op.Some? && cmp(op.value, Field(nesting, d, w.fieldPath), w.value)
  }

  /** A chain accepts what every call in it accepts. */
  predicate Accepts<V>(cmp: Comparison<V>, nesting: Nesting<V>, d: Document<V>, ws: seq<Where<V>>) {
    forall i | 0 <= i < |ws| :: WhereAccepts(cmp, nesting, d, ws[i])
  }

  lemma AcceptsTogether<V>(cmp: Comparison<V>, nesting: Nesting<V>, d: Document<V>, a: seq<Where<V>>, b: seq<Where<V>>)
    ensures Accepts(cmp, nesting, d, a + b) <==> Accepts(cmp, nesting, d, a) && Accepts(cmp, nesting, d, b)
  {
    var c := a + b;
    assert forall i | 0 <= i < |a| :: c[i] == a[i];
    assert forall i | 0 <= i < |b| :: c[|a| + i] == b[i];
    assert forall i | |a| <= i < |c| :: c[i] == b[i - |a|];
  }

  // ---------------------------------------------------------------- when it compiles, and what it means

  /** Some group, even an empty one, is a disjunction. */
  predicate UsesOr<V>(f: Filter<V>)
    decreases f
  {
    f.Group? && (f.logicalOperator.Or? || exists i :: 0 <= i < |f.children| && UsesOr(f.children[i]))
  }

  /** A filter compiles exactly when it has no `||` group and no `!=`. */
  lemma {:induction false} CompilesExactly<V>(f: Filter<V>)
    ensures Chain(f).Ok? <==> !UsesOr(f) && !UsesInequality(f)
    ensures Chain(f) == Err(LogicalOr) ==> UsesOr(f)
    ensures Chain(f) == Err(NotEquals) ==> UsesInequality(f)
    decreases f, 1
  {
    if f.Group? && f.logicalOperator.And? {
      AllCompileExactly(f.children);
    }
  }

  lemma {:induction false} AllCompileExactly<V>(fs: seq<Filter<V>>)
    ensures ChainAll(fs).Ok? <==> forall i | 0 <= i < |fs| :: !UsesOr(fs[i]) && !UsesInequality(fs[i])
    ensures ChainAll(fs) == Err(LogicalOr) ==> exists i :: 0 <= i < |fs| && UsesOr(fs[i])
    ensures ChainAll(fs) == Err(NotEquals) ==> exists i :: 0 <= i < |fs| && UsesInequality(fs[i])
    decreases fs, 0
  {
    if fs != [] {
      var rest := fs[1..];
      CompilesExactly(fs[0]);
      AllCompileExactly(rest);
      assert forall i | 0 < i < |fs| :: fs[i] == rest[i - 1];
      assert forall i | 0 <= i < |rest| :: rest[i] == fs[i + 1];
    }
  }

  /** No criterion's name would be taken apart into a path. */
  predicate Undotted<V>(f: Filter<V>)
    decreases f
  {
    if f.Criteria? then '.' !in f.propertyName else forall i | 0 <= i < |f.children| :: Undotted(f.children[i])
  }

  /** The chain accepts exactly the documents on which the filter holds. */
  lemma {:induction false} ChainKeepsMeaning<V>(cmp: Comparison<V>, nesting: Nesting<V>, d: Document<V>, f: Filter<V>)
    requires Chain(f).Ok? && Undotted(f)
    ensures Accepts(cmp, nesting, d, Chain(f).value) <==> Holds(cmp, d, f)
    decreases f, 1
  {
    match f
    case Criteria(name, op, v) =>
      SplitSingle(name, '.');
      var w := WhereOf(name, op, v);
      assert Chain(f).value == [w] && [w][0] == w;
      assert WhereAccepts(cmp, nesting, d, w) <==> Holds(cmp, d, f);
    case Group(children, op) =>
      ChainsKeepMeaning(cmp, nesting, d, children);
  }

  lemma {:induction false} ChainsKeepMeaning<V>(cmp: Comparison<V>, nesting: Nesting<V>, d: Document<V>, fs: seq<Filter<V>>)
    requires ChainAll(fs).Ok? && forall i | 0 <= i < |fs| :: Undotted(fs[i])
    ensures Accepts(cmp, nesting, d, ChainAll(fs).value) <==> forall i | 0 <= i < |fs| :: Holds(cmp, d, fs[i])
    decreases fs, 0
  {
    if fs != [] {
      var rest := fs[1..];
      ChainKeepsMeaning(cmp, nesting, d, fs[0]);
      ChainsKeepMeaning(cmp, nesting, d, rest);
      AcceptsTogether(cmp, nesting, d, Chain(fs[0]).value, ChainAll(rest).value);
      assert forall i | 0 < i < |fs| :: fs[i] == rest[i - 1];
      assert forall i | 0 <= i < |rest| :: rest[i] == fs[i + 1];
    }
  }

  /** A criterion with a dotted name is about a nested field instead: on every document, whatever
      the nesting finds, that is what is compared. */
  lemma DottedNamesNest<V>(cmp: Comparison<V>, nesting: Nesting<V>, d: Document<V>, name: string, op: Operator, v: V)
    requires !op.Ne? && '.' in name
    ensures Accepts(cmp, nesting, d, Chain(Criteria(name, op, v)).value) <==> cmp(op, nesting(d, Split(name, '.')), v)
  {
    var w := WhereOf(name, op, v);
    DottedSplits(name);
    assert [w][0] == w;
    assert WhereAccepts(cmp, nesting, d, w) <==> cmp(op, nesting(d, Split(name, '.')), v);
  }

  lemma DottedSplits(name: string)
    requires '.' in name
    ensures |Split(name, '.')| > 1
  {
    assert Before(name, '.') != name;
  }

  // ---------------------------------------------------------------- no other filters keep their meaning

  /** Asks that nothing be found. */
  function Missing<V>(): Comparison<V> {
    (o: Operator, x: Option<V>, v: V) => x.None?
  }

  /** Finds v under every path. */
  function Finding<V>(v: V): Nesting<V> {
    (d: Document<V>, path: seq<string>) => Some(v)
  }

  /** Nothing is found in an empty document, so there a filter without `||` holds. */
  lemma {:induction false} HoldsOfNothing<V>(f: Filter<V>)
    requires !UsesOr(f)
    ensures Holds(Missing(), map[], f)
    decreases f
  {
    if f.Group? {
      forall i | 0 <= i < |f.children| ensures Holds(Missing(), map[], f.children[i]) {
        HoldsOfNothing(f.children[i]);
      }
    }
  }

  /** But a dotted name finds something. */
  lemma {:induction false} DottedFinds<V>(f: Filter<V>, v: V)
    requires Chain(f).Ok? && !Undotted(f)
    ensures !Accepts(Missing(), Finding(v), map[], Chain(f).value)
    decreases f, 1
  {
    match f
    case Criteria(name, op, w) => DottedNamesNest(Missing(), Finding(v), map[], name, op, w);
    case Group(children, _) => SomeDottedFinds(children, v);
  }

  lemma {:induction false} SomeDottedFinds<V>(fs: seq<Filter<V>>, v: V)
    requires ChainAll(fs).Ok? && exists i :: 0 <= i < |fs| && !Undotted(fs[i])
    ensures !Accepts(Missing(), Finding(v), map[], ChainAll(fs).value)
    decreases fs, 0
  {
    var rest := fs[1..];
    AcceptsTogether(Missing(), Finding(v), map[], Chain(fs[0]).value, ChainAll(rest).value);
    if Undotted(fs[0]) {
      var i :| 0 <= i < |fs| && !Undotted(fs[i]);
      assert rest[i - 1] == fs[i];
      SomeDottedFinds(rest, v);
    } else {
      DottedFinds(fs[0], v);
    }
  }

  lemma {:induction false} SomeValue<V>(f: Filter<V>) returns (v: V)
    requires !Undotted(f)
    decreases f
  {
    match f
    case Criteria(_, _, w) => v := w;
    case Group(children, _) =>
      var i :| 0 <= i < |children| && !Undotted(children[i]);
      v := SomeValue(children[i]);
  }

  /** A filter that compiles keeps its meaning, on all documents and whatever is compared or found in
      nested fields, if and only if none of its names has a dot. */
  lemma MeaningKeptExactly<V>(f: Filter<V>)
    requires Chain(f).Ok?
    ensures Undotted(f) <==> forall cmp: Comparison<V>, nesting: Nesting<V>, d: Document<V> ::
              Accepts(cmp, nesting, d, Chain(f).value) <==> Holds(cmp, d, f)
  {
    if Undotted(f) {
      forall cmp: Comparison<V>, nesting: Nesting<V>, d: Document<V>
        ensures Accepts(cmp, nesting, d, Chain(f).value) <==> Holds(cmp, d, f)
      {
        ChainKeepsMeaning(cmp, nesting, d, f);
      }
    } else {
      var v := SomeValue(f);
      CompilesExactly(f);
      HoldsOfNothing(f);
      DottedFinds(f, v);
    }
  }
}
