/** `buildFilterExpression`: a filter as a DynamoDB statement with name and value placeholders. */
module DynamoDbFilters {
  import opened Wrappers
  import opened Sequences
  import opened Text
  import opened Filters
  import opened Statements
  import opened Denotations

  /** The maps that the compiler fills while it writes the statement. */
  datatype Maps<V> = Maps(names: map<string, string>, values: map<string, V>)

  /** A built-in function, as a template string prints it. */
  function NativeText(functionName: string): string {
    "function " + functionName + "() { [native code] }"
  }

  /** What an object inherits from `Object.prototype` under a name, as a template string prints it. */
  function Inherited(name: string): Option<string> {
    if name == "__proto__" then Some("[object Object]")
    else if name == "constructor" then Some(NativeText("Object"))
    else if name in ["__defineGetter__", "__defineSetter__", "hasOwnProperty", "__lookupGetter__", "__lookupSetter__",
                     "isPrototypeOf", "propertyIsEnumerable", "toString", "valueOf", "toLocaleString"]
    then Some(NativeText(name))
    else None
  }

  /** `expressionAttributeNames[propertyName]`, None where it is falsy. The map is keyed by placeholder,
      so a property is found here only if its name happens to be a placeholder or an inherited name. */
  function Lookup(names: map<string, string>, propertyName: string): Option<string> {
    if propertyName in names then if names[propertyName] == "" then None else Some(names[propertyName])
    else Inherited(propertyName)
  }

  /** What a criterion on this property is written under. */
  function KeyFor(names: map<string, string>, name: string): string {
    var known := Lookup(names, name);
    if known.Some? then known.value else "#a" + Decimal(|names|)
  }

  /** The names after a criterion on this property. */
  function After(names: map<string, string>, name: string): map<string, string> {
    if Lookup(names, name).Some? then names else names[KeyFor(names, name) := name]
  }

  function Compile<V>(f: Filter<V>, m: Maps<V>): (string, Maps<V>)
    decreases f, 1
  {
    match f
    case Criteria(name, op, v) =>
      var valueKey := ":a" + Decimal(|m.values|);
      ("#r." + KeyFor(m.names, name) + " " + op.Spelling() + " " + valueKey, Maps(After(m.names, name), m.values[valueKey := v]))
    case Group(children, op) =>
      if children == [] then ("", m)
      else
        var (texts, m') := CompileAll(children, m);
        ("(" + Join(texts, " " + JoinWord(op) + " ") + ")", m')
  }

  function CompileAll<V>(fs: seq<Filter<V>>, m: Maps<V>): (seq<string>, Maps<V>)
    decreases fs, 0
  {
    if fs == [] then ([], m)
    else
      var (text, m1) := Compile(fs[0], m);
      var (texts, m2) := CompileAll(fs[1..], m1);
      ([text] + texts, m2)
  }

  /** With these texts written and these filters left, the rest gives `all`. */
  ghost predicate Along<V>(texts: seq<string>, left: seq<Filter<V>>, m: Maps<V>, all: (seq<string>, Maps<V>)) {
    var rest := CompileAll(left, m);
    texts + rest.0 == all.0 && rest.1 == all.1
  }

  lemma Forward<V>(texts: seq<string>, left: seq<Filter<V>>, m: Maps<V>, all: (seq<string>, Maps<V>))
    requires left != [] && Along(texts, left, m, all)
    ensures var (text, m') := Compile(left[0], m); Along(texts + [text], left[1..], m', all)
  {
    var (text, m') := Compile(left[0], m);
    Reassociate(texts, [text], CompileAll(left[1..], m').0);
  }

  lemma Finished<V>(texts: seq<string>, m: Maps<V>, all: (seq<string>, Maps<V>))
    ensures Along(texts, [], m, all) ==> (texts, m) == all
  {
    assert texts + [] == texts;
  }

  function EmptyMaps<V>(): Maps<V> {
    Maps(map["#r" := "resource"], map[])
  }

  // ---------------------------------------------------------------- the compiler, filling maps in place

  class DynamoDbExpression<V> {
    var expressionAttributeNames: map<string, string>
    var expressionAttributeValues: map<string, V>

    ghost function View(): Maps<V>
      reads this
    {
      Maps(expressionAttributeNames, expressionAttributeValues)
    }

    constructor ()
      ensures View() == EmptyMaps()
    {
      expressionAttributeNames := map["#r" := "resource"];
      expressionAttributeValues := map[];
    }

    method AddFilterExpression(f: Filter<V>) returns (statement: string)
      modifies this
      ensures (statement, View()) == Compile(f, old(View()))
      decreases f, 1
    {
      match f
      case Group(_, _) => statement := AddFilterCriteriaGroup(f);
      case Criteria(name, op, v) => statement := AddFilterCriteria(name, op, v);
    }

    method AddFilterCriteriaGroup(f: Filter<V>) returns (statement: string)
      requires f.Group?
      modifies this
      ensures (statement, View()) == Compile(f, old(View()))
      decreases f, 0
    {
      if |f.children| == 0 {
        return "";
      }
      var texts: seq<string> := [];
      var fs := f.children;
      ghost var all := CompileAll(fs, View());
      assert fs[0..] == fs;
      for i := 0 to |fs|
        invariant |texts| == i
        invariant Along(texts, fs[i..], View(), all)
      {
        Forward(texts, fs[i..], View(), all);
        assert fs[i..][0] == fs[i] && fs[i..][1..] == fs[i + 1..];
        var text := AddFilterExpression(fs[i]);
        texts := texts + [text];
      }
      assert fs[|fs|..] == [];
      Finished(texts, View(), all);
      statement := "(" + Join(texts, " " + JoinWord(f.logicalOperator) + " ") + ")";
    }

    method AddFilterCriteria(name: string, op: Operator, v: V) returns (statement: string)
      modifies this
      ensures (statement, View()) == Compile(Criteria(name, op, v), old(View()))
    {
      var known := Lookup(expressionAttributeNames, name);
      var attributeNameKey;
      if known.None? {
        attributeNameKey := "#a" + Decimal(|expressionAttributeNames|);
        expressionAttributeNames := expressionAttributeNames[attributeNameKey := name];
      } else {
        attributeNameKey := known.value;
      }
      var attributeValueKey := ":a" + Decimal(|expressionAttributeValues|);
      expressionAttributeValues := expressionAttributeValues[attributeValueKey := v];
      statement := "#r." + attributeNameKey + " " + op.Spelling() + " " + attributeValueKey;
    }
  }

  // ---------------------------------------------------------------- what the criteria add to the maps

  type Names = map<string, string>

  ghost predicate Extends<T>(m: map<string, T>, m': map<string, T>) {
    forall k | k in m :: k in m' && m'[k] == m[k]
  }

  /** The names after criteria with these leaves. */
  function AfterAll<V>(names: Names, leaves: seq<Filter<V>>): Names
    requires forall i | 0 <= i < |leaves| :: leaves[i].Criteria?
    decreases |leaves|
  {
    if leaves == [] then names else AfterAll(After(names, leaves[0].propertyName), leaves[1..])
  }

  /** The values after criteria with these leaves. */
  function AddedAll<V>(values: map<string, V>, leaves: seq<Filter<V>>): map<string, V>
    requires forall i | 0 <= i < |leaves| :: leaves[i].Criteria?
    decreases |leaves|
  {
    if leaves == [] then values
    else AddedAll(values[ValueKey(DynamoDb, |values|) := leaves[0].propertyValue], leaves[1..])
  }

  function MapsAfter<V>(m: Maps<V>, leaves: seq<Filter<V>>): Maps<V>
    requires forall i | 0 <= i < |leaves| :: leaves[i].Criteria?
  {
    Maps(AfterAll(m.names, leaves), AddedAll(m.values, leaves))
  }

  lemma {:induction false} AfterBoth<V>(names: Names, a: seq<Filter<V>>, b: seq<Filter<V>>)
    requires forall i | 0 <= i < |a| :: a[i].Criteria?
    requires forall i | 0 <= i < |b| :: b[i].Criteria?
    ensures AfterAll(names, a + b) == AfterAll(AfterAll(names, a), b)
    decreases |a|
  {
    if a == [] {
      assert a + b == b;
    } else {
      AfterBoth(After(names, a[0].propertyName), a[1..], b);
      assert (a + b)[0] == a[0] && (a + b)[1..] == a[1..] + b;
    }
  }

  lemma {:induction false} AddedBoth<V>(values: map<string, V>, a: seq<Filter<V>>, b: seq<Filter<V>>)
    requires forall i | 0 <= i < |a| :: a[i].Criteria?
    requires forall i | 0 <= i < |b| :: b[i].Criteria?
    ensures AddedAll(values, a + b) == AddedAll(AddedAll(values, a), b)
    decreases |a|
  {
    if a == [] {
      assert a + b == b;
    } else {
      AddedBoth(values[ValueKey(DynamoDb, |values|) := a[0].propertyValue], a[1..], b);
      assert (a + b)[0] == a[0] && (a + b)[1..] == a[1..] + b;
    }
  }

  // ---------------------------------------------------------------- values have placeholders of their own

  lemma DecimalsAreDistinct(m: nat, n: nat)
    ensures Decimal(m) == Decimal(n) <==> m == n
  {
    ParseDecimalInverts(m);
    ParseDecimalInverts(n);
  }

  lemma KeysAreDistinct(m: nat, n: nat)
    ensures "#a" + Decimal(m) == "#a" + Decimal(n) <==> m == n
    ensures ValueKey(DynamoDb, m) == ValueKey(DynamoDb, n) <==> m == n
  {
    DecimalsAreDistinct(m, n);
    assert ("#a" + Decimal(m))[2..] == Decimal(m) && ("#a" + Decimal(n))[2..] == Decimal(n);
    assert (":a" + Decimal(m))[2..] == Decimal(m) && (":a" + Decimal(n))[2..] == Decimal(n);
  }

  /** The placeholders from the number of values on are free. */
  ghost predicate Dense<V>(values: map<string, V>) {
    forall j: nat | j >= |values| :: ValueKey(DynamoDb, j) !in values
  }

  lemma DenseGrows<V>(values: map<string, V>, v: V)
    requires Dense(values)
    ensures var values' := values[ValueKey(DynamoDb, |values|) := v];
            Dense(values') && |values'| == |values| + 1 && Extends(values, values')
  {
    var n := |values|;
    var values' := values[ValueKey(DynamoDb, n) := v];
    assert |values'| == n + 1;
    forall j: nat | j >= n + 1 ensures ValueKey(DynamoDb, j) !in values' {
      KeysAreDistinct(j, n);
    }
  }

  lemma {:induction false} AddedAllKeeps<V>(values: map<string, V>, leaves: seq<Filter<V>>)
    requires (forall i | 0 <= i < |leaves| :: leaves[i].Criteria?) && Dense(values)
    ensures var values' := AddedAll(values, leaves);
            Dense(values') && |values'| == |values| + |leaves| && Extends(values, values')
    decreases |leaves|
  {
    if leaves != [] {
      DenseGrows(values, leaves[0].propertyValue);
      AddedAllKeeps(values[ValueKey(DynamoDb, |values|) := leaves[0].propertyValue], leaves[1..]);
    }
  }

  /** Every criterion's value is found under its own placeholder, for good. */
  lemma AddedAllSupplies<V>(values: map<string, V>, leaves: seq<Filter<V>>)
    requires (forall i | 0 <= i < |leaves| :: leaves[i].Criteria?) && Dense(values)
    ensures Supplies(DynamoDb, AddedAll(values, leaves), leaves, |values|)
  {
    forall i | 0 <= i < |leaves| ensures SuppliesOne(DynamoDb, AddedAll(values, leaves), leaves[i], |values| + i) {
      AddedAllSuppliesOne(values, leaves, i);
    }
  }

  lemma {:induction false} AddedAllSuppliesOne<V>(values: map<string, V>, leaves: seq<Filter<V>>, i: nat)
    requires (forall k | 0 <= k < |leaves| :: leaves[k].Criteria?) && Dense(values) && i < |leaves|
    ensures SuppliesOne(DynamoDb, AddedAll(values, leaves), leaves[i], |values| + i)
    decreases |leaves|
  {
    var values1 := values[ValueKey(DynamoDb, |values|) := leaves[0].propertyValue];
    DenseGrows(values, leaves[0].propertyValue);
    if i == 0 {
      AddedAllKeeps(values1, leaves[1..]);
    } else {
      AddedAllSuppliesOne(values1, leaves[1..], i - 1);
      assert leaves[1..][i - 1] == leaves[i];
    }
  }

  lemma {:induction false} AddedAllIsForeign<V>(values: map<string, V>, leaves: seq<Filter<V>>)
    requires (forall i | 0 <= i < |leaves| :: leaves[i].Criteria?) && ":partitionKey" !in values
    ensures ":partitionKey" !in AddedAll(values, leaves)
    decreases |leaves|
  {
    if leaves != [] {
      var key := ValueKey(DynamoDb, |values|);
      assert key[1] == 'a' && ":partitionKey"[1] == 'p';
      AddedAllIsForeign(values[key := leaves[0].propertyValue], leaves[1..]);
    }
  }

  // ---------------------------------------------------------------- what is written

  /** The filter with every name replaced by what it is written under. */
  function Relabelled<V>(f: Filter<V>, names: Names): (g: Filter<V>)
    decreases f, 1
  {
    match f
    case Criteria(name, op, v) => Criteria(KeyFor(names, name), op, v)
    case Group(children, op) => Group(RelabelledAll(children, names), op)
  }

  function RelabelledAll<V>(fs: seq<Filter<V>>, names: Names): (gs: seq<Filter<V>>)
    ensures |gs| == |fs|
    decreases fs, 0
  {
    if fs == [] then [] else [Relabelled(fs[0], names)] + RelabelledAll(fs[1..], AfterAll(names, Leaves(fs[0])))
  }

  lemma {:induction false} RelabelledKeepsShape<V>(f: Filter<V>, names: Names)
    ensures SameShape(Relabelled(f, names), f)
    decreases f, 1
  {
    if f.Group? {
      AllKeepShape(f.children, names);
    }
  }

  lemma {:induction false} AllKeepShape<V>(fs: seq<Filter<V>>, names: Names)
    ensures SameShapes(RelabelledAll(fs, names), fs)
    decreases fs, 0
  {
    if fs != [] {
      var gs, rest := RelabelledAll(fs, names), fs[1..];
      RelabelledKeepsShape(fs[0], names);
      AllKeepShape(rest, AfterAll(names, Leaves(fs[0])));
      assert gs[1..] == RelabelledAll(rest, AfterAll(names, Leaves(fs[0])));
      assert forall i | 0 < i < |fs| :: fs[i] == rest[i - 1] && gs[i] == gs[1..][i - 1];
    }
  }

  /** For every filter: the compiler writes the statement of the relabelled filter, numbering the values
      on from those it found, and adds each criterion to the maps, from left to right. */
  lemma {:induction false} CompileIsStatement<V>(f: Filter<V>, m: Maps<V>)
    requires Dense(m.values)
    ensures Compile(f, m) == (Statement(DynamoDb, Relabelled(f, m.names), |m.values|), MapsAfter(m, Leaves(f)))
    decreases f, 1
  {
    match f
    case Criteria(name, op, v) =>
      assert Leaves(f)[0] == f && Leaves(f)[1..] == [];
      AddsNone(Compile(f, m).1);
    case Group(children, op) =>
      CompileAllIsStatements(children, m);
  }

  lemma AddsNone<V>(m: Maps<V>)
    ensures MapsAfter(m, []) == m
  {
  }

  lemma {:induction false} CompileAllIsStatements<V>(fs: seq<Filter<V>>, m: Maps<V>)
    requires Dense(m.values)
    ensures CompileAll(fs, m) == (StatementsOf(DynamoDb, RelabelledAll(fs, m.names), |m.values|), MapsAfter(m, LeavesAll(fs)))
    decreases fs, 0
  {
    if fs == [] {
      AddsNone(m);
    } else {
      var first, rest := fs[0], fs[1..];
      var m1 := MapsAfter(m, Leaves(first));
      CompileIsStatement(first, m);
      AddedAllKeeps(m.values, Leaves(first));
      CompileAllIsStatements(rest, m1);
      MapsTogether(m, Leaves(first), LeavesAll(rest));
      RelabelledKeepsShape(first, m.names);
      ShapeKeeps(Relabelled(first, m.names), first);
      ConsStatements(Relabelled(first, m.names), RelabelledAll(rest, m1.names), |m.values|, |m1.values|);
    }
  }

  lemma MapsTogether<V>(m: Maps<V>, a: seq<Filter<V>>, b: seq<Filter<V>>)
    requires forall i | 0 <= i < |a| :: a[i].Criteria?
    requires forall i | 0 <= i < |b| :: b[i].Criteria?
    ensures MapsAfter(m, a + b) == MapsAfter(MapsAfter(m, a), b)
  {
    AfterBoth(m.names, a, b);
    AddedBoth(m.values, a, b);
  }

  /** One more child in front. */
  lemma ConsStatements<V>(g: Filter<V>, gs: seq<Filter<V>>, j: nat, next: nat)
    requires next == j + |Leaves(g)|
    ensures StatementsOf(DynamoDb, [g] + gs, j) == [Statement(DynamoDb, g, j)] + StatementsOf(DynamoDb, gs, next)
  {
    assert ([g] + gs)[1..] == gs;
  }

  // ---------------------------------------------------------------- what is sent

  /** What `query` sends: the statement with both maps merged over those of the key condition. */
  function Merged<V>(m: Maps<V>, partitionKeyName: string, path: V): Maps<V> {
    Maps(map["#partitionKey" := partitionKeyName] + m.names, map[":partitionKey" := path] + m.values)
  }

  /** What DynamoDB makes of a compiled filter, None if it refuses the statement. */
  function ConditionOf<V>(f: Filter<V>, partitionKeyName: string, path: V): Option<Condition<V>> {
    var (statement, m) := Compile(f, EmptyMaps());
    var all := Merged(m, partitionKeyName, path);
    match Parse(statement)
    case None => None
    case Some(t) => Denote(DynamoDb, t, all.names, all.values)
  }

  /** What is written and sent for a whole filter. */
  lemma CompiledFilter<V>(f: Filter<V>, partitionKeyName: string, path: V)
    ensures var (statement, m) := Compile(f, EmptyMaps());
            && statement == Statement(DynamoDb, Relabelled(f, EmptyMaps<V>().names), 0)
            && m.names == AfterAll(EmptyMaps<V>().names, Leaves(f))
            && ":partitionKey" !in m.values
            && Supplies(DynamoDb, Merged(m, partitionKeyName, path).values, Leaves(f), 0)
  {
    var values := AddedAll<V>(map[], Leaves(f));
    CompileIsStatement(f, EmptyMaps());
    AddedAllIsForeign<V>(map[], Leaves(f));
    AddedAllSupplies<V>(map[], Leaves(f));
    SuppliesMore(values, map[":partitionKey" := path] + values, Leaves(f));
  }

  lemma SuppliesMore<V>(values: map<string, V>, values': map<string, V>, leaves: seq<Filter<V>>)
    requires forall i | 0 <= i < |leaves| :: leaves[i].Criteria?
    requires Extends(values, values') && Supplies(DynamoDb, values, leaves, 0)
    ensures Supplies(DynamoDb, values', leaves, 0)
  {
    forall i | 0 <= i < |leaves| ensures SuppliesOne(DynamoDb, values', leaves[i], 0 + i) {
      assert SuppliesOne(DynamoDb, values, leaves[i], 0 + i);
    }
  }
}
