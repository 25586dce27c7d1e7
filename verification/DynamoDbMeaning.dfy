/** When a filter keeps its meaning through `buildFilterExpression`. */
module DynamoDbMeaning {
  import opened Wrappers
  import opened Text
  import opened Filters
  import opened Statements
  import opened Denotations
  import opened DynamoDbFilters
  import opened DynamoDbPlaceholders

  // ---------------------------------------------------------------- the condition

  /** The lookup finds nothing for the name, or finds what stands for the name: the name itself, or the
      placeholder of the key condition if the name is that of the partition key. */
  predicate Clear(names: Names, name: string, partitionKeyName: string) {
    match Lookup(names, name)
    case None => true
    case Some(found) => found == name || (found == "#partitionKey" && name == partitionKeyName)
  }

  predicate ClearAll<V>(names: Names, leaves: seq<Filter<V>>, partitionKeyName: string)
    requires forall i | 0 <= i < |leaves| :: leaves[i].Criteria?
    decreases |leaves|
  {
    leaves != [] ==>
      && Clear(names, leaves[0].propertyName, partitionKeyName)
      && ClearAll(After(names, leaves[0].propertyName), leaves[1..], partitionKeyName)
  }

  /** No lookup for a criterion of the filter finds anything that stands for something else. */
  predicate NoCollision<V>(f: Filter<V>, partitionKeyName: string) {
    ClearAll(EmptyMaps<V>().names, Leaves(f), partitionKeyName)
  }

  lemma {:induction false} ClearBoth<V>(names: Names, a: seq<Filter<V>>, b: seq<Filter<V>>, partitionKeyName: string)
    requires forall i | 0 <= i < |a| :: a[i].Criteria?
    requires forall i | 0 <= i < |b| :: b[i].Criteria?
    ensures ClearAll(names, a + b, partitionKeyName)
       <==> ClearAll(names, a, partitionKeyName) && ClearAll(AfterAll(names, a), b, partitionKeyName)
    decreases |a|
  {
    if a == [] {
      assert a + b == b;
    } else {
      ClearBoth(After(names, a[0].propertyName), a[1..], b, partitionKeyName);
      assert (a + b)[0] == a[0] && (a + b)[1..] == a[1..] + b;
    }
  }

  /** Names that begin with no number sign and are not inherited never collide. */
  lemma OrdinaryNamesNeverCollide<V>(f: Filter<V>, partitionKeyName: string)
    requires forall i | 0 <= i < |Leaves(f)| :: Ordinary(Leaves(f)[i].propertyName)
    ensures NoCollision(f, partitionKeyName)
  {
    StartIsGood<V>();
    OrdinaryLeavesAreClear(EmptyMaps<V>().names, Leaves(f), partitionKeyName);
  }

  predicate Ordinary(name: string) {
    (name == "" || name[0] != '#') && Inherited(name).None?
  }

  lemma {:induction false} OrdinaryLeavesAreClear<V>(names: Names, leaves: seq<Filter<V>>, partitionKeyName: string)
    requires forall i | 0 <= i < |leaves| :: leaves[i].Criteria?
    requires Inv(names) && forall i | 0 <= i < |leaves| :: Ordinary(leaves[i].propertyName)
    ensures ClearAll(names, leaves, partitionKeyName)
    decreases |leaves|
  {
    if leaves != [] {
      var name := leaves[0].propertyName;
      assert Ordinary(name);
      assert name !in names;
      AfterKeepsInv(names, name);
      OrdinaryLeavesAreClear(After(names, name), leaves[1..], partitionKeyName);
    }
  }

  // ---------------------------------------------------------------- one criterion

  predicate DotlessWord(s: string) {
    AllWordChars(s) && '.' !in s
  }

  lemma WordResolves(names: Names, w: string, name: string)
    requires "#r" in names && names["#r"] == "resource" && '.' !in w
    ensures Resolves(DynamoDb, names, w, name) <==> AttributeName(w, names) == Some(name)
  {
    assert "#r." + w == "#r" + ['.'] + w;
    SplitPair("#r", '.', w);
  }

  lemma PlaceholderIsWord(names: Names, key: string)
    requires Numbered(names) && key in names
    ensures DotlessWord(key) && key[0] == '#' && key != "#partitionKey"
  {
    if key != "#r" {
      var j :| 0 < j < |names| && key == "#a" + Decimal(j);
      NewKeyIsWord(j);
    }
  }

  lemma NewKeyIsWord(j: nat)
    ensures var key := "#a" + Decimal(j); DotlessWord(key) && key != "#partitionKey"
  {
    var d, key := Decimal(j), "#a" + Decimal(j);
    assert key[1] == 'a' && "#partitionKey"[1] == 'p';
    assert forall i | 2 <= i < |key| :: key[i] == d[i - 2];
  }

  /** The names that are sent: those of the filter and that of the key condition. */
  function Sent(names: Names, partitionKeyName: string): Names {
    map["#partitionKey" := partitionKeyName] + names
  }

  lemma FreshStands(names: Names, final: Names, name: string, partitionKeyName: string)
    requires Inv(names) && Inv(final) && Extends(After(names, name), final) && Lookup(names, name).None?
    ensures DotlessWord(KeyFor(names, name)) && Resolves(DynamoDb, Sent(final, partitionKeyName), KeyFor(names, name), name)
  {
    var key := KeyFor(names, name);
    NewKeyIsWord(|names|);
    assert key in After(names, name) && After(names, name)[key] == name;
    WordResolves(Sent(final, partitionKeyName), key, name);
  }

  lemma PartitionKeyIsWord()
    ensures DotlessWord("#partitionKey")
  {
  }

  lemma ClearIsWord(names: Names, name: string, partitionKeyName: string)
    requires Inv(names) && Lookup(names, name).Some? && Clear(names, name, partitionKeyName)
    ensures DotlessWord(Lookup(names, name).value)
  {
    if Lookup(names, name).value == name {
      FoundItself(names, name);
      PlaceholderIsWord(names, name);
    } else {
      PartitionKeyIsWord();
    }
  }

  lemma FoundStands(names: Names, final: Names, name: string, partitionKeyName: string)
    requires Inv(names) && Inv(final) && Extends(names, final) && Lookup(names, name).Some?
    ensures Clear(names, name, partitionKeyName)
       <==> DotlessWord(KeyFor(names, name)) && Resolves(DynamoDb, Sent(final, partitionKeyName), KeyFor(names, name), name)
  {
    if Clear(names, name, partitionKeyName) {
      ClearIsWord(names, name, partitionKeyName);
    }
    if DotlessWord(KeyFor(names, name)) {
      WordResolves(Sent(final, partitionKeyName), KeyFor(names, name), name);
      FoundStandsAs(names, final, name, partitionKeyName);
    }
  }

  lemma FoundStandsAs(names: Names, final: Names, name: string, partitionKeyName: string)
    requires Inv(names) && Inv(final) && Extends(names, final) && Lookup(names, name).Some?
    ensures Clear(names, name, partitionKeyName) <==> AttributeName(Lookup(names, name).value, Sent(final, partitionKeyName)) == Some(name)
  {
    var found := Lookup(names, name).value;
    if found == name {
      FoundItself(names, name);
      PlaceholderIsWord(names, name);
    } else {
      FoundIsWrong(names, final, name);
      WrongStandsAs(final, found, name, partitionKeyName);
    }
  }

  /** A text that is not the name, and is no placeholder of it in the filter. */
  lemma WrongStandsAs(final: Names, found: string, name: string, partitionKeyName: string)
    requires Numbered(final) && found != name && found != "" && !StandsFor(final, found, name)
    ensures AttributeName(found, Sent(final, partitionKeyName)) == Some(name) <==> found == "#partitionKey" && name == partitionKeyName
  {
    if found in final {
      PlaceholderIsWord(final, found);
    } else {
      assert "#partitionKey"[0] == '#';
    }
  }

  /** What a criterion is written under is a word that stands for its name exactly if its name is clear. */
  lemma CriterionResolvesExactly(names: Names, final: Names, name: string, partitionKeyName: string)
    requires Inv(names) && Inv(final) && Extends(After(names, name), final)
    ensures Clear(names, name, partitionKeyName)
       <==> DotlessWord(KeyFor(names, name)) && Resolves(DynamoDb, Sent(final, partitionKeyName), KeyFor(names, name), name)
  {
    if Lookup(names, name).None? {
      FreshStands(names, final, name, partitionKeyName);
    } else {
      FoundStands(names, final, name, partitionKeyName);
    }
  }

  // ---------------------------------------------------------------- whole filters

  predicate DotlessNames<V>(f: Filter<V>)
    decreases f, 1
  {
    if f.Criteria? then DotlessWord(f.propertyName) else AllDotlessNames(f.children)
  }

  predicate AllDotlessNames<V>(fs: seq<Filter<V>>)
    decreases fs, 0
  {
    fs != [] ==> DotlessNames(fs[0]) && AllDotlessNames(fs[1..])
  }

  lemma {:induction false} DotlessNamesAreWords<V>(f: Filter<V>)
    requires DotlessNames(f)
    ensures WordNames(f)
    decreases f, 1
  {
    if f.Group? {
      AllDotlessNamesAreWords(f.children);
    }
  }

  lemma {:induction false} AllDotlessNamesAreWords<V>(fs: seq<Filter<V>>)
    requires AllDotlessNames(fs)
    ensures forall i | 0 <= i < |fs| :: WordNames(fs[i])
    decreases fs, 0
  {
    if fs != [] {
      var rest := fs[1..];
      DotlessNamesAreWords(fs[0]);
      AllDotlessNamesAreWords(rest);
      assert forall i | 0 < i < |fs| :: fs[i] == rest[i - 1];
    }
  }

  ghost predicate Right<V>(g: Filter<V>, f: Filter<V>, names: Names) {
    DotlessNames(g) && Resolved(DynamoDb, names, g, f)
  }

  ghost predicate AllRight<V>(gs: seq<Filter<V>>, fs: seq<Filter<V>>, names: Names) {
    AllDotlessNames(gs) && ResolvedAll(DynamoDb, names, gs, fs)
  }

  lemma ConsRight<V>(g: Filter<V>, gs: seq<Filter<V>>, f: Filter<V>, fs: seq<Filter<V>>, names: Names)
    ensures AllRight([g] + gs, [f] + fs, names) <==> Right(g, f, names) && AllRight(gs, fs, names)
  {
    assert ([g] + gs)[1..] == gs && ([f] + fs)[1..] == fs;
  }

  /** The names of a filter are written as words that stand for them exactly if they are clear. */
  lemma {:induction false} FilterResolvesExactly<V>(f: Filter<V>, names: Names, final: Names, partitionKeyName: string)
    requires Inv(names) && Inv(final) && Extends(AfterAll(names, Leaves(f)), final)
    ensures ClearAll(names, Leaves(f), partitionKeyName) <==> Right(Relabelled(f, names), f, Sent(final, partitionKeyName))
    decreases f, 1
  {
    match f
    case Criteria(name, _, _) =>
      assert Leaves(f)[0] == f && Leaves(f)[1..] == [];
      assert AfterAll<V>(After(names, name), []) == After(names, name);
      CriterionResolvesExactly(names, final, name, partitionKeyName);
    case Group(children, _) =>
      FiltersResolveExactly(children, names, final, partitionKeyName);
  }

  lemma {:induction false} FiltersResolveExactly<V>(fs: seq<Filter<V>>, names: Names, final: Names, partitionKeyName: string)
    requires Inv(names) && Inv(final) && Extends(AfterAll(names, LeavesAll(fs)), final)
    ensures ClearAll(names, LeavesAll(fs), partitionKeyName) <==> AllRight(RelabelledAll(fs, names), fs, Sent(final, partitionKeyName))
    decreases fs, 0
  {
    if fs != [] {
      var first, rest := fs[0], fs[1..];
      var names1 := AfterAll(names, Leaves(first));
      AfterFirst(names, Leaves(first), LeavesAll(rest), final);
      FilterResolvesExactly(first, names, final, partitionKeyName);
      FiltersResolveExactly(rest, names1, final, partitionKeyName);
      ClearBoth(names, Leaves(first), LeavesAll(rest), partitionKeyName);
      ConsRight(Relabelled(first, names), RelabelledAll(rest, names1), first, rest, Sent(final, partitionKeyName));
      assert fs == [first] + rest;
    }
  }

  lemma AfterFirst<V>(names: Names, a: seq<Filter<V>>, b: seq<Filter<V>>, final: Names)
    requires forall i | 0 <= i < |a| :: a[i].Criteria?
    requires forall i | 0 <= i < |b| :: b[i].Criteria?
    requires Inv(names) && Extends(AfterAll(names, a + b), final)
    ensures var names1 := AfterAll(names, a);
            Inv(names1) && Extends(names1, final) && Extends(AfterAll(names1, b), final)
  {
    AfterAllKeepsInv(names, a);
    AfterBoth(names, a, b);
    AfterAllKeepsInv(AfterAll(names, a), b);
  }

  // ---------------------------------------------------------------- the theorem

  /** A filter that is written in words: what DynamoDB makes of it. */
  lemma WordsMean<V>(f: Filter<V>, partitionKeyName: string, path: V)
    requires NonEmpty(f) && DotlessNames(Relabelled(f, EmptyMaps<V>().names))
    ensures Parse(Compile(f, EmptyMaps()).0).Some?
    ensures Exactly(ConditionOf(f, partitionKeyName, path), Normal(f), NoCollision(f, partitionKeyName), UsesInequality(f))
  {
    var start := EmptyMaps<V>().names;
    var g, final := Relabelled(f, start), AfterAll(start, Leaves(f));
    var all := Merged(Compile(f, EmptyMaps()).1, partitionKeyName, path);
    StartIsGood<V>();
    AfterAllKeepsInv(start, Leaves(f));
    CompiledFilter(f, partitionKeyName, path);
    FilterResolvesExactly(f, start, final, partitionKeyName);
    RelabelledKeepsShape(f, start);
    DotlessNamesAreWords(g);
    StatementMeans(DynamoDb, g, f, 0, all.names, all.values);
  }

  /** For every filter with non-empty groups and no collision, the statement sent to DynamoDB parses,
      and under the maps sent along it is refused exactly when the filter uses `!=`, which DynamoDB
      does not know, and otherwise has the filter's own truth value on every document. */
  lemma CompilationKeepsMeaning<V>(f: Filter<V>, partitionKeyName: string, path: V)
    requires NonEmpty(f) && NoCollision(f, partitionKeyName)
    ensures Parse(Compile(f, EmptyMaps()).0).Some?
    ensures var c := ConditionOf(f, partitionKeyName, path);
            && (c.None? <==> UsesInequality(f))
            && (c.Some? ==> forall cmp: Comparison<V>, d: Document<V> :: Satisfies(cmp, d, c.value) <==> Holds(cmp, d, f))
    ensures var m := Compile(f, EmptyMaps()).1; "#partitionKey" !in m.names && ":partitionKey" !in m.values
    ensures var all := Merged(Compile(f, EmptyMaps()).1, partitionKeyName, path);
            && "#partitionKey" in all.names && all.names["#partitionKey"] == partitionKeyName
            && ":partitionKey" in all.values && all.values[":partitionKey"] == path
  {
    var start := EmptyMaps<V>().names;
    ClearIsInWords(f, partitionKeyName);
    WordsMean(f, partitionKeyName, path);
    CompiledFilter(f, partitionKeyName, path);
    forall cmp: Comparison<V>, d: Document<V> ensures Satisfies(cmp, d, Normal(f)) <==> Holds(cmp, d, f) {
      NormalKeepsMeaning(cmp, d, f);
    }
    NoNameIsPartitionKey(f);
  }

  lemma ClearIsInWords<V>(f: Filter<V>, partitionKeyName: string)
    requires NoCollision(f, partitionKeyName)
    ensures DotlessNames(Relabelled(f, EmptyMaps<V>().names))
  {
    var start := EmptyMaps<V>().names;
    StartIsGood<V>();
    AfterAllKeepsInv(start, Leaves(f));
    FilterResolvesExactly(f, start, AfterAll(start, Leaves(f)), partitionKeyName);
  }

  lemma NoNameIsPartitionKey<V>(f: Filter<V>)
    ensures "#partitionKey" !in Compile(f, EmptyMaps()).1.names
  {
    var start := EmptyMaps<V>().names;
    CompiledNames(f, EmptyMaps());
    StartIsGood<V>();
    AfterAllKeepsInv(start, Leaves(f));
    if "#partitionKey" in AfterAll(start, Leaves(f)) {
      PlaceholderIsWord(AfterAll(start, Leaves(f)), "#partitionKey");
    }
  }
}
