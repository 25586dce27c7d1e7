/** Which criteria of a filter end up under a placeholder that stands for their own name. */
module DynamoDbPlaceholders {
  import opened Wrappers
  import opened Text
  import opened Filters
  import opened DynamoDbFilters

  /** The compiler treats its criteria in this way, from left to right, whatever their groups are. */
  lemma {:induction false} CompiledNames<V>(f: Filter<V>, m: Maps<V>)
    ensures Compile(f, m).1.names == AfterAll(m.names, Leaves(f))
    decreases f, 1
  {
    match f
    case Criteria(name, _, _) =>
      assert Leaves(f) == [f] && [f][1..] == [];
      assert AfterAll<V>(After(m.names, name), []) == After(m.names, name);
    case Group(children, _) => AllCompiledNames(children, m);
  }

  lemma {:induction false} AllCompiledNames<V>(fs: seq<Filter<V>>, m: Maps<V>)
    ensures CompileAll(fs, m).1.names == AfterAll(m.names, LeavesAll(fs))
    decreases fs, 0
  {
    if fs != [] {
      var m1 := Compile(fs[0], m).1;
      CompiledNames(fs[0], m);
      AllCompiledNames(fs[1..], m1);
      AfterBoth(m.names, Leaves(fs[0]), LeavesAll(fs[1..]));
    }
  }

  // ---------------------------------------------------------------- what the names keep

  /** Keys are `#r` and numbered placeholders without gaps. */
  ghost predicate Numbered(names: Names) {
    && "#r" in names && names["#r"] == "resource"
    && forall k | k in names && k != "#r" :: exists j :: 0 < j < |names| && k == "#a" + Decimal(j)
  }

  /** No two placeholders stand for each other, and none for `#r` or an inherited name. */
  ghost predicate Untangled(names: Names) {
    && (forall k | k in names :: names[k] != "#r" && Inherited(names[k]).None?)
    && (forall k, l | k in names && l in names && k != l :: !(names[k] == l && names[l] == k))
  }

  ghost predicate Inv(names: Names) {
    Numbered(names) && Untangled(names)
  }

  lemma NewKeyIsNew(names: Names)
    requires Numbered(names)
    ensures "#a" + Decimal(|names|) !in names
  {
    var key := "#a" + Decimal(|names|);
    assert key[1] == 'a' && "#r"[1] == 'r';
    if key in names {
      var j :| 0 < j < |names| && key == "#a" + Decimal(j);
      KeysAreDistinct(j, |names|);
    }
  }

  lemma AfterKeepsInv(names: Names, name: string)
    requires Inv(names)
    ensures Inv(After(names, name))
    ensures Extends(names, After(names, name))
  {
    if Lookup(names, name).None? {
      NewKeyIsNew(names);
      NotTaken(names, name);
      NumberedGrows(names, name);
    }
  }

  /** A name that the lookup does not find, and that is not empty, is no placeholder. */
  lemma NotTaken(names: Names, name: string)
    requires Inv(names) && Lookup(names, name).None?
    ensures Inherited(name).None? && name != "#r"
  {
    if name in names {
      assert name[0] == '#';
      NumberSignIsNotInherited(name);
    }
  }

  lemma NumberSignIsNotInherited(name: string)
    requires name != "" && name[0] == '#'
    ensures Inherited(name).None?
  {
  }

  lemma NumberedGrows(names: Names, name: string)
    requires Numbered(names) && "#a" + Decimal(|names|) !in names
    ensures Numbered(names["#a" + Decimal(|names|) := name])
  {
    var key := "#a" + Decimal(|names|);
    var names' := names[key := name];
    assert key[1] == 'a' && "#r"[1] == 'r';
    assert |names'| == |names| + 1;
    forall k | k in names' && k != "#r" ensures exists j :: 0 < j < |names'| && k == "#a" + Decimal(j) {
      if k == key {
        assert 0 < |names| < |names'|;
      } else {
        var j :| 0 < j < |names| && k == "#a" + Decimal(j);
        assert 0 < j < |names'|;
      }
    }
  }

  lemma {:induction false} AfterAllKeepsInv<V>(names: Names, leaves: seq<Filter<V>>)
    requires Inv(names) && forall i | 0 <= i < |leaves| :: leaves[i].Criteria?
    ensures Inv(AfterAll(names, leaves)) && Extends(names, AfterAll(names, leaves))
    decreases |leaves|
  {
    if leaves != [] {
      AfterKeepsInv(names, leaves[0].propertyName);
      AfterAllKeepsInv(After(names, leaves[0].propertyName), leaves[1..]);
    }
  }

  // ---------------------------------------------------------------- the theorem

  predicate StandsFor(names: Names, key: string, name: string) {
    key in names && names[key] == name
  }

  /** A text that is found for another name never stands for that name in the end. */
  lemma FoundIsWrong(names: Names, final: Names, name: string)
    requires Inv(names) && Inv(final) && Extends(names, final)
    requires Lookup(names, name).Some? && Lookup(names, name).value != name
    ensures !StandsFor(final, Lookup(names, name).value, name)
  {
    var found := Lookup(names, name).value;
    if name in names {
      assert final[name] == found;
      assert name == "#r" ==> found == "resource";
    } else {
      assert Inherited(name).Some?;
    }
  }

  lemma InheritedIsNotItself(name: string)
    ensures Inherited(name) != Some(name)
  {
    assert name != "__proto__" && name != "constructor" && Inherited(name).Some? ==> |Inherited(name).value| > |name|;
    assert NativeText("Object")[0] == 'f' && "constructor"[0] == 'c';
    assert "[object Object]"[0] == '[' && "__proto__"[0] == '_';
  }

  lemma FoundItself(names: Names, name: string)
    requires Lookup(names, name) == Some(name)
    ensures StandsFor(names, name, name)
  {
    InheritedIsNotItself(name);
  }

  /** What is found or made for a name, seen from the names in the end. */
  lemma StandsExactly(names: Names, final: Names, name: string)
    requires Inv(names) && Inv(final) && Extends(After(names, name), final)
    ensures StandsFor(final, KeyFor(names, name), name) <==> Lookup(names, name).None? || Lookup(names, name) == Some(name)
  {
    if Lookup(names, name).Some? {
      if Lookup(names, name).value == name {
        FoundItself(names, name);
      } else {
        FoundIsWrong(names, final, name);
      }
    }
  }

  /** For every filter: a criterion is written under a placeholder that stands for its name in the map
      sent along if and only if, when its turn comes, its name is not found among the placeholders and
      inherited names, or is found to stand for itself. */
  lemma PlaceholdersExactly<V>(f: Filter<V>, i: nat)
    requires i < |Leaves(f)|
    ensures var name, names := Leaves(f)[i].propertyName, AfterAll(EmptyMaps<V>().names, Leaves(f)[..i]);
            StandsFor(Compile(f, EmptyMaps()).1.names, KeyFor(names, name), name)
            <==> Lookup(names, name).None? || Lookup(names, name) == Some(name)
  {
    CompiledNames(f, EmptyMaps());
    StartIsGood<V>();
    LeafStandsExactly(EmptyMaps<V>().names, Leaves(f), i);
  }

  lemma LeafStandsExactly<V>(start: Names, leaves: seq<Filter<V>>, i: nat)
    requires Inv(start) && i < |leaves| && forall k | 0 <= k < |leaves| :: leaves[k].Criteria?
    ensures var name, names := leaves[i].propertyName, AfterAll(start, leaves[..i]);
            StandsFor(AfterAll(start, leaves), KeyFor(names, name), name)
            <==> Lookup(names, name).None? || Lookup(names, name) == Some(name)
  {
    var name, names := leaves[i].propertyName, AfterAll(start, leaves[..i]);
    AfterAllKeepsInv(start, leaves[..i]);
    AfterKeepsInv(names, name);
    AfterAllKeepsInv(After(names, name), leaves[i + 1..]);
    SplitAt(start, leaves, i);
    StandsExactly(names, AfterAll(start, leaves), name);
  }

  lemma StartIsGood<V>()
    ensures Inv(EmptyMaps<V>().names)
  {
  }

  lemma SplitAt<V>(start: Names, leaves: seq<Filter<V>>, i: nat)
    requires i < |leaves| && forall k | 0 <= k < |leaves| :: leaves[k].Criteria?
    ensures AfterAll(start, leaves)
         == AfterAll(After(AfterAll(start, leaves[..i]), leaves[i].propertyName), leaves[i + 1..])
  {
    assert leaves == leaves[..i] + leaves[i..];
    AfterBoth(start, leaves[..i], leaves[i..]);
    assert leaves[i..][0] == leaves[i] && leaves[i..][1..] == leaves[i + 1..];
  }
}
