/** The filters that `buildFilterExpression` gets wrong, exactly. */
module DynamoDbCollisions {
  import opened Wrappers
  import opened Text
  import opened Filters
  import opened Statements
  import opened ParseConservation
  import opened DynamoDbFilters
  import opened DynamoDbPlaceholders
  import opened DynamoDbMeaning

  // ---------------------------------------------------------------- brackets without quotes

  function TokenLength(s: string): (n: nat)
    requires s != []
    ensures 0 < n <= |s|
  {
    if WordChar(s[0]) then WordLength(s) else if CmpChar(s[0]) then CmpLength(s) else 1
  }

  lemma {:induction false} LengthsHaveNoBracket(s: string)
    ensures '[' !in s[..WordLength(s)] && '[' !in s[..CmpLength(s)]
  {
    if s != [] {
      LengthsHaveNoBracket(s[1..]);
      var n, m := WordLength(s), CmpLength(s);
      assert n > 0 ==> s[..n] == [s[0]] + s[1..][..n - 1];
      assert m > 0 ==> s[..m] == [s[0]] + s[1..][..m - 1];
    }
  }

  /** The first token of a text without quotes, or none for a space. */
  function FirstTokens(s: string): seq<Token>
    requires s != []
  {
    if s[0] == ' ' then []
    else if s[0] == '(' then [LPar]
    else if s[0] == ')' then [RPar]
    else if s[0] == '[' then [LBracket]
    else if s[0] == ']' then [RBracket]
    else if WordChar(s[0]) then [Word(s[..WordLength(s)])]
    else [Cmp(s[..CmpLength(s)])]
  }

  lemma LexStep(s: string)
    requires s != [] && s[0] != '"' && Lex(s).Some?
    ensures var rest := Lex(s[TokenLength(s)..]); rest.Some? && Lex(s).value == FirstTokens(s) + rest.value
  {
    if s[0] == ' ' {
      assert [] + Lex(s[1..]).value == Lex(s[1..]).value;
    }
  }

  /** A text without quotes is read with no name between quotes, and with its brackets. */
  lemma {:induction false} BracketsAreRead(s: string)
    requires '"' !in s
    ensures Lex(s).Some? ==> QuotedIn(Lex(s).value) == [] && ('[' in s ==> Brackets(Lex(s).value) > 0)
    decreases |s|
  {
    if s != [] && Lex(s).Some? {
      var n := TokenLength(s);
      var first, rest := FirstTokens(s), s[n..];
      LexStep(s);
      BracketsAreRead(rest);
      QuotedTogether(first, Lex(rest).value);
      FirstHasBracket(s);
      assert s == s[..n] + rest;
      assert QuotedIn(first) == [];
    }
  }

  lemma FirstHasBracket(s: string)
    requires s != [] && s[0] != '"'
    ensures '[' in s[..TokenLength(s)] ==> Brackets(FirstTokens(s)) > 0
  {
    LengthsHaveNoBracket(s);
    if s[0] != '[' && TokenLength(s) == 1 {
      assert s[..1] == [s[0]];
    }
  }

  /** A bracket opens a key between quotes, so without quotes the database refuses the text. */
  lemma BracketIsRefused(s: string)
    requires '[' in s && '"' !in s
    ensures Parse(s).None?
  {
    BracketsAreRead(s);
    if Lex(s).Some? {
      ParsedNames(Lex(s).value);
    }
  }

  // ---------------------------------------------------------------- inherited names in a statement

  predicate NamesHave<V>(c: char, f: Filter<V>)
    decreases f, 1
  {
    if f.Criteria? then c in f.propertyName else AnyNamesHave(c, f.children)
  }

  predicate AnyNamesHave<V>(c: char, fs: seq<Filter<V>>)
    decreases fs, 0
  {
    fs != [] && (NamesHave(c, fs[0]) || AnyNamesHave(c, fs[1..]))
  }

  /** Characters that the compiler itself never writes. */
  predicate Foreign(c: char) {
    c == '[' || c == '"'
  }

  lemma CriterionHas(c: char, name: string, op: Operator, j: nat)
    requires Foreign(c)
    ensures c in LeftText(DynamoDb, name) + " " + op.Spelling() + " " + ValueKey(DynamoDb, j) <==> c in name
  {
    var d := Decimal(j);
    assert c !in d by {
      assert forall i | 0 <= i < |d| :: IsDigit(d[i]);
    }
    assert c !in op.Spelling() && c !in "#r." && c !in " " && c !in ":a";
  }

  lemma {:induction false} StatementHas<V>(c: char, f: Filter<V>, j: nat)
    requires Foreign(c)
    ensures c in Statement(DynamoDb, f, j) <==> NamesHave(c, f)
    decreases f, 1
  {
    match f
    case Criteria(name, op, _) => CriterionHas(c, name, op, j);
    case Group(children, op) =>
      JoinedHave(c, children, " " + JoinWord(op) + " ", j);
  }

  lemma {:induction false} JoinedHave<V>(c: char, fs: seq<Filter<V>>, sep: string, j: nat)
    requires Foreign(c) && c !in sep
    ensures c in Join(StatementsOf(DynamoDb, fs, j), sep) <==> AnyNamesHave(c, fs)
    decreases fs, 0
  {
    if fs != [] {
      var next := j + |Leaves(fs[0])|;
      var first, others := Statement(DynamoDb, fs[0], j), StatementsOf(DynamoDb, fs[1..], next);
      assert StatementsOf(DynamoDb, fs, j) == [first] + others;
      StatementHas(c, fs[0], j);
      JoinedHave(c, fs[1..], sep, next);
      JoinHas(c, first, others, sep);
    }
  }

  lemma JoinHas(c: char, first: string, others: seq<string>, sep: string)
    requires c !in sep
    ensures c in Join([first] + others, sep) <==> c in first || c in Join(others, sep)
  {
    if others == [] {
      assert [first] + others == [first];
    } else {
      JoinFirst(first, others, sep);
    }
  }

  lemma NativeTextHas(functionName: string)
    requires '"' !in functionName
    ensures '[' in NativeText(functionName) && '"' !in NativeText(functionName)
  {
    var start, end := "function ", "() { [native code] }";
    assert end[5] == '[' && '"' !in end && '"' !in start;
    assert NativeText(functionName) == start + functionName + end;
  }

  /** Every inherited name is printed with a bracket and without quotes. */
  lemma InheritedHas(name: string)
    requires Inherited(name).Some? && DotlessWord(name)
    ensures '[' in Inherited(name).value && '"' !in Inherited(name).value
  {
    if name == "__proto__" {
      assert "[object Object]"[0] == '[' && '"' !in "[object Object]";
    } else if name == "constructor" {
      NativeTextHas("Object");
    } else {
      assert '"' !in name;
      NativeTextHas(name);
    }
  }

  ghost predicate Wordy(names: Names) {
    forall k | k in names :: DotlessWord(names[k])
  }

  /** Written in words, or with a bracket; never with quotes. */
  ghost predicate WordsOrBracket(words: bool, bracket: bool, quote: bool) {
    (words || bracket) && !quote
  }

  lemma CriterionIsWritten(names: Names, name: string)
    requires Wordy(names) && DotlessWord(name)
    ensures var w := KeyFor(names, name); WordsOrBracket(DotlessWord(w), '[' in w, '"' in w)
    ensures Wordy(After(names, name))
  {
    if Lookup(names, name).None? {
      NewKeyIsWord(|names|);
    } else if name !in names {
      InheritedHas(name);
    }
  }

  lemma {:induction false} FilterIsWritten<V>(f: Filter<V>, names: Names)
    requires Wordy(names) && DotlessNames(f)
    ensures var g := Relabelled(f, names); WordsOrBracket(DotlessNames(g), NamesHave('[', g), NamesHave('"', g))
    ensures Wordy(AfterAll(names, Leaves(f)))
    decreases f, 1
  {
    match f
    case Criteria(name, _, _) =>
      CriterionIsWritten(names, name);
      assert Leaves(f)[0] == f && Leaves(f)[1..] == [];
      assert AfterAll<V>(After(names, name), []) == After(names, name);
    case Group(children, _) =>
      FiltersAreWritten(children, names);
  }

  lemma {:induction false} FiltersAreWritten<V>(fs: seq<Filter<V>>, names: Names)
    requires Wordy(names) && AllDotlessNames(fs)
    ensures var gs := RelabelledAll(fs, names); WordsOrBracket(AllDotlessNames(gs), AnyNamesHave('[', gs), AnyNamesHave('"', gs))
    ensures Wordy(AfterAll(names, LeavesAll(fs)))
    decreases fs, 0
  {
    if fs != [] {
      var names1 := AfterAll(names, Leaves(fs[0]));
      FilterIsWritten(fs[0], names);
      FiltersAreWritten(fs[1..], names1);
      AfterBoth(names, Leaves(fs[0]), LeavesAll(fs[1..]));
      assert RelabelledAll(fs, names)[1..] == RelabelledAll(fs[1..], names1);
    }
  }

  lemma StartIsWordy<V>()
    ensures Wordy(EmptyMaps<V>().names)
  {
    assert DotlessWord("resource");
  }

  // ---------------------------------------------------------------- the theorems

  /** For every filter with non-empty groups whose names are words without dots: DynamoDB reads the
      filter's own condition from what is sent if and only if there is no `!=` and no collision. */
  lemma CompilationExactly<V>(f: Filter<V>, partitionKeyName: string, path: V)
    requires NonEmpty(f) && DotlessNames(f)
    ensures ConditionOf(f, partitionKeyName, path) == Some(Normal(f)) <==> !UsesInequality(f) && NoCollision(f, partitionKeyName)
  {
    var g := Relabelled(f, EmptyMaps<V>().names);
    StartIsWordy<V>();
    FilterIsWritten(f, EmptyMaps<V>().names);
    if DotlessNames(g) {
      WordsMean(f, partitionKeyName, path);
    } else {
      CompiledFilter(f, partitionKeyName, path);
      StatementHas('[', g, 0);
      StatementHas('"', g, 0);
      BracketIsRefused(Statement(DynamoDb, g, 0));
      if NoCollision(f, partitionKeyName) {
        ClearIsInWords(f, partitionKeyName);
      }
    }
  }

  predicate UsesInherited<V>(f: Filter<V>)
    decreases f, 1
  {
    if f.Criteria? then Inherited(f.propertyName).Some? else AnyUsesInherited(f.children)
  }

  predicate AnyUsesInherited<V>(fs: seq<Filter<V>>)
    decreases fs, 0
  {
    fs != [] && (UsesInherited(fs[0]) || AnyUsesInherited(fs[1..]))
  }

  lemma InheritedIsFound(names: Names, name: string)
    requires Inv(names) && Inherited(name).Some? && DotlessWord(name)
    ensures '[' in KeyFor(names, name)
  {
    InheritedHas(name);
    if name in names {
      PlaceholderIsWord(names, name);
      NumberSignIsNotInherited(name);
    }
  }

  lemma {:induction false} InheritedIsWritten<V>(f: Filter<V>, names: Names)
    requires Inv(names) && DotlessNames(f) && UsesInherited(f)
    ensures NamesHave('[', Relabelled(f, names))
    decreases f, 1
  {
    match f
    case Criteria(name, _, _) => InheritedIsFound(names, name);
    case Group(children, _) => SomeInheritedIsWritten(children, names);
  }

  lemma {:induction false} SomeInheritedIsWritten<V>(fs: seq<Filter<V>>, names: Names)
    requires Inv(names) && AllDotlessNames(fs) && AnyUsesInherited(fs)
    ensures AnyNamesHave('[', RelabelledAll(fs, names))
    decreases fs, 0
  {
    var names1 := AfterAll(names, Leaves(fs[0]));
    assert RelabelledAll(fs, names)[1..] == RelabelledAll(fs[1..], names1);
    if UsesInherited(fs[0]) {
      InheritedIsWritten(fs[0], names);
    } else {
      AfterAllKeepsInv(names, Leaves(fs[0]));
      SomeInheritedIsWritten(fs[1..], names1);
    }
  }

  /** A filter of such names with an inherited one among them, at any place, gives a statement that does not parse. */
  lemma InheritedNameIsRefused<V>(f: Filter<V>)
    requires DotlessNames(f) && UsesInherited(f)
    ensures Parse(Compile(f, EmptyMaps()).0).None?
  {
    var start: Maps<V> := EmptyMaps();
    var g := Relabelled(f, start.names);
    StartIsGood<V>();
    StartIsWordy<V>();
    CompileIsStatement(f, start);
    FilterIsWritten(f, start.names);
    InheritedIsWritten(f, start.names);
    StatementHas('[', g, 0);
    StatementHas('"', g, 0);
    BracketIsRefused(Statement(DynamoDb, g, 0));
  }

  /** A single criterion of any name survives unless its name is `#r`, is inherited, or its operator is `!=`. */
  lemma CriterionExactly<V>(name: string, op: Operator, v: V, partitionKeyName: string, path: V)
    ensures ConditionOf(Criteria(name, op, v), partitionKeyName, path) == Some(Test(name, op, v))
       <==> name != "#r" && Inherited(name).None? && !op.Ne?
  {
    var f := Criteria(name, op, v);
    CollidesAlone(f, partitionKeyName);
    if name == "#r" || Inherited(name).Some? {
      CollidingNamesAreWords(name);
      CompilationExactly(f, partitionKeyName, path);
    } else {
      ClearIsInWords(f, partitionKeyName);
      WordsMean(f, partitionKeyName, path);
    }
  }

  lemma CollidesAlone<V>(f: Filter<V>, partitionKeyName: string)
    requires f.Criteria?
    ensures NoCollision(f, partitionKeyName) <==> f.propertyName != "#r" && Inherited(f.propertyName).None?
  {
    var names, name := EmptyMaps<V>().names, f.propertyName;
    assert Leaves(f)[0] == f && Leaves(f)[1..] == [];
    assert ClearAll<V>(After(names, name), [], partitionKeyName);
    ClearAlone<V>(name, partitionKeyName);
  }

  lemma ClearAlone<V>(name: string, partitionKeyName: string)
    ensures Clear(EmptyMaps<V>().names, name, partitionKeyName) <==> name != "#r" && Inherited(name).None?
  {
    assert "resource"[0] == 'r' && "#partitionKey"[0] == '#' && "#r"[0] == '#';
    if name != "#r" && Inherited(name).Some? {
      InheritedIsNotItself(name);
      assert Inherited(name).value[0] != '#';
    }
  }

  lemma CollidingNamesAreWords(name: string)
    requires name == "#r" || Inherited(name).Some?
    ensures DotlessWord(name)
  {
    if name == "#r" || name == "__proto__" || name == "constructor" {
    } else if name[0] == '_' {
      AccessorsAreWords(name);
    } else {
      if name[0] == 't' || name[0] == 'v' {
        MethodsAreWords(name);
      } else {
        LongerMethodsAreWords(name);
      }
    }
  }

  lemma AccessorsAreWords(name: string)
    requires name in ["__defineGetter__", "__defineSetter__", "__lookupGetter__", "__lookupSetter__"]
    ensures DotlessWord(name)
  {
  }

  lemma MethodsAreWords(name: string)
    requires name in ["toString", "valueOf", "toLocaleString"]
    ensures DotlessWord(name)
  {
  }

  lemma LongerMethodsAreWords(name: string)
    requires name in ["hasOwnProperty", "isPrototypeOf", "propertyIsEnumerable"]
    ensures DotlessWord(name)
  {
  }
}
