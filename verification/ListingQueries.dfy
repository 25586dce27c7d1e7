/** `buildStandardQuery`: the query string of a listing as a query of the table. */
module ListingQueries {
  import opened Wrappers
  import opened Text
  import opened Filters

  datatype Parameter = Parameter(name: string, value: string)

  datatype SortOrder = Ascending | Descending

  /** Values of resources; those in a query string are texts. */
  datatype Value = Text(text: string) | Other(tag: int)

  datatype Query = Query(
    path: string,
    filter: Filter<Value>,
    pageSize: Option<int>,
    pageStartToken: string,
    sortBy: string,
    sortOrder: SortOrder)

  predicate Reserved(name: string) {
    name == "pageSize" || name == "pageStartToken" || name == "sortBy" || name == "sortOrder"
  }

  /** The names are those of an object, so they are distinct. */
  ghost predicate Distinct(ps: seq<Parameter>) {
    forall i, j | 0 <= i < j < |ps| :: ps[i].name != ps[j].name
  }

  /** The value under a name; empty if there is none. */
  function ValueIn(ps: seq<Parameter>, name: string): string {
    if ps == [] then "" else if ps[0].name == name then ps[0].value else ValueIn(ps[1..], name)
  }

  function Without(ps: seq<Parameter>, name: string): seq<Parameter> {
    if ps == [] then [] else (if ps[0].name == name then [] else [ps[0]]) + Without(ps[1..], name)
  }

  /** The parameters that are not consumed: a reserved one stays if it is empty. */
  function Remaining(ps: seq<Parameter>): seq<Parameter> {
    if ps == [] then [] else (if Reserved(ps[0].name) && ps[0].value != "" then [] else [ps[0]]) + Remaining(ps[1..])
  }

  /** `getFilterExpressionFromKeyValuePairs`. */
  function FilterOf(ps: seq<Parameter>): Filter<Value> {
    Group(seq(|ps|, i requires 0 <= i < |ps| => Criteria(ps[i].name, Eq, Text(ps[i].value))), And)
  }

  // ---------------------------------------------------------------- the method

  class QueryStringParameters {
    var parameters: seq<Parameter>

    constructor (ps: seq<Parameter>)
      ensures parameters == ps
    {
      parameters := ps;
    }

    /** The value under a name, which is deleted unless it is empty. */
    method Take(name: string) returns (value: string)
      modifies this
      ensures value == ValueIn(old(parameters), name) && parameters == Taken(old(parameters), name)
    {
      value := ValueIn(parameters, name);
      if value != "" {
        parameters := Without(parameters, name);
      }
    }

    /** The texts of the four reserved parameters. */
    method TakeReserved() returns (pageSize: string, pageStartToken: string, sortBy: string, sortOrder: string)
      requires Distinct(parameters)
      modifies this
      ensures pageSize == ValueIn(old(parameters), "pageSize") && pageStartToken == ValueIn(old(parameters), "pageStartToken")
      ensures sortBy == ValueIn(old(parameters), "sortBy") && sortOrder == ValueIn(old(parameters), "sortOrder")
      ensures parameters == Remaining(old(parameters))
    {
      ValuesStay(parameters);
      FourTaken(parameters);
      pageSize := Take("pageSize");
      pageStartToken := Take("pageStartToken");
      sortBy := Take("sortBy");
      sortOrder := Take("sortOrder");
    }

    /** `parseInt` gives None for what is not a number. */
    method BuildStandardQuery(path: string, parseInt: string -> Option<int>, defaultSortOrder: SortOrder) returns (q: Query)
      requires Distinct(parameters)
      modifies this
      ensures parameters == Remaining(old(parameters)) && q.filter == FilterOf(parameters) && q.path == path
      ensures q.pageStartToken == ValueIn(old(parameters), "pageStartToken") && q.sortBy == ValueIn(old(parameters), "sortBy")
      ensures var pageSize := ValueIn(old(parameters), "pageSize"); q.pageSize == if pageSize == "" then None else parseInt(pageSize)
      ensures var sortOrder := ValueIn(old(parameters), "sortOrder");
              q.sortOrder == if sortOrder == "" then defaultSortOrder else if Lower(sortOrder) == "desc" then Descending else Ascending
    {
      var size, pageStartToken, sortBy, order := TakeReserved();
      var pageSize: Option<int> := None;
      if size != "" {
        pageSize := parseInt(size);
      }
      var sortOrder := defaultSortOrder;
      if order != "" {
        sortOrder := if Lower(order) == "desc" then Descending else Ascending;
      }
      q := Query(path, FilterOf(parameters), pageSize, pageStartToken, sortBy, sortOrder);
    }
  }

  /** It is the value of the parameter with that name, of which there is one at most. */
  lemma {:induction false} ValueInExactly(ps: seq<Parameter>, name: string)
    requires Distinct(ps)
    ensures forall i | 0 <= i < |ps| && ps[i].name == name :: ValueIn(ps, name) == ps[i].value
    ensures (forall i | 0 <= i < |ps| :: ps[i].name != name) ==> ValueIn(ps, name) == ""
  {
    if ps != [] {
      var rest := ps[1..];
      assert forall i | 0 <= i < |rest| :: rest[i] == ps[i + 1];
      ValueInExactly(rest, name);
      assert forall i | 1 <= i < |ps| :: ps[i] == rest[i - 1];
    }
  }

  // ---------------------------------------------------------------- what is consumed

  function Taken(ps: seq<Parameter>, name: string): seq<Parameter> {
    if ValueIn(ps, name) == "" then ps else Without(ps, name)
  }

  lemma {:induction false} WithoutOne(ps: seq<Parameter>, name: string)
    ensures Distinct(ps) ==> Distinct(Without(ps, name))
    ensures forall i | 0 <= i < |Without(ps, name)| :: Without(ps, name)[i] in ps && Without(ps, name)[i].name != name
  {
    if ps != [] {
      WithoutOne(ps[1..], name);
    }
  }

  lemma TakenStaysDistinct(ps: seq<Parameter>, name: string)
    requires Distinct(ps)
    ensures Distinct(Taken(ps, name))
  {
    WithoutOne(ps, name);
  }

  /** Taking one parameter leaves the values of the others. */
  lemma {:induction false} OthersStay(ps: seq<Parameter>, name: string, other: string)
    requires other != name
    ensures ValueIn(Without(ps, name), other) == ValueIn(ps, other)
    ensures ValueIn(Taken(ps, name), other) == ValueIn(ps, other)
  {
    if ps != [] {
      OthersStay(ps[1..], name, other);
      if ps[0].name != name {
        assert Without(ps, name)[1..] == Without(ps[1..], name);
      } else {
        assert Without(ps, name) == Without(ps[1..], name);
      }
    }
  }

  /** Whether a parameter stays when one is taken. */
  lemma {:induction false} TakenCons(p: Parameter, rest: seq<Parameter>, name: string)
    requires Distinct([p] + rest)
    ensures Taken([p] + rest, name) == if p.name != name then [p] + Taken(rest, name) else if p.value == "" then [p] + rest else rest
    ensures p.name == name ==> Taken(rest, name) == rest
  {
    var ps := [p] + rest;
    assert ps[0] == p && ps[1..] == rest;
    assert forall i | 0 <= i < |rest| :: rest[i] == ps[i + 1];
    if p.name == name {
      NothingToTake(rest, name);
    }
  }

  lemma {:induction false} NothingToTake(ps: seq<Parameter>, name: string)
    requires forall i | 0 <= i < |ps| :: ps[i].name != name
    ensures Without(ps, name) == ps && ValueIn(ps, name) == ""
  {
    if ps != [] {
      NothingToTake(ps[1..], name);
      assert ps == [ps[0]] + ps[1..];
    }
  }

  function TakeEach(ps: seq<Parameter>, names: seq<string>): seq<Parameter>
    decreases |names|
  {
    if names == [] then ps else TakeEach(Taken(ps, names[0]), names[1..])
  }

  lemma {:induction false} TakeEachCons(p: Parameter, rest: seq<Parameter>, names: seq<string>)
    requires Distinct([p] + rest)
    ensures TakeEach([p] + rest, names) == (if p.name in names && p.value != "" then [] else [p]) + TakeEach(rest, names)
    decreases |names|
  {
    if names != [] {
      var name, others := names[0], names[1..];
      assert p.name in names <==> p.name == name || p.name in others;
      if p.name == name && p.value != "" {
        TakenCons(p, rest, name);
        assert [] + TakeEach(rest, names) == TakeEach(rest, names);
      } else {
        TakenLater(p, rest, name);
        TakeEachCons(p, Taken(rest, name), others);
      }
    }
  }

  lemma TakenLater(p: Parameter, rest: seq<Parameter>, name: string)
    requires Distinct([p] + rest) && (p.name != name || p.value == "")
    ensures Taken([p] + rest, name) == [p] + Taken(rest, name) && Distinct([p] + Taken(rest, name))
  {
    TakenCons(p, rest, name);
    TakenStaysDistinct([p] + rest, name);
  }

  function ReservedNames(): seq<string> {
    ["pageSize", "pageStartToken", "sortBy", "sortOrder"]
  }

  /** Taking the four parameters consumes just the reserved ones that are not empty. */
  lemma {:induction false} AllTaken(ps: seq<Parameter>)
    requires Distinct(ps)
    ensures TakeEach(ps, ReservedNames()) == Remaining(ps)
  {
    if ps == [] {
      TakeNothing(ReservedNames());
    } else {
      var p, rest := ps[0], ps[1..];
      assert ps == [p] + rest;
      TakeEachCons(p, rest, ReservedNames());
      assert p.name in ReservedNames() <==> Reserved(p.name);
      AllTaken(rest);
    }
  }

  lemma {:induction false} TakeNothing(names: seq<string>)
    ensures TakeEach([], names) == []
  {
    if names != [] {
      TakeNothing(names[1..]);
    }
  }

  lemma TakeOneOf(ps: seq<Parameter>, name: string, others: seq<string>)
    ensures TakeEach(ps, [name] + others) == TakeEach(Taken(ps, name), others)
  {
    assert ([name] + others)[1..] == others;
  }

  lemma FourTaken(ps: seq<Parameter>)
    requires Distinct(ps)
    ensures Taken(Taken(Taken(Taken(ps, "pageSize"), "pageStartToken"), "sortBy"), "sortOrder") == Remaining(ps)
  {
    AllTaken(ps);
    var p1 := Taken(ps, "pageSize");
    var p2 := Taken(p1, "pageStartToken");
    var p3 := Taken(p2, "sortBy");
    assert ReservedNames() == ["pageSize"] + (["pageStartToken"] + (["sortBy"] + (["sortOrder"] + [])));
    TakeOneOf(ps, "pageSize", ["pageStartToken"] + (["sortBy"] + (["sortOrder"] + [])));
    TakeOneOf(p1, "pageStartToken", ["sortBy"] + (["sortOrder"] + []));
    TakeOneOf(p2, "sortBy", ["sortOrder"] + []);
    TakeOneOf(p3, "sortOrder", []);
  }

  /** The value under a name does not change while others are taken. */
  lemma ValuesStay(ps: seq<Parameter>)
    ensures var p1 := Taken(ps, "pageSize");
            var p2 := Taken(p1, "pageStartToken");
            var p3 := Taken(p2, "sortBy");
            && ValueIn(p1, "pageStartToken") == ValueIn(ps, "pageStartToken")
            && ValueIn(p2, "sortBy") == ValueIn(ps, "sortBy")
            && ValueIn(p3, "sortOrder") == ValueIn(ps, "sortOrder")
  {
    var p1 := Taken(ps, "pageSize");
    var p2 := Taken(p1, "pageStartToken");
    OthersStay(ps, "pageSize", "pageStartToken");
    OthersStay(ps, "pageSize", "sortBy");
    OthersStay(p1, "pageStartToken", "sortBy");
    OthersStay(ps, "pageSize", "sortOrder");
    OthersStay(p1, "pageStartToken", "sortOrder");
    OthersStay(p2, "sortBy", "sortOrder");
  }

  /** The filter of a listing holds of a document exactly when each remaining parameter equals the
      property of its name. */
  lemma ListingFilterMeans(cmp: Comparison<Value>, d: Document<Value>, ps: seq<Parameter>)
    ensures Holds(cmp, d, FilterOf(ps)) <==> forall i | 0 <= i < |ps| :: cmp(Eq, Property(d, ps[i].name), Text(ps[i].value))
  {
    var children := FilterOf(ps).children;
    assert forall i | 0 <= i < |ps| :: Holds(cmp, d, children[i]) == cmp(Eq, Property(d, ps[i].name), Text(ps[i].value));
  }

  /** A parameter is consumed exactly when its name is reserved and its value is not empty. */
  lemma {:induction false} ConsumedExactly(ps: seq<Parameter>, p: Parameter)
    ensures p in Remaining(ps) <==> p in ps && !(Reserved(p.name) && p.value != "")
  {
    if ps != [] {
      ConsumedExactly(ps[1..], p);
      assert p in ps <==> p == ps[0] || p in ps[1..];
    }
  }
}
