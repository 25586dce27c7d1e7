/** `buildQueryDefinition`: a query as Cosmos DB SQL with numbered parameters. */
module CosmosQueries {
  import opened Wrappers
  import opened Sequences
  import opened Text
  import opened Filters
  import opened Statements

  datatype SortOrder = Ascending | Descending {
    function Spelling(): string {
      match this
      case Ascending => "asc"
      case Descending => "desc"
    }
  }

  /** A query of a table. There is no path where the source finds it empty. A sort order is only looked
      at when there is a property to sort by. */
  datatype Query<V> = Query(path: Option<V>, filter: Option<Filter<V>>, sortBy: Option<string>, sortOrder: Option<SortOrder>)

  // ---------------------------------------------------------------- the text

  /** `root["a"]`, `root["resource"]["b"]`. */
  function KeyText(a: string): string {
    "root[\"" + a + "\"]"
  }

  /** The values of the criteria are numbered after the path. */
  function FilterClause<V>(q: Query<V>): string {
    if q.filter.Some? then Statement(CosmosDb, q.filter.value, FirstValue(q)) else ""
  }

  function FirstValue<V>(q: Query<V>): nat {
    if q.path.Some? then 1 else 0
  }

  /** With a filter and no path the source writes a partition clause that it does not have. */
  function WhereText<V>(q: Query<V>, partitionKeyName: string): string {
    var partition, filter := KeyText(partitionKeyName) + " = " + "@p0", FilterClause(q);
    if q.path.Some? then
      if filter == "" then " WHERE " + partition else " WHERE (" + partition + ") and (" + filter + ")"
    else if filter == "" then "" else " WHERE null"
  }

  function OrderText<V>(q: Query<V>): string {
    if q.sortBy.None? || q.sortBy.value == "" then ""
    else
      var order := " ORDER BY root[\"resource\"][\"" + q.sortBy.value + "\"]";
      if q.sortOrder.Some? then order + (" " + q.sortOrder.value.Spelling()) else order
  }

  function QueryText<V>(q: Query<V>, partitionKeyName: string): string {
    "SELECT VALUE root FROM root" + WhereText(q, partitionKeyName) + OrderText(q)
  }

  /** The values of criteria, in order. */
  function ValuesOf<V>(leaves: seq<Filter<V>>): (vs: seq<V>)
    requires forall i | 0 <= i < |leaves| :: leaves[i].Criteria?
    ensures |vs| == |leaves|
  {
    seq(|leaves|, i requires 0 <= i < |leaves| => leaves[i].propertyValue)
  }

  function ParametersOf<V>(q: Query<V>): seq<V> {
    (if q.path.Some? then [q.path.value] else []) + (if q.filter.Some? then ValuesOf(Leaves(q.filter.value)) else [])
  }

  lemma ValuesTogether<V>(a: seq<Filter<V>>, b: seq<Filter<V>>)
    requires forall i | 0 <= i < |a| :: a[i].Criteria?
    requires forall i | 0 <= i < |b| :: b[i].Criteria?
    ensures ValuesOf(a + b) == ValuesOf(a) + ValuesOf(b)
  {
  }

  // ---------------------------------------------------------------- the compiler, collecting parameters in place

  class SqlQuery<V> {
    var text: string
    var parameters: seq<V>

    constructor ()
      ensures text == "SELECT VALUE root FROM root" && parameters == []
    {
      text := "SELECT VALUE root FROM root";
      parameters := [];
    }

    method AddParameter(parameter: V) returns (name: string)
      modifies this`parameters
      ensures name == "@p" + Decimal(|old(parameters)|) && parameters == old(parameters) + [parameter]
    {
      name := "@p" + Decimal(|parameters|);
      parameters := parameters + [parameter];
    }

    method AddFilterExpression(f: Filter<V>) returns (clause: string)
      modifies this`parameters
      ensures clause == Statement(CosmosDb, f, |old(parameters)|)
      ensures parameters == old(parameters) + ValuesOf(Leaves(f))
      decreases f, 1
    {
      match f
      case Group(_, _) => clause := AddFilterCriteriaGroup(f);
      case Criteria(name, op, v) =>
        var key := AddParameter(v);
        clause := "root[\"resource\"][\"" + name + "\"] " + op.Spelling() + " " + key;
        CriterionText("root[\"resource\"][\"" + name, op.Spelling(), key);
    }

    method AddFilterCriteriaGroup(f: Filter<V>) returns (clause: string)
      requires f.Group?
      modifies this`parameters
      ensures clause == Statement(CosmosDb, f, |old(parameters)|)
      ensures parameters == old(parameters) + ValuesOf(Leaves(f))
      decreases f, 0
    {
      if |f.children| == 0 {
        return "";
      }
      var texts := AddFilterExpressions(f.children);
      clause := "(" + Join(texts, " " + JoinWord(f.logicalOperator) + " ") + ")";
    }

    /** The map over the children of a group, from left to right. */
    method AddFilterExpressions(fs: seq<Filter<V>>) returns (texts: seq<string>)
      modifies this`parameters
      ensures texts == StatementsOf(CosmosDb, fs, |old(parameters)|)
      ensures parameters == old(parameters) + ValuesOf(LeavesAll(fs))
      decreases fs, 0
    {
      if |fs| == 0 {
        assert parameters + [] == parameters;
        return [];
      }
      var text := AddFilterExpression(fs[0]);
      var others := AddFilterExpressions(fs[1..]);
      OneMore(old(parameters), fs);
      texts := [text] + others;
    }

    method AddConditions(q: Query<V>, partitionKeyName: string)
      requires parameters == []
      modifies this
      ensures text == old(text) + WhereText(q, partitionKeyName) && parameters == ParametersOf(q)
    {
      var partition := "";
      if q.path.Some? {
        var key := AddParameter(q.path.value);
        FirstKey();
        partition := KeyText(partitionKeyName) + " = " + key;
      }
      var filter := "";
      if q.filter.Some? {
        filter := AddFilterExpression(q.filter.value);
      }
      Parameters(q);
      if partition != "" && filter != "" {
        text := text + (" WHERE (" + partition + ") and (" + filter + ")");
      } else if partition != "" {
        text := text + (" WHERE " + partition);
      } else if filter != "" {
        text := text + " WHERE null";
      } else {
        assert text + "" == text;
      }
    }

    method AddOrder(q: Query<V>)
      modifies this`text
      ensures text == old(text) + OrderText(q)
    {
      if q.sortBy.Some? && q.sortBy.value != "" {
        ghost var before := text;
        var order := " ORDER BY root[\"resource\"][\"" + q.sortBy.value + "\"]";
        text := text + order;
        if q.sortOrder.Some? {
          text := text + (" " + q.sortOrder.value.Spelling());
          Reassociate(before, order, " " + q.sortOrder.value.Spelling());
        }
      } else {
        assert text + "" == text;
      }
    }
  }

  lemma Parameters<V>(q: Query<V>)
    ensures q.filter.None? ==> ParametersOf(q) == if q.path.Some? then [q.path.value] else []
    ensures q.filter.Some? && q.path.None? ==> ParametersOf(q) == [] + ValuesOf(Leaves(q.filter.value))
    ensures q.filter.Some? && q.path.Some? ==> ParametersOf(q) == [] + [q.path.value] + ValuesOf(Leaves(q.filter.value))
  {
  }

  lemma FirstKey()
    ensures "@p" + Decimal(0) == "@p0"
  {
    assert Decimal(0) == "0";
  }

  lemma CriterionText(left: string, op: string, key: string)
    ensures left + "\"] " + op + " " + key == left + "\"]" + " " + op + " " + key
  {
    assert "\"] " == "\"]" + " ";
    Reassociate(left, "\"]", " ");
  }

  lemma OneMore<V>(before: seq<V>, fs: seq<Filter<V>>)
    requires fs != []
    ensures before + ValuesOf(LeavesAll(fs)) == before + ValuesOf(Leaves(fs[0])) + ValuesOf(LeavesAll(fs[1..]))
  {
    ValuesTogether(Leaves(fs[0]), LeavesAll(fs[1..]));
    Reassociate(before, ValuesOf(Leaves(fs[0])), ValuesOf(LeavesAll(fs[1..])));
  }

  method BuildQueryDefinition<V>(q: Query<V>, partitionKeyName: string) returns (text: string, parameters: seq<V>)
    ensures text == QueryText(q, partitionKeyName) && parameters == ParametersOf(q)
  {
    var sqlQuery := new SqlQuery<V>();
    sqlQuery.AddConditions(q, partitionKeyName);
    sqlQuery.AddOrder(q);
    text, parameters := sqlQuery.text, sqlQuery.parameters;
  }
}
