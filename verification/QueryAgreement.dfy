/** The three databases agree on the filters that all three can take. */
module QueryAgreement {
  import opened Wrappers
  import opened Filters
  import opened Statements
  import DynamoDbFilters
  import opened DynamoDbMeaning
  import DynamoDbCollisions
  import opened CosmosQueries
  import CosmosQueryProofs
  import opened FirestoreQueries

  /** What DynamoDB answers for a document in the partition: None if it refuses the statement. */
  function DynamoDbAccepts<V>(cmp: Comparison<V>, d: Document<V>, f: Filter<V>, partitionKeyName: string, path: V): Option<bool> {
    match DynamoDbFilters.ConditionOf(f, partitionKeyName, path)
    case None => None
    case Some(c) => Some(Satisfies(cmp, d, c))
  }

  /** The query for a path and a filter. */
  function QueryFor<V>(f: Filter<V>, path: V): Query<V> {
    Query(Some(path), Some(f), None, None)
  }

  /** What Cosmos DB answers for a document in the partition: None if it refuses the query. */
  function CosmosAccepts<V>(cmp: Comparison<V>, d: Document<V>, f: Filter<V>, partitionKeyName: string, path: V): Option<bool> {
    CosmosQueryProofs.Answer(QueryFor(f, path), partitionKeyName, cmp, CosmosQueryProofs.Item(map[partitionKeyName := path], d))
  }

  /** What Firestore answers for a document in the collection: None if the filter does not compile. */
  function FirestoreAccepts<V>(cmp: Comparison<V>, nesting: Nesting<V>, d: Document<V>, f: Filter<V>): Option<bool> {
    match Chain(f)
    case Err(_) => None
    case Ok(ws) => Some(Accepts(cmp, nesting, d, ws))
  }

  /** For every filter with non-empty groups, names without quotes, backslashes and dots that collide
      with nothing, on every document of the partition: Cosmos DB answers with the filter's own truth
      value; DynamoDB does so exactly if there is no `!=`; and Firestore exactly if, besides, there is
      no `||`. Elsewhere the two refuse. */
  lemma BackendsAgree<V>(cmp: Comparison<V>, nesting: Nesting<V>, d: Document<V>, f: Filter<V>, partitionKeyName: string, path: V)
    requires NonEmpty(f) && NoCollision(f, partitionKeyName) && PlainNames(f) && Undotted(f)
    requires Plain(partitionKeyName) && cmp(Eq, Some(path), path)
    ensures CosmosAccepts(cmp, d, f, partitionKeyName, path) == Some(Holds(cmp, d, f))
    ensures DynamoDbAccepts(cmp, d, f, partitionKeyName, path) == if UsesInequality(f) then None else Some(Holds(cmp, d, f))
    ensures FirestoreAccepts(cmp, nesting, d, f) == if UsesInequality(f) || UsesOr(f) then None else Some(Holds(cmp, d, f))
  {
    CompilationKeepsMeaning(f, partitionKeyName, path);
    CosmosQueryProofs.QueryKeepsMeaning(QueryFor(f, path), partitionKeyName, cmp,
                                        CosmosQueryProofs.Item(map[partitionKeyName := path], d));
    CompilesExactly(f);
    if Chain(f).Ok? {
      ChainKeepsMeaning(cmp, nesting, d, f);
    }
  }

  // ---------------------------------------------------------------- and on no others

  /** Cosmos DB reads the selection, and DynamoDB the condition, that the filter states. */
  ghost predicate ReadByBoth<V>(f: Filter<V>, partitionKeyName: string, path: V)
    requires NonEmpty(f)
  {
    var q := QueryFor(f, path);
    && CosmosQueryProofs.ParseSelection(QueryText(q, partitionKeyName)) == Some(CosmosQueryProofs.SelectionOf(q, partitionKeyName))
    && DynamoDbFilters.ConditionOf(f, partitionKeyName, path) == Some(Normal(f))
  }

  lemma {:induction false} UndottedWords<V>(f: Filter<V>)
    requires WordNames(f)
    ensures PlainNames(f) && (Undotted(f) <==> DotlessNames(f))
    decreases f, 1
  {
    if f.Group? {
      AllUndottedWords(f.children);
    }
  }

  lemma {:induction false} AllUndottedWords<V>(fs: seq<Filter<V>>)
    requires forall i | 0 <= i < |fs| :: WordNames(fs[i])
    ensures forall i | 0 <= i < |fs| :: PlainNames(fs[i])
    ensures (forall i | 0 <= i < |fs| :: Undotted(fs[i])) <==> AllDotlessNames(fs)
    decreases fs, 0
  {
    if fs != [] {
      var rest := fs[1..];
      UndottedWords(fs[0]);
      AllUndottedWords(rest);
      assert forall i | 0 < i < |fs| :: fs[i] == rest[i - 1];
      assert forall i | 0 <= i < |rest| :: rest[i] == fs[i + 1];
    }
  }

  /** For every filter with non-empty groups whose names are words, possibly dotted: Cosmos DB and DynamoDB
      read it as it is meant and Firestore answers with its truth value if and only if it has no `!=`, no
      `||`, no dotted name and no name that collides, and the name of the partition key is plain. */
  lemma AllAgreeExactly<V>(f: Filter<V>, partitionKeyName: string, path: V)
    requires NonEmpty(f) && WordNames(f)
    ensures ReadByBoth(f, partitionKeyName, path)
            && (forall cmp: Comparison<V>, nesting: Nesting<V>, d: Document<V> ::
                  FirestoreAccepts(cmp, nesting, d, f) == Some(Holds(cmp, d, f)))
       <==> !UsesInequality(f) && !UsesOr(f) && Undotted(f) && NoCollision(f, partitionKeyName) && Plain(partitionKeyName)
  {
    UndottedWords(f);
    CosmosQueryProofs.QueryReadsExactly(QueryFor(f, path), partitionKeyName);
    FirestoreExactly(f);
    if Undotted(f) {
      DynamoDbCollisions.CompilationExactly(f, partitionKeyName, path);
    }
  }

  /** Firestore answers every filter with its truth value if and only if it has no `!=`, no `||` and no dotted name. */
  lemma FirestoreExactly<V>(f: Filter<V>)
    ensures (forall cmp: Comparison<V>, nesting: Nesting<V>, d: Document<V> ::
               FirestoreAccepts(cmp, nesting, d, f) == Some(Holds(cmp, d, f)))
       <==> !UsesInequality(f) && !UsesOr(f) && Undotted(f)
  {
    CompilesExactly(f);
    if Chain(f).Ok? {
      MeaningKeptExactly(f);
      forall cmp: Comparison<V>, nesting: Nesting<V>, d: Document<V>
        ensures FirestoreAccepts(cmp, nesting, d, f) == Some(Accepts(cmp, nesting, d, Chain(f).value))
      {
      }
      if !Undotted(f) {
        var cmp: Comparison<V>, nesting: Nesting<V>, d: Document<V> :|
          Accepts(cmp, nesting, d, Chain(f).value) != Holds(cmp, d, f);
        assert FirestoreAccepts(cmp, nesting, d, f) != Some(Holds(cmp, d, f));
      }
    } else {
      var cmp: Comparison<V>, nesting: Nesting<V> := Missing(), (d: Document<V>, path: seq<string>) => None;
      assert FirestoreAccepts(cmp, nesting, map[], f).None?;
    }
  }
}
