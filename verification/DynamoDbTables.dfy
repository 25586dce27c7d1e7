/** The DynamoDB table, which resources share with mutexes, as a map from ids to resources. */
module DynamoDbTables {
  import opened Wrappers
  import opened Documents
  import opened StorageRoundTrips
  import opened TableKeys

  /** An item: one with a resource, or the record of a mutex. */
  datatype Item = Resource(value: Value) | LockRecord

  type Items = map<TableKey, Item>

  datatype Operation =
    | Put(id: string, resource: Value) | Get(id: string) | Delete(id: string) | Query(path: string)
    | PutLock(mutexName: string) | DeleteLock(mutexName: string)

  /** Of a query, what is found under each sort key; the source gives undefined for an item without a resource. */
  datatype Reply = Done | Found(resource: Option<Value>) | Listed(results: set<(string, Option<Value>)>)

  function ReadItem(item: Item): Option<Value> {
    if item.Resource? then Some(Copied(FromDynamoDb, item.value)) else None
  }

  /** The items after an operation on the table, and what it returns. */
  function Apply(items: Items, op: Operation): (Items, Reply) {
    match op
    case Put(id, resource) =>
      (items[ParsePartitionAndSortKeys(id) := Resource(Marshalled(Copied(ToDynamoDb, resource)))], Done)
    case Get(id) =>
      var k := ParsePartitionAndSortKeys(id);
      (items, Found(if k in items then ReadItem(items[k]) else None))
    case Delete(id) => (items - {ParsePartitionAndSortKeys(id)}, Done)
    case Query(path) => (items, Listed(set k | k in items && k.partition == path :: (k.sort, ReadItem(items[k]))))
    case PutLock(name) => (items[MutexKey(name) := LockRecord], Done)
    case DeleteLock(name) => (items - {MutexKey(name)}, Done)
  }

  /** The same operation on a plain map, which knows nothing of mutexes and lists what is directly under a path. */
  function ApplyPlain(m: map<string, Value>, op: Operation): (map<string, Value>, Reply) {
    match op
    case Put(id, resource) => (m[id := resource], Done)
    case Get(id) => (m, Found(if id in m then Some(m[id]) else None))
    case Delete(id) => (m - {id}, Done)
    case Query(path) => (m, Listed(set id | id in m && DirectlyUnder(id, path) :: (id[|path| + 1..], Some(m[id]))))
    case PutLock(_) => (m, Done)
    case DeleteLock(_) => (m, Done)
  }

  function Replies(items: Items, ops: seq<Operation>): (replies: seq<Reply>)
    ensures |replies| == |ops|
    decreases |ops|
  {
    if ops == [] then []
    else
      var (items', reply) := Apply(items, ops[0]);
      [reply] + Replies(items', ops[1..])
  }

  function PlainReplies(m: map<string, Value>, ops: seq<Operation>): (replies: seq<Reply>)
    ensures |replies| == |ops|
    decreases |ops|
  {
    if ops == [] then []
    else
      var (m', reply) := ApplyPlain(m, ops[0]);
      [reply] + PlainReplies(m', ops[1..])
  }

  // ---------------------------------------------------------------- the table

  class DynamoDbTable {
    var items: Items

    ghost predicate Valid()
      reads this
    {
      forall k | k in items :: items[k].Resource? ==> WithDistinctNames(items[k].value)
    }

    constructor ()
      ensures Valid() && items == map[]
    {
      items := map[];
    }

    method PutResource(id: string, resource: Value) returns (r: Value)
      requires Valid() && WithDistinctNames(resource)
      modifies this
      ensures Valid() && items == Apply(old(items), Put(id, resource)).0 && r == resource
    {
      var copy := CopyValue(ToDynamoDb, resource);
      CopyKeepsNames(ToDynamoDb, resource);
      MarshalKeepsNames(copy.value);
      items := items[ParsePartitionAndSortKeys(id) := Resource(Marshalled(copy.value))];
      r := resource;
    }

    method GetResource(id: string) returns (r: Option<Value>)
      requires Valid()
      ensures Found(r) == Apply(items, Get(id)).1
    {
      var k := ParsePartitionAndSortKeys(id);
      if k in items && items[k].Resource? {
        var copy := CopyValue(FromDynamoDb, items[k].value);
        return copy;
      }
      r := None;
    }

    method DeleteResource(id: string)
      requires Valid()
      modifies this
      ensures Valid() && items == Apply(old(items), Delete(id)).0
    {
      items := items - {ParsePartitionAndSortKeys(id)};
    }

    /** `query` without a filter and within one page. */
    method QueryResources(path: string) returns (results: set<(string, Option<Value>)>)
      requires Valid()
      ensures Listed(results) == Apply(items, Query(path)).1
    {
      results := {};
      var selected := set k | k in items && k.partition == path;
      ghost var done: set<TableKey> := {};
      while selected != {}
        invariant selected + done == set k | k in items && k.partition == path
        invariant results == set k | k in done :: (k.sort, ReadItem(items[k]))
        decreases selected
      {
        var k :| k in selected;
        var copy := None;
        if items[k].Resource? {
          copy := CopyValue(FromDynamoDb, items[k].value);
        }
        results := results + {(k.sort, copy)};
        selected, done := selected - {k}, done + {k};
      }
      assert done == set k | k in items && k.partition == path;
    }
  }

  // ---------------------------------------------------------------- when the table is a map

  /** What is used: ids of resources, names of mutexes, and paths of queries. */
  datatype Usage = Usage(ids: set<string>, mutexNames: set<string>, paths: set<string>)

  /** No two ids share a key, and none has the key of a mutex. */
  ghost predicate NoClash(u: Usage) {
    && (forall a, b | a in u.ids && b in u.ids && a != b :: ParsePartitionAndSortKeys(a) != ParsePartitionAndSortKeys(b))
    && (forall a, n | a in u.ids && n in u.mutexNames :: ParsePartitionAndSortKeys(a) != MutexKey(n))
  }

  /** The key of such an id is its own partition. */
  predicate OwnPartition(id: string) {
    AfterLastSlash(id) <= 1
  }

  /** No path lists itself, and the partition of the mutexes is not queried where there are any. */
  ghost predicate NoIntruder(u: Usage) {
    && (forall p | p in u.paths && p in u.ids :: !OwnPartition(p))
    && ("Mutex" in u.paths ==> u.mutexNames == {})
  }

  /** An operation on what is used; what it puts comes back as it was. */
  ghost predicate Within(op: Operation, u: Usage) {
    match op
    case Put(id, resource) => id in u.ids && WellFormed(resource) && resource.Obj? && Storable(DynamoDb, resource)
    case Get(id) => id in u.ids
    case Delete(id) => id in u.ids
    case Query(path) => path in u.paths
    case PutLock(name) => name in u.mutexNames
    case DeleteLock(name) => name in u.mutexNames
  }

  ghost predicate AllWithin(ops: seq<Operation>, u: Usage) {
    forall i | 0 <= i < |ops| :: Within(ops[i], u)
  }

  /** The items hold just the resources of the map, besides records of mutexes. */
  ghost predicate Agree(items: Items, m: map<string, Value>, u: Usage) {
    && (forall id | id in u.ids :: AgreeAt(items, m, id))
    && (forall id | id in m :: id in u.ids)
    && (forall k | k in items :: Accounted(items[k], k, m, u))
  }

  predicate AgreeAt(items: Items, m: map<string, Value>, id: string) {
    var k := ParsePartitionAndSortKeys(id);
    if id in m then k in items && items[k].Resource? && Copied(FromDynamoDb, items[k].value) == m[id]
    else k in items ==> items[k].LockRecord?
  }

  /** An item is that of a resource in the map, or of a mutex. */
  ghost predicate Accounted(item: Item, k: TableKey, m: map<string, Value>, u: Usage) {
    match item
    case Resource(_) => exists id :: id in m && ParsePartitionAndSortKeys(id) == k
    case LockRecord => exists n :: n in u.mutexNames && MutexKey(n) == k
  }

  lemma PutAgrees(items: Items, m: map<string, Value>, id: string, resource: Value, u: Usage)
    requires NoClash(u) && Within(Put(id, resource), u) && Agree(items, m, u)
    ensures Agree(Apply(items, Put(id, resource)).0, m[id := resource], u)
  {
    var key := ParsePartitionAndSortKeys(id);
    var items', m' := Apply(items, Put(id, resource)).0, m[id := resource];
    DynamoDbRoundTripExactly(resource);
    forall i | i in u.ids ensures AgreeAt(items', m', i) {
      assert AgreeAt(items, m, i);
    }
    forall k | k in items' ensures Accounted(items'[k], k, m', u) {
      if k == key {
        assert id in m' && ParsePartitionAndSortKeys(id) == k;
      } else {
        assert Accounted(items[k], k, m, u);
        StaysAccounted(items[k], k, m, m', u);
      }
    }
  }

  lemma StaysAccounted(item: Item, k: TableKey, m: map<string, Value>, m': map<string, Value>, u: Usage)
    requires Accounted(item, k, m, u)
    requires forall id | id in m :: id in m' || ParsePartitionAndSortKeys(id) != k
    ensures Accounted(item, k, m', u)
  {
  }

  lemma DeleteAgrees(items: Items, m: map<string, Value>, id: string, u: Usage)
    requires NoClash(u) && id in u.ids && Agree(items, m, u)
    ensures Agree(Apply(items, Delete(id)).0, m - {id}, u)
  {
    var items', m' := Apply(items, Delete(id)).0, m - {id};
    forall i | i in u.ids ensures AgreeAt(items', m', i) {
      assert AgreeAt(items, m, i);
      if i != id {
        assert ParsePartitionAndSortKeys(i) != ParsePartitionAndSortKeys(id);
        StaysAgreed(items, items', m, m', i);
      }
    }
    forall k | k in items' ensures Accounted(items'[k], k, m', u) {
      assert Accounted(items[k], k, m, u);
      StaysAccounted(items[k], k, m, m', u);
    }
  }

  /** Nothing has changed at an id and its key. */
  lemma StaysAgreed(items: Items, items': Items, m: map<string, Value>, m': map<string, Value>, id: string)
    requires AgreeAt(items, m, id) && (id in m' <==> id in m) && (id in m ==> m'[id] == m[id])
    requires var k := ParsePartitionAndSortKeys(id); (k in items' <==> k in items) && (k in items ==> items'[k] == items[k])
    ensures AgreeAt(items', m', id)
  {
  }

  lemma LocksAgree(items: Items, m: map<string, Value>, name: string, u: Usage)
    requires NoClash(u) && name in u.mutexNames && Agree(items, m, u)
    ensures Agree(Apply(items, PutLock(name)).0, m, u) && Agree(Apply(items, DeleteLock(name)).0, m, u)
  {
    var put, deleted := Apply(items, PutLock(name)).0, Apply(items, DeleteLock(name)).0;
    forall i | i in u.ids ensures AgreeAt(put, m, i) && AgreeAt(deleted, m, i) {
      assert AgreeAt(items, m, i) && ParsePartitionAndSortKeys(i) != MutexKey(name);
      StaysAgreed(items, put, m, m, i);
      StaysAgreed(items, deleted, m, m, i);
    }
    forall k | k in put ensures Accounted(put[k], k, m, u) {
      if k == MutexKey(name) {
        assert name in u.mutexNames && MutexKey(name) == k;
      } else {
        assert Accounted(items[k], k, m, u);
      }
    }
    forall k | k in deleted ensures Accounted(deleted[k], k, m, u) {
      assert Accounted(items[k], k, m, u);
    }
  }

  lemma ItemIsListed(items: Items, m: map<string, Value>, k: TableKey, path: string, u: Usage)
    requires Agree(items, m, u) && NoIntruder(u) && path in u.paths
    requires k in items && k.partition == path
    ensures exists id :: id in m && DirectlyUnder(id, path) && id[|path| + 1..] == k.sort && Some(m[id]) == ReadItem(items[k])
  {
    assert Accounted(items[k], k, m, u);
    if items[k].Resource? {
      var id :| id in m && ParsePartitionAndSortKeys(id) == k;
      assert AgreeAt(items, m, id);
      SelectedExactly(id, path);
      NameUnder(id, path);
    }
  }

  lemma NameUnder(id: string, path: string)
    requires DirectlyUnder(id, path)
    ensures ParsePartitionAndSortKeys(id) == TableKey(path, id[|path| + 1..])
  {
    KeysUnderPath(path, id[|path| + 1..]);
    assert id == path + "/" + id[|path| + 1..];
  }

  lemma QueriesAgree(items: Items, m: map<string, Value>, path: string, u: Usage)
    requires Agree(items, m, u) && NoIntruder(u) && path in u.paths
    ensures Apply(items, Query(path)).1 == ApplyPlain(m, Query(path)).1
  {
    var listed, plain := Apply(items, Query(path)).1.results, ApplyPlain(m, Query(path)).1.results;
    forall r | r in listed ensures r in plain {
      var k :| k in items && k.partition == path && r == (k.sort, ReadItem(items[k]));
      ItemIsListed(items, m, k, path, u);
    }
    forall r | r in plain ensures r in listed {
      var id :| id in m && DirectlyUnder(id, path) && r == (id[|path| + 1..], Some(m[id]));
      NameUnder(id, path);
      assert AgreeAt(items, m, id);
    }
  }

  lemma StepsAgree(items: Items, m: map<string, Value>, op: Operation, u: Usage)
    requires NoClash(u) && NoIntruder(u) && Within(op, u) && Agree(items, m, u)
    ensures var (items', reply) := Apply(items, op);
            var (m', reply') := ApplyPlain(m, op);
            reply == reply' && Agree(items', m', u)
  {
    match op
    case Put(id, resource) => PutAgrees(items, m, id, resource, u);
    case Get(id) => assert AgreeAt(items, m, id);
    case Delete(id) => DeleteAgrees(items, m, id, u);
    case Query(path) => QueriesAgree(items, m, path, u);
    case PutLock(name) => LocksAgree(items, m, name, u);
    case DeleteLock(name) => LocksAgree(items, m, name, u);
  }

  lemma {:induction false} RunsAgree(items: Items, m: map<string, Value>, ops: seq<Operation>, u: Usage)
    requires NoClash(u) && NoIntruder(u) && AllWithin(ops, u) && Agree(items, m, u)
    ensures Replies(items, ops) == PlainReplies(m, ops)
    decreases |ops|
  {
    if ops != [] {
      assert Within(ops[0], u);
      StepsAgree(items, m, ops[0], u);
      var (items', _) := Apply(items, ops[0]);
      var (m', _) := ApplyPlain(m, ops[0]);
      assert forall i | 0 <= i < |ops[1..]| :: ops[1..][i] == ops[i + 1];
      RunsAgree(items', m', ops[1..], u);
    }
  }

  /** Every sequence of operations, mutexes included, is answered as by a plain map from ids to resources. */
  ghost predicate IsAMap(u: Usage) {
    forall ops: seq<Operation> | AllWithin(ops, u) :: Replies(map[], ops) == PlainReplies(map[], ops)
  }

  lemma Replies2(items: Items, m: map<string, Value>, op: Operation, op': Operation)
    ensures Replies(items, [op, op']) == [Apply(items, op).1, Apply(Apply(items, op).0, op').1]
    ensures PlainReplies(m, [op, op']) == [ApplyPlain(m, op).1, ApplyPlain(ApplyPlain(m, op).0, op').1]
  {
    assert [op, op'][1..] == [op'] && [op'][1..] == [];
    var (items', _) := Apply(items, op);
    var (m', _) := ApplyPlain(m, op);
    assert Replies(items', [op']) == [Apply(items', op').1] + Replies(Apply(items', op').0, []);
    assert PlainReplies(m', [op']) == [ApplyPlain(m', op').1] + PlainReplies(ApplyPlain(m', op').0, []);
  }

  /** Putting under one id shows under another with the same key. */
  lemma SharedKeyShows(a: string, b: string)
    requires a != b && ParsePartitionAndSortKeys(a) == ParsePartitionAndSortKeys(b)
    ensures Replies(map[], [Put(a, Obj([])), Get(b)]) != PlainReplies(map[], [Put(a, Obj([])), Get(b)])
  {
    Replies2(map[], map[], Put(a, Obj([])), Get(b));
    assert PlainReplies(map[], [Put(a, Obj([])), Get(b)])[1] == Found(None);
  }

  /** A mutex with the key of a resource takes its place. */
  lemma SharedMutexShows(a: string, n: string)
    requires ParsePartitionAndSortKeys(a) == MutexKey(n)
    ensures var ops := [Put(a, Obj([])), PutLock(n), Get(a)]; Replies(map[], ops) != PlainReplies(map[], ops)
  {
    var r := Obj([]);
    var ops := [Put(a, r), PutLock(n), Get(a)];
    assert ops[1..] == [PutLock(n), Get(a)];
    var i1, m1 := Apply(map[], ops[0]).0, ApplyPlain(map[], ops[0]).0;
    Replies2(i1, m1, PutLock(n), Get(a));
    assert Replies(i1, ops[1..])[1] == Found(None) && PlainReplies(m1, ops[1..])[1] == Found(Some(r));
    assert Replies(map[], ops)[2] == Found(None) && PlainReplies(map[], ops)[2] == Found(Some(r));
  }

  /** A path that is its own partition is among its own results. */
  lemma OwnPartitionShows(p: string)
    requires OwnPartition(p)
    ensures Replies(map[], [Put(p, Obj([])), Query(p)]) != PlainReplies(map[], [Put(p, Obj([])), Query(p)])
  {
    var op := Put(p, Obj([]));
    var items, m := Apply(map[], op).0, ApplyPlain(map[], op).0;
    Replies2(map[], map[], op, Query(p));
    var k := TableKey(p, p);
    assert k in items && (k.sort, ReadItem(items[k])) in Apply(items, Query(p)).1.results;
    assert ApplyPlain(m, Query(p)).1.results == {};
  }

  /** The record of a mutex is among the results of a query of the partition of mutexes. */
  lemma MutexShows(n: string)
    ensures Replies(map[], [PutLock(n), Query("Mutex")]) != PlainReplies(map[], [PutLock(n), Query("Mutex")])
  {
    var items := Apply(map[], PutLock(n)).0;
    Replies2(map[], map[], PutLock(n), Query("Mutex"));
    var k := MutexKey(n);
    assert k in items && (k.sort, ReadItem(items[k])) in Apply(items, Query("Mutex")).1.results;
    assert ApplyPlain(map[], Query("Mutex")).1.results == {};
  }

  lemma PutWithin(id: string, u: Usage)
    requires id in u.ids
    ensures Within(Put(id, Obj([])), u)
  {
  }

  lemma Within2(op: Operation, op': Operation, u: Usage)
    requires Within(op, u) && Within(op', u)
    ensures AllWithin([op, op'], u)
  {
  }

  lemma Within3(op: Operation, op': Operation, op'': Operation, u: Usage)
    requires Within(op, u) && Within(op', u) && Within(op'', u)
    ensures AllWithin([op, op', op''], u)
  {
  }

  lemma ClashIsNoMap(u: Usage)
    requires !NoClash(u)
    ensures !IsAMap(u)
  {
    if a, b :| a in u.ids && b in u.ids && a != b && ParsePartitionAndSortKeys(a) == ParsePartitionAndSortKeys(b) {
      SharedKeyShows(a, b);
      PutWithin(a, u);
      Within2(Put(a, Obj([])), Get(b), u);
    } else {
      var a, n :| a in u.ids && n in u.mutexNames && ParsePartitionAndSortKeys(a) == MutexKey(n);
      SharedMutexShows(a, n);
      PutWithin(a, u);
      Within3(Put(a, Obj([])), PutLock(n), Get(a), u);
    }
  }

  lemma IntruderIsNoMap(u: Usage)
    requires !NoIntruder(u)
    ensures !IsAMap(u)
  {
    if p :| p in u.paths && p in u.ids && OwnPartition(p) {
      OwnPartitionShows(p);
      PutWithin(p, u);
      Within2(Put(p, Obj([])), Query(p), u);
    } else {
      var n :| n in u.mutexNames;
      MutexShows(n);
      Within2(PutLock(n), Query("Mutex"), u);
    }
  }

  /** The table behaves like a plain map on these ids, and its queries list just what is directly under
      these paths, whatever mutexes of these names do in the meantime, exactly when no two of the ids share
      a key, none has the key of a mutex, none of the paths is an id without a slash behind its first
      character, and the partition of the mutexes is not queried where there are mutexes. */
  lemma IsAMapExactly(u: Usage)
    ensures IsAMap(u) <==> NoClash(u) && NoIntruder(u)
  {
    if !NoClash(u) {
      ClashIsNoMap(u);
    } else if !NoIntruder(u) {
      IntruderIsNoMap(u);
    } else {
      forall ops: seq<Operation> | AllWithin(ops, u) ensures Replies(map[], ops) == PlainReplies(map[], ops) {
        RunsAgree(map[], map[], ops, u);
      }
    }
  }

  /** So it does if all ids and paths begin with a slash and no path is an id of one segment. */
  lemma RootedIdsAreAMap(u: Usage)
    requires forall id | id in u.ids + u.paths :: Rooted(id)
    requires forall p | p in u.paths && p in u.ids :: !OwnPartition(p)
    ensures IsAMap(u)
  {
    forall a, b | a in u.ids && b in u.ids && a != b ensures ParsePartitionAndSortKeys(a) != ParsePartitionAndSortKeys(b) {
      RootedKeysAreDistinct(a, b);
    }
    forall a, n | a in u.ids && n in u.mutexNames ensures ParsePartitionAndSortKeys(a) != MutexKey(n) {
      RootedKeysAreNoMutexes(a, n);
    }
    assert !Rooted("Mutex") by { assert "Mutex"[0] == 'M'; }
    IsAMapExactly(u);
  }
}
