/** How the DynamoDB table splits ids into keys, and which ids share a key. */
module TableKeys {
  import opened Text

  datatype TableKey = TableKey(partition: string, sort: string)

  /** One more than the index of the last slash; 0 if there is none. */
  function AfterLastSlash(id: string): (n: nat)
    ensures n <= |id| && '/' !in id[n..]
    ensures n > 0 ==> id[n - 1] == '/'
  {
    if id == "" then 0
    else if id[|id| - 1] == '/' then |id|
    else
      var n := AfterLastSlash(id[..|id| - 1]);
      assert id[n..] == id[..|id| - 1][n..] + [id[|id| - 1]];
      n
  }

  /** `parsePartitionAndSortKeys`. */
  function ParsePartitionAndSortKeys(id: string): TableKey {
    var n := AfterLastSlash(id);
    if n > 1 then TableKey(id[..n - 1], id[n..]) else TableKey(id, id)
  }

  /** The key of a mutex in a table with sort keys. */
  function MutexKey(mutexName: string): TableKey {
    TableKey("Mutex", mutexName)
  }

  /** Ids of resources begin with a slash. */
  predicate Rooted(id: string) {
    StartsWith(id, "/")
  }

  lemma {:induction false} LastSlashOf(p: string, s: string)
    requires '/' !in s
    ensures AfterLastSlash(p + "/" + s) == |p| + 1
  {
    var id := p + "/" + s;
    if s == "" {
      assert id[|id| - 1] == '/';
    } else {
      var last := |s| - 1;
      LastSlashOf(p, s[..last]);
      assert id[..|id| - 1] == p + "/" + s[..last];
      assert id[|id| - 1] == s[last];
    }
  }

  /** The id of a name under a path. */
  lemma KeysUnderPath(path: string, name: string)
    requires path != "" && '/' !in name
    ensures ParsePartitionAndSortKeys(path + "/" + name) == TableKey(path, name)
  {
    LastSlashOf(path, name);
    var id := path + "/" + name;
    assert id[..|path|] == path && id[|path| + 1..] == name;
  }

  /** Every id is a name under a path, or has no slash behind its first character. */
  lemma KeysOf(id: string)
    ensures var k := ParsePartitionAndSortKeys(id);
            if AfterLastSlash(id) > 1 then k.partition != "" && '/' !in k.sort && id == k.partition + "/" + k.sort
            else k == TableKey(id, id) && ('/' in id ==> id[0] == '/' && '/' !in id[1..])
  {
    var n := AfterLastSlash(id);
    if n > 1 {
      assert id == id[..n - 1] + [id[n - 1]] + id[n..];
    } else if n == 1 {
      assert id[n..] == id[1..];
    } else {
      assert id[0..] == id;
    }
  }

  /** One id is the other, said twice with a slash in between. */
  predicate Doubled(a: string, b: string) {
    b != "" && '/' !in b && a == b + "/" + b
  }

  /** Two ids share a key exactly when they are the same or one is the other doubled. */
  lemma KeysCollideExactly(a: string, b: string)
    ensures ParsePartitionAndSortKeys(a) == ParsePartitionAndSortKeys(b) <==> a == b || Doubled(a, b) || Doubled(b, a)
  {
    KeysOf(a);
    KeysOf(b);
    if Doubled(a, b) {
      KeysUnderPath(b, b);
    }
    if Doubled(b, a) {
      KeysUnderPath(a, a);
    }
  }

  /** So the split is injective on the ids of resources. */
  lemma RootedKeysAreDistinct(a: string, b: string)
    requires Rooted(a) && Rooted(b)
    ensures ParsePartitionAndSortKeys(a) == ParsePartitionAndSortKeys(b) <==> a == b
  {
    KeysCollideExactly(a, b);
    assert a[0] == '/' && b[0] == '/';
  }

  /** An id has the key of a mutex exactly when it is the name under `Mutex`, or `Mutex` itself. */
  lemma MutexKeysExactly(id: string, mutexName: string)
    ensures ParsePartitionAndSortKeys(id) == MutexKey(mutexName)
       <==> ('/' !in mutexName && id == "Mutex" + "/" + mutexName) || (id == "Mutex" && mutexName == "Mutex")
  {
    KeysOf(id);
    if '/' !in mutexName && id == "Mutex" + "/" + mutexName {
      KeysUnderPath("Mutex", mutexName);
    }
  }

  /** Resources and mutexes never share a key. */
  lemma RootedKeysAreNoMutexes(id: string, mutexName: string)
    requires Rooted(id)
    ensures ParsePartitionAndSortKeys(id) != MutexKey(mutexName)
  {
    MutexKeysExactly(id, mutexName);
    assert id[0] == '/';
  }

  /** The id of a name under the path; nothing is under the empty path. */
  predicate DirectlyUnder(id: string, path: string) {
    path != "" && StartsWith(id, path + "/") && '/' !in id[|path| + 1..]
  }

  lemma DirectlyUnderIs(id: string, path: string)
    ensures DirectlyUnder(id, path) <==> exists name :: '/' !in name && path != "" && id == path + "/" + name
  {
    if DirectlyUnder(id, path) {
      assert id == path + "/" + id[|path| + 1..];
    }
    if name :| '/' !in name && path != "" && id == path + "/" + name {
      assert id[|path| + 1..] == name && path + "/" <= id;
    }
  }

  /** What a query of a path selects: what is directly under it, and the path itself if it has no slash
      behind its first character. */
  lemma SelectedExactly(id: string, path: string)
    ensures ParsePartitionAndSortKeys(id).partition == path
       <==> (exists name :: '/' !in name && path != "" && id == path + "/" + name) || (id == path && AfterLastSlash(path) <= 1)
    ensures ParsePartitionAndSortKeys(id).partition == path <==> DirectlyUnder(id, path) || (id == path && AfterLastSlash(path) <= 1)
  {
    KeysOf(id);
    DirectlyUnderIs(id, path);
    if name :| '/' !in name && path != "" && id == path + "/" + name {
      KeysUnderPath(path, name);
    }
  }

  /** A query of a path of at least two segments selects exactly what is directly under it. */
  lemma DeepPathsSelectTheirChildren(id: string, path: string)
    requires AfterLastSlash(path) > 1
    ensures ParsePartitionAndSortKeys(id).partition == path <==> exists name :: '/' !in name && id == path + "/" + name
  {
    SelectedExactly(id, path);
  }
}
