/** `orderedPackages`: the workspace's packages, prerequisites first, or the cycle that forbids it. */
module PackageOrdering {
  import opened Wrappers

  /** The names each section of a package.json lists, in its own order. */
  datatype Manifest = Manifest(
    name: string,
    dependencies: seq<string>,
    devDependencies: seq<string>,
    peerDependencies: seq<string>)

  /** The keys of an object spread after another: new ones follow, known ones keep their place. */
  function Spread(keys: seq<string>, more: seq<string>): (merged: seq<string>)
    ensures forall k :: k in merged <==> k in keys || k in more
    decreases |more|
  {
    if more == [] then keys
    else Spread(if more[0] in keys then keys else keys + [more[0]], more[1..])
  }

  function DependencyNames(m: Manifest): (names: seq<string>)
    ensures forall k :: k in names <==> k in m.dependencies || k in m.devDependencies || k in m.peerDependencies
  {
    Spread(Spread(Spread([], m.dependencies), m.devDependencies), m.peerDependencies)
  }

  /** `new Map` of name and package: of two packages with one name the later is meant. */
  function ByName(items: seq<Manifest>): (m: map<string, nat>)
    ensures forall n | n in m :: m[n] < |items| && items[m[n]].name == n
    ensures forall i | 0 <= i < |items| :: items[i].name in m && i <= m[items[i].name]
  {
    if items == [] then map[]
    else ByName(items[..|items| - 1])[items[|items| - 1].name := |items| - 1]
  }

  // ---------------------------------------------------------------- the dependency graph

  /** The packages found under the given names; names of other packages are passed over. */
  function Found(byName: map<string, nat>, names: seq<string>): (found: seq<nat>)
    ensures forall q :: q in found <==> exists n :: n in names && n in byName && byName[n] == q
  {
    if names == [] then []
    else (if names[0] in byName then [byName[names[0]]] else []) + Found(byName, names[1..])
  }

  /** The workspace packages that package p lists. */
  function Prerequisites(items: seq<Manifest>, p: nat): (qs: seq<nat>)
    requires p < |items|
    ensures forall q | q in qs :: q < |items|
  {
    Found(ByName(items), DependencyNames(items[p]))
  }

  predicate DependsOn(items: seq<Manifest>, p: nat, q: nat)
    requires p < |items|
  {
    q in Prerequisites(items, p)
  }

  ghost predicate IsPath(items: seq<Manifest>, path: seq<nat>) {
    && (forall i | 0 <= i < |path| :: path[i] < |items|)
    && (forall i, j | 0 <= i < j < |path| && j == i + 1 :: DependsOn(items, path[i], path[j]))
  }

  ghost predicate IsCycle(items: seq<Manifest>, path: seq<nat>) {
    |path| >= 2 && IsPath(items, path) && path[0] == path[|path| - 1]
  }

  ghost predicate HasCycle(items: seq<Manifest>) {
    exists path :: IsCycle(items, path)
  }

  /** Every prerequisite of p is among the given packages. */
  ghost predicate Satisfied(items: seq<Manifest>, p: nat, among: seq<nat>)
    requires p < |items|
  {
    forall q: nat | DependsOn(items, p, q) :: q in among
  }

  /** Nothing twice, and everything after what it depends on. */
  ghost predicate PrerequisitesFirst(items: seq<Manifest>, ordered: seq<nat>) {
    && (forall i | 0 <= i < |ordered| :: ordered[i] < |items|)
    && (forall i, j | 0 <= i < j < |ordered| :: ordered[i] != ordered[j])
    && (forall i | 0 <= i < |ordered| :: Satisfied(items, ordered[i], ordered[..i]))
  }

  /** Every package exactly once, prerequisites first. */
  ghost predicate CorrectOrder(items: seq<Manifest>, ordered: seq<nat>) {
    && PrerequisitesFirst(items, ordered)
    && (forall p: nat | p < |items| :: p in ordered)
  }

  /** Along a path, places in a correct order only go down. */
  lemma {:induction false} PathGoesDown(items: seq<Manifest>, ordered: seq<nat>, path: seq<nat>, from: nat) returns (to: nat)
    requires CorrectOrder(items, ordered) && |path| >= 1 && IsPath(items, path)
    requires from < |ordered| && ordered[from] == path[0]
    ensures to < |ordered| && ordered[to] == path[|path| - 1]
    ensures to <= from - (|path| - 1)
  {
    if |path| == 1 {
      to := from;
    } else {
      RestOfPath(items, path);
      var next := EarlierPlace(items, ordered, from, path[1]);
      to := PathGoesDown(items, ordered, path[1..], next);
    }
  }

  lemma RestOfPath(items: seq<Manifest>, path: seq<nat>)
    requires IsPath(items, path) && |path| > 1
    ensures path[0] < |items| && DependsOn(items, path[0], path[1]) && IsPath(items, path[1..])
  {
    var rest := path[1..];
    assert forall i | 0 <= i < |rest| :: rest[i] == path[i + 1];
  }

  /** What a package depends on has a place before it. */
  lemma EarlierPlace(items: seq<Manifest>, ordered: seq<nat>, from: nat, q: nat) returns (next: nat)
    requires PrerequisitesFirst(items, ordered) && from < |ordered|
    requires ordered[from] < |items| && DependsOn(items, ordered[from], q)
    ensures next < from && ordered[next] == q
  {
    assert Satisfied(items, ordered[from], ordered[..from]);
    next :| next < from && ordered[..from][next] == q;
  }

  /** A graph that has a correct order has no cycle. */
  lemma OrderExcludesCycles(items: seq<Manifest>, ordered: seq<nat>)
    requires CorrectOrder(items, ordered)
    ensures !HasCycle(items)
  {
    if path :| IsCycle(items, path) {
      assert path[0] in ordered;
      var from: nat :| from < |ordered| && ordered[from] == path[0];
      var to := PathGoesDown(items, ordered, path, from);
      assert false;
    }
  }

  // ---------------------------------------------------------------- the search

  /** The packages of a workspace of size n. */
  function Below(n: nat): (s: set<nat>)
    ensures forall q: nat :: q in s <==> q < n
  {
    if n == 0 then {} else Below(n - 1) + {n - 1}
  }

  class Ordering {
    const items: seq<Manifest>
    const byName: map<string, nat>
    var done: set<nat>
    var active: set<nat>
    var ordered: seq<nat>

    ghost predicate Valid()
      reads this
    {
      && byName == ByName(items)
      && (forall p: nat :: p in done <==> p in ordered)
      && done !! active
      && PrerequisitesFirst(items, ordered)
    }

    constructor (items: seq<Manifest>)
      ensures Valid() && this.items == items && active == {} && ordered == []
    {
      this.items, byName := items, ByName(items);
      done, active, ordered := {}, {}, [];
    }

    /** The packages being visited form a path that leads to p. */
    ghost predicate Stack(path: seq<nat>, p: nat)
      reads this
    {
      IsPath(items, path + [p]) && (forall q: nat :: q in active <==> q in path)
    }

    /** Visits p; on a cycle returns its name, and a cycle that starts and ends there. */
    method Visit(p: nat, ghost path: seq<nat>) returns (error: Option<string>, ghost cycle: seq<nat>)
      requires Valid() && p < |items| && Stack(path, p)
      modifies this
      ensures error.None? ==>
                && Valid() && active == old(active) && p in done
                && old(done) <= done
      ensures error.Some? ==> IsCycle(items, cycle) && error.value == items[cycle[0]].name
      decreases Below(|items|) - active, 0
    {
      error, cycle := None, [];
      if p in done {
        return;
      }
      if p in active {
        cycle := CloseCycle(path, p);
        error := Some(items[p].name);
        return;
      }
      active := active + {p};
      error, cycle := VisitPrerequisites(p, path);
      if error.None? {
        Finish(p);
      }
    }

    /** The loop of `visit` over the names that p lists. */
    method VisitPrerequisites(p: nat, ghost path: seq<nat>) returns (error: Option<string>, ghost cycle: seq<nat>)
      requires Valid() && p < |items| && p !in done
      requires IsPath(items, path + [p]) && forall q: nat :: q in active <==> q in path + [p]
      modifies this
      ensures error.None? ==>
                && Valid() && active == old(active) && p !in done
                && old(done) <= done
                && Satisfied(items, p, ordered)
      ensures error.Some? ==> IsCycle(items, cycle) && error.value == items[cycle[0]].name
      decreases Below(|items|) - active, 1
    {
      error, cycle := None, [];
      var prerequisites := Found(byName, DependencyNames(items[p]));
      assert prerequisites == Prerequisites(items, p);
      for i := 0 to |prerequisites|
        invariant error.None? && Valid() && active == old(active) && p !in done
        invariant old(done) <= done
        invariant forall j | 0 <= j < i :: prerequisites[j] in done
      {
        StackGrows(path, p, prerequisites[i]);
        error, cycle := Visit(prerequisites[i], path + [p]);
        if error.Some? {
          return;
        }
      }
      assert Satisfied(items, p, ordered);
    }

    /** Meeting a package that is being visited closes a cycle. */
    lemma CloseCycle(path: seq<nat>, p: nat) returns (cycle: seq<nat>)
      requires p < |items| && IsPath(items, path + [p]) && p in path
      ensures IsCycle(items, cycle) && cycle[0] == p
    {
      var k: nat :| k < |path| && path[k] == p;
      var whole := path + [p];
      cycle := whole[k..];
      forall i, j | 0 <= i < j < |cycle| && j == i + 1 ensures DependsOn(items, cycle[i], cycle[j]) {
        assert DependsOn(items, whole[k + i], whole[k + j]);
      }
    }

    lemma StackGrows(path: seq<nat>, p: nat, q: nat)
      requires p < |items| && IsPath(items, path + [p]) && (forall q: nat :: q in active <==> q in path + [p])
      requires DependsOn(items, p, q)
      ensures Stack(path + [p], q) && q < |items|
    {
      var longer := path + [p] + [q];
      forall i, j | 0 <= i < j < |longer| && j == i + 1 ensures DependsOn(items, longer[i], longer[j]) {
        if j <= |path| {
          assert longer[i] == (path + [p])[i] && longer[j] == (path + [p])[j];
        }
      }
    }

    method Finish(p: nat)
      requires Valid() && p < |items| && p in active
      requires Satisfied(items, p, ordered)
      modifies this
      ensures Valid() && active == old(active) - {p}
      ensures ordered == old(ordered) + [p] && done == old(done) + {p}
    {
      active, done, ordered := active - {p}, done + {p}, ordered + [p];
      forall i | 0 <= i < |ordered| ensures Satisfied(items, ordered[i], ordered[..i]) {
        if i < |old(ordered)| {
          assert ordered[..i] == old(ordered)[..i];
        } else {
          assert ordered[..i] == old(ordered);
        }
      }
    }
  }

  /** Returns the packages in a correct order exactly when there is one, that is, when no dependency
      cycle exists; otherwise names a package on a cycle. */
  method OrderedPackages(items: seq<Manifest>) returns (r: Result<seq<nat>, string>)
    ensures r.Ok? <==> !HasCycle(items)
    ensures r.Ok? ==> CorrectOrder(items, r.value)
    ensures r.Err? ==> exists cycle :: IsCycle(items, cycle) && items[cycle[0]].name == r.error
  {
    var search := new Ordering(items);
    for i := 0 to |items|
      invariant search.Valid() && search.items == items && search.active == {}
      invariant forall p: nat | p < i :: p in search.done
      invariant fresh(search)
    {
      assert search.Stack([], i);
      var error, cycle := search.Visit(i, []);
      if error.Some? {
        return Err(error.value);
      }
    }
    assert forall p: nat | p < |items| :: p in search.done && p in search.ordered;
    r := Ok(search.ordered);
    OrderExcludesCycles(items, search.ordered);
  }
}
