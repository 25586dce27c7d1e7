/**
 Staging a release on npm, over any number of runs of the staging job. A run may crash, a lookup may
 fail, a stage may take effect although its response is lost, maintainers approve pending packages
 at any moment, and strangers may publish what is neither published nor pending.
*/
module ReleaseStaging {
  import opened Wrappers
  import PackageOrdering

  datatype Entry = Entry(name: string, integrity: string)

  datatype Manifest = Manifest(commit: string, packages: seq<Entry>)

  /** What the registry says about a published or pending version. */
  datatype Remote = Remote(integrity: string, gitHead: string)

  datatype Registry = Registry(published: map<string, Remote>, pending: map<string, Remote>)

  /** `existing` and `absent` are the names whose lookup found a record, or found none.
      `effects` are the names this run has put on stage, whether or not it was told. */
  datatype Progress = Progress(existing: set<string>, absent: set<string>, effects: seq<string>)

  datatype Phase = Idle | Preflight(i: nat) | Staging(j: nat) | Completed | Failed

  datatype System = System(registry: Registry, phase: Phase, progress: Progress)

  datatype Event =
    | Begin
    | Lookup(fault: Fault)
    | Stage(fault: Fault)
    | Skip
    | Crash
    | Approve(name: string)
    | PublishedByOthers(name: string, remote: Remote)

  function Ours(m: Manifest, e: Entry): Remote {
    Remote(e.integrity, m.commit)
  }

  /** `verifyExisting` does not throw. */
  predicate Identical(m: Manifest, e: Entry, remote: Remote) {
    remote.integrity == e.integrity && remote.gitHead == m.commit
  }

  /** The registry takes a package on stage unless its version is already there. */
  predicate CanStage(r: Registry, e: Entry) {
    e.name !in r.published && e.name !in r.pending
  }

  predicate Enabled(m: Manifest, s: System, e: Event) {
    match e
    case Begin => s.phase.Idle? || s.phase.Completed? || s.phase.Failed?
    case Lookup(_) => s.phase.Preflight? && s.phase.i < |m.packages|
    case Stage(_) => s.phase.Staging? && s.phase.j < |m.packages| && m.packages[s.phase.j].name !in s.progress.existing
    case Skip => s.phase.Staging? && s.phase.j < |m.packages| && m.packages[s.phase.j].name in s.progress.existing
    case Crash => true
    case Approve(n) => n in s.registry.pending
    case PublishedByOthers(n, _) => n !in s.registry.published && n !in s.registry.pending
  }

  /** Where a run stands after looking at entry i - 1 of the preflight. */
  function PreflightAt(m: Manifest, i: nat): Phase {
    if i < |m.packages| then Preflight(i) else StagingAt(m, 0)
  }

  function StagingAt(m: Manifest, j: nat): Phase {
    if j < |m.packages| then Staging(j) else Completed
  }

  function Apply(m: Manifest, s: System, e: Event): System
    requires Enabled(m, s, e)
  {
    var r, p := s.registry, s.progress;
    match e
    case Begin => System(r, PreflightAt(m, 0), Progress({}, {}, []))
    case Lookup(fault) =>
      var entry := m.packages[s.phase.i];
      if !fault.NoFault? then s.(phase := Failed)
      else if entry.name !in r.published then
        System(r, PreflightAt(m, s.phase.i + 1), p.(absent := p.absent + {entry.name}))
      else if !Identical(m, entry, r.published[entry.name]) then s.(phase := Failed)
      else System(r, PreflightAt(m, s.phase.i + 1), p.(existing := p.existing + {entry.name}))
    case Stage(fault) =>
      var entry := m.packages[s.phase.j];
      if fault.FailsBefore? || !CanStage(r, entry) then s.(phase := Failed)
      else
        System(r.(pending := r.pending[entry.name := Ours(m, entry)]),
               if fault.NoFault? then StagingAt(m, s.phase.j + 1) else Failed,
               p.(effects := p.effects + [entry.name]))
    case Skip => s.(phase := StagingAt(m, s.phase.j + 1))
    case Crash => s.(phase := Failed)
    case Approve(n) => s.(registry := Registry(r.published[n := r.pending[n]], r.pending - {n}))
    case PublishedByOthers(n, remote) => s.(registry := r.(published := r.published[n := remote]))
  }

  predicate Runnable(m: Manifest, s: System, es: seq<Event>)
    decreases |es|
  {
    es == [] || (Enabled(m, s, es[0]) && Runnable(m, Apply(m, s, es[0]), es[1..]))
  }

  function Exec(m: Manifest, s: System, es: seq<Event>): System
    requires Runnable(m, s, es)
    decreases |es|
  {
    if es == [] then s else Exec(m, Apply(m, s, es[0]), es[1..])
  }

  function Init(published: map<string, Remote>): System {
    System(Registry(published, map[]), Idle, Progress({}, {}, []))
  }

  // ---------------------------------------------------------------- what is kept

  ghost predicate DistinctNames(m: Manifest) {
    forall i, j | 0 <= i < j < |m.packages| :: m.packages[i].name != m.packages[j].name
  }

  /** The published record has the manifest's bytes of e and the manifest's commit. */
  predicate PublishedIdentically(m: Manifest, r: Registry, e: Entry) {
    e.name in r.published && r.published[e.name] == Remote(e.integrity, m.commit)
  }

  /** Just these wait on stage, or have been approved. */
  predicate PublishedOrStaged(m: Manifest, r: Registry, e: Entry) {
    PublishedIdentically(m, r, e) || (e.name in r.pending && r.pending[e.name] == Remote(e.integrity, m.commit))
  }

  /** How many entries the running job has looked up, and how many it has dealt with. */
  function LookedUp(m: Manifest, phase: Phase): nat {
    match phase
    case Preflight(i) => i
    case Staging(_) => |m.packages|
    case Completed => |m.packages|
    case _ => 0
  }

  function DealtWith(m: Manifest, phase: Phase): nat {
    match phase
    case Staging(j) => j
    case Completed => |m.packages|
    case _ => 0
  }

  ghost predicate Inv(m: Manifest, s: System) {
    ProgressInv(m, s.phase, s.progress) && RegistryInv(m, s.registry, s.progress)
  }

  ghost predicate ProgressInv(m: Manifest, phase: Phase, p: Progress) {
    && LookedUp(m, phase) <= |m.packages| && DealtWith(m, phase) <= |m.packages|
    // the preflight told every entry apart
    && (forall k | 0 <= k < LookedUp(m, phase) :: m.packages[k].name in p.existing + p.absent)
    && (forall k | 0 <= k < DealtWith(m, phase) :: m.packages[k].name in p.existing || m.packages[k].name in p.effects)
    // something is staged only after a whole preflight
    && (p.effects != [] ==> forall k | 0 <= k < |m.packages| :: m.packages[k].name in p.existing + p.absent)
    && (forall n | n in p.effects :: n in p.absent)
    && (phase.Preflight? || phase.Idle? ==> p.effects == [])
  }

  /** What the preflight found stays as it was, and what the run has staged is published identically or waits
      with the manifest's bytes. */
  ghost predicate RegistryInv(m: Manifest, r: Registry, p: Progress) {
    && (forall k | 0 <= k < |m.packages| && m.packages[k].name in p.existing :: PublishedIdentically(m, r, m.packages[k]))
    && (forall k | 0 <= k < |m.packages| && m.packages[k].name in p.effects :: PublishedOrStaged(m, r, m.packages[k]))
    && PendingAreOurs(m, r)
  }

  /** Only the job stages, and only the manifest's bytes of its own packages. */
  ghost predicate PendingAreOurs(m: Manifest, r: Registry) {
    forall n | n in r.pending :: exists k :: 0 <= k < |m.packages| && m.packages[k].name == n && r.pending[n] == Ours(m, m.packages[k])
  }

  lemma ApprovedIsOurs(m: Manifest, r: Registry, n: string, k: nat)
    requires DistinctNames(m) && PendingAreOurs(m, r) && n in r.pending
    requires k < |m.packages| && m.packages[k].name == n
    ensures r.pending[n] == Ours(m, m.packages[k])
  {
  }

  lemma LookupKeepsInv(m: Manifest, s: System, fault: Fault)
    requires DistinctNames(m) && Inv(m, s) && Enabled(m, s, Lookup(fault))
    ensures Inv(m, Apply(m, s, Lookup(fault)))
  {
  }

  lemma StageKeepsInv(m: Manifest, s: System, fault: Fault)
    requires DistinctNames(m) && Inv(m, s) && Enabled(m, s, Stage(fault))
    ensures Inv(m, Apply(m, s, Stage(fault)))
  {
    StageKeepsProgress(m, s, fault);
    StageKeepsRegistry(m, s, fault);
  }

  lemma StageKeepsProgress(m: Manifest, s: System, fault: Fault)
    requires Inv(m, s) && Enabled(m, s, Stage(fault))
    ensures var t := Apply(m, s, Stage(fault)); ProgressInv(m, t.phase, t.progress)
  {
  }

  lemma StageKeepsRegistry(m: Manifest, s: System, fault: Fault)
    requires DistinctNames(m) && RegistryInv(m, s.registry, s.progress) && Enabled(m, s, Stage(fault))
    ensures var t := Apply(m, s, Stage(fault)); RegistryInv(m, t.registry, t.progress)
  {
  }

  lemma ApproveKeepsInv(m: Manifest, s: System, n: string)
    requires DistinctNames(m) && Inv(m, s) && Enabled(m, s, Approve(n))
    ensures Inv(m, Apply(m, s, Approve(n)))
  {
    var t := Apply(m, s, Approve(n));
    assert PendingAreOurs(m, t.registry);
    forall k | 0 <= k < |m.packages| && PublishedOrStaged(m, s.registry, m.packages[k])
      ensures PublishedOrStaged(m, t.registry, m.packages[k])
    {
      if m.packages[k].name == n {
        ApprovedIsOurs(m, s.registry, n, k);
      }
    }
    forall k | 0 <= k < |m.packages| && PublishedIdentically(m, s.registry, m.packages[k])
      ensures PublishedIdentically(m, t.registry, m.packages[k])
    {
      if m.packages[k].name == n {
        ApprovedIsOurs(m, s.registry, n, k);
      }
    }
  }

  lemma PublicationKeepsInv(m: Manifest, s: System, n: string, remote: Remote)
    requires Inv(m, s) && Enabled(m, s, PublishedByOthers(n, remote))
    ensures Inv(m, Apply(m, s, PublishedByOthers(n, remote)))
  {
  }

  lemma StepKeepsInv(m: Manifest, s: System, e: Event)
    requires DistinctNames(m) && Inv(m, s) && Enabled(m, s, e)
    ensures Inv(m, Apply(m, s, e))
  {
    match e
    case Lookup(fault) => LookupKeepsInv(m, s, fault);
    case Stage(fault) => StageKeepsInv(m, s, fault);
    case Approve(n) => ApproveKeepsInv(m, s, n);
    case PublishedByOthers(n, remote) => PublicationKeepsInv(m, s, n, remote);
    case _ =>
  }

  lemma {:induction false} RunKeepsInv(m: Manifest, s: System, es: seq<Event>)
    requires DistinctNames(m) && Inv(m, s) && Runnable(m, s, es)
    ensures Inv(m, Exec(m, s, es))
    decreases |es|
  {
    if es != [] {
      StepKeepsInv(m, s, es[0]);
      RunKeepsInv(m, Apply(m, s, es[0]), es[1..]);
    }
  }

  // ---------------------------------------------------------------- the theorems

  /** What `orderedPackages` gives the manifest: prerequisites come first. `prerequisites` maps the
      name of a package to the names of the packages of the workspace it depends on. */
  ghost predicate PrerequisitesFirst(m: Manifest, prerequisites: map<string, set<string>>) {
    forall k, d | 0 <= k < |m.packages| && m.packages[k].name in prerequisites && d in prerequisites[m.packages[k].name] ::
      exists l :: 0 <= l < k && m.packages[l].name == d
  }

  /** The names of the workspace packages that each package lists. */
  function PrerequisiteNames(items: seq<PackageOrdering.Manifest>): map<string, set<string>> {
    map p: nat | p < |items| && PackageOrdering.ByName(items)[items[p].name] == p ::
      items[p].name := set q | q in PackageOrdering.Prerequisites(items, p) :: items[q].name
  }

  /** `releaseManifest` accepts a manifest only if its names are those of `orderedPackages`, in order. */
  lemma OrderedManifest(items: seq<PackageOrdering.Manifest>, ordered: seq<nat>, m: Manifest)
    requires PackageOrdering.CorrectOrder(items, ordered)
    requires forall i, j | 0 <= i < j < |items| :: items[i].name != items[j].name
    requires |m.packages| == |ordered| && forall k | 0 <= k < |ordered| :: m.packages[k].name == items[ordered[k]].name
    ensures DistinctNames(m) && PrerequisitesFirst(m, PrerequisiteNames(items))
  {
    forall i, j | 0 <= i < j < |m.packages| ensures m.packages[i].name != m.packages[j].name {
      var a, b := ordered[i], ordered[j];
      assert a < b || b < a;
    }
    var names := PrerequisiteNames(items);
    forall k, d | 0 <= k < |m.packages| && m.packages[k].name in names && d in names[m.packages[k].name]
      ensures exists l :: 0 <= l < k && m.packages[l].name == d
    {
      var p := ordered[k];
      var q :| q in PackageOrdering.Prerequisites(items, p) && items[q].name == d;
      assert PackageOrdering.DependsOn(items, p, q) && PackageOrdering.Satisfied(items, p, ordered[..k]);
      var l :| 0 <= l < k && ordered[..k][l] == q;
      assert m.packages[l].name == d;
    }
  }

  /** A run stages nothing before it has looked up every entry and found each one absent or identical,
      and everything it stages was absent. */
  lemma NothingStagedWithoutPreflight(m: Manifest, published: map<string, Remote>, es: seq<Event>)
    requires DistinctNames(m) && Runnable(m, Init(published), es)
    ensures var s := Exec(m, Init(published), es);
            s.progress.effects != [] ==>
              && (forall k | 0 <= k < |m.packages| ::
                    m.packages[k].name in s.progress.absent || PublishedIdentically(m, s.registry, m.packages[k]))
              && (forall n | n in s.progress.effects :: n in s.progress.absent)
  {
    RunKeepsInv(m, Init(published), es);
  }

  /** A lookup that fails, or finds other bytes or another commit, ends its run with nothing staged. */
  lemma BadLookupStagesNothing(m: Manifest, published: map<string, Remote>, es: seq<Event>, fault: Fault)
    requires DistinctNames(m) && Runnable(m, Init(published), es)
    requires Enabled(m, Exec(m, Init(published), es), Lookup(fault))
    requires var s := Exec(m, Init(published), es);
             var e := m.packages[s.phase.i];
             || !fault.NoFault?
             || (e.name in s.registry.published
                 && (s.registry.published[e.name].integrity != e.integrity || s.registry.published[e.name].gitHead != m.commit))
    ensures var s := Exec(m, Init(published), es);
            var t := Apply(m, s, Lookup(fault));
            t.phase.Failed? && t.progress.effects == [] && t.registry == s.registry
  {
    RunKeepsInv(m, Init(published), es);
  }

  /** A stage that is refused, or whose response does not arrive, ends its run; the package is staged all the same,
      with the manifest's bytes and commit, if only the response was lost. */
  lemma FailedStageEndsTheRun(m: Manifest, s: System, fault: Fault)
    requires Enabled(m, s, Stage(fault))
    ensures var entry := m.packages[s.phase.j];
            var t, free := Apply(m, s, Stage(fault)), entry.name !in s.registry.published && entry.name !in s.registry.pending;
            && (t.phase.Failed? <==> !fault.NoFault? || !free)
            && t.registry.published == s.registry.published
            && t.registry.pending == (if free && !fault.FailsBefore? then s.registry.pending[entry.name := Remote(entry.integrity, m.commit)]
                                      else s.registry.pending)
  {
  }

  /** When a package is about to be staged, each of its prerequisites is published with the manifest's
      bytes, or was staged with them earlier in this very run. */
  lemma PrerequisitesAreReady(m: Manifest, published: map<string, Remote>, es: seq<Event>,
                              prerequisites: map<string, set<string>>, fault: Fault, d: string)
    requires DistinctNames(m) && PrerequisitesFirst(m, prerequisites) && Runnable(m, Init(published), es)
    requires Enabled(m, Exec(m, Init(published), es), Stage(fault))
    requires var e := m.packages[Exec(m, Init(published), es).phase.j];
             e.name in prerequisites && d in prerequisites[e.name]
    ensures var s := Exec(m, Init(published), es);
            exists l :: 0 <= l < s.phase.j && m.packages[l].name == d
                        && (PublishedIdentically(m, s.registry, m.packages[l])
                            || (d in s.progress.effects && PublishedOrStaged(m, s.registry, m.packages[l])))
  {
    RunKeepsInv(m, Init(published), es);
    var s := Exec(m, Init(published), es);
    var l :| 0 <= l < s.phase.j && m.packages[l].name == d;
  }

  /** A completed run leaves every package published with, or staged with, the manifest's bytes. */
  lemma CompletedRunCoversEverything(m: Manifest, published: map<string, Remote>, es: seq<Event>)
    requires DistinctNames(m) && Runnable(m, Init(published), es)
    requires Exec(m, Init(published), es).phase.Completed?
    ensures var s := Exec(m, Init(published), es);
            forall k | 0 <= k < |m.packages| :: PublishedOrStaged(m, s.registry, m.packages[k])
  {
    RunKeepsInv(m, Init(published), es);
  }

  /** Publications of strangers under the names of the release. */
  ghost predicate NoStrangers(m: Manifest, es: seq<Event>) {
    forall i, k | 0 <= i < |es| && es[i].PublishedByOthers? && 0 <= k < |m.packages| :: es[i].name != m.packages[k].name
  }

  ghost predicate NoConflict(m: Manifest, r: Registry) {
    forall k | 0 <= k < |m.packages| && m.packages[k].name in r.published :: PublishedIdentically(m, r, m.packages[k])
  }

  /** Whatever runs crash and whatever is approved, a retry never meets a conflict of its own making. */
  lemma {:induction false} RetriesMeetNoConflict(m: Manifest, s: System, es: seq<Event>)
    requires DistinctNames(m) && Inv(m, s) && NoConflict(m, s.registry)
    requires Runnable(m, s, es) && NoStrangers(m, es)
    ensures NoConflict(m, Exec(m, s, es).registry)
    decreases |es|
  {
    if es != [] {
      StepKeepsInv(m, s, es[0]);
      assert NoConflict(m, Apply(m, s, es[0]).registry) by {
        assert es[0].PublishedByOthers? ==> forall k | 0 <= k < |m.packages| :: es[0].name != m.packages[k].name;
      }
      assert forall i | 0 <= i < |es[1..]| :: es[1..][i] == es[i + 1];
      RetriesMeetNoConflict(m, Apply(m, s, es[0]), es[1..]);
    }
  }

  // ---------------------------------------------------------------- the job itself

  datatype Turn = Turn(others: seq<Event>, fault: Fault)

  /** The registry as one job sees it: before each call the next turn of a script is played. */
  class Npm {
    const m: Manifest
    const published: map<string, Remote>
    var s: System
    var script: seq<Turn>
    ghost var history: seq<Event>

    ghost predicate Valid()
      reads this
    {
      && DistinctNames(m)
      && Runnable(m, Init(published), history) && s == Exec(m, Init(published), history)
      && Inv(m, s)
    }

    constructor (m: Manifest, published: map<string, Remote>, script: seq<Turn>)
      requires DistinctNames(m)
      ensures Valid() && this.m == m && s == Init(published)
    {
      this.m, this.published, this.script := m, published, script;
      s, history := Init(published), [];
    }

    method Do(e: Event)
      requires Valid() && Enabled(m, s, e)
      modifies this`s, this`history
      ensures Valid() && s == Apply(m, old(s), e) && history == old(history) + [e]
    {
      ExecStep(m, Init(published), history, e);
      StepKeepsInv(m, s, e);
      s := Apply(m, s, e);
      history := history + [e];
    }

    /** Approvals and foreign publications that happen before a call, and the fate of the call. */
    method NextTurn() returns (fault: Fault)
      requires Valid()
      modifies this
      ensures Valid() && s.phase == old(s.phase) && s.progress == old(s.progress)
      ensures old(history) <= history && AllAnswered(history, |old(history)|)
      ensures old(script) == [] ==> fault.NoFault? && script == [] && s == old(s)
    {
      fault := NoFault;
      if script != [] {
        var turn := script[0];
        fault, script := turn.fault, script[1..];
        for i := 0 to |turn.others|
          invariant Valid() && s.phase == old(s.phase) && s.progress == old(s.progress)
          invariant old(history) <= history && AllAnswered(history, |old(history)|)
        {
          var e := turn.others[i];
          if (e.Approve? || e.PublishedByOthers?) && Enabled(m, s, e) {
            Do(e);
          }
        }
      }
    }

    method LookupPublished(entry: Entry) returns (remote: Result<Option<Remote>, string>)
      requires Valid()
      modifies this
      ensures Valid() && s.phase == old(s.phase) && s.progress == old(s.progress)
      ensures old(history) <= history && AllAnswered(history, |old(history)|)
      ensures remote.Ok? ==>
                remote.value == if entry.name in s.registry.published then Some(s.registry.published[entry.name]) else None
      ensures old(script) == [] ==> remote.Ok? && script == [] && s == old(s)
    {
      var fault := NextTurn();
      if !fault.NoFault? {
        return Err("Registry lookup failed");
      }
      remote := Ok(if entry.name in s.registry.published then Some(s.registry.published[entry.name]) else None);
    }
  }

  lemma {:induction false} ExecStep(m: Manifest, s: System, es: seq<Event>, e: Event)
    requires Runnable(m, s, es) && Enabled(m, Exec(m, s, es), e)
    ensures Runnable(m, s, es + [e]) && Exec(m, s, es + [e]) == Apply(m, Exec(m, s, es), e)
    decreases |es|
  {
    if es == [] {
      assert Runnable(m, Apply(m, s, e), [e][1..]);
    } else {
      assert (es + [e])[0] == es[0] && (es + [e])[1..] == es[1..] + [e];
      ExecStep(m, Apply(m, s, es[0]), es[1..], e);
    }
  }

  /** From this position on, no lookup and no stage of the job failed or lost its response. */
  ghost predicate AllAnswered(history: seq<Event>, from: nat) {
    forall i | from <= i < |history| ::
      (history[i].Lookup? ==> history[i].fault.NoFault?) && (history[i].Stage? ==> history[i].fault.NoFault?)
  }

  /** The packages of the first n entries that are not published, in manifest order. */
  function Unpublished(m: Manifest, r: Registry, n: nat): seq<string>
    requires n <= |m.packages|
  {
    if n == 0 then []
    else Unpublished(m, r, n - 1) + (if m.packages[n - 1].name in r.published then [] else [m.packages[n - 1].name])
  }

  /** An undisturbed preflight that has looked up the first i entries, and found the names `existing`. */
  ghost predicate Searched(npm: Npm, r0: Registry, existing: set<string>, i: nat)
    requires i <= |npm.m.packages|
    reads npm
  {
    && npm.script == [] && npm.s.registry == r0
    && (forall k | 0 <= k < i && npm.m.packages[k].name in r0.published ::
          npm.m.packages[k].name in existing && Identical(npm.m, npm.m.packages[k], r0.published[npm.m.packages[k].name]))
    && (forall n | n in existing :: n in r0.published)
  }

  /** One pass of the preflight loop: the names found so far, or an error. */
  method LookupEntry(npm: Npm, i: nat, existing: set<string>, ghost r0: Registry) returns (r: Result<set<string>, string>)
    requires npm.Valid() && i < |npm.m.packages| && npm.s.phase == PreflightAt(npm.m, i)
    requires existing == npm.s.progress.existing && npm.s.progress.effects == []
    modifies npm
    ensures npm.Valid() && npm.s.progress.effects == []
    ensures if r.Ok? then npm.s.phase == PreflightAt(npm.m, i + 1) && r.value == npm.s.progress.existing else npm.s.phase.Failed?
    ensures old(npm.history) <= npm.history && (r.Ok? ==> AllAnswered(npm.history, |old(npm.history)|))
    ensures old(Searched(npm, r0, existing, i)) ==>
              if r.Ok? then Searched(npm, r0, r.value, i + 1)
              else npm.script == [] && npm.s.registry == r0 && !NoConflict(npm.m, r0)
  {
    var entry := npm.m.packages[i];
    var remote := npm.LookupPublished(entry);
    if remote.Err? {
      npm.Do(Lookup(FailsBefore));
      return Err("Registry lookup failed");
    }
    npm.Do(Lookup(NoFault));
    if remote.value.Some? && !Identical(npm.m, entry, remote.value.value) {
      return Err("Published bytes or source differ");
    }
    r := Ok(if remote.value.Some? then existing + {entry.name} else existing);
  }

  /** Looks up every entry; gives up at the first lookup that fails or disagrees with the manifest's bytes. */
  method PreflightAll(npm: Npm) returns (r: Result<set<string>, string>)
    requires npm.Valid() && npm.s.phase == PreflightAt(npm.m, 0) && npm.s.progress == Progress({}, {}, [])
    modifies npm
    ensures npm.Valid() && npm.s.progress.effects == []
    ensures old(npm.history) <= npm.history && (r.Ok? ==> AllAnswered(npm.history, |old(npm.history)|))
    ensures if r.Ok? then npm.s.phase == StagingAt(npm.m, 0) && r.value == npm.s.progress.existing else npm.s.phase.Failed?
    ensures old(npm.script) == [] ==>
              && npm.script == [] && npm.s.registry == old(npm.s.registry)
              && (r.Ok? <==> NoConflict(npm.m, npm.s.registry))
              && (r.Ok? ==> forall k | 0 <= k < |npm.m.packages| ::
                    npm.m.packages[k].name in r.value <==> npm.m.packages[k].name in npm.s.registry.published)
  {
    var existing: set<string> := {};
    ghost var r0 := npm.s.registry;
    for i := 0 to |npm.m.packages|
      invariant npm.Valid() && npm.s.phase == PreflightAt(npm.m, i)
      invariant old(npm.history) <= npm.history && AllAnswered(npm.history, |old(npm.history)|)
      invariant existing == npm.s.progress.existing && npm.s.progress.effects == []
      invariant old(npm.script) == [] ==> Searched(npm, r0, existing, i)
    {
      var found := LookupEntry(npm, i, existing, r0);
      if found.Err? {
        return found;
      }
      existing := found.value;
    }
    r := Ok(existing);
  }

  /** The registry r and the run's effects when, from r0 on, only the first j entries were staged. */
  ghost predicate StagedSoFar(m: Manifest, r0: Registry, r: Registry, effects: seq<string>, j: nat)
    requires j <= |m.packages|
  {
    && r.published == r0.published
    && effects == Unpublished(m, r0, j)
    && forall n | n in r.pending :: exists k :: 0 <= k < j && m.packages[k].name == n
  }

  lemma NextCanBeStaged(m: Manifest, r0: Registry, r: Registry, effects: seq<string>, j: nat)
    requires DistinctNames(m) && j < |m.packages| && StagedSoFar(m, r0, r, effects, j)
    requires m.packages[j].name !in r0.published
    ensures CanStage(r, m.packages[j])
  {
  }

  /** An undisturbed staging phase that began with the registry r0 and nothing pending. */
  ghost predicate Calm(npm: Npm, r0: Registry, j: nat)
    requires j <= |npm.m.packages|
    reads npm
  {
    && npm.script == []
    && StagedSoFar(npm.m, r0, npm.s.registry, npm.s.progress.effects, j)
    && forall k | 0 <= k < |npm.m.packages| :: npm.m.packages[k].name in npm.s.progress.existing <==> npm.m.packages[k].name in r0.published
  }

  /** One pass of the staging loop. */
  method StageEntry(npm: Npm, j: nat, ghost r0: Registry) returns (ok: bool)
    requires npm.Valid() && j < |npm.m.packages| && npm.s.phase == Staging(j)
    modifies npm
    ensures npm.Valid() && npm.s.progress.existing == old(npm.s.progress.existing)
    ensures npm.s.phase == if ok then StagingAt(npm.m, j + 1) else Failed
    ensures old(npm.history) <= npm.history && (ok ==> AllAnswered(npm.history, |old(npm.history)|))
    ensures old(Calm(npm, r0, j)) ==> ok && Calm(npm, r0, j + 1)
  {
    if npm.m.packages[j].name in npm.s.progress.existing {
      npm.Do(Skip);
      ok := true;
    } else {
      if Calm(npm, r0, j) {
        NextCanBeStaged(npm.m, r0, npm.s.registry, npm.s.progress.effects, j);
      }
      var fault := npm.NextTurn();
      npm.Do(Stage(fault));
      ok := !npm.s.phase.Failed?;
    }
  }

  /** Stages every entry the preflight did not find; the first refusal or failure ends the run. */
  method StageMissing(npm: Npm, existing: set<string>) returns (r: Result<(), string>)
    requires npm.Valid() && npm.s.phase == StagingAt(npm.m, 0)
    requires existing == npm.s.progress.existing && npm.s.progress.effects == []
    modifies npm
    ensures npm.Valid()
    ensures if r.Ok? then npm.s.phase.Completed? else npm.s.phase.Failed?
    ensures old(npm.history) <= npm.history && (r.Ok? ==> AllAnswered(npm.history, |old(npm.history)|))
    ensures old(Calm(npm, npm.s.registry, 0)) ==>
              r.Ok? && Calm(npm, old(npm.s.registry), |npm.m.packages|)
  {
    ghost var r0 := npm.s.registry;
    ghost var calm := Calm(npm, r0, 0);
    for j := 0 to |npm.m.packages|
      invariant npm.Valid() && npm.s.phase == StagingAt(npm.m, j)
      invariant old(npm.history) <= npm.history && AllAnswered(npm.history, |old(npm.history)|)
      invariant calm ==> Calm(npm, r0, j)
    {
      var ok := StageEntry(npm, j, r0);
      if !ok {
        return Err("Staging failed. Inspect pending packages on npm");
      }
    }
    r := Ok(());
  }

  /** One run of the staging job. */
  method StagePackages(npm: Npm) returns (r: Result<(), string>)
    requires npm.Valid() && (npm.s.phase.Idle? || npm.s.phase.Completed? || npm.s.phase.Failed?)
    modifies npm
    ensures npm.Valid()
    ensures if r.Ok? then npm.s.phase.Completed? else npm.s.phase.Failed?
    ensures r.Ok? ==> forall k | 0 <= k < |npm.m.packages| :: PublishedOrStaged(npm.m, npm.s.registry, npm.m.packages[k])
    // a lookup or a stage that fails, or whose response is lost, ends the run as failed
    ensures old(npm.history) <= npm.history && (r.Ok? ==> AllAnswered(npm.history, |old(npm.history)|))
    // undisturbed, with no conflict and nothing pending, it stages exactly what is unpublished, in order
    ensures old(npm.script) == [] && NoConflict(npm.m, old(npm.s.registry)) && old(npm.s.registry.pending) == map[] ==>
              && r.Ok?
              && npm.s.registry.published == old(npm.s.registry.published)
              && npm.s.progress.effects == Unpublished(npm.m, old(npm.s.registry), |npm.m.packages|)
    // undisturbed, it stops before staging anything exactly when a published version conflicts
    ensures old(npm.script) == [] && !NoConflict(npm.m, old(npm.s.registry)) ==>
              r.Err? && npm.s.registry == old(npm.s.registry)
  {
    npm.Do(Begin);
    var existing := PreflightAll(npm);
    if existing.Err? {
      return Err(existing.error);
    }
    r := StageMissing(npm, existing.value);
  }
}
