/** `finalizeRelease`: the tag and the release on GitHub, across runs that may fail at any API call. */
module GitHubRelease {
  import opened Wrappers

  datatype GitObject = GitObject(kind: string, sha: string)

  datatype Write = TagCreated(sha: string) | ReleaseCreated(commit: string)

  /** The repository: the release's tag ref, the annotated tag objects, the release (its target commit),
      and every write that ever took effect. */
  datatype Hub = Hub(
    ref: Option<GitObject>,
    tags: map<string, GitObject>,
    release: Option<string>,
    writes: seq<Write>)

  /** `chain` leads from the first object through annotated tags to the last. */
  ghost predicate IsChain(tags: map<string, GitObject>, chain: seq<GitObject>) {
    && (forall i | 0 <= i < |chain| - 1 :: chain[i].kind == "tag" && chain[i].sha in tags)
    && (forall i, j | 0 <= i < j < |chain| && j == i + 1 :: chain[j] == tags[chain[i].sha])
  }

  /** The commit is at most five hops from the object. */
  ghost predicate LeadsTo(tags: map<string, GitObject>, start: GitObject, commit: string) {
    exists chain :: IsChain(tags, chain) && 1 <= |chain| <= 6 && chain[0] == start && chain[|chain| - 1] == GitObject("commit", commit)
  }

  /** What a run may go on from: no release without a tag, and no tag of another commit. */
  ghost predicate Acceptable(h: Hub, commit: string) {
    if h.ref.Some? then LeadsTo(h.tags, h.ref.value, commit) else h.release.None?
  }

  /** What one run, failed or not, may have made of the repository. */
  ghost predicate RunRelation(h: Hub, h': Hub, commit: string, create: bool, ok: bool) {
    && h'.tags == h.tags
    && (!create || !Acceptable(h, commit) ==> h' == h)
    // a tag that was made is of the commit, and so is a release, which has its tag
    && (h'.ref != h.ref ==> h.ref.None? && h'.ref == Some(GitObject("commit", commit)))
    && (h'.release != h.release ==>
          && h.release.None? && h'.release == Some(commit)
          && h'.ref.Some? && LeadsTo(h.tags, h'.ref.value, commit))
    // and nothing else was written
    && h'.writes == h.writes + (if h'.ref != h.ref then [TagCreated(commit)] else [])
                             + (if h'.release != h.release then [ReleaseCreated(commit)] else [])
    && (ok ==> Acceptable(h, commit))
    && (ok && create ==> h'.ref.Some? && LeadsTo(h'.tags, h'.ref.value, commit) && h'.release.Some?)
  }

  function WithTag(h: Hub, commit: string): Hub {
    if h.ref.Some? then h
    else h.(ref := Some(GitObject("commit", commit)), writes := h.writes + [TagCreated(commit)])
  }

  function WithRelease(h: Hub, commit: string): Hub {
    if h.release.Some? then h else h.(release := Some(commit), writes := h.writes + [ReleaseCreated(commit)])
  }

  // ---------------------------------------------------------------- one run

  class GitHub {
    var hub: Hub
    var faults: seq<Fault>

    constructor (hub: Hub, faults: seq<Fault>)
      ensures this.hub == hub && this.faults == faults
    {
      this.hub, this.faults := hub, faults;
    }

    /** The fate of the next API call; once the list is used up every call works. */
    method NextFault() returns (fault: Fault)
      modifies this`faults
      ensures old(faults) == [] ==> fault.NoFault? && faults == []
    {
      fault := NoFault;
      if faults != [] {
        fault, faults := faults[0], faults[1..];
      }
    }

    /** A GET of something that may be missing. */
    method Get<T>(what: T) returns (r: Result<T, string>)
      modifies this`faults
      ensures r.Ok? ==> r.value == what
      ensures old(faults) == [] ==> r.Ok? && faults == []
    {
      var fault := NextFault();
      r := if fault.NoFault? then Ok(what) else Err("GitHub GET failed");
    }

    /** Creating a ref that exists is refused. */
    method PostRef(commit: string) returns (r: Result<(), string>)
      modifies this
      ensures r.Ok? ==> old(hub.ref).None? && hub == WithTag(old(hub), commit)
      ensures hub == old(hub) || hub == WithTag(old(hub), commit)
      ensures old(faults) == [] && old(hub.ref).None? ==> r.Ok? && faults == []
    {
      var fault := NextFault();
      if fault.FailsBefore? || hub.ref.Some? {
        return Err("GitHub POST git/refs failed");
      }
      hub := WithTag(hub, commit);
      r := if fault.NoFault? then Ok(()) else Err("GitHub POST git/refs failed");
    }

    method PostRelease(commit: string) returns (r: Result<(), string>)
      modifies this
      ensures r.Ok? ==> old(hub.release).None? && hub == WithRelease(old(hub), commit)
      ensures hub == old(hub) || hub == WithRelease(old(hub), commit)
      ensures old(faults) == [] && old(hub.release).None? ==> r.Ok? && faults == []
    {
      var fault := NextFault();
      if fault.FailsBefore? || hub.release.Some? {
        return Err("GitHub POST releases failed");
      }
      hub := WithRelease(hub, commit);
      r := if fault.NoFault? then Ok(()) else Err("GitHub POST releases failed");
    }

    /** Follows annotated tags, five at most, and accepts nothing but the commit. */
    method ResolveTag(start: GitObject, commit: string) returns (r: Result<(), string>)
      modifies this`faults
      ensures r.Ok? ==> LeadsTo(hub.tags, start, commit)
      ensures old(faults) == [] ==> faults == [] && (r.Ok? <==> LeadsTo(hub.tags, start, commit))
    {
      var current := start;
      ghost var chain := [start];
      var depth := 0;
      while current.kind == "tag" && depth < 5
        invariant |chain| == depth + 1 <= 6 && IsChain(hub.tags, chain)
        invariant chain[0] == start && chain[depth] == current
        invariant old(faults) == [] ==> faults == []
        decreases 5 - depth
      {
        var next := Get(if current.sha in hub.tags then Some(hub.tags[current.sha]) else None);
        if next.Err? {
          return Err(next.error);
        }
        if next.value.None? {
          DeadEnd(hub.tags, chain, commit);
          return Err("no such tag object");
        }
        current, depth, chain := next.value.value, depth + 1, chain + [next.value.value];
      }
      if current.kind != "commit" || current.sha != commit {
        WrongEnd(hub.tags, chain, commit);
        return Err("tag already refers to a different commit");
      }
      r := Ok(());
    }

    method FinalizeRelease(commit: string, create: bool) returns (r: Result<(), string>)
      modifies this
      ensures RunRelation(old(hub), hub, commit, create, r.Ok?)
      ensures old(faults) == [] ==> (r.Ok? <==> Acceptable(old(hub), commit))
    {
      var ref := Get(hub.ref);
      if ref.Err? {
        return Err(ref.error);
      }
      if ref.value.Some? {
        var resolved := ResolveTag(ref.value.value, commit);
        if resolved.Err? {
          return resolved;
        }
      }
      var release := Get(hub.release);
      if release.Err? {
        return Err(release.error);
      }
      if release.value.Some? && ref.value.None? {
        return Err("A release exists without its expected tag");
      }
      if !create {
        return Ok(());
      }
      if ref.value.None? {
        CommitLeadsToItself(hub.tags, commit);
        var tagged := PostRef(commit);
        if tagged.Err? {
          return tagged;
        }
      }
      if release.value.None? {
        var released := PostRelease(commit);
        if released.Err? {
          return released;
        }
      }
      r := Ok(());
    }
  }

  lemma CommitLeadsToItself(tags: map<string, GitObject>, commit: string)
    ensures LeadsTo(tags, GitObject("commit", commit), commit)
  {
    var chain := [GitObject("commit", commit)];
    assert IsChain(tags, chain);
  }

  /** Two chains from one object agree as far as both go. */
  lemma {:induction false} ChainsAgree(tags: map<string, GitObject>, a: seq<GitObject>, b: seq<GitObject>, i: nat)
    requires IsChain(tags, a) && IsChain(tags, b) && i < |a| && i < |b| && a[0] == b[0]
    ensures a[i] == b[i]
  {
    if i > 0 {
      ChainsAgree(tags, a, b, i - 1);
    }
  }

  lemma DeadEnd(tags: map<string, GitObject>, chain: seq<GitObject>, commit: string)
    requires IsChain(tags, chain) && chain != []
    requires chain[|chain| - 1].kind == "tag" && chain[|chain| - 1].sha !in tags
    ensures !LeadsTo(tags, chain[0], commit)
  {
    NoOtherEnd(tags, chain, commit);
  }

  lemma WrongEnd(tags: map<string, GitObject>, chain: seq<GitObject>, commit: string)
    requires IsChain(tags, chain) && chain != []
    requires chain[|chain| - 1].kind != "tag" || |chain| == 6
    requires chain[|chain| - 1] != GitObject("commit", commit)
    ensures !LeadsTo(tags, chain[0], commit)
  {
    NoOtherEnd(tags, chain, commit);
  }

  /** A chain that cannot be extended, or may not be, is the only way onwards. */
  lemma NoOtherEnd(tags: map<string, GitObject>, chain: seq<GitObject>, commit: string)
    requires IsChain(tags, chain) && chain != []
    requires var last := chain[|chain| - 1];
             last != GitObject("commit", commit) && (last.kind != "tag" || last.sha !in tags || |chain| == 6)
    ensures !LeadsTo(tags, chain[0], commit)
  {
    if other: seq<GitObject> :|
      IsChain(tags, other) && 1 <= |other| <= 6 && other[0] == chain[0] && other[|other| - 1] == GitObject("commit", commit)
    {
      if |other| <= |chain| {
        ChainsAgree(tags, other, chain, |other| - 1);
        assert |other| < |chain| ==> chain[|other| - 1].kind == "tag";
      } else {
        ChainsAgree(tags, other, chain, |chain| - 1);
      }
    }
  }

  // ---------------------------------------------------------------- many runs

  datatype Run = Run(commit: string, create: bool, ok: bool)

  /** `hubs[k]` is the repository before run k of a sequence of sequential runs. */
  ghost predicate History(hubs: seq<Hub>, runs: seq<Run>) {
    && |hubs| == |runs| + 1
    && forall k, l | 0 <= k < l < |hubs| && l == k + 1 :: RunRelation(hubs[k], hubs[l], runs[k].commit, runs[k].create, runs[k].ok)
  }

  /** Tag and release were each written at most once, and what was written is there. */
  ghost predicate AtMostOnce(h: Hub) {
    && (forall i, j | 0 <= i < j < |h.writes| :: !(h.writes[i].TagCreated? && h.writes[j].TagCreated?))
    && (forall i, j | 0 <= i < j < |h.writes| :: !(h.writes[i].ReleaseCreated? && h.writes[j].ReleaseCreated?))
    && (forall w | w in h.writes :: if w.TagCreated? then h.ref.Some? else h.release.Some?)
  }

  lemma RunKeepsAtMostOnce(h: Hub, h': Hub, run: Run)
    requires AtMostOnce(h) && RunRelation(h, h', run.commit, run.create, run.ok)
    ensures AtMostOnce(h')
  {
    var tagged := Hub(h'.ref, h.tags, h.release, h.writes + if h'.ref != h.ref then [TagCreated(run.commit)] else []);
    WriteKeepsAtMostOnce(h, tagged, TagCreated(run.commit));
    WriteKeepsAtMostOnce(tagged, h', ReleaseCreated(run.commit));
  }

  /** One write at most, of what was not there. */
  lemma WriteKeepsAtMostOnce(h: Hub, h': Hub, w: Write)
    requires AtMostOnce(h) && (h.ref.Some? ==> h'.ref == h.ref) && (h.release.Some? ==> h'.release == h.release)
    requires h'.writes == h.writes || h'.writes == h.writes + [w]
    requires h'.writes != h.writes ==> if w.TagCreated? then h.ref.None? && h'.ref.Some? else h.release.None? && h'.release.Some?
    ensures AtMostOnce(h')
  {
    forall v | v in h'.writes ensures if v.TagCreated? then h'.ref.Some? else h'.release.Some? {
      if v !in h.writes {
        assert v == w;
      }
    }
    forall i, j | 0 <= i < j < |h'.writes| && j == |h.writes|
      ensures !(h'.writes[i].TagCreated? && h'.writes[j].TagCreated?) && !(h'.writes[i].ReleaseCreated? && h'.writes[j].ReleaseCreated?)
    {
      assert h'.writes[i] == h.writes[i] && h.writes[i] in h.writes;
    }
  }

  /** Whatever calls fail, before or after they took effect, no retry creates a second tag or release. */
  lemma {:induction false} RetriesCreateOnce(hubs: seq<Hub>, runs: seq<Run>, k: nat)
    requires History(hubs, runs) && hubs[0].writes == [] && k < |hubs|
    ensures AtMostOnce(hubs[k])
  {
    if k > 0 {
      RetriesCreateOnce(hubs, runs, k - 1);
      RunKeepsAtMostOnce(hubs[k - 1], hubs[k], runs[k - 1]);
    }
  }

  /** Tags and releases, once there, stay as they are. */
  lemma {:induction false} NothingIsReplaced(hubs: seq<Hub>, runs: seq<Run>, k: nat, l: nat)
    requires History(hubs, runs) && k <= l < |hubs|
    ensures hubs[l].tags == hubs[k].tags
    ensures hubs[k].ref.Some? ==> hubs[l].ref == hubs[k].ref
    ensures hubs[k].release.Some? ==> hubs[l].release == hubs[k].release
  {
    if k < l {
      NothingIsReplaced(hubs, runs, k, l - 1);
      assert RunRelation(hubs[l - 1], hubs[l], runs[l - 1].commit, runs[l - 1].create, runs[l - 1].ok);
    }
  }

  /** If there was none at first, a release names the very commit that the tag leads to, ever after. */
  lemma {:induction false} ReleaseIsOfTheTag(hubs: seq<Hub>, runs: seq<Run>, k: nat)
    requires History(hubs, runs) && hubs[0].release.None? && k < |hubs|
    ensures hubs[k].release.Some? ==> hubs[k].ref.Some? && LeadsTo(hubs[k].tags, hubs[k].ref.value, hubs[k].release.value)
  {
    if k > 0 {
      ReleaseIsOfTheTag(hubs, runs, k - 1);
      assert RunRelation(hubs[k - 1], hubs[k], runs[k - 1].commit, runs[k - 1].create, runs[k - 1].ok);
    }
  }

  /** After a create run that completed, every later undisturbed run for its commit is acceptable, and
      none for another commit is. */
  lemma CompletedRunDecides(hubs: seq<Hub>, runs: seq<Run>, k: nat, l: nat, other: string)
    requires History(hubs, runs) && k < l < |hubs| && runs[k].ok && runs[k].create
    ensures hubs[l].release.Some? && Acceptable(hubs[l], runs[k].commit)
    ensures Acceptable(hubs[l], other) ==> other == runs[k].commit
  {
    assert RunRelation(hubs[k], hubs[k + 1], runs[k].commit, runs[k].create, runs[k].ok);
    NothingIsReplaced(hubs, runs, k + 1, l);
    if Acceptable(hubs[l], other) {
      TagLeadsToOneCommit(hubs[l].tags, hubs[l].ref.value, runs[k].commit, other);
    }
  }

  lemma TagLeadsToOneCommit(tags: map<string, GitObject>, start: GitObject, commit: string, other: string)
    requires LeadsTo(tags, start, commit) && LeadsTo(tags, start, other)
    ensures commit == other
  {
    var a :| IsChain(tags, a) && 1 <= |a| <= 6 && a[0] == start && a[|a| - 1] == GitObject("commit", commit);
    var b :| IsChain(tags, b) && 1 <= |b| <= 6 && b[0] == start && b[|b| - 1] == GitObject("commit", other);
    var i := if |a| <= |b| then |a| - 1 else |b| - 1;
    ChainsAgree(tags, a, b, i);
  }
}
