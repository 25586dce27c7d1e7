/** `verifyPublishedPackages`: what the finalising job asks of the registry, and when it gets it. */
module ReleaseVerification {
  import opened Wrappers
  import opened ReleaseStaging

  /** Every package is published with the manifest's bytes and source. */
  ghost predicate AllPublished(m: Manifest, r: Registry) {
    forall k | 0 <= k < |m.packages| :: PublishedIdentically(m, r, m.packages[k])
  }

  ghost predicate AllPublishedOrStaged(m: Manifest, r: Registry) {
    forall k | 0 <= k < |m.packages| :: PublishedOrStaged(m, r, m.packages[k])
  }

  /** `failing` holds the names whose lookup fails. Passes exactly when every lookup works and finds the
      manifest's bytes and source; otherwise names the first package that does not pass. */
  method VerifyPublishedPackages(m: Manifest, r: Registry, failing: set<string>) returns (bad: Option<string>)
    ensures bad.None? <==> AllPublished(m, r) && forall k | 0 <= k < |m.packages| :: m.packages[k].name !in failing
    ensures bad.Some? ==>
      exists k :: 0 <= k < |m.packages| && m.packages[k].name == bad.value
                  && (bad.value in failing || !PublishedIdentically(m, r, m.packages[k]))
                  && forall l | 0 <= l < k :: m.packages[l].name !in failing && PublishedIdentically(m, r, m.packages[l])
  {
    for i := 0 to |m.packages|
      invariant forall k | 0 <= k < i :: m.packages[k].name !in failing && PublishedIdentically(m, r, m.packages[k])
    {
      var entry := m.packages[i];
      if entry.name in failing || entry.name !in r.published || !Identical(m, entry, r.published[entry.name]) {
        return Some(entry.name);
      }
    }
    bad := None;
  }

  /** What is published with, or staged with, the manifest's bytes stays so, whatever runs and approvals follow. */
  lemma {:induction false} CoverageLasts(m: Manifest, s: System, es: seq<Event>)
    requires DistinctNames(m) && Inv(m, s) && AllPublishedOrStaged(m, s.registry) && Runnable(m, s, es)
    ensures AllPublishedOrStaged(m, Exec(m, s, es).registry)
    decreases |es|
  {
    if es != [] {
      StepKeepsInv(m, s, es[0]);
      StepKeepsCoverage(m, s, es[0]);
      CoverageLasts(m, Apply(m, s, es[0]), es[1..]);
    }
  }

  lemma StepKeepsCoverage(m: Manifest, s: System, e: Event)
    requires DistinctNames(m) && Inv(m, s) && AllPublishedOrStaged(m, s.registry) && Enabled(m, s, e)
    ensures AllPublishedOrStaged(m, Apply(m, s, e).registry)
  {
    var r := Apply(m, s, e).registry;
    forall k | 0 <= k < |m.packages| ensures PublishedOrStaged(m, r, m.packages[k]) {
      assert PublishedOrStaged(m, s.registry, m.packages[k]);
    }
  }

  /** After a run that completed, the verification passes as soon as nothing of the release is pending,
      whatever else has happened on the way there. */
  lemma ApprovalsCompleteTheRelease(m: Manifest, published: map<string, Remote>, es: seq<Event>, later: seq<Event>)
    requires DistinctNames(m) && Runnable(m, Init(published), es) && Exec(m, Init(published), es).phase.Completed?
    requires Runnable(m, Exec(m, Init(published), es), later)
    requires var r := Exec(m, Exec(m, Init(published), es), later).registry;
             forall k | 0 <= k < |m.packages| :: m.packages[k].name !in r.pending
    ensures AllPublished(m, Exec(m, Exec(m, Init(published), es), later).registry)
  {
    RunKeepsInv(m, Init(published), es);
    CompletedRunCoversEverything(m, published, es);
    CoverageLasts(m, Exec(m, Init(published), es), later);
    var r := Exec(m, Exec(m, Init(published), es), later).registry;
    forall k | 0 <= k < |m.packages| ensures PublishedIdentically(m, r, m.packages[k]) {
      assert PublishedOrStaged(m, r, m.packages[k]);
    }
  }
}
