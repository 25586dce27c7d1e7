/** What every run of the lock protocol keeps. */
module LeaseSafety {
  import opened LeaseProtocol

  /** No version is put into the store a second time. */
  predicate NeverReput(cfg: Config, s: State, es: seq<Event>)
    requires Runnable(cfg, s, es)
    decreases |es|
  {
    es == [] || (FreshPut(cfg, s, es[0]) && NeverReput(cfg, Apply(cfg, s, es[0]), es[1..]))
  }

  predicate FreshPut(cfg: Config, s: State, e: Event) {
    e.ServerCreates? ==> NewVersion(cfg, s, e.request) !in s.created
  }

  /** The lease a client took when it put version v has not run out. */
  predicate Unexpired(cfg: Config, s: State, v: Version) {
    v in s.created && !cfg.Expired(s.created[v].timestamp, s.now)
  }

  predicate HasLock(s: State, c: nat) {
    c < |s.clients| && s.clients[c].pc.Holding?
  }

  /** A client with the lock owns the record now in the store, or its lease has run out. */
  ghost predicate LeaseSafe(cfg: Config, s: State) {
    forall c: nat | HasLock(s, c) ::
      var v := s.clients[c].pc.version;
      && v in s.created
      && s.created[v].client == c
      && (s.Stores(v) || cfg.Expired(s.created[v].timestamp, s.now))
  }

  ghost predicate MutuallyExclusive(cfg: Config, s: State) {
    forall c: nat, d: nat |
      && HasLock(s, c) && Unexpired(cfg, s, s.clients[c].pc.version)
      && HasLock(s, d) && Unexpired(cfg, s, s.clients[d].pc.version) :: c == d
  }

  /** A record in the store could not be mistaken for a malformed one. */
  predicate WellFormedStore(s: State) {
    s.store.Some? ==> s.store.value.mutexHolder != "" && s.store.value.timestamp != 0
  }

  // ---------------------------------------------------------------- the invariant

  /** The record in the store is the one its version's put wrote. */
  ghost predicate StoreInv(cfg: Config, s: State) {
    && (forall v | v in s.created :: s.created[v].client < |cfg.holders|)
    && (s.store.Some? ==>
          var r := s.store.value;
          && r.versionId in s.created
          && r.timestamp == s.created[r.versionId].timestamp
          && r.mutexHolder == cfg.holders[s.created[r.versionId].client])
  }

  /** Only a running put of a client carries its current attempt. */
  ghost predicate RequestInv(s: State) {
    && (forall q | q in s.creates :: q.client < |s.clients| && q.attempt <= s.clients[q.client].attempt)
    && (forall v | v in s.created :: s.created[v] in s.creates)
    && (forall n: nat | WriteTime(n) in s.created :: n < s.nextWrite)
  }

  /** Leaving the store takes a delete, and a delete takes a release or a lease that ran out. */
  ghost predicate DeleteInv(cfg: Config, s: State) {
    && (forall v | v in s.created ::
          s.Stores(v) || v in s.released || cfg.Expired(s.created[v].timestamp, s.now))
    && (forall v | v in s.deletes ::
          v in s.created && (v in s.released || cfg.Expired(s.created[v].timestamp, s.now)))
  }

  predicate Claims(pc: Pc) {
    pc.Verifying? || pc.Verified? || pc.Holding?
  }

  /** A client that was told its version owns it. */
  ghost predicate ClaimInv(s: State) {
    forall c: nat | c < |s.clients| && Claims(s.clients[c].pc) ::
      var v := s.clients[c].pc.version;
      v !in s.released && Answers(s, c, v)
  }

  /** A released version is not claimed, and cannot be claimed again. */
  ghost predicate ReleaseInv(s: State) {
    forall v | v in s.released :: Released(s, v)
  }

  predicate Released(s: State, v: Version) {
    && v in s.created
    && s.created[v].client < |s.clients|
    && var owner := s.clients[s.created[v].client];
       s.created[v].attempt == owner.attempt ==> !Claims(owner.pc) && !owner.pc.Putting?
  }

  /** A record that a client has read and not yet judged was once put with that timestamp. */
  ghost predicate ReadInv(s: State) {
    forall c: nat | c < |s.clients| && s.clients[c].pc.Checked? && s.clients[c].pc.read.Some? ::
      var r := s.clients[c].pc.read.value;
      r.versionId in s.created && s.created[r.versionId].timestamp == r.timestamp
  }

  ghost predicate Inv(cfg: Config, s: State) {
    && |s.clients| == |cfg.holders|
    && StoreInv(cfg, s)
    && RequestInv(s)
    && DeleteInv(cfg, s)
    && ClaimInv(s)
    && ReleaseInv(s)
    && ReadInv(s)
  }

  lemma CreateKeepsInv(cfg: Config, s: State, request: Create)
    requires Inv(cfg, s) && Enabled(cfg, s, ServerCreates(request)) && FreshPut(cfg, s, ServerCreates(request))
    ensures Inv(cfg, Apply(cfg, s, ServerCreates(request)))
  {
  }

  lemma DeleteKeepsInv(cfg: Config, s: State, v: Version)
    requires Inv(cfg, s) && Enabled(cfg, s, ServerDeletes(v))
    ensures Inv(cfg, Apply(cfg, s, ServerDeletes(v)))
  {
  }

  lemma ClientKeepsStore(cfg: Config, s: State, c: nat, action: Action)
    requires Inv(cfg, s) && Enabled(cfg, s, Step(c, action))
    ensures var t := ApplyStep(cfg, s, c, action); |t.clients| == |cfg.holders| && StoreInv(cfg, t)
  {
  }

  lemma ClientKeepsRequests(cfg: Config, s: State, c: nat, action: Action)
    requires Inv(cfg, s) && Enabled(cfg, s, Step(c, action))
    ensures RequestInv(ApplyStep(cfg, s, c, action))
  {
  }

  lemma ClientKeepsDeletes(cfg: Config, s: State, c: nat, action: Action)
    requires Inv(cfg, s) && Enabled(cfg, s, Step(c, action))
    ensures DeleteInv(cfg, ApplyStep(cfg, s, c, action))
  {
  }

  lemma ClientKeepsReads(cfg: Config, s: State, c: nat, action: Action)
    requires Inv(cfg, s) && Enabled(cfg, s, Step(c, action))
    ensures ReadInv(ApplyStep(cfg, s, c, action))
  {
  }

  lemma ClientKeepsClaims(cfg: Config, s: State, c: nat, action: Action)
    requires Inv(cfg, s) && Enabled(cfg, s, Step(c, action))
    ensures ClaimInv(ApplyStep(cfg, s, c, action))
  {
    var t := ApplyStep(cfg, s, c, action);
    forall d: nat | d < |t.clients| && Claims(t.clients[d].pc)
      ensures var v := t.clients[d].pc.version; v !in t.released && Answers(t, d, v)
    {
      if d != c {
        OthersKeepClaims(cfg, s, c, action, d);
      }
    }
  }

  lemma OthersKeepClaims(cfg: Config, s: State, c: nat, action: Action, d: nat)
    requires Inv(cfg, s) && Enabled(cfg, s, Step(c, action))
    requires d != c && d < |s.clients| && Claims(s.clients[d].pc)
    ensures var t, v := ApplyStep(cfg, s, c, action), s.clients[d].pc.version;
            t.clients[d] == s.clients[d] && v !in t.released && Answers(t, d, v)
  {
    var v := s.clients[d].pc.version;
    assert v !in s.released && Answers(s, d, v);
    if action.StartUnlock? {
      assert Claims(s.clients[c].pc) && Answers(s, c, s.clients[c].pc.version);
    }
  }

  lemma ClientKeepsReleases(cfg: Config, s: State, c: nat, action: Action)
    requires Inv(cfg, s) && Enabled(cfg, s, Step(c, action))
    ensures ReleaseInv(ApplyStep(cfg, s, c, action))
  {
    var t := ApplyStep(cfg, s, c, action);
    forall v | v in t.released ensures Released(t, v) {
      if v in s.released {
        ReleasedStays(cfg, s, c, action, v);
      } else {
        assert action.StartUnlock? && v == s.clients[c].pc.version && Answers(s, c, v);
      }
    }
  }

  lemma ReleasedStays(cfg: Config, s: State, c: nat, action: Action, v: Version)
    requires Inv(cfg, s) && Enabled(cfg, s, Step(c, action)) && v in s.released
    ensures Released(ApplyStep(cfg, s, c, action), v)
  {
    assert Released(s, v);
  }

  lemma StepKeepsInv(cfg: Config, s: State, e: Event)
    requires Inv(cfg, s) && Enabled(cfg, s, e) && FreshPut(cfg, s, e)
    ensures Inv(cfg, Apply(cfg, s, e))
  {
    match e
    case Step(c, action) =>
      ClientKeepsStore(cfg, s, c, action);
      ClientKeepsRequests(cfg, s, c, action);
      ClientKeepsDeletes(cfg, s, c, action);
      ClientKeepsReads(cfg, s, c, action);
      ClientKeepsClaims(cfg, s, c, action);
      ClientKeepsReleases(cfg, s, c, action);
    case ServerCreates(request) =>
      CreateKeepsInv(cfg, s, request);
    case ServerDeletes(v) =>
      DeleteKeepsInv(cfg, s, v);
    case Tick(_) =>
  }

  lemma {:induction false} RunKeepsInv(cfg: Config, s: State, es: seq<Event>)
    requires Inv(cfg, s) && Runnable(cfg, s, es) && NeverReput(cfg, s, es)
    ensures Inv(cfg, Exec(cfg, s, es))
    decreases |es|
  {
    if es != [] {
      StepKeepsInv(cfg, s, es[0]);
      RunKeepsInv(cfg, Apply(cfg, s, es[0]), es[1..]);
    }
  }

  lemma InitInv(cfg: Config, now: Time)
    ensures Inv(cfg, Init(cfg, now))
  {
  }

  // ---------------------------------------------------------------- the theorems

  lemma InvIsSafe(cfg: Config, s: State)
    requires Inv(cfg, s)
    ensures LeaseSafe(cfg, s) && MutuallyExclusive(cfg, s)
  {
  }

  /** Safety of every run in which no version is put twice, whatever calls fail, are late or repeat. */
  lemma EveryRunIsSafe(cfg: Config, now: Time, es: seq<Event>)
    requires Runnable(cfg, Init(cfg, now), es) && NeverReput(cfg, Init(cfg, now), es)
    ensures LeaseSafe(cfg, Exec(cfg, Init(cfg, now), es))
    ensures MutuallyExclusive(cfg, Exec(cfg, Init(cfg, now), es))
  {
    InitInv(cfg, now);
    RunKeepsInv(cfg, Init(cfg, now), es);
    InvIsSafe(cfg, Exec(cfg, Init(cfg, now), es));
  }

  /** Every delete that takes effect removes a record that was released or whose lease ran out. */
  lemma DeletesOnlyDeadRecords(cfg: Config, now: Time, es: seq<Event>, v: Version)
    requires Runnable(cfg, Init(cfg, now), es) && NeverReput(cfg, Init(cfg, now), es)
    requires Enabled(cfg, Exec(cfg, Init(cfg, now), es), ServerDeletes(v))
    ensures var s := Exec(cfg, Init(cfg, now), es);
            && (v in s.released || cfg.Expired(s.store.value.timestamp, s.now))
            && (forall c: nat | HasLock(s, c) && Unexpired(cfg, s, s.clients[c].pc.version) :: s.clients[c].pc.version != v)
  {
    InitInv(cfg, now);
    RunKeepsInv(cfg, Init(cfg, now), es);
  }

  /** With a fresh version per create the hypothesis of `EveryRunIsSafe` holds of every run. */
  lemma {:induction false} FreshVersionsNeverReput(cfg: Config, s: State, es: seq<Event>)
    requires cfg.versioning.FreshPerCreate?
    requires Inv(cfg, s) && Runnable(cfg, s, es)
    ensures NeverReput(cfg, s, es)
    decreases |es|
  {
    if es != [] {
      StepKeepsInv(cfg, s, es[0]);
      FreshVersionsNeverReput(cfg, Apply(cfg, s, es[0]), es[1..]);
    }
  }

  /** The database applied at most one put of each instance. */
  ghost predicate OnePutPerInstance(es: seq<Event>) {
    forall i, j | 0 <= i < j < |es| && es[i].ServerCreates? && es[j].ServerCreates? ::
      es[i].request.client != es[j].request.client
  }

  /** With one version per instance the hypothesis says that no instance's put succeeds twice. */
  lemma FixedVersionsNeverReputExactly(cfg: Config, now: Time, es: seq<Event>)
    requires cfg.versioning.FixedPerInstance? && Runnable(cfg, Init(cfg, now), es)
    ensures NeverReput(cfg, Init(cfg, now), es) <==> OnePutPerInstance(es)
  {
    NeverReputFrom(cfg, Init(cfg, now), es);
  }

  lemma {:induction false} NeverReputFrom(cfg: Config, s: State, es: seq<Event>)
    requires cfg.versioning.FixedPerInstance? && Runnable(cfg, s, es)
    ensures NeverReput(cfg, s, es) <==>
              && OnePutPerInstance(es)
              && forall i | 0 <= i < |es| && es[i].ServerCreates? :: InstanceId(es[i].request.client) !in s.created
    decreases |es|
  {
    if es != [] {
      var e, rest, t := es[0], es[1..], Apply(cfg, s, es[0]);
      NeverReputFrom(cfg, t, rest);
      assert forall i | 0 < i < |es| :: es[i] == rest[i - 1];
      assert forall i | 0 <= i < |rest| :: rest[i] == es[i + 1];
    }
  }

  /** The protocol never writes a record that its own sanity check would remove. */
  lemma {:induction false} RecordsStayWellFormed(cfg: Config, s: State, es: seq<Event>)
    requires forall c | 0 <= c < |cfg.holders| :: cfg.holders[c] != ""
    requires s.now > 0 && WellFormedStore(s) && forall q | q in s.creates :: q.timestamp > 0
    requires Runnable(cfg, s, es)
    ensures WellFormedStore(Exec(cfg, s, es))
    decreases |es|
  {
    if es != [] {
      RecordsStayWellFormed(cfg, Apply(cfg, s, es[0]), es[1..]);
    }
  }
}
