/**
 When mutual exclusion can be lost. DynamoDB keeps one version per instance, so a delete that was
 aimed at an instance's old record also matches the record the same instance puts later.
*/
module LeaseReuse {
  import opened Wrappers
  import opened LeaseProtocol
  import opened LeaseSafety

  /** No run whatsoever gives two clients an unexpired lock. */
  ghost predicate AlwaysExclusive(cfg: Config) {
    forall now: Time, es: seq<Event> | Runnable(cfg, Init(cfg, now), es) ::
      MutuallyExclusive(cfg, Exec(cfg, Init(cfg, now), es))
  }

  /** The exact condition: fresh versions, no second instance, or leases that are never in force. */
  lemma MutualExclusionExactly(cfg: Config)
    ensures AlwaysExclusive(cfg) <==> cfg.versioning.FreshPerCreate? || |cfg.holders| <= 1 || cfg.lockTimeout < 0
  {
    if cfg.versioning.FixedPerInstance? && |cfg.holders| > 1 && cfg.lockTimeout >= 0 {
      var es := TwoHolders(cfg, 0);
      assert Runnable(cfg, Init(cfg, 0), es);
    } else {
      forall now: Time, es: seq<Event> | Runnable(cfg, Init(cfg, now), es)
        ensures MutuallyExclusive(cfg, Exec(cfg, Init(cfg, now), es))
      {
        if cfg.versioning.FreshPerCreate? {
          InitInv(cfg, now);
          FreshVersionsNeverReput(cfg, Init(cfg, now), es);
          EveryRunIsSafe(cfg, now, es);
        } else {
          TimestampsArePast(cfg, Init(cfg, now), es);
        }
      }
    }
  }

  lemma {:induction false} TimestampsArePast(cfg: Config, s: State, es: seq<Event>)
    requires Runnable(cfg, s, es)
    requires forall q | q in s.creates :: q.timestamp <= s.now
    requires forall v | v in s.created :: s.created[v] in s.creates
    ensures var t := Exec(cfg, s, es);
            |t.clients| == |s.clients| && forall v | v in t.created :: t.created[v].timestamp <= t.now
    decreases |es|
  {
    if es != [] {
      TimestampsArePast(cfg, Apply(cfg, s, es[0]), es[1..]);
    }
  }

  // ---------------------------------------------------------------- the failing run

  /** The instances that call `lock`, `tryLock` or `unlock`, in order. */
  function Calls(es: seq<Event>): seq<nat> {
    if es == [] then [] else Calls(es[..|es| - 1]) + CallsIn(es[|es| - 1])
  }

  function CallsIn(e: Event): seq<nat> {
    if e.Step? && (e.action.StartLock? || e.action.StartUnlock?) then [e.client] else []
  }

  /** The events lead from the start to s, with these calls. */
  ghost predicate Leads(cfg: Config, now: Time, es: seq<Event>, calls: seq<nat>, s: State) {
    Runnable(cfg, Init(cfg, now), es) && Exec(cfg, Init(cfg, now), es) == s && Calls(es) == calls
  }

  lemma Start(cfg: Config, now: Time) returns (es: seq<Event>, s: State)
    ensures Leads(cfg, now, es, [], s) && s == Init(cfg, now)
  {
    es, s := [], Init(cfg, now);
  }

  /** One event more. */
  lemma Then(cfg: Config, now: Time, es: seq<Event>, calls: seq<nat>, s: State, e: Event) returns (longer: seq<Event>, t: State)
    requires Leads(cfg, now, es, calls, s) && Enabled(cfg, s, e)
    ensures t == Apply(cfg, s, e) && Leads(cfg, now, longer, calls + CallsIn(e), t)
  {
    ExecStep(cfg, Init(cfg, now), es, e);
    longer, t := es + [e], Apply(cfg, s, e);
    assert longer[..|es|] == es;
  }

  /** An event that is no call. */
  lemma ThenQuietly(cfg: Config, now: Time, es: seq<Event>, calls: seq<nat>, s: State, e: Event) returns (longer: seq<Event>, t: State)
    requires Leads(cfg, now, es, calls, s) && Enabled(cfg, s, e) && CallsIn(e) == []
    ensures t == Apply(cfg, s, e) && Leads(cfg, now, longer, calls, t)
  {
    longer, t := Then(cfg, now, es, calls, s, e);
    assert calls + [] == calls;
  }

  /** The state after client c has put its record, verified it and taken the lock. */
  function Acquired(cfg: Config, s: State, c: nat): State
    requires c < |s.clients| && c < |cfg.holders|
  {
    var put := Create(c, s.clients[c].attempt + 1, s.now);
    s.(clients := s.clients[c := Client(Holding(InstanceId(c)), Lock, s.clients[c].attempt + 1)],
       store := Some(LockData(cfg.holders[c], s.now, InstanceId(c))),
       nextWrite := s.nextWrite + 1,
       creates := s.creates + {put},
       created := s.created[InstanceId(c) := put])
  }

  /** With nothing in the store and no failure, a client that has issued its create has the lock in four steps more. */
  lemma AcquireIssued(cfg: Config, now: Time, es: seq<Event>, calls: seq<nat>, s: State, c: nat) returns (longer: seq<Event>, t: State)
    requires cfg.versioning.FixedPerInstance? && c < |s.clients| && c < |cfg.holders| && s.store.None?
    requires Leads(cfg, now, es, calls, s.IssueCreate(c, Lock))
    ensures t == Acquired(cfg, s, c) && Leads(cfg, now, longer, calls, t)
  {
    t := s.IssueCreate(c, Lock);
    longer, t := ThenQuietly(cfg, now, es, calls, t, ServerCreates(Create(c, s.clients[c].attempt + 1, s.now)));
    longer, t := ThenQuietly(cfg, now, longer, calls, t, Step(c, PutAcknowledged(InstanceId(c))));
    longer, t := ThenQuietly(cfg, now, longer, calls, t, Step(c, VerifyRead));
    longer, t := ThenQuietly(cfg, now, longer, calls, t, Step(c, VerifyDecide));
    assert t.clients == Acquired(cfg, s, c).clients;
  }

  /** By calling `lock`. */
  lemma Acquire(cfg: Config, now: Time, es: seq<Event>, calls: seq<nat>, s: State, c: nat) returns (longer: seq<Event>, t: State)
    requires cfg.versioning.FixedPerInstance? && c < |s.clients| && c < |cfg.holders| && s.store.None?
    requires Leads(cfg, now, es, calls, s) && s.clients[c].pc.Idle?
    ensures t == Acquired(cfg, s, c) && Leads(cfg, now, longer, calls + [c], t)
  {
    longer, t := Then(cfg, now, es, calls, s, Step(c, StartLock(Lock)));
    longer, t := AcquireIssued(cfg, now, longer, calls + [c], s, c);
  }

  /** After the sleep of a `lock` that is going on. */
  lemma Reacquire(cfg: Config, now: Time, es: seq<Event>, calls: seq<nat>, s: State, c: nat) returns (longer: seq<Event>, t: State)
    requires cfg.versioning.FixedPerInstance? && c < |s.clients| && c < |cfg.holders| && s.store.None?
    requires Leads(cfg, now, es, calls, s) && s.clients[c].pc.Sleeping? && s.clients[c].call.Lock?
    ensures t == Acquired(cfg, s, c) && Leads(cfg, now, longer, calls, t)
  {
    longer, t := ThenQuietly(cfg, now, es, calls, s, Step(c, Wake));
    longer, t := AcquireIssued(cfg, now, longer, calls, s, c);
  }

  /** The state after client c has called `lock`, failed to put, read the stale record and asked for its removal. */
  function Judged(s: State, c: nat): State
    requires c < |s.clients| && s.store.Some?
  {
    var put := Create(c, s.clients[c].attempt + 1, s.now);
    s.(clients := s.clients[c := Client(Deleting, Lock, s.clients[c].attempt + 1)],
       creates := s.creates + {put},
       deletes := s.deletes + {s.store.value.versionId})
  }

  lemma Judge(cfg: Config, now: Time, es: seq<Event>, calls: seq<nat>, s: State, c: nat) returns (longer: seq<Event>, t: State)
    requires c < |s.clients| && c < |cfg.holders| && s.store.Some? && cfg.Expired(s.store.value.timestamp, s.now)
    requires Leads(cfg, now, es, calls, s) && s.clients[c].pc.Idle?
    ensures t == Judged(s, c) && Leads(cfg, now, longer, calls + [c], t)
  {
    longer, t := Then(cfg, now, es, calls, s, Step(c, StartLock(Lock)));
    longer, t := ThenQuietly(cfg, now, longer, calls + [c], t, Step(c, PutFailed));
    longer, t := ThenQuietly(cfg, now, longer, calls + [c], t, Step(c, CheckRead));
    longer, t := ThenQuietly(cfg, now, longer, calls + [c], t, Step(c, CheckDecide));
    assert t.clients == Judged(s, c).clients;
  }

  /** Client 0 holds the lock with a new record under its version, and client 1 has asked for the removal of
      an old one under the same version. */
  ghost predicate Doomed(cfg: Config, s: State) {
    && |s.clients| == |cfg.holders| && |cfg.holders| > 1
    && s.clients[0].pc == Holding(InstanceId(0)) && s.Stores(InstanceId(0))
    && InstanceId(0) in s.created && s.created[InstanceId(0)].timestamp == s.now
    && s.clients[1].pc.Deleting? && s.clients[1].call.Lock? && InstanceId(0) in s.deletes
  }

  /** Then that delete takes the lock away from client 0, which keeps believing in it, and client 1 takes it too. */
  lemma BothHold(cfg: Config, now: Time, es: seq<Event>, calls: seq<nat>, s: State) returns (longer: seq<Event>, t: State)
    requires cfg.versioning.FixedPerInstance? && cfg.lockTimeout >= 0
    requires Leads(cfg, now, es, calls, s) && Doomed(cfg, s)
    ensures Leads(cfg, now, longer, calls, t) && !MutuallyExclusive(cfg, t)
  {
    longer, t := ThenQuietly(cfg, now, es, calls, s, ServerDeletes(InstanceId(0)));
    longer, t := ThenQuietly(cfg, now, longer, calls, t, Step(1, DeleteReplied));
    longer, t := Reacquire(cfg, now, longer, calls, t, 1);
    assert HasLock(t, 0) && Unexpired(cfg, t, InstanceId(0));
    assert HasLock(t, 1) && Unexpired(cfg, t, InstanceId(1));
  }

  /** Client 0 lets its lease run out, and client 1 decides to remove the stale record. */
  lemma GoneStale(cfg: Config, now: Time) returns (es: seq<Event>, s: State)
    requires cfg.versioning.FixedPerInstance? && |cfg.holders| > 1 && cfg.lockTimeout >= 0
    ensures Leads(cfg, now, es, [0, 1], s) && |s.clients| == |cfg.holders|
    ensures s.clients[0].pc == Holding(InstanceId(0)) && s.Stores(InstanceId(0))
    ensures s.clients[1].pc.Deleting? && s.clients[1].call.Lock? && InstanceId(0) in s.deletes
  {
    es, s := Start(cfg, now);
    es, s := Acquire(cfg, now, es, [], s, 0);
    es, s := ThenQuietly(cfg, now, es, [0], s, Tick(cfg.lockTimeout + 1));
    es, s := Judge(cfg, now, es, [0], s, 1);
  }

  /** Before that delete arrives client 0 unlocks, and locks again under its old version. */
  lemma Relocked(cfg: Config, now: Time) returns (es: seq<Event>, s: State)
    requires cfg.versioning.FixedPerInstance? && |cfg.holders| > 1 && cfg.lockTimeout >= 0
    ensures Leads(cfg, now, es, [0, 1, 0, 0], s) && Doomed(cfg, s)
  {
    es, s := GoneStale(cfg, now);
    es, s := Then(cfg, now, es, [0, 1], s, Step(0, StartUnlock));
    es, s := ThenQuietly(cfg, now, es, [0, 1, 0], s, ServerDeletes(InstanceId(0)));
    es, s := ThenQuietly(cfg, now, es, [0, 1, 0], s, Step(0, UnlockReplied));
    es, s := Acquire(cfg, now, es, [0, 1, 0], s, 0);
  }

  /** A concrete run, with no failed call at all, after which both clients hold an unexpired lock. */
  lemma TwoHolders(cfg: Config, now: Time) returns (es: seq<Event>)
    requires cfg.versioning.FixedPerInstance? && |cfg.holders| > 1 && cfg.lockTimeout >= 0
    ensures Runnable(cfg, Init(cfg, now), es)
    ensures !MutuallyExclusive(cfg, Exec(cfg, Init(cfg, now), es))
  {
    var s;
    es, s := Relocked(cfg, now);
    es, s := BothHold(cfg, now, es, [0, 1, 0, 0], s);
  }

  // ---------------------------------------------------------------- instances that are used once

  /** Every instance is called at most once, so none locks again, or unlocks. */
  ghost predicate CalledOnce(es: seq<Event>) {
    forall i, j | 0 <= i < j < |Calls(es)| :: Calls(es)[i] != Calls(es)[j]
  }

  /** No run of instances that are called at most once gives two clients an unexpired lock. */
  ghost predicate ExclusiveIfCalledOnce(cfg: Config) {
    forall now: Time, es: seq<Event> | Runnable(cfg, Init(cfg, now), es) && CalledOnce(es) ::
      MutuallyExclusive(cfg, Exec(cfg, Init(cfg, now), es))
  }

  /** Calling every instance only once does not help: the exact condition stays the same. */
  lemma CalledOnceExclusionExactly(cfg: Config)
    ensures ExclusiveIfCalledOnce(cfg) <==> cfg.versioning.FreshPerCreate? || |cfg.holders| <= 1 || cfg.lockTimeout < 0
  {
    MutualExclusionExactly(cfg);
    if cfg.versioning.FixedPerInstance? && |cfg.holders| > 1 && cfg.lockTimeout >= 0 {
      var es := TwoHoldersCalledOnce(cfg, 0);
      assert Runnable(cfg, Init(cfg, 0), es) && CalledOnce(es);
    }
  }

  /** Client 0 has put its record but is told that it failed. */
  lemma PutUnknowingly(cfg: Config, now: Time) returns (es: seq<Event>, s: State)
    requires cfg.versioning.FixedPerInstance? && |cfg.holders| > 1
    ensures Leads(cfg, now, es, [0], s) && |s.clients| == |cfg.holders| && s.now == now
    ensures s.clients[0].pc.Checking? && s.clients[0].call.Lock? && s.clients[1].pc.Idle?
    ensures s.Stores(InstanceId(0)) && s.store.value.timestamp == now
  {
    es, s := Start(cfg, now);
    es, s := Then(cfg, now, es, [], s, Step(0, StartLock(Lock)));
    es, s := ThenQuietly(cfg, now, es, [0], s, ServerCreates(Create(0, 1, now)));
    es, s := ThenQuietly(cfg, now, es, [0], s, Step(0, PutFailed));
  }

  /** It reads the record when its own lease has run out, and decides to remove it. */
  lemma OwnRecordGoesStale(cfg: Config, now: Time) returns (es: seq<Event>, s: State)
    requires cfg.versioning.FixedPerInstance? && |cfg.holders| > 1 && cfg.lockTimeout >= 0
    ensures Leads(cfg, now, es, [0], s) && |s.clients| == |cfg.holders|
    ensures s.clients[0].pc.Deleting? && s.clients[0].call.Lock? && s.clients[1].pc.Idle?
    ensures s.Stores(InstanceId(0)) && cfg.Expired(s.store.value.timestamp, s.now)
  {
    es, s := PutUnknowingly(cfg, now);
    es, s := ThenQuietly(cfg, now, es, [0], s, Tick(cfg.lockTimeout + 1));
    es, s := ThenQuietly(cfg, now, es, [0], s, Step(0, CheckRead));
    es, s := ThenQuietly(cfg, now, es, [0], s, Step(0, CheckDecide));
  }

  /** Client 1 decides so as well. Client 0's delete comes first, and it puts its record again. */
  lemma PutAgain(cfg: Config, now: Time) returns (es: seq<Event>, s: State)
    requires cfg.versioning.FixedPerInstance? && |cfg.holders| > 1 && cfg.lockTimeout >= 0
    ensures Leads(cfg, now, es, [0, 1], s) && Doomed(cfg, s)
  {
    es, s := OwnRecordGoesStale(cfg, now);
    es, s := Judge(cfg, now, es, [0], s, 1);
    es, s := ThenQuietly(cfg, now, es, [0, 1], s, ServerDeletes(InstanceId(0)));
    es, s := ThenQuietly(cfg, now, es, [0, 1], s, Step(0, DeleteReplied));
    es, s := Reacquire(cfg, now, es, [0, 1], s, 0);
  }

  /** A concrete run in which two instances call `lock` once each and a single reply is lost, after which
      both hold an unexpired lock: the delete of client 1 removes the second record of client 0. */
  lemma TwoHoldersCalledOnce(cfg: Config, now: Time) returns (es: seq<Event>)
    requires cfg.versioning.FixedPerInstance? && |cfg.holders| > 1 && cfg.lockTimeout >= 0
    ensures Runnable(cfg, Init(cfg, now), es) && CalledOnce(es)
    ensures !MutuallyExclusive(cfg, Exec(cfg, Init(cfg, now), es))
  {
    var s;
    es, s := PutAgain(cfg, now);
    es, s := BothHold(cfg, now, es, [0, 1], s);
    assert Calls(es) == [0, 1];
  }
}
