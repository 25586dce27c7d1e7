/** What a client has seen when it takes the lock: every lock rests on a read of the client's own record. */
module LeaseVerification {
  import opened Wrappers
  import opened LeaseProtocol
  import opened LeaseSafety

  predicate ActsIn(e: Event, c: nat) {
    e.Step? && e.client == c
  }

  /** From some position on, client c takes no step. */
  ghost predicate QuietFrom(es: seq<Event>, c: nat, k: nat) {
    forall i | k <= i < |es| :: !ActsIn(es[i], c)
  }

  /** The record has the holder's name and the version. */
  predicate RecordOf(read: Option<LockData>, holder: string, v: Version) {
    match read
    case None => false
    case Some(LockData(mutexHolder, _, versionId)) => mutexHolder == holder && versionId == v
  }

  /** What the run that begins in s has in the store when its event k comes. */
  ghost predicate ReadsAt(cfg: Config, s: State, es: seq<Event>, c: nat, v: Version, k: nat, read: Option<LockData>)
    requires c < |s.clients|
  {
    && k < |es| && es[k] == Step(c, VerifyRead) && Runnable(cfg, s, es[..k])
    && var t := Exec(cfg, s, es[..k]);
       c < |t.clients| && t.clients[c].pc == Verifying(v) && t.store == read
  }

  /** Client c reads the record in event k, decides in event l, and takes no other step after the read. */
  ghost predicate DecidesAt(cfg: Config, s: State, es: seq<Event>, c: nat, v: Version, k: nat, l: nat, read: Option<LockData>)
    requires c < |s.clients|
  {
    && ReadsAt(cfg, s, es, c, v, k, read)
    && k < l < |es| && es[l] == Step(c, VerifyDecide)
    && forall i | k < i < |es| && i != l :: !ActsIn(es[i], c)
  }

  /** The lock on version v was taken in the run that begins in s: what was read then, in the last step but one
      of client c, is the record of its holder with that very version. */
  ghost predicate TakenIn(cfg: Config, s: State, es: seq<Event>, c: nat, v: Version)
    requires c < |s.clients| && c < |cfg.holders|
  {
    exists k: nat, l: nat, read :: DecidesAt(cfg, s, es, c, v, k, l, read) && RecordOf(read, cfg.holders[c], v)
  }

  /** What a client knows about the last read it has made for its put. */
  ghost predicate Knows(cfg: Config, s: State, es: seq<Event>, c: nat, pc: Pc)
    requires c < |s.clients| && c < |cfg.holders|
  {
    match pc
    case Verified(v, read) => exists k: nat :: ReadsAt(cfg, s, es, c, v, k, read) && QuietFrom(es, c, k + 1)
    case Holding(v) => TakenIn(cfg, s, es, c, v)
    case _ => true
  }

  lemma {:induction false} PrefixRuns(cfg: Config, s: State, es: seq<Event>, n: nat)
    requires Runnable(cfg, s, es) && n <= |es|
    ensures Runnable(cfg, s, es[..n]) && Runnable(cfg, Exec(cfg, s, es[..n]), es[n..])
    ensures Exec(cfg, s, es) == Exec(cfg, Exec(cfg, s, es[..n]), es[n..])
    decreases n
  {
    if n == 0 {
      assert es[..0] == [] && es[0..] == es;
    } else {
      PrefixRuns(cfg, Apply(cfg, s, es[0]), es[1..], n - 1);
      assert es[..n][1..] == es[1..][..n - 1] && es[1..][n - 1..] == es[n..];
    }
  }

  lemma LastStep(cfg: Config, s: State, es: seq<Event>)
    requires Runnable(cfg, s, es) && es != []
    ensures var n := |es| - 1;
            && Runnable(cfg, s, es[..n]) && Enabled(cfg, Exec(cfg, s, es[..n]), es[n])
            && Exec(cfg, s, es) == Apply(cfg, Exec(cfg, s, es[..n]), es[n])
  {
    var n := |es| - 1;
    PrefixRuns(cfg, s, es, n);
    assert es[n..] == [es[n]] && [es[n]][1..] == [];
  }

  /** Events after it do not change what was read. */
  lemma ReadsStillAt(cfg: Config, s: State, es: seq<Event>, e: Event, c: nat, v: Version, k: nat, read: Option<LockData>)
    requires c < |s.clients| && ReadsAt(cfg, s, es, c, v, k, read)
    ensures ReadsAt(cfg, s, es + [e], c, v, k, read)
  {
    assert (es + [e])[..k] == es[..k];
  }

  lemma OthersStep(cfg: Config, s: State, es: seq<Event>, e: Event, c: nat, pc: Pc)
    requires c < |s.clients| && c < |cfg.holders| && Knows(cfg, s, es, c, pc) && !ActsIn(e, c)
    ensures Knows(cfg, s, es + [e], c, pc)
  {
    match pc
    case Verified(v, read) =>
      var k: nat :| ReadsAt(cfg, s, es, c, v, k, read) && QuietFrom(es, c, k + 1);
      ReadsStillAt(cfg, s, es, e, c, v, k, read);
      assert QuietFrom(es + [e], c, k + 1);
    case Holding(v) =>
      var k: nat, l: nat, read :| DecidesAt(cfg, s, es, c, v, k, l, read) && RecordOf(read, cfg.holders[c], v);
      ReadsStillAt(cfg, s, es, e, c, v, k, read);
      assert DecidesAt(cfg, s, es + [e], c, v, k, l, read);
    case _ =>
  }

  lemma ReadStep(cfg: Config, s: State, es: seq<Event>, t: State, c: nat)
    requires c < |s.clients| && c < |cfg.holders| && Runnable(cfg, s, es) && t == Exec(cfg, s, es)
    requires c < |t.clients| && t.clients[c].pc.Verifying?
    ensures Knows(cfg, s, es + [Step(c, VerifyRead)], c, Verified(t.clients[c].pc.version, t.store))
  {
    var es', k := es + [Step(c, VerifyRead)], |es|;
    assert es'[..k] == es;
    assert ReadsAt(cfg, s, es', c, t.clients[c].pc.version, k, t.store) && QuietFrom(es', c, k + 1);
  }

  lemma DecideStep(cfg: Config, s: State, es: seq<Event>, c: nat, v: Version, read: Option<LockData>)
    requires c < |s.clients| && c < |cfg.holders| && Knows(cfg, s, es, c, Verified(v, read))
    requires RecordOf(read, cfg.holders[c], v)
    ensures Knows(cfg, s, es + [Step(c, VerifyDecide)], c, Holding(v))
  {
    var es', l := es + [Step(c, VerifyDecide)], |es|;
    var k: nat :| ReadsAt(cfg, s, es, c, v, k, read) && QuietFrom(es, c, k + 1);
    ReadsStillAt(cfg, s, es, Step(c, VerifyDecide), c, v, k, read);
    assert DecidesAt(cfg, s, es', c, v, k, l, read);
  }

  lemma {:induction false} WhatIsKnown(cfg: Config, s: State, es: seq<Event>, c: nat)
    requires Runnable(cfg, s, es) && c < |s.clients| && c < |cfg.holders|
    requires !s.clients[c].pc.Verified? && !s.clients[c].pc.Holding?
    ensures var t := Exec(cfg, s, es); |t.clients| == |s.clients| && Knows(cfg, s, es, c, t.clients[c].pc)
    decreases |es|
  {
    if es != [] {
      var n := |es| - 1;
      var before, e := es[..n], es[n];
      assert es == before + [e];
      LastStep(cfg, s, es);
      WhatIsKnown(cfg, s, before, c);
      OneStepMore(cfg, s, before, e, c, Exec(cfg, s, before));
    }
  }

  lemma OneStepMore(cfg: Config, s: State, es: seq<Event>, e: Event, c: nat, t: State)
    requires Runnable(cfg, s, es) && t == Exec(cfg, s, es) && Enabled(cfg, t, e)
    requires c < |s.clients| && c < |cfg.holders| && |t.clients| == |s.clients| && Knows(cfg, s, es, c, t.clients[c].pc)
    ensures Knows(cfg, s, es + [e], c, Apply(cfg, t, e).clients[c].pc)
  {
    if !ActsIn(e, c) {
      OthersStep(cfg, s, es, e, c, t.clients[c].pc);
    } else if e.action.VerifyRead? {
      ReadStep(cfg, s, es, t, c);
    } else if e.action.VerifyDecide? {
      var pc := t.clients[c].pc;
      if RecordOf(pc.read, cfg.holders[c], pc.version) {
        DecideStep(cfg, s, es, c, pc.version, pc.read);
      }
    }
  }

  /** What a client has read and not judged yet, and what it does after, as long as only others act. */
  lemma {:induction false} OthersLeave(cfg: Config, s: State, es: seq<Event>, c: nat)
    requires Runnable(cfg, s, es) && c < |s.clients| && QuietFrom(es, c, 0)
    ensures var t := Exec(cfg, s, es); c < |t.clients| && t.clients[c] == s.clients[c]
    decreases |es|
  {
    if es != [] {
      assert !ActsIn(es[0], c);
      assert forall i | 0 <= i < |es[1..]| :: es[1..][i] == es[i + 1];
      OthersLeave(cfg, Apply(cfg, s, es[0]), es[1..], c);
    }
  }

  // ---------------------------------------------------------------- the theorems

  /** In every run that begins where client c is between calls or asleep: the client holds the lock on version v
      if and only if the last thing it did was to read its own record with that very version, and to decide. */
  lemma HoldsExactly(cfg: Config, s: State, es: seq<Event>, c: nat, v: Version)
    requires Runnable(cfg, s, es) && c < |s.clients| && c < |cfg.holders|
    requires !s.clients[c].pc.Verified? && !s.clients[c].pc.Holding?
    ensures var t := Exec(cfg, s, es);
            |t.clients| == |s.clients| && (t.clients[c].pc == Holding(v) <==> TakenIn(cfg, s, es, c, v))
  {
    WhatIsKnown(cfg, s, es, c);
    if TakenIn(cfg, s, es, c, v) {
      var k: nat, l: nat, read :| DecidesAt(cfg, s, es, c, v, k, l, read) && RecordOf(read, cfg.holders[c], v);
      DecisionStands(cfg, s, es, c, v, k, l, read);
    }
  }

  /** A read decides: of a client's own record it leads to the lock, of no record or another one it never does. */
  lemma DecisionStands(cfg: Config, s: State, es: seq<Event>, c: nat, v: Version, k: nat, l: nat, read: Option<LockData>)
    requires Runnable(cfg, s, es) && c < |s.clients| && c < |cfg.holders| && DecidesAt(cfg, s, es, c, v, k, l, read)
    ensures var t := Exec(cfg, s, es);
            c < |t.clients| && (if RecordOf(read, cfg.holders[c], v) then t.clients[c].pc == Holding(v)
                                else t.clients[c].pc.Sleeping? || t.clients[c].pc.Idle?)
  {
    StateAfterRead(cfg, s, es, c, v, k, read);
    PrefixRuns(cfg, s, es, k + 1);
    var u, rest := Exec(cfg, s, es[..k + 1]), es[k + 1..];
    assert forall i | 0 <= i < |rest| :: rest[i] == es[k + 1 + i];
    JudgedAfter(cfg, u, rest, c, v, l - k - 1, read);
  }

  lemma StateAfterRead(cfg: Config, s: State, es: seq<Event>, c: nat, v: Version, k: nat, read: Option<LockData>)
    requires Runnable(cfg, s, es) && c < |s.clients| && ReadsAt(cfg, s, es, c, v, k, read)
    ensures Runnable(cfg, s, es[..k + 1])
    ensures var u := Exec(cfg, s, es[..k + 1]); c < |u.clients| && u.clients[c].pc == Verified(v, read)
  {
    PrefixRuns(cfg, s, es, k + 1);
    LastStep(cfg, s, es[..k + 1]);
    assert es[..k + 1][..k] == es[..k];
  }

  /** From the read on the client takes one step, in which it decides. */
  lemma {:induction false} JudgedAfter(cfg: Config, u: State, es: seq<Event>, c: nat, v: Version, m: nat, read: Option<LockData>)
    requires Runnable(cfg, u, es) && c < |u.clients| && c < |cfg.holders| && u.clients[c].pc == Verified(v, read)
    requires m < |es| && es[m] == Step(c, VerifyDecide) && forall i | 0 <= i < |es| && i != m :: !ActsIn(es[i], c)
    ensures var t := Exec(cfg, u, es);
            c < |t.clients| && (if RecordOf(read, cfg.holders[c], v) then t.clients[c].pc == Holding(v)
                                else t.clients[c].pc.Sleeping? || t.clients[c].pc.Idle?)
    decreases m
  {
    var t, rest := Apply(cfg, u, es[0]), es[1..];
    assert forall i | 0 <= i < |rest| :: rest[i] == es[i + 1];
    if m == 0 {
      OthersLeave(cfg, t, rest, c);
    } else {
      assert t.clients[c] == u.clients[c];
      JudgedAfter(cfg, t, rest, c, v, m - 1, read);
    }
  }

  /** So in every run of the protocol a client that holds the lock has read its own record in its last step but
      one, with the version that it holds. */
  lemma EveryHolderHasVerified(cfg: Config, now: Time, es: seq<Event>, c: nat)
    requires Runnable(cfg, Init(cfg, now), es) && HasLock(Exec(cfg, Init(cfg, now), es), c)
    ensures c < |cfg.holders| && TakenIn(cfg, Init(cfg, now), es, c, Exec(cfg, Init(cfg, now), es).clients[c].pc.version)
  {
    ClientsStay(cfg, Init(cfg, now), es);
    HoldsExactly(cfg, Init(cfg, now), es, c, Exec(cfg, Init(cfg, now), es).clients[c].pc.version);
  }

  lemma {:induction false} ClientsStay(cfg: Config, s: State, es: seq<Event>)
    requires Runnable(cfg, s, es)
    ensures |Exec(cfg, s, es).clients| == |s.clients|
    decreases |es|
  {
    if es != [] {
      ClientsStay(cfg, Apply(cfg, s, es[0]), es[1..]);
    }
  }
}
