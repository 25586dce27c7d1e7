/**
 `lock`, `tryLock` and `unlock` as they are written, running against a shared world.

 The world plays a finite script: whenever an instance awaits a call or a sleep, the next turn of
 the script says what everyone else does meanwhile and whether the call fails. Every change of
 the world is an event of `LeaseProtocol`, so what is proved about runs there holds of these
 methods under every script. Once the script is used up the instance is alone and calls succeed.
*/
module DocumentDatabaseMutexes {
  import opened Wrappers
  import opened LeaseProtocol
  import opened LeaseSafety
  import opened LeaseVerification

  datatype Turn = Turn(others: seq<Event>, fault: Fault)

  function NextFault(script: seq<Turn>): Fault {
    if script == [] then NoFault else script[0].fault
  }

  /** From one history to a later one, instance `me` took no step. */
  ghost predicate OthersActed(me: nat, before: seq<Event>, after: seq<Event>) {
    before <= after && forall i | |before| <= i < |after| :: !(after[i].Step? && after[i].client == me)
  }

  /** What the database does with a conditional delete that finds it in state s. */
  function Removal(s: State, v: Version, fault: Fault): seq<Event> {
    if !fault.FailsBefore? && s.Stores(v) then [ServerDeletes(v)] else []
  }

  class World {
    const cfg: Config
    const start: Time
    var s: State
    var script: seq<Turn>
    ghost var history: seq<Event>

    /** The world is always in a state that a run of the protocol reaches. */
    ghost predicate Valid()
      reads this
    {
      && Runnable(cfg, Init(cfg, start), history)
      && s == Exec(cfg, Init(cfg, start), history)
      && |s.clients| == |cfg.holders|
      && RequestInv(s)
    }

    /** The others acted until the history was `arrived`; then came a conditional delete of v and its reply
        to instance `me`, and nothing else. */
    ghost predicate Deleted(me: nat, v: Version, before: seq<Event>, arrived: seq<Event>, fault: Fault, reply: Action)
      reads this
    {
      && OthersActed(me, before, arrived)
      && Runnable(cfg, Init(cfg, start), arrived)
      && history == arrived + Removal(Exec(cfg, Init(cfg, start), arrived), v, fault) + [Step(me, reply)]
      && (!fault.FailsBefore? ==> !s.Stores(v))
    }

    /** The history since then, of which `before` was the history and `from` the state, is one in which instance
        `me` took the lock on version v: it read its own record with that very version and decided. */
    ghost predicate Taken(me: nat, v: Version, from: State, before: seq<Event>)
      reads this
    {
      && me < |from.clients| && me < |cfg.holders| && before <= history
      && TakenIn(cfg, from, history[|before|..], me, v)
    }

    /** The last event is this step of instance `me`. */
    ghost predicate EndsWith(me: nat, action: Action)
      reads this
    {
      history != [] && history[|history| - 1] == Step(me, action)
    }

    /** Since then instance `me` holds the lock exactly if it took it. */
    lemma HeldIsTaken(me: nat, from: State, before: seq<Event>, v: Version)
      requires Valid() && before <= history && me < |s.clients|
      requires Runnable(cfg, Init(cfg, start), before) && from == Exec(cfg, Init(cfg, start), before)
      requires me < |from.clients| && !from.clients[me].pc.Verified? && !from.clients[me].pc.Holding?
      ensures s.clients[me].pc == Holding(v) <==> Taken(me, v, from, before)
    {
      PrefixRuns(cfg, Init(cfg, start), history, |before|);
      assert history[..|before|] == before;
      HoldsExactly(cfg, from, history[|before|..], me, v);
    }

    constructor (cfg: Config, start: Time, script: seq<Turn>)
      ensures Valid() && this.cfg == cfg && s == Init(cfg, start) && this.script == script
    {
      this.cfg, this.start, this.script := cfg, start, script;
      s := Init(cfg, start);
      history := [];
    }

    method Do(e: Event)
      requires Valid() && Enabled(cfg, s, e)
      modifies this`s, this`history
      ensures Valid() && s == Apply(cfg, old(s), e) && history == old(history) + [e]
    {
      ExecStep(cfg, Init(cfg, start), history, e);
      s := Apply(cfg, s, e);
      history := history + [e];
    }

    /** The others act while instance `me` waits; what they cannot do is skipped. */
    method Play(me: nat, others: seq<Event>)
      requires Valid() && me < |s.clients|
      modifies this`s, this`history
      ensures Valid() && s.clients[me] == old(s.clients[me]) && old(s.creates) <= s.creates
      ensures old(s.deletes) <= s.deletes && OthersActed(me, old(history), history)
      ensures others == [] ==> s == old(s)
    {
      for i := 0 to |others|
        invariant Valid() && s.clients[me] == old(s.clients[me]) && old(s.creates) <= s.creates
        invariant old(s.deletes) <= s.deletes && OthersActed(me, old(history), history)
        invariant i == 0 ==> s == old(s)
      {
        var e := others[i];
        if Enabled(cfg, s, e) && !(e.Step? && e.client == me) {
          Do(e);
        }
      }
    }

    /** One await of instance `me`: time passes and the next turn of the script is played. */
    method Await(me: nat, atLeast: nat) returns (fault: Fault)
      requires Valid() && me < |s.clients|
      modifies this`s, this`history, this`script
      ensures Valid() && s.clients[me] == old(s.clients[me]) && old(s.creates) <= s.creates
      ensures old(s.deletes) <= s.deletes && OthersActed(me, old(history), history)
      ensures fault == NextFault(old(script))
      ensures if old(script) == [] then
                script == [] && fault == NoFault && s.now >= old(s.now) + atLeast && s == old(s).(now := s.now)
              else script == old(script)[1..]
    {
      var ms: nat :| ms >= atLeast;
      Do(Tick(ms));
      fault := NoFault;
      if script != [] {
        fault := script[0].fault;
        Play(me, script[0].others);
        script := script[1..];
      }
    }
  }

  /** How many more rounds `lock` needs when it is alone with a record left by somebody. */
  function RoundsNeeded(cfg: Config, s: State): nat {
    if s.store.None? then 1
    else if cfg.Expired(s.store.value.timestamp, s.now) then 2
    else (s.store.value.timestamp + cfg.lockTimeout - s.now) / 500 + 3
  }

  class DocumentDatabaseMutex {
    const world: World
    const me: nat
    var hasLock: bool
    var versionId: Option<Version>

    function Pc(): Pc
      requires me < |world.s.clients|
      reads this, world
    {
      world.s.clients[me].pc
    }

    /** The record could be removed by now. */
    predicate StaleNow(record: Option<LockData>)
      reads world
    {
      record.Some? && world.cfg.Expired(record.value.timestamp, world.s.now)
    }

    /** The instance is between calls of its methods. */
    ghost predicate Valid()
      reads this, world
    {
      && world.Valid() && me < |world.s.clients|
      && (if hasLock then versionId.Some? && Pc() == Holding(versionId.value) else Pc().Idle?)
    }

    constructor (world: World, me: nat)
      requires world.Valid() && me < |world.s.clients| && world.s.clients[me].pc.Idle?
      ensures Valid() && !hasLock && this.world == world && this.me == me
    {
      this.world, this.me, hasLock, versionId := world, me, false, None;
    }

    /** The version under which the server has applied the create that the instance waits for. */
    method FindAnswer() returns (v: Option<Version>)
      requires me < |world.s.clients|
      ensures v.None? ==> forall w | w in world.s.created :: !Answers(world.s, me, w)
      ensures v.Some? ==> Answers(world.s, me, v.value)
    {
      v := None;
      if w :| w in world.s.created && Answers(world.s, me, w) {
        v := Some(w);
      }
    }

    /** One attempt of the database to apply the create that the instance waits for. */
    method DeliverCreate(request: Create)
      requires world.Valid() && me < |world.s.clients|
      requires request in world.s.creates && request.client == me && request.attempt == world.s.clients[me].attempt
      modifies world`s, world`history
      ensures world.Valid() && world.s.clients == old(world.s.clients) && old(world.history) <= world.history
      ensures if old(world.s.store).Some? then world.s == old(world.s) else
                var v := NewVersion(world.cfg, old(world.s), request);
                && world.s.now == old(world.s.now)
                && world.s.store == Some(LockData(world.cfg.holders[me], request.timestamp, v))
                && world.s.created == old(world.s.created)[v := request] && Answers(world.s, me, v)
    {
      if world.s.store.None? {
        world.Do(ServerCreates(request));
      }
    }

    /** Issues the create of a new attempt, which nothing has answered yet. */
    method IssueCreate(call: Call) returns (request: Create)
      requires world.Valid() && me < |world.s.clients|
      requires Pc().Idle? || (Pc().Sleeping? && world.s.clients[me].call == call)
      modifies world`s, world`history
      ensures world.Valid() && Pc().Putting? && world.s.clients[me].call == call && old(world.history) <= world.history
      ensures request in world.s.creates && request.client == me && request.attempt == world.s.clients[me].attempt
      ensures world.s.store == old(world.s.store) && world.s.now == old(world.s.now) && request.timestamp == world.s.now
      ensures forall v | v in world.s.created :: !Answers(world.s, me, v)
    {
      world.Do(Step(me, if Pc().Idle? then StartLock(call) else Wake));
      request := Create(me, world.s.clients[me].attempt, world.s.now);
    }

    /** The wait for the create, which the database applies unless there is a record or the request is lost. */
    method AwaitAnswer(request: Create) returns (fault: Fault, answer: Option<Version>)
      requires world.Valid() && me < |world.s.clients| && Pc().Putting?
      requires request in world.s.creates && request.client == me && request.attempt == world.s.clients[me].attempt
      requires forall v | v in world.s.created :: !Answers(world.s, me, v)
      modifies world`s, world`history, world`script
      ensures world.Valid() && world.s.clients[me] == old(world.s.clients[me]) && old(world.history) <= world.history
      ensures fault == NextFault(old(world.script)) && (answer.Some? ==> Answers(world.s, me, answer.value))
      ensures old(world.script) != [] ==> |world.script| < |old(world.script)|
      ensures old(world.script) == [] ==>
                && world.script == [] && world.s.now >= old(world.s.now)
                && if old(world.s.store).None? then
                     answer.Some? && world.s.store == Some(LockData(world.cfg.holders[me], request.timestamp, answer.value))
                   else answer.None? && world.s.store == old(world.s.store)
    {
      fault := world.Await(me, 0);
      answer := FindAnswer();
      if !fault.FailsBefore? && answer.None? {
        DeliverCreate(request);
        answer := FindAnswer();
      }
    }

    /** Creates the record unless there is one; remembers the version it was given. */
    method PutLockData(call: Call) returns (ok: bool)
      requires world.Valid() && me < |world.s.clients|
      requires Pc().Idle? || (Pc().Sleeping? && world.s.clients[me].call == call)
      modifies this`versionId, world`s, world`history, world`script
      ensures world.Valid() && world.s.clients[me].call == call && old(world.history) <= world.history
      ensures if ok then versionId.Some? && Pc() == Verifying(versionId.value) else Pc().Checking?
      ensures old(world.script) != [] ==> |world.script| < |old(world.script)|
      ensures old(world.script) == [] ==>
                && world.script == [] && world.s.now >= old(world.s.now)
                && if old(world.s.store).None? then
                     ok && world.s.store == Some(LockData(world.cfg.holders[me], old(world.s.now), versionId.value))
                   else !ok && world.s.store == old(world.s.store)
    {
      var request := IssueCreate(call);
      var fault, answer := AwaitAnswer(request);
      ok := fault.NoFault? && answer.Some?;
      if ok {
        versionId := answer;
        world.Do(Step(me, PutAcknowledged(answer.value)));
      } else {
        world.Do(Step(me, PutFailed));
      }
    }

    /** Reads the record, after a put that was acknowledged or after one that was not. */
    method GetLockData() returns (ok: bool, read: Option<LockData>)
      requires world.Valid() && me < |world.s.clients|
      requires Pc().Verifying? || Pc().Checking?
      modifies world`s, world`history, world`script
      ensures world.Valid() && world.s.clients[me].call == old(world.s.clients[me].call)
      ensures |world.script| <= |old(world.script)| && old(world.history) <= world.history
      ensures (ok <==> NextFault(old(world.script)).NoFault?) && (ok ==> read == world.s.store)
      ensures !ok && old(Pc()).Checking? ==> world.EndsWith(me, CheckFailed)
      ensures var before := old(Pc());
              match (before, ok)
              case (Verifying(v), true) => Pc() == Verified(v, read)
              case (Verifying(_), false) => Pc().Checking?
              case (_, true) => Pc() == Checked(read)
              case (_, false) => Pc().Idle?
      ensures old(world.script) == [] ==>
                && ok && world.script == [] && read == world.s.store == old(world.s.store)
                && world.s.now >= old(world.s.now)
    {
      var fault := world.Await(me, 0);
      ok, read := fault.NoFault?, world.s.store;
      if Pc().Verifying? {
        world.Do(Step(me, if ok then VerifyRead else VerifyFailed));
      } else {
        world.Do(Step(me, if ok then CheckRead else CheckFailed));
      }
    }

    /** Removes the record if it still has the given version. A failure is the caller's to ignore. */
    method DeleteLockData(v: Version) returns (ghost arrived: seq<Event>)
      requires world.Valid() && me < |world.s.clients|
      requires v in world.s.deletes && (Pc().Deleting? || Pc().Unlocking?)
      modifies world`s, world`history, world`script
      ensures world.Valid() && world.s.clients[me].call == old(world.s.clients[me].call)
      ensures Pc() == if old(Pc()).Deleting? then Sleeping else Idle
      ensures |world.script| <= |old(world.script)|
      ensures world.Deleted(me, v, old(world.history), arrived, NextFault(old(world.script)),
                            if old(Pc()).Deleting? then DeleteReplied else UnlockReplied)
      ensures old(world.script) == [] ==>
                && world.script == [] && world.s.now >= old(world.s.now)
                && world.s.store == if old(world.s).Stores(v) then None else old(world.s.store)
    {
      var fault := world.Await(me, 0);
      arrived := world.history;
      if !fault.FailsBefore? && world.s.Stores(v) {
        world.Do(ServerDeletes(v));
      } else {
        assert arrived + [] == arrived;
      }
      world.Do(Step(me, if Pc().Deleting? then DeleteReplied else UnlockReplied));
    }

    /** The try branch: puts the record and takes the lock if it reads it back; false if one of the calls fails. */
    method PutAndVerify(call: Call) returns (ok: bool)
      requires world.Valid() && me < |world.s.clients| && !hasLock
      requires Pc().Idle? || (Pc().Sleeping? && world.s.clients[me].call == call)
      modifies this, world
      ensures world.Valid() && world.s.clients[me].call == call && old(world.history) <= world.history
      ensures ok ==> world.EndsWith(me, VerifyDecide)
      ensures hasLock ==> ok && versionId.Some? && Pc() == Holding(versionId.value)
      ensures !hasLock ==> Pc() == if !ok then Checking else if call.Lock? then Sleeping else Idle
      ensures old(world.script) != [] ==> |world.script| < |old(world.script)|
      ensures old(world.script) == [] ==>
                && world.script == [] && world.s.now >= old(world.s.now)
                && (ok <==> old(world.s.store).None?)
                && if ok then hasLock && OwnRecord(world.cfg.holders[me], versionId.value, world.s.store)
                   else world.s.store == old(world.s.store)
    {
      ok := PutLockData(call);
      if ok {
        var lockData;
        ok, lockData := GetLockData();
        if ok {
          hasLock := OwnRecord(world.cfg.holders[me], versionId.value, lockData);
          world.Do(Step(me, VerifyDecide));
        }
      }
    }

    /** The body that `lock` and `tryLock` repeat, up to their sleep: put and verify, or, when either
        fails, look at the record that is in the way and remove it if it is stale. */
    method Attempt(call: Call) returns (threw: bool, stale: bool)
      requires world.Valid() && me < |world.s.clients| && !hasLock
      requires Pc().Idle? || (Pc().Sleeping? && world.s.clients[me].call == call)
      modifies this, world
      ensures world.Valid() && world.s.clients[me].call == call
      ensures hasLock ==> !threw && !stale && versionId.Some? && Pc() == Holding(versionId.value)
      ensures !hasLock ==> Pc() == if threw || (call.TryLock? && !stale) then Idle else Sleeping
      ensures threw ==> !stale
      ensures old(world.history) <= world.history
      // it takes the lock exactly if it read its own record, and throws exactly if the read that a failed
      // attempt calls for fails
      ensures hasLock ==> world.Taken(me, versionId.value, old(world.s), old(world.history))
      ensures !hasLock ==> forall v :: !world.Taken(me, v, old(world.s), old(world.history))
      ensures threw <==> world.EndsWith(me, CheckFailed)
      ensures old(world.script) != [] ==> |world.script| < |old(world.script)|
      ensures old(world.script) == [] ==>
                && world.script == [] && !threw && world.s.now >= old(world.s.now)
                && if old(world.s.store).None? then
                     hasLock && OwnRecord(world.cfg.holders[me], versionId.value, world.s.store)
                   else
                     && !hasLock
                     && world.s.store == (if stale then None else old(world.s.store))
                     && (if stale then world.cfg.Expired(old(world.s.store.value.timestamp), world.s.now)
                         else !world.cfg.Expired(world.s.store.value.timestamp, world.s.now))
    {
      threw, stale := false, false;
      var ok := PutAndVerify(call);
      if !ok {
        threw, stale := LookAtRecord();
      }
      AttemptIsVerified(old(world.s), old(world.history));
    }

    lemma AttemptIsVerified(from: State, before: seq<Event>)
      requires world.Valid() && before <= world.history && me < |world.s.clients|
      requires Runnable(world.cfg, Init(world.cfg, world.start), before) && from == Exec(world.cfg, Init(world.cfg, world.start), before)
      requires me < |from.clients| && !from.clients[me].pc.Verified? && !from.clients[me].pc.Holding?
      ensures forall v :: Pc() == Holding(v) <==> world.Taken(me, v, from, before)
    {
      forall v ensures Pc() == Holding(v) <==> world.Taken(me, v, from, before) {
        world.HeldIsTaken(me, from, before, v);
      }
    }

    /** The catch branch: reads the record that may be in the way and removes it if it is stale. */
    method LookAtRecord() returns (threw: bool, stale: bool)
      requires world.Valid() && me < |world.s.clients| && Pc().Checking?
      modifies world
      ensures world.Valid() && world.s.clients[me].call == old(world.s.clients[me].call)
      ensures Pc() == if threw then Idle else if stale then Sleeping else AfterMiss(world.s.clients[me].call)
      ensures threw <==> !NextFault(old(world.script)).NoFault?
      ensures threw <==> world.EndsWith(me, CheckFailed)
      ensures threw ==> !stale
      ensures |world.script| <= |old(world.script)| && old(world.history) <= world.history
      ensures old(world.script) == [] ==>
                && world.script == [] && world.s.now >= old(world.s.now)
                && world.s.store == (if stale then None else old(world.s.store))
                && (stale ==> old(world.s.store).Some? && world.cfg.Expired(old(world.s.store.value.timestamp), world.s.now))
                && (!stale && world.s.store.Some? ==> !world.cfg.Expired(world.s.store.value.timestamp, world.s.now))
    {
      stale := false;
      var read, lockData := GetLockData();
      if read {
        stale := RemoveIfStale(lockData);
      }
      threw := !read;
    }

    /** The stale check on a record just read, and the conditional delete that follows it. */
    method RemoveIfStale(lockData: Option<LockData>) returns (stale: bool)
      requires world.Valid() && me < |world.s.clients| && Pc() == Checked(lockData)
      modifies world
      ensures world.Valid() && world.s.clients[me].call == old(world.s.clients[me].call)
      ensures Pc() == if stale then Sleeping else AfterMiss(world.s.clients[me].call)
      ensures stale <==> lockData.Some? && lockData.value.timestamp + world.cfg.lockTimeout < old(world.s.now)
      ensures !stale ==> world.s.now == old(world.s.now)
      ensures |world.script| <= |old(world.script)| && old(world.history) <= world.history
      ensures !world.EndsWith(me, CheckFailed)
      ensures old(world.script) == [] ==>
                && world.script == [] && world.s.now >= old(world.s.now)
                && world.s.store == if stale && old(world.s).Stores(lockData.value.versionId) then None else old(world.s.store)
    {
      stale := lockData.Some? && world.cfg.Expired(lockData.value.timestamp, world.s.now);
      world.Do(Step(me, CheckDecide));
      if stale {
        ghost var _ := DeleteLockData(lockData.value.versionId);
      }
    }

    method Lock() returns (r: Result<(), string>, ghost rounds: nat)
      requires Valid()
      modifies this, world
      ensures Valid()
      ensures old(hasLock) ==> r.Err? && hasLock && world.s == old(world.s)
      ensures !old(hasLock) ==> (r.Ok? <==> hasLock)
      // under every script: it takes the lock exactly if it reads its own record and decides, as the last thing
      // it does, and it throws exactly if it ends with a read that failed after a failed attempt
      ensures !old(hasLock) && hasLock ==> world.Taken(me, versionId.value, old(world.s), old(world.history))
      ensures !old(hasLock) && !hasLock ==> forall v :: !world.Taken(me, v, old(world.s), old(world.history))
      ensures !old(hasLock) ==> (r.Err? <==> world.EndsWith(me, CheckFailed))
      // a lock that was taken is a safe one, under any script that re-puts no version
      ensures r.Ok? && NeverReput(world.cfg, Init(world.cfg, world.start), world.history) ==>
                LeaseSafe(world.cfg, world.s) && MutuallyExclusive(world.cfg, world.s)
      // alone and without failures, a record left behind delays the lock by no more than its lease
      ensures !old(hasLock) && old(world.script) == [] ==>
                && r.Ok? && rounds <= RoundsNeeded(world.cfg, old(world.s))
                && OwnRecord(world.cfg.holders[me], versionId.value, world.s.store)
    {
      rounds := 0;
      if hasLock {
        return Err("Cannot lock when already locked"), rounds;
      }
      while !hasLock
        invariant world.Valid() && me < |world.s.clients| && old(world.history) <= world.history
        invariant if hasLock then versionId.Some? && Pc() == Holding(versionId.value)
                  else Pc().Idle? || (Pc().Sleeping? && world.s.clients[me].call.Lock?)
        invariant hasLock ==> !world.EndsWith(me, CheckFailed)
        invariant old(world.script) == [] ==>
                    && world.script == []
                    && rounds + (if hasLock then 0 else RoundsNeeded(world.cfg, world.s)) <= RoundsNeeded(world.cfg, old(world.s))
                    && (hasLock ==> OwnRecord(world.cfg.holders[me], versionId.value, world.s.store))
        decreases |world.script|, !hasLock, RoundsNeeded(world.cfg, world.s)
      {
        rounds := rounds + 1;
        var threw, _ := Attempt(LeaseProtocol.Lock);
        if threw {
          AttemptIsVerified(old(world.s), old(world.history));
          return Err("getLockData failed"), rounds;
        }
        if !hasLock {
          var _ := world.Await(me, 500);
        }
      }
      r := Ok(());
      AttemptIsVerified(old(world.s), old(world.history));
      EveryRunOfWorldIsSafe();
    }

    lemma EveryRunOfWorldIsSafe()
      requires world.Valid()
      ensures NeverReput(world.cfg, Init(world.cfg, world.start), world.history) ==>
                LeaseSafe(world.cfg, world.s) && MutuallyExclusive(world.cfg, world.s)
    {
      if NeverReput(world.cfg, Init(world.cfg, world.start), world.history) {
        EveryRunIsSafe(world.cfg, world.start, world.history);
      }
    }

    method TryLock() returns (r: Result<bool, string>)
      requires Valid()
      modifies this, world
      ensures Valid()
      ensures old(hasLock) ==> r.Err? && hasLock && world.s == old(world.s)
      ensures !old(hasLock) ==> (r == Ok(true) <==> hasLock)
      // under every script, as for `lock`
      ensures !old(hasLock) && hasLock ==> world.Taken(me, versionId.value, old(world.s), old(world.history))
      ensures !old(hasLock) && !hasLock ==> forall v :: !world.Taken(me, v, old(world.s), old(world.history))
      ensures !old(hasLock) ==> (r.Err? <==> world.EndsWith(me, CheckFailed))
      ensures r == Ok(true) && NeverReput(world.cfg, Init(world.cfg, world.start), world.history) ==>
                LeaseSafe(world.cfg, world.s) && MutuallyExclusive(world.cfg, world.s)
      // alone and without failures it succeeds exactly on a lock that is free, or is stale when it returns,
      // and otherwise changes no record
      ensures !old(hasLock) && old(world.script) == [] ==>
                && r.Ok?
                && (r.value <==> old(world.s.store).None? || world.cfg.Expired(old(world.s.store.value.timestamp), world.s.now))
                && (r.value ==> OwnRecord(world.cfg.holders[me], versionId.value, world.s.store))
                && (!r.value ==> world.s.store == old(world.s.store))
    {
      if hasLock {
        return Err("Cannot lock when already locked");
      }
      var tryAgain := true;
      while tryAgain
        invariant world.Valid() && me < |world.s.clients| && old(world.history) <= world.history
        invariant hasLock ==> !tryAgain
        invariant !tryAgain ==> !world.EndsWith(me, CheckFailed)
        invariant if hasLock then versionId.Some? && Pc() == Holding(versionId.value)
                  else Pc().Idle? || (tryAgain && Pc().Sleeping? && world.s.clients[me].call.TryLock?)
        invariant old(world.script) == [] ==>
                    && world.script == []
                    && world.s.now >= old(world.s.now)
                    && (tryAgain ==> world.s.store == old(world.s.store) || (world.s.store.None? && StaleNow(old(world.s.store))))
                    && (hasLock ==> old(world.s.store).None? || StaleNow(old(world.s.store)))
                    && (!tryAgain && !hasLock ==>
                          && world.s.store.Some? && world.s.store == old(world.s.store)
                          && !StaleNow(world.s.store))
                    && (hasLock ==> OwnRecord(world.cfg.holders[me], versionId.value, world.s.store))
        decreases |world.script|, tryAgain, world.s.store.Some?
      {
        var threw;
        threw, tryAgain := Attempt(LeaseProtocol.TryLock);
        if threw {
          AttemptIsVerified(old(world.s), old(world.history));
          return Err("getLockData failed");
        }
        if tryAgain {
          var _ := world.Await(me, 500);
        }
      }
      r := Ok(hasLock);
      AttemptIsVerified(old(world.s), old(world.history));
      EveryRunOfWorldIsSafe();
    }

    method Unlock() returns (r: Result<(), string>, ghost arrived: seq<Event>)
      requires Valid()
      modifies this, world
      ensures Valid() && !hasLock
      ensures r.Ok? <==> old(hasLock)
      ensures !old(hasLock) ==> world.s == old(world.s)
      // it asks for the removal of its own record once, and of no other
      ensures old(hasLock) ==>
                world.Deleted(me, old(versionId).value, old(world.history) + [Step(me, StartUnlock)], arrived,
                              NextFault(old(world.script)), UnlockReplied)
      // alone and without failures, nothing else happens
      ensures old(hasLock) && old(world.script) == [] ==>
                world.s.store == if old(world.s).Stores(old(versionId).value) then None else old(world.s.store)
    {
      arrived := [];
      if !hasLock {
        return Err("Cannot unlock when not locked"), arrived;
      }
      world.Do(Step(me, StartUnlock));
      arrived := DeleteLockData(versionId.value);
      hasLock := false;
      r := Ok(());
    }
  }
}
