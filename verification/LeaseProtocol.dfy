/**
 The lock protocol of `DocumentDatabaseMutex` as an interleaved transition system.

 Any number of mutex instances (clients) share one lock record. Every call to the database is
 split into the moment the request is issued, the moments it takes effect, and the moment the
 client sees a reply. Requests are never forgotten: a create or a conditional delete that was
 issued once may take effect late, more than once, or never, and a client may see an error
 whether or not its request took effect. Clients may stop for ever at any point (a crash).
*/
module LeaseProtocol {
  import opened Wrappers

  type Time = int

  /** Firestore: the server's write time. DynamoDB: an identifier drawn once per instance. */
  datatype Version = WriteTime(n: nat) | InstanceId(client: nat)

  datatype LockData = LockData(mutexHolder: string, timestamp: Time, versionId: Version)

  datatype Versioning = FreshPerCreate | FixedPerInstance

  /** `holders[c]` is the mutex holder of instance c. */
  datatype Config = Config(holders: seq<string>, lockTimeout: Time, versioning: Versioning) {
    /** A record is stale, and may be removed by anyone, from here on. */
    predicate Expired(timestamp: Time, now: Time) {
      timestamp < now - lockTimeout
    }
  }

  datatype Call = Lock | TryLock

  /** Where an instance is inside `lock`, `tryLock` or `unlock`. */
  datatype Pc =
    | Idle
    | Putting
    | Verifying(version: Version)
    | Verified(version: Version, read: Option<LockData>)
    | Checking
    | Checked(read: Option<LockData>)
    | Deleting
    | Sleeping
    | Holding(version: Version)
    | Unlocking

  datatype Client = Client(pc: Pc, call: Call, attempt: nat)

  datatype Create = Create(client: nat, attempt: nat, timestamp: Time)

  /** `creates` and `deletes` are the requests issued so far. `created` (who put a version, and when)
      and `released` (the versions whose owner has started to unlock) only record history. */
  datatype State = State(
    now: Time,
    store: Option<LockData>,
    clients: seq<Client>,
    nextWrite: nat,
    creates: set<Create>,
    deletes: set<Version>,
    created: map<Version, Create>,
    released: set<Version>)
  {
    predicate Stores(v: Version) {
      store.Some? && store.value.versionId == v
    }

    function Move(c: nat, pc: Pc): State
      requires c < |clients|
    {
      this.(clients := clients[c := clients[c].(pc := pc)])
    }

    /** Issues the next conditional create of client c, stamped with the current time. */
    function IssueCreate(c: nat, call: Call): State
      requires c < |clients|
    {
      var attempt := clients[c].attempt + 1;
      this.(clients := clients[c := Client(Putting, call, attempt)],
            creates := creates + {Create(c, attempt, now)})
    }
  }

  /** The steps of one instance, each running from one reply to the next request. */
  datatype Action =
    | StartLock(call: Call)
    | PutAcknowledged(version: Version)
    | PutFailed
    | VerifyRead
    | VerifyFailed
    | VerifyDecide
    | CheckRead
    | CheckFailed
    | CheckDecide
    | DeleteReplied
    | Wake
    | StartUnlock
    | UnlockReplied

  /** Events of the clock and of the database belong to no instance. */
  datatype Event =
    | Tick(ms: nat)
    | ServerCreates(request: Create)
    | ServerDeletes(version: Version)
    | Step(client: nat, action: Action)

  function NewVersion(cfg: Config, s: State, request: Create): Version {
    match cfg.versioning
    case FreshPerCreate => WriteTime(s.nextWrite)
    case FixedPerInstance => InstanceId(request.client)
  }

  /** The comparison that decides `hasLock`. */
  predicate OwnRecord(holder: string, v: Version, read: Option<LockData>) {
    read.Some? && read.value.mutexHolder == holder && read.value.versionId == v
  }

  /** Version v was put by the request that client c is waiting for. */
  predicate Answers(s: State, c: nat, v: Version)
    requires c < |s.clients|
  {
    v in s.created && s.created[v].client == c && s.created[v].attempt == s.clients[c].attempt
  }

  predicate CanStep(s: State, c: nat, action: Action)
    requires c < |s.clients|
  {
    var pc := s.clients[c].pc;
    match action
    case StartLock(_) => pc.Idle?
    case PutAcknowledged(v) => pc.Putting? && Answers(s, c, v)
    case PutFailed => pc.Putting?
    case VerifyRead => pc.Verifying?
    case VerifyFailed => pc.Verifying?
    case VerifyDecide => pc.Verified?
    case CheckRead => pc.Checking?
    case CheckFailed => pc.Checking?
    case CheckDecide => pc.Checked?
    case DeleteReplied => pc.Deleting?
    case Wake => pc.Sleeping?
    case StartUnlock => pc.Holding?
    case UnlockReplied => pc.Unlocking?
  }

  predicate Enabled(cfg: Config, s: State, e: Event) {
    match e
    case Tick(_) => true
    case ServerCreates(request) => request in s.creates && request.client < |cfg.holders| && s.store.None?
    case ServerDeletes(v) => v in s.deletes && s.Stores(v)
    case Step(c, action) => c < |s.clients| && c < |cfg.holders| && CanStep(s, c, action)
  }

  /** After an attempt that took no lock, `lock` sleeps and retries; `tryLock` returns false. */
  function AfterMiss(call: Call): Pc {
    if call.Lock? then Sleeping else Idle
  }

  function ApplyStep(cfg: Config, s: State, c: nat, action: Action): State
    requires c < |s.clients| && c < |cfg.holders| && CanStep(s, c, action)
  {
    var me := s.clients[c];
    match action
    case StartLock(call) => s.IssueCreate(c, call)
    case PutAcknowledged(v) => s.Move(c, Verifying(v))
    case PutFailed => s.Move(c, Checking)
    case VerifyRead => s.Move(c, Verified(me.pc.version, s.store))
    case VerifyFailed => s.Move(c, Checking)
    case VerifyDecide =>
      s.Move(c, if OwnRecord(cfg.holders[c], me.pc.version, me.pc.read) then Holding(me.pc.version) else AfterMiss(me.call))
    case CheckRead => s.Move(c, Checked(s.store))
    case CheckFailed => s.Move(c, Idle)
    case CheckDecide =>
      if me.pc.read.Some? && cfg.Expired(me.pc.read.value.timestamp, s.now) then
        s.Move(c, Deleting).(deletes := s.deletes + {me.pc.read.value.versionId})
      else
        s.Move(c, AfterMiss(me.call))
    case DeleteReplied => s.Move(c, Sleeping)
    case Wake => s.IssueCreate(c, me.call)
    case StartUnlock =>
      s.Move(c, Unlocking).(deletes := s.deletes + {me.pc.version}, released := s.released + {me.pc.version})
    case UnlockReplied => s.Move(c, Idle)
  }

  function Apply(cfg: Config, s: State, e: Event): State
    requires Enabled(cfg, s, e)
  {
    match e
    case Tick(ms) => s.(now := s.now + ms)
    case ServerCreates(request) =>
      var v := NewVersion(cfg, s, request);
      s.(store := Some(LockData(cfg.holders[request.client], request.timestamp, v)),
         nextWrite := s.nextWrite + 1,
         created := s.created[v := request])
    case ServerDeletes(_) => s.(store := None)
    case Step(c, action) => ApplyStep(cfg, s, c, action)
  }

  function Init(cfg: Config, now: Time): State {
    State(now, None, seq(|cfg.holders|, _ => Client(Idle, Lock, 0)), 0, {}, {}, map[], {})
  }

  predicate Runnable(cfg: Config, s: State, es: seq<Event>)
    decreases |es|
  {
    es == [] || (Enabled(cfg, s, es[0]) && Runnable(cfg, Apply(cfg, s, es[0]), es[1..]))
  }

  function Exec(cfg: Config, s: State, es: seq<Event>): State
    requires Runnable(cfg, s, es)
    decreases |es|
  {
    if es == [] then s else Exec(cfg, Apply(cfg, s, es[0]), es[1..])
  }

  lemma {:induction false} ExecAppend(cfg: Config, s: State, es: seq<Event>, fs: seq<Event>)
    requires Runnable(cfg, s, es) && Runnable(cfg, Exec(cfg, s, es), fs)
    ensures Runnable(cfg, s, es + fs) && Exec(cfg, s, es + fs) == Exec(cfg, Exec(cfg, s, es), fs)
    decreases |es|
  {
    if es == [] {
      assert es + fs == fs;
    } else {
      assert (es + fs)[0] == es[0] && (es + fs)[1..] == es[1..] + fs;
      ExecAppend(cfg, Apply(cfg, s, es[0]), es[1..], fs);
    }
  }

  lemma ExecStep(cfg: Config, s: State, es: seq<Event>, e: Event)
    requires Runnable(cfg, s, es) && Enabled(cfg, Exec(cfg, s, es), e)
    ensures Runnable(cfg, s, es + [e]) && Exec(cfg, s, es + [e]) == Apply(cfg, Exec(cfg, s, es), e)
  {
    var t := Exec(cfg, s, es);
    assert Runnable(cfg, Apply(cfg, t, e), [e][1..]);
    ExecAppend(cfg, s, es, [e]);
  }
}
