/** What holds under every interleaving of producers, timers and replies. */
module LogDelivery {
  import opened Wrappers
  import opened LogSplitting
  import opened Sequences
  import opened LogBatching
  import opened CloudWatchLogging

  /** The provider and every suspended `processBatch`. */
  datatype System = System(provider: Provider, frames: seq<Frame>)

  datatype Event =
    | Added(e: LogEvent)
    | TimerFired
    | Replied(frame: nat, reply: Reply)

  predicate CanHappen(w: System, e: Event) {
    match e
    case Added(_) => true
    case TimerFired => w.provider.timers > 0
    case Replied(i, reply) => i < |w.frames| && Fits(w.frames[i], reply)
  }

  function Frames(f: Option<Frame>): seq<Frame> {
    if f.Some? then [f.value] else []
  }

  function Next(w: System, e: Event): System
    requires CanHappen(w, e)
  {
    match e
    case Added(le) => w.(provider := Add(w.provider, le))
    case TimerFired =>
      var (p, f) := Fire(w.provider);
      System(p, w.frames + Frames(f))
    case Replied(i, reply) =>
      var (p, f) := Resume(w.provider, w.frames[i], reply);
      System(p, w.frames[..i] + Frames(f) + w.frames[i + 1..])
  }

  function Init(logGroupName: string): System {
    System(Provider(logGroupName, [], false, false, false, None, 0, [], []), [])
  }

  predicate CanRun(w: System, es: seq<Event>)
    decreases |es|
  {
    es == [] || (CanHappen(w, es[0]) && CanRun(Next(w, es[0]), es[1..]))
  }

  function Run(w: System, es: seq<Event>): System
    requires CanRun(w, es)
    decreases |es|
  {
    if es == [] then w else Run(Next(w, es[0]), es[1..])
  }

  // ---------------------------------------------------------------- what is kept

  /** Every chunk handed over, in order. */
  function Submitted(requests: seq<Request>): seq<Chunk> {
    Concat(seq(|requests|, i requires 0 <= i < |requests| => requests[i].logEvents))
  }

  lemma SubmittedPush(requests: seq<Request>, r: Request)
    ensures Submitted(requests + [r]) == Submitted(requests) + r.logEvents
  {
    var parts := seq(|requests|, i requires 0 <= i < |requests| => requests[i].logEvents);
    ConcatPush(parts, r.logEvents);
    var longer := requests + [r];
    assert seq(|longer|, i requires 0 <= i < |longer| => longer[i].logEvents) == parts + [r.logEvents];
  }

  /** Chunks taken off the queue that no request has carried yet. */
  function Pending(f: Frame): seq<Chunk> {
    if f.Sending? then HeldChunks(f.filled.held) + f.filled.rest else []
  }

  /** One drainer while `processing` is set, and none otherwise. */
  predicate OneDrainer(w: System) {
    |w.frames| == if w.provider.processing then 1 else 0
  }

  ghost predicate SomethingToSend(p: Provider) {
    forall e | e in p.added :: e.message != []
  }

  ghost predicate Inv(w: System) {
    var p := w.provider;
    && OneDrainer(w)
    && Account(p, if w.frames == [] then [] else Pending(w.frames[0]))
    && Queued(p)
    && GoodRequests(p)
    && (w.frames != [] ==> GoodFrame(p, w.frames[0]))
  }

  /** The queue is what was added last. */
  predicate Queued(p: Provider) {
    |p.logEvents| <= |p.added| && p.logEvents == p.added[|p.added| - |p.logEvents|..]
  }

  ghost predicate GoodFrame(p: Provider, f: Frame) {
    match f
    case Sending(filled) => GoodFilled(filled)
    case _ => p.logEvents != []
  }

  // ---------------------------------------------------------------- one batch

  /** Requests sent, the chunks in the drainer's hands and the events queued are all that was ever added, in order. */
  ghost predicate Account(p: Provider, pending: seq<Chunk>) {
    Submitted(p.submitted) + pending + Prepare(p.logEvents) == Prepare(p.added)
  }

  ghost predicate GoodRequests(p: Provider) {
    && (forall i | 0 <= i < |p.submitted| :: Bytes(p.submitted[i].logEvents) <= MAX_REQUEST_BYTES)
    && (SomethingToSend(p) ==> forall i | 0 <= i < |p.submitted| :: p.submitted[i].logEvents != [])
  }

  lemma SubmitKeepsAccount(p: Provider, f: Filled, pending: seq<Chunk>)
    requires Account(p, pending) && f.batch + HeldChunks(f.held) + f.rest == pending
    ensures Account(Submit(p, f).0, Pending(Sending(f)))
  {
    SubmittedPush(p.submitted, Request(f.batch, p.sequenceToken));
    Regroup(Submitted(p.submitted), f.batch, HeldChunks(f.held), f.rest);
    Reassociate(Submitted(p.submitted), f.batch + HeldChunks(f.held), f.rest);
    Reassociate(Submitted(p.submitted), f.batch, HeldChunks(f.held));
  }

  lemma FillIsGood(pending: Option<Chunk>, prepared: seq<Chunk>)
    requires GoodChunks(HeldChunks(pending)) && GoodChunks(prepared)
    ensures var f := Fill(HeldChunks(pending), prepared);
            && f.batch + HeldChunks(f.held) + f.rest == HeldChunks(pending) + prepared
            && (HeldChunks(pending) + prepared != [] ==> f.batch != [])
            && GoodFilled(f)
  {
    var first := HeldChunks(pending);
    assert first[..0] == [];
    assert first != [] ==> GoodChunk(first[0]);
    var f := Fill(first, prepared);
    FillConserves(first, prepared);
    FillIsGreedy(first, prepared);
    var all := first + prepared;
    assert GoodChunks(all);
    SplitGood(f.batch + HeldChunks(f.held), f.rest);
    SplitGood(f.batch, HeldChunks(f.held));
    assert f.held.Some? ==> HeldChunks(f.held)[0] == f.held.value;
    if f.batch == [] && f.held.Some? {
      assert GoodChunk(f.held.value);
    }
  }

  ghost predicate GoodFilled(f: Filled) {
    && Bytes(f.batch) <= MAX_REQUEST_BYTES
    && GoodChunks(f.rest)
    && (if f.held.Some? then GoodChunk(f.held.value) else f.rest == [])
  }

  /** Handing over one more batch keeps the account and the limits. */
  lemma SubmitFilledKeeps(p: Provider, f: Filled, pending: seq<Chunk>)
    requires GoodFilled(f) && f.batch + HeldChunks(f.held) + f.rest == pending
    requires Account(p, pending) && GoodRequests(p)
    requires p.processing && Queued(p)
    requires SomethingToSend(p) ==> f.batch != []
    ensures var (q, g) := Submit(p, f); Inv(System(q, Frames(g)))
  {
    SubmitKeepsAccount(p, f, pending);
    SubmitKeepsRequests(p, f);
    var q := Submit(p, f).0;
    assert Queued(q) && [Sending(f)][0] == Sending(f);
  }

  lemma SubmitKeepsRequests(p: Provider, f: Filled)
    requires GoodFilled(f) && GoodRequests(p) && (SomethingToSend(p) ==> f.batch != [])
    ensures GoodRequests(Submit(p, f).0)
  {
  }

  lemma SubmitKeeps(p: Provider, pending: Option<Chunk>, prepared: seq<Chunk>)
    requires GoodChunks(HeldChunks(pending)) && GoodChunks(prepared)
    requires Account(p, HeldChunks(pending) + prepared) && GoodRequests(p)
    requires p.processing && Queued(p)
    requires SomethingToSend(p) ==> HeldChunks(pending) + prepared != []
    ensures var (q, f) := Submit(p, Fill(HeldChunks(pending), prepared)); Inv(System(q, Frames(f)))
  {
    FillIsGood(pending, prepared);
    SubmitFilledKeeps(p, Fill(HeldChunks(pending), prepared), HeldChunks(pending) + prepared);
  }

  lemma SplitGood(a: seq<Chunk>, b: seq<Chunk>)
    requires GoodChunks(a + b)
    ensures GoodChunks(a) && GoodChunks(b)
  {
    assert forall i | 0 <= i < |a| :: a[i] == (a + b)[i];
    assert forall i | 0 <= i < |b| :: b[i] == (a + b)[|a| + i];
  }

  lemma PrepareSaysSomething(events: seq<LogEvent>)
    requires events != [] && forall e | e in events :: e.message != []
    ensures Prepare(events) != []
  {
    var e := events[0];
    SplitIsFaithful(e.message, e.timestamp);
    PreparedBy(events, SplitEvent(e)[0]);
  }

  // ---------------------------------------------------------------- one segment

  /** A drainer between two requests, holding nothing. */
  ghost predicate Between(p: Provider) {
    p.processing && Account(p, []) && Queued(p) && GoodRequests(p)
  }

  /** Turning the queue into prepared chunks moves them within the account. */
  lemma TakeQueueKeepsAccount(p: Provider)
    requires Account(p, [])
    ensures Account(p.(logEvents := []), HeldChunks(None) + Prepare(p.logEvents))
  {
    MovesOver(Submitted(p.submitted), Prepare(p.logEvents));
  }

  lemma MovesOver<T>(sent: seq<T>, queued: seq<T>)
    ensures sent + [] + queued == sent + ([] + queued) + []
  {
    assert [] + queued == queued && sent + [] == sent;
    assert sent + queued + [] == sent + queued;
  }

  lemma TakeQueueKeeps(p: Provider)
    requires Between(p) && p.logEvents != []
    ensures var (q, f) := Submit(p.(logEvents := []), Fill(HeldChunks(None), Prepare(p.logEvents)));
            Inv(System(q, Frames(f)))
  {
    TakeQueueKeepsAccount(p);
    PrepareIsGood(p.logEvents);
    if SomethingToSend(p) {
      PrepareSaysSomething(p.logEvents);
    }
    SubmitKeeps(p.(logEvents := []), None, Prepare(p.logEvents));
  }

  lemma ProceedKeeps(p: Provider)
    requires Between(p) && p.logEvents != []
    ensures var (q, f) := Proceed(p); Inv(System(q, Frames(f)))
  {
    if p.logGroupVerified && p.logStreamCreated {
      TakeQueueKeeps(p);
    } else {
      var (q, f) := Proceed(p);
      assert Frames(f) == [f.value] && Pending(f.value) == [] && q == p;
    }
  }

  lemma DrainKeeps(p: Provider)
    requires Between(p)
    ensures var (q, f) := Drain(p); Inv(System(q, Frames(f)))
  {
    if p.logEvents != [] {
      ProceedKeeps(p);
    }
  }

  lemma SentKeeps(p: Provider, f: Filled)
    requires Inv(System(p, [Sending(f)]))
    ensures var (q, g) := if f.held.Some? then Submit(p, Fill(HeldChunks(f.held), f.rest)) else Drain(p);
            Inv(System(q, Frames(g)))
  {
    assert Account(p, Pending(Sending(f)));
    if f.held.Some? {
      SubmitKeeps(p, f.held, f.rest);
    } else {
      DrainKeeps(p);
    }
  }

  /** A setup request is answered with the queue untouched. */
  lemma SetupFrame(p: Provider, frame: Frame)
    requires Inv(System(p, [frame])) && !frame.Sending?
    ensures Between(p) && p.logEvents != [] && Inv(System(p.(processing := false), []))
  {
    assert [frame][0] == frame && Pending(frame) == [];
    assert Account(p, []);
  }

  lemma ResumeKeeps(p: Provider, frame: Frame, reply: Reply)
    requires Inv(System(p, [frame])) && Fits(frame, reply)
    ensures var (q, f) := Resume(p, frame, reply); Inv(System(q, Frames(f)))
  {
    match frame
    case Sending(f) =>
      var q := if reply.Failed? then p else p.(sequenceToken := reply.nextSequenceToken);
      assert [frame][0] == Sending(f);
      assert Account(q, Pending(Sending(f)));
      SentKeeps(q, f);
    case _ =>
      SetupFrame(p, frame);
      SetupReplyKeeps(p, frame, reply);
  }

  lemma SetupReplyKeeps(p: Provider, frame: Frame, reply: Reply)
    requires Between(p) && p.logEvents != [] && Inv(System(p.(processing := false), []))
    requires !frame.Sending? && Fits(frame, reply)
    ensures var (q, f) := Resume(p, frame, reply); Inv(System(q, Frames(f)))
  {
    if reply.Failed? {
    } else if frame.CreatingStream? {
      StreamKeeps(p);
    } else if frame.CreatingGroup? || p.logGroupName in reply.logGroups {
      GroupKeeps(p);
    } else {
      WaitsFor(p, Resume(p, frame, reply).1.value);
    }
  }

  lemma StreamKeeps(p: Provider)
    requires Between(p) && p.logEvents != []
    ensures var (q, f) := Proceed(p.(logStreamCreated := true)); Inv(System(q, Frames(f)))
  {
    ProceedKeeps(p.(logStreamCreated := true));
  }

  lemma GroupKeeps(p: Provider)
    requires Between(p) && p.logEvents != []
    ensures var (q, f) := Proceed(p.(logGroupVerified := true)); Inv(System(q, Frames(f)))
  {
    ProceedKeeps(p.(logGroupVerified := true));
  }

  /** A drainer that waits for a setup request. */
  lemma WaitsFor(p: Provider, f: Frame)
    requires Between(p) && p.logEvents != [] && !f.Sending?
    ensures Inv(System(p, [f]))
  {
    assert Pending(f) == [] && [f][0] == f;
  }

  lemma AddKeepsAccount(p: Provider, pending: seq<Chunk>, e: LogEvent)
    requires Account(p, pending)
    ensures Account(Add(p, e), pending)
  {
    PreparePush(p.logEvents, e);
    PreparePush(p.added, e);
    Regroup(Submitted(p.submitted), pending, Prepare(p.logEvents), SplitEvent(e));
  }

  lemma AddKeeps(p: Provider, frames: seq<Frame>, e: LogEvent)
    requires Inv(System(p, frames))
    ensures Inv(System(Add(p, e), frames))
  {
    var q := Add(p, e);
    AddKeepsAccount(p, if frames == [] then [] else Pending(frames[0]), e);
    AddKeepsQueued(p, e);
    AddKeepsRequests(p, e);
  }

  lemma AddKeepsQueued(p: Provider, e: LogEvent)
    requires Queued(p)
    ensures Queued(Add(p, e))
  {
  }

  lemma AddKeepsRequests(p: Provider, e: LogEvent)
    requires GoodRequests(p)
    ensures GoodRequests(Add(p, e))
  {
    assert forall le | le in p.added :: le in Add(p, e).added;
  }

  lemma TimerKeeps(p: Provider, frames: seq<Frame>)
    requires Inv(System(p, frames)) && p.timers > 0
    ensures var (q, f) := Fire(p); Inv(System(q, frames + Frames(f)))
  {
    var q := p.(timers := p.timers - 1);
    assert Account(q, if frames == [] then [] else Pending(frames[0])) && GoodRequests(q);
    StartKeeps(q, frames);
  }

  lemma StartKeeps(p: Provider, frames: seq<Frame>)
    requires Inv(System(p, frames))
    ensures var (q, f) := Start(p); Inv(System(q, frames + Frames(f)))
  {
    if !p.processing && p.logEvents != [] {
      var q := p.(processing := true);
      assert Account(q, []) && GoodRequests(q);
      DrainKeeps(q);
      assert frames + Frames(Drain(q).1) == Frames(Drain(q).1);
    } else {
      assert frames + [] == frames;
    }
  }

  lemma NextKeepsInv(w: System, e: Event)
    requires Inv(w) && CanHappen(w, e)
    ensures Inv(Next(w, e))
  {
    match e
    case Added(le) =>
      AddKeeps(w.provider, w.frames, le);
    case TimerFired =>
      TimerKeeps(w.provider, w.frames);
    case Replied(i, reply) =>
      assert w.frames == [w.frames[0]];
      ResumeKeeps(w.provider, w.frames[0], reply);
      var f := Resume(w.provider, w.frames[0], reply).1;
      assert w.frames[..0] + Frames(f) + w.frames[1..] == Frames(f);
  }

  lemma {:induction false} RunKeepsInv(w: System, es: seq<Event>)
    requires Inv(w) && CanRun(w, es)
    ensures Inv(Run(w, es))
    decreases |es|
  {
    if es != [] {
      NextKeepsInv(w, es[0]);
      RunKeepsInv(Next(w, es[0]), es[1..]);
    }
  }

  // ---------------------------------------------------------------- the theorems

  /** The service's limits, on the true sizes: 1 MiB per request, 256 KiB per event, with 26 bytes for each event. */
  ghost predicate WithinLimits(request: Request) {
    && TrueBytes(request.logEvents) <= Bytes(request.logEvents) <= MAX_REQUEST_BYTES
    && forall i | 0 <= i < |request.logEvents| :: |ToUtf8(request.logEvents[i].message)| + EVENT_OVERHEAD <= 262144
  }

  lemma RequestIsSubmitted(requests: seq<Request>, i: nat, c: Chunk)
    requires i < |requests| && c in requests[i].logEvents
    ensures c in Submitted(requests)
  {
    var parts := seq(|requests|, i requires 0 <= i < |requests| => requests[i].logEvents);
    assert c in parts[i];
    ConcatMembers(parts, c);
  }

  lemma RequestWithinLimits(p: Provider, pending: seq<Chunk>, i: nat)
    requires Account(p, pending) && GoodRequests(p) && i < |p.submitted|
    ensures WithinLimits(p.submitted[i])
  {
    var batch, all := p.submitted[i].logEvents, Prepare(p.added);
    PrepareIsGood(p.added);
    assert Submitted(p.submitted) <= all;
    forall k | 0 <= k < |batch|
      ensures GoodChunk(batch[k]) && |ToUtf8(batch[k].message)| + EVENT_OVERHEAD <= batch[k].byteLength
    {
      RequestIsSubmitted(p.submitted, i, batch[k]);
      assert batch[k] in all;
    }
    CountedBytesBoundTrueBytes(batch);
  }

  /** What was added and is not queued any more. */
  function TakenOff(p: Provider): seq<LogEvent>
    requires Queued(p)
  {
    p.added[..|p.added| - |p.logEvents|]
  }

  /** The chunks handed over and those in the drainer's hands say the messages of the events that are not queued
      any more, each at its time, once and in order. */
  ghost predicate Says(p: Provider, pending: seq<Chunk>) {
    Queued(p) && Divided(Submitted(p.submitted) + pending, TakenOff(p))
  }

  lemma AccountSays(p: Provider, pending: seq<Chunk>)
    requires Account(p, pending) && Queued(p)
    ensures Says(p, pending)
  {
    var taken, sent, queued := TakenOff(p), Submitted(p.submitted) + pending, Prepare(p.logEvents);
    assert p.added == taken + p.logEvents;
    PrepareTogether(taken, p.logEvents);
    assert (sent + queued)[..|sent|] == sent && (Prepare(taken) + queued)[..|sent + queued| - |queued|] == Prepare(taken);
    PrepareDivides(taken);
  }

  /** Under every interleaving at most one drainer runs, nothing is lost, repeated or reordered, and
      every request respects the service's limits and, if every message says something, is not empty. */
  lemma DeliveryIsConserved(logGroupName: string, es: seq<Event>)
    requires CanRun(Init(logGroupName), es)
    ensures var w := Run(Init(logGroupName), es);
            && OneDrainer(w) && |w.frames| <= 1
            && Account(w.provider, if w.frames == [] then [] else Pending(w.frames[0]))
            && Says(w.provider, if w.frames == [] then [] else Pending(w.frames[0]))
            && (forall i | 0 <= i < |w.provider.submitted| :: WithinLimits(w.provider.submitted[i]))
            && (SomethingToSend(w.provider) ==> forall i | 0 <= i < |w.provider.submitted| :: w.provider.submitted[i].logEvents != [])
  {
    RunKeepsInv(Init(logGroupName), es);
    var w := Run(Init(logGroupName), es);
    AccountSays(w.provider, if w.frames == [] then [] else Pending(w.frames[0]));
    forall i | 0 <= i < |w.provider.submitted| ensures WithinLimits(w.provider.submitted[i]) {
      RequestWithinLimits(w.provider, if w.frames == [] then [] else Pending(w.frames[0]), i);
    }
  }

  /** The condition that ends the loop of `flush` before its deadline. */
  predicate Flushed(p: Provider) {
    p.logEvents == [] && !p.processing
  }

  /** The chunks handed over say the message of every event ever added, at its time, once and in order. */
  ghost predicate HandedOver(p: Provider) {
    Divided(Submitted(p.submitted), p.added)
  }

  /** A flush that ends this way means that every event added so far was handed over exactly once, in order;
      so the texts handed over are all the messages, one after the other. */
  lemma FlushMeansHandedOver(logGroupName: string, es: seq<Event>)
    requires CanRun(Init(logGroupName), es) && Flushed(Run(Init(logGroupName), es).provider)
    ensures var p := Run(Init(logGroupName), es).provider;
            HandedOver(p) && Text(Submitted(p.submitted)) == Messages(p.added)
  {
    RunKeepsInv(Init(logGroupName), es);
    FlushedIsHandedOver(Run(Init(logGroupName), es));
    var p := Run(Init(logGroupName), es).provider;
    DividedTexts(Submitted(p.submitted), p.added);
  }

  lemma FlushedIsHandedOver(w: System)
    requires Inv(w) && Flushed(w.provider)
    ensures HandedOver(w.provider)
  {
    var p := w.provider;
    AccountSays(p, []);
    assert Submitted(p.submitted) + [] == Submitted(p.submitted) && TakenOff(p) == p.added;
  }

  // ---------------------------------------------------------------- a setup request that fails

  /** A request that was to find or make the group or the stream fails. */
  predicate FailsSetup(w: System, e: Event)
    requires CanHappen(w, e)
  {
    e.Replied? && e.reply.Failed? && !w.frames[e.frame].Sending?
  }

  /** After any run that ends with a setup request failing, the drainer is gone, and the queue and the batches
      sent before are still all that was ever added, in order. A timer that was set before starts another
      drainer; but there may be none, and then nothing happens any more until something is added. */
  lemma SetupFailureLosesNothing(logGroupName: string, es: seq<Event>, i: nat)
    requires CanRun(Init(logGroupName), es)
    requires var w := Run(Init(logGroupName), es); i < |w.frames| && !w.frames[i].Sending?
    ensures var w := Next(Run(Init(logGroupName), es), Replied(i, Failed));
            && w.frames == []
            && Submitted(w.provider.submitted) + Prepare(w.provider.logEvents) == Prepare(w.provider.added)
            && Says(w.provider, [])
            && (if w.provider.timers > 0 then |Next(w, TimerFired).frames| == 1
                else w.provider.logEvents != [] && forall e | CanHappen(w, e) :: e.Added?)
  {
    RunKeepsInv(Init(logGroupName), es);
    SetupFailureLeaves(Run(Init(logGroupName), es), i);
    TimerIsNeeded(Next(Run(Init(logGroupName), es), Replied(i, Failed)));
  }

  lemma TimerIsNeeded(w: System)
    requires w.frames == [] && !w.provider.processing && w.provider.logEvents != []
    ensures if w.provider.timers > 0 then |Next(w, TimerFired).frames| == 1 else forall e | CanHappen(w, e) :: e.Added?
  {
  }

  lemma SetupFailureLeaves(w: System, i: nat)
    requires Inv(w) && i < |w.frames| && !w.frames[i].Sending?
    ensures var w' := Next(w, Replied(i, Failed));
            && w'.frames == [] && !w'.provider.processing && w'.provider.logEvents != []
            && Submitted(w'.provider.submitted) + Prepare(w'.provider.logEvents) == Prepare(w'.provider.added)
            && Says(w'.provider, [])
  {
    var w' := Next(w, Replied(i, Failed));
    SetupFailureKeeps(w, i);
    NextKeepsInv(w, Replied(i, Failed));
    assert Submitted(w'.provider.submitted) + [] == Submitted(w'.provider.submitted);
    AccountSays(w'.provider, []);
  }

  lemma SetupFailureKeeps(w: System, i: nat)
    requires Inv(w) && i < |w.frames| && !w.frames[i].Sending?
    ensures Next(w, Replied(i, Failed)) == System(w.provider.(processing := false), []) && w.provider.logEvents != []
  {
    OneReply(w, i, Failed);
    SetupFrame(w.provider, w.frames[0]);
  }

  // ---------------------------------------------------------------- when everything can still be handed over

  /** Nothing is left to do, or a drainer runs, or a timer is left to start one. */
  predicate Live(w: System) {
    Flushed(w.provider) || w.frames != [] || w.provider.timers > 0
  }

  /** The reply of a service that is well. */
  function GoodReply(p: Provider, frame: Frame): (reply: Reply)
    ensures Fits(frame, reply) && !reply.Failed?
  {
    match frame
    case Describing(_) => Described([p.logGroupName], None)
    case CreatingGroup => Created
    case CreatingStream => Created
    case Sending(_) => Sent(None)
  }

  function GoodEvent(w: System): (e: Event)
    requires w.frames != [] || w.provider.timers > 0
    ensures CanHappen(w, e) && !e.Added? && !FailsSetup(w, e)
  {
    if w.frames == [] then TimerFired else Replied(0, GoodReply(w.provider, w.frames[0]))
  }

  /** How far a drainer is from taking the queue. */
  function Phase(p: Provider, f: Option<Frame>): nat {
    match f
    case None => 3
    case Some(Sending(filled)) => 4 + |Pending(Sending(filled))|
    case Some(CreatingStream) => if p.logGroupVerified then 1 else 2
    case _ => if p.logStreamCreated then 1 else 2
  }

  function Current(w: System): Option<Frame> {
    if w.frames == [] then None else Some(w.frames[0])
  }

  ghost predicate Nearer(o: Outcome, queue: nat, phase: nat) {
    |o.0.logEvents| < queue || (|o.0.logEvents| == queue && Phase(o.0, o.1) < phase)
  }

  lemma ProceedIsNearer(p: Provider, phase: nat)
    requires p.logEvents != []
    requires phase > 2 || (phase == 2 && (p.logGroupVerified || p.logStreamCreated)) || (phase == 1 && p.logGroupVerified && p.logStreamCreated)
    ensures Nearer(Proceed(p), |p.logEvents|, phase)
  {
  }

  lemma PendingShrinks(f: Filled)
    requires GoodFilled(f) && f.held.Some?
    ensures |Pending(Sending(Fill(HeldChunks(f.held), f.rest)))| < |Pending(Sending(f))|
  {
    FillIsGood(f.held, f.rest);
    var g := Fill(HeldChunks(f.held), f.rest);
    assert |g.batch + HeldChunks(g.held) + g.rest| == |g.batch| + |HeldChunks(g.held) + g.rest|;
  }

  lemma SentIsNearer(p: Provider, f: Filled)
    requires GoodFilled(f)
    ensures Nearer(Resume(p, Sending(f), Sent(None)), |p.logEvents|, Phase(p, Some(Sending(f))))
  {
    var q := p.(sequenceToken := None);
    if f.held.Some? {
      PendingShrinks(f);
    } else if p.logEvents != [] {
      ProceedIsNearer(q, 4);
    }
  }

  lemma GoodReplyIsNearer(p: Provider, frame: Frame)
    requires Inv(System(p, [frame]))
    ensures Nearer(Resume(p, frame, GoodReply(p, frame)), |p.logEvents|, Phase(p, Some(frame)))
  {
    assert [frame][0] == frame;
    match frame
    case Sending(f) => SentIsNearer(p, f);
    case CreatingStream => ProceedIsNearer(p.(logStreamCreated := true), Phase(p, Some(frame)));
    case _ => ProceedIsNearer(p.(logGroupVerified := true), Phase(p, Some(frame)));
  }

  lemma GoodEventIsNearer(w: System)
    requires Inv(w) && Live(w) && !Flushed(w.provider)
    ensures var w' := Next(w, GoodEvent(w));
            Inv(w') && Nearer((w'.provider, Current(w')), |w.provider.logEvents|, Phase(w.provider, Current(w)))
  {
    var p := w.provider;
    NextKeepsInv(w, GoodEvent(w));
    if w.frames == [] {
      ProceedIsNearer(p.(processing := true, timers := p.timers - 1), 3);
      var f := Fire(p).1;
      assert [] + Frames(f) == Frames(f);
    } else {
      OneReply(w, 0, GoodReply(p, w.frames[0]));
      GoodReplyIsNearer(p, w.frames[0]);
    }
  }

  /** A drainer goes on until the queue is empty, unless a setup request fails. */
  lemma ResumeStaysLive(p: Provider, frame: Frame, reply: Reply)
    requires Inv(System(p, [frame])) && Fits(frame, reply) && (reply.Failed? ==> frame.Sending?)
    ensures var (q, f) := Resume(p, frame, reply); f.Some? || (q.logEvents == [] && !q.processing)
  {
    assert [frame][0] == frame;
  }

  lemma OneReply(w: System, i: nat, reply: Reply)
    requires |w.frames| <= 1 && CanHappen(w, Replied(i, reply))
    ensures i == 0 && w == System(w.provider, [w.frames[0]])
    ensures var (q, f) := Resume(w.provider, w.frames[0], reply); Next(w, Replied(i, reply)) == System(q, Frames(f))
  {
    var f := Resume(w.provider, w.frames[0], reply).1;
    assert w.frames[..0] + Frames(f) + w.frames[1..] == Frames(f);
  }

  /** From a live state a step leads to one where nothing happens any more, with events queued, exactly if a
      setup request fails and no timer is left. */
  lemma StrandedExactly(w: System, e: Event)
    requires Inv(w) && Live(w) && CanHappen(w, e)
    ensures !Live(Next(w, e)) <==> FailsSetup(w, e) && w.provider.timers == 0
  {
    match e
    case Added(_) =>
    case TimerFired => TimerStaysLive(w);
    case Replied(i, reply) =>
      OneReply(w, i, reply);
      if FailsSetup(w, e) {
        SetupFailureKeeps(w, i);
      } else {
        ResumeStaysLive(w.provider, w.frames[0], reply);
      }
  }

  lemma TimerStaysLive(w: System)
    requires Inv(w) && w.provider.timers > 0
    ensures Live(Next(w, TimerFired))
  {
    var f := Fire(w.provider).1;
    assert |w.frames + Frames(f)| == |w.frames| + |Frames(f)|;
  }

  /** Nothing is added any more. */
  ghost predicate NothingAdded(es: seq<Event>) {
    forall i | 0 <= i < |es| :: !es[i].Added?
  }

  lemma AddsNothing(w: System, e: Event)
    requires CanHappen(w, e) && !e.Added?
    ensures Next(w, e).provider.added == w.provider.added
  {
    match e
    case TimerFired =>
      var p := Fire(w.provider).0;
      assert p.added == w.provider.added;
    case Replied(i, reply) =>
      var p := Resume(w.provider, w.frames[i], reply).0;
      assert p.added == w.provider.added;
  }

  lemma {:induction false} CanFinish(w: System) returns (es: seq<Event>)
    requires Inv(w) && Live(w)
    ensures CanRun(w, es) && NothingAdded(es) && Flushed(Run(w, es).provider)
    decreases |w.provider.logEvents|, Phase(w.provider, Current(w))
  {
    if Flushed(w.provider) {
      es := [];
    } else {
      GoodEventIsNearer(w);
      StrandedExactly(w, GoodEvent(w));
      var rest := CanFinish(Next(w, GoodEvent(w)));
      es := OneMore(w, GoodEvent(w), rest);
    }
  }

  lemma OneMore(w: System, e: Event, rest: seq<Event>) returns (es: seq<Event>)
    requires CanHappen(w, e) && CanRun(Next(w, e), rest) && !e.Added? && NothingAdded(rest)
    ensures CanRun(w, es) && NothingAdded(es) && Run(w, es) == Run(Next(w, e), rest)
  {
    es := [e] + rest;
    assert es[1..] == rest;
  }

  /** In a state that is not live nothing but an addition can happen. */
  lemma NothingHappens(w: System, es: seq<Event>)
    requires !Live(w) && CanRun(w, es) && NothingAdded(es)
    ensures es == []
  {
    if es != [] {
      assert false;
    }
  }

  /** With nothing added any more, timers and replies can lead to where `flush` ends exactly from the states that are live. */
  lemma FlushCanEndExactly(w: System)
    requires Inv(w)
    ensures (exists es :: CanRun(w, es) && NothingAdded(es) && Flushed(Run(w, es).provider)) <==> Live(w)
  {
    if Live(w) {
      var es := CanFinish(w);
      assert Flushed(Run(w, es).provider);
    }
    forall es | CanRun(w, es) && NothingAdded(es) && Flushed(Run(w, es).provider) ensures Live(w) {
      if !Live(w) {
        NothingHappens(w, es);
      }
    }
  }

  lemma {:induction false} RunAddsNothing(w: System, es: seq<Event>)
    requires CanRun(w, es) && NothingAdded(es)
    ensures Run(w, es).provider.added == w.provider.added
    decreases |es|
  {
    if es != [] {
      var rest := es[1..];
      assert forall i | 0 <= i < |rest| :: rest[i] == es[i + 1];
      AddsNothing(w, es[0]);
      RunAddsNothing(Next(w, es[0]), rest);
    }
  }

  /** After any run, with nothing added any more, everything can still be handed over exactly if the state is
      live, or what is queued says nothing at all. */
  lemma DeliveryCanFinishExactly(logGroupName: string, es: seq<Event>)
    requires CanRun(Init(logGroupName), es)
    ensures var w := Run(Init(logGroupName), es);
            (exists more :: CanRun(w, more) && NothingAdded(more) && HandedOver(Run(w, more).provider))
            <==> Live(w) || Messages(w.provider.logEvents) == []
  {
    RunKeepsInv(Init(logGroupName), es);
    var w := Run(Init(logGroupName), es);
    if Live(w) {
      LiveCanFinish(w);
    } else {
      StrandedIsStuck(w);
    }
  }

  lemma LiveCanFinish(w: System)
    requires Inv(w) && Live(w)
    ensures exists more :: CanRun(w, more) && NothingAdded(more) && HandedOver(Run(w, more).provider)
  {
    var more := CanFinish(w);
    RunKeepsInv(w, more);
    FlushedIsHandedOver(Run(w, more));
    assert HandedOver(Run(w, more).provider);
  }

  lemma StrandedIsStuck(w: System)
    requires Inv(w) && !Live(w)
    ensures (exists more :: CanRun(w, more) && NothingAdded(more) && HandedOver(Run(w, more).provider))
       <==> Messages(w.provider.logEvents) == []
  {
    StrandedAccount(w);
    assert CanRun(w, []) && NothingAdded([]) && Run(w, []) == w;
    forall more | CanRun(w, more) && NothingAdded(more) ensures Run(w, more) == w {
      NothingHappens(w, more);
    }
  }

  lemma StrandedAccount(w: System)
    requires Inv(w) && w.frames == []
    ensures HandedOver(w.provider) <==> Messages(w.provider.logEvents) == []
  {
    var p := w.provider;
    var sent, taken := Submitted(p.submitted), TakenOff(p);
    AccountSays(p, []);
    assert sent + [] == sent && p.added == taken + p.logEvents;
    MessagesTogether(taken, p.logEvents);
    DividedTexts(sent, taken);
    if Divided(sent, p.added) {
      DividedTexts(sent, p.added);
    }
    if Messages(p.logEvents) == [] {
      SilenceIsNotSent(p.logEvents);
      assert sent + [] + [] == sent;
      PrepareDivides(p.added);
    }
  }

  /** No setup request fails in the run. */
  predicate SetupsSucceed(w: System, es: seq<Event>)
    requires CanRun(w, es)
    decreases |es|
  {
    es == [] || (!FailsSetup(w, es[0]) && SetupsSucceed(Next(w, es[0]), es[1..]))
  }

  /** So as long as no setup request fails, or from the next addition on, every state is live. */
  lemma {:induction false} StaysLive(w: System, es: seq<Event>)
    requires Inv(w) && CanRun(w, es) && SetupsSucceed(w, es)
    requires Live(w) || (es != [] && es[0].Added?)
    ensures Live(Run(w, es))
    decreases |es|
  {
    if es != [] {
      var w' := Next(w, es[0]);
      NextKeepsInv(w, es[0]);
      if Live(w) {
        StrandedExactly(w, es[0]);
      }
      StaysLive(w', es[1..]);
    }
  }

  lemma RunOf3(w: System, a: Event, b: Event, c: Event)
    requires CanHappen(w, a) && CanHappen(Next(w, a), b) && CanHappen(Next(Next(w, a), b), c)
    ensures CanRun(w, [a, b, c]) && Run(w, [a, b, c]) == Next(Next(Next(w, a), b), c)
  {
    var w1, w2 := Next(w, a), Next(Next(w, a), b);
    assert [a, b, c][1..] == [b, c] && [b, c][1..] == [c] && [c][1..] == [];
    assert CanRun(w2, [c]) && CanRun(w1, [b, c]);
    assert Run(w2, [c]) == Run(Next(w2, c), []);
  }

  /** One event, its timer, and a rejected DescribeLogGroups request: the event stays queued, and without
      another addition nothing happens any more, and a `flush` without a deadline does not end. */
  lemma FailedSetupStrands(logGroupName: string, e: LogEvent)
    ensures var es := [Added(e), TimerFired, Replied(0, Failed)];
            && CanRun(Init(logGroupName), es)
            && var w := Run(Init(logGroupName), es);
               && w.provider.logEvents == [e] && w.frames == [] && !Live(w)
               && forall more | CanRun(w, more) && NothingAdded(more) :: Run(w, more) == w && !Flushed(Run(w, more).provider)
  {
    var w := Init(logGroupName);
    var w1 := Next(w, Added(e));
    var w2 := Next(w1, TimerFired);
    assert w1.provider.logEvents == [e] && w1.frames == [];
    assert w2 == System(w1.provider.(timers := 0, processing := true), [Describing(None)]);
    OneReply(w2, 0, Failed);
    RunOf3(w, Added(e), TimerFired, Replied(0, Failed));
    var w3 := Next(w2, Replied(0, Failed));
    forall more | CanRun(w3, more) && NothingAdded(more) ensures Run(w3, more) == w3 {
      NothingHappens(w3, more);
    }
  }

  // ---------------------------------------------------------------- tokens and pages

  /** The reply that came last, if there was one. */
  function LastReply(es: seq<Event>): Option<Reply> {
    if es == [] then None
    else if es[|es| - 1].Replied? then Some(es[|es| - 1].reply)
    else LastReply(es[..|es| - 1])
  }

  /** The sequence token of the last `PutLogEvents` request that did not fail; none before the first. */
  function LastToken(es: seq<Event>): Option<string> {
    if es == [] then None
    else
      match es[|es| - 1]
      case Replied(_, Sent(token)) => token
      case _ => LastToken(es[..|es| - 1])
  }

  lemma {:induction false} RunPush(w: System, es: seq<Event>, e: Event)
    requires CanRun(w, es) && CanHappen(Run(w, es), e)
    ensures CanRun(w, es + [e]) && Run(w, es + [e]) == Next(Run(w, es), e)
    decreases |es|
  {
    if es == [] {
      assert es + [e] == [e] && [e][1..] == [];
      assert CanRun(Next(w, e), []);
    } else {
      assert (es + [e])[0] == es[0] && (es + [e])[1..] == es[1..] + [e];
      RunPush(Next(w, es[0]), es[1..], e);
    }
  }

  lemma {:induction false} RunLast(w: System, es: seq<Event>)
    requires CanRun(w, es) && es != []
    ensures var n := |es| - 1;
            CanRun(w, es[..n]) && CanHappen(Run(w, es[..n]), es[n]) && Run(w, es) == Next(Run(w, es[..n]), es[n])
    decreases |es|
  {
    var n := |es| - 1;
    if n > 0 {
      RunLast(Next(w, es[0]), es[1..]);
      assert es[..n][1..] == es[1..][..n - 1];
    } else {
      assert es[1..] == [] && es[..0] == [];
    }
  }

  /** What the last reply must have been for a drainer to wait for this frame's request, or for there to be none. */
  predicate Asked(name: string, current: Option<Frame>, last: Option<Reply>) {
    match current
    case None => last.None? || !last.value.Described?
    case Some(Describing(None)) => last.None? || !last.value.Described?
    case Some(Describing(Some(page))) =>
      last.Some? && last.value.Described? && last.value.nextToken == Some(page) && name !in last.value.logGroups
    case Some(CreatingGroup) =>
      last.Some? && last.value.Described? && last.value.nextToken == None && name !in last.value.logGroups
    case _ => true
  }

  lemma StepAsks(w: System, e: Event, last: Option<Reply>)
    requires |w.frames| <= 1 && CanHappen(w, e) && Inv(w) && Asked(w.provider.logGroupName, Current(w), last)
    requires |Next(w, e).frames| <= 1
    ensures var w' := Next(w, e);
            && w'.provider.logGroupName == w.provider.logGroupName
            && Asked(w.provider.logGroupName, Current(w'), if e.Replied? then Some(e.reply) else last)
  {
    match e
    case Added(_) =>
    case TimerFired => TimerAsks(w, last);
    case Replied(i, reply) =>
      OneReply(w, i, reply);
      ResumeAsks(w.provider, w.frames[0], reply);
  }

  lemma TimerAsks(w: System, last: Option<Reply>)
    requires Inv(w) && w.provider.timers > 0 && Asked(w.provider.logGroupName, Current(w), last)
    ensures var w' := Next(w, TimerFired);
            w'.provider.logGroupName == w.provider.logGroupName && Asked(w.provider.logGroupName, Current(w'), last)
  {
    var f := Fire(w.provider).1;
    if w.frames == [] {
      assert [] + Frames(f) == Frames(f);
    } else {
      assert Frames(f) == [] && w.frames + [] == w.frames;
    }
  }

  lemma ResumeAsks(p: Provider, frame: Frame, reply: Reply)
    requires Inv(System(p, [frame])) && Fits(frame, reply)
    ensures var (q, f) := Resume(p, frame, reply); q.logGroupName == p.logGroupName && Asked(p.logGroupName, f, Some(reply))
  {
    assert [frame][0] == frame;
  }

  /** In every run: a further page of log groups is asked for by the token of the last reply, which did not have
      the name; the first page is asked for only if no page was read just before; and the group is created only
      upon a last page without the name. */
  lemma {:induction false} PagesFollow(logGroupName: string, es: seq<Event>)
    requires CanRun(Init(logGroupName), es)
    ensures var w := Run(Init(logGroupName), es);
            && w.provider.logGroupName == logGroupName
            && Asked(logGroupName, Current(w), LastReply(es))
    decreases |es|
  {
    if es != [] {
      var n := |es| - 1;
      RunLast(Init(logGroupName), es);
      PagesFollow(logGroupName, es[..n]);
      RunKeepsInv(Init(logGroupName), es[..n]);
      RunKeepsInv(Init(logGroupName), es);
      StepAsks(Run(Init(logGroupName), es[..n]), es[n], LastReply(es[..n]));
    }
  }

  lemma StepKeepsToken(w: System, e: Event)
    requires |w.frames| <= 1 && CanHappen(w, e)
    ensures var w' := Next(w, e);
            && w'.provider.sequenceToken == (if e.Replied? && e.reply.Sent? then e.reply.nextSequenceToken else w.provider.sequenceToken)
            && (w'.provider.submitted == w.provider.submitted
                || exists batch :: w'.provider.submitted == w.provider.submitted + [Request(batch, w'.provider.sequenceToken)])
  {
    match e
    case Added(_) =>
    case TimerFired => StartKeepsToken(w.provider.(timers := w.provider.timers - 1));
    case Replied(i, reply) =>
      OneReply(w, i, reply);
      ResumeKeepsToken(w.provider, w.frames[0], reply);
  }

  /** At most one request goes out, and with the token there is. */
  ghost predicate OneRequest(p: Provider, q: Provider) {
    && q.sequenceToken == p.sequenceToken
    && (q.submitted == p.submitted || exists batch :: q.submitted == p.submitted + [Request(batch, p.sequenceToken)])
  }

  lemma StartKeepsToken(p: Provider)
    ensures OneRequest(p, Start(p).0) && OneRequest(p, Drain(p).0) && OneRequest(p, Proceed(p).0)
  {
  }

  lemma ResumeKeepsToken(p: Provider, frame: Frame, reply: Reply)
    requires Fits(frame, reply)
    ensures OneRequest(if reply.Sent? then p.(sequenceToken := reply.nextSequenceToken) else p, Resume(p, frame, reply).0)
  {
    StartKeepsToken(p);
    StartKeepsToken(p.(logGroupVerified := true));
    StartKeepsToken(p.(logStreamCreated := true));
    if reply.Sent? {
      StartKeepsToken(p.(sequenceToken := reply.nextSequenceToken));
    }
  }

  lemma {:induction false} TokenIsLast(logGroupName: string, es: seq<Event>)
    requires CanRun(Init(logGroupName), es)
    ensures Run(Init(logGroupName), es).provider.sequenceToken == LastToken(es)
    decreases |es|
  {
    if es != [] {
      var n := |es| - 1;
      RunLast(Init(logGroupName), es);
      TokenIsLast(logGroupName, es[..n]);
      RunKeepsInv(Init(logGroupName), es[..n]);
      StepKeepsToken(Run(Init(logGroupName), es[..n]), es[n]);
    }
  }

  /** After every run a step hands over one request at most, and it carries the token of the last `PutLogEvents`
      request that did not fail. */
  lemma RequestsCarryLastToken(logGroupName: string, es: seq<Event>, e: Event)
    requires CanRun(Init(logGroupName), es) && CanHappen(Run(Init(logGroupName), es), e)
    ensures var w := Run(Init(logGroupName), es);
            var w' := Next(w, e);
            w'.provider.submitted == w.provider.submitted
            || exists batch :: w'.provider.submitted == w.provider.submitted + [Request(batch, LastToken(es + [e]))]
  {
    RunPush(Init(logGroupName), es, e);
    TokenIsLast(logGroupName, es + [e]);
    RunKeepsInv(Init(logGroupName), es);
    StepKeepsToken(Run(Init(logGroupName), es), e);
  }

  // ---------------------------------------------------------------- before the first batch

  /** A reply has said that the group is there, or that it has been created. */
  predicate GroupFound(logGroupName: string, es: seq<Event>)
    requires CanRun(Init(logGroupName), es)
    decreases |es|
  {
    es != [] &&
      (RunLast(Init(logGroupName), es);
       var w, e := Run(Init(logGroupName), es[..|es| - 1]), es[|es| - 1];
       || GroupFound(logGroupName, es[..|es| - 1])
       || (e.Replied? && e.reply.Described? && logGroupName in e.reply.logGroups)
       || (e.Replied? && e.reply.Created? && w.frames[e.frame].CreatingGroup?))
  }

  /** A reply has said that the stream has been created. */
  predicate StreamMade(logGroupName: string, es: seq<Event>)
    requires CanRun(Init(logGroupName), es)
    decreases |es|
  {
    es != [] &&
      (RunLast(Init(logGroupName), es);
       var w, e := Run(Init(logGroupName), es[..|es| - 1]), es[|es| - 1];
       || StreamMade(logGroupName, es[..|es| - 1])
       || (e.Replied? && e.reply.Created? && w.frames[e.frame].CreatingStream?))
  }

  /** What is sent is sent with both flags set, and a flag is set only by the reply that says so. */
  ghost predicate Flagged(p: Provider, frame: Option<Frame>) {
    (p.submitted != [] || (frame.Some? && frame.value.Sending?)) ==> p.logGroupVerified && p.logStreamCreated
  }

  lemma StartKeepsFlags(p: Provider)
    requires Flagged(p, None)
    ensures forall o | o in [Start(p), Drain(p), Proceed(p)] ::
      Flagged(o.0, o.1) && o.0.logGroupVerified == p.logGroupVerified && o.0.logStreamCreated == p.logStreamCreated
  {
  }

  lemma ResumeKeepsFlags(p: Provider, frame: Frame, reply: Reply)
    requires Flagged(p, Some(frame)) && Fits(frame, reply)
    ensures var (q, f) := Resume(p, frame, reply);
            && Flagged(q, f)
            && (q.logGroupVerified ==> p.logGroupVerified || (reply.Described? && p.logGroupName in reply.logGroups)
                                       || (reply.Created? && frame.CreatingGroup?))
            && (q.logStreamCreated ==> p.logStreamCreated || (reply.Created? && frame.CreatingStream?))
  {
    StartKeepsFlags(p);
    StartKeepsFlags(p.(logGroupVerified := true));
    StartKeepsFlags(p.(logStreamCreated := true));
    if reply.Sent? {
      StartKeepsFlags(p.(sequenceToken := reply.nextSequenceToken));
    }
  }

  lemma StepKeepsFlags(w: System, e: Event)
    requires OneDrainer(w) && Flagged(w.provider, Current(w)) && CanHappen(w, e)
    ensures var w' := Next(w, e);
            && Flagged(w'.provider, Current(w'))
            && (w'.provider.logGroupVerified ==>
                  || w.provider.logGroupVerified
                  || (e.Replied? && e.reply.Described? && w.provider.logGroupName in e.reply.logGroups)
                  || (e.Replied? && e.reply.Created? && w.frames[e.frame].CreatingGroup?))
            && (w'.provider.logStreamCreated ==>
                  w.provider.logStreamCreated || (e.Replied? && e.reply.Created? && w.frames[e.frame].CreatingStream?))
  {
    match e
    case Added(_) =>
    case TimerFired => FireKeepsFlags(w);
    case Replied(i, reply) =>
      OneReply(w, i, reply);
      ResumeKeepsFlags(w.provider, w.frames[0], reply);
  }

  lemma FireKeepsFlags(w: System)
    requires OneDrainer(w) && Flagged(w.provider, Current(w)) && w.provider.timers > 0
    ensures var w' := Next(w, TimerFired);
            && Flagged(w'.provider, Current(w'))
            && w'.provider.logGroupVerified == w.provider.logGroupVerified && w'.provider.logStreamCreated == w.provider.logStreamCreated
  {
    var p := w.provider.(timers := w.provider.timers - 1);
    var (q, f) := Start(p);
    if w.provider.processing {
      assert Frames(f) == [] && w.frames + [] == w.frames;
    } else {
      StartKeepsFlags(p);
      assert w.frames == [] && [] + Frames(f) == Frames(f);
    }
  }

  lemma {:induction false} FlagsAreEarned(logGroupName: string, es: seq<Event>)
    requires CanRun(Init(logGroupName), es)
    ensures var w := Run(Init(logGroupName), es);
            && Flagged(w.provider, Current(w))
            && (w.provider.logGroupVerified ==> GroupFound(logGroupName, es))
            && (w.provider.logStreamCreated ==> StreamMade(logGroupName, es))
    decreases |es|
  {
    if es != [] {
      var n := |es| - 1;
      RunLast(Init(logGroupName), es);
      FlagsAreEarned(logGroupName, es[..n]);
      RunKeepsInv(Init(logGroupName), es[..n]);
      PagesFollow(logGroupName, es[..n]);
      StepKeepsFlags(Run(Init(logGroupName), es[..n]), es[n]);
    }
  }

  /** In every run nothing is handed over before a reply has said that the group is there, and another that the
      stream has been created. */
  lemma NothingSentBeforeSetup(logGroupName: string, es: seq<Event>)
    requires CanRun(Init(logGroupName), es) && Run(Init(logGroupName), es).provider.submitted != []
    ensures GroupFound(logGroupName, es) && StreamMade(logGroupName, es)
  {
    FlagsAreEarned(logGroupName, es);
  }
}
