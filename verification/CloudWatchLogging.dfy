/**
 `AwsCloudWatchLoggerProvider`: a queue that producers append to while at most one drainer, an
 asynchronous `processBatch`, empties it into `PutLogEvents` requests.

 Code between two awaits runs to completion, so each method below is one such segment: it runs
 from a timer or a reply to the next request. What a suspended `processBatch` remembers is its frame.
*/
module CloudWatchLogging {
  import opened Wrappers
  import opened LogSplitting
  import opened LogBatching

  /** The request a suspended `processBatch` waits for, with its local variables. */
  datatype Frame =
    | Describing(nextToken: Option<string>)
    | CreatingGroup
    | CreatingStream
    | Sending(filled: Filled)

  datatype Reply =
    | Failed
    | Described(logGroups: seq<string>, nextToken: Option<string>)
    | Created
    | Sent(nextSequenceToken: Option<string>)

  predicate Fits(frame: Frame, reply: Reply) {
    match frame
    case Describing(_) => reply.Failed? || reply.Described?
    case CreatingGroup => reply.Failed? || reply.Created?
    case CreatingStream => reply.Failed? || reply.Created?
    case Sending(_) => reply.Failed? || reply.Sent?
  }

  datatype Request = Request(logEvents: seq<Chunk>, sequenceToken: Option<string>)

  /** The fields of the provider, and the timers that it has set and that have not fired. `added` and `submitted`
      record every event ever added and every `PutLogEvents` request ever handed to the client. */
  datatype Provider = Provider(
    logGroupName: string,
    logEvents: seq<LogEvent>,
    logGroupVerified: bool,
    logStreamCreated: bool,
    processing: bool,
    sequenceToken: Option<string>,
    timers: nat,
    added: seq<LogEvent>,
    submitted: seq<Request>)

  type Outcome = (Provider, Option<Frame>)

  /** Every addition sets a timer, and nothing else does. */
  function Add(p: Provider, e: LogEvent): Provider {
    p.(logEvents := p.logEvents + [e], timers := p.timers + 1, added := p.added + [e])
  }

  /** A timer fires once. */
  function Fire(p: Provider): Outcome
    requires p.timers > 0
  {
    Start(p.(timers := p.timers - 1))
  }

  function Start(p: Provider): Outcome {
    if p.processing || p.logEvents == [] then (p, None) else Drain(p.(processing := true))
  }

  /** The test of the outer loop, and one turn of it up to its first request. */
  function Drain(p: Provider): Outcome {
    if p.logEvents == [] then (p.(processing := false), None) else Proceed(p)
  }

  function Proceed(p: Provider): Outcome {
    if !p.logGroupVerified then (p, Some(Describing(None)))
    else if !p.logStreamCreated then (p, Some(CreatingStream))
    else Submit(p.(logEvents := []), Fill([], Prepare(p.logEvents)))
  }

  function Submit(p: Provider, f: Filled): Outcome {
    (p.(submitted := p.submitted + [Request(f.batch, p.sequenceToken)]), Some(Sending(f)))
  }

  function Abort(p: Provider): Outcome {
    (p.(processing := false), None)
  }

  function Resume(p: Provider, frame: Frame, reply: Reply): Outcome
    requires Fits(frame, reply)
  {
    match frame
    case Describing(_) =>
      if reply.Failed? then Abort(p)
      else if p.logGroupName in reply.logGroups then Proceed(p.(logGroupVerified := true))
      else if reply.nextToken.Some? then (p, Some(Describing(reply.nextToken)))
      else (p, Some(CreatingGroup))
    case CreatingGroup => if reply.Failed? then Abort(p) else Proceed(p.(logGroupVerified := true))
    case CreatingStream => if reply.Failed? then Abort(p) else Proceed(p.(logStreamCreated := true))
    case Sending(f) =>
      // a failed PutLogEvents is logged and otherwise ignored
      var q := if reply.Failed? then p else p.(sequenceToken := reply.nextSequenceToken);
      if f.held.Some? then Submit(q, Fill(HeldChunks(f.held), f.rest)) else Drain(q)
  }

  // ---------------------------------------------------------------- the class

  class AwsCloudWatchLoggerProvider {
    const logGroupName: string
    var logEvents: seq<LogEvent>
    var logGroupVerified: bool
    var logStreamCreated: bool
    var processing: bool
    var sequenceToken: Option<string>
    var timers: nat
    ghost var added: seq<LogEvent>
    ghost var submitted: seq<Request>

    ghost function View(): Provider
      reads this
    {
      Provider(logGroupName, logEvents, logGroupVerified, logStreamCreated, processing, sequenceToken, timers, added, submitted)
    }

    constructor (logGroupName: string)
      ensures View() == Provider(logGroupName, [], false, false, false, None, 0, [], [])
    {
      this.logGroupName := logGroupName;
      logEvents, logGroupVerified, logStreamCreated, processing := [], false, false, false;
      sequenceToken, timers, added, submitted := None, 0, [], [];
    }

    method AddLogEvent(e: LogEvent)
      modifies this
      ensures View() == Add(old(View()), e)
    {
      logEvents := logEvents + [e];
      added := added + [e];
      timers := timers + 1;
    }

    /** What runs when a timer that was set fires. */
    method OnTimer() returns (frame: Option<Frame>)
      requires timers > 0
      modifies this
      ensures (View(), frame) == Fire(old(View()))
    {
      timers := timers - 1;
      frame := ProcessBatch();
    }

    /** `processBatch`, from its timer to its first request. */
    method ProcessBatch() returns (frame: Option<Frame>)
      modifies this
      ensures (View(), frame) == Start(old(View()))
    {
      if processing || |logEvents| == 0 {
        return None;
      }
      processing := true;
      frame := NextRequest();
    }

    method NextRequest() returns (frame: Option<Frame>)
      requires processing
      modifies this
      ensures (View(), frame) == Drain(old(View()))
    {
      if |logEvents| == 0 {
        processing := false;
        frame := None;
      } else {
        frame := NextStage();
      }
    }

    method NextStage() returns (frame: Option<Frame>)
      modifies this
      ensures (View(), frame) == Proceed(old(View()))
    {
      if !logGroupVerified {
        frame := Some(Describing(None));
      } else if !logStreamCreated {
        frame := Some(CreatingStream);
      } else {
        var prepared := TakeLogEvents();
        frame := SendNextBatch(None, prepared);
      }
    }

    /** Shifts the whole queue and splits every message into chunks. */
    method TakeLogEvents() returns (preparedLogEvents: seq<Chunk>)
      modifies this`logEvents
      ensures preparedLogEvents == Prepare(old(logEvents)) && logEvents == []
    {
      preparedLogEvents := [];
      ghost var taken := [];
      while |logEvents| > 0
        invariant taken + logEvents == old(logEvents)
        invariant preparedLogEvents == Prepare(taken)
        decreases |logEvents|
      {
        var logEvent := logEvents[0];
        assert taken + logEvents == taken + [logEvent] + logEvents[1..];
        logEvents := logEvents[1..];
        preparedLogEvents := PushChunks(preparedLogEvents, logEvent);
        PreparePush(taken, logEvent);
        taken := taken + [logEvent];
      }
      assert taken == old(logEvents);
    }

    static method PushChunks(prepared: seq<Chunk>, logEvent: LogEvent) returns (preparedLogEvents: seq<Chunk>)
      ensures preparedLogEvents == prepared + SplitEvent(logEvent)
    {
      preparedLogEvents := prepared;
      var message := logEvent.message;
      while |message| > 0
        invariant prepared + SplitEvent(logEvent) == preparedLogEvents + Split(message, logEvent.timestamp)
        decreases |message|
      {
        var text, byteLength := ByteSubString(message, MAX_MESSAGE_BYTES);
        assert NextChunk(message, logEvent.timestamp) == Chunk(text, logEvent.timestamp, byteLength + EVENT_OVERHEAD);
        preparedLogEvents := preparedLogEvents + [Chunk(text, logEvent.timestamp, byteLength + EVENT_OVERHEAD)];
        message := message[|text|..];
      }
    }

    /** Moves prepared chunks into a batch until one does not fit, and hands the batch over. */
    method SendNextBatch(pending: Option<Chunk>, prepared: seq<Chunk>) returns (frame: Option<Frame>)
      modifies this`submitted
      ensures (View(), frame) == Submit(old(View()), Fill(HeldChunks(pending), prepared))
    {
      var inputLogEvents, preparedLogEvents := HeldChunks(pending), prepared;
      var inputLogEventsByteLength := if pending.Some? then pending.value.byteLength else 0;
      assert inputLogEvents[..0] == [];
      ghost var all := Fill(inputLogEvents, prepared);
      var held := None;
      while |preparedLogEvents| > 0 && held.None?
        invariant inputLogEventsByteLength == Bytes(inputLogEvents)
        invariant submitted == old(submitted)
        invariant held.None? ==> all == Fill(inputLogEvents, preparedLogEvents)
        invariant held.Some? ==> all == Filled(inputLogEvents, held, preparedLogEvents)
        decreases |preparedLogEvents|
      {
        var preparedLogEvent := preparedLogEvents[0];
        preparedLogEvents := preparedLogEvents[1..];
        if inputLogEventsByteLength + preparedLogEvent.byteLength > MAX_REQUEST_BYTES {
          held := Some(preparedLogEvent);
        } else {
          BytesAppend(inputLogEvents, preparedLogEvent);
          inputLogEvents := inputLogEvents + [preparedLogEvent];
          inputLogEventsByteLength := inputLogEventsByteLength + preparedLogEvent.byteLength;
        }
      }
      assert held.None? ==> preparedLogEvents == [];
      submitted := submitted + [Request(inputLogEvents, sequenceToken)];
      frame := Some(Sending(Filled(inputLogEvents, held, preparedLogEvents)));
    }

    /** `processBatch`, from the reply to a request to its next request or its end. */
    method OnReply(frame: Frame, reply: Reply) returns (next: Option<Frame>)
      requires processing && Fits(frame, reply)
      modifies this
      ensures (View(), next) == Resume(old(View()), frame, reply)
    {
      match frame
      case Describing(_) =>
        if reply.Failed? {
          processing := false;
          return None;
        }
        for i := 0 to |reply.logGroups|
          invariant logGroupName !in reply.logGroups[..i]
          invariant View() == old(View())
        {
          if reply.logGroups[i] == logGroupName {
            logGroupVerified := true;
            break;
          }
        }
        if logGroupName in reply.logGroups {
          next := NextStage();
        } else {
          next := Some(if reply.nextToken.Some? then Describing(reply.nextToken) else CreatingGroup);
        }
      case CreatingGroup =>
        if reply.Failed? {
          processing := false;
          return None;
        }
        logGroupVerified := true;
        next := NextStage();
      case CreatingStream =>
        if reply.Failed? {
          processing := false;
          return None;
        }
        logStreamCreated := true;
        next := NextStage();
      case Sending(f) =>
        if !reply.Failed? {
          sequenceToken := reply.nextSequenceToken;
        }
        if f.held.Some? {
          next := SendNextBatch(f.held, f.rest);
        } else {
          next := NextRequest();
        }
    }
  }
}
