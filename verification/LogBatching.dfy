/** From log events to the batches that `PutLogEvents` accepts. */
module LogBatching {
  import opened Wrappers
  import opened LogSplitting
  import opened Sequences

  const MAX_MESSAGE_BYTES := 262118
  const EVENT_OVERHEAD := 26
  const MAX_REQUEST_BYTES := 1048576

  /** `message` is what the event's `toString` returns. */
  datatype LogEvent = LogEvent(message: Utf16, timestamp: int)

  datatype Chunk = Chunk(message: Utf16, timestamp: int, byteLength: nat)

  /** A chunk says something and fits one log event by its counted size. */
  predicate GoodChunk(c: Chunk) {
    c.message != [] && c.byteLength <= MAX_MESSAGE_BYTES + EVENT_OVERHEAD
  }

  /** What one pass of the splitting loop takes off the front of a message. */
  function NextChunk(message: Utf16, timestamp: int): (c: Chunk)
    requires message != []
    ensures GoodChunk(c) && c.message <= message && c.timestamp == timestamp
  {
    CutMakesProgress(message, MAX_MESSAGE_BYTES);
    var n := Cut(message, MAX_MESSAGE_BYTES);
    Chunk(message[..n], timestamp, Count(message, n) + EVENT_OVERHEAD)
  }

  /** The chunks of one message, in order. */
  function Split(message: Utf16, timestamp: int): (chunks: seq<Chunk>)
    decreases |message|
  {
    if message == [] then []
    else
      var c := NextChunk(message, timestamp);
      [c] + Split(message[|c.message|..], timestamp)
  }

  function SplitEvent(e: LogEvent): seq<Chunk> {
    Split(e.message, e.timestamp)
  }

  /** The chunks of all events, in order. */
  function Prepare(events: seq<LogEvent>): seq<Chunk> {
    Concat(seq(|events|, i requires 0 <= i < |events| => SplitEvent(events[i])))
  }

  function Bytes(batch: seq<Chunk>): nat {
    if batch == [] then 0 else Bytes(batch[..|batch| - 1]) + batch[|batch| - 1].byteLength
  }

  /** A batch being filled: `held` is the first chunk that did not fit, `rest` what comes after it. */
  datatype Filled = Filled(batch: seq<Chunk>, held: Option<Chunk>, rest: seq<Chunk>)

  function HeldChunks(held: Option<Chunk>): seq<Chunk> {
    if held.Some? then [held.value] else []
  }

  function Fill(batch: seq<Chunk>, prepared: seq<Chunk>): (f: Filled)
    decreases |prepared|
  {
    if prepared == [] then Filled(batch, None, [])
    else if Bytes(batch) + prepared[0].byteLength > MAX_REQUEST_BYTES then Filled(batch, Some(prepared[0]), prepared[1..])
    else Fill(batch + [prepared[0]], prepared[1..])
  }

  // ---------------------------------------------------------------- splitting

  function Text(chunks: seq<Chunk>): Utf16 {
    if chunks == [] then [] else chunks[0].message + Text(chunks[1..])
  }

  ghost predicate GoodChunks(chunks: seq<Chunk>) {
    forall i | 0 <= i < |chunks| :: GoodChunk(chunks[i])
  }

  /** The counted size covers what the service will count. */
  ghost predicate CoversUtf8(chunks: seq<Chunk>) {
    forall i | 0 <= i < |chunks| :: |ToUtf8(chunks[i].message)| + EVENT_OVERHEAD <= chunks[i].byteLength
  }

  /** Chunks that say the message, at its time, each of them a good one. */
  ghost predicate Faithful(chunks: seq<Chunk>, message: Utf16, timestamp: int) {
    && Text(chunks) == message
    && (message != [] ==> chunks != [])
    && GoodChunks(chunks)
    && forall i | 0 <= i < |chunks| :: chunks[i].timestamp == timestamp
  }

  /** One more chunk in front of faithful ones. */
  lemma ChunkInFront(c: Chunk, rest: seq<Chunk>, left: Utf16, timestamp: int)
    requires GoodChunk(c) && c.timestamp == timestamp && Faithful(rest, left, timestamp)
    ensures Faithful([c] + rest, c.message + left, timestamp)
  {
    assert ([c] + rest)[1..] == rest;
  }

  /** The chunks of a message say the message, at its time, and each is a good one. */
  lemma {:induction false} SplitIsFaithful(message: Utf16, timestamp: int)
    ensures Faithful(Split(message, timestamp), message, timestamp)
    decreases |message|
  {
    if message != [] {
      var c := NextChunk(message, timestamp);
      var left := message[|c.message|..];
      var rest := Split(left, timestamp);
      assert c.message + left == message && Split(message, timestamp) == [c] + rest;
      SplitIsFaithful(left, timestamp);
      ChunkInFront(c, rest, left, timestamp);
    }
  }

  lemma NextChunkCoversUtf8(message: Utf16, timestamp: int)
    requires message != []
    ensures var c := NextChunk(message, timestamp); |ToUtf8(c.message)| + EVENT_OVERHEAD <= c.byteLength
  {
    CountBoundsUtf8(message, Cut(message, MAX_MESSAGE_BYTES));
  }

  lemma {:induction false} SplitCoversUtf8(message: Utf16, timestamp: int)
    ensures CoversUtf8(Split(message, timestamp))
    decreases |message|
  {
    if message != [] {
      NextChunkCoversUtf8(message, timestamp);
      SplitCoversUtf8(message[|NextChunk(message, timestamp).message|..], timestamp);
    }
  }

  /** A chunk that another one follows has no room for one more code unit, which takes at most four bytes. */
  lemma {:induction false} SplitIsGreedy(message: Utf16, timestamp: int, i: nat)
    requires i + 1 < |Split(message, timestamp)|
    ensures 262144 - 4 < Split(message, timestamp)[i].byteLength <= 262144
    decreases |message|
  {
    var c := NextChunk(message, timestamp);
    if i == 0 {
      CutLeavesNoRoom(message, 262118);
    } else {
      SplitIsGreedy(message[|c.message|..], timestamp, i - 1);
    }
  }

  // ---------------------------------------------------------------- events

  /** The messages of events, one after the other. */
  function Messages(events: seq<LogEvent>): Utf16 {
    if events == [] then [] else Messages(events[..|events| - 1]) + events[|events| - 1].message
  }

  /** The chunks divide, event by event and in order, into pieces that say the event's message at its time. */
  ghost predicate Divided(chunks: seq<Chunk>, events: seq<LogEvent>) {
    exists pieces: seq<seq<Chunk>> :: IsDivision(pieces, chunks, events)
  }

  ghost predicate IsDivision(pieces: seq<seq<Chunk>>, chunks: seq<Chunk>, events: seq<LogEvent>) {
    && |pieces| == |events| && Concat(pieces) == chunks
    && forall i | 0 <= i < |events| :: Faithful(pieces[i], events[i].message, events[i].timestamp)
  }

  lemma DividedPush(chunks: seq<Chunk>, events: seq<LogEvent>, piece: seq<Chunk>, e: LogEvent)
    requires Divided(chunks, events) && Faithful(piece, e.message, e.timestamp)
    ensures Divided(chunks + piece, events + [e])
  {
    var pieces :| IsDivision(pieces, chunks, events);
    ConcatPush(pieces, piece);
    assert IsDivision(pieces + [piece], chunks + piece, events + [e]);
  }

  /** What is prepared for events is divided among them. */
  lemma {:induction false} PrepareDivides(events: seq<LogEvent>)
    ensures Divided(Prepare(events), events)
    decreases |events|
  {
    if events == [] {
      assert IsDivision([], Prepare([]), []);
    } else {
      var n := |events| - 1;
      var e := events[n];
      PrepareDivides(events[..n]);
      PreparePush(events[..n], e);
      SplitIsFaithful(e.message, e.timestamp);
      DividedPush(Prepare(events[..n]), events[..n], SplitEvent(e), e);
      assert events[..n] + [e] == events;
    }
  }

  lemma {:induction false} TextTogether(a: seq<Chunk>, b: seq<Chunk>)
    ensures Text(a + b) == Text(a) + Text(b)
  {
    if a == [] {
      assert a + b == b;
    } else {
      TextTogether(a[1..], b);
      assert (a + b)[0] == a[0] && (a + b)[1..] == a[1..] + b;
      Reassociate(a[0].message, Text(a[1..]), Text(b));
    }
  }

  /** So the chunks say all the messages, one after the other. */
  lemma {:induction false} DividedSays(pieces: seq<seq<Chunk>>, chunks: seq<Chunk>, events: seq<LogEvent>)
    requires IsDivision(pieces, chunks, events)
    ensures Text(chunks) == Messages(events)
    decreases |events|
  {
    if events != [] {
      var n := |events| - 1;
      ConcatPush(pieces[..n], pieces[n]);
      assert pieces[..n] + [pieces[n]] == pieces;
      DividedSays(pieces[..n], Concat(pieces[..n]), events[..n]);
      TextTogether(Concat(pieces[..n]), pieces[n]);
    }
  }

  lemma DividedTexts(chunks: seq<Chunk>, events: seq<LogEvent>)
    requires Divided(chunks, events)
    ensures Text(chunks) == Messages(events)
  {
    var pieces :| IsDivision(pieces, chunks, events);
    DividedSays(pieces, chunks, events);
  }

  lemma {:induction false} MessagesTogether(a: seq<LogEvent>, b: seq<LogEvent>)
    ensures Messages(a + b) == Messages(a) + Messages(b)
    decreases |b|
  {
    if b == [] {
      assert a + b == a;
      assert Messages(a) + [] == Messages(a);
    } else {
      var n := |b| - 1;
      MessagesTogether(a, b[..n]);
      assert (a + b)[..|a + b| - 1] == a + b[..n] && (a + b)[|a + b| - 1] == b[n];
      Reassociate(Messages(a), Messages(b[..n]), b[n].message);
    }
  }

  lemma PreparePush(events: seq<LogEvent>, e: LogEvent)
    ensures Prepare(events + [e]) == Prepare(events) + SplitEvent(e)
  {
    var parts := seq(|events|, i requires 0 <= i < |events| => SplitEvent(events[i]));
    ConcatPush(parts, SplitEvent(e));
    var longer := events + [e];
    assert seq(|longer|, i requires 0 <= i < |longer| => SplitEvent(longer[i])) == parts + [SplitEvent(e)];
  }

  lemma {:induction false} PrepareTogether(a: seq<LogEvent>, b: seq<LogEvent>)
    ensures Prepare(a + b) == Prepare(a) + Prepare(b)
    decreases |b|
  {
    if b == [] {
      assert a + b == a;
      assert Prepare(a) + [] == Prepare(a);
    } else {
      var n := |b| - 1;
      PrepareTogether(a, b[..n]);
      PreparePush(b[..n], b[n]);
      PreparePush(a + b[..n], b[n]);
      assert a + b == a + b[..n] + [b[n]] && b == b[..n] + [b[n]];
      Reassociate(Prepare(a), Prepare(b[..n]), SplitEvent(b[n]));
    }
  }

  /** Events that say nothing give no chunks. */
  lemma {:induction false} SilenceIsNotSent(events: seq<LogEvent>)
    requires Messages(events) == []
    ensures Prepare(events) == []
    decreases |events|
  {
    if events != [] {
      var n := |events| - 1;
      SilenceIsNotSent(events[..n]);
      PreparePush(events[..n], events[n]);
      assert events[..n] + [events[n]] == events;
    }
  }

  lemma PreparedBy(events: seq<LogEvent>, c: Chunk)
    ensures c in Prepare(events) <==> exists e :: e in events && c in SplitEvent(e)
  {
    var parts := seq(|events|, i requires 0 <= i < |events| => SplitEvent(events[i]));
    ConcatMembers(parts, c);
    if e :| e in events && c in SplitEvent(e) {
      var i :| 0 <= i < |events| && events[i] == e;
      assert parts[i] == SplitEvent(e);
    }
  }

  lemma PrepareIsGood(events: seq<LogEvent>)
    ensures GoodChunks(Prepare(events)) && CoversUtf8(Prepare(events))
  {
    var all := Prepare(events);
    forall k | 0 <= k < |all|
      ensures GoodChunk(all[k]) && |ToUtf8(all[k].message)| + EVENT_OVERHEAD <= all[k].byteLength
    {
      PreparedBy(events, all[k]);
      var e :| e in events && all[k] in SplitEvent(e);
      SplitIsFaithful(e.message, e.timestamp);
      SplitCoversUtf8(e.message, e.timestamp);
    }
  }

  // ---------------------------------------------------------------- batching

  lemma BytesAppend(batch: seq<Chunk>, c: Chunk)
    ensures Bytes(batch + [c]) == Bytes(batch) + c.byteLength
  {
    assert (batch + [c])[..|batch|] == batch;
  }

  /** Filling loses and reorders nothing. */
  lemma {:induction false} FillConserves(batch: seq<Chunk>, prepared: seq<Chunk>)
    ensures var f := Fill(batch, prepared);
            && f.batch + HeldChunks(f.held) + f.rest == batch + prepared
            && batch <= f.batch
            && (f.held.None? ==> f.rest == [])
    decreases |prepared|
  {
    if prepared != [] {
      assert batch + [prepared[0]] + prepared[1..] == batch + prepared;
      if Bytes(batch) + prepared[0].byteLength <= MAX_REQUEST_BYTES {
        FillConserves(batch + [prepared[0]], prepared[1..]);
      }
    }
  }

  /** Filling respects the limit and stops only at a chunk that would exceed it. */
  lemma {:induction false} FillIsGreedy(batch: seq<Chunk>, prepared: seq<Chunk>)
    requires Bytes(batch) <= MAX_REQUEST_BYTES
    ensures var f := Fill(batch, prepared);
            && Bytes(f.batch) <= 1048576
            && (f.held.Some? ==> Bytes(f.batch) + f.held.value.byteLength > 1048576)
    decreases |prepared|
  {
    if prepared != [] && Bytes(batch) + prepared[0].byteLength <= MAX_REQUEST_BYTES {
      BytesAppend(batch, prepared[0]);
      FillIsGreedy(batch + [prepared[0]], prepared[1..]);
    }
  }

  /** The size of a batch as the service sees it. */
  function TrueBytes(batch: seq<Chunk>): nat {
    if batch == [] then 0
    else TrueBytes(batch[..|batch| - 1]) + |ToUtf8(batch[|batch| - 1].message)| + EVENT_OVERHEAD
  }

  lemma {:induction false} CountedBytesBoundTrueBytes(batch: seq<Chunk>)
    requires CoversUtf8(batch)
    ensures TrueBytes(batch) <= Bytes(batch)
  {
    if batch != [] {
      CountedBytesBoundTrueBytes(batch[..|batch| - 1]);
    }
  }
}
