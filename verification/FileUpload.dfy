/**
 Uploading a file: the client cuts it into chunks and emits them on demand, the server grants credit,
 appends every chunk to a buffer and stores the buffer when the stream completes.

 `Upload` is the state of the whole system between two events. Request frames travel to the client
 and chunk frames to the server in order but at any speed, and on the server lowering the counter,
 raising it, requesting and writing are separate events.
 */
module FileUpload {
  import opened Wrappers
  import opened Chunking
  import Flow = CreditFlow

  newtype byte = x: int | 0 <= x < 256

  datatype FileId = FileId(id: int, name: string)

  datatype Chunk = Chunk(fileId: FileId, size: nat, bytes: seq<byte>)

  datatype Frame = Next(chunk: Chunk) | Complete

  /** What the client sends for a payload: one chunk per stretch, each with the id and the whole size. */
  function ChunkSource(fileId: FileId, payload: seq<byte>, chunkSize: nat): seq<Chunk>
    requires chunkSize >= 1
  {
    var parts := ChunksOf(payload, chunkSize);
    seq(|parts|, i requires 0 <= i < |parts| => Chunk(fileId, |payload|, parts[i]))
  }

  function Nexts(chunks: seq<Chunk>): (frames: seq<Frame>) {
    seq(|chunks|, i requires 0 <= i < |chunks| => Next(chunks[i]))
  }

  // ----- the client

  function Emitted(queue: seq<Chunk>, count: nat): nat {
    if count < |queue| then count else |queue|
  }

  /** The frames one request for `count` elements brings: completion only when asked beyond the last chunk. */
  function Emission(queue: seq<Chunk>, count: nat): seq<Frame> {
    Nexts(queue[..Emitted(queue, count)]) + (if count > |queue| then [Complete] else [])
  }

  /** The publisher of a chunked request; a completed flowable ignores further requests. */
  class ChunkPublisher {
    var chunkValues: seq<Chunk>
    var completed: bool
    var sent: seq<Frame>

    constructor (chunks: seq<Chunk>)
      ensures chunkValues == chunks && !completed && sent == []
    {
      chunkValues, completed, sent := chunks, false, [];
    }

    method Request(count: nat)
      modifies this
      ensures old(completed) ==> completed && chunkValues == old(chunkValues) && sent == old(sent)
      ensures !old(completed) ==>
                && sent == old(sent) + Emission(old(chunkValues), count)
                && chunkValues == old(chunkValues)[Emitted(old(chunkValues), count)..]
                && (completed <==> count > |old(chunkValues)|)
    {
      if completed {
        return;
      }
      var left := count;
      ghost var queue := chunkValues;
      while left > 0
        invariant 0 <= left <= count && count - left <= |queue|
        invariant chunkValues == queue[count - left..]
        invariant sent == old(sent) + Nexts(queue[..count - left])
        invariant !completed
      {
        left := left - 1;
        if |chunkValues| == 0 {
          assert queue[..|queue|] == queue;
          completed, sent := true, sent + [Complete];
          return;
        }
        var next := chunkValues[0];
        chunkValues := chunkValues[1..];
        assert Nexts(queue[..count - left]) == Nexts(queue[..count - left - 1]) + [Next(next)];
        sent := sent + [Next(next)];
      }
    }
  }

  // ----- the server

  type Files = map<int, seq<byte>>

  datatype UploadError = NoChunkReceived

  /** `writeFile`: the buffer is stored under the id of the last chunk; without a chunk it throws. */
  function StoredFiles(files: Files, lastChunk: Option<Chunk>, buffer: seq<byte>): Result<Files, UploadError> {
    match lastChunk
    case None => Failure(NoChunkReceived)
    case Some(chunk) => Success(files[chunk.fileId.id := buffer])
  }

  class UploadHandler {
    var buffer: seq<byte>
    var lastChunk: Option<Chunk>
    var files: Files

    constructor (files: Files)
      ensures buffer == [] && lastChunk == None && this.files == files
    {
      buffer, lastChunk, this.files := [], None, files;
    }

    method WriteChunk(chunk: Chunk)
      modifies this`buffer, this`lastChunk
      ensures buffer == old(buffer) + chunk.bytes && lastChunk == Some(chunk)
    {
      lastChunk := Some(chunk);
      buffer := buffer + chunk.bytes;
    }

    method WriteFile() returns (r: Result<(), UploadError>)
      modifies this`buffer, this`files
      ensures r.Success? <==> old(lastChunk).Some?
      ensures r.Success? ==> StoredFiles(old(files), old(lastChunk), old(buffer)) == Success(files)
      ensures r.Failure? ==> files == old(files)
    {
      var content := buffer;
      buffer := [];
      match lastChunk
      case None =>
        r := Failure(NoChunkReceived);
      case Some(chunk) =>
        files := files[chunk.fileId.id := content];
        r := Success(());
    }
  }

  // ----- the system

  datatype Receiver = Waiting | Raising(chunk: Chunk) | Requesting(chunk: Chunk) | Writing(chunk: Chunk) | Closed

  datatype Outcome = Pending | Stored | Crashed

  datatype Upload = Upload(
    queue: seq<Chunk>,     // chunks the client has not emitted
    completed: bool,       // the client has completed its stream
    delivered: nat,        // elements requested from the client so far
    grants: nat,           // request frames, each for one window, on their way to the client
    wire: seq<Frame>,      // frames on their way to the server
    credit: Flow.Credit,
    receiver: Receiver,
    buffer: seq<byte>,
    lastChunk: Option<Chunk>,
    files: Files,
    outcome: Outcome)

  datatype Event = DeliverGrant | Receive | Raise | Request | Write

  function Started(chunks: seq<Chunk>, window: nat, files: Files): Upload {
    Upload(chunks, false, 0, 1, [], Flow.Subscribed(window), Waiting, [], None, files, Pending)
  }

  predicate Enabled(u: Upload, event: Event) {
    match event
    case DeliverGrant => u.grants > 0
    case Receive => u.receiver.Waiting? && |u.wire| > 0 && (u.wire[0].Next? ==> Flow.Enabled(u.credit, Flow.Lower))
    case Raise => u.receiver.Raising? && Flow.Enabled(u.credit, Flow.Raise)
    case Request => u.receiver.Requesting? && Flow.Enabled(u.credit, Flow.Request)
    case Write => u.receiver.Writing?
  }

  function Step(u: Upload, event: Event): Upload
    requires Enabled(u, event)
  {
    match event
    case DeliverGrant =>
      var arrived := u.(grants := u.grants - 1, delivered := u.delivered + u.credit.window);
      if u.completed then arrived
      else
        var k := Emitted(u.queue, u.credit.window);
        arrived.(queue := u.queue[k..],
                 wire := u.wire + Emission(u.queue, u.credit.window),
                 completed := u.credit.window > |u.queue|,
                 credit := u.credit.(emitted := u.credit.emitted + k))
    case Receive =>
      (match u.wire[0]
       case Next(chunk) =>
         var lowered := Flow.Next(u.credit, Flow.Lower);
         u.(wire := u.wire[1..],
            credit := lowered,
            receiver := if lowered.raising > u.credit.raising then Raising(chunk) else Writing(chunk))
       case Complete =>
         var closed := u.(wire := u.wire[1..], receiver := Closed);
         match StoredFiles(u.files, u.lastChunk, u.buffer)
         case Success(files) => closed.(files := files, outcome := Stored)
         case Failure(_) => closed.(outcome := Crashed))
    case Raise =>
      u.(credit := Flow.Next(u.credit, Flow.Raise), receiver := Requesting(u.receiver.chunk))
    case Request =>
      u.(credit := Flow.Next(u.credit, Flow.Request), receiver := Writing(u.receiver.chunk), grants := u.grants + 1)
    case Write =>
      u.(buffer := u.buffer + u.receiver.chunk.bytes, lastChunk := Some(u.receiver.chunk), receiver := Waiting)
  }

  predicate Runs(u: Upload, events: seq<Event>)
    decreases |events|
  {
    |events| == 0 || (Enabled(u, events[0]) && Runs(Step(u, events[0]), events[1..]))
  }

  function After(u: Upload, events: seq<Event>): Upload
    requires Runs(u, events)
    decreases |events|
  {
    if |events| == 0 then u else After(Step(u, events[0]), events[1..])
  }

  // ----- the invariant

  function Bytes(chunks: seq<Chunk>): seq<byte> {
    Flatten(seq(|chunks|, i requires 0 <= i < |chunks| => chunks[i].bytes))
  }

  predicate Busy(u: Upload) {
    u.receiver.Raising? || u.receiver.Requesting? || u.receiver.Writing?
  }

  /** Chunks that are in the buffer. */
  function Written(u: Upload): int {
    u.credit.consumed - (if Busy(u) then 1 else 0)
  }

  /** Credit: at most one grant travels, and the client has used all it was given until it completes. */
  ghost predicate CreditAccounted(u: Upload, all: seq<Chunk>) {
    && Flow.Balanced(u.credit)
    && u.grants <= 1
    && u.credit.requested == u.delivered + (if u.grants == 1 then u.credit.window else 0)
    && (u.completed ==> u.credit.emitted == |all| && u.delivered > |all|)
    && (!u.completed ==> u.credit.emitted == u.delivered)
    && u.credit.raising == (if u.receiver.Raising? then 1 else 0)
    && u.credit.requesting == (if u.receiver.Requesting? then 1 else 0)
  }

  /** Conservation: buffer, chunk in hand, wire and queue are the chunks of the payload, in order. */
  ghost predicate ChunksAccounted(u: Upload, all: seq<Chunk>) {
    && 0 <= Written(u) <= u.credit.consumed <= u.credit.emitted <= |all|
    && u.queue == all[u.credit.emitted..]
    && u.wire == Nexts(all[u.credit.consumed..u.credit.emitted])
                   + (if u.completed && !u.receiver.Closed? then [Complete] else [])
    && (Busy(u) ==> u.receiver.chunk == all[Written(u)])
    && u.buffer == Bytes(all[..Written(u)])
    && u.lastChunk == (if Written(u) == 0 then None else Some(all[Written(u) - 1]))
  }

  ghost predicate OutcomeAccounted(u: Upload, all: seq<Chunk>, files: Files) {
    if u.receiver.Closed? then
      && u.completed && u.credit.consumed == |all|
      && (if |all| == 0 then u.outcome == Crashed && u.files == files
          else u.outcome == Stored && u.files == files[all[|all| - 1].fileId.id := Bytes(all)])
    else u.outcome == Pending && u.files == files
  }

  ghost predicate Accounted(u: Upload, all: seq<Chunk>, files: Files) {
    CreditAccounted(u, all) && ChunksAccounted(u, all) && OutcomeAccounted(u, all, files)
  }

  lemma BytesSnoc(chunks: seq<Chunk>, chunk: Chunk)
    ensures Bytes(chunks + [chunk]) == Bytes(chunks) + chunk.bytes
  {
    var parts := seq(|chunks|, i requires 0 <= i < |chunks| => chunks[i].bytes);
    var all := chunks + [chunk];
    assert seq(|all|, i requires 0 <= i < |all| => all[i].bytes) == parts + [chunk.bytes];
    FlattenAppend(parts, chunk.bytes);
  }

  lemma DeliverKeepsCredit(u: Upload, all: seq<Chunk>)
    requires CreditAccounted(u, all) && ChunksAccounted(u, all) && Enabled(u, DeliverGrant)
    ensures CreditAccounted(Step(u, DeliverGrant), all)
  {
    assert |u.queue| == |all| - u.credit.emitted;
  }

  lemma NextsConcat(a: seq<Chunk>, b: seq<Chunk>)
    ensures Nexts(a + b) == Nexts(a) + Nexts(b)
  {
  }

  lemma EmissionExtendsWire(all: seq<Chunk>, from: nat, upTo: nat, count: nat)
    requires from <= upTo <= |all|
    ensures var k := Emitted(all[upTo..], count);
            && upTo + k <= |all|
            && all[upTo..][k..] == all[upTo + k..]
            && Nexts(all[from..upTo]) + Emission(all[upTo..], count)
                 == Nexts(all[from..upTo + k]) + (if count > |all| - upTo then [Complete] else [])
  {
    var k := Emitted(all[upTo..], count);
    assert all[upTo..][..k] == all[upTo..upTo + k] && all[upTo..][k..] == all[upTo + k..];
    NextsConcat(all[from..upTo], all[upTo..upTo + k]);
    assert all[from..upTo] + all[upTo..upTo + k] == all[from..upTo + k];
  }

  lemma DeliverKeepsChunks(u: Upload, all: seq<Chunk>)
    requires ChunksAccounted(u, all) && Enabled(u, DeliverGrant)
    requires u.receiver.Closed? ==> u.completed
    ensures ChunksAccounted(Step(u, DeliverGrant), all)
  {
    if !u.completed {
      EmissionExtendsWire(all, u.credit.consumed, u.credit.emitted, u.credit.window);
      assert u.wire == Nexts(all[u.credit.consumed..u.credit.emitted]);
    }
  }

  lemma WireTail(all: seq<Chunk>, from: nat, upTo: nat, rest: seq<Frame>)
    requires from < upTo <= |all|
    ensures var wire := Nexts(all[from..upTo]) + rest;
            wire[0] == Next(all[from]) && wire[1..] == Nexts(all[from + 1..upTo]) + rest
  {
    assert Nexts(all[from..upTo])[1..] == Nexts(all[from + 1..upTo]);
  }

  lemma ReceiveChunkKeepsCredit(u: Upload, all: seq<Chunk>)
    requires CreditAccounted(u, all) && Enabled(u, Receive)
    requires u.wire[0].Next? && u.credit.consumed < u.credit.emitted
    ensures CreditAccounted(Step(u, Receive), all)
  {
    Flow.NextKeepsBalance(u.credit, Flow.Lower);
  }

  lemma ReceiveChunkKeepsChunks(u: Upload, all: seq<Chunk>)
    requires ChunksAccounted(u, all) && Enabled(u, Receive) && u.credit.consumed < u.credit.emitted
    ensures u.wire[0] == Next(all[u.credit.consumed])
    ensures ChunksAccounted(Step(u, Receive), all)
  {
    WireTail(all, u.credit.consumed, u.credit.emitted, if u.completed && !u.receiver.Closed? then [Complete] else []);
    assert Written(Step(u, Receive)) == Written(u);
  }

  lemma ReceiveChunkKeeps(u: Upload, all: seq<Chunk>, files: Files)
    requires Accounted(u, all, files) && Enabled(u, Receive) && u.credit.consumed < u.credit.emitted
    ensures Accounted(Step(u, Receive), all, files)
  {
    ReceiveChunkKeepsChunks(u, all);
    ReceiveChunkKeepsCredit(u, all);
  }

  /** When everything emitted has been consumed the wire holds the completion only. */
  lemma OnlyCompletionLeft(u: Upload, all: seq<Chunk>)
    requires ChunksAccounted(u, all) && Enabled(u, Receive) && u.credit.consumed == u.credit.emitted
    ensures u.wire == [Complete] && u.completed && !u.receiver.Closed?
    ensures Written(u) == u.credit.consumed
  {
    assert Nexts(all[u.credit.consumed..u.credit.emitted]) == [];
  }

  lemma ReceiveCompleteKeeps(u: Upload, all: seq<Chunk>, files: Files)
    requires Accounted(u, all, files) && Enabled(u, Receive) && u.credit.consumed == u.credit.emitted
    ensures Accounted(Step(u, Receive), all, files)
  {
    OnlyCompletionLeft(u, all);
    var v := Step(u, Receive);
    assert [Complete][1..] == [] && v.wire == [];
    assert all[..|all|] == all;
    assert CreditAccounted(v, all);
    assert Nexts(all[u.credit.consumed..u.credit.emitted]) == [];
    assert ChunksAccounted(v, all);
  }

  lemma ReceiveKeeps(u: Upload, all: seq<Chunk>, files: Files)
    requires Accounted(u, all, files) && Enabled(u, Receive)
    ensures Accounted(Step(u, Receive), all, files)
  {
    if u.credit.consumed < u.credit.emitted {
      ReceiveChunkKeeps(u, all, files);
    } else {
      ReceiveCompleteKeeps(u, all, files);
    }
  }

  lemma WriteKeeps(u: Upload, all: seq<Chunk>, files: Files)
    requires Accounted(u, all, files) && Enabled(u, Write)
    ensures Accounted(Step(u, Write), all, files)
  {
    var w := Written(u);
    assert all[..w + 1] == all[..w] + [all[w]];
    BytesSnoc(all[..w], all[w]);
  }

  lemma RefillKeeps(u: Upload, event: Event, all: seq<Chunk>, files: Files)
    requires Accounted(u, all, files) && Enabled(u, event) && (event.Raise? || event.Request?)
    ensures Accounted(Step(u, event), all, files)
  {
    Flow.NextKeepsBalance(u.credit, if event.Raise? then Flow.Raise else Flow.Request);
  }

  lemma StepKeeps(u: Upload, event: Event, all: seq<Chunk>, files: Files)
    requires Accounted(u, all, files) && Enabled(u, event)
    ensures Accounted(Step(u, event), all, files)
  {
    match event
    case DeliverGrant =>
      DeliverKeepsCredit(u, all);
      DeliverKeepsChunks(u, all);
    case Receive => ReceiveKeeps(u, all, files);
    case Write => WriteKeeps(u, all, files);
    case _ => RefillKeeps(u, event, all, files);
  }

  // ----- progress

  function ReceiverWork(receiver: Receiver): nat {
    match receiver
    case Raising(_) => 7
    case Requesting(_) => 6
    case Writing(_) => 1
    case Waiting => 0
    case Closed => 0
  }

  /** Every event lowers this measure, so no run is longer than it is at the start. */
  function Work(u: Upload): nat {
    10 * |u.queue| + 8 * |u.wire| + (if u.completed then 0 else 9) + 3 * u.grants + ReceiverWork(u.receiver)
  }

  lemma StepWorks(u: Upload, event: Event)
    requires Enabled(u, event)
    ensures Work(Step(u, event)) < Work(u)
  {
  }

  /** As long as the stream is not closed, something can happen. */
  lemma NoDeadlock(u: Upload, all: seq<Chunk>, files: Files)
    requires Accounted(u, all, files)
    ensures !u.receiver.Closed? ==> exists event :: Enabled(u, event)
  {
    if !u.receiver.Closed? {
      assert u.receiver.Waiting? && |u.wire| > 0 ==> Enabled(u, Receive);
      assert u.receiver.Waiting? && |u.wire| == 0 ==> Enabled(u, DeliverGrant);
      assert Enabled(u, Raise) || Enabled(u, Request) || Enabled(u, Write) || Enabled(u, Receive) || Enabled(u, DeliverGrant);
    }
  }

  lemma {:induction false} RunsKeep(u: Upload, events: seq<Event>, all: seq<Chunk>, files: Files)
    requires Accounted(u, all, files) && Runs(u, events)
    ensures Accounted(After(u, events), all, files)
    ensures |events| + Work(After(u, events)) <= Work(u)
    decreases |events|
  {
    if |events| != 0 {
      StepKeeps(u, events[0], all, files);
      StepWorks(u, events[0]);
      RunsKeep(Step(u, events[0]), events[1..], all, files);
    }
  }

  // ----- the main result

  lemma SourceHoldsPayload(fileId: FileId, payload: seq<byte>, chunkSize: nat)
    requires chunkSize >= 1
    ensures var chunks := ChunkSource(fileId, payload, chunkSize);
            && Bytes(chunks) == payload
            && (|chunks| == 0 <==> |payload| == 0)
            && forall chunk | chunk in chunks ::
                 chunk.fileId == fileId && chunk.size == |payload| && 1 <= |chunk.bytes| <= chunkSize
  {
    var chunks, parts := ChunkSource(fileId, payload, chunkSize), ChunksOf(payload, chunkSize);
    assert seq(|chunks|, i requires 0 <= i < |chunks| => chunks[i].bytes) == parts;
    FlattenChunks(payload, chunkSize);
    ChunkSizes(payload, chunkSize);
  }

  lemma ChunkSizes(payload: seq<byte>, chunkSize: nat)
    requires chunkSize >= 1
    ensures forall part | part in ChunksOf(payload, chunkSize) :: 1 <= |part| <= chunkSize
  {
    var parts := ChunksOf(payload, chunkSize);
    forall i | 0 <= i < |parts| ensures 1 <= |parts[i]| <= chunkSize {
      ChunkAt(payload, chunkSize, i);
      assert (i + 1) * chunkSize == i * chunkSize + chunkSize;
    }
  }

  lemma StartAccounted(all: seq<Chunk>, window: nat, files: Files)
    requires window >= 1
    ensures Accounted(Started(all, window, files), all, files)
  {
    assert all[0..] == all;
  }

  /**
   For every payload, chunk size and window and every interleaving: the run is bounded, something can
   happen until the upload is decided, the client never sends more than it was granted nor completes
   before its last chunk, and the decision is to store exactly the payload under its id and to touch no
   other file. The one payload that is not stored is the empty one, for which the server throws.
   */
  lemma UploadStoresPayload(fileId: FileId, payload: seq<byte>, chunkSize: nat, window: nat, files: Files, events: seq<Event>)
    requires chunkSize >= 1 && window >= 1
    requires Runs(Started(ChunkSource(fileId, payload, chunkSize), window, files), events)
    ensures var start := Started(ChunkSource(fileId, payload, chunkSize), window, files);
            var u := After(start, events);
            && |events| <= Work(start)
            && u.credit.emitted <= u.delivered <= u.credit.requested
            && (u.completed ==> u.queue == [])
            && (u.outcome.Pending? ==> u.files == files && exists event :: Enabled(u, event))
            && (!u.outcome.Pending? ==>
                  if payload == [] then u.outcome == Crashed && u.files == files
                  else u.outcome == Stored && u.files == files[fileId.id := payload])
  {
    var all := ChunkSource(fileId, payload, chunkSize);
    StartAccounted(all, window, files);
    RunsKeep(Started(all, window, files), events, all, files);
    var u := After(Started(all, window, files), events);
    SourceHoldsPayload(fileId, payload, chunkSize);
    if !u.receiver.Closed? {
      NoDeadlock(u, all, files);
    } else if |all| != 0 {
      assert all[|all| - 1] in all;
    }
  }
}
