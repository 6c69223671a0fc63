/**
 * The processing worker (main_processing_computer.py): it keeps one websocket to the broker,
 * reassembles each file of a job from chunk frames, puts one FILE_RECEIVED notice per file on
 * the job's task queue, and runs the job once every file it names has arrived.
 *
 * The three module-level dicts are the fields of `ProcessingComputer`; every frame the worker
 * writes to its socket is appended to `ProcessingComputer.sent`. One turn of the receive loop
 * and one iteration of a job's polling loop are each an atomic step.
 */
module Worker {
  import opened Common
  import opened Protocol
  import ChunkCodec

  const AllFilesReceivedText := "All files received on internal client, starting job"
  const FinalChunkText := "Received final chunk on Internal Client, total size: "
  /** `str(e)` of the ValueError `list.remove` raises for an element that is not there. */
  const RemoveErrorText := "list.remove(x): x not in list"

  /** `str(e)` of the KeyError raised for a missing dict key. */
  function KeyErrorText(key: string): string
  {
    "'" + key + "'"
  }

  /**
   * The module-level dicts `chunks_per_file_id`, `files_received` and
   * `messages_per_task_id`. Every message the worker queues is a FILE_RECEIVED notice, so a
   * task queue is the sequence of the file ids it announces.
   */
  datatype Store = Store(chunks: map<string, Bytes>, files: map<string, Bytes>, queues: map<string, seq<string>>)

  /** A job as `handle_job_received` sees it: command, `task_id`, and `file_ids` if the data had them. */
  datatype Job = Job(command: Command, taskId: string, fileIds: Option<seq<string>>)

  /**
   * What one turn of the receive loop does: the dicts afterwards, the frames written, the
   * job started with `asyncio.create_task`, if any, and whether the loop goes on.
   */
  datatype Reaction = Reaction(store: Store, out: seq<Envelope>, spawn: Option<Job>, alive: bool)

  /** A file's chunk buffer; a missing one is created empty before appending. */
  function BufferOf(chunks: map<string, Bytes>, fileId: string): Bytes
  {
    if fileId in chunks then chunks[fileId] else []
  }

  /** A task's queue; a missing one is created empty. */
  function QueueOf(queues: map<string, seq<string>>, taskId: string): seq<string>
  {
    if taskId in queues then queues[taskId] else []
  }

  /** The answer to a PING: `{"status": PONG}`. */
  function PongFrame(): Envelope
  {
    StatusFrame(Pong, Null)
  }

  /** `{"status": ERROR, "data": {"task_id": ..., "error": str(e)}}`. */
  function ErrorFrame(taskId: string, text: string): Envelope
  {
    StatusFrame(Error, Object(Some(taskId), Failure(text)))
  }

  /** `{"command": command, **data}` for a job command whose data is an object with a task id. */
  function JobOf(command: Command, data: Data): Job
    requires data.Object? && data.taskId.Some?
  {
    Job(command, data.taskId.value, if data.body.JobParams? then Some(data.body.fileIds) else None)
  }

  /**
   * One turn of `connect_to_websocket`'s receive loop (main_processing_computer.py:318-359)
   * on a decoded frame `m`. An object `data` creates its task's queue if there is none; an
   * object `data` without `task_id` raises at once. READ_TO_IMAGES and FIND_CIRCLES start a
   * job (the `**` spread raises unless `data` is an object); PING is answered with PONG.
   * SENDING_CHUNK appends the decoded chunk to its file's buffer; FINAL_CHUNK also moves the
   * buffer to the received files, reports the size and queues a FILE_RECEIVED notice. ERROR
   * ends the loop only when the frame has a top-level "error" member: without one, logging
   * `response['error']` raises KeyError before the `break`. An exception is logged and the
   * loop goes on.
   */
  function React(st: Store, m: Envelope): Reaction
  {
    if m.data.Object? && m.data.taskId.None? then Reaction(st, [], None, true)
    else Dispatch(Registered(st, m.data), m)
  }

  /** Line 318-319: an object `data` with a task id unknown so far gets an empty queue. */
  function Registered(st: Store, data: Data): Store
    requires data.Object? ==> data.taskId.Some?
  {
    if data.Object? && data.taskId.value !in st.queues then st.(queues := st.queues[data.taskId.value := []]) else st
  }

  /** Lines 323-359, once the task's queue exists. */
  function Dispatch(st: Store, m: Envelope): Reaction
    requires m.data.Object? ==> m.data.taskId.Some? && m.data.taskId.value in st.queues
  {
    match m
    case CommandFrame(command, data) =>
      if command == ReadToImages || command == FindCircles then
        Reaction(st, [], if data.Object? then Some(JobOf(command, data)) else None, true)
      else if command == Ping then Reaction(st, [PongFrame()], None, true)
      else Reaction(st, [], None, true)
    case StatusFrame(status, data, error) =>
      if (status == SendingChunk || status == FinalChunk) && data.Object? && data.body.Chunk? then
        Reaction(Appended(st, status == FinalChunk, data.taskId.value, data.body.fileId, data.body.chunk),
                 if status == FinalChunk then [SizeReport(st, data.taskId.value, data.body.fileId, data.body.chunk)] else [],
                 None, true)
      else Reaction(st, [], None, !(status == Error && error.Some?))
  }

  /**
   * Lines 335-355: the decoded chunk is appended to the file's buffer; on the final chunk the
   * buffer becomes the received file, is dropped, and a FILE_RECEIVED notice is queued.
   */
  function Appended(st: Store, final: bool, taskId: string, fileId: string, chunk: Base64): Store
    requires taskId in st.queues
  {
    var buffer := BufferOf(st.chunks, fileId) + B64Decode(chunk);
    if final then Store(st.chunks - {fileId}, st.files[fileId := buffer], st.queues[taskId := st.queues[taskId] + [fileId]])
    else st.(chunks := st.chunks[fileId := buffer])
  }

  /** Line 351: the progress frame giving the received file's size. */
  function SizeReport(st: Store, taskId: string, fileId: string, chunk: Base64): Envelope
  {
    ProgressFrame(taskId, FinalChunkText + NatToString(|BufferOf(st.chunks, fileId) + B64Decode(chunk)|))
  }

  /** The dicts after the receive loop has handled `frames` in order. */
  function ReceiveAll(st: Store, frames: seq<Envelope>): Store
    decreases |frames|
  {
    if frames == [] then st else ReceiveAll(React(st, frames[0]).store, frames[1..])
  }

  /**
   * SENDING_CHUNK appends the decoded chunk to the file's buffer, created empty if missing,
   * and changes no other buffer, no received file and no queue content.
   */
  lemma SendingChunkAppends(st: Store, taskId: string, fileId: string, chunk: Base64)
    ensures var r := React(st, StatusFrame(SendingChunk, Object(Some(taskId), Chunk(fileId, chunk))));
      && r.store.chunks == st.chunks[fileId := BufferOf(st.chunks, fileId) + B64Decode(chunk)]
      && r.store.files == st.files
      && r.store.queues == st.queues[taskId := QueueOf(st.queues, taskId)]
      && r.out == [] && r.spawn == None && r.alive
  {
  }

  /**
   * FINAL_CHUNK appends the decoded chunk, stores the whole buffer as the received file,
   * drops the buffer, reports the file's size to the broker and puts exactly one
   * FILE_RECEIVED notice for the file on the task's queue.
   */
  lemma FinalChunkMoves(st: Store, taskId: string, fileId: string, chunk: Base64)
    ensures var r := React(st, StatusFrame(FinalChunk, Object(Some(taskId), Chunk(fileId, chunk))));
      var file := BufferOf(st.chunks, fileId) + B64Decode(chunk);
      && r.store.chunks == st.chunks - {fileId}
      && r.store.files == st.files[fileId := file]
      && r.store.queues == st.queues[taskId := QueueOf(st.queues, taskId) + [fileId]]
      && r.out == [ProgressFrame(taskId, FinalChunkText + NatToString(|file|))]
      && r.spawn == None && r.alive
  {
  }

  /**
   * A queue is created only for the task an object `data` names, and empty or with the one
   * notice of a FINAL_CHUNK; an existing queue is never replaced, only extended.
   */
  lemma QueuesNeverReplaced(st: Store, m: Envelope)
    ensures var q := React(st, m).store.queues;
      && (forall t :: t in st.queues ==> t in q && st.queues[t] <= q[t])
      && (forall t :: t in q && t !in st.queues ==> m.data.Object? && m.data.taskId == Some(t) && |q[t]| <= 1)
  {
    if !(m.data.Object? && m.data.taskId.None?) {
      var st1 := Registered(st, m.data);
      assert forall t :: t in st.queues ==> t in st1.queues && st1.queues[t] == st.queues[t];
      assert forall t :: t in st1.queues && t !in st.queues ==> m.data.taskId == Some(t) && st1.queues[t] == [];
      DispatchOnlyExtends(st1, m);
    }
  }

  /** Past registration, a frame adds no queue and at most appends to one. */
  lemma DispatchOnlyExtends(st: Store, m: Envelope)
    requires m.data.Object? ==> m.data.taskId.Some? && m.data.taskId.value in st.queues
    ensures var q := Dispatch(st, m).store.queues;
      && q.Keys == st.queues.Keys
      && (forall t :: t in q ==> st.queues[t] <= q[t] && |q[t]| <= |st.queues[t]| + 1)
  {
  }

  /** The broker's PING is answered with exactly one PONG, and nothing else changes. */
  lemma PingAnswered(st: Store)
    ensures React(st, CommandFrame(Ping, Null)) == Reaction(st, [PongFrame()], None, true)
  {
  }

  /**
   * A job is started exactly for a READ_TO_IMAGES or FIND_CIRCLES command whose data is an
   * object with a task id, and it carries that command, task id and file ids.
   */
  lemma SpawnsOnlyJobs(st: Store, m: Envelope)
    ensures var r := React(st, m);
      && (r.spawn.Some? <==> m.CommandFrame? && (m.command == ReadToImages || m.command == FindCircles)
                             && m.data.Object? && m.data.taskId.Some?)
      && (r.spawn.Some? ==> r.spawn.value.command == m.command && r.spawn.value.taskId == m.data.taskId.value
                            && (r.spawn.value.fileIds.Some? <==> m.data.body.JobParams?))
  {
  }

  /**
   * The receive loop ends exactly on an ERROR frame with a top-level "error" member (and, if
   * its data is an object, a task id).
   */
  lemma EndsOnlyOnError(st: Store, m: Envelope)
    ensures !React(st, m).alive <==>
      m.StatusFrame? && m.status == Error && m.error.Some? && !(m.data.Object? && m.data.taskId.None?)
  {
  }

  /**
   * As written, an ERROR frame in the shape the worker itself sends (the error's text inside
   * `data`, no top-level "error") leaves the loop running, whatever the store.
   */
  lemma ErrorFrameKeepsLoop(st: Store, taskId: string, text: string)
    ensures ErrorFrame(taskId, text).status == Error
    ensures React(st, ErrorFrame(taskId, text)).alive
    ensures React(st, ErrorFrame(taskId, text)).store == Registered(st, Object(Some(taskId), Failure(text)))
  {
  }

  /**
   * The receive loop as evidently intended: an ERROR frame that gets past the task-id lookup
   * ends the loop whether or not it has a top-level "error" member; everything else is `React`.
   */
  function ReactIntended(st: Store, m: Envelope): (r: Reaction)
    ensures r.store == React(st, m).store && r.out == React(st, m).out && r.spawn == React(st, m).spawn
    ensures !r.alive <==> m.StatusFrame? && m.status == Error && !(m.data.Object? && m.data.taskId.None?)
  {
    var r := React(st, m);
    if m.StatusFrame? && m.status == Error && !(m.data.Object? && m.data.taskId.None?) then r.(alive := false) else r
  }

  lemma {:induction false} ReceiveFrom(st: Store, taskId: string, fileId: string, data: Bytes, i: nat)
    requires i < |data|
    ensures ReceiveAll(st, ChunkCodec.ChunkFramesFrom(taskId, fileId, data, i))
         == Store(st.chunks - {fileId}, st.files[fileId := BufferOf(st.chunks, fileId) + data[i..]],
                  st.queues[taskId := QueueOf(st.queues, taskId) + [fileId]])
    decreases |data| - i
  {
    var e := ChunkCodec.SliceEnd(|data|, i);
    var chunk := B64Encode(data[i..e]);
    var final := i + ChunkCodec.ChunkSize >= |data|;
    var first := StatusFrame(if final then FinalChunk else SendingChunk, Object(Some(taskId), Chunk(fileId, chunk)));
    var rest := ChunkCodec.ChunkFramesFrom(taskId, fileId, data, i + ChunkCodec.ChunkSize);
    FirstFrame(taskId, fileId, data, i);
    ReceiveCons(st, first, rest);
    var b := BufferOf(st.chunks, fileId);
    var x := data[i..e];
    if final {
      assert x == data[i..];
      FinalChunkMoves(st, taskId, fileId, chunk);
      assert rest == [];
    } else {
      SendingChunkAppends(st, taskId, fileId, chunk);
      var next := Store(st.chunks[fileId := b + x], st.files, st.queues[taskId := QueueOf(st.queues, taskId)]);
      ReceiveFrom(next, taskId, fileId, data, e);
      ShiftBuffer(st, taskId, fileId, x, data[e..]);
      assert data[i..] == x + data[e..];
    }
  }

  /** Reassembling `y` after a SENDING_CHUNK of `x` is reassembling `x + y` from before it. */
  lemma ShiftBuffer(st: Store, taskId: string, fileId: string, x: Bytes, y: Bytes)
    ensures var b := BufferOf(st.chunks, fileId);
      var next := Store(st.chunks[fileId := b + x], st.files, st.queues[taskId := QueueOf(st.queues, taskId)]);
      Store(next.chunks - {fileId}, next.files[fileId := BufferOf(next.chunks, fileId) + y],
            next.queues[taskId := QueueOf(next.queues, taskId) + [fileId]])
      == Store(st.chunks - {fileId}, st.files[fileId := b + (x + y)], st.queues[taskId := QueueOf(st.queues, taskId) + [fileId]])
  {
    var b := BufferOf(st.chunks, fileId);
    assert (b + x) + y == b + (x + y);
    assert st.chunks[fileId := b + x] - {fileId} == st.chunks - {fileId};
  }

  /** The first chunk frame from offset `i`, followed by the rest. */
  lemma FirstFrame(taskId: string, fileId: string, data: Bytes, i: nat)
    requires i < |data|
    ensures ChunkCodec.ChunkFramesFrom(taskId, fileId, data, i)
         == [StatusFrame(if i + ChunkCodec.ChunkSize >= |data| then FinalChunk else SendingChunk,
                         Object(Some(taskId), Chunk(fileId, B64Encode(data[i..ChunkCodec.SliceEnd(|data|, i)]))))]
            + ChunkCodec.ChunkFramesFrom(taskId, fileId, data, i + ChunkCodec.ChunkSize)
  {
  }

  lemma ReceiveCons(st: Store, first: Envelope, rest: seq<Envelope>)
    ensures ReceiveAll(st, [first] + rest) == ReceiveAll(React(st, first).store, rest)
  {
    assert ([first] + rest)[1..] == rest;
  }

  /**
   * Round trip: handling, in order, the chunk frames `send_bytes_in_chunks` produces for a
   * non-empty payload stores exactly that payload under its file id, leaves no buffer behind
   * and queues one FILE_RECEIVED notice for the file on the task's queue.
   */
  lemma ReassemblesPayload(st: Store, taskId: string, fileId: string, data: Bytes)
    requires |data| > 0 && fileId !in st.chunks
    ensures var r := ReceiveAll(st, ChunkCodec.ChunkFrames(taskId, fileId, data));
      && r.files == st.files[fileId := data]
      && r.chunks == st.chunks
      && r.queues == st.queues[taskId := QueueOf(st.queues, taskId) + [fileId]]
  {
    ReceiveFrom(st, taskId, fileId, data, 0);
    assert BufferOf(st.chunks, fileId) + data[0..] == data;
    assert st.chunks - {fileId} == st.chunks;
  }

  /** The worker process's module-level state and its socket's outbox. */
  class ProcessingComputer {
    var chunksPerFileId: map<string, Bytes>
    var filesReceived: map<string, Bytes>
    var messagesPerTaskId: map<string, seq<string>>
    var sent: seq<Envelope>

    constructor ()
      ensures State() == Store(map[], map[], map[]) && sent == []
    {
      chunksPerFileId := map[];
      filesReceived := map[];
      messagesPerTaskId := map[];
      sent := [];
    }

    function State(): Store
      reads this
    {
      Store(chunksPerFileId, filesReceived, messagesPerTaskId)
    }

    /** `send_bytes_in_chunks(websocket, task_id, file_data, file_id)` (main_processing_computer.py:45-56). */
    method SendBytesInChunks(taskId: string, data: Bytes, fileId: string)
      modifies this`sent
      ensures sent == old(sent) + ChunkCodec.ChunkFrames(taskId, fileId, data)
    {
      var i: nat := 0;
      while i < |data|
        invariant old(sent) + ChunkCodec.ChunkFrames(taskId, fileId, data)
               == sent + ChunkCodec.ChunkFramesFrom(taskId, fileId, data, i)
        decreases |data| - i
      {
        var chunk := data[i..ChunkCodec.SliceEnd(|data|, i)];
        var status := SendingChunk;
        if i + ChunkCodec.ChunkSize >= |data| {
          status := FinalChunk;
        }
        var frame := StatusFrame(status, Object(Some(taskId), Chunk(fileId, B64Encode(chunk))));
        assert ChunkCodec.ChunkFramesFrom(taskId, fileId, data, i)
            == [frame] + ChunkCodec.ChunkFramesFrom(taskId, fileId, data, i + ChunkCodec.ChunkSize);
        sent := sent + [frame];
        i := i + ChunkCodec.ChunkSize;
      }
    }

    /** One turn of the receive loop on the frame `m` (main_processing_computer.py:318-359). */
    method Receive(m: Envelope) returns (spawn: Option<Job>, alive: bool)
      modifies this
      ensures var r := React(old(State()), m);
        State() == r.store && sent == old(sent) + r.out && spawn == r.spawn && alive == r.alive
    {
      spawn := None;
      alive := true;
      if m.data.Object? && m.data.taskId.None? {
        return;
      }
      if m.data.Object? && m.data.taskId.value !in messagesPerTaskId {
        messagesPerTaskId := messagesPerTaskId[m.data.taskId.value := []];
      }
      match m
      case CommandFrame(command, data) =>
        if (command == ReadToImages || command == FindCircles) && data.Object? {
          spawn := Some(JobOf(command, data));
        }
        if command == Ping {
          sent := sent + [PongFrame()];
        }
      case StatusFrame(status, data, error) =>
        if (status == SendingChunk || status == FinalChunk) && data.Object? && data.body.Chunk? {
          AppendChunk(status == FinalChunk, data.taskId.value, data.body.fileId, data.body.chunk);
        }
        if status == Error && error.Some? {
          alive := false;
        }
    }

    /** Lines 335-355 for a chunk of `fileId` in the task `taskId`, whose queue exists. */
    method AppendChunk(final: bool, taskId: string, fileId: string, chunk: Base64)
      requires taskId in messagesPerTaskId
      modifies this
      ensures State() == Appended(old(State()), final, taskId, fileId, chunk)
      ensures sent == old(sent) + if final then [SizeReport(old(State()), taskId, fileId, chunk)] else []
    {
      if fileId !in chunksPerFileId {
        chunksPerFileId := chunksPerFileId[fileId := []];
      }
      chunksPerFileId := chunksPerFileId[fileId := chunksPerFileId[fileId] + B64Decode(chunk)];
      if final {
        filesReceived := filesReceived[fileId := chunksPerFileId[fileId]];
        chunksPerFileId := chunksPerFileId - {fileId};
        sent := sent + [ProgressFrame(taskId, FinalChunkText + NatToString(|filesReceived[fileId]|))];
        messagesPerTaskId := messagesPerTaskId[taskId := messagesPerTaskId[taskId] + [fileId]];
      }
    }
  }
}
