/**
 * The HTTP broker (main_http.py): it registers processing workers and frontend sessions that
 * connect over websockets, relays each HTTP job to a worker (the job frame, then its files as
 * chunk frames), routes the worker's replies to per-task queues, and drains a task's queue
 * until the worker reports completion or an error.
 *
 * Every frame the broker writes, to any connection, is appended to `Broker.sent`; awaiting a
 * coroutine is an atomic step. Quirks of the code are kept as written: `jobs` is decremented
 * twice when a task ends, task queues are never deleted, the heartbeat test compares
 * `last_pong - now`, and an exception in a worker's receive loop ends that loop without
 * unregistering the worker (the cleanup call in its `finally` is never awaited).
 */
module Broker {
  import opened Common
  import opened Protocol
  import PyDict
  import ChunkCodec

  /** A worker's handshake subprotocol starts with this; anything else is a frontend. */
  const WorkerProtocolPrefix := "processing-computer-internal"
  /** Every occurrence of this is deleted from the subprotocol to obtain the worker id. */
  const WorkerIdMarker := "processing-computer-internal-"
  /** Seconds `ping_internal_clients` compares against. */
  const HeartbeatTimeout: real := 120.0
  const DisconnectedText := "Internal client disconnected."
  const SendingJobText := "Sending job to processing server..."
  /** The command a frontend registers its session id with. */
  const SendIdCommand := "send_id"

  function StartsWith(s: string, prefix: string): bool
  {
    |prefix| <= |s| && s[..|prefix|] == prefix
  }

  /** Some occurrence of `pat` starts in `s`. */
  predicate Contains(s: string, pat: string)
    decreases |s|
  {
    StartsWith(s, pat) || (s != [] && Contains(s[1..], pat))
  }

  /** Python's `s.replace(pat, "")` for a non-empty `pat`: leftmost occurrences, no overlap. */
  function RemoveAll(s: string, pat: string): (r: string)
    requires pat != []
    ensures |r| <= |s|
    decreases |s|
  {
    if s == [] then []
    else if StartsWith(s, pat) then RemoveAll(s[|pat|..], pat)
    else [s[0]] + RemoveAll(s[1..], pat)
  }

  /** The id a worker gets from its handshake subprotocol (main_http.py:310). */
  function WorkerId(protocol: string): string
  {
    RemoveAll(protocol, WorkerIdMarker)
  }

  lemma {:induction false} RemoveAllAbsent(s: string, pat: string)
    requires pat != [] && !Contains(s, pat)
    ensures RemoveAll(s, pat) == s
    decreases |s|
  {
    if s != [] {
      RemoveAllAbsent(s[1..], pat);
    }
  }

  /**
   * A worker that connects with `processing-computer-internal-<rest>`, where `<rest>` (its
   * version and random id) holds no further marker, is registered under `<rest>`.
   */
  lemma WorkerIdOfHandshake(rest: string)
    requires !Contains(rest, WorkerIdMarker)
    ensures StartsWith(WorkerIdMarker + rest, WorkerProtocolPrefix)
    ensures WorkerId(WorkerIdMarker + rest) == rest
  {
    var s := WorkerIdMarker + rest;
    assert s[..|WorkerIdMarker|] == WorkerIdMarker;
    assert s[|WorkerIdMarker|..] == rest;
    RemoveAllAbsent(rest, WorkerIdMarker);
  }

  /**
   * `ping_internal_clients`' eviction test as written (main_http.py:62): the last pong minus
   * the current time, which is never positive for a pong already received.
   */
  function ExpiredAsWritten(lastPong: real, now: real): bool
  {
    lastPong - now > HeartbeatTimeout
  }

  /** As written, the test never fires for a pong received at or before `now`, however long ago. */
  lemma AsWrittenNeverExpires(lastPong: real, now: real)
    requires lastPong <= now
    ensures !ExpiredAsWritten(lastPong, now)
  {
  }

  /** A worker last heard from at time 0 and still silent at time 1000 is kept as written. */
  lemma SilentWorkerKept()
    ensures !ExpiredAsWritten(0.0, 1000.0) && Expired(0.0, 1000.0)
  {
  }

  /**
   * The heartbeat test as intended: more than `HeartbeatTimeout` seconds have passed since the
   * last pong. The heartbeat round below takes the test as a parameter and is proved for both.
   */
  function Expired(lastPong: real, now: real): (r: bool)
    ensures r <==> lastPong + HeartbeatTimeout < now
  {
    now - lastPong > HeartbeatTimeout
  }

  /** Which eviction test a heartbeat round applies: the one written, or the one intended. */
  datatype HeartbeatTest = AsWritten | Intended

  function Evicts(test: HeartbeatTest, lastPong: real, now: real): bool
  {
    match test
    case AsWritten => ExpiredAsWritten(lastPong, now)
    case Intended => Expired(lastPong, now)
  }

  function PingFrame(): Envelope
  {
    CommandFrame(Ping, Null)
  }

  function ReportFrame(n: nat): Envelope
  {
    StatusFrame(InternalClientReport, Object(None, Count(n)))
  }

  /** What `handle_internal_client_disconnect` puts on each of a busy worker's queues. */
  function DisconnectedFrame(): Envelope
  {
    StatusFrame(Error, Text(DisconnectedText))
  }

  /** The worker-count report sent to every registered frontend, in dict order. */
  function Reports(frontends: PyDict.Dict<string, ConnId>, n: nat): (r: seq<Sent>)
    ensures |r| == |frontends|
    ensures forall i :: 0 <= i < |r| ==> r[i] == Sent(frontends[i].1, ReportFrame(n))
  {
    seq(|frontends|, i requires 0 <= i < |frontends| => Sent(frontends[i].1, ReportFrame(n)))
  }

  /** `frames` written to one connection. */
  function Tag(conn: ConnId, frames: seq<Envelope>): (r: seq<Sent>)
    ensures |r| == |frames|
    ensures forall i :: 0 <= i < |r| ==> r[i] == Sent(conn, frames[i])
  {
    seq(|frames|, i requires 0 <= i < |frames| => Sent(conn, frames[i]))
  }

  lemma TagAppend(conn: ConnId, a: seq<Envelope>, b: seq<Envelope>)
    ensures Tag(conn, a + b) == Tag(conn, a) + Tag(conn, b)
  {
  }

  /** A job as `send_job_to_internal_client` receives it. */
  datatype Job = Job(command: Command, taskId: string, socketId: string, params: string,
                     files: PyDict.Dict<string, Bytes>)

  /** The job frame: `{"command": ..., "data": {"file_ids": [...], **job.data}}`. */
  function JobFrame(job: Job): Envelope
  {
    CommandFrame(job.command, Object(Some(job.taskId), JobParams(PyDict.Keys(job.files), job.socketId, job.params)))
  }

  /** The chunk frames of every file of a job, files in dict order. */
  function FilesFrames(taskId: string, files: PyDict.Dict<string, Bytes>): seq<Envelope>
  {
    if files == [] then []
    else ChunkCodec.ChunkFrames(taskId, files[0].0, files[0].1) + FilesFrames(taskId, files[1..])
  }

  /** The callback a route registers: forward progress text to the frontend session, if any. */
  datatype ProgressSink = ForwardProgress(sessionId: string, taskId: string)

  /** A connected worker (`WebsocketInternalClient`). */
  class InternalClient {
    const conn: ConnId
    const id: string
    var jobs: int
    var messagesPerTask: map<string, seq<Envelope>>
    var onProgressPerTask: map<string, ProgressSink>
    var lastPong: real

    constructor (conn: ConnId, id: string, now: real)
      ensures this.conn == conn && this.id == id
      ensures jobs == 0 && messagesPerTask == map[] && onProgressPerTask == map[] && lastPong == now
    {
      this.conn := conn;
      this.id := id;
      jobs := 0;
      messagesPerTask := map[];
      onProgressPerTask := map[];
      lastPong := now;
    }

    method ReceivedPong(now: real)
      modifies this`lastPong
      ensures lastPong == now
    {
      lastPong := now;
    }
  }

  /**
   * The fields of a queued message `message["data"]` must have for a chunk, and what
   * appending it does to the task's buffers: SENDING_CHUNK appends the decoded bytes to the
   * file's buffer (created empty); FINAL_CHUNK appends, stores the base64 of the whole buffer
   * as the received file and drops the buffer. None where the code raises.
   */
  function AcceptChunk(chunks: map<string, Bytes>, files: map<string, Base64>, final: bool, data: Data)
    : Option<(map<string, Bytes>, map<string, Base64>)>
  {
    if !(data.Object? && data.body.Chunk?) then None
    else
      var fileId := data.body.fileId;
      var buffer := (if fileId in chunks then chunks[fileId] else []) + B64Decode(data.body.chunk);
      if final then Some((chunks - {fileId}, files[fileId := B64Encode(buffer)]))
      else Some((chunks[fileId := buffer], files))
  }

  /** Feeding chunk frames to a task in order; None as soon as one is not a chunk frame. */
  function AcceptAll(chunks: map<string, Bytes>, files: map<string, Base64>, frames: seq<Envelope>)
    : Option<(map<string, Bytes>, map<string, Base64>)>
    decreases |frames|
  {
    if frames == [] then Some((chunks, files))
    else if !(frames[0].StatusFrame? && (frames[0].status == SendingChunk || frames[0].status == FinalChunk)) then None
    else match AcceptChunk(chunks, files, frames[0].status == FinalChunk, frames[0].data)
      case None => None
      case Some(next) => AcceptAll(next.0, next.1, frames[1..])
  }

  lemma {:induction false} AcceptFrom(chunks: map<string, Bytes>, files: map<string, Base64>,
                                      taskId: string, fileId: string, data: Bytes, i: nat, buffer: Bytes)
    requires i < |data|
    requires fileId in chunks ==> chunks[fileId] == buffer
    requires fileId !in chunks ==> buffer == []
    ensures AcceptAll(chunks, files, ChunkCodec.ChunkFramesFrom(taskId, fileId, data, i))
         == Some((chunks - {fileId}, files[fileId := B64Encode(buffer + data[i..])]))
    decreases |data| - i
  {
    var frames := ChunkCodec.ChunkFramesFrom(taskId, fileId, data, i);
    var e := ChunkCodec.SliceEnd(|data|, i);
    assert frames[0] == ChunkCodec.ChunkFrame(taskId, fileId, data, i);
    assert frames[1..] == ChunkCodec.ChunkFramesFrom(taskId, fileId, data, i + ChunkCodec.ChunkSize);
    var payload := Base64(data[i..e]);
    assert frames[0].data == Object(Some(taskId), Chunk(fileId, payload));
    if i + ChunkCodec.ChunkSize >= |data| {
      assert data[i..e] == data[i..];
      assert frames[0].status == FinalChunk;
      assert AcceptChunk(chunks, files, true, frames[0].data)
          == Some((chunks - {fileId}, files[fileId := B64Encode(buffer + data[i..])]));
      assert frames[1..] == [];
    } else {
      var next := chunks[fileId := buffer + data[i..e]];
      assert frames[0].status == SendingChunk;
      assert AcceptChunk(chunks, files, false, frames[0].data) == Some((next, files));
      assert AcceptAll(chunks, files, frames) == AcceptAll(next, files, frames[1..]);
      AcceptFrom(next, files, taskId, fileId, data, e, buffer + data[i..e]);
      assert buffer + data[i..] == (buffer + data[i..e]) + data[e..];
      assert next - {fileId} == chunks - {fileId};
    }
  }

  /**
   * Round trip: draining, in order, the frames a worker sends for a non-empty payload stores
   * exactly the base64 of that payload under its file id, drops the file's buffer, and leaves
   * every other file and buffer as it was.
   */
  lemma ReassemblesPayload(chunks: map<string, Bytes>, files: map<string, Base64>,
                           taskId: string, fileId: string, data: Bytes)
    requires |data| > 0 && fileId !in chunks
    ensures AcceptAll(chunks, files, ChunkCodec.ChunkFrames(taskId, fileId, data))
         == Some((chunks, files[fileId := B64Encode(data)]))
  {
    AcceptFrom(chunks, files, taskId, fileId, data, 0, []);
    assert [] + data[0..] == data;
    assert chunks - {fileId} == chunks;
  }

  /** How a task's wait ends. */
  datatype TaskResponse =
    | WorkerError(error: Data)                            // ERROR: {"status": ERROR, "error": data}
    | Completed(data: Data, files: map<string, Base64>)   // COMPLETED_TASK: data and files
    | HandlerException                                    // the except branch's error response
    | Raised                                              // an exception escapes: HTTP 500

  /**
   * One `handle_internal_client_task` call after its job was sent: the worker it waits on and
   * its local buffers. Each `Step` handles at most one dequeued message.
   */
  class TaskRun {
    const client: InternalClient
    const taskId: string
    var chunksPerFile: map<string, Bytes>
    var filesReceived: map<string, Base64>
    var done: bool

    constructor (client: InternalClient, taskId: string)
      ensures this.client == client && this.taskId == taskId
      ensures chunksPerFile == map[] && filesReceived == map[] && !done
    {
      this.client := client;
      this.taskId := taskId;
      chunksPerFile := map[];
      filesReceived := map[];
      done := false;
    }

    /**
     * The `except` branch and the `finally` block: `jobs` drops by two and the callback is
     * removed; if the callback was already gone, the `del` raises out of the handler.
     */
    method ExceptionExit() returns (r: Option<TaskResponse>)
      modifies this`chunksPerFile, this`done, client`jobs, client`onProgressPerTask
      ensures client.jobs == old(client.jobs) - 2
      ensures client.onProgressPerTask == old(client.onProgressPerTask) - {taskId}
      ensures r == Some(if taskId in old(client.onProgressPerTask) then HandlerException else Raised)
      ensures chunksPerFile == map[] && done
    {
      client.jobs := client.jobs - 1;
      if taskId in client.onProgressPerTask {
        client.onProgressPerTask := client.onProgressPerTask - {taskId};
        r := Some(HandlerException);
      } else {
        r := Some(Raised);
      }
      // finally
      client.jobs := client.jobs - 1;
      client.onProgressPerTask := client.onProgressPerTask - {taskId};
      chunksPerFile := map[];
      done := true;
    }

    /**
     * The ERROR and COMPLETED_TASK branches, then `finally`: `jobs` drops by two and the
     * callback is removed. A missing callback makes the branch's `del` raise, the except
     * branch decrement once more and raise again.
     */
    method TerminalExit(response: TaskResponse) returns (r: Option<TaskResponse>)
      modifies this`chunksPerFile, this`done, client`jobs, client`onProgressPerTask
      ensures client.onProgressPerTask == old(client.onProgressPerTask) - {taskId}
      ensures taskId in old(client.onProgressPerTask) ==> client.jobs == old(client.jobs) - 2 && r == Some(response)
      ensures taskId !in old(client.onProgressPerTask) ==> client.jobs == old(client.jobs) - 3 && r == Some(Raised)
      ensures chunksPerFile == map[] && done
    {
      client.jobs := client.jobs - 1;
      if taskId in client.onProgressPerTask {
        client.onProgressPerTask := client.onProgressPerTask - {taskId};
        r := Some(response);
      } else {
        r := ExceptionExit();
        return;
      }
      // finally
      client.jobs := client.jobs - 1;
      client.onProgressPerTask := client.onProgressPerTask - {taskId};
      chunksPerFile := map[];
      done := true;
    }

    /** One pass of the drain loop (main_http.py:254-299); `None` while the task waits. */
    method Step() returns (r: Option<TaskResponse>)
      requires !done
      modifies this`chunksPerFile, this`filesReceived, this`done,
               client`jobs, client`onProgressPerTask, client`messagesPerTask
      ensures done == r.Some?
      ensures done ==> chunksPerFile == map[]
      // the queue lookup raises: handled as an exception
      ensures taskId !in old(client.messagesPerTask) ==>
        && client.messagesPerTask == old(client.messagesPerTask)
        && client.jobs == old(client.jobs) - 2
        && client.onProgressPerTask == old(client.onProgressPerTask) - {taskId}
        && r == Some(if taskId in old(client.onProgressPerTask) then HandlerException else Raised)
      // an empty queue: sleep, nothing changes
      ensures taskId in old(client.messagesPerTask) && old(client.messagesPerTask[taskId]) == [] ==>
        && r == None
        && client.messagesPerTask == old(client.messagesPerTask)
        && client.jobs == old(client.jobs) && client.onProgressPerTask == old(client.onProgressPerTask)
        && chunksPerFile == old(chunksPerFile) && filesReceived == old(filesReceived)
      // otherwise exactly the head message is dequeued and handled
      ensures taskId in old(client.messagesPerTask) && old(client.messagesPerTask[taskId]) != [] ==>
        var m := old(client.messagesPerTask[taskId][0]);
        && client.messagesPerTask == old(client.messagesPerTask)[taskId := old(client.messagesPerTask[taskId][1..])]
        && filesReceived == (if m.StatusFrame? && (m.status == SendingChunk || m.status == FinalChunk)
                             && AcceptChunk(old(chunksPerFile), old(filesReceived), m.status == FinalChunk, m.data).Some?
                             then AcceptChunk(old(chunksPerFile), old(filesReceived), m.status == FinalChunk, m.data).value.1
                             else old(filesReceived))
        && (m.StatusFrame? && (m.status == Error || m.status == CompletedTask) ==>
              && client.onProgressPerTask == old(client.onProgressPerTask) - {taskId}
              && var response := if m.status == Error then WorkerError(m.data) else Completed(m.data, old(filesReceived));
                 if taskId in old(client.onProgressPerTask)
                 then client.jobs == old(client.jobs) - 2 && r == Some(response)
                 else client.jobs == old(client.jobs) - 3 && r == Some(Raised))
        && (m.StatusFrame? && (m.status == SendingChunk || m.status == FinalChunk) ==>
              match AcceptChunk(old(chunksPerFile), old(filesReceived), m.status == FinalChunk, m.data)
              case Some(next) =>
                && r == None && chunksPerFile == next.0
                && client.jobs == old(client.jobs) && client.onProgressPerTask == old(client.onProgressPerTask)
              case None =>
                && client.jobs == old(client.jobs) - 2
                && client.onProgressPerTask == old(client.onProgressPerTask) - {taskId}
                && r == Some(if taskId in old(client.onProgressPerTask) then HandlerException else Raised))
        && (m.StatusFrame? && m.status in {Progress, Pong, InternalClientReport} ==>
              && r == None && chunksPerFile == old(chunksPerFile)
              && client.jobs == old(client.jobs) && client.onProgressPerTask == old(client.onProgressPerTask))
        && (m.CommandFrame? ==>
              && client.jobs == old(client.jobs) - 2
              && client.onProgressPerTask == old(client.onProgressPerTask) - {taskId}
              && r == Some(if taskId in old(client.onProgressPerTask) then HandlerException else Raised))
    {
      if taskId !in client.messagesPerTask {
        r := ExceptionExit();
        return;
      }
      var queue := client.messagesPerTask[taskId];
      if queue == [] {
        return None;
      }
      var m := queue[0];
      client.messagesPerTask := client.messagesPerTask[taskId := queue[1..]];
      if m.CommandFrame? {
        // message["status"] raises
        r := ExceptionExit();
      } else if m.status == Error {
        r := TerminalExit(WorkerError(m.data));
      } else if m.status == CompletedTask {
        r := TerminalExit(Completed(m.data, filesReceived));
      } else if m.status == SendingChunk || m.status == FinalChunk {
        var next := AcceptChunk(chunksPerFile, filesReceived, m.status == FinalChunk, m.data);
        if next.None? {
          r := ExceptionExit();
        } else {
          chunksPerFile, filesReceived := next.value.0, next.value.1;
          r := None;
        }
      } else {
        r := None;
      }
    }
  }

  /** The HTTP routes that dispatch a job. */
  datatype Route = ReadToImagesRoute | FindCirclesRoute

  /** `json.loads(data)` raises or gives no object, so `{..., **json.loads(data)}` raises. */
  predicate MalformedData(route: Route, data: Option<string>)
  {
    route == FindCirclesRoute && data.None?
  }

  /** The client fields a route merges into its job data: none for `/read_to_images`. */
  function RouteParams(route: Route, data: Option<string>): string
  {
    if route == FindCirclesRoute && data.Some? then data.value else ""
  }

  datatype DispatchResult =
    | NoWorkers          // HTTPException 404 "No internal clients connected."
    | Raised500          // an exception escapes the route
    | Started(run: TaskRun)

  /** How a worker connection's handshake was classified. */
  datatype Role = WorkerRole(id: string) | FrontendRole

  /** The broker's module-level state: registered workers and frontend sessions. */
  class Broker {
    var internalClients: map<string, InternalClient>
    var clients: PyDict.Dict<string, ConnId>
    var sent: seq<Sent>

    /** Each worker is registered under its own id, so no object serves two ids. */
    ghost predicate Valid()
      reads this
    {
      forall id :: id in internalClients ==> internalClients[id].id == id
    }

    /** The worker registered under `id`, as a frame for `modifies`. */
    function Named(id: string): set<InternalClient>
      reads this
    {
      if id in internalClients then {internalClients[id]} else {}
    }

    constructor ()
      ensures Valid()
      ensures internalClients == map[] && clients == [] && sent == []
    {
      internalClients := map[];
      clients := [];
      sent := [];
    }

    /** `for client in clients.values(): send_text(report)` with the current worker count. */
    method BroadcastWorkerCount()
      modifies this`sent
      ensures sent == old(sent) + Reports(clients, |internalClients|)
    {
      var i := 0;
      while i < |clients|
        invariant 0 <= i <= |clients|
        invariant sent == old(sent) + Reports(clients[..i], |internalClients|)
      {
        sent := sent + [Sent(clients[i].1, ReportFrame(|internalClients|))];
        i := i + 1;
      }
      assert clients[..i] == clients;
    }

    /** `send_bytes_in_chunks(websocket, task_id, data, file_id)` on the connection `conn`. */
    method SendBytesInChunks(conn: ConnId, taskId: string, data: Bytes, fileId: string)
      modifies this`sent
      ensures sent == old(sent) + Tag(conn, ChunkCodec.ChunkFrames(taskId, fileId, data))
    {
      var i: nat := 0;
      while i < |data|
        invariant old(sent) + Tag(conn, ChunkCodec.ChunkFrames(taskId, fileId, data))
               == sent + Tag(conn, ChunkCodec.ChunkFramesFrom(taskId, fileId, data, i))
        decreases |data| - i
      {
        var status := if i + ChunkCodec.ChunkSize >= |data| then FinalChunk else SendingChunk;
        var chunk := data[i..ChunkCodec.SliceEnd(|data|, i)];
        var frame := StatusFrame(status, Object(Some(taskId), Chunk(fileId, B64Encode(chunk))));
        assert ChunkCodec.ChunkFramesFrom(taskId, fileId, data, i)
            == [frame] + ChunkCodec.ChunkFramesFrom(taskId, fileId, data, i + ChunkCodec.ChunkSize);
        TagAppend(conn, [frame], ChunkCodec.ChunkFramesFrom(taskId, fileId, data, i + ChunkCodec.ChunkSize));
        sent := sent + [Sent(conn, frame)];
        i := i + ChunkCodec.ChunkSize;
      }
    }

    /**
     * The awaited `on_progress(text)` of a route: the lambda sends a PROGRESS frame to the
     * session's socket when the session is registered and otherwise returns None, whose
     * `await` raises (`ok` false).
     */
    method CallProgress(sink: ProgressSink, text: string) returns (ok: bool)
      modifies this`sent
      ensures ok == PyDict.Get(clients, sink.sessionId).Some?
      ensures ok ==> sent == old(sent) + [Sent(PyDict.Get(clients, sink.sessionId).value, ProgressFrame(sink.taskId, text))]
      ensures !ok ==> sent == old(sent)
    {
      var conn := PyDict.Get(clients, sink.sessionId);
      if conn.None? {
        return false;
      }
      sent := sent + [Sent(conn.value, ProgressFrame(sink.taskId, text))];
      ok := true;
    }

    /**
     * A websocket is accepted (main_http.py:309-315, 328-329): a worker is registered under
     * its id, replacing any worker of that id, and every frontend is told the new count; any
     * other connection is a frontend and is sent the current count.
     */
    method Accept(protocol: Option<string>, conn: ConnId, now: real) returns (role: Role)
      requires Valid()
      modifies this`internalClients, this`sent
      ensures Valid()
      ensures protocol.Some? && StartsWith(protocol.value, WorkerProtocolPrefix) ==>
        && role == WorkerRole(WorkerId(protocol.value))
        && internalClients.Keys == old(internalClients).Keys + {role.id}
        && (forall id :: id in old(internalClients) && id != role.id ==> internalClients[id] == old(internalClients)[id])
        && fresh(internalClients[role.id])
        && internalClients[role.id].conn == conn
        && internalClients[role.id].jobs == 0 && internalClients[role.id].lastPong == now
        && internalClients[role.id].messagesPerTask == map[] && internalClients[role.id].onProgressPerTask == map[]
        && sent == old(sent) + Reports(clients, |internalClients|)
      ensures !(protocol.Some? && StartsWith(protocol.value, WorkerProtocolPrefix)) ==>
        && role == FrontendRole
        && internalClients == old(internalClients)
        && sent == old(sent) + [Sent(conn, ReportFrame(|internalClients|))]
    {
      if protocol.Some? && StartsWith(protocol.value, WorkerProtocolPrefix) {
        var id := WorkerId(protocol.value);
        var c := new InternalClient(conn, id, now);
        internalClients := internalClients[id := c];
        BroadcastWorkerCount();
        role := WorkerRole(id);
      } else {
        sent := sent + [Sent(conn, ReportFrame(|internalClients|))];
        role := FrontendRole;
      }
    }

    /** A frontend's frame (main_http.py:331-337): `send_id` registers the session id. */
    method FrontendCommand(conn: ConnId, command: string, data: string)
      modifies this`clients
      ensures clients == if command == SendIdCommand then PyDict.Set(old(clients), data, conn) else old(clients)
    {
      if command == SendIdCommand {
        clients := PyDict.Set(clients, data, conn);
      }
    }

    /**
     * A frontend's socket closes (main_http.py:338-349): the last session id it registered,
     * if non-empty, is removed.
     */
    method FrontendClosed(sessionId: Option<string>)
      modifies this`clients
      ensures clients == if sessionId.Some? && sessionId.value != "" then PyDict.Remove(old(clients), sessionId.value) else old(clients)
    {
      if sessionId.Some? && sessionId.value != "" {
        clients := PyDict.Remove(clients, sessionId.value);
      }
    }

    /**
     * One frame from worker `id` (main_http.py:316-327). PONG only refreshes `last_pong`;
     * PROGRESS only calls the task's registered callback, if any, and never reaches a queue;
     * any other status is appended to that task's queue and to no other. `alive` is false
     * where the code raises, which ends this worker's receive loop.
     */
    method RouteWorkerMessage(id: string, m: Envelope, now: real) returns (alive: bool)
      requires Valid()
      modifies this`sent, Named(id)`lastPong, Named(id)`messagesPerTask
      ensures Valid()
      ensures m.CommandFrame? ==> !alive && sent == old(sent)
      ensures m.StatusFrame? && m.status == Pong ==>
        && alive == (id in internalClients)
        && (alive ==> internalClients[id].lastPong == now)
        && (alive ==> internalClients[id].messagesPerTask == old(internalClients[id].messagesPerTask))
        && sent == old(sent)
      ensures m.StatusFrame? && m.status == Progress ==>
        && (id in internalClients ==> internalClients[id].messagesPerTask == old(internalClients[id].messagesPerTask)
                                      && internalClients[id].lastPong == old(internalClients[id].lastPong))
        && (TaskIdOf(m.data).None? || id !in internalClients ==> !alive && sent == old(sent))
        && (TaskIdOf(m.data).Some? && id in internalClients ==>
              var tid := TaskIdOf(m.data).value;
              if tid !in internalClients[id].onProgressPerTask then alive && sent == old(sent)
              else
                var sink := internalClients[id].onProgressPerTask[tid];
                if !m.data.body.Note? || PyDict.Get(clients, sink.sessionId).None? then !alive && sent == old(sent)
                else alive && sent == old(sent) + [Sent(PyDict.Get(clients, sink.sessionId).value,
                                                         ProgressFrame(sink.taskId, m.data.body.message))])
      ensures m.StatusFrame? && m.status != Pong && m.status != Progress ==>
        && sent == old(sent)
        && alive == (TaskIdOf(m.data).Some? && id in internalClients
                     && TaskIdOf(m.data).value in old(internalClients[id].messagesPerTask))
        && (id in internalClients ==> internalClients[id].lastPong == old(internalClients[id].lastPong))
        && (alive ==>
              var tid := TaskIdOf(m.data).value;
              internalClients[id].messagesPerTask
                == old(internalClients[id].messagesPerTask)[tid := old(internalClients[id].messagesPerTask[tid]) + [m]])
        && (!alive && id in internalClients ==>
              internalClients[id].messagesPerTask == old(internalClients[id].messagesPerTask))
    {
      if m.CommandFrame? {
        return false;
      }
      if m.status == Pong {
        if id !in internalClients {
          return false;
        }
        internalClients[id].ReceivedPong(now);
        return true;
      }
      var tid := TaskIdOf(m.data);
      if tid.None? || id !in internalClients {
        return false;
      }
      var c := internalClients[id];
      if m.status == Progress {
        if tid.value !in c.onProgressPerTask {
          return true;
        }
        if !m.data.body.Note? {
          return false;
        }
        alive := CallProgress(c.onProgressPerTask[tid.value], m.data.body.message);
      } else {
        if tid.value !in c.messagesPerTask {
          return false;
        }
        c.messagesPerTask := c.messagesPerTask[tid.value := c.messagesPerTask[tid.value] + [m]];
        alive := true;
      }
    }

    /** The loop of `send_job_to_internal_client` (main_http.py:139-140): each file's chunks, in dict order. */
    method SendFiles(conn: ConnId, taskId: string, files: PyDict.Dict<string, Bytes>)
      modifies this`sent
      ensures sent == old(sent) + Tag(conn, FilesFrames(taskId, files))
    {
      var i := 0;
      while i < |files|
        invariant 0 <= i <= |files|
        invariant old(sent) + Tag(conn, FilesFrames(taskId, files)) == sent + Tag(conn, FilesFrames(taskId, files[i..]))
      {
        assert files[i..][1..] == files[i + 1..];
        TagAppend(conn, ChunkCodec.ChunkFrames(taskId, files[i].0, files[i].1), FilesFrames(taskId, files[i + 1..]));
        SendBytesInChunks(conn, taskId, files[i].1, files[i].0);
        i := i + 1;
      }
    }

    /**
     * `send_job_to_internal_client` (main_http.py:124-140): the task's queue is replaced by a
     * fresh empty one, `jobs` rises by one, and the job frame is written before the chunk
     * frames of its files, files in dict order. `ok` is false where the id lookup raises.
     */
    method SendJob(clientId: string, job: Job) returns (ok: bool)
      requires Valid()
      modifies this`sent, Named(clientId)`messagesPerTask, Named(clientId)`jobs
      ensures ok == (clientId in internalClients)
      ensures !ok ==> sent == old(sent)
      ensures ok ==>
        var c := internalClients[clientId];
        && c.messagesPerTask == old(c.messagesPerTask)[job.taskId := []]
        && c.jobs == old(c.jobs) + 1
        && sent == old(sent) + [Sent(c.conn, JobFrame(job))] + Tag(c.conn, FilesFrames(job.taskId, job.files))
    {
      if clientId !in internalClients {
        return false;
      }
      var c := internalClients[clientId];
      c.messagesPerTask := c.messagesPerTask[job.taskId := []];
      c.jobs := c.jobs + 1;
      sent := sent + [Sent(c.conn, JobFrame(job))];
      SendFiles(c.conn, job.taskId, job.files);
      ok := true;
    }

    /**
     * An HTTP job (`/read_to_images` at main_http.py:144-165, `/find_circles` at :195-215)
     * and the part of `handle_internal_client_task` before its drain loop (:226-241).
     * `chosen` stands for `random.choice` over the workers and `fileId` for the random file id.
     * `data` is the `/find_circles` form field: `Some(fields)` when `json.loads` gives an object,
     * `None` when it raises or gives anything else; `/read_to_images` has no such field.
     * With no worker registered both routes answer 404 before choosing or sending anything
     * (`/read_to_images` first looks the session up, which raises if it is unknown).
     */
    method Dispatch(route: Route, sessionId: string, taskId: string, fileId: string, file: Bytes,
                    data: Option<string>, chosen: string) returns (res: DispatchResult)
      requires Valid()
      requires |internalClients| > 0 ==> chosen in internalClients
      modifies this`sent, Named(chosen)`messagesPerTask, Named(chosen)`jobs, Named(chosen)`onProgressPerTask
      ensures Valid()
      ensures route == ReadToImagesRoute && PyDict.Get(clients, sessionId).None? ==>
        res == Raised500 && sent == old(sent)
      ensures (route == FindCirclesRoute || PyDict.Get(clients, sessionId).Some?) && |internalClients| == 0 ==>
        res == NoWorkers && sent == old(sent)
      // the data is not a JSON object, or the progress sink finds no session: nothing is sent
      ensures |internalClients| > 0 && (MalformedData(route, data) || PyDict.Get(clients, sessionId).None?) ==>
        res == Raised500 && sent == old(sent)
        && internalClients[chosen].jobs == old(internalClients[chosen].jobs)
        && internalClients[chosen].messagesPerTask == old(internalClients[chosen].messagesPerTask)
        && internalClients[chosen].onProgressPerTask == old(internalClients[chosen].onProgressPerTask)
      ensures |internalClients| > 0 && !MalformedData(route, data) && PyDict.Get(clients, sessionId).Some? ==>
        var c := internalClients[chosen];
        var job := Job(if route == ReadToImagesRoute then ReadToImages else FindCircles,
                       taskId, sessionId, RouteParams(route, data), [(fileId, file)]);
        && res.Started? && fresh(res.run)
        && res.run.client == c && res.run.taskId == taskId
        && res.run.chunksPerFile == map[] && res.run.filesReceived == map[] && !res.run.done
        && c.jobs == old(c.jobs) + 1
        && c.messagesPerTask == old(c.messagesPerTask)[taskId := []]
        && c.onProgressPerTask == old(c.onProgressPerTask)[taskId := ForwardProgress(sessionId, taskId)]
        && sent == old(sent)
             + [Sent(PyDict.Get(clients, sessionId).value, ProgressFrame(taskId, SendingJobText))]
             + [Sent(c.conn, JobFrame(job))]
             + Tag(c.conn, ChunkCodec.ChunkFrames(taskId, fileId, file))
    {
      if route == ReadToImagesRoute && PyDict.Get(clients, sessionId).None? {
        return Raised500;
      }
      if |internalClients| == 0 {
        return NoWorkers;
      }
      if MalformedData(route, data) {
        return Raised500;
      }
      var c := internalClients[chosen];
      var job := Job(if route == ReadToImagesRoute then ReadToImages else FindCircles,
                     taskId, sessionId, RouteParams(route, data), [(fileId, file)]);
      var sink := ForwardProgress(sessionId, taskId);
      var ok := CallProgress(sink, SendingJobText);
      if !ok {
        return Raised500;
      }
      c.onProgressPerTask := c.onProgressPerTask[taskId := sink];
      ok := SendJob(c.id, job);
      assert FilesFrames(taskId, job.files) == ChunkCodec.ChunkFrames(taskId, fileId, file) + FilesFrames(taskId, []);
      var run := new TaskRun(c, taskId);
      res := Started(run);
    }

    /**
     * `handle_internal_client_disconnect(id)` (main_http.py:353-362): the worker is removed;
     * if its `jobs` is not 0, each of its queues first gets exactly one ERROR frame
     * "Internal client disconnected."; every frontend is then sent the remaining count.
     * `ok` is false where the lookup raises.
     */
    method Disconnect(id: string) returns (ok: bool)
      requires Valid()
      modifies this`internalClients, this`sent, Named(id)`messagesPerTask
      ensures Valid()
      ensures ok == (id in old(internalClients))
      ensures ok ==> |internalClients| == |old(internalClients)| - 1
      ensures !ok ==> internalClients == old(internalClients) && sent == old(sent)
      ensures ok ==>
        var c := old(internalClients[id]);
        && internalClients == old(internalClients) - {id}
        && c.messagesPerTask == WithDisconnectError(old(c.messagesPerTask), c.jobs)
        && sent == old(sent) + Reports(clients, |internalClients|)
    {
      if id !in internalClients {
        return false;
      }
      var c := internalClients[id];
      if c.jobs != 0 {
        var pending := c.messagesPerTask.Keys;
        while pending != {}
          invariant internalClients == old(internalClients) && sent == old(sent)
          invariant pending <= c.messagesPerTask.Keys
          invariant c.messagesPerTask.Keys == old(c.messagesPerTask).Keys
          invariant forall t :: t in c.messagesPerTask ==>
            c.messagesPerTask[t] == old(c.messagesPerTask[t]) + (if t in pending then [] else [DisconnectedFrame()])
          decreases pending
        {
          var t :| t in pending;
          c.messagesPerTask := c.messagesPerTask[t := c.messagesPerTask[t] + [DisconnectedFrame()]];
          pending := pending - {t};
        }
      }
      internalClients := internalClients - {id};
      BroadcastWorkerCount();
      ok := true;
    }

    /**
     * One pass of `ping_internal_clients` (main_http.py:61-70) over the workers registered
     * when it starts, listed in `order` (their dict order): a worker whose last pong passes the
     * eviction test `test` (`AsWritten` in the source) is disconnected, any other is
     * sent a PING. The workers disconnected are exactly the expired ones, and their queues get
     * the disconnect ERROR frame while every other worker's queues stay as they were; the
     * frames written are those of `RoundLog`, one PING or one round of worker-count reports
     * per worker in order.
     */
    method PingRound(now: real, order: seq<string>, test: HeartbeatTest)
      requires Valid()
      requires |order| == |internalClients|
      requires forall k :: 0 <= k < |order| ==> order[k] in internalClients
      requires forall i, j :: 0 <= i < j < |order| ==> order[i] != order[j]
      modifies this`internalClients, this`sent, internalClients.Values`messagesPerTask
      ensures Valid()
      ensures internalClients == old(internalClients) - Stale(old(PongsOf(internalClients)), now, test)
      ensures forall x :: x in old(internalClients) ==>
        old(internalClients)[x].messagesPerTask ==
          if x in Stale(old(PongsOf(internalClients)), now, test)
          then WithDisconnectError(old(internalClients[x].messagesPerTask), old(internalClients)[x].jobs)
          else old(internalClients[x].messagesPerTask)
      ensures sent == old(sent) + RoundLog(order, |order|, old(ConnsOf(internalClients)),
                                          Stale(old(PongsOf(internalClients)), now, test), clients, |order|)
    {
      ghost var snapshot := internalClients;
      ghost var expired, conns, kept, dropped := RoundStarts(now, test, order);
      ghost var evicted := RunRound(now, test, order, snapshot, expired, conns, kept, dropped, sent);
      RoundEnds(now, test, order, snapshot, expired, conns, kept, dropped, evicted, old(sent));
    }

    /**
     * The loop of a heartbeat round: every worker of `order` takes its turn, in order, each
     * carrying the round's bookkeeping one step further; `evicted` are the workers it removed.
     */
    method RunRound(now: real, test: HeartbeatTest, order: seq<string>,
                    ghost snapshot: map<string, InternalClient>, ghost expired: set<string>,
                    ghost conns: map<string, ConnId>, ghost kept: map<string, map<string, seq<Envelope>>>,
                    ghost dropped: map<string, map<string, seq<Envelope>>>, ghost start: seq<Sent>)
      returns (ghost evicted: set<string>)
      requires Valid()
      requires RoundSetup(now, test, order, snapshot, expired, conns, kept, dropped) == true
      requires RoundBooks(order, 0, snapshot, expired, conns, {}, start, clients, internalClients, sent) == true
      requires RoundQueues(snapshot, kept, dropped, {})
      modifies this`internalClients, this`sent, snapshot.Values`messagesPerTask
      ensures Valid()
      ensures RoundSetup(now, test, order, snapshot, expired, conns, kept, dropped) == true
      ensures RoundBooks(order, |order|, snapshot, expired, conns, evicted, start, clients, internalClients, sent) == true
      ensures RoundQueues(snapshot, kept, dropped, evicted)
    {
      evicted := {};
      var i := 0;
      while i < |order|
        invariant RoundSetup(now, test, order, snapshot, expired, conns, kept, dropped) == true
        invariant RoundBooks(order, i, snapshot, expired, conns, evicted, start, clients, internalClients, sent) == true
        invariant RoundQueues(snapshot, kept, dropped, evicted)
      {
        evicted := TakeTurn(now, test, order, i, snapshot, expired, conns, kept, dropped, evicted, start);
        i := i + 1;
      }
    }

    /** The plan of a heartbeat round over the workers registered now, before its first turn. */
    lemma RoundStarts(now: real, test: HeartbeatTest, order: seq<string>)
      returns (expired: set<string>, conns: map<string, ConnId>, kept: map<string, map<string, seq<Envelope>>>,
               dropped: map<string, map<string, seq<Envelope>>>)
      requires Valid()
      requires |order| == |internalClients|
      requires forall k :: 0 <= k < |order| ==> order[k] in internalClients
      requires forall i, j :: 0 <= i < j < |order| ==> order[i] != order[j]
      ensures expired == Stale(PongsOf(internalClients), now, test)
      ensures conns == ConnsOf(internalClients) && kept == QueuesOf(internalClients)
      ensures RoundSetup(now, test, order, internalClients, expired, conns, kept, dropped) == true
      ensures RoundBooks(order, 0, internalClients, expired, conns, {}, sent, clients, internalClients, sent) == true
      ensures RoundQueues(internalClients, kept, dropped, {})
    {
      expired := Stale(PongsOf(internalClients), now, test);
      conns := ConnsOf(internalClients);
      kept := QueuesOf(internalClients);
      dropped := map x | x in kept :: WithDisconnectError(kept[x], internalClients[x].jobs);
      assert forall x :: x in internalClients ==> (Evicts(test, internalClients[x].lastPong, now) <==> x in expired);
      assert forall x :: x in internalClients ==>
        x in kept && x in dropped && dropped[x] == WithDisconnectError(kept[x], internalClients[x].jobs);
      assert RoundSetup(now, test, order, internalClients, expired, conns, kept, dropped);
      BooksStart(order, internalClients, expired, conns, sent, clients);
    }

    /**
     * What a heartbeat round over the workers `snapshot` leaves once every worker has had its
     * turn: the workers left are the ones not expired, the expired ones hold their queues with
     * the disconnect ERROR frame, the others their queues as they were, and the frames written
     * since `start` are `RoundLog`'s.
     */
    lemma RoundEnds(now: real, test: HeartbeatTest, order: seq<string>,
                    snapshot: map<string, InternalClient>, expired: set<string>,
                    conns: map<string, ConnId>, kept: map<string, map<string, seq<Envelope>>>,
                    dropped: map<string, map<string, seq<Envelope>>>, evicted: set<string>, start: seq<Sent>)
      requires RoundSetup(now, test, order, snapshot, expired, conns, kept, dropped) == true
      requires RoundBooks(order, |order|, snapshot, expired, conns, evicted, start, clients, internalClients, sent) == true
      requires RoundQueues(snapshot, kept, dropped, evicted)
      ensures internalClients == snapshot - expired
      ensures forall x :: x in snapshot ==>
        x in kept && snapshot[x].messagesPerTask == if x in expired then WithDisconnectError(kept[x], snapshot[x].jobs) else kept[x]
      ensures sent == start + RoundLog(order, |order|, conns, expired, clients, |order|)
    {
      RoundEvictsExpired(order, snapshot.Keys, expired, evicted);
    }

    /**
     * What a heartbeat round over the workers `snapshot` fixes when it starts: the listing
     * `order` of their ids without repeats, their connections, the expired ones, and for each
     * worker its queues `kept` and the same queues with the disconnect ERROR frame, `dropped`.
     */
    ghost predicate RoundSetup(now: real, test: HeartbeatTest, order: seq<string>,
                               snapshot: map<string, InternalClient>, expired: set<string>,
                               conns: map<string, ConnId>, kept: map<string, map<string, seq<Envelope>>>,
                               dropped: map<string, map<string, seq<Envelope>>>)
      reads snapshot.Values`lastPong, snapshot.Values`jobs
    {
      && |order| == |snapshot| && expired <= snapshot.Keys
      && (forall k :: 0 <= k < |order| ==> order[k] in snapshot)
      && (forall a, b :: 0 <= a < b < |order| ==> order[a] != order[b])
      && (forall x :: x in snapshot ==> snapshot[x].id == x && x in conns && conns[x] == snapshot[x].conn)
      && (forall x :: x in snapshot ==> (Evicts(test, snapshot[x].lastPong, now) <==> x in expired))
      && (forall x :: x in snapshot ==>
            x in kept && x in dropped && dropped[x] == WithDisconnectError(kept[x], snapshot[x].jobs))
    }

    /** During a heartbeat round, the evicted workers hold their `dropped` queues, the others their `kept` ones. */
    ghost predicate RoundQueues(snapshot: map<string, InternalClient>, kept: map<string, map<string, seq<Envelope>>>,
                                dropped: map<string, map<string, seq<Envelope>>>, evicted: set<string>)
      reads snapshot.Values`messagesPerTask
    {
      forall x :: x in snapshot && x in kept && x in dropped ==>
        snapshot[x].messagesPerTask == if x in evicted then dropped[x] else kept[x]
    }

    /**
     * The `i`-th turn of a heartbeat round over the workers `snapshot`, carrying the round's
     * bookkeeping from `i` turns to `i + 1`, with `next` the evicted workers after it.
     */
    method TakeTurn(now: real, test: HeartbeatTest, order: seq<string>, i: nat,
                    ghost snapshot: map<string, InternalClient>, ghost expired: set<string>,
                    ghost conns: map<string, ConnId>, ghost kept: map<string, map<string, seq<Envelope>>>,
                    ghost dropped: map<string, map<string, seq<Envelope>>>, ghost evicted: set<string>,
                    ghost start: seq<Sent>)
      returns (ghost next: set<string>)
      requires i < |order|
      requires RoundSetup(now, test, order, snapshot, expired, conns, kept, dropped) == true
      requires RoundBooks(order, i, snapshot, expired, conns, evicted, start, clients, internalClients, sent) == true
      requires RoundQueues(snapshot, kept, dropped, evicted)
      modifies this`internalClients, this`sent, {snapshot[order[i]]}`messagesPerTask
      ensures next == if order[i] in expired then evicted + {order[i]} else evicted
      ensures RoundSetup(now, test, order, snapshot, expired, conns, kept, dropped) == true
      ensures RoundBooks(order, i + 1, snapshot, expired, conns, next, start, clients, internalClients, sent) == true
      ensures RoundQueues(snapshot, kept, dropped, next)
    {
      ghost var sentBefore, workersBefore := sent, internalClients;
      TurnReady(now, test, order, i, snapshot, expired, conns, kept, dropped, evicted, start);
      var gone := Turn(now, test, order, i, snapshot, expired, conns, kept, dropped, evicted);
      next := if gone then evicted + {order[i]} else evicted;
      TurnBookkeeping(order, i, snapshot, expired, conns, evicted, next, start, clients,
                      workersBefore, internalClients, sentBefore, sent, gone, conns[order[i]]);
    }

    /** What the `i`-th turn of a heartbeat round over the workers `snapshot` can count on. */
    lemma TurnReady(now: real, test: HeartbeatTest, order: seq<string>, i: nat,
                    snapshot: map<string, InternalClient>, expired: set<string>,
                    conns: map<string, ConnId>, kept: map<string, map<string, seq<Envelope>>>,
                    dropped: map<string, map<string, seq<Envelope>>>, evicted: set<string>, start: seq<Sent>)
      requires i < |order|
      requires RoundSetup(now, test, order, snapshot, expired, conns, kept, dropped) == true
      requires RoundBooks(order, i, snapshot, expired, conns, evicted, start, clients, internalClients, sent) == true
      ensures forall a, b :: 0 <= a < b < |order| ==> order[a] != order[b]
      ensures forall k :: 0 <= k < |order| ==> order[k] in snapshot
      ensures order[i] in conns && order[i] in snapshot && conns[order[i]] == snapshot[order[i]].conn && order[i] !in evicted
      ensures order[i] in internalClients && internalClients[order[i]] == snapshot[order[i]]
      ensures Valid()
    {
    }

    /**
     * The turn of `order[i]` in a heartbeat round over the workers `snapshot`: `gone` tells
     * whether it was expired and is now disconnected, its queues moving from `kept` to `dropped`.
     */
    method Turn(now: real, test: HeartbeatTest, order: seq<string>, i: nat,
                ghost snapshot: map<string, InternalClient>, ghost expired: set<string>,
                ghost conns: map<string, ConnId>, ghost kept: map<string, map<string, seq<Envelope>>>,
                ghost dropped: map<string, map<string, seq<Envelope>>>, ghost evicted: set<string>)
      returns (gone: bool)
      requires Valid() && i < |order|
      requires RoundSetup(now, test, order, snapshot, expired, conns, kept, dropped) == true
      requires order[i] in internalClients && internalClients[order[i]] == snapshot[order[i]] && order[i] !in evicted
      requires RoundQueues(snapshot, kept, dropped, evicted)
      modifies this`internalClients, this`sent, {snapshot[order[i]]}`messagesPerTask
      ensures Valid()
      ensures gone <==> order[i] in expired
      ensures gone ==>
        && internalClients == old(internalClients) - {order[i]}
        && |internalClients| == |old(internalClients)| - 1
        && sent == old(sent) + Reports(clients, |internalClients|)
      ensures !gone ==> internalClients == old(internalClients) && sent == old(sent) + [Sent(snapshot[order[i]].conn, PingFrame())]
      ensures RoundSetup(now, test, order, snapshot, expired, conns, kept, dropped) == true
      ensures RoundQueues(snapshot, kept, dropped, if gone then evicted + {order[i]} else evicted)
    {
      var id := order[i];
      ghost var c := snapshot[id];
      gone := Visit(now, test, id);
      forall x | x in snapshot && x in kept && x in dropped
        ensures snapshot[x].messagesPerTask == if x in evicted || (gone && x == id) then dropped[x] else kept[x]
      {
        if x != id {
          assert snapshot[x].id != c.id;
        }
      }
    }

    /**
     * One worker's turn in a heartbeat round (main_http.py:62-70): disconnected if its last
     * pong passes the eviction test, else sent a PING and left as it was.
     */
    method Visit(now: real, test: HeartbeatTest, id: string) returns (gone: bool)
      requires Valid() && id in internalClients
      modifies this`internalClients, this`sent, {internalClients[id]}`messagesPerTask
      ensures Valid()
      ensures gone == Evicts(test, old(internalClients[id].lastPong), now)
      ensures var c := old(internalClients[id]);
        gone ==>
          && internalClients == old(internalClients) - {id}
          && |internalClients| == |old(internalClients)| - 1
          && c.messagesPerTask == WithDisconnectError(old(c.messagesPerTask), old(c.jobs))
          && sent == old(sent) + Reports(clients, |internalClients|)
      ensures var c := old(internalClients[id]);
        !gone ==>
          && internalClients == old(internalClients)
          && c.messagesPerTask == old(c.messagesPerTask)
          && sent == old(sent) + [Sent(c.conn, PingFrame())]
    {
      var c := internalClients[id];
      gone := Evicts(test, c.lastPong, now);
      if gone {
        var ok := Disconnect(id);
      } else {
        sent := sent + [Sent(c.conn, PingFrame())];
      }
    }

    /**
     * A worker's socket closes (main_http.py:338-351): a non-empty id is disconnected; the
     * cleanup in `finally` is a coroutine that is never awaited and does nothing.
     */
    method WorkerSocketClosed(id: string)
      requires Valid()
      modifies this`internalClients, this`sent, Named(id)`messagesPerTask
      ensures Valid()
      ensures id == "" || id !in old(internalClients) ==> internalClients == old(internalClients) && sent == old(sent)
      ensures id != "" && id in old(internalClients) ==>
        var c := old(internalClients[id]);
        && internalClients == old(internalClients) - {id}
        && c.messagesPerTask == WithDisconnectError(old(c.messagesPerTask), c.jobs)
        && sent == old(sent) + Reports(clients, |internalClients|)
    {
      if id != "" {
        var ok := Disconnect(id);
      }
    }
  }

  /** Each worker id's last pong time. */
  ghost function PongsOf(workers: map<string, InternalClient>): (r: map<string, real>)
    reads workers.Values
    ensures r.Keys == workers.Keys
    ensures forall id :: id in workers ==> r[id] == workers[id].lastPong
  {
    map id | id in workers :: workers[id].lastPong
  }

  /** The ids whose last pong passes the eviction test `test` at `now`. */
  function Stale(pongs: map<string, real>, now: real, test: HeartbeatTest): (r: set<string>)
    ensures forall id :: id in r <==> id in pongs && Evicts(test, pongs[id], now)
  {
    set id | id in pongs && Evicts(test, pongs[id], now)
  }

  /**
   * With the test as written, a round at a time no earlier than every worker's last pong
   * evicts nobody, so every worker is pinged.
   */
  lemma NoneStaleAsWritten(pongs: map<string, real>, now: real)
    requires forall id :: id in pongs ==> pongs[id] <= now
    ensures Stale(pongs, now, AsWritten) == {}
  {
    forall id | id in pongs
      ensures !ExpiredAsWritten(pongs[id], now)
    {
      AsWrittenNeverExpires(pongs[id], now);
    }
  }

  /** With the intended test, a round evicts exactly the workers silent for longer than the timeout. */
  lemma StaleCorrected(pongs: map<string, real>, now: real, id: string)
    requires id in pongs
    ensures id in Stale(pongs, now, Intended) <==> pongs[id] + HeartbeatTimeout < now
  {
  }

  /** Each worker id's connection. */
  function ConnsOf(workers: map<string, InternalClient>): (r: map<string, ConnId>)
    ensures r.Keys == workers.Keys
    ensures forall id :: id in workers ==> r[id] == workers[id].conn
  {
    map id | id in workers :: workers[id].conn
  }

  /** Each worker id's queues. */
  ghost function QueuesOf(workers: map<string, InternalClient>): (r: map<string, map<string, seq<Envelope>>>)
    reads workers.Values
    ensures r.Keys == workers.Keys
    ensures forall id :: id in workers ==> r[id] == workers[id].messagesPerTask
  {
    map id | id in workers :: workers[id].messagesPerTask
  }

  /** How many of the first `i` workers of a round's listing are expired. */
  function Evictions(order: seq<string>, i: nat, expired: set<string>): (n: nat)
    requires i <= |order|
    ensures n <= i
  {
    if i == 0 then 0 else Evictions(order, i - 1, expired) + (if order[i - 1] in expired then 1 else 0)
  }

  /**
   * What the first `i` turns of a heartbeat round over `order` write when it starts with
   * `size` workers: an expired worker's turn reports the count left after its removal to every
   * frontend, any other worker's turn sends it one PING.
   */
  function RoundLog(order: seq<string>, i: nat, conns: map<string, ConnId>, expired: set<string>,
                    frontends: PyDict.Dict<string, ConnId>, size: nat): seq<Sent>
    requires i <= |order| <= size
    requires forall k :: 0 <= k < |order| ==> order[k] in conns
  {
    if i == 0 then []
    else
      RoundLog(order, i - 1, conns, expired, frontends, size) +
      if order[i - 1] in expired then Reports(frontends, size - Evictions(order, i, expired))
      else [Sent(conns[order[i - 1]], PingFrame())]
  }

  /**
   * The bookkeeping of a heartbeat round over the workers `snapshot` after its first `i`
   * turns: the workers left are those not yet evicted, the evicted ones are the expired among
   * the first `i`, and the frames written since `start` are `RoundLog`'s. Stated `== true`
   * where it is assumed or proved, so that it is one fact.
   */
  ghost predicate RoundBooks(order: seq<string>, i: nat, snapshot: map<string, InternalClient>,
                             expired: set<string>, conns: map<string, ConnId>, evicted: set<string>,
                             start: seq<Sent>, frontends: PyDict.Dict<string, ConnId>,
                             workers: map<string, InternalClient>, log: seq<Sent>)
  {
    && i <= |order| == |snapshot|
    && (forall k :: 0 <= k < |order| ==> order[k] in conns)
    && workers == snapshot - evicted && evicted <= expired
    && (forall k :: 0 <= k < |order| ==> (order[k] in evicted <==> k < i && order[k] in expired))
    && |workers| + Evictions(order, i, expired) == |snapshot|
    && log == start + RoundLog(order, i, conns, expired, frontends, |snapshot|)
  }

  /** The bookkeeping of a heartbeat round before its first turn. */
  lemma BooksStart(order: seq<string>, snapshot: map<string, InternalClient>, expired: set<string>,
                   conns: map<string, ConnId>, start: seq<Sent>, frontends: PyDict.Dict<string, ConnId>)
    requires |order| == |snapshot|
    requires forall k :: 0 <= k < |order| ==> order[k] in conns
    ensures RoundBooks(order, 0, snapshot, expired, conns, {}, start, frontends, snapshot, start) == true
  {
    assert snapshot - {} == snapshot;
  }

  /** The bookkeeping of a heartbeat round across the turn of its `i`-th worker. */
  lemma TurnBookkeeping(order: seq<string>, i: nat, snapshot: map<string, InternalClient>, expired: set<string>,
                        conns: map<string, ConnId>, evicted: set<string>, next: set<string>, start: seq<Sent>,
                        frontends: PyDict.Dict<string, ConnId>,
                        before: map<string, InternalClient>, after: map<string, InternalClient>,
                        sentBefore: seq<Sent>, sentAfter: seq<Sent>, gone: bool, conn: ConnId)
    requires i < |order|
    requires forall a, b :: 0 <= a < b < |order| ==> order[a] != order[b]
    requires forall k :: 0 <= k < |order| ==> order[k] in snapshot
    requires RoundBooks(order, i, snapshot, expired, conns, evicted, start, frontends, before, sentBefore) == true
    requires (gone <==> order[i] in expired) && order[i] in conns && conns[order[i]] == conn
    requires gone ==>
      after == before - {order[i]} && |after| == |before| - 1 && sentAfter == sentBefore + Reports(frontends, |after|)
    requires !gone ==> after == before && sentAfter == sentBefore + [Sent(conn, PingFrame())]
    requires next == if order[i] in expired then evicted + {order[i]} else evicted
    ensures RoundBooks(order, i + 1, snapshot, expired, conns, next, start, frontends, after, sentAfter) == true
  {
    EvictedStep(order, i, expired, evicted);
    if order[i] in expired {
      EvictOneMore(snapshot, evicted, order[i]);
    }
    LogStep(start, sentBefore, sentAfter, order, i, conns, expired, frontends, |snapshot|);
    assert RoundBooks(order, i + 1, snapshot, expired, conns, next, start, frontends, after, sentAfter);
  }


  /** After the turn of the `i`-th worker of a duplicate-free listing, it counts as evicted exactly if it is expired. */
  lemma EvictedStep(order: seq<string>, i: nat, expired: set<string>, evicted: set<string>)
    requires i < |order|
    requires forall a, b :: 0 <= a < b < |order| ==> order[a] != order[b]
    requires forall k :: 0 <= k < |order| ==> (order[k] in evicted <==> k < i && order[k] in expired)
    ensures var after := if order[i] in expired then evicted + {order[i]} else evicted;
      forall k :: 0 <= k < |order| ==> (order[k] in after <==> k < i + 1 && order[k] in expired)
  {
  }

  /** A log of the first `i` turns, extended by the `i`-th turn's frames, is the log of the first `i + 1`. */
  lemma LogStep(start: seq<Sent>, before: seq<Sent>, after: seq<Sent>, order: seq<string>, i: nat,
                conns: map<string, ConnId>, expired: set<string>, frontends: PyDict.Dict<string, ConnId>, size: nat)
    requires i < |order| <= size
    requires forall k :: 0 <= k < |order| ==> order[k] in conns
    requires before == start + RoundLog(order, i, conns, expired, frontends, size)
    requires after == before + if order[i] in expired then Reports(frontends, size - Evictions(order, i + 1, expired))
                               else [Sent(conns[order[i]], PingFrame())]
    ensures after == start + RoundLog(order, i + 1, conns, expired, frontends, size)
  {
    var turn := if order[i] in expired then Reports(frontends, size - Evictions(order, i + 1, expired))
                else [Sent(conns[order[i]], PingFrame())];
    var log := RoundLog(order, i, conns, expired, frontends, size);
    assert RoundLog(order, i + 1, conns, expired, frontends, size) == log + turn;
    assert (start + log) + turn == start + (log + turn);
  }

  /** With none of the first `i` workers expired, their turns write one PING each, in order, and nothing else. */
  lemma {:induction false} RoundLogPings(order: seq<string>, i: nat, conns: map<string, ConnId>, expired: set<string>,
                                         frontends: PyDict.Dict<string, ConnId>, size: nat)
    requires i <= |order| <= size
    requires forall k :: 0 <= k < |order| ==> order[k] in conns
    requires forall k :: 0 <= k < i ==> order[k] !in expired
    ensures |RoundLog(order, i, conns, expired, frontends, size)| == i
    ensures forall k :: 0 <= k < i ==> RoundLog(order, i, conns, expired, frontends, size)[k] == Sent(conns[order[k]], PingFrame())
  {
    if i > 0 {
      RoundLogPings(order, i - 1, conns, expired, frontends, size);
    }
  }

  /**
   * Every expired worker's turn reports to all frontends: a round with `e` of its first `i`
   * workers expired writes `i - e` PINGs and `e` rounds of reports.
   */
  lemma {:induction false} RoundLogLength(order: seq<string>, i: nat, conns: map<string, ConnId>, expired: set<string>,
                                          frontends: PyDict.Dict<string, ConnId>, size: nat)
    requires i <= |order| <= size
    requires forall k :: 0 <= k < |order| ==> order[k] in conns
    ensures |RoundLog(order, i, conns, expired, frontends, size)|
         == i - Evictions(order, i, expired) + Evictions(order, i, expired) * |frontends|
  {
    if i > 0 {
      RoundLogLength(order, i - 1, conns, expired, frontends, size);
      if order[i - 1] in expired {
        MulSucc(Evictions(order, i - 1, expired), |frontends|);
      }
    }
  }

  /** One more round of reports adds one more frontend count to the product. */
  lemma MulSucc(e: nat, f: nat)
    ensures (e + 1) * f == e * f + f
  {
  }

  /** A duplicate-free listing as long as a set, drawn from it, lists all of it. */
  lemma {:induction false} CoversAll(order: seq<string>, keys: set<string>)
    requires |order| == |keys|
    requires forall k :: 0 <= k < |order| ==> order[k] in keys
    requires forall i, j :: 0 <= i < j < |order| ==> order[i] != order[j]
    ensures forall x :: x in keys ==> x in order
  {
    if order != [] {
      var rest := keys - {order[0]};
      forall k | 0 <= k < |order[1..]|
        ensures order[1..][k] in rest
      {
        assert order[1..][k] == order[k + 1] != order[0];
      }
      assert |rest| == |keys| - 1;
      CoversAll(order[1..], rest);
      forall x | x in keys
        ensures x in order
      {
        if x != order[0] {
          assert x in order[1..];
        }
      }
    }
  }

  /** After a whole round over a listing of every worker, exactly the expired ones are gone. */
  lemma RoundEvictsExpired(order: seq<string>, keys: set<string>, expired: set<string>, evicted: set<string>)
    requires |order| == |keys|
    requires forall k :: 0 <= k < |order| ==> order[k] in keys
    requires forall i, j :: 0 <= i < j < |order| ==> order[i] != order[j]
    requires expired <= keys && evicted <= expired
    requires forall k :: 0 <= k < |order| && order[k] in expired ==> order[k] in evicted
    ensures evicted == expired
  {
    forall x | x in expired
      ensures x in evicted
    {
      CoversAll(order, keys);
      var k :| 0 <= k < |order| && order[k] == x;
    }
  }

  lemma EvictOneMore<K, V>(m: map<K, V>, gone: set<K>, k: K)
    ensures (m - gone) - {k} == m - (gone + {k})
  {
  }

  /** A worker's queues after a disconnect: one ERROR frame more on each, if it had jobs. */
  function WithDisconnectError(queues: map<string, seq<Envelope>>, jobs: int): (r: map<string, seq<Envelope>>)
    ensures r.Keys == queues.Keys
    ensures forall t :: t in r ==> r[t] == queues[t] + (if jobs != 0 then [DisconnectedFrame()] else [])
  {
    if jobs != 0 then map t | t in queues :: queues[t] + [DisconnectedFrame()] else queues
  }
}
