/**
 * The JSON text frames exchanged over the broker's websockets, as typed values.
 *
 * Commands and statuses are the string constants of websocket_types.py, plus the three the
 * broker and worker use without declaring them there: the PING command and the PONG and
 * INTERNAL_CLIENT_REPORT statuses.
 */
module Protocol {
  import opened Common

  newtype Byte = x: int | 0 <= x < 256

  type Bytes = seq<Byte>

  /**
   * A base64 text. Only its meaning is modelled: the bytes it encodes. `B64Decode(B64Encode(b))
   * == b` therefore holds by construction; the alphabet and padding are not modelled.
   */
  datatype Base64 = Base64(decoded: Bytes)

  function B64Encode(b: Bytes): (e: Base64)
    ensures B64Decode(e) == b
  {
    Base64(b)
  }

  function B64Decode(e: Base64): Bytes
  {
    e.decoded
  }

  datatype Command = ReadToImages | IdentifyCircles | GetCalibration | FindCircles | Ping

  datatype Status = CompletedTask | Error | Progress | SendingChunk | FinalChunk | Pong | InternalClientReport

  /** The fields of a `data` object besides `task_id`, one shape per kind of frame. */
  datatype Body =
    | Chunk(fileId: string, chunk: Base64)           // {"chunk", "file_id"}
    | Note(message: string)                          // {"message"}: progress text
    | Failure(error: string)                         // {"error"}: a worker-side exception
    | JobParams(fileIds: seq<string>, socketId: string, params: string)  // a job's parameters
    | Fields(content: string)                        // any other fields, opaque to the broker
    | Count(numClients: nat)                         // {"num_clients"}
    | NoFields

  /**
   * The `data` member of a frame: a bare string, an object, or JSON null (`Null`). A frame with
   * no "data" key at all, on which the worker's `response["data"]` raises KeyError, is not represented,
   * except the worker's `{"status": PONG}`, written with `Null` data: the broker's PONG branch
   * never reads its data.
   */
  datatype Data =
    | Null
    | Text(text: string)
    | Object(taskId: Option<string>, body: Body)

  /**
   * A frame. `error` is a top-level "error" member beside "status", which no frame of the
   * broker or the worker carries (both put an error's text inside `data`); it is there so that
   * a frame the worker's receive loop indexes with `response['error']` can be told apart.
   */
  datatype Envelope =
    | CommandFrame(command: Command, data: Data)   // {"command": ..., "data": ...}
    | StatusFrame(status: Status, data: Data, error: Option<string> := None)  // {"status": ..., "data": ..., "error": ...}

  /** `message["data"]["task_id"]`, or None where Python raises (no object, no key). */
  function TaskIdOf(data: Data): Option<string>
  {
    if data.Object? then data.taskId else None
  }

  /** A websocket connection, by identity. */
  type ConnId = nat

  /** A frame written to a connection. */
  datatype Sent = Sent(to: ConnId, frame: Envelope)

  /** `send_progress(ws, message, task_id)`, on either side. */
  function ProgressFrame(taskId: string, message: string): Envelope
  {
    StatusFrame(Progress, Object(Some(taskId), Note(message)))
  }

  /** The text of a non-negative integer in decimal, as an f-string renders it. */
  function NatToString(n: nat): (s: string)
    ensures |s| >= 1
    ensures forall i :: 0 <= i < |s| ==> '0' <= s[i] <= '9'
  {
    var digit := [(48 + n % 10) as char];
    if n < 10 then digit else NatToString(n / 10) + digit
  }
}
