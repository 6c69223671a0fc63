/**
 * How a payload travels as chunk frames (`send_bytes_in_chunks`, identical in the broker and
 * the worker): slices start at offsets 0, CHUNK_SIZE, 2 * CHUNK_SIZE, ... below the length;
 * the slice whose start `i` has `i + CHUNK_SIZE >= len` is tagged FINAL_CHUNK, the others
 * SENDING_CHUNK. An empty payload yields no frame at all.
 */
module ChunkCodec {
  import opened Common
  import opened Protocol

  const ChunkSize: nat := 1024 * 200

  /**
   * The end of the slice `data[i:i + CHUNK_SIZE]`, which Python clamps to the length: the
   * slice reaches the end exactly when the final-chunk test holds, and from an offset inside
   * the data it is non-empty and no longer than a chunk.
   */
  function SliceEnd(n: nat, i: nat): (e: nat)
    ensures e == n <==> i + ChunkSize >= n
    ensures i < n ==> i < e <= n && e - i <= ChunkSize
  {
    if i + ChunkSize <= n then i + ChunkSize else n
  }

  /** The frame that carries the slice starting at offset `i`. */
  function ChunkFrame(taskId: string, fileId: string, data: Bytes, i: nat): Envelope
    requires i < |data|
  {
    var status := if i + ChunkSize >= |data| then FinalChunk else SendingChunk;
    StatusFrame(status, Object(Some(taskId), Chunk(fileId, B64Encode(data[i..SliceEnd(|data|, i)]))))
  }

  /** The frames for the slices starting at `i`, `i + CHUNK_SIZE`, ... below the length. */
  function ChunkFramesFrom(taskId: string, fileId: string, data: Bytes, i: nat): seq<Envelope>
    decreases |data| - i
  {
    if i >= |data| then []
    else [ChunkFrame(taskId, fileId, data, i)] + ChunkFramesFrom(taskId, fileId, data, i + ChunkSize)
  }

  /** Every frame `send_bytes_in_chunks(ws, taskId, data, fileId)` writes, in order. */
  function ChunkFrames(taskId: string, fileId: string, data: Bytes): seq<Envelope>
  {
    ChunkFramesFrom(taskId, fileId, data, 0)
  }

  /** The bytes a chunk frame carries, once decoded. */
  function ChunkPayload(e: Envelope): Bytes
  {
    if e.data.Object? && e.data.body.Chunk? then B64Decode(e.data.body.chunk) else []
  }

  /** The decoded chunks of `frames`, concatenated in order. */
  function Joined(frames: seq<Envelope>): Bytes
  {
    if frames == [] then [] else ChunkPayload(frames[0]) + Joined(frames[1..])
  }

  /** Number of frames: ceil((len - i) / CHUNK_SIZE). */
  lemma {:induction false} ChunkFramesFromCount(taskId: string, fileId: string, data: Bytes, i: nat)
    ensures |ChunkFramesFrom(taskId, fileId, data, i)|
         == if i >= |data| then 0 else (|data| - i + ChunkSize - 1) / ChunkSize
    decreases |data| - i
  {
    if i < |data| {
      ChunkFramesFromCount(taskId, fileId, data, i + ChunkSize);
    }
  }

  /** Frame `k` carries the slice starting at `i + k * CHUNK_SIZE`. */
  lemma {:induction false} ChunkFramesFromAt(taskId: string, fileId: string, data: Bytes, i: nat, k: nat)
    requires k < |ChunkFramesFrom(taskId, fileId, data, i)|
    ensures i + k * ChunkSize < |data|
    ensures ChunkFramesFrom(taskId, fileId, data, i)[k] == ChunkFrame(taskId, fileId, data, i + k * ChunkSize)
    decreases |data| - i
  {
    if k > 0 {
      ChunkFramesFromAt(taskId, fileId, data, i + ChunkSize, k - 1);
    }
  }

  /** The chunks starting at `i` concatenate to the rest of the payload. */
  lemma {:induction false} JoinedFrom(taskId: string, fileId: string, data: Bytes, i: nat)
    ensures Joined(ChunkFramesFrom(taskId, fileId, data, i)) == if i >= |data| then [] else data[i..]
    decreases |data| - i
  {
    if i < |data| {
      var frames := ChunkFramesFrom(taskId, fileId, data, i);
      var e := SliceEnd(|data|, i);
      assert e == if i + ChunkSize <= |data| then i + ChunkSize else |data|;
      JoinedFrom(taskId, fileId, data, i + ChunkSize);
      assert frames[1..] == ChunkFramesFrom(taskId, fileId, data, i + ChunkSize);
      assert ChunkPayload(frames[0]) == data[i..e];
      assert Joined(frames) == data[i..e] + Joined(frames[1..]);
      if e < |data| {
        assert e == i + ChunkSize;
        assert data[i..] == data[i..e] + data[e..];
      } else {
        assert data[i..] == data[i..e];
      }
    }
  }

  /**
   * For a non-empty payload: ceil(len / CHUNK_SIZE) frames, the k-th carrying
   * `data[k * CHUNK_SIZE : (k + 1) * CHUNK_SIZE]` for this task and file; only the last is
   * FINAL_CHUNK; and their chunks concatenate to the payload.
   */
  lemma SendsEveryChunk(taskId: string, fileId: string, data: Bytes)
    requires |data| > 0
    ensures var frames := ChunkFrames(taskId, fileId, data);
      && |frames| == (|data| + ChunkSize - 1) / ChunkSize
      && (forall k :: 0 <= k < |frames| ==> FrameIsSlice(taskId, fileId, data, frames, k))
      && Joined(frames) == data
  {
    var frames := ChunkFrames(taskId, fileId, data);
    ChunkFramesFromCount(taskId, fileId, data, 0);
    JoinedFrom(taskId, fileId, data, 0);
    assert data[0..] == data;
    forall k | 0 <= k < |frames|
      ensures FrameIsSlice(taskId, fileId, data, frames, k)
    {
      FrameAt(taskId, fileId, data, k);
    }
  }

  /**
   * Frame `k` of `frames` carries `data[k * CHUNK_SIZE : (k + 1) * CHUNK_SIZE]` for this task
   * and file, and is FINAL_CHUNK exactly when it is the last one, SENDING_CHUNK otherwise.
   */
  ghost predicate FrameIsSlice(taskId: string, fileId: string, data: Bytes, frames: seq<Envelope>, k: nat)
    requires k < |frames|
  {
    && k * ChunkSize < |data|
    && frames[k].StatusFrame?
    && frames[k].data == Object(Some(taskId), Chunk(fileId, B64Encode(data[k * ChunkSize..SliceEnd(|data|, k * ChunkSize)])))
    && (frames[k].status == FinalChunk <==> k == |frames| - 1)
    && (frames[k].status == FinalChunk || frames[k].status == SendingChunk)
  }

  lemma FrameAt(taskId: string, fileId: string, data: Bytes, k: nat)
    requires |data| > 0
    requires k < |ChunkFrames(taskId, fileId, data)|
    ensures FrameIsSlice(taskId, fileId, data, ChunkFrames(taskId, fileId, data), k)
  {
    var frames := ChunkFrames(taskId, fileId, data);
    ChunkFramesFromCount(taskId, fileId, data, 0);
    ChunkFramesFromAt(taskId, fileId, data, 0, k);
    LastStart(|data|, k);
  }

  /** Start `k * CHUNK_SIZE` (below n) is the final one iff k is the last frame index. */
  lemma LastStart(n: nat, k: nat)
    requires k * ChunkSize < n
    ensures k * ChunkSize + ChunkSize >= n <==> k == (n + ChunkSize - 1) / ChunkSize - 1
  {
  }

  /** An empty payload sends nothing, not even a final chunk. */
  lemma EmptyPayloadSendsNothing(taskId: string, fileId: string)
    ensures ChunkFrames(taskId, fileId, []) == []
  {
  }
}
