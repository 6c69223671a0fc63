/**
 * A job on the worker, `handle_job_received` (main_processing_computer.py:63-119): it waits
 * for one FILE_RECEIVED notice per file id it names, runs its handler, and on success or
 * failure frees its files, their buffers and its task queue. Also the order in which
 * `handle_find_circles` visits the boxes of a job (main_processing_computer.py:212-221).
 */
module WorkerJobs {
  import opened Common
  import opened Protocol
  import opened Worker

  /** `list.remove(x)`: drops the first occurrence of `x`. */
  function RemoveFirst(s: seq<string>, x: string): seq<string>
  {
    if s == [] then [] else if s[0] == x then s[1..] else [s[0]] + RemoveFirst(s[1..], x)
  }

  lemma {:induction false} RemoveFirstMultiset(s: seq<string>, x: string)
    requires x in s
    ensures multiset(RemoveFirst(s, x)) == multiset(s) - multiset{x}
  {
    MultisetOfCons(s);
    if s[0] != x {
      RemoveFirstMultiset(s[1..], x);
      MultisetOfCons(RemoveFirst(s, x));
      assert RemoveFirst(s, x)[1..] == RemoveFirst(s[1..], x);
    }
  }

  /**
   * The file ids still awaited once the notices `notices` have been taken from the task
   * queue in order, or None as soon as one names a file that is not awaited (where
   * `files_to_wait_for.remove` raises).
   */
  function Awaited(waiting: seq<string>, notices: seq<string>): Option<seq<string>>
    decreases |notices|
  {
    if notices == [] then Some(waiting)
    else if notices[0] !in waiting then None
    else Awaited(RemoveFirst(waiting, notices[0]), notices[1..])
  }

  /**
   * The notices are all accepted exactly when each file id is announced at most as often as
   * the job names it, and each accepted notice removes one occurrence of its id.
   */
  lemma {:induction false} AwaitedCounts(waiting: seq<string>, notices: seq<string>)
    ensures Awaited(waiting, notices).Some? <==> multiset(notices) <= multiset(waiting)
    ensures Awaited(waiting, notices).Some? ==>
              multiset(Awaited(waiting, notices).value) == multiset(waiting) - multiset(notices)
    decreases |notices|
  {
    if notices != [] {
      var n := notices[0];
      MultisetOfCons(notices);
      if n in waiting {
        RemoveFirstMultiset(waiting, n);
        AwaitedCounts(RemoveFirst(waiting, n), notices[1..]);
      } else {
        assert multiset(waiting)[n] == 0;
      }
    }
  }

  /**
   * Whatever order the files arrive in, nothing is left to wait for exactly when the notices
   * announce each of the job's files once.
   */
  lemma AllArrived(fileIds: seq<string>, notices: seq<string>)
    ensures Awaited(fileIds, notices) == Some([]) <==> multiset(notices) == multiset(fileIds)
  {
    AwaitedCounts(fileIds, notices);
    var r := Awaited(fileIds, notices);
    if r.Some? && multiset(r.value) == multiset{} {
      assert |r.value| == |multiset(r.value)|;
    }
  }

  /** What a job handler did: the frames it wrote and the text of the exception it raised, if any. */
  datatype HandlerOutcome = HandlerOutcome(frames: seq<Envelope>, raised: Option<string>)

  /** The worker's dicts and outbox, with a job's ids still awaited and whether it has returned. */
  datatype RunView = RunView(store: Store, sent: seq<Envelope>, waiting: seq<string>, finished: bool)

  /** The distinct elements of `s`. */
  function Elements(s: seq<string>): (r: set<string>)
    ensures forall i :: 0 <= i < |s| ==> s[i] in r
    ensures forall x :: x in r ==> exists i :: 0 <= i < |s| && s[i] == x
  {
    set i | 0 <= i < |s| :: s[i]
  }

  /** `job.get("file_ids", [])`. */
  function FileIdsOrEmpty(job: Job): seq<string>
  {
    if job.fileIds.Some? then job.fileIds.value else []
  }

  /** Both cleanup blocks (lines 92-98 and 113-119): the files, their buffers and the task queue go. */
  function Released(st: Store, fileIds: seq<string>, taskId: string): Store
  {
    Store(st.chunks - Elements(fileIds), st.files - Elements(fileIds), st.queues - {taskId})
  }

  /** The `except` branch (lines 100-119): one ERROR frame with the exception's text, then the cleanup. */
  function Failed(job: Job, v: RunView, text: string): RunView
  {
    RunView(Released(v.store, FileIdsOrEmpty(job), job.taskId), v.sent + [ErrorFrame(job.taskId, text)], v.waiting, true)
  }

  /**
   * Lines 64-69: the ids to wait for are copied from `file_ids` (a KeyError if it is
   * missing) and the task's queue is created if there is none.
   */
  function Started(job: Job, st: Store, sent: seq<Envelope>): RunView
  {
    if job.fileIds.None? then Failed(job, RunView(st, sent, [], false), KeyErrorText("file_ids"))
    else RunView(st.(queues := st.queues[job.taskId := QueueOf(st.queues, job.taskId)]), sent, job.fileIds.value, false)
  }

  /**
   * One pass of the polling loop (lines 71-99). A missing task queue raises KeyError; an
   * empty one means waiting. Otherwise the first notice is taken and its file id removed from
   * the ids awaited (ValueError if absent). Once none is left, the job reports that it
   * starts, its handler runs (only for READ_TO_IMAGES and FIND_CIRCLES), the `finally`
   * cleanup runs, and a handler exception then goes to the `except` branch.
   */
  function Stepped(job: Job, v: RunView, outcome: HandlerOutcome): RunView
  {
    if job.taskId !in v.store.queues then Failed(job, v, KeyErrorText(job.taskId))
    else if v.store.queues[job.taskId] == [] then v
    else
      var queue := v.store.queues[job.taskId];
      var v1 := v.(store := v.store.(queues := v.store.queues[job.taskId := queue[1..]]));
      if queue[0] !in v.waiting then Failed(job, v1, RemoveErrorText)
      else
        var waiting := RemoveFirst(v.waiting, queue[0]);
        if waiting != [] then v1.(waiting := waiting)
        else
          var runs := job.command == ReadToImages || job.command == FindCircles;
          var sent := v1.sent + [ProgressFrame(job.taskId, AllFilesReceivedText)] + (if runs then outcome.frames else []);
          var v2 := RunView(Released(v1.store, FileIdsOrEmpty(job), job.taskId), sent, [], true);
          if runs && outcome.raised.Some? then Failed(job, v2, outcome.raised.value) else v2
  }

  /**
   * A pass that takes a notice either rejects it with one ERROR frame, or removes one
   * occurrence of its file id from the ids awaited, writing nothing while some remain and
   * announcing the start of the job once none does.
   */
  lemma StepTakesNotice(job: Job, v: RunView, outcome: HandlerOutcome)
    requires !v.finished && job.taskId in v.store.queues && v.store.queues[job.taskId] != []
    ensures var n := v.store.queues[job.taskId][0];
      var r := Stepped(job, v, outcome);
      && (n !in v.waiting ==> r.finished && r.sent == v.sent + [ErrorFrame(job.taskId, RemoveErrorText)])
      && (n in v.waiting && RemoveFirst(v.waiting, n) != [] ==>
            !r.finished && r.sent == v.sent && r.waiting == RemoveFirst(v.waiting, n)
            && r.store.queues[job.taskId] == v.store.queues[job.taskId][1..])
      && (n in v.waiting && RemoveFirst(v.waiting, n) == [] ==>
            r.finished && |r.sent| > |v.sent| && r.sent[..|v.sent| + 1] == v.sent + [ProgressFrame(job.taskId, AllFilesReceivedText)])
  {
    var n := v.store.queues[job.taskId][0];
    var r := Stepped(job, v, outcome);
    if n in v.waiting && RemoveFirst(v.waiting, n) == [] {
      var runs := job.command == ReadToImages || job.command == FindCircles;
      var head := v.sent + [ProgressFrame(job.taskId, AllFilesReceivedText)];
      var sent := head + (if runs then outcome.frames else []);
      assert sent[..|head|] == head;
      if runs && outcome.raised.Some? {
        assert r.sent == sent + [ErrorFrame(job.taskId, outcome.raised.value)];
        assert r.sent[..|head|] == head;
      }
    }
  }

  /**
   * A pass that ends the job, whichever way, leaves none of its files, none of their buffers
   * and no queue for its task.
   */
  lemma FinishedFreesJob(job: Job, v: RunView, outcome: HandlerOutcome)
    requires !v.finished
    ensures var r := Stepped(job, v, outcome);
      r.finished ==>
        && job.taskId !in r.store.queues
        && forall k :: 0 <= k < |FileIdsOrEmpty(job)| ==>
             FileIdsOrEmpty(job)[k] !in r.store.files && FileIdsOrEmpty(job)[k] !in r.store.chunks
  {
  }

  /** `n` passes of the polling loop, stopping once the job has returned. */
  function Polled(job: Job, v: RunView, n: nat, outcome: HandlerOutcome): RunView
    decreases n
  {
    if n == 0 || v.finished then v else Polled(job, Stepped(job, v, outcome), n - 1, outcome)
  }

  /**
   * Polling a task queue that holds the notices `notices`, one pass per notice: while the
   * notices leave some file awaited the job writes nothing and waits with the queue empty;
   * once a non-empty run of notices has announced every awaited file, the job has reported
   * its start (and so run its handler); and if no run of notices ever does, the job has
   * failed with the one ERROR frame of `list.remove`.
   */
  lemma {:induction false} DrainNotices(job: Job, v: RunView, outcome: HandlerOutcome)
    requires !v.finished && job.taskId in v.store.queues
    ensures var notices := v.store.queues[job.taskId];
      var r := Polled(job, v, |notices|, outcome);
      && (Awaited(v.waiting, notices).Some? && Awaited(v.waiting, notices).value != [] ==>
            r == v.(store := v.store.(queues := v.store.queues[job.taskId := []]),
                    waiting := Awaited(v.waiting, notices).value))
      && (forall k :: 0 < k <= |notices| && Awaited(v.waiting, notices[..k]) == Some([]) ==>
            r.finished && |r.sent| > |v.sent|
            && r.sent[..|v.sent| + 1] == v.sent + [ProgressFrame(job.taskId, AllFilesReceivedText)])
      && (Awaited(v.waiting, notices).None?
          && (forall k :: 0 < k <= |notices| ==> Awaited(v.waiting, notices[..k]) != Some([])) ==>
            r.finished && r.sent == v.sent + [ErrorFrame(job.taskId, RemoveErrorText)])
    decreases |v.store.queues[job.taskId]|
  {
    var t := job.taskId;
    var notices := v.store.queues[t];
    var w := v.waiting;
    if notices == [] {
      assert v.store.queues[t := []] == v.store.queues;
      return;
    }
    var n0 := notices[0];
    var v' := Stepped(job, v, outcome);
    assert Polled(job, v, |notices|, outcome) == Polled(job, v', |notices| - 1, outcome);
    forall k | 0 < k <= |notices|
      ensures notices[..k][0] == n0 && notices[..k][1..] == notices[1..][..k - 1]
    {
    }
    StepTakesNotice(job, v, outcome);
    if n0 in w && RemoveFirst(w, n0) != [] {
      assert v'.store.queues[t] == notices[1..];
      assert v'.waiting == RemoveFirst(w, n0) && v'.sent == v.sent;
      DrainNotices(job, v', outcome);
      assert v'.store.queues[t := []] == v.store.queues[t := []];
      forall k | 1 <= k < |notices|
        ensures Awaited(w, notices[..k + 1]) == Awaited(v'.waiting, notices[1..][..k])
      {
        assert notices[..k + 1][1..] == notices[1..][..k];
      }
    }
    assert Awaited(w, notices[..1]) == if n0 in w then Some(RemoveFirst(w, n0)) else None by {
      assert notices[..1][1..] == [];
    }
  }

  /**
   * Whatever order they arrive in, once the task queue holds one notice for each file the
   * job names, polling it reports the start of the job, which runs its handler.
   */
  lemma RunsOnceAllArrive(job: Job, v: RunView, outcome: HandlerOutcome)
    requires !v.finished && job.taskId in v.store.queues
    requires v.store.queues[job.taskId] != []
    requires multiset(v.store.queues[job.taskId]) == multiset(v.waiting)
    ensures var r := Polled(job, v, |v.store.queues[job.taskId]|, outcome);
      r.finished && |r.sent| > |v.sent|
      && r.sent[..|v.sent| + 1] == v.sent + [ProgressFrame(job.taskId, AllFilesReceivedText)]
  {
    var notices := v.store.queues[job.taskId];
    AllArrived(v.waiting, notices);
    assert notices[..|notices|] == notices;
    DrainNotices(job, v, outcome);
  }

  /** A job whose data lacks `file_ids` fails at once with one ERROR frame and frees its task queue. */
  lemma MissingFileIdsFails(job: Job, st: Store, sent: seq<Envelope>)
    requires job.fileIds.None?
    ensures var r := Started(job, st, sent);
      && r.finished && r.sent == sent + [ErrorFrame(job.taskId, KeyErrorText("file_ids"))]
      && r.store == st.(queues := st.queues - {job.taskId})
  {
    assert Elements([]) == {};
    assert st.chunks - {} == st.chunks && st.files - {} == st.files;
  }

  /** One `handle_job_received` task: the worker whose dicts it uses, the job, and its loop variables. */
  class JobRun {
    const worker: ProcessingComputer
    const job: Job
    var waiting: seq<string>
    var finished: bool

    function View(): RunView
      reads this, worker
    {
      RunView(worker.State(), worker.sent, waiting, finished)
    }

    /** The task starts: lines 64-69, or the `except` branch if `file_ids` is missing. */
    constructor (worker: ProcessingComputer, job: Job)
      modifies worker
      ensures this.worker == worker && this.job == job
      ensures View() == Started(job, old(worker.State()), old(worker.sent))
    {
      this.worker := worker;
      this.job := job;
      waiting := [];
      finished := false;
      new;
      if job.fileIds.None? {
        Fail(KeyErrorText("file_ids"));
      } else {
        waiting := job.fileIds.value;
        if job.taskId !in worker.messagesPerTaskId {
          worker.messagesPerTaskId := worker.messagesPerTaskId[job.taskId := []];
        }
      }
    }

    /** One pass of the polling loop, with the handler's behaviour given as `outcome`. */
    method Step(outcome: HandlerOutcome)
      requires !finished
      modifies this`waiting, this`finished, worker
      ensures View() == Stepped(job, old(View()), outcome)
    {
      if job.taskId !in worker.messagesPerTaskId {
        Fail(KeyErrorText(job.taskId));
        return;
      }
      var queue := worker.messagesPerTaskId[job.taskId];
      if queue == [] {
        return;
      }
      worker.messagesPerTaskId := worker.messagesPerTaskId[job.taskId := queue[1..]];
      var fileId := queue[0];
      if fileId !in waiting {
        Fail(RemoveErrorText);
        return;
      }
      waiting := RemoveFirst(waiting, fileId);
      if waiting != [] {
        return;
      }
      worker.sent := worker.sent + [ProgressFrame(job.taskId, AllFilesReceivedText)];
      var runs := job.command == ReadToImages || job.command == FindCircles;
      if runs {
        worker.sent := worker.sent + outcome.frames;
      }
      Release(FileIdsOrEmpty(job));
      finished := true;
      if runs && outcome.raised.Some? {
        Fail(outcome.raised.value);
      }
    }

    /** The `except` branch: an ERROR frame for the task, then the cleanup. */
    method Fail(text: string)
      modifies this`finished, worker
      ensures View() == Failed(job, old(View()), text)
    {
      worker.sent := worker.sent + [ErrorFrame(job.taskId, text)];
      Release(FileIdsOrEmpty(job));
      finished := true;
    }

    /** A cleanup block: each file id's file and buffer are deleted if present, then the task queue. */
    method Release(fileIds: seq<string>)
      modifies worker`chunksPerFileId, worker`filesReceived, worker`messagesPerTaskId
      ensures worker.State() == Released(old(worker.State()), fileIds, job.taskId)
    {
      for i := 0 to |fileIds|
        invariant worker.filesReceived == old(worker.filesReceived) - Elements(fileIds[..i])
        invariant worker.chunksPerFileId == old(worker.chunksPerFileId) - Elements(fileIds[..i])
        invariant worker.messagesPerTaskId == old(worker.messagesPerTaskId)
      {
        ElementsSnoc(fileIds, i);
        if fileIds[i] in worker.filesReceived {
          worker.filesReceived := worker.filesReceived - {fileIds[i]};
        }
        if fileIds[i] in worker.chunksPerFileId {
          worker.chunksPerFileId := worker.chunksPerFileId - {fileIds[i]};
        }
      }
      assert fileIds[..|fileIds|] == fileIds;
      if job.taskId in worker.messagesPerTaskId {
        worker.messagesPerTaskId := worker.messagesPerTaskId - {job.taskId};
      }
    }
  }

  lemma ElementsSnoc(s: seq<string>, i: int)
    requires 0 <= i < |s|
    ensures Elements(s[..i + 1]) == Elements(s[..i]) + {s[i]}
  {
    var a := s[..i + 1];
    var b := s[..i];
    assert forall k :: 0 <= k < i ==> a[k] == b[k];
    assert a[i] == s[i];
  }

  // Box ordering in `handle_find_circles`.

  const ExemploCirculo := "Exemplo de Círculo"

  /**
   * A box of a FIND_CIRCLES job as `box.get(...)` sees it: its rectangle's values, its
   * `rect_type` and its `name`, each None when the key is missing.
   */
  datatype Box = Box(rect: Option<seq<real>>, rectType: Option<string>, name: Option<string>)

  predicate IsExemplo(b: Box)
  {
    b.rectType == Some(ExemploCirculo)
  }

  predicate NotExemplo(b: Box)
  {
    !IsExemplo(b)
  }

  /** `all([rect, rect_type, box_name])`: each is present and not empty. */
  predicate Usable(b: Box)
  {
    && b.rect.Some? && b.rect.value != []
    && b.rectType.Some? && b.rectType.value != ""
    && b.name.Some? && b.name.value != ""
  }

  /** `sorted(boxes, key=...)` with key 0 for example-circle boxes and 1 for the rest (line 212). */
  function ExemploFirst(boxes: seq<Box>): seq<Box>
  {
    Filter(IsExemplo, boxes) + Filter(NotExemplo, boxes)
  }

  /**
   * The order is a stable sort on that key: the same boxes, every example-circle box
   * before every other, and each group in its original order.
   */
  lemma ExemploFirstIsStableSort(boxes: seq<Box>)
    ensures var r := ExemploFirst(boxes);
      && multiset(r) == multiset(boxes)
      && (forall i, j :: 0 <= i < j < |r| && IsExemplo(r[j]) ==> IsExemplo(r[i]))
      && Filter(IsExemplo, r) == Filter(IsExemplo, boxes)
      && Filter(NotExemplo, r) == Filter(NotExemplo, boxes)
  {
    var e := Filter(IsExemplo, boxes);
    var o := Filter(NotExemplo, boxes);
    FilterSplitsMultiset(IsExemplo, NotExemplo, boxes);
    FilterAppend(IsExemplo, e, o);
    FilterAppend(NotExemplo, e, o);
    FilterIdempotent(IsExemplo, boxes);
    FilterIdempotent(NotExemplo, boxes);
    FilterNone(IsExemplo, o);
    FilterNone(NotExemplo, e);
  }

  /** The loop over the sorted boxes (lines 214-221): the boxes it goes on to search, in order. */
  method VisitBoxes(boxes: seq<Box>) returns (visited: seq<Box>)
    ensures visited == Filter(Usable, ExemploFirst(boxes))
  {
    var order := ExemploFirst(boxes);
    visited := [];
    for i := 0 to |order|
      invariant visited == Filter(Usable, order[..i])
    {
      assert order[..i + 1] == order[..i] + [order[i]];
      FilterAppend(Usable, order[..i], [order[i]]);
      if Usable(order[i]) {
        visited := visited + [order[i]];
      }
    }
    assert order[..|order|] == order;
  }

  /**
   * The boxes searched are exactly the usable ones, each once, example-circle boxes first;
   * a box lacking its rectangle, type or name is skipped.
   */
  lemma VisitedBoxes(boxes: seq<Box>)
    ensures var v := Filter(Usable, ExemploFirst(boxes));
      && multiset(v) == multiset(Filter(Usable, boxes))
      && (forall i, j :: 0 <= i < j < |v| && IsExemplo(v[j]) ==> IsExemplo(v[i]))
  {
    var e := Filter(IsExemplo, boxes);
    var o := Filter(NotExemplo, boxes);
    FilterAppend(Usable, e, o);
    FilterCommute(Usable, IsExemplo, boxes);
    FilterCommute(Usable, NotExemplo, boxes);
    FilterSplitsMultiset(IsExemplo, NotExemplo, Filter(Usable, boxes));
    FilterKeeps(Usable, IsExemplo, e);
    FilterKeeps(Usable, NotExemplo, o);
  }
}
