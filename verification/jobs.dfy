/** The job lifecycle behind the two endpoints and the background worker:
    an `analyses` table keyed by task id, the upload handler that guards on
    the file name and inserts a QUEUED row, the worker that moves the row
    to PROCESSING and then COMPLETED or FAILED, and the status read that
    hides the result until the job is finished. The database is a map, the
    uuid is a parameter, and the crew's run is its outcome. */
module Jobs {

  import opened Results
  import opened PyStr

  type JobId = string

  datatype Status = Queued | Processing | Completed | Failed

  predicate Terminal(s: Status) {
    s == Completed || s == Failed
  }

  /** A row of the `analyses` table. */
  datatype AnalysisRecord = AnalysisRecord(filename: string, query: string, status: Status, result: Option<string>)

  type Store = map<JobId, AnalysisRecord>

  /** The arguments the upload handler passes to the background worker. */
  datatype WorkItem = WorkItem(taskId: JobId, query: string, filePath: string)

  /** The upload's HTTP errors: 400 for a name without the `.pdf` suffix,
      500 when the row cannot be inserted. */
  datatype SubmitError = UnsupportedFileType | InitializationFailed

  /** An accepted upload: the table with the new row, and the scheduled work. */
  datatype Accepted = Accepted(store: Store, work: WorkItem)

  /** The form's default when no query is sent. */
  const DefaultQuery: string := "Analyze this financial document for investment insights"

  /** The `query` form field as the handler sees it: FastAPI gives a form
      field its default both when the field is absent and when it is sent
      empty, so the handler never sees an empty query. */
  function FormQuery(sent: Option<string>): (q: string)
    ensures q != []
    ensures q == DefaultQuery <==> sent.None? || sent == Some([]) || sent == Some(DefaultQuery)
    ensures sent.Some? && sent.value != [] ==> q == sent.value
  {
    match sent
    case Some(q) => if q == [] then DefaultQuery else q
    case None => DefaultQuery
  }

  const PdfSuffix: string := ".pdf"

  const UploadPrefix: string := "data/doc_"

  /** Where the upload is saved: `data/doc_<task id>.pdf`. The task id
      reads back out of the path, so distinct jobs never share a file. */
  function UploadPath(taskId: JobId): (path: string)
    ensures EndsWith(path, PdfSuffix)
    ensures |path| == |UploadPrefix| + |taskId| + |PdfSuffix|
    ensures path[..|UploadPrefix|] == UploadPrefix && path[|UploadPrefix|..|path| - |PdfSuffix|] == taskId
  {
    var path := UploadPrefix + taskId + PdfSuffix;
    assert path[|path| - |PdfSuffix|..] == PdfSuffix;
    assert path[..|UploadPrefix|] == UploadPrefix;
    assert path[|UploadPrefix|..|path| - |PdfSuffix|] == taskId;
    path
  }

  /** Two jobs get the same upload path only when they are the same job. */
  lemma UploadPathInjective(a: JobId, b: JobId)
    ensures UploadPath(a) == UploadPath(b) <==> a == b
  {
  }

  /** `analyze_financial_document_endpoint` with `taskId` the fresh uuid and
      `query` the form field (see `FormQuery`). A task id already in the
      table makes the insert fail, which the handler reports as a 500. */
  function Submit(store: Store, taskId: JobId, filename: string, query: string): (r: Result<Accepted, SubmitError>)
    ensures r == Failure(UnsupportedFileType) <==> !EndsWith(filename, PdfSuffix)
    ensures r.Success? <==> EndsWith(filename, PdfSuffix) && taskId !in store
    ensures r.Success? ==>
      && r.value.store.Keys == store.Keys + {taskId}
      && r.value.store[taskId] == AnalysisRecord(filename, Strip(query), Queued, None)
      && (forall id :: id in store ==> r.value.store[id] == store[id])
      && r.value.work == WorkItem(taskId, query, UploadPath(taskId))
  {
    if !EndsWith(filename, PdfSuffix) then Failure(UnsupportedFileType)
    else if taskId in store then Failure(InitializationFailed)
    else
      var row := AnalysisRecord(filename, Strip(query), Queued, None);
      Success(Accepted(store[taskId := row], WorkItem(taskId, query, UploadPath(taskId))))
  }

  /** The suffix test is exact and case-sensitive. */
  lemma PdfSuffixIsCaseSensitive(store: Store, taskId: JobId)
    requires taskId !in store
    ensures Submit(store, taskId, "q2_report.pdf", "").Success?
    ensures Submit(store, taskId, "Q2_REPORT.PDF", "") == Failure(UnsupportedFileType)
    ensures Submit(store, taskId, "report.pdf.txt", "") == Failure(UnsupportedFileType)
  {
    assert "q2_report.pdf"[9..] == PdfSuffix;
    assert "Q2_REPORT.PDF"[9..][1] != PdfSuffix[1];
    assert "report.pdf.txt"[10..][1] != PdfSuffix[1];
  }

  /** The prefix of the result stored when the crew raises. */
  const ErrorPrefix: string := "Error during CrewAI execution: "

  /** The row as the worker's first commit leaves it. */
  function Started(row: AnalysisRecord): AnalysisRecord
  {
    row.(status := Processing)
  }

  /** The row as the worker's last commit leaves it, given what the crew's
      kickoff returned (`Success(str(result))`) or raised (`Failure(str(e))`). */
  function Finished(row: AnalysisRecord, outcome: Result<string, string>): AnalysisRecord
  {
    match outcome
    case Success(text) => row.(status := Completed, result := Some(text))
    case Failure(msg) => row.(status := Failed, result := Some(ErrorPrefix + msg))
  }

  /** The worker's effect: the final table and the rows it committed, in order. */
  datatype WorkerRun = WorkerRun(store: Store, commits: seq<AnalysisRecord>)

  /** The status moves a committed write may make. */
  predicate Step(before: Status, after: Status) {
    || (before == Queued && after == Processing)
    || (before == Processing && Terminal(after))
  }

  /** `process_crew_task` from start to end, with nothing else happening in
      between. With no row for the task the crew still runs, but nothing is
      written. */
  function ProcessCrewTask(store: Store, work: WorkItem, outcome: Result<string, string>): (r: WorkerRun)
    ensures work.taskId !in store ==> r.store == store && r.commits == []
    ensures work.taskId in store ==>
      && |r.commits| == 2
      && r.commits[0] == store[work.taskId].(status := Processing)
      && r.store == store[work.taskId := r.commits[1]]
    ensures forall i :: 0 <= i < |r.commits| ==>
      && r.commits[i].status != Queued
      && r.commits[i].filename == store[work.taskId].filename
      && r.commits[i].query == store[work.taskId].query
    ensures |r.commits| == 2 ==> match outcome
      case Success(text) => r.commits[1].status == Completed && r.commits[1].result == Some(text)
      case Failure(msg) => r.commits[1].status == Failed && r.commits[1].result == Some(ErrorPrefix + msg)
  {
    if work.taskId !in store then WorkerRun(store, [])
    else
      var processing := Started(store[work.taskId]);
      var finished := Finished(processing, outcome);
      WorkerRun(store[work.taskId := finished], [processing, finished])
  }

  /** From a queued row, the worker's commits take the row through
      PROCESSING to a terminal status, one permitted step at a time. */
  lemma WorkerFollowsLifecycle(store: Store, work: WorkItem, outcome: Result<string, string>)
    requires work.taskId in store && store[work.taskId].status == Queued
    ensures var run := ProcessCrewTask(store, work, outcome);
      && Step(Queued, run.commits[0].status)
      && Step(run.commits[0].status, run.commits[1].status)
      && Terminal(run.store[work.taskId].status)
      && run.store[work.taskId].result.Some?
  {
  }

  /** The row ends COMPLETED exactly when the crew returned, FAILED when it raised. */
  lemma WorkerOutcome(store: Store, work: WorkItem, outcome: Result<string, string>)
    requires work.taskId in store
    ensures var r := ProcessCrewTask(store, work, outcome);
      && work.taskId in r.store
      && r.store[work.taskId].status == if outcome.Success? then Completed else Failed
  {
  }

  /** The body of `GET /status/{task_id}`. */
  datatype StatusView = StatusView(taskId: JobId, filename: string, status: Status, result: Option<string>)

  /** The 404 for an unknown task id. */
  datatype StatusError = NotFound

  const InProgressMessage: string := "Analysis in progress..."

  /** `get_analysis_status`: the row's status, with its result only once the
      job is COMPLETED or FAILED. */
  function GetAnalysisStatus(store: Store, taskId: JobId): (r: Result<StatusView, StatusError>)
    ensures r == Failure(NotFound) <==> taskId !in store
    ensures r.Success? ==>
      && r.value.taskId == taskId
      && r.value.filename == store[taskId].filename
      && r.value.status == store[taskId].status
    ensures r.Success? && Terminal(r.value.status) ==> r.value.result == store[taskId].result
    ensures r.Success? && !Terminal(r.value.status) ==> r.value.result == Some(InProgressMessage)
  {
    if taskId !in store then Failure(NotFound)
    else
      var row := store[taskId];
      var shown := if row.status in {Completed, Failed} then row.result else Some(InProgressMessage);
      Success(StatusView(taskId, row.filename, row.status, shown))
  }

  /** Right after an accepted upload, polling the new id reports it QUEUED
      and in progress, and every other id reads as before. */
  lemma SubmittedJobReadsQueued(store: Store, taskId: JobId, filename: string, query: string, other: JobId)
    requires Submit(store, taskId, filename, query).Success?
    ensures GetAnalysisStatus(Submit(store, taskId, filename, query).value.store, taskId)
      == Success(StatusView(taskId, filename, Queued, Some(InProgressMessage)))
    ensures other != taskId ==>
      GetAnalysisStatus(Submit(store, taskId, filename, query).value.store, other) == GetAnalysisStatus(store, other)
  {
  }

  /** After the worker has run on an existing row, polling shows the crew's
      text, or the prefixed error message, and no other id reads differently. */
  lemma FinishedJobReadsOutcome(store: Store, work: WorkItem, outcome: Result<string, string>, other: JobId)
    requires work.taskId in store
    ensures var view := GetAnalysisStatus(ProcessCrewTask(store, work, outcome).store, work.taskId);
      && view.Success?
      && view.value.filename == store[work.taskId].filename
      && view.value == match outcome
         case Success(text) => StatusView(work.taskId, store[work.taskId].filename, Completed, Some(text))
         case Failure(msg) => StatusView(work.taskId, store[work.taskId].filename, Failed, Some(ErrorPrefix + msg))
    ensures other != work.taskId ==>
      GetAnalysisStatus(ProcessCrewTask(store, work, outcome).store, other) == GetAnalysisStatus(store, other)
  {
  }

  // ---------------------------------------------------------------------
  // The service over time: uploads, worker commits and status reads
  // interleaved
  // ---------------------------------------------------------------------

  /** The table; the background tasks scheduled but not yet started; the
      worker runs under way (started, crew still running), possibly several
      at once; and for each job the statuses its row has been committed
      with, oldest first. */
  datatype Service = Service(store: Store, pending: seq<WorkItem>, running: seq<WorkItem>, history: map<JobId, seq<Status>>)

  /** An upload request (with its fresh uuid); a worker run starting on the
      k-th scheduled task (its first commit); or the k-th run under way
      ending with the crew's outcome (its last commit). A status read
      changes nothing, so it can be made between any two events. */
  datatype Event =
    | Upload(taskId: JobId, filename: string, query: string)
    | Begin(index: nat)
    | Finish(index: nat, outcome: Result<string, string>)

  const Initial: Service := Service(map[], [], [], map[])

  /** The list of work items with its k-th entry taken out. */
  function RemoveAt(s: seq<WorkItem>, k: nat): (r: seq<WorkItem>)
    requires k < |s|
    ensures |r| == |s| - 1
    ensures forall i :: 0 <= i < k ==> r[i] == s[i]
    ensures forall i :: k <= i < |r| ==> r[i] == s[i + 1]
  {
    s[..k] + s[k + 1..]
  }

  /** Writes `row` for `id` and records its status in the id's history. */
  function Commit(svc: Service, id: JobId, row: AnalysisRecord): Service
  {
    var past := if id in svc.history then svc.history[id] else [];
    svc.(store := svc.store[id := row], history := svc.history[id := past + [row.status]])
  }

  /** One event. No row is ever deleted, and only an upload adds one. */
  function Apply(svc: Service, e: Event): (next: Service)
    ensures svc.store.Keys <= next.store.Keys
    ensures !e.Upload? ==> next.store.Keys == svc.store.Keys
  {
    match e
    case Upload(taskId, filename, query) =>
      (match Submit(svc.store, taskId, filename, query)
       case Failure(_) => svc
       case Success(accepted) =>
         Service(accepted.store, svc.pending + [accepted.work], svc.running, svc.history[taskId := [Queued]]))
    case Begin(k) =>
      if k >= |svc.pending| then svc
      else
        var work := svc.pending[k];
        var next := svc.(pending := RemoveAt(svc.pending, k), running := svc.running + [work]);
        if work.taskId in svc.store then Commit(next, work.taskId, Started(svc.store[work.taskId])) else next
    case Finish(k, outcome) =>
      if k >= |svc.running| then svc
      else
        var work := svc.running[k];
        var next := svc.(running := RemoveAt(svc.running, k));
        if work.taskId in svc.store then Commit(next, work.taskId, Finished(svc.store[work.taskId], outcome)) else next
  }

  /** A row's file name and query never change after the upload inserts them. */
  lemma ApplyKeepsUploadFields(svc: Service, e: Event, id: JobId)
    requires id in svc.store
    ensures id in Apply(svc, e).store
    ensures Apply(svc, e).store[id].filename == svc.store[id].filename
    ensures Apply(svc, e).store[id].query == svc.store[id].query
  {
  }

  function Replay(events: seq<Event>): Service
  {
    if events == [] then Initial else Apply(Replay(events[..|events| - 1]), events[|events| - 1])
  }

  /** A status history the lifecycle allows: QUEUED first, then permitted steps. */
  predicate Lifecycle(h: seq<Status>) {
    && |h| >= 1 && h[0] == Queued
    && forall i :: 0 <= i < |h| - 1 ==> Step(h[i], h[i + 1])
  }

  /** Some entry of `q` is a run of task `id`. */
  predicate InQueue(q: seq<WorkItem>, id: JobId) {
    exists i :: 0 <= i < |q| && q[i].taskId == id
  }

  /** No task appears twice in `q`. */
  predicate Distinct(q: seq<WorkItem>) {
    forall i, j :: 0 <= i < j < |q| ==> q[i].taskId != q[j].taskId
  }

  /** Every scheduled or started run has a row, and no task is scheduled or
      started twice. */
  ghost predicate QueuesWellFormed(svc: Service) {
    && Distinct(svc.pending) && Distinct(svc.running)
    && (forall i :: 0 <= i < |svc.pending| ==> svc.pending[i].taskId in svc.store)
    && (forall i :: 0 <= i < |svc.running| ==> svc.running[i].taskId in svc.store)
  }

  /** A row is QUEUED exactly while its run waits to start, PROCESSING
      exactly while its run is under way, and carries a result exactly once
      it is COMPLETED or FAILED. */
  ghost predicate RowsMatchQueues(svc: Service) {
    forall id :: id in svc.store ==>
      && (svc.store[id].status == Queued <==> InQueue(svc.pending, id))
      && (svc.store[id].status == Processing <==> InQueue(svc.running, id))
      && (Terminal(svc.store[id].status) <==> svc.store[id].result.Some?)
  }

  /** Each row's committed statuses follow the lifecycle and end at its
      current status. */
  ghost predicate HistoriesFollowLifecycle(svc: Service) {
    && svc.history.Keys == svc.store.Keys
    && (forall id :: id in svc.history ==>
          Lifecycle(svc.history[id]) && svc.history[id][|svc.history[id]| - 1] == svc.store[id].status)
  }

  /** What holds between events. */
  ghost predicate Invariant(svc: Service) {
    QueuesWellFormed(svc) && RowsMatchQueues(svc) && HistoriesFollowLifecycle(svc)
  }

  /** Appending a run adds exactly its task to the queue. */
  lemma AppendQueue(q: seq<WorkItem>, w: WorkItem, id: JobId)
    ensures InQueue(q + [w], id) <==> InQueue(q, id) || id == w.taskId
  {
    var r := q + [w];
    assert r[|q|] == w;
    if InQueue(r, id) && id != w.taskId {
      var i :| 0 <= i < |r| && r[i].taskId == id;
      assert q[i].taskId == id;
    }
    if InQueue(q, id) {
      var i :| 0 <= i < |q| && q[i].taskId == id;
      assert r[i].taskId == id;
    }
  }

  /** Appending a run of a task not yet in the queue keeps it free of repeats. */
  lemma AppendDistinct(q: seq<WorkItem>, w: WorkItem)
    requires Distinct(q) && !InQueue(q, w.taskId)
    ensures Distinct(q + [w])
  {
    var r := q + [w];
    forall i, j | 0 <= i < j < |r| ensures r[i].taskId != r[j].taskId {
      if j == |q| {
        assert r[i] == q[i];
      } else {
        assert r[i] == q[i] && r[j] == q[j];
      }
    }
  }

  /** Taking the k-th run out of a queue without repeats removes exactly its
      task and keeps the queue free of repeats. */
  lemma RemoveAtQueue(q: seq<WorkItem>, k: nat, id: JobId)
    requires k < |q| && Distinct(q)
    ensures InQueue(RemoveAt(q, k), id) <==> InQueue(q, id) && id != q[k].taskId
    ensures Distinct(RemoveAt(q, k))
  {
    var r := RemoveAt(q, k);
    if InQueue(r, id) {
      var i :| 0 <= i < |r| && r[i].taskId == id;
      if i < k {
        assert q[i].taskId == id;
      } else {
        assert q[i + 1].taskId == id;
      }
    }
    if InQueue(q, id) && id != q[k].taskId {
      var i :| 0 <= i < |q| && q[i].taskId == id;
      if i < k {
        assert r[i].taskId == id;
      } else {
        assert r[i - 1].taskId == id;
      }
    }
    forall i, j | 0 <= i < j < |r| ensures r[i].taskId != r[j].taskId {
      var i' := if i < k then i else i + 1;
      var j' := if j < k then j else j + 1;
      assert r[i] == q[i'] && r[j] == q[j'];
    }
  }

  /** A lifecycle that ends at `h`'s last status extended by a permitted step
      is still a lifecycle. */
  lemma ExtendLifecycle(h: seq<Status>, next: Status)
    requires Lifecycle(h) && Step(h[|h| - 1], next)
    ensures Lifecycle(h + [next])
  {
    var g := h + [next];
    forall i | 0 <= i < |g| - 1 ensures Step(g[i], g[i + 1]) {
      if i < |h| - 1 {
        assert g[i] == h[i] && g[i + 1] == h[i + 1];
      }
    }
  }

  /** An upload adds a QUEUED row and schedules exactly its run. */
  lemma UploadKeepsInvariant(svc: Service, taskId: JobId, filename: string, query: string)
    requires Invariant(svc)
    ensures Invariant(Apply(svc, Upload(taskId, filename, query)))
  {
    if Submit(svc.store, taskId, filename, query).Success? {
      var next := Apply(svc, Upload(taskId, filename, query));
      var w := WorkItem(taskId, query, UploadPath(taskId));
      assert next.pending == svc.pending + [w];
      assert !InQueue(svc.pending, taskId);
      assert !InQueue(svc.running, taskId);
      AppendDistinct(svc.pending, w);
      forall id | id in next.store
        ensures InQueue(next.pending, id) <==> InQueue(svc.pending, id) || id == taskId
      {
        AppendQueue(svc.pending, w, id);
      }
    }
  }

  /** A scheduled run's task has a QUEUED row without a result and is not
      also under way. */
  lemma PendingRunIsQueued(svc: Service, k: nat)
    requires Invariant(svc) && k < |svc.pending|
    ensures var id := svc.pending[k].taskId;
      && id in svc.store && svc.store[id].status == Queued && svc.store[id].result.None?
      && !InQueue(svc.running, id)
  {
    assert InQueue(svc.pending, svc.pending[k].taskId);
  }

  /** A run under way has a PROCESSING row and is not also scheduled. */
  lemma RunningRunIsProcessing(svc: Service, k: nat)
    requires Invariant(svc) && k < |svc.running|
    ensures var id := svc.running[k].taskId;
      && id in svc.store && svc.store[id].status == Processing
      && !InQueue(svc.pending, id)
  {
    assert InQueue(svc.running, svc.running[k].taskId);
  }

  lemma BeginKeepsQueues(svc: Service, k: nat)
    requires Invariant(svc) && k < |svc.pending|
    ensures QueuesWellFormed(Apply(svc, Begin(k)))
  {
    var work := svc.pending[k];
    var next := Apply(svc, Begin(k));
    PendingRunIsQueued(svc, k);
    assert next.store.Keys == svc.store.Keys;
    assert next.pending == RemoveAt(svc.pending, k);
    assert next.running == svc.running + [work];
    RemoveAtQueue(svc.pending, k, work.taskId);
    AppendDistinct(svc.running, work);
    forall i | 0 <= i < |next.pending| ensures next.pending[i].taskId in next.store {
      assert next.pending[i] == svc.pending[if i < k then i else i + 1];
    }
  }

  lemma BeginKeepsRows(svc: Service, k: nat)
    requires Invariant(svc) && k < |svc.pending|
    ensures RowsMatchQueues(Apply(svc, Begin(k)))
  {
    var work := svc.pending[k];
    var id := work.taskId;
    var next := Apply(svc, Begin(k));
    PendingRunIsQueued(svc, k);
    assert next.store == svc.store[id := Started(svc.store[id])];
    assert next.pending == RemoveAt(svc.pending, k);
    assert next.running == svc.running + [work];
    forall other | other in next.store
      ensures InQueue(next.pending, other) <==> InQueue(svc.pending, other) && other != id
      ensures InQueue(next.running, other) <==> InQueue(svc.running, other) || other == id
    {
      RemoveAtQueue(svc.pending, k, other);
      AppendQueue(svc.running, work, other);
    }
  }

  /** A commit that takes an existing row one permitted step keeps every
      history a lifecycle ending in its row's status. */
  lemma CommitKeepsHistories(svc: Service, id: JobId, row: AnalysisRecord)
    requires HistoriesFollowLifecycle(svc) && id in svc.store
    requires Step(svc.store[id].status, row.status)
    ensures HistoriesFollowLifecycle(Commit(svc, id, row))
  {
    ExtendLifecycle(svc.history[id], row.status);
  }

  /** A worker run starting moves its task from the scheduled runs to the
      runs under way, and its row from QUEUED to PROCESSING. */
  lemma BeginKeepsInvariant(svc: Service, k: nat)
    requires Invariant(svc)
    ensures Invariant(Apply(svc, Begin(k)))
  {
    if k < |svc.pending| {
      var id := svc.pending[k].taskId;
      PendingRunIsQueued(svc, k);
      BeginKeepsQueues(svc, k);
      BeginKeepsRows(svc, k);
      var next := svc.(pending := RemoveAt(svc.pending, k), running := svc.running + [svc.pending[k]]);
      CommitKeepsHistories(next, id, Started(svc.store[id]));
    }
  }

  lemma FinishKeepsQueues(svc: Service, k: nat, outcome: Result<string, string>)
    requires Invariant(svc) && k < |svc.running|
    ensures QueuesWellFormed(Apply(svc, Finish(k, outcome)))
  {
    var work := svc.running[k];
    var next := Apply(svc, Finish(k, outcome));
    RunningRunIsProcessing(svc, k);
    assert next.store.Keys == svc.store.Keys;
    assert next.running == RemoveAt(svc.running, k);
    RemoveAtQueue(svc.running, k, work.taskId);
    forall i | 0 <= i < |next.running| ensures next.running[i].taskId in next.store {
      assert next.running[i] == svc.running[if i < k then i else i + 1];
    }
  }

  lemma FinishKeepsRows(svc: Service, k: nat, outcome: Result<string, string>)
    requires Invariant(svc) && k < |svc.running|
    ensures RowsMatchQueues(Apply(svc, Finish(k, outcome)))
  {
    var id := svc.running[k].taskId;
    var next := Apply(svc, Finish(k, outcome));
    RunningRunIsProcessing(svc, k);
    assert next.store == svc.store[id := Finished(svc.store[id], outcome)];
    assert next.running == RemoveAt(svc.running, k);
    forall other | other in next.store
      ensures InQueue(next.running, other) <==> InQueue(svc.running, other) && other != id
    {
      RemoveAtQueue(svc.running, k, other);
    }
  }

  /** A worker run ending takes its task off the runs under way and leaves
      its row COMPLETED or FAILED with a result. */
  lemma FinishKeepsInvariant(svc: Service, k: nat, outcome: Result<string, string>)
    requires Invariant(svc)
    ensures Invariant(Apply(svc, Finish(k, outcome)))
  {
    if k < |svc.running| {
      var id := svc.running[k].taskId;
      RunningRunIsProcessing(svc, k);
      FinishKeepsQueues(svc, k, outcome);
      FinishKeepsRows(svc, k, outcome);
      CommitKeepsHistories(svc.(running := RemoveAt(svc.running, k)), id, Finished(svc.store[id], outcome));
    }
  }

  /** Every event keeps the invariant. */
  lemma ApplyKeepsInvariant(svc: Service, e: Event)
    requires Invariant(svc)
    ensures Invariant(Apply(svc, e))
  {
    match e
    case Upload(taskId, filename, query) => UploadKeepsInvariant(svc, taskId, filename, query);
    case Begin(k) => BeginKeepsInvariant(svc, k);
    case Finish(k, outcome) => FinishKeepsInvariant(svc, k, outcome);
  }

  /** Every state the service can reach satisfies the invariant: in
      particular every committed status history is QUEUED, PROCESSING, then
      COMPLETED or FAILED, or a prefix of that. */
  lemma {:induction false} ReachableInvariant(events: seq<Event>)
    ensures Invariant(Replay(events))
  {
    if events != [] {
      ReachableInvariant(events[..|events| - 1]);
      ApplyKeepsInvariant(Replay(events[..|events| - 1]), events[|events| - 1]);
    }
  }

  /** Once its run has started, and until it ends, a job reads PROCESSING and
      in progress; the start changes how no other job reads. */
  lemma BegunJobReadsProcessing(svc: Service, k: nat, other: JobId)
    requires Invariant(svc) && k < |svc.pending|
    ensures var id := svc.pending[k].taskId;
      GetAnalysisStatus(Apply(svc, Begin(k)).store, id)
        == Success(StatusView(id, svc.store[id].filename, Processing, Some(InProgressMessage)))
    ensures other != svc.pending[k].taskId ==>
      GetAnalysisStatus(Apply(svc, Begin(k)).store, other) == GetAnalysisStatus(svc.store, other)
  {
  }

  /** Once its run has ended, a job reads COMPLETED with the crew's text or
      FAILED with the prefixed message; the end changes how no other job
      reads. */
  lemma EndedJobReadsOutcome(svc: Service, k: nat, outcome: Result<string, string>, other: JobId)
    requires Invariant(svc) && k < |svc.running|
    ensures var id := svc.running[k].taskId;
      && id in svc.store
      && GetAnalysisStatus(Apply(svc, Finish(k, outcome)).store, id) == match outcome
         case Success(text) => Success(StatusView(id, svc.store[id].filename, Completed, Some(text)))
         case Failure(msg) => Success(StatusView(id, svc.store[id].filename, Failed, Some(ErrorPrefix + msg)))
    ensures other != svc.running[k].taskId ==>
      GetAnalysisStatus(Apply(svc, Finish(k, outcome)).store, other) == GetAnalysisStatus(svc.store, other)
  {
    RunningRunIsProcessing(svc, k);
  }

  /** A run's two commits, made one right after the other, are
      `process_crew_task` without interruption. */
  lemma BeginThenFinishIsWorkerRun(svc: Service, k: nat, outcome: Result<string, string>)
    requires Invariant(svc) && k < |svc.pending|
    ensures Apply(Apply(svc, Begin(k)), Finish(|svc.running|, outcome)).store
      == ProcessCrewTask(svc.store, svc.pending[k], outcome).store
  {
    var mid := Apply(svc, Begin(k));
    assert mid.running[|svc.running|] == svc.pending[k];
  }

  /** A finished job is never touched again: later events leave its row
      as it is, so later status reads return the same response. */
  lemma FinishedJobIsFinal(svc: Service, e: Event, taskId: JobId)
    requires Invariant(svc)
    requires taskId in svc.store && Terminal(svc.store[taskId].status)
    ensures taskId in Apply(svc, e).store && Apply(svc, e).store[taskId] == svc.store[taskId]
    ensures GetAnalysisStatus(Apply(svc, e).store, taskId) == GetAnalysisStatus(svc.store, taskId)
  {
    assert !InQueue(svc.pending, taskId) && !InQueue(svc.running, taskId);
    match e
    case Upload(_, _, _) =>
    case Begin(k) =>
      if k < |svc.pending| {
        assert svc.pending[k].taskId != taskId;
      }
    case Finish(k, _) =>
      if k < |svc.running| {
        assert svc.running[k].taskId != taskId;
      }
  }

  /** An upload followed by the start of its run: the run is the last one
      scheduled, then the last one under way, and the invariant holds at
      each step. */
  lemma UploadThenBegin(svc: Service, taskId: JobId, filename: string, query: string)
    requires Invariant(svc) && Submit(svc.store, taskId, filename, query).Success?
    ensures var queued := Apply(svc, Upload(taskId, filename, query));
      && Invariant(queued)
      && |queued.pending| == |svc.pending| + 1
      && queued.pending[|svc.pending|] == WorkItem(taskId, query, UploadPath(taskId))
      && var started := Apply(queued, Begin(|svc.pending|));
      && Invariant(started)
      && |started.running| == |svc.running| + 1
      && started.running[|svc.running|] == WorkItem(taskId, query, UploadPath(taskId))
  {
    var queued := Apply(svc, Upload(taskId, filename, query));
    assert queued.pending == svc.pending + [WorkItem(taskId, query, UploadPath(taskId))];
    UploadKeepsInvariant(svc, taskId, filename, query);
    BeginKeepsInvariant(queued, |svc.pending|);
  }

  /** Upload, worker start and worker end inside a service whose other jobs
      may be at any stage, with a poll after each: QUEUED, then PROCESSING
      and in progress, then the run's outcome. The run that ends was
      scheduled with the query as sent and `data/doc_<id>.pdf`. */
  lemma UploadBeginFinishPoll(svc: Service, taskId: JobId, filename: string, query: string, outcome: Result<string, string>)
    requires Invariant(svc) && Submit(svc.store, taskId, filename, query).Success?
    ensures var queued := Apply(svc, Upload(taskId, filename, query));
      && |queued.pending| == |svc.pending| + 1
      && GetAnalysisStatus(queued.store, taskId) == Success(StatusView(taskId, filename, Queued, Some(InProgressMessage)))
      && var started := Apply(queued, Begin(|svc.pending|));
      && |started.running| == |svc.running| + 1
      && started.running[|svc.running|] == WorkItem(taskId, query, UploadPath(taskId))
      && GetAnalysisStatus(started.store, taskId) == Success(StatusView(taskId, filename, Processing, Some(InProgressMessage)))
      && var done := Apply(started, Finish(|svc.running|, outcome));
      GetAnalysisStatus(done.store, taskId) == match outcome
        case Success(text) => Success(StatusView(taskId, filename, Completed, Some(text)))
        case Failure(msg) => Success(StatusView(taskId, filename, Failed, Some(ErrorPrefix + msg)))
  {
    UploadThenBegin(svc, taskId, filename, query);
    SubmittedJobReadsQueued(svc.store, taskId, filename, query, taskId);
    var queued := Apply(svc, Upload(taskId, filename, query));
    BegunJobReadsProcessing(queued, |svc.pending|, taskId);
    var started := Apply(queued, Begin(|svc.pending|));
    EndedJobReadsOutcome(started, |svc.running|, outcome, taskId);
  }
}
