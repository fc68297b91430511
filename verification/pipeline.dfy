/** The background worker wired to the crew: `process_crew_task` kicks the
    crew off with the query and file path it was scheduled with, and records
    the crew's answer or exception. */
module Pipeline {

  import opened Results
  import opened Tasks
  import opened Crew
  import opened Jobs
  import opened PyStr

  /** `process_crew_task(task_id, query, file_path)` with the crew's agents. */
  function RunWorker(store: Store, work: WorkItem, agent: Agent): (r: WorkerRun)
    ensures work.taskId !in store ==> r.store == store && r.commits == []
    ensures work.taskId in store ==>
      && work.taskId in r.store
      && r.store[work.taskId].status == if Kickoff(work.query, work.filePath, agent).Success? then Completed else Failed
    ensures work.taskId in store && (forall s, d, c :: agent(s, d, c).Success?) ==>
      work.taskId in r.store && r.store[work.taskId].status == Completed
  {
    var outcome := Kickoff(work.query, work.filePath, agent);
    if work.taskId in store then
      WorkerOutcome(store, work, outcome);
      ProcessCrewTask(store, work, outcome)
    else
      ProcessCrewTask(store, work, outcome)
  }

  /** Upload, run, poll: the poll shows the investment analysis task's answer
      to the query exactly as it was sent (not the stripped copy in the row),
      or the prefixed message of the exception that stopped the crew. */
  lemma UploadRunPoll(store: Store, taskId: JobId, filename: string, query: string, agent: Agent)
    requires Submit(store, taskId, filename, query).Success?
    ensures var accepted := Submit(store, taskId, filename, query).value;
      var view := GetAnalysisStatus(RunWorker(accepted.store, accepted.work, agent).store, taskId);
      && view.Success?
      && view.value.filename == filename
      && view.value == match Kickoff(query, UploadPath(taskId), agent)
         case Success(text) => StatusView(taskId, filename, Completed, Some(text))
         case Failure(msg) => StatusView(taskId, filename, Failed, Some(ErrorPrefix + msg))
  {
    var accepted := Submit(store, taskId, filename, query).value;
    FinishedJobReadsOutcome(accepted.store, accepted.work, Kickoff(query, UploadPath(taskId), agent), taskId);
  }

  /** The end of the k-th run under way: the crew kicked off with the query
      and file path that run was scheduled with. Each run is taken as an
      isolated kickoff; that runs sharing the module-level tasks and agents
      leave nothing on them for one another is an assumption of the model. */
  function CrewFinish(svc: Service, k: nat, agent: Agent): (e: Event)
    requires k < |svc.running|
    ensures e.Finish? && e.index == k
  {
    Finish(k, Kickoff(svc.running[k].query, svc.running[k].filePath, agent))
  }

  /** Upload, worker start and worker end inside a service whose other jobs
      may be at any stage, with a poll after each: the new job reads QUEUED,
      then PROCESSING and in progress, and finally the investment analysis
      task's answer to the query as sent, or the prefixed message of the
      exception that stopped the crew. */
  lemma ServiceUploadRunPoll(svc: Service, taskId: JobId, filename: string, query: string, agent: Agent)
    requires Invariant(svc) && Submit(svc.store, taskId, filename, query).Success?
    ensures var queued := Apply(svc, Upload(taskId, filename, query));
      && |queued.pending| == |svc.pending| + 1
      && GetAnalysisStatus(queued.store, taskId) == Success(StatusView(taskId, filename, Queued, Some(InProgressMessage)))
      && var started := Apply(queued, Begin(|svc.pending|));
      && |started.running| == |svc.running| + 1
      && GetAnalysisStatus(started.store, taskId) == Success(StatusView(taskId, filename, Processing, Some(InProgressMessage)))
      && var done := Apply(started, CrewFinish(started, |svc.running|, agent));
      GetAnalysisStatus(done.store, taskId) == match Kickoff(query, UploadPath(taskId), agent)
        case Success(text) => Success(StatusView(taskId, filename, Completed, Some(text)))
        case Failure(msg) => Success(StatusView(taskId, filename, Failed, Some(ErrorPrefix + msg)))
  {
    UploadBeginFinishPoll(svc, taskId, filename, query, Kickoff(query, UploadPath(taskId), agent));
  }
}
