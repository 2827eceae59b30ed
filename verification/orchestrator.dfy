/**
 * internal/pipeline/job_pipeline.go: ProcessJobsStreaming, which collects
 * every job with its description and then saves the jobs and the
 * descriptions, and the (unused) jobDescriptionWorker.
 *
 * Channels are sequences and goroutines are projected onto their
 * sequential order. Cancellation is given as where each stage first sees
 * the context done.
 */
module PipelineOrchestrator {
  import opened Models
  import opened PipelineScraper
  import opened PipelineDescription
  import opened PipelineStages
  import RepoJob
  import RepoJobDescription

  // ----- ProcessJobsStreaming ---------------------------------------------------------

  /**
   * The receive loop: each item appends its job to allJobs and its
   * description to allJobDescriptions.
   */
  method CollectResults(items: seq<JobWithDescription>)
    returns (allJobs: seq<Job>, allJobDescriptions: seq<JobDescription>)
    ensures |allJobs| == |items| && |allJobDescriptions| == |items|
    ensures forall i :: 0 <= i < |items| ==> allJobs[i] == items[i].job && allJobDescriptions[i] == items[i].jobDescription
  {
    allJobs := [];
    allJobDescriptions := [];
    for i := 0 to |items|
      invariant |allJobs| == i && |allJobDescriptions| == i
      invariant forall k :: 0 <= k < i ==> allJobs[k] == items[k].job && allJobDescriptions[k] == items[k].jobDescription
    {
      allJobs := allJobs + [items[i].job];
      allJobDescriptions := allJobDescriptions + [items[i].jobDescription];
    }
  }

  /** The jobs and the descriptions of the received items, index by index. */
  function ItemJobs(items: seq<JobWithDescription>): seq<Job> {
    seq(|items|, i requires 0 <= i < |items| => items[i].job)
  }

  function ItemDescriptions(items: seq<JobWithDescription>): seq<JobDescription> {
    seq(|items|, i requires 0 <= i < |items| => items[i].jobDescription)
  }

  /**
   * The items ProcessJobsStreaming receives for the results of GetJobs'
   * pages and of the detail scrapes: GetJobs' channel through the
   * description workers.
   */
  function PipelineItems(pages: PageResults, details: Details, streamCancel: Option<nat>, workerCancel: Option<nat>)
    : seq<JobWithDescription>
  {
    var jobs := GetJobsOutput(pages, streamCancel);
    DescribedJobs(details, jobs[..JobsScraped(|jobs|, workerCancel)])
  }

  /**
   * Every description is saved for the job at the same index of the jobs
   * list: the two lists have the same length and each JobID is the ID of
   * its job.
   */
  lemma ItemsAligned(pages: PageResults, details: Details, streamCancel: Option<nat>, workerCancel: Option<nat>)
    ensures var items := PipelineItems(pages, details, streamCancel, workerCancel);
      && |ItemJobs(items)| == |ItemDescriptions(items)|
      && forall i :: 0 <= i < |items| ==> ItemDescriptions(items)[i].jobId == ItemJobs(items)[i].id
  {
    var jobs := GetJobsOutput(pages, streamCancel);
    var taken := jobs[..JobsScraped(|jobs|, workerCancel)];
    var items := DescribedJobs(details, taken);
    DescribedJobsMembers(details, taken);
    forall i | 0 <= i < |items|
      ensures items[i].jobDescription.jobId == items[i].job.id
    {
      assert items[i] in items;
      var k :| 0 <= k < |taken| && DescribeJob(details, k, taken[k]) == Some(items[i]);
    }
  }

  /** What one save did: the Exec call it issued, if any, and its error. */
  datatype SaveOutcome = SaveOutcome(call: Option<ExecCall>, error: Option<string>)

  /** The Exec calls of one run and the error it returns. */
  datatype RunOutcome = RunOutcome(calls: seq<ExecCall>, error: Option<string>)

  /** SaveJobs' outcome, for the unique jobs in the order its map gave. */
  function JobsSave(db: Database, allJobs: seq<Job>, uniqueJobs: seq<Job>): SaveOutcome {
    if allJobs == [] then SaveOutcome(None, None)
    else
      var call := ExecCall(RepoJob.InsertStatement(|uniqueJobs|), RepoJob.JobArgs(uniqueJobs));
      SaveOutcome(Some(call), RepoJob.InsertError(db(call)))
  }

  /** SaveJobDescriptions' outcome. */
  function DescriptionsSave(db: Database, marshal: RepoJobDescription.Marshal, records: seq<JobDescription>): SaveOutcome {
    if records == [] then SaveOutcome(None, None)
    else
      match RepoJobDescription.MarshalAll(marshal, records)
      case Err(e) => SaveOutcome(None, Some(e))
      case Ok(jsons) =>
        var call := ExecCall(RepoJobDescription.InsertStatement(|records|), RepoJobDescription.DescriptionArgs(records, jsons));
        SaveOutcome(Some(call), RepoJobDescription.SaveError(db(call)))
  }

  /** The end of a run: the job save, then, only if it succeeded, the description save. */
  function Persist(jobsSave: SaveOutcome, descriptionsSave: SaveOutcome): RunOutcome {
    if jobsSave.error.Some? then
      RunOutcome(OptionToSeq(jobsSave.call), Some("failed to save jobs to database: " + jobsSave.error.value))
    else
      var calls := OptionToSeq(jobsSave.call) + OptionToSeq(descriptionsSave.call);
      if descriptionsSave.error.Some? then RunOutcome(calls, Some("failed to save job descriptions: " + descriptionsSave.error.value))
      else RunOutcome(calls, None)
  }

  /**
   * The job save's call comes first; a failed job save stops the run before
   * any description is saved; the run succeeds exactly when neither save
   * fails, and otherwise returns the first failure, wrapped.
   */
  lemma PersistOrder(jobsSave: SaveOutcome, descriptionsSave: SaveOutcome)
    ensures var r := Persist(jobsSave, descriptionsSave);
      && r.calls[..|OptionToSeq(jobsSave.call)|] == OptionToSeq(jobsSave.call)
      && (jobsSave.error.Some? ==> r.calls == OptionToSeq(jobsSave.call)
                                   && r.error == Some("failed to save jobs to database: " + jobsSave.error.value))
      && (jobsSave.error.None? ==> r.calls == OptionToSeq(jobsSave.call) + OptionToSeq(descriptionsSave.call))
      && (r.error.None? <==> jobsSave.error.None? && descriptionsSave.error.None?)
      && (jobsSave.error.None? && descriptionsSave.error.Some? ==>
            r.error == Some("failed to save job descriptions: " + descriptionsSave.error.value))
  {
  }

  /**
   * `calls` and `err` are what a run saving `items` produces when SaveJobs'
   * map yields the unique jobs in the order `uniqueJobs`.
   */
  predicate RanPersist(db: Database, marshal: RepoJobDescription.Marshal, items: seq<JobWithDescription>,
                       uniqueJobs: seq<Job>, calls: seq<ExecCall>, err: Option<string>)
  {
    && RepoJob.UniqueJobsOf(RepoJob.JobMap(ItemJobs(items)), uniqueJobs)
    && RunOutcome(calls, err) == Persist(JobsSave(db, ItemJobs(items), uniqueJobs),
                                         DescriptionsSave(db, marshal, ItemDescriptions(items)))
  }

  /**
   * The tail of ProcessJobsStreaming: collect every received item, save the
   * jobs, then, only if that succeeded, the descriptions.
   */
  method SaveItems(db: Database, marshal: RepoJobDescription.Marshal, items: seq<JobWithDescription>)
    returns (calls: seq<ExecCall>, err: Option<string>)
    ensures exists uniqueJobs :: RanPersist(db, marshal, items, uniqueJobs, calls, err)
  {
    var allJobs, allJobDescriptions := CollectResults(items);
    assert allJobs == ItemJobs(items);
    assert allJobDescriptions == ItemDescriptions(items);

    var jobsCall, jobsError;
    ghost var uniqueJobs;
    jobsCall, jobsError, uniqueJobs := RepoJob.SaveJobs(db, allJobs);
    if allJobs == [] {
      uniqueJobs := [];
      assert RepoJob.Ids(uniqueJobs) == {};
    }
    ghost var jobsSave := SaveOutcome(jobsCall, jobsError);
    assert jobsSave == JobsSave(db, allJobs, uniqueJobs);
    calls := OptionToSeq(jobsCall);
    if jobsError.Some? {
      err := Some("failed to save jobs to database: " + jobsError.value);
      assert RunOutcome(calls, err) == Persist(jobsSave, DescriptionsSave(db, marshal, allJobDescriptions));
      assert RanPersist(db, marshal, items, uniqueJobs, calls, err);
      return;
    }
    var descriptionsCall, descriptionsError := RepoJobDescription.SaveJobDescriptions(db, marshal, allJobDescriptions);
    ghost var descriptionsSave := SaveOutcome(descriptionsCall, descriptionsError);
    assert descriptionsSave == DescriptionsSave(db, marshal, allJobDescriptions);
    calls := calls + OptionToSeq(descriptionsCall);
    if descriptionsError.Some? {
      err := Some("failed to save job descriptions: " + descriptionsError.value);
    } else {
      err := None;
    }
    assert RunOutcome(calls, err) == Persist(jobsSave, descriptionsSave);
    assert RanPersist(db, marshal, items, uniqueJobs, calls, err);
  }

  /**
   * ProcessJobsStreaming: run GetJobs and the description workers, collect
   * every item, then save, for some order of the unique jobs (the order of
   * SaveJobs' map iteration, which Go leaves open). The outcome does not depend on `numPages` or `params`: GetJobs always
   * runs its own fixed search.
   */
  method ProcessJobsStreaming(db: Database, marshal: RepoJobDescription.Marshal, listing: Listing, sites: DetailSites,
                              numPages: int, params: SearchQuery, streamCancel: Option<nat>, workerCancel: Option<nat>)
    returns (calls: seq<ExecCall>, err: Option<string>)
    ensures exists uniqueJobs ::
      RanPersist(db, marshal, PipelineItems(PageResultsOf(listing, GetJobsQuery), DetailsOf(sites), streamCancel, workerCancel),
                 uniqueJobs, calls, err)
  {
    var jobsChan := GetJobs(listing, streamCancel);
    var jobWithDescriptionChan := GetJobDescription(sites, jobsChan, workerCancel);
    ghost var items := PipelineItems(PageResultsOf(listing, GetJobsQuery), DetailsOf(sites), streamCancel, workerCancel);
    assert jobWithDescriptionChan == items;
    calls, err := SaveItems(db, marshal, jobWithDescriptionChan);
  }

  // ----- jobDescriptionWorker ---------------------------------------------------------

  /** What the worker sends for one job: the scrape's result, error included. */
  datatype JobDescriptionResult = JobDescriptionResult(job: Job, description: string, criteria: Criteria, error: Option<string>)

  /** Where the context's cancellation (or the limiter's failure) stops the worker. */
  datatype Interruption =
    | DoneBeforeReceive   // the select takes ctx.Done() before receiving the job
    | LimiterWaitFailed   // the job was received, then limiter.Wait returned an error
    | DoneAtSend          // the job was scraped, then the send lost to ctx.Done()

  /** The job index at which the worker is interrupted, and how. */
  datatype Interrupt = Interrupt(at: nat, kind: Interruption)

  datatype WorkerExit = InputClosed | Interrupted(kind: Interruption)

  function ResultOf(details: Details, i: nat, job: Job): JobDescriptionResult {
    var d := details(i, job);
    JobDescriptionResult(job, d.description, d.criteria, d.error)
  }

  /** The items the streaming stage would build from the error-free worker results, in order. */
  function ItemsOfResults(results: seq<JobDescriptionResult>): seq<JobWithDescription> {
    if results == [] then []
    else
      var r := results[|results| - 1];
      ItemsOfResults(results[..|results| - 1])
        + (if r.error.None? then [JobWithDescription(r.job, JobDescription(r.job.id, r.description, r.criteria))] else [])
  }

  /**
   * The worker and the streaming stage agree: the results a worker sends for
   * the jobs it processed, with the failures dropped, are exactly the items
   * GetJobDescription sends for the same jobs and scrape outcomes.
   */
  lemma {:induction false} WorkerResultsAgreeWithStage(details: Details, jobs: seq<Job>, results: seq<JobDescriptionResult>)
    requires |results| == |jobs|
    requires forall i :: 0 <= i < |results| ==> results[i] == ResultOf(details, i, jobs[i])
    ensures ItemsOfResults(results) == DescribedJobs(details, jobs)
  {
    if jobs != [] {
      var n := |jobs| - 1;
      assert forall i :: 0 <= i < n ==> results[..n][i] == results[i] && jobs[..n][i] == jobs[i];
      WorkerResultsAgreeWithStage(details, jobs[..n], results[..n]);
    }
  }

  /**
   * jobDescriptionWorker: receive jobs in channel order, wait for the
   * limiter, scrape, and send one result per job, failures included, until
   * the input closes or the interruption happens. `consumed` is how many
   * jobs it took from the channel.
   */
  method JobDescriptionWorker(details: Details, jobChan: seq<Job>, interrupt: Option<Interrupt>)
    returns (results: seq<JobDescriptionResult>, consumed: nat, exit: WorkerExit)
    ensures |results| <= consumed <= |jobChan|
    ensures forall i :: 0 <= i < |results| ==> results[i] == ResultOf(details, i, jobChan[i])
    ensures interrupt.None? || interrupt.value.at >= |jobChan| ==>
              exit == InputClosed && |results| == consumed == |jobChan|
    ensures interrupt.Some? && interrupt.value.at < |jobChan| ==>
              && exit == Interrupted(interrupt.value.kind)
              && |results| == interrupt.value.at
              && consumed == (if interrupt.value.kind == DoneBeforeReceive then interrupt.value.at else interrupt.value.at + 1)
  {
    results := [];
    consumed := 0;
    while true
      invariant consumed <= |jobChan| && |results| == consumed
      invariant interrupt.Some? ==> consumed <= interrupt.value.at
      invariant forall i :: 0 <= i < |results| ==> results[i] == ResultOf(details, i, jobChan[i])
      decreases |jobChan| - consumed
    {
      if interrupt.Some? && interrupt.value.at == consumed && interrupt.value.kind == DoneBeforeReceive {
        if consumed < |jobChan| {
          return results, consumed, Interrupted(DoneBeforeReceive);
        }
      }
      if consumed == |jobChan| {
        return results, consumed, InputClosed;
      }
      var job := jobChan[consumed];
      consumed := consumed + 1;
      if interrupt.Some? && interrupt.value.at == consumed - 1 && interrupt.value.kind == LimiterWaitFailed {
        return results, consumed, Interrupted(LimiterWaitFailed);
      }
      var d := details(consumed - 1, job);
      var result := JobDescriptionResult(job, d.description, d.criteria, d.error);
      if interrupt.Some? && interrupt.value.at == consumed - 1 && interrupt.value.kind == DoneAtSend {
        return results, consumed, Interrupted(DoneAtSend);
      }
      results := results + [result];
    }
  }
}
