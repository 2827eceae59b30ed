/**
 * internal/pipeline/test.go: GetJobs, which streams one fixed search into
 * the job channel, and GetJobDescription, whose workers turn each job into
 * a job with its description.
 *
 * Channels are sequences in send order. The three workers of
 * GetJobDescription are projected onto one worker that takes the jobs in
 * channel order.
 */
module PipelineStages {
  import opened Models
  import opened PipelineScraper
  import opened PipelineDescription

  // ----- GetJobs --------------------------------------------------------------------

  /** GetJobs always asks for ten pages of the same search. */
  const GetJobsPages: nat := 10
  const GetJobsQuery: SearchQuery := SearchQuery("Frontend Developer", "Japan", "2,3", "")

  /** What GetJobs puts on its channel before closing it, for the results of its ten pages. */
  function GetJobsOutput(pages: PageResults, cancelAt: Option<nat>): seq<Job> {
    Stream(pages, GetJobsPages, cancelAt).emitted
  }

  /**
   * GetJobs: the pages are those of the fixed search; the stream's error is
   * only logged, and the channel is closed whatever the outcome, so
   * consumers see every job sent before the stream ended.
   */
  method GetJobs(listing: Listing, cancelAt: Option<nat>) returns (jobChan: seq<Job>)
    ensures jobChan == GetJobsOutput(PageResultsOf(listing, GetJobsQuery), cancelAt)
  {
    var out := ScrapeLinkedInJobsStreaming(listing, GetJobsPages, GetJobsQuery, cancelAt);
    jobChan := out.emitted;
  }

  /** Whatever happens, the channel carries a prefix of the ten pages' jobs in page order. */
  lemma GetJobsPrefix(pages: PageResults, cancelAt: Option<nat>)
    ensures GetJobsOutput(pages, cancelAt) <= JobsOfPages(pages, 0, GetJobsPages)
  {
    StreamEmitsPrefix(pages, GetJobsPages, cancelAt);
  }

  /**
   * Without cancellation, a failing page ends the channel after the jobs of
   * every earlier page; with no failure it carries all ten pages' jobs.
   */
  lemma GetJobsWithoutCancel(pages: PageResults)
    ensures (forall p: nat :: p < GetJobsPages ==> pages(p).Ok?) ==>
              GetJobsOutput(pages, None) == JobsOfPages(pages, 0, GetJobsPages)
    ensures forall f: nat :: f < GetJobsPages && pages(f).Err? && (forall p: nat :: p < f ==> pages(p).Ok?) ==>
              GetJobsOutput(pages, None) == JobsOfPages(pages, 0, f)
  {
    if forall p: nat :: p < GetJobsPages ==> pages(p).Ok? {
      StreamFromComplete(pages, GetJobsPages, 0, 0);
    }
    forall f: nat | f < GetJobsPages && pages(f).Err? && (forall p: nat :: p < f ==> pages(p).Ok?)
      ensures GetJobsOutput(pages, None) == JobsOfPages(pages, 0, f)
    {
      StreamFromFirstFailure(pages, GetJobsPages, 0, 0, f);
    }
  }

  // ----- GetJobDescription ------------------------------------------------------------

  /**
   * The outcome of ScrapeJobDescriptionWithContext for the job at each
   * channel position. Every scrape is its own request, so two copies of one
   * listing in the channel may be scraped with different outcomes.
   */
  type Details = (nat, Job) -> Parsed

  /** The detail site as the scrape of the job at each channel position finds it. */
  type DetailSites = nat -> DetailSite

  function DetailsOf(sites: DetailSites): Details {
    (i: nat, job: Job) => DescriptionOf(sites(i), job)
  }

  /** What a worker sends for the job at position `i`: nothing when its description scrape fails. */
  function DescribeJob(details: Details, i: nat, job: Job): Option<JobWithDescription> {
    var d := details(i, job);
    if d.error.Some? then None else Some(JobWithDescription(job, JobDescription(job.id, d.description, d.criteria)))
  }

  /** The items sent for `jobs`, in channel order. */
  function DescribedJobs(details: Details, jobs: seq<Job>): seq<JobWithDescription> {
    if jobs == [] then [] else DescribedJobs(details, jobs[..|jobs| - 1]) + OptionToSeq(DescribeJob(details, |jobs| - 1, jobs[|jobs| - 1]))
  }

  /** How many of `n` jobs are scraped when the context is seen done before job `cancelAt`. */
  function JobsScraped(n: nat, cancelAt: Option<nat>): nat {
    if cancelAt.Some? && cancelAt.value < n then cancelAt.value else n
  }

  /**
   * An item is sent exactly for each job whose description scrape succeeds;
   * it carries the job, the job's ID as JobID, and the scraped non-blank
   * description and criteria.
   */
  lemma DescribedJobsSnoc(details: Details, jobs: seq<Job>, i: nat)
    requires i < |jobs|
    ensures DescribedJobs(details, jobs[..i + 1]) == DescribedJobs(details, jobs[..i]) + OptionToSeq(DescribeJob(details, i, jobs[i]))
  {
    assert jobs[..i + 1][..i] == jobs[..i];
  }

  /** An item is sent for each job whose scrape succeeds, and for nothing else. */
  lemma {:induction false} DescribedJobsMembers(details: Details, jobs: seq<Job>)
    ensures |DescribedJobs(details, jobs)| <= |jobs|
    ensures forall x :: x in DescribedJobs(details, jobs) <==> exists i :: 0 <= i < |jobs| && DescribeJob(details, i, jobs[i]) == Some(x)
  {
    if jobs != [] {
      var init := jobs[..|jobs| - 1];
      DescribedJobsMembers(details, init);
      assert forall i :: 0 <= i < |init| ==> init[i] == jobs[i];
    }
  }

  /** The channel positions among `jobs` whose scrape succeeds, in increasing order. */
  function SucceededPositions(details: Details, jobs: seq<Job>): (ps: seq<nat>)
    ensures forall k :: 0 <= k < |ps| ==> ps[k] < |jobs|
  {
    if jobs == [] then []
    else
      var n := |jobs| - 1;
      SucceededPositions(details, jobs[..n]) + (if DescribeJob(details, n, jobs[n]).Some? then [n] else [])
  }

  /** The succeeding positions are listed once each, in increasing order, and no failing position is. */
  lemma {:induction false} SucceededPositionsExact(details: Details, jobs: seq<Job>)
    ensures var ps := SucceededPositions(details, jobs);
      && (forall k, l :: 0 <= k < l < |ps| ==> ps[k] < ps[l])
      && (forall i :: 0 <= i < |jobs| ==> (i in ps <==> DescribeJob(details, i, jobs[i]).Some?))
  {
    if jobs != [] {
      var n := |jobs| - 1;
      var init := jobs[..n];
      SucceededPositionsExact(details, init);
      assert forall i :: 0 <= i < |init| ==> init[i] == jobs[i];
      var ps0 := SucceededPositions(details, init);
      assert forall k :: 0 <= k < |ps0| ==> ps0[k] < n;
    }
  }

  /**
   * Each job taken from the channel is scraped once: the items sent are, in
   * order, those of the succeeding positions (SucceededPositionsExact), each
   * position contributing exactly one item.
   */
  lemma {:induction false} DescribedJobsExact(details: Details, jobs: seq<Job>)
    ensures var out := DescribedJobs(details, jobs);
      var ps := SucceededPositions(details, jobs);
      && |out| == |ps|
      && (forall k :: 0 <= k < |ps| ==> Some(out[k]) == DescribeJob(details, ps[k], jobs[ps[k]]))
  {
    if jobs != [] {
      var n := |jobs| - 1;
      var init := jobs[..n];
      DescribedJobsExact(details, init);
      var ps0 := SucceededPositions(details, init);
      assert forall k :: 0 <= k < |ps0| ==> init[ps0[k]] == jobs[ps0[k]];
    }
  }

  /** Without failures, every job taken yields its own item, at its own position. */
  lemma {:induction false} DescribedJobsAllSucceed(details: Details, jobs: seq<Job>)
    requires forall i :: 0 <= i < |jobs| ==> DescribeJob(details, i, jobs[i]).Some?
    ensures |DescribedJobs(details, jobs)| == |jobs|
    ensures forall i :: 0 <= i < |jobs| ==> Some(DescribedJobs(details, jobs)[i]) == DescribeJob(details, i, jobs[i])
  {
    if jobs != [] {
      var n := |jobs| - 1;
      var init := jobs[..n];
      assert forall i :: 0 <= i < |init| ==> init[i] == jobs[i];
      DescribedJobsAllSucceed(details, init);
    }
  }

  /**
   * The item of a job whose scrape succeeds carries the job, its ID as
   * JobID, and the scraped non-blank description and criteria; a job whose
   * scrape fails has none.
   */
  lemma DescribeJobItem(sites: DetailSites, i: nat, job: Job)
    ensures var d := DescriptionOf(sites(i), job);
      && (DescribeJob(DetailsOf(sites), i, job).None? <==> d.error.Some?)
      && (DescribeJob(DetailsOf(sites), i, job).Some? ==>
            var x := DescribeJob(DetailsOf(sites), i, job).value;
            && x.job == job && x.jobDescription.jobId == job.id
            && x.jobDescription.description == d.description && x.jobDescription.description != ""
            && x.jobDescription.criteria == d.criteria)
  {
    DescriptionOfOutcome(sites(i), job);
  }

  /**
   * The workers of GetJobDescription as one worker: each job is taken from
   * the channel; if the context is done the worker stops, otherwise the
   * description is scraped and, unless that fails, the item is sent.
   */
  method DescribeJobs(details: Details, jobChan: seq<Job>, cancelAt: Option<nat>)
    returns (out: seq<JobWithDescription>)
    ensures out == DescribedJobs(details, jobChan[..JobsScraped(|jobChan|, cancelAt)])
  {
    out := [];
    var i := 0;
    while i < |jobChan|
      invariant i <= JobsScraped(|jobChan|, cancelAt)
      invariant out == DescribedJobs(details, jobChan[..i])
    {
      var job := jobChan[i];
      if cancelAt == Some(i) {
        break;
      }
      var d := details(i, job);
      DescribedJobsSnoc(details, jobChan, i);
      if d.error.None? {
        out := out + [JobWithDescription(job, JobDescription(job.id, d.description, d.criteria))];
      }
      i := i + 1;
    }
  }

  /**
   * GetJobDescription, with ScrapeJobDescriptionWithContext as the scrape. A
   * method cannot be passed as a value, so the worker loop takes the
   * scrape's outcome per job, which that method computes.
   */
  method GetJobDescription(sites: DetailSites, jobChan: seq<Job>, cancelAt: Option<nat>)
    returns (out: seq<JobWithDescription>)
    ensures out == DescribedJobs(DetailsOf(sites), jobChan[..JobsScraped(|jobChan|, cancelAt)])
  {
    out := DescribeJobs(DetailsOf(sites), jobChan, cancelAt);
  }
}
