/**
 * internal/repo/job.go: JobRepository.SaveJobs, which collapses the batch to
 * one job per ID and upserts it with a single multi-row INSERT.
 *
 * The database connection is the `db` parameter: it is handed the one Exec
 * call (statement and arguments) and answers with Exec's error, if any.
 */
module RepoJob {
  import opened Models
  import opened GoStrings
  import opened SqlPlaceholders

  // ----- de-duplication by ID ------------------------------------------------------

  /** jobMap after the loop over `jobs`: each job stored under its ID, later ones overwriting earlier. */
  function JobMap(jobs: seq<Job>): map<int, Job> {
    if jobs == [] then map[] else JobMap(jobs[..|jobs| - 1])[jobs[|jobs| - 1].id := jobs[|jobs| - 1]]
  }

  /** The IDs occurring in a list of jobs. */
  function Ids(jobs: seq<Job>): set<int> {
    set k | 0 <= k < |jobs| :: jobs[k].id
  }

  /** One more job adds its ID. */
  lemma IdsSnoc(jobs: seq<Job>, job: Job)
    ensures Ids(jobs + [job]) == Ids(jobs) + {job.id}
  {
    var extended := jobs + [job];
    forall id | id in Ids(extended)
      ensures id in Ids(jobs) + {job.id}
    {
      var k :| 0 <= k < |extended| && extended[k].id == id;
      if k < |jobs| {
        assert jobs[k] == extended[k];
      }
    }
    forall id | id in Ids(jobs) + {job.id}
      ensures id in Ids(extended)
    {
      if id in Ids(jobs) {
        var k :| 0 <= k < |jobs| && jobs[k].id == id;
        assert extended[k] == jobs[k];
      } else {
        assert extended[|jobs|] == job;
      }
    }
  }

  /** `k` is the last position of its ID in `jobs`. */
  predicate IsLastOfId(jobs: seq<Job>, k: int) {
    0 <= k < |jobs| && forall l :: k < l < |jobs| ==> jobs[l].id != jobs[k].id
  }

  /** jobMap holds exactly the IDs of the batch, each job under its own ID. */
  lemma {:induction false} JobMapKeys(jobs: seq<Job>)
    ensures JobMap(jobs).Keys == Ids(jobs)
    ensures forall id :: id in JobMap(jobs) ==> JobMap(jobs)[id].id == id
  {
    if jobs != [] {
      var init := jobs[..|jobs| - 1];
      JobMapKeys(init);
      assert jobs == init + [jobs[|jobs| - 1]];
      IdsSnoc(init, jobs[|jobs| - 1]);
    }
  }

  /** The job jobMap holds for an ID is the last job of the batch with that ID. */
  lemma {:induction false} JobMapLastWins(jobs: seq<Job>, k: int)
    requires IsLastOfId(jobs, k)
    ensures jobs[k].id in JobMap(jobs) && JobMap(jobs)[jobs[k].id] == jobs[k]
  {
    var init := jobs[..|jobs| - 1];
    if k < |init| {
      assert IsLastOfId(init, k);
      JobMapLastWins(init, k);
    }
  }

  /**
   * uniqueJobs after the loop over jobMap: one job per key of the map, the
   * one stored under it, in whatever order the map is iterated.
   */
  predicate UniqueJobsOf(jobMap: map<int, Job>, uniqueJobs: seq<Job>) {
    && (forall i :: 0 <= i < |uniqueJobs| ==> uniqueJobs[i].id in jobMap && jobMap[uniqueJobs[i].id] == uniqueJobs[i])
    && (forall i, j :: 0 <= i < j < |uniqueJobs| ==> uniqueJobs[i].id != uniqueJobs[j].id)
    && Ids(uniqueJobs) == jobMap.Keys
  }

  /** There is one unique job per distinct ID of the map. */
  lemma {:induction false} UniqueJobsCount(jobMap: map<int, Job>, uniqueJobs: seq<Job>)
    requires UniqueJobsOf(jobMap, uniqueJobs)
    ensures |uniqueJobs| == |jobMap.Keys|
  {
    if uniqueJobs != [] {
      var n := |uniqueJobs| - 1;
      var last := uniqueJobs[n];
      var rest := jobMap - {last.id};
      var init := uniqueJobs[..n];
      assert uniqueJobs == init + [last];
      IdsSnoc(init, last);
      assert last.id !in Ids(init) by {
        forall k | 0 <= k < |init|
          ensures init[k].id != last.id
        {
          assert init[k] == uniqueJobs[k];
        }
      }
      assert rest.Keys == Ids(init);
      assert UniqueJobsOf(rest, init);
      UniqueJobsCount(rest, init);
    }
  }

  /**
   * Whatever order the map is iterated in, the unique jobs are the same jobs:
   * two iteration orders differ only by a permutation of the rows.
   */
  lemma UniqueJobsOrderIrrelevant(jobs: seq<Job>, u1: seq<Job>, u2: seq<Job>)
    requires UniqueJobsOf(JobMap(jobs), u1) && UniqueJobsOf(JobMap(jobs), u2)
    ensures |u1| == |u2|
    ensures forall job :: job in u1 <==> job in u2
  {
    var m := JobMap(jobs);
    UniqueJobsCount(m, u1);
    UniqueJobsCount(m, u2);
    forall job | job in u1
      ensures job in u2
    {
      var i :| 0 <= i < |u1| && u1[i] == job;
      assert job.id in Ids(u2);
    }
    forall job | job in u2
      ensures job in u1
    {
      var i :| 0 <= i < |u2| && u2[i] == job;
      assert job.id in Ids(u1);
    }
  }

  /**
   * The rows SaveJobs writes: one per distinct ID of the batch, each the last
   * job of the batch with that ID.
   */
  lemma UniqueJobsAreLastOccurrences(jobs: seq<Job>, uniqueJobs: seq<Job>, i: int, k: int)
    requires UniqueJobsOf(JobMap(jobs), uniqueJobs)
    requires 0 <= i < |uniqueJobs| && IsLastOfId(jobs, k) && jobs[k].id == uniqueJobs[i].id
    ensures Ids(uniqueJobs) == Ids(jobs)
    ensures uniqueJobs[i] == jobs[k]
  {
    JobMapKeys(jobs);
    JobMapLastWins(jobs, k);
  }

  // ----- the statement and its arguments ------------------------------------------------

  /** The inserted columns, in the order of each row's placeholders. */
  const JobColumns: seq<string> := ["id", "title", "company", "company_link", "location", "job_link"]

  const InsertHead: string :=
    "\n        INSERT INTO jobs (id, title, company, company_link, location, job_link)\n        VALUES \n    "

  /** The updates of the conflict clause: every column except the key. */
  function ColumnUpdates(): seq<string> {
    seq(5, j requires 0 <= j < 5 => ColumnUpdate(JobColumns[j + 1]))
  }

  const ConflictClause: string :=
    "\n        ON CONFLICT (id) DO UPDATE SET\n        " + Join(ColumnUpdates(), ",\n        ") + "\n    "

  /** On a conflict with an existing id, each of the five other columns takes its new value. */
  lemma ConflictUpdatesColumns(j: nat)
    requires 1 <= j < 6
    ensures Contains(ConflictClause, ColumnUpdate(JobColumns[j]))
  {
    var updates := Join(ColumnUpdates(), ",\n        ");
    JoinContainsPart(ColumnUpdates(), ",\n        ", j - 1);
    ContainsInfix("\n        ON CONFLICT (id) DO UPDATE SET\n        ", updates, "\n    ", ColumnUpdate(JobColumns[j]));
  }

  /** The statement for `k` unique jobs. */
  function InsertStatement(k: nat): string {
    InsertHead + ValuesList(k, 6) + ConflictClause
  }

  /** The value of column `j` of a job's row. */
  function JobValue(job: Job, j: nat): SqlArg
    requires j < 6
  {
    match j
    case 0 => IntArg(job.id)
    case 1 => TextArg(job.title)
    case 2 => TextArg(job.company)
    case 3 => TextArg(job.companyLink)
    case 4 => TextArg(job.location)
    case 5 => TextArg(job.jobLink)
  }

  /** vals after the loop over `uniqueJobs`: the six values of each job, job after job. */
  function JobArgs(uniqueJobs: seq<Job>): seq<SqlArg> {
    if uniqueJobs == [] then []
    else
      var job := uniqueJobs[|uniqueJobs| - 1];
      JobArgs(uniqueJobs[..|uniqueJobs| - 1]) + [JobValue(job, 0), JobValue(job, 1), JobValue(job, 2),
                                                 JobValue(job, 3), JobValue(job, 4), JobValue(job, 5)]
  }

  /** The arguments of one more job follow those of the jobs before it. */
  lemma JobArgsSnoc(uniqueJobs: seq<Job>, i: nat)
    requires i < |uniqueJobs|
    ensures var job := uniqueJobs[i];
      JobArgs(uniqueJobs[..i + 1]) == JobArgs(uniqueJobs[..i]) + [IntArg(job.id), TextArg(job.title), TextArg(job.company),
                                                                 TextArg(job.companyLink), TextArg(job.location), TextArg(job.jobLink)]
  {
    assert uniqueJobs[..i + 1][..i] == uniqueJobs[..i];
  }

  /**
   * Six arguments per job, so the argument bound to placeholder $(6i+j+1) is
   * column j of the i-th unique job.
   */
  lemma {:induction false} JobArgsAt(uniqueJobs: seq<Job>)
    ensures |JobArgs(uniqueJobs)| == 6 * |uniqueJobs|
    ensures forall i, j :: 0 <= i < |uniqueJobs| && 0 <= j < 6 ==>
              JobArgs(uniqueJobs)[6 * i + j] == JobValue(uniqueJobs[i], j)
  {
    if uniqueJobs != [] {
      var n := |uniqueJobs| - 1;
      var init := uniqueJobs[..n];
      JobArgsAt(init);
      forall i, j | 0 <= i < |uniqueJobs| && 0 <= j < 6
        ensures JobArgs(uniqueJobs)[6 * i + j] == JobValue(uniqueJobs[i], j)
      {
        if i < n {
          assert 6 * i + j < 6 * n;
          assert uniqueJobs[i] == init[i];
        } else {
          assert 6 * i + j == 6 * n + j;
        }
      }
    }
  }

  /** Each placeholder of the statement binds one argument. */
  lemma PlaceholdersMatchArgs(uniqueJobs: seq<Job>)
    ensures |AllNumbers(|uniqueJobs|, 6)| == |JobArgs(uniqueJobs)|
    ensures forall p :: 0 <= p < |JobArgs(uniqueJobs)| ==> AllNumbers(|uniqueJobs|, 6)[p] == p + 1
  {
    AllNumbersConsecutive(|uniqueJobs|, 6);
    JobArgsAt(uniqueJobs);
  }

  // ----- SaveJobs ---------------------------------------------------------------------

  /** The error SaveJobs returns for Exec's error, if any. */
  function InsertError(execError: Option<string>): Option<string> {
    if execError.Some? then Some("error inserting jobs: " + execError.value) else None
  }

  /** The loop filling jobMap. */
  method FillJobMap(jobs: seq<Job>) returns (jobMap: map<int, Job>)
    ensures jobMap == JobMap(jobs)
  {
    jobMap := map[];
    for i := 0 to |jobs|
      invariant jobMap == JobMap(jobs[..i])
    {
      assert jobs[..i + 1][..i] == jobs[..i];
      jobMap := jobMap[jobs[i].id := jobs[i]];
    }
    assert jobs[..|jobs|] == jobs;
  }

  /** A set of keys that is not empty holds some key. */
  lemma NonEmptyHasKey(keys: set<int>)
    requires keys != {}
    ensures exists key :: key in keys
  {
    if forall key :: key !in keys {
      assert false;
    }
  }

  /** The loop over jobMap: its jobs in an order the model leaves open. */
  method CollectUniqueJobs(jobMap: map<int, Job>) returns (uniqueJobs: seq<Job>)
    requires forall id :: id in jobMap ==> jobMap[id].id == id
    ensures UniqueJobsOf(jobMap, uniqueJobs)
  {
    uniqueJobs := [];
    var remaining := jobMap.Keys;
    while remaining != {}
      invariant Ids(uniqueJobs) + remaining == jobMap.Keys
      invariant Ids(uniqueJobs) !! remaining
      invariant forall i :: 0 <= i < |uniqueJobs| ==> uniqueJobs[i].id in jobMap && jobMap[uniqueJobs[i].id] == uniqueJobs[i]
      invariant forall i, j :: 0 <= i < j < |uniqueJobs| ==> uniqueJobs[i].id != uniqueJobs[j].id
      decreases remaining
    {
      NonEmptyHasKey(remaining);
      var key :| key in remaining;
      var job := jobMap[key];
      IdsSnoc(uniqueJobs, job);
      uniqueJobs := uniqueJobs + [job];
      remaining := remaining - {key};
    }
  }

  /** The loop writing the placeholders and values of the unique jobs. */
  method BuildInsert(uniqueJobs: seq<Job>) returns (sqlStatement: string, vals: seq<SqlArg>)
    ensures sqlStatement == InsertStatement(|uniqueJobs|)
    ensures vals == JobArgs(uniqueJobs)
  {
    sqlStatement := InsertHead;
    vals := [];
    for i := 0 to |uniqueJobs|
      invariant sqlStatement == InsertHead + ValuesList(i, 6)
      invariant vals == JobArgs(uniqueJobs[..i])
    {
      if i > 0 {
        sqlStatement := sqlStatement + ",";
      }
      sqlStatement := sqlStatement + Row(i, 6);
      ValuesListSnoc(i, 6);
      var job := uniqueJobs[i];
      vals := vals + [IntArg(job.id), TextArg(job.title), TextArg(job.company),
                      TextArg(job.companyLink), TextArg(job.location), TextArg(job.jobLink)];
      JobArgsSnoc(uniqueJobs, i);
    }
    sqlStatement := sqlStatement + ConflictClause;
    assert uniqueJobs[..|uniqueJobs|] == uniqueJobs;
  }

  /**
   * SaveJobs: an empty batch issues nothing and succeeds. Otherwise one Exec
   * call is issued, for the unique jobs in map-iteration order (returned as
   * `uniqueJobs`), and its error comes back wrapped.
   */
  method SaveJobs(db: Database, jobs: seq<Job>)
    returns (issued: Option<ExecCall>, err: Option<string>, ghost uniqueJobs: seq<Job>)
    ensures jobs == [] ==> issued == None && err == None
    ensures jobs != [] ==> && UniqueJobsOf(JobMap(jobs), uniqueJobs)
                           && issued == Some(ExecCall(InsertStatement(|uniqueJobs|), JobArgs(uniqueJobs)))
                           && err == InsertError(db(issued.value))
  {
    uniqueJobs := [];
    if |jobs| == 0 {
      return None, None, uniqueJobs;
    }
    var jobMap := FillJobMap(jobs);
    JobMapKeys(jobs);
    var unique := CollectUniqueJobs(jobMap);
    var sqlStatement, vals := BuildInsert(unique);
    var call := ExecCall(sqlStatement, vals);
    var execError := db(call);
    uniqueJobs := unique;
    if execError.Some? {
      return Some(call), Some("error inserting jobs: " + execError.value), uniqueJobs;
    }
    return Some(call), None, uniqueJobs;
  }
}
