/**
 * internal/repo/job-description.go: JobDescriptionRepository's batch upsert
 * SaveJobDescriptions and the lookup GetJobDescriptionByJobID.
 *
 * The database is the `db` (Exec) and `query` (QueryRow and Scan)
 * parameters, and encoding/json is the `marshal` and `unmarshal` parameters:
 * each is handed its input and answers with its result or its error.
 */
module RepoJobDescription {
  import opened Models
  import opened GoStrings
  import opened SqlPlaceholders

  /** json.Marshal of a criteria map: the JSON bytes, or the error. */
  type Marshal = Criteria -> Result<string, string>

  // ----- the statement and its arguments ------------------------------------------------

  const InsertHead: string := "\n\t\tINSERT INTO job_descriptions (job_id, description, job_criteria)\n\t\tVALUES "

  /** The updates of the conflict clause: the two data columns take their new values and the timestamp is refreshed. */
  function ConflictUpdates(): seq<string> {
    [ColumnUpdate("description"), ColumnUpdate("job_criteria"), "updated_at = CURRENT_TIMESTAMP"]
  }

  const ConflictClause: string :=
    "\n\t\tON CONFLICT (job_id) DO UPDATE SET\n\t\t" + Join(ConflictUpdates(), ",\n\t\t") + "\n\t"

  /** On a conflict with an existing job id, the description and criteria are replaced and updated_at is refreshed. */
  lemma ConflictReplacesDescription(j: nat)
    requires j < 3
    ensures Contains(ConflictClause, ConflictUpdates()[j])
  {
    JoinContainsPart(ConflictUpdates(), ",\n\t\t", j);
    ContainsInfix("\n\t\tON CONFLICT (job_id) DO UPDATE SET\n\t\t", Join(ConflictUpdates(), ",\n\t\t"), "\n\t",
                  ConflictUpdates()[j]);
  }

  /** The statement for `n` records. */
  function InsertStatement(n: nat): string {
    InsertHead + ValuesList(n, 3) + ConflictClause
  }

  /** The JSON of each record's criteria, or the error of the first record whose criteria do not marshal. */
  function MarshalAll(marshal: Marshal, records: seq<JobDescription>): (r: Result<seq<string>, string>)
    ensures r.Ok? ==> |r.value| == |records|
  {
    if records == [] then Ok([])
    else
      match MarshalAll(marshal, records[..|records| - 1])
      case Err(e) => Err(e)
      case Ok(jsons) =>
        var jd := records[|records| - 1];
        match marshal(jd.criteria)
        case Err(e) => Err(MarshalError(jd.jobId, e))
        case Ok(json) => Ok(jsons + [json])
  }

  function MarshalError(jobId: int, e: string): string {
    "error marshaling job criteria for job " + FormatInt(jobId) + ": " + e
  }

  /**
   * Marshalling succeeds exactly when every record's criteria marshal, and
   * then gives each record's JSON at its position; otherwise the error names
   * the first record that fails.
   */
  lemma {:induction false} MarshalAllOutcome(marshal: Marshal, records: seq<JobDescription>)
    ensures var r := MarshalAll(marshal, records);
      && (r.Ok? <==> forall i :: 0 <= i < |records| ==> marshal(records[i].criteria).Ok?)
      && (r.Ok? ==> |r.value| == |records|
                    && forall i :: 0 <= i < |records| ==> r.value[i] == marshal(records[i].criteria).value)
      && (r.Err? ==> exists i :: && 0 <= i < |records| && marshal(records[i].criteria).Err?
                                 && (forall l :: 0 <= l < i ==> marshal(records[l].criteria).Ok?)
                                 && r.error == MarshalError(records[i].jobId, marshal(records[i].criteria).error))
  {
    if records != [] {
      var init := records[..|records| - 1];
      MarshalAllOutcome(marshal, init);
      assert forall i :: 0 <= i < |init| ==> init[i] == records[i];
    }
  }

  /** valueArgs for the records and their JSON: three arguments per record. */
  function DescriptionArgs(records: seq<JobDescription>, jsons: seq<string>): seq<SqlArg>
    requires |jsons| == |records|
  {
    if records == [] then []
    else
      var n := |records| - 1;
      DescriptionArgs(records[..n], jsons[..n]) + [IntArg(records[n].jobId), TextArg(records[n].description), JsonArg(jsons[n])]
  }

  /**
   * Every record has its own three arguments, duplicates included: placeholder
   * $(3i+1) binds the job id of the i-th record, $(3i+2) its description and
   * $(3i+3) its criteria JSON.
   */
  lemma {:induction false} DescriptionArgsAt(records: seq<JobDescription>, jsons: seq<string>)
    requires |jsons| == |records|
    ensures |DescriptionArgs(records, jsons)| == 3 * |records|
    ensures forall i :: 0 <= i < |records| ==>
              && DescriptionArgs(records, jsons)[3 * i] == IntArg(records[i].jobId)
              && DescriptionArgs(records, jsons)[3 * i + 1] == TextArg(records[i].description)
              && DescriptionArgs(records, jsons)[3 * i + 2] == JsonArg(jsons[i])
  {
    if records != [] {
      var n := |records| - 1;
      DescriptionArgsAt(records[..n], jsons[..n]);
      forall i | 0 <= i < n
        ensures records[..n][i] == records[i] && jsons[..n][i] == jsons[i]
      {
      }
    }
  }

  /** The placeholders of the statement run $1 ... $3n, one per argument. */
  lemma PlaceholdersMatchArgs(records: seq<JobDescription>, jsons: seq<string>)
    requires |jsons| == |records|
    ensures |AllNumbers(|records|, 3)| == |DescriptionArgs(records, jsons)|
    ensures forall p :: 0 <= p < |DescriptionArgs(records, jsons)| ==> AllNumbers(|records|, 3)[p] == p + 1
  {
    AllNumbersConsecutive(|records|, 3);
    DescriptionArgsAt(records, jsons);
  }

  // ----- SaveJobDescriptions ----------------------------------------------------------

  /** The error SaveJobDescriptions returns for Exec's error, if any. */
  function SaveError(execError: Option<string>): Option<string> {
    if execError.Some? then Some("error saving job descriptions: " + execError.value) else None
  }

  /**
   * SaveJobDescriptions: an empty batch issues nothing and succeeds; a
   * record whose criteria do not marshal stops the batch before any Exec;
   * otherwise one Exec call carries every record, and its error comes back
   * wrapped.
   */
  method SaveJobDescriptions(db: Database, marshal: Marshal, records: seq<JobDescription>)
    returns (issued: Option<ExecCall>, err: Option<string>)
    ensures records == [] ==> issued == None && err == None
    ensures records != [] && MarshalAll(marshal, records).Err? ==>
              issued == None && err == Some(MarshalAll(marshal, records).error)
    ensures records != [] && MarshalAll(marshal, records).Ok? ==>
              var jsons := MarshalAll(marshal, records).value;
              && |jsons| == |records|
              && issued == Some(ExecCall(InsertStatement(|records|), DescriptionArgs(records, jsons)))
              && err == SaveError(db(issued.value))
  {
    if |records| == 0 {
      return None, None;
    }
    var valueStrings: seq<string> := [];
    var valueArgs: seq<SqlArg> := [];
    ghost var jsons: seq<string> := [];
    for i := 0 to |records|
      invariant MarshalAll(marshal, records[..i]) == Ok(jsons)
      invariant |jsons| == i
      invariant valueStrings == Rows(i, 3)
      invariant valueArgs == DescriptionArgs(records[..i], jsons)
    {
      var jd := records[i];
      assert records[..i + 1][..i] == records[..i];
      var criteriaJson := marshal(jd.criteria);
      if criteriaJson.Err? {
        MarshalAllStops(marshal, records, i);
        return None, Some(MarshalError(jd.jobId, criteriaJson.error));
      }
      valueStrings := valueStrings + [Row(i, 3)];
      valueArgs := valueArgs + [IntArg(jd.jobId), TextArg(jd.description), JsonArg(criteriaJson.value)];
      assert (jsons + [criteriaJson.value])[..i] == jsons;
      jsons := jsons + [criteriaJson.value];
    }
    assert records[..|records|] == records;
    assert Rows(|records|, 3) == valueStrings;
    var sqlStatement := InsertHead + Join(valueStrings, ",") + ConflictClause;
    var call := ExecCall(sqlStatement, valueArgs);
    var execError := db(call);
    if execError.Some? {
      return Some(call), Some("error saving job descriptions: " + execError.value);
    }
    return Some(call), None;
  }

  /** A failure at record `i`, after `i` successes, is the batch's failure. */
  lemma {:induction false} MarshalAllStops(marshal: Marshal, records: seq<JobDescription>, i: nat)
    requires i < |records|
    requires MarshalAll(marshal, records[..i]).Ok? && marshal(records[i].criteria).Err?
    ensures MarshalAll(marshal, records) == Err(MarshalError(records[i].jobId, marshal(records[i].criteria).error))
  {
    var k := |records|;
    if k > i + 1 {
      var init := records[..k - 1];
      assert init[..i] == records[..i] && init[i] == records[i];
      MarshalAllStops(marshal, init, i);
    } else {
      assert records[..k - 1] == records[..i];
    }
  }

  // ----- GetJobDescriptionByJobID -----------------------------------------------------

  /** What QueryRow(...).Scan gives: no row, an error, or the row's description and criteria bytes (nil for SQL NULL). */
  datatype RowResult = NoRows | QueryFailed(message: string) | StoredRow(description: string, criteriaJson: Option<string>)

  type Query = int -> RowResult

  /** json.Unmarshal into a map: the map (None for JSON null, which leaves it nil), or the error. */
  type Unmarshal = string -> Result<Option<Criteria>, string>

  /** The three results of GetJobDescriptionByJobID; a None criteria is a nil map. */
  datatype StoredDescription = StoredDescription(description: string, criteria: Option<Criteria>, error: Option<string>)

  /**
   * GetJobDescriptionByJobID: a missing row is not an error; any error
   * leaves the description empty and the criteria nil; a stored row gives its
   * description and its decoded criteria.
   */
  function GetJobDescriptionByJobId(query: Query, unmarshal: Unmarshal, jobId: int): (r: StoredDescription)
    ensures query(jobId).NoRows? ==> r == StoredDescription("", None, None)
    ensures r.error.Some? ==> r.description == "" && r.criteria == None
    ensures r.error.None? && r.description != "" ==> query(jobId).StoredRow? && r.description == query(jobId).description
    ensures r.criteria.Some? ==> && query(jobId).StoredRow? && query(jobId).criteriaJson.Some?
                                 && unmarshal(query(jobId).criteriaJson.value) == Ok(r.criteria)
    ensures r.error.Some? <==> query(jobId).QueryFailed?
                               || (query(jobId).StoredRow? && query(jobId).criteriaJson.Some?
                                   && unmarshal(query(jobId).criteriaJson.value).Err?)
    ensures query(jobId).QueryFailed? ==> r.error == Some("error fetching job description: " + query(jobId).message)
    ensures query(jobId).StoredRow? && query(jobId).criteriaJson.Some? && unmarshal(query(jobId).criteriaJson.value).Err? ==>
              r.error == Some("error unmarshaling job criteria: " + unmarshal(query(jobId).criteriaJson.value).error)
    ensures query(jobId).StoredRow? && r.error.None? ==> r.description == query(jobId).description
    ensures query(jobId).StoredRow? && query(jobId).criteriaJson.None? ==> r == StoredDescription(query(jobId).description, None, None)
    ensures query(jobId).StoredRow? && query(jobId).criteriaJson.Some? && unmarshal(query(jobId).criteriaJson.value).Ok? ==>
              r.criteria == unmarshal(query(jobId).criteriaJson.value).value
  {
    match query(jobId)
    case NoRows => StoredDescription("", None, None)
    case QueryFailed(message) => StoredDescription("", None, Some("error fetching job description: " + message))
    case StoredRow(description, criteriaJson) =>
      if criteriaJson.None? then StoredDescription(description, None, None)
      else
        match unmarshal(criteriaJson.value)
        case Err(e) => StoredDescription("", None, Some("error unmarshaling job criteria: " + e))
        case Ok(criteria) => StoredDescription(description, criteria, None)
  }

  /**
   * A record saved with criteria that read back as they were written is
   * found again with the same description and criteria.
   */
  lemma SavedDescriptionReadsBack(query: Query, marshal: Marshal, unmarshal: Unmarshal, record: JobDescription)
    requires marshal(record.criteria).Ok?
    requires unmarshal(marshal(record.criteria).value) == Ok(Some(record.criteria))
    requires query(record.jobId) == StoredRow(record.description, Some(marshal(record.criteria).value))
    ensures GetJobDescriptionByJobId(query, unmarshal, record.jobId)
            == StoredDescription(record.description, Some(record.criteria), None)
  {
  }
}
