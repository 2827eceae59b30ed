/**
 * The records of internal/models/Job.go, plus the small wrapper types the rest of
 * the model uses for Go's (value, error) returns and nil-able results.
 */
module Models {

  datatype Option<+T> = None | Some(value: T)

  /** A Go (value, error) pair where exactly one side matters. */
  datatype Result<+T, +E> = Ok(value: T) | Err(error: E)

  /** A scraped listing (models.Job). `id` is an int64 in the source. */
  datatype Job = Job(
    id: int,
    title: string,
    company: string,
    companyLink: string,
    location: string,
    jobLink: string)

  /** The search parameters of a listing scan (models.SearchQuery). */
  datatype SearchQuery = SearchQuery(keywords: string, location: string, fwt: string, geoId: string)

  /** The criterion-name to criterion-value map of a detail page. */
  type Criteria = map<string, string>

  /** The parsed detail of one listing (models.JobDescription). */
  datatype JobDescription = JobDescription(jobId: int, description: string, criteria: Criteria)

  /** A listing paired with its parsed detail (models.JobWithDescription). */
  datatype JobWithDescription = JobWithDescription(job: Job, jobDescription: JobDescription)

  /** One call of the database's Exec: the statement text and its bound arguments. */
  datatype SqlArg = IntArg(i: int) | TextArg(s: string) | JsonArg(json: string)
  datatype ExecCall = ExecCall(statement: string, args: seq<SqlArg>)

  /** The database as the repositories see it: Exec's error message for a call, if it fails. */
  type Database = ExecCall -> Option<string>

  function OptionToSeq<T>(o: Option<T>): (s: seq<T>)
    ensures |s| <= 1
    ensures o.None? ==> s == []
    ensures o.Some? ==> s == [o.value]
  {
    match o
    case None => []
    case Some(v) => [v]
  }
}
