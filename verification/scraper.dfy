/**
 * The listing side of internal/pipeline/scraper.go: scraper defaults, job-ID
 * extraction, the card filter of one result page, the search parameters of a
 * page, the regional-domain rewrite of a detail link, and the loop that
 * streams pages of jobs to a channel.
 *
 * A result page is fetched through RetryableHTTPRequest and parsed by goquery;
 * both are replaced by `listing`, which maps the query parameters of a page
 * to the cards found on it or to the error that ended the fetch. The channel
 * is the sequence of jobs sent on it, and the context is the index of the
 * first `select` that finds it done.
 */
module PipelineScraper {
  import opened Models
  import opened GoStrings
  import RetryableHttp

  // ----- NewScraper ------------------------------------------------------------------

  /** pipeline.Config; the durations are in nanoseconds. */
  datatype Config = Config(
    timespan: string,
    distance: string,
    sortBy: string,
    maxRetries: int,
    baseDelay: int,
    maxDelay: int,
    requestTimeout: int)

  datatype Scraper = Scraper(config: Config)

  const DefaultTimespan: string := "r604800"
  const DefaultMaxRetries: int := 3
  const DefaultBaseDelay: int := 1 * RetryableHttp.Second
  const DefaultMaxDelay: int := 30 * RetryableHttp.Second
  const DefaultRequestTimeout: int := 30 * RetryableHttp.Second

  /** Every zero-valued setting but Distance and SortBy gets its default; the rest are kept. */
  method NewScraper(config: Config) returns (s: Scraper)
    ensures config.timespan != "" ==> s.config.timespan == config.timespan
    ensures config.timespan == "" ==> s.config.timespan == DefaultTimespan
    ensures config.maxRetries != 0 ==> s.config.maxRetries == config.maxRetries
    ensures config.maxRetries == 0 ==> s.config.maxRetries == DefaultMaxRetries
    ensures config.baseDelay != 0 ==> s.config.baseDelay == config.baseDelay
    ensures config.baseDelay == 0 ==> s.config.baseDelay == DefaultBaseDelay
    ensures config.maxDelay != 0 ==> s.config.maxDelay == config.maxDelay
    ensures config.maxDelay == 0 ==> s.config.maxDelay == DefaultMaxDelay
    ensures config.requestTimeout != 0 ==> s.config.requestTimeout == config.requestTimeout
    ensures config.requestTimeout == 0 ==> s.config.requestTimeout == DefaultRequestTimeout
    ensures s.config.distance == config.distance && s.config.sortBy == config.sortBy
    // so no defaulted setting is left at its zero value
    ensures s.config.timespan != "" && s.config.maxRetries != 0 && s.config.baseDelay != 0
    ensures s.config.maxDelay != 0 && s.config.requestTimeout != 0
  {
    var c := config;
    if c.timespan == "" {
      c := c.(timespan := DefaultTimespan);
    }
    if c.maxRetries == 0 {
      c := c.(maxRetries := DefaultMaxRetries);
    }
    if c.baseDelay == 0 {
      c := c.(baseDelay := DefaultBaseDelay);
    }
    if c.maxDelay == 0 {
      c := c.(maxDelay := DefaultMaxDelay);
    }
    if c.requestTimeout == 0 {
      c := c.(requestTimeout := DefaultRequestTimeout);
    }
    s := Scraper(c);
  }

  // ----- extractJobIDFromURL -----------------------------------------------------------

  datatype IdError = InvalidUrl | IdNotFound

  /**
   * The digits that end the last element of the link's path: url.Parse, then
   * path.Base, then the submatch of `(\d+)$`.
   */
  function ExtractJobId(link: string): Result<string, IdError>
  {
    match UrlPath(link)
    case None => Err(InvalidUrl)
    case Some(p) =>
      var digits := TrailingDigits(PathBase(p));
      if digits == [] then Err(IdNotFound) else Ok(digits)
  }

  /**
   * The ID is InvalidUrl exactly when the link does not parse, IdNotFound exactly
   * when the last path element does not end in a digit, and otherwise the
   * longest run of digits that ends that element.
   */
  lemma ExtractJobIdIsTrailingDigits(link: string)
    ensures var r := ExtractJobId(link);
      && (r == Err(InvalidUrl) <==> UrlPath(link).None?)
      && (r.Ok? ==>
            var base := PathBase(UrlPath(link).value);
            && r.value != [] && AllDigits(r.value)
            && |r.value| <= |base| && r.value == base[|base| - |r.value|..]
            && (|r.value| < |base| ==> !IsDigit(base[|base| - |r.value| - 1])))
      && (r == Err(IdNotFound) <==>
            UrlPath(link).Some? && !IsDigit(PathBase(UrlPath(link).value)[|PathBase(UrlPath(link).value)| - 1]))
  {
    if UrlPath(link).Some? {
      TrailingDigitsIsLongestSuffix(PathBase(UrlPath(link).value));
    }
  }

  /** The digits that end a link's path, when its last element is a word followed by digits. */
  lemma ExtractJobIdOfPath(link: string, dir: string, slug: string, digits: string)
    requires UrlPath(link) == Some(dir + "/" + slug + digits)
    requires '/' !in slug && (slug != [] ==> !IsDigit(slug[|slug| - 1]))
    requires digits != [] && AllDigits(digits)
    ensures ExtractJobId(link) == Ok(digits)
  {
    assert '/' !in slug + digits by {
      forall i | 0 <= i < |digits| ensures IsDigit(digits[i]) {
      }
    }
    PathBaseOfSegment(dir, slug + digits);
    assert dir + "/" + slug + digits == dir + "/" + (slug + digits);
    TrailingDigitsOfSuffix(slug, digits);
  }

  /** url.Parse finds the path `<dir>/<slug><digits>` in a listing link. */
  lemma ListingLinkPath(host: string, dir: string, slug: string, digits: string, query: string)
    requires '/' !in host && '?' !in host && '#' !in host && !HasCtl(host)
    requires (dir == [] || dir[0] == '/') && '?' !in dir && '#' !in dir && !HasCtl(dir)
    requires '?' !in slug && '#' !in slug && !HasCtl(slug)
    requires AllDigits(digits)
    requires (query == [] || query[0] == '?') && '#' !in query && !HasCtl(query)
    ensures UrlPath("https://" + host + dir + "/" + slug + digits + query) == Some(dir + "/" + slug + digits)
  {
    var path := dir + "/" + slug + digits;
    assert !HasCtl(digits) && '?' !in digits && '#' !in digits by {
      forall i | 0 <= i < |digits| ensures IsDigit(digits[i]) {
      }
    }
    NoCtlConcat(dir, "/");
    NoCtlConcat(dir + "/", slug);
    NoCtlConcat(dir + "/" + slug, digits);
    assert path[0] == '/';
    assert forall k :: 0 <= k < |"https"| ==> IsAsciiLetter("https"[k]);
    UrlPathOfAbsolute("https", host, path, query);
    assert "https" + "://" + host + path + query == "https://" + host + dir + "/" + slug + digits + query;
  }

  /**
   * A listing link of the usual shape, `https://<host><dir>/<slug><digits>` with
   * an optional query, yields exactly its final digits.
   */
  lemma ExtractJobIdOfListingLink(host: string, dir: string, slug: string, digits: string, query: string)
    requires '/' !in host && '?' !in host && '#' !in host && !HasCtl(host)
    requires (dir == [] || dir[0] == '/') && '?' !in dir && '#' !in dir && !HasCtl(dir)
    requires '/' !in slug && '?' !in slug && '#' !in slug && !HasCtl(slug)
    requires slug != [] ==> !IsDigit(slug[|slug| - 1])
    requires digits != [] && AllDigits(digits)
    requires (query == [] || query[0] == '?') && '#' !in query && !HasCtl(query)
    ensures ExtractJobId("https://" + host + dir + "/" + slug + digits + query) == Ok(digits)
  {
    ListingLinkPath(host, dir, slug, digits, query);
    ExtractJobIdOfPath("https://" + host + dir + "/" + slug + digits + query, dir, slug, digits);
  }

  // ----- the card filter of ScrapeJobsWithContext --------------------------------------

  /** The raw text and href attributes goquery reads from one `li > div.base-card`. */
  datatype RawCard = RawCard(title: string, company: string, companyLink: string, location: string, jobLink: string)

  /**
   * The job built from one card: every field trimmed, and the ID parsed from the
   * link's trailing digits. A failed extraction parses "" and so leaves ID 0.
   */
  function JobOfCard(c: RawCard): Job
  {
    var link := TrimSpace(c.jobLink);
    var idText := match ExtractJobId(link) case Ok(digits) => digits case Err(_) => "";
    Job(ParseInt(idText).value, TrimSpace(c.title), TrimSpace(c.company), TrimSpace(c.companyLink),
        TrimSpace(c.location), link)
  }

  /**
   * The fields of a card's job are its trimmed texts; the ID is the value of the
   * link's trailing digits, capped at MaxInt64, and 0 when the link has none.
   */
  lemma JobOfCardFields(c: RawCard)
    ensures var j := JobOfCard(c);
      var id := ExtractJobId(j.jobLink);
      && j.jobLink == TrimSpace(c.jobLink)
      && j.title == TrimSpace(c.title) && j.company == TrimSpace(c.company)
      && j.companyLink == TrimSpace(c.companyLink) && j.location == TrimSpace(c.location)
      && (id.Err? ==> j.id == 0)
      && (id.Ok? ==>
            && AllDigits(id.value)
            && (DecimalValue(id.value) <= MaxInt64 ==> j.id == DecimalValue(id.value))
            && (DecimalValue(id.value) > MaxInt64 ==> j.id == MaxInt64))
  {
    ExtractJobIdIsTrailingDigits(TrimSpace(c.jobLink));
  }

  /** A job with all of title, company, location and link present is kept. */
  predicate IsComplete(j: Job) {
    j.title != "" && j.company != "" && j.location != "" && j.jobLink != ""
  }

  /** The job of every card, in card order. */
  function CardJobs(cards: seq<RawCard>): seq<Job>
  {
    if cards == [] then [] else [JobOfCard(cards[0])] + CardJobs(cards[1..])
  }

  /** One job per card, the i-th built from the i-th card. */
  lemma {:induction false} CardJobsAt(cards: seq<RawCard>)
    ensures |CardJobs(cards)| == |cards|
    ensures forall i :: 0 <= i < |cards| ==> CardJobs(cards)[i] == JobOfCard(cards[i])
  {
    if cards != [] {
      CardJobsAt(cards[1..]);
    }
  }

  lemma {:induction false} CardJobsSnoc(cards: seq<RawCard>, c: RawCard)
    ensures CardJobs(cards + [c]) == CardJobs(cards) + [JobOfCard(c)]
  {
    if cards == [] {
      assert cards + [c] == [c];
    } else {
      assert (cards + [c])[0] == cards[0];
      assert (cards + [c])[1..] == cards[1..] + [c];
      CardJobsSnoc(cards[1..], c);
    }
  }

  /** The complete jobs among `jobs`, in their order. */
  function KeptJobs(jobs: seq<Job>): (kept: seq<Job>)
    ensures |kept| <= |jobs|
  {
    if jobs == [] then []
    else (if IsComplete(jobs[0]) then [jobs[0]] else []) + KeptJobs(jobs[1..])
  }

  lemma {:induction false} KeptJobsConcat(a: seq<Job>, b: seq<Job>)
    ensures KeptJobs(a + b) == KeptJobs(a) + KeptJobs(b)
  {
    if a == [] {
      assert a + b == b;
    } else {
      var head := if IsComplete(a[0]) then [a[0]] else [];
      assert (a + b)[0] == a[0];
      assert (a + b)[1..] == a[1..] + b;
      assert KeptJobs(a + b) == head + KeptJobs(a[1..] + b);
      KeptJobsConcat(a[1..], b);
      assert KeptJobs(a) == head + KeptJobs(a[1..]);
    }
  }

  /** A job is kept exactly when it is one of the input jobs and is complete. */
  lemma {:induction false} KeptJobsMembers(jobs: seq<Job>, j: Job)
    ensures j in KeptJobs(jobs) <==> IsComplete(j) && j in jobs
  {
    if jobs != [] {
      KeptJobsMembers(jobs[1..], j);
      assert jobs == [jobs[0]] + jobs[1..];
    }
  }

  /** The jobs a page keeps: one per complete card, in card order. */
  function PageCardJobs(cards: seq<RawCard>): seq<Job> {
    KeptJobs(CardJobs(cards))
  }

  /** A job is on the page exactly when some card yields it and it is complete. */
  lemma PageCardJobsMembers(cards: seq<RawCard>, j: Job)
    ensures j in PageCardJobs(cards) <==> IsComplete(j) && exists i :: 0 <= i < |cards| && JobOfCard(cards[i]) == j
  {
    KeptJobsMembers(CardJobs(cards), j);
    CardJobsAt(cards);
    if j in CardJobs(cards) {
      var i :| 0 <= i < |cards| && CardJobs(cards)[i] == j;
    }
  }

  /** A complete card whose link has no ID is still kept, with ID 0. */
  lemma CardWithoutIdKept(cards: seq<RawCard>, i: nat)
    requires i < |cards|
    requires IsComplete(JobOfCard(cards[i]))
    requires ExtractJobId(TrimSpace(cards[i].jobLink)).Err?
    ensures JobOfCard(cards[i]) in PageCardJobs(cards) && JobOfCard(cards[i]).id == 0
  {
    PageCardJobsMembers(cards, JobOfCard(cards[i]));
  }

  /** One more card adds its job at the end when that job is complete. */
  lemma PageCardJobsStep(cards: seq<RawCard>, i: nat)
    requires i < |cards|
    ensures PageCardJobs(cards[..i + 1])
      == PageCardJobs(cards[..i]) + (if IsComplete(JobOfCard(cards[i])) then [JobOfCard(cards[i])] else [])
  {
    assert cards[..i + 1] == cards[..i] + [cards[i]];
    CardJobsSnoc(cards[..i], cards[i]);
    KeptJobsConcat(CardJobs(cards[..i]), [JobOfCard(cards[i])]);
  }

  /** The job the `Each` callback reads from one card. */
  method CardJob(c: RawCard) returns (job: Job)
    ensures job == JobOfCard(c)
  {
    job := Job(0, TrimSpace(c.title), TrimSpace(c.company), TrimSpace(c.companyLink),
               TrimSpace(c.location), TrimSpace(c.jobLink));
    var idText := "";
    var extracted := ExtractJobId(job.jobLink);
    if extracted.Ok? {
      idText := extracted.value;
    }
    job := job.(id := ParseInt(idText).value);
  }

  /** The `Each` callback over the cards of one page. */
  method FilterCards(cards: seq<RawCard>) returns (jobs: seq<Job>)
    ensures jobs == PageCardJobs(cards)
  {
    jobs := [];
    var i := 0;
    while i < |cards|
      invariant 0 <= i <= |cards|
      invariant jobs == PageCardJobs(cards[..i])
    {
      var job := CardJob(cards[i]);
      if IsComplete(job) {
        jobs := jobs + [job];
      }
      PageCardJobsStep(cards, i);
      i := i + 1;
    }
    assert cards[..i] == cards;
  }

  // ----- buildSearchURL ------------------------------------------------------------

  /** url.Values with one value per name. */
  type QueryValues = map<string, string>

  const SearchBaseUrl: string := "https://www.linkedin.com/jobs-guest/jobs/api/seeMoreJobPostings/search"
  const PageSize: nat := 25

  /**
   * The parameters of one result page. Keywords and location are escaped here
   * and once more when the values are encoded; the offset is 25 per page.
   */
  function SearchParams(q: SearchQuery, page: nat): QueryValues {
    var v := map["keywords" := QueryEscape(q.keywords), "location" := QueryEscape(q.location)];
    var v := if q.fwt != "" then v["f_WT" := q.fwt] else v;
    v["start" := Itoa(PageSize * page)]
  }

  /**
   * Keywords, location and start are always set, each as a query-safe or
   * decimal text; nothing else is set but the work-type filter.
   */
  lemma SearchParamsKeys(q: SearchQuery, page: nat)
    ensures var v := SearchParams(q, page);
      && v.Keys == {"keywords", "location", "start"} + (if q.fwt != "" then {"f_WT"} else {})
      && QuerySafe(v["keywords"]) && QuerySafe(v["location"]) && AllDigits(v["start"])
  {
  }

  /** The work-type filter is sent unchanged, and only when it is set. */
  lemma SearchParamsWorkType(q: SearchQuery, page: nat)
    ensures "f_WT" in SearchParams(q, page) <==> q.fwt != ""
    ensures q.fwt != "" ==> SearchParams(q, page)["f_WT"] == q.fwt
  {
  }

  /** The page is recovered from the start offset: ParseInt("start") is 25 * page. */
  lemma {:induction false} SearchParamsOffset(q: SearchQuery, page: nat)
    requires PageSize * page <= MaxInt64
    ensures ParseInt(SearchParams(q, page)["start"]) == ParsedInt(PageSize * page, true)
  {
    ParseIntOfItoa(PageSize * page);
  }

  /** Different pages are different requests. */
  lemma {:induction false} SearchParamsDistinctPages(q: SearchQuery, p1: nat, p2: nat)
    requires p1 != p2
    ensures SearchParams(q, p1) != SearchParams(q, p2)
  {
    if SearchParams(q, p1) == SearchParams(q, p2) {
      SearchParamsKeys(q, p1);
      assert Itoa(PageSize * p1) == Itoa(PageSize * p2);
      DecimalOfItoa(PageSize * p1);
      DecimalOfItoa(PageSize * p2);
    }
  }

  /** Query text made only of unreserved characters passes the first escape unchanged. */
  lemma SearchParamsPlainKeywords(q: SearchQuery, page: nat)
    ensures SearchParams(q, page)["keywords"] == q.keywords <==> AllUnreserved(q.keywords)
    ensures SearchParams(q, page)["location"] == q.location <==> AllUnreserved(q.location)
  {
    QueryEscapeIdentityIff(q.keywords);
    QueryEscapeIdentityIff(q.location);
  }

  // ----- buildJobDescriptionSearchURL ---------------------------------------------------

  const RegionalHost: string := "jp.linkedin.com"
  const MainHost: string := "linkedin.com"

  /** The detail link with every occurrence of the Japanese host replaced by the main one. */
  function DescriptionUrl(jobLink: string): (u: string)
    ensures |u| <= |jobLink|
  {
    ReplaceAllNotLonger(jobLink, RegionalHost, MainHost);
    ReplaceAll(jobLink, RegionalHost, MainHost)
  }

  /** A link is left as it is exactly when it does not mention the Japanese host. */
  lemma DescriptionUrlUnchangedIff(jobLink: string)
    ensures DescriptionUrl(jobLink) == jobLink <==> !Contains(jobLink, RegionalHost)
  {
    ReplaceAllUnchangedIff(jobLink, RegionalHost, MainHost);
  }

  /** A Japanese listing link is moved to the main host with its path kept. */
  lemma DescriptionUrlOfRegionalLink(path: string)
    requires !Contains(path, RegionalHost)
    ensures DescriptionUrl("https://" + RegionalHost + path) == "https://" + MainHost + path
  {
    var scheme := "https://";
    assert forall i :: 0 <= i < |scheme| ==> scheme[i] != RegionalHost[0];
    assert scheme + RegionalHost + path == scheme + (RegionalHost + path);
    ReplaceAllSkipsPrefix(scheme, RegionalHost + path, RegionalHost, MainHost);
    ReplaceAllAtFront(path, RegionalHost, MainHost);
    ReplaceAllNoMatch(path, RegionalHost, MainHost);
  }

  // ----- ScrapeJobsWithContext and ScrapeLinkedInJobsStreaming ----------------------------

  /** The outcome of fetching and parsing one result page. */
  datatype PageResponse = PageOk(cards: seq<RawCard>) | PageError(message: string)

  type Listing = QueryValues -> PageResponse

  /** The jobs of one page, or the error that ended its fetch. */
  function PageJobs(listing: Listing, q: SearchQuery, page: nat): (r: Result<seq<Job>, string>)
    ensures r.Ok? <==> listing(SearchParams(q, page)).PageOk?
  {
    match listing(SearchParams(q, page))
    case PageOk(cards) => Ok(PageCardJobs(cards))
    case PageError(message) => Err(message)
  }

  /** ScrapeJobsWithContext: fetch one page and filter its cards. */
  method ScrapeJobsWithContext(listing: Listing, q: SearchQuery, page: nat) returns (r: Result<seq<Job>, string>)
    ensures r == PageJobs(listing, q, page)
  {
    var params := SearchParams(q, page);
    var response := listing(params);
    if response.PageError? {
      return Err(response.message);
    }
    var jobs := FilterCards(response.cards);
    return Ok(jobs);
  }

  /** The result of every page of one query. */
  type PageResults = nat -> Result<seq<Job>, string>

  function PageResultsOf(listing: Listing, q: SearchQuery): PageResults {
    (page: nat) => PageJobs(listing, q, page)
  }

  /** How a stream ends: nil, ctx.Err(), or "error scraping page <page>: <message>". */
  datatype StreamEnd = Completed | Cancelled | PageFailed(page: nat, message: string)

  datatype StreamOutcome = StreamOutcome(emitted: seq<Job>, pagesFetched: nat, end: StreamEnd)

  /** How many of `n` sends starting at select number `poll` happen before the context is seen done. */
  function SendsBeforeCancel(n: nat, poll: nat, cancelAt: Option<nat>): (k: nat)
    ensures k <= n
    ensures k < n <==> cancelAt.Some? && poll <= cancelAt.value < poll + n
  {
    if cancelAt.Some? && poll <= cancelAt.value < poll + n then cancelAt.value - poll else n
  }

  /** `rest` continued after `emitted` jobs and `fetched` pages. */
  function Behind(emitted: seq<Job>, fetched: nat, rest: StreamOutcome): StreamOutcome {
    StreamOutcome(emitted + rest.emitted, fetched + rest.pagesFetched, rest.end)
  }

  lemma BehindNothing(emitted: seq<Job>, fetched: nat, end: StreamEnd)
    ensures Behind(emitted, fetched, StreamOutcome([], 0, end)) == StreamOutcome(emitted, fetched, end)
  {
    assert emitted + [] == emitted;
  }

  lemma BehindBehind(a: seq<Job>, m: nat, b: seq<Job>, n: nat, rest: StreamOutcome)
    ensures Behind(a, m, Behind(b, n, rest)) == Behind(a + b, m + n, rest)
  {
    assert a + (b + rest.emitted) == (a + b) + rest.emitted;
  }

  /**
   * The stream from `page` on, when the next `select` is number `poll`. Each page
   * takes one select before its fetch and one per job sent; `cancelAt` is the
   * number of the first select that takes the ctx.Done branch.
   */
  function StreamFrom(pages: PageResults, numPages: int, page: nat, poll: nat, cancelAt: Option<nat>): StreamOutcome
    decreases numPages - page
  {
    if numPages <= page then StreamOutcome([], 0, Completed)
    else if cancelAt == Some(poll) then StreamOutcome([], 0, Cancelled)
    else
      match pages(page)
      case Err(message) => StreamOutcome([], 1, PageFailed(page, message))
      case Ok(jobs) =>
        var k := SendsBeforeCancel(|jobs|, poll + 1, cancelAt);
        if k < |jobs| then StreamOutcome(jobs[..k], 1, Cancelled)
        else Behind(jobs, 1, StreamFrom(pages, numPages, page + 1, poll + 1 + |jobs|, cancelAt))
  }

  /** The stream of a whole call, from page 0 and the first select. */
  function Stream(pages: PageResults, numPages: int, cancelAt: Option<nat>): StreamOutcome {
    StreamFrom(pages, numPages, 0, 0, cancelAt)
  }

  /** Reference definition: the jobs of pages `from` up to `to`, in page order, error pages giving none. */
  function JobsOfPages(pages: PageResults, from: nat, to: nat): seq<Job>
    decreases to - from
  {
    if to <= from then []
    else
      (match pages(from) case Ok(jobs) => jobs case Err(_) => []) + JobsOfPages(pages, from + 1, to)
  }

  /** The jobs of fewer pages are a prefix of the jobs of more pages. */
  lemma {:induction false} JobsOfPagesPrefix(pages: PageResults, from: nat, mid: nat, to: nat)
    requires mid <= to
    ensures JobsOfPages(pages, from, mid) <= JobsOfPages(pages, from, to)
    decreases mid as int - from as int
  {
    if from < mid {
      JobsOfPagesPrefix(pages, from + 1, mid, to);
    }
  }

  function PagesFrom(numPages: int, page: nat): nat {
    if numPages <= page then 0 else numPages - page
  }

  /**
   * Whatever happens, the stream fetches at most the pages it was asked for, in
   * order, and what it emitted is a prefix of the jobs of the pages it fetched;
   * it completes only with every page fetched.
   */
  lemma {:induction false} StreamFromPrefix(pages: PageResults, numPages: int, page: nat, poll: nat, cancelAt: Option<nat>)
    ensures var out := StreamFrom(pages, numPages, page, poll, cancelAt);
      && out.pagesFetched <= PagesFrom(numPages, page)
      && out.emitted <= JobsOfPages(pages, page, page + out.pagesFetched)
      && (out.end.Completed? ==>
            out.pagesFetched == PagesFrom(numPages, page)
            && out.emitted == JobsOfPages(pages, page, page + out.pagesFetched))
      && (out.end.PageFailed? ==>
            out.end.page == page + out.pagesFetched - 1
            && pages(out.end.page) == Err(out.end.message))
    decreases numPages - page
  {
    var out := StreamFrom(pages, numPages, page, poll, cancelAt);
    if numPages <= page || cancelAt == Some(poll) {
    } else {
      match pages(page)
      case Err(message) =>
        assert JobsOfPages(pages, page + 1, page + 1) == [];
      case Ok(jobs) =>
        var k := SendsBeforeCancel(|jobs|, poll + 1, cancelAt);
        assert JobsOfPages(pages, page, page + 1) == jobs + JobsOfPages(pages, page + 1, page + 1);
        if k == |jobs| {
          var rest := StreamFrom(pages, numPages, page + 1, poll + 1 + |jobs|, cancelAt);
          StreamFromPrefix(pages, numPages, page + 1, poll + 1 + |jobs|, cancelAt);
          assert JobsOfPages(pages, page, page + 1 + rest.pagesFetched)
              == jobs + JobsOfPages(pages, page + 1, page + 1 + rest.pagesFetched);
        }
    }
  }

  /** What a stream emits is a prefix of the jobs of all the pages it was asked for. */
  lemma StreamEmitsPrefix(pages: PageResults, numPages: nat, cancelAt: Option<nat>)
    ensures Stream(pages, numPages, cancelAt).emitted <= JobsOfPages(pages, 0, numPages)
  {
    var out := Stream(pages, numPages, cancelAt);
    StreamFromPrefix(pages, numPages, 0, 0, cancelAt);
    assert out.emitted <= JobsOfPages(pages, 0, out.pagesFetched);
    JobsOfPagesPrefix(pages, 0, out.pagesFetched, numPages);
  }

  /** Without cancellation and with every page answering, all pages' jobs are emitted in order. */
  lemma {:induction false} StreamFromComplete(pages: PageResults, numPages: int, page: nat, poll: nat)
    requires forall p: nat :: page <= p < numPages ==> pages(p).Ok?
    ensures StreamFrom(pages, numPages, page, poll, None)
      == StreamOutcome(JobsOfPages(pages, page, page + PagesFrom(numPages, page)), PagesFrom(numPages, page), Completed)
    decreases numPages - page
  {
    if page < numPages {
      var jobs := pages(page).value;
      StreamFromComplete(pages, numPages, page + 1, poll + 1 + |jobs|);
    }
  }

  /**
   * Without cancellation, the first page that fails stops the stream: that page is
   * the last one fetched, its error is returned, and every earlier page's jobs
   * stay emitted.
   */
  lemma {:induction false} StreamFromFirstFailure(pages: PageResults, numPages: int, page: nat, poll: nat, failed: nat)
    requires page <= failed < numPages
    requires pages(failed).Err?
    requires forall p: nat :: page <= p < failed ==> pages(p).Ok?
    ensures StreamFrom(pages, numPages, page, poll, None)
      == StreamOutcome(JobsOfPages(pages, page, failed), failed - page + 1,
                       PageFailed(failed, pages(failed).error))
    decreases failed - page
  {
    if page < failed {
      var jobs := pages(page).value;
      StreamFromFirstFailure(pages, numPages, page + 1, poll + 1 + |jobs|, failed);
    }
  }

  /** Past the last page the stream is over. */
  lemma StreamFromPastEnd(pages: PageResults, numPages: int, page: nat, poll: nat, cancelAt: Option<nat>)
    requires numPages <= page
    ensures StreamFrom(pages, numPages, page, poll, cancelAt) == StreamOutcome([], 0, Completed)
  {
  }

  /** A context seen done before a page's fetch ends the stream with nothing more. */
  lemma StreamFromCancelledBeforePage(pages: PageResults, numPages: int, page: nat, poll: nat, cancelAt: Option<nat>)
    requires page < numPages && cancelAt == Some(poll)
    ensures StreamFrom(pages, numPages, page, poll, cancelAt) == StreamOutcome([], 0, Cancelled)
  {
  }

  /** A page whose fetch fails ends the stream with that page's error. */
  lemma StreamFromFailedPage(pages: PageResults, numPages: int, page: nat, poll: nat, cancelAt: Option<nat>)
    requires page < numPages && cancelAt != Some(poll) && pages(page).Err?
    ensures StreamFrom(pages, numPages, page, poll, cancelAt) == StreamOutcome([], 1, PageFailed(page, pages(page).error))
  {
  }

  /** A page fully sent hands over to the next page, past its selects. */
  lemma StreamFromNextPage(pages: PageResults, numPages: int, page: nat, poll: nat, cancelAt: Option<nat>, jobs: seq<Job>)
    requires page < numPages && cancelAt != Some(poll) && pages(page) == Ok(jobs)
    requires SendsBeforeCancel(|jobs|, poll + 1, cancelAt) == |jobs|
    ensures StreamFrom(pages, numPages, page, poll, cancelAt)
      == Behind(jobs, 1, StreamFrom(pages, numPages, page + 1, poll + 1 + |jobs|, cancelAt))
  {
  }

  /** A cancellation seen while sending a page's jobs ends the stream after the jobs already sent. */
  lemma StreamFromCancelledInPage(pages: PageResults, numPages: int, page: nat, poll: nat, cancelAt: Option<nat>, jobs: seq<Job>)
    requires page < numPages && cancelAt != Some(poll) && pages(page) == Ok(jobs)
    requires SendsBeforeCancel(|jobs|, poll + 1, cancelAt) < |jobs|
    ensures StreamFrom(pages, numPages, page, poll, cancelAt)
      == StreamOutcome(jobs[..SendsBeforeCancel(|jobs|, poll + 1, cancelAt)], 1, Cancelled)
  {
  }

  /**
   * The inner loop over one page's jobs: each send is a select that may find the
   * context done instead. `channel` is what was sent so far.
   */
  method SendJobs(channel: seq<Job>, jobs: seq<Job>, poll: nat, cancelAt: Option<nat>)
    returns (sent: seq<Job>, delivered: nat)
    ensures delivered == SendsBeforeCancel(|jobs|, poll, cancelAt)
    ensures sent == channel + jobs[..delivered]
    ensures delivered == |jobs| ==> sent == channel + jobs
  {
    sent := channel;
    delivered := 0;
    while delivered < |jobs|
      invariant delivered <= |jobs|
      invariant sent == channel + jobs[..delivered]
      invariant cancelAt.None? || !(poll <= cancelAt.value < poll + delivered)
    {
      if cancelAt == Some(poll + delivered) {
        return;
      }
      sent := sent + [jobs[delivered]];
      assert jobs[..delivered + 1] == jobs[..delivered] + [jobs[delivered]];
      delivered := delivered + 1;
    }
    assert jobs[..delivered] == jobs;
  }

  /**
   * The loop of ScrapeLinkedInJobsStreaming over the pages, given the scrape of
   * each page as `pages` (a method cannot be passed as a value in Dafny).
   */
  method StreamPages(pages: PageResults, numPages: int, cancelAt: Option<nat>) returns (out: StreamOutcome)
    ensures out == Stream(pages, numPages, cancelAt)
  {
    var sent: seq<Job> := [];
    var page: nat := 0;
    var poll: nat := 0;
    while page < numPages
      invariant Stream(pages, numPages, cancelAt) == Behind(sent, page, StreamFrom(pages, numPages, page, poll, cancelAt))
      decreases numPages - page
    {
      if cancelAt == Some(poll) {
        StreamFromCancelledBeforePage(pages, numPages, page, poll, cancelAt);
        BehindNothing(sent, page, Cancelled);
        return StreamOutcome(sent, page, Cancelled);
      }
      var result := pages(page);
      if result.Err? {
        StreamFromFailedPage(pages, numPages, page, poll, cancelAt);
        BehindNothing(sent, page + 1, PageFailed(page, result.error));
        return StreamOutcome(sent, page + 1, PageFailed(page, result.error));
      }
      var jobs := result.value;
      var delivered;
      ghost var before := sent;
      sent, delivered := SendJobs(sent, jobs, poll + 1, cancelAt);
      if delivered < |jobs| {
        StreamFromCancelledInPage(pages, numPages, page, poll, cancelAt, jobs);
        return StreamOutcome(sent, page + 1, Cancelled);
      }
      StreamFromNextPage(pages, numPages, page, poll, cancelAt, jobs);
      BehindBehind(before, page, jobs, 1, StreamFrom(pages, numPages, page + 1, poll + 1 + |jobs|, cancelAt));
      poll := poll + 1 + |jobs|;
      page := page + 1;
    }
    StreamFromPastEnd(pages, numPages, page, poll, cancelAt);
    BehindNothing(sent, page, Completed);
    return StreamOutcome(sent, page, Completed);
  }

  /**
   * ScrapeLinkedInJobsStreaming: pages 0 to numPages - 1 in order, each scraped
   * by ScrapeJobsWithContext with the query's parameters and its jobs sent as
   * soon as the page is parsed.
   */
  method ScrapeLinkedInJobsStreaming(listing: Listing, numPages: int, q: SearchQuery, cancelAt: Option<nat>)
    returns (out: StreamOutcome)
    ensures out == Stream(PageResultsOf(listing, q), numPages, cancelAt)
  {
    out := StreamPages(PageResultsOf(listing, q), numPages, cancelAt);
  }
}
