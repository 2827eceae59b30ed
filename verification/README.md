# jobs-scraper core, modelled in Dafny

jobs-scraper collects job listings from LinkedIn's public guest search and
stores them in PostgreSQL. `GetJobs` scrapes ten result pages of one fixed
search ("Frontend Developer", "Japan", work types "2,3"). Each listing card
becomes a `Job` whose ID is the trailing digits of its link. The jobs are
streamed into a channel. `GetJobDescription` hands each job to a pool of
workers. A worker fetches the job's detail page and turns its description
markup into text with light Markdown. It also reads the criteria list and
sends the job with its description. Jobs whose detail scrape fails are
dropped. `ProcessJobsStreaming` collects everything the workers send. It then
saves the jobs with one multi-row upsert, after collapsing duplicates by ID.
Only if that succeeds does it save the descriptions with a second upsert.
Every HTTP request goes through `RetryableHTTPRequest`. That function retries
transport errors and HTTP 429 after a fixed two-second wait, and gives up on
any other non-2xx status.

The model has one module per source file:

- `PipelineScraper` (scraper.dfy): the scraper's defaults, job-ID
  extraction, the card filter, the search parameters, the detail-link
  rewrite, and the page-streaming loop.
- `PipelineDescription` (description.dfy): `parseHTMLContent`,
  `parseJobDescription` and `ScrapeJobDescriptionWithContext`.
- `RetryableHttp` (retry.dfy): the attempt loop and its request headers.
- `PipelineStages` (stages.dfy): `GetJobs` and `GetJobDescription` from
  test.go.
- `PipelineOrchestrator` (orchestrator.dfy): `ProcessJobsStreaming` and
  `jobDescriptionWorker`.
- `RepoJob` (repo_job.dfy) and `RepoJobDescription`
  (repo_job_description.dfy): the two repositories.

Three shared modules support them:

- `Models` holds the records.
- `GoStrings` holds the Go library functions the scraper relies on:
  `strings.TrimSpace`, `strings.ReplaceAll`, `strconv.Itoa`/`ParseInt`,
  `path.Base`, the path `url.Parse` extracts, `url.QueryEscape`, and the
  `(\d+)$` regular expression.
- `SqlPlaceholders` builds the numbered `VALUES` rows.

External effects become function-valued parameters:

- the network: `listing` (query values → cards or error),
  `site` (URL → detail document or error), and `attemptAt` (attempt index →
  response);
- the database: `db` (Exec call → error) and `query` (job ID → row);
- `encoding/json`: `marshal` and `unmarshal`.

A channel is the sequence of values sent on it. A context is the index of the
first check that finds it done, for example `cancelAt`, `cancelledAtWait` or
`interrupt`. Loops that update state are methods with loop invariants.
Most methods are proved equal to a specification function, and the
properties are lemmas about those functions. A few state their outcome
directly: `NewScraper`, `RetryableHttpRequest`, `CollectResults`,
`SaveJobs`, `SaveJobDescriptions` and `JobDescriptionWorker`. `SaveItems` and
`ProcessJobsStreaming` are proved against `Persist` for some order of the
unique jobs, because Go leaves the map's iteration order open. Each scrape of
a detail page is its own request, so its outcome is given per channel
position. Two copies of one listing can therefore be described differently.

Where the documentation and the code disagree, the model follows the code:

- Retries use a fixed two-second delay, and only transport errors and 429
  are retried. The configured `BaseDelay`/`MaxDelay` are never used, and 5xx
  responses are not retried.
- A card whose link yields no job ID is kept with ID 0. It is not dropped.
  An ID too large for int64 becomes `MaxInt64`, as `strconv.ParseInt` does.
- `ProcessJobsStreaming` ignores its `numPages` and `params` arguments.
  `GetJobs` always runs its own ten-page fixed search.
- A `br` element writes nothing, because its trimmed text is empty and the
  walk returns before the `br` case.

## Model

| member | source | states |
|---|---|---|
| PipelineScraper.NewScraper | internal/pipeline/scraper.go:32-59 | each zero-valued config field (empty timespan, zero retries, zero delays, zero timeout) is replaced by its default ("r604800", 3, 1s, 30s, 30s); every other field keeps the caller's value |
| PipelineScraper.ExtractJobId | internal/pipeline/scraper.go:314-333 | definition of extractJobIDFromURL: url.Parse's path, path.Base of it, then the `(\\d+)$` match; "invalid URL" or "not found" otherwise; its properties are the three lemmas below |
| PipelineScraper.ExtractJobIdIsTrailingDigits | internal/pipeline/scraper.go:314-333 | the ID is a non-empty run of digits that ends the last path segment and is not preceded by another digit; "invalid URL" exactly when the link does not parse; "not found" exactly when the segment does not end in a digit |
| PipelineScraper.ExtractJobIdOfPath | internal/pipeline/scraper.go:320-332 | a path ending in "/slug<digits>", with no digit at the end of the slug, yields exactly those digits |
| PipelineScraper.ListingLinkPath | internal/pipeline/scraper.go:315-321 | the path url.Parse extracts from "https://host/dir/slug<digits>?query" is "/dir/slug<digits>" |
| PipelineScraper.ExtractJobIdOfListingLink | internal/pipeline/scraper.go:314-333 | a listing link of the usual shape yields the digits at the end of its slug, whatever query follows |
| PipelineScraper.JobOfCard | internal/pipeline/scraper.go:111-127 | definition of one card's job: trimmed fields, and the ID through extractJobIDFromURL and ParseInt; stated by JobOfCardFields |
| PipelineScraper.CardJobs | internal/pipeline/scraper.go:110-128 | definition: one job per card, in order; stated by CardJobsAt |
| PipelineScraper.KeptJobs | internal/pipeline/scraper.go:129-131 | never more jobs than it was given; membership is stated by KeptJobsMembers |
| PipelineScraper.PageCardJobs | internal/pipeline/scraper.go:110-132 | definition of a page's job list: the complete jobs of its cards; stated by PageCardJobsMembers |
| PipelineScraper.JobOfCardFields | internal/pipeline/scraper.go:111-127 | each text field of the card is trimmed; the ID is 0 when extraction fails, the decimal value of the digits when it fits in int64, and MaxInt64 when it does not |
| PipelineScraper.CardJobsAt | internal/pipeline/scraper.go:110-128 | one job per card, in document order |
| PipelineScraper.KeptJobsConcat | internal/pipeline/scraper.go:129-131 | the completeness filter works card by card, so filtering a concatenation concatenates the results |
| PipelineScraper.KeptJobsMembers | internal/pipeline/scraper.go:129-131 | a job is kept exactly when its title, company, location and link are all non-empty |
| PipelineScraper.PageCardJobsMembers | internal/pipeline/scraper.go:110-132 | a page's jobs are exactly the complete jobs built from its cards |
| PipelineScraper.CardWithoutIdKept | internal/pipeline/scraper.go:118-130 | a complete card whose link has no job ID is still kept, with ID 0 |
| PipelineScraper.CardJob | internal/pipeline/scraper.go:111-127 | builds exactly the job JobOfCardFields describes |
| PipelineScraper.FilterCards | internal/pipeline/scraper.go:110-132 | the loop appends exactly the page's complete jobs, in card order |
| PipelineScraper.SearchParams | internal/pipeline/scraper.go:169-188 | definition of buildSearchURL's values: escaped keywords and location, f_WT when set, start = 25 × page; stated by the four lemmas below |
| PipelineScraper.SearchParamsKeys | internal/pipeline/scraper.go:169-188 | keywords, location and start are always set, and f_WT only when a work type is given; the first two are query-safe and start is decimal |
| PipelineScraper.SearchParamsWorkType | internal/pipeline/scraper.go:181-183 | f_WT is set exactly when the query has a work type, and then to that value |
| PipelineScraper.SearchParamsOffset | internal/pipeline/scraper.go:186 | start parses back to 25 × page |
| PipelineScraper.SearchParamsDistinctPages | internal/pipeline/scraper.go:186 | different pages ask for different parameters |
| PipelineScraper.SearchParamsPlainKeywords | internal/pipeline/scraper.go:174-175 | keywords and location are sent unchanged exactly when they contain only unreserved characters |
| PipelineScraper.DescriptionUrl | internal/pipeline/scraper.go:191-194 | the rewritten link is never longer than the original |
| PipelineScraper.DescriptionUrlUnchangedIff | internal/pipeline/scraper.go:193 | the link is unchanged exactly when it does not mention jp.linkedin.com |
| PipelineScraper.DescriptionUrlOfRegionalLink | internal/pipeline/scraper.go:193 | a jp.linkedin.com link is moved to linkedin.com with the same path |
| PipelineScraper.PageJobs | internal/pipeline/scraper.go:87-108 | a page yields jobs exactly when its fetch and parse succeed |
| PipelineScraper.ScrapeJobsWithContext | internal/pipeline/scraper.go:87-135 | returns the page's filtered jobs, or the fetch's error |
| PipelineScraper.SendsBeforeCancel | internal/pipeline/scraper.go:75-81 | fewer than all jobs go out exactly when the context is found done at one of this page's sends |
| PipelineScraper.JobsOfPagesPrefix | internal/pipeline/scraper.go:64-83 | the jobs of the first pages are a prefix of the jobs of more pages |
| PipelineScraper.StreamFrom | internal/pipeline/scraper.go:62-85 | definition of the page loop from a given page and poll index: the jobs sent, the pages fetched and how it ends; stated by the StreamFrom lemmas |
| PipelineScraper.Stream | internal/pipeline/scraper.go:62-85 | the page loop from page 0; stated by StreamEmitsPrefix and, through GetJobs, GetJobsWithoutCancel |
| PipelineScraper.StreamFromPrefix | internal/pipeline/scraper.go:62-85 | the stream sends a prefix of the fetched pages' jobs, in page order; on completion it sends all pages' jobs; a page error ends it at the page that failed |
| PipelineScraper.StreamEmitsPrefix | internal/pipeline/scraper.go:62-85 | whatever the cancellation, the channel receives a prefix of all pages' jobs in order |
| PipelineScraper.StreamFromComplete | internal/pipeline/scraper.go:64-84 | with no cancellation and no page error, every page's jobs are sent and the stream returns nil |
| PipelineScraper.StreamFromFirstFailure | internal/pipeline/scraper.go:69-72 | with no cancellation, the first failing page ends the stream after the jobs of the pages before it, and it reports that page's error |
| PipelineScraper.StreamFromPastEnd | internal/pipeline/scraper.go:64 | no page is fetched when there are no pages left |
| PipelineScraper.StreamFromCancelledBeforePage | internal/pipeline/scraper.go:65-67 | a context found done before a page stops the stream before that page is fetched |
| PipelineScraper.StreamFromFailedPage | internal/pipeline/scraper.go:69-72 | a page error ends the stream with nothing more sent |
| PipelineScraper.StreamFromNextPage | internal/pipeline/scraper.go:74-83 | a fully sent page is followed by the stream of the next page |
| PipelineScraper.StreamFromCancelledInPage | internal/pipeline/scraper.go:75-79 | a context found done during a page's sends ends the stream after the jobs already sent |
| PipelineScraper.SendJobs | internal/pipeline/scraper.go:75-81 | the send loop appends the page's jobs up to the first send that finds the context done |
| PipelineScraper.StreamPages | internal/pipeline/scraper.go:62-85 | the page loop produces exactly the specified stream: jobs sent, pages fetched and how it ended |
| PipelineScraper.ScrapeLinkedInJobsStreaming | internal/pipeline/scraper.go:62-85 | the stream over the query's pages |
| PipelineDescription.RenderNode | internal/pipeline/scraper.go:247-309 | definition of the Each callback on one child node; stated per tag by the RenderNodeOf… lemmas and RenderNodeEmptyIff |
| PipelineDescription.RenderSeq | internal/pipeline/scraper.go:243-312 | definition of parseHTMLContent's result: the renderings of the children, concatenated; stated by RenderSeqConcat and RenderSeqEmptyIff |
| PipelineDescription.ListItemsIn | internal/pipeline/scraper.go:284 | definition of Find("li"): every li below the list, in document order, nested ones included |
| PipelineDescription.Bullets | internal/pipeline/scraper.go:284-291 | definition of the bullet lines of a list's items; stated by WriteBullets and RenderNodeOfList |
| PipelineDescription.InnerTextSeqConcat | internal/pipeline/scraper.go:250-257 | the text of consecutive nodes is the concatenation of their texts |
| PipelineDescription.RenderSeqConcat | internal/pipeline/scraper.go:247-309 | the walk renders consecutive nodes independently and concatenates the results |
| PipelineDescription.RenderNodeEmptyIff | internal/pipeline/scraper.go:248-261 | a node writes nothing exactly when its text is blank |
| PipelineDescription.RenderSeqEmptyIff | internal/pipeline/scraper.go:247-309 | the walk writes nothing exactly when the whole text is blank |
| PipelineDescription.BrWritesNothing | internal/pipeline/scraper.go:257-261 | a br element writes nothing, because its blank text returns before the br case is reached |
| PipelineDescription.BareBrWritesNothing | internal/pipeline/scraper.go:293-294 | an empty br writes nothing, not a newline |
| PipelineDescription.RenderNodeOfLeaf | internal/pipeline/scraper.go:257-306 | p and headings write the trimmed text plus a blank line, strong/b wrap it in "**", em/i in "*", li writes a bullet line, and a tag without a case of its own writes the text plus a space; blank text writes nothing |
| PipelineDescription.RenderNodeOfTextContainer | internal/pipeline/scraper.go:295-302 | a div or span without element children writes its trimmed text plus a space |
| PipelineDescription.RenderNodeOfNestedContainer | internal/pipeline/scraper.go:295-299 | a div or span with element children is rendered by walking its children |
| PipelineDescription.RenderNodeOfList | internal/pipeline/scraper.go:282-292 | a list writes one bullet line per non-blank li below it (nested ones included), then a newline |
| PipelineDescription.ListWithoutItemsWritesNewline | internal/pipeline/scraper.go:282-292 | a non-blank list with no li writes only "\n", which trims to nothing |
| PipelineDescription.ParseHtmlContent | internal/pipeline/scraper.go:243-312 | the builder loop writes exactly the rendering of the nodes |
| PipelineDescription.RenderContentNode | internal/pipeline/scraper.go:247-309 | writes exactly the rendering of one node |
| PipelineDescription.WriteBullets | internal/pipeline/scraper.go:284-291 | writes one "• text\n" line per non-blank list item |
| PipelineDescription.CriteriaOf | internal/pipeline/scraper.go:219-229 | definition of the criteria map built item by item; stated by CriteriaOfKeys, CriteriaOfLastWins and CriteriaOfNonBlank |
| PipelineDescription.CriteriaOfKeys | internal/pipeline/scraper.go:219-229 | a header is in the criteria map exactly when some item has that trimmed header and both its header and value are non-blank |
| PipelineDescription.CriteriaOfLastWins | internal/pipeline/scraper.go:226-228 | when headers repeat, the last kept item's trimmed value wins |
| PipelineDescription.CriteriaOfNonBlank | internal/pipeline/scraper.go:226 | no key and no value of the criteria map is empty |
| PipelineDescription.FillCriteria | internal/pipeline/scraper.go:216-230 | the criteria loop builds exactly the specified map |
| PipelineDescription.ParseDetail | internal/pipeline/scraper.go:196-240 | definition of parseJobDescription over the selected sections; stated by ParseDetailFound |
| PipelineDescription.ParseDetailFound | internal/pipeline/scraper.go:196-240 | the error is nil exactly when the trimmed rendering of the markup is non-empty, and the description is then that rendering; otherwise the error is "job description not found" with an empty description (blank markup always gives it, and so does a list without li); the criteria are returned in both cases |
| PipelineDescription.ParseJobDescription | internal/pipeline/scraper.go:196-240 | computes exactly the specified description, criteria and error |
| PipelineDescription.DescriptionOf | internal/pipeline/scraper.go:137-167 | definition of one detail scrape's outcome; stated by DescriptionOfOutcome |
| PipelineDescription.DescriptionOfOutcome | internal/pipeline/scraper.go:137-167 | a fetch or parse failure gives an empty description, an empty criteria map and the failure's error (for a parse failure, exactly the error parseJobDescription returned); the error is nil exactly when the detail page yields a description, which is then trimmed |
| PipelineDescription.ScrapeJobDescriptionWithContext | internal/pipeline/scraper.go:137-167 | fetches the rewritten link and returns the specified outcome |
| RetryableHttp.CanonicalHeaderKey | internal/utils/retryable-http-request.go:44-46 | definition of textproto's canonical header key: keys with a non-token character are left alone, others get an upper-case first letter and after each '-', lower case elsewhere |
| RetryableHttp.RequestHeaders | internal/utils/retryable-http-request.go:44-47 | definition of the header map after the Set calls; stated by the three RequestHeaders lemmas |
| RetryableHttp.FoldCaseIdempotent | internal/utils/retryable-http-request.go:46 | folding a header key's case twice is the same as once |
| RetryableHttp.FoldCaseKeepsTokens | internal/utils/retryable-http-request.go:46 | case folding keeps a token a token |
| RetryableHttp.CanonicalHeaderKeyIdempotent | internal/utils/retryable-http-request.go:44-46 | the canonical form of a header key is stable |
| RetryableHttp.RequestHeadersKeys | internal/utils/retryable-http-request.go:44-47 | the request carries User-Agent and exactly the canonical keys of the caller's headers |
| RetryableHttp.RequestHeadersLastWins | internal/utils/retryable-http-request.go:45-47 | the last caller header with a given key decides its value |
| RetryableHttp.RequestHeadersDefaultAgent | internal/utils/retryable-http-request.go:44 | without a caller User-Agent, the fixed browser User-Agent is sent |
| RetryableHttp.SetRequestHeaders | internal/utils/retryable-http-request.go:44-47 | the header loop builds exactly the specified header map |
| RetryableHttp.RetryableHttpRequest | internal/utils/retryable-http-request.go:33-83 | at most MaxRetries+1 attempts, each with the same headers; every wait is 2s; only transport errors and 429 are retried; 2xx succeeds and any other status is terminal; a cancelled wait ends the call; exhaustion keeps the last error; an invalid request makes no attempt |
| GoStrings.TrimSpace | internal/pipeline/scraper.go:113-117 | the result is empty exactly when the input is all white space, and otherwise neither starts nor ends with white space |
| GoStrings.TrimSpaceIsInfix | internal/pipeline/scraper.go:113-117 | trimming removes only white space, and only from the two ends |
| GoStrings.ReplaceAll | internal/pipeline/scraper.go:193 | definition of strings.ReplaceAll for a non-empty pattern, left to right without overlaps; stated by ReplaceAllUnchangedIff and the DescriptionUrl lemmas |
| GoStrings.UrlPath | internal/pipeline/scraper.go:315 | definition of the Path url.Parse extracts, or its error; stated by UrlPathOfAbsolute and ListingLinkPath |
| GoStrings.PathBase | internal/pipeline/scraper.go:321 | path.Base is never empty; a path ending in "/segment" gives that segment (PathBaseOfSegment) |
| GoStrings.PathBaseOfSegment | internal/pipeline/scraper.go:321 | the last segment of "dir/segment" is the segment |
| GoStrings.TrailingDigits | internal/pipeline/scraper.go:325-332 | definition of the `(\\d+)$` match; stated by TrailingDigitsIsLongestSuffix |
| GoStrings.TrailingDigitsIsLongestSuffix | internal/pipeline/scraper.go:325-332 | the match is the longest all-digit suffix |
| GoStrings.QueryEscape | internal/pipeline/scraper.go:174-175 | the escaped value holds only query-safe characters |
| GoStrings.Itoa | internal/pipeline/scraper.go:186 | a non-empty decimal text without a leading zero; DecimalOfItoa and ItoaOfDecimal make it the inverse of the decimal value |
| GoStrings.DecimalOfItoa | internal/pipeline/scraper.go:186 | the decimal value of Itoa(n) is n |
| GoStrings.TrimSpaceIdempotent | internal/pipeline/scraper.go:233 | trimming the already-trimmed description again changes nothing |
| GoStrings.ParseIntOfItoa | internal/pipeline/scraper.go:122 | a decimal ID that fits in int64 parses back to its value |
| GoStrings.ParseInt | internal/pipeline/scraper.go:122 | an empty or non-decimal ID gives 0 with an error, and an overflowing one gives MaxInt64 with an error |
| GoStrings.QueryEscapeIdentityIff | internal/pipeline/scraper.go:174-175 | escaping leaves a value unchanged exactly when it holds only unreserved characters |
| GoStrings.ReplaceAllUnchangedIff | internal/pipeline/scraper.go:193 | a replacement by a shorter text leaves the string unchanged exactly when the pattern does not occur |
| PipelineStages.GetJobs | internal/pipeline/test.go:11-26 | the channel receives the ten-page stream of the fixed search, whatever the caller asked for |
| PipelineStages.GetJobsPrefix | internal/pipeline/test.go:11-26 | GetJobs' channel holds a prefix of the ten pages' jobs, in order |
| PipelineStages.GetJobsWithoutCancel | internal/pipeline/test.go:16-23 | with no cancellation, all ten pages' jobs are sent when every page succeeds; otherwise exactly the jobs before the first failing page are sent |
| PipelineStages.JobsScraped | internal/pipeline/test.go:39-44 | definition of how many jobs the workers take before the context is found done |
| PipelineStages.DescribeJob | internal/pipeline/test.go:46-57 | definition of what is sent for the job at one channel position; stated by DescribeJobItem |
| PipelineStages.DescribedJobs | internal/pipeline/test.go:39-58 | definition of the items sent for the jobs taken, in channel order; stated by DescribedJobsExact, DescribedJobsAllSucceed and DescribedJobsMembers |
| PipelineStages.DescribedJobsMembers | internal/pipeline/test.go:39-58 | never more items than jobs taken; an item is sent exactly when the scrape at some channel position succeeded and gave it |
| PipelineStages.SucceededPositions | internal/pipeline/test.go:39-58 | the channel positions whose scrape succeeds, each below the number of jobs taken |
| PipelineStages.SucceededPositionsExact | internal/pipeline/test.go:39-58 | the succeeding positions are listed once each, in increasing order, and a position is listed exactly when its scrape succeeds |
| PipelineStages.DescribedJobsExact | internal/pipeline/test.go:39-58 | each job is taken once: the k-th item sent is the item of the k-th succeeding position, and there are as many items as succeeding positions |
| PipelineStages.DescribedJobsAllSucceed | internal/pipeline/test.go:39-58 | when every scrape succeeds, the output has one item per job taken, the i-th item being job i's |
| PipelineStages.DescribeJobItem | internal/pipeline/test.go:47-57 | a job whose scrape at its position fails is dropped; otherwise its item carries the job, its ID as JobID, and the scraped non-blank description and criteria |
| PipelineStages.DescribeJobs | internal/pipeline/test.go:39-58 | the worker loop sends the items for the jobs taken before the context is found done, in channel order |
| PipelineStages.GetJobDescription | internal/pipeline/test.go:28-70 | the output channel carries the described items of the input jobs up to cancellation |
| SqlPlaceholders.ValuesListSnoc | internal/repo/job.go:41-48 | each further row is appended after a ",", the first without one |
| SqlPlaceholders.AllNumbersConsecutive | internal/repo/job.go:41-48 | across k rows of width w, the placeholders are $1 … $k·w, each exactly once and in order |
| SqlPlaceholders.PlaceholderInjective | internal/repo/job.go:48 | different numbers give different placeholders |
| RepoJob.JobMap | internal/repo/job.go:24-27 | definition of jobMap after the loop; stated by JobMapKeys and JobMapLastWins |
| RepoJob.IdsSnoc | internal/repo/job.go:25-27 | adding a job adds its ID to the set of IDs |
| RepoJob.JobMapKeys | internal/repo/job.go:24-27 | the map holds exactly the batch's IDs, each under the job with that ID |
| RepoJob.JobMapLastWins | internal/repo/job.go:25-27 | the last job of the batch with a given ID is the one kept |
| RepoJob.UniqueJobsCount | internal/repo/job.go:29-32 | there is one unique job per distinct ID |
| RepoJob.UniqueJobsOrderIrrelevant | internal/repo/job.go:29-32 | whatever order the map's iteration takes, the same jobs are inserted |
| RepoJob.UniqueJobsAreLastOccurrences | internal/repo/job.go:23-32 | the inserted jobs cover every ID of the batch, and each is the batch's last job with its ID |
| RepoJob.ConflictUpdatesColumns | internal/repo/job.go:53-60 | on conflict, each non-key column is overwritten from the incoming row |
| RepoJob.InsertStatement | internal/repo/job.go:34-60 | definition of the statement text for k jobs; its conflict clause is stated by ConflictUpdatesColumns and its placeholders by PlaceholdersMatchArgs |
| RepoJob.JobArgs | internal/repo/job.go:50 | definition of vals; stated by JobArgsAt |
| RepoJob.JobArgsSnoc | internal/repo/job.go:50 | each job appends its ID, title, company, company link, location and link, in that order |
| RepoJob.JobArgsAt | internal/repo/job.go:50 | argument 6i+j is column j of unique job i |
| RepoJob.PlaceholdersMatchArgs | internal/repo/job.go:41-51 | there are as many placeholders as arguments, and placeholder p is $(p+1) |
| RepoJob.FillJobMap | internal/repo/job.go:24-27 | the map loop builds exactly the specified map |
| RepoJob.CollectUniqueJobs | internal/repo/job.go:29-32 | the map iteration yields each stored job once, in an unspecified order |
| RepoJob.BuildInsert | internal/repo/job.go:34-60 | the statement is the insert head, one placeholder row per job and the conflict clause; the arguments are the jobs' columns |
| RepoJob.SaveJobs | internal/repo/job.go:18-68 | an empty batch issues nothing and succeeds; otherwise exactly one Exec with the de-duplicated jobs, whose error is wrapped as "error inserting jobs: …" |
| RepoJobDescription.ConflictReplacesDescription | internal/repo/job-description.go:46-53 | on conflict, the description and criteria are replaced and updated_at is reset |
| RepoJobDescription.MarshalAll | internal/repo/job-description.go:35-44 | when every record marshals, there is one JSON text per record |
| RepoJobDescription.MarshalError | internal/repo/job-description.go:37-40 | definition of the marshal error text, with the job ID written by %d |
| RepoJobDescription.MarshalAllOutcome | internal/repo/job-description.go:35-44 | marshalling succeeds exactly when every record's criteria marshal, giving their JSON in record order; otherwise the first failure is reported with its job ID |
| RepoJobDescription.MarshalAllStops | internal/repo/job-description.go:37-40 | the first record that fails to marshal decides the error |
| RepoJobDescription.DescriptionArgs | internal/repo/job-description.go:43 | definition of valueArgs; stated by DescriptionArgsAt |
| RepoJobDescription.DescriptionArgsAt | internal/repo/job-description.go:43 | arguments 3i, 3i+1 and 3i+2 are record i's job ID, description and criteria JSON |
| RepoJobDescription.PlaceholdersMatchArgs | internal/repo/job-description.go:42-43 | there are as many placeholders as arguments, and placeholder p is $(p+1) |
| RepoJobDescription.SaveJobDescriptions | internal/repo/job-description.go:27-61 | an empty batch issues nothing; a marshal failure returns its error before any Exec; otherwise one Exec with every record, whose error is wrapped as "error saving job descriptions: …" |
| RepoJobDescription.GetJobDescriptionByJobId | internal/repo/job-description.go:63-87 | no row gives an empty result and no error; a query failure gives "error fetching job description: …" and an undecodable JSON column "error unmarshaling job criteria: …", each with an empty description and nil criteria; otherwise a stored row gives its description, nil criteria for a NULL column, and the decoded criteria for a non-null one |
| RepoJobDescription.SavedDescriptionReadsBack | internal/repo/job-description.go:27-87 | a description stored with marshalled criteria reads back unchanged when the JSON round-trips |
| PipelineOrchestrator.CollectResults | internal/pipeline/job_pipeline.go:51-57 | the receive loop splits each item into its job and its description, index by index |
| PipelineOrchestrator.ItemsAligned | internal/pipeline/job_pipeline.go:48-57 | the job list and the description list are equally long, and each description's JobID is its job's ID |
| PipelineOrchestrator.Persist | internal/pipeline/job_pipeline.go:59-67 | definition of the end of a run from the outcomes of the two saves; stated by PersistOrder |
| PipelineOrchestrator.RanPersist | internal/pipeline/job_pipeline.go:51-67 | the run's calls and error are Persist's for the collected items and one order of the unique jobs |
| PipelineOrchestrator.PersistOrder | internal/pipeline/job_pipeline.go:59-67 | the jobs are saved first; a failed job save stops the run before any description is saved; the run succeeds exactly when both saves do, and otherwise returns the first failure, wrapped |
| PipelineOrchestrator.SaveItems | internal/pipeline/job_pipeline.go:51-67 | the run's Exec calls and error are those of saving the collected jobs, in some order of their unique IDs, then the collected descriptions |
| PipelineOrchestrator.ProcessJobsStreaming | internal/pipeline/job_pipeline.go:42-68 | the saves receive exactly the items GetJobs and GetJobDescription produce, whatever numPages and params are |
| PipelineOrchestrator.WorkerResultsAgreeWithStage | internal/pipeline/job_pipeline.go:71-107 | for the same jobs and scrape outcomes, the worker's results with the failures dropped, turned into items in order, are exactly the items GetJobDescription sends |
| PipelineOrchestrator.JobDescriptionWorker | internal/pipeline/job_pipeline.go:71-107 | one result per processed job, in channel order and failures included; it stops when the input closes, or at the interruption, having consumed the job in hand when the limiter wait or the send fails |

## Left out

- Concurrency: the three workers of `GetJobDescription` run in parallel,
  so their items can arrive in any interleaving. The model fixes the
  channel order. Which jobs are described does not depend on the order.
  The order of the two lists handed to the repositories does.
- The worker's context check is one cancellation index over the jobs in
  channel order. With several workers, the job each worker was holding at
  cancellation is not modelled.
- `jobDescriptionWorker` is never started by the program. Its rate limiter
  (`rate.NewLimiter`, one token every two seconds) is reduced to the one way
  it matters here: `Wait` can fail and stop the worker. Time itself is not
  modelled.
- Wall-clock time is not modelled: the HTTP client's 30-second timeout and
  the two-second wait. The wait is recorded as its length.
- HTML parsing and CSS selectors (goquery): the model starts from what the
  selectors return, namely a node tree for the description markup and raw
  texts for cards and criteria items.
- `params.Encode()` and the final URL string: the listing receives the
  query values. They are escaped once here. `Encode` escapes them a second
  time, which the model does not build.
- `url.Parse` is modelled only as far as the `Path` it extracts. Its
  rejections for control characters and for a misplaced colon are modelled.
  Its other checks (host syntax, ports, bad percent-escapes) are not, and
  the path is not percent-decoded.
- `encoding/json` is a parameter, so the JSON text of criteria is not
  modelled.
- SQL execution is a parameter, and so are the database's upsert semantics.
- `GetAllJobs`, `GetJobByID` and the `New…` constructors of the
  repositories, the pipeline and the retrying client are not modelled. They
  hold no logic beyond storing their arguments or plain queries.
- Logging (`fmt.Printf`, `log.Printf`) is not modelled. Neither is the
  `JobDescriptionData` type, which nothing uses.
- The response body of a successful request is not modelled: it is the
  document the `listing` and `site` parameters return.
- int64 wrap-around is not modelled. IDs come only from `strconv.ParseInt`,
  which saturates at `MaxInt64`. Page offsets stay far below the limit.
- RepoJob.SaveJobs: the order of the unique jobs follows Go's map iteration,
  so it is left open. The contract fixes their set, their count and
  their values, but not their order.
- RepoJobDescription.SavedDescriptionReadsBack: the write and the read are
  linked only through the stored row, which the lemma takes as given. The
  database in between is not modelled.
