# Resumable full-archive tweet harvester, modelled in Dafny

`twitter_api_search_q2.py` harvests the tweets posted inside four New York
City bounding boxes on every Saturday from 2007 to 2013. It uses the Twitter
API v2 full-archive search endpoint. The script works in three stages:

- **Windows.** `main` lists the Saturdays of those years. For each one it sends a
  search whose window runs from midnight UTC that day to midnight UTC the next
  day.
- **Pages.** `get_tweets` pages through one window's results. Each page is saved
  in a numbered checkpoint file before the next page is requested, and the
  request for the next page carries the cursor (`next_token`) of the page
  before. On a re-run, any checkpoint that can be read is used in place of a
  request, so an interrupted harvest resumes where it stopped.
- **Retries.** `connect_to_endpoint` retries a failed request, sleeping
  `5 * count` seconds after failure `count`. Any failure among the first three
  is retried, and a 503 ("Service Unavailable") is retried any number of times.
  Any other failure from the fourth on is re-raised.

A run-wide quota stops the harvest after the first window that takes the total
over 20000 pages.

The model has these modules:

- `Wrappers` (`Option`, `Result`).
- `Decimal`: zero-padded `{:05d}` / `%m` / `%d` formatting and its parser.
- `Calendar`: the proleptic Gregorian calendar as Python's `datetime` computes
  it, meaning which dates the constructor accepts, `toordinal`, `weekday`, and
  `+ timedelta(days=1)`.
- `Timestamps`: `strftime("%Y-%m-%d")` and the `T00:00:00Z` window bounds,
  checked against the date-time format of section 5.6 of RFC 3339.
- `Fetcher`: `create_headers` and `connect_to_endpoint`. The pure function
  `Connect` specifies the retry loop, and the method `ConnectToEndpoint` keeps
  the source's `while` loop.
- `Harvester`: the state of one harvest and its specification. The state is a
  `Host` object whose fields are the checkpoint files, the outcomes the
  endpoint will give to successive requests, and a ghost log of requests and
  sleeps. The specification consists of `StepAt` for one index of the page
  loop and `Harvested` for a whole harvest.
- `Paging`: the page loop of `get_tweets` as an imperative method, proved
  against `Harvested`.
- `Driver`: `main`, meaning the nested loops that enumerate the Saturdays, the
  windows, and the quota loop.

The HTTP endpoint is a parameter of the model: a finite sequence of outcomes,
consumed one per request. Each outcome is a response with a status and an
optional parsed body, or a transport exception. The model can also run out of
outcomes before the source would have stopped. It then ends the call with
`Unanswered`, an ending the source does not have, which lets every loop
terminate.

Four facts about the code shape the model:
- `connect_to_endpoint` makes at most four attempts for failures other than 503 (line 63).
- A checkpoint that exists but cannot be parsed is not fatal. It falls into the bare `except` at line 93 and is fetched again.
- Checkpoint writes (lines 95-96) are not atomic.
- The quota counts pages processed, loaded or fetched, and is checked only between windows (line 146).

## Model

| member | source | states |
|---|---|---|
| Fetcher.CreateHeadersRoundTrip | twitter_api_search_q2.py:41-43 | the headers map has exactly the one key `Authorization`, and its `Bearer ` value carries the token unchanged |
| Fetcher.ConnectToEndpoint | twitter_api_search_q2.py:51-71 | the imperative retry loop returns exactly the ending, request count and request/sleep log that the specification `Connect` gives for the same server outcomes |
| Fetcher.ReturnsFirstSuccess | twitter_api_search_q2.py:52-57 | a 200 with a JSON body on attempt k, after k-1 failures that were each retried, is returned after exactly k requests |
| Fetcher.RetryBudget | twitter_api_search_q2.py:61-69 | after n failures, none a 503, followed by a success when n < 4: there are exactly min(n+1, 4) requests, the success is returned iff n < 4, and otherwise the fourth failure is re-raised |
| Fetcher.EscalatesOnlyAfterFourAttempts | twitter_api_search_q2.py:62-69 | the call re-raises only after at least four attempts, and never re-raises a 503 |
| Fetcher.NoOverloadAtMostFourRequests | twitter_api_search_q2.py:62-69 | with no 503 among the outcomes the call makes at most four requests, and it reaches a verdict whenever the server answers four times |
| Fetcher.OverloadStillCounts | twitter_api_search_q2.py:62-63 | a 503 is retried but still counts: after three failures and any run of 503s, the next non-503 failure is re-raised at once |
| Fetcher.ConnectStopsAt | twitter_api_search_q2.py:52-69 | if the first k outcomes are retried failures and outcome k is not one, the call makes k+1 requests and ends as outcome k dictates |
| Fetcher.ConnectConsumed | twitter_api_search_q2.py:52-69 | conversely, every outcome consumed before the last was a retried failure, and the last one decides the ending |
| Fetcher.ConnectLog | twitter_api_search_q2.py:55-69 | the log of a call is one request plus one sleep per retried failure, followed by the request that ended the call unless the outcomes ran out |
| Fetcher.RetryLogAt | twitter_api_search_q2.py:62-67 | every request of a retry sequence carries the same headers and params, and the sleep after failure k lasts 5k seconds |
| Fetcher.ConnectPrefix | twitter_api_search_q2.py:51-71 | a call reads only the outcomes it consumes |
| Decimal.FormatNatRoundTrip | twitter_api_search_q2.py:89 | zero-padded decimal formatting parses back to the number, is at least `width` characters, and is exactly `width` when the number fits |
| Decimal.FormatNatInjective | twitter_api_search_q2.py:89 | distinct numbers format to distinct strings |
| Harvester.CheckpointNameInjective | twitter_api_search_q2.py:89 | different page indices of one directory never name the same checkpoint file |
| Harvester.SearchParams | twitter_api_search_q2.py:77-86 | the first request of a window carries no cursor, and carries the query and both window bounds as given |
| Harvester.StepAtSpec | twitter_api_search_q2.py:89-97 | a readable checkpoint is loaded with no request and no file change; otherwise one retry-loop call with the current params consumes a prefix of the outcomes, which is non-empty if any outcome remains, and a fetched page is written to the index's checkpoint |
| Paging.VisitIndex | twitter_api_search_q2.py:89-97 | one index of the loop changes the host exactly as `StepAt` says and returns its page or its failure |
| Paging.HarvestPages | twitter_api_search_q2.py:87-108 | the page loop ends as `Harvested` describes. Every checkpoint readable at the start is loaded and every other one is fetched with the cursor of the page before. Each page is stored at its index and no other file changes. Outcomes are consumed in order. The loop either returns the page count after the first page without a cursor, or ends with the failed fetch of an unreadable index; that fetch ends `Unanswered` only when no server outcome is left |
| Paging.GetTweets | twitter_api_search_q2.py:73-108 | `get_tweets` is that harvest for the bearer headers of the token and the first-request params of the window |
| Harvester.HarvestedCheckpoints | twitter_api_search_q2.py:89-97 | after a harvest, checkpoints 0 .. n-1 hold exactly the visited pages, and every other file is as it was |
| Harvester.HarvestedResumes | twitter_api_search_q2.py:90-97 | a checkpoint readable at the start is loaded, never requested, and left unchanged; any other is fetched once with the params of its index |
| Harvester.HarvestedPageCount | twitter_api_search_q2.py:98-108 | the returned count is the number of pages, and exactly the pages before the last carry a `next_token` |
| Harvester.CursorChain | twitter_api_search_q2.py:105 | the request for page j+1 carries the `next_token` of page j, whether that page was loaded or fetched, and every other parameter of the first request |
| Calendar.DaysInMonth | twitter_api_search_q2.py:119-127 | a month has 28 to 31 days, and 29 exactly for February of a leap year |
| Calendar.OrdinalMonotone | twitter_api_search_q2.py:121-122 | the day ordinal behind `weekday()` is strictly increasing in date order |
| Calendar.OrdinalInjective | twitter_api_search_q2.py:121-122 | no two valid dates share an ordinal |
| Calendar.NextDayOrdinal | twitter_api_search_q2.py:143 | `+ timedelta(days=1)` is one ordinal later and valid, except past 9999-12-31 |
| Calendar.NextDayIsSuccessor | twitter_api_search_q2.py:143 | the next day is later, and no valid date lies strictly between the two |
| Calendar.WeekdayOfNextDay | twitter_api_search_q2.py:122 | 0001-01-01 is a Monday, and each day advances the weekday by one, modulo 7 |
| Timestamps.FormatDateRoundTrip | twitter_api_search_q2.py:141 | `strftime("%Y-%m-%d")` of a valid date is 10 characters and reads back as the same date |
| Timestamps.FormatDateInjective | twitter_api_search_q2.py:141 | distinct dates give distinct strings |
| Timestamps.MidnightIsRfc3339 | twitter_api_search_q2.py:145 | `<date>T00:00:00Z` is an RFC 3339 UTC date-time whose date part reads back as the date |
| Driver.QueryWithinLimit | twitter_api_search_q2.py:134-137 | the query of lines 134-135 is 266 characters, within the 1024-character limit the script asserts |
| Driver.FindSaturdays | twitter_api_search_q2.py:115-127 | the enumeration holds exactly the valid dates of 2007-2013 whose weekday is 5, in strictly increasing order, skipping days the month lacks |
| Driver.FirstAndLastSaturday | twitter_api_search_q2.py:115-127 | the list runs from 2007-01-06 to 2013-12-28 |
| Driver.SaturdayHasWindow | twitter_api_search_q2.py:142-143 | the day after every listed Saturday is a valid date |
| Driver.WindowBounds | twitter_api_search_q2.py:141-145 | a window runs from midnight UTC of its date to midnight UTC of the next calendar day, across month and year ends; both bounds are RFC 3339 date-times, and the directory is the start date |
| Driver.WindowDirectoriesDistinct | twitter_api_search_q2.py:141-145 | different start dates write to different directories |
| Driver.WindowJobAt | twitter_api_search_q2.py:140-145 | the k-th `get_tweets` call of the loop uses the window of the k-th Saturday |
| Driver.RanWindows | twitter_api_search_q2.py:140-148 | the windows started so far form a prefix of the list; each one is harvested to the end from the state the previous one left, and each is started with the running total at most 20000 |
| Driver.HarvestWindow | twitter_api_search_q2.py:141-145 | one window's strings, followed by its `get_tweets` harvest |
| Driver.RunWindows | twitter_api_search_q2.py:130-148 | the quota loop harvests the windows in order. It stops only after the list is exhausted or once the total exceeds 20000, and a window in progress is never cut short. Otherwise it ends with the failed harvest of a window started within the quota, and the total is the sum of the page counts |
| Driver.HarvestAll | twitter_api_search_q2.py:115-150 | `main` after `auth()`: the Saturday list of `FindSaturdays`, then `RunWindows` over it |

## Left out

- The HTTP client, JSON parsing and serialisation are left out. A response is a status with an already-parsed body, or a transport exception. A 200 whose body is not JSON counts as a non-`BadStatusCode` exception, as `response.json()` raising would be.
- The filesystem is a map from path to checkpoint entry; `os.makedirs` is not modelled. A write stores the page at once. Partial writes and crashes are not modelled, because the source's write is not atomic and there is no crash semantics to follow.
- `time.sleep` and every `print` are not performed. The sleeps are recorded in the ghost log as events; printing has no effect on the state.
- `auth()` reads the bearer token from a file, so the token is a parameter instead. `create_url` and the module-level `endpoint` yield a constant URL, which the model leaves out.
- The `day += 1` at line 124 assigns to the loop variable that `range` overwrites. It has no effect and is not modelled.
- `clean_data.py` is not part of this model.
- Fetcher.ConnectToEndpoint: when the modelled server's outcomes run out, the call ends with `Unanswered`. The source would go on issuing requests, so that ending exists only in the model.
- Calendar.NextDay: past 9999-12-31 it yields year 10000 rather than raising OverflowError. This is never reached from 2007-2013.
- Timestamps.FormatDate: years below 1000 are zero-padded to four digits. Python's `%Y` there is platform-dependent. This is never reached from 2007-2013.
- Driver.RunWindows: the `Aborted` ending keeps the running total for the contract only. In the source the re-raised exception ends `main`, which returns no total.
