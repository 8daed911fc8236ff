/** The imperative page loop of `get_tweets` (twitter_api_search_q2.py:73-108),
    proved against the harvest specification of module Harvester. */
module Paging {
  import opened Wrappers
  import opened Fetcher
  import opened Harvester

  /** Lines 89-97: one index of the page loop. A readable checkpoint is
      loaded; otherwise the page is fetched with the current params and
      written to the checkpoint, and the loop pauses for 2 seconds. */
  method VisitIndex(host: Host, job: Job, params: Params, i: nat)
    returns (got: Result<Page, Fetch>, ghost step: Step)
    modifies host
    ensures step == StepAt(old(host.State()), job, params, i)
    ensures host.State() == step.after
    ensures got == if step.Advanced? then Success(step.visit.page) else Failure(step.failure)
  {
    var outfile := CheckpointName(job.directory, i);
    step := StepAt(host.State(), job, params, i);
    if outfile in host.files && host.files[outfile].Readable? {
      got := Success(host.files[outfile].page);
    } else {
      var result, used, clog := ConnectToEndpoint(host.responses, job.headers, params);
      host.responses := host.responses[used..];
      host.log := host.log + clog;
      match result
      case Fetched(page) =>
        host.files := host.files[outfile := Readable(page)];
        host.log := host.log + [Sleep(2)];
        got := Success(page);
      case _ =>
        got := Failure(result);
    }
  }

  /** Lines 87-108 of `get_tweets`: the page loop, for the headers and
      first-request params that lines 76-86 build. */
  method HarvestPages(host: Host, job: Job)
    returns (outcome: Harvest, ghost visits: seq<Visit>, ghost failing: seq<Outcome>)
    modifies host
    ensures Harvested(old(host.State()), job, outcome, visits, failing, host.State())
  {
    ghost var w0 := host.State();
    var params := job.base;
    visits, failing := [], [];
    var i: nat := 0;
    ghost var seen: set<string> := {};
    while true
      invariant i == |visits|
      invariant params == RequestParams(job.base, visits, i)
      invariant Chained(visits)
      invariant Progress(w0, job, visits, host.State())
      invariant Unseen(job.directory, i, seen)
      decreases |host.State().responses|, |host.State().files.Keys - seen|
    {
      ghost var w := host.State();
      ghost var outfile := CheckpointName(job.directory, i);
      var got, step := VisitIndex(host, job, params, i);
      match got
      case Failure(failure) =>
        StepStops(w0, job, visits, w, params, failure, step.spent, host.State());
        failing := step.spent;
        outcome := Failed(failure);
        return;
      case Success(page) =>
        ghost var v := step.visit;
        StepContinues(w0, job, visits, w, params, v, host.State(), seen);
        seen := seen + {outfile};
        match NextToken(page)
        case None =>
          LastPageFinishes(w0, job, visits, v, host.State());
          visits := visits + [v];
          i := i + 1;
          outcome := Finished(i);
          return;
        case Some(t) =>
          NextParams(job.base, visits, v, t);
          visits := visits + [v];
          i := i + 1;
          params := params["next_token" := Str(t)];
    }
  }

  /** `get_tweets(query, start_time, end_time, directory, token)`: the bearer
      header and the first request's params (lines 76-86), then the page loop. */
  method GetTweets(host: Host, query: string, startTime: string, endTime: string, directory: string, token: string)
    returns (outcome: Harvest, ghost visits: seq<Visit>, ghost failing: seq<Outcome>)
    modifies host
    ensures Harvested(old(host.State()), Job(directory, CreateHeaders(token), SearchParams(query, startTime, endTime)),
                      outcome, visits, failing, host.State())
  {
    var headers := CreateHeaders(token);
    var params := SearchParams(query, startTime, endTime);
    outcome, visits, failing := HarvestPages(host, Job(directory, headers, params));
  }
}
