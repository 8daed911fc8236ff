/** `get_tweets` (twitter_api_search_q2.py:73-108): the paginated, resumable
    harvest of one search window. Each page is checkpointed to a numbered file
    before the next is requested; a checkpoint that can be read is used instead
    of a request. */
module Harvester {
  import opened Wrappers
  import opened Decimal
  import opened Fetcher

  /** A checkpoint file as `json.load` sees it. A path absent from the map
      cannot be opened; both cases fall into the bare `except` of line 93. */
  datatype Entry = Readable(page: Page) | Unreadable

  /** The state outside the harvest: the files on disk, the outcomes the
      search endpoint will give to the coming requests, and the log of the
      requests and sleeps made so far. */
  datatype World = World(files: map<string, Entry>, responses: seq<Outcome>, log: seq<Event>)

  class Host {
    var files: map<string, Entry>
    var responses: seq<Outcome>
    ghost var log: seq<Event>

    constructor (files: map<string, Entry>, responses: seq<Outcome>)
      ensures State() == World(files, responses, [])
    {
      this.files := files;
      this.responses := responses;
      log := [];
    }

    ghost function State(): World
      reads this
    {
      World(files, responses, log)
    }
  }

  /** The fixed inputs of one window's harvest: its output directory, the
      authorization headers, and the params of its first request. */
  datatype Job = Job(directory: string, headers: Headers, base: Params)

  /** Line 89: `"{}/output_{:05d}.json".format(directory, i)`. */
  function CheckpointName(directory: string, i: nat): string {
    directory + "/output_" + FormatNat(i, 5) + ".json"
  }

  /** Different page indices of one directory never share a checkpoint file. */
  lemma CheckpointNameInjective(directory: string, i: nat, j: nat)
    requires CheckpointName(directory, i) == CheckpointName(directory, j)
    ensures i == j
  {
    var a, b := FormatNat(i, 5), FormatNat(j, 5);
    var s := CheckpointName(directory, i);
    var lo := |directory| + 8;
    assert s == directory + "/output_" + a + ".json";
    assert s[lo..|s| - 5] == a;
    assert CheckpointName(directory, j) == directory + "/output_" + b + ".json";
    assert |a| == |b|;
    assert s[lo..|s| - 5] == b;
    FormatNatInjective(i, j, 5);
  }

  const MaxResults := 500
  const TweetFields := "attachments,author_id,context_annotations,conversation_id,created_at,entities,geo,id,in_reply_to_user_id,lang,public_metrics,possibly_sensitive,referenced_tweets,source,text,withheld"
  const UserFields := "created_at,description,entities,id,location,name,pinned_tweet_id,profile_image_url,protected,public_metrics,url,username,verified,withheld"
  const Expansions := "author_id,entities.mentions.username,geo.place_id,in_reply_to_user_id,referenced_tweets.id,referenced_tweets.id.author_id"
  const PlaceFields := "contained_within,country,country_code,full_name,geo,id,name,place_type"

  /** The entries of lines 79 and 82-85, the same for every window. */
  const FixedParams: Params := map[
    "max_results" := Int(MaxResults),
    "tweet.fields" := Str(TweetFields),
    "user.fields" := Str(UserFields),
    "expansions" := Str(Expansions),
    "place.fields" := Str(PlaceFields)
  ]

  /** Lines 77-86: the parameters of the first request of a window. */
  function SearchParams(query: string, startTime: string, endTime: string): (p: Params)
    ensures "next_token" !in p
    ensures "start_time" in p && "end_time" in p && "query" in p
    ensures p["start_time"] == Str(startTime) && p["end_time"] == Str(endTime) && p["query"] == Str(query)
  {
    FixedParams["query" := Str(query)]["start_time" := Str(startTime)]["end_time" := Str(endTime)]
  }

  /** What happened at one page index: the checkpoint was loaded, or the page
      was fetched with `params`, consuming the server outcomes `outcomes`, and
      written. */
  datatype Visit = Loaded(page: Page) | Downloaded(page: Page, params: Params, outcomes: seq<Outcome>)

  /** How `get_tweets` ends: it returns the page count, or the fetch of the
      next page re-raised (or, in the model, ran out of server outcomes). */
  datatype Harvest = Finished(pages: nat) | Failed(failure: Fetch)

  /** The params dict when page j is processed: the first request has no
      cursor; later ones carry the `next_token` of the page before (line 105). */
  function RequestParams(base: Params, visits: seq<Visit>, j: nat): Params {
    if j == 0 || j > |visits| then base
    else match NextToken(visits[j - 1].page)
      case Some(t) => base["next_token" := Str(t)]
      case None => base
  }

  predicate IsReadable(files: map<string, Entry>, name: string) {
    name in files && files[name].Readable?
  }

  /** Every page visited so far carried a cursor, so the loop went on. */
  predicate Chained(visits: seq<Visit>) {
    forall j :: 0 <= j < |visits| ==> NextToken(visits[j].page).Some?
  }

  /** What one index of the loop does (lines 89-97), from the state before it:
      either the page is obtained, loaded or fetched, with the new state, or
      the fetch ends without a page, with the outcomes it consumed. */
  datatype Step = Advanced(visit: Visit, after: World) | Stopped(failure: Fetch, spent: seq<Outcome>, after: World)

  function StepAt(w: World, job: Job, params: Params, i: nat): Step {
    var name := CheckpointName(job.directory, i);
    if IsReadable(w.files, name) then Advanced(Loaded(w.files[name].page), w)
    else
      var r := Connect(w.responses, job.headers, params, 0);
      var spent, rest := w.responses[..r.used], w.responses[r.used..];
      match r.result
      case Fetched(page) =>
        Advanced(Downloaded(page, params, spent), World(w.files[name := Readable(page)], rest, w.log + r.log + [Sleep(2)]))
      case _ =>
        Stopped(r.result, spent, World(w.files, rest, w.log + r.log))
  }

  /** A readable checkpoint is loaded with no request and no change to any
      file; otherwise exactly one `connect_to_endpoint` call is made, with the
      current params, consuming a non-empty prefix of the server outcomes;
      its page, when it returns one, is written to the index's checkpoint. */
  lemma StepAtSpec(w: World, job: Job, params: Params, i: nat)
    ensures var name, s := CheckpointName(job.directory, i), StepAt(w, job, params, i);
      && (IsReadable(w.files, name) ==> s == Advanced(Loaded(w.files[name].page), w))
      && (!IsReadable(w.files, name) ==>
            var r := Connect(w.responses, job.headers, params, 0);
            && s.after.responses == w.responses[r.used..]
            && Connect(w.responses[..r.used], job.headers, params, 0) == r
            && (w.responses != [] ==> |s.after.responses| < |w.responses|)
            && (s.Advanced? <==> r.result.Fetched?)
            && (s.Advanced? ==>
                  && s.visit == Downloaded(r.result.page, params, w.responses[..r.used])
                  && s.after.files == w.files[name := Readable(r.result.page)])
            && (s.Stopped? ==> s.after.files == w.files && s.spent == w.responses[..r.used] && s.failure == r.result))
  {
    ConnectPrefix(w.responses, job.headers, params, 0);
  }

  /** Lines 90-97 at index j, judged against the checkpoints as they were when
      the harvest started: a readable checkpoint is loaded and nothing is
      requested; otherwise the page is the result of one successful
      `connect_to_endpoint` call with the params of that index. */
  predicate VisitOk(files0: map<string, Entry>, job: Job, visits: seq<Visit>, j: nat)
    requires j < |visits|
  {
    var name := CheckpointName(job.directory, j);
    if IsReadable(files0, name) then visits[j] == Loaded(files0[name].page)
    else
      && visits[j].Downloaded?
      && visits[j].params == RequestParams(job.base, visits, j)
      && Connect(visits[j].outcomes, job.headers, visits[j].params, 0).result == Fetched(visits[j].page)
      && Connect(visits[j].outcomes, job.headers, visits[j].params, 0).used == |visits[j].outcomes|
  }

  function Last<T>(s: seq<T>): T
    requires s != []
  {
    s[|s| - 1]
  }

  function Init<T>(s: seq<T>): seq<T>
    requires s != []
  {
    s[..|s| - 1]
  }

  /** The checkpoint files after the visits: each visited page stored at its
      index's name, everything else as it was. */
  function Stored(files0: map<string, Entry>, directory: string, visits: seq<Visit>): map<string, Entry>
    decreases |visits|
  {
    if visits == [] then files0
    else Stored(files0, directory, Init(visits))[CheckpointName(directory, |visits| - 1) := Readable(Last(visits).page)]
  }

  function VisitOutcomes(v: Visit): seq<Outcome> {
    if v.Downloaded? then v.outcomes else []
  }

  /** The server outcomes the visits consumed, in order. */
  function Consumed(visits: seq<Visit>): seq<Outcome>
    decreases |visits|
  {
    if visits == [] then [] else Consumed(Init(visits)) + VisitOutcomes(Last(visits))
  }

  /** The requests and sleeps of one visit: nothing for a loaded page; the
      retry loop's own log and the 2-second pause of line 97 for a fetched one. */
  function VisitLog(headers: Headers, v: Visit): seq<Event> {
    match v
    case Loaded(_) => []
    case Downloaded(_, params, outcomes) => Connect(outcomes, headers, params, 0).log + [Sleep(2)]
  }

  function VisitsLog(headers: Headers, visits: seq<Visit>): seq<Event>
    decreases |visits|
  {
    if visits == [] then [] else VisitsLog(headers, Init(visits)) + VisitLog(headers, Last(visits))
  }

  /** The state the harvest has reached from w0 after `visits`. */
  ghost predicate Progress(w0: World, job: Job, visits: seq<Visit>, w: World) {
    && (forall j :: 0 <= j < |visits| ==> VisitOk(w0.files, job, visits, j))
    && w.files == Stored(w0.files, job.directory, visits)
    && w0.responses == Consumed(visits) + w.responses
    && w.log == w0.log + VisitsLog(job.headers, visits)
  }

  /** What a harvest of `job` from state w0 to state w did: `visits` records
      each index processed to the end and `failing` the outcomes consumed by a
      fetch that did not return a page. Every visit is as VisitOk says; the
      files are the old ones with each visited page stored at its index and
      nothing else changed; the server outcomes were consumed in order; and
      the harvest ends either after the first page without a cursor,
      returning the number of pages, or with the failed fetch of the next
      index, whose checkpoint was unreadable; that fetch ends Unanswered
      only when no server outcome is left. */
  ghost predicate Harvested(w0: World, job: Job, outcome: Harvest, visits: seq<Visit>, failing: seq<Outcome>, w: World) {
    && (forall j :: 0 <= j < |visits| ==> VisitOk(w0.files, job, visits, j))
    && w.files == Stored(w0.files, job.directory, visits)
    && w0.responses == Consumed(visits) + failing + w.responses
    && match outcome
       case Finished(n) =>
         && n == |visits| >= 1
         && Chained(Init(visits))
         && NextToken(Last(visits).page).None?
         && failing == []
         && w.log == w0.log + VisitsLog(job.headers, visits)
       case Failed(failure) =>
         var failed := Connect(failing, job.headers, RequestParams(job.base, visits, |visits|), 0);
         && Chained(visits)
         && !IsReadable(w0.files, CheckpointName(job.directory, |visits|))
         && !failure.Fetched?
         && (failure.Unanswered? ==> w.responses == [])
         && failed.result == failure && failed.used == |failing|
         && w.log == w0.log + VisitsLog(job.headers, visits) + failed.log
  }

  /** After the visits, each visited index's checkpoint holds its page. */
  lemma {:induction false} StoredCheckpoint(files0: map<string, Entry>, directory: string, visits: seq<Visit>, j: nat)
    requires j < |visits|
    ensures CheckpointName(directory, j) in Stored(files0, directory, visits)
    ensures Stored(files0, directory, visits)[CheckpointName(directory, j)] == Readable(visits[j].page)
    decreases |visits|
  {
    if j < |visits| - 1 {
      StoredCheckpoint(files0, directory, Init(visits), j);
      if CheckpointName(directory, j) == CheckpointName(directory, |visits| - 1) {
        CheckpointNameInjective(directory, j, |visits| - 1);
      }
    }
  }

  /** Files other than the visited checkpoints are left as they were. */
  lemma {:induction false} StoredElsewhere(files0: map<string, Entry>, directory: string, visits: seq<Visit>, name: string)
    requires forall j :: 0 <= j < |visits| ==> name != CheckpointName(directory, j)
    ensures name in Stored(files0, directory, visits) <==> name in files0
    ensures name in files0 ==> Stored(files0, directory, visits)[name] == files0[name]
    decreases |visits|
  {
    if visits != [] {
      StoredElsewhere(files0, directory, Init(visits), name);
    }
  }

  /** The next index's checkpoint is still as the harvest found it. */
  lemma NewIndexIsUntouched(files0: map<string, Entry>, directory: string, visits: seq<Visit>)
    ensures var name := CheckpointName(directory, |visits|);
      (name in Stored(files0, directory, visits) <==> name in files0)
      && (name in files0 ==> Stored(files0, directory, visits)[name] == files0[name])
  {
    var name := CheckpointName(directory, |visits|);
    forall j | 0 <= j < |visits|
      ensures name != CheckpointName(directory, j)
    {
      if name == CheckpointName(directory, j) {
        CheckpointNameInjective(directory, j, |visits|);
      }
    }
    StoredElsewhere(files0, directory, visits, name);
  }

  /** Stored, Consumed and VisitsLog each grow by the contribution of the new visit. */
  lemma AppendVisit(files0: map<string, Entry>, directory: string, headers: Headers, visits: seq<Visit>, v: Visit)
    ensures Stored(files0, directory, visits + [v])
      == Stored(files0, directory, visits)[CheckpointName(directory, |visits|) := Readable(v.page)]
    ensures Consumed(visits + [v]) == Consumed(visits) + VisitOutcomes(v)
    ensures VisitsLog(headers, visits + [v]) == VisitsLog(headers, visits) + VisitLog(headers, v)
  {
    assert Init(visits + [v]) == visits;
  }

  /** One more visit does not disturb the record of the visits before it. */
  lemma ExtendVisits(files0: map<string, Entry>, job: Job, visits: seq<Visit>, v: Visit)
    requires forall j :: 0 <= j < |visits| ==> VisitOk(files0, job, visits, j)
    ensures forall j :: 0 <= j < |visits| ==> VisitOk(files0, job, visits + [v], j)
    ensures RequestParams(job.base, visits + [v], |visits|) == RequestParams(job.base, visits, |visits|)
  {
    var w := visits + [v];
    forall j | 0 <= j < |visits|
      ensures VisitOk(files0, job, w, j)
    {
      assert VisitOk(files0, job, visits, j);
      assert w[j] == visits[j];
      assert RequestParams(job.base, w, j) == RequestParams(job.base, visits, j);
    }
  }

  /** Loading a readable checkpoint extends the progress and changes nothing. */
  lemma ProgressLoads(w0: World, job: Job, visits: seq<Visit>, w: World)
    requires Progress(w0, job, visits, w)
    requires IsReadable(w.files, CheckpointName(job.directory, |visits|))
    ensures Progress(w0, job, visits + [Loaded(w.files[CheckpointName(job.directory, |visits|)].page)], w)
  {
    var name := CheckpointName(job.directory, |visits|);
    var v := Loaded(w.files[name].page);
    NewIndexIsUntouched(w0.files, job.directory, visits);
    ExtendVisits(w0.files, job, visits, v);
    AppendVisit(w0.files, job.directory, job.headers, visits, v);
    assert w.files[name := Readable(v.page)] == w.files;
    assert Consumed(visits) + [] == Consumed(visits);
    assert VisitsLog(job.headers, visits) + [] == VisitsLog(job.headers, visits);
  }

  /** Fetching the page of an unreadable checkpoint, writing it and pausing
      extends the progress by a downloaded visit. */
  lemma ProgressDownloads(w0: World, job: Job, visits: seq<Visit>, w: World, page: Page, outcomes: seq<Outcome>, rest: seq<Outcome>)
    requires Progress(w0, job, visits, w)
    requires !IsReadable(w.files, CheckpointName(job.directory, |visits|))
    requires w.responses == outcomes + rest
    requires var r := Connect(outcomes, job.headers, RequestParams(job.base, visits, |visits|), 0);
      r.result == Fetched(page) && r.used == |outcomes|
    ensures var params := RequestParams(job.base, visits, |visits|);
      Progress(w0, job, visits + [Downloaded(page, params, outcomes)],
               World(w.files[CheckpointName(job.directory, |visits|) := Readable(page)], rest,
                     w.log + Connect(outcomes, job.headers, params, 0).log + [Sleep(2)]))
  {
    var params := RequestParams(job.base, visits, |visits|);
    var name := CheckpointName(job.directory, |visits|);
    var v := Downloaded(page, params, outcomes);
    var log := Connect(outcomes, job.headers, params, 0).log;
    assert forall j :: 0 <= j < |visits| + 1 ==> VisitOk(w0.files, job, visits + [v], j) by {
      NewIndexIsUntouched(w0.files, job.directory, visits);
      ExtendVisits(w0.files, job, visits, v);
    }
    assert w.files[name := Readable(page)] == Stored(w0.files, job.directory, visits + [v]) by {
      AppendVisit(w0.files, job.directory, job.headers, visits, v);
    }
    assert w0.responses == Consumed(visits + [v]) + rest by {
      AppendVisit(w0.files, job.directory, job.headers, visits, v);
      Associate(Consumed(visits), outcomes, rest);
    }
    assert w.log + log + [Sleep(2)] == w0.log + VisitsLog(job.headers, visits + [v]) by {
      AppendVisit(w0.files, job.directory, job.headers, visits, v);
      Associate(w0.log + VisitsLog(job.headers, visits), log, [Sleep(2)]);
      Associate(w0.log, VisitsLog(job.headers, visits), VisitLog(job.headers, v));
    }
  }

  /** A step that obtains a page extends the progress by that visit, and
      either consumes server outcomes or leaves the state as it was, the
      checkpoint of the index being a file on disk. */
  lemma StepAdvances(w0: World, job: Job, visits: seq<Visit>, w: World, params: Params, v: Visit, after: World)
    requires Progress(w0, job, visits, w) && params == RequestParams(job.base, visits, |visits|)
    requires StepAt(w, job, params, |visits|) == Advanced(v, after)
    ensures Progress(w0, job, visits + [v], after)
    ensures |after.responses| < |w.responses| || (after == w && CheckpointName(job.directory, |visits|) in w.files)
  {
    var name := CheckpointName(job.directory, |visits|);
    StepAtSpec(w, job, params, |visits|);
    if IsReadable(w.files, name) {
      ProgressLoads(w0, job, visits, w);
    } else {
      var r := Connect(w.responses, job.headers, params, 0);
      assert w.responses == w.responses[..r.used] + w.responses[r.used..];
      ProgressDownloads(w0, job, visits, w, r.result.page, w.responses[..r.used], w.responses[r.used..]);
    }
  }

  /** A step that ends without a page: the checkpoint was not readable, the
      failed fetch consumed `spent` and logged its requests and sleeps, and no
      file changed. */
  lemma StoppedStep(w: World, job: Job, params: Params, i: nat, failure: Fetch, spent: seq<Outcome>, after: World)
    requires StepAt(w, job, params, i) == Stopped(failure, spent, after)
    ensures !IsReadable(w.files, CheckpointName(job.directory, i))
    ensures !failure.Fetched?
    ensures failure.Unanswered? ==> after.responses == []
    ensures w.responses == spent + after.responses && after.files == w.files
    ensures var r := Connect(spent, job.headers, params, 0);
      r.result == failure && r.used == |spent| && after.log == w.log + r.log
  {
    StepAtSpec(w, job, params, i);
    var r := Connect(w.responses, job.headers, params, 0);
    assert spent == w.responses[..r.used] && after.responses == w.responses[r.used..];
  }

  /** A step that ends without a page ends the harvest as Harvested says. */
  lemma StepStops(w0: World, job: Job, visits: seq<Visit>, w: World, params: Params,
                  failure: Fetch, spent: seq<Outcome>, after: World)
    requires Progress(w0, job, visits, w) && Chained(visits) && params == RequestParams(job.base, visits, |visits|)
    requires StepAt(w, job, params, |visits|) == Stopped(failure, spent, after)
    ensures Harvested(w0, job, Failed(failure), visits, spent, after)
  {
    StoppedStep(w, job, params, |visits|, failure, spent, after);
    NewIndexIsUntouched(w0.files, job.directory, visits);
    Associate(Consumed(visits), spent, after.responses);
  }

  /** A page without a cursor ends the harvest as Harvested says. */
  lemma LastPageFinishes(w0: World, job: Job, visits: seq<Visit>, v: Visit, w: World)
    requires Progress(w0, job, visits + [v], w) && Chained(visits) && NextToken(v.page).None?
    ensures Harvested(w0, job, Finished(|visits| + 1), visits + [v], [], w)
  {
    assert Init(visits + [v]) == visits;
    assert Consumed(visits + [v]) + [] == Consumed(visits + [v]);
  }

  /** Line 105: overwriting the cursor in the params dict gives the params of
      the next index, and the loop goes on with one more chained page. */
  lemma NextParams(base: Params, visits: seq<Visit>, v: Visit, t: string)
    requires Chained(visits) && NextToken(v.page) == Some(t)
    ensures RequestParams(base, visits, |visits|)["next_token" := Str(t)] == RequestParams(base, visits + [v], |visits| + 1)
    ensures Chained(visits + [v])
  {
    var p := RequestParams(base, visits, |visits|);
    assert p["next_token" := Str(t)] == base["next_token" := Str(t)];
    var w := visits + [v];
    forall j | 0 <= j < |w|
      ensures NextToken(w[j].page).Some?
    {
      if j < |visits| {
        assert w[j] == visits[j];
      }
    }
  }

  /** No checkpoint name of an index from `i` on is in `seen`. */
  ghost predicate Unseen(directory: string, i: nat, seen: set<string>) {
    forall j: nat :: i <= j ==> CheckpointName(directory, j) !in seen
  }

  /** Marking index `i` as seen keeps the indices after it unseen. */
  lemma FreshNames(directory: string, i: nat, seen: set<string>)
    requires Unseen(directory, i, seen)
    ensures CheckpointName(directory, i) !in seen
    ensures Unseen(directory, i + 1, seen + {CheckpointName(directory, i)})
  {
    forall j: nat | i + 1 <= j
      ensures CheckpointName(directory, j) != CheckpointName(directory, i)
    {
      if CheckpointName(directory, j) == CheckpointName(directory, i) {
        CheckpointNameInjective(directory, j, i);
      }
    }
  }

  lemma FewerUnseen(keys: set<string>, seen: set<string>, name: string)
    requires name in keys && name !in seen
    ensures |keys - (seen + {name})| < |keys - seen|
  {
    assert keys - seen == (keys - (seen + {name})) + {name};
  }

  /** The page loop's bookkeeping for one index that yields a page: the
      progress invariant, the checkpoint name now seen, and the termination
      measure (fewer pending responses, or as many and one fewer unseen
      file, since only a readable checkpoint is loaded without a request). */
  lemma StepContinues(w0: World, job: Job, visits: seq<Visit>, w: World, params: Params, v: Visit, after: World,
                      seen: set<string>)
    requires Progress(w0, job, visits, w) && params == RequestParams(job.base, visits, |visits|)
    requires StepAt(w, job, params, |visits|) == Advanced(v, after)
    requires Unseen(job.directory, |visits|, seen)
    ensures Progress(w0, job, visits + [v], after)
    ensures Unseen(job.directory, |visits| + 1, seen + {CheckpointName(job.directory, |visits|)})
    ensures || |after.responses| < |w.responses|
            || (&& |after.responses| == |w.responses|
                && |after.files.Keys - (seen + {CheckpointName(job.directory, |visits|)})| < |w.files.Keys - seen|)
  {
    var name := CheckpointName(job.directory, |visits|);
    StepAdvances(w0, job, visits, w, params, v, after);
    FreshNames(job.directory, |visits|, seen);
    if |after.responses| >= |w.responses| {
      FewerUnseen(w.files.Keys, seen, name);
    }
  }

  /** Contiguity: after a harvest, the checkpoints of indices 0 .. |visits|-1
      hold the visited pages, and every other file is as it was before. */
  lemma HarvestedCheckpoints(w0: World, job: Job, outcome: Harvest, visits: seq<Visit>, failing: seq<Outcome>,
                             w: World, name: string)
    requires Harvested(w0, job, outcome, visits, failing, w)
    ensures forall j :: 0 <= j < |visits| ==>
      CheckpointName(job.directory, j) in w.files && w.files[CheckpointName(job.directory, j)] == Readable(visits[j].page)
    ensures (forall j :: 0 <= j < |visits| ==> name != CheckpointName(job.directory, j)) ==>
      (name in w.files <==> name in w0.files) && (name in w0.files ==> w.files[name] == w0.files[name])
  {
    forall j | 0 <= j < |visits|
      ensures CheckpointName(job.directory, j) in w.files
      ensures w.files[CheckpointName(job.directory, j)] == Readable(visits[j].page)
    {
      StoredCheckpoint(w0.files, job.directory, visits, j);
    }
    if forall j :: 0 <= j < |visits| ==> name != CheckpointName(job.directory, j) {
      StoredElsewhere(w0.files, job.directory, visits, name);
    }
  }

  /** No refetch: a checkpoint that was readable when the harvest began is
      loaded, never requested, and is left exactly as it was; one that was
      not is fetched once, with the params of its index. */
  lemma HarvestedResumes(w0: World, job: Job, outcome: Harvest, visits: seq<Visit>, failing: seq<Outcome>,
                         w: World, j: nat)
    requires Harvested(w0, job, outcome, visits, failing, w) && j < |visits|
    ensures var name := CheckpointName(job.directory, j);
      && (IsReadable(w0.files, name) <==> visits[j].Loaded?)
      && (IsReadable(w0.files, name) ==> name in w.files && w.files[name] == w0.files[name])
      && (!IsReadable(w0.files, name) ==>
            visits[j].params == RequestParams(job.base, visits, j)
            && Connect(visits[j].outcomes, job.headers, visits[j].params, 0).result == Fetched(visits[j].page))
  {
    assert VisitOk(w0.files, job, visits, j);
    StoredCheckpoint(w0.files, job.directory, visits, j);
  }

  /** The returned page count is one more than the number of leading pages
      that carry a `next_token`. */
  lemma HarvestedPageCount(w0: World, job: Job, n: nat, visits: seq<Visit>, failing: seq<Outcome>, w: World)
    requires Harvested(w0, job, Finished(n), visits, failing, w)
    ensures n == |visits| >= 1
    ensures forall j :: 0 <= j < n ==> (NextToken(visits[j].page).Some? <==> j < n - 1)
  {
    forall j | 0 <= j < n
      ensures NextToken(visits[j].page).Some? <==> j < n - 1
    {
      if j < n - 1 {
        assert visits[j] == Init(visits)[j];
      }
    }
  }

  /** The first request of a window carries no cursor; the request for page
      j + 1 carries exactly the `next_token` of page j, whether that page was
      loaded or fetched, and every other parameter of the first request. */
  lemma CursorChain(base: Params, visits: seq<Visit>, j: nat)
    requires "next_token" !in base
    requires j < |visits| && NextToken(visits[j].page).Some?
    ensures "next_token" !in RequestParams(base, visits, 0)
    ensures RequestParams(base, visits, j + 1).Keys == base.Keys + {"next_token"}
    ensures RequestParams(base, visits, j + 1)["next_token"] == Str(NextToken(visits[j].page).value)
    ensures forall key :: key in base ==> RequestParams(base, visits, j + 1)[key] == base[key]
  {
  }
}
