/** `main` (twitter_api_search_q2.py:111-150): the Saturdays of 2007-2013, one
    search window per Saturday, and the run-wide page quota. */
module Driver {
  import opened Wrappers
  import opened Calendar
  import opened Timestamps
  import opened Fetcher
  import opened Harvester
  import opened Paging

  const FirstYear := 2007
  const LastYear := 2013

  /** Line 146: no window is started once the run has processed more pages than this. */
  const Quota := 20000

  /** Lines 134-135: the query, the two string literals joined: tweets in
      any of four bounding boxes (west longitude, south latitude, east
      longitude, north latitude) that are not retweets. */
  const Query := "(" + BoundingBox("-74.2556782 40.4960342 -74.0492521 40.6488941")
    + " OR " + BoundingBox("-74.0419691 40.5419011 -73.7001809 40.8009249")
    + " OR " + BoundingBox("-74.0472219 40.6839411 -73.9061585 40.8804489")
    + " OR " + BoundingBox("-73.9336575 40.7853712 -73.7653293 40.9152598")
    + ") -is:retweet"

  function BoundingBox(corners: string): string {
    "bounding_box:[" + corners + "]"
  }

  /** Line 137: the query is 266 characters, within the 1024 the endpoint allows. */
  lemma QueryWithinLimit()
    ensures |Query| == 266 && |Query| < 1024
  {
  }

  /** A date the enumeration of lines 116-127 keeps. */
  predicate IsHarvestSaturday(d: Date) {
    IsValid(d) && FirstYear <= d.year <= LastYear && Weekday(d) == Saturday
  }

  predicate Increasing(s: seq<Date>) {
    forall i, j :: 0 <= i < j < |s| ==> Before(s[i], s[j])
  }

  /** The enumeration has kept exactly the Saturdays before `cursor`, in order. */
  ghost predicate Enumerated(sats: seq<Date>, cursor: Date) {
    && (forall x :: x in sats <==> IsHarvestSaturday(x) && Before(x, cursor))
    && Increasing(sats)
  }

  /** Lines 120-125 for one (year, month, day): the date is appended when
      `datetime` accepts it and it is a Saturday. */
  lemma EnumerateDay(sats: seq<Date>, year: int, month: int, day: int)
    requires FirstYear <= year <= LastYear
    requires Enumerated(sats, Date(year, month, day))
    ensures var date := Date(year, month, day);
      var keep := MakeDate(year, month, day).Success? && Weekday(date) == Saturday;
      Enumerated(if keep then sats + [date] else sats, Date(year, month, day + 1))
  {
    var date := Date(year, month, day);
    var next := Date(year, month, day + 1);
    if MakeDate(year, month, day).Success? && Weekday(date) == Saturday {
      var s := sats + [date];
      forall x
        ensures x in s <==> IsHarvestSaturday(x) && Before(x, next)
      {
        assert x in s <==> x in sats || x == date;
      }
      forall i, j | 0 <= i < j < |s|
        ensures Before(s[i], s[j])
      {
        if j < |sats| {
          assert s[i] == sats[i] && s[j] == sats[j];
        } else {
          assert s[i] in sats;
        }
      }
    }
  }

  /** Day 32 of a month comes after every valid day of it. */
  lemma EndOfMonth(sats: seq<Date>, year: int, month: int)
    requires 1 <= month <= 12
    requires Enumerated(sats, Date(year, month, 32))
    ensures Enumerated(sats, Date(year, month + 1, 1))
  {
    forall x | IsValid(x)
      ensures Before(x, Date(year, month, 32)) <==> Before(x, Date(year, month + 1, 1))
    {
    }
  }

  /** Month 13 of a year comes after every valid month of it. */
  lemma EndOfYear(sats: seq<Date>, year: int)
    requires Enumerated(sats, Date(year, 13, 1))
    ensures Enumerated(sats, Date(year + 1, 1, 1))
  {
    forall x | IsValid(x)
      ensures Before(x, Date(year, 13, 1)) <==> Before(x, Date(year + 1, 1, 1))
    {
    }
  }

  /** Lines 115-127: the list of Saturdays. It holds exactly the valid dates of
      2007-2013 whose weekday is 5, in strictly increasing order; `datetime`'s
      ValueError on a day the month does not have skips that day. */
  method FindSaturdays() returns (sats: seq<Date>)
    ensures forall d :: d in sats <==> IsHarvestSaturday(d)
    ensures Increasing(sats)
  {
    sats := [];
    for year := FirstYear to LastYear + 1
      invariant Enumerated(sats, Date(year, 1, 1))
    {
      for month := 1 to 13
        invariant Enumerated(sats, Date(year, month, 1))
      {
        for day := 1 to 32
          invariant Enumerated(sats, Date(year, month, day))
        {
          EnumerateDay(sats, year, month, day);
          match MakeDate(year, month, day)
          case Success(date) =>
            if Weekday(date) == Saturday {
              sats := sats + [date];
            }
          case Failure(_) =>
        }
        EndOfMonth(sats, year, month);
      }
      EndOfYear(sats, year);
    }
  }

  /** No Saturday of the list lies before 2007-01-06 or after 2013-12-28. */
  lemma SaturdayBounds(x: Date)
    requires IsHarvestSaturday(x)
    ensures !Before(x, Date(2007, 1, 6)) && !Before(Date(2013, 12, 28), x)
  {
    if x.year == FirstYear && x.month == 1 {
      assert Ordinal(x) == 732676 + x.day;
      assert Weekday(x) == (x.day + 6) % 7;
    } else if x.year == LastYear && x.month == 12 {
      assert Ordinal(x) == 735202 + x.day;
      assert Weekday(x) == (x.day + 5) % 7;
    }
  }

  /** The enumeration begins with the first Saturday of 2007 and ends with the
      last Saturday of 2013. */
  lemma FirstAndLastSaturday(sats: seq<Date>)
    requires forall d :: d in sats <==> IsHarvestSaturday(d)
    requires Increasing(sats)
    ensures sats != [] && sats[0] == Date(2007, 1, 6) && sats[|sats| - 1] == Date(2013, 12, 28)
  {
    var first, last := Date(2007, 1, 6), Date(2013, 12, 28);
    assert IsHarvestSaturday(first) && IsHarvestSaturday(last);
    assert first in sats && last in sats;
    var k :| 0 <= k < |sats| && sats[k] == first;
    var m :| 0 <= m < |sats| && sats[m] == last;
    var n := |sats| - 1;
    assert sats[0] in sats && sats[n] in sats;
    SaturdayBounds(sats[0]);
    SaturdayBounds(sats[n]);
    var lo, hi := sats[0], sats[n];
    assert k == 0 || Before(lo, first);
    assert m == n || Before(last, hi);
  }

  /** The search window of one start date, as lines 141-145 build it. */
  datatype Window = Window(directory: string, startTime: string, endTime: string)

  /** A date whose successor `datetime` can represent. */
  predicate HasWindow(d: Date) {
    IsValid(d) && IsValid(NextDay(d))
  }

  function WindowOf(d: Date): Window
    requires HasWindow(d)
  {
    Window(FormatDate(d), MidnightOf(d), MidnightOf(NextDay(d)))
  }

  /** Every Saturday of the list has a window. */
  lemma SaturdayHasWindow(d: Date)
    requires IsHarvestSaturday(d)
    ensures HasWindow(d)
  {
    NextDayOrdinal(d);
  }

  /** A window runs from midnight UTC of its date to midnight UTC of the
      calendar day after, across month and year ends; both bounds are RFC 3339
      date-times (section 5.6 of RFC 3339), and the output directory is the
      start date. */
  lemma WindowBounds(d: Date)
    requires HasWindow(d)
    ensures var w := WindowOf(d);
      && IsRfc3339UtcDateTime(w.startTime) && IsRfc3339UtcDateTime(w.endTime)
      && ParseDate(w.startTime[..10]) == Some(d)
      && ParseDate(w.endTime[..10]) == Some(NextDay(d))
      && w.directory == w.startTime[..10]
      && Before(d, NextDay(d))
      && (forall x :: IsValid(x) ==> !(Before(d, x) && Before(x, NextDay(d))))
  {
    MidnightIsRfc3339(d);
    MidnightIsRfc3339(NextDay(d));
    FormatDateRoundTrip(d);
    assert MidnightOf(d)[..10] == FormatDate(d);
    forall x | IsValid(x)
      ensures !(Before(d, x) && Before(x, NextDay(d)))
    {
      NextDayIsSuccessor(d, x);
    }
  }

  /** Different start dates write to different directories: the windows'
      outputs are kept apart. */
  lemma WindowDirectoriesDistinct(a: Date, b: Date)
    requires HasWindow(a) && HasWindow(b) && a != b
    ensures WindowOf(a).directory != WindowOf(b).directory
  {
    if FormatDate(a) == FormatDate(b) {
      FormatDateInjective(a, b);
    }
  }

  /** The `get_tweets` call of line 145 for the window of d. */
  function WindowJob(token: string, d: Date): Job
    requires HasWindow(d)
  {
    var w := WindowOf(d);
    Job(w.directory, CreateHeaders(token), SearchParams(Query, w.startTime, w.endTime))
  }

  /** The `get_tweets` calls of the loop, one per date of the list. */
  function WindowJobs(token: string, saturdays: seq<Date>): (jobs: seq<Job>)
    requires forall j :: 0 <= j < |saturdays| ==> HasWindow(saturdays[j])
    ensures |jobs| == |saturdays|
    decreases |saturdays|
  {
    if saturdays == [] then [] else WindowJobs(token, Init(saturdays)) + [WindowJob(token, Last(saturdays))]
  }

  lemma {:induction false} WindowJobAt(token: string, saturdays: seq<Date>, k: nat)
    requires forall j :: 0 <= j < |saturdays| ==> HasWindow(saturdays[j])
    requires k < |saturdays|
    ensures WindowJobs(token, saturdays)[k] == WindowJob(token, saturdays[k])
    decreases |saturdays|
  {
    if k < |saturdays| - 1 {
      WindowJobAt(token, Init(saturdays), k);
    }
  }

  function Sum(s: seq<nat>): nat
    decreases |s|
  {
    if s == [] then 0 else Sum(Init(s)) + Last(s)
  }

  /** How the run ends: after the last window it starts, with the total page
      count; or with the exception a window's harvest re-raised, which ends
      `main` (the total so far is kept here for the contract only). */
  datatype Stop = Done(total: nat) | Aborted(failure: Fetch, total: nat)

  /** The windows the loop of lines 140-148 has completed, from state w0,
      one at a time: the last of them, window k, was started with the running
      total of the windows before it at most Quota and was harvested to the
      end, from worlds[k] to worlds[k + 1], with the visits trace[k],
      returning counts[k] pages. RanWindows states it for every window. */
  ghost predicate Ran(w0: World, jobs: seq<Job>, counts: seq<nat>, worlds: seq<World>, trace: seq<seq<Visit>>)
    decreases |counts|
  {
    && |counts| <= |jobs| && |worlds| == |counts| + 1 && |trace| == |counts|
    && if counts == [] then worlds[0] == w0
       else
         var k := |counts| - 1;
         && Ran(w0, jobs, Init(counts), Init(worlds), Init(trace))
         && Sum(Init(counts)) <= Quota
         && Harvested(worlds[k], jobs[k], Finished(counts[k]), trace[k], [], worlds[k + 1])
  }

  /** The windows started are a prefix of the list, each one harvested to
      the end from the state the one before left, and each started with the
      running total at most Quota. */
  lemma {:induction false} RanWindows(w0: World, jobs: seq<Job>, counts: seq<nat>, worlds: seq<World>, trace: seq<seq<Visit>>)
    requires Ran(w0, jobs, counts, worlds, trace)
    ensures |counts| <= |jobs| && |worlds| == |counts| + 1 && |trace| == |counts| && worlds[0] == w0
    ensures forall j :: 0 <= j < |counts| ==>
      Harvested(worlds[j], jobs[j], Finished(counts[j]), trace[j], [], worlds[j + 1])
    ensures forall j :: 0 <= j < |counts| ==> Sum(counts[..j]) <= Quota
    decreases |counts|
  {
    if counts != [] {
      var k := |counts| - 1;
      RanWindows(w0, jobs, Init(counts), Init(worlds), Init(trace));
      forall j | 0 <= j < |counts|
        ensures Harvested(worlds[j], jobs[j], Finished(counts[j]), trace[j], [], worlds[j + 1])
        ensures Sum(counts[..j]) <= Quota
      {
        if j < k {
          assert worlds[j] == Init(worlds)[j] && worlds[j + 1] == Init(worlds)[j + 1];
          assert counts[j] == Init(counts)[j] && trace[j] == Init(trace)[j];
          assert counts[..j] == Init(counts)[..j];
        } else {
          assert counts[..j] == Init(counts);
        }
      }
    }
  }

  /** What the whole loop did over the windows' jobs from state w0 to state
      w: the windows of Ran, and then either the run stopped, early only once
      the total exceeds Quota (a window in progress is never cut short), or
      the harvest of the next window failed, that window having been started
      with the total at most Quota. */
  ghost predicate QuotaRun(w0: World, jobs: seq<Job>, stop: Stop, counts: seq<nat>, worlds: seq<World>,
                           trace: seq<seq<Visit>>, failed: seq<Visit>, failing: seq<Outcome>, w: World)
  {
    && Ran(w0, jobs, counts, worlds, trace)
    && stop.total == Sum(counts)
    && match stop
       case Done(total) =>
         && w == Last(worlds)
         && (|counts| < |jobs| ==> total > Quota)
       case Aborted(failure, total) =>
         && |counts| < |jobs|
         && total <= Quota
         && Harvested(Last(worlds), jobs[|counts|], Failed(failure), failed, failing, w)
  }

  /** Lines 141-145 for one date: the window's strings, then `get_tweets`. */
  method HarvestWindow(host: Host, token: string, d: Date)
    returns (outcome: Harvest, ghost visits: seq<Visit>, ghost failing: seq<Outcome>)
    requires HasWindow(d)
    modifies host
    ensures Harvested(old(host.State()), WindowJob(token, d), outcome, visits, failing, host.State())
  {
    var w := WindowOf(d);
    outcome, visits, failing := GetTweets(host, Query, w.startTime, w.endTime, w.directory, token);
  }

  /** A window started within the quota and harvested to the end joins Ran. */
  lemma RanOneMore(w0: World, jobs: seq<Job>, counts: seq<nat>, worlds: seq<World>, trace: seq<seq<Visit>>,
                   n: nat, visits: seq<Visit>, w: World)
    requires Ran(w0, jobs, counts, worlds, trace) && |counts| < |jobs| && Sum(counts) <= Quota
    requires Harvested(Last(worlds), jobs[|counts|], Finished(n), visits, [], w)
    ensures Ran(w0, jobs, counts + [n], worlds + [w], trace + [visits])
    ensures Sum(counts + [n]) == Sum(counts) + n
  {
    var c, ws, t := counts + [n], worlds + [w], trace + [visits];
    assert Init(c) == counts && Init(ws) == worlds && Init(t) == trace;
    assert ws[|counts|] == Last(worlds);
  }

  /** The run ends when the list is exhausted or the total exceeds Quota. */
  lemma RunStops(w0: World, jobs: seq<Job>, counts: seq<nat>, worlds: seq<World>, trace: seq<seq<Visit>>, w: World)
    requires Ran(w0, jobs, counts, worlds, trace) && Last(worlds) == w
    requires |counts| < |jobs| ==> Sum(counts) > Quota
    ensures QuotaRun(w0, jobs, Done(Sum(counts)), counts, worlds, trace, [], [], w)
  {
  }

  /** The run ends when the harvest of a window started within the quota fails. */
  lemma RunAborts(w0: World, jobs: seq<Job>, counts: seq<nat>, worlds: seq<World>, trace: seq<seq<Visit>>,
                  failure: Fetch, failed: seq<Visit>, failing: seq<Outcome>, w: World)
    requires Ran(w0, jobs, counts, worlds, trace) && |counts| < |jobs| && Sum(counts) <= Quota
    requires Harvested(Last(worlds), jobs[|counts|], Failed(failure), failed, failing, w)
    ensures QuotaRun(w0, jobs, Aborted(failure, Sum(counts)), counts, worlds, trace, failed, failing, w)
  {
  }

  /** Lines 130 and 140-148: harvest the window of each date in turn, adding
      each page count to the run total, and stop after the first window that
      takes the total over Quota. */
  method RunWindows(host: Host, token: string, saturdays: seq<Date>)
    returns (stop: Stop, ghost counts: seq<nat>, ghost worlds: seq<World>, ghost trace: seq<seq<Visit>>,
             ghost failed: seq<Visit>, ghost failing: seq<Outcome>)
    requires forall j :: 0 <= j < |saturdays| ==> HasWindow(saturdays[j])
    modifies host
    ensures QuotaRun(old(host.State()), WindowJobs(token, saturdays), stop, counts, worlds, trace, failed, failing, host.State())
  {
    ghost var w0 := host.State();
    ghost var jobs := WindowJobs(token, saturdays);
    var total: nat := 0;
    counts, worlds, trace, failed, failing := [], [w0], [], [], [];
    var k := 0;
    while k < |saturdays|
      invariant k == |counts| && |jobs| == |saturdays|
      invariant Ran(w0, jobs, counts, worlds, trace)
      invariant Last(worlds) == host.State()
      invariant total == Sum(counts) <= Quota
    {
      var outcome, visits, lost := HarvestWindow(host, token, saturdays[k]);
      WindowJobAt(token, saturdays, k);
      match outcome
      case Failed(failure) =>
        RunAborts(w0, jobs, counts, worlds, trace, failure, visits, lost, host.State());
        failed, failing := visits, lost;
        stop := Aborted(failure, total);
        return;
      case Finished(n) =>
        RanOneMore(w0, jobs, counts, worlds, trace, n, visits, host.State());
        counts, worlds, trace := counts + [n], worlds + [host.State()], trace + [visits];
        total := total + n;
        k := k + 1;
        if total > Quota {
          RunStops(w0, jobs, counts, worlds, trace, host.State());
          stop := Done(total);
          return;
        }
    }
    RunStops(w0, jobs, counts, worlds, trace, host.State());
    stop := Done(total);
  }

  /** `main` after `auth()`: the Saturdays, then their windows under the quota. */
  method HarvestAll(host: Host, token: string)
    returns (stop: Stop, ghost saturdays: seq<Date>, ghost counts: seq<nat>, ghost worlds: seq<World>,
             ghost trace: seq<seq<Visit>>, ghost failed: seq<Visit>, ghost failing: seq<Outcome>)
    modifies host
    ensures forall d :: d in saturdays <==> IsHarvestSaturday(d)
    ensures Increasing(saturdays)
    ensures forall j :: 0 <= j < |saturdays| ==> HasWindow(saturdays[j])
    ensures QuotaRun(old(host.State()), WindowJobs(token, saturdays), stop, counts, worlds, trace, failed, failing, host.State())
  {
    var sats := FindSaturdays();
    forall j | 0 <= j < |sats|
      ensures HasWindow(sats[j])
    {
      SaturdayHasWindow(sats[j]);
    }
    saturdays := sats;
    stop, counts, worlds, trace, failed, failing := RunWindows(host, token, sats);
  }
}
