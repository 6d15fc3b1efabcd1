/**
 * The three row listings of backend/queries.js: long-running requests
 * (SQL_LONG_RUNNING), terminated requests (SQL_TERMINATED_ROWS) and error
 * events (SQL_EVENT_BUBBLES). Each is a filter followed by an ORDER BY.
 */
module Listings {
  import opened Basics
  import opened Requests
  import opened Sorting
  import Summary
  import Trend

  /** `SYSDATE - (8/24)`: the long-running threshold is fixed, no bind. */
  const LongRunningSeconds: int := 8 * SecondsPerHour

  // ---------------------------------------------------------------------------
  // SQL_LONG_RUNNING

  /** The JOIN with `fnd_concurrent_programs_vl`: the request's program has a row there. */
  predicate HasProgram(r: Request) { r.program.Some? }

  /** `phase_code = 'R' AND actual_start_date <= SYSDATE - 8/24`, after the JOIN. */
  function IsLongRunning(now: int): Request -> bool
  {
    (r: Request) => HasProgram(r) && r.phase == PhaseRunning && AtMost(r.actualStart, now - LongRunningSeconds)
  }

  /** `(SYSDATE - actual_start_date)*24`, kept as whole seconds. */
  function RunningSeconds(r: Request, now: int): int
  {
    now - r.actualStart.GetOr(now)
  }

  /** `ORDER BY running_hours DESC`. */
  function LongestFirst(now: int): (Request, Request) -> bool
  {
    (a: Request, b: Request) => RunningSeconds(a, now) >= RunningSeconds(b, now)
  }

  datatype LongRunningRow = LongRunningRow(
    id: int, program: string, actualStart: int, runningSeconds: int, phase: char, status: char)

  function LongRunningRequests(rs: seq<Request>, now: int): seq<Request>
  {
    Sort(Filter(rs, IsLongRunning(now)), LongestFirst(now))
  }

  function ToLongRunningRow(r: Request, now: int): LongRunningRow
  {
    LongRunningRow(r.id, r.program.GetOr(""), r.actualStart.GetOr(now), RunningSeconds(r, now), r.phase, r.status)
  }

  /** SQL_LONG_RUNNING. */
  function LongRunning(rs: seq<Request>, now: int): seq<LongRunningRow>
  {
    var s := LongRunningRequests(rs, now);
    seq(|s|, i requires 0 <= i < |s| => ToLongRunningRow(s[i], now))
  }

  /** Exactly the running requests started at least eight hours ago (the
      boundary included), each once per occurrence, longest-running first;
      every reported running time is at least eight hours. */
  lemma LongRunningSpec(rs: seq<Request>, now: int)
    ensures var s := LongRunningRequests(rs, now);
      var out := LongRunning(rs, now);
      && multiset(s) == multiset(Filter(rs, IsLongRunning(now)))
      && (forall r :: r in s <==> r in rs && r.program.Some? && r.phase == PhaseRunning
                                   && r.actualStart.Some? && r.actualStart.value <= now - 8 * 3600)
      && |out| == |s|
      && (forall i :: 0 <= i < |out| ==>
            out[i].id == s[i].id && Some(out[i].program) == s[i].program
            && Some(out[i].actualStart) == s[i].actualStart
            && out[i].runningSeconds == now - out[i].actualStart >= 8 * 3600)
      && (forall i, j :: 0 <= i < j < |out| ==> out[i].runningSeconds >= out[j].runningSeconds)
  {
    SortFilter(rs, IsLongRunning(now), LongestFirst(now));
    var s := LongRunningRequests(rs, now);
    forall i | 0 <= i < |s| ensures IsLongRunning(now)(s[i]) {
      assert s[i] in s;
    }
  }

  // ---------------------------------------------------------------------------
  // SQL_TERMINATED_ROWS

  /** `phase_code='C' AND status_code IN ('T','X','D') AND actual_completion_date >= win_start`,
      after the JOIN. */
  function IsTerminatedIn(win: int): Request -> bool
  {
    (r: Request) => HasProgram(r) && r.phase == PhaseCompleted && IsTerminatedStatus(r.status) && AtLeast(r.actualCompletion, win)
  }

  /** `ORDER BY actual_completion_date DESC`. */
  function LatestCompletionFirst(): (Request, Request) -> bool
  {
    (a: Request, b: Request) => a.actualCompletion.GetOr(0) >= b.actualCompletion.GetOr(0)
  }

  datatype TerminatedRow = TerminatedRow(
    id: int, program: string, actualStart: Option<int>, actualCompletion: int, status: char)

  function TerminatedRequests(rs: seq<Request>, now: int, hours: int): seq<Request>
  {
    Sort(Filter(rs, IsTerminatedIn(Summary.WindowStart(now, hours))), LatestCompletionFirst())
  }

  function ToTerminatedRow(r: Request): TerminatedRow
  {
    TerminatedRow(r.id, r.program.GetOr(""), r.actualStart, r.actualCompletion.GetOr(0), r.status)
  }

  /** SQL_TERMINATED_ROWS. */
  function Terminated(rs: seq<Request>, now: int, hours: int): seq<TerminatedRow>
  {
    var s := TerminatedRequests(rs, now, hours);
    seq(|s|, i requires 0 <= i < |s| => ToTerminatedRow(s[i]))
  }

  /** Exactly the completed requests with status T, X or D whose completion is
      at or after `now - hours`, latest completion first. */
  lemma TerminatedSpec(rs: seq<Request>, now: int, hours: int)
    ensures var s := TerminatedRequests(rs, now, hours);
      var out := Terminated(rs, now, hours);
      && multiset(s) == multiset(Filter(rs, IsTerminatedIn(Summary.WindowStart(now, hours))))
      && (forall r :: r in s <==> r in rs && r.program.Some? && r.phase == 'C' && r.status in {'T', 'X', 'D'}
                                   && r.actualCompletion.Some? && r.actualCompletion.value >= now - hours * 3600)
      && |out| == |s|
      && (forall i :: 0 <= i < |out| ==>
            out[i].id == s[i].id && Some(out[i].program) == s[i].program
            && Some(out[i].actualCompletion) == s[i].actualCompletion
            && out[i].actualCompletion >= now - hours * 3600 && out[i].status in {'T', 'X', 'D'})
      && (forall i, j :: 0 <= i < j < |out| ==> out[i].actualCompletion >= out[j].actualCompletion)
  {
    var p := IsTerminatedIn(Summary.WindowStart(now, hours));
    SortFilter(rs, p, LatestCompletionFirst());
    var s := TerminatedRequests(rs, now, hours);
    forall i | 0 <= i < |s| ensures p(s[i]) {
      assert s[i] in s;
    }
  }

  // ---------------------------------------------------------------------------
  // SQL_EVENT_BUBBLES

  /** `TRUNC(SYSDATE,'HH24') - NUMTODSINTERVAL(:hours-1,'HOUR')`. */
  function EventsFrom(now: int, hours: int): int
  {
    TruncHour(now) - (hours - 1) * SecondsPerHour
  }

  /** `actual_completion_date >= from AND phase_code = 'C' AND status_code IN ('E')`. */
  function IsErrorEventFrom(from: int): Request -> bool
  {
    (r: Request) => AtLeast(r.actualCompletion, from) && r.phase == PhaseCompleted && r.status == StatusError
  }

  /** `ORDER BY actual_completion_date`. */
  function EarliestCompletionFirst(): (Request, Request) -> bool
  {
    (a: Request, b: Request) => a.actualCompletion.GetOr(0) <= b.actualCompletion.GetOr(0)
  }

  /** `TO_CHAR(actual_completion_date, 'HH24:MI')` as its two numbers. */
  datatype ClockTime = ClockTime(hour: nat, minute: nat)

  function ClockTimeOf(t: int): (c: ClockTime)
    ensures c.hour < 24 && c.minute < 60
    ensures t % 86400 == c.hour * 3600 + c.minute * 60 + t % 60
  {
    HourOfDayParts(t);
    ClockTime(HourOfDay(t), (t % SecondsPerHour) / 60)
  }

  datatype EventRow = EventRow(eventTime: ClockTime, status: char)

  function ErrorEventRequests(rs: seq<Request>, now: int, hours: int): seq<Request>
  {
    Sort(Filter(rs, IsErrorEventFrom(EventsFrom(now, hours))), EarliestCompletionFirst())
  }

  /** SQL_EVENT_BUBBLES. */
  function ErrorEvents(rs: seq<Request>, now: int, hours: int): seq<EventRow>
  {
    var s := ErrorEventRequests(rs, now, hours);
    seq(|s|, i requires 0 <= i < |s| => EventRow(ClockTimeOf(s[i].actualCompletion.GetOr(0)), s[i].status))
  }

  /** Exactly the completed requests with status E whose completion is at or
      after the start of the hour `hours - 1` hours before the current one,
      earliest completion first; every row carries status E. */
  lemma ErrorEventsSpec(rs: seq<Request>, now: int, hours: int)
    ensures var s := ErrorEventRequests(rs, now, hours);
      var out := ErrorEvents(rs, now, hours);
      && multiset(s) == multiset(Filter(rs, IsErrorEventFrom(EventsFrom(now, hours))))
      && (forall r :: r in s <==> r in rs && r.phase == 'C' && r.status == 'E'
                                   && r.actualCompletion.Some? && r.actualCompletion.value >= EventsFrom(now, hours))
      && |out| == |s|
      && (forall i, j :: 0 <= i < j < |s| ==> s[i].actualCompletion.value <= s[j].actualCompletion.value)
      && (forall i :: 0 <= i < |out| ==>
            out[i].status == 'E' && out[i].eventTime == ClockTimeOf(s[i].actualCompletion.value))
  {
    var p := IsErrorEventFrom(EventsFrom(now, hours));
    var le := EarliestCompletionFirst();
    SortFilter(rs, p, le);
    var s := ErrorEventRequests(rs, now, hours);
    forall i | 0 <= i < |s| ensures p(s[i]) {
      assert s[i] in s;
    }
    forall i, j | 0 <= i < j < |s|
      ensures s[i].actualCompletion.value <= s[j].actualCompletion.value
    {
      assert p(s[i]) && p(s[j]) && le(s[i], s[j]);
    }
    var out := ErrorEvents(rs, now, hours);
    forall i | 0 <= i < |out|
      ensures out[i].status == 'E' && out[i].eventTime == ClockTimeOf(s[i].actualCompletion.value)
    {
      assert p(s[i]);
    }
  }

  /** For hours >= 1 the events start where the oldest trend bucket starts, so
      the bubbles and the trend cover the same hours. */
  lemma EventsFromOldestBucket(now: int, hours: int)
    requires hours >= 1
    ensures var hs := Trend.AscendingHours(now, hours);
      |hs| == hours && hs[0].start == EventsFrom(now, hours)
      && hs[|hs| - 1].start <= now < hs[|hs| - 1].end
  {
    var hs := Trend.AscendingHours(now, hours);
    assert hs[0] == Trend.BucketAt(now, hours - 1);
    assert hs[|hs| - 1] == Trend.BucketAt(now, 0);
  }

  /** A request whose program has no row in the program view is dropped by
      the three queries that JOIN the view (summary, long-running,
      terminated), but still reaches the error events, which do not. */
  lemma UnnamedProgramDropped(rs: seq<Request>, r: Request, now: int, hours: int)
    requires r in rs && r.program.None?
    ensures r !in LongRunningRequests(rs, now)
    ensures r !in TerminatedRequests(rs, now, hours)
    ensures forall p, c, win :: !Summary.InColumn(p, c, win, now)(r)
    ensures r.phase == PhaseCompleted && r.status == StatusError && AtLeast(r.actualCompletion, EventsFrom(now, hours))
        ==> r in ErrorEventRequests(rs, now, hours)
  {
    LongRunningSpec(rs, now);
    TerminatedSpec(rs, now, hours);
    ErrorEventsSpec(rs, now, hours);
  }
}
