/**
 * SQL_TS of backend/queries.js: the hourly trend. The `hours` CTE generates
 * one-hour buckets back from the current hour, `req` joins each request to the
 * bucket holding its requested start, `classed` gives each joined row one label,
 * `agg_lines` counts labels per bucket, `comp`/`agg_bars` count completed errors
 * and terminations by the hour of COMPLETION, and the final SELECT left-joins the
 * two aggregates and orders by hour.
 */
module Trend {
  import opened Basics
  import opened Requests

  /** A row of the `hours` CTE: the half-open interval [start, end). */
  datatype Bucket = Bucket(start: int, end: int)

  predicate InBucket(t: int, b: Bucket) { b.start <= t < b.end }

  /** `CONNECT BY LEVEL <= :hours` always yields the root row, so a bound
      below one still produces one bucket. */
  function BucketCount(hours: int): nat
  {
    if hours >= 1 then hours else 1
  }

  /** The bucket produced at LEVEL = i + 1. */
  function BucketAt(now: int, i: nat): Bucket
  {
    var s := TruncHour(now) - i * SecondsPerHour;
    Bucket(s, s + SecondsPerHour)
  }

  /** The `hours` CTE in LEVEL order (newest first). */
  function Hours(now: int, hours: int): seq<Bucket>
  {
    seq(BucketCount(hours), i requires 0 <= i => BucketAt(now, i))
  }

  /** The same buckets, oldest first: the order of the final ORDER BY. */
  function AscendingHours(now: int, hours: int): seq<Bucket>
  {
    var n := BucketCount(hours);
    seq(n, i requires 0 <= i < n => BucketAt(now, n - 1 - i))
  }

  /** Shape of the generated buckets: `hours` of them, and a single one when
      `hours` is below 1 (CONNECT BY always yields its first LEVEL), each one
      hour long and aligned to the hour, the first one holding `now`, and each
      later LEVEL ending where the previous one starts, so they are pairwise
      disjoint. */
  lemma HoursShape(now: int, hours: int)
    ensures var h := Hours(now, hours);
      && (hours < 1 ==> |h| == 1)
      && (hours >= 1 ==> |h| == hours)
      && InBucket(now, h[0])
      && (forall i :: 0 <= i < |h| ==>
            h[i].end == h[i].start + SecondsPerHour && h[i].start % SecondsPerHour == 0)
      && (forall i :: 0 < i < |h| ==> h[i].end == h[i - 1].start)
      && (forall i, j :: 0 <= i < j < |h| ==> h[j].end <= h[i].start)
  {
  }

  /** The join `requested_start_date >= hour_start AND < hour_end` puts a
      request in at most one bucket. */
  lemma AtMostOneBucket(now: int, hours: int, t: int)
    ensures var h := Hours(now, hours);
      forall i, j :: 0 <= i < |h| && 0 <= j < |h| && InBucket(t, h[i]) && InBucket(t, h[j]) ==> i == j
  {
    HoursShape(now, hours);
  }

  /** Ascending order lists exactly the generated buckets, strictly increasing. */
  lemma AscendingHoursAreHours(now: int, hours: int)
    ensures forall b :: b in AscendingHours(now, hours) <==> b in Hours(now, hours)
    ensures var a := AscendingHours(now, hours);
      forall i, j :: 0 <= i < j < |a| ==> a[i].end <= a[j].start
  {
    var a, h := AscendingHours(now, hours), Hours(now, hours);
    forall b | b in a ensures b in h {
      var i :| 0 <= i < |a| && a[i] == b;
      assert h[|h| - 1 - i] == b;
    }
    forall b | b in h ensures b in a {
      var i :| 0 <= i < |h| && h[i] == b;
      assert a[|a| - 1 - i] == b;
    }
  }

  // ---------------------------------------------------------------------------
  // `classed`: one label per joined row

  /** The values of the `bucket` column; Unlabelled is the CASE's NULL. */
  datatype Label =
    | CompletedOk | Completed1hr | CompletedWarning | CompletedWarn1hr
    | CompletedError | CompletedTerminated | Error1hr | Terminated1hr
    | Running | Pending | Inactive | Unlabelled

  /** The `_1hr` labels: completed, but not before the end of the bucket. */
  predicate IsFresh(l: Label) {
    l == Completed1hr || l == CompletedWarn1hr || l == Error1hr || l == Terminated1hr
  }

  /** The four completed outcomes. */
  predicate IsCompletedOutcome(l: Label) {
    l == CompletedOk || l == CompletedWarning || l == CompletedTerminated || l == CompletedError
  }

  /** The CASE of `classed` for a row joined to bucket b. */
  function Classify(r: Request, b: Bucket, now: int): Label
  {
    if r.phase == PhaseCompleted then
      if r.actualCompletion.GetOr(r.requestedStart) < b.end then
        if r.status == StatusNormal then CompletedOk
        else if IsWarningStatus(r.status) then CompletedWarning
        else if IsTerminatedStatus(r.status) then CompletedTerminated
        else CompletedError
      else
        if r.status == StatusNormal then Completed1hr
        else if IsWarningStatus(r.status) then CompletedWarn1hr
        else if IsTerminatedStatus(r.status) then Terminated1hr
        else Error1hr
    else if Before(r.actualCompletion, b.end) then
      if IsWarningStatus(r.status) then CompletedWarning
      else if IsTerminatedStatus(r.status) then CompletedTerminated
      else if r.status == StatusError then CompletedError
      else CompletedOk
    else if r.phase == PhaseRunning && AtLeast(r.actualStart, b.start) && Before(r.actualStart, b.end) then
      Running
    else if r.phase == PhaseInactive || (r.phase == PhasePending && r.status == StatusInactive) then
      Inactive
    else if r.phase == PhasePending && r.requestedStart <= now then
      Pending
    else
      Unlabelled
  }

  /** A `_1hr` label is given exactly to phase-C rows whose NVL(completion,
      requested start) is not before the bucket end; every other phase-C row
      gets one of the four completed outcomes. */
  lemma FreshIffCompletedLate(r: Request, b: Bucket, now: int)
    ensures IsFresh(Classify(r, b, now))
        <==> r.phase == PhaseCompleted && r.actualCompletion.GetOr(r.requestedStart) >= b.end
    ensures r.phase == PhaseCompleted && r.actualCompletion.GetOr(r.requestedStart) < b.end
        ==> IsCompletedOutcome(Classify(r, b, now))
  {
  }

  /** Since the join puts requested_start before hour_end, a completed row
      without a completion date never gets a `_1hr` label. */
  lemma CompletedWithoutDateNeverFresh(r: Request, b: Bucket, now: int)
    requires InBucket(r.requestedStart, b)
    requires r.phase == PhaseCompleted && r.actualCompletion.None?
    ensures IsCompletedOutcome(Classify(r, b, now))
  {
  }

  /** Status codes outside C, G, W, T, X, D, E fall to the ELSE branches, which
      differ: completed_error / error_1hr for phase C, completed_ok for the
      completion-date fallback. */
  lemma UnrecognisedStatusDefaults(r: Request, b: Bucket, now: int)
    requires r.status !in {'C', 'G', 'W', 'T', 'X', 'D', 'E'}
    ensures r.phase == PhaseCompleted && r.actualCompletion.GetOr(r.requestedStart) < b.end
        ==> Classify(r, b, now) == CompletedError
    ensures r.phase == PhaseCompleted && r.actualCompletion.GetOr(r.requestedStart) >= b.end
        ==> Classify(r, b, now) == Error1hr
    ensures r.phase != PhaseCompleted && Before(r.actualCompletion, b.end)
        ==> Classify(r, b, now) == CompletedOk
  {
  }

  /** A completion date before the bucket end makes any row a completed outcome,
      whatever its phase: this beats running, inactive and pending. */
  lemma CompletionDateWins(r: Request, b: Bucket, now: int)
    requires InBucket(r.requestedStart, b)
    requires Before(r.actualCompletion, b.end)
    ensures IsCompletedOutcome(Classify(r, b, now))
  {
  }

  /** `running`: phase R with actual start inside the bucket, and no completion
      date before the bucket end. */
  lemma RunningIff(r: Request, b: Bucket, now: int)
    ensures Classify(r, b, now) == Running
        <==> r.phase == PhaseRunning && !Before(r.actualCompletion, b.end)
             && r.actualStart.Some? && InBucket(r.actualStart.value, b)
  {
  }

  /** `inactive` (phase I, or phase P with status I) beats `pending`. */
  lemma InactiveIff(r: Request, b: Bucket, now: int)
    ensures Classify(r, b, now) == Inactive
        <==> !Before(r.actualCompletion, b.end)
             && (r.phase == PhaseInactive || (r.phase == PhasePending && r.status == StatusInactive))
  {
  }

  /** `pending`: phase P, not status I, requested start not after now. */
  lemma PendingIff(r: Request, b: Bucket, now: int)
    ensures Classify(r, b, now) == Pending
        <==> r.phase == PhasePending && r.status != StatusInactive
             && !Before(r.actualCompletion, b.end) && r.requestedStart <= now
  {
  }

  /** The rows no rule labels; they count only in `scheduled`. */
  lemma UnlabelledIff(r: Request, b: Bucket, now: int)
    ensures Classify(r, b, now) == Unlabelled
        <==> r.phase != PhaseCompleted && !Before(r.actualCompletion, b.end)
             && !(r.phase == PhaseRunning && r.actualStart.Some? && InBucket(r.actualStart.value, b))
             && r.phase != PhaseInactive
             && !(r.phase == PhasePending && (r.status == StatusInactive || r.requestedStart <= now))
  {
  }

  // ---------------------------------------------------------------------------
  // `req` and `agg_lines`

  function InBucketOf(b: Bucket): Request -> bool
  {
    (r: Request) => InBucket(r.requestedStart, b)
  }

  function HasLabel(b: Bucket, now: int, l: Label): Request -> bool
  {
    (r: Request) => Classify(r, b, now) == l
  }

  /** The rows of `req` for bucket b. */
  function Joined(rs: seq<Request>, b: Bucket): seq<Request>
  {
    Filter(rs, InBucketOf(b))
  }

  function CountLabel(s: seq<Request>, b: Bucket, now: int, l: Label): nat
  {
    Count(s, HasLabel(b, now, l))
  }

  /** A row of `agg_lines`. */
  datatype LineAgg = LineAgg(
    bucket: Bucket,
    scheduled: nat,
    completedOk: nat, completed1hr: nat,
    completedWarning: nat, completedWarn1hr: nat,
    completedErrorLine: nat, completedTerminatedLine: nat,
    error1hr: nat, terminated1hr: nat,
    running: nat, pending: nat, inactive: nat)

  function AggLine(rs: seq<Request>, b: Bucket, now: int): LineAgg
  {
    var j := Joined(rs, b);
    LineAgg(b, |j|,
      CountLabel(j, b, now, CompletedOk), CountLabel(j, b, now, Completed1hr),
      CountLabel(j, b, now, CompletedWarning), CountLabel(j, b, now, CompletedWarn1hr),
      CountLabel(j, b, now, CompletedError), CountLabel(j, b, now, CompletedTerminated),
      CountLabel(j, b, now, Error1hr), CountLabel(j, b, now, Terminated1hr),
      CountLabel(j, b, now, Running), CountLabel(j, b, now, Pending),
      CountLabel(j, b, now, Inactive))
  }

  /** The eleven line counts of a bucket. */
  function LineTotal(l: LineAgg): nat
  {
    l.completedOk + l.completed1hr + l.completedWarning + l.completedWarn1hr
    + l.completedErrorLine + l.completedTerminatedLine + l.error1hr + l.terminated1hr
    + l.running + l.pending + l.inactive
  }

  /** Every row gets exactly one label, so the twelve label counts (the NULL
      label included) add up to the number of rows. */
  lemma {:induction false} LabelCountsPartition(s: seq<Request>, b: Bucket, now: int)
    ensures CountLabel(s, b, now, CompletedOk) + CountLabel(s, b, now, Completed1hr)
          + CountLabel(s, b, now, CompletedWarning) + CountLabel(s, b, now, CompletedWarn1hr)
          + CountLabel(s, b, now, CompletedError) + CountLabel(s, b, now, CompletedTerminated)
          + CountLabel(s, b, now, Error1hr) + CountLabel(s, b, now, Terminated1hr)
          + CountLabel(s, b, now, Running) + CountLabel(s, b, now, Pending)
          + CountLabel(s, b, now, Inactive) + CountLabel(s, b, now, Unlabelled) == |s|
  {
    if s != [] {
      LabelCountsPartition(s[..|s| - 1], b, now);
      LabelCountStep(s, b, now, CompletedOk);
      LabelCountStep(s, b, now, Completed1hr);
      LabelCountStep(s, b, now, CompletedWarning);
      LabelCountStep(s, b, now, CompletedWarn1hr);
      LabelCountStep(s, b, now, CompletedError);
      LabelCountStep(s, b, now, CompletedTerminated);
      LabelCountStep(s, b, now, Error1hr);
      LabelCountStep(s, b, now, Terminated1hr);
      LabelCountStep(s, b, now, Running);
      LabelCountStep(s, b, now, Pending);
      LabelCountStep(s, b, now, Inactive);
      LabelCountStep(s, b, now, Unlabelled);
      OneLabelEach(Classify(s[|s| - 1], b, now));
    }
  }

  /** 1 when a row labelled m counts towards label l. */
  function Indicator(l: Label, m: Label): nat
  {
    if l == m then 1 else 0
  }

  /** A label counts towards exactly one of the twelve labels. */
  lemma OneLabelEach(m: Label)
    ensures Indicator(CompletedOk, m) + Indicator(Completed1hr, m)
          + Indicator(CompletedWarning, m) + Indicator(CompletedWarn1hr, m)
          + Indicator(CompletedError, m) + Indicator(CompletedTerminated, m)
          + Indicator(Error1hr, m) + Indicator(Terminated1hr, m)
          + Indicator(Running, m) + Indicator(Pending, m)
          + Indicator(Inactive, m) + Indicator(Unlabelled, m) == 1
  {
  }

  /** Counting a label over a non-empty list: the shorter list plus the last row. */
  lemma LabelCountStep(s: seq<Request>, b: Bucket, now: int, l: Label)
    requires s != []
    ensures CountLabel(s, b, now, l)
         == CountLabel(s[..|s| - 1], b, now, l) + Indicator(l, Classify(s[|s| - 1], b, now))
  {
  }

  /** In every hour the eleven line counts plus the unlabelled rows make up
      `scheduled` (COUNT(*)), so they never exceed it. */
  lemma LineCountsWithinScheduled(rs: seq<Request>, b: Bucket, now: int)
    ensures var l := AggLine(rs, b, now);
      LineTotal(l) + CountLabel(Joined(rs, b), b, now, Unlabelled) == l.scheduled
      && LineTotal(l) <= l.scheduled
  {
    LabelCountsPartition(Joined(rs, b), b, now);
  }

  /** The groups of `agg_lines`, in the order of hs: GROUP BY yields a row
      only for buckets that some request joined. */
  function GroupedBuckets(rs: seq<Request>, hs: seq<Bucket>): seq<Bucket>
  {
    if hs == [] then []
    else (if |Joined(rs, hs[0])| > 0 then [hs[0]] else []) + GroupedBuckets(rs, hs[1..])
  }

  /** `agg_lines`, oldest hour first. */
  function AggLines(rs: seq<Request>, now: int, hours: int): seq<LineAgg>
  {
    var g := GroupedBuckets(rs, AscendingHours(now, hours));
    seq(|g|, i requires 0 <= i < |g| => AggLine(rs, g[i], now))
  }

  // ---------------------------------------------------------------------------
  // `comp` and `agg_bars`: keyed on the completion date

  /** The join of `comp`: phase C, completion inside the bucket. */
  function CompletedInBucket(b: Bucket): Request -> bool
  {
    (r: Request) => r.phase == PhaseCompleted && AtLeast(r.actualCompletion, b.start) && Before(r.actualCompletion, b.end)
  }

  function ErrorCompletedIn(b: Bucket): Request -> bool
  {
    (r: Request) => CompletedInBucket(b)(r) && r.status == StatusError
  }

  function TerminatedCompletedIn(b: Bucket): Request -> bool
  {
    (r: Request) => CompletedInBucket(b)(r) && IsTerminatedStatus(r.status)
  }

  /** A row of `agg_bars`. */
  datatype BarAgg = BarAgg(bucket: Bucket, completedError: nat, completedTerminated: nat)

  function AggBar(rs: seq<Request>, b: Bucket): BarAgg
  {
    BarAgg(b, Count(rs, ErrorCompletedIn(b)), Count(rs, TerminatedCompletedIn(b)))
  }

  /** `agg_bars`: a row for each bucket that `comp` joined at least one request to. */
  function AggBarsFrom(rs: seq<Request>, hs: seq<Bucket>): seq<BarAgg>
  {
    if hs == [] then []
    else (if Count(rs, CompletedInBucket(hs[0])) > 0 then [AggBar(rs, hs[0])] else [])
         + AggBarsFrom(rs, hs[1..])
  }

  /** `LEFT JOIN agg_bars b ON b.hour_start = l.hour_start AND b.hour_end = l.hour_end`. */
  function LookupBar(bars: seq<BarAgg>, b: Bucket): Option<BarAgg>
  {
    if bars == [] then None
    else if bars[0].bucket.start == b.start && bars[0].bucket.end == b.end then Some(bars[0])
    else LookupBar(bars[1..], b)
  }

  /** A row of the trend result. The hour columns are
      `TO_CHAR(hour_start, 'HH24')` and `TO_CHAR(hour_end, 'HH24')`: hours of
      the day, without the date. */
  datatype TrendRow = TrendRow(
    hourStart: nat, hourEnd: nat,
    scheduled: nat,
    completedOk: nat, completed1hr: nat,
    completedWarning: nat, completedWarn1hr: nat,
    running: nat, pending: nat, inactive: nat,
    error1hr: nat, terminated1hr: nat,
    completedError: nat, completedTerminated: nat)

  /** The final SELECT for one `agg_lines` row, with NVL(.., 0) on the bar side. */
  function OutputRow(l: LineAgg, bars: seq<BarAgg>): TrendRow
  {
    var bar := LookupBar(bars, l.bucket);
    TrendRow(HourOfDay(l.bucket.start), HourOfDay(l.bucket.end), l.scheduled,
      l.completedOk, l.completed1hr, l.completedWarning, l.completedWarn1hr,
      l.running, l.pending, l.inactive, l.error1hr, l.terminated1hr,
      if bar.Some? then bar.value.completedError else 0,
      if bar.Some? then bar.value.completedTerminated else 0)
  }

  /** The final SELECT over the `agg_lines` rows of buckets g. */
  function SelectRows(rs: seq<Request>, g: seq<Bucket>, bars: seq<BarAgg>, now: int): (t: seq<TrendRow>)
    ensures |t| == |g|
  {
    if g == [] then [] else [OutputRow(AggLine(rs, g[0], now), bars)] + SelectRows(rs, g[1..], bars, now)
  }

  /** SQL_TS. */
  function TrendRows(rs: seq<Request>, now: int, hours: int): seq<TrendRow>
  {
    SelectRows(rs, GroupedBuckets(rs, AscendingHours(now, hours)), AggBarsFrom(rs, Hours(now, hours)), now)
  }

  // ---------------------------------------------------------------------------
  // Properties of the result

  /** The left join finds the `agg_bars` row of the same bucket, if there is one. */
  lemma {:induction false} LookupBarFinds(rs: seq<Request>, hs: seq<Bucket>, b: Bucket)
    ensures LookupBar(AggBarsFrom(rs, hs), b)
         == if b in hs && Count(rs, CompletedInBucket(b)) > 0 then Some(AggBar(rs, b)) else None
  {
    if hs != [] {
      LookupBarFinds(rs, hs[1..], b);
      assert hs == [hs[0]] + hs[1..];
      var tail := AggBarsFrom(rs, hs[1..]);
      if Count(rs, CompletedInBucket(hs[0])) > 0 {
        var bars := [AggBar(rs, hs[0])] + tail;
        assert AggBarsFrom(rs, hs) == bars;
        if hs[0] != b {
          assert bars[1..] == tail;
        }
      } else {
        assert AggBarsFrom(rs, hs) == tail;
      }
    }
  }

  /** Every grouped bucket comes from hs and joined at least one request, and
      every such bucket of hs is grouped. */
  lemma {:induction false} GroupedBucketsExact(rs: seq<Request>, hs: seq<Bucket>)
    ensures forall b :: b in GroupedBuckets(rs, hs) <==> b in hs && |Joined(rs, b)| > 0
  {
    if hs != [] {
      GroupedBucketsExact(rs, hs[1..]);
      assert hs == [hs[0]] + hs[1..];
    }
  }

  /** Grouping keeps the buckets' strict order. */
  lemma {:induction false} GroupedBucketsOrdered(rs: seq<Request>, hs: seq<Bucket>)
    requires forall i, j :: 0 <= i < j < |hs| ==> hs[i].end <= hs[j].start
    requires forall i :: 0 <= i < |hs| ==> hs[i].start < hs[i].end
    ensures forall i, j :: 0 <= i < j < |GroupedBuckets(rs, hs)| ==>
      GroupedBuckets(rs, hs)[i].start < GroupedBuckets(rs, hs)[j].start
  {
    if hs != [] {
      var rest := hs[1..];
      GroupedBucketsOrdered(rs, rest);
      GroupedBucketsExact(rs, rest);
      var tail := GroupedBuckets(rs, rest);
      var head := if |Joined(rs, hs[0])| > 0 then [hs[0]] else [];
      assert GroupedBuckets(rs, hs) == head + tail;
      forall k | 0 <= k < |tail| ensures hs[0].start < tail[k].start {
        assert tail[k] in hs[1..];
        var m :| 0 <= m < |hs[1..]| && hs[1..][m] == tail[k];
        assert hs[0].end <= hs[m + 1].start;
      }
      var g := head + tail;
      forall i, j | 0 <= i < j < |g| ensures g[i].start < g[j].start {
        if head != [] {
          assert g[j] == tail[j - 1];
          if i > 0 {
            assert g[i] == tail[i - 1];
            assert tail[i - 1].start < tail[j - 1].start;
          } else {
            assert g[i] == hs[0];
          }
        } else {
          assert g[i] == tail[i] && g[j] == tail[j];
          assert tail[i].start < tail[j].start;
        }
      }
    }
  }

  /** Each selected row is the final SELECT of its bucket's `agg_lines` row. */
  lemma {:induction false} SelectRowsAt(rs: seq<Request>, g: seq<Bucket>, bars: seq<BarAgg>, now: int, i: int)
    requires 0 <= i < |g|
    ensures |SelectRows(rs, g, bars, now)| == |g|
    ensures SelectRows(rs, g, bars, now)[i] == OutputRow(AggLine(rs, g[i], now), bars)
  {
    var head := OutputRow(AggLine(rs, g[0], now), bars);
    var tail := SelectRows(rs, g[1..], bars, now);
    assert SelectRows(rs, g, bars, now) == [head] + tail;
    if i > 0 {
      SelectRowsAt(rs, g[1..], bars, now, i - 1);
      assert g[1..][i - 1] == g[i];
    }
  }

  /** Row i of the result is the `agg_lines` row of the i-th grouped bucket. */
  lemma TrendRowAt(rs: seq<Request>, now: int, hours: int, i: int)
    requires 0 <= i < |GroupedBuckets(rs, AscendingHours(now, hours))|
    ensures var g := GroupedBuckets(rs, AscendingHours(now, hours));
      |TrendRows(rs, now, hours)| == |g|
      && TrendRows(rs, now, hours)[i] == OutputRow(AggLine(rs, g[i], now), AggBarsFrom(rs, Hours(now, hours)))
  {
    SelectRowsAt(rs, GroupedBuckets(rs, AscendingHours(now, hours)), AggBarsFrom(rs, Hours(now, hours)), now, i);
  }

  /** Row i of the result shows the hours of the day of the i-th grouped
      bucket's bounds and that bucket's row count. */
  lemma TrendRowBucket(rs: seq<Request>, now: int, hours: int, i: int)
    requires 0 <= i < |GroupedBuckets(rs, AscendingHours(now, hours))|
    ensures |TrendRows(rs, now, hours)| == |GroupedBuckets(rs, AscendingHours(now, hours))|
    ensures TrendRows(rs, now, hours)[i].hourStart == HourOfDay(GroupedBuckets(rs, AscendingHours(now, hours))[i].start)
    ensures TrendRows(rs, now, hours)[i].hourEnd == HourOfDay(GroupedBuckets(rs, AscendingHours(now, hours))[i].end)
    ensures TrendRows(rs, now, hours)[i].scheduled == |Joined(rs, GroupedBuckets(rs, AscendingHours(now, hours))[i])|
  {
    TrendRowAt(rs, now, hours, i);
  }

  /** In every row of the result the end hour follows the start hour on the
      24-hour clock: one more, and 0 after 23. */
  lemma TrendRowHoursStep(rs: seq<Request>, now: int, hours: int, i: int)
    requires 0 <= i < |TrendRows(rs, now, hours)|
    ensures var row := TrendRows(rs, now, hours)[i];
      row.hourEnd == if row.hourStart == 23 then 0 else row.hourStart + 1
  {
    var start, end := RowBounds(rs, now, hours, i);
    HourOfDayNext(start);
  }

  /** Oldest first, each generated bucket starts at the hour of the day after
      the previous one's, 0 following 23. */
  lemma AscendingHoursStep(now: int, hours: int, i: int)
    requires 0 <= i && i + 1 < |AscendingHours(now, hours)|
    ensures var a := AscendingHours(now, hours);
      HourOfDay(a[i + 1].start) == if HourOfDay(a[i].start) == 23 then 0 else HourOfDay(a[i].start) + 1
  {
    var a, n := AscendingHours(now, hours), BucketCount(hours);
    assert a[i] == BucketAt(now, n - 1 - i) && a[i + 1] == BucketAt(now, n - 2 - i);
    assert (n - 1 - i) * SecondsPerHour == (n - 2 - i) * SecondsPerHour + SecondsPerHour;
    HourOfDayNext(a[i].start);
  }

  /** With more than 24 buckets the hour of the day repeats: buckets 24
      apart are different hours showing the same HH24 value. */
  lemma AscendingHoursRepeat(now: int, hours: int, i: int)
    requires 0 <= i && i + 24 < |AscendingHours(now, hours)|
    ensures var a := AscendingHours(now, hours);
      a[i] != a[i + 24] && HourOfDay(a[i].start) == HourOfDay(a[i + 24].start)
  {
    var a, n := AscendingHours(now, hours), BucketCount(hours);
    assert a[i] == BucketAt(now, n - 1 - i) && a[i + 24] == BucketAt(now, n - 25 - i);
    assert (n - 1 - i) * SecondsPerHour == (n - 25 - i) * SecondsPerHour + 86400;
    HourOfDayPeriodic(a[i].start);
  }

  /** Half an hour past midnight with `hours` = 2 the buckets, oldest first,
      show the hours of the day 23 and then 0. */
  lemma MidnightWrap()
    ensures var a := AscendingHours(86400 + 1800, 2);
      |a| == 2 && HourOfDay(a[0].start) == 23 && HourOfDay(a[1].start) == 0
  {
    var a := AscendingHours(86400 + 1800, 2);
    assert TruncHour(86400 + 1800) == 86400;
    assert a[0] == BucketAt(86400 + 1800, 1) && a[1] == BucketAt(86400 + 1800, 0);
    assert a[0].start == 82800 && a[1].start == 86400;
  }

  /** Two rows whose buckets lie a day apart show the same hour of the day. */
  lemma TrendRowsRepeatHour(rs: seq<Request>, now: int, hours: int, i: int, j: int)
    requires 0 <= i < |GroupedBuckets(rs, AscendingHours(now, hours))|
    requires 0 <= j < |GroupedBuckets(rs, AscendingHours(now, hours))|
    requires GroupedBuckets(rs, AscendingHours(now, hours))[j].start
      == GroupedBuckets(rs, AscendingHours(now, hours))[i].start + 86400
    ensures TrendRows(rs, now, hours)[i].hourStart == TrendRows(rs, now, hours)[j].hourStart
  {
    var si := RowStart(rs, now, hours, i);
    var sj := RowStart(rs, now, hours, j);
    HourOfDayPeriodic(si);
  }

  /** The start of the bucket behind row i, which the row shows as its hour of
      the day. */
  lemma RowStart(rs: seq<Request>, now: int, hours: int, i: int) returns (start: int)
    requires 0 <= i < |GroupedBuckets(rs, AscendingHours(now, hours))|
    ensures start == GroupedBuckets(rs, AscendingHours(now, hours))[i].start
    ensures i < |TrendRows(rs, now, hours)| && TrendRows(rs, now, hours)[i].hourStart == HourOfDay(start)
  {
    TrendRowBucket(rs, now, hours, i);
    start := GroupedBuckets(rs, AscendingHours(now, hours))[i].start;
  }

  /** The bounds of the bucket behind row i: an hour apart, and shown as
      their hours of the day. */
  lemma RowBounds(rs: seq<Request>, now: int, hours: int, i: int) returns (start: int, end: int)
    requires 0 <= i < |TrendRows(rs, now, hours)|
    ensures end == start + SecondsPerHour
    ensures TrendRows(rs, now, hours)[i].hourStart == HourOfDay(start)
    ensures TrendRows(rs, now, hours)[i].hourEnd == HourOfDay(end)
  {
    TrendRowBucket(rs, now, hours, i);
    GroupedBucketHour(rs, now, hours, i);
    var b := GroupedBuckets(rs, AscendingHours(now, hours))[i];
    start, end := b.start, b.end;
  }

  /** A grouped bucket is a generated one, an hour long. */
  lemma GroupedBucketHour(rs: seq<Request>, now: int, hours: int, i: int)
    requires 0 <= i < |GroupedBuckets(rs, AscendingHours(now, hours))|
    ensures var b := GroupedBuckets(rs, AscendingHours(now, hours))[i];
      b in Hours(now, hours) && b.end == b.start + SecondsPerHour
  {
    var g := GroupedBuckets(rs, AscendingHours(now, hours));
    GroupedBucketsExact(rs, AscendingHours(now, hours));
    AscendingHoursAreHours(now, hours);
    assert g[i] in g;
    HoursShape(now, hours);
  }

  /** The generated buckets oldest first satisfy what grouping needs. */
  lemma AscendingHoursOrdered(now: int, hours: int)
    ensures var a := AscendingHours(now, hours);
      && (forall i, j :: 0 <= i < j < |a| ==> a[i].end <= a[j].start)
      && (forall i :: 0 <= i < |a| ==> a[i].start < a[i].end)
  {
    AscendingHoursAreHours(now, hours);
    var a := AscendingHours(now, hours);
    forall i | 0 <= i < |a| ensures a[i].start < a[i].end {
      assert a[i] == BucketAt(now, |a| - 1 - i);
    }
  }

  /** `ORDER BY l.hour_start` sorts on the bucket's full start time: the
      buckets behind the rows strictly ascend, and row i shows the hour of
      the day of the i-th. */
  lemma TrendRowsAscending(rs: seq<Request>, now: int, hours: int)
    ensures var g := GroupedBuckets(rs, AscendingHours(now, hours));
      var t := TrendRows(rs, now, hours);
      && |t| == |g|
      && (forall i, j :: 0 <= i < j < |g| ==> g[i].start < g[j].start)
      && (forall i :: 0 <= i < |t| ==> t[i].hourStart == HourOfDay(g[i].start))
  {
    var asc := AscendingHours(now, hours);
    AscendingHoursOrdered(now, hours);
    GroupedBucketsOrdered(rs, asc);
    var g := GroupedBuckets(rs, asc);
    var t := TrendRows(rs, now, hours);
    forall i | 0 <= i < |t| ensures t[i].hourStart == HourOfDay(g[i].start) {
      TrendRowBucket(rs, now, hours, i);
    }
  }

  /** Every row of the trend result comes from a generated bucket that some
      request's requested start falls in, and `scheduled` is that number. */
  lemma TrendRowsFromHours(rs: seq<Request>, now: int, hours: int)
    ensures var g := GroupedBuckets(rs, AscendingHours(now, hours));
      var t := TrendRows(rs, now, hours);
      |t| == |g| &&
      forall i :: 0 <= i < |t| ==>
        g[i] in Hours(now, hours) && t[i].hourStart == HourOfDay(g[i].start)
        && t[i].scheduled == |Joined(rs, g[i])| > 0
  {
    var asc := AscendingHours(now, hours);
    AscendingHoursAreHours(now, hours);
    GroupedBucketsExact(rs, asc);
    var g := GroupedBuckets(rs, asc);
    var t := TrendRows(rs, now, hours);
    forall i | 0 <= i < |t|
      ensures g[i] in Hours(now, hours) && t[i].hourStart == HourOfDay(g[i].start)
      ensures t[i].scheduled == |Joined(rs, g[i])| > 0
    {
      TrendRowBucket(rs, now, hours, i);
      assert g[i] in g;
    }
  }

  /** Every generated bucket that some request's requested start falls in has
      a row in the trend result. */
  lemma TrendRowsCoverHours(rs: seq<Request>, now: int, hours: int)
    ensures var g := GroupedBuckets(rs, AscendingHours(now, hours));
      var t := TrendRows(rs, now, hours);
      forall b :: b in Hours(now, hours) && |Joined(rs, b)| > 0 ==>
        exists i :: 0 <= i < |t| && i < |g| && g[i] == b && t[i].hourStart == HourOfDay(b.start)
  {
    var asc := AscendingHours(now, hours);
    var g := GroupedBuckets(rs, asc);
    var bars := AggBarsFrom(rs, Hours(now, hours));
    var t := TrendRows(rs, now, hours);
    assert t == SelectRows(rs, g, bars, now);
    SelectRowsStarts(rs, g, bars, now);
    AscendingHoursAreHours(now, hours);
    GroupedBucketsExact(rs, asc);
    forall b | b in Hours(now, hours) && |Joined(rs, b)| > 0
      ensures exists i :: 0 <= i < |t| && i < |g| && g[i] == b && t[i].hourStart == HourOfDay(b.start)
    {
      assert b in g;
      var i :| 0 <= i < |g| && g[i] == b;
      assert t[i].hourStart == HourOfDay(b.start);
    }
  }

  /** The selected rows show the hour of the day their buckets start at. */
  lemma {:induction false} SelectRowsStarts(rs: seq<Request>, g: seq<Bucket>, bars: seq<BarAgg>, now: int)
    ensures forall i :: 0 <= i < |g| ==> SelectRows(rs, g, bars, now)[i].hourStart == HourOfDay(g[i].start)
  {
    if g != [] {
      SelectRowsStarts(rs, g[1..], bars, now);
      var t, tail := SelectRows(rs, g, bars, now), SelectRows(rs, g[1..], bars, now);
      assert t == [OutputRow(AggLine(rs, g[0], now), bars)] + tail;
      forall i | 0 <= i < |g|
        ensures t[i].hourStart == HourOfDay(g[i].start)
      {
        if i > 0 {
          assert t[i] == tail[i - 1] && g[1..][i - 1] == g[i];
        }
      }
    }
  }

  /** The pending column of row i counts the pending rows joined to the i-th
      grouped bucket. */
  lemma TrendRowPending(rs: seq<Request>, now: int, hours: int, i: int)
    requires 0 <= i < |TrendRows(rs, now, hours)|
    ensures var g := GroupedBuckets(rs, AscendingHours(now, hours));
      TrendRows(rs, now, hours)[i].pending == CountLabel(Joined(rs, g[i]), g[i], now, Pending)
  {
    TrendRowAt(rs, now, hours, i);
  }

  /** In every row of the result the nine line counts it shows stay within
      `scheduled`. */
  lemma TrendRowLinesWithinScheduled(rs: seq<Request>, now: int, hours: int, i: int)
    requires 0 <= i < |TrendRows(rs, now, hours)|
    ensures var t := TrendRows(rs, now, hours)[i];
      t.completedOk + t.completed1hr + t.completedWarning + t.completedWarn1hr
      + t.running + t.pending + t.inactive + t.error1hr + t.terminated1hr <= t.scheduled
  {
    var g := GroupedBuckets(rs, AscendingHours(now, hours));
    TrendRowAt(rs, now, hours, i);
    LineCountsWithinScheduled(rs, g[i], now);
  }

  /** The bar columns of every row count the phase-C rows of that status whose
      COMPLETION falls in the hour, whatever their requested start; the left
      join's NVL turns a missing `agg_bars` row into exactly that count, 0. */
  lemma TrendBarsByCompletion(rs: seq<Request>, now: int, hours: int, i: int)
    requires 0 <= i < |TrendRows(rs, now, hours)|
    ensures var g := GroupedBuckets(rs, AscendingHours(now, hours));
      var t := TrendRows(rs, now, hours)[i];
      var b := g[i];
      t.completedError == Count(rs, ErrorCompletedIn(b))
      && t.completedTerminated == Count(rs, TerminatedCompletedIn(b))
  {
    var g := GroupedBuckets(rs, AscendingHours(now, hours));
    TrendRowAt(rs, now, hours, i);
    GroupedBucketsExact(rs, AscendingHours(now, hours));
    AscendingHoursAreHours(now, hours);
    assert g[i] in g;
    BarsOfBucket(rs, Hours(now, hours), g[i], now);
  }

  /** The output row of a generated bucket carries that bucket's bar counts,
      0 when no completion falls in it. */
  lemma BarsOfBucket(rs: seq<Request>, hs: seq<Bucket>, b: Bucket, now: int)
    requires b in hs
    ensures var t := OutputRow(AggLine(rs, b, now), AggBarsFrom(rs, hs));
      && t.hourStart == HourOfDay(b.start) && t.hourEnd == HourOfDay(b.end)
      && t.completedError == Count(rs, ErrorCompletedIn(b))
      && t.completedTerminated == Count(rs, TerminatedCompletedIn(b))
  {
    LookupBarFinds(rs, hs, b);
    if Count(rs, CompletedInBucket(b)) == 0 {
      CountMonotone(rs, ErrorCompletedIn(b), CompletedInBucket(b));
      CountMonotone(rs, TerminatedCompletedIn(b), CompletedInBucket(b));
    }
  }

  /** The hour starting at 3600 s is hour 1 of the day. */
  lemma OneAm()
    ensures HourOfDay(3600) == 1
  {
    DivModUnique(3600, 86400, 0, 3600);
    DivModUnique(3600, SecondsPerHour, 1, 0);
  }

  /** The bar counts are not bounded by `scheduled`: two requests scheduled in
      an earlier hour that complete with an error in this one count here as
      completed errors, while this hour schedules only one pending request. */
  lemma BarCountsMayExceedScheduled(rs: seq<Request>, now: int, hours: int)
    requires rs == ExampleRequests() && now == 7200 && hours == 2
    ensures var t := TrendRows(rs, now, hours);
      |t| == 1 && t[0].hourStart == 1 && t[0].scheduled == 1
      && t[0].completedError == 2 > t[0].scheduled && t[0].pending == 1
  {
    var h1 := Bucket(3600, 7200);
    var t := TrendRows(rs, now, hours);
    ExampleGrouping();
    assert |t| == 1 && t[0].hourStart == HourOfDay(3600) && t[0].scheduled == 1 by {
      TrendRowBucket(rs, now, hours, 0);
    }
    OneAm();
    assert t[0].completedError == Count(rs, ErrorCompletedIn(h1)) by {
      TrendBarsByCompletion(rs, now, hours, 0);
    }
    assert t[0].pending == CountLabel([rs[2]], h1, now, Pending) by {
      TrendRowPending(rs, now, hours, 0);
    }
    ExampleCounts();
  }

  /** Two errors completed in [3600, 7200) though requested at 0, and one
      pending request requested at 3600. */
  function ExampleRequests(): seq<Request>
  {
    [ Request(1, Some("P"), 'C', 'E', 0, Some(0), Some(3700)),
      Request(2, Some("P"), 'C', 'E', 0, Some(0), Some(3800)),
      Request(3, Some("P"), 'P', 'Q', 3600, None, None) ]
  }

  /** Two buckets back from 7200 are [3600, 7200) and [7200, 10800), oldest first. */
  lemma ExampleHours()
    ensures AscendingHours(7200, 2) == [Bucket(3600, 7200), Bucket(7200, 10800)]
  {
    var h1, h2 := Bucket(3600, 7200), Bucket(7200, 10800);
    assert TruncHour(7200) == 7200;
    assert BucketAt(7200, 0) == h2 && BucketAt(7200, 1) == h1;
    assert AscendingHours(7200, 2)[0] == h1 && AscendingHours(7200, 2)[1] == h2;
  }

  /** Only the pending request is requested in [3600, 7200), and none in [7200, 10800). */
  lemma ExampleJoined()
    ensures Joined(ExampleRequests(), Bucket(3600, 7200)) == [ExampleRequests()[2]]
    ensures Joined(ExampleRequests(), Bucket(7200, 10800)) == []
  {
    var rs := ExampleRequests();
    var e1, e2, late := rs[0], rs[1], rs[2];
    var h1, h2 := Bucket(3600, 7200), Bucket(7200, 10800);
    assert rs[..2] == [e1, e2] && [e1, e2][..1] == [e1] && [e1][..0] == [];
    assert Filter([e1], InBucketOf(h1)) == [];
    assert Filter([e1, e2], InBucketOf(h1)) == [];
    assert Filter([e1], InBucketOf(h2)) == [];
    assert Filter([e1, e2], InBucketOf(h2)) == [];
  }

  /** With two buckets back from 7200 only [3600, 7200) is grouped, holding the
      pending request alone. */
  lemma ExampleGrouping()
    ensures GroupedBuckets(ExampleRequests(), AscendingHours(7200, 2)) == [Bucket(3600, 7200)]
    ensures Joined(ExampleRequests(), Bucket(3600, 7200)) == [ExampleRequests()[2]]
  {
    var rs := ExampleRequests();
    var h1, h2 := Bucket(3600, 7200), Bucket(7200, 10800);
    ExampleHours();
    ExampleJoined();
    assert GroupedBuckets(rs, [h2]) == [];
    assert [h1, h2][1..] == [h2];
  }

  /** Both errors completed in [3600, 7200); the pending request is labelled pending. */
  lemma ExampleCounts()
    ensures Count(ExampleRequests(), ErrorCompletedIn(Bucket(3600, 7200))) == 2
    ensures CountLabel([ExampleRequests()[2]], Bucket(3600, 7200), 7200, Pending) == 1
  {
    var rs := ExampleRequests();
    var e1, e2, late := rs[0], rs[1], rs[2];
    var h1 := Bucket(3600, 7200);
    assert rs[..2] == [e1, e2] && [e1, e2][..1] == [e1] && [e1][..0] == [];
    assert CompletedInBucket(h1)(e1) && CompletedInBucket(h1)(e2);
    assert ErrorCompletedIn(h1)(e1) && ErrorCompletedIn(h1)(e2);
    assert Count([e1], ErrorCompletedIn(h1)) == 1;
    assert Count([e1, e2], ErrorCompletedIn(h1)) == 2;
    assert [late][..0] == [];
  }
}
