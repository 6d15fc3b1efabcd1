/**
 * SQL_SUMMARY of backend/queries.js: per-program counts over the trailing
 * window `win_start = SYSDATE - :hours/24`, rows kept when some activity
 * column is positive, ordered by completed_total descending then program name.
 */
module Summary {
  import opened Basics
  import opened Requests
  import opened Sorting

  /** `SYSDATE - (:hours / 24)` in seconds. */
  function WindowStart(now: int, hours: int): int
  {
    now - hours * SecondsPerHour
  }

  /** The SUM columns of the `data` CTE. */
  datatype Column =
    | CompletedOkColumn | CompletedWarningColumn | CompletedErrorColumn
    | CompletedTerminatedColumn | CompletedTotalColumn
    | RunningColumn | PendingStandbyColumn | ScheduledColumn | StartedInWindowColumn

  /** Phase C, completed by now, requested at or after the window start: the
      condition every completed_* column shares. */
  predicate CompletedInWindow(r: Request, win: int, now: int)
  {
    r.phase == PhaseCompleted && AtMost(r.actualCompletion, now) && r.requestedStart >= win
  }

  /** The `CASE WHEN` inside each column's SUM. */
  predicate Counts(c: Column, r: Request, win: int, now: int)
  {
    match c
    case CompletedOkColumn => CompletedInWindow(r, win, now) && r.status == StatusNormal
    case CompletedWarningColumn => CompletedInWindow(r, win, now) && IsWarningStatus(r.status)
    case CompletedErrorColumn => CompletedInWindow(r, win, now) && r.status == StatusError
    case CompletedTerminatedColumn => CompletedInWindow(r, win, now) && IsTerminatedStatus(r.status)
    case CompletedTotalColumn => CompletedInWindow(r, win, now)
    case RunningColumn => r.phase == PhaseRunning && r.requestedStart > win
    case PendingStandbyColumn => r.phase == PhasePending && r.requestedStart <= now
    case ScheduledColumn => win < r.requestedStart <= now
    case StartedInWindowColumn => AtLeast(r.actualStart, win)
  }

  /** A column's CASE restricted to one GROUP BY group; the JOIN with the
      program view keeps only requests whose program has a name there. */
  function InColumn(p: string, c: Column, win: int, now: int): Request -> bool
  {
    (r: Request) => r.program == Some(p) && Counts(c, r, win, now)
  }

  function ColumnCount(rs: seq<Request>, p: string, c: Column, win: int, now: int): nat
  {
    Count(rs, InColumn(p, c, win, now))
  }

  /** A row of the `data` CTE. */
  datatype ProgramAgg = ProgramAgg(
    program: string,
    completedOk: nat, completedWarning: nat, completedError: nat, completedTerminated: nat,
    completedTotal: nat,
    running: nat, pendingStandby: nat, scheduled: nat, startedInWindow: nat)

  function Aggregate(rs: seq<Request>, p: string, win: int, now: int): ProgramAgg
  {
    ProgramAgg(p,
      ColumnCount(rs, p, CompletedOkColumn, win, now),
      ColumnCount(rs, p, CompletedWarningColumn, win, now),
      ColumnCount(rs, p, CompletedErrorColumn, win, now),
      ColumnCount(rs, p, CompletedTerminatedColumn, win, now),
      ColumnCount(rs, p, CompletedTotalColumn, win, now),
      ColumnCount(rs, p, RunningColumn, win, now),
      ColumnCount(rs, p, PendingStandbyColumn, win, now),
      ColumnCount(rs, p, ScheduledColumn, win, now),
      ColumnCount(rs, p, StartedInWindowColumn, win, now))
  }

  /** The GROUP BY keys: each program name the JOIN finds, once. */
  function ProgramNames(rs: seq<Request>): (names: seq<string>)
    ensures forall p :: p in names <==> exists r :: r in rs && r.program == Some(p)
    ensures forall i, j :: 0 <= i < j < |names| ==> names[i] != names[j]
  {
    if rs == [] then []
    else
      var rest := ProgramNames(rs[..|rs| - 1]);
      var last := rs[|rs| - 1];
      assert rs == rs[..|rs| - 1] + [last];
      if last.program.None? || last.program.value in rest then rest else rest + [last.program.value]
  }

  /** The `data` CTE. */
  function Groups(rs: seq<Request>, win: int, now: int): seq<ProgramAgg>
  {
    var names := ProgramNames(rs);
    seq(|names|, i requires 0 <= i < |names| => Aggregate(rs, names[i], win, now))
  }

  /** The WHERE clause: `scheduled` alone does not keep a row. */
  predicate Kept(a: ProgramAgg)
  {
    a.completedTotal > 0 || a.running > 0 || a.pendingStandby > 0 || a.startedInWindow > 0
  }

  function KeptOf(): ProgramAgg -> bool { (a: ProgramAgg) => Kept(a) }

  /** `ORDER BY completed_total DESC, program_name`. */
  function SummaryOrder(): (ProgramAgg, ProgramAgg) -> bool
  {
    (a: ProgramAgg, b: ProgramAgg) =>
      a.completedTotal > b.completedTotal
      || (a.completedTotal == b.completedTotal && StringLe(a.program, b.program))
  }

  /** The kept groups in result order (completed_total included). */
  function OrderedGroups(rs: seq<Request>, now: int, hours: int): seq<ProgramAgg>
  {
    Sort(Filter(Groups(rs, WindowStart(now, hours), now), KeptOf()), SummaryOrder())
  }

  /** A result row: the SELECT list leaves completed_total out. */
  datatype SummaryRow = SummaryRow(
    program: string,
    completedOk: nat, completedWarning: nat, completedError: nat, completedTerminated: nat,
    running: nat, pendingStandby: nat, scheduled: nat, startedInWindow: nat)

  function Project(a: ProgramAgg): SummaryRow
  {
    SummaryRow(a.program, a.completedOk, a.completedWarning, a.completedError,
      a.completedTerminated, a.running, a.pendingStandby, a.scheduled, a.startedInWindow)
  }

  /** SQL_SUMMARY. */
  function SummaryRows(rs: seq<Request>, now: int, hours: int): seq<SummaryRow>
  {
    var g := OrderedGroups(rs, now, hours);
    seq(|g|, i requires 0 <= i < |g| => Project(g[i]))
  }

  // ---------------------------------------------------------------------------
  // Properties

  /** The four completed_* columns use the disjoint status sets {C}, {W,G},
      {E}, {T,X,D} under the completed_total condition, so they add up to at
      most completed_total, and to exactly it when every counted completed row
      has one of those seven codes. */
  lemma {:induction false} CompletedBreakdown(rs: seq<Request>, p: string, win: int, now: int)
    ensures var a := Aggregate(rs, p, win, now);
      a.completedOk + a.completedWarning + a.completedError + a.completedTerminated <= a.completedTotal
    ensures (forall i :: 0 <= i < |rs| && InColumn(p, CompletedTotalColumn, win, now)(rs[i]) ==>
               rs[i].status in {'C', 'W', 'G', 'E', 'T', 'X', 'D'})
        ==> var a := Aggregate(rs, p, win, now);
            a.completedOk + a.completedWarning + a.completedError + a.completedTerminated == a.completedTotal
  {
    if rs != [] {
      CompletedBreakdown(rs[..|rs| - 1], p, win, now);
    }
  }

  /** The window boundaries differ per column: completed_* include a request
      at win_start, `running` and `scheduled` exclude it; `scheduled` also
      excludes the future; `pending_standby` does not look at the window; a
      NULL actual start never counts in started_in_window. */
  lemma ColumnWindows(r: Request, now: int, h1: int, h2: int)
    ensures var win := WindowStart(now, h1);
      && (r.requestedStart == win ==> !Counts(RunningColumn, r, win, now) && !Counts(ScheduledColumn, r, win, now))
      && ((r.requestedStart == win && r.phase == PhaseCompleted && AtMost(r.actualCompletion, now))
            ==> Counts(CompletedTotalColumn, r, win, now))
      && (Counts(ScheduledColumn, r, win, now) <==> win < r.requestedStart <= now)
      && (Counts(PendingStandbyColumn, r, win, now) <==> Counts(PendingStandbyColumn, r, WindowStart(now, h2), now))
      && (r.actualStart.None? ==> !Counts(StartedInWindowColumn, r, win, now))
  {
  }

  /** pending_standby of a program is the same whatever the window. */
  lemma PendingIgnoresWindow(rs: seq<Request>, p: string, now: int, h1: int, h2: int)
    ensures Aggregate(rs, p, WindowStart(now, h1), now).pendingStandby
         == Aggregate(rs, p, WindowStart(now, h2), now).pendingStandby
  {
    CountSame(rs, InColumn(p, PendingStandbyColumn, WindowStart(now, h1), now),
                  InColumn(p, PendingStandbyColumn, WindowStart(now, h2), now));
  }

  /** A program with `scheduled` requests but no other activity is dropped. */
  lemma ScheduledAloneDropped(a: ProgramAgg)
    requires a.scheduled > 0
    requires a.completedTotal == a.running == a.pendingStandby == a.startedInWindow == 0
    ensures !Kept(a)
  {
  }

  lemma SummaryOrderIsTotalPreorder()
    ensures TotalPreorder(SummaryOrder())
  {
    forall a: ProgramAgg, b: ProgramAgg
      ensures SummaryOrder()(a, b) || SummaryOrder()(b, a)
    {
      StringLeTotal(a.program, b.program);
    }
    forall a: ProgramAgg, b: ProgramAgg, c: ProgramAgg
      | SummaryOrder()(a, b) && SummaryOrder()(b, c)
      ensures SummaryOrder()(a, c)
    {
      if a.completedTotal == b.completedTotal == c.completedTotal {
        StringLeTransitive(a.program, b.program, c.program);
      }
    }
  }

  /** The groups are exactly the aggregates of the programs that occur. */
  lemma GroupsMembers(rs: seq<Request>, win: int, now: int)
    ensures forall a :: a in Groups(rs, win, now) <==>
      a.program in ProgramNames(rs) && a == Aggregate(rs, a.program, win, now)
  {
    var names := ProgramNames(rs);
    var g := Groups(rs, win, now);
    forall a: ProgramAgg | a.program in names && a == Aggregate(rs, a.program, win, now)
      ensures a in g
    {
      var k :| 0 <= k < |names| && names[k] == a.program;
      assert g[k] == a;
    }
  }

  /** One group per program: no value occurs twice. */
  lemma GroupsDistinct(rs: seq<Request>, win: int, now: int)
    ensures forall x :: multiset(Groups(rs, win, now))[x] <= 1
  {
    var g := Groups(rs, win, now);
    assert forall i, j :: 0 <= i < j < |g| ==> g[i].program != g[j].program;
    forall x ensures multiset(g)[x] <= 1 {
      DistinctOnce(g, x);
    }
  }

  /** The result rows: the groups of programs that occur whose row the WHERE
      keeps, each the whole aggregate of its program, and no other row. */
  lemma OrderedGroupsMembers(rs: seq<Request>, now: int, hours: int)
    ensures var win := WindowStart(now, hours);
      forall a: ProgramAgg :: a in OrderedGroups(rs, now, hours) <==>
        && (exists r :: r in rs && r.program == Some(a.program))
        && a == Aggregate(rs, a.program, win, now)
        && Kept(a)
  {
    var win := WindowStart(now, hours);
    var kept := Filter(Groups(rs, win, now), KeptOf());
    SortPermutation(kept, SummaryOrder());
    GroupsMembers(rs, win, now);
    forall a: ProgramAgg ensures a in OrderedGroups(rs, now, hours) <==> a in kept {
      assert a in multiset(OrderedGroups(rs, now, hours)) <==> a in multiset(kept);
    }
  }

  /** Result order: completed_total descending, then program name ascending,
      strictly, since the GROUP BY makes program names unique. */
  lemma SummaryOrdered(rs: seq<Request>, now: int, hours: int)
    ensures var g := OrderedGroups(rs, now, hours);
      forall i, j :: 0 <= i < j < |g| ==>
        g[i].completedTotal > g[j].completedTotal
        || (g[i].completedTotal == g[j].completedTotal && StringLe(g[i].program, g[j].program)
            && g[i].program != g[j].program)
  {
    var win := WindowStart(now, hours);
    var groups := Groups(rs, win, now);
    var kept := Filter(groups, KeptOf());
    var g := OrderedGroups(rs, now, hours);
    SummaryOrderIsTotalPreorder();
    SortSorted(kept, SummaryOrder());
    SortPermutation(kept, SummaryOrder());
    GroupsDistinct(rs, win, now);
    GroupsMembers(rs, win, now);
    FilterSubMultiset(groups, KeptOf());
    forall x ensures multiset(g)[x] <= 1 {
      assert multiset(g)[x] <= multiset(groups)[x];
    }
    DistinctPositions(g);
    forall i, j | 0 <= i < j < |g|
      ensures g[i].completedTotal > g[j].completedTotal
        || (g[i].completedTotal == g[j].completedTotal && StringLe(g[i].program, g[j].program)
            && g[i].program != g[j].program)
    {
      assert SummaryOrder()(g[i], g[j]);
      assert g[i] in multiset(kept) && g[j] in multiset(kept);
      assert g[i] in groups && g[j] in groups;
    }
  }
}
