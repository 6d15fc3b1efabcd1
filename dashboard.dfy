/**
 * The data shaping of Dashboard.tsx: the KPI totals over the summary rows,
 * the chart's hour groups and series over the trend rows, and the keyed
 * summary rows handed to the table. Rows are parsed JSON objects
 * (`Js.Row`); a missing property reads as `undefined`.
 */
module Dashboard {
  import opened Basics
  import opened Js

  // ---------------------------------------------------------------------------
  // totals

  /** The seven columns the KPI cards total. */
  const TotalColumns: seq<string> :=
    ["running", "pending_standby", "scheduled", "completed_ok",
     "completed_warning", "completed_error", "completed_terminated"]

  /** `Number(r[c]) || 0`: a cell that is missing, null, not a number or
      zero counts as 0. */
  function CellValue(r: Row, c: string): (n: Number)
    ensures n != NaN
    ensures n == ToNumber(Get(r, c)) || n == Finite(0.0)
    ensures ToNumber(Get(r, c)) != NaN && ToNumber(Get(r, c)) != Finite(0.0) ==> n == ToNumber(Get(r, c))
    ensures ToNumber(Get(r, c)) == NaN || ToNumber(Get(r, c)) == Finite(0.0) ==> n == Finite(0.0)
  {
    var x := ToNumber(Get(r, c));
    if Truthy(Num(x)) then x else Finite(0.0)
  }

  /** `rows.reduce((acc, r) => acc + (Number(r[c]) || 0), 0)`. */
  function ColumnTotal(rows: seq<Row>, c: string): Number
    decreases |rows|
  {
    if rows == [] then Finite(0.0)
    else Add(ColumnTotal(rows[..|rows| - 1], c), CellValue(rows[|rows| - 1], c))
  }

  /** The `totals` memo: one entry per listed column, each the column's total. */
  method Totals(summary: seq<Row>) returns (totals: map<string, Number>)
    ensures totals.Keys == set c | c in TotalColumns
    ensures forall c :: c in TotalColumns ==> totals[c] == ColumnTotal(summary, c)
  {
    totals := map[];
    for i := 0 to |TotalColumns|
      invariant totals.Keys == set c | c in TotalColumns[..i]
      invariant forall c :: c in TotalColumns[..i] ==> totals[c] == ColumnTotal(summary, c)
    {
      var c := TotalColumns[i];
      assert TotalColumns[..i + 1] == TotalColumns[..i] + [c];
      totals := totals[c := ColumnTotal(summary, c)];
    }
    assert TotalColumns[..|TotalColumns|] == TotalColumns;
  }

  /** JavaScript addition of numbers, without rounding, is associative. */
  lemma AddAssociative(a: Number, b: Number, c: Number)
    ensures Add(Add(a, b), c) == Add(a, Add(b, c))
  {
  }

  /** Totals add up over concatenated row lists, and no rows total 0. */
  lemma {:induction false} ColumnTotalAppend(a: seq<Row>, b: seq<Row>, c: string)
    ensures ColumnTotal(a + b, c) == Add(ColumnTotal(a, c), ColumnTotal(b, c))
    decreases |b|
  {
    if b == [] {
      assert a + b == a;
      assert Add(ColumnTotal(a, c), Finite(0.0)) == ColumnTotal(a, c);
    } else {
      var b', last := b[..|b| - 1], b[|b| - 1];
      assert (a + b)[..|a + b| - 1] == a + b';
      assert (a + b)[|a + b| - 1] == last;
      ColumnTotalAppend(a, b', c);
      AddAssociative(ColumnTotal(a, c), ColumnTotal(b', c), CellValue(last, c));
    }
  }

  /** A single row totals to its own cell; a missing, null or non-numeric cell
      totals to 0. */
  lemma ColumnTotalSingle(r: Row, c: string)
    ensures ColumnTotal([r], c) == CellValue(r, c)
    ensures (c !in r || r[c] == Null || ToNumber(r[c]) == NaN) ==> ColumnTotal([r], c) == Finite(0.0)
  {
    assert [r][..0] == [];
  }

  /** When every cell of the column is finite (or reads as 0), the total is
      the finite sum of the cells, so it is never NaN. */
  lemma {:induction false} ColumnTotalFinite(rows: seq<Row>, c: string)
    requires forall k :: 0 <= k < |rows| ==> CellValue(rows[k], c).Finite?
    ensures ColumnTotal(rows, c).Finite?
    decreases |rows|
  {
    if rows != [] {
      var init := rows[..|rows| - 1];
      assert forall k :: 0 <= k < |init| ==> init[k] == rows[k];
      ColumnTotalFinite(init, c);
    }
  }

  // ---------------------------------------------------------------------------
  // hourGroups, statusSeries, completedSeries

  /** `trend.map(r => r.hour_start)`: the chart's x-axis. */
  function HourGroups(trend: seq<Row>): seq<Value>
  {
    seq(|trend|, i requires 0 <= i < |trend| => Get(trend[i], "hour_start"))
  }

  /** `Number(r[key] || 0)`: a falsy cell becomes 0, anything else is
      converted, so a non-numeric string becomes NaN here. */
  function SeriesItem(r: Row, key: string): Number
  {
    var v := Get(r, key);
    ToNumber(if Truthy(v) then v else Num(Finite(0.0)))
  }

  /** A chart series: the legend name and one item per trend row. */
  datatype Series = Series(name: string, items: seq<Number>)

  function Items(trend: seq<Row>, key: string): seq<Number>
  {
    seq(|trend|, i requires 0 <= i < |trend| => SeriesItem(trend[i], key))
  }

  const StatusKeys: seq<string> :=
    ["running", "pending", "scheduled", "inactive", "completed_ok",
     "completed_1hr", "completed_warn_1hr", "error_1hr", "terminated_1hr"]

  /** `labelMap`: the readable legend names. */
  const StatusLabels: map<string, string> :=
    map["running" := "Running", "pending" := "Pending", "scheduled" := "Scheduled",
        "inactive" := "Inactive", "completed_ok" := "Completed (OK)",
        "completed_1hr" := "Completed <1hr", "completed_warn_1hr" := "Warning <1hr",
        "error_1hr" := "Error <1hr", "terminated_1hr" := "Terminated <1hr"]

  /** `statusSeries`: one line series per status key, in key order. */
  function StatusSeries(trend: seq<Row>): seq<Series>
  {
    seq(|StatusKeys|, j requires 0 <= j < |StatusKeys| =>
      Series(if StatusKeys[j] in StatusLabels then StatusLabels[StatusKeys[j]] else "undefined",
             Items(trend, StatusKeys[j])))
  }

  /** The bar chart's columns and their legend names. */
  const CompletedKeys: seq<(string, string)> :=
    [("completed_ok", "Completed OK"), ("completed_warning", "Warning"),
     ("completed_error", "Error"), ("completed_terminated", "Terminated")]

  /** `completedSeries`: one bar series per completion outcome. */
  function CompletedSeries(trend: seq<Row>): seq<Series>
  {
    seq(|CompletedKeys|, j requires 0 <= j < |CompletedKeys| =>
      Series(CompletedKeys[j].1, Items(trend, CompletedKeys[j].0)))
  }

  /** The legends are the nine readable status names and the four outcome
      names, in order. */
  lemma SeriesNames(trend: seq<Row>)
    ensures |StatusSeries(trend)| == 9
    ensures StatusSeries(trend)[0].name == "Running" && StatusSeries(trend)[1].name == "Pending"
      && StatusSeries(trend)[2].name == "Scheduled" && StatusSeries(trend)[3].name == "Inactive"
      && StatusSeries(trend)[4].name == "Completed (OK)" && StatusSeries(trend)[5].name == "Completed <1hr"
      && StatusSeries(trend)[6].name == "Warning <1hr" && StatusSeries(trend)[7].name == "Error <1hr"
      && StatusSeries(trend)[8].name == "Terminated <1hr"
    ensures |CompletedSeries(trend)| == 4
    ensures CompletedSeries(trend)[0].name == "Completed OK" && CompletedSeries(trend)[1].name == "Warning"
      && CompletedSeries(trend)[2].name == "Error" && CompletedSeries(trend)[3].name == "Terminated"
  {
  }

  /** Every series lines up with the x-axis: item i and group i both come
      from trend row i, and from nothing else. */
  lemma SeriesAligned(trend: seq<Row>)
    ensures |HourGroups(trend)| == |trend|
    ensures forall s :: s in StatusSeries(trend) ==> |s.items| == |trend|
    ensures forall s :: s in CompletedSeries(trend) ==> |s.items| == |trend|
    ensures forall j, i :: 0 <= j < |StatusKeys| && 0 <= i < |trend| ==>
      StatusSeries(trend)[j].items[i] == SeriesItem(trend[i], StatusKeys[j])
    ensures forall j, i :: 0 <= j < |CompletedKeys| && 0 <= i < |trend| ==>
      CompletedSeries(trend)[j].items[i] == SeriesItem(trend[i], CompletedKeys[j].0)
    ensures forall i :: 0 <= i < |trend| ==> HourGroups(trend)[i] == Get(trend[i], "hour_start")
  {
  }

  /** A chart item and a KPI cell read the same value alike, except that a
      truthy value that is not a number is NaN in the chart and 0 in the
      totals. */
  lemma ItemAgreesWithCell(r: Row, key: string)
    ensures SeriesItem(r, key) == NaN <==> Truthy(Get(r, key)) && ToNumber(Get(r, key)) == NaN
    ensures SeriesItem(r, key) != NaN ==> SeriesItem(r, key) == CellValue(r, key)
  {
    var v := Get(r, key);
    if !Truthy(v) {
      assert v == Undefined || v == Null || v == Bool(false) || v == Num(NaN) || v == Num(Finite(0.0)) || v == Str("");
      if v == Str("") { BlankIsZero(""); }
    }
  }

  // ---------------------------------------------------------------------------
  // summaryWithKeys

  /** `{ id: index + 1, ...item, pending: item.pending_standby }`. */
  function WithKey(item: Row, index: nat): Row
  {
    (map["id" := Num(Finite((index + 1) as real))] + item)["pending" := Get(item, "pending_standby")]
  }

  function SummaryWithKeys(summary: seq<Row>): seq<Row>
  {
    seq(|summary|, i requires 0 <= i < |summary| => WithKey(summary[i], i))
  }

  /** A keyed row has the item's fields plus `id` and `pending`; `pending` is
      a copy of `pending_standby`, `id` is the position from 1 unless the item
      brings its own, and every other field is copied. */
  lemma WithKeyFields(item: Row, index: nat)
    ensures WithKey(item, index).Keys == item.Keys + {"id", "pending"}
    ensures WithKey(item, index)["pending"] == Get(item, "pending_standby")
    ensures WithKey(item, index)["id"] == if "id" in item then item["id"] else Num(Finite((index + 1) as real))
    ensures forall k :: k in item && k != "pending" ==> WithKey(item, index)[k] == item[k]
  {
  }

  /** Rows without their own `id` get distinct keys, as the table's
      `keyAttributes: "id"` needs. */
  lemma SummaryKeysDistinct(summary: seq<Row>)
    ensures |SummaryWithKeys(summary)| == |summary|
    ensures forall i, j :: 0 <= i < j < |summary| && "id" !in summary[i] && "id" !in summary[j] ==>
      SummaryWithKeys(summary)[i]["id"] != SummaryWithKeys(summary)[j]["id"]
  {
    forall i, j | 0 <= i < j < |summary| && "id" !in summary[i] && "id" !in summary[j]
      ensures SummaryWithKeys(summary)[i]["id"] != SummaryWithKeys(summary)[j]["id"]
    {
      WithKeyFields(summary[i], i);
      WithKeyFields(summary[j], j);
    }
  }
}
