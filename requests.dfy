/**
 * The rows of `apps.fnd_concurrent_requests` joined with their program, as the
 * queries of backend/queries.js read them. Times are whole seconds on one clock;
 * `now` stands for SYSDATE and is always a parameter.
 */
module Requests {
  import opened Basics

  const SecondsPerHour: int := 3600

  /** Phase codes. */
  const PhaseCompleted: char := 'C'
  const PhaseRunning: char := 'R'
  const PhasePending: char := 'P'
  const PhaseInactive: char := 'I'

  /** Status codes. */
  const StatusNormal: char := 'C'
  const StatusError: char := 'E'
  const StatusInactive: char := 'I'

  /** A concurrent request. A NULL phase or status code behaves like any code the
      queries do not name, so codes are plain characters. `program` is the
      `user_concurrent_program_name` of the request's program in
      `apps.fnd_concurrent_programs_vl`, or None when that view has no row for
      it: the queries that JOIN the view then drop the request, the others do
      not look at the program. */
  datatype Request = Request(
    id: int,
    program: Option<string>,
    phase: char,
    status: char,
    requestedStart: int,
    actualStart: Option<int>,
    actualCompletion: Option<int>)

  /** `status_code IN ('G','W')` */
  predicate IsWarningStatus(s: char) { s == 'G' || s == 'W' }

  /** `status_code IN ('T','X','D')` */
  predicate IsTerminatedStatus(s: char) { s == 'T' || s == 'X' || s == 'D' }

  /** `TRUNC(t, 'HH24')`: the start of the hour containing t. */
  function TruncHour(t: int): (h: int)
    ensures h <= t < h + SecondsPerHour
    ensures h % SecondsPerHour == 0
  {
    t - t % SecondsPerHour
  }

  /** `TO_CHAR(t, 'HH24')`, as a number: the hour of the day, the date dropped. */
  function HourOfDay(t: int): (h: nat)
    ensures h < 24
  {
    (t % 86400) / SecondsPerHour
  }

  /** The hour of the day and the time within the hour recompose the time of day. */
  lemma HourOfDayParts(t: int)
    ensures t % 86400 == HourOfDay(t) * SecondsPerHour + t % SecondsPerHour
  {
    var q, d := t / 86400, t % 86400;
    DivModUnique(t, SecondsPerHour, q * 24 + d / SecondsPerHour, d % SecondsPerHour);
  }

  /** An hour later the hour of the day is one more, wrapping from 23 to 0. */
  lemma HourOfDayNext(t: int)
    ensures HourOfDay(t + SecondsPerHour) == if HourOfDay(t) == 23 then 0 else HourOfDay(t) + 1
  {
    var q, d := t / 86400, t % 86400;
    var h, r := d / SecondsPerHour, d % SecondsPerHour;
    if h < 23 {
      DivModUnique(t + SecondsPerHour, 86400, q, (h + 1) * SecondsPerHour + r);
    } else {
      DivModUnique(t + SecondsPerHour, 86400, q + 1, r);
    }
  }

  /** A day later the hour of the day is the same. */
  lemma HourOfDayPeriodic(t: int)
    ensures HourOfDay(t + 86400) == HourOfDay(t)
  {
    DivModUnique(t + 86400, 86400, t / 86400 + 1, t % 86400);
  }

  /** SQL `x >= bound` where x may be NULL (a NULL comparison is not true). */
  predicate AtLeast(x: Option<int>, bound: int) { x.Some? && x.value >= bound }

  /** SQL `x < bound` where x may be NULL. */
  predicate Before(x: Option<int>, bound: int) { x.Some? && x.value < bound }

  /** SQL `x <= bound` where x may be NULL. */
  predicate AtMost(x: Option<int>, bound: int) { x.Some? && x.value <= bound }
}
