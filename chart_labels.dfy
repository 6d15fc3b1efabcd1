/**
 * The label helpers of ChartWrappers.tsx: reading a chart group (an hour
 * number, an "H:MM"/"HH:MM" string, an ISO date-time, a Date) as a UTC
 * instant, labelling that instant in IST (UTC+5:30) as "HH:MM", and
 * escaping text for the tooltip HTML.
 *
 * Times are JavaScript time values in milliseconds. The clock (`new Date()`)
 * is the parameter `now`; the engine's Date string parser is the parameter
 * `dateParse`.
 */
module ChartLabels {
  import opened Basics
  import opened Js

  const MsPerMinute: int := 60000
  const MsPerHour: int := 3600000
  const MsPerDay: int := 86400000
  const MinutesPerDay: int := 1440
  /** `(5 * 60 + 30) * 60 * 1000`. */
  const IstOffsetMs: int := 19800000
  /** The largest magnitude of a valid time value. */
  const MaxTime: int := 8640000000000000

  /** TimeClip: a time value beyond ±8.64e15 ms is an Invalid Date. */
  function TimeClip(x: int): (t: Time)
    ensures t.ValidDate? <==> -MaxTime <= x <= MaxTime
    ensures t.ValidDate? ==> t.ms == x
  {
    if -MaxTime <= x <= MaxTime then ValidDate(x) else InvalidDate
  }

  /** `Date.UTC(now's UTC year, month, date)`: midnight UTC of now's day. */
  function UtcDayStart(now: int): (d: int)
    ensures d <= now < d + MsPerDay && d % MsPerDay == 0
  {
    now - now % MsPerDay
  }

  /** `new Date(Date.UTC(y, m, d, hour, minute, 0, 0))` on now's UTC day; an
      hour outside 0..23 rolls over into the neighbouring day. */
  function AtUtcTime(now: int, hour: int, minute: int): Time
  {
    TimeClip(UtcDayStart(now) + hour * MsPerHour + minute * MsPerMinute)
  }

  /** JavaScript `a % 24`: the remainder takes a's sign. */
  function JsRem24(a: int): (r: int)
    ensures (a - r) % 24 == 0
    ensures -24 < r < 24
    ensures a >= 0 ==> r >= 0
    ensures a < 0 ==> r <= 0
  {
    if a >= 0 then a % 24 else JsRemNegative(a); -((-a) % 24)
  }

  /** For negative a, `a + (-a) % 24` is a multiple of 24. */
  lemma JsRemNegative(a: int)
    requires a < 0
    ensures (a + (-a) % 24) % 24 == 0
  {
    var q, r := (-a) / 24, (-a) % 24;
    DivModUnique(a + r, 24, -q, 0);
  }

  // ---------------------------------------------------------------------------
  // parseGroupAsUTCDate

  /** A Date, or `null`. */
  datatype Parsed = NoDate | ADate(time: Time)

  /** `/^(\d{1,2}):(\d{2})$/`: the hour and minute digits. */
  function MatchHourMinute(s: string): (m: Option<(string, string)>)
    ensures m.Some? ==> (AllDigits(m.value.0) && AllDigits(m.value.1)
      && 1 <= |m.value.0| <= 2 && |m.value.1| == 2
      && s == m.value.0 + ":" + m.value.1)
  {
    if |s| == 4 && IsDigit(s[0]) && s[1] == ':' && IsDigit(s[2]) && IsDigit(s[3]) then
      Some((s[..1], s[2..]))
    else if |s| == 5 && IsDigit(s[0]) && IsDigit(s[1]) && s[2] == ':' && IsDigit(s[3]) && IsDigit(s[4]) then
      Some((s[..2], s[3..]))
    else None
  }

  /** Every text of one or two digits, a colon and two digits matches, with
      those digits as the parts. */
  lemma MatchHourMinuteComplete(h: string, mm: string)
    requires 1 <= |h| <= 2 && |mm| == 2 && AllDigits(h) && AllDigits(mm)
    ensures MatchHourMinute(h + ":" + mm) == Some((h, mm))
  {
    var s := h + ":" + mm;
    if |h| == 1 {
      assert s[..1] == h && s[2..] == mm;
    } else {
      assert s[..2] == h && s[3..] == mm;
    }
  }

  /** `/^\d{4}-\d{2}-\d{2}T\d{2}:\d{2}(:\d{2}(\.\d+)?)?/` (a prefix test). */
  predicate LooksIso(s: string)
  {
    |s| >= 16
    && IsDigit(s[0]) && IsDigit(s[1]) && IsDigit(s[2]) && IsDigit(s[3]) && s[4] == '-'
    && IsDigit(s[5]) && IsDigit(s[6]) && s[7] == '-' && IsDigit(s[8]) && IsDigit(s[9])
    && s[10] == 'T' && IsDigit(s[11]) && IsDigit(s[12]) && s[13] == ':'
    && IsDigit(s[14]) && IsDigit(s[15])
  }

  /** `/[zZ]|[+\-]\d{2}:\d{2}$/`: a z anywhere, or an offset at the end. */
  predicate HasZone(s: string)
  {
    (exists k :: 0 <= k < |s| && (s[k] == 'z' || s[k] == 'Z'))
    || (|s| >= 6 && (s[|s| - 6] == '+' || s[|s| - 6] == '-')
        && IsDigit(s[|s| - 5]) && IsDigit(s[|s| - 4]) && s[|s| - 3] == ':'
        && IsDigit(s[|s| - 2]) && IsDigit(s[|s| - 1]))
  }

  /** `parseGroupAsUTCDate(group)`. */
  function ParseGroup(g: Value, now: int, dateParse: string -> Time): Parsed
  {
    match g
    case Undefined => NoDate
    case Null => NoDate
    case DateObject(t) => ADate(t)
    case Num(n) =>
      if n.Finite? then ADate(AtUtcTime(now, JsRem24(n.value.Floor), 0)) else NoDate
    case Bool(_) => NoDate
    case Str(raw) => ParseGroupText(Trim(raw), now, dateParse)
  }

  /** The string branches, on the trimmed text. */
  function ParseGroupText(s: string, now: int, dateParse: string -> Time): Parsed
  {
    var hm := MatchHourMinute(s);
    if hm.Some? then
      var minute := DigitsValue(hm.value.1);
      ADate(AtUtcTime(now, DigitsValue(hm.value.0) % 24, if minute > 59 then 59 else minute))
    else if LooksIso(s) then
      if !HasZone(s) then ADate(dateParse(s + "Z")) else ADate(dateParse(s))
    else if s != [] && AllDigits(s) then
      ADate(AtUtcTime(now, DigitsValue(s) % 24, 0))
    else
      var t := dateParse(s);
      if t.ValidDate? then ADate(t) else NoDate
  }

  // ---------------------------------------------------------------------------
  // utcDateToISTLabel

  /** `pad2(n)` for a whole number. */
  function Pad2Nat(n: nat): string
  {
    Pad2(NatToString(n))
  }

  /** `utcDateToISTLabel(d)`: "" for a missing date, "NaN:NaN" for an invalid
      one, otherwise hours and minutes of d + 5:30 read in UTC. */
  function IstLabel(d: Parsed): string
  {
    match d
    case NoDate => ""
    case ADate(InvalidDate) => "NaN:NaN"
    case ADate(ValidDate(ms)) =>
      match TimeClip(ms + IstOffsetMs)
      case InvalidDate => "NaN:NaN"
      case ValidDate(ist) => Pad2Nat((ist / MsPerHour) % 24) + ":" + Pad2Nat((ist / MsPerMinute) % 60)
  }

  /** Reads an "HH:MM" label back as minutes after midnight. */
  function LabelMinutes(hhmm: string): int
    requires |hhmm| == 5 && AllDigits(hhmm[..2]) && AllDigits(hhmm[3..])
  {
    DigitsValue(hhmm[..2]) * 60 + DigitsValue(hhmm[3..])
  }

  /** Two-digit padding of a number below 100 is two digits that read back
      as the number. */
  lemma Pad2NatValue(n: nat)
    requires n < 100
    ensures var p := Pad2Nat(n); |p| == 2 && AllDigits(p) && DigitsValue(p) == n
  {
    NatToStringValue(n);
    var s := NatToString(n);
    var p := Pad2Nat(n);
    if n < 10 {
      assert p == "0" + s;
      assert p[..1] == "0";
    } else {
      assert n / 10 < 10;
      assert |s| == 2;
    }
  }

  /** The hour and minute fields of a time value recompose its minute of the day. */
  lemma MinuteOfDay(ist: int)
    ensures ((ist / MsPerHour) % 24) * 60 + (ist / MsPerMinute) % 60 == (ist / MsPerMinute) % MinutesPerDay
  {
    var m, r := ist / MsPerMinute, ist % MsPerMinute;
    var h, k := m / 60, m % 60;
    DivModUnique(ist, MsPerHour, h, k * MsPerMinute + r);
    var d, hh := h / 24, h % 24;
    DivModUnique(m, MinutesPerDay, d, hh * 60 + k);
  }

  /** Padded hour and minute fields joined by ":" form an "HH:MM" label
      that reads back as the minute of the day. */
  lemma FieldsLabel(h: nat, m: nat)
    requires h < 24 && m < 60
    ensures var hhmm := Pad2Nat(h) + ":" + Pad2Nat(m);
      && |hhmm| == 5 && hhmm[2] == ':' && AllDigits(hhmm[..2]) && AllDigits(hhmm[3..])
      && LabelMinutes(hhmm) == h * 60 + m
      && DigitsValue(hhmm[3..]) < 60
  {
    Pad2NatValue(h);
    Pad2NatValue(m);
    var hhmm := Pad2Nat(h) + ":" + Pad2Nat(m);
    assert hhmm[..2] == Pad2Nat(h);
    assert hhmm[3..] == Pad2Nat(m);
  }

  /** A valid instant whose IST time is valid gets a five-character "HH:MM"
      label naming its IST minute of the day: the UTC minute plus 330,
      wrapped past midnight. */
  lemma IstLabelMinutes(ms: int)
    requires -MaxTime <= ms + IstOffsetMs <= MaxTime
    ensures var hhmm := IstLabel(ADate(ValidDate(ms)));
      && |hhmm| == 5 && hhmm[2] == ':' && AllDigits(hhmm[..2]) && AllDigits(hhmm[3..])
      && LabelMinutes(hhmm) == (ms / MsPerMinute + 330) % MinutesPerDay
      && DigitsValue(hhmm[3..]) < 60
  {
    var ist := ms + IstOffsetMs;
    var h, m := (ist / MsPerHour) % 24, (ist / MsPerMinute) % 60;
    assert IstLabel(ADate(ValidDate(ms))) == Pad2Nat(h) + ":" + Pad2Nat(m);
    FieldsLabel(h, m);
    MinuteOfDay(ist);
    DivModUnique(ist, MsPerMinute, ms / MsPerMinute + 330, ms % MsPerMinute);
  }

  /** A time on now's UTC day at the given hour and minute has UTC minute
      `hour * 60 + minute` modulo a day, rolling over for hours outside 0..23. */
  lemma AtUtcTimeMinute(now: int, hour: int, minute: int)
    ensures (UtcDayStart(now) + hour * MsPerHour + minute * MsPerMinute) / MsPerMinute % MinutesPerDay
         == (hour * 60 + minute) % MinutesPerDay
  {
    var d := UtcDayStart(now);
    var k := d / MsPerDay;
    assert d == k * MsPerDay;
    assert d + hour * MsPerHour + minute * MsPerMinute == (k * MinutesPerDay + hour * 60 + minute) * MsPerMinute;
    assert (d + hour * MsPerHour + minute * MsPerMinute) / MsPerMinute == k * MinutesPerDay + hour * 60 + minute;
  }

  /** The valid range the properties below assume for the clock: two days'
      margin below the largest time value. */
  predicate ClockInRange(now: int)
  {
    -MaxTime + 2 * MsPerDay <= now && now + 2 * MsPerDay <= MaxTime
  }

  /** Any time of day within a day of now's midnight is a valid date, and so
      is its IST counterpart. */
  lemma AtUtcTimeValid(now: int, hour: int, minute: int)
    requires ClockInRange(now) && -24 < hour < 24 && 0 <= minute < 60
    ensures var ms := UtcDayStart(now) + hour * MsPerHour + minute * MsPerMinute;
      AtUtcTime(now, hour, minute) == ValidDate(ms) && -MaxTime <= ms + IstOffsetMs <= MaxTime
  {
  }

  /** Shifting two numbers with the same minute of the day by the same amount
      keeps their minutes of the day equal. */
  lemma MinuteShift(x: int, y: int, c: int)
    requires x % MinutesPerDay == y % MinutesPerDay
    ensures (x + c) % MinutesPerDay == (y + c) % MinutesPerDay
  {
    var qx, qy := x / MinutesPerDay, y / MinutesPerDay;
    assert x == qx * MinutesPerDay + x % MinutesPerDay;
    assert y == qy * MinutesPerDay + y % MinutesPerDay;
    assert x + c == (qx - qy) * MinutesPerDay + (y + c);
  }

  /** A time of day on now's UTC date, with the hour within a day either
      side, is labelled with its minute of the day plus 5:30, wrapped past
      midnight. */
  lemma ClockLabel(now: int, hour: int, minute: int)
    requires ClockInRange(now) && -24 < hour < 24 && 0 <= minute < 60
    ensures var hhmm := IstLabel(ADate(AtUtcTime(now, hour, minute)));
      && |hhmm| == 5 && hhmm[2] == ':' && AllDigits(hhmm[..2]) && AllDigits(hhmm[3..])
      && LabelMinutes(hhmm) == (hour * 60 + minute + 330) % MinutesPerDay
      && DigitsValue(hhmm[3..]) < 60
  {
    AtUtcTimeValid(now, hour, minute);
    var ms := UtcDayStart(now) + hour * MsPerHour + minute * MsPerMinute;
    IstLabelMinutes(ms);
    AtUtcTimeMinute(now, hour, minute);
    MinuteShift(ms / MsPerMinute, hour * 60 + minute, 330);
  }

  /** A whole hour h (UTC, today) is labelled h:00 plus 5:30. */
  lemma HourLabel(now: int, h: int)
    requires ClockInRange(now) && -24 < h < 24
    ensures var hhmm := IstLabel(ADate(AtUtcTime(now, h, 0)));
      && |hhmm| == 5 && AllDigits(hhmm[..2]) && AllDigits(hhmm[3..])
      && LabelMinutes(hhmm) == (h * 60 + 330) % MinutesPerDay
  {
    ClockLabel(now, h, 0);
  }

  /** An "H:MM" or "HH:MM" group is the UTC time hh mod 24 : min(mm, 59)
      on today's date, labelled 5:30 later. */
  lemma HourMinuteGroupLabel(s: string, now: int, dateParse: string -> Time)
    requires ClockInRange(now)
    requires MatchHourMinute(s).Some?
    ensures var hm := MatchHourMinute(s).value;
      var hh := DigitsValue(hm.0) % 24;
      var mm := if DigitsValue(hm.1) > 59 then 59 else DigitsValue(hm.1);
      var hhmm := IstLabel(ParseGroupText(s, now, dateParse));
      && |hhmm| == 5 && hhmm[2] == ':' && AllDigits(hhmm[..2]) && AllDigits(hhmm[3..])
      && LabelMinutes(hhmm) == (hh * 60 + mm + 330) % MinutesPerDay
      && DigitsValue(hhmm[3..]) < 60
  {
    var hm := MatchHourMinute(s).value;
    var hh := DigitsValue(hm.0) % 24;
    var mm := if DigitsValue(hm.1) > 59 then 59 else DigitsValue(hm.1);
    HourMinuteParse(s, now, dateParse);
    ClockLabel(now, hh, mm);
  }

  /** An "H:MM" or "HH:MM" group is the UTC time hh mod 24 : min(mm, 59) today. */
  lemma HourMinuteParse(s: string, now: int, dateParse: string -> Time)
    requires MatchHourMinute(s).Some?
    ensures var hm := MatchHourMinute(s).value;
      var mm := if DigitsValue(hm.1) > 59 then 59 else DigitsValue(hm.1);
      ParseGroupText(s, now, dateParse) == ADate(AtUtcTime(now, DigitsValue(hm.0) % 24, mm))
  {
  }

  /** 20:00 UTC is labelled "01:30". */
  lemma TwentyHundredIsOneThirty(now: int, dateParse: string -> Time)
    requires ClockInRange(now)
    ensures IstLabel(ParseGroupText("20:00", now, dateParse)) == "01:30"
  {
    TwentyHundredParse(now, dateParse);
    TwentyHundredLabel(now);
  }

  /** 20:00 UTC today is labelled 01:30 IST. */
  lemma TwentyHundredLabel(now: int)
    requires ClockInRange(now)
    ensures IstLabel(ADate(AtUtcTime(now, 20, 0))) == "01:30"
  {
    var hhmm := IstLabel(ADate(AtUtcTime(now, 20, 0)));
    assert |hhmm| == 5 && hhmm[2] == ':' && AllDigits(hhmm[..2]) && AllDigits(hhmm[3..])
      && LabelMinutes(hhmm) == 90 && DigitsValue(hhmm[3..]) < 60 by {
      ClockLabel(now, 20, 0);
      DivModUnique(20 * 60 + 0 + 330, MinutesPerDay, 1, 90);
    }
    NinetyMinutesLabel(hhmm);
  }

  /** "20:00" is 20:00 UTC today. */
  lemma TwentyHundredParse(now: int, dateParse: string -> Time)
    ensures ParseGroupText("20:00", now, dateParse) == ADate(AtUtcTime(now, 20, 0))
  {
    var s := "20:00";
    assert s[..2] == "20" && s[3..] == "00";
    assert MatchHourMinute(s) == Some(("20", "00"));
    assert DigitsValue("20") == 20 by { assert "20"[..1] == "2"; }
    assert DigitsValue("00") == 0 by { assert "00"[..1] == "0"; }
  }

  /** The only "HH:MM" label for 90 minutes after midnight is "01:30". */
  lemma NinetyMinutesLabel(hhmm: string)
    requires |hhmm| == 5 && hhmm[2] == ':' && AllDigits(hhmm[..2]) && AllDigits(hhmm[3..])
    requires LabelMinutes(hhmm) == 90 && DigitsValue(hhmm[3..]) < 60
    ensures hhmm == "01:30"
  {
    var a, b := hhmm[..2], hhmm[3..];
    assert DigitsValue(a) == 10 * DigitValue(a[0]) + DigitValue(a[1]) by { assert a[..1] == [a[0]]; }
    assert DigitsValue(b) == 10 * DigitValue(b[0]) + DigitValue(b[1]) by { assert b[..1] == [b[0]]; }
    assert DigitsValue(a) == 1 && DigitsValue(b) == 30;
    assert hhmm == [hhmm[0], hhmm[1], ':', hhmm[3], hhmm[4]];
  }

  /** A finite number n is the hour `Math.floor(n) % 24` (JavaScript's
      remainder, so negative hours roll back into yesterday) at minute 0. */
  lemma NumberGroupLabel(r: real, now: int, dateParse: string -> Time)
    requires ClockInRange(now)
    ensures var hhmm := IstLabel(ParseGroup(Num(Finite(r)), now, dateParse));
      && |hhmm| == 5 && AllDigits(hhmm[..2]) && AllDigits(hhmm[3..])
      && LabelMinutes(hhmm) == (JsRem24(r.Floor) * 60 + 330) % MinutesPerDay
  {
    var h := NumberGroupHour(r, now, dateParse);
    HourLabel(now, h);
  }

  /** A finite number parses as the hour `Math.floor(n) % 24` at minute 0. */
  lemma NumberGroupHour(r: real, now: int, dateParse: string -> Time) returns (h: int)
    ensures h == JsRem24(r.Floor) && -24 < h < 24
    ensures ParseGroup(Num(Finite(r)), now, dateParse) == ADate(AtUtcTime(now, h, 0))
  {
    h := JsRem24(r.Floor);
  }

  /** A string of digits only is the hour `parseInt(s) % 24` at minute 0
      today (it is not an "H:MM" match, which needs a colon, nor an ISO
      date); HourLabel gives its label. */
  lemma DigitGroupParse(s: string, now: int, dateParse: string -> Time)
    requires s != [] && AllDigits(s)
    ensures ParseGroupText(s, now, dateParse) == ADate(AtUtcTime(now, DigitsValue(s) % 24, 0))
  {
    assert MatchHourMinute(s).None? by {
      if |s| == 4 { assert IsDigit(s[1]); }
      if |s| == 5 { assert IsDigit(s[2]); }
    }
    assert !LooksIso(s) by {
      if |s| >= 16 { assert IsDigit(s[4]); }
    }
  }

  /** An ISO date-time without a zone is read as UTC by appending "Z"; with a
      zone it is read as written. Either way the result is a Date, even an
      invalid one. */
  lemma IsoGroupAsUtc(s: string, now: int, dateParse: string -> Time)
    requires LooksIso(s)
    ensures ParseGroupText(s, now, dateParse)
         == if HasZone(s) then ADate(dateParse(s)) else ADate(dateParse(s + "Z"))
  {
    assert MatchHourMinute(s).None?;
  }

  // ---------------------------------------------------------------------------
  // convertGroupsToISTLabels

  /** `String(g)` for the groups the parser turns down. */
  function FallbackText(g: Value): string
    requires !(g.Num? && g.n.Finite?) && !g.DateObject?
  {
    match g
    case Undefined => "undefined"
    case Null => "null"
    case Bool(b) => if b then "true" else "false"
    case Num(n) => if n == NaN then "NaN" else if n == PosInfinity then "Infinity" else "-Infinity"
    case Str(raw) => raw
  }

  /** One element of the map: the IST label of the parsed date, or String(g). */
  function ConvertGroup(g: Value, now: int, dateParse: string -> Time): string
  {
    var d := ParseGroup(g, now, dateParse);
    if d.ADate? then IstLabel(d) else FallbackText(g)
  }

  /** The argument of convertGroupsToISTLabels: an array, or anything else. */
  datatype GroupsArg = GroupArray(items: seq<Value>) | NotAnArray

  function ConvertGroups(groups: GroupsArg, now: int, dateParse: string -> Time): seq<string>
  {
    match groups
    case NotAnArray => []
    case GroupArray(gs) => seq(|gs|, i requires 0 <= i < |gs| => ConvertGroup(gs[i], now, dateParse))
  }

  /** A non-array gives no labels; an array gives one label per element,
      computed from that element alone, so converting a concatenation
      concatenates the conversions. */
  lemma ConvertGroupsElementwise(a: seq<Value>, b: seq<Value>, now: int, dateParse: string -> Time)
    ensures ConvertGroups(NotAnArray, now, dateParse) == []
    ensures ConvertGroups(GroupArray(a + b), now, dateParse)
         == ConvertGroups(GroupArray(a), now, dateParse) + ConvertGroups(GroupArray(b), now, dateParse)
    ensures |ConvertGroups(GroupArray(a), now, dateParse)| == |a|
    ensures forall i :: 0 <= i < |a| ==> ConvertGroups(GroupArray(a), now, dateParse)[i] == ConvertGroup(a[i], now, dateParse)
  {
  }

  /** null and undefined are labelled "null" and "undefined"; a non-finite
      number by its String() text. */
  lemma NullGroupsFallBack(now: int, dateParse: string -> Time)
    ensures ConvertGroup(Null, now, dateParse) == "null"
    ensures ConvertGroup(Undefined, now, dateParse) == "undefined"
    ensures ConvertGroup(Num(NaN), now, dateParse) == "NaN"
    ensures IstLabel(NoDate) == ""
  {
  }

  // ---------------------------------------------------------------------------
  // escapeHtml

  /** The replacement of one character. */
  function EscapeChar(c: char): string
  {
    if c == '&' then "&amp;"
    else if c == '<' then "&lt;"
    else if c == '>' then "&gt;"
    else if c == '"' then "&quot;"
    else if c == '\'' then "&#39;"
    else if c == '`' then "&#x60;"
    else [c]
  }

  predicate IsHtmlSpecial(c: char)
  {
    c == '&' || c == '<' || c == '>' || c == '"' || c == '\'' || c == '`'
  }

  /** `s.replace(/[&<>"'`]/g, …)`. */
  function EscapeHtml(s: string): (r: string)
    ensures forall k :: 0 <= k < |r| ==> !IsHtmlSpecial(r[k]) || r[k] == '&'
  {
    if s == [] then [] else EscapeChar(s[0]) + EscapeHtml(s[1..])
  }

  /** The entity at the start of s, if any: the character it stands for and its length. */
  function EntityAt(s: string): Option<(char, nat)>
  {
    if |s| < 4 || s[0] != '&' then None
    else if s[1] == 'a' then (if "&amp;" <= s then Some(('&', 5)) else None)
    else if s[1] == 'l' then (if "&lt;" <= s then Some(('<', 4)) else None)
    else if s[1] == 'g' then (if "&gt;" <= s then Some(('>', 4)) else None)
    else if s[1] == 'q' then (if "&quot;" <= s then Some(('"', 6)) else None)
    else if s[1] == '#' && "&#39;" <= s then Some(('\'', 5))
    else if s[1] == '#' && "&#x60;" <= s then Some(('`', 6))
    else None
  }

  /** Decodes the six entities escapeHtml produces. */
  function Unescape(s: string): string
    decreases |s|
  {
    if s == [] then []
    else
      match EntityAt(s)
      case Some((c, n)) => if n <= |s| then [c] + Unescape(s[n..]) else [s[0]] + Unescape(s[1..])
      case None => [s[0]] + Unescape(s[1..])
  }

  lemma UnescapeOne(c: char, rest: string)
    ensures Unescape(EscapeChar(c) + rest) == [c] + Unescape(rest)
  {
    var e := EscapeChar(c);
    var s := e + rest;
    assert s[..|e|] == e && s[|e|..] == rest;
    if IsHtmlSpecial(c) {
      assert EntityAt(s) == Some((c, |e|)) by { EntityOf(c, rest); }
    } else {
      assert s[0] == c;
      assert s == [c] + rest;
    }
  }

  lemma EntityOf(c: char, rest: string)
    requires IsHtmlSpecial(c)
    ensures EntityAt(EscapeChar(c) + rest) == Some((c, |EscapeChar(c)|))
  {
    var e := EscapeChar(c);
    var s := e + rest;
    assert s[..|e|] == e;
    if c == '&' {
      assert "&amp;" <= s;
    } else if c == '<' {
      assert "&lt;" <= s;
    } else if c == '>' {
      assert "&gt;" <= s;
    } else if c == '"' {
      assert "&quot;" <= s;
    } else if c == '\'' {
      assert "&#39;" <= s;
    } else {
      assert !("&#39;" <= s) by { assert s[2] == 'x'; }
      assert "&#x60;" <= s;
    }
  }

  /** Unescaping undoes escaping: escapeHtml loses nothing. */
  lemma {:induction false} EscapeRoundTrip(s: string)
    ensures Unescape(EscapeHtml(s)) == s
  {
    if s != [] {
      UnescapeOne(s[0], EscapeHtml(s[1..]));
      EscapeRoundTrip(s[1..]);
      assert s == [s[0]] + s[1..];
    }
  }

  /** Text without special characters is left as it is. */
  lemma {:induction false} EscapePlainText(s: string)
    requires forall k :: 0 <= k < |s| ==> !IsHtmlSpecial(s[k])
    ensures EscapeHtml(s) == s
  {
    if s != [] {
      EscapePlainText(s[1..]);
      assert s == [s[0]] + s[1..];
    }
  }
}
