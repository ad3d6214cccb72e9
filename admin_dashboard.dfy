/**
 * The admin dashboard's log functions: the status badge, the tab filter, the
 * counters and the per-day chart series. A log is reduced to what these read:
 * its status, its event type and the day label its timestamp formats to.
 */
module AdminDashboard {
  import opened Wrappers
  import opened JsText

  /** One authentication log; `day` is the date part of its formatted timestamp. */
  datatype Log = Log(status: Option<string>, eventType: Option<string>, day: string)

  /** `(field || "").toLowerCase()`. */
  function Lowered(field: Option<string>): string {
    AsciiLower(field.GetOr(""))
  }

  // ---------------------------------------------------------------- the status badge

  /**
   * `statusColor`: the badge class of a status, by the first of these that the
   * lower-cased status contains: "success"; "fail" or "invalid"; "otp" or
   * "suspicious"; otherwise "dim".
   */
  function StatusColor(status: Option<string>): (c: string)
    ensures c == "success" || c == "danger" || c == "warn" || c == "dim"
    ensures c == "success" <==> Includes(Lowered(status), "success")
    ensures c == "danger" <==>
      !Includes(Lowered(status), "success") && (Includes(Lowered(status), "fail") || Includes(Lowered(status), "invalid"))
    ensures c == "warn" <==>
      && !Includes(Lowered(status), "success") && !Includes(Lowered(status), "fail") && !Includes(Lowered(status), "invalid")
      && (Includes(Lowered(status), "otp") || Includes(Lowered(status), "suspicious"))
  {
    var s := Lowered(status);
    if Includes(s, "success") then "success"
    else if Includes(s, "fail") || Includes(s, "invalid") then "danger"
    else if Includes(s, "otp") || Includes(s, "suspicious") then "warn"
    else "dim"
  }

  /** The badge does not depend on letter case. */
  lemma StatusColorIgnoresCase(s: string)
    ensures StatusColor(Some(s)) == StatusColor(Some(AsciiLower(s)))
  {
    AsciiLowerIdempotent(s);
  }

  /** A missing status and an empty one get the neutral badge. */
  lemma StatusColorMissing()
    ensures StatusColor(None) == "dim" && StatusColor(Some("")) == "dim"
  {
  }

  /** The badge is "success" exactly when the log is counted as a success. */
  lemma SuccessBadgeIsSuccessCount(l: Log)
    ensures StatusColor(l.status) == "success" <==> Holds(StatusSuccess, l)
  {
  }

  // ---------------------------------------------------------------- filters and counters

  /** The tests the dashboard applies to a log; `OnDay(d, c)` is `c` restricted to the logs of day `d`. */
  datatype Criterion = AnyLog | StatusSuccess | StatusFail | EventOtp | Suspicious | OnDay(d: string, c: Criterion)

  predicate Holds(c: Criterion, l: Log) {
    match c
    case AnyLog => true
    case StatusSuccess => Includes(Lowered(l.status), "success")
    case StatusFail => Includes(Lowered(l.status), "fail")
    case EventOtp => Includes(Lowered(l.eventType), "otp")
    case Suspicious =>
      Includes(Lowered(l.status), "suspicious") || Includes(Lowered(l.eventType), "suspicious")
      || Lowered(l.status) == "otp_required"
    case OnDay(d, c') => l.day == d && Holds(c', l)
  }

  /** The test behind each tab; an unknown tab shows everything, as "all" does. */
  function TabCriterion(tab: string): Criterion {
    if tab == "all" then AnyLog
    else if tab == "success" then StatusSuccess
    else if tab == "failed" then StatusFail
    else if tab == "otp" then EventOtp
    else AnyLog
  }

  /** `a` is `b` with some elements left out, the rest in their order. */
  predicate IsSubsequence<T(==)>(a: seq<T>, b: seq<T>)
    decreases |b|
  {
    if a == [] then true
    else if b == [] then false
    else if a[0] == b[0] then IsSubsequence(a[1..], b[1..])
    else IsSubsequence(a, b[1..])
  }

  /** `logs.filter(...)`: the logs that meet `c`, in their order. */
  function Select(logs: seq<Log>, c: Criterion): (r: seq<Log>)
    ensures |r| <= |logs|
    ensures IsSubsequence(r, logs)
    ensures forall l :: l in r ==> l in logs && Holds(c, l)
    ensures forall l :: l in logs && Holds(c, l) ==> l in r
    ensures c == AnyLog ==> r == logs
  {
    if logs == [] then []
    else if Holds(c, logs[0]) then [logs[0]] + Select(logs[1..], c)
    else Select(logs[1..], c)
  }

  /** `filteredLogs`: the logs the selected tab shows. */
  function FilteredLogs(logs: seq<Log>, tab: string): (r: seq<Log>)
    ensures tab != "success" && tab != "failed" && tab != "otp" ==> r == logs
    ensures IsSubsequence(r, logs)
    ensures forall l :: l in logs ==> (l in r <==> Holds(TabCriterion(tab), l))
  {
    Select(logs, TabCriterion(tab))
  }

  /** How many logs meet `c`, counted one log at a time. */
  function Count(logs: seq<Log>, c: Criterion): nat {
    if logs == [] then 0 else (if Holds(c, logs[0]) then 1 else 0) + Count(logs[1..], c)
  }

  function SuccessCount(logs: seq<Log>): nat { Count(logs, StatusSuccess) }
  function FailedCount(logs: seq<Log>): nat { Count(logs, StatusFail) }
  function OtpCount(logs: seq<Log>): nat { Count(logs, EventOtp) }
  function SuspiciousCount(logs: seq<Log>): nat { Count(logs, Suspicious) }

  lemma {:induction false} SelectCount(logs: seq<Log>, c: Criterion)
    ensures |Select(logs, c)| == Count(logs, c)
  {
    if logs != [] {
      SelectCount(logs[1..], c);
    }
  }

  lemma {:induction false} CountAtMostTotal(logs: seq<Log>, c: Criterion)
    ensures Count(logs, c) <= |logs|
  {
    if logs != [] {
      CountAtMostTotal(logs[1..], c);
    }
  }

  /** Each tab lists exactly as many logs as the counter beside it shows. */
  lemma TabsMatchCounters(logs: seq<Log>)
    ensures |FilteredLogs(logs, "success")| == SuccessCount(logs)
    ensures |FilteredLogs(logs, "failed")| == FailedCount(logs)
    ensures |FilteredLogs(logs, "otp")| == OtpCount(logs)
    ensures |FilteredLogs(logs, "all")| == |logs|
  {
    SelectCount(logs, StatusSuccess);
    SelectCount(logs, StatusFail);
    SelectCount(logs, EventOtp);
  }

  /** Every counter, the suspicious one included, counts each log at most once. */
  lemma CountersAtMostTotal(logs: seq<Log>)
    ensures SuccessCount(logs) <= |logs| && FailedCount(logs) <= |logs| && OtpCount(logs) <= |logs|
    ensures SuspiciousCount(logs) <= |logs|
  {
    CountAtMostTotal(logs, StatusSuccess);
    CountAtMostTotal(logs, StatusFail);
    CountAtMostTotal(logs, EventOtp);
    CountAtMostTotal(logs, Suspicious);
  }

  lemma OtpRequiredWords(x: string)
    requires x == "otp_required"
    ensures Includes(x, "otp")
    ensures !Includes(x, "success") && !Includes(x, "fail") && !Includes(x, "invalid")
  {
    assert x[..3] == "otp";
    IncludesNeedsEveryChar(x, "success", 0);
    IncludesNeedsEveryChar(x, "fail", 0);
    IncludesNeedsEveryChar(x, "invalid", 1);
  }

  /** A log whose status is "otp_required", in any letter case, is suspicious and carries the warning badge. */
  lemma OtpRequiredIsSuspicious(l: Log)
    requires Lowered(l.status) == "otp_required"
    ensures Holds(Suspicious, l) && Count([l], Suspicious) == 1
    ensures StatusColor(l.status) == "warn"
  {
    OtpRequiredWords(Lowered(l.status));
  }

  // ---------------------------------------------------------------- chart series

  datatype Point = Point(dayLabel: string, value: nat)

  /** How many logs of `day` meet `c`. */
  function DayCount(logs: seq<Log>, day: string, c: Criterion): nat {
    Count(logs, OnDay(day, c))
  }

  /** `buildSeries`: one point per day, in the order of `days`, counting that day's logs that meet `c`. */
  function BuildSeries(days: seq<string>, logs: seq<Log>, c: Criterion): (r: seq<Point>)
    ensures |r| == |days|
    ensures forall i :: 0 <= i < |days| ==> r[i].dayLabel == days[i] && r[i].value == DayCount(logs, days[i], c)
  {
    if days == [] then [] else [Point(days[0], DayCount(logs, days[0], c))] + BuildSeries(days[1..], logs, c)
  }

  /** `c1` never holds where `c2` does not. */
  ghost predicate Implies(c1: Criterion, c2: Criterion) {
    forall l: Log :: Holds(c1, l) ==> Holds(c2, l)
  }

  /** A test that passes fewer logs never counts more of them. */
  lemma {:induction false} CountMonotone(logs: seq<Log>, c1: Criterion, c2: Criterion)
    requires Implies(c1, c2)
    ensures Count(logs, c1) <= Count(logs, c2)
  {
    if logs != [] {
      CountMonotone(logs[1..], c1, c2);
    }
  }

  lemma DayCountMonotone(logs: seq<Log>, day: string, c1: Criterion, c2: Criterion)
    requires Implies(c1, c2)
    ensures DayCount(logs, day, c1) <= DayCount(logs, day, c2)
  {
    CountMonotone(logs, OnDay(day, c1), OnDay(day, c2));
  }

  /** On every day, the success and OTP series stay at or below the series of all authentications. */
  lemma SeriesBelowAuth(days: seq<string>, logs: seq<Log>)
    ensures forall i :: 0 <= i < |days| ==>
      BuildSeries(days, logs, StatusSuccess)[i].value <= BuildSeries(days, logs, AnyLog)[i].value &&
      BuildSeries(days, logs, EventOtp)[i].value <= BuildSeries(days, logs, AnyLog)[i].value
  {
    forall i | 0 <= i < |days|
      ensures DayCount(logs, days[i], StatusSuccess) <= DayCount(logs, days[i], AnyLog)
      ensures DayCount(logs, days[i], EventOtp) <= DayCount(logs, days[i], AnyLog)
    {
      DayCountMonotone(logs, days[i], StatusSuccess, AnyLog);
      DayCountMonotone(logs, days[i], EventOtp, AnyLog);
    }
  }

  /** The total the chart shows. */
  function Total(series: seq<Point>): nat {
    if series == [] then 0 else series[0].value + Total(series[1..])
  }

  predicate Distinct(days: seq<string>) {
    forall i, j :: 0 <= i < j < |days| ==> days[i] != days[j]
  }

  /** How many of `days` are `d`. */
  function Hits(days: seq<string>, d: string): nat {
    if days == [] then 0 else (if days[0] == d then 1 else 0) + Hits(days[1..], d)
  }

  lemma {:induction false} HitsDistinct(days: seq<string>, d: string)
    requires Distinct(days)
    ensures Hits(days, d) <= 1
    ensures d !in days ==> Hits(days, d) == 0
  {
    if days != [] {
      HitsDistinct(days[1..], d);
      if days[0] == d {
        HitsAbsent(days[1..], d);
      }
    }
  }

  lemma {:induction false} HitsAbsent(days: seq<string>, d: string)
    requires d !in days
    ensures Hits(days, d) == 0
  {
    if days != [] {
      HitsAbsent(days[1..], d);
    }
  }

  lemma CountCons(l: Log, rest: seq<Log>, c: Criterion)
    ensures Count([l] + rest, c) == (if Holds(c, l) then 1 else 0) + Count(rest, c)
  {
    assert ([l] + rest)[1..] == rest;
  }

  /** Adding one log in front adds one to the chart's total for each listed day that is its day. */
  lemma {:induction false} TotalCons(days: seq<string>, l: Log, rest: seq<Log>)
    ensures Total(BuildSeries(days, [l] + rest, AnyLog)) == Hits(days, l.day) + Total(BuildSeries(days, rest, AnyLog))
  {
    if days != [] {
      TotalCons(days[1..], l, rest);
      CountCons(l, rest, OnDay(days[0], AnyLog));
    }
  }

  /** Over distinct days, the series of all authentications adds up to at most the number of logs. */
  lemma {:induction false} AuthSeriesTotal(days: seq<string>, logs: seq<Log>)
    requires Distinct(days)
    ensures Total(BuildSeries(days, logs, AnyLog)) <= |logs|
  {
    if logs == [] {
      ZeroSeries(days);
    } else {
      assert logs == [logs[0]] + logs[1..];
      TotalCons(days, logs[0], logs[1..]);
      HitsDistinct(days, logs[0].day);
      AuthSeriesTotal(days, logs[1..]);
    }
  }

  lemma {:induction false} ZeroSeries(days: seq<string>)
    ensures Total(BuildSeries(days, [], AnyLog)) == 0
  {
    if days != [] {
      ZeroSeries(days[1..]);
    }
  }
}
