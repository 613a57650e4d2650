/**
 * The admin click statistics: a fixed, ordered list of bucket labels per
 * period, a telegram and a compra counter per label, and parallel output
 * series aligned with the labels.
 */
module Stats {
  import opened Wrappers
  import opened Time
  import opened Models

  // ---------------------------------------------------------------------
  // Months
  // ---------------------------------------------------------------------

  /** A calendar month: `(date.year, date.month)`. */
  datatype YearMonth = YearMonth(year: int, month: int)

  predicate ValidMonth(ym: YearMonth) {
    1 <= ym.month <= 12
  }

  /** Months counted from January of year 0. */
  function MonthIndex(ym: YearMonth): int {
    ym.year * 12 + ym.month - 1
  }

  /** The month advance of the monthly report: year `+ month // 12`, month `% 12 + 1`. */
  function NextMonth(ym: YearMonth): YearMonth {
    YearMonth(ym.year + ym.month / 12, ym.month % 12 + 1)
  }

  /** The advance moves to the next calendar month, rolling December into January of the next year. */
  lemma NextMonthAdvancesByOne(ym: YearMonth)
    requires ValidMonth(ym)
    ensures ValidMonth(NextMonth(ym))
    ensures MonthIndex(NextMonth(ym)) == MonthIndex(ym) + 1
    ensures ym.month == 12 ==> NextMonth(ym) == YearMonth(ym.year + 1, 1)
    ensures ym.month < 12 ==> NextMonth(ym) == YearMonth(ym.year, ym.month + 1)
  {
  }

  /** The month reached after `i` advances. */
  function MonthAfter(start: YearMonth, i: nat): YearMonth {
    if i == 0 then start else NextMonth(MonthAfter(start, i - 1))
  }

  /** `i` advances move exactly `i` calendar months forward. */
  lemma {:induction false} MonthAfterCountsMonths(start: YearMonth, i: nat)
    requires ValidMonth(start)
    ensures ValidMonth(MonthAfter(start, i))
    ensures MonthIndex(MonthAfter(start, i)) == MonthIndex(start) + i
  {
    if i > 0 {
      MonthAfterCountsMonths(start, i - 1);
      NextMonthAdvancesByOne(MonthAfter(start, i - 1));
    }
  }

  // ---------------------------------------------------------------------
  // Periods, ranges and labels
  // ---------------------------------------------------------------------

  /**
   * The calendar the report relies on, for day numbers counted from
   * 1970-01-01: the `%Y-%m-%d` label of a day, the ISO `YYYY-Www` label
   * of a day, the year and month of a day, the day of the month of a day,
   * and the `%Y-%m` label of a month.
   */
  datatype Calendar = Calendar(
    dayLabel: int -> string,
    isoWeekLabel: int -> string,
    yearMonthOf: int -> YearMonth,
    dayOfMonth: int -> int,
    monthLabel: YearMonth -> string)

  datatype Period = Daily | Weekly | Monthly

  /** `request.args.get("period", "daily")`: anything but "daily" and "weekly" is monthly. */
  function PeriodOf(arg: Option<string>): Period {
    var p := arg.GetOr("daily");
    if p == "daily" then Daily else if p == "weekly" then Weekly else Monthly
  }

  const Days := 30
  const Weeks := 12
  const Months := 12

  /** How many buckets a period has: `range(days + 1)`, `range(weeks + 1)`, `range(months + 1)`. */
  function BucketCount(p: Period): nat {
    match p
    case Daily => Days + 1
    case Weekly => Weeks + 1
    case Monthly => Months + 1
  }

  /**
   * The first day of the range: 30 days back, 12 weeks back, or 360 days
   * before the first of the current month.
   */
  function StartDay(p: Period, now: DateTime, cal: Calendar): int {
    var today := DayOf(now);
    match p
    case Daily => today - Days
    case Weekly => today - 7 * Weeks
    case Monthly => (today - (cal.dayOfMonth(today) - 1)) - 30 * Months
  }

  /** The labels the report is built on, in order. */
  function ExpectedLabels(p: Period, now: DateTime, cal: Calendar): seq<string> {
    var start := StartDay(p, now, cal);
    match p
    case Daily => seq(Days + 1, i => cal.dayLabel(start + i))
    case Weekly => seq(Weeks + 1, i => cal.isoWeekLabel(start + 7 * i))
    case Monthly => seq(Months + 1, i requires 0 <= i => cal.monthLabel(MonthAfter(cal.yearMonthOf(start), i)))
  }

  /** The label a click falls under: its day, its ISO week, or its month. */
  function KeyOf(p: Period, cal: Calendar): DateTime -> string {
    match p
    case Daily => (dt: DateTime) => cal.dayLabel(DayOf(dt))
    case Weekly => (dt: DateTime) => cal.isoWeekLabel(DayOf(dt))
    case Monthly => (dt: DateTime) => cal.monthLabel(cal.yearMonthOf(DayOf(dt)))
  }

  /** The query `clicked_at >= combine(start, min.time())`, in table order. */
  function Fetch(logs: seq<ClickLog>, startDay: int): (r: seq<ClickLog>)
    ensures forall l :: l in r ==> l in logs && !Before(l.clickedAt, Midnight(startDay))
    ensures forall l :: l in logs && !Before(l.clickedAt, Midnight(startDay)) ==> l in r
    decreases |logs|
  {
    if logs == [] then []
    else
      var rest := Fetch(logs[..|logs| - 1], startDay);
      var l := logs[|logs| - 1];
      assert logs == logs[..|logs| - 1] + [l];
      if !Before(l.clickedAt, Midnight(startDay)) then rest + [l] else rest
  }

  /** The query returns each qualifying click as often as the table holds it, and no other click. */
  lemma {:induction false} FetchKeepsMultiplicity(logs: seq<ClickLog>, startDay: int)
    ensures forall l ::
              multiset(Fetch(logs, startDay))[l] == if Before(l.clickedAt, Midnight(startDay)) then 0 else multiset(logs)[l]
    decreases |logs|
  {
    if logs != [] {
      var init := logs[..|logs| - 1];
      FetchKeepsMultiplicity(init, startDay);
      assert logs == init + [logs[|logs| - 1]];
    }
  }

  /** No label occurs twice. */
  predicate Distinct(labels: seq<string>) {
    forall i, j :: 0 <= i < j < |labels| ==> labels[i] != labels[j]
  }

  function LabelSet(labels: seq<string>): set<string> {
    set l | l in labels
  }

  // ---------------------------------------------------------------------
  // Label loops
  // ---------------------------------------------------------------------

  /** The daily label loop: 31 consecutive days ending today. */
  method DailyLabels(start: int, cal: Calendar) returns (labels: seq<string>)
    ensures labels == seq(Days + 1, i => cal.dayLabel(start + i))
  {
    labels := [];
    for i := 0 to Days + 1
      invariant labels == seq(i, k => cal.dayLabel(start + k))
    {
      labels := labels + [cal.dayLabel(start + i)];
    }
  }

  /** The weekly label loop: the ISO weeks of 13 days a week apart. */
  method WeeklyLabels(start: int, cal: Calendar) returns (labels: seq<string>)
    ensures labels == seq(Weeks + 1, i => cal.isoWeekLabel(start + 7 * i))
  {
    labels := [];
    for i := 0 to Weeks + 1
      invariant labels == seq(i, k => cal.isoWeekLabel(start + 7 * k))
    {
      labels := labels + [cal.isoWeekLabel(start + 7 * i)];
    }
  }

  /** The monthly label loop: label the current month, then advance to the first of the next. */
  method MonthlyLabels(start: YearMonth, cal: Calendar) returns (labels: seq<string>)
    ensures labels == seq(Months + 1, i requires 0 <= i => cal.monthLabel(MonthAfter(start, i)))
  {
    labels := [];
    var cur := start;
    for i := 0 to Months + 1
      invariant cur == MonthAfter(start, i)
      invariant labels == seq(i, k requires 0 <= k => cal.monthLabel(MonthAfter(start, k)))
    {
      labels := labels + [cal.monthLabel(cur)];
      var year := cur.year + cur.month / 12;
      var month := cur.month % 12 + 1;
      cur := YearMonth(year, month);
    }
  }

  /** Distinct days have distinct labels, so the daily labels are distinct. */
  lemma DailyLabelsDistinct(now: DateTime, cal: Calendar)
    requires forall a, b :: cal.dayLabel(a) == cal.dayLabel(b) ==> a == b
    ensures Distinct(ExpectedLabels(Daily, now, cal))
  {
  }

  /** Days in one ISO week lie less than 7 apart, so the weekly labels are distinct. */
  lemma WeeklyLabelsDistinct(now: DateTime, cal: Calendar)
    requires forall a, b :: cal.isoWeekLabel(a) == cal.isoWeekLabel(b) ==> -7 < a - b < 7
    ensures Distinct(ExpectedLabels(Weekly, now, cal))
  {
  }

  /** Distinct months have distinct labels, so the 13 months walked give distinct labels. */
  lemma MonthlyLabelsDistinct(now: DateTime, cal: Calendar)
    requires forall x, y :: ValidMonth(x) && ValidMonth(y) && cal.monthLabel(x) == cal.monthLabel(y) ==> x == y
    requires ValidMonth(cal.yearMonthOf(StartDay(Monthly, now, cal)))
    ensures Distinct(ExpectedLabels(Monthly, now, cal))
  {
    var labels := ExpectedLabels(Monthly, now, cal);
    var start := cal.yearMonthOf(StartDay(Monthly, now, cal));
    forall i, j | 0 <= i < j < |labels| ensures labels[i] != labels[j] {
      MonthAfterCountsMonths(start, i);
      MonthAfterCountsMonths(start, j);
    }
  }

  /** When no click is dated after today, every click the daily query fetches has its day among the labels. */
  lemma DailyKeysAreLabels(logs: seq<ClickLog>, now: DateTime, cal: Calendar)
    requires forall l :: l in logs ==> WellFormed(l.clickedAt) && DayOf(l.clickedAt) <= DayOf(now)
    ensures var fetched := Fetch(logs, StartDay(Daily, now, cal));
      forall i :: 0 <= i < |fetched| ==>
        KeyOf(Daily, cal)(fetched[i].clickedAt) in ExpectedLabels(Daily, now, cal)
  {
    var start := StartDay(Daily, now, cal);
    var fetched := Fetch(logs, start);
    var labels := ExpectedLabels(Daily, now, cal);
    forall i | 0 <= i < |fetched|
      ensures KeyOf(Daily, cal)(fetched[i].clickedAt) in labels
    {
      var l := fetched[i];
      assert l in fetched;
      OnOrAfterMidnight(l.clickedAt, start);
      var k := DayOf(l.clickedAt) - start;
      assert labels[k] == cal.dayLabel(DayOf(l.clickedAt));
    }
  }

  // ---------------------------------------------------------------------
  // Counting
  // ---------------------------------------------------------------------

  datatype Bucket = TelegramBucket | CompraBucket

  /** The counter a click increments: "telegram" goes to telegram, any other name to compra. */
  function BucketOf(l: ClickLog): Bucket {
    if l.buttonName == TelegramButton then TelegramBucket else CompraBucket
  }

  /** How many of `logs` fall under one of `labels` and into one of `buckets`. */
  function CountWhere(logs: seq<ClickLog>, key: DateTime -> string, labels: set<string>, buckets: set<Bucket>): nat
    decreases |logs|
  {
    if logs == [] then 0
    else
      var l := logs[|logs| - 1];
      CountWhere(logs[..|logs| - 1], key, labels, buckets)
        + (if key(l.clickedAt) in labels && BucketOf(l) in buckets then 1 else 0)
  }

  /** How many of `logs` fall into one of `buckets`, whatever their label. */
  function CountBuckets(logs: seq<ClickLog>, buckets: set<Bucket>): nat
    decreases |logs|
  {
    if logs == [] then 0
    else CountBuckets(logs[..|logs| - 1], buckets) + (if BucketOf(logs[|logs| - 1]) in buckets then 1 else 0)
  }

  /** Every click is a telegram click or a compra click. */
  lemma {:induction false} EveryLogHasABucket(logs: seq<ClickLog>)
    ensures CountBuckets(logs, {TelegramBucket, CompraBucket}) == |logs|
    ensures CountBuckets(logs, {TelegramBucket}) + CountBuckets(logs, {CompraBucket}) == |logs|
    decreases |logs|
  {
    if logs != [] {
      EveryLogHasABucket(logs[..|logs| - 1]);
    }
  }

  /** Counting under a label set with one more label adds that label's count. */
  lemma {:induction false} CountSplitsByLabel(logs: seq<ClickLog>, key: DateTime -> string, labels: set<string>, x: string, buckets: set<Bucket>)
    requires x !in labels
    ensures CountWhere(logs, key, labels + {x}, buckets)
         == CountWhere(logs, key, labels, buckets) + CountWhere(logs, key, {x}, buckets)
    decreases |logs|
  {
    if logs != [] {
      CountSplitsByLabel(logs[..|logs| - 1], key, labels, x, buckets);
    }
  }

  /** When every click's label is among `labels`, counting under `labels` counts every click of the buckets. */
  lemma {:induction false} CountCoversAll(logs: seq<ClickLog>, key: DateTime -> string, labels: set<string>, buckets: set<Bucket>)
    requires forall i :: 0 <= i < |logs| ==> key(logs[i].clickedAt) in labels
    ensures CountWhere(logs, key, labels, buckets) == CountBuckets(logs, buckets)
    decreases |logs|
  {
    if logs != [] {
      var init := logs[..|logs| - 1];
      assert forall i :: 0 <= i < |init| ==> init[i] == logs[i];
      CountCoversAll(init, key, labels, buckets);
    }
  }

  /** A series: for each label, how many clicks of the buckets fall under it. */
  function Series(labels: seq<string>, logs: seq<ClickLog>, key: DateTime -> string, buckets: set<Bucket>): seq<nat> {
    seq(|labels|, i requires 0 <= i < |labels| => CountWhere(logs, key, {labels[i]}, buckets))
  }

  function Sum(s: seq<nat>): nat
    decreases |s|
  {
    if s == [] then 0 else Sum(s[..|s| - 1]) + s[|s| - 1]
  }

  /** Summing a series over distinct labels counts each click under exactly one label. */
  lemma {:induction false} SeriesSumsOverLabels(labels: seq<string>, logs: seq<ClickLog>, key: DateTime -> string, buckets: set<Bucket>)
    requires Distinct(labels)
    ensures Sum(Series(labels, logs, key, buckets)) == CountWhere(logs, key, LabelSet(labels), buckets)
    decreases |labels|
  {
    if labels == [] {
      assert LabelSet(labels) == {};
      CountNothing(logs, key, buckets);
    } else {
      var n := |labels|;
      var init := labels[..n - 1];
      var x := labels[n - 1];
      SeriesSumsOverLabels(init, logs, key, buckets);
      assert Series(labels, logs, key, buckets)[..n - 1] == Series(init, logs, key, buckets);
      assert LabelSet(labels) == LabelSet(init) + {x};
      assert x !in LabelSet(init);
      CountSplitsByLabel(logs, key, LabelSet(init), x, buckets);
    }
  }

  lemma {:induction false} CountNothing(logs: seq<ClickLog>, key: DateTime -> string, buckets: set<Bucket>)
    ensures CountWhere(logs, key, {}, buckets) == 0
    decreases |logs|
  {
    if logs != [] {
      CountNothing(logs[..|logs| - 1], key, buckets);
    }
  }

  /** The sum of an elementwise sum is the sum of the sums. */
  lemma {:induction false} SumPointwise(a: seq<nat>, b: seq<nat>, t: seq<nat>)
    requires |a| == |b| == |t|
    requires forall i :: 0 <= i < |t| ==> t[i] == a[i] + b[i]
    ensures Sum(t) == Sum(a) + Sum(b)
    decreases |t|
  {
    if t != [] {
      var n := |t| - 1;
      SumPointwise(a[..n], b[..n], t[..n]);
    }
  }

  /**
   * Over distinct labels that cover every fetched click, the telegram
   * series sums to the telegram clicks, the compra series to every other
   * click, and the two together to all fetched clicks.
   */
  lemma SeriesAccountForEveryLog(labels: seq<string>, logs: seq<ClickLog>, key: DateTime -> string)
    requires Distinct(labels)
    requires forall i :: 0 <= i < |logs| ==> key(logs[i].clickedAt) in labels
    ensures Sum(Series(labels, logs, key, {TelegramBucket})) == CountBuckets(logs, {TelegramBucket})
    ensures Sum(Series(labels, logs, key, {CompraBucket})) == CountBuckets(logs, {CompraBucket})
    ensures Sum(Series(labels, logs, key, {TelegramBucket})) + Sum(Series(labels, logs, key, {CompraBucket})) == |logs|
  {
    SeriesSumsOverLabels(labels, logs, key, {TelegramBucket});
    SeriesSumsOverLabels(labels, logs, key, {CompraBucket});
    CountCoversAll(logs, key, LabelSet(labels), {TelegramBucket});
    CountCoversAll(logs, key, LabelSet(labels), {CompraBucket});
    EveryLogHasABucket(logs);
  }

  // ---------------------------------------------------------------------
  // The counting loop
  // ---------------------------------------------------------------------

  /** `counts` holds, for each of its labels, the clicks of `buckets` among the first `j` fetched. */
  ghost predicate CountsUpTo(counts: map<string, nat>, fetched: seq<ClickLog>, j: int, key: DateTime -> string, buckets: set<Bucket>)
    requires 0 <= j <= |fetched|
  {
    forall k :: k in counts ==> counts[k] == CountWhere(fetched[..j], key, {k}, buckets)
  }

  /** Incrementing the counter of the next click's label, when the click is in the buckets, keeps the counts. */
  lemma IncrementKeepsCounts(counts: map<string, nat>, fetched: seq<ClickLog>, j: int, key: DateTime -> string, buckets: set<Bucket>)
    requires 0 <= j < |fetched| && CountsUpTo(counts, fetched, j, key, buckets)
    requires BucketOf(fetched[j]) in buckets && key(fetched[j].clickedAt) in counts
    ensures var k := key(fetched[j].clickedAt);
      CountsUpTo(counts[k := counts[k] + 1], fetched, j + 1, key, buckets)
  {
    assert fetched[..j + 1][..j] == fetched[..j];
  }

  /** A click outside the buckets leaves every count as it is. */
  lemma SkipKeepsCounts(counts: map<string, nat>, fetched: seq<ClickLog>, j: int, key: DateTime -> string, buckets: set<Bucket>)
    requires 0 <= j < |fetched| && CountsUpTo(counts, fetched, j, key, buckets)
    requires BucketOf(fetched[j]) !in buckets
    ensures CountsUpTo(counts, fetched, j + 1, key, buckets)
  {
    assert fetched[..j + 1][..j] == fetched[..j];
  }

  /** Before any click, every count is zero. */
  lemma ZeroCounts(labels: seq<string>, fetched: seq<ClickLog>, key: DateTime -> string, buckets: set<Bucket>)
    ensures CountsUpTo(map l | l in labels :: 0, fetched, 0, key, buckets)
  {
  }

  /** Counters kept for the labels, read out in label order, give the series. */
  lemma ReadOutIsSeries(labels: seq<string>, fetched: seq<ClickLog>, key: DateTime -> string,
                        counts: map<string, nat>, buckets: set<Bucket>, out: seq<nat>)
    requires counts.Keys == LabelSet(labels)
    requires forall k :: k in counts ==> counts[k] == CountWhere(fetched, key, {k}, buckets)
    requires |out| == |labels|
    requires forall i :: 0 <= i < |labels| ==> out[i] == (if labels[i] in counts then counts[labels[i]] else 0)
    ensures out == Series(labels, fetched, key, buckets)
  {
    forall i | 0 <= i < |labels| ensures out[i] == Series(labels, fetched, key, buckets)[i] {
      assert labels[i] in LabelSet(labels);
    }
  }

  /** The report, or the KeyError of a click whose label has no bucket, or the admin check's refusal. */
  datatype StatsResult =
    | Unauthorized
    | KeyError(missing: string)
    | Report(labels: seq<string>, telegram: seq<nat>, compra: seq<nat>, total: seq<nat>)

  /** What counting `fetched` under `labels` yields. */
  ghost predicate IsTallyOf(r: StatsResult, labels: seq<string>, fetched: seq<ClickLog>, key: DateTime -> string) {
    && !r.Unauthorized?
    && (r.Report? <==> forall i :: 0 <= i < |fetched| ==> key(fetched[i].clickedAt) in labels)
    && (r.KeyError? ==> exists i :: 0 <= i < |fetched| && key(fetched[i].clickedAt) == r.missing && r.missing !in labels)
    && (r.Report? ==>
          && r.labels == labels
          && r.telegram == Series(labels, fetched, key, {TelegramBucket})
          && r.compra == Series(labels, fetched, key, {CompraBucket})
          && |r.total| == |labels|
          && (forall i :: 0 <= i < |labels| ==> r.total[i] == r.telegram[i] + r.compra[i]))
  }

  /**
   * The counting loop: zero-fills a telegram and a compra counter per
   * label, then increments one counter per fetched click, "telegram"
   * clicks in the telegram counters and every other click in the compra
   * counters. A click whose label has no counter stops the loop with a
   * KeyError, reported as `missing`.
   */
  method CountClicks(labels: seq<string>, fetched: seq<ClickLog>, key: DateTime -> string)
    returns (missing: Option<string>, telegramCounts: map<string, nat>, compraCounts: map<string, nat>)
    ensures missing == None <==> forall i :: 0 <= i < |fetched| ==> key(fetched[i].clickedAt) in labels
    ensures missing.Some? ==>
      exists i :: 0 <= i < |fetched| && key(fetched[i].clickedAt) == missing.value && missing.value !in labels
    ensures missing == None ==>
      && telegramCounts.Keys == LabelSet(labels) && compraCounts.Keys == LabelSet(labels)
      && (forall k :: k in telegramCounts ==> telegramCounts[k] == CountWhere(fetched, key, {k}, {TelegramBucket}))
      && (forall k :: k in compraCounts ==> compraCounts[k] == CountWhere(fetched, key, {k}, {CompraBucket}))
  {
    telegramCounts := map l | l in labels :: 0;
    compraCounts := map l | l in labels :: 0;
    ZeroCounts(labels, fetched, key, {TelegramBucket});
    ZeroCounts(labels, fetched, key, {CompraBucket});
    var j := 0;
    while j < |fetched|
      invariant 0 <= j <= |fetched|
      invariant telegramCounts.Keys == LabelSet(labels) && compraCounts.Keys == LabelSet(labels)
      invariant CountsUpTo(telegramCounts, fetched, j, key, {TelegramBucket})
      invariant CountsUpTo(compraCounts, fetched, j, key, {CompraBucket})
      invariant forall i :: 0 <= i < j ==> key(fetched[i].clickedAt) in labels
    {
      var l := fetched[j];
      var k := key(l.clickedAt);
      if l.buttonName == TelegramButton {
        if k !in telegramCounts {
          return Some(k), telegramCounts, compraCounts;
        }
        IncrementKeepsCounts(telegramCounts, fetched, j, key, {TelegramBucket});
        SkipKeepsCounts(compraCounts, fetched, j, key, {CompraBucket});
        telegramCounts := telegramCounts[k := telegramCounts[k] + 1];
      } else {
        if k !in compraCounts {
          return Some(k), telegramCounts, compraCounts;
        }
        IncrementKeepsCounts(compraCounts, fetched, j, key, {CompraBucket});
        SkipKeepsCounts(telegramCounts, fetched, j, key, {TelegramBucket});
        compraCounts := compraCounts[k := compraCounts[k] + 1];
      }
      j := j + 1;
    }
    assert fetched[..j] == fetched;
    missing := None;
  }

  /**
   * Counts the fetched clicks under the labels, then reads the counters
   * out in label order as the telegram, compra and total series.
   */
  method Tally(labels: seq<string>, fetched: seq<ClickLog>, key: DateTime -> string) returns (r: StatsResult)
    ensures IsTallyOf(r, labels, fetched, key)
    ensures r.Report? && Distinct(labels) ==> Sum(r.total) == |fetched|
    ensures r.Report? && Distinct(labels) ==> Sum(r.compra) == CountBuckets(fetched, {CompraBucket})
  {
    var missing, telegramCounts, compraCounts := CountClicks(labels, fetched, key);
    if missing.Some? {
      return KeyError(missing.value);
    }
    var telegram := seq(|labels|, i requires 0 <= i < |labels| =>
      if labels[i] in telegramCounts then telegramCounts[labels[i]] else 0);
    var compra := seq(|labels|, i requires 0 <= i < |labels| =>
      if labels[i] in compraCounts then compraCounts[labels[i]] else 0);
    var total := seq(|labels|, i requires 0 <= i < |labels| => telegram[i] + compra[i]);
    ReadOutIsSeries(labels, fetched, key, telegramCounts, {TelegramBucket}, telegram);
    ReadOutIsSeries(labels, fetched, key, compraCounts, {CompraBucket}, compra);
    r := Report(labels, telegram, compra, total);
    if Distinct(labels) {
      SeriesAccountForEveryLog(labels, fetched, key);
      SumPointwise(telegram, compra, total);
    }
  }
}
