/**
 * The keyword-trend chart's bucketing (apps/service/static/main.js and main_b.js): the server
 * sends one count per day, and the page sums them into day, Monday-started week, month or
 * year buckets whose labels cover every day of the selected range.
 */
module TrendBuckets {
  import opened Text
  import opened Calendar
  import opened RangeDates
  import Arith

  // ---------------------------------------------------------------------------------------
  // Days as numbers

  /**
   * A local-midnight `Date` is a day number here: the ordinal of its calendar day, so that
   * `setDate(getDate() + k)` adds `k` and comparing two dates compares their numbers.
   */
  function FromOrdinal(n: int): (r: Date)
    requires n >= 1
    ensures Valid(r) && Ordinal(r) == n
  {
    if n == 1 then
      FirstDay();
      Date(1, 1, 1)
    else
      NextDay(FromOrdinal(n - 1))
  }

  lemma FirstDay()
    ensures Valid(Date(1, 1, 1)) && Ordinal(Date(1, 1, 1)) == 1
  {
  }

  /** The day numbers of 1000-01-01, 1001-01-01 and 9999-12-31. */
  lemma SpanBounds()
    ensures Ordinal(Date(1000, 1, 1)) == 364878
    ensures Ordinal(Date(1001, 1, 1)) == 365243
    ensures Ordinal(Date(9999, 12, 31)) == 3652059
  {
  }

  /** Day numbers whose date prints with a four-digit year. */
  predicate Printable(n: int) {
    364878 <= n <= 3652059
  }

  lemma PrintableYear(n: int)
    requires Printable(n)
    ensures n >= 1 && 1000 <= FromOrdinal(n).year < 10000
  {
    YearBounds(FromOrdinal(n));
  }

  lemma YearBounds(d: Date)
    requires Valid(d) && Printable(Ordinal(d))
    ensures 1000 <= d.year < 10000
  {
    SpanBounds();
    if d.year < 1000 {
      YearsApart(d, Date(1000, 1, 1));
    }
    if d.year >= 10000 {
      YearsApart(Date(9999, 12, 31), d);
    }
  }

  /** The day numbers of supported dates; six days before one is still printable. */
  predicate InSpan(n: int) {
    365243 <= n <= 3652059
  }

  lemma SupportedInSpan(d: Date)
    requires Supported(d)
    ensures InSpan(Ordinal(d))
  {
    SpanBounds();
    NotAfterOrdinal(Date(1001, 1, 1), d);
    NotAfterOrdinal(d, Date(9999, 12, 31));
  }

  /** The ISO text of a day number, as `isoDate` prints it. */
  function DayKey(n: int): string
    requires Printable(n)
  {
    PrintableYear(n);
    IsoDate(FromOrdinal(n))
  }

  /** Distinct days print differently. */
  lemma DayKeyInjective(a: int, b: int)
    requires Printable(a) && Printable(b) && DayKey(a) == DayKey(b)
    ensures a == b
  {
    PrintableYear(a);
    PrintableYear(b);
    IsoDateRoundTrip(FromOrdinal(a));
    IsoDateRoundTrip(FromOrdinal(b));
  }

  // ---------------------------------------------------------------------------------------
  // Bucket keys

  /** The weekday of a day number: `getDay()` is the day number modulo 7. */
  lemma WeekdayOf(n: int)
    requires n >= 1
    ensures JsWeekday(FromOrdinal(n)) == n % 7
  {
  }

  /**
   * The Monday of the week of day `n`: `(getDay() + 6) % 7` days back (`MondayBack`), so
   * a day whose `getDay()` is 1 (`MondayIsMonday`).
   */
  function Monday(n: int): (m: int)
    requires InSpan(n)
    ensures Printable(m) && 0 <= n - m < 7 && m % 7 == 1
  {
    MondayArith(n);
    n - (n % 7 + 6) % 7
  }

  lemma MondayBack(n: int)
    requires InSpan(n)
    ensures Monday(n) == n - (JsWeekday(FromOrdinal(n)) + 6) % 7
  {
    WeekdayOf(n);
  }

  lemma MondayIsMonday(n: int)
    requires InSpan(n)
    ensures JsWeekday(FromOrdinal(Monday(n))) == 1
  {
    WeekdayOf(Monday(n));
  }

  /** Weeks are the runs of seven days starting at day numbers 1, 8, 15, ... */
  lemma MondayNumber(n: int)
    requires InSpan(n)
    ensures Monday(n) == 7 * ((n - 1) / 7) + 1
  {
    MondayArith(n);
  }

  lemma MondayArith(n: int)
    ensures var m := n - (n % 7 + 6) % 7;
      0 <= n - m < 7 && m % 7 == 1 && m == 7 * ((n - 1) / 7) + 1
  {
    var q, r := (n - 1) / 7, (n - 1) % 7;
    assert n - 1 == q * 7 + r;
    if r == 6 {
      Arith.ModOf(n, 7, q + 1, 0);
    } else {
      Arith.ModOf(n, 7, q, r + 1);
    }
    Arith.ModOf(7 * q + 1, 7, q, 1);
  }

  /** `${year}-${pad2(month)}` */
  function MonthText(y: nat, m: nat): string {
    Pad(y, 4) + "-" + Pad(m, 2)
  }

  /** Month texts name one month each. */
  lemma MonthTextInjective(y1: nat, m1: nat, y2: nat, m2: nat)
    requires y1 < 10000 && y2 < 10000 && m1 < 100 && m2 < 100
    ensures MonthText(y1, m1) == MonthText(y2, m2) <==> y1 == y2 && m1 == m2
  {
    assert Pow10(4) == 10000 && Pow10(2) == 100;
    PadLess(y1, y2, 4);
    PadLess(m1, m2, 2);
    if MonthText(y1, m1) == MonthText(y2, m2) {
      assert MonthText(y1, m1)[..4] == Pad(y1, 4) && MonthText(y2, m2)[..4] == Pad(y2, 4);
      assert MonthText(y1, m1)[5..] == Pad(m1, 2) && MonthText(y2, m2)[5..] == Pad(m2, 2);
    }
  }

  function MonthKey(n: int): string
    requires Printable(n)
  {
    PrintableYear(n);
    MonthText(FromOrdinal(n).year, FromOrdinal(n).month)
  }

  /**
   * `bucketKey`: the ISO day for "day" and for an unknown grain, the ISO Monday for "week",
   * `YYYY-MM` for "month" and `String(year)` for "year".
   */
  function BucketKey(n: int, g: Grain): string
    requires InSpan(n)
  {
    PrintableYear(n);
    match g
    case Week => DayKey(Monday(n))
    case Month => MonthKey(n)
    case Year => Decimal(FromOrdinal(n).year)
    case _ => DayKey(n)
  }

  /**
   * Two days share a bucket key exactly when they share the bucket: the same day, the same
   * Monday-started week, the same month or the same year.
   */
  lemma BucketKeyMeaning(a: int, b: int, g: Grain)
    requires InSpan(a) && InSpan(b)
    ensures g == Week ==> (BucketKey(a, g) == BucketKey(b, g) <==> (a - 1) / 7 == (b - 1) / 7)
    ensures g == Month ==> (BucketKey(a, g) == BucketKey(b, g) <==>
      FromOrdinal(a).year == FromOrdinal(b).year && FromOrdinal(a).month == FromOrdinal(b).month)
    ensures g == Year ==> (BucketKey(a, g) == BucketKey(b, g) <==> FromOrdinal(a).year == FromOrdinal(b).year)
    ensures g == Day || g == Range ==> (BucketKey(a, g) == BucketKey(b, g) <==> a == b)
  {
    WeekKeyMeaning(a, b);
    MonthKeyMeaning(a, b);
    assert BucketKey(a, Month) == MonthKey(a) && BucketKey(b, Month) == MonthKey(b);
    YearKeyMeaning(a, b);
    DayKeyMeaning(a, b, Day);
    DayKeyMeaning(a, b, Range);
  }

  lemma WeekKeyMeaning(a: int, b: int)
    requires InSpan(a) && InSpan(b)
    ensures BucketKey(a, Week) == BucketKey(b, Week) <==> (a - 1) / 7 == (b - 1) / 7
  {
    var ma, mb := Monday(a), Monday(b);
    MondayNumber(a);
    MondayNumber(b);
    assert BucketKey(a, Week) == DayKey(ma) && BucketKey(b, Week) == DayKey(mb);
    SameWeekNumber(ma, mb, (a - 1) / 7, (b - 1) / 7);
    if DayKey(ma) == DayKey(mb) {
      DayKeyInjective(ma, mb);
    }
  }

  lemma SameWeekNumber(ma: int, mb: int, qa: int, qb: int)
    requires ma == 7 * qa + 1 && mb == 7 * qb + 1
    ensures ma == mb <==> qa == qb
  {
  }

  lemma YearKeyMeaning(a: int, b: int)
    requires InSpan(a) && InSpan(b)
    ensures BucketKey(a, Year) == BucketKey(b, Year) <==> FromOrdinal(a).year == FromOrdinal(b).year
  {
    PrintableYear(a);
    PrintableYear(b);
    var ya, yb := FromOrdinal(a).year, FromOrdinal(b).year;
    assert BucketKey(a, Year) == Decimal(ya) && BucketKey(b, Year) == Decimal(yb);
    if Decimal(ya) == Decimal(yb) {
      assert DigitsValue(Decimal(ya)) == ya && DigitsValue(Decimal(yb)) == yb;
    }
  }

  lemma DayKeyMeaning(a: int, b: int, g: Grain)
    requires InSpan(a) && InSpan(b) && (g == Day || g == Range)
    ensures BucketKey(a, g) == BucketKey(b, g) <==> a == b
  {
    assert BucketKey(a, g) == DayKey(a) && BucketKey(b, g) == DayKey(b);
    if DayKey(a) == DayKey(b) {
      DayKeyInjective(a, b);
    }
  }

  lemma MonthKeyMeaning(a: int, b: int)
    requires Printable(a) && Printable(b)
    ensures MonthKey(a) == MonthKey(b) <==> FromOrdinal(a).year == FromOrdinal(b).year && FromOrdinal(a).month == FromOrdinal(b).month
  {
    PrintableYear(a);
    PrintableYear(b);
    var da, db := FromOrdinal(a), FromOrdinal(b);
    MonthTextInjective(da.year, da.month, db.year, db.month);
  }

  // ---------------------------------------------------------------------------------------
  // The days of the range

  /** Every day from `s` to `e` inclusive; none when `s` is after `e`. */
  function Days(s: int, e: int): (r: seq<int>)
    ensures |r| == if s <= e then e - s + 1 else 0
    ensures forall i :: 0 <= i < |r| ==> r[i] == s + i
    decreases e - s
  {
    if s > e then [] else [s] + Days(s + 1, e)
  }

  /** The day number of a parsed server date. */
  function DayOf(d: Date): (n: int)
    requires Supported(d)
    ensures InSpan(n)
  {
    SupportedInSpan(d);
    Ordinal(d)
  }

  /** Appending the next day. */
  lemma {:induction false} DaysSnoc(s: int, e: int)
    requires s <= e + 1
    ensures Days(s, e + 1) == Days(s, e) + [e + 1]
  {
    assert |Days(s, e + 1)| == |Days(s, e) + [e + 1]|;
  }

  /**
   * `makeFullDateObjs`: the two ISO texts parsed (none when either does not parse),
   * reversed bounds swapped, then every day between them.
   */
  function FullDates(startIso: string, endIso: string): (r: seq<int>)
    ensures forall i :: 0 <= i < |r| ==> InSpan(r[i])
  {
    match (ParseIso(startIso), ParseIso(endIso))
    case (Some(a), Some(b)) =>
      var s, e := DayOf(a), DayOf(b);
      if s > e then Days(e, s) else Days(s, e)
    case _ => []
  }

  /** The loop of `makeFullDateObjs`, one day at a time. */
  method MakeFullDateObjs(startIso: string, endIso: string) returns (out: seq<int>)
    ensures out == FullDates(startIso, endIso)
  {
    out := [];
    var ps, pe := ParseIso(startIso), ParseIso(endIso);
    if ps.None? || pe.None? {
      return;
    }
    var s, e := DayOf(ps.value), DayOf(pe.value);
    if s > e {
      s, e := e, s;
    }
    out := DayRange(s, e);
  }

  /** `for (d = s; d <= e; d.setDate(d.getDate() + 1)) out.push(d)` */
  method DayRange(s: int, e: int) returns (out: seq<int>)
    requires s <= e
    ensures out == Days(s, e)
  {
    out := [];
    var d := s;
    while d <= e
      invariant s <= d <= e + 1
      invariant out == Days(s, d - 1)
    {
      DaysSnoc(s, d - 1);
      out := out + [d];
      d := d + 1;
    }
  }

  // ---------------------------------------------------------------------------------------
  // Labels and sums

  function Keys(days: seq<int>, g: Grain): (r: seq<string>)
    requires forall i :: 0 <= i < |days| ==> InSpan(days[i])
    ensures |r| == |days| && forall i :: 0 <= i < |days| ==> r[i] == BucketKey(days[i], g)
  {
    seq(|days|, i requires 0 <= i < |days| => BucketKey(days[i], g))
  }

  /** The chart's labels: the distinct bucket keys of the range's days, in first-seen order. */
  function Labels(startIso: string, endIso: string, g: Grain): seq<string> {
    Dedup(Keys(FullDates(startIso, endIso), g))
  }

  /** The labels are distinct, and a text is a label exactly when some day of the range has it as key. */
  lemma LabelsProperties(startIso: string, endIso: string, g: Grain)
    ensures var labels := Labels(startIso, endIso, g);
      forall i, j :: 0 <= i < j < |labels| ==> labels[i] != labels[j]
    ensures var days := FullDates(startIso, endIso);
      forall k :: k in Labels(startIso, endIso, g) <==> exists i :: 0 <= i < |days| && BucketKey(days[i], g) == k
  {
    var days := FullDates(startIso, endIso);
    DedupProperties(Keys(days, g));
    KeysMembers(days, g);
  }

  lemma KeysMembers(days: seq<int>, g: Grain)
    requires forall i :: 0 <= i < |days| ==> InSpan(days[i])
    ensures forall k :: k in Keys(days, g) <==> exists i :: 0 <= i < |days| && BucketKey(days[i], g) == k
  {
    var keys := Keys(days, g);
    forall k | k in keys ensures exists i :: 0 <= i < |days| && BucketKey(days[i], g) == k {
      var i :| 0 <= i < |keys| && keys[i] == k;
      assert BucketKey(days[i], g) == k;
    }
  }

  /** For the day grain the labels are the range's days themselves, one each. */
  lemma DayLabels(startIso: string, endIso: string)
    ensures Labels(startIso, endIso, Day) == Keys(FullDates(startIso, endIso), Day)
  {
    var days := FullDates(startIso, endIso);
    DayKeysDistinct(days);
    DedupOfDistinct(Keys(days, Day));
  }

  /** Consecutive days print as distinct keys. */
  lemma DayKeysDistinct(days: seq<int>)
    requires forall i :: 0 <= i < |days| ==> InSpan(days[i])
    requires forall i :: 0 <= i < |days| ==> days[i] == days[0] + i
    ensures var keys := Keys(days, Day);
      forall i, j :: 0 <= i < j < |keys| ==> keys[i] != keys[j]
  {
    var keys := Keys(days, Day);
    forall i, j | 0 <= i < j < |keys| ensures keys[i] != keys[j] {
      if keys[i] == keys[j] {
        DayKeyInjective(days[i], days[j]);
      }
    }
  }

  /** The bucket of a server date text; none when it does not parse. */
  function KeyOf(s: string, g: Grain): Option<string> {
    match ParseIso(s)
    case Some(d) => Some(BucketKey(DayOf(d), g))
    case None => None
  }

  /** The buckets of all the server's dates, in order. */
  function ServerKeys(dates: seq<string>, g: Grain): (r: seq<Option<string>>)
    ensures |r| == |dates| && forall i :: 0 <= i < |dates| ==> r[i] == KeyOf(dates[i], g)
  {
    seq(|dates|, i requires 0 <= i < |dates| => KeyOf(dates[i], g))
  }

  /** `arr?.[i] ?? 0`: a series shorter than the date list counts 0 past its end. */
  function ValueAt(arr: seq<int>, i: nat): int {
    if i < |arr| then arr[i] else 0
  }

  /** The sum of the values of the first `n` server dates whose bucket is `lab`. */
  function BucketSum(keys: seq<Option<string>>, arr: seq<int>, n: nat, lab: string): int
    requires n <= |keys|
  {
    if n == 0 then 0
    else BucketSum(keys, arr, n - 1, lab) + (if keys[n - 1] == Some(lab) then ValueAt(arr, n - 1) else 0)
  }

  /** One series summed into the buckets, one entry per label. */
  function Bucketed(keys: seq<Option<string>>, arr: seq<int>, labels: seq<string>): (r: seq<int>)
    ensures |r| == |labels|
    ensures forall j :: 0 <= j < |labels| ==> r[j] == BucketSum(keys, arr, |keys|, labels[j])
  {
    seq(|labels|, j requires 0 <= j < |labels| => BucketSum(keys, arr, |keys|, labels[j]))
  }

  /** The position of a label, as `labelIndex.get(key)` reads it. */
  function IndexOf(labels: seq<string>, k: string): (r: Option<nat>)
    ensures r.Some? <==> k in labels
    ensures r.Some? ==> r.value < |labels| && labels[r.value] == k
  {
    if k in labels then Some(FirstIndex(labels, k)) else None
  }

  /**
   * The inner loop over one series: each server date's bucket looked up among the labels
   * and its value added there. The dates' buckets are computed first (`ServerKeys`), then
   * summed by `SumInto`.
   */
  method BucketSeries(dates: seq<string>, arr: seq<int>, labels: seq<string>, g: Grain) returns (bucketed: seq<int>)
    requires forall i, j :: 0 <= i < j < |labels| ==> labels[i] != labels[j]
    ensures bucketed == Bucketed(ServerKeys(dates, g), arr, labels)
  {
    var keys := ServerKeys(dates, g);
    bucketed := SumInto(keys, arr, labels);
  }

  method SumInto(keys: seq<Option<string>>, arr: seq<int>, labels: seq<string>) returns (bucketed: seq<int>)
    requires forall i, j :: 0 <= i < j < |labels| ==> labels[i] != labels[j]
    ensures bucketed == Bucketed(keys, arr, labels)
  {
    bucketed := seq(|labels|, _ => 0);
    var i := 0;
    while i < |keys|
      invariant 0 <= i <= |keys| && |bucketed| == |labels|
      invariant forall j :: 0 <= j < |labels| ==> bucketed[j] == BucketSum(keys, arr, i, labels[j])
    {
      if keys[i].Some? {
        var idx := IndexOf(labels, keys[i].value);
        if idx.Some? {
          bucketed := bucketed[idx.value := bucketed[idx.value] + ValueAt(arr, i)];
        }
      }
      i := i + 1;
    }
  }

  /** The label loop: each day's bucket key, kept the first time it is seen. */
  method CollectLabels(full: seq<int>, g: Grain) returns (labels: seq<string>)
    requires forall i :: 0 <= i < |full| ==> InSpan(full[i])
    ensures labels == Dedup(Keys(full, g))
  {
    var keys := Keys(full, g);
    labels := FirstSeen(keys);
  }

  /** Keeps each key the first time it is seen, with `labelIndex` as the set of seen keys. */
  method FirstSeen(keys: seq<string>) returns (labels: seq<string>)
    ensures labels == Dedup(keys)
  {
    labels := [];
    var labelIndex: map<string, nat> := map[];
    var i := 0;
    while i < |keys|
      invariant 0 <= i <= |keys|
      invariant labels == Dedup(keys[..i])
      invariant labelIndex.Keys == set k | k in labels
    {
      var key := keys[i];
      assert keys[..i + 1] == keys[..i] + [key];
      DedupStep(keys[..i], key);
      if key !in labelIndex {
        labelIndex := labelIndex[key := |labels|];
        labels := labels + [key];
      }
      i := i + 1;
    }
    assert keys[..|keys|] == keys;
  }

  /**
   * `aggregateTrendToGrain`: the labels, then every keyword's series summed into them. A
   * server date that does not parse, or whose bucket is not a label, adds nothing.
   */
  method AggregateTrendToGrain(dates: seq<string>, series: map<string, seq<int>>, g: Grain, startIso: string, endIso: string)
    returns (labels: seq<string>, outSeries: map<string, seq<int>>)
    ensures labels == Labels(startIso, endIso, g)
    ensures outSeries.Keys == series.Keys
    ensures forall kw :: kw in series ==> outSeries[kw] == Bucketed(ServerKeys(dates, g), series[kw], labels)
  {
    var full := MakeFullDateObjs(startIso, endIso);
    labels := CollectLabels(full, g);
    DedupProperties(Keys(full, g));
    outSeries := map[];
    var todo := series.Keys;
    while todo != {}
      invariant todo <= series.Keys
      invariant outSeries.Keys == series.Keys - todo
      invariant forall kw :: kw in outSeries ==> outSeries[kw] == Bucketed(ServerKeys(dates, g), series[kw], labels)
      decreases |todo|
    {
      var kw :| kw in todo;
      var bucketed := BucketSeries(dates, series[kw], labels, g);
      outSeries := outSeries[kw := bucketed];
      todo := todo - {kw};
    }
  }

  // ---------------------------------------------------------------------------------------
  // Nothing is lost or counted twice

  function Total(xs: seq<int>): int {
    if xs == [] then 0 else Total(xs[..|xs| - 1]) + xs[|xs| - 1]
  }

  /** The values of the first `n` dates whose bucket is one of the labels. */
  function Counted(keys: seq<Option<string>>, arr: seq<int>, n: nat, labels: seq<string>): int
    requires n <= |keys|
  {
    if n == 0 then 0
    else Counted(keys, arr, n - 1, labels) + (if keys[n - 1].Some? && keys[n - 1].value in labels then ValueAt(arr, n - 1) else 0)
  }

  /** The sum over a list of labels of their buckets after the first `n` dates. */
  function LabelTotal(keys: seq<Option<string>>, arr: seq<int>, n: nat, labels: seq<string>): int
    requires n <= |keys|
  {
    if labels == [] then 0
    else LabelTotal(keys, arr, n, labels[..|labels| - 1]) + BucketSum(keys, arr, n, labels[|labels| - 1])
  }

  /** Adding one date adds its value once to the total over distinct labels, if its bucket is one. */
  lemma {:induction false} LabelTotalStep(keys: seq<Option<string>>, arr: seq<int>, n: nat, labels: seq<string>)
    requires n < |keys|
    requires forall i, j :: 0 <= i < j < |labels| ==> labels[i] != labels[j]
    ensures LabelTotal(keys, arr, n + 1, labels) == LabelTotal(keys, arr, n, labels)
      + (if keys[n].Some? && keys[n].value in labels then ValueAt(arr, n) else 0)
    decreases |labels|
  {
    if labels != [] {
      var init := labels[..|labels| - 1];
      LabelTotalStep(keys, arr, n, init);
      var last := labels[|labels| - 1];
      assert labels == init + [last];
      forall j | 0 <= j < |init| ensures init[j] != last {
        assert init[j] == labels[j];
      }
    }
  }

  /**
   * Over distinct labels, the buckets together hold exactly the values of the dates whose
   * bucket is a label: nothing is counted twice and nothing else is added.
   */
  lemma {:induction false} BucketsConserve(keys: seq<Option<string>>, arr: seq<int>, n: nat, labels: seq<string>)
    requires n <= |keys|
    requires forall i, j :: 0 <= i < j < |labels| ==> labels[i] != labels[j]
    ensures LabelTotal(keys, arr, n, labels) == Counted(keys, arr, n, labels)
  {
    if n == 0 {
      ZeroBuckets(keys, arr, labels);
    } else {
      BucketsConserve(keys, arr, n - 1, labels);
      LabelTotalStep(keys, arr, n - 1, labels);
    }
  }

  lemma {:induction false} ZeroBuckets(keys: seq<Option<string>>, arr: seq<int>, labels: seq<string>)
    ensures LabelTotal(keys, arr, 0, labels) == 0
    decreases |labels|
  {
    if labels != [] {
      ZeroBuckets(keys, arr, labels[..|labels| - 1]);
    }
  }

  lemma {:induction false} TotalIsLabelTotal(keys: seq<Option<string>>, arr: seq<int>, labels: seq<string>)
    ensures Total(Bucketed(keys, arr, labels)) == LabelTotal(keys, arr, |keys|, labels)
    decreases |labels|
  {
    if labels != [] {
      var init := labels[..|labels| - 1];
      TotalIsLabelTotal(keys, arr, init);
      var b := Bucketed(keys, arr, labels);
      assert b[..|b| - 1] == Bucketed(keys, arr, init);
    }
  }

  /** Every aggregated series sums to the values of exactly the server dates that hit a label. */
  lemma AggregatedTotal(dates: seq<string>, arr: seq<int>, startIso: string, endIso: string, g: Grain)
    ensures var labels := Labels(startIso, endIso, g);
      var keys := ServerKeys(dates, g);
      Total(Bucketed(keys, arr, labels)) == Counted(keys, arr, |keys|, labels)
  {
    var labels := Labels(startIso, endIso, g);
    var keys := ServerKeys(dates, g);
    LabelsProperties(startIso, endIso, g);
    TotalIsLabelTotal(keys, arr, labels);
    BucketsConserve(keys, arr, |keys|, labels);
  }
}
