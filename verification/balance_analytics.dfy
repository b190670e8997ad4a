/** Chart points from the stored bucket snapshots
    (src/hooks/useBalanceAnalytics.ts, `processAnalyticsDataForChart`).
    Parsing `recorded_at` and the locale's date and time formats are
    parameters. */
module BalanceAnalytics {
  import StableSort

  datatype BucketAnalytics = BucketAnalytics(
    id: int,
    recordedAt: string,
    bucket1000To1500: int,
    bucket1500To3999: int,
    bucket4000To4999: int,
    bucket5000To5999: int,
    bucket6000To7000: int,
    bucket7001To10000: int,
    bucket10001To20000: int,
    bucketOver20000: int,
    totalAccounts: int,
    querySource: string)

  /** The chart's series names, one per stored bucket column. */
  const RangeKeys: seq<string> :=
    ["1000-1500", "1500-3999", "4000-4999", "5000-5999", "6000-7000", "7001-10000", "10001-20000", "20000+"]

  /** A chart point; `ranges` holds the eight series keyed by name. */
  datatype ChartDataPoint = ChartDataPoint(timestamp: string, date: string, time: string, ranges: map<string, int>, total: int)

  /** The browser's date handling the function relies on: `getTime()` of a
      parsed timestamp, and the locale's date and time renderings. */
  datatype Locale = Locale(timeOf: string -> int, dateText: string -> string, timeText: string -> string)

  /** The bucket counts of a record in series order. */
  function Counts(r: BucketAnalytics): seq<int>
  {
    [r.bucket1000To1500, r.bucket1500To3999, r.bucket4000To4999, r.bucket5000To5999,
     r.bucket6000To7000, r.bucket7001To10000, r.bucket10001To20000, r.bucketOver20000]
  }

  function RangesOf(r: BucketAnalytics): (m: map<string, int>)
    ensures forall k :: k in m ==> k in RangeKeys
    ensures forall i :: 0 <= i < |RangeKeys| ==> RangeKeys[i] in m && m[RangeKeys[i]] == Counts(r)[i]
  {
    map[
      "1000-1500" := r.bucket1000To1500,
      "1500-3999" := r.bucket1500To3999,
      "4000-4999" := r.bucket4000To4999,
      "5000-5999" := r.bucket5000To5999,
      "6000-7000" := r.bucket6000To7000,
      "7001-10000" := r.bucket7001To10000,
      "10001-20000" := r.bucket10001To20000,
      "20000+" := r.bucketOver20000
    ]
  }

  /** The map step for one record. */
  function ToPoint(r: BucketAnalytics, locale: Locale): (p: ChartDataPoint)
    ensures p.timestamp == r.recordedAt && p.total == r.totalAccounts
    ensures p.date == locale.dateText(r.recordedAt) && p.time == locale.timeText(r.recordedAt)
    ensures forall i :: 0 <= i < |RangeKeys| ==> RangeKeys[i] in p.ranges && p.ranges[RangeKeys[i]] == Counts(r)[i]
  {
    ChartDataPoint(r.recordedAt, locale.dateText(r.recordedAt), locale.timeText(r.recordedAt), RangesOf(r), r.totalAccounts)
  }

  predicate Kept(r: BucketAnalytics) { r.totalAccounts > 0 }

  /** The filter and map steps, in input order. */
  function Points(data: seq<BucketAnalytics>, locale: Locale): (r: seq<ChartDataPoint>)
    ensures |r| <= |data|
    ensures forall p :: p in r ==> p.total > 0
  {
    if data == [] then []
    else (if Kept(data[0]) then [ToPoint(data[0], locale)] else []) + Points(data[1..], locale)
  }

  function PointKey(locale: Locale): ChartDataPoint -> int
  {
    (p: ChartDataPoint) => -locale.timeOf(p.timestamp)
  }

  /** The whole function: drop empty snapshots, map, and sort oldest
      first, ties in input order. */
  function ProcessAnalyticsDataForChart(data: seq<BucketAnalytics>, locale: Locale): (r: seq<ChartDataPoint>)
    ensures multiset(r) == multiset(Points(data, locale))
    ensures forall i, j :: 0 <= i < j < |r| ==> locale.timeOf(r[i].timestamp) <= locale.timeOf(r[j].timestamp)
  {
    StableSort.Sort(Points(data, locale), PointKey(locale))
  }

  function CountKept(data: seq<BucketAnalytics>): nat
  {
    if data == [] then 0 else (if Kept(data[0]) then 1 else 0) + CountKept(data[1..])
  }

  lemma {:induction false} PointsLength(data: seq<BucketAnalytics>, locale: Locale)
    ensures |Points(data, locale)| == CountKept(data)
  {
    if data != [] {
      PointsLength(data[1..], locale);
    }
  }

  /** One point per record with a positive account total. */
  lemma ChartLength(data: seq<BucketAnalytics>, locale: Locale)
    ensures |ProcessAnalyticsDataForChart(data, locale)| == CountKept(data)
  {
    PointsLength(data, locale);
  }

  /** A point is charted exactly when it is the image of a kept record. */
  lemma {:induction false} ChartedIffKept(data: seq<BucketAnalytics>, locale: Locale, p: ChartDataPoint)
    ensures p in ProcessAnalyticsDataForChart(data, locale) <==>
      exists i :: 0 <= i < |data| && Kept(data[i]) && p == ToPoint(data[i], locale)
  {
    PointsMembership(data, locale, p);
    assert p in ProcessAnalyticsDataForChart(data, locale) <==> p in multiset(Points(data, locale));
  }

  lemma {:induction false} PointsMembership(data: seq<BucketAnalytics>, locale: Locale, p: ChartDataPoint)
    ensures p in Points(data, locale) <==> exists i :: 0 <= i < |data| && Kept(data[i]) && p == ToPoint(data[i], locale)
  {
    if data != [] {
      PointsMembership(data[1..], locale, p);
      if p in Points(data[1..], locale) {
        var i :| 0 <= i < |data[1..]| && Kept(data[1..][i]) && p == ToPoint(data[1..][i], locale);
        assert data[i + 1] == data[1..][i];
      }
      if exists i :: 0 <= i < |data| && Kept(data[i]) && p == ToPoint(data[i], locale) {
        var i :| 0 <= i < |data| && Kept(data[i]) && p == ToPoint(data[i], locale);
        if i > 0 {
          assert data[1..][i - 1] == data[i];
        }
      }
    }
  }

  /** Snapshots taken at the same instant keep their input order. */
  lemma ChartIsStable(data: seq<BucketAnalytics>, locale: Locale, t: int)
    ensures StableSort.WithKey(ProcessAnalyticsDataForChart(data, locale), PointKey(locale), -t)
         == StableSort.WithKey(Points(data, locale), PointKey(locale), -t)
  {
    var key := PointKey(locale);
    assert ProcessAnalyticsDataForChart(data, locale) == StableSort.Sort(Points(data, locale), key);
    StableSort.SortIsStable(Points(data, locale), key, -t);
  }
}
