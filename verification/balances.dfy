/** Holder-count buckets and the twelve-hour refresh countdown
    (src/hooks/useBalances.ts). The response object is the sequence of its
    entries in `Object.entries` order; a value is a number (modelled as an
    integer), a string, or anything else JSON can carry. */
module Balances {
  import opened Wrappers
  import opened Strings
  import StableSort

  datatype Value = JNum(n: int) | JStr(s: string) | JOther

  type Entries = seq<(string, Value)>

  const QueryTimestampKey := "query_timestamp"

  /** `BUCKET_MAPPING`: technical bucket name to display label. */
  const BucketMapping: map<string, string> := map[
    "1000-1500" := "Tourist",
    "1500-3999" := "Casual",
    "4000-4999" := "Explorer",
    "5000-5999" := "Member",
    "6000-7000" := "Trader",
    "7001-10000" := "Pre-Rich",
    "10001-20000" := "Rich",
    "20000+" := "King",
    "100000-250000" := "Little Whale",
    "250000-500000" := "Big Whale",
    "500000+" := "Large Whale"
  ]

  datatype BalanceBucket = BalanceBucket(key: string, displayKey: string, name: string, count: int)

  /** The mapped label, or the key itself for an unmapped key. */
  function LabelOf(key: string): (name: string)
    ensures key in BucketMapping ==> name == BucketMapping[key]
    ensures key !in BucketMapping ==> name == key
  {
    if key in BucketMapping then BucketMapping[key] else key
  }

  /** The short axis name: the three whale buckets are abbreviated. */
  function DisplayKey(key: string): (d: string)
    ensures key == "100000-250000" ==> d == "100K+"
    ensures key == "250000-500000" ==> d == "250K+"
    ensures key == "500000+" ==> d == "500K+"
    ensures key !in {"100000-250000", "250000-500000", "500000+"} ==> d == key
  {
    if key == "100000-250000" then "100K+"
    else if key == "250000-500000" then "250K+"
    else if key == "500000+" then "500K+"
    else key
  }

  /** The index of the first decimal digit of `s` at or after `from`. */
  function FirstDigitFrom(s: string, from: nat): (r: Option<nat>)
    requires from <= |s|
    ensures r.None? <==> forall j :: from <= j < |s| ==> !IsDigit(s[j])
    ensures r.Some? ==> from <= r.value < |s| && IsDigit(s[r.value])
    ensures r.Some? ==> forall j :: from <= j < r.value ==> !IsDigit(s[j])
    decreases |s| - from
  {
    if from == |s| then None
    else if IsDigit(s[from]) then Some(from)
    else FirstDigitFrom(s, from + 1)
  }

  /** The first maximal run of decimal digits in `s`, as `/(\d+)/` finds
      it: its start and its digits. */
  function FirstDigitRun(s: string): (r: Option<(nat, string)>)
    ensures r.None? <==> forall j :: 0 <= j < |s| ==> !IsDigit(s[j])
    ensures r.Some? ==> var (i, d) := r.value;
      && |d| >= 1 && AllDigits(d)
      && i + |d| <= |s| && s[i..i + |d|] == d
      && (forall j :: 0 <= j < i ==> !IsDigit(s[j]))
      && (i + |d| == |s| || !IsDigit(s[i + |d|]))
  {
    match FirstDigitFrom(s, 0)
    case None => None
    case Some(i) =>
      var k := DigitRunLength(s[i..]);
      assert k < |s[i..]| ==> s[i..][k] == s[i + k];
      Some((i, s[i..][..k]))
  }

  /** The sort key of a bucket name: the two open-ended buckets sit just
      above their lower bound, every other name sorts by its first number,
      and a name without digits sorts as 0. */
  function MinValue(key: string): (v: int)
    ensures Contains(key, "20000+") ==> v == 20001
    ensures !Contains(key, "20000+") && Contains(key, "500000+") ==> v == 500001
    ensures !Contains(key, "20000+") && !Contains(key, "500000+") ==>
      v == (match FirstDigitRun(key) case None => 0 case Some(run) => DigitsValue(run.1))
    ensures v >= 0
  {
    if Contains(key, "20000+") then 20001
    else if Contains(key, "500000+") then 500001
    else match FirstDigitRun(key)
      case None => 0
      case Some(run) => DigitsValue(run.1)
  }

  /** An entry the buckets keep: a numeric value under any key but the
      timestamp. */
  predicate IsBucketEntry(entry: (string, Value))
  {
    entry.0 != QueryTimestampKey && entry.1.JNum?
  }

  function ToBucket(entry: (string, Value)): (b: BalanceBucket)
    requires entry.1.JNum?
    ensures b.key == entry.0 && b.count == entry.1.n
    ensures b.name == LabelOf(entry.0) && b.displayKey == DisplayKey(entry.0)
  {
    BalanceBucket(entry.0, DisplayKey(entry.0), LabelOf(entry.0), entry.1.n)
  }

  /** The filter and map steps, in entry order. */
  function Buckets(data: Entries): (r: seq<BalanceBucket>)
    ensures |r| <= |data|
  {
    if data == [] then []
    else (if IsBucketEntry(data[0]) then [ToBucket(data[0])] else []) + Buckets(data[1..])
  }

  function NegMinValue(b: BalanceBucket): int { -MinValue(b.key) }

  /** `formatBalanceBuckets`: keep the numeric entries, label them, and sort
      them by ascending `MinValue` of the key, ties in entry order. */
  function FormatBalanceBuckets(data: Entries): (r: seq<BalanceBucket>)
    ensures multiset(r) == multiset(Buckets(data))
    ensures forall i, j :: 0 <= i < j < |r| ==> MinValue(r[i].key) <= MinValue(r[j].key)
  {
    StableSort.Sort(Buckets(data), NegMinValue)
  }

  /** Exactly the numeric non-timestamp entries become buckets, one each. */
  lemma {:induction false} BucketsAreTheNumericEntries(data: Entries, b: BalanceBucket)
    ensures b in Buckets(data) <==> exists i :: 0 <= i < |data| && IsBucketEntry(data[i]) && b == ToBucket(data[i])
  {
    if data != [] {
      BucketsAreTheNumericEntries(data[1..], b);
      if b in Buckets(data[1..]) {
        var i :| 0 <= i < |data[1..]| && IsBucketEntry(data[1..][i]) && b == ToBucket(data[1..][i]);
        assert data[i + 1] == data[1..][i];
      }
      if exists i :: 0 <= i < |data| && IsBucketEntry(data[i]) && b == ToBucket(data[i]) {
        var i :| 0 <= i < |data| && IsBucketEntry(data[i]) && b == ToBucket(data[i]);
        if i > 0 {
          assert data[1..][i - 1] == data[i];
        }
      }
    }
  }

  function CountBucketEntries(data: Entries): nat
  {
    if data == [] then 0 else (if IsBucketEntry(data[0]) then 1 else 0) + CountBucketEntries(data[1..])
  }

  /** The output has one bucket per numeric non-timestamp entry. */
  lemma {:induction false} FormatLength(data: Entries)
    ensures |FormatBalanceBuckets(data)| == CountBucketEntries(data)
  {
    BucketsLength(data);
  }

  lemma {:induction false} BucketsLength(data: Entries)
    ensures |Buckets(data)| == CountBucketEntries(data)
  {
    if data != [] {
      BucketsLength(data[1..]);
    }
  }

  /** Buckets with the same sort key keep their entry order: for every key
      value `k`, the buckets whose `MinValue` is `-k` appear in the output
      in the order of their entries. */
  lemma FormatIsStable(data: Entries, k: int)
    ensures StableSort.WithKey(FormatBalanceBuckets(data), NegMinValue, k)
         == StableSort.WithKey(Buckets(data), NegMinValue, k)
  {
    StableSort.SortIsStable(Buckets(data), NegMinValue, k);
  }

  const TwelveHoursMs: int := 43200000
  const HourMs: int := 3600000
  const MinuteMs: int := 60000
  const SecondMs: int := 1000

  datatype Countdown = Countdown(hours: int, minutes: int, seconds: int, total: int)

  /** `getTimeUntilNextUpdate` with both instants in milliseconds. */
  function TimeUntilNextUpdate(lastUpdate: int, now: int): (c: Countdown)
    ensures lastUpdate + TwelveHoursMs - now <= 0 ==> c == Countdown(0, 0, 0, 0)
    ensures lastUpdate + TwelveHoursMs - now > 0 ==> c.total == lastUpdate + TwelveHoursMs - now
    ensures 0 <= c.minutes < 60 && 0 <= c.seconds < 60 && c.hours >= 0
    ensures c.hours * HourMs + c.minutes * MinuteMs + c.seconds * SecondMs <= c.total
          < c.hours * HourMs + c.minutes * MinuteMs + c.seconds * SecondMs + SecondMs
           || c.total == 0
    ensures now >= lastUpdate ==> c.hours <= 12
  {
    var timeUntil := lastUpdate + TwelveHoursMs - now;
    if timeUntil <= 0 then Countdown(0, 0, 0, 0)
    else
      var hours := timeUntil / HourMs;
      var minutes := (timeUntil % HourMs) / MinuteMs;
      var seconds := (timeUntil % MinuteMs) / SecondMs;
      assert timeUntil % HourMs == minutes * MinuteMs + timeUntil % MinuteMs by {
        assert HourMs == 60 * MinuteMs;
      }
      Countdown(hours, minutes, seconds, timeUntil)
  }

  /** The countdown reads the remaining time exactly to the second. */
  lemma CountdownRecomposes(lastUpdate: int, now: int)
    requires lastUpdate + TwelveHoursMs > now
    ensures var c := TimeUntilNextUpdate(lastUpdate, now);
      (c.total - c.total % SecondMs) == c.hours * HourMs + c.minutes * MinuteMs + c.seconds * SecondMs
  {
  }
}
