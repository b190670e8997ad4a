/** Per-hour bucketing of one day's transfers into 24 heatmap cells
    (src/hooks/useActivityHeatmap.ts). Dates are milliseconds since the
    epoch; parsing a timestamp string (`new Date(s)`) and the local hour of
    an instant (`getHours()`) are parameters, since both depend on the
    browser and its time zone. An unparsable timestamp is `None`, the
    model of an Invalid Date, with which every comparison is false. */
module ActivityHeatmapData {
  import opened Wrappers

  type Hour = h: int | 0 <= h < 24

  const HoursPerDay: nat := 24

  datatype SimplifiedTransfer = SimplifiedTransfer(id: int, amount: int, timestamp: string)

  /** The browser's clock facilities the hook relies on. */
  datatype Clock = Clock(parseDate: string -> Option<int>, localHour: int -> Hour)

  datatype HeatmapCell = HeatmapCell(hour: int, count: nat, level: int)

  /** The selected local day as the half-open interval [dayStart, nextDay). */
  datatype Day = Day(dayStart: int, nextDay: int)

  predicate InDay(t: SimplifiedTransfer, day: Day, clock: Clock)
  {
    clock.parseDate(t.timestamp).Some? && day.dayStart <= clock.parseDate(t.timestamp).value < day.nextDay
  }

  /** The local hour of a transfer whose timestamp parses. */
  function HourOf(t: SimplifiedTransfer, clock: Clock): Hour
    requires clock.parseDate(t.timestamp).Some?
  {
    clock.localHour(clock.parseDate(t.timestamp).value)
  }

  /** The query's `day` parameter: the local midnight shifted by the time
      zone offset (in minutes), in whole seconds rounded down. */
  function StartUnixTimestamp(localMidnightMs: int, offsetMinutes: int): (r: int)
    ensures var utcMs := localMidnightMs - offsetMinutes * 60000;
      r * 1000 <= utcMs < r * 1000 + 1000
  {
    (localMidnightMs - offsetMinutes * 60000) / 1000
  }

  /** The level thresholds 10 < 70 < 135 < 200. */
  function Level(count: int): (level: int)
    ensures 0 <= level <= 4
    ensures level == 4 <==> count >= 200
    ensures level >= 3 <==> count >= 135
    ensures level >= 2 <==> count >= 70
    ensures level >= 1 <==> count >= 10
  {
    if count >= 200 then 4
    else if count >= 135 then 3
    else if count >= 70 then 2
    else if count >= 10 then 1
    else 0
  }

  /** More transfers never give a lower level. */
  lemma LevelMonotone(a: int, b: int)
    requires a <= b
    ensures Level(a) <= Level(b)
  {
  }

  /** The transfers of `ts` inside the day whose local hour is `h`. */
  function CountAt(ts: seq<SimplifiedTransfer>, day: Day, clock: Clock, h: int): nat
  {
    if ts == [] then 0
    else
      CountAt(ts[..|ts| - 1], day, clock, h)
      + (if InDay(ts[|ts| - 1], day, clock) && HourOf(ts[|ts| - 1], clock) == h then 1 else 0)
  }

  /** The transfers of `ts` inside the day, whatever their hour. */
  function CountInDay(ts: seq<SimplifiedTransfer>, day: Day, clock: Clock): (n: nat)
    ensures n <= |ts|
  {
    if ts == [] then 0
    else CountInDay(ts[..|ts| - 1], day, clock) + (if InDay(ts[|ts| - 1], day, clock) then 1 else 0)
  }

  /** The `queryFn` computation: count per local hour the transfers inside
      the day, then build the 24 cells with their levels. The fetched list
      is handed back unchanged. */
  method BuildHeatmap(transfers: seq<SimplifiedTransfer>, day: Day, clock: Clock)
    returns (heatmap: seq<HeatmapCell>, kept: seq<SimplifiedTransfer>)
    ensures |heatmap| == HoursPerDay
    ensures forall h :: 0 <= h < |heatmap| ==>
      && heatmap[h].hour == h
      && heatmap[h].count == CountAt(transfers, day, clock, h)
      && heatmap[h].level == Level(heatmap[h].count)
    ensures kept == transfers
  {
    var hourCounts: seq<nat> := seq(HoursPerDay, _ => 0);
    var k := 0;
    while k < |transfers|
      invariant 0 <= k <= |transfers|
      invariant |hourCounts| == HoursPerDay
      invariant forall h :: 0 <= h < HoursPerDay ==> hourCounts[h] == CountAt(transfers[..k], day, clock, h)
    {
      var t := transfers[k];
      assert transfers[..k + 1][..k] == transfers[..k];
      if InDay(t, day, clock) {
        var hour := HourOf(t, clock);
        hourCounts := hourCounts[hour := hourCounts[hour] + 1];
      }
      k := k + 1;
    }
    assert transfers[..k] == transfers;
    heatmap := [];
    var hour := 0;
    while hour < HoursPerDay
      invariant 0 <= hour <= HoursPerDay
      invariant |heatmap| == hour
      invariant forall h :: 0 <= h < hour ==>
        heatmap[h] == HeatmapCell(h, hourCounts[h], Level(hourCounts[h]))
    {
      var count := hourCounts[hour];
      heatmap := heatmap + [HeatmapCell(hour, count, Level(count))];
      hour := hour + 1;
    }
    kept := transfers;
  }

  datatype HeatmapData = HeatmapData(heatmap: seq<HeatmapCell>, transfers: seq<SimplifiedTransfer>)

  /** The whole `queryFn`: a failed response (`None`) makes the query fail
      with no data; otherwise the cells are built from the fetched list. */
  method QueryHeatmap(fetched: Option<seq<SimplifiedTransfer>>, day: Day, clock: Clock)
    returns (result: Option<HeatmapData>)
    ensures result.None? <==> fetched.None?
    ensures result.Some? ==>
      && result.value.transfers == fetched.value
      && |result.value.heatmap| == HoursPerDay
      && forall h :: 0 <= h < HoursPerDay ==>
        result.value.heatmap[h] == HeatmapCell(h, CountAt(fetched.value, day, clock, h), Level(CountAt(fetched.value, day, clock, h)))
  {
    if fetched.None? {
      return None;
    }
    var heatmap, kept := BuildHeatmap(fetched.value, day, clock);
    result := Some(HeatmapData(heatmap, kept));
  }

  /** Sum of the per-hour counts of hours below `n`. */
  function SumHours(ts: seq<SimplifiedTransfer>, day: Day, clock: Clock, n: nat): nat
  {
    if n == 0 then 0 else SumHours(ts, day, clock, n - 1) + CountAt(ts, day, clock, n - 1)
  }

  lemma {:induction false} SumHoursEmpty(ts: seq<SimplifiedTransfer>, day: Day, clock: Clock, n: nat)
    requires ts == []
    ensures SumHours(ts, day, clock, n) == 0
  {
    if n > 0 {
      SumHoursEmpty(ts, day, clock, n - 1);
    }
  }

  lemma {:induction false} SumHoursStep(ts: seq<SimplifiedTransfer>, day: Day, clock: Clock, n: nat)
    requires |ts| > 0
    ensures var last := ts[|ts| - 1];
      SumHours(ts, day, clock, n) ==
        SumHours(ts[..|ts| - 1], day, clock, n)
        + (if InDay(last, day, clock) && HourOf(last, clock) < n then 1 else 0)
  {
    if n > 0 {
      SumHoursStep(ts, day, clock, n - 1);
    }
  }

  /** Every in-day transfer lands in exactly one cell and out-of-day
      transfers in none: the cells add up to the in-day count, which is at
      most the number of transfers fetched. */
  lemma {:induction false} CellsPartitionDay(ts: seq<SimplifiedTransfer>, day: Day, clock: Clock)
    ensures SumHours(ts, day, clock, HoursPerDay) == CountInDay(ts, day, clock)
    ensures SumHours(ts, day, clock, HoursPerDay) <= |ts|
  {
    if ts != [] {
      var last := ts[|ts| - 1];
      SumHoursStep(ts, day, clock, HoursPerDay);
      CellsPartitionDay(ts[..|ts| - 1], day, clock);
      if InDay(last, day, clock) {
        assert HourOf(last, clock) < HoursPerDay;
      }
    } else {
      SumHoursEmpty(ts, day, clock, HoursPerDay);
    }
  }

  /** A transfer outside the selected day changes no cell. */
  lemma OutOfDayIgnored(ts: seq<SimplifiedTransfer>, t: SimplifiedTransfer, day: Day, clock: Clock, h: int)
    requires !InDay(t, day, clock)
    ensures CountAt(ts + [t], day, clock, h) == CountAt(ts, day, clock, h)
  {
    assert (ts + [t])[..|ts|] == ts;
  }
}
