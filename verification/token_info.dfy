/** The token card's local behaviour (src/components/TokenInfoCard.tsx):
    the two-minute refresh countdown, its M:SS rendering, the price-change
    flash and the price chart's series. Prices are kept as the strings the
    server sends; chart prices and offsets are integers. */
module TokenInfoCard {
  import opened Wrappers
  import opened Strings
  import StableSort

  const CountdownStart: int := 120
  const FlashMs: nat := 2000

  /** One second of the countdown: 1 (or anything below) wraps to 120. */
  function Tick(prev: int): (next: int)
    ensures prev <= 1 ==> next == CountdownStart
    ensures prev > 1 ==> next == prev - 1
    ensures prev <= CountdownStart + 1 ==> 1 <= next <= CountdownStart
  {
    if prev <= 1 then CountdownStart else prev - 1
  }

  /** The countdown after `n` ticks from `start`. */
  function Ticks(start: int, n: nat): int
  {
    if n == 0 then start else Tick(Ticks(start, n - 1))
  }

  /** From the initial value the countdown always shows 1..120. */
  lemma {:induction false} CountdownInRange(n: nat)
    ensures 1 <= Ticks(CountdownStart, n) <= CountdownStart
  {
    if n > 0 {
      CountdownInRange(n - 1);
    }
  }

  /** Within one period the countdown falls by one per tick. */
  lemma {:induction false} CountdownFalls(k: nat)
    requires k < CountdownStart
    ensures Ticks(CountdownStart, k) == CountdownStart - k
  {
    if k > 0 {
      CountdownFalls(k - 1);
    }
  }

  /** The countdown is periodic: 120 ticks bring it back to 120, and no
      fewer ticks do. */
  lemma CountdownPeriodic(k: nat)
    requires 0 < k < CountdownStart
    ensures Ticks(CountdownStart, CountdownStart) == CountdownStart
    ensures Ticks(CountdownStart, k) != CountdownStart
  {
    CountdownFalls(CountdownStart - 1);
    CountdownFalls(k);
  }

  /** `formatCountdown`: whole minutes, a colon, and the seconds padded to
      two digits. */
  function FormatCountdown(seconds: nat): (r: string)
    ensures |r| >= 4 && r[|r| - 3] == ':'
    ensures AllDigits(r[..|r| - 3]) && AllDigits(r[|r| - 2..])
    ensures DigitsValue(r[|r| - 2..]) < 60
    ensures DigitsValue(r[..|r| - 3]) * 60 + DigitsValue(r[|r| - 2..]) == seconds
  {
    var m := NatToString(seconds / 60);
    var ss := PadTwo(seconds % 60);
    SplitAtColon(m, ss);
    m + ":" + ss
  }

  lemma SplitAtColon(m: string, ss: string)
    requires |ss| == 2
    ensures var r := m + ":" + ss;
      |r| == |m| + 3 && r[|r| - 3] == ':' && r[..|r| - 3] == m && r[|r| - 2..] == ss
  {
  }

  /** Every countdown value renders as M:SS. */
  lemma CountdownShape(seconds: nat)
    requires 1 <= seconds <= CountdownStart
    ensures |FormatCountdown(seconds)| == 4
  {
    assert seconds / 60 < 10;
  }

  /** The card's price memory: the last price seen and whether the flash
      is showing. */
  datatype PriceState = PriceState(lastPrice: string, priceChanged: bool)

  /** The price-change effect for the current token info (`None` while it
      is not loaded). It may arm the timer that ends the flash. */
  function PriceEffect(st: PriceState, price: Option<string>): (r: (PriceState, Option<nat>))
    ensures price.None? ==> r == (st, None)
    ensures price.Some? && st.lastPrice == [] ==> r == (PriceState(price.value, st.priceChanged), None)
    ensures price.Some? && st.lastPrice != [] && price.value != st.lastPrice ==>
      r == (PriceState(price.value, true), Some(FlashMs))
    ensures price.Some? && price.value == st.lastPrice ==> r == (st, None)
  {
    if price.Some? && st.lastPrice != [] && price.value != st.lastPrice then
      (PriceState(price.value, true), Some(FlashMs))
    else if price.Some? && st.lastPrice == [] then
      (st.(lastPrice := price.value), None)
    else
      (st, None)
  }

  /** The flash timer firing. */
  function EndFlash(st: PriceState): (r: PriceState)
    ensures !r.priceChanged && r.lastPrice == st.lastPrice
  {
    st.(priceChanged := false)
  }

  /** The effect re-runs when `lastPrice` changes; that second run changes
      nothing and arms no timer, so one price update flashes at most once. */
  lemma PriceEffectSettles(st: PriceState, price: Option<string>)
    ensures var (st1, _) := PriceEffect(st, price);
      PriceEffect(st1, price) == (st1, None)
  {
  }

  /** After the effect the remembered price is the current one (when
      loaded), and the flash is raised only for a real change of a price
      seen before. */
  lemma PriceEffectTracksPrice(st: PriceState, price: Option<string>)
    ensures var (st1, timer) := PriceEffect(st, price);
      && (price.Some? ==> st1.lastPrice == price.value)
      && (timer.Some? <==> price.Some? && st.lastPrice != [] && price.value != st.lastPrice)
  {
  }

  datatype HistoricalPrice = HistoricalPrice(offsetHours: int, priceUsd: int)

  datatype ChartPoint = ChartPoint(time: int, price: int)

  function Offset(p: HistoricalPrice): int { p.offsetHours }

  function Time(c: ChartPoint): int { c.time }

  function ToChartPoint(p: HistoricalPrice): (c: ChartPoint)
    ensures c.time == p.offsetHours && c.price == p.priceUsd
  {
    ChartPoint(p.offsetHours, p.priceUsd)
  }

  /** `chartData`: the history sorted by offset, largest first (oldest
      first), as (time, price) points; empty when there is no history. */
  function ChartData(history: Option<seq<HistoricalPrice>>): (r: seq<ChartPoint>)
    ensures history.None? ==> r == []
    ensures history.Some? ==> multiset(r) == multiset(StableSort.Map(history.value, ToChartPoint))
    ensures forall i, j :: 0 <= i < j < |r| ==> r[i].time >= r[j].time
  {
    match history
    case None => []
    case Some(h) =>
      var r := StableSort.Map(StableSort.Sort(h, Offset), ToChartPoint);
      StableSort.SortMapCommutes(h, ToChartPoint, Offset, Time);
      r
  }

  /** Points at the same offset keep their order in the history. */
  lemma ChartDataStable(history: seq<HistoricalPrice>, t: int)
    ensures StableSort.WithKey(ChartData(Some(history)), Time, t)
         == StableSort.WithKey(StableSort.Map(history, ToChartPoint), Time, t)
  {
    StableSort.SortMapCommutes(history, ToChartPoint, Offset, Time);
    StableSort.SortIsStable(StableSort.Map(history, ToChartPoint), Time, t);
  }
}
