/** The pure rules of the heatmap panel (src/components/ActivityHeatmap.tsx):
    cell colours, hour labels, day navigation within the last week, the
    selected-hour timeout and the hour detail list. Dates are milliseconds;
    the calendar day of an instant is a parameter, and moving one day is
    modelled as a shift by exactly 86 400 000 ms. */
module ActivityHeatmapView {
  import opened Wrappers
  import opened Strings
  import opened ActivityHeatmapData

  const DayMs: int := 86400000
  const HistoryDays: int := 7
  const AutoClearMs: nat := 20000

  /** The four activity shades and the no-activity grey. */
  const LightGreen := "bg-green-300"
  const Green := "bg-green-500"
  const DarkGreen := "bg-green-700"
  const DarkestGreen := "bg-green-900"
  const NoActivity := "bg-[#a8a5a599]"

  function LevelColor(level: int): (c: string)
    ensures 1 <= level <= 4 ==> c != NoActivity
    ensures !(1 <= level <= 4) ==> c == NoActivity
    ensures level == 1 ==> c == LightGreen
    ensures level == 2 ==> c == Green
    ensures level == 3 ==> c == DarkGreen
    ensures level == 4 ==> c == DarkestGreen
  {
    match level
    case 1 => LightGreen
    case 2 => Green
    case 3 => DarkGreen
    case 4 => DarkestGreen
    case _ => NoActivity
  }

  /** Distinct levels in 1..4 get distinct colours. */
  lemma LevelColorInjective(a: int, b: int)
    requires 1 <= a <= 4 && 1 <= b <= 4
    ensures LevelColor(a) == LevelColor(b) <==> a == b
  {
  }

  /** Every level a cell can carry has a colour of its own, and only the
      empty level is grey. */
  lemma CellColorMatchesActivity(count: int)
    ensures LevelColor(Level(count)) == NoActivity <==> count < 10
  {
  }

  /** `hour.toString().padStart(2, '0') + ':00'`. */
  function FormatHour(hour: nat): (r: string)
    ensures hour < 24 ==> |r| == 5 && r[2..] == ":00"
    ensures hour < 24 ==> AllDigits(r[..2]) && DigitsValue(r[..2]) == hour
  {
    var r := PadTwo(hour) + ":00";
    assert hour < 24 ==> r[..2] == PadTwo(hour);
    r
  }

  /** The label of an hour reads back as that hour. */
  lemma FormatHourParsesBack(hour: Hour)
    ensures ParseInt(FormatHour(hour)[..2]) == Some(hour)
  {
  }

  /** Two distinct hours never share a label. */
  lemma FormatHourInjective(a: Hour, b: Hour)
    ensures FormatHour(a) == FormatHour(b) <==> a == b
  {
    if FormatHour(a) == FormatHour(b) {
      assert FormatHour(a)[..2] == FormatHour(b)[..2];
    }
  }

  /** The end of the detail range: the following hour, 23 wrapping to 0. */
  function NextHour(hour: Hour): (r: Hour)
    ensures hour < 23 ==> r == hour + 1
    ensures hour == 23 ==> r == 0
  {
    (hour + 1) % 24
  }

  lemma LastHourEndsAtMidnight()
    ensures FormatHour(NextHour(23)) == "00:00"
  {
    assert FormatHour(0) == PadTwo(0) + ":00";
    assert PadTwo(0) == "00";
  }

  /** The panel's state: the selected instant and the selected hour. */
  datatype Selection = Selection(selectedDate: int, selectedHour: Option<int>)

  datatype Direction = Prev | Next

  /** What the panel needs to know about the present. */
  datatype Today = Today(now: int, dayOf: int -> int)

  predicate IsToday(selectedDate: int, today: Today)
  {
    today.dayOf(selectedDate) == today.dayOf(today.now)
  }

  /** Back is allowed while the selected instant is after one week ago. */
  predicate CanGoBack(selectedDate: int, today: Today)
  {
    selectedDate > today.now - HistoryDays * DayMs
  }

  /** Forward is allowed while the selected instant is before now and on
      another day. */
  predicate CanGoForward(selectedDate: int, today: Today)
  {
    selectedDate < today.now && !IsToday(selectedDate, today)
  }

  /** A press of one of the two arrows. */
  function NavigateDate(sel: Selection, direction: Direction, today: Today): (r: Selection)
    ensures r.selectedHour == None
    ensures direction == Prev && CanGoBack(sel.selectedDate, today) ==> r.selectedDate == sel.selectedDate - DayMs
    ensures direction == Next && CanGoForward(sel.selectedDate, today) ==> r.selectedDate == sel.selectedDate + DayMs
    ensures direction == Prev && !CanGoBack(sel.selectedDate, today) ==> r.selectedDate == sel.selectedDate
    ensures direction == Next && !CanGoForward(sel.selectedDate, today) ==> r.selectedDate == sel.selectedDate
  {
    if direction == Prev && CanGoBack(sel.selectedDate, today) then
      Selection(sel.selectedDate - DayMs, None)
    else if direction == Next && CanGoForward(sel.selectedDate, today) then
      Selection(sel.selectedDate + DayMs, None)
    else
      Selection(sel.selectedDate, None)
  }

  /** Starting from now, going back never leaves the last eight days, and
      going forward never passes the same time tomorrow: a step forward
      from yesterday evening lands later today than now. */
  lemma {:induction false} NavigationStaysInWindow(sel: Selection, directions: seq<Direction>, today: Today)
    requires today.now - (HistoryDays + 1) * DayMs < sel.selectedDate < today.now + DayMs
    ensures var r := NavigateAll(sel, directions, today);
      today.now - (HistoryDays + 1) * DayMs < r.selectedDate < today.now + DayMs
    decreases |directions|
  {
    if directions != [] {
      NavigationStaysInWindow(NavigateDate(sel, directions[0], today), directions[1..], today);
    }
  }

  function NavigateAll(sel: Selection, directions: seq<Direction>, today: Today): Selection
    decreases |directions|
  {
    if directions == [] then sel else NavigateAll(NavigateDate(sel, directions[0], today), directions[1..], today)
  }

  /** Clicking a cell selects its hour. */
  function SelectHour(sel: Selection, hour: Hour): (r: Selection)
    ensures r.selectedHour == Some(hour) && r.selectedDate == sel.selectedDate
  {
    sel.(selectedHour := Some(hour))
  }

  /** The clear-after-20-seconds timer the effect arms, if any: only a
      truthy selected hour arms it. */
  function AutoClearTimer(selectedHour: Option<int>): (delay: Option<nat>)
    ensures delay.Some? <==> selectedHour.Some? && selectedHour.value != 0
    ensures delay.Some? ==> delay.value == AutoClearMs
  {
    if selectedHour.Some? && selectedHour.value != 0 then Some(AutoClearMs) else None
  }

  /** The armed timer firing deselects the hour. */
  function FireAutoClear(sel: Selection): (r: Selection)
    ensures r.selectedHour == None && r.selectedDate == sel.selectedDate
  {
    sel.(selectedHour := None)
  }

  /** Midnight is falsy: selecting hour 0 never arms the timeout, while
      every other hour does. */
  lemma MidnightNeverAutoCleared(sel: Selection, hour: Hour)
    ensures AutoClearTimer(SelectHour(sel, hour).selectedHour).None? <==> hour == 0
  {
  }

  /** The detail list for the selected hour: the fetched transfers inside
      the selected day whose local hour is the selected hour, in fetched
      order. An unparsable timestamp is in no hour. */
  function HourTransfers(ts: seq<SimplifiedTransfer>, hour: int, day: Day, clock: Clock): (r: seq<SimplifiedTransfer>)
    ensures |r| <= |ts|
    ensures forall t :: t in r <==> t in ts && InDay(t, day, clock) && HourOf(t, clock) == hour
  {
    if ts == [] then []
    else
      var last := ts[|ts| - 1];
      HourTransfers(ts[..|ts| - 1], hour, day, clock)
      + (if InDay(last, day, clock) && HourOf(last, clock) == hour then [last] else [])
  }

  /** The detail list keeps fetch order: the list of a concatenation is the
      concatenation of the lists. */
  lemma {:induction false} HourTransfersConcat(a: seq<SimplifiedTransfer>, b: seq<SimplifiedTransfer>, hour: int, day: Day, clock: Clock)
    ensures HourTransfers(a + b, hour, day, clock) == HourTransfers(a, hour, day, clock) + HourTransfers(b, hour, day, clock)
    decreases |b|
  {
    if b != [] {
      var b' := b[..|b| - 1];
      assert (a + b)[..|a + b| - 1] == a + b';
      assert (a + b)[|a + b| - 1] == b[|b| - 1];
      HourTransfersConcat(a, b', hour, day, clock);
    } else {
      assert a + b == a;
    }
  }

  /** The detail panel's transaction count agrees with the cell's count. */
  lemma {:induction false} DetailCountMatchesCell(ts: seq<SimplifiedTransfer>, hour: int, day: Day, clock: Clock)
    ensures |HourTransfers(ts, hour, day, clock)| == CountAt(ts, day, clock, hour)
  {
    if ts != [] {
      DetailCountMatchesCell(ts[..|ts| - 1], hour, day, clock);
    }
  }
}
