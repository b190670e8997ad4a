/** What the activity list shows for the engine's state
    (src/components/TransfersTab.tsx): the log re-sorted newest first, one
    row per entry, highlighted while its id is fresh. */
module TransfersTab {
  import opened Events
  import opened Utils
  import StableSort

  function Timestamp(e: LiveEvent): int { e.timestamp }

  /** `[...events].sort((a, b) => b.timestamp - a.timestamp)`: a stable sort,
      newest first, of a copy; the log itself is a value and is untouched. */
  function DisplayOrder(events: seq<LiveEvent>): (r: seq<LiveEvent>)
    ensures multiset(r) == multiset(events)
    ensures forall i, j :: 0 <= i < j < |r| ==> r[i].timestamp >= r[j].timestamp
  {
    StableSort.Sort(events, Timestamp)
  }

  /** Entries with equal timestamps keep their arrival order. */
  lemma DisplayOrderStable(events: seq<LiveEvent>, t: int)
    ensures StableSort.WithKey(DisplayOrder(events), Timestamp, t) == StableSort.WithKey(events, Timestamp, t)
  {
    StableSort.SortIsStable(events, Timestamp, t);
  }

  /** The "to" column: "self" when the two addresses are identical,
      character for character. */
  function ToLabel(fromAddress: string, toAddress: string): (r: string)
    ensures fromAddress == toAddress ==> r == "self"
    ensures fromAddress != toAddress ==> r == TruncateHashOrAddress(toAddress)
  {
    if fromAddress == toAddress then "self" else TruncateHashOrAddress(toAddress)
  }

  /** For real addresses (longer than ten characters) "self" is shown
      exactly when the two addresses are equal. */
  lemma SelfLabelIff(fromAddress: string, toAddress: string)
    requires |toAddress| > 10
    ensures ToLabel(fromAddress, toAddress) == "self" <==> fromAddress == toAddress
  {
    if fromAddress != toAddress {
      assert |ToLabel(fromAddress, toAddress)| == 13;
    }
  }

  /** A literal "self" address is shown as "self" although it differs from
      the sender: the label alone does not tell a self-transfer. */
  lemma SelfLabelAmbiguous()
    ensures ToLabel("0xabc", "self") == "self"
  {
  }

  datatype Row =
    | TransferRow(id: EventId, highlighted: bool, txLabel: string, fromLabel: string, toLabel: string, amount: string, timestamp: int)
    | CreationRow(id: EventId, highlighted: bool, txLabel: string, timestamp: int)

  datatype View = NoActivity | Rows(rows: seq<Row>)

  function RowOf(e: LiveEvent, freshIds: set<EventId>): (r: Row)
    ensures r.id == e.id && r.timestamp == e.timestamp
    ensures r.TransferRow? <==> e.TransferEvent?
    ensures r.highlighted <==> e.id in freshIds
    ensures r.txLabel == TruncateHashOrAddress(e.transactionHash)
    ensures e.TransferEvent? ==>
      && r.fromLabel == TruncateHashOrAddress(e.fromAddress)
      && r.toLabel == ToLabel(e.fromAddress, e.toAddress)
      && r.amount == e.amount
  {
    match e
    case TransferEvent(id, fromAddress, toAddress, amount, _, hash, _, ts) =>
      TransferRow(id, id in freshIds, TruncateHashOrAddress(hash), TruncateHashOrAddress(fromAddress),
        ToLabel(fromAddress, toAddress), amount, ts)
    case AccountCreationEvent(id, _, _, _, _, _, _, _, _, hash, _, ts) =>
      CreationRow(id, id in freshIds, TruncateHashOrAddress(hash), ts)
  }

  /** The placeholder for an empty log; otherwise one row per entry in
      display order. */
  function Render(events: seq<LiveEvent>, freshIds: set<EventId>): (v: View)
    ensures v.NoActivity? <==> |events| == 0
    ensures v.Rows? ==> |v.rows| == |events|
    ensures v.Rows? ==> forall i :: 0 <= i < |v.rows| ==> v.rows[i] == RowOf(DisplayOrder(events)[i], freshIds)
  {
    if |events| == 0 then NoActivity
    else
      var sorted := DisplayOrder(events);
      Rows(seq(|sorted|, i requires 0 <= i < |sorted| => RowOf(sorted[i], freshIds)))
  }

  /** Every shown row is highlighted exactly when its id is fresh, and the
      rows appear newest first. */
  lemma RenderHighlightsFresh(events: seq<LiveEvent>, freshIds: set<EventId>)
    requires |events| > 0
    ensures var v := Render(events, freshIds);
      && v.Rows?
      && (forall i :: 0 <= i < |v.rows| ==> (v.rows[i].highlighted <==> v.rows[i].id in freshIds))
      && (forall i, j :: 0 <= i < j < |v.rows| ==> v.rows[i].timestamp >= v.rows[j].timestamp)
      && (forall e :: e in events <==> exists i :: 0 <= i < |v.rows| && v.rows[i] == RowOf(e, freshIds) && DisplayOrder(events)[i] == e)
  {
    var v := Render(events, freshIds);
    var sorted := DisplayOrder(events);
    forall e
      ensures e in events <==> exists i :: 0 <= i < |v.rows| && v.rows[i] == RowOf(e, freshIds) && sorted[i] == e
    {
      assert e in events <==> e in multiset(sorted);
      if e in sorted {
        var i :| 0 <= i < |sorted| && sorted[i] == e;
        assert v.rows[i] == RowOf(e, freshIds);
      }
    }
  }
}
