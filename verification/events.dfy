/** The live feed's data model (src/types.ts) and the id rules of the
    reconciliation engine (src/hooks/useLiveTransfers.ts).

    Timestamps are integer milliseconds; wire amounts are integers standing
    for the source's numbers. Ids are JavaScript numbers, which can be NaN
    when the fallback id is derived from a hash that does not parse. */
module Events {
  import opened Wrappers
  import opened Strings

  /** A JavaScript number used as an event id. */
  datatype EventId = Num(n: int) | NaN

  /** `a === b` on numbers: NaN is equal to nothing, not even itself. */
  predicate StrictEq(a: EventId, b: EventId)
  {
    a.Num? && b.Num? && a.n == b.n
  }

  /** One entry of the event log: the two variants of `LiveEvent`. */
  datatype LiveEvent =
    | TransferEvent(
        id: EventId,
        fromAddress: string,
        toAddress: string,
        amount: string,
        blockNumber: string,
        transactionHash: string,
        logIndex: int,
        timestamp: int)
    | AccountCreationEvent(
        id: EventId,
        createdAddress: string,
        contractAddress: string,
        keySlot: int,
        keyHash1: string,
        keyHash2: string,
        initDest: string,
        initValue: string,
        blockNumber: string,
        transactionHash: string,
        logIndex: int,
        timestamp: int)

  /** One record of the recent-transfers snapshot, with numeric amount and
      block number and the timestamp already parsed. */
  datatype SnapshotRecord = SnapshotRecord(
    id: int,
    fromAddress: string,
    toAddress: string,
    amount: int,
    blockNumber: int,
    transactionHash: string,
    logIndex: int,
    timestamp: int)

  /** The `data` of a `new_transfer` message; `id` is None when the field is
      absent or null. */
  datatype TransferData = TransferData(
    id: Option<int>,
    fromAddress: string,
    toAddress: string,
    amount: int,
    blockNumber: string,
    transactionHash: string,
    logIndex: int,
    timestamp: int)

  /** The `data` of a `new_account_creation` message: it carries no id. */
  datatype AccountCreationData = AccountCreationData(
    createdAddress: string,
    contractAddress: string,
    keySlot: int,
    keyHash1: string,
    keyHash2: string,
    initDest: string,
    initValue: string,
    blockNumber: string,
    transactionHash: string,
    logIndex: int,
    timestamp: int)

  /** `s.slice(-8)`: the last eight characters, or all of a shorter string. */
  function LastEight(s: string): (r: string)
    ensures |s| <= 8 ==> r == s
    ensures |s| > 8 ==> |r| == 8 && s == s[..|s| - 8] + r
  {
    if |s| <= 8 then s else s[|s| - 8..]
  }

  /** `parseInt(hash.slice(-8), 16) + log_index`; NaN propagates. */
  function DerivedId(transactionHash: string, logIndex: int): (r: EventId)
    ensures r.NaN? <==> ParseHex(LastEight(transactionHash)).None?
    ensures r.Num? ==> r.n == ParseHex(LastEight(transactionHash)).value + logIndex
  {
    match ParseHex(LastEight(transactionHash))
    case None => NaN
    case Some(v) => Num(v + logIndex)
  }

  /** `data.id || derived`: a supplied id is used only when it is truthy, so
      an absent id and a supplied 0 both fall back to the derived id. */
  function TransferId(data: TransferData): (r: EventId)
    ensures data.id.Some? && data.id.value != 0 ==> r == Num(data.id.value)
    ensures data.id.None? || data.id.value == 0 ==> r == DerivedId(data.transactionHash, data.logIndex)
  {
    if data.id.Some? && data.id.value != 0 then Num(data.id.value)
    else DerivedId(data.transactionHash, data.logIndex)
  }

  /** Account creations always use the derived id. */
  function AccountCreationId(data: AccountCreationData): (r: EventId)
    ensures r == DerivedId(data.transactionHash, data.logIndex)
  {
    DerivedId(data.transactionHash, data.logIndex)
  }

  /** Equal (hash, log index) pairs always resolve to the same id, whichever
      message kind carries them, unless a transfer supplies its own non-zero
      id. */
  lemma IdDerivationDeterministic(t: TransferData, a: AccountCreationData)
    requires t.id.None? || t.id.value == 0
    requires t.transactionHash == a.transactionHash && t.logIndex == a.logIndex
    ensures TransferId(t) == AccountCreationId(a)
  {
  }

  /** A supplied id of 0 is ignored: the message resolves to the same id as
      one carrying no id at all. */
  lemma SuppliedZeroIgnored(t: TransferData)
    requires t.id == Some(0)
    ensures TransferId(t) == TransferId(t.(id := None))
  {
  }

  /** When the last eight characters of the hash are hexadecimal digits, the
      derived id is the number they spell plus the log index. */
  lemma DerivedIdOfHexSuffix(transactionHash: string, logIndex: int)
    requires |transactionHash| >= 8
    requires forall i :: |transactionHash| - 8 <= i < |transactionHash| ==> IsHexDigit(transactionHash[i])
    ensures DerivedId(transactionHash, logIndex) == Num(HexDigitsValue(LastEight(transactionHash)) + logIndex)
  {
    var d := LastEight(transactionHash);
    assert d == transactionHash[|transactionHash| - 8..];
    ParseHexOfHexDigits(d);
  }

  /** Digit by digit, most significant first. */
  lemma HexValueExample()
    ensures HexDigitsValue("ffabcdef") == 4289449455
  {
    var d := "ffabcdef";
    assert HexDigitsValue(d[..1]) == 15 by { assert d[..1][..0] == []; }
    assert HexDigitsValue(d[..2]) == 255 by { assert d[..2][..1] == d[..1]; }
    assert HexDigitsValue(d[..3]) == 4090 by { assert d[..3][..2] == d[..2]; }
    assert HexDigitsValue(d[..4]) == 65451 by { assert d[..4][..3] == d[..3]; }
    assert HexDigitsValue(d[..5]) == 1047228 by { assert d[..5][..4] == d[..4]; }
    assert HexDigitsValue(d[..6]) == 16755661 by { assert d[..6][..5] == d[..5]; }
    assert HexDigitsValue(d[..7]) == 268090590 by { assert d[..7][..6] == d[..6]; }
    assert HexDigitsValue(d[..8]) == 4289449455 by { assert d[..8][..7] == d[..7]; }
    assert d[..8] == d;
  }

  /** A full 32-byte hash ending in "ffabcdef" with log index 3 yields the
      id 0xffabcdef + 3, every time. */
  lemma DerivedIdExample()
    ensures DerivedId("0x00000000000000000000000000000000000000000000000000000000ffabcdef", 3) == Num(4289449458)
  {
    var h := "0x00000000000000000000000000000000000000000000000000000000ffabcdef";
    assert |h| == 66;
    assert h[58..] == "ffabcdef";
    assert LastEight(h) == "ffabcdef";
    HexValueExample();
    DerivedIdOfHexSuffix(h, 3);
  }
}
