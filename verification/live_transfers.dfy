/** The live event reconciliation engine (src/hooks/useLiveTransfers.ts).

    The hook's React state is one immutable record; each callback of the
    source is one atomic step function. Timers are not run: a step returns
    the timers it arms, and firing a timer is a step of its own. */
module LiveTransfers {
  import opened Wrappers
  import opened Strings
  import opened Events
  import IgnoredAddresses

  /** Retention cap of the event log. */
  const MaxEvents: nat := 1000
  /** How long the activity pulse lasts after an admitted transfer. */
  const TransferPulseMs: nat := 2000
  /** How long the activity pulse lasts after a new account creation. */
  const AccountCreationPulseMs: nat := 3000
  /** Highlight window of a fresh id, for both event kinds. */
  const FreshWindowMs: nat := 2000

  /** `events`, `newEventIds`, `isAnimating`, `error` (as a flag) and
      `isLoading` of the hook. */
  datatype EngineState = EngineState(
    events: seq<LiveEvent>,
    freshIds: set<EventId>,
    animating: bool,
    error: bool,
    loading: bool)

  /** A one-shot timer armed by a step. */
  datatype Timer =
    | StopAnimation(delayMs: nat)
    | ExpireFresh(id: EventId, delayMs: nat)

  datatype Step = Step(state: EngineState, timers: seq<Timer>)

  /** The hook's state right after mounting. */
  const Mounted: EngineState := EngineState([], {}, false, false, true)

  /** Some entry's id is `===` to `id`. */
  predicate ContainsId(events: seq<LiveEvent>, id: EventId)
  {
    exists i :: 0 <= i < |events| && StrictEq(events[i].id, id)
  }

  /** No two entries of the log have `===` ids. */
  predicate IdsDistinct(events: seq<LiveEvent>)
  {
    forall i, j :: 0 <= i < j < |events| ==> !StrictEq(events[i].id, events[j].id)
  }

  function Min(a: int, b: int): int { if a <= b then a else b }

  /** `[e, ...events].slice(0, 1000)`. */
  function PrependCapped(e: LiveEvent, events: seq<LiveEvent>): (r: seq<LiveEvent>)
    ensures |r| == Min(|events| + 1, MaxEvents)
    ensures r[0] == e
    ensures forall i :: 1 <= i < |r| ==> r[i] == events[i - 1]
  {
    ([e] + events)[..Min(|events| + 1, MaxEvents)]
  }

  // ----- Admission filter --------------------------------------------------

  /** Neither address, lower-cased, is in the ignored set. */
  predicate AddressesAdmitted(fromAddress: string, toAddress: string)
  {
    !IgnoredAddresses.IsIgnored(ToLower(toAddress)) &&
    !IgnoredAddresses.IsIgnored(ToLower(fromAddress))
  }

  predicate SnapshotAdmitted(r: SnapshotRecord)
  {
    AddressesAdmitted(r.fromAddress, r.toAddress) && r.amount > 0
  }

  predicate TransferAdmitted(d: TransferData)
  {
    AddressesAdmitted(d.fromAddress, d.toAddress) && d.amount > 0
  }

  /** Because the filter lower-cases the address but every literal of the
      set has upper-case letters, the address test never rejects: admission
      depends on the amount alone. */
  lemma AddressFilterNeverFires(fromAddress: string, toAddress: string)
    ensures AddressesAdmitted(fromAddress, toAddress)
  {
    IgnoredAddresses.LowerCasedNeverIgnored(fromAddress);
    IgnoredAddresses.LowerCasedNeverIgnored(toAddress);
  }

  lemma AdmissionIsAmountOnly(r: SnapshotRecord, d: TransferData)
    ensures SnapshotAdmitted(r) <==> r.amount > 0
    ensures TransferAdmitted(d) <==> d.amount > 0
  {
    AddressFilterNeverFires(r.fromAddress, r.toAddress);
    AddressFilterNeverFires(d.fromAddress, d.toAddress);
  }

  // ----- Snapshot ------------------------------------------------------------

  /** A snapshot record as a log entry: numbers rendered as decimal text,
      tagged as a transfer. */
  function NormalizeSnapshot(r: SnapshotRecord): (e: LiveEvent)
    ensures e.TransferEvent? && e.id == Num(r.id)
    ensures ParseInt(e.amount) == Some(r.amount) && ParseInt(e.blockNumber) == Some(r.blockNumber)
    ensures e.fromAddress == r.fromAddress && e.toAddress == r.toAddress
    ensures e.transactionHash == r.transactionHash && e.logIndex == r.logIndex && e.timestamp == r.timestamp
  {
    IntToStringRoundTrip(r.amount);
    IntToStringRoundTrip(r.blockNumber);
    TransferEvent(Num(r.id), r.fromAddress, r.toAddress, IntToString(r.amount),
      IntToString(r.blockNumber), r.transactionHash, r.logIndex, r.timestamp)
  }

  /** Filter then normalize, keeping source order; no cap, no de-duplication. */
  function SnapshotEvents(records: seq<SnapshotRecord>): (r: seq<LiveEvent>)
    ensures |r| <= |records|
    ensures forall i :: 0 <= i < |r| ==> r[i].TransferEvent?
  {
    if records == [] then []
    else
      (if SnapshotAdmitted(records[0]) then [NormalizeSnapshot(records[0])] else [])
      + SnapshotEvents(records[1..])
  }

  /** Snapshot normalisation distributes over concatenation, so the relative
      order of kept records is the source order. */
  lemma {:induction false} SnapshotEventsConcat(a: seq<SnapshotRecord>, b: seq<SnapshotRecord>)
    ensures SnapshotEvents(a + b) == SnapshotEvents(a) + SnapshotEvents(b)
  {
    if a == [] {
      assert a + b == b;
    } else {
      assert (a + b)[1..] == a[1..] + b;
      SnapshotEventsConcat(a[1..], b);
    }
  }

  /** An entry is in the log exactly when some admitted record normalises
      to it. */
  lemma {:induction false} SnapshotMembership(records: seq<SnapshotRecord>, e: LiveEvent)
    ensures e in SnapshotEvents(records) <==>
      exists i :: 0 <= i < |records| && SnapshotAdmitted(records[i]) && NormalizeSnapshot(records[i]) == e
  {
    if records != [] {
      SnapshotMembership(records[1..], e);
      if e in SnapshotEvents(records[1..]) {
        var i :| 0 <= i < |records[1..]| && SnapshotAdmitted(records[1..][i]) && NormalizeSnapshot(records[1..][i]) == e;
        assert records[i + 1] == records[1..][i];
      }
      if exists i :: 0 <= i < |records| && SnapshotAdmitted(records[i]) && NormalizeSnapshot(records[i]) == e {
        var i :| 0 <= i < |records| && SnapshotAdmitted(records[i]) && NormalizeSnapshot(records[i]) == e;
        if i > 0 {
          assert records[1..][i - 1] == records[i];
        }
      }
    }
  }

  /** The snapshot is not capped: when every amount is positive, every
      record becomes one entry, at its own position, however many there are. */
  lemma {:induction false} SnapshotNotCapped(records: seq<SnapshotRecord>)
    requires forall i :: 0 <= i < |records| ==> records[i].amount > 0
    ensures |SnapshotEvents(records)| == |records|
    ensures forall i :: 0 <= i < |records| ==> SnapshotEvents(records)[i] == NormalizeSnapshot(records[i])
  {
    if records != [] {
      AddressFilterNeverFires(records[0].fromAddress, records[0].toAddress);
      SnapshotNotCapped(records[1..]);
    }
  }

  /** The snapshot is not de-duplicated: two admitted records with the same
      id both reach the log. */
  lemma SnapshotKeepsDuplicates(r: SnapshotRecord)
    requires r.amount > 0
    ensures SnapshotEvents([r, r]) == [NormalizeSnapshot(r), NormalizeSnapshot(r)]
    ensures !IdsDistinct(SnapshotEvents([r, r]))
  {
    SnapshotNotCapped([r, r]);
  }

  /** How the awaited `connect()` turns out: it resolves, it rejects, or it
      never settles. */
  datatype ConnectOutcome = ConnectResolved | ConnectRejected | ConnectPending

  /** The initialisation effect: the fetch outcome (None when the request
      fails) and how the awaited connection then turns out. A failed fetch
      throws before connecting; a connection that never settles leaves the
      hook loading. */
  function InitFromSnapshot(s: EngineState, fetched: Option<seq<SnapshotRecord>>, connect: ConnectOutcome): (r: EngineState)
    ensures fetched.None? ==> r == s.(error := true, loading := false)
    ensures fetched.Some? ==> r.events == SnapshotEvents(fetched.value)
    ensures fetched.Some? ==> (r.error <==> connect == ConnectRejected) && (r.loading <==> connect == ConnectPending)
    ensures r.freshIds == s.freshIds && r.animating == s.animating
  {
    match fetched
    case None => s.(error := true, loading := false)
    case Some(records) =>
      s.(events := SnapshotEvents(records), error := connect == ConnectRejected, loading := connect == ConnectPending)
  }

  // ----- Live messages -------------------------------------------------------

  function NewTransfer(d: TransferData, id: EventId): (e: LiveEvent)
    ensures e.TransferEvent? && e.id == id && ParseInt(e.amount) == Some(d.amount)
    ensures e.fromAddress == d.fromAddress && e.toAddress == d.toAddress && e.blockNumber == d.blockNumber
    ensures e.transactionHash == d.transactionHash && e.logIndex == d.logIndex && e.timestamp == d.timestamp
  {
    IntToStringRoundTrip(d.amount);
    TransferEvent(id, d.fromAddress, d.toAddress, IntToString(d.amount), d.blockNumber,
      d.transactionHash, d.logIndex, d.timestamp)
  }

  function NewAccountCreation(d: AccountCreationData, id: EventId): (e: LiveEvent)
    ensures e.AccountCreationEvent? && e.id == id
    ensures e.createdAddress == d.createdAddress && e.contractAddress == d.contractAddress
    ensures e.keySlot == d.keySlot && e.keyHash1 == d.keyHash1 && e.keyHash2 == d.keyHash2
    ensures e.initDest == d.initDest && e.initValue == d.initValue && e.blockNumber == d.blockNumber
    ensures e.transactionHash == d.transactionHash && e.logIndex == d.logIndex && e.timestamp == d.timestamp
  {
    AccountCreationEvent(id, d.createdAddress, d.contractAddress, d.keySlot, d.keyHash1,
      d.keyHash2, d.initDest, d.initValue, d.blockNumber, d.transactionHash, d.logIndex, d.timestamp)
  }

  /** The `new_transfer` handler. `msg` is None for a payload whose fields
      cannot be read; the handler's catch turns that into the error flag. */
  function OnTransfer(s: EngineState, msg: Option<TransferData>): (r: Step)
    ensures msg.None? ==> r.state == s.(error := true) && r.timers == []
    ensures msg.Some? && !TransferAdmitted(msg.value) ==> r.state == s && r.timers == []
    ensures msg.Some? && TransferAdmitted(msg.value) ==>
      var id := TransferId(msg.value);
      && r.state.animating && !r.state.error && r.state.loading == s.loading
      && |r.timers| >= 1 && r.timers[0] == StopAnimation(TransferPulseMs)
      && (ContainsId(s.events, id) ==>
            r.state.events == s.events && r.state.freshIds == s.freshIds && |r.timers| == 1)
      && (!ContainsId(s.events, id) ==>
            && r.state.events == PrependCapped(NewTransfer(msg.value, id), s.events)
            && r.state.freshIds == s.freshIds + {id}
            && r.timers == [StopAnimation(TransferPulseMs), ExpireFresh(id, FreshWindowMs)])
  {
    match msg
    case None => Step(s.(error := true), [])
    case Some(d) =>
      if !TransferAdmitted(d) then Step(s, [])
      else
        var pulsing := s.(animating := true, error := false);
        var id := TransferId(d);
        if ContainsId(s.events, id) then Step(pulsing, [StopAnimation(TransferPulseMs)])
        else
          Step(pulsing.(events := PrependCapped(NewTransfer(d, id), s.events), freshIds := s.freshIds + {id}),
            [StopAnimation(TransferPulseMs), ExpireFresh(id, FreshWindowMs)])
  }

  /** The `new_account_creation` handler: no admission filter; the pulse is
      raised only for a new entry, and lasts longer. */
  function OnAccountCreation(s: EngineState, msg: Option<AccountCreationData>): (r: Step)
    ensures msg.None? ==> r.state == s.(error := true) && r.timers == []
    ensures msg.Some? ==>
      var id := AccountCreationId(msg.value);
      && !r.state.error && r.state.loading == s.loading
      && (ContainsId(s.events, id) ==> r.state == s.(error := false) && r.timers == [])
      && (!ContainsId(s.events, id) ==>
            && r.state.animating
            && r.state.events == PrependCapped(NewAccountCreation(msg.value, id), s.events)
            && r.state.freshIds == s.freshIds + {id}
            && r.timers == [StopAnimation(AccountCreationPulseMs), ExpireFresh(id, FreshWindowMs)])
  {
    match msg
    case None => Step(s.(error := true), [])
    case Some(d) =>
      var id := AccountCreationId(d);
      if ContainsId(s.events, id) then Step(s.(error := false), [])
      else
        Step(s.(events := PrependCapped(NewAccountCreation(d, id), s.events), freshIds := s.freshIds + {id},
                animating := true, error := false),
          [StopAnimation(AccountCreationPulseMs), ExpireFresh(id, FreshWindowMs)])
  }

  /** A timer's callback: the pulse ends whichever message armed it; an
      expiry deletes its id unconditionally. */
  function FireTimer(s: EngineState, t: Timer): (r: EngineState)
    ensures t.StopAnimation? ==> !r.animating && r.events == s.events && r.freshIds == s.freshIds
    ensures t.ExpireFresh? ==> r.freshIds == s.freshIds - {t.id} && r.events == s.events && r.animating == s.animating
    ensures r.error == s.error && r.loading == s.loading
  {
    match t
    case StopAnimation(_) => s.(animating := false)
    case ExpireFresh(id, _) => s.(freshIds := s.freshIds - {id})
  }

  /** `clearEvents`: the log and the freshIds set become empty. */
  function ClearEvents(s: EngineState): (r: EngineState)
    ensures r.events == [] && r.freshIds == {}
    ensures r.animating == s.animating && r.error == s.error && r.loading == s.loading
  {
    s.(events := [], freshIds := {})
  }

  // ----- Properties of single steps --------------------------------------------

  /** Prepending an entry whose id is new keeps ids distinct. */
  lemma PrependCappedKeepsDistinct(e: LiveEvent, events: seq<LiveEvent>)
    requires IdsDistinct(events) && !ContainsId(events, e.id)
    ensures IdsDistinct(PrependCapped(e, events))
  {
    var r := PrependCapped(e, events);
    forall i, j | 0 <= i < j < |r|
      ensures !StrictEq(r[i].id, r[j].id)
    {
      if i == 0 {
        assert r[j] == events[j - 1];
        assert !StrictEq(events[j - 1].id, e.id);
      } else {
        assert r[i] == events[i - 1] && r[j] == events[j - 1];
      }
    }
  }

  /** Live steps keep the log's ids pairwise distinct. */
  lemma TransferKeepsIdsDistinct(s: EngineState, msg: Option<TransferData>)
    requires IdsDistinct(s.events)
    ensures IdsDistinct(OnTransfer(s, msg).state.events)
  {
    if msg.Some? && TransferAdmitted(msg.value) && !ContainsId(s.events, TransferId(msg.value)) {
      PrependCappedKeepsDistinct(NewTransfer(msg.value, TransferId(msg.value)), s.events);
    }
  }

  lemma AccountCreationKeepsIdsDistinct(s: EngineState, msg: Option<AccountCreationData>)
    requires IdsDistinct(s.events)
    ensures IdsDistinct(OnAccountCreation(s, msg).state.events)
  {
    if msg.Some? && !ContainsId(s.events, AccountCreationId(msg.value)) {
      PrependCappedKeepsDistinct(NewAccountCreation(msg.value, AccountCreationId(msg.value)), s.events);
    }
  }

  /** Number of entries whose id is `===` to `id`. */
  function CountId(events: seq<LiveEvent>, id: EventId): nat
  {
    if events == [] then 0
    else (if StrictEq(events[0].id, id) then 1 else 0) + CountId(events[1..], id)
  }

  lemma {:induction false} CountIdDistinct(events: seq<LiveEvent>, id: EventId)
    requires IdsDistinct(events)
    ensures CountId(events, id) == (if ContainsId(events, id) then 1 else 0)
  {
    if events != [] {
      CountIdDistinct(events[1..], id);
      if StrictEq(events[0].id, id) {
        assert !ContainsId(events[1..], id) by {
          forall k | 0 <= k < |events[1..]|
            ensures !StrictEq(events[1..][k].id, id)
          {
            assert events[1..][k] == events[k + 1];
          }
        }
      } else {
        if ContainsId(events, id) {
          var k :| 0 <= k < |events| && StrictEq(events[k].id, id);
          assert events[1..][k - 1] == events[k];
        }
        if ContainsId(events[1..], id) {
          var k :| 0 <= k < |events[1..]| && StrictEq(events[1..][k].id, id);
          assert events[k + 1] == events[1..][k];
        }
      }
    }
  }

  /** Delivering the same transfer twice leaves exactly one entry with its
      id, provided the id is a number. */
  lemma TransferRedeliveryIdempotent(s: EngineState, d: TransferData)
    requires IdsDistinct(s.events) && TransferAdmitted(d) && TransferId(d).Num?
    ensures var once := OnTransfer(s, Some(d)).state;
      && OnTransfer(once, Some(d)).state == once
      && CountId(once.events, TransferId(d)) == 1
  {
    var id := TransferId(d);
    var once := OnTransfer(s, Some(d)).state;
    TransferKeepsIdsDistinct(s, Some(d));
    assert ContainsId(once.events, id) by {
      if !ContainsId(s.events, id) {
        assert StrictEq(once.events[0].id, id);
      }
    }
    CountIdDistinct(once.events, id);
  }

  lemma AccountCreationRedeliveryIdempotent(s: EngineState, d: AccountCreationData)
    requires IdsDistinct(s.events) && AccountCreationId(d).Num?
    ensures var once := OnAccountCreation(s, Some(d)).state;
      && OnAccountCreation(once, Some(d)).state == once
      && CountId(once.events, AccountCreationId(d)) == 1
  {
    var id := AccountCreationId(d);
    var once := OnAccountCreation(s, Some(d)).state;
    AccountCreationKeepsIdsDistinct(s, Some(d));
    assert ContainsId(once.events, id) by {
      if !ContainsId(s.events, id) {
        assert StrictEq(once.events[0].id, id);
      }
    }
    CountIdDistinct(once.events, id);
  }

  /** A NaN id is `===` to nothing, so such a transfer is never recognised
      as a duplicate: each delivery prepends another entry. */
  lemma NaNIdNeverDeduplicated(s: EngineState, d: TransferData)
    requires TransferAdmitted(d) && TransferId(d) == NaN
    ensures OnTransfer(s, Some(d)).state.events == PrependCapped(NewTransfer(d, NaN), s.events)
  {
  }

  /** The expiry of an accepted id removes exactly that id. */
  lemma AcceptedIdExpires(s: EngineState, d: TransferData)
    requires TransferAdmitted(d) && !ContainsId(s.events, TransferId(d))
    ensures var st := OnTransfer(s, Some(d));
      && TransferId(d) in st.state.freshIds
      && FireTimer(st.state, st.timers[1]).freshIds == s.freshIds - {TransferId(d)}
  {
  }

  /** When the log is full, accepting an entry drops exactly the oldest
      one and keeps the others in order. */
  lemma FullLogDropsOldest(e: LiveEvent, events: seq<LiveEvent>)
    requires |events| == MaxEvents
    ensures PrependCapped(e, events) == [e] + events[..MaxEvents - 1]
  {
  }

  // ----- Runs of many steps ------------------------------------------------------

  /** The callbacks the engine reacts to once subscribed. */
  datatype Input =
    | TransferMessage(transfer: Option<TransferData>)
    | AccountCreationMessage(creation: Option<AccountCreationData>)
    | TimerFires(index: nat)
    | Clear

  /** The engine together with the timers armed and not yet fired, and
      whether the two message handlers were registered. */
  datatype Session = Session(engine: EngineState, pending: seq<Timer>, subscribed: bool)

  /** The session after the initialisation effect. The handlers are
      registered only after the snapshot was loaded and the first `connect()`
      resolved; a later automatic reconnect does not register them. */
  function Start(fetched: Option<seq<SnapshotRecord>>, connect: ConnectOutcome): (x: Session)
    ensures x.engine == InitFromSnapshot(Mounted, fetched, connect) && x.pending == []
    ensures x.subscribed <==> fetched.Some? && connect == ConnectResolved
  {
    Session(InitFromSnapshot(Mounted, fetched, connect), [], fetched.Some? && connect == ConnectResolved)
  }

  function Remove<T>(s: seq<T>, i: nat): seq<T>
    requires i < |s|
  {
    s[..i] + s[i + 1..]
  }

  function Apply(x: Session, input: Input): Session
  {
    match input
    case TransferMessage(m) =>
      if !x.subscribed then x
      else
        var st := OnTransfer(x.engine, m);
        Session(st.state, x.pending + st.timers, x.subscribed)
    case AccountCreationMessage(m) =>
      if !x.subscribed then x
      else
        var st := OnAccountCreation(x.engine, m);
        Session(st.state, x.pending + st.timers, x.subscribed)
    case TimerFires(i) =>
      if i < |x.pending| then x.(engine := FireTimer(x.engine, x.pending[i]), pending := Remove(x.pending, i)) else x
    case Clear => x.(engine := ClearEvents(x.engine))
  }

  function Run(x: Session, inputs: seq<Input>): Session
    decreases |inputs|
  {
    if inputs == [] then x else Run(Apply(x, inputs[0]), inputs[1..])
  }

  /** Every freshIds id still has an expiry timer pending, so no highlight
      outlives its timers. */
  ghost predicate FreshArmed(x: Session)
  {
    forall id :: id in x.engine.freshIds ==> exists i :: 0 <= i < |x.pending| && x.pending[i].ExpireFresh? && x.pending[i].id == id
  }

  ghost predicate SessionInvariant(x: Session)
  {
    |x.engine.events| <= MaxEvents && IdsDistinct(x.engine.events) && FreshArmed(x)
  }

  lemma ApplyKeepsInvariant(x: Session, input: Input)
    requires SessionInvariant(x)
    ensures SessionInvariant(Apply(x, input))
  {
    match input {
      case TransferMessage(m) => TransferMessageKeepsInvariant(x, m);
      case AccountCreationMessage(m) => AccountCreationMessageKeepsInvariant(x, m);
      case TimerFires(k) => TimerKeepsInvariant(x, k);
      case Clear =>
    }
  }

  lemma TransferMessageKeepsInvariant(x: Session, m: Option<TransferData>)
    requires SessionInvariant(x)
    ensures SessionInvariant(Apply(x, TransferMessage(m)))
  {
    if x.subscribed {
      var y := Apply(x, TransferMessage(m));
      TransferKeepsIdsDistinct(x.engine, m);
      forall id | id in y.engine.freshIds
        ensures exists i :: 0 <= i < |y.pending| && y.pending[i].ExpireFresh? && y.pending[i].id == id
      {
        if id in x.engine.freshIds {
          var i :| 0 <= i < |x.pending| && x.pending[i].ExpireFresh? && x.pending[i].id == id;
          assert y.pending[i] == x.pending[i];
        } else {
          assert y.pending[|x.pending| + 1] == ExpireFresh(id, FreshWindowMs);
        }
      }
    }
  }

  lemma AccountCreationMessageKeepsInvariant(x: Session, m: Option<AccountCreationData>)
    requires SessionInvariant(x)
    ensures SessionInvariant(Apply(x, AccountCreationMessage(m)))
  {
    if x.subscribed {
      var y := Apply(x, AccountCreationMessage(m));
      AccountCreationKeepsIdsDistinct(x.engine, m);
      forall id | id in y.engine.freshIds
        ensures exists i :: 0 <= i < |y.pending| && y.pending[i].ExpireFresh? && y.pending[i].id == id
      {
        if id in x.engine.freshIds {
          var i :| 0 <= i < |x.pending| && x.pending[i].ExpireFresh? && x.pending[i].id == id;
          assert y.pending[i] == x.pending[i];
        } else {
          assert y.pending[|x.pending| + 1] == ExpireFresh(id, FreshWindowMs);
        }
      }
    }
  }

  lemma TimerKeepsInvariant(x: Session, k: nat)
    requires SessionInvariant(x)
    ensures SessionInvariant(Apply(x, TimerFires(k)))
  {
    var y := Apply(x, TimerFires(k));
    if k < |x.pending| {
      forall id | id in y.engine.freshIds
        ensures exists i :: 0 <= i < |y.pending| && y.pending[i].ExpireFresh? && y.pending[i].id == id
      {
        var i :| 0 <= i < |x.pending| && x.pending[i].ExpireFresh? && x.pending[i].id == id;
        assert i != k;
        if i < k {
          assert y.pending[i] == x.pending[i];
        } else {
          assert y.pending[i - 1] == x.pending[i];
        }
      }
    }
  }

  /** Starting from an empty log, or a snapshot within the cap whose ids are
      distinct, the session invariant holds at the start. */
  lemma StartKeepsInvariant(fetched: Option<seq<SnapshotRecord>>, connect: ConnectOutcome)
    requires fetched.Some? ==> |SnapshotEvents(fetched.value)| <= MaxEvents && IdsDistinct(SnapshotEvents(fetched.value))
    ensures SessionInvariant(Start(fetched, connect))
  {
  }

  /** Without registered handlers no message reaches the engine: only a
      clear changes the log, and the handlers never get registered later. */
  lemma {:induction false} UnsubscribedLogFrozen(x: Session, inputs: seq<Input>)
    requires !x.subscribed
    requires forall i :: 0 <= i < |inputs| ==> !inputs[i].Clear?
    ensures Run(x, inputs).engine.events == x.engine.events && !Run(x, inputs).subscribed
    decreases |inputs|
  {
    if inputs != [] {
      var y := Apply(x, inputs[0]);
      assert y.engine.events == x.engine.events && !y.subscribed;
      assert forall i :: 0 <= i < |inputs[1..]| ==> inputs[1..][i] == inputs[i + 1];
      UnsubscribedLogFrozen(y, inputs[1..]);
    }
  }

  /** After a failed fetch or a first connection that rejects or never
      settles, the log stays as initialised for every run of messages and
      timers, whatever the socket does afterwards. */
  lemma FailedStartFreezesLog(fetched: Option<seq<SnapshotRecord>>, connect: ConnectOutcome, inputs: seq<Input>)
    requires fetched.None? || connect != ConnectResolved
    requires forall i :: 0 <= i < |inputs| ==> !inputs[i].Clear?
    ensures Run(Start(fetched, connect), inputs).engine.events == InitFromSnapshot(Mounted, fetched, connect).events
  {
    UnsubscribedLogFrozen(Start(fetched, connect), inputs);
  }

  /** Over any run of live steps from a bounded, duplicate-free log with
      every freshIds id armed, the log stays within the cap, ids stay distinct
      and every freshIds id keeps a pending expiry. */
  lemma {:induction false} RunKeepsInvariant(x: Session, inputs: seq<Input>)
    requires SessionInvariant(x)
    ensures SessionInvariant(Run(x, inputs))
    decreases |inputs|
  {
    if inputs != [] {
      ApplyKeepsInvariant(x, inputs[0]);
      RunKeepsInvariant(Apply(x, inputs[0]), inputs[1..]);
    }
  }

  // ----- Boundedness: the most recent entries are kept ---------------------------

  function Reverse<T>(s: seq<T>): (r: seq<T>)
    ensures |r| == |s|
  {
    if s == [] then [] else Reverse(s[1..]) + [s[0]]
  }

  /** Accepting entries one after another, oldest first. */
  function AcceptAll(events: seq<LiveEvent>, arrivals: seq<LiveEvent>): seq<LiveEvent>
    decreases |arrivals|
  {
    if arrivals == [] then events else AcceptAll(PrependCapped(arrivals[0], events), arrivals[1..])
  }

  /** After one or more accepted arrivals the log is the newest-first list
      of arrivals followed by the old log, cut to the cap: it holds the
      `MaxEvents` most recent entries. */
  lemma {:induction false} AcceptAllKeepsMostRecent(events: seq<LiveEvent>, arrivals: seq<LiveEvent>)
    requires |arrivals| >= 1
    ensures AcceptAll(events, arrivals) == (Reverse(arrivals) + events)[..Min(|events| + |arrivals|, MaxEvents)]
    decreases |arrivals|
  {
    var first := PrependCapped(arrivals[0], events);
    var rest := arrivals[1..];
    assert Reverse(arrivals) == Reverse(rest) + [arrivals[0]];
    if rest == [] {
      assert Reverse(arrivals) + events == [arrivals[0]] + events;
    } else {
      AcceptAllKeepsMostRecent(first, rest);
      var n := Min(|events| + |arrivals|, MaxEvents);
      var lhs := (Reverse(rest) + first)[..Min(|first| + |rest|, MaxEvents)];
      var rhs := (Reverse(arrivals) + events)[..n];
      assert Min(|first| + |rest|, MaxEvents) == n;
      assert |lhs| == |rhs|;
      forall k | 0 <= k < n
        ensures lhs[k] == rhs[k]
      {
        if k < |rest| {
          assert lhs[k] == Reverse(rest)[k];
          assert rhs[k] == (Reverse(rest) + ([arrivals[0]] + events))[k];
        } else {
          assert lhs[k] == first[k - |rest|];
          assert rhs[k] == (Reverse(rest) + ([arrivals[0]] + events))[k];
        }
      }
    }
  }

  /** After more than `MaxEvents` accepted arrivals the log holds exactly
      `MaxEvents` entries, all of them arrivals. */
  lemma ManyArrivalsFillLog(events: seq<LiveEvent>, arrivals: seq<LiveEvent>)
    requires |arrivals| > MaxEvents
    ensures AcceptAll(events, arrivals) == Reverse(arrivals)[..MaxEvents]
  {
    AcceptAllKeepsMostRecent(events, arrivals);
    assert (Reverse(arrivals) + events)[..MaxEvents] == Reverse(arrivals)[..MaxEvents];
  }
}
