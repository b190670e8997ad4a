# sendstats dashboard core in Dafny

This project models the client-side logic of the sendstats dashboard, a
React/TypeScript front end that shows live SEND token activity. At its
centre is the live event reconciliation engine of
`src/hooks/useLiveTransfers.ts`. The engine works in these steps:

- It seeds an event log from a snapshot of recent transfers.
- It applies `new_transfer` and `new_account_creation` stream messages, one
  at a time. Each message goes through:
  - an address/amount admission filter;
  - id resolution, which either takes the id the message supplies or
    derives one from the hash's last eight hex digits plus the log index;
  - de-duplication by `===` on ids;
  - prepending to the log, which is then cut to its 1000 newest entries.
- It marks each new id "fresh" for two seconds.

The model is a set of pure step functions over an immutable
`EngineState`:

- Every `setTimeout` a step arms is returned as an explicit `Timer` value.
- A timer firing is a separate step.
- A `Session` keeps the timers that are pending.

The numeric quirks of JavaScript are written out explicitly:

- `EventId` has a `NaN` case.
- `===` never equates `NaN`, but `Set` membership does.
- `parseInt(…, 16)`, `toString`, `padStart`, ASCII `toLowerCase` and the
  first-occurrence `replace` are each modelled as a function.

Around the engine the project models these smaller cores:

- The socket service (`src/services/websocket.ts`):
  - the message-handler and state-handler registries;
  - message dispatch;
  - the open/close/error/disconnect life cycle, with the reconnect decision
    and its delay;
  - the `send` guard;
  - the default URL.
- The display order and labels of the activity list
  (`src/components/TransfersTab.tsx`).
- The 24-cell hourly heatmap (`src/hooks/useActivityHeatmap.ts`) and the
  helpers of its panel (`src/components/ActivityHeatmap.tsx`).
- Holder-bucket normalisation and the refresh countdown
  (`src/hooks/useBalances.ts`).
- Chart points from the analytics snapshots
  (`src/hooks/useBalanceAnalytics.ts`).
- The token card's countdown, price flash and chart series
  (`src/components/TokenInfoCard.tsx`).
- Hash/address truncation (`src/utils.ts`).
- The ignored-address set (`src/config/ignoredAddresses.ts`).

Every `sort` with a numeric comparator is modelled by one generic stable
insertion sort (`StableSort`), because JavaScript's `Array.prototype.sort`
is stable. Browser facilities are parameters of the functions that use
them:

- the local hour of an instant;
- the calendar day of an instant;
- date parsing;
- locale formatting.

Where the code and its documentation disagree, the model follows the code:

- The ignored-address literals are mixed-case, not lower-case, so the
  lower-casing filter never rejects anything
  (`LiveTransfers.AddressFilterNeverFires`).
- The freshness expiry deletes its id unconditionally. A re-delivered id
  that was still fresh is deleted by the first expiry. Expiries do not
  re-arm anything.
- The message handlers are registered only after the snapshot loaded and
  the first `connect()` resolved. After a failed fetch, or a first
  connection that rejects or never settles, no live message ever reaches
  the engine. This holds even when the socket service later reconnects on
  its own (`LiveTransfers.FailedStartFreezesLog`).

## Model

| member | source | states |
|---|---|---|
| Utils.TruncateHashOrAddress | src/utils.ts:1-4 | at most ten characters are returned unchanged; a longer string gives exactly 13 characters: its first six, "...", its last four |
| Utils.TruncateIdempotent | src/utils.ts:2-3 | truncating an already truncated value returns it unchanged |
| IgnoredAddresses.IgnoredHasFourEntries | src/config/ignoredAddresses.ts:2-8 | the set holds exactly four distinct addresses |
| IgnoredAddresses.IgnoredAreHexAddresses | src/config/ignoredAddresses.ts:3-6 | every entry is "0x" followed by forty hexadecimal digits |
| IgnoredAddresses.EveryEntryHasUpper | src/config/ignoredAddresses.ts:3-6 | every entry contains at least one upper-case letter |
| IgnoredAddresses.LowerCasedNeverIgnored | src/hooks/useLiveTransfers.ts:31-32 | no lower-cased string is a member, so the filter's lookups of lower-cased addresses always miss |
| IgnoredAddresses.MembershipIsCaseSensitive | src/config/ignoredAddresses.ts:4 | the burn-address literal is a member while its lower-case form is not |
| Strings.ToLower | src/hooks/useLiveTransfers.ts:57-58 | ASCII lower-casing: same length, each letter A-Z becomes its a-z form, every other character kept |
| Strings.ParseHex | src/hooks/useLiveTransfers.ts:70 | NaN (None) exactly when no hex digit follows the optional sign and "0x" prefix |
| Strings.ParseHexOfHexDigits | src/hooks/useLiveTransfers.ts:117 | a non-empty string of hexadecimal digits parses to exactly the number it spells |
| Strings.IntToStringRoundTrip | src/hooks/useLiveTransfers.ts:40-41 | the decimal text of an integer reads back as that integer |
| Strings.PadStart | src/components/ActivityHeatmap.tsx:16 | a long enough string is unchanged; a shorter one becomes exactly `width` long: fill characters followed by the string |
| Strings.PadTwo | src/components/TokenInfoCard.tsx:47 | below 100 the padded numeral is two digits that read back as the number |
| Strings.ReplaceFirst | src/services/websocket.ts:19 | without an occurrence the string is unchanged; otherwise only the first occurrence is replaced |
| Events.LastEight | src/hooks/useLiveTransfers.ts:117 | a string of at most eight characters is kept whole, a longer one yields its eight-character suffix |
| Events.DerivedId | src/hooks/useLiveTransfers.ts:117 | the id is NaN exactly when the last eight characters do not parse as hex, and otherwise equals their value plus the log index |
| Events.TransferId | src/hooks/useLiveTransfers.ts:70 | a supplied non-zero id is used; an absent or zero id falls back to the derived id |
| Events.IdDerivationDeterministic | src/hooks/useLiveTransfers.ts:117 | equal hash and log index resolve to equal ids for both message kinds when no non-zero id is supplied |
| Events.SuppliedZeroIgnored | src/hooks/useLiveTransfers.ts:70 | a message carrying id 0 resolves exactly like one carrying no id |
| Events.DerivedIdOfHexSuffix | src/hooks/useLiveTransfers.ts:117 | when the hash ends in eight hexadecimal digits, the id is their value plus the log index |
| Events.DerivedIdExample | src/hooks/useLiveTransfers.ts:70 | a hash ending in "ffabcdef" with log index 3 resolves to 0xffabcdef + 3 |
| LiveTransfers.PrependCapped | src/hooks/useLiveTransfers.ts:89 | the result has length min(n+1, 1000), starts with the new entry and continues with the old entries in order |
| LiveTransfers.FullLogDropsOldest | src/hooks/useLiveTransfers.ts:148 | with 1000 entries, accepting one drops exactly the oldest and keeps the rest in order |
| LiveTransfers.AddressFilterNeverFires | src/hooks/useLiveTransfers.ts:57-61 | as written, the address half of the live and snapshot filters admits every pair of addresses |
| LiveTransfers.AdmissionIsAmountOnly | src/hooks/useLiveTransfers.ts:29-34 | a snapshot record or a live transfer is admitted exactly when its amount is positive |
| LiveTransfers.NormalizeSnapshot | src/hooks/useLiveTransfers.ts:35-46 | a record becomes a transfer entry with the same id, addresses, hash, log index and time, and with amount and block number as text that reads back as the numbers |
| LiveTransfers.SnapshotEvents | src/hooks/useLiveTransfers.ts:29-46 | the seeded log never has more entries than the snapshot, and every entry is a transfer |
| LiveTransfers.SnapshotEventsConcat | src/hooks/useLiveTransfers.ts:29-46 | filtering and normalising distributes over concatenation, so source order is kept |
| LiveTransfers.SnapshotMembership | src/hooks/useLiveTransfers.ts:29-46 | an entry is in the seeded log exactly when it is the normalisation of an admitted record |
| LiveTransfers.SnapshotNotCapped | src/hooks/useLiveTransfers.ts:48 | when every amount is positive the seeded log has one entry per record, however many, in order |
| LiveTransfers.SnapshotKeepsDuplicates | src/hooks/useLiveTransfers.ts:48 | two equal admitted records both appear, so the seeded log can repeat an id |
| LiveTransfers.InitFromSnapshot | src/hooks/useLiveTransfers.ts:18-181 | a failed fetch sets the error, ends loading and keeps the log; a successful one replaces the log with the filtered snapshot, sets the error exactly when connecting rejects, and keeps loading exactly while connecting never settles |
| LiveTransfers.Start | src/hooks/useLiveTransfers.ts:18-181 | the session starts from the mounted state with no timers, and the handlers are registered exactly when the fetch succeeded and the first connect resolved |
| LiveTransfers.StartKeepsInvariant | src/hooks/useLiveTransfers.ts:9-48 | a snapshot within the cap and with distinct ids gives a start state that satisfies the session invariant |
| LiveTransfers.UnsubscribedLogFrozen | src/hooks/useLiveTransfers.ts:51-54 | without registered handlers no run of messages and timers changes the log, and the handlers stay unregistered |
| LiveTransfers.FailedStartFreezesLog | src/hooks/useLiveTransfers.ts:18-181 | after a failed fetch or a first connect that rejects or never settles, the log keeps its initial contents for every run without a clear |
| LiveTransfers.NewTransfer | src/hooks/useLiveTransfers.ts:76-86 | the entry carries the resolved id and the message's fields, with the amount as text that reads back as the amount |
| LiveTransfers.NewAccountCreation | src/hooks/useLiveTransfers.ts:131-145 | the entry carries the derived id and every field of the message |
| LiveTransfers.OnTransfer | src/hooks/useLiveTransfers.ts:54-111 | a message whose fields read before the log update are unreadable sets the error; a filtered one changes nothing; an admitted one pulses for 2000 ms, clears the error, and either leaves a duplicate's log and fresh set unchanged or prepends the entry, marks its id fresh and arms a 2000 ms expiry |
| LiveTransfers.OnAccountCreation | src/hooks/useLiveTransfers.ts:114-170 | an unreadable message sets the error; a duplicate only clears the error; a new one prepends the entry, marks it fresh, pulses for 3000 ms and arms a 2000 ms expiry |
| LiveTransfers.FireTimer | src/hooks/useLiveTransfers.ts:95-101 | a pulse timer lowers the animation flag; an expiry removes its id, unconditionally, and nothing else |
| LiveTransfers.ClearEvents | src/hooks/useLiveTransfers.ts:194-197 | the log and the fresh set become empty and nothing else changes |
| LiveTransfers.PrependCappedKeepsDistinct | src/hooks/useLiveTransfers.ts:73-89 | prepending an entry whose id is absent keeps ids pairwise distinct |
| LiveTransfers.TransferKeepsIdsDistinct | src/hooks/useLiveTransfers.ts:68-104 | a transfer step keeps the log's ids pairwise distinct |
| LiveTransfers.AccountCreationKeepsIdsDistinct | src/hooks/useLiveTransfers.ts:120-163 | an account-creation step keeps the log's ids pairwise distinct |
| LiveTransfers.CountIdDistinct | src/hooks/useLiveTransfers.ts:73 | in a log with distinct ids an id occurs once if present and never otherwise |
| LiveTransfers.TransferRedeliveryIdempotent | src/hooks/useLiveTransfers.ts:73-74 | delivering the same transfer twice leaves the state of the first delivery and exactly one entry with its id |
| LiveTransfers.AccountCreationRedeliveryIdempotent | src/hooks/useLiveTransfers.ts:121-125 | delivering the same account creation twice leaves the state of the first delivery and exactly one entry with its id |
| LiveTransfers.NaNIdNeverDeduplicated | src/hooks/useLiveTransfers.ts:70-74 | a transfer whose id is NaN is never recognised as a duplicate and is always prepended |
| LiveTransfers.AcceptedIdExpires | src/hooks/useLiveTransfers.ts:92-101 | an accepted id becomes fresh, and its expiry leaves exactly the previous fresh set minus that id |
| LiveTransfers.ApplyKeepsInvariant | src/hooks/useLiveTransfers.ts:54-170 | every step keeps the log within 1000 entries, ids distinct, and every fresh id with a pending expiry |
| LiveTransfers.RunKeepsInvariant | src/hooks/useLiveTransfers.ts:54-197 | the same invariant holds after any sequence of messages, timer firings and clears |
| LiveTransfers.AcceptAllKeepsMostRecent | src/hooks/useLiveTransfers.ts:89 | after accepting arrivals one by one the log is the newest-first list of all entries cut to 1000 |
| LiveTransfers.ManyArrivalsFillLog | src/hooks/useLiveTransfers.ts:148 | after more than 1000 accepted arrivals the log holds exactly the 1000 newest, newest first |
| StableSort.Sort | src/components/TransfersTab.tsx:16 | the result is a permutation ordered by non-increasing key |
| StableSort.SortIsStable | src/components/TransfersTab.tsx:16 | for every key value the elements with that key keep their relative order |
| StableSort.SortMapCommutes | src/components/TokenInfoCard.tsx:12-16 | sorting then mapping equals mapping then sorting when the mapping preserves the key |
| TransfersTab.DisplayOrder | src/components/TransfersTab.tsx:16 | the shown list is a permutation of the log, newest first |
| TransfersTab.DisplayOrderStable | src/components/TransfersTab.tsx:16 | entries with equal timestamps keep their log order |
| TransfersTab.ToLabel | src/components/TransfersTab.tsx:72 | "self" when the two addresses are identical, the truncated recipient otherwise |
| TransfersTab.SelfLabelIff | src/components/TransfersTab.tsx:72 | for recipients longer than ten characters, "self" is shown exactly when the addresses are equal |
| TransfersTab.SelfLabelAmbiguous | src/components/TransfersTab.tsx:72 | a recipient literally named "self" is also shown as "self" |
| TransfersTab.RowOf | src/components/TransfersTab.tsx:36-86 | a row keeps the entry's id, kind and time, shows the truncated hash, and is highlighted exactly when the id is fresh; a transfer row shows the truncated sender, the recipient label ("self" or truncated) and the amount |
| TransfersTab.Render | src/components/TransfersTab.tsx:30-35 | the placeholder appears exactly for an empty log; otherwise there is one row per entry in display order |
| TransfersTab.RenderHighlightsFresh | src/components/TransfersTab.tsx:35-86 | every row is highlighted exactly when its id is fresh, rows run newest first, and every entry has its row |
| WebSocket.ResolveUrl | src/services/websocket.ts:17-20 | a non-empty explicit url wins; otherwise the base url with its first "http" replaced by "ws", plus "/live" |
| WebSocket.DefaultUrlForHttpBase | src/services/websocket.ts:19 | an http(s) base url maps to the ws(s) url with "/live" appended |
| WebSocket.NewService | src/services/websocket.ts:7-20 | a new service is disconnected, holds no socket, has no handlers and zero attempts |
| WebSocket.AddHandler | src/services/websocket.ts:115 | adding a present handler changes nothing; a new one is appended; a registry without repeats stays without repeats |
| WebSocket.RemoveHandler | src/services/websocket.ts:121 | the handler is gone, every other handler stays, and a registry without repeats stays without repeats |
| WebSocket.RemoveKeepsOrder | src/services/websocket.ts:121 | deleting a handler leaves the others in their registration order |
| WebSocket.RemoveAbsent | src/services/websocket.ts:121 | removing a handler that is not registered leaves the registry unchanged |
| WebSocket.RemoveAppended | src/services/websocket.ts:111-124 | removing a handler just appended restores the previous registry exactly |
| WebSocket.On | src/services/websocket.ts:111-116 | the handler joins its type's registry and no other registry, state or socket changes |
| WebSocket.Off | src/services/websocket.ts:118-123 | the cleanup removes exactly that handler from that type and leaves everything else unchanged |
| WebSocket.OnThenOffRestores | src/services/websocket.ts:111-124 | registering a new handler and calling its cleanup restores every type's registry |
| WebSocket.OnConnectionStateChange | src/services/websocket.ts:147-148 | the handler joins the state registry; message handlers and state are unchanged |
| WebSocket.OffConnectionStateChange | src/services/websocket.ts:151-153 | the cleanup removes exactly that state handler |
| WebSocket.HandleMessage | src/services/websocket.ts:126-137 | one invocation per registered handler, in registration order, whether or not earlier ones throw |
| WebSocket.HandleMessageReachesExactlyRegistered | src/services/websocket.ts:126-137 | a handler is invoked exactly when registered for the type; an unknown type invokes nothing |
| WebSocket.SetState | src/services/websocket.ts:23-32 | the state is recorded and every state handler is notified of it, in order |
| WebSocket.SetStateObserved | src/services/websocket.ts:143-145 | after setting a state, reading the state returns it and each registered state handler has been told |
| WebSocket.Send | src/services/websocket.ts:93-99 | a message is transmitted only through an open socket and dropped otherwise |
| WebSocket.Connect | src/services/websocket.ts:34-84 | a created socket leaves the service connecting; a failed creation sets the error state and rejects; attempts and both handler registries are unchanged |
| WebSocket.OnOpen | src/services/websocket.ts:40-49 | the state becomes connected, attempts reset to 0, the transfers then account-creations subscriptions follow the notifications, `resolve` is called last, and both handler registries are unchanged |
| WebSocket.ReconnectDelayBounds | src/services/websocket.ts:70 | for attempts 1..10 the delay is 1000 times the attempt number, between 1 and 10 seconds |
| WebSocket.OnClose | src/services/websocket.ts:60-72 | the socket is dropped and the state disconnected; a reconnect is scheduled exactly when the code is not 1000 and fewer than 10 attempts were made, and then attempts grow by one; both handler registries are unchanged |
| WebSocket.OnError | src/services/websocket.ts:74-78 | the state becomes error, attempts and both handler registries are kept, and `reject` is called, which settles the promise only if `onopen` has not resolved it |
| WebSocket.Disconnect | src/services/websocket.ts:86-91 | a held socket is closed with code 1000 and dropped, leaving attempts, state and both handler registries unchanged; without a socket nothing happens |
| WebSocket.DisconnectNeverReconnects | src/services/websocket.ts:60-91 | after a manual disconnect, a reconnect is scheduled exactly when the delivered close code is not 1000 and fewer than 10 attempts were made; code 1000 keeps the attempt count |
| WebSocket.FirstSettlement | src/services/websocket.ts:35 | a promise settles exactly when `resolve` or `reject` was called, and with one of those calls |
| WebSocket.SettlementIsFinal | src/services/websocket.ts:35 | once the promise settled, later `resolve` or `reject` calls do not change its outcome |
| WebSocket.ErrorAfterOpenStaysResolved | src/services/websocket.ts:40-49 | an error after `onopen` leaves that `connect()` promise resolved, although `reject` is called at line 77 |
| WebSocket.ErrorBeforeOpenRejects | src/services/websocket.ts:74-78 | an error on a socket that is still connecting rejects the `connect()` promise |
| WebSocket.ReplayKeepsRegistries | src/services/websocket.ts:34-91 | over any sequence of socket events both handler registries stay as they were, so registered handlers keep receiving messages across errors, closes and reconnects |
| WebSocket.AttemptsStayBounded | src/services/websocket.ts:60-72 | over any sequence of socket events the attempt counter never exceeds 10 |
| WebSocket.TenthAttemptIsLast | src/services/websocket.ts:66-67 | after ten attempts an abnormal close schedules nothing and leaves the counter at 10 |
| ActivityHeatmapData.StartUnixTimestamp | src/hooks/useActivityHeatmap.ts:33-34 | the query's day key is the UTC-shifted local midnight in whole seconds, rounded down |
| ActivityHeatmapData.Level | src/hooks/useActivityHeatmap.ts:64-68 | the level lies in 0..4 and reaches 1, 2, 3, 4 exactly at counts 10, 70, 135, 200 |
| ActivityHeatmapData.LevelMonotone | src/hooks/useActivityHeatmap.ts:64-68 | a larger count never has a lower level |
| ActivityHeatmapData.BuildHeatmap | src/hooks/useActivityHeatmap.ts:44-74 | exactly 24 cells; cell h has hour h, the number of in-day transfers whose local hour is h, and that count's level; the fetched list is returned unchanged |
| ActivityHeatmapData.QueryHeatmap | src/hooks/useActivityHeatmap.ts:38-75 | a failed response yields no data; otherwise the cells above and the unchanged list |
| ActivityHeatmapData.CellsPartitionDay | src/hooks/useActivityHeatmap.ts:55-57 | the 24 counts add up to the number of in-day transfers, which is at most the number fetched |
| ActivityHeatmapData.OutOfDayIgnored | src/hooks/useActivityHeatmap.ts:55-57 | a transfer outside the selected day changes no cell |
| ActivityHeatmapView.LevelColor | src/components/ActivityHeatmap.tsx:5-13 | levels 1, 2, 3, 4 get green-300, green-500, green-700, green-900; every other level gets the no-activity grey |
| ActivityHeatmapView.LevelColorInjective | src/components/ActivityHeatmap.tsx:5-13 | the four shades are pairwise distinct |
| ActivityHeatmapView.CellColorMatchesActivity | src/components/ActivityHeatmap.tsx:137 | a cell is grey exactly when fewer than 10 transfers fell in its hour |
| ActivityHeatmapView.FormatHour | src/components/ActivityHeatmap.tsx:15-17 | for hours 0..23 the label is five characters: two digits reading back as the hour, then ":00" |
| ActivityHeatmapView.FormatHourParsesBack | src/components/ActivityHeatmap.tsx:15-17 | the label's first two characters parse back to the hour |
| ActivityHeatmapView.FormatHourInjective | src/components/ActivityHeatmap.tsx:15-17 | two hours share a label exactly when they are equal |
| ActivityHeatmapView.NextHour | src/components/ActivityHeatmap.tsx:171 | the following hour, with 23 wrapping to 0 |
| ActivityHeatmapView.LastHourEndsAtMidnight | src/components/ActivityHeatmap.tsx:171 | the range that starts at 23 ends at "00:00" |
| ActivityHeatmapView.NavigateDate | src/components/ActivityHeatmap.tsx:36-46 | the date moves one day back or forward only when the matching arrow is enabled, and the selected hour is always reset |
| ActivityHeatmapView.NavigationStaysInWindow | src/components/ActivityHeatmap.tsx:29-46 | from a date within the window, any sequence of presses keeps the date within the last eight days and before the same time tomorrow |
| ActivityHeatmapView.SelectHour | src/components/ActivityHeatmap.tsx:132-134 | clicking a cell selects its hour and keeps the date |
| ActivityHeatmapView.AutoClearTimer | src/components/ActivityHeatmap.tsx:59-64 | a 20 s timeout is armed exactly for a selected hour that is non-zero |
| ActivityHeatmapView.FireAutoClear | src/components/ActivityHeatmap.tsx:62 | the timeout deselects the hour and keeps the date |
| ActivityHeatmapView.MidnightNeverAutoCleared | src/components/ActivityHeatmap.tsx:59-64 | selecting hour 0 never arms the timeout, and every other hour does |
| ActivityHeatmapView.HourTransfers | src/components/ActivityHeatmap.tsx:155-161 | a transfer is listed exactly when it was fetched, lies inside the day and falls in the selected hour |
| ActivityHeatmapView.HourTransfersConcat | src/components/ActivityHeatmap.tsx:155-161 | the list keeps fetch order: the list of a concatenation is the concatenation of the lists |
| ActivityHeatmapView.DetailCountMatchesCell | src/components/ActivityHeatmap.tsx:155-174 | the detail panel's transaction count equals the selected cell's count |
| Balances.LabelOf | src/hooks/useBalances.ts:60 | the mapped label for a mapped key, the key itself otherwise |
| Balances.DisplayKey | src/hooks/useBalances.ts:61-64 | the three whale keys are abbreviated to 100K+, 250K+, 500K+; every other key is kept |
| Balances.FirstDigitRun | src/hooks/useBalances.ts:81-82 | none exactly when the key has no digit; otherwise the first maximal run of digits |
| Balances.MinValue | src/hooks/useBalances.ts:74-83 | 20001 for keys containing "20000+", 500001 for keys containing "500000+", else the first number in the key, or 0 |
| Balances.ToBucket | src/hooks/useBalances.ts:59-71 | a bucket keeps its key and count and gets its label and display key |
| Balances.FormatBalanceBuckets | src/hooks/useBalances.ts:56-86 | the output is a permutation of the kept buckets in ascending MinValue order |
| Balances.BucketsAreTheNumericEntries | src/hooks/useBalances.ts:57-58 | a bucket is produced exactly from a numeric entry other than query_timestamp |
| Balances.FormatLength | src/hooks/useBalances.ts:57-58 | the output has one bucket per numeric non-timestamp entry |
| Balances.FormatIsStable | src/hooks/useBalances.ts:72-85 | buckets with equal MinValue keep their entry order |
| Balances.TimeUntilNextUpdate | src/hooks/useBalances.ts:89-106 | zeros once twelve hours have passed; otherwise the remaining time, split into hours, minutes and seconds (both 0..59) that recompose it to the second; at most 12 hours when the last update is not in the future |
| Balances.CountdownRecomposes | src/hooks/useBalances.ts:101-105 | hours, minutes and seconds recompose exactly the remaining time rounded down to the second |
| BalanceAnalytics.RangesOf | src/hooks/useBalanceAnalytics.ts:68-75 | each of the eight bucket columns lands under its range name, and no other key appears |
| BalanceAnalytics.ToPoint | src/hooks/useBalanceAnalytics.ts:59-78 | a point keeps the record's timestamp, total and bucket counts and formats its date and time |
| BalanceAnalytics.ProcessAnalyticsDataForChart | src/hooks/useBalanceAnalytics.ts:56-80 | the output is a permutation of the kept records' points, oldest first |
| BalanceAnalytics.ChartLength | src/hooks/useBalanceAnalytics.ts:58 | one point per record with a positive account total |
| BalanceAnalytics.ChartedIffKept | src/hooks/useBalanceAnalytics.ts:57-78 | a point is charted exactly when it comes from a record with a positive total |
| BalanceAnalytics.ChartIsStable | src/hooks/useBalanceAnalytics.ts:79 | points with equal time keep their input order |
| TokenInfoCard.Tick | src/components/TokenInfoCard.tsx:32-38 | 1 or less wraps to 120, anything else decreases by one, so the value stays within 1..120 |
| TokenInfoCard.CountdownInRange | src/components/TokenInfoCard.tsx:7 | starting from 120, every reachable value lies in 1..120 |
| TokenInfoCard.CountdownFalls | src/components/TokenInfoCard.tsx:32-38 | within a period, k ticks from 120 show 120 - k |
| TokenInfoCard.CountdownPeriodic | src/components/TokenInfoCard.tsx:30-42 | 120 ticks return to 120, and no fewer do |
| TokenInfoCard.FormatCountdown | src/components/TokenInfoCard.tsx:44-48 | whole minutes, a colon, then two digits below 60 that together recompose the seconds |
| TokenInfoCard.CountdownShape | src/components/TokenInfoCard.tsx:44-48 | every countdown value renders in M:SS form |
| TokenInfoCard.PriceEffect | src/components/TokenInfoCard.tsx:18-28 | the first price is remembered without a flash; a different price flashes, is remembered and arms the 2 s timer; an equal price changes nothing |
| TokenInfoCard.EndFlash | src/components/TokenInfoCard.tsx:23 | the timer ends the flash and keeps the price |
| TokenInfoCard.PriceEffectSettles | src/components/TokenInfoCard.tsx:18-28 | re-running the effect after it updated the price changes nothing and arms no timer |
| TokenInfoCard.PriceEffectTracksPrice | src/components/TokenInfoCard.tsx:18-28 | after the effect the remembered price is the current one, and a flash is armed exactly for a change of a previously seen price |
| TokenInfoCard.ToChartPoint | src/components/TokenInfoCard.tsx:15 | time is the offset and price is the USD price |
| TokenInfoCard.ChartData | src/components/TokenInfoCard.tsx:12-16 | no history gives no points; otherwise a permutation of the mapped history, by non-increasing offset |
| TokenInfoCard.ChartDataStable | src/components/TokenInfoCard.tsx:14 | points with equal offset keep their history order |

## Left out

- Network I/O is not modelled: the `fetch` calls, react-query's caching, `staleTime` and `refetchInterval`, and `response.json()`. Fetched data are inputs, and a failed request is `None`.
- The browser `WebSocket` object and `JSON.parse` are not modelled. Socket activity is a sequence of abstract open, close(code), error and message events. An unparsable message is only logged by the source, so it does not appear in the model.
- Real `setTimeout`/`setInterval` scheduling is replaced by explicit timer values. Timers fire in whatever order the caller chooses.
- React mechanics are not modelled: `useState` batching, `useEffect` dependencies, refs, the cleanup-ref dance and JSX rendering. Each callback is one atomic step on the state it sees.
- Floating point is not modelled. Amounts, prices and offsets are integers. `parseFloat` on the amount is replaced by the integer itself, so NaN and fractional amounts are out of scope. `toFixed` and the hour panel's volume sum (src/components/ActivityHeatmap.tsx:164-166) are not modelled.
- JavaScript's number precision is not modelled. Integers are unbounded, so ids, counts and timestamps beyond 2^53 behave exactly rather than rounding.
- String lengths count characters, not UTF-16 code units.
- `parseInt` is modelled for the inputs the code gives it. Leading whitespace is not skipped.
- Dates, time zones and locales are parameters: `new Date(…)`, `getHours`, `toDateString`, `getTimezoneOffset` and the locale formatters. A day shift (`setDate(±1)`) is modelled as exactly 86 400 000 ms, so daylight-saving transitions are not modelled.
- Timestamps of log entries are milliseconds. The snapshot's appended "Z" is part of the parsing left out above.
- The order of `Object.entries` is taken as given. JavaScript lists integer-like keys first, and the model does not reorder them.
- Prototype keys such as "constructor" are not modelled as `BUCKET_MAPPING` lookups. The mapping is the eleven own keys only.
- In src/components/TokenInfoCard.tsx:14, `chartData` sorts `historical_prices` in place. The model sorts a copy, so the mutation of the cached response is not modelled.
- The source sorts analytics points with `getTime()` of the timestamp. An Invalid Date there makes the comparator inconsistent. The model takes a total `timeOf` instead.
- The source's `setTimeout` pulses overlap freely: an older pulse timer can lower the flag that a newer message raised. The model keeps this, since each `StopAnimation` simply clears the flag. Only the log, fresh-id and error effects are stated.
- Only the most recent socket is modelled. A close event from a socket that `disconnect` already dropped, arriving after a new `connect`, is treated like any other close.
- WebSocket.DisconnectNeverReconnects: the close code is an input, because the browser chooses it. An open socket echoes the 1000 it was closed with, assuming the server cooperates, and then nothing reconnects. A socket closed while still connecting is failed with an abnormal code (1006, section 7.1.5 of RFC 6455), and the service then schedules a reconnect.
- LiveTransfers.OnTransfer: an unreadable `block_number`, or an unreadable `transaction_hash` when no id is supplied, throws inside the `setEvents` updater (src/hooks/useLiveTransfers.ts:70 and :81). React runs that updater outside the handler's try/catch. By then the 2000 ms pulse is armed and the error was cleared, and the failure surfaces during rendering instead of setting the error flag. The model's `None` message stands only for a failure while reading the fields before the update (:57-59), and this path is not modelled.
- Strings.ToLower: only ASCII letters A-Z are lowered. JavaScript's `toLowerCase` also lowers non-ASCII letters and can change the length ("İ" becomes two code units). The filter conclusion `IgnoredAddresses.LowerCasedNeverIgnored` still holds for the source, because no Unicode lower-case mapping produces a letter A-Z, while every ignored address contains one.
- `ActivityHeatmapView.FormatHour` takes a natural number. Negative or fractional hours cannot come from the cells.
- `Events.AccountCreationId` is stated only as "the derived id". Its meaning is carried by `Events.DerivedId` and `Events.IdDerivationDeterministic`.
- The dashboard, chart, stats, connection-status and animation components are not part of this model. Neither are the thin fetch hooks for binned sums and token info, nor the build configuration. They are layout or I/O with no logic beyond trivial filters.
- `isConnected` (src/services/websocket.ts:139-141) is not modelled separately. It is the same socket check that `WebSocket.Send` models.
