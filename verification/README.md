# Trade ingestion, settlement and reconciliation of the FX SDK

A Dafny model of the Go SDK (`go/v1`, `go/pkg`). Four kinds of actors (the live trade
stream, `RetryUnsettled`, `RecoverTrades`, `ReconcileRepair`) feed the trades of one exchange
Core into one database, store them through `persistTrade` and pay them through `settle`,
while submits, cancels and order events write the same orders. The project proves what
every interleaving of those actors keeps, that order, duplication and path of the
deliveries do not matter, what a checksum match means, and when a repair converges and says so.

## How it is put together

- `Store`: the tables as maps with their primary keys, and one event per statement or
  transaction. Every sequence of events is a run: a disabled event changes nothing, so
  redelivery, failed statements, crashes (`Drop`) and any interleaving are runs too. History
  columns no reader of the tables can see record acks sent, handler calls, each order's last
  absolute quantity and the trades stored since.
- `Quantities`: what a list of fills leaves of a quantity. `Acceptance`: which messages can be
  stored.
- `Invariants`, `Protocol`, `Ledger`, `Confluence`, `Submits`: what all runs keep.
- `Histories`: a run as one actor lived it, its own events (`Act`: event and place) and the
  state each place finds (`StateAt`).
- `Clients`, `Recovery`, `Subscriptions`, `Orders`, `Reconciliation`, `Repairs`: the SDK's
  methods, with their loops, in imperative form. A `Client` changes the tables only through
  events; before each of its statements other actors may take any number of steps
  (`Interfere`) and a statement may fail (`Fails`). `Valid` says that the tables are what the
  run made of them, so everything proved about runs holds around every method. Every method
  also says which events of its own (`Mine`) it added to the run: one round of the stream, or
  one turn of a pull (`Deed`), is a list of them, and counters are counted from those. A
  `Calm` client has neither faults nor other actors.
- `Witnesses`: short runs that meet the premises of the main results, and the runs that break
  what the documentation says.
- `Pulls`, `Hours`, `Checksums`: one pulled list, one hour on both sides, the checksums.
- `Decimals`, `Money`, `Clock`, `Calendar`, `Slots`, `Backoff`, `Division`: the arithmetic below.

## What is taken as given

- The decimal library reads an optional sign, digits, and optionally a point with one to
  nineteen digits; it keeps nineteen places and truncates products and quotients there.
  PostgreSQL reads the same texts and stores a value in NUMERIC(28,6) rounded half away
  from zero, refusing what overflows. Decimals are integers in units of 10^-19, columns
  integers in millionths.
- Instants are microseconds, days are day numbers of the proleptic Gregorian calendar. The
  dates inside the Core's messages are day numbers; the texts of parameters are parsed.
- `executed_at` arrives parsed or not at all (RFC 3339, section 5.6, is not modelled); the
  fallback to the store time is.
- `hashint8` and `hashtextextended` are parameters, and every result holds for all of them.
  No hash of texts into 64 bits is free of collisions; `OneChangedRowIsSeen` says on which
  two texts a collision matters.
- The Core's and the handler's answers are parameters; no answer of the Core stands for a
  call that failed.
- The parameter constants of the SDK (statuses, sides, limits) are those of the source.

## What turned out different from the documentation

- The decrement and the stored quantity disagree on a fill exactly half-way past the sixth
  place: the column rounds the fill up, and the remainder up as well, because
  `$2::numeric` keeps every place (go/v1/trade.go:311). `DecrementAgreesIff` gives the
  exact condition for one fill; `HalfMillionthRemains` is a run with a quantity of
  "0.0000005" that ends with another remaining quantity than the stored fills say.
- Stopping at zero fill by fill is not stopping once at the end: a refund after the order ran
  out is put back on it (`RefundRemains`).
- `RemainingQuantity` says what the quantity is after any run, with such fills and refunds.
  `QuantityIsDifferenceIff` says exactly when that is the last absolute value less the
  stored fills, stopped at zero; `FilledQuantityIff` says it for runs without refunds: no
  fill lay half-way, or the order ran out even so.
- A repair that moved nothing skips its re-check because the local checksum cannot have
  changed (go/v1/reconcile.go:360-361), and a repair is to be safe while the stream is live
  (go/v1/reconcile.go:286-288). When the stream stores and settles the missing trades before
  their turns, the checksum has changed, the hour agrees, and the repair reports it
  unresolved (`StreamOvertakesRepair`). `Repairs.ReconcileRepair` gives the exact condition:
  an event of the repair's own must have stored or settled something since the first check.
  That is so whenever some missing trade was not stored by others or, with a handler that
  never refuses, not settled by them. `StillReadsIff` says when a check still reads the same.
- `backoff` is documented never to overflow. For a base and a maximum of any sign it does not
  for any attempt exactly when the base is at least the maximum, or is zero, or is positive
  and no doubling of it lies from 2^62 up to the maximum (`OverflowIff`). A negative base
  below the maximum always overflows in the end; a maximum of at most 2^62 ns is safe with
  every other base (`SafeUpToTwo62`).
- Version 1 of the checksum cannot see a row with equal ids, a pair of rows with swapped
  ids, or a changed side, quantity or rate (the three `V1BlindTo…` lemmas).

## Model

| member | source | states |
|---|---|---|
| Protocol.RemainingQuantity | go/v1/trade.go:272-326 | after any run, whatever the fills, an order's remaining quantity is the higher of its last absolute value and the most the fills first stored since ever took, less all they took; without refunds, that value less what they took, stopped at zero |
| Protocol.RemainingFolds | go/v1/trade.go:309-320 | after any run, with no condition on the fills, the quantity is the last absolute value with the fills first stored since taken off one by one |
| Protocol.QuantityIsDifferenceIff | go/v1/trade.go:309-314 | over any run the quantity is the last absolute value less the stored fills, stopped at zero, if and only if no fill slips half-way and no more had been taken at any point than both that value and the final total, or the fills end at their peak with at least the whole value taken |
| Protocol.FilledQuantityIff | go/v1/trade.go:309-314 | without refunds: if and only if no fill lay half-way past the sixth place, or the order ran out even so |
| Quantities.DrawnIsClosed | go/v1/trade.go:311 | taking any fills off any quantity one by one, stopping at zero each time, gives the closed form |
| Quantities.DecrementTakes | go/v1/trade.go:311 | one UPDATE takes the fill rounded with halves down, stopping at zero, for any quantity and fill |
| Protocol.HistoryTracksRun | go/v1/order.go:407-411 | the last absolute value and the list of fills since are what the run itself says |
| Quantities.DecrementAgreesIff | go/v1/trade.go:309-314 | one decrement takes off the stored quantity, stopping at zero, if and only if the fill is not a covered one half-way past the sixth place |
| Witnesses.RefundRemains | go/v1/trade.go:311 | a run whose order ran out and was refunded, with one millionth left where the difference is nothing |
| Witnesses.HalfMillionthRemains | go/v1/trade.go:309-314 | a run that accepts a quantity of "0.0000005", stores one millionth and leaves the order all its five instead of four |
| Witnesses.StreamOvertakesRepair | go/v1/reconcile.go:360-364 | a complete run in which the stream stores and settles the missing trade between the first check and its turn: the repair ends unresolved, though the hour holds the Core's rows and would match |
| Witnesses.HourCanLackATrade | go/v1/reconcile.go:263-274 | a reachable state in which an hour lacks exactly one of the Core's trades |
| Witnesses.TradeCanSettle | go/v1/trade.go:84-113 | a run faithful to a six-place book in which a trade is stored, paid once and settled |
| Invariants.StepInv | go/v1/trade.go:50-153 | every event keeps the whole invariant: unique references, rows determined by first delivery and parent, balances, flags; and takes nothing back |
| Invariants.RunInv | go/v1/trade.go:50-153 | the invariant holds after every run |
| Invariants.DeliveryBalances | go/v1/trade.go:309-320 | a first delivery counts its trade once against its parent and takes the fill, halves rounded down, off the parent's quantity, stopping at zero; that is the stored quantity except for a half-way fill |
| Invariants.ActorStepBookkeeps | go/v1/trade.go:291-305 | redeliveries, acks, handler calls and settlement marks touch no order and no stored amount |
| Protocol.StoredBeforeAckedBeforeSettled | go/v1/trade.go:55-65 | acked implies stored; settled implies a successful handler call or no handler; the handler only saw stored trades |
| Protocol.NothingReverts | go/v1/trade.go:145-153 | no continuation of a run reverts a flag, drops an ack or call, or changes a stored amount or order term |
| Ledger.MoneyMovesOnce | go/v1/types.go:322-336 | over any run, with a handler idempotent per key, each trade moves money at most once, each settled trade exactly once, and only stored trades do; when the Core keeps its word within six places, what moves is what the row says, on the pair and account of its order |
| Ledger.RunAgrees | go/v1/trade.go:203-219 | over any run every handler call asks for the amounts of the first delivery, from whichever path |
| Ledger.RetryPaysTheSame | go/v1/trade.go:203-219 | recomputing from the stored columns and the order found by ref_id gives the first delivery's side, pair, accounts, settlement and fee |
| Ledger.RetryNeverSkips | go/v1/trade.go:204-217 | for every stored trade an order is found by ref_id and Cal succeeds on it |
| Ledger.ParentFound | go/v1/trade.go:204-209 | the lookup by ref_id alone finds the order the trade was stored under, and no other |
| Confluence.StoredValuesAgree | go/v1/trade.go:291-320 | however two faithful runs go on from one state, with any other events and any fills, a trade stored in both under an order known at the start holds the same values |
| Confluence.DeliveriesCommute | go/v1/trade.go:291-320 | two faithful runs that deliver the same storable trades in any order, repetition and split, whatever else happens in them, store the same trades, and leave the same remaining quantity on every order that neither overwrites, half-way fills included |
| Confluence.RunExtends | go/v1/recover.go:72-93 | such a run adds exactly the storable trades it delivers that were not there, and takes exactly their fills off every order it does not overwrite |
| Clients.Client.PersistTrade | go/v1/trade.go:232-327 | without a failing statement no acceptable message is refused, whatever others do; undisturbed, exactly the messages the tables cannot take are refused; any other is one persist step that hands on the enriched event and the settled flag, and when it is the first it files the row column by column, takes the fill off the parent, gives that the Core's status and touches nothing else; a redelivery touches neither table |
| Ledger.RowForIs | go/v1/trade.go:232-286 | a message is given a row under its parent if and only if account, fee and texts can be read and all values fit; every column of the row is then the message's, the parent's, or what Cal makes of both, kept as the column keeps it |
| Histories.RowsAreFiled | go/v1/trade.go:279-286 | after every run each row still says what its first delivery and that delivery's parent order said, trade type, partner and execution time included, the time being the delivery's own when the message has none |
| Clients.Client.Transact | go/v1/trade.go:272-326 | the statements of the transaction amount to one persist step, or to nothing |
| Clients.Client.Settle | go/v1/trade.go:126-143 | among the client's own events, whoever else is about, exactly one handler call, or none without a handler, and then its record; the outcome is what the handler said to that very call; the row ends settled without error, or with one more attempt and the error |
| Clients.Client.MarkSettled | go/v1/trade.go:146-153 | without a failing statement the row is settled; undisturbed, only that row changes and its error is cleared |
| Clients.Client.RecordFailure | go/v1/trade.go:131-140 | undisturbed, one more attempt and the error are recorded unless the SMALLINT counter is full |
| Clients.Client.Acknowledge | go/v1/trade.go:91-106 | the ack goes out only for a stored trade, and the flag is set only after it; undisturbed, nothing else of the table changes |
| Clients.Client.Receive | go/v1/trade.go:84-113 | one round of the stream: its own events are one delivery and at most one handler call, none for a trade settled by then, exactly one for any other unless a statement fails; without a failing statement an acceptable trade ends stored, acked and settled unless refused, whatever others do; undisturbed, the tables are those of pulling that one message |
| Clients.Client.RunTradeStream | go/v1/trade.go:66-115 | the same for everything a stream delivered: its own events are such rounds, message by message, so a settled redelivery is never presented again; the attempt counter is reset exactly on acceptance |
| Subscriptions.SubscribeTrades | go/v1/trade.go:27-48 | the same over any number of reconnects; it goes on exactly on retryable ends, waiting the backoff of the failed opens since the last accepted one |
| Clients.Client.RetryUnsettled | go/v1/trade.go:164-221 | with a handler and no failing statement every trade stored before is settled after, or a refused call for it was added by a handler that may refuse, whatever others do meanwhile |
| Clients.Client.TakeUp | go/v1/trade.go:204-217 | only a failing statement makes a row be skipped; the event handed on is priced from row and parent |
| Recovery.PullOne | go/v1/recover.go:72-93 | what each outcome means in the run: refused, no event and tables that could not take the message; otherwise its delivery, the first exactly if inserted; no handler call exactly if it was settled by then, and else one, that went well exactly if settled now |
| Recovery.PullTrades | go/v1/reconcile.go:334-358 | whoever else is about, the client's own events are one turn per message in order, and the counters are the count of those turns, each message in exactly one class; without a failing statement all acceptable trades end stored, and settled unless the handler may refuse; undisturbed, the table grows by exactly Recovered, as many rows become settled as counted, and exactly the unacceptable fail |
| Recovery.TurnsConserve | go/v1/reconcile.go:334-358 | over the turns of any list in any run, failed, already settled, settled and refused add up to the list, and only trades that reached the handler count as recovered |
| Recovery.IdledIff | go/v1/reconcile.go:360-364 | nothing was counted as recovered or settled if and only if no event of the client's own in that stretch of the run stored a trade first or settled one |
| Recovery.PullDays | go/v1/recover.go:55-95 | the same turns and counters over the concatenated lists of the days processed, stopping at the first day without an answer |
| Recovery.RecoverTrades | go/v1/recover.go:46-96 | parameter errors touch nothing; otherwise the result reports exactly the days processed, and its counters are those of the turns over their lists |
| Recovery.SecondRecoveryIsIdle | go/v1/recover.go:22-28 | a repeat over the same lists recovers nothing and changes no order |
| Pulls.RepeatRecoversNothing | go/v1/trade.go:291-305 | pulling a list again stores nothing and changes no order |
| Acceptance.AcceptsIff | go/v1/trade.go:245-286 | with a fill that is not negative, acceptance depends on parent and texts alone |
| Pulls.HourConverges | go/v1/reconcile.go:334-358 | whoever stored them, once the missing listed trades are there and nothing else came into the hour, the local rows are the Core's rows |
| Pulls.PullConverges | go/v1/reconcile.go:334-358 | so they are after an undisturbed pull of an hour that lacked only listed trades |
| Pulls.RunFromList | go/v1/reconcile.go:283-289 | over any stretch of a run that delivers only listed values into the hour, all that came into it carries listed values |
| Pulls.NothingRecoveredNothingChanged | go/v1/reconcile.go:360-364 | undisturbed, a pull that recovered nothing leaves every hour's checksum rows as they were |
| Pulls.StillReadsIff | go/v1/reconcile.go:360-364 | with others about, a checked hour reads the same if and only if no trade has been filed in it since |
| Repairs.ReconcileRepair | go/v1/reconcile.go:314-371 | the counters are those of the turns in the run; without a failing statement and with a Core that holds still, an hour that lacked only listed trades at the first check holds the Core's rows after the pull, whatever others deliver from the list, and is reported resolved if and only if it matched at first or an event of this client since that check first stored a trade or settled one; undisturbed, any hour is reported resolved exactly when its rows as they stand match the Core's last answer, such an hour always is, and a skipped re-check leaves the first check valid |
| Repairs.ResolvesUnlessOvertaken | go/v1/reconcile.go:360-371 | that if-and-only-if, from the turns and what the checks read; and the repair is resolved whenever some trade missing at the first check was not both stored and, unless the handler may refuse, settled by other actors' events since |
| Repairs.OvertakenByOthers | go/v1/reconcile.go:360-364 | when the turns moved nothing, every trade missing at the first check was first stored by another actor's event since, and marked settled by one unless the handler may refuse |
| Repairs.MovesUnlessOvertaken | go/v1/reconcile.go:334-358 | the turn of a trade missing at the first check stores or settles something unless by then it is stored, and settled or refused |
| Repairs.RepairResolves | go/v1/types.go:516-525 | Resolved() is true after an undisturbed repair of such an hour |
| Reconciliation.Reconcile | go/v1/reconcile.go:97-191 | the outcome is the comparison of the rows read with the Core's answer for the window; the upsert records it and never reopens a closed hour |
| Reconciliation.AsksForTheHour | go/v1/reconcile.go:141-146 | the requests carry the partner, the day, and the bounds of the hour in order, as texts of the instants the local query is bounded by; the trade list is asked for in the scope of the whole key |
| Reconciliation.ScopeErrorsAreTrue | go/v1/reconcile.go:98-104 | each error names a parameter that is wrong, and without one the partner is given and day and hour have a window |
| Reconciliation.Record | go/v1/reconcile.go:178-189 | is_matched is replaced, is_done only ever set, and no other hour reopened |
| Reconciliation.Aggregate | go/v1/reconcile.go:122-133 | both XOR aggregates and the count, in whatever order the rows come |
| Reconciliation.LocalTrades | go/v1/reconcile.go:387-419 | one entry per row of the hour under its two ids, and no other |
| Reconciliation.Classify | go/v1/reconcile.go:232-260 | missing locally are exactly the Core's trades whose ids no row has, missing remotely exactly the rows no listed trade names, unsettled exactly the listed rows not settled; mismatched holds one record for each listed row that differs, naming exactly the values that do; each trade once |
| Reconciliation.ReconcileDiff | go/v1/reconcile.go:210-261 | that account for the Core's list and the rows of the same window; nothing is written |
| Hours.MismatchIsExplained | go/v1/reconcile.go:193-203 | whatever the hash and version, an hour that does not match is divergent |
| Hours.NotDivergentIff | go/v1/types.go:474-480 | a diff is not divergent if and only if both sides list the same trades and agree on each |
| Hours.DiffExplains | go/v1/reconcile.go:232-260 | what each slice of a diff holds, in terms of the Core's list and the rows of the hour |
| Hours.NoFieldsIff | go/v1/reconcile.go:425-445 | no field is named if and only if reference, side and both values agree and the types do not conflict |
| Hours.FieldsNamed | go/v1/reconcile.go:421-445 | each of the five names is given if and only if that value differs from the column, a type not reported on either side excepted; each once and in the source's order |
| Hours.CoreCount | go/v1/reconcile.go:373-378 | with distinct keys the Core's count is the length of its list |
| Hours.HourCount | go/v1/reconcile.go:127-131 | COUNT(*) is the number of distinct tuples of the hour |
| Checksums.TupleTextReads | go/v1/reconcile.go:124-126 | a parser reads the hashed text back |
| Checksums.TupleTextInjective | go/v1/reconcile.go:124-126 | different tuples are hashed from different texts |
| Checksums.XorPick | go/v1/reconcile.go:49-63 | the aggregate does not depend on the order of the rows |
| Checksums.XorSymmetricDifference | go/v1/reconcile.go:49-63 | two checksums differ by the checksum of the differing rows |
| Checksums.MatchIff | go/v1/reconcile.go:482-499 | version 2 matches if and only if the counts are equal and the differing rows cancel |
| Checksums.ComparesWhatWasSent | go/v1/reconcile.go:482-499 | which of the checksums and counts is compared and reported, by presence and not by value |
| Checksums.LossIsSeen | go/v1/reconcile.go:55-60 | a pure loss or surplus never matches, whatever the hash |
| Checksums.OneChangedRowIsSeen | go/v1/reconcile.go:482-499 | for every hash, hours that differ in one row's values are hashed from different texts and match if and only if the hash collides on those two |
| Checksums.V1BlindToEqualIds | go/v1/types.go:356-359 | version 1 matches with or without a row whose ids are equal |
| Checksums.V1BlindToSwappedPair | go/v1/reconcile.go:55-58 | version 1 matches with or without a pair of rows with swapped ids |
| Checksums.V1BlindToValues | go/v1/types.go:356-359 | version 1 matches whatever the side, quantity and rate |
| Orders.SubmitOrder | go/v1/order.go:18-215 | undisturbed: refused as a duplicate exactly if an equal order of the day is less than a minute old, or if a value overflows its column; otherwise one new order under a new reference that holds the caller's parameters, open in full, with the Core's answer reflected (nothing on duplicate or unknown, the id alone on pending, else status and id); alone on the database the run stays serial |
| Orders.Place | go/v1/order.go:93-143 | a recent twin refuses, a value past its column refuses, otherwise one insert |
| Orders.CheckedIff | go/v1/order.go:20-91 | the checks pass if and only if nothing is missing and every stored decimal is exact; every column of the row then holds the caller's own parameter, decimals unrounded |
| Orders.ErrorsAreTrue | go/v1/order.go:20-91 | each error names a check that fails |
| Orders.RecentTwinIs | go/v1/order.go:93-118 | the probe finds exactly an order of the same day, less than a minute old, that holds what is submitted now, account and fee aside |
| Orders.ReplyReflects | go/v1/order.go:182-206 | in any state the answer to a submit writes that order alone: duplicate and unknown nothing, pending only an id that is not zero and never the status, any other its status and the id, none for zero |
| Submits.DuplicatesAreSpaced | go/v1/order.go:93-118 | in every run of submits that do not overlap, equal orders of one day are at least a minute apart |
| Orders.CancelOrder | go/v1/order.go:218-261 | only a successful answer that names an order writes: that order gets its status and the six-place value nearest to its quantity, and nothing else changes; a quantity that does not parse or overflows, or an order that is not there, changes nothing |
| Orders.CancelErrorsAreTrue | go/v1/order.go:219-230 | the checks pass if and only if nothing is missing, and each error names what is |
| Orders.WriteOverwrites | go/v1/order.go:247-252 | an absolute write stores the nearest six-place value to the text, halves away from zero, with the status, on that order alone, and fails exactly on a text that does not parse or overflows |
| Orders.ExactTextKept | go/v1/order.go:247-252 | a text of six places is stored as the value it denotes |
| Orders.RunOrderEventStream | go/v1/order.go:376-422 | every event is handed on; undisturbed, each order ends with the status of the last event that reaches it and the value its quantity text denotes, and no trade is touched |
| Orders.LastEventWins | go/v1/order.go:407-411 | each order ends with the status of the last event that reaches it and with the stored value of that event's quantity text, and is otherwise untouched; an event reaches an order exactly if it names it and its text parses and fits |
| Orders.ReplayIsHarmless | go/v1/order.go:372-375 | a reconnect that replays the tail of the events changes no order |
| TradeEvents.TradeEvent.Cal | go/v1/types.go:288-320 | in place, succeeding exactly when the three texts parse: the fee is the percentage of the amount and the settlement the amount with that fee added on a buy or taken off otherwise, each the nearest six-place value and of two equally near ones the even; a failure leaves or clears exactly the fields the source does |
| Money.CalcIs | go/v1/types.go:288-320 | Cal succeeds if and only if quantity, rate and the fee, if there is one, parse, and its amounts are these and no others: products and quotient cut at nineteen places, fee and settlement each rounded once, half to even |
| Decimals.HalfEvenIs | go/pkg/fee.go:16-22 | for any value and unit, half-even rounding is the one multiple nearest to it, and of two equally near ones the even one |
| Money.BuySellSpread | go/v1/types.go:313-319 | buy less sell settlement is exactly twice the fee |
| Money.SellNeverNegative | go/v1/types.go:313-319 | a sell settlement is never negative for a non-negative amount and 0 to 100 percent |
| Money.CalIsExactWithinPlaces | go/pkg/fee.go:9-23 | within six and five places nothing is cut first: the fee is the nearest six-place value to the exact fee, the even one of two, the settlement that of the exact amount plus or minus the fee, within a millionth of the exact one, and storing rounds neither |
| Decimals.ParseOfNumText | go/v1/trade.go:170-171 | a stored column read back through its text is the stored value |
| Decimals.CheckDecimalIsStorageExact | go/v1/decimal.go:26-35 | accepted exactly if six-place storage keeps the value |
| Decimals.ParseReads | go/v1/decimal.go:26-35 | a sign or none, digits, and a point with up to nineteen digits or none, read as the number those digits denote |
| Decimals.ParsedIsWritten | go/v1/decimal.go:26-35 | and no other text parses |
| Decimals.NumericIs | go/pkg/fee.go:16-22 | a column keeps the nearest six-place value, halves away from zero, refuses exactly what rounds out of NUMERIC(28,6), and keeps six places unchanged |
| Decimals.FitsIff | go/db.sql:28-29 | a column takes exactly the values of at most twenty-eight digits, six of them after the point |
| Decimals.SameDecimalOfColumn | go/v1/reconcile.go:447-463 | against a column text it decides equality of value; an unparsable text never passes |
| Slots.WindowTexts | go/v1/reconcile.go:34-44 | the bounds as texts denote the SQL bounds, hour 23 ending on the next date |
| Slots.TimeTextIs | go/v1/reconcile.go:21-43 | the text of a time of day is its hours, minutes and seconds |
| Slots.PreviousHourIsLastClosed | go/v1/timezone.go:79-82 | previousHour yields an accepted slot that ended at most now and less than an hour ago |
| Clock.SlotsTile | go/v1/reconcile.go:129-131 | an instant lies in exactly the slot of its +05 day and hour, which is the UTC hour five hours earlier |
| Slots.Days | go/v1/recover.go:100-124 | the loop returns DaysOf for every pair of texts, and ends |
| Slots.DaysAreConsecutive | go/v1/recover.go:98-124 | from first to last day, each the successor of the one before, at most 31; an error exactly on unparsable, inverted or wider ranges |
| Slots.RangeErrorsAreTrue | go/v1/recover.go:100-124 | an unparsable text and an unfit range are told apart |
| Calendar.NextIsNextDay | go/v1/recover.go:116 | the next date is the next day number across month, leap-day and year ends |
| Calendar.DayNumberIs | go/v1/recover.go:116 | the number of a date is that of the Gregorian rule, in closed form |
| Backoff.BackoffDelay | go/v1/retry.go:74-85 | for any base and maximum half of what the doublings came to and less than that again on top; between half the exact cap and the cap unless they overflow |
| Backoff.DoubledIsCap | go/v1/retry.go:74-79 | the doubling never leaves 64 bits and caps to min(base * 2^attempt, max) |
| Backoff.CapMonotone | go/v1/retry.go:71-79 | the cap never shrinks with the attempt |
| Backoff.OverflowIff | go/v1/retry.go:71-79 | for every 64-bit base and maximum no attempt overflows if and only if the base is at least the maximum, or zero, or positive with no doubling from 2^62 up to the maximum |
| Backoff.SafeUpToTwo62 | go/v1/retry.go:71-79 | a maximum of at most 2^62 is safe with every base that is not negative |
| Backoff.RetryUnary | go/v1/retry.go:15-45 | at most maxRetries + 1 calls and maxRetries * max of waiting, one backoff of its own attempt after each call but the last; only retryable failures are repeated |
| Backoff.RetryableIff | go/v1/retry.go:47-69 | exactly unavailable and resource exhausted are tried again, and a stream after its plain end as well |

## Left out

- Generated gRPC code, dialing, TLS, metadata, logging and timers; `FilterClientOrders`, `GetOrderBookDepth`, `GetCurrencyPairs`, `GetTrades` with its default bounds, `GetReleaseAmount`: field copying.
- The reconnect loop of `SubscribeOrderEvents`: the same loop as `SubscribeTrades`.
- Partitions, indexes and retention of the tables; the width of BIGINT and SMALLINT columns other than settle_attempts; segment, min_trade_quantity, client_inn, cause and updated_at, which nothing modelled reads; the info JSON of a reconciliation.
- The decimal library's limit on text length and PostgreSQL's wider numeric and date syntax (exponents, NaN): a remaining quantity or day in such a form counts as refused.
- The JSONB account and fee columns: the account is an opaque text, the fee map its "fixed" entry.
- `executed_at` as localTrades renders it: compareTrade does not read it.
- RetryUnsettled: the order in which it walks the unsettled rows; the model takes any.
- Submits.DuplicatesAreSpaced: covers submits that do not overlap and orders of one day; across midnight and between concurrent submits the SDK gives no such guarantee.
- Repairs.ReconcileRepair: convergence needs a Core that holds still between the two checks and no failing statement; with failing statements its counters and its safety remain.
- Reconciliation.Reconcile: other actors' upserts of the reconciliations table are any that keep closed hours closed.
- Recovery.RecoverTrades: the Core answers each request the same way throughout one call.
