# Sync-and-lookup engine: a verified model

The back-office service keeps three tables in step with two event streams and answers lookups
from them. `ledger_entries` and `payment_orders` hold the latest snapshot of each entity,
`payment_ledger_pairs` is a derived index that pairs the PAYMENT and the RECEIVE leg of an order.
A consumer reads the streams at least once and in any order, applies each event in a transaction,
dead-letters what fails and only then commits the offset. Backfill files and replays of dead
letters bring the same events again. A lookup reads the index, and scans the ledger for the other
leg when the index has none or only one.

The project models that engine and proves what the service promises of it: duplicates, order,
crashes, retries, replays and backfills do not change the rows or the answers
(configs/topic_checklist.md:11-12, docs/ops/e2_3_reload_cutover_rehearsal_runbook.md:240-268). Where
the promise needs a condition the condition is exact; "What turned out differently" lists those.

## How it is built

| module | models | form |
|---|---|---|
| `Wrappers` | optional values, Python truthiness, text order | values |
| `LatestWins` | the guard of the conditional upsert in SQL's three-valued logic, and streams of upserts | statement builder as a method, the rest functions |
| `Pairing` | the recomputation of a pair | loops as methods against functions |
| `Store` | the tables, the statements of one transaction, the effect of one event | class `Tables` with mutable fields, proved to take the steps of `LedgerStep` and `OrderStep` |
| `History` | histories of committed events, the hypotheses on events, sound pair rows | values |
| `SerialRuns` | one consumer | runs as sequences of steps |
| `Interleaving` | several workers on one database, one step per SQL statement | state machine |
| `Lookups` | the tx and order lookups with read-repair | functions, `ResolvePairing` as a method |
| `Convergence`, `AnyClock` | end-to-end theorems, with a clock that goes forward and with any clock | lemmas |
| `Embedding` | an uninterrupted transaction is a serial step, a serial run an interleaved run | lemmas |
| `Stickiness` | when completeness of a pair survives concurrency | lemmas |
| `InterleavedAnswers` | the end-to-end theorem under concurrency | lemmas |
| `OrderView` | the order lookup and a tx lookup after it, statement by statement between the workers' | lemmas |
| `Contract`, `Events`, `AliasTables` | alias normalisation, the event parsers, the loading of alias tables | loops as methods against functions |
| `Fields` | which key each field of an event is read from, which topic goes to which parser | lemmas |
| `Delivery`, `Redelivery` | partitions, offsets, crashes, dead letters, replays | state machine, and its theorems |
| `Group` | a group of workers with partitions, rebalances and crashes over the interleaved database | state machine |
| `GroupOfOne` | a single consumer is a group of one worker | lemmas |
| `Utf8` | decoding with replacement, and encoding | functions |
| `Dlq` | the dead-letter file and table, the replay script | class `DeadLetters`, loops as methods |
| `LineFormat` | a text form of records that has what `Dlq` asks of JSON | functions |
| `Letters` | what the file and table hold for a delivery run, and what a replay publishes | lemmas |
| `Handling` | one payload: decoding, its transaction, error codes | methods against functions |
| `Turns` | what a delivery, a turn and a whole script of the polling loop must come to | predicates on machine states, lemmas |
| `Consumer` | the consumer process | class `Process`, proved to take machine steps of `Delivery` and to do what `Turns` says |
| `Processes` | what the theorems of the machine say of processes and their dead letters | lemmas |
| `Backfill` | the backfill command | methods with loops |

A history (`seq<Arrival>`) says which changes were committed, in which order and with which clock
readings. `Leads(start, log, db)` says that processing `log` from `start` may end in `db`; it is a
relation because the `SELECT` that feeds a recomputation has no `ORDER BY` and may list the rows in
any order. `Faithful(db, log)` says that the ledger and order tables are what the history
determines and that every pair row names ledger rows of the right type, related id and wallet.
Serial runs, interleaved runs, delivery runs and the runs of groups are all shown to be faithful, and the convergence
theorems need nothing else.

Functions such as `Compute`, `ParseLedger` or `BuildTxAnswer` say what the code computes, and the
theorems speak of them. Lemmas whose names end in `Columns`, and those of `Fields` and `Turns`, say what
these functions mean without them: which column of a row or key of a payload each result is, for every
input. The methods that run the statements promise the same in their own contracts.

## Hypotheses

They are stated where they are used, and nowhere assumed of the code.

- *Decided events* (`Decided`): each key has an event that replaces all others of its key and is
  replaced by none. `OrderIndependentIffDecided` proves that this is exactly what order
  independence needs. `OneClassDecides` derives it from the usual discipline: the events of a key
  that carry metadata either all carry `updated_at` or all carry only a version, and events of
  equal rank are equal.
- *Stable identity*: the events of one `tx_id` agree on `related_id`, `entry_type` and `wallet_id`.
- *Single legs*: at most one PAYMENT and one RECEIVE transaction per `related_id`.
  `TwoLegsAreAdmissible` shows that any PAYMENT and RECEIVE event of an order meet all of these.
- *Clock*: where an index is claimed to be exact, the clock readings written to pair rows do not go
  backwards (`PairClockForward`); the refinement to "keep the maximum" needs the same of arrival times.
- *Recovered* (`Redelivery`): each valid message has been applied in some copy. `ReplayRecovers`
  derives it from draining the partitions and replaying the dead letters; `GroupRecovers` does for groups.
- *Unharmed replays* (`ReplaysHarmless`, `ReplayedUnharmed`): each letter a replay brought back survived its
  store, or came back as a message that is invalid or that asks for what it asked for before.
- *Same RECEIVE index* (`SameReceiveIndexed`): for an entry that is shown as part of an order and is neither
  PAYMENT nor RECEIVE, both pair tables know the order's RECEIVE leg or neither does. It holds of all others.
- *JSON lines* (`DumpsLines`): the encoder writes each record as one line that is not blank, and the
  decoder gives the record back. `WireDumpsLines` exhibits such a pair, and `NewProcess` a process that uses it, so no theorem is empty.

## What turned out differently from the documentation

- The claim that duplicates and order never matter is false without the metadata class:
  `MixedClassesDiverge` gives three events whose outcome depends on order.
- A replay can commit a change that nobody sent. A stray byte makes a JSON message invalid; its dead
  letter holds a replacement character in the byte's place, and the copy that a replay publishes may be
  accepted (`StrayByteInvents`, `AStrayByteIsEnough`). Replays never do so if and only if each letter
  that its store alters comes back as a message that is invalid or that asks for what the letter's
  message asks for (`ReplaysInventIff`).
- A dead letter in the table is not kept for good: each start of a consumer or a backfill deletes those
  older than the retention. A written letter is there exactly until such a start (`TableLetterIsReplayable`).
- Under all hypotheses, an answer can still depend on delivery order for an entry that is neither
  PAYMENT nor RECEIVE: the peer scan then only looks for a PAYMENT row, so the receiver comes from the
  pair row alone. Three theorems state exactly when. In serial runs whose clock does not step back
  (`EndToEnd`) the answer is unique if and only if no RECEIVE leg of the order is hidden from the index,
  that is, carries a `related_type` that triggers no recomputation while another event of the order
  does. In serial runs under any clock (`EndToEndWithAnyClock`), and in interleaved runs even if all
  workers read one clock that does not step back (`EndToEndUnderConcurrency`), it is unique if and only
  if the order does not have both a RECEIVE leg and an event of another type that recomputes its pair:
  a worker that listed the rows before the leg was committed writes its pair after it (`StaleRun`).
  Answers for PAYMENT and RECEIVE entries and for entries outside orders are unique in all of them.
- Completeness of a pair row is sticky in serial runs (`CompletenessIsSticky`). Under concurrency it
  is sticky if and only if the events lack one of the legs or at most one transaction id has events
  that recompute the pair (`StickyIff`); otherwise a worker that read early can take it away, also
  when the clock stands still (`CompletenessCanRegress`). Read-repair covers this for PAYMENT and RECEIVE lookups.
- After an order response that says COMPLETE, a tx lookup of one of its entries says so too, unless the
  entry's `related_type` forbids it, or the entry is no leg and the pair has lost the RECEIVE leg in the
  meantime (`OrderThenTxUnderConcurrency`).
- The order view may report COMPLETE for an entry whose tx view says UNKNOWN; this happens exactly
  when the entry's own `related_type` is neither empty nor PAYMENT_ORDER (`OrderViewAgreesWithTxView`).
- `version or source_version` drops a falsy version such as 0 under the first alias and keeps it under the
  second; `SpellingMattersIff` and `OrderSpellingMattersIff` say exactly when the spelling shows.
- Permuting an alias list may change the stored value between Python-equal ones such as `1` and
  `true`, or `[1]` and `[true]` (`AliasOrderCanShow`). It changes nothing but the alias hits if and only if, in each group, all aliases that carry a
  value carry the very same one (`AliasOrderMattersIff`).
- A dead letter comes back unchanged only if its value is not empty and is well-formed UTF-8, and, through the
  table, only if its topic has no surrounding blanks (`RepublishedExactly`). Dead letters of a
  backfill never come back to the tables (`BackfillLettersAreNotConsumed`).

## Model

| member | source | states |
|---|---|---|
| LatestWins.BuildPredicate | src/db/upsert.py:27-63 | The predicate appended together by the statement builder is never Unknown on rows with an arrival time, and is true exactly when the latest-wins guard accepts; with no `updated_at` or `ingested_at` column there is no guard |
| LatestWins.FoldOfLog | src/db/upsert.py:65-69 | After any stream a table has exactly the keys that arrived, each with a row that arrived |
| LatestWins.FoldKeepsDominant | src/db/upsert.py:34-69 | Once an event that replaces all others of its key and is replaced by none has arrived, it is the stored one |
| LatestWins.Convergence | src/db/upsert.py:27-69 | Two streams with the same set of decided events, in any order and with any repetition and clock, leave the same rows |
| LatestWins.OrderIndependentIffDecided | src/db/upsert.py:34-63 | The final rows are the same for every order and repetition of a set of events if and only if every key has a dominant event |
| LatestWins.BeatsIsRank | src/db/upsert.py:34-61 | Within one metadata class, one event replaces another exactly when its rank is at least as great: bare below metadata, then by `updated_at` or by version |
| LatestWins.KeepsLastMaximum | src/db/upsert.py:27-69 | A stream of one class under a forward clock leaves, for each key, the last of its events of greatest rank |
| LatestWins.OneClassDecides | src/db/upsert.py:34-61 | One metadata class and agreeing ties make every key decided |
| LatestWins.MixedClassesDiverge | src/db/upsert.py:34-52 | `updated_at` 10, version-only 1 and `updated_at` 5 have distinct ranks and yet the outcome depends on their order |
| LatestWins.MetadataKept | src/db/upsert.py:34-61 | No stream of upserts takes the metadata away from a row that has some |
| Pairing.FirstOfType | src/consumer/pairing.py:61-62 | The row returned is the first of that type in the listing, and none is returned only if there is none |
| Pairing.LatestTime | src/consumer/pairing.py:66-69 | The result is the event time of a listed row and no listed row is later |
| Pairing.NextOfType | src/consumer/pairing.py:61-62 | The search loop finds the first row of the type |
| Pairing.ComputePairing | src/consumer/pairing.py:53-97 | The loop with its running maximum yields the pair of the first legs; complete means both ids are set; an age is non-negative and only reported for incomplete pairs |
| Store.Tables.UpsertLedgerRow | src/db/upsert.py:65-69 | The in-place conditional replacement, decided by evaluating the built predicate, is the table operation the theorems are about |
| Store.Tables.UpsertOrderRow | src/consumer/processor.py:71-72 | The same for the order table |
| Store.Tables.UpsertPairRow | src/consumer/pairing.py:160-173 | The same for the pair table, whose guard has no version column |
| Store.PutColumns | src/db/upsert.py:27-69 | An upsert leaves all other keys alone, and its own row is replaced unless the stored one is newer: by update time, else by version, else by arrival and only against a row without either |
| Store.ComputeColumns | src/consumer/pairing.py:53-97 | A pair computed over a listing names a PAYMENT and a RECEIVE row with their wallets exactly if the ledger has one; its amount is the order's, else the payment's, else the receipt's, its status the order's, its time the latest of the rows |
| Store.TriggerColumns | src/consumer/processor.py:41-50 | An event with a `related_id` that is not blank and a `related_type` that is null or PAYMENT_ORDER has the pair of that id computed anew and stamped, unless the stored pair is stamped later or has both legs while the ledger lacks one; any other event leaves the pair table as it is |
| Store.Tables.SelectByRelatedId | src/consumer/pairing.py:115-119 | The result lists each row of that related id once, in an order the caller may not rely on |
| Store.Tables.UpdatePairing | src/consumer/pairing.py:106-174 | If no statement raises, the pair table changes by exactly one recomputation over some listing, which the guard may skip and which then is reported as skipped |
| Store.Tables.UpsertLedgerEntry | src/consumer/processor.py:17-52 | If no statement raises, the tables take one ledger step, and the pair table changes as the event's own `related_id` and `related_type` say: a null or PAYMENT_ORDER type recomputes the pair of an id that is not blank, anything else changes no pair; a missing version is reported |
| Store.Tables.UpsertPaymentOrder | src/consumer/processor.py:55-74 | If no statement raises, only the order table changes, by one conditional upsert; a missing version is reported |
| Store.Tables.Rollback | src/db/session.py:50-52 | The session returns to the state the transaction began in |
| History.EventsOfHistory | src/consumer/processor.py:17-74 | The upserts of a history are exactly the events of its changes |
| History.ComputeSound | src/consumer/pairing.py:86-97 | A pair computed over a listing only names rows of the right type and related id, with their wallets |
| History.PutKeepsIdentity | src/consumer/processor.py:24-39 | Under stable identity an upsert changes no stored row's related id, type or wallet |
| History.StoredEvents | src/consumer/processor.py:38-39 | A faithful state stores for every key an event of the history, and a row for every event |
| SerialRuns.TablesAreFolds | src/consumer/processor.py:17-74 | The ledger and order tables of a serial run are the latest-wins folds of its upserts |
| SerialRuns.CompletenessIsSticky | src/consumer/pairing.py:100-103 | In every serial run, whatever the events and the clock, a pair with both ids keeps both |
| SerialRuns.MetadataIsNeverLost | src/db/upsert.py:34-63 | In every serial run, from any state, a ledger or order row with metadata always has some |
| SerialRuns.SerialRunIsFaithful | src/consumer/pairing.py:115-173 | Under stable identity every pair row of a serial run names ledger rows of its types and related id, with their wallets |
| SerialRuns.GuardStaysSilent | src/consumer/pairing.py:149-157 | Under stable identity a serial recomputation is never refused by the no-regression guard |
| SerialRuns.TriggeredPairIsFresh | src/consumer/pairing.py:106-174 | Under stable identity and a forward clock, after every event that asks for a pair the pair row exists, names a PAYMENT and a RECEIVE row whenever the ledger holds them, and has amount, status and time of the tables as they are |
| SerialRuns.IndexAgrees | src/consumer/pairing.py:53-174 | After every event of a serial run whose clock goes forward, the pair of a fully eligible related id equals a fresh recomputation over the current rows, and is absent exactly if there are none |
| Interleaving.WriteOk | src/db/upsert.py:65-69 | A write decided against the committed row remains the latest-wins outcome until commit, because its key is held |
| Interleaving.ComputeStillSound | src/consumer/pairing.py:137-141 | A recomputation over rows read earlier still only names rows of the transaction's view |
| Interleaving.PublishFaithful | src/db/session.py:45-49 | Committing publishes the serial upsert of the transaction's event and keeps all pairs sound |
| Interleaving.InterleavedRunIsFaithful | src/consumer/pairing.py:106-174 | In every reachable state of any number of workers, with commits and rollbacks anywhere, the tables are the folds of the commit order and every pair row is sound |
| Interleaving.ReadRepairUnderConcurrency | src/db/admin_tx.py:48-65 | With any steps between its two statements, a lookup of a PAYMENT or RECEIVE entry reads COMPLETE if an opposite leg was committed at the first and only if one is at the second, whatever the pair row holds; the id returned is that of a committed opposite leg |
| Interleaving.InterleavedAnswersConverge | src/db/admin_tx.py:26-72 | Two interleaved runs that committed the same changes hold the same rows, give the same answer for every PAYMENT or RECEIVE entry and every entry not shown as part of an order, and for any other entry exactly if their indexes agree on whether the RECEIVE leg was indexed |
| Interleaving.MetadataIsNeverLost | src/db/upsert.py:34-63 | Between any two states of an interleaved run a ledger or order row keeps having metadata |
| Embedding.Transact | src/consumer/processor.py:17-74 | Every serial step of a ledger or order event, with any listing and clock, is taken by a transaction that no other statement interrupts, whatever else is open, if no open transaction holds a row it needs |
| Embedding.SerialRunIsInterleaved | src/consumer/processor.py:17-74 | Every serial run, under any clock, is an interleaved run of one worker that ends in the same tables |
| Stickiness.OneTriggerSticks | src/consumer/pairing.py:143-173 | If at most one transaction id has events that recompute the pair, completeness survives every interleaved run |
| Stickiness.CompletenessCanRegress | src/consumer/pairing.py:143-173 | If both legs occur and two transaction ids have such events, some run of the events, at one clock reading, completes the pair and then loses its completeness to a worker that read early |
| Stickiness.StickyIff | src/consumer/pairing.py:100-103 | Completeness is sticky in every interleaved run of the events if and only if they lack a leg of the order or at most one transaction id has events that recompute its pair; the same over the runs whose clock does not step back |
| Lookups.FindPeer | src/db/admin_tx.py:53-65 | The scan returns a row of the same related id and the opposite type such that no other such row is later, and among equally late ones none has a smaller tx id; it returns nothing exactly if there is no such row |
| Lookups.ResolvePairing | src/api/service.py:27-71 | The step-by-step code computes, for each side, the pair's value, else the peer's, else the entry's own |
| Lookups.ReadRepair | src/api/service.py:62-71 | For a sound pair row and a later second read, COMPLETE implies and is implied by an opposite leg as far as each read can tell, and the partner named is one |
| Lookups.ReadRepairExact | src/db/admin_tx.py:48-65 | On one state, an entry reads COMPLETE if and only if the ledger holds an opposite-type row of its related id |
| Lookups.LegView | src/api/service.py:36-71 | With one leg of each type, status, partner and both wallets of a leg's view are determined by the ledger alone |
| Lookups.LookupSymmetry | src/api/service.py:36-71 | Looking up either leg returns the other's id, and both report the same sender and receiver |
| Lookups.OtherView | src/api/service.py:47-63 | For other entry types the payer comes from the ledger but the payee, and with it completeness, from the pair row |
| Lookups.TxAnswerColumns | src/api/service.py:19-24 | A transaction is found exactly if it is stored; the response carries the stored event, the status and merchant of the order under its `related_id` or null if there is none, as related type its own if not blank, else PAYMENT_ORDER if the order exists, else UNKNOWN; and it is paired exactly if that is PAYMENT_ORDER |
| Lookups.EntryItemColumns | src/api/service.py:143-175 | An entry of the order response is COMPLETE with both ids in the pair row, else INCOMPLETE if there is a pair row or its `related_type` is null or PAYMENT_ORDER, else UNKNOWN, and names the other leg only if COMPLETE |
| Lookups.OrderStatusColumns | src/api/service.py:201-210 | The order is COMPLETE with both ids in its pair row, else INCOMPLETE if some ledger row has its id, else UNKNOWN |
| Lookups.OrderViewAgreesWithTxView | src/api/service.py:143-162 | If the order is COMPLETE each entry is shown COMPLETE, and the tx view agrees, with the same partner, exactly for entries whose `related_type` is empty or PAYMENT_ORDER |
| OrderView.OrderEntryUnderConcurrency | src/db/admin_tx.py:87-115 | With any steps between the statements that read the entries and the pair, an entry of the order response is COMPLETE exactly if the order is, and a leg then names a committed opposite leg |
| OrderView.OrderThenTxUnderConcurrency | src/db/admin_tx.py:26-115 | With any steps between the five statements of an order lookup that reads COMPLETE and a later tx lookup of one of its entries, the latter reads COMPLETE exactly if the entry's `related_type` is empty or PAYMENT_ORDER and the entry is a leg or the pair it reads has the RECEIVE leg, and UNKNOWN exactly if the `related_type` forbids it |
| OrderView.SamePartnerUnderConcurrency | src/api/service.py:143-162 | With single legs a tx lookup that reads COMPLETE after such an order response names the partner the response listed |
| Convergence.TablesConverge | src/consumer/processor.py:17-74 | Ledger and order rows depend only on the set of committed changes |
| Convergence.TwoLegsAreAdmissible | src/consumer/pairing.py:61-64 | Any PAYMENT and RECEIVE event of different ids and named wallets meet the hypotheses of the convergence theorems |
| Convergence.AnswersConvergeIff | src/api/service.py:27-71 | Two histories of the same changes give the same whole response to a tx lookup if and only if, for an entry that reads the pair only, both indexes agree on whether the RECEIVE leg was indexed; what the response holds is said by `TxAnswerColumns` |
| Convergence.EligibleReceiveIsIndexed | src/consumer/processor.py:43-44 | Under stable identity, in a serial run whose pair clock does not step back, an eligible RECEIVE event is indexed, and stays so |
| Convergence.ReceiveIndexedIsDetermined | src/consumer/processor.py:41-50 | Without a hidden RECEIVE leg all serial runs of the same changes whose pair clock does not step back index it or none does |
| Convergence.RunExists | src/consumer/processor.py:17-74 | Every sequence of arrivals can be processed |
| Convergence.HiddenLegLast | src/consumer/processor.py:43-50 | With a hidden RECEIVE leg, some run of the changes, at one clock reading, never indexes it |
| Convergence.LegFirst | src/consumer/processor.py:43-50 | If the order has a RECEIVE leg and an eligible event, some run of the changes, at one clock reading, indexes the leg |
| Convergence.EndToEnd | src/db/admin_tx.py:26-72 | Over all serial runs of the same admissible changes whose pair clock does not step back, a transaction has one answer if and only if it is not a non-leg part of an order whose RECEIVE leg is hidden |
| AnyClock.IndexedWithAnyClock | src/consumer/pairing.py:159-173 | Under any clock, unless the order has both a RECEIVE leg and an eligible event of another type, a serial run indexes the leg exactly if one of its events is eligible |
| AnyClock.RefusedByTheClock | src/consumer/pairing.py:159-173 | With an eligible event of another type, some serial run whose clock steps back never indexes the RECEIVE leg |
| AnyClock.EndToEndWithAnyClock | src/db/admin_tx.py:26-72 | Over all serial runs of the same admissible changes, under any clock, a transaction has one answer if and only if it is not a non-leg part of an order that has a RECEIVE leg and an eligible event of another type |
| AnyClock.LegsNeedNoClock | src/api/service.py:27-71 | PAYMENT and RECEIVE entries and entries that are not part of an order have one answer over all serial runs, under any clock |
| InterleavedAnswers.IndexedUnderConcurrency | src/consumer/pairing.py:106-174 | Unless the order has both a RECEIVE leg and an eligible event of another type, an interleaved run indexes the leg exactly if one of its events is eligible |
| InterleavedAnswers.StaleRun | src/consumer/pairing.py:106-174 | If the order has both, some interleaved run of the changes, at one clock reading, never indexes the leg: it is committed between the reads and the pair write of another worker |
| InterleavedAnswers.EndToEndUnderConcurrency | src/db/admin_tx.py:26-72 | Over all interleaved runs that commit the same admissible changes, and as much over those whose workers read one clock that does not step back, a transaction has one answer if and only if it is not a non-leg part of an order that has a RECEIVE leg and an eligible event of another type |
| Convergence.ViewsCoincide | src/api/service.py:201-210 | In serial runs of a fully eligible order whose pair clock does not step back the order's status is the status of each of its PAYMENT and RECEIVE entries |
| Convergence.ListingDoesNotMatter | src/consumer/pairing.py:115-141 | With one leg of each type a recomputation does not depend on the order of the listing |
| Convergence.SerialIndexesAgree | src/consumer/pairing.py:106-174 | Two serial runs of the same changes whose pair clocks do not step back hold the same pair for a fully eligible related id, up to amount, status and clock columns |
| Contract.FirstPresent | src/consumer/contract_normalizer.py:47-57 | The alias returned carries a value; none is returned exactly if no alias carries one |
| Contract.CandidatesMean | src/consumer/contract_normalizer.py:46-63 | The collected candidates start with the first alias with a value, and agree on a value exactly when all aliases with a value do |
| Contract.ResolveAliasValue | src/consumer/contract_normalizer.py:39-64 | The two loops return the first value, nothing, or a conflict exactly when two aliases carry unequal values |
| Contract.StripTrims | src/consumer/contract_normalizer.py:28-36 | Stripping removes exactly the white space on either side of a text |
| Contract.ResolveColumns | src/consumer/contract_normalizer.py:39-64 | A group resolves to the first of its aliases whose value is neither null nor a blank text, with that value and blanks around a text removed; to nothing if there is none; to a conflict exactly if two such values are unequal |
| Contract.MissingColumns | src/consumer/contract_normalizer.py:67-80 | A field is reported missing exactly if it is required and its key holds null or a blank text; the event-time sentinel stands for `event_time` |
| Contract.ValidateCoreRequired | src/consumer/contract_normalizer.py:67-80 | The required fields reported missing, in order, with the event-time sentinel read as `event_time` |
| Contract.NormalizePayloadForTopic | src/consumer/contract_normalizer.py:83-121 | The loop over the groups is the overlay of all resolved values on the original payload, followed by the required-field check; unknown topics are rejected first |
| Contract.OverlayPointwise | src/consumer/contract_normalizer.py:94-110 | With distinct canonical keys, each canonical key holds its group's resolved value or is untouched; every other key is untouched |
| Contract.NormalizeIsIdempotent | src/consumer/contract_normalizer.py:83-121 | When no canonical key is an alias of another group, normalising a normalised payload succeeds and changes nothing |
| Contract.ResolveReordered | src/consumer/contract_normalizer.py:57-64 | Reordering the aliases of a group changes neither whether it resolves nor, up to Python equality, to what |
| Contract.AliasOrderDoesNotMatter | src/consumer/contract_normalizer.py:83-121 | Permuting alias lists changes neither acceptance nor, up to Python equality, any value of the normalised payload; the payload is the same if it holds only texts and nulls |
| Contract.AliasOrderCanShow | src/consumer/contract_normalizer.py:57-64 | With aliases carrying two different values that Python holds equal, the stored one is the first listed; `1` and `true` are such values, and so are lists of them |
| Contract.AliasOrderMattersIff | src/consumer/contract_normalizer.py:94-110 | For an accepted payload, every permutation of the alias lists gives the same normalised payload if and only if in each group all aliases that carry a value carry the very same one |
| Events.DecodedIsWellFormed | src/consumer/events.py:79-90 | An accepted ledger event names a transaction, a wallet and a type |
| Fields.LedgerFields | src/consumer/events.py:76-128 | A ledger payload is accepted exactly if some event is its reading, and that event is the outcome: id, wallet, type, amounts, related id and type, both times, update time and version each come from their own key, by the source's fallbacks |
| Fields.OrderFields | src/consumer/events.py:142-187 | The same of order payloads |
| Fields.LedgerRejected | src/consumer/events.py:13-61 | The error of a rejected ledger payload names a field that is missing or blank, not numeric, no time, or a version that is no integer |
| Fields.OrderRejected | src/consumer/events.py:13-61 | The same of order payloads |
| Fields.LedgerTopicDecodes | src/consumer/contract_normalizer.py:83-121 | A payload on the ledger topic is normalised by the ledger's groups and required fields, and then becomes exactly the ledger change it reads as, or is rejected for a field that has no reading |
| Fields.OrderTopicDecodes | src/consumer/contract_normalizer.py:83-121 | The same of the order topic with the order's groups |
| Fields.OtherTopicsAreRejected | src/consumer/main.py:174-177 | A payload on any other topic is rejected as unsupported |
| Events.ShippedPointwise | configs/event_profiles.yaml:7-11 | Under the shipped groups, what the overlay leaves under the three canonical keys and everywhere else |
| Events.EventTimeIsCreatedAt | src/consumer/events.py:101-111 | Every ledger payload accepted under the shipped contract yields `event_time` equal to `created_at` |
| Events.SpellingDoesNotMatter | src/consumer/contract_normalizer.py:39-121 | Two ledger payloads that differ only in which alias carries each group's single value give the same event or both fail, if the version is null or truthy or keeps its alias |
| Events.SpellingMattersIff | src/consumer/events.py:115-116 | For an accepted ledger payload the respelled outcome is the same exactly if the version is null or truthy or keeps its alias |
| Events.OrderSpellingMattersIff | src/consumer/events.py:147-160 | The same for order payloads, whose only group is the version |
| AliasTables.DedupTexts | src/common/event_profiles.py:48-64 | The loop over one list keeps each stripped alias once and puts a missing canonical key first, or rejects the list |
| AliasTables.NormalizeAliases | src/common/event_profiles.py:36-67 | The loop over the mapping is the first pass, with its errors |
| AliasTables.DedupKeepsFirst | src/common/event_profiles.py:54-61 | Deduplication keeps exactly the elements, once each, in the order of first occurrence |
| AliasTables.GroupColumns | src/common/event_profiles.py:48-64 | A configured group lists exactly the configured texts, stripped, once each in the order of first occurrence, with the canonical key in front if they lack it; it is rejected exactly if it is no list, empty, or has an item that is no text or blank |
| AliasTables.AssignColumns | src/common/event_profiles.py:65-65 | A group of a known key takes the place of the earlier one, any other goes to the end, and all others stay |
| AliasTables.FirstPassIsCanonical | src/common/event_profiles.py:36-67 | Every list of the first pass is duplicate-free and stripped and contains its canonical key; canonical keys are distinct |
| AliasTables.StripAliases | src/consumer/contract_profile.py:73-82 | The inner loop of the second pass, which rejects a blank alias |
| AliasTables.ToAliasMap | src/consumer/contract_profile.py:57-85 | The loop of the second pass, with its errors |
| AliasTables.SecondPassIsIdentity | src/consumer/contract_profile.py:57-85 | The second pass changes nothing in a canonical table |
| AliasTables.PassesCompose | src/consumer/contract_profile.py:57-85 | On every accepted configuration the two passes together are the first |
| Delivery.StepInv | src/consumer/main.py:248-330 | Every step of the delivery machine keeps: offsets in order, nothing read is skipped, the history holds exactly the applied changes, copies come after their sources |
| Delivery.LetterStaysIff | src/consumer/dlq.py:49-61 | Along any run the file of dead letters only grows; a letter of the table stays exactly if no later pruning finds it too old, and no other letter takes its row id |
| Redelivery.NoSilentSkip | src/consumer/main.py:283-330 | In every reachable state each offset below a committed one is of a message that was applied or whose dead-letter write was attempted |
| Redelivery.ReplayRecovers | scripts/replay_dlq.py:34-106 | Once the partitions are drained and every valid dead letter has been published again, however often its copies failed in turn, each valid message has been applied in some copy |
| Redelivery.RecoveredHistory | src/consumer/main.py:283-330 | The history of a recovered node holds exactly the changes its messages ask for |
| Redelivery.RedeliveryIsOneDelivery | src/consumer/main.py:248-334 | Two recovered runs whose messages ask for the same changes, with any crashes, restarts and repetitions, hold the same rows, and answer a tx lookup alike exactly if, for an entry that reads the pair only, both know the RECEIVE leg of its order or neither does |
| Redelivery.RedeliveredIndexAgrees | src/consumer/pairing.py:106-174 | The same of the pair row of a fully eligible related id under a forward clock |
| Redelivery.AsksUpstream | scripts/replay_dlq.py:34-106 | If each replayed copy is invalid or asks for what its source asks for, replays ask for nothing the upstream messages did not ask for |
| Redelivery.ReplayIsDirectSuccess | src/consumer/main.py:312-330 | A run that dead-letters and replays, and to which no replay brought a new change, holds the same rows as one that never failed on the upstream messages, and answers alike under the same condition |
| Redelivery.ReplayInventsIff | scripts/replay_dlq.py:34-106 | No run commits a change that no upstream message asked for if and only if every copy that a replay may publish is invalid or asks for what its message asks for |
| Group.MoveInv | src/consumer/main.py:219-334 | Every move of a group, joins, crashes and reassigned partitions included, keeps: below a requested or stored offset and below each worker's position everything is applied or dead-lettered but the message in hand; open transactions handle the message in hand; the history holds exactly the applied changes |
| Group.GroupSkipsNothing | src/consumer/main.py:283-330 | Whoever crashes or loses a partition, below an offset the broker has stored each message was applied or its dead-letter write was attempted |
| Group.GroupInterleaves | src/db/session.py:43-55 | To the database every run of a group is a run of interleaved workers, so the theorems about those hold of it |
| Group.GroupRecovers | scripts/replay_dlq.py:34-106 | A group that has drained its partitions, and whose valid dead letters were asked for again, has applied every valid message in some copy |
| Group.GroupIsOneConsumer | src/consumer/main.py:215-334 | A recovered group, however its workers' statements interleave and whatever crashes, holds the rows of a single recovered consumer whose messages ask for the same changes, and answers a tx lookup alike exactly if, for an entry that reads the pair only, both know the RECEIVE leg or neither does |
| Group.GroupsConverge | src/consumer/main.py:215-334 | The same of two groups |
| GroupOfOne.ConsumerIsAGroup | src/consumer/main.py:215-334 | Every run of the single consumer is one of a group of one worker, statement by statement, with the same logs, stored offsets, applied and dead-lettered messages and tables |
| Utf8.RoundTripIffWellFormed | src/consumer/main.py:317-321 | Decoding with replacement and encoding again gives the bytes back if and only if they are well-formed UTF-8, read off the bytes |
| Utf8.EncodeRoundTrip | scripts/replay_dlq.py:58-61 | Encoding any text gives well-formed bytes that decode to it |
| Utf8.SkipsMaximalPart | src/consumer/main.py:317-321 | One replacement character stands for the longest beginning of a character that is there, and for one byte if there is none |
| Dlq.FileRoundTrip | src/consumer/main.py:312-328 | A file replay gives the message back unchanged exactly if it has a topic and its value is not empty and well-formed UTF-8 |
| Dlq.TableRoundTrip | src/consumer/dlq.py:30-46 | A table replay also needs the topic to be free of surrounding blanks |
| Dlq.RepublishedExactly | scripts/replay_dlq.py:58-63 | When a replay of the file, or of the table, gives a consumed message back unchanged |
| Dlq.StrayByteComesBack | src/consumer/main.py:317-321 | A message with a stray byte comes back from either store as the message with a replacement character in its place |
| Dlq.LetterColumns | src/consumer/dlq.py:30-46 | The recorded row holds the message's topic, partition, offset, decoded value and error code in their own columns, with a blank topic or code written as unknown |
| Dlq.FileGivesBack | scripts/replay_dlq.py:44-67 | Appending a dead letter to any file that loads adds exactly the original message to what a replay publishes, under that exact condition |
| Dlq.TableGivesBack | scripts/replay_dlq.py:101-104 | The same of a row added to the table |
| Dlq.LinesAppend | src/consumer/dlq.py:26-27 | Text appended to a file of whole lines adds its lines and changes no earlier one |
| Dlq.ReplayFile | scripts/replay_dlq.py:34-67 | The loop publishes the wanted records in order up to the limit, and raises on a line that does not load unless one more wanted record than the limit came before it |
| Dlq.ReplayLines | scripts/replay_dlq.py:44-65 | The same, on the lines of the file |
| Dlq.ReplayTable | scripts/replay_dlq.py:70-106 | The rows are filtered, sorted and limited before those without payload are skipped |
| Dlq.Selection | scripts/replay_dlq.py:82-99 | The rows the filter keeps, each as often as it is stored, by arrival time and then id |
| Dlq.TableReplayIsComplete | scripts/replay_dlq.py:70-106 | An unlimited table replay publishes exactly what the rows kept by the filter hold |
| Dlq.SelectionColumns | scripts/replay_dlq.py:82-99 | A row is replayed exactly if it is stored, of one of the topics, and within the bounds on time and id, all inclusive |
| Dlq.SelectionSorted | scripts/replay_dlq.py:94-96 | Rows are replayed by arrival time and then id |
| Letters.WantedColumns | scripts/replay_dlq.py:44-63 | A file replay wants exactly the records with a topic, among those asked for, and a payload, each as that topic's message with the payload as UTF-8 |
| Letters.StoreWrites | src/consumer/main.py:85-96 | After a dead-letter write the file and table still hold, in order, exactly the records of the letters stored in each |
| Letters.PruneMatches | src/consumer/dlq.py:54-61 | Pruning takes from the table exactly the rows of the letters that are too old |
| Letters.InFileIsWanted | scripts/replay_dlq.py:44-65 | The message of a letter stored in the file is among what the next unlimited replay publishes if it survives |
| Letters.InTableIsPublished | scripts/replay_dlq.py:70-104 | The same of the table |
| Letters.FileSource | scripts/replay_dlq.py:44-65 | Whatever a replay of the file publishes comes from a letter stored there |
| Letters.TableSource | scripts/replay_dlq.py:70-104 | Whatever a replay of the table publishes comes from a letter stored there |
| Letters.FileReplaysAll | scripts/replay_dlq.py:34-67 | An unlimited replay of the file publishes every surviving letter in it again, after the original |
| Letters.TableReplaysAll | scripts/replay_dlq.py:70-106 | The same of the table |
| Dlq.DeadLetters.WriteFile | src/consumer/dlq.py:23-27 | The file gains exactly one line, and still loads |
| Dlq.DeadLetters.WriteTable | src/consumer/dlq.py:30-46 | The table gains exactly the row of the record |
| Dlq.DeadLetters.WritePayload | src/consumer/main.py:85-96 | The table if configured and working, else the file, else nothing; never both |
| Dlq.DeadLetters.Prune | src/consumer/dlq.py:49-61 | Exactly the rows that arrived more than so many days of 24 hours ago go, none if the retention is zero or negative, and their number is returned |
| Handling.Transact | src/db/session.py:43-55 | The change is applied as one step, or the tables are as before |
| Handling.DecodePayload | src/consumer/main.py:174-205 | Topic check, normalisation and parsing give the decoded change or the failure that says why; `LedgerTopicDecodes` and `OrderTopicDecodes` say which key each of its fields is read from |
| Handling.HandlePayload | src/consumer/main.py:166-212 | Success means one step of the decoded change; failure means untouched tables; without a database failure it succeeds exactly on valid payloads |
| Handling.Codes | src/consumer/main.py:142-149 | The code a failed message is recorded under: unsupported topic off both topics, contract violation for disagreeing aliases, parse error for a body that is no JSON object or a field without a reading, internal error for all else |
| Consumer.Process.constructor | src/consumer/main.py:223-229 | A new process is in the machine's initial state |
| Consumer.MaybePrune | src/consumer/main.py:69-82 | Exactly the letters that are more than the retention old are deleted, if letters go to the table and nothing raises; otherwise none |
| Consumer.Process.Prune | src/consumer/main.py:222-222 | A start takes the machine step that prunes the table by its cutoff |
| Consumer.Process.Poll | src/consumer/main.py:252-259 | Polling takes the machine step that reads the message at the position |
| Consumer.Process.Handle | src/consumer/main.py:283-299 | From bytes to a committed transaction, or to a failure that left the tables unchanged |
| Consumer.Process.WriteDeadLetter | src/consumer/main.py:312-328 | The dead-letter write is the machine's, and what it adds is exactly the record of this message and error, in the table or else the file |
| Consumer.Process.Commit | src/consumer/main.py:300-300 | The offset after the message is asked to be committed, only after it was applied or dead-lettered |
| Consumer.Process.Attempt | src/consumer/main.py:283-303 | The `try` block runs poll, handle and commit in this order; a failure after the transaction leaves it applied |
| Consumer.Process.Escalate | src/consumer/main.py:304-330 | The `except` block records the failure with its code before it commits, and escapes exactly on an undecodable key or a failing commit |
| Consumer.Process.OnMessage | src/consumer/main.py:283-330 | One message is dealt with: committed once and its next offset asked for; or its exact record dead-lettered and then the offset asked for; or, if the key does not decode or the second commit raises, the process resumes at the stored offsets. Without a fault a valid message always takes the first way |
| Consumer.Process.ReplayFromFile | scripts/replay_dlq.py:34-67 | A replay of the process's dead-letter file is a series of machine steps that adds exactly the wanted messages to the logs; unlimited, it publishes every surviving letter of the file again |
| Consumer.Process.ReplayFromTable | scripts/replay_dlq.py:70-106 | The same of the table |
| Consumer.Process.Turn | src/consumer/main.py:248-270 | A delivery with a message at the position is dealt with as `OnMessage` says, and ends the loop exactly if its failure escapes; an idle poll ends it exactly if `max_idle` has passed since the last success; a poll error and an interrupt end it; what others do leaves the consumer where it is |
| Consumer.Process.Loop | src/consumer/main.py:247-331 | Unless something is raised, after any script whose deliveries find their messages in the logs from the start, the position in each partition has moved past its deliveries, the offset after them has been asked for, and each of their messages is applied or dead-lettered; the loop ends only with the script, at the quota, or by the occurrence that says so; k fault-free deliveries of valid messages within the quota commit all k changes in order and return k |
| Consumer.Process.Run | src/consumer/main.py:215-334 | Equal topics raise before anything happens; otherwise a run prunes the dead-letter table, then polls and closes. It ends for the reason it names, counts its successes, never above the quota, and commits all k messages of a fault-free script of k deliveries |
| Turns.TurnAlong | src/consumer/main.py:248-330 | A turn that goes on moves the position past its delivery, asks for the offset after it, and leaves the message applied or dead-lettered |
| Turns.CleanTurnApplies | src/consumer/main.py:283-303 | A fault-free delivery of a valid message is a success that adds exactly its change to the history |
| Processes.NothingPassedBy | src/consumer/main.py:300-330 | Below a stored offset of a process each message was applied or its dead-letter write was attempted |
| Processes.FileLetterIsReplayable | src/consumer/main.py:85-96 | A dead letter that reached the file is there for good, and the next unlimited replay publishes the very message if it survives |
| Processes.TableLetterIsReplayable | src/consumer/main.py:69-96 | The row of a dead letter that reached the table is there exactly until a start finds it older than the retention; while it is there the next unlimited replay publishes the very message if it survives |
| Processes.ReplaysInventIff | scripts/replay_dlq.py:53-63 | No delivery run under a configuration, with letters in either store, commits a change nobody sent if and only if each letter that its store alters comes back invalid or asking for what it asked for before |
| Processes.StrayByteInvents | src/consumer/main.py:285-321 | A message that one stray byte makes invalid, and that would be accepted with a replacement character in the byte's place, makes some delivery run commit a change nobody sent |
| Processes.AStrayByteIsEnough | src/consumer/main.py:285-321 | For every profile that accepts some payload there is such a configuration, whose parser accepts no bytes that are not UTF-8 |
| Processes.DecodedHistory | src/consumer/events.py:79-90 | All events a process has committed name a transaction, a wallet and a type |
| Processes.ProcessesConverge | src/consumer/main.py:215-334 | Two recovered processes whose messages ask for the same changes hold the same rows, and answer a tx lookup alike exactly if, for an entry that reads the pair only, both know the RECEIVE leg of its order or neither does |
| Processes.ReplayedProcessIsDirect | scripts/replay_dlq.py:34-106 | A process whose failures were dead-lettered and replayed unharmed, whatever became of letters that are invalid, holds the same rows as one that never failed on the upstream messages, and answers alike under the same condition |
| Backfill.BackfillLine | src/consumer/main.py:371-416 | A line is committed only if valid and due, as its own reading at the clock; without a database failure exactly if valid and due: a ledger line by its event time, an order line by its update time or, without one, its creation time, bounds included. A line not due changes nothing; any other has its exact record dead-lettered |
| Backfill.BackfillFile | src/consumer/main.py:369-416 | A file is a serial run of selected changes, of all of them without database failures; a line that is no JSON object ends it after exactly the lines before it; letters are only added, under the file's name |
| Backfill.BackfillGiven | src/consumer/main.py:368-474 | A file that was not given selects nothing; one that was is backfilled |
| Backfill.RunBackfill | src/consumer/main.py:337-474 | Equal topics raise before anything is touched; otherwise the dead-letter table is pruned, then the ledger file and the order file are read; without database failures exactly the selected changes are committed; the letters added are those of the ledger file under `backfill-ledger` and then those of the order file under `backfill-payment-order` |
| Backfill.SelectionColumns | src/consumer/main.py:357-436 | A change is selected exactly if a line of its topic's file reads as it and the window holds its event time, or for an order its update time or else its creation time, bounds included |
| Backfill.SelectionByTime | src/consumer/main.py:357-362 | A window selects exactly the changes of the files whose time it holds, bounds included |
| Backfill.HullBounds | src/consumer/main.py:357-362 | The hull of windows starts at the least time they hold and ends at the greatest, or is open where they are |
| Backfill.HullIsExactIff | src/consumer/main.py:357-362 | Windows hold together exactly what their hull holds if and only if they miss no time between two that they hold |
| Backfill.ConvexIffGapless | src/consumer/main.py:357-362 | That is so if and only if each window that does not end last is followed by a time some window holds |
| Backfill.ChunksSelectTheHull | src/consumer/main.py:337-474 | Backfilling windows that leave no gap one by one, nested or overlapping as they may be, selects what one backfill of the hull selects |
| Backfill.BackfillCommutes | src/consumer/main.py:337-474 | Backfills over windows that leave no gap, interleaved statement by statement with live workers, leave the rows of live consumption plus one backfill of the hull, and the same answer to a tx lookup exactly if, for an entry that reads the pair only, both know the RECEIVE leg of its order or neither does |
| Backfill.BackfillLettersAreNotConsumed | src/consumer/main.py:403-415 | A replay of either store publishes a backfill's dead letter under a topic the consumer rejects |

## Left out

- EndToEnd: covers serial runs whose pair clock does not step back; `EndToEndWithAnyClock` and `EndToEndUnderConcurrency` cover the others.
- SpellingDoesNotMatter: excludes versions that are falsy and not null and that change their alias, where the claim is false; `SpellingMattersIff` has the exact condition.
- AliasOrderDoesNotMatter: equality of numbers and booleans is Python's, because the stored value may change between equal ones; `AliasOrderMattersIff` has the exact condition.
- SerialIndexesAgree: pair `amount` and `status` are not compared, because an order event does not recompute the pair.
- RedeliveryIsOneDelivery: compares rows without `ingested_at` and without the clock-written pair columns, which a redelivery rewrites.
- SecondPass: list containers other than text, which the first pass has already rejected, are not modelled in the second.
- Clock readings in the histories of `Interleaving`: only the arrival time of the upsert is recorded, because a recomputation's readings play no part in the theorems about interleaved runs.
- ISO-8601, Decimal and JSON syntax and `str` of non-text values are parameters; amounts and times are integers, and floats are finite, so NaN, which is not equal to itself, is not modelled. Lists and objects are opaque: which of them Python's element-wise equality holds equal is given (`Tree.alike`), not computed.
- A replay run by the process model finds only that process's own letters in the store, and only its own starts prune the table; records left by a backfill or another process would be published as further messages, and their starts would prune too.
- Text order of `tx_id` in the peer scan is by code point; the database's collation is not modelled.
- In `Delivery` a rebalance is a restart of the consumer at the stored offsets; `Group` has reassignment partition by partition. The offset commit is asynchronous in both.
- GroupIsOneConsumer: a group's dead-letter stores are not followed row by row; its replays are messages produced again.
- A write to the dead-letter file is one append of a whole line; a torn write is not modelled.
- Reading the key, headers and correlation id of a message is reduced to whether decoding the key raises.
- Loading the required-field lists, environment configuration and YAML reading would add only easy members.
- Metrics, lag, freshness, tracing and logging have no effect on the tables.
- The wallet list, the listing order of the order view, status groups, `data_lag_sec` and the HTTP layer are not modelled; the wallet list never receives a pair.
- `upsert_payment_pair` is not called by any modelled path.
- The read side's queries are functions of a table state rather than methods on the session, because they change nothing.
