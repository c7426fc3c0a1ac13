/**
 The three tables and the statements of the consumer's transaction
 (src/consumer/processor.py, src/consumer/pairing.py, src/db/upsert.py).

 `LedgerStep` and `OrderStep` say what one processed event does to the tables; the class
 `Tables` runs the statements one by one and is proved to take exactly those steps.
 */
module Store {
  import opened Wrappers
  import opened LatestWins
  import opened Pairing

  type LedgerTable = map<string, LedgerRow>
  type OrderTable = map<string, OrderRow>
  type PairTable = map<string, PairRow>

  datatype Db = Db(ledger: LedgerTable, orders: OrderTable, pairs: PairTable)

  const EMPTY := Db(map[], map[], map[])

  /** The clock readings taken while one event is processed, in this order. */
  datatype Clock = Clock(ingested: int, computed: int, paired: int)

  datatype Change = LedgerChange(ledgerEvent: LedgerEvent) | OrderChange(orderEvent: OrderEvent)

  // ---------------------------------------------------------------- one event's effect

  predicate Matches(row: LedgerRow, relatedId: string) {
    row.event.body.relatedId == Some(relatedId)
  }

  /** What `SELECT ... WHERE related_id = ...` may return: every matching row once, in any order. */
  ghost predicate Listing(rows: seq<LedgerRow>, ledger: LedgerTable, relatedId: string) {
    && (forall row | row in rows :: row.event.key in ledger && ledger[row.event.key] == row && Matches(row, relatedId))
    && (forall key | key in ledger && Matches(ledger[key], relatedId) :: ledger[key] in rows)
    && (forall i, j | 0 <= i < j < |rows| :: rows[i].event.key != rows[j].event.key)
  }

  /** Events that trigger a recomputation of the pair. */
  predicate Eligible(e: LedgerEvent) {
    Truthy(e.body.relatedId) && (e.body.relatedType.None? || e.body.relatedType.value == PAYMENT_ORDER)
  }

  function Lookup<T>(table: map<string, T>, key: string): Option<T> {
    if key in table then Some(table[key]) else None
  }

  function PairStamp(row: PairRow): Stamp { Stamp(Some(row.updatedAt), None, Some(row.ingestedAt)) }

  function PutPair(pairs: PairTable, relatedId: string, incoming: PairRow): PairTable {
    if relatedId in pairs && !Accepts(PairStamp(incoming), PairStamp(pairs[relatedId]), false) then pairs
    else pairs[relatedId := incoming]
  }

  predicate PairComplete(pairs: PairTable, relatedId: string) {
    relatedId in pairs && pairs[relatedId].pair.Complete()
  }

  /** The pair table after a recomputation that read `rows`. */
  function Refresh(
    pairs: PairTable, orders: OrderTable, relatedId: string, rows: seq<LedgerRow>, clock: Clock): PairTable {
    if rows == [] then pairs
    else
      var snapshot := Compute(rows, Lookup(orders, relatedId), clock.computed);
      if ShouldUpdatePair(PairComplete(pairs, relatedId), snapshot.complete)
      then PutPair(pairs, relatedId, PairRow(snapshot.pair, clock.paired, clock.paired))
      else pairs
  }

  /** What the recomputation reports: nothing without rows, and a skip when the guard refuses. */
  function Report(
    pairs: PairTable, orders: OrderTable, relatedId: string, rows: seq<LedgerRow>, clock: Clock)
    : Option<PairingSnapshot> {
    if rows == [] then None
    else
      var snapshot := Compute(rows, Lookup(orders, relatedId), clock.computed);
      Some(snapshot.(skipped := !ShouldUpdatePair(PairComplete(pairs, relatedId), snapshot.complete)))
  }

  ghost predicate LedgerStep(db: Db, e: LedgerEvent, clock: Clock, db': Db) {
    && db'.ledger == Put(db.ledger, Row(e, clock.ingested))
    && db'.orders == db.orders
    && (if Eligible(e) then
          exists rows :: Listing(rows, db'.ledger, e.body.relatedId.value)
                         && db'.pairs == Refresh(db.pairs, db.orders, e.body.relatedId.value, rows, clock)
        else db'.pairs == db.pairs)
  }

  ghost predicate OrderStep(db: Db, e: OrderEvent, clock: Clock, db': Db) {
    db' == db.(orders := Put(db.orders, Row(e, clock.ingested)))
  }

  ghost predicate Step(db: Db, change: Change, clock: Clock, db': Db) {
    match change
    case LedgerChange(e) => LedgerStep(db, e, clock, db')
    case OrderChange(e) => OrderStep(db, e, clock, db')
  }

  // ---------------------------------------------------------------- one event's effect, column by column

  /** Some row of the ledger has that `related_id`. */
  ghost predicate HasRow(ledger: LedgerTable, r: string) {
    exists key :: key in ledger && ledger[key].event.body.relatedId == Some(r)
  }

  /** And that `entry_type`. */
  ghost predicate HasTyped(ledger: LedgerTable, r: string, entryType: string) {
    exists key ::
      key in ledger && ledger[key].event.body.relatedId == Some(r) && ledger[key].event.body.entryType == entryType
  }

  /** A leg names such a row, with its wallet, exactly if there is one. */
  ghost predicate NamesTyped(
    txId: Option<string>, wallet: Option<string>, ledger: LedgerTable, r: string, entryType: string) {
    if HasTyped(ledger, r, entryType) then
      && txId.Some? && txId.value in ledger
      && var body := ledger[txId.value].event.body;
         body.relatedId == Some(r) && body.entryType == entryType && wallet == Some(body.walletId)
    else txId.None? && wallet.None?
  }

  ghost predicate LatestIn(ledger: LedgerTable, r: string, time: int) {
    && (exists key ::
        key in ledger && ledger[key].event.body.relatedId == Some(r) && ledger[key].event.body.eventTime == time)
    && forall key | key in ledger && ledger[key].event.body.relatedId == Some(r) ::
         ledger[key].event.body.eventTime <= time
  }

  /** The columns of a pair that was computed from these tables. */
  ghost predicate PairColumns(pair: PairBody, r: string, ledger: LedgerTable, orders: OrderTable) {
    && NamesTyped(pair.paymentTxId, pair.payerWalletId, ledger, r, "PAYMENT")
    && NamesTyped(pair.receiveTxId, pair.payeeWalletId, ledger, r, "RECEIVE")
    && pair.amount == (if r in orders then Some(orders[r].event.body.amount)
                       else if pair.paymentTxId.Some? then Some(ledger[pair.paymentTxId.value].event.body.amount)
                       else if pair.receiveTxId.Some? then Some(ledger[pair.receiveTxId.value].event.body.amount)
                       else None)
    && pair.status == (if r in orders then Some(orders[r].event.body.status) else None)
    && pair.eventTime.Some? && LatestIn(ledger, r, pair.eventTime.value)
  }

  /** The stored pair is kept: it is stamped later, or it has both legs and the ledger lacks one. */
  ghost predicate PairIsKept(pairs: PairTable, r: string, clock: Clock, ledger: LedgerTable) {
    r in pairs
    && (|| clock.paired < pairs[r].updatedAt
        || (&& pairs[r].pair.paymentTxId.Some? && pairs[r].pair.receiveTxId.Some?
            && !(HasTyped(ledger, r, "PAYMENT") && HasTyped(ledger, r, "RECEIVE"))))
  }

  /** The pair of `r` was computed anew, unless the stored one is kept, and no other pair changed. */
  ghost predicate PairRenewed(
    pairs: PairTable, r: string, clock: Clock, ledger: LedgerTable, orders: OrderTable, pairs': PairTable) {
    && pairs'.Keys == pairs.Keys + {r}
    && (forall other | other in pairs && other != r :: pairs'[other] == pairs[other])
    && (if PairIsKept(pairs, r, clock, ledger) then pairs'[r] == pairs[r]
        else
          && PairColumns(pairs'[r].pair, r, ledger, orders)
          && pairs'[r].updatedAt == clock.paired && pairs'[r].ingestedAt == clock.paired)
  }

  /** The event has a `related_id`, and no other `related_type` than PAYMENT_ORDER. */
  predicate AsksForPair(e: LedgerEvent) {
    && e.body.relatedId.Some? && e.body.relatedId.value != ""
    && (e.body.relatedType == None || e.body.relatedType == Some("PAYMENT_ORDER"))
  }

  /** What an event does to the pair table, read off its columns. */
  ghost predicate PairsFollow(db: Db, e: LedgerEvent, clock: Clock, db': Db) {
    if AsksForPair(e) && HasRow(db'.ledger, e.body.relatedId.value) then
      PairRenewed(db.pairs, e.body.relatedId.value, clock, db'.ledger, db'.orders, db'.pairs)
    else db'.pairs == db.pairs
  }

  lemma ListedTyped(rows: seq<LedgerRow>, ledger: LedgerTable, r: string, entryType: string)
    requires Listing(rows, ledger, r)
    ensures FirstOfType(rows, entryType).Some? <==> HasTyped(ledger, r, entryType)
    ensures FirstOfType(rows, entryType).Some? ==>
              var row := FirstOfType(rows, entryType).value;
              row.event.key in ledger && ledger[row.event.key] == row && Matches(row, r) && TypeOf(row) == entryType
  {
    if HasTyped(ledger, r, entryType) {
      var key :| key in ledger && ledger[key].event.body.relatedId == Some(r)
        && ledger[key].event.body.entryType == entryType;
      assert Matches(ledger[key], r) && ledger[key] in rows && TypeOf(ledger[key]) == entryType;
    }
  }

  lemma ListedLatest(rows: seq<LedgerRow>, ledger: LedgerTable, r: string)
    requires Listing(rows, ledger, r) && rows != []
    ensures HasRow(ledger, r) && LatestIn(ledger, r, LatestTime(rows).value)
  {
    assert rows[0] in rows;
    var row :| row in rows && TimeOf(row) == LatestTime(rows).value;
    assert ledger[row.event.key] == row;
    forall key | key in ledger && ledger[key].event.body.relatedId == Some(r)
      ensures ledger[key].event.body.eventTime <= LatestTime(rows).value
    {
      assert Matches(ledger[key], r) && ledger[key] in rows;
      assert TimeOf(ledger[key]) <= LatestTime(rows).value;
    }
  }

  lemma EmptyListing(rows: seq<LedgerRow>, ledger: LedgerTable, r: string)
    requires Listing(rows, ledger, r) && rows == []
    ensures !HasRow(ledger, r)
  {
    if HasRow(ledger, r) {
      var key :| key in ledger && ledger[key].event.body.relatedId == Some(r);
      assert Matches(ledger[key], r);
    }
  }

  lemma ComputeColumns(rows: seq<LedgerRow>, ledger: LedgerTable, orders: OrderTable, r: string, now: int)
    requires Listing(rows, ledger, r) && rows != []
    ensures var snapshot := Compute(rows, Lookup(orders, r), now);
            && PairColumns(snapshot.pair, r, ledger, orders)
            && (snapshot.complete <==> HasTyped(ledger, r, "PAYMENT") && HasTyped(ledger, r, "RECEIVE"))
  {
    ListedTyped(rows, ledger, r, "PAYMENT");
    ListedTyped(rows, ledger, r, "RECEIVE");
    ListedLatest(rows, ledger, r);
  }

  lemma RefreshColumns(
    pairs: PairTable, orders: OrderTable, r: string, rows: seq<LedgerRow>, clock: Clock, ledger: LedgerTable)
    requires Listing(rows, ledger, r) && rows != []
    ensures PairRenewed(pairs, r, clock, ledger, orders, Refresh(pairs, orders, r, rows, clock))
  {
    ComputeColumns(rows, ledger, orders, r, clock.computed);
  }

  /** The step of a ledger event does exactly that. */
  lemma TriggerColumns(db: Db, e: LedgerEvent, clock: Clock, db': Db)
    requires LedgerStep(db, e, clock, db')
    ensures PairsFollow(db, e, clock, db')
  {
    if Eligible(e) {
      var r := e.body.relatedId.value;
      var rows :| Listing(rows, db'.ledger, r) && db'.pairs == Refresh(db.pairs, db.orders, r, rows, clock);
      if rows == [] {
        EmptyListing(rows, db'.ledger, r);
      } else {
        ListedLatest(rows, db'.ledger, r);
        RefreshColumns(db.pairs, db.orders, r, rows, clock, db'.ledger);
      }
    }
  }

  /** The stored row is no newer: by update time if the arriving row has one, else by version if it has one, and
      else by arrival, but then only if the stored row has neither. */
  predicate NoNewer<T>(stored: Row<T>, arriving: Row<T>) {
    if arriving.event.updatedAt.Some? then
      stored.event.updatedAt.None? || stored.event.updatedAt.value <= arriving.event.updatedAt.value
    else if arriving.event.version.Some? then
      stored.event.version.None? || stored.event.version.value <= arriving.event.version.value
    else stored.event.updatedAt.None? && stored.event.version.None? && stored.ingestedAt <= arriving.ingestedAt
  }

  /** An upsert touches the row of its key alone, and replaces it unless that row is newer. */
  lemma PutColumns<T>(table: map<string, Row<T>>, arriving: Row<T>)
    ensures var key, table' := arriving.event.key, Put(table, arriving);
            && table'.Keys == table.Keys + {key}
            && (forall other | other in table && other != key :: table'[other] == table[other])
            && table'[key] == if key in table && !NoNewer(table[key], arriving) then table[key] else arriving
  {}

  // ---------------------------------------------------------------- the statements themselves

  /** The tables as the session sees them. A statement that raises leaves the session's work
      where it was; undoing it is the transaction's business (`Rollback`). */
  class Tables {
    var ledger: LedgerTable
    var orders: OrderTable
    var pairs: PairTable

    constructor ()
      ensures State() == EMPTY
    {
      ledger, orders, pairs := map[], map[], map[];
    }

    function State(): Db
      reads this
    {
      Db(ledger, orders, pairs)
    }

    /** Leaves the session with the state it had when the transaction began. */
    method Rollback(before: Db)
      modifies this
      ensures State() == before
    {
      ledger, orders, pairs := before.ledger, before.orders, before.pairs;
    }

    method UpsertLedgerRow(row: LedgerRow)
      modifies this`ledger
      ensures ledger == Put(old(ledger), row)
    {
      var key := row.event.key;
      var replace := true;
      if key in ledger {
        var guard := BuildPredicate({UpdatedAt, SourceVersion, IngestedAt});
        replace := Eval(guard.value, StampOf(row), StampOf(ledger[key])) == Yes;
      }
      if replace {
        ledger := ledger[key := row];
      }
    }

    method UpsertOrderRow(row: OrderRow)
      modifies this`orders
      ensures orders == Put(old(orders), row)
    {
      var key := row.event.key;
      var replace := true;
      if key in orders {
        var guard := BuildPredicate({UpdatedAt, SourceVersion, IngestedAt});
        replace := Eval(guard.value, StampOf(row), StampOf(orders[key])) == Yes;
      }
      if replace {
        orders := orders[key := row];
      }
    }

    /** The pair table has no version column, so its guard is built without one. */
    method UpsertPairRow(relatedId: string, row: PairRow)
      modifies this`pairs
      ensures pairs == PutPair(old(pairs), relatedId, row)
    {
      var replace := true;
      if relatedId in pairs {
        var guard := BuildPredicate({UpdatedAt, IngestedAt});
        replace := Eval(guard.value, PairStamp(row), PairStamp(pairs[relatedId])) == Yes;
      }
      if replace {
        pairs := pairs[relatedId := row];
      }
    }

    /** No ORDER BY: callers learn only that the result is a listing. */
    method SelectByRelatedId(relatedId: string) returns (rows: seq<LedgerRow>)
      requires Keyed(ledger)
      ensures Listing(rows, ledger, relatedId)
    {
      rows := [];
      var left := ledger.Keys;
      while left != {}
        invariant left <= ledger.Keys
        invariant forall row | row in rows ::
            row.event.key in ledger && row.event.key !in left && ledger[row.event.key] == row && Matches(row, relatedId)
        invariant forall key | key in ledger && key !in left && Matches(ledger[key], relatedId) :: ledger[key] in rows
        invariant forall i, j | 0 <= i < j < |rows| :: rows[i].event.key != rows[j].event.key
        decreases left
      {
        var key :| key in left;
        left := left - {key};
        if Matches(ledger[key], relatedId) {
          rows := rows + [ledger[key]];
        }
      }
    }

    /** Statements 1 to 4 of the transaction; `failsAt` is the first statement that raises. */
    method UpdatePairing(
      relatedId: string, clock: Clock, failsAt: nat) returns (ok: bool, snapshot: Option<PairingSnapshot>)
      requires Keyed(ledger)
      modifies this`pairs
      ensures ok ==> exists rows :: && Listing(rows, ledger, relatedId)
                                    && pairs == Refresh(old(pairs), orders, relatedId, rows, clock)
                                    && snapshot == Report(old(pairs), orders, relatedId, rows, clock)
      ensures failsAt > 4 ==> ok
    {
      ok, snapshot := false, None;
      if failsAt == 1 { return; }
      var rows := SelectByRelatedId(relatedId);
      assert Listing(rows, ledger, relatedId);
      if rows == [] {
        ok := true;
        return;
      }
      if failsAt == 2 { return; }
      var order := Lookup(orders, relatedId);
      var computed := ComputePairing(rows, order, clock.computed);
      if failsAt == 3 { return; }
      var existing := Lookup(pairs, relatedId);
      var existingComplete := existing.Some? && existing.value.pair.paymentTxId.Some?
        && existing.value.pair.receiveTxId.Some?;
      if !ShouldUpdatePair(existingComplete, computed.complete) {
        ok, snapshot := true, Some(computed.(skipped := true));
        return;
      }
      if failsAt == 4 { return; }
      UpsertPairRow(relatedId, PairRow(computed.pair, clock.paired, clock.paired));
      ok, snapshot := true, Some(computed);
      assert pairs == Refresh(old(pairs), orders, relatedId, rows, clock);
    }

    /** Processes a ledger event; statement 0 is the ledger upsert. */
    method UpsertLedgerEntry(e: LedgerEvent, clock: Clock, failsAt: nat)
      returns (ok: bool, missingVersion: bool, snapshot: Option<PairingSnapshot>)
      requires Keyed(ledger)
      modifies this
      ensures ok ==> LedgerStep(old(State()), e, clock, State()) && missingVersion == !HasMetadata(e)
      ensures ok ==> PairsFollow(old(State()), e, clock, State())
      ensures failsAt > 4 ==> ok
    {
      ghost var before := State();
      ok, missingVersion, snapshot := false, e.updatedAt.None? && e.version.None?, None;
      if failsAt == 0 { return; }
      UpsertLedgerRow(Row(e, clock.ingested));
      if Truthy(e.body.relatedId) && (e.body.relatedType.None? || e.body.relatedType == Some(PAYMENT_ORDER)) {
        ok, snapshot := UpdatePairing(e.body.relatedId.value, clock, failsAt);
      } else {
        ok := true;
      }
      if ok {
        TriggerColumns(before, e, clock, State());
      }
    }

    method UpsertPaymentOrder(e: OrderEvent, clock: Clock, failsAt: nat) returns (ok: bool, missingVersion: bool)
      modifies this`orders
      ensures ok ==> OrderStep(old(State()), e, clock, State()) && missingVersion == !HasMetadata(e)
      ensures failsAt > 4 ==> ok
    {
      ok, missingVersion := false, e.updatedAt.None? && e.version.None?;
      if failsAt == 0 { return; }
      UpsertOrderRow(Row(e, clock.ingested));
      ok := true;
    }
  }
}
