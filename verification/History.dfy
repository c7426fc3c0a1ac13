/**
 Histories of processed events, what they determine in the tables, and the hypotheses the
 theorems put on them. A history says which changes were committed and when; it is shared
 by the serial, the interleaved and the delivery model.
 */
module History {
  import opened Wrappers
  import opened LatestWins
  import opened Pairing
  import opened Store

  datatype Arrival = Arrival(change: Change, clock: Clock)

  /** The ledger upserts of a history, in order. */
  function LedgerArrivals(log: seq<Arrival>): seq<LedgerRow> {
    if log == [] then []
    else
      var last := log[|log| - 1];
      LedgerArrivals(log[..|log| - 1])
      + if last.change.LedgerChange? then [Row(last.change.ledgerEvent, last.clock.ingested)] else []
  }

  function OrderArrivals(log: seq<Arrival>): seq<OrderRow> {
    if log == [] then []
    else
      var last := log[|log| - 1];
      OrderArrivals(log[..|log| - 1])
      + if last.change.OrderChange? then [Row(last.change.orderEvent, last.clock.ingested)] else []
  }

  ghost function Changes(log: seq<Arrival>): set<Change> {
    set arrival | arrival in log :: arrival.change
  }

  ghost function LedgerEvents(changes: set<Change>): set<LedgerEvent> {
    set change | change in changes && change.LedgerChange? :: change.ledgerEvent
  }

  ghost function OrderEvents(changes: set<Change>): set<OrderEvent> {
    set change | change in changes && change.OrderChange? :: change.orderEvent
  }

  lemma ChangesSnoc(log: seq<Arrival>, last: Arrival)
    ensures Changes(log + [last]) == Changes(log) + {last.change}
    ensures LedgerArrivals(log + [last])
            == if last.change.LedgerChange? then
              LedgerArrivals(log) + [Row(last.change.ledgerEvent, last.clock.ingested)]
               else LedgerArrivals(log)
    ensures OrderArrivals(log + [last])
            == if last.change.OrderChange? then OrderArrivals(log) + [Row(last.change.orderEvent, last.clock.ingested)]
               else OrderArrivals(log)
  {}

  lemma {:induction false} ArrivalsConcat(log: seq<Arrival>, more: seq<Arrival>)
    ensures LedgerArrivals(log + more) == LedgerArrivals(log) + LedgerArrivals(more)
    ensures OrderArrivals(log + more) == OrderArrivals(log) + OrderArrivals(more)
    decreases |more|
  {
    if more == [] {
      assert log + more == log;
    } else {
      var init, last := more[..|more| - 1], more[|more| - 1];
      ArrivalsConcat(log, init);
      assert log + more == (log + init) + [last] && more == init + [last];
      ChangesSnoc(log + init, last);
      ChangesSnoc(init, last);
      if last.change.LedgerChange? {
        Reassociate(LedgerArrivals(log), LedgerArrivals(init), Row(last.change.ledgerEvent, last.clock.ingested));
      } else {
        Reassociate(OrderArrivals(log), OrderArrivals(init), Row(last.change.orderEvent, last.clock.ingested));
      }
    }
  }

  lemma Reassociate<T>(a: seq<T>, b: seq<T>, last: T)
    ensures (a + b) + [last] == a + (b + [last])
  {}

  lemma {:induction false} EventsOfHistory(log: seq<Arrival>)
    ensures EventsOf(LedgerArrivals(log)) == LedgerEvents(Changes(log))
    ensures EventsOf(OrderArrivals(log)) == OrderEvents(Changes(log))
  {
    if log != [] {
      var init, last := log[..|log| - 1], log[|log| - 1];
      assert log == init + [last];
      EventsOfHistory(init);
      ChangesSnoc(init, last);
      match last.change {
        case LedgerChange(e) =>
          EventsSnoc(LedgerArrivals(init), Row(e, last.clock.ingested));
          assert LedgerEvents(Changes(log)) == LedgerEvents(Changes(init)) + {e};
          assert OrderEvents(Changes(log)) == OrderEvents(Changes(init));
        case OrderChange(e) =>
          EventsSnoc(OrderArrivals(init), Row(e, last.clock.ingested));
          assert LedgerEvents(Changes(log)) == LedgerEvents(Changes(init));
          assert OrderEvents(Changes(log)) == OrderEvents(Changes(init)) + {e};
      }
    }
  }

  // ---------------------------------------------------------------- hypotheses on the events

  function Identity(e: LedgerEvent): (Option<string>, string, string) {
    (e.body.relatedId, e.body.entryType, e.body.walletId)
  }

  /** All events of one `tx_id` agree on related id, entry type and wallet. */
  ghost predicate StableIdentity(events: set<LedgerEvent>) {
    forall a, b | a in events && b in events && a.key == b.key :: Identity(a) == Identity(b)
  }

  /** What the parser guarantees of an accepted ledger event. */
  ghost predicate WellFormed(events: set<LedgerEvent>) {
    forall e | e in events :: e.key != "" && e.body.walletId != "" && e.body.entryType != ""
  }

  predicate IsLegType(entryType: string) { entryType == PAYMENT || entryType == RECEIVE }

  /** At most one PAYMENT and one RECEIVE transaction per related id that is not blank. */
  ghost predicate SingleLegs(events: set<LedgerEvent>) {
    forall a, b | a in events && b in events && Truthy(a.body.relatedId) && a.body.relatedId == b.body.relatedId
                  && a.body.entryType == b.body.entryType && IsLegType(a.body.entryType) :: a.key == b.key
  }

  // ---------------------------------------------------------------- sound pair rows

  /** A pair's leg names a ledger row of its type and related id, and carries that row's wallet. */
  ghost predicate LegSound(
    leg: Option<string>, wallet: Option<string>, entryType: string, relatedId: string, ledger: LedgerTable) {
    if leg.None? then wallet.None?
    else
      && leg.value in ledger
      && TypeOf(ledger[leg.value]) == entryType
      && Matches(ledger[leg.value], relatedId)
      && wallet == Some(ledger[leg.value].event.body.walletId)
  }

  ghost predicate PairSound(pair: PairBody, relatedId: string, ledger: LedgerTable) {
    && LegSound(pair.paymentTxId, pair.payerWalletId, PAYMENT, relatedId, ledger)
    && LegSound(pair.receiveTxId, pair.payeeWalletId, RECEIVE, relatedId, ledger)
  }

  ghost predicate PairsSound(db: Db) {
    forall relatedId | relatedId in db.pairs :: PairSound(db.pairs[relatedId].pair, relatedId, db.ledger)
  }

  /** Rows are never deleted and keep their identity. */
  ghost predicate IdentityKept(ledger: LedgerTable, ledger': LedgerTable) {
    forall key | key in ledger :: key in ledger' && Identity(ledger'[key].event) == Identity(ledger[key].event)
  }

  lemma FirstIsListed(rows: seq<LedgerRow>, entryType: string)
    ensures var first := FirstOfType(rows, entryType);
            first.Some? ==> first.value in rows && TypeOf(first.value) == entryType
  {}

  /** A recomputation over a listing only names rows it listed. */
  lemma ComputeSound(rows: seq<LedgerRow>, ledger: LedgerTable, relatedId: string, order: Option<OrderRow>, now: int)
    requires Listing(rows, ledger, relatedId)
    ensures PairSound(Compute(rows, order, now).pair, relatedId, ledger)
  {}

  lemma SoundKept(pair: PairBody, relatedId: string, ledger: LedgerTable, ledger': LedgerTable)
    requires PairSound(pair, relatedId, ledger) && IdentityKept(ledger, ledger')
    ensures PairSound(pair, relatedId, ledger')
  {}

  /** Upserting an event whose identity agrees with the stored row keeps every row's identity. */
  lemma PutKeepsIdentity(log: seq<LedgerRow>, row: LedgerRow, events: set<LedgerEvent>)
    requires EventsOf(log) <= events && row.event in events && StableIdentity(events)
    ensures IdentityKept(Fold(log), Put(Fold(log), row))
    ensures row.event.key in Put(Fold(log), row)
    ensures Identity(Put(Fold(log), row)[row.event.key].event) == Identity(row.event)
  {}

  /** The tables are what the history determines, and the index is sound. */
  ghost predicate Faithful(db: Db, log: seq<Arrival>) {
    && db.ledger == Fold(LedgerArrivals(log))
    && db.orders == Fold(OrderArrivals(log))
    && PairsSound(db)
  }

  /** The stored event of a key, and the facts about it that every proof needs. */
  lemma StoredEvents(db: Db, log: seq<Arrival>)
    requires Faithful(db, log)
    ensures Keyed(db.ledger) && Keyed(db.orders)
    ensures forall key | key in db.ledger :: db.ledger[key].event in LedgerEvents(Changes(log))
    ensures forall e | e in LedgerEvents(Changes(log)) :: e.key in db.ledger
  {
    EventsOfHistory(log);
    FoldOfLog(LedgerArrivals(log));
    FoldOfLog(OrderArrivals(log));
    forall key | key in db.ledger
      ensures db.ledger[key].event in LedgerEvents(Changes(log))
    {
      assert db.ledger[key].event in EventsOf(LedgerArrivals(log));
    }
  }
}
