/**
 Runs of a single consumer: each event is processed by one transaction after the other.
 */
module SerialRuns {
  import opened Wrappers
  import opened LatestWins
  import opened Pairing
  import opened Store
  import opened History

  /** `db` is a state that processing `log` from `start` may end in. */
  ghost predicate Leads(start: Db, log: seq<Arrival>, db: Db)
    decreases |log|
  {
    if log == [] then db == start
    else
      var last := log[|log| - 1];
      exists before :: Leads(start, log[..|log| - 1], before) && Step(before, last.change, last.clock, db)
  }

  lemma LeadsSnoc(start: Db, log: seq<Arrival>, before: Db, last: Arrival, db: Db)
    requires Leads(start, log, before) && Step(before, last.change, last.clock, db)
    ensures Leads(start, log + [last], db)
  {
    assert (log + [last])[..|log|] == log && (log + [last])[|log|] == last;
  }

  lemma {:induction false} LeadsAppend(start: Db, log: seq<Arrival>, middle: Db, more: seq<Arrival>, db: Db)
    requires Leads(start, log, middle) && Leads(middle, more, db)
    ensures Leads(start, log + more, db)
    decreases |more|
  {
    if more == [] {
      assert log + more == log;
    } else {
      var init, last := more[..|more| - 1], more[|more| - 1];
      var before :| Leads(middle, init, before) && Step(before, last.change, last.clock, db);
      LeadsAppend(start, log, middle, init, before);
      LeadsSnoc(start, log + init, before, last, db);
      assert log + init + [last] == log + more;
    }
  }

  // ---------------------------------------------------------------- no hypothesis at all

  lemma RefreshKeepsComplete(
    pairs: PairTable, orders: OrderTable, relatedId: string, rows: seq<LedgerRow>, clock: Clock, r: string)
    requires PairComplete(pairs, r)
    ensures PairComplete(Refresh(pairs, orders, relatedId, rows, clock), r)
  {}

  /** Completeness is sticky: once a pair row has both ids, no later event takes one away,
      whatever the events and the clock do. */
  lemma {:induction false} CompletenessIsSticky(start: Db, log: seq<Arrival>, db: Db, relatedId: string)
    requires Leads(start, log, db) && PairComplete(start.pairs, relatedId)
    ensures PairComplete(db.pairs, relatedId)
    decreases |log|
  {
    if log != [] {
      var last := log[|log| - 1];
      var before :| Leads(start, log[..|log| - 1], before) && Step(before, last.change, last.clock, db);
      CompletenessIsSticky(start, log[..|log| - 1], before, relatedId);
      if last.change.LedgerChange? && Eligible(last.change.ledgerEvent) {
        var r := last.change.ledgerEvent.body.relatedId.value;
        var rows :| Listing(rows, db.ledger, r)
          && db.pairs == Refresh(before.pairs, before.orders, r, rows, last.clock);
        RefreshKeepsComplete(before.pairs, before.orders, r, rows, last.clock, relatedId);
      }
    }
  }

  /** Metadata is never lost from a row, from any starting state. */
  lemma {:induction false} MetadataIsNeverLost(start: Db, log: seq<Arrival>, db: Db, key: string)
    requires Leads(start, log, db)
    ensures key in start.ledger && HasMetadata(start.ledger[key].event)
            ==> key in db.ledger && HasMetadata(db.ledger[key].event)
    ensures key in start.orders && HasMetadata(start.orders[key].event)
            ==> key in db.orders && HasMetadata(db.orders[key].event)
    decreases |log|
  {
    if log != [] {
      var last := log[|log| - 1];
      var before :| Leads(start, log[..|log| - 1], before) && Step(before, last.change, last.clock, db);
      MetadataIsNeverLost(start, log[..|log| - 1], before, key);
    }
  }

  // ---------------------------------------------------------------- tables and index along a run

  lemma {:induction false} TablesAreFolds(log: seq<Arrival>, db: Db)
    requires Leads(EMPTY, log, db)
    ensures db.ledger == Fold(LedgerArrivals(log)) && db.orders == Fold(OrderArrivals(log))
    decreases |log|
  {
    if log != [] {
      var init, last := log[..|log| - 1], log[|log| - 1];
      var before :| Leads(EMPTY, init, before) && Step(before, last.change, last.clock, db);
      TablesAreFolds(init, before);
      assert log == init + [last];
      ChangesSnoc(init, last);
      match last.change
      case LedgerChange(e) => FoldSnoc(LedgerArrivals(init), Row(e, last.clock.ingested));
      case OrderChange(e) => FoldSnoc(OrderArrivals(init), Row(e, last.clock.ingested));
    }
  }

  /** What one step of a run does to the ledger, under stable identity. */
  lemma StepKeepsIdentity(init: seq<Arrival>, last: Arrival, before: Db, db: Db, events: set<LedgerEvent>)
    requires Leads(EMPTY, init, before) && Step(before, last.change, last.clock, db)
    requires StableIdentity(events) && LedgerEvents(Changes(init + [last])) <= events
    ensures IdentityKept(before.ledger, db.ledger)
    ensures last.change.LedgerChange? ==>
              var e := last.change.ledgerEvent;
              e.key in db.ledger && Identity(db.ledger[e.key].event) == Identity(e)
  {
    TablesAreFolds(init, before);
    ChangesSnoc(init, last);
    EventsOfHistory(init);
    if last.change.LedgerChange? {
      assert last.change in Changes(init + [last]);
      PutKeepsIdentity(LedgerArrivals(init), Row(last.change.ledgerEvent, last.clock.ingested), events);
    }
  }

  /** In serial runs under stable identity, every pair row names rows of the ledger it indexes. */
  lemma {:induction false} SerialRunIsFaithful(log: seq<Arrival>, db: Db)
    requires Leads(EMPTY, log, db) && StableIdentity(LedgerEvents(Changes(log)))
    ensures Faithful(db, log)
    decreases |log|
  {
    TablesAreFolds(log, db);
    if log != [] {
      var init, last := log[..|log| - 1], log[|log| - 1];
      assert log == init + [last];
      var before :| Leads(EMPTY, init, before) && Step(before, last.change, last.clock, db);
      ChangesSnoc(init, last);
      assert LedgerEvents(Changes(init)) <= LedgerEvents(Changes(log));
      SerialRunIsFaithful(init, before);
      StepKeepsIdentity(init, last, before, db, LedgerEvents(Changes(log)));
      StepKeepsSound(before, last.change, last.clock, db);
    }
  }

  lemma RefreshKeepsSound(
    pairs: PairTable, orders: OrderTable, relatedId: string, rows: seq<LedgerRow>, clock: Clock, ledger: LedgerTable,
    r: string)
    requires Listing(rows, ledger, relatedId) && r in Refresh(pairs, orders, relatedId, rows, clock)
    requires r in pairs ==> PairSound(pairs[r].pair, r, ledger)
    ensures PairSound(Refresh(pairs, orders, relatedId, rows, clock)[r].pair, r, ledger)
  {}

  lemma StepKeepsSound(before: Db, change: Change, clock: Clock, db: Db)
    requires Step(before, change, clock, db) && PairsSound(before) && IdentityKept(before.ledger, db.ledger)
    ensures PairsSound(db)
  {
    forall r | r in db.pairs
      ensures PairSound(db.pairs[r].pair, r, db.ledger)
    {
      if r in before.pairs {
        SoundKept(before.pairs[r].pair, r, before.ledger, db.ledger);
      }
      if change.LedgerChange? && Eligible(change.ledgerEvent) {
        var relatedId := change.ledgerEvent.body.relatedId.value;
        var rows :| Listing(rows, db.ledger, relatedId)
          && db.pairs == Refresh(before.pairs, before.orders, relatedId, rows, clock);
        RefreshKeepsSound(before.pairs, before.orders, relatedId, rows, clock, db.ledger, r);
      }
    }
  }

  // ---------------------------------------------------------------- the index agrees with its source

  /** The columns of a pair that depend on ledger rows alone. */
  predicate SameLegs(p: PairBody, q: PairBody) {
    && p.paymentTxId == q.paymentTxId && p.payerWalletId == q.payerWalletId
    && p.receiveTxId == q.receiveTxId && p.payeeWalletId == q.payeeWalletId
    && p.eventTime == q.eventTime
  }

  /** The stored pair is a fresh recomputation over the current rows, and exists exactly when rows do. */
  ghost predicate Indexed(db: Db, relatedId: string) {
    exists rows :: Listing(rows, db.ledger, relatedId) && AgreesWith(db.pairs, relatedId, rows)
  }

  predicate AgreesWith(pairs: PairTable, relatedId: string, rows: seq<LedgerRow>) {
    if rows == [] then relatedId !in pairs
    else relatedId in pairs && SameLegs(pairs[relatedId].pair, Compute(rows, None, 0).pair)
  }

  ghost predicate AllEligible(events: set<LedgerEvent>, relatedId: string) {
    forall e | e in events && e.body.relatedId == Some(relatedId) :: Eligible(e)
  }

  ghost predicate PairClockForward(log: seq<Arrival>) {
    forall i, j | 0 <= i <= j < |log| :: log[i].clock.paired <= log[j].clock.paired
  }

  lemma {:induction false} PairsStamped(log: seq<Arrival>, db: Db, r: string)
    requires Leads(EMPTY, log, db) && r in db.pairs
    ensures exists arrival :: arrival in log && db.pairs[r].updatedAt == arrival.clock.paired
    decreases |log|
  {
    var init, last := log[..|log| - 1], log[|log| - 1];
    assert log == init + [last];
    var before :| Leads(EMPTY, init, before) && Step(before, last.change, last.clock, db);
    if r in before.pairs && db.pairs[r] == before.pairs[r] {
      PairsStamped(init, before, r);
    } else {
      assert last in log && db.pairs[r].updatedAt == last.clock.paired;
    }
  }

  /** Rows of other related ids do not change what a listing may return. */
  lemma ListingUntouched(
    rows: seq<LedgerRow>, ledger: LedgerTable, ledger': LedgerTable, relatedId: string, key: string)
    requires Listing(rows, ledger, relatedId)
    requires forall k | k != key :: (k in ledger <==> k in ledger') && (k in ledger ==> ledger[k] == ledger'[k])
    requires key in ledger ==> !Matches(ledger[key], relatedId)
    requires key in ledger' ==> !Matches(ledger'[key], relatedId)
    ensures Listing(rows, ledger', relatedId)
  {}

  /** A listing of a ledger that still holds both legs recomputes to a complete pair. */
  lemma LegsAreSeen(rows: seq<LedgerRow>, ledger: LedgerTable, relatedId: string, pair: PairBody)
    requires Listing(rows, ledger, relatedId) && PairSound(pair, relatedId, ledger) && pair.Complete()
    ensures Compute(rows, None, 0).complete
  {}

  /** The recomputation triggered by an event of `r` is never refused by the no-regression guard. */
  lemma GuardStaysSilent(init: seq<Arrival>, last: Arrival, before: Db, db: Db, rows: seq<LedgerRow>)
    requires Leads(EMPTY, init, before) && Step(before, last.change, last.clock, db)
    requires StableIdentity(LedgerEvents(Changes(init + [last])))
    requires last.change.LedgerChange? && Eligible(last.change.ledgerEvent)
    requires Listing(rows, db.ledger, last.change.ledgerEvent.body.relatedId.value)
    ensures var r := last.change.ledgerEvent.body.relatedId.value;
            var report := Report(before.pairs, before.orders, r, rows, last.clock);
            report.Some? && !report.value.skipped
  {
    var e := last.change.ledgerEvent;
    var r := e.body.relatedId.value;
    StepKeepsIdentity(init, last, before, db, LedgerEvents(Changes(init + [last])));
    assert db.ledger[e.key] in rows;
    ChangesSnoc(init, last);
    assert LedgerEvents(Changes(init)) <= LedgerEvents(Changes(init + [last]));
    SerialRunIsFaithful(init, before);
    if PairComplete(before.pairs, r) {
      SoundKept(before.pairs[r].pair, r, before.ledger, db.ledger);
      LegsAreSeen(rows, db.ledger, r, before.pairs[r].pair);
    }
  }

  /** After an event that asks for a pair, the pair of its order is what the tables give, column by column:
      under stable identity and a forward clock no older pair is ever kept. */
  lemma TriggeredPairIsFresh(init: seq<Arrival>, last: Arrival, before: Db, db: Db)
    requires Leads(EMPTY, init, before) && Step(before, last.change, last.clock, db)
    requires StableIdentity(LedgerEvents(Changes(init + [last]))) && PairClockForward(init + [last])
    requires last.change.LedgerChange? && AsksForPair(last.change.ledgerEvent)
    ensures var r := last.change.ledgerEvent.body.relatedId.value;
            && r in db.pairs && PairColumns(db.pairs[r].pair, r, db.ledger, db.orders)
            && db.pairs[r].updatedAt == last.clock.paired && db.pairs[r].ingestedAt == last.clock.paired
  {
    var e := last.change.ledgerEvent;
    var r := e.body.relatedId.value;
    TriggerColumns(before, e, last.clock, db);
    StepKeepsIdentity(init, last, before, db, LedgerEvents(Changes(init + [last])));
    assert db.ledger[e.key].event.body.relatedId == Some(r);
    assert HasRow(db.ledger, r);
    if r in before.pairs {
      NotKept(init, last, before, db, r);
    }
  }

  lemma NotKept(init: seq<Arrival>, last: Arrival, before: Db, db: Db, r: string)
    requires Leads(EMPTY, init, before) && Step(before, last.change, last.clock, db) && r in before.pairs
    requires StableIdentity(LedgerEvents(Changes(init + [last]))) && PairClockForward(init + [last])
    ensures !PairIsKept(before.pairs, r, last.clock, db.ledger)
  {
    StepKeepsIdentity(init, last, before, db, LedgerEvents(Changes(init + [last])));
    ChangesSnoc(init, last);
    assert LedgerEvents(Changes(init)) <= LedgerEvents(Changes(init + [last]));
    SerialRunIsFaithful(init, before);
    SoundKept(before.pairs[r].pair, r, before.ledger, db.ledger);
    PairsStamped(init, before, r);
    var arrival :| arrival in init && before.pairs[r].updatedAt == arrival.clock.paired;
    var i :| 0 <= i < |init| && init[i] == arrival;
    assert (init + [last])[i] == arrival && (init + [last])[|init|] == last;
  }

  /** The index agrees with the ledger after every processed event. */
  lemma {:induction false} IndexAgrees(log: seq<Arrival>, db: Db, r: string)
    requires Leads(EMPTY, log, db)
    requires StableIdentity(LedgerEvents(Changes(log)))
    requires AllEligible(LedgerEvents(Changes(log)), r) && PairClockForward(log)
    ensures Indexed(db, r)
    decreases |log|
  {
    if log == [] {
      assert Listing([], db.ledger, r) && AgreesWith(db.pairs, r, []);
    } else {
      var init, last := log[..|log| - 1], log[|log| - 1];
      assert log == init + [last];
      var before :| Leads(EMPTY, init, before) && Step(before, last.change, last.clock, db);
      ChangesSnoc(init, last);
      assert LedgerEvents(Changes(init)) <= LedgerEvents(Changes(log));
      IndexAgrees(init, before, r);
      if last.change.LedgerChange? {
        var e := last.change.ledgerEvent;
        assert last.change in Changes(log) && e in LedgerEvents(Changes(log));
        if e.body.relatedId == Some(r) {
          AgreementRenewed(init, last, before, db);
        } else {
          AgreementUntouched(init, last, before, db, r);
        }
      }
    }
  }

  lemma AgreementRenewed(init: seq<Arrival>, last: Arrival, before: Db, db: Db)
    requires Leads(EMPTY, init, before) && Step(before, last.change, last.clock, db)
    requires StableIdentity(LedgerEvents(Changes(init + [last]))) && PairClockForward(init + [last])
    requires last.change.LedgerChange? && Eligible(last.change.ledgerEvent)
    ensures Indexed(db, last.change.ledgerEvent.body.relatedId.value)
  {
    var r := last.change.ledgerEvent.body.relatedId.value;
    var rows :| Listing(rows, db.ledger, r) && db.pairs == Refresh(before.pairs, before.orders, r, rows, last.clock);
    GuardStaysSilent(init, last, before, db, rows);
    if r in before.pairs {
      PairsStamped(init, before, r);
      var arrival :| arrival in init && before.pairs[r].updatedAt == arrival.clock.paired;
      var i :| 0 <= i < |init| && init[i] == arrival;
      assert (init + [last])[i] == arrival && (init + [last])[|init|] == last;
    }
    assert AgreesWith(db.pairs, r, rows);
  }

  lemma AgreementUntouched(init: seq<Arrival>, last: Arrival, before: Db, db: Db, r: string)
    requires Leads(EMPTY, init, before) && Step(before, last.change, last.clock, db)
    requires StableIdentity(LedgerEvents(Changes(init + [last])))
    requires last.change.LedgerChange? && last.change.ledgerEvent.body.relatedId != Some(r)
    requires Indexed(before, r)
    ensures Indexed(db, r)
  {
    var e := last.change.ledgerEvent;
    var rows :| Listing(rows, before.ledger, r) && AgreesWith(before.pairs, r, rows);
    StepKeepsIdentity(init, last, before, db, LedgerEvents(Changes(init + [last])));
    ListingUntouched(rows, before.ledger, db.ledger, r, e.key);
    assert AgreesWith(db.pairs, r, rows);
  }
}
