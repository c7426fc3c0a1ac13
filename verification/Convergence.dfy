/**
 End to end: histories that committed the same set of changes, in any order and with any
 repetition, give the same tables and the same answers.
 */
module Convergence {
  import opened Wrappers
  import opened LatestWins
  import opened Pairing
  import opened Store
  import opened History
  import opened SerialRuns
  import opened Lookups

  /** The hypotheses of the end-to-end theorems. */
  ghost predicate Admissible(changes: set<Change>) {
    var events := LedgerEvents(changes);
    StableIdentity(events) && WellFormed(events) && SingleLegs(events)
      && Decided(events) && Decided(OrderEvents(changes))
  }

  /** The hypotheses can be met: by any PAYMENT and RECEIVE event of an order, whatever their metadata. */
  lemma TwoLegsAreAdmissible(payment: LedgerEvent, receive: LedgerEvent)
    requires payment.key != "" && receive.key != "" && payment.key != receive.key
    requires payment.body.walletId != "" && receive.body.walletId != ""
    requires payment.body.entryType == "PAYMENT" && receive.body.entryType == "RECEIVE"
    ensures Admissible({LedgerChange(payment), LedgerChange(receive)})
  {
    var changes := {LedgerChange(payment), LedgerChange(receive)};
    var events := LedgerEvents(changes);
    assert forall e :: e in events <==> e == payment || e == receive;
    assert Dominates(payment, events) && Dominates(receive, events);
    assert forall key | Occurs(key, events) :: HasDominant(key, events);
    assert OrderEvents(changes) == {};
  }

  lemma LedgerIsAdmissible(db: Db, log: seq<Arrival>)
    requires Faithful(db, log) && Admissible(Changes(log))
    ensures NamedRows(db.ledger) && OneLegEach(db.ledger) && PairsSound(db)
  {
    StoredEvents(db, log);
    forall a, b | a in db.ledger && b in db.ledger && Truthy(db.ledger[a].event.body.relatedId)
                  && db.ledger[a].event.body.relatedId == db.ledger[b].event.body.relatedId
                  && TypeOf(db.ledger[a]) == TypeOf(db.ledger[b]) && IsLegType(TypeOf(db.ledger[a]))
      ensures a == b
    {
      assert db.ledger[a].event in LedgerEvents(Changes(log)) && db.ledger[b].event in LedgerEvents(Changes(log));
    }
  }

  /** The ledger and order tables depend only on the set of committed changes. */
  lemma TablesConverge(db: Db, log: seq<Arrival>, db': Db, log': seq<Arrival>)
    requires Faithful(db, log) && Faithful(db', log') && Changes(log) == Changes(log')
    requires Decided(LedgerEvents(Changes(log))) && Decided(OrderEvents(Changes(log)))
    ensures Contents(db.ledger) == Contents(db'.ledger) && Contents(db.orders) == Contents(db'.orders)
  {
    EventsOfHistory(log);
    EventsOfHistory(log');
    LatestWins.Convergence(LedgerArrivals(log), LedgerArrivals(log'));
    LatestWins.Convergence(OrderArrivals(log), OrderArrivals(log'));
  }

  lemma SameEvents<T>(table: map<string, Row<T>>, table': map<string, Row<T>>, key: string)
    requires Contents(table) == Contents(table')
    ensures key in table <==> key in table'
    ensures key in table ==> table[key].event == table'[key].event
  {
    assert key in table <==> key in Contents(table);
    assert key in table' <==> key in Contents(table');
    assert key in table ==> Contents(table)[key] == Contents(table')[key];
  }

  lemma FewerEvents(changes: set<Change>, more: set<Change>)
    requires changes <= more
    ensures LedgerEvents(changes) <= LedgerEvents(more)
  {}

  // ---------------------------------------------------------------- answers, state against state

  ghost predicate ShownAsOrder(db: Db, txId: string)
    requires Keyed(db.ledger)
  {
    txId in db.ledger && Pairable(FetchTxContext(db, db.ledger, txId).value)
  }

  /** The entry is shown as part of a payment order but is itself neither PAYMENT nor RECEIVE. */
  ghost predicate ReadsPairOnly(db: Db, txId: string)
    requires Keyed(db.ledger)
  {
    ShownAsOrder(db, txId) && !IsLegType(TypeOf(db.ledger[txId]))
  }

  predicate ReceiveIndexed(db: Db, relatedId: string) {
    relatedId in db.pairs && db.pairs[relatedId].pair.receiveTxId.Some?
  }

  lemma SamePeers(db: Db, db': Db, txId: string)
    requires Contents(db.ledger) == Contents(db'.ledger) && txId in db.ledger && txId in db'.ledger
    ensures forall key :: IsPeer(db.ledger, db.ledger[txId], key) <==> IsPeer(db'.ledger, db'.ledger[txId], key)
    ensures HasPeer(db.ledger, db.ledger[txId]) <==> HasPeer(db'.ledger, db'.ledger[txId])
  {
    SameEvents(db.ledger, db'.ledger, txId);
    forall key
      ensures IsPeer(db.ledger, db.ledger[txId], key) <==> IsPeer(db'.ledger, db'.ledger[txId], key)
    {
      SameEvents(db.ledger, db'.ledger, key);
    }
  }

  /** Everything but the pairing part of an answer follows from the converged tables. */
  lemma SameFrame(db: Db, db': Db, txId: string)
    requires Contents(db.ledger) == Contents(db'.ledger) && Contents(db.orders) == Contents(db'.orders)
    requires Keyed(db.ledger) && Keyed(db'.ledger)
    ensures ShownAsOrder(db, txId) <==> ShownAsOrder(db', txId)
    ensures AnswerTx(db, txId).None? <==> AnswerTx(db', txId).None?
    ensures AnswerTx(db, txId).Some? ==>
              AnswerTx(db, txId).value == AnswerTx(db', txId).value.(view := AnswerTx(db, txId).value.view)
    ensures AnswerTx(db, txId).Some? && !ShownAsOrder(db, txId) ==> AnswerTx(db, txId) == AnswerTx(db', txId)
  {
    SameEvents(db.ledger, db'.ledger, txId);
    if txId in db.ledger && db.ledger[txId].event.body.relatedId.Some? {
      SameEvents(db.orders, db'.orders, db.ledger[txId].event.body.relatedId.value);
    }
  }

  lemma LegViewsConverge(db: Db, db': Db, txId: string)
    requires PairsSound(db) && NamedRows(db.ledger) && OneLegEach(db.ledger)
    requires PairsSound(db') && NamedRows(db'.ledger) && OneLegEach(db'.ledger)
    requires Contents(db.ledger) == Contents(db'.ledger) && ShownAsOrder(db, txId) && ShownAsOrder(db', txId)
    requires IsLegType(TypeOf(db.ledger[txId]))
    ensures AnswerTx(db, txId).value.view == AnswerTx(db', txId).value.view
  {
    SameEvents(db.ledger, db'.ledger, txId);
    SamePeers(db, db', txId);
    LegView(db, txId);
    LegView(db', txId);
    ReadRepair(db, db.ledger, txId);
    ReadRepair(db', db'.ledger, txId);
    if HasPeer(db.ledger, db.ledger[txId]) {
      var key :| IsPeer(db.ledger, db.ledger[txId], key);
      SameEvents(db.ledger, db'.ledger, key);
      assert IsPeer(db'.ledger, db'.ledger[txId], key);
    }
  }

  lemma SameReceiver(db: Db, db': Db, r: string)
    requires PairsSound(db) && OneLegEach(db.ledger) && PairsSound(db')
    requires Contents(db.ledger) == Contents(db'.ledger) && ReceiveIndexed(db, r) && ReceiveIndexed(db', r) && r != ""
    ensures var receive, receive' := db.pairs[r].pair.receiveTxId.value, db'.pairs[r].pair.receiveTxId.value;
            && receive in db.ledger && receive' in db'.ledger
            && WalletOf(db.ledger[receive]) == WalletOf(db'.ledger[receive'])
  {
    var receive, receive' := db.pairs[r].pair.receiveTxId.value, db'.pairs[r].pair.receiveTxId.value;
    assert PairSound(db.pairs[r].pair, r, db.ledger) && PairSound(db'.pairs[r].pair, r, db'.ledger);
    SameEvents(db.ledger, db'.ledger, receive');
    assert receive == receive';
  }

  lemma OtherViewsConvergeIff(db: Db, db': Db, txId: string)
    requires PairsSound(db) && NamedRows(db.ledger) && OneLegEach(db.ledger)
    requires PairsSound(db') && NamedRows(db'.ledger) && OneLegEach(db'.ledger)
    requires Contents(db.ledger) == Contents(db'.ledger) && ReadsPairOnly(db, txId) && ReadsPairOnly(db', txId)
    ensures AnswerTx(db, txId).value.view == AnswerTx(db', txId).value.view
            <==> (ReceiveIndexed(db, db.ledger[txId].event.body.relatedId.value)
                  <==> ReceiveIndexed(db', db.ledger[txId].event.body.relatedId.value))
  {
    SameEvents(db.ledger, db'.ledger, txId);
    SamePeers(db, db', txId);
    OtherView(db, txId);
    OtherView(db', txId);
    var r := db.ledger[txId].event.body.relatedId.value;
    if HasPeer(db.ledger, db.ledger[txId]) {
      var key :| IsPeer(db.ledger, db.ledger[txId], key);
      SameEvents(db.ledger, db'.ledger, key);
      assert IsPeer(db'.ledger, db'.ledger[txId], key);
    }
    if ReceiveIndexed(db, r) && ReceiveIndexed(db', r) {
      SameReceiver(db, db', r);
    }
  }

  /** For an entry that reads the pair only, both indexes know the RECEIVE leg or neither does. */
  ghost predicate SameReceiveIndexed(db: Db, db': Db, txId: string)
    requires Keyed(db.ledger)
  {
    ReadsPairOnly(db, txId) ==>
      var r := db.ledger[txId].event.body.relatedId.value; ReceiveIndexed(db, r) <==> ReceiveIndexed(db', r)
  }

  /** Two histories of the same changes give the same answer for every transaction, except that
      an entry of another type also needs the two indexes to agree on whether the RECEIVE leg was
      indexed. PAYMENT and RECEIVE entries need nothing of the index beyond soundness. */
  lemma AnswersConvergeIff(db: Db, log: seq<Arrival>, db': Db, log': seq<Arrival>, txId: string)
    requires Faithful(db, log) && Faithful(db', log') && Changes(log) == Changes(log') && Admissible(Changes(log))
    ensures Keyed(db.ledger) && Keyed(db'.ledger)
    ensures AnswerTx(db, txId) == AnswerTx(db', txId)
            <==> SameReceiveIndexed(db, db', txId)
  {
    LedgerIsAdmissible(db, log);
    LedgerIsAdmissible(db', log');
    TablesConverge(db, log, db', log');
    SameEvents(db.ledger, db'.ledger, txId);
    SameFrame(db, db', txId);
    if ShownAsOrder(db, txId) {
      if IsLegType(TypeOf(db.ledger[txId])) {
        LegViewsConverge(db, db', txId);
      } else {
        OtherViewsConvergeIff(db, db', txId);
      }
    }
  }

  // ---------------------------------------------------------------- serial runs

  /** A serial run of the changes, from empty tables, whose pair clock does not step back. */
  ghost predicate Processes(log: seq<Arrival>, db: Db, changes: set<Change>) {
    Leads(EMPTY, log, db) && Changes(log) == changes && PairClockForward(log)
  }

  ghost predicate IndexesReceive(events: set<LedgerEvent>, relatedId: string) {
    exists e :: e in events && e.body.relatedId == Some(relatedId) && e.body.entryType == RECEIVE && Eligible(e)
  }

  ghost predicate TouchesPair(events: set<LedgerEvent>, relatedId: string) {
    exists e :: e in events && e.body.relatedId == Some(relatedId) && Eligible(e)
  }

  lemma ReceiveStaysIndexed(before: Db, change: Change, clock: Clock, db: Db, r: string)
    requires Step(before, change, clock, db) && PairsSound(before) && IdentityKept(before.ledger, db.ledger)
    requires ReceiveIndexed(before, r)
    ensures ReceiveIndexed(db, r)
  {}

  /** Processing an eligible event records the RECEIVE leg if it is in the ledger by then. */
  lemma ReceiveRecorded(init: seq<Arrival>, last: Arrival, before: Db, db: Db, receive: string)
    requires Leads(EMPTY, init, before) && Step(before, last.change, last.clock, db) && PairClockForward(init + [last])
    requires StableIdentity(LedgerEvents(Changes(init + [last])))
    requires last.change.LedgerChange? && Eligible(last.change.ledgerEvent)
    requires receive in db.ledger && TypeOf(db.ledger[receive]) == RECEIVE
    requires Matches(db.ledger[receive], last.change.ledgerEvent.body.relatedId.value)
    ensures ReceiveIndexed(db, last.change.ledgerEvent.body.relatedId.value)
  {
    var r := last.change.ledgerEvent.body.relatedId.value;
    AgreementRenewed(init, last, before, db);
    var rows :| Listing(rows, db.ledger, r) && AgreesWith(db.pairs, r, rows);
    assert db.ledger[receive] in rows;
  }

  /** A step that first meets an eligible RECEIVE event indexes it; later steps keep it. */
  lemma ReceiveStep(init: seq<Arrival>, last: Arrival, before: Db, db: Db, r: string)
    requires Leads(EMPTY, init, before) && Step(before, last.change, last.clock, db) && PairClockForward(init + [last])
    requires StableIdentity(LedgerEvents(Changes(init + [last])))
    requires ReceiveIndexed(before, r)
             || (&& last.change.LedgerChange? && Eligible(last.change.ledgerEvent)
                 && last.change.ledgerEvent.body.entryType == RECEIVE
                 && last.change.ledgerEvent.body.relatedId == Some(r))
    ensures ReceiveIndexed(db, r)
  {
    ChangesSnoc(init, last);
    FewerEvents(Changes(init), Changes(init + [last]));
    StepKeepsIdentity(init, last, before, db, LedgerEvents(Changes(init + [last])));
    if ReceiveIndexed(before, r) {
      SerialRunIsFaithful(init, before);
      ReceiveStaysIndexed(before, last.change, last.clock, db, r);
    } else {
      ReceiveRecorded(init, last, before, db, last.change.ledgerEvent.key);
    }
  }

  /** In a serial run whose pair clock does not step back an eligible RECEIVE event is indexed, and stays so. */
  lemma {:induction false} EligibleReceiveIsIndexed(log: seq<Arrival>, db: Db, e: LedgerEvent)
    requires Leads(EMPTY, log, db) && PairClockForward(log) && StableIdentity(LedgerEvents(Changes(log)))
    requires LedgerChange(e) in Changes(log) && e.body.entryType == RECEIVE && Eligible(e)
    ensures ReceiveIndexed(db, e.body.relatedId.value)
    decreases |log|
  {
    var init, last := log[..|log| - 1], log[|log| - 1];
    assert log == init + [last];
    var before :| Leads(EMPTY, init, before) && Step(before, last.change, last.clock, db);
    ChangesSnoc(init, last);
    if last.change != LedgerChange(e) {
      FewerEvents(Changes(init), Changes(log));
      assert LedgerChange(e) in Changes(init) && PairClockForward(init);
      EligibleReceiveIsIndexed(init, before, e);
    }
    ReceiveStep(init, last, before, db, e.body.relatedId.value);
  }

  /** A pair row exists only if some event asked for it. */
  lemma {:induction false} PairNeedsEligible(log: seq<Arrival>, db: Db, r: string)
    requires Leads(EMPTY, log, db) && r in db.pairs
    ensures TouchesPair(LedgerEvents(Changes(log)), r)
    decreases |log|
  {
    var init, last := log[..|log| - 1], log[|log| - 1];
    assert log == init + [last];
    var before :| Leads(EMPTY, init, before) && Step(before, last.change, last.clock, db);
    ChangesSnoc(init, last);
    if r in before.pairs {
      FewerEvents(Changes(init), Changes(log));
      PairNeedsEligible(init, before, r);
    } else {
      PairAppears(before, last.change, last.clock, db, r);
      assert last.change in Changes(log) && last.change.ledgerEvent in LedgerEvents(Changes(log));
    }
  }

  lemma PairAppears(before: Db, change: Change, clock: Clock, db: Db, r: string)
    requires Step(before, change, clock, db) && r in db.pairs && r !in before.pairs
    ensures change.LedgerChange? && Eligible(change.ledgerEvent) && change.ledgerEvent.body.relatedId == Some(r)
  {}

  // ---------------------------------------------------------------- runs exist

  lemma ListingExists(ledger: LedgerTable, keys: set<string>, relatedId: string) returns (rows: seq<LedgerRow>)
    requires Keyed(ledger) && keys <= ledger.Keys
    ensures forall row | row in rows :: row.event.key in keys && ledger[row.event.key] == row && Matches(row, relatedId)
    ensures forall key | key in keys && Matches(ledger[key], relatedId) :: ledger[key] in rows
    ensures forall i, j | 0 <= i < j < |rows| :: rows[i].event.key != rows[j].event.key
  {
    if keys == {} {
      rows := [];
    } else {
      var key :| key in keys;
      rows := ListingExists(ledger, keys - {key}, relatedId);
      if Matches(ledger[key], relatedId) {
        rows := rows + [ledger[key]];
      }
    }
  }

  /** Every event can be processed. */
  lemma StepExists(before: Db, change: Change, clock: Clock) returns (db: Db)
    requires Keyed(before.ledger)
    ensures Step(before, change, clock, db) && Keyed(db.ledger)
  {
    match change {
      case LedgerChange(e) =>
        var ledger := Put(before.ledger, Row(e, clock.ingested));
        var pairs := before.pairs;
        if Eligible(e) {
          var rows := ListingExists(ledger, ledger.Keys, e.body.relatedId.value);
          assert Listing(rows, ledger, e.body.relatedId.value);
          pairs := Refresh(before.pairs, before.orders, e.body.relatedId.value, rows, clock);
        }
        db := Db(ledger, before.orders, pairs);
      case OrderChange(e) =>
        db := before.(orders := Put(before.orders, Row(e, clock.ingested)));
    }
  }

  /** Every sequence of arrivals can be processed. */
  lemma {:induction false} RunExists(log: seq<Arrival>) returns (db: Db)
    ensures Leads(EMPTY, log, db) && Keyed(db.ledger)
    decreases |log|
  {
    if log == [] {
      db := EMPTY;
    } else {
      var last := log[|log| - 1];
      var before := RunExists(log[..|log| - 1]);
      db := StepExists(before, last.change, last.clock);
    }
  }

  const NOON := Clock(0, 0, 0)

  /** The clock stands still. */
  ghost predicate AllNoon(log: seq<Arrival>) { forall arrival | arrival in log :: arrival.clock == NOON }

  lemma ArrivalsOf(changes: set<Change>) returns (log: seq<Arrival>)
    ensures Changes(log) == changes && AllNoon(log)
  {
    if changes == {} {
      log := [];
    } else {
      var change :| change in changes;
      var rest := ArrivalsOf(changes - {change});
      log := rest + [Arrival(change, NOON)];
      ChangesSnoc(rest, Arrival(change, NOON));
    }
  }

  lemma ChangesConcat(log: seq<Arrival>, more: seq<Arrival>)
    ensures Changes(log + more) == Changes(log) + Changes(more)
  {}

  // ---------------------------------------------------------------- the exact condition on the events

  /** The RECEIVE leg of `relatedId` never triggers a recomputation itself, but some event does:
      whether the index learns of the leg then depends on which of them is processed last. */
  ghost predicate HiddenReceive(events: set<LedgerEvent>, relatedId: string) {
    && (exists q :: q in events && q.body.relatedId == Some(relatedId) && q.body.entryType == RECEIVE)
    && !IndexesReceive(events, relatedId)
    && TouchesPair(events, relatedId)
  }

  /** Without a hidden RECEIVE leg, every such run indexes the leg or none does. */
  lemma ReceiveIndexedIsDetermined(
    log: seq<Arrival>, db: Db, log': seq<Arrival>, db': Db, changes: set<Change>, r: string)
    requires Processes(log, db, changes) && Processes(log', db', changes) && StableIdentity(LedgerEvents(changes))
    requires !HiddenReceive(LedgerEvents(changes), r)
    ensures ReceiveIndexed(db, r) <==> ReceiveIndexed(db', r)
  {
    if IndexesReceive(LedgerEvents(changes), r) {
      var e :| e in LedgerEvents(changes) && e.body.relatedId == Some(r) && e.body.entryType == RECEIVE && Eligible(e);
      EligibleReceiveIsIndexed(log, db, e);
      EligibleReceiveIsIndexed(log', db', e);
    } else {
      NeverIndexed(log, db, changes, r);
      NeverIndexed(log', db', changes, r);
    }
  }

  lemma NeverIndexed(log: seq<Arrival>, db: Db, changes: set<Change>, r: string)
    requires Processes(log, db, changes) && StableIdentity(LedgerEvents(changes))
    requires !HiddenReceive(LedgerEvents(changes), r) && !IndexesReceive(LedgerEvents(changes), r)
    ensures !ReceiveIndexed(db, r)
  {
    if ReceiveIndexed(db, r) {
      PairNeedsEligible(log, db, r);
      OnlyKnownReceives(log, db, r);
    }
  }

  lemma OnlyKnownReceives(log: seq<Arrival>, db: Db, r: string)
    requires Leads(EMPTY, log, db) && StableIdentity(LedgerEvents(Changes(log))) && ReceiveIndexed(db, r)
    ensures exists q :: q in LedgerEvents(Changes(log)) && q.body.relatedId == Some(r) && q.body.entryType == RECEIVE
                        && q.key == db.pairs[r].pair.receiveTxId.value
  {
    SerialRunIsFaithful(log, db);
    StoredEvents(db, log);
    assert PairSound(db.pairs[r].pair, r, db.ledger);
    var q := db.ledger[db.pairs[r].pair.receiveTxId.value].event;
    assert q in LedgerEvents(Changes(log));
  }

  lemma {:induction false} IneligibleTailKeepsPairs(start: Db, log: seq<Arrival>, db: Db)
    requires Leads(start, log, db)
    requires forall arrival | arrival in log :: arrival.change.LedgerChange? && !Eligible(arrival.change.ledgerEvent)
    ensures db.pairs == start.pairs
    decreases |log|
  {
    if log != [] {
      var last := log[|log| - 1];
      assert last in log;
      var before :| Leads(start, log[..|log| - 1], before) && Step(before, last.change, last.clock, db);
      IneligibleTailKeepsPairs(start, log[..|log| - 1], before);
    }
  }

  /** The middle state of a run. */
  lemma {:induction false} LeadsSplit(start: Db, log: seq<Arrival>, more: seq<Arrival>, db: Db) returns (middle: Db)
    requires Leads(start, log + more, db)
    ensures Leads(start, log, middle) && Leads(middle, more, db)
    decreases |more|
  {
    if more == [] {
      assert log + more == log;
      middle := db;
    } else {
      var whole := log + more;
      var last := more[|more| - 1];
      assert whole[..|whole| - 1] == log + more[..|more| - 1] && whole[|whole| - 1] == last;
      var before :| Leads(start, whole[..|whole| - 1], before) && Step(before, last.change, last.clock, db);
      middle := LeadsSplit(start, log, more[..|more| - 1], before);
      assert more == more[..|more| - 1] + [last];
      LeadsSnoc(middle, more[..|more| - 1], before, last, db);
    }
  }

  /** A leg that has not arrived is not indexed. */
  lemma MissingLegIsNotIndexed(log: seq<Arrival>, db: Db, events: set<LedgerEvent>, q: LedgerEvent, r: string)
    requires Leads(EMPTY, log, db) && LedgerEvents(Changes(log)) <= events
    requires StableIdentity(events) && SingleLegs(events)
    requires q in events && q.body.relatedId == Some(r) && q.body.entryType == RECEIVE
    requires forall e | e in LedgerEvents(Changes(log)) :: e.key != q.key
    ensures !ReceiveIndexed(db, r)
  {
    if ReceiveIndexed(db, r) {
      OnlyKnownReceives(log, db, r);
    }
  }

  ghost function ChangesOfKey(changes: set<Change>, key: string): set<Change> {
    set change | change in changes && change.LedgerChange? && change.ledgerEvent.key == key
  }

  /** All changes, those of `key` last. */
  lemma KeyLast(changes: set<Change>, key: string) returns (head: seq<Arrival>, rest: seq<Arrival>)
    ensures Changes(head) == changes - ChangesOfKey(changes, key) && Changes(rest) == ChangesOfKey(changes, key)
    ensures Changes(head + rest) == changes && PairClockForward(head + rest) && AllNoon(head + rest)
  {
    head := ArrivalsOf(changes - ChangesOfKey(changes, key));
    rest := ArrivalsOf(ChangesOfKey(changes, key));
    ChangesConcat(head, rest);
    assert forall arrival | arrival in head + rest :: arrival.clock == NOON;
  }

  /** A run of the other changes does not index the leg. */
  lemma HeadMissesLeg(changes: set<Change>, head: seq<Arrival>, middle: Db, q: LedgerEvent, r: string)
    requires StableIdentity(LedgerEvents(changes)) && SingleLegs(LedgerEvents(changes))
    requires q in LedgerEvents(changes) && q.body.relatedId == Some(r) && q.body.entryType == RECEIVE
    requires Leads(EMPTY, head, middle) && Changes(head) == changes - ChangesOfKey(changes, q.key)
    ensures !ReceiveIndexed(middle, r)
  {
    FewerEvents(Changes(head), changes);
    forall e | e in LedgerEvents(Changes(head))
      ensures e.key != q.key
    {
      assert LedgerChange(e) in Changes(head);
    }
    MissingLegIsNotIndexed(head, middle, LedgerEvents(changes), q, r);
  }

  /** The changes of a leg no event of which is eligible leave the pair table alone. */
  lemma TailLeavesPairs(changes: set<Change>, rest: seq<Arrival>, middle: Db, db: Db, q: LedgerEvent, r: string)
    requires StableIdentity(LedgerEvents(changes)) && !IndexesReceive(LedgerEvents(changes), r)
    requires q in LedgerEvents(changes) && q.body.relatedId == Some(r) && q.body.entryType == RECEIVE
    requires Leads(middle, rest, db) && Changes(rest) == ChangesOfKey(changes, q.key)
    ensures db.pairs == middle.pairs
  {
    forall arrival | arrival in rest
      ensures arrival.change.LedgerChange? && !Eligible(arrival.change.ledgerEvent)
    {
      assert arrival.change in Changes(rest);
      assert arrival.change.ledgerEvent in LedgerEvents(changes);
    }
    IneligibleTailKeepsPairs(middle, rest, db);
  }

  /** A run that processes the hidden leg last leaves it out of the index. */
  lemma HiddenLegLast(changes: set<Change>, r: string) returns (log: seq<Arrival>, db: Db)
    requires StableIdentity(LedgerEvents(changes)) && SingleLegs(LedgerEvents(changes))
    requires HiddenReceive(LedgerEvents(changes), r)
    ensures Processes(log, db, changes) && !ReceiveIndexed(db, r)
  {
    var q :| q in LedgerEvents(changes) && q.body.relatedId == Some(r) && q.body.entryType == RECEIVE;
    var head, rest := KeyLast(changes, q.key);
    log := head + rest;
    db := RunExists(log);
    var middle := LeadsSplit(EMPTY, head, rest, db);
    HeadMissesLeg(changes, head, middle, q, r);
    TailLeavesPairs(changes, rest, middle, db, q, r);
  }

  /** A run that processes an eligible event last indexes the RECEIVE leg. */
  lemma LegFirst(changes: set<Change>, r: string) returns (log: seq<Arrival>, db: Db)
    requires StableIdentity(LedgerEvents(changes)) && TouchesPair(LedgerEvents(changes), r)
    requires exists q :: q in LedgerEvents(changes) && q.body.relatedId == Some(r) && q.body.entryType == RECEIVE
    ensures Processes(log, db, changes) && ReceiveIndexed(db, r) && AllNoon(log)
  {
    var events := LedgerEvents(changes);
    var q :| q in events && q.body.relatedId == Some(r) && q.body.entryType == RECEIVE;
    var g :| g in events && g.body.relatedId == Some(r) && Eligible(g);
    var head := ArrivalsOf(changes);
    var last := Arrival(LedgerChange(g), NOON);
    log := head + [last];
    assert Changes(log) == changes by {
      ChangesSnoc(head, last);
    }
    assert PairClockForward(log) && AllNoon(log) by {
      assert forall arrival | arrival in log :: arrival.clock == NOON;
    }
    db := RunExists(log);
    assert log[..|log| - 1] == head && log[|log| - 1] == last;
    var before :| Leads(EMPTY, head, before) && Step(before, last.change, last.clock, db);
    StoredIdentity(log, db, q);
    ReceiveRecorded(head, last, before, db, q.key);
  }

  lemma HiddenLegFirst(changes: set<Change>, r: string) returns (log: seq<Arrival>, db: Db)
    requires StableIdentity(LedgerEvents(changes)) && HiddenReceive(LedgerEvents(changes), r)
    ensures Processes(log, db, changes) && ReceiveIndexed(db, r)
  {
    log, db := LegFirst(changes, r);
  }

  lemma StoredIdentity(log: seq<Arrival>, db: Db, e: LedgerEvent)
    requires Leads(EMPTY, log, db) && StableIdentity(LedgerEvents(Changes(log))) && e in LedgerEvents(Changes(log))
    ensures e.key in db.ledger && Identity(db.ledger[e.key].event) == Identity(e)
  {
    SerialRunIsFaithful(log, db);
    StoredEvents(db, log);
  }

  /** All serial runs of the changes whose pair clock does not step back give one answer for `txId`. */
  ghost predicate OneAnswer(changes: set<Change>, txId: string) {
    forall log, db, log', db' | Processes(log, db, changes) && Processes(log', db', changes) ::
      Keyed(db.ledger) && Keyed(db'.ledger) && AnswerTx(db, txId) == AnswerTx(db', txId)
  }

  /** `w` is part of order `relatedId` in the lookup's eyes, and is neither PAYMENT nor RECEIVE. */
  ghost predicate IsOtherPart(w: LedgerEvent, changes: set<Change>, relatedId: string) {
    && !IsLegType(w.body.entryType) && w.body.relatedId == Some(relatedId) && relatedId != ""
    && (if Truthy(w.body.relatedType) then w.body.relatedType.value == PAYMENT_ORDER
        else exists o :: o in OrderEvents(changes) && o.key == relatedId)
  }

  /** The dominant event of `txId` is such a part. */
  ghost predicate OtherPartOf(changes: set<Change>, txId: string, relatedId: string) {
    exists w: LedgerEvent :: w.key == txId && Dominates(w, LedgerEvents(changes)) && IsOtherPart(w, changes, relatedId)
  }

  lemma OrderIsStored(log: seq<Arrival>, db: Db, orderId: string)
    requires Faithful(db, log)
    ensures orderId in db.orders <==> exists o :: o in OrderEvents(Changes(log)) && o.key == orderId
  {
    EventsOfHistory(log);
    FoldOfLog(OrderArrivals(log));
  }

  /** The stored row of a key holds its dominant event. */
  lemma WinnerIsStored(log: seq<Arrival>, db: Db, w: LedgerEvent)
    requires Faithful(db, log) && Dominates(w, LedgerEvents(Changes(log)))
    ensures w.key in db.ledger && db.ledger[w.key].event == w
  {
    EventsOfHistory(log);
    FoldKeepsDominant(LedgerArrivals(log), LedgerEvents(Changes(log)), w);
  }

  lemma ShownIffOtherPart(log: seq<Arrival>, db: Db, txId: string, r: string)
    requires Faithful(db, log) && Keyed(db.ledger) && txId in db.ledger
    ensures ReadsPairOnly(db, txId) && db.ledger[txId].event.body.relatedId == Some(r)
            <==> IsOtherPart(db.ledger[txId].event, Changes(log), r)
  {
    OrderIsStored(log, db, r);
  }

  lemma OtherPartIsShown(log: seq<Arrival>, db: Db, txId: string, r: string)
    requires Faithful(db, log) && Keyed(db.ledger) && OtherPartOf(Changes(log), txId, r)
    ensures ReadsPairOnly(db, txId) && db.ledger[txId].event.body.relatedId == Some(r)
  {
    var w: LedgerEvent :|
      w.key == txId && Dominates(w, LedgerEvents(Changes(log))) && IsOtherPart(w, Changes(log), r);
    WinnerIsStored(log, db, w);
    ShownIffOtherPart(log, db, txId, r);
  }

  lemma ShownIsOtherPart(log: seq<Arrival>, db: Db, txId: string, r: string)
    requires Faithful(db, log) && Keyed(db.ledger) && Decided(LedgerEvents(Changes(log)))
    requires ReadsPairOnly(db, txId) && db.ledger[txId].event.body.relatedId == Some(r)
    ensures OtherPartOf(Changes(log), txId, r)
  {
    ShownIffOtherPart(log, db, txId, r);
    var w := StoredIsDominant(log, db, txId);
  }

  lemma StoredIsDominant(log: seq<Arrival>, db: Db, key: string) returns (w: LedgerEvent)
    requires Faithful(db, log) && Decided(LedgerEvents(Changes(log))) && key in db.ledger
    ensures w.key == key && Dominates(w, LedgerEvents(Changes(log))) && w == db.ledger[key].event
  {
    StoredEvents(db, log);
    var e := db.ledger[key].event;
    assert Occurs(key, LedgerEvents(Changes(log)));
    assert HasDominant(key, LedgerEvents(Changes(log)));
    w :| w.key == e.key && Dominates(w, LedgerEvents(Changes(log)));
    WinnerIsStored(log, db, w);
  }

  lemma RunsAgree(log: seq<Arrival>, db: Db, log': seq<Arrival>, db': Db, changes: set<Change>, txId: string)
    requires Admissible(changes) && Processes(log, db, changes) && Processes(log', db', changes)
    requires forall r :: OtherPartOf(changes, txId, r) ==> !HiddenReceive(LedgerEvents(changes), r)
    ensures Keyed(db.ledger) && Keyed(db'.ledger) && AnswerTx(db, txId) == AnswerTx(db', txId)
  {
    SerialRunIsFaithful(log, db);
    SerialRunIsFaithful(log', db');
    AnswersConvergeIff(db, log, db', log', txId);
    if ReadsPairOnly(db, txId) {
      var r := db.ledger[txId].event.body.relatedId.value;
      ShownIsOtherPart(log, db, txId, r);
      ReceiveIndexedIsDetermined(log, db, log', db', changes, r);
    }
  }

  lemma RunsDiffer(changes: set<Change>, txId: string, r: string)
    returns (log: seq<Arrival>, db: Db, log': seq<Arrival>, db': Db)
    requires Admissible(changes) && OtherPartOf(changes, txId, r) && HiddenReceive(LedgerEvents(changes), r)
    ensures Processes(log, db, changes) && Processes(log', db', changes)
    ensures Keyed(db.ledger) && Keyed(db'.ledger) && AnswerTx(db, txId) != AnswerTx(db', txId)
  {
    log, db := HiddenLegLast(changes, r);
    log', db' := HiddenLegFirst(changes, r);
    SerialRunIsFaithful(log, db);
    SerialRunIsFaithful(log', db');
    AnswersConvergeIff(db, log, db', log', txId);
    OtherPartIsShown(log, db, txId, r);
  }

  /** The end-to-end theorem for clocks that do not step back. For admissible changes, a transaction
      has one answer over all such serial runs, in any order and with any repetition, if and only if
      it is not a non-leg part of an order whose RECEIVE leg is hidden from the index. */
  lemma EndToEnd(changes: set<Change>, txId: string)
    requires Admissible(changes)
    ensures OneAnswer(changes, txId)
            <==> forall r :: OtherPartOf(changes, txId, r) ==> !HiddenReceive(LedgerEvents(changes), r)
  {
    if forall r :: OtherPartOf(changes, txId, r) ==> !HiddenReceive(LedgerEvents(changes), r) {
      forall log, db, log', db' | Processes(log, db, changes) && Processes(log', db', changes)
        ensures Keyed(db.ledger) && Keyed(db'.ledger) && AnswerTx(db, txId) == AnswerTx(db', txId)
      {
        RunsAgree(log, db, log', db', changes, txId);
      }
    } else {
      var r :| OtherPartOf(changes, txId, r) && HiddenReceive(LedgerEvents(changes), r);
      var log, db, log', db' := RunsDiffer(changes, txId, r);
    }
  }

  // ---------------------------------------------------------------- the two views

  /** In serial runs whose pair clock does not step back and whose events of the order are all eligible,
      the order response and the response for each of its PAYMENT and RECEIVE entries report the same
      status. */
  lemma ViewsCoincide(log: seq<Arrival>, db: Db, orderId: string, txId: string)
    requires Leads(EMPTY, log, db) && PairClockForward(log)
    requires StableIdentity(LedgerEvents(Changes(log))) && WellFormed(LedgerEvents(Changes(log)))
    requires AllEligible(LedgerEvents(Changes(log)), orderId)
    requires InOrderView(db, orderId, txId) && IsLegType(TypeOf(db.ledger[txId]))
    ensures Keyed(db.ledger) && AnswerTx(db, txId).value.view.status == OrderStatus(db, orderId)
  {
    SerialRunIsFaithful(log, db);
    StoredEvents(db, log);
    assert Eligible(db.ledger[txId].event);
    ReadRepairExact(db, txId);
    ReadRepair(db, db.ledger, txId);
    IndexAgrees(log, db, orderId);
    var rows :| Listing(rows, db.ledger, orderId) && AgreesWith(db.pairs, orderId, rows);
    assert db.ledger[txId] in rows;
    CompleteIffBothLegs(db, rows, orderId, txId);
  }

  lemma CompleteIffBothLegs(db: Db, rows: seq<LedgerRow>, orderId: string, txId: string)
    requires NamedRows(db.ledger) && Listing(rows, db.ledger, orderId)
    requires txId in db.ledger && db.ledger[txId] in rows && IsLegType(TypeOf(db.ledger[txId]))
    ensures Compute(rows, None, 0).complete <==> HasPeer(db.ledger, db.ledger[txId])
    ensures Compute(rows, None, 0).complete ==>
              Truthy(Compute(rows, None, 0).pair.paymentTxId) && Truthy(Compute(rows, None, 0).pair.receiveTxId)
  {
    FirstIsListed(rows, PAYMENT);
    FirstIsListed(rows, RECEIVE);
    var entry := db.ledger[txId];
    var other := FirstOfType(rows, Opposite(TypeOf(entry)));
    if HasPeer(db.ledger, entry) {
      var key :| IsPeer(db.ledger, entry, key);
      assert db.ledger[key] in rows;
    }
    if other.Some? {
      assert IsPeer(db.ledger, entry, other.value.event.key);
    }
  }

  // ---------------------------------------------------------------- the index converges where it is exact

  /** Every listed event is listed in `rows'` too. */
  ghost predicate Covers(rows: seq<LedgerRow>, rows': seq<LedgerRow>) {
    forall row | row in rows :: exists row' :: row' in rows' && row'.event == row.event
  }

  lemma ListedInBoth(db: Db, db': Db, r: string, rows: seq<LedgerRow>, rows': seq<LedgerRow>)
    requires Contents(db.ledger) == Contents(db'.ledger)
    requires Listing(rows, db.ledger, r) && Listing(rows', db'.ledger, r)
    ensures Covers(rows, rows')
  {
    forall row | row in rows
      ensures exists row' :: row' in rows' && row'.event == row.event
    {
      SameEvents(db.ledger, db'.ledger, row.event.key);
      assert db'.ledger[row.event.key] in rows';
    }
  }

  predicate SameEventIn(row: Option<LedgerRow>, row': Option<LedgerRow>) {
    if row.None? then row'.None? else row'.Some? && row.value.event == row'.value.event
  }

  lemma SameFirst(rows: seq<LedgerRow>, rows': seq<LedgerRow>, ledger: LedgerTable, r: string, entryType: string)
    requires OneLegEach(ledger) && Listing(rows, ledger, r) && r != "" && IsLegType(entryType)
    requires Covers(rows, rows') && Covers(rows', rows)
    ensures SameEventIn(FirstOfType(rows, entryType), FirstOfType(rows', entryType))
  {
    FirstIsListed(rows, entryType);
    FirstIsListed(rows', entryType);
    var first, first' := FirstOfType(rows, entryType), FirstOfType(rows', entryType);
    if first.Some? {
      var row' :| row' in rows' && row'.event == first.value.event;
      assert first'.Some?;
    }
    if first'.Some? {
      var row :| row in rows && row.event == first'.value.event;
      OnlyOfType(rows, ledger, r, row, first.value);
    }
  }

  lemma OnlyOfType(rows: seq<LedgerRow>, ledger: LedgerTable, r: string, row: LedgerRow, row': LedgerRow)
    requires OneLegEach(ledger) && Listing(rows, ledger, r) && r != "" && row in rows && row' in rows
    requires TypeOf(row) == TypeOf(row') && IsLegType(TypeOf(row))
    ensures row == row'
  {}

  lemma LatestCovered(rows: seq<LedgerRow>, rows': seq<LedgerRow>)
    requires Covers(rows, rows')
    ensures LatestTime(rows).Some? ==> LatestTime(rows').Some? && LatestTime(rows').value >= LatestTime(rows).value
  {}

  lemma SameParts(rows: seq<LedgerRow>, rows': seq<LedgerRow>)
    requires SameEventIn(FirstOfType(rows, PAYMENT), FirstOfType(rows', PAYMENT))
    requires SameEventIn(FirstOfType(rows, RECEIVE), FirstOfType(rows', RECEIVE))
    requires LatestTime(rows) == LatestTime(rows')
    ensures SameLegs(Compute(rows, None, 0).pair, Compute(rows', None, 0).pair)
  {}

  /** A recomputation depends on the events of the listing and, with one leg of each type, not on its order. */
  lemma ListingDoesNotMatter(db: Db, db': Db, r: string, rows: seq<LedgerRow>, rows': seq<LedgerRow>)
    requires Contents(db.ledger) == Contents(db'.ledger) && OneLegEach(db.ledger) && r != ""
    requires Listing(rows, db.ledger, r) && Listing(rows', db'.ledger, r)
    ensures rows == [] <==> rows' == []
    ensures SameLegs(Compute(rows, None, 0).pair, Compute(rows', None, 0).pair)
  {
    ListedInBoth(db, db', r, rows, rows');
    ListedInBoth(db', db, r, rows', rows);
    SameFirst(rows, rows', db.ledger, r, PAYMENT);
    SameFirst(rows, rows', db.ledger, r, RECEIVE);
    LatestCovered(rows, rows');
    LatestCovered(rows', rows);
    assert LatestTime(rows).None? <==> rows == [];
    assert LatestTime(rows').None? <==> rows' == [];
    SameParts(rows, rows');
  }

  /** Two serial runs of the same changes, whose pair clocks do not step back, hold the same pair row, up
      to amount, status and clock columns, for every related id whose events are all eligible. */
  lemma SerialIndexesAgree(log: seq<Arrival>, db: Db, log': seq<Arrival>, db': Db, r: string)
    requires Leads(EMPTY, log, db) && Leads(EMPTY, log', db')
    requires Changes(log) == Changes(log') && Admissible(Changes(log))
    requires AllEligible(LedgerEvents(Changes(log)), r) && PairClockForward(log) && PairClockForward(log')
    ensures r in db.pairs <==> r in db'.pairs
    ensures r in db.pairs ==> SameLegs(db.pairs[r].pair, db'.pairs[r].pair)
  {
    SerialRunIsFaithful(log, db);
    SerialRunIsFaithful(log', db');
    LedgerIsAdmissible(db, log);
    TablesConverge(db, log, db', log');
    var rows := AgreedRows(log, db, r);
    var rows' := AgreedRows(log', db', r);
    if r == "" {
      NothingListed(db, log, rows);
      NothingListed(db', log', rows');
    } else {
      ListingDoesNotMatter(db, db', r, rows, rows');
    }
  }

  lemma AgreedRows(log: seq<Arrival>, db: Db, r: string) returns (rows: seq<LedgerRow>)
    requires Leads(EMPTY, log, db) && StableIdentity(LedgerEvents(Changes(log)))
    requires AllEligible(LedgerEvents(Changes(log)), r) && PairClockForward(log)
    ensures Listing(rows, db.ledger, r) && AgreesWith(db.pairs, r, rows)
  {
    IndexAgrees(log, db, r);
    rows :| Listing(rows, db.ledger, r) && AgreesWith(db.pairs, r, rows);
  }

  lemma NothingListed(db: Db, log: seq<Arrival>, rows: seq<LedgerRow>)
    requires Faithful(db, log) && AllEligible(LedgerEvents(Changes(log)), "") && Listing(rows, db.ledger, "")
    ensures rows == []
  {
    assert rows != [] ==> rows[0] in rows;
    StoredEvents(db, log);
    assert forall row | row in rows :: row.event in LedgerEvents(Changes(log));
  }
}
