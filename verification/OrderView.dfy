/**
 The order response under concurrency (src/db/admin_tx.py:66-115). The order, its entries and its
 pair are read by three statements, and the lookup of one of the entries by two more; workers may
 commit between any of them.
 */
module OrderView {
  import opened Wrappers
  import opened LatestWins
  import opened Pairing
  import opened Store
  import opened History
  import opened Lookups
  import opened Convergence
  import opened Interleaving

  /** `s` is the state after the first `i` actions. */
  ghost predicate Reached(actions: seq<Action>, i: nat, s: Sys) { i <= |actions| && Exec(actions[..i]) == Some(s) }

  /** Of two states of a run, the later holds the rows of the earlier, and its pairs name rows. */
  lemma Later(actions: seq<Action>, i: nat, s: Sys, j: nat, s': Sys, changes: set<Change>)
    requires Within(actions, changes) && StableIdentity(LedgerEvents(changes)) && WellFormed(LedgerEvents(changes))
    requires i <= j && Reached(actions, i, s) && Reached(actions, j, s')
    ensures IdentityKept(s.db.ledger, s'.db.ledger) && s.db.orders.Keys <= s'.db.orders.Keys
    ensures NamedRows(s'.db.ledger) && PairsSound(s'.db)
  {
    var first, more := actions[..i], actions[i..j];
    assert first + more == actions[..j];
    assert Within(first + more, changes);
    WithinPrefix(first, more, changes);
    LaterLedger(first, more, s, s', changes);
    CommittedRowsAreNamed(first + more, s', changes);
    var later := LaterHistory(first, more, s, s', changes);
    FoldOfLog(OrderArrivals(s.history));
    FoldOfLog(OrderArrivals(s.history) + OrderArrivals(later));
  }

  /** The entry's `related_type` leaves room for a payment order. */
  predicate ShownAs(entry: LedgerRow) {
    var relatedType := entry.event.body.relatedType;
    !Truthy(relatedType) || relatedType.value == PAYMENT_ORDER
  }

  // ---------------------------------------------------------------- on tables

  function PartnerIn(pair: PairBody, entry: LedgerRow): Option<string> {
    if TypeOf(entry) == PAYMENT then pair.receiveTxId else if TypeOf(entry) == RECEIVE then pair.paymentTxId else None
  }

  /** A complete pair names an opposite leg for each leg that was listed before, and a PAYMENT for any other entry. */
  lemma CompletePairNamesPeers(ledger: LedgerTable, db: Db, orderId: string, txId: string)
    requires NamedRows(ledger) && IdentityKept(ledger, db.ledger) && PairsSound(db) && PairUsable(PairOf(db, orderId))
    requires txId in ledger && Matches(ledger[txId], orderId)
    ensures var entry, pair := ledger[txId], PairOf(db, orderId).value;
            if IsLegType(TypeOf(entry)) then
              PartnerIn(pair, entry).Some? && IsPeer(db.ledger, entry, PartnerIn(pair, entry).value)
            else IsPeer(db.ledger, entry, pair.paymentTxId.value)
  {
    assert PairSound(PairOf(db, orderId).value, orderId, db.ledger);
    assert Identity(db.ledger[txId].event) == Identity(ledger[txId].event);
  }

  /** Peers stay peers, also of the entry's later row. */
  lemma PeerStays(ledger: LedgerTable, entry: LedgerRow, ledger': LedgerTable, entry': LedgerRow, key: string)
    requires IsPeer(ledger, entry, key) && IdentityKept(ledger, ledger')
    requires entry'.event.key == entry.event.key && Identity(entry'.event) == Identity(entry.event)
    ensures IsPeer(ledger', entry', key)
  {}

  lemma ShownIffPairable(db: Db, later: LedgerTable, txId: string)
    requires Keyed(later) && txId in db.ledger && Truthy(db.ledger[txId].event.body.relatedId)
    requires db.ledger[txId].event.body.relatedId.value in db.orders
    ensures var context := FetchTxContext(db, later, txId).value;
            && (Pairable(context) <==> ShownAs(db.ledger[txId]))
            && (PairingOf(context).status == UNKNOWN <==> !ShownAs(db.ledger[txId]))
  {}

  /** The lookup of an entry of another type, in two statements. */
  lemma OtherEntry(db: Db, later: LedgerTable, txId: string, payment: string)
    requires PairsSound(db) && NamedRows(db.ledger) && NamedRows(later) && IdentityKept(db.ledger, later)
    requires txId in db.ledger && !IsLegType(TypeOf(db.ledger[txId])) && Pairable(FetchTxContext(db, later, txId).value)
    requires IsPeer(later, db.ledger[txId], payment)
    ensures var view := PairingOf(FetchTxContext(db, later, txId).value);
            && (view.status == COMPLETE <==> ReceiveIndexed(db, db.ledger[txId].event.body.relatedId.value))
            && view.pairedTxId == None
  {
    var context := FetchTxContext(db, later, txId).value;
    if context.pair.Some? {
      assert PairSound(context.pair.value, context.entry.event.body.relatedId.value, db.ledger);
    }
  }

  // ---------------------------------------------------------------- along a run

  /** What the order response says of one of its entries: COMPLETE exactly if the order is, and then
      a leg is listed with a committed opposite leg. */
  lemma OrderEntryUnderConcurrency(
    actions: seq<Action>, j: nat, s2: Sys, k: nat, s3: Sys, changes: set<Change>, orderId: string, txId: string)
    requires Within(actions, changes) && StableIdentity(LedgerEvents(changes)) && WellFormed(LedgerEvents(changes))
    requires j <= k && Reached(actions, j, s2) && Reached(actions, k, s3)
    requires txId in s2.db.ledger && Matches(s2.db.ledger[txId], orderId) && orderId != ""
    ensures var entry, pair := s2.db.ledger[txId], PairOf(s3.db, orderId);
            var item := BuildEntryItem(entry, pair);
            && (item.status == COMPLETE <==> OrderStatusOf(s2.db.ledger, pair, orderId) == COMPLETE)
            && (item.status == COMPLETE && IsLegType(TypeOf(entry)) ==>
                  item.pairedTxId.Some? && IsPeer(s3.db.ledger, entry, item.pairedTxId.value))
  {
    Later(actions, j, s2, j, s2, changes);
    Later(actions, j, s2, k, s3, changes);
    if PairUsable(PairOf(s3.db, orderId)) {
      CompletePairNamesPeers(s2.db.ledger, s3.db, orderId, txId);
    }
  }

  /** The lookup of an order's entry, in two statements, reads COMPLETE exactly if the entry's own
      `related_type` does not say otherwise and the entry is a leg, or the pair has the RECEIVE leg. */
  ghost predicate ShownAfterOrder(db: Db, later: LedgerTable, orderId: string, txId: string)
    requires txId in db.ledger && Keyed(later)
  {
    var entry, view := db.ledger[txId], PairingOf(FetchTxContext(db, later, txId).value);
    && (view.status == COMPLETE <==> ShownAs(entry) && (IsLegType(TypeOf(entry)) || ReceiveIndexed(db, orderId)))
    && (view.status == UNKNOWN <==> !ShownAs(entry))
  }

  /** If it does, it names the partner that the order response listed. */
  ghost predicate SamePartner(item: EntryItem, db: Db, later: LedgerTable, txId: string)
    requires txId in db.ledger && Keyed(later)
  {
    var view := PairingOf(FetchTxContext(db, later, txId).value);
    view.status == COMPLETE ==> view.pairedTxId == item.pairedTxId
  }

  /** If the order reads COMPLETE, a lookup of one of its entries that begins after it reads COMPLETE
      too, unless the entry's own `related_type` says otherwise, or the entry is no leg and the pair
      has lost the RECEIVE leg by then. */
  lemma OrderThenTxUnderConcurrency(
    actions: seq<Action>, i: nat, s1: Sys, j: nat, s2: Sys, k: nat, s3: Sys, l: nat, s4: Sys, m: nat, s5: Sys,
    changes: set<Change>, orderId: string, txId: string)
    requires Within(actions, changes) && StableIdentity(LedgerEvents(changes)) && WellFormed(LedgerEvents(changes))
    requires i <= j <= k <= l <= m && Reached(actions, i, s1) && Reached(actions, j, s2) && Reached(actions, k, s3)
    requires Reached(actions, l, s4) && Reached(actions, m, s5)
    requires orderId in s1.db.orders && txId in s2.db.ledger && Matches(s2.db.ledger[txId], orderId) && orderId != ""
    requires OrderStatusOf(s2.db.ledger, PairOf(s3.db, orderId), orderId) == COMPLETE
    ensures txId in s4.db.ledger && Keyed(s5.db.ledger) && ShownAfterOrder(s4.db, s5.db.ledger, orderId, txId)
  {
    ReadInTurn(actions, i, s1, j, s2, k, s3, l, s4, m, s5, changes);
    TxAfterOrder(s2.db.ledger, s3.db, s4.db, s5.db.ledger, orderId, txId);
  }

  /** With single legs it then names the partner that the order response listed. */
  lemma SamePartnerUnderConcurrency(
    actions: seq<Action>, i: nat, s1: Sys, j: nat, s2: Sys, k: nat, s3: Sys, l: nat, s4: Sys, m: nat, s5: Sys,
    changes: set<Change>, orderId: string, txId: string)
    requires Within(actions, changes) && StableIdentity(LedgerEvents(changes)) && WellFormed(LedgerEvents(changes))
    requires SingleLegs(LedgerEvents(changes))
    requires i <= j <= k <= l <= m && Reached(actions, i, s1) && Reached(actions, j, s2) && Reached(actions, k, s3)
    requires Reached(actions, l, s4) && Reached(actions, m, s5)
    requires orderId in s1.db.orders && txId in s2.db.ledger && Matches(s2.db.ledger[txId], orderId) && orderId != ""
    requires OrderStatusOf(s2.db.ledger, PairOf(s3.db, orderId), orderId) == COMPLETE
    ensures txId in s4.db.ledger && Keyed(s5.db.ledger)
    ensures SamePartner(BuildEntryItem(s2.db.ledger[txId], PairOf(s3.db, orderId)), s4.db, s5.db.ledger, txId)
  {
    ReadInTurn(actions, i, s1, j, s2, k, s3, l, s4, m, s5, changes);
    SingleLegsStored(actions, m, s5, changes);
    TxAfterOrder(s2.db.ledger, s3.db, s4.db, s5.db.ledger, orderId, txId);
  }

  /** The tables that four statements read, one after the other. */
  ghost predicate Turns(ledger2: LedgerTable, db3: Db, db4: Db, ledger5: LedgerTable) {
    && NamedRows(ledger2) && NamedRows(db4.ledger) && NamedRows(ledger5) && PairsSound(db3) && PairsSound(db4)
    && IdentityKept(ledger2, db3.ledger) && IdentityKept(db3.ledger, db4.ledger) && IdentityKept(db4.ledger, ledger5)
  }

  lemma ReadInTurn(
    actions: seq<Action>, i: nat, s1: Sys, j: nat, s2: Sys, k: nat, s3: Sys, l: nat, s4: Sys, m: nat, s5: Sys,
    changes: set<Change>)
    requires Within(actions, changes) && StableIdentity(LedgerEvents(changes)) && WellFormed(LedgerEvents(changes))
    requires i <= j <= k <= l <= m && Reached(actions, i, s1) && Reached(actions, j, s2) && Reached(actions, k, s3)
    requires Reached(actions, l, s4) && Reached(actions, m, s5)
    ensures s1.db.orders.Keys <= s4.db.orders.Keys && Turns(s2.db.ledger, s3.db, s4.db, s5.db.ledger)
  {
    Later(actions, i, s1, l, s4, changes);
    Later(actions, j, s2, j, s2, changes);
    Later(actions, j, s2, k, s3, changes);
    Later(actions, k, s3, l, s4, changes);
    Later(actions, l, s4, m, s5, changes);
  }

  lemma SingleLegsStored(actions: seq<Action>, i: nat, s: Sys, changes: set<Change>)
    requires Within(actions, changes) && StableIdentity(LedgerEvents(changes)) && SingleLegs(LedgerEvents(changes))
    requires Reached(actions, i, s)
    ensures OneLegEach(s.db.ledger)
  {
    assert actions == actions[..i] + actions[i..];
    WithinPrefix(actions[..i], actions[i..], changes);
    InterleavedRunIsFaithful(actions[..i], s, changes);
    FewerEvents(Changes(s.history), changes);
    StoredEvents(s.db, s.history);
  }

  /** The same on the tables that the statements read. */
  lemma TxAfterOrder(ledger2: LedgerTable, db3: Db, db4: Db, ledger5: LedgerTable, orderId: string, txId: string)
    requires Turns(ledger2, db3, db4, ledger5)
    requires txId in ledger2 && Matches(ledger2[txId], orderId) && orderId != "" && orderId in db4.orders
    requires PairUsable(PairOf(db3, orderId))
    ensures txId in db4.ledger
    ensures ShownAfterOrder(db4, ledger5, orderId, txId)
    ensures OneLegEach(ledger5) ==> SamePartner(BuildEntryItem(ledger2[txId], PairOf(db3, orderId)), db4, ledger5, txId)
  {
    var entry, entry', pair := ledger2[txId], db4.ledger[txId], PairOf(db3, orderId).value;
    assert Identity(db3.ledger[txId].event) == Identity(entry.event) && Identity(entry'.event) == Identity(entry.event);
    CompletePairNamesPeers(ledger2, db3, orderId, txId);
    ShownIffPairable(db4, ledger5, txId);
    var key := if IsLegType(TypeOf(entry)) then PartnerIn(pair, entry).value else pair.paymentTxId.value;
    PeerStays(db3.ledger, entry, db4.ledger, entry', key);
    PeerStays(db4.ledger, entry', ledger5, entry', key);
    if ShownAs(entry') {
      if IsLegType(TypeOf(entry)) {
        ReadRepair(db4, ledger5, txId);
      } else {
        OtherEntry(db4, ledger5, txId, key);
      }
    }
  }
}
