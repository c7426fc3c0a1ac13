/**
 The read side (src/db/admin_tx.py, src/api/service.py): what the lookups fetch, when they
 scan the ledger for the other leg, and the answer they derive.
 */
module Lookups {
  import opened Wrappers
  import opened LatestWins
  import opened Pairing
  import opened Store
  import opened History

  datatype PairingStatus = COMPLETE | INCOMPLETE | UNKNOWN

  // ---------------------------------------------------------------- the peer scan

  /** ORDER BY event_time DESC, tx_id. */
  predicate Preferred(a: LedgerRow, b: LedgerRow) {
    TimeOf(a) > TimeOf(b) || (TimeOf(a) == TimeOf(b) && TextBefore(a.event.key, b.event.key))
  }

  function Opposite(entryType: string): string {
    if entryType == PAYMENT then RECEIVE else PAYMENT
  }

  /** `key` satisfies the WHERE clause of the peer scan for `entry`. */
  predicate IsPeer(ledger: LedgerTable, entry: LedgerRow, key: string) {
    && key in ledger && key != entry.event.key
    && entry.event.body.relatedId.Some? && Matches(ledger[key], entry.event.body.relatedId.value)
    && TypeOf(ledger[key]) == Opposite(TypeOf(entry))
  }

  ghost predicate HasPeer(ledger: LedgerTable, entry: LedgerRow) {
    exists key :: IsPeer(ledger, entry, key)
  }

  ghost predicate FirstPeer(ledger: LedgerTable, entry: LedgerRow, key: string) {
    && IsPeer(ledger, entry, key)
    && forall other | IsPeer(ledger, entry, other) && other != key :: Preferred(ledger[key], ledger[other])
  }

  /** The scan's order is total on the rows of a table, so a nonempty result has a first row. */
  lemma PreferredRow(ledger: LedgerTable, keys: set<string>) returns (first: string)
    requires Keyed(ledger) && keys <= ledger.Keys && keys != {}
    ensures first in keys && forall other | other in keys && other != first :: Preferred(ledger[first], ledger[other])
  {
    first :| first in keys;
    if keys != {first} {
      var rest := PreferredRow(ledger, keys - {first});
      TextOrder(first, rest, rest);
      if Preferred(ledger[rest], ledger[first]) {
        first := rest;
      } else {
        forall other | other in keys && other != first
          ensures Preferred(ledger[first], ledger[other])
        {
          TextOrder(first, rest, other);
        }
      }
    }
  }

  /** The row is of the other type: RECEIVE for a PAYMENT, and PAYMENT for anything else. */
  predicate OppositeRow(entry: LedgerRow, row: LedgerRow) {
    && row.event.key != entry.event.key
    && entry.event.body.relatedId.Some? && row.event.body.relatedId == entry.event.body.relatedId
    && row.event.body.entryType == if entry.event.body.entryType == "PAYMENT" then "RECEIVE" else "PAYMENT"
  }

  /** `.scalars().first()` of the peer scan: of the rows of the other type the latest, and among
      equally late ones that with the smallest id. */
  ghost function FindPeer(ledger: LedgerTable, entry: LedgerRow): (peer: Option<LedgerRow>)
    requires Keyed(ledger)
    ensures peer.None? <==> !HasPeer(ledger, entry)
    ensures peer.Some? ==> IsPeer(ledger, entry, peer.value.event.key)
    ensures peer.None? <==> forall key | key in ledger :: !OppositeRow(entry, ledger[key])
    ensures peer.Some? ==>
              var row := peer.value;
              && row.event.key in ledger && ledger[row.event.key] == row && OppositeRow(entry, row)
              && forall key | key in ledger && OppositeRow(entry, ledger[key]) && key != row.event.key ::
                ledger[key].event.body.eventTime < row.event.body.eventTime
                || (ledger[key].event.body.eventTime == row.event.body.eventTime && SmallerText(row.event.key, key))
  {
    if HasPeer(ledger, entry) then
      assert exists key :: FirstPeer(ledger, entry, key) by {
        var keys := set key | key in ledger && IsPeer(ledger, entry, key);
        var some :| IsPeer(ledger, entry, some);
        assert some in keys;
        var first := PreferredRow(ledger, keys);
        assert FirstPeer(ledger, entry, first);
      }
      var key :| FirstPeer(ledger, entry, key);
      assert forall other | other in ledger && OppositeRow(entry, ledger[other]) :: IsPeer(ledger, entry, other);
      assert forall other | IsPeer(ledger, entry, other) && other != key ::
        Preferred(ledger[key], ledger[other]) && (TextBefore(key, other) ==> SmallerText(key, other)) by {
        SmallerTextIff();
      }
      Some(ledger[key])
    else
      assert forall key | key in ledger :: OppositeRow(entry, ledger[key]) ==> IsPeer(ledger, entry, key);
      None
  }

  // ---------------------------------------------------------------- one transaction

  datatype TxContext = TxContext(
    entry: LedgerRow, order: Option<OrderRow>, pair: Option<PairBody>, peer: Option<LedgerRow>)

  predicate PairUsable(pair: Option<PairBody>) {
    pair.Some? && Truthy(pair.value.paymentTxId) && Truthy(pair.value.receiveTxId)
  }

  /** The first statement reads `db`; the peer scan is a second statement and reads `later`. */
  ghost function FetchTxContext(db: Db, later: LedgerTable, txId: string): Option<TxContext>
    requires Keyed(later)
  {
    if txId !in db.ledger then None
    else
      var entry := db.ledger[txId];
      var relatedId := entry.event.body.relatedId;
      var order := if relatedId.Some? then Lookup(db.orders, relatedId.value) else None;
      var pair := if relatedId.Some? && relatedId.value in db.pairs then Some(db.pairs[relatedId.value].pair) else None;
      var peer := if Truthy(relatedId) && !PairUsable(pair) then FindPeer(later, entry) else None;
      Some(TxContext(entry, order, pair, peer))
  }

  function RelatedType(context: TxContext): string {
    if Truthy(context.entry.event.body.relatedType) then context.entry.event.body.relatedType.value
    else if context.order.Some? then PAYMENT_ORDER
    else "UNKNOWN"
  }

  /** The lookup treats the entry as a leg of a payment order. */
  predicate Pairable(context: TxContext) {
    Truthy(context.entry.event.body.relatedId) && RelatedType(context) == PAYMENT_ORDER
  }

  datatype PairingView = PairingView(
    status: PairingStatus, pairedTxId: Option<string>, payerWalletId: Option<string>, payeeWalletId: Option<string>)

  /** One side of the answer: the pair's value, else the peer's, else the entry's own. */
  function Side(
    fromPair: Option<string>, entryType: string, context: TxContext, read: LedgerRow -> string): Option<string> {
    var repaired :=
      if context.peer.Some? && TypeOf(context.peer.value) == entryType then OrElse(fromPair, read(context.peer.value))
      else fromPair;
    if TypeOf(context.entry) == entryType then OrElse(repaired, read(context.entry)) else repaired
  }

  function TxIdOf(row: LedgerRow): string { row.event.key }

  function WalletOf(row: LedgerRow): string { row.event.body.walletId }

  function PairingOf(context: TxContext): PairingView {
    if !Pairable(context) then PairingView(UNKNOWN, None, None, None)
    else
      var pair := if context.pair.Some? then context.pair.value else PairBody(None, None, None, None, None, None, None);
      var payment := Side(pair.paymentTxId, PAYMENT, context, TxIdOf);
      var receive := Side(pair.receiveTxId, RECEIVE, context, TxIdOf);
      PairingView(
        if Truthy(payment) && Truthy(receive) then COMPLETE else INCOMPLETE,
        if TypeOf(context.entry) == PAYMENT then receive
        else if TypeOf(context.entry) == RECEIVE then payment else None,
        Side(pair.payerWalletId, PAYMENT, context, WalletOf),
        Side(pair.payeeWalletId, RECEIVE, context, WalletOf))
  }

  /** `_resolve_pairing`, with its locals filled in step by step. */
  method ResolvePairing(context: TxContext) returns (view: PairingView)
    ensures view == PairingOf(context)
  {
    var entry := context.entry;
    if !Truthy(entry.event.body.relatedId) || RelatedType(context) != PAYMENT_ORDER {
      return PairingView(UNKNOWN, None, None, None);
    }
    var paymentTx, receiveTx, payer, payee: Option<string> := None, None, None, None;
    if context.pair.Some? {
      var pair := context.pair.value;
      paymentTx, receiveTx, payer, payee := pair.paymentTxId, pair.receiveTxId, pair.payerWalletId, pair.payeeWalletId;
    }
    if context.peer.Some? {
      var peer := context.peer.value;
      if TypeOf(peer) == PAYMENT {
        paymentTx, payer := OrElse(paymentTx, TxIdOf(peer)), OrElse(payer, WalletOf(peer));
      } else if TypeOf(peer) == RECEIVE {
        receiveTx, payee := OrElse(receiveTx, TxIdOf(peer)), OrElse(payee, WalletOf(peer));
      }
    }
    if TypeOf(entry) == PAYMENT {
      paymentTx, payer := OrElse(paymentTx, TxIdOf(entry)), OrElse(payer, WalletOf(entry));
    } else if TypeOf(entry) == RECEIVE {
      receiveTx, payee := OrElse(receiveTx, TxIdOf(entry)), OrElse(payee, WalletOf(entry));
    }
    var status := if Truthy(paymentTx) && Truthy(receiveTx) then COMPLETE else INCOMPLETE;
    var paired: Option<string> := None;
    if TypeOf(entry) == PAYMENT {
      paired := receiveTx;
    } else if TypeOf(entry) == RECEIVE {
      paired := paymentTx;
    }
    view := PairingView(status, paired, payer, payee);
  }

  /** The response for one transaction, without the clock-dependent `data_lag_sec`. */
  datatype TxAnswer = TxAnswer(
    event: LedgerEvent, relatedType: Option<string>,
    status: Option<string>, merchantName: Option<string>, view: PairingView)

  function BuildTxAnswer(context: TxContext): TxAnswer {
    TxAnswer(
      context.entry.event,
      if Truthy(context.entry.event.body.relatedId) then Some(RelatedType(context)) else None,
      if context.order.Some? then Some(context.order.value.event.body.status) else None,
      if context.order.Some? then context.order.value.event.body.merchantName else None,
      PairingOf(context))
  }

  ghost function AnswerTx(db: Db, txId: string): Option<TxAnswer>
    requires Keyed(db.ledger)
  {
    var context := FetchTxContext(db, db.ledger, txId);
    if context.None? then None else Some(BuildTxAnswer(context.value))
  }

  // ---------------------------------------------------------------- one order

  datatype EntryItem = EntryItem(txId: string, pairedTxId: Option<string>, status: PairingStatus)

  /** `_build_ledger_entry_item` as the order view calls it. */
  function BuildEntryItem(entry: LedgerRow, pair: Option<PairBody>): EntryItem {
    var body := entry.event.body;
    if !Truthy(body.relatedId) then EntryItem(entry.event.key, None, UNKNOWN)
    else if PairUsable(pair) then
      EntryItem(
        entry.event.key,
        if body.entryType == PAYMENT then pair.value.receiveTxId
        else if body.entryType == RECEIVE then pair.value.paymentTxId else None,
        COMPLETE)
    else if pair.Some? || body.relatedType.None? || body.relatedType.value == PAYMENT_ORDER then
      EntryItem(entry.event.key, None, INCOMPLETE)
    else EntryItem(entry.event.key, None, UNKNOWN)
  }

  ghost predicate InOrderView(db: Db, orderId: string, txId: string) {
    orderId in db.orders && txId in db.ledger && Matches(db.ledger[txId], orderId)
  }

  function PairOf(db: Db, orderId: string): Option<PairBody> {
    if orderId in db.pairs then Some(db.pairs[orderId].pair) else None
  }

  /** The overall pairing status of the order response, whose entries and pair two statements read. */
  ghost function OrderStatusOf(ledger: LedgerTable, pair: Option<PairBody>, orderId: string): PairingStatus {
    if PairUsable(pair) then COMPLETE
    else if exists key :: key in ledger && Matches(ledger[key], orderId) then INCOMPLETE
    else UNKNOWN
  }

  ghost function OrderStatus(db: Db, orderId: string): PairingStatus {
    OrderStatusOf(db.ledger, PairOf(db, orderId), orderId)
  }

  // ---------------------------------------------------------------- the answers, column by column

  /** What the response for a transaction holds besides its pairing, read off the tables. */
  ghost predicate AnswerColumns(db: Db, txId: string, answer: TxAnswer)
    requires txId in db.ledger
  {
    var entry := db.ledger[txId].event;
    var related := entry.body.relatedId.Some? && entry.body.relatedId.value != "";
    var ordered := entry.body.relatedId.Some? && entry.body.relatedId.value in db.orders;
    && answer.event == entry
    && answer.status == (if ordered then Some(db.orders[entry.body.relatedId.value].event.body.status) else None)
    && answer.merchantName == (if ordered then db.orders[entry.body.relatedId.value].event.body.merchantName else None)
    && answer.relatedType
       == (if !related then None
           else if entry.body.relatedType.Some? && entry.body.relatedType.value != "" then entry.body.relatedType
           else if ordered then Some("PAYMENT_ORDER") else Some("UNKNOWN"))
    && (answer.view.status == UNKNOWN <==> answer.relatedType != Some("PAYMENT_ORDER"))
    && (answer.view.status == UNKNOWN ==> answer.view == PairingView(UNKNOWN, None, None, None))
  }

  /** A transaction is found exactly if it is stored, and the response says what is stored. */
  lemma TxAnswerColumns(db: Db, txId: string)
    requires Keyed(db.ledger)
    ensures AnswerTx(db, txId).Some? <==> txId in db.ledger
    ensures txId in db.ledger ==> AnswerColumns(db, txId, AnswerTx(db, txId).value)
  {}

  /** An entry of the order response names its row; without both legs in the pair row it reads
      INCOMPLETE if the order has a pair row or the entry may belong to an order, and else UNKNOWN. */
  lemma EntryItemColumns(entry: LedgerRow, pair: Option<PairBody>)
    ensures var item, body := BuildEntryItem(entry, pair), entry.event.body;
            var related := body.relatedId.Some? && body.relatedId.value != "";
            var both := pair.Some? && pair.value.paymentTxId.Some? && pair.value.paymentTxId.value != ""
                        && pair.value.receiveTxId.Some? && pair.value.receiveTxId.value != "";
            && item.txId == entry.event.key
            && (item.status == COMPLETE <==> related && both)
            && (item.status == INCOMPLETE
                <==> related && !both
                     && (pair.Some? || body.relatedType == None || body.relatedType == Some("PAYMENT_ORDER")))
            && (item.status == UNKNOWN
                <==> !related
                     || (pair.None? && body.relatedType != None && body.relatedType != Some("PAYMENT_ORDER")))
            && item.pairedTxId
               == if item.status != COMPLETE then None
                  else if body.entryType == "PAYMENT" then pair.value.receiveTxId
                  else if body.entryType == "RECEIVE" then pair.value.paymentTxId else None
  {}

  /** The order as a whole reads COMPLETE with both legs in its pair row, else INCOMPLETE if any ledger
      row has its id, else UNKNOWN. */
  lemma OrderStatusColumns(db: Db, orderId: string)
    ensures var status := OrderStatus(db, orderId);
            && (status == COMPLETE
                <==> orderId in db.pairs
                     && db.pairs[orderId].pair.paymentTxId !in {None, Some("")}
                     && db.pairs[orderId].pair.receiveTxId !in {None, Some("")})
            && (status != COMPLETE ==> (status == INCOMPLETE <==> HasRow(db.ledger, orderId)))
  {
    if HasRow(db.ledger, orderId) {
      var key :| key in db.ledger && db.ledger[key].event.body.relatedId == Some(orderId);
      assert Matches(db.ledger[key], orderId);
    }
  }

  // ---------------------------------------------------------------- read-repair

  ghost predicate NamedRows(ledger: LedgerTable) {
    Keyed(ledger) && forall key | key in ledger :: key != "" && ledger[key].event.body.walletId != ""
  }

  ghost predicate OneLegEach(ledger: LedgerTable) {
    forall a, b | a in ledger && b in ledger && Truthy(ledger[a].event.body.relatedId)
                  && ledger[a].event.body.relatedId == ledger[b].event.body.relatedId
                  && TypeOf(ledger[a]) == TypeOf(ledger[b]) && IsLegType(TypeOf(ledger[a])) :: a == b
  }

  /** The partner a sound pair row names for `entry`, if any, is a peer of it. */
  lemma NamedLegIsPeer(db: Db, later: LedgerTable, entry: LedgerRow, pair: PairBody)
    requires entry.event.body.relatedId.Some? && PairSound(pair, entry.event.body.relatedId.value, db.ledger)
    requires NamedRows(later) && IdentityKept(db.ledger, later)
    requires entry.event.key in db.ledger && db.ledger[entry.event.key] == entry && IsLegType(TypeOf(entry))
    ensures var named := if TypeOf(entry) == PAYMENT then pair.receiveTxId else pair.paymentTxId;
            named.Some? ==> named.value != "" && IsPeer(later, entry, named.value)
  {}

  /** The partner the answer names: the pair's, else the one the scan found. */
  lemma PartnerOf(context: TxContext)
    requires Pairable(context) && IsLegType(TypeOf(context.entry)) && context.entry.event.key != ""
    requires context.peer.Some? ==>
              TypeOf(context.peer.value) == Opposite(TypeOf(context.entry)) && context.peer.value.event.key != ""
    ensures var view := PairingOf(context);
            var named := if context.pair.None? then None
                         else if TypeOf(context.entry) == PAYMENT then context.pair.value.receiveTxId
                         else context.pair.value.paymentTxId;
            && view.status != UNKNOWN
            && (view.status == COMPLETE <==> Truthy(view.pairedTxId))
            && view.pairedTxId == if context.peer.Some? then OrElse(named, context.peer.value.event.key) else named
  {}

  /** Whatever the pair row says, a leg that was committed before the lookup began is reported,
      and only committed legs are: a PAYMENT or RECEIVE entry reads COMPLETE if its opposite was
      in the ledger at the first statement, and only if it was there at the second. */
  lemma ReadRepair(db: Db, later: LedgerTable, txId: string)
    requires PairsSound(db) && NamedRows(db.ledger) && NamedRows(later) && IdentityKept(db.ledger, later)
    requires txId in db.ledger && IsLegType(TypeOf(db.ledger[txId]))
    requires Pairable(FetchTxContext(db, later, txId).value)
    ensures var entry, view := db.ledger[txId], PairingOf(FetchTxContext(db, later, txId).value);
            && (HasPeer(db.ledger, entry) ==> view.status == COMPLETE)
            && (view.status == COMPLETE ==> HasPeer(later, entry))
            && (view.status == COMPLETE <==> view.pairedTxId.Some?)
            && (view.pairedTxId.Some? ==> IsPeer(later, entry, view.pairedTxId.value))
            && view.status != UNKNOWN
  {
    var context := FetchTxContext(db, later, txId).value;
    var entry := context.entry;
    if context.pair.Some? {
      NamedLegIsPeer(db, later, entry, context.pair.value);
    }
    PartnerOf(context);
    if HasPeer(db.ledger, entry) {
      var key :| IsPeer(db.ledger, entry, key);
      assert IsPeer(later, entry, key);
    }
    var view := PairingOf(context);
    if view.pairedTxId.Some? {
      assert IsPeer(later, entry, view.pairedTxId.value);
    }
  }

  /** On one committed state the answer is exact. */
  lemma ReadRepairExact(db: Db, txId: string)
    requires PairsSound(db) && NamedRows(db.ledger)
    requires txId in db.ledger && IsLegType(TypeOf(db.ledger[txId]))
    requires Pairable(FetchTxContext(db, db.ledger, txId).value)
    ensures AnswerTx(db, txId).value.view.status == COMPLETE <==> HasPeer(db.ledger, db.ledger[txId])
  {
    ReadRepair(db, db.ledger, txId);
  }

  /** The entry's own side and the other one, as wallets of a view. */
  function OwnWallet(entry: LedgerRow, view: PairingView): Option<string> {
    if TypeOf(entry) == PAYMENT then view.payerWalletId else view.payeeWalletId
  }

  function OtherWallet(entry: LedgerRow, view: PairingView): Option<string> {
    if TypeOf(entry) == PAYMENT then view.payeeWalletId else view.payerWalletId
  }

  lemma LegAlone(db: Db, txId: string)
    requires PairsSound(db) && NamedRows(db.ledger) && OneLegEach(db.ledger)
    requires txId in db.ledger && IsLegType(TypeOf(db.ledger[txId]))
    requires Pairable(FetchTxContext(db, db.ledger, txId).value)
    ensures var entry, view := db.ledger[txId], AnswerTx(db, txId).value.view;
            && OwnWallet(entry, view) == Some(WalletOf(entry))
            && (!HasPeer(db.ledger, entry) ==>
                view.status == INCOMPLETE && view.pairedTxId == None && OtherWallet(entry, view) == None)
  {
    ReadRepair(db, db.ledger, txId);
    var context := FetchTxContext(db, db.ledger, txId).value;
    if context.pair.Some? {
      assert PairSound(context.pair.value, context.entry.event.body.relatedId.value, db.ledger);
    }
  }

  lemma LegWithPeer(db: Db, txId: string, key: string)
    requires PairsSound(db) && NamedRows(db.ledger) && OneLegEach(db.ledger)
    requires txId in db.ledger && IsLegType(TypeOf(db.ledger[txId]))
    requires Pairable(FetchTxContext(db, db.ledger, txId).value) && IsPeer(db.ledger, db.ledger[txId], key)
    ensures var entry, view := db.ledger[txId], AnswerTx(db, txId).value.view;
            view.status == COMPLETE && view.pairedTxId == Some(key)
              && OtherWallet(entry, view) == Some(WalletOf(db.ledger[key]))
  {
    ReadRepair(db, db.ledger, txId);
    var context := FetchTxContext(db, db.ledger, txId).value;
    if context.pair.Some? {
      assert PairSound(context.pair.value, context.entry.event.body.relatedId.value, db.ledger);
    }
  }

  /** With one leg of each type, the whole view of a leg is determined by the ledger. */
  lemma LegView(db: Db, txId: string)
    requires PairsSound(db) && NamedRows(db.ledger) && OneLegEach(db.ledger)
    requires txId in db.ledger && IsLegType(TypeOf(db.ledger[txId]))
    requires Pairable(FetchTxContext(db, db.ledger, txId).value)
    ensures var entry, view := db.ledger[txId], AnswerTx(db, txId).value.view;
            && OwnWallet(entry, view) == Some(WalletOf(entry))
            && (!HasPeer(db.ledger, entry) ==>
                view.status == INCOMPLETE && view.pairedTxId == None && OtherWallet(entry, view) == None)
            && (forall key | IsPeer(db.ledger, entry, key) ::
                  view.status == COMPLETE && view.pairedTxId == Some(key)
                    && OtherWallet(entry, view) == Some(WalletOf(db.ledger[key])))
  {
    LegAlone(db, txId);
    forall key | IsPeer(db.ledger, db.ledger[txId], key)
      ensures var entry, view := db.ledger[txId], AnswerTx(db, txId).value.view;
              view.status == COMPLETE && view.pairedTxId == Some(key)
                && OtherWallet(entry, view) == Some(WalletOf(db.ledger[key]))
    {
      LegWithPeer(db, txId, key);
    }
  }

  /** Looking up either leg returns the other, and both report the same sender and receiver. */
  lemma LookupSymmetry(db: Db, payment: string, receive: string)
    requires PairsSound(db) && NamedRows(db.ledger) && OneLegEach(db.ledger)
    requires payment in db.ledger && TypeOf(db.ledger[payment]) == PAYMENT
    requires receive in db.ledger && TypeOf(db.ledger[receive]) == RECEIVE
    requires db.ledger[payment].event.body.relatedId == db.ledger[receive].event.body.relatedId
    requires Pairable(FetchTxContext(db, db.ledger, payment).value)
    requires Pairable(FetchTxContext(db, db.ledger, receive).value)
    ensures AnswerTx(db, payment).value.view
            == PairingView(COMPLETE, Some(receive),
                Some(WalletOf(db.ledger[payment])), Some(WalletOf(db.ledger[receive])))
    ensures AnswerTx(db, receive).value.view == AnswerTx(db, payment).value.view.(pairedTxId := Some(payment))
  {
    LegView(db, payment);
    LegView(db, receive);
    assert IsPeer(db.ledger, db.ledger[payment], receive);
    assert IsPeer(db.ledger, db.ledger[receive], payment);
  }

  /** Entries of any other type are repaired on the payment side only: the receiver, and with it
      completeness, is whatever the pair row happens to hold. */
  lemma OtherView(db: Db, txId: string)
    requires PairsSound(db) && NamedRows(db.ledger) && OneLegEach(db.ledger)
    requires txId in db.ledger && !IsLegType(TypeOf(db.ledger[txId]))
    requires Pairable(FetchTxContext(db, db.ledger, txId).value)
    ensures var entry, view := db.ledger[txId], AnswerTx(db, txId).value.view;
            var pair := PairOf(db, entry.event.body.relatedId.value);
            var received := pair.Some? && pair.value.receiveTxId.Some?;
            && (view.status == COMPLETE <==> received && HasPeer(db.ledger, entry))
            && view.status != UNKNOWN && view.pairedTxId == None
            && (view.payerWalletId.Some? <==> HasPeer(db.ledger, entry))
            && (forall key | IsPeer(db.ledger, entry, key) :: view.payerWalletId == Some(WalletOf(db.ledger[key])))
            && (view.payeeWalletId.Some? <==> received)
            && (received ==> view.payeeWalletId == Some(WalletOf(db.ledger[pair.value.receiveTxId.value])))
  {
    var context := FetchTxContext(db, db.ledger, txId).value;
    var entry := context.entry;
    var r := entry.event.body.relatedId.value;
    if context.pair.Some? {
      assert PairSound(context.pair.value, r, db.ledger);
      if context.pair.value.paymentTxId.Some? {
        assert IsPeer(db.ledger, entry, context.pair.value.paymentTxId.value);
      }
    }
  }

  // ---------------------------------------------------------------- order view against tx view

  /** In any state of the tables, if the order reads COMPLETE then each of its entries is shown
      COMPLETE, and the tx view agrees, with the same partner, exactly for the entries whose own
      `related_type` does not say otherwise. */
  lemma OrderViewAgreesWithTxView(db: Db, orderId: string, txId: string)
    requires Keyed(db.ledger) && InOrderView(db, orderId, txId) && orderId != ""
    requires OrderStatus(db, orderId) == COMPLETE
    ensures var item, answer := BuildEntryItem(db.ledger[txId], PairOf(db, orderId)), AnswerTx(db, txId).value;
            var relatedType := db.ledger[txId].event.body.relatedType;
            && item.status == COMPLETE
            && (answer.view.status == COMPLETE <==> !Truthy(relatedType) || relatedType.value == PAYMENT_ORDER)
            && (answer.view.status == COMPLETE ==> answer.view.pairedTxId == item.pairedTxId)
            && (answer.view.status != COMPLETE ==> answer.view.status == UNKNOWN)
  {}
}
