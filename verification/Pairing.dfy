/**
 The derived pairing index (src/consumer/pairing.py): what one recomputation reads and
 produces, and the guard in front of its write.
 */
module Pairing {
  import opened Wrappers
  import opened LatestWins

  const PAYMENT := "PAYMENT"
  const RECEIVE := "RECEIVE"
  const PAYMENT_ORDER := "PAYMENT_ORDER"

  datatype LedgerBody = LedgerBody(
    walletId: string, entryType: string, amount: int, amountSigned: Option<int>,
    relatedId: Option<string>, relatedType: Option<string>, eventTime: int, createdAt: int)

  datatype OrderBody = OrderBody(
    userId: Option<string>, merchantName: Option<string>, amount: int, status: string, createdAt: int)

  type LedgerEvent = Event<LedgerBody>
  type LedgerRow = Row<LedgerBody>
  type OrderEvent = Event<OrderBody>
  type OrderRow = Row<OrderBody>

  /** The columns of a pair row that the recomputation fills in. */
  datatype PairBody = PairBody(
    paymentTxId: Option<string>, receiveTxId: Option<string>,
    payerWalletId: Option<string>, payeeWalletId: Option<string>,
    amount: Option<int>, status: Option<string>, eventTime: Option<int>)
  {
    /** The test the consumer makes before overwriting a stored pair. */
    predicate Complete() { paymentTxId.Some? && receiveTxId.Some? }
  }

  datatype PairRow = PairRow(pair: PairBody, updatedAt: int, ingestedAt: int)

  datatype PairingSnapshot = PairingSnapshot(pair: PairBody, complete: bool, incompleteAge: Option<int>, skipped: bool)

  function TypeOf(row: LedgerRow): string { row.event.body.entryType }

  function TimeOf(row: LedgerRow): int { row.event.body.eventTime }

  /** Position `i` holds the first listed entry of a type. */
  ghost predicate IsFirst(rows: seq<LedgerRow>, entryType: string, i: int) {
    && 0 <= i < |rows| && TypeOf(rows[i]) == entryType
    && (forall j | 0 <= j < i :: TypeOf(rows[j]) != entryType)
  }

  /** The first listed entry of a type. */
  function FirstOfType(rows: seq<LedgerRow>, entryType: string): (first: Option<LedgerRow>)
    ensures first.Some? ==> exists i :: IsFirst(rows, entryType, i) && rows[i] == first.value
    ensures first.None? ==> forall row | row in rows :: TypeOf(row) != entryType
  {
    if rows == [] then None
    else if TypeOf(rows[0]) == entryType then
      assert IsFirst(rows, entryType, 0);
      Some(rows[0])
    else
      var rest := FirstOfType(rows[1..], entryType);
      assert forall i | IsFirst(rows[1..], entryType, i) ::
        IsFirst(rows, entryType, i + 1) && rows[i + 1] == rows[1..][i];
      rest
  }

  /** The latest event time among the listed entries. */
  function LatestTime(rows: seq<LedgerRow>): (latest: Option<int>)
    ensures latest.None? <==> rows == []
    ensures latest.Some? ==> exists row :: row in rows && TimeOf(row) == latest.value
    ensures latest.Some? ==> forall row | row in rows :: TimeOf(row) <= latest.value
  {
    if rows == [] then None
    else
      var last := rows[|rows| - 1];
      assert rows == rows[..|rows| - 1] + [last];
      var rest := LatestTime(rows[..|rows| - 1]);
      if rest.None? || TimeOf(last) > rest.value then
        assert last in rows;
        Some(TimeOf(last))
      else rest
  }

  function AgeOf(now: int, eventTime: int): int { if now >= eventTime then now - eventTime else 0 }

  /** The snapshot a recomputation returns for the listed entries of one `related_id`. */
  function Compute(rows: seq<LedgerRow>, order: Option<OrderRow>, now: int): PairingSnapshot {
    var payment, receive := FirstOfType(rows, PAYMENT), FirstOfType(rows, RECEIVE);
    var complete := payment.Some? && receive.Some?;
    var eventTime := LatestTime(rows);
    PairingSnapshot(
      PairBody(
        if payment.Some? then Some(payment.value.event.key) else None,
        if receive.Some? then Some(receive.value.event.key) else None,
        if payment.Some? then Some(payment.value.event.body.walletId) else None,
        if receive.Some? then Some(receive.value.event.body.walletId) else None,
        if order.Some? then Some(order.value.event.body.amount)
        else if payment.Some? then Some(payment.value.event.body.amount)
        else if receive.Some? then Some(receive.value.event.body.amount) else None,
        if order.Some? then Some(order.value.event.body.status) else None,
        eventTime),
      complete,
      if complete || eventTime.None? then None else Some(AgeOf(now, eventTime.value)),
      false)
  }

  /** `next((e for e in entries if e.entry_type == ...), None)`. */
  method NextOfType(rows: seq<LedgerRow>, entryType: string) returns (first: Option<LedgerRow>)
    ensures first == FirstOfType(rows, entryType)
  {
    var i := 0;
    while i < |rows|
      invariant 0 <= i <= |rows|
      invariant FirstOfType(rows, entryType) == FirstOfType(rows[i..], entryType)
    {
      if TypeOf(rows[i]) == entryType {
        return Some(rows[i]);
      }
      assert rows[i..][1..] == rows[i + 1..];
      i := i + 1;
    }
    first := None;
  }

  /** The running maximum of event times. */
  method LatestEventTime(rows: seq<LedgerRow>) returns (eventTime: Option<int>)
    ensures eventTime == LatestTime(rows)
  {
    eventTime := None;
    for i := 0 to |rows|
      invariant eventTime == LatestTime(rows[..i])
    {
      assert rows[..i + 1][..i] == rows[..i];
      if eventTime.None? || TimeOf(rows[i]) > eventTime.value {
        eventTime := Some(TimeOf(rows[i]));
      }
    }
    assert rows[..|rows|] == rows;
  }

  /** The recomputation as the code runs it. */
  method ComputePairing(rows: seq<LedgerRow>, order: Option<OrderRow>, now: int) returns (snapshot: PairingSnapshot)
    ensures snapshot == Compute(rows, order, now)
    ensures snapshot.complete <==> snapshot.pair.Complete()
    ensures snapshot.incompleteAge.Some? ==> snapshot.incompleteAge.value >= 0 && !snapshot.complete
  {
    var payment := NextOfType(rows, PAYMENT);
    var receive := NextOfType(rows, RECEIVE);
    var complete := payment.Some? && receive.Some?;

    var eventTime := LatestEventTime(rows);

    var incompleteAge: Option<int> := None;
    if !complete && eventTime.Some? {
      incompleteAge := Some(AgeOf(now, eventTime.value));
    }

    var amount: Option<int>, status: Option<string> := None, None;
    if order.Some? {
      amount, status := Some(order.value.event.body.amount), Some(order.value.event.body.status);
    } else if payment.Some? {
      amount := Some(payment.value.event.body.amount);
    } else if receive.Some? {
      amount := Some(receive.value.event.body.amount);
    }

    var paymentTx, receiveTx, payer, payee: Option<string> := None, None, None, None;
    if payment.Some? {
      paymentTx, payer := Some(payment.value.event.key), Some(payment.value.event.body.walletId);
    }
    if receive.Some? {
      receiveTx, payee := Some(receive.value.event.key), Some(receive.value.event.body.walletId);
    }
    snapshot := PairingSnapshot(
      PairBody(paymentTx, receiveTx, payer, payee, amount, status, eventTime), complete, incompleteAge, false);
  }

  /** A complete pair is never rewritten as an incomplete one. */
  predicate ShouldUpdatePair(existingComplete: bool, newComplete: bool) {
    !(existingComplete && !newComplete)
  }
}
