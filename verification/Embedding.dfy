/**
 A transaction that no other statement interrupts does what the serial step does, whatever else
 is open, so every serial run is one of the interleaved runs.
 */
module Embedding {
  import opened Wrappers
  import opened LatestWins
  import opened Pairing
  import opened Store
  import opened History
  import opened SerialRuns
  import opened Convergence
  import opened Interleaving

  ghost predicate KeyFree(s: Sys, key: string) {
    forall v | v in s.open :: !s.open[v].HoldsLedger(key)
  }

  ghost predicate OrderFree(s: Sys, key: string) {
    forall v | v in s.open :: !s.open[v].HoldsOrder(key)
  }

  ghost predicate PairFree(s: Sys, relatedId: string) {
    forall v | v in s.open :: !s.open[v].HoldsPair(relatedId)
  }

  /** No open transaction stands in the way of one that handles the change. */
  ghost predicate Unblocked(s: Sys, change: Change) {
    match change
    case LedgerChange(e) => KeyFree(s, e.key) && (e.body.relatedId.Some? ==> PairFree(s, e.body.relatedId.value))
    case OrderChange(e) => OrderFree(s, e.key)
  }

  /** The state with worker `w` at a given point of its transaction. */
  function At(s: Sys, w: nat, t: Txn): Sys { s.(open := s.open[w := t]) }

  /** What a transaction that committed at once leaves. */
  function Done(s: Sys, db: Db, change: Change, ingested: int): Sys {
    Sys(db, s.open, s.history + [Arrival(change, Clock(ingested, ingested, ingested))])
  }

  predicate ServesOne(a: Action, change: Change, clock: Clock) {
    && (a.Begin? ==> a.change == change)
    && (Reading(a).Some? ==>
          Reading(a).value == clock.ingested || Reading(a).value == clock.computed || Reading(a).value == clock.paired)
  }

  /** The actions begin no transaction of another change, and read no other clock. */
  ghost predicate Serves(actions: seq<Action>, change: Change, clock: Clock) {
    forall a | a in actions :: ServesOne(a, change, clock)
  }

  predicate Statement(a: Action, w: nat) { !a.Begin? && !a.Commit? && !a.Rollback? && a.worker == w }

  ghost predicate Statements(actions: seq<Action>, w: nat) { forall i | 0 <= i < |actions| :: Statement(actions[i], w) }

  /** Statements of the worker, and its commit. */
  ghost predicate Finishes(actions: seq<Action>, w: nat) {
    && actions != [] && actions[|actions| - 1] == Commit(w)
    && Statements(actions[..|actions| - 1], w)
  }

  /** A whole transaction of the worker, and nothing else. */
  ghost predicate OneTransaction(actions: seq<Action>, w: nat, change: Change) {
    actions != [] && actions[0] == Begin(w, change) && Finishes(actions[1..], w)
  }

  lemma StatementsThen(first: seq<Action>, rest: seq<Action>, w: nat)
    requires Statements(first, w) && Finishes(rest, w)
    ensures Finishes(first + rest, w)
  {
    assert (first + rest)[..|first + rest| - 1] == first + rest[..|rest| - 1];
  }

  lemma BeginsThen(first: seq<Action>, rest: seq<Action>, w: nat, change: Change)
    requires first != [] && first[0] == Begin(w, change) && Statements(first[1..], w) && Finishes(rest, w)
    ensures OneTransaction(first + rest, w, change)
  {
    assert (first + rest)[1..] == first[1..] + rest;
    StatementsThen(first[1..], rest, w);
  }

  lemma Joined(actions: seq<Action>, first: seq<Action>, rest: seq<Action>, w: nat, change: Change, clock: Clock)
    returns (more: seq<Action>)
    requires Serves(first, change, clock) && Serves(rest, change, clock) && Statements(first, w) && Finishes(rest, w)
    ensures (actions + first) + rest == actions + more && Serves(more, change, clock) && Finishes(more, w)
  {
    more := first + rest;
    StatementsThen(first, rest, w);
  }

  lemma JoinedWhole(actions: seq<Action>, first: seq<Action>, rest: seq<Action>, w: nat, change: Change, clock: Clock)
    returns (more: seq<Action>)
    requires first != [] && first[0] == Begin(w, change) && Statements(first[1..], w)
    requires Serves(first, change, clock) && Serves(rest, change, clock) && Finishes(rest, w)
    ensures (actions + first) + rest == actions + more && Serves(more, change, clock) && OneTransaction(more, w, change)
  {
    more := first + rest;
    BeginsThen(first, rest, w, change);
  }

  lemma BeginAt(actions: seq<Action>, s: Sys, w: nat, change: Change)
    requires Exec(actions) == Some(s) && w !in s.open
    ensures Exec(actions + [Begin(w, change)]) == Some(At(s, w, Txn(change, 0, Begun, None, None, None)))
  {
    ExecStep(actions, s, Begin(w, change), At(s, w, Txn(change, 0, Begun, None, None, None)));
  }

  lemma AdvanceAt(actions: seq<Action>, s: Sys, w: nat, t: Txn, a: Action, t': Txn)
    requires w !in s.open && Exec(actions) == Some(At(s, w, t)) && Enabled(At(s, w, t), a)
    requires !a.Begin? && !a.Commit? && !a.Rollback? && a.worker == w && Advance(At(s, w, t), t, a) == t'
    ensures Exec(actions + [a]) == Some(At(s, w, t'))
  {
    assert At(s, w, t).open[w := t'] == s.open[w := t'];
    ExecStep(actions, At(s, w, t), a, At(s, w, t'));
  }

  lemma CommitAt(actions: seq<Action>, s: Sys, w: nat, t: Txn)
    requires w !in s.open && Exec(actions) == Some(At(s, w, t)) && t.stage == Finished
    ensures Exec(actions + [Commit(w)]) == Some(Done(s, Publish(s.db, t), t.change, t.ingested))
  {
    assert At(s, w, t).open - {w} == s.open;
    ExecStep(actions, At(s, w, t), Commit(w), Done(s, Publish(s.db, t), t.change, t.ingested));
  }

  // ---------------------------------------------------------------- order events

  function WroteOrder(db: Db, e: OrderEvent, ingested: int): Txn {
    Txn(OrderChange(e), ingested, Finished, None, Some(Put(db.orders, Row(e, ingested))[e.key]), None)
  }

  lemma UpToWriteOrder(actions: seq<Action>, s: Sys, w: nat, e: OrderEvent, clock: Clock) returns (more: seq<Action>)
    requires Exec(actions) == Some(s) && w !in s.open && OrderFree(s, e.key)
    ensures Exec(actions + more) == Some(At(s, w, WroteOrder(s.db, e, clock.ingested)))
    ensures Serves(more, OrderChange(e), clock)
    ensures more != [] && more[0] == Begin(w, OrderChange(e)) && Statements(more[1..], w)
  {
    var a1, a2 := Begin(w, OrderChange(e)), WriteOrder(w, clock.ingested);
    BeginAt(actions, s, w, OrderChange(e));
    AdvanceAt(actions + [a1], s, w, Txn(OrderChange(e), 0, Begun, None, None, None), a2,
              WroteOrder(s.db, e, clock.ingested));
    more := [a1, a2];
    assert actions + [a1] + [a2] == actions + more;
  }

  lemma TransactOrder(
    actions: seq<Action>, s: Sys, w: nat, e: OrderEvent, clock: Clock, db: Db) returns (more: seq<Action>)
    requires Exec(actions) == Some(s) && w !in s.open && OrderFree(s, e.key) && OrderStep(s.db, e, clock, db)
    ensures Exec(actions + more) == Some(Done(s, db, OrderChange(e), clock.ingested))
    ensures Serves(more, OrderChange(e), clock)
    ensures OneTransaction(more, w, OrderChange(e))
  {
    var table := Put(s.db.orders, Row(e, clock.ingested));
    assert s.db.orders[e.key := table[e.key]] == table;
    var first := UpToWriteOrder(actions, s, w, e, clock);
    CommitAt(actions + first, s, w, WroteOrder(s.db, e, clock.ingested));
    more := JoinedWhole(actions, first, [Commit(w)], w, OrderChange(e), clock);
  }

  // ---------------------------------------------------------------- ledger events

  /** A transaction that has written its ledger row, at a later stage. */
  function Wrote(db: Db, e: LedgerEvent, ingested: int, stage: Stage): Txn {
    Txn(LedgerChange(e), ingested, stage, Some(Put(db.ledger, Row(e, ingested))[e.key]), None, None)
  }

  lemma WroteView(db: Db, e: LedgerEvent, ingested: int, stage: Stage)
    ensures View(db, Wrote(db, e, ingested, stage)) == Put(db.ledger, Row(e, ingested))
  {
    var table := Put(db.ledger, Row(e, ingested));
    assert db.ledger[e.key := table[e.key]] == table;
  }

  /** Begin and ledger upsert. */
  lemma UpToWrite(actions: seq<Action>, s: Sys, w: nat, e: LedgerEvent, clock: Clock) returns (more: seq<Action>)
    requires Exec(actions) == Some(s) && w !in s.open && KeyFree(s, e.key)
    ensures Exec(actions + more)
            == Some(At(s, w, Wrote(s.db, e, clock.ingested, if Eligible(e) then Written else Finished)))
    ensures Serves(more, LedgerChange(e), clock)
    ensures more != [] && more[0] == Begin(w, LedgerChange(e)) && Statements(more[1..], w)
  {
    var a1, a2 := Begin(w, LedgerChange(e)), WriteLedger(w, clock.ingested);
    BeginAt(actions, s, w, LedgerChange(e));
    AdvanceAt(actions + [a1], s, w, Txn(LedgerChange(e), 0, Begun, None, None, None), a2,
              Wrote(s.db, e, clock.ingested, if Eligible(e) then Written else Finished));
    more := [a1, a2];
    assert actions + [a1] + [a2] == actions + more;
  }

  /** The scan and the order read. */
  lemma UpToReadOrder(actions: seq<Action>, s: Sys, w: nat, e: LedgerEvent, clock: Clock, rows: seq<LedgerRow>)
    returns (more: seq<Action>)
    requires w !in s.open && Eligible(e) && rows != []
    requires Exec(actions) == Some(At(s, w, Wrote(s.db, e, clock.ingested, Written)))
    requires Listing(rows, Put(s.db.ledger, Row(e, clock.ingested)), e.body.relatedId.value)
    ensures Exec(actions + more)
            == Some(At(s, w,
                  Wrote(s.db, e, clock.ingested, OrderRead(rows, Lookup(s.db.orders, e.body.relatedId.value)))))
    ensures Serves(more, LedgerChange(e), clock)
    ensures Statements(more, w)
  {
    var order := Lookup(s.db.orders, e.body.relatedId.value);
    var t0, t1 := Wrote(s.db, e, clock.ingested, Written), Wrote(s.db, e, clock.ingested, Scanned(rows));
    WroteView(s.db, e, clock.ingested, Written);
    AdvanceAt(actions, s, w, t0, Scan(w, rows), t1);
    AdvanceAt(actions + [Scan(w, rows)], s, w, t1, ReadOrder(w),
        Wrote(s.db, e, clock.ingested, OrderRead(rows, order)));
    more := [Scan(w, rows), ReadOrder(w)];
    assert actions + [Scan(w, rows)] + [ReadOrder(w)] == actions + more;
  }

  /** Where the guard's decision leaves the transaction. */
  function Judged(db: Db, e: LedgerEvent, ingested: int, rows: seq<LedgerRow>, computed: int): Txn
    requires Eligible(e)
  {
    var r := e.body.relatedId.value;
    var snapshot := Compute(rows, Lookup(db.orders, r), computed);
    Wrote(db, e, ingested,
        if ShouldUpdatePair(PairComplete(db.pairs, r), snapshot.complete) then PairRead(snapshot) else Finished)
  }

  /** All reads, up to the guard's decision. */
  lemma UpToReadPair(actions: seq<Action>, s: Sys, w: nat, e: LedgerEvent, clock: Clock, rows: seq<LedgerRow>)
    returns (more: seq<Action>)
    requires w !in s.open && Eligible(e) && rows != []
    requires Exec(actions) == Some(At(s, w, Wrote(s.db, e, clock.ingested, Written)))
    requires Listing(rows, Put(s.db.ledger, Row(e, clock.ingested)), e.body.relatedId.value)
    ensures Exec(actions + more) == Some(At(s, w, Judged(s.db, e, clock.ingested, rows, clock.computed)))
    ensures Serves(more, LedgerChange(e), clock)
    ensures Statements(more, w)
  {
    var first := UpToReadOrder(actions, s, w, e, clock, rows);
    var t := Wrote(s.db, e, clock.ingested, OrderRead(rows, Lookup(s.db.orders, e.body.relatedId.value)));
    AdvanceAt(actions + first, s, w, t, ReadPair(w, clock.computed),
        Judged(s.db, e, clock.ingested, rows, clock.computed));
    more := first + [ReadPair(w, clock.computed)];
    assert actions + first + [ReadPair(w, clock.computed)] == actions + more;
  }

  /** The pair write and the commit. */
  lemma WritePairAndCommit(actions: seq<Action>, s: Sys, w: nat, t: Txn, clock: Clock) returns (more: seq<Action>)
    requires w !in s.open && Exec(actions) == Some(At(s, w, t)) && t.stage.PairRead? && t.change.LedgerChange?
    requires PairFree(s, RelatedId(t))
    ensures var pairs := PutPair(s.db.pairs, RelatedId(t), PairRow(t.stage.snapshot.pair, clock.paired, clock.paired));
            Exec(actions + more) == Some(Done(s, Db(View(s.db, t), s.db.orders, pairs), t.change, t.ingested))
    ensures Serves(more, t.change, clock)
    ensures Finishes(more, w)
  {
    var pairs := PutPair(s.db.pairs, RelatedId(t), PairRow(t.stage.snapshot.pair, clock.paired, clock.paired));
    var t' := t.(ownPair := Some(pairs[RelatedId(t)]), stage := Finished);
    AdvanceAt(actions, s, w, t, WritePair(w, clock.paired), t');
    assert s.db.pairs[RelatedId(t) := pairs[RelatedId(t)]] == pairs;
    CommitAt(actions + [WritePair(w, clock.paired)], s, w, t');
    more := [WritePair(w, clock.paired), Commit(w)];
    assert actions + [WritePair(w, clock.paired)] + [Commit(w)] == actions + more;
  }

  lemma TransactLedger(
    actions: seq<Action>, s: Sys, w: nat, e: LedgerEvent, clock: Clock, db: Db) returns (more: seq<Action>)
    requires Exec(actions) == Some(s) && w !in s.open && Unblocked(s, LedgerChange(e)) && LedgerStep(s.db, e, clock, db)
    ensures Exec(actions + more) == Some(Done(s, db, LedgerChange(e), clock.ingested))
    ensures Serves(more, LedgerChange(e), clock)
    ensures OneTransaction(more, w, LedgerChange(e))
  {
    var first := UpToWrite(actions, s, w, e, clock);
    var rest;
    if Eligible(e) {
      var rows :| Listing(rows, db.ledger, e.body.relatedId.value)
                  && db.pairs == Refresh(s.db.pairs, s.db.orders, e.body.relatedId.value, rows, clock);
      assert db == AfterScan(s.db, e, rows, clock);
      rest := TransactEligible(actions + first, s, w, e, clock, rows);
    } else {
      WroteView(s.db, e, clock.ingested, Finished);
      CommitAt(actions + first, s, w, Wrote(s.db, e, clock.ingested, Finished));
      rest := [Commit(w)];
    }
    more := JoinedWhole(actions, first, rest, w, LedgerChange(e), clock);
  }

  /** The tables after an eligible event whose scan returned `rows`. */
  function AfterScan(db: Db, e: LedgerEvent, rows: seq<LedgerRow>, clock: Clock): Db
    requires Eligible(e)
  {
    Db(Put(db.ledger, Row(e, clock.ingested)), db.orders,
        Refresh(db.pairs, db.orders, e.body.relatedId.value, rows, clock))
  }

  lemma TransactEligible(actions: seq<Action>, s: Sys, w: nat, e: LedgerEvent, clock: Clock, rows: seq<LedgerRow>)
    returns (more: seq<Action>)
    requires w !in s.open && Eligible(e) && PairFree(s, e.body.relatedId.value)
    requires Listing(rows, Put(s.db.ledger, Row(e, clock.ingested)), e.body.relatedId.value)
    requires Exec(actions) == Some(At(s, w, Wrote(s.db, e, clock.ingested, Written)))
    ensures Exec(actions + more) == Some(Done(s, AfterScan(s.db, e, rows, clock), LedgerChange(e), clock.ingested))
    ensures Serves(more, LedgerChange(e), clock)
    ensures Finishes(more, w)
  {
    if rows == [] {
      more := ScanNothing(actions, s, w, e, clock);
    } else {
      var reading := UpToReadPair(actions, s, w, e, clock, rows);
      var rest := AfterReading(actions + reading, s, w, e, clock, rows);
      more := Joined(actions, reading, rest, w, LedgerChange(e), clock);
    }
  }

  lemma ScanNothing(actions: seq<Action>, s: Sys, w: nat, e: LedgerEvent, clock: Clock) returns (more: seq<Action>)
    requires w !in s.open && Eligible(e) && Exec(actions) == Some(At(s, w, Wrote(s.db, e, clock.ingested, Written)))
    requires Listing([], Put(s.db.ledger, Row(e, clock.ingested)), e.body.relatedId.value)
    ensures Exec(actions + more) == Some(Done(s, AfterScan(s.db, e, [], clock), LedgerChange(e), clock.ingested))
    ensures Serves(more, LedgerChange(e), clock)
    ensures Finishes(more, w)
  {
    var t0, t1 := Wrote(s.db, e, clock.ingested, Written), Wrote(s.db, e, clock.ingested, Finished);
    WroteView(s.db, e, clock.ingested, Written);
    WroteView(s.db, e, clock.ingested, Finished);
    AdvanceAt(actions, s, w, t0, Scan(w, []), t1);
    CommitAt(actions + [Scan(w, [])], s, w, t1);
    more := [Scan(w, []), Commit(w)];
    assert actions + [Scan(w, [])] + [Commit(w)] == actions + more;
  }

  lemma AfterReading(actions: seq<Action>, s: Sys, w: nat, e: LedgerEvent, clock: Clock, rows: seq<LedgerRow>)
    returns (more: seq<Action>)
    requires w !in s.open && Eligible(e) && PairFree(s, e.body.relatedId.value) && rows != []
    requires Exec(actions) == Some(At(s, w, Judged(s.db, e, clock.ingested, rows, clock.computed)))
    ensures Exec(actions + more) == Some(Done(s, AfterScan(s.db, e, rows, clock), LedgerChange(e), clock.ingested))
    ensures Serves(more, LedgerChange(e), clock)
    ensures Finishes(more, w)
  {
    var r := e.body.relatedId.value;
    var snapshot := Compute(rows, Lookup(s.db.orders, r), clock.computed);
    if ShouldUpdatePair(PairComplete(s.db.pairs, r), snapshot.complete) {
      var t := Wrote(s.db, e, clock.ingested, PairRead(snapshot));
      WroteView(s.db, e, clock.ingested, PairRead(snapshot));
      more := WritePairAndCommit(actions, s, w, t, clock);
    } else {
      WroteView(s.db, e, clock.ingested, Finished);
      CommitAt(actions, s, w, Wrote(s.db, e, clock.ingested, Finished));
      more := [Commit(w)];
    }
  }

  // ---------------------------------------------------------------- whole transactions, whole runs

  /** Every serial step, with any listing and any clock, is taken by an uninterrupted transaction,
      whatever other transactions are open, as long as none holds a row it needs. */
  lemma Transact(actions: seq<Action>, s: Sys, w: nat, change: Change, clock: Clock, db: Db) returns (more: seq<Action>)
    requires Exec(actions) == Some(s) && w !in s.open && Unblocked(s, change) && Step(s.db, change, clock, db)
    ensures Exec(actions + more) == Some(Done(s, db, change, clock.ingested)) && Serves(more, change, clock)
    ensures OneTransaction(more, w, change)
  {
    match change {
      case LedgerChange(e) => more := TransactLedger(actions, s, w, e, clock, db);
      case OrderChange(e) => more := TransactOrder(actions, s, w, e, clock, db);
    }
  }

  lemma WithinServes(actions: seq<Action>, more: seq<Action>, change: Change, clock: Clock, changes: set<Change>)
    requires Within(actions, changes) && Serves(more, change, clock) && change in changes
    ensures Within(actions + more, changes)
    ensures ReadsNoon(actions) && clock == NOON ==> ReadsNoon(actions + more)
  {
    forall a | a in actions + more
      ensures a in actions || ServesOne(a, change, clock)
    {}
  }

  ghost predicate AllUnblocked(s: Sys, log: seq<Arrival>) {
    forall arrival | arrival in log :: Unblocked(s, arrival.change)
  }

  /** A serial run from the committed tables is taken by one worker while the transactions of others stay open. */
  lemma {:induction false} TransactAll(
    actions: seq<Action>, s: Sys, w: nat, log: seq<Arrival>, db: Db, changes: set<Change>)
    returns (all: seq<Action>, history: seq<Arrival>)
    requires Exec(actions) == Some(s) && Within(actions, changes) && w !in s.open && AllUnblocked(s, log)
    requires Leads(s.db, log, db) && Changes(log) <= changes
    ensures Exec(all) == Some(Sys(db, s.open, history)) && Within(all, changes)
    ensures Changes(history) == Changes(s.history) + Changes(log)
    ensures ReadsNoon(actions) && AllNoon(log) ==> ReadsNoon(all)
    decreases |log|
  {
    if log == [] {
      all, history := actions, s.history;
    } else {
      var init, last := log[..|log| - 1], log[|log| - 1];
      assert log == init + [last];
      var before :| Leads(s.db, init, before) && Step(before, last.change, last.clock, db);
      ChangesSnoc(init, last);
      var first, earlier := TransactAll(actions, s, w, init, before, changes);
      var more;
      more, history := TransactLast(first, Sys(before, s.open, earlier), w, last, db, changes);
      all := first + more;
    }
  }

  lemma TransactLast(actions: seq<Action>, s: Sys, w: nat, last: Arrival, db: Db, changes: set<Change>)
    returns (more: seq<Action>, history: seq<Arrival>)
    requires Exec(actions) == Some(s) && Within(actions, changes) && w !in s.open && Unblocked(s, last.change)
    requires Step(s.db, last.change, last.clock, db) && last.change in changes
    ensures Exec(actions + more) == Some(Sys(db, s.open, history)) && Within(actions + more, changes)
    ensures Changes(history) == Changes(s.history) + {last.change}
    ensures ReadsNoon(actions) && last.clock == NOON ==> ReadsNoon(actions + more)
  {
    more := Transact(actions, s, w, last.change, last.clock, db);
    history := Done(s, db, last.change, last.clock.ingested).history;
    WithinServes(actions, more, last.change, last.clock, changes);
    ChangesSnoc(s.history, Arrival(last.change, Clock(last.clock.ingested, last.clock.ingested, last.clock.ingested)));
  }

  /** Every serial run, under any clock, is the run of one worker. */
  lemma SerialRunIsInterleaved(log: seq<Arrival>, db: Db, changes: set<Change>)
    returns (actions: seq<Action>, history: seq<Arrival>)
    requires Leads(EMPTY, log, db) && Changes(log) <= changes
    ensures Exec(actions) == Some(Sys(db, map[], history))
    ensures Within(actions, changes) && Changes(history) == Changes(log)
    ensures AllNoon(log) ==> ReadsNoon(actions)
  {
    actions, history := TransactAll([], START, 0, log, db, changes);
  }
}
