/**
 Serial runs whose clock may step back. The pair table is then no longer exact, because a
 recomputation stamped earlier than the stored pair is refused; what the answers keep of the
 end-to-end property, and exactly when they keep it all.
 */
module AnyClock {
  import opened Wrappers
  import opened LatestWins
  import opened Pairing
  import opened Store
  import opened History
  import opened SerialRuns
  import opened Lookups
  import opened Convergence

  /** A serial run of the changes under any clock. */
  ghost predicate Runs(log: seq<Arrival>, db: Db, changes: set<Change>) {
    Leads(EMPTY, log, db) && Changes(log) == changes
  }

  ghost predicate ReceiveOccurs(events: set<LedgerEvent>, relatedId: string) {
    exists q :: q in events && q.body.relatedId == Some(relatedId) && q.body.entryType == RECEIVE
  }

  /** Some event of the order creates a pair row without being a RECEIVE leg itself. */
  ghost predicate OtherTouches(events: set<LedgerEvent>, relatedId: string) {
    exists g :: g in events && g.body.relatedId == Some(relatedId) && Eligible(g) && g.body.entryType != RECEIVE
  }

  /** The index may learn of the RECEIVE leg late, and then be refused by the clock. */
  ghost predicate LateReceive(events: set<LedgerEvent>, relatedId: string) {
    ReceiveOccurs(events, relatedId) && OtherTouches(events, relatedId)
  }

  // ---------------------------------------------------------------- without a late RECEIVE leg

  /** The recomputation of a RECEIVE event sees the event's own row. */
  lemma OwnLegIsSeen(rows: seq<LedgerRow>, ledger: LedgerTable, e: LedgerEvent, r: string)
    requires Listing(rows, ledger, r) && e.key in ledger && Identity(ledger[e.key].event) == Identity(e)
    requires e.body.relatedId == Some(r) && e.body.entryType == RECEIVE
    ensures rows != [] && FirstOfType(rows, RECEIVE).Some?
  {
    assert ledger[e.key] in rows;
  }

  predicate Touching(change: Change, r: string) {
    change.LedgerChange? && Eligible(change.ledgerEvent) && change.ledgerEvent.body.relatedId == Some(r)
  }

  lemma {:induction false} AlwaysIndexed(log: seq<Arrival>, db: Db, events: set<LedgerEvent>, r: string)
    requires Leads(EMPTY, log, db) && LedgerEvents(Changes(log)) <= events
    requires StableIdentity(events) && !OtherTouches(events, r)
    ensures r in db.pairs ==> ReceiveIndexed(db, r)
    ensures TouchesPair(LedgerEvents(Changes(log)), r) ==> r in db.pairs
    decreases |log|
  {
    if log != [] {
      var init, last := log[..|log| - 1], log[|log| - 1];
      assert log == init + [last];
      var before :| Leads(EMPTY, init, before) && Step(before, last.change, last.clock, db);
      ChangesSnoc(init, last);
      FewerEvents(Changes(init), Changes(log));
      AlwaysIndexed(init, before, events, r);
      IndexedStep(init, last, before, db, events, r);
      TouchesLast(init, last, r);
    }
  }

  lemma TouchesLast(init: seq<Arrival>, last: Arrival, r: string)
    ensures TouchesPair(LedgerEvents(Changes(init + [last])), r) ==>
              Touching(last.change, r) || TouchesPair(LedgerEvents(Changes(init)), r)
  {
    ChangesSnoc(init, last);
    var events := LedgerEvents(Changes(init + [last]));
    if TouchesPair(events, r) && !Touching(last.change, r) {
      var g :| g in events && g.body.relatedId == Some(r) && Eligible(g);
      assert g in LedgerEvents(Changes(init));
    }
  }

  /** A step on which the event's own RECEIVE leg is seen keeps, or makes, the order indexed. */
  lemma IndexedStep(init: seq<Arrival>, last: Arrival, before: Db, db: Db, events: set<LedgerEvent>, r: string)
    requires Leads(EMPTY, init, before) && Step(before, last.change, last.clock, db)
    requires LedgerEvents(Changes(init + [last])) <= events && StableIdentity(events) && !OtherTouches(events, r)
    requires r in before.pairs ==> ReceiveIndexed(before, r)
    ensures r in before.pairs ==> r in db.pairs
    ensures r in db.pairs ==> ReceiveIndexed(db, r)
    ensures Touching(last.change, r) ==> r in db.pairs
  {
    if Touching(last.change, r) {
      ChangesSnoc(init, last);
      assert last.change in Changes(init + [last]) && last.change.ledgerEvent in LedgerEvents(Changes(init + [last]));
      StepKeepsIdentity(init, last, before, db, events);
      OwnStepIndexes(before, last.change.ledgerEvent, last.clock, db, r);
    }
  }

  lemma RefreshIndexes(
    pairs: PairTable, orders: OrderTable, r: string, rows: seq<LedgerRow>, clock: Clock, db: Db)
    requires rows != [] && FirstOfType(rows, RECEIVE).Some? && db.pairs == Refresh(pairs, orders, r, rows, clock)
    requires r in pairs ==> pairs[r].pair.receiveTxId.Some?
    ensures r in db.pairs && ReceiveIndexed(db, r)
  {}

  lemma OwnStepIndexes(before: Db, e: LedgerEvent, clock: Clock, db: Db, r: string)
    requires LedgerStep(before, e, clock, db) && Eligible(e)
    requires e.body.relatedId == Some(r) && e.body.entryType == RECEIVE
    requires e.key in db.ledger && Identity(db.ledger[e.key].event) == Identity(e)
    requires r in before.pairs ==> ReceiveIndexed(before, r)
    ensures r in db.pairs && ReceiveIndexed(db, r)
  {
    var rows :| Listing(rows, db.ledger, r) && db.pairs == Refresh(before.pairs, before.orders, r, rows, clock);
    OwnLegIsSeen(rows, db.ledger, e, r);
    RefreshIndexes(before.pairs, before.orders, r, rows, clock, db);
  }

  /** Whether the RECEIVE leg is indexed then depends on the events alone. */
  lemma IndexedWithAnyClock(log: seq<Arrival>, db: Db, changes: set<Change>, r: string)
    requires Runs(log, db, changes) && StableIdentity(LedgerEvents(changes)) && !LateReceive(LedgerEvents(changes), r)
    ensures ReceiveIndexed(db, r) <==> IndexesReceive(LedgerEvents(changes), r)
  {
    if ReceiveOccurs(LedgerEvents(changes), r) {
      AlwaysIndexed(log, db, LedgerEvents(changes), r);
      if ReceiveIndexed(db, r) {
        PairNeedsEligible(log, db, r);
      }
    } else if ReceiveIndexed(db, r) {
      OnlyKnownReceives(log, db, r);
    }
  }

  // ---------------------------------------------------------------- with one

  lemma StepFreezes(before: Db, change: Change, clock: Clock, db: Db, r: string)
    requires Step(before, change, clock, db) && r in before.pairs && clock.paired < before.pairs[r].updatedAt
    ensures r in db.pairs && db.pairs[r] == before.pairs[r]
  {}

  /** A pair stamped later than everything that follows is never replaced. */
  lemma {:induction false} PairFrozen(start: Db, log: seq<Arrival>, db: Db, r: string)
    requires Leads(start, log, db) && r in start.pairs
    requires forall arrival | arrival in log :: arrival.clock.paired < start.pairs[r].updatedAt
    ensures r in db.pairs && db.pairs[r] == start.pairs[r]
    decreases |log|
  {
    if log != [] {
      var init, last := log[..|log| - 1], log[|log| - 1];
      assert last in log;
      var before :| Leads(start, init, before) && Step(before, last.change, last.clock, db);
      PairFrozen(start, init, before, r);
      StepFreezes(before, last.change, last.clock, db, r);
    }
  }

  const NOON_AND_LATE := Clock(0, 0, 1)

  /** The first event of the order leaves a pair without the RECEIVE leg. */
  lemma FirstPair(g: LedgerEvent, middle: Db, r: string)
    requires Step(EMPTY, LedgerChange(g), NOON_AND_LATE, middle)
    requires g.body.relatedId == Some(r) && Eligible(g) && g.body.entryType != RECEIVE
    ensures r in middle.pairs && middle.pairs[r].updatedAt == 1 && middle.pairs[r].pair.receiveTxId.None?
  {
    var rows :| Listing(rows, middle.ledger, r) && middle.pairs == Refresh(map[], map[], r, rows, NOON_AND_LATE);
    assert middle.ledger == map[g.key := Row(g, 0)];
    assert middle.ledger[g.key] in rows;
    FirstIsListed(rows, RECEIVE);
  }

  lemma OneStep(arrival: Arrival, db: Db)
    requires Leads(EMPTY, [arrival], db)
    ensures Step(EMPTY, arrival.change, arrival.clock, db)
  {
    assert [arrival][..0] == [];
  }

  /** Some run never indexes the leg: the first pair is stamped later than all that follow. */
  lemma RefusedByTheClock(changes: set<Change>, r: string) returns (log: seq<Arrival>, db: Db)
    requires OtherTouches(LedgerEvents(changes), r)
    ensures Runs(log, db, changes) && !ReceiveIndexed(db, r)
  {
    var g :| g in LedgerEvents(changes) && g.body.relatedId == Some(r) && Eligible(g) && g.body.entryType != RECEIVE;
    var first := Arrival(LedgerChange(g), NOON_AND_LATE);
    var rest := ArrivalsOf(changes);
    log := [first] + rest;
    ChangesConcat([first], rest);
    assert Changes([first]) == {first.change};
    db := RunExists(log);
    FirstPairStays(g, rest, db, r);
  }

  lemma FirstPairStays(g: LedgerEvent, rest: seq<Arrival>, db: Db, r: string)
    requires Leads(EMPTY, [Arrival(LedgerChange(g), NOON_AND_LATE)] + rest, db)
    requires g.body.relatedId == Some(r) && Eligible(g) && g.body.entryType != RECEIVE
    requires AllNoon(rest)
    ensures !ReceiveIndexed(db, r)
  {
    var first := Arrival(LedgerChange(g), NOON_AND_LATE);
    var middle := LeadsSplit(EMPTY, [first], rest, db);
    OneStep(first, middle);
    FirstPair(g, middle, r);
    PairFrozen(middle, rest, db, r);
  }

  // ---------------------------------------------------------------- end to end

  /** All serial runs of the changes, under any clock, give one answer for `txId`. */
  ghost predicate OneAnswerWithAnyClock(changes: set<Change>, txId: string) {
    forall log, db, log', db' | Runs(log, db, changes) && Runs(log', db', changes) ::
      Keyed(db.ledger) && Keyed(db'.ledger) && AnswerTx(db, txId) == AnswerTx(db', txId)
  }

  lemma RunsAgreeWithAnyClock(
    log: seq<Arrival>, db: Db, log': seq<Arrival>, db': Db, changes: set<Change>, txId: string)
    requires Admissible(changes) && Runs(log, db, changes) && Runs(log', db', changes)
    requires forall r :: OtherPartOf(changes, txId, r) ==> !LateReceive(LedgerEvents(changes), r)
    ensures Keyed(db.ledger) && Keyed(db'.ledger) && AnswerTx(db, txId) == AnswerTx(db', txId)
  {
    SerialRunIsFaithful(log, db);
    SerialRunIsFaithful(log', db');
    AnswersConvergeIff(db, log, db', log', txId);
    if ReadsPairOnly(db, txId) {
      var r := db.ledger[txId].event.body.relatedId.value;
      ShownIsOtherPart(log, db, txId, r);
      IndexedWithAnyClock(log, db, changes, r);
      IndexedWithAnyClock(log', db', changes, r);
    }
  }

  lemma RunsDifferWithSomeClock(changes: set<Change>, txId: string, r: string)
    returns (log: seq<Arrival>, db: Db, log': seq<Arrival>, db': Db)
    requires Admissible(changes) && OtherPartOf(changes, txId, r) && LateReceive(LedgerEvents(changes), r)
    ensures Runs(log, db, changes) && Runs(log', db', changes)
    ensures Keyed(db.ledger) && Keyed(db'.ledger) && AnswerTx(db, txId) != AnswerTx(db', txId)
  {
    log, db := RefusedByTheClock(changes, r);
    log', db' := LegFirst(changes, r);
    SerialRunIsFaithful(log, db);
    SerialRunIsFaithful(log', db');
    AnswersConvergeIff(db, log, db', log', txId);
    OtherPartIsShown(log, db, txId, r);
  }

  /** The end-to-end theorem for clocks that may step back: a transaction has one answer over all
      serial runs of admissible changes if and only if it is not a non-leg part of an order that
      has a RECEIVE leg and an eligible event of another type. */
  lemma EndToEndWithAnyClock(changes: set<Change>, txId: string)
    requires Admissible(changes)
    ensures OneAnswerWithAnyClock(changes, txId)
            <==> forall r :: OtherPartOf(changes, txId, r) ==> !LateReceive(LedgerEvents(changes), r)
  {
    if forall r :: OtherPartOf(changes, txId, r) ==> !LateReceive(LedgerEvents(changes), r) {
      forall log, db, log', db' | Runs(log, db, changes) && Runs(log', db', changes)
        ensures Keyed(db.ledger) && Keyed(db'.ledger) && AnswerTx(db, txId) == AnswerTx(db', txId)
      {
        RunsAgreeWithAnyClock(log, db, log', db', changes, txId);
      }
    } else {
      var r :| OtherPartOf(changes, txId, r) && LateReceive(LedgerEvents(changes), r);
      var log, db, log', db' := RunsDifferWithSomeClock(changes, txId, r);
    }
  }

  /** Legs, and transactions that are not part of an order, need no clock at all. */
  lemma LegsNeedNoClock(changes: set<Change>, txId: string, w: LedgerEvent)
    requires Admissible(changes) && w.key == txId && Dominates(w, LedgerEvents(changes))
    requires IsLegType(w.body.entryType) || forall r :: !IsOtherPart(w, changes, r)
    ensures OneAnswerWithAnyClock(changes, txId)
  {
    forall w': LedgerEvent | w'.key == txId && Dominates(w', LedgerEvents(changes))
      ensures w' == w
    {}
    EndToEndWithAnyClock(changes, txId);
  }
}
