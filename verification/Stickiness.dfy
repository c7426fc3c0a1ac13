/**
 Completeness of a pair row under concurrency (src/consumer/pairing.py:100-103, 143-173). The
 no-regression guard reads the pair before the write that it guards, so a worker that read early
 may take completeness away; exactly when no run of a set of changes can do so.
 */
module Stickiness {
  import opened Wrappers
  import opened LatestWins
  import opened Pairing
  import opened Store
  import opened History
  import opened SerialRuns
  import opened Convergence
  import opened Interleaving
  import opened Embedding

  /** Handling the event recomputes the pair of `r`. */
  predicate Triggers(e: LedgerEvent, r: string) { Eligible(e) && e.body.relatedId == Some(r) }

  ghost predicate HasLeg(events: set<LedgerEvent>, r: string, entryType: string) {
    exists e :: e in events && e.body.relatedId == Some(r) && e.body.entryType == entryType
  }

  ghost predicate BothLegs(events: set<LedgerEvent>, r: string) {
    HasLeg(events, r, PAYMENT) && HasLeg(events, r, RECEIVE)
  }

  /** At most one transaction id has events that recompute the pair of `r`. */
  ghost predicate OneTrigger(events: set<LedgerEvent>, r: string) {
    forall a, b | a in events && b in events && Triggers(a, r) && Triggers(b, r) :: a.key == b.key
  }

  /** In every interleaved run of the changes, a pair of `r` that is complete stays complete. */
  ghost predicate Sticky(changes: set<Change>, r: string) {
    forall actions, more, s, s'
      | Exec(actions) == Some(s) && Exec(actions + more) == Some(s') && Within(actions + more, changes)
        && PairComplete(s.db.pairs, r) :: PairComplete(s'.db.pairs, r)
  }

  /** The same where all workers read one clock, which does not step back. */
  ghost predicate StickyForward(changes: set<Change>, r: string) {
    forall actions, more, s, s'
      | Exec(actions) == Some(s) && Exec(actions + more) == Some(s') && Within(actions + more, changes)
        && ReadsForward(actions + more) && PairComplete(s.db.pairs, r) :: PairComplete(s'.db.pairs, r)
  }

  // ---------------------------------------------------------------- one trigger: completeness stays

  predicate AtPairWork(t: Txn) {
    t.stage.Written? || t.stage.Scanned? || t.stage.OrderRead? || t.stage.PairRead? || t.ownPair.Some?
  }

  /** A transaction at work on a pair handles an eligible event, whose ledger key it holds. */
  predicate Orderly(t: Txn) {
    && (AtPairWork(t) ==> t.change.LedgerChange? && Eligible(t.change.ledgerEvent) && t.ownLedger.Some?)
    && (t.ownPair.Some? ==> t.stage.Finished?)
  }

  predicate WorksOn(t: Txn, r: string) { AtPairWork(t) && RelatedId(t) == r }

  /** What the guard has checked still holds of the committed pair. */
  predicate GuardHolds(pairs: PairTable, t: Txn, r: string) {
    && (t.stage.PairRead? ==> t.stage.snapshot.complete == t.stage.snapshot.pair.Complete()
                              && ShouldUpdatePair(PairComplete(pairs, r), t.stage.snapshot.complete))
    && (t.ownPair.Some? && PairComplete(pairs, r) ==> t.ownPair.value.pair.Complete())
  }

  ghost predicate Guarded(s: Sys, r: string) {
    forall w | w in s.open :: Orderly(s.open[w]) && (WorksOn(s.open[w], r) ==> GuardHolds(s.db.pairs, s.open[w], r))
  }

  /** Two transactions cannot both work on the pair of `r`, since they would hold the same ledger key. */
  lemma OneWorker(s: Sys, changes: set<Change>, v: nat, w: nat, r: string)
    requires Inv(s, changes) && Guarded(s, r) && OneTrigger(LedgerEvents(changes), r)
    requires v in s.open && w in s.open && WorksOn(s.open[v], r) && WorksOn(s.open[w], r)
    ensures v == w
  {
    var a, b := s.open[v].change.ledgerEvent, s.open[w].change.ledgerEvent;
    assert s.open[v].change in changes && s.open[w].change in changes;
    assert a in LedgerEvents(changes) && b in LedgerEvents(changes) && Triggers(a, r) && Triggers(b, r);
    assert s.open[v].HoldsLedger(a.key) && s.open[w].HoldsLedger(a.key);
  }

  lemma AdvanceGuarded(s: Sys, a: Action, r: string)
    requires Guarded(s, r) && Enabled(s, a) && !a.Begin? && !a.Commit? && !a.Rollback?
    ensures Guarded(Next(s, a), r)
  {
    var t, t' := s.open[a.worker], Advance(s, s.open[a.worker], a);
    assert Orderly(t);
    assert Orderly(t') && (WorksOn(t', r) ==> GuardHolds(s.db.pairs, t', r)) by {
      AdvanceOneGuarded(s, t, a, r);
    }
  }

  lemma AdvanceOneGuarded(s: Sys, t: Txn, a: Action, r: string)
    requires Enabled(s, a) && !a.Begin? && !a.Commit? && !a.Rollback? && s.open[a.worker] == t
    requires Orderly(t) && (WorksOn(t, r) ==> GuardHolds(s.db.pairs, t, r))
    ensures var t' := Advance(s, t, a); Orderly(t') && (WorksOn(t', r) ==> GuardHolds(s.db.pairs, t', r))
  {}

  /** A commit replaces the pair of `r` only if nobody else works on it, and never by a worse one. */
  lemma CommitGuarded(s: Sys, w: nat, changes: set<Change>, r: string)
    requires Inv(s, changes) && Guarded(s, r) && OneTrigger(LedgerEvents(changes), r) && Enabled(s, Commit(w))
    ensures Guarded(Next(s, Commit(w)), r)
    ensures PairComplete(s.db.pairs, r) ==> PairComplete(Next(s, Commit(w)).db.pairs, r)
  {
    var s', t := Next(s, Commit(w)), s.open[w];
    if t.ownPair.Some? && RelatedId(t) == r {
      assert WorksOn(t, r);
      forall v | v in s'.open
        ensures Orderly(s'.open[v]) && !WorksOn(s'.open[v], r)
      {
        assert s'.open[v] == s.open[v];
        if WorksOn(s.open[v], r) {
          OneWorker(s, changes, v, w, r);
        }
      }
    } else {
      assert PairComplete(s'.db.pairs, r) <==> PairComplete(s.db.pairs, r);
      forall v | v in s'.open
        ensures Orderly(s'.open[v]) && (WorksOn(s'.open[v], r) ==> GuardHolds(s'.db.pairs, s'.open[v], r))
      {
        assert s'.open[v] == s.open[v];
      }
    }
  }

  lemma StepGuarded(s: Sys, a: Action, changes: set<Change>, r: string)
    requires Inv(s, changes) && Guarded(s, r) && OneTrigger(LedgerEvents(changes), r) && Enabled(s, a)
    ensures Guarded(Next(s, a), r)
    ensures PairComplete(s.db.pairs, r) ==> PairComplete(Next(s, a).db.pairs, r)
  {
    match a {
      case Begin(_, _) =>
      case Rollback(_) =>
      case Commit(w) => CommitGuarded(s, w, changes, r);
      case _ => AdvanceGuarded(s, a, r);
    }
  }

  lemma {:induction false} RunGuarded(actions: seq<Action>, s: Sys, changes: set<Change>, r: string)
    requires Exec(actions) == Some(s) && Within(actions, changes) && StableIdentity(LedgerEvents(changes))
    requires OneTrigger(LedgerEvents(changes), r)
    ensures Guarded(s, r)
    decreases |actions|
  {
    if actions != [] {
      var init, last := actions[..|actions| - 1], actions[|actions| - 1];
      assert ExecLast(actions) == Some(s);
      assert actions == init + [last];
      WithinPrefix(init, [last], changes);
      RunGuarded(init, Exec(init).value, changes, r);
      RunInv(init, Exec(init).value, changes);
      StepGuarded(Exec(init).value, last, changes, r);
    }
  }

  lemma {:induction false} OneTriggerSticks(
    actions: seq<Action>, more: seq<Action>, s: Sys, s': Sys, changes: set<Change>, r: string)
    requires Exec(actions) == Some(s) && Exec(actions + more) == Some(s') && Within(actions + more, changes)
    requires StableIdentity(LedgerEvents(changes))
    requires OneTrigger(LedgerEvents(changes), r) && PairComplete(s.db.pairs, r)
    ensures PairComplete(s'.db.pairs, r)
    decreases |more|
  {
    if more == [] {
      assert actions + more == actions;
    } else {
      var whole, init, last := actions + more, more[..|more| - 1], more[|more| - 1];
      assert whole == (actions + init) + [last] && whole[..|whole| - 1] == actions + init;
      assert ExecLast(whole) == Some(s');
      WithinPrefix(actions + init, [last], changes);
      var before := Exec(actions + init).value;
      OneTriggerSticks(actions, init, s, before, changes, r);
      RunGuarded(actions + init, before, changes, r);
      RunInv(actions + init, before, changes);
      StepGuarded(before, last, changes, r);
    }
  }

  /** A complete pair names two legs among the events. */
  lemma CompleteNeedsLegs(actions: seq<Action>, s: Sys, changes: set<Change>, r: string)
    requires Exec(actions) == Some(s) && Within(actions, changes) && StableIdentity(LedgerEvents(changes))
    requires PairComplete(s.db.pairs, r)
    ensures BothLegs(LedgerEvents(changes), r)
  {
    InterleavedRunIsFaithful(actions, s, changes);
    FaithfulNeedsLegs(s.db, s.history, r);
    FewerEvents(Changes(s.history), changes);
  }

  lemma FaithfulNeedsLegs(db: Db, log: seq<Arrival>, r: string)
    requires Faithful(db, log) && PairComplete(db.pairs, r)
    ensures BothLegs(LedgerEvents(Changes(log)), r)
  {
    StoredEvents(db, log);
    var pair := db.pairs[r].pair;
    assert PairSound(pair, r, db.ledger);
    assert db.ledger[pair.paymentTxId.value].event in LedgerEvents(Changes(log));
    assert db.ledger[pair.receiveTxId.value].event in LedgerEvents(Changes(log));
  }

  // ---------------------------------------------------------------- two triggers: a stale worker takes it away

  /** The cast of a regress: `stale` is handled by a worker that reads before `late`, a leg, is
      committed; `early` is the other leg, and `last` completes the pair. */
  datatype Cast = Cast(early: LedgerEvent, stale: LedgerEvent, late: LedgerEvent, last: LedgerEvent)

  ghost predicate Plays(c: Cast, events: set<LedgerEvent>, r: string) {
    && c.early in events && c.stale in events && c.late in events && c.last in events
    && c.early.body.relatedId == Some(r) && c.late.body.relatedId == Some(r)
    && Triggers(c.stale, r) && Triggers(c.last, r)
    && c.stale.key != c.late.key && c.stale.key != c.last.key
    && IsLegType(c.early.body.entryType) && IsLegType(c.late.body.entryType)
    && c.early.body.entryType != c.late.body.entryType
    && c.stale.body.entryType != c.late.body.entryType
  }

  lemma CastExists(events: set<LedgerEvent>, r: string) returns (c: Cast)
    requires StableIdentity(events) && BothLegs(events, r) && !OneTrigger(events, r)
    ensures Plays(c, events, r)
  {
    var a, b :| a in events && b in events && Triggers(a, r) && Triggers(b, r) && a.key != b.key;
    var p :| p in events && p.body.relatedId == Some(r) && p.body.entryType == PAYMENT;
    var q :| q in events && q.body.relatedId == Some(r) && q.body.entryType == RECEIVE;
    c := if a.body.entryType == PAYMENT then Cast(a, a, q, b)
         else if a.body.entryType == RECEIVE then Cast(a, a, p, b) else Cast(p, a, q, b);
    assert Identity(c.stale) != Identity(c.late);
  }

  function ArrivalOf(e: LedgerEvent): Arrival { Arrival(LedgerChange(e), NOON) }

  /** The serial steps of the other worker: the early leg, the late leg, the completing event. */
  lemma Steps(c: Cast) returns (db1: Db, db2: Db, db3: Db)
    ensures Step(EMPTY, LedgerChange(c.early), NOON, db1) && Leads(EMPTY, [ArrivalOf(c.early)], db1)
    ensures Step(db1, LedgerChange(c.late), NOON, db2) && Leads(EMPTY, [ArrivalOf(c.early), ArrivalOf(c.late)], db2)
    ensures Step(db2, LedgerChange(c.last), NOON, db3)
  {
    db1 := StepExists(EMPTY, LedgerChange(c.early), NOON);
    db2 := StepExists(db1, LedgerChange(c.late), NOON);
    db3 := StepExists(db2, LedgerChange(c.last), NOON);
    LeadsSnoc(EMPTY, [], EMPTY, ArrivalOf(c.early), db1);
    assert [] + [ArrivalOf(c.early)] == [ArrivalOf(c.early)];
    LeadsSnoc(EMPTY, [ArrivalOf(c.early)], db1, ArrivalOf(c.late), db2);
    assert [ArrivalOf(c.early)] + [ArrivalOf(c.late)] == [ArrivalOf(c.early), ArrivalOf(c.late)];
  }

  /** After the third step the pair is complete, and stamped with the common time. */
  lemma CompletedPair(c: Cast, events: set<LedgerEvent>, r: string, db2: Db, db3: Db)
    requires StableIdentity(events) && Plays(c, events, r)
    requires Leads(EMPTY, [ArrivalOf(c.early), ArrivalOf(c.late)], db2) && Step(db2, LedgerChange(c.last), NOON, db3)
    ensures PairComplete(db3.pairs, r) && db3.pairs[r].updatedAt == 0
  {
    var init, last := [ArrivalOf(c.early), ArrivalOf(c.late)], ArrivalOf(c.last);
    LeadsSnoc(EMPTY, init, db2, last, db3);
    CastHistory(c, events, r);
    AgreementRenewed(init, last, db2, db3);
    StoredIdentity(init + [last], db3, c.early);
    StoredIdentity(init + [last], db3, c.late);
    IndexedIsComplete(db3, r, c.early.key, c.late.key);
    PairsStamped(init + [last], db3, r);
  }

  lemma IndexedIsComplete(db: Db, r: string, a: string, b: string)
    requires Indexed(db, r) && a in db.ledger && b in db.ledger && Matches(db.ledger[a], r) && Matches(db.ledger[b], r)
    requires IsLegType(TypeOf(db.ledger[a])) && IsLegType(TypeOf(db.ledger[b]))
    requires TypeOf(db.ledger[a]) != TypeOf(db.ledger[b])
    ensures PairComplete(db.pairs, r)
  {
    var rows :| Listing(rows, db.ledger, r) && AgreesWith(db.pairs, r, rows);
    assert db.ledger[a] in rows && db.ledger[b] in rows;
  }

  lemma CastHistory(c: Cast, events: set<LedgerEvent>, r: string)
    requires StableIdentity(events) && Plays(c, events, r)
    ensures var log := [ArrivalOf(c.early), ArrivalOf(c.late)] + [ArrivalOf(c.last)];
            && StableIdentity(LedgerEvents(Changes(log))) && PairClockForward(log)
            && c.early in LedgerEvents(Changes(log)) && c.late in LedgerEvents(Changes(log))
            && forall arrival | arrival in log :: arrival.clock == NOON
  {
    var log := [ArrivalOf(c.early), ArrivalOf(c.late)] + [ArrivalOf(c.last)];
    assert ArrivalOf(c.early) in log && ArrivalOf(c.late) in log;
    assert LedgerChange(c.early) in Changes(log) && LedgerChange(c.late) in Changes(log);
    assert LedgerEvents(Changes(log)) <= events;
  }

  // ---------------------------------------------------------------- what the stale worker sees

  /** Before the late leg is committed, no listing the stale worker can read is complete, and neither is the pair. */
  lemma StaleView(c: Cast, events: set<LedgerEvent>, r: string, db1: Db, rows: seq<LedgerRow>)
    requires StableIdentity(events) && Plays(c, events, r) && Leads(EMPTY, [ArrivalOf(c.early)], db1)
    requires Listing(rows, Put(db1.ledger, Row(c.stale, 0)), r)
    ensures rows != [] && !PairComplete(db1.pairs, r)
    ensures forall order, now :: !Compute(rows, order, now).complete && !Compute(rows, order, now).pair.Complete()
  {
    EarlyPair(c, r, db1);
    StaleLedger(c, events, r, db1);
    assert Put(db1.ledger, Row(c.stale, 0))[c.stale.key] in rows;
    NoLateLeg(c, rows);
  }

  lemma EarlyPair(c: Cast, r: string, db1: Db)
    requires Leads(EMPTY, [ArrivalOf(c.early)], db1)
    ensures !PairComplete(db1.pairs, r)
  {
    var log := [ArrivalOf(c.early)];
    assert Changes(log) == {LedgerChange(c.early)};
    assert LedgerEvents(Changes(log)) == {c.early};
    SerialRunIsFaithful(log, db1);
    if PairComplete(db1.pairs, r) {
      FaithfulNeedsLegs(db1, log, r);
    }
  }

  lemma StaleLedger(c: Cast, events: set<LedgerEvent>, r: string, db1: Db)
    requires StableIdentity(events) && Plays(c, events, r) && Leads(EMPTY, [ArrivalOf(c.early)], db1)
    ensures var ledger := Put(db1.ledger, Row(c.stale, 0));
            && c.stale.key in ledger && Matches(ledger[c.stale.key], r) && ledger[c.stale.key].event.key == c.stale.key
            && forall key | key in ledger :: TypeOf(ledger[key]) != c.late.body.entryType
  {
    var log := [ArrivalOf(c.early)];
    TablesAreFolds(log, db1);
    assert LedgerArrivals(log) == [Row(c.early, 0)] by {
      ChangesSnoc([], ArrivalOf(c.early));
      assert [] + log == log;
    }
    FoldSnoc([], Row(c.early, 0));
    assert [] + [Row(c.early, 0)] == [Row(c.early, 0)];
    PutKeepsIdentity([Row(c.early, 0)], Row(c.stale, 0), events);
  }

  lemma NoLateLeg(c: Cast, rows: seq<LedgerRow>)
    requires IsLegType(c.late.body.entryType) && forall row | row in rows :: TypeOf(row) != c.late.body.entryType
    ensures forall order, now :: !Compute(rows, order, now).complete && !Compute(rows, order, now).pair.Complete()
  {
    FirstIsListed(rows, PAYMENT);
    FirstIsListed(rows, RECEIVE);
  }

  // ---------------------------------------------------------------- the run

  /** The early leg is committed; then worker 0 begins the stale event and reads. */
  lemma StaleReads(c: Cast, changes: set<Change>, r: string, db1: Db) returns (actions: seq<Action>, s: Sys, t: Txn)
    requires StableIdentity(LedgerEvents(changes)) && Plays(c, LedgerEvents(changes), r)
    requires Step(EMPTY, LedgerChange(c.early), NOON, db1) && Leads(EMPTY, [ArrivalOf(c.early)], db1)
    ensures Exec(actions) == Some(At(s, 0, t)) && Within(actions, changes) && ReadsNoon(actions)
    ensures s.db == db1 && s.open == map[]
    ensures t.change == LedgerChange(c.stale) && t.stage.PairRead?
    ensures !t.stage.snapshot.pair.Complete() && t.ownPair.None?
  {
    var first := Transact([], START, 1, LedgerChange(c.early), NOON, db1);
    assert [] + first == first;
    s := Done(START, db1, LedgerChange(c.early), 0);
    SerialLedgerIsKeyed(db1, ArrivalOf(c.early));
    var rows := ListingExists(Put(db1.ledger, Row(c.stale, 0)), Put(db1.ledger, Row(c.stale, 0)).Keys, r);
    assert Listing(rows, Put(db1.ledger, Row(c.stale, 0)), r);
    StaleView(c, LedgerEvents(changes), r, db1, rows);
    var second := UpToWrite(first, s, 0, c.stale, NOON);
    var third := UpToReadPair(first + second, s, 0, c.stale, NOON, rows);
    actions, t := first + second + third, Judged(db1, c.stale, 0, rows, 0);
    InChanges(c, changes, r);
    WithinServes([], first, LedgerChange(c.early), NOON, changes);
    WithinServes(first, second, LedgerChange(c.stale), NOON, changes);
    WithinServes(first + second, third, LedgerChange(c.stale), NOON, changes);
  }

  lemma SerialLedgerIsKeyed(db: Db, arrival: Arrival)
    requires Leads(EMPTY, [arrival], db) && arrival.change.LedgerChange?
    ensures Keyed(Put(db.ledger, Row(arrival.change.ledgerEvent, 0))) && Keyed(db.ledger)
  {
    TablesAreFolds([arrival], db);
    FoldOfLog(LedgerArrivals([arrival]));
  }

  lemma InChanges(c: Cast, changes: set<Change>, r: string)
    requires Plays(c, LedgerEvents(changes), r)
    ensures LedgerChange(c.early) in changes && LedgerChange(c.stale) in changes
    ensures LedgerChange(c.late) in changes && LedgerChange(c.last) in changes
  {}

  /** Two triggers and both legs: some run completes the pair and then loses its completeness. */
  lemma CompletenessCanRegress(changes: set<Change>, r: string)
    returns (actions: seq<Action>, s: Sys, more: seq<Action>, s': Sys)
    requires StableIdentity(LedgerEvents(changes))
    requires BothLegs(LedgerEvents(changes), r) && !OneTrigger(LedgerEvents(changes), r)
    ensures Exec(actions) == Some(s) && PairComplete(s.db.pairs, r)
    ensures Exec(actions + more) == Some(s') && !PairComplete(s'.db.pairs, r) && Within(actions + more, changes)
    ensures ReadsNoon(actions + more)
  {
    var c := CastExists(LedgerEvents(changes), r);
    var db1, db2, db3 := Steps(c);
    CompletedPair(c, LedgerEvents(changes), r, db2, db3);
    InChanges(c, changes, r);
    var reading, s1, t := StaleReads(c, changes, r, db1);
    var s2 := At(s1, 0, t);
    var late := Transact(reading, s2, 1, LedgerChange(c.late), NOON, db2);
    var s3 := Done(s2, db2, LedgerChange(c.late), 0);
    var last := Transact(reading + late, s3, 1, LedgerChange(c.last), NOON, db3);
    actions, s := reading + late + last, Done(s3, db3, LedgerChange(c.last), 0);
    WithinServes(reading, late, LedgerChange(c.late), NOON, changes);
    WithinServes(reading + late, last, LedgerChange(c.last), NOON, changes);
    more, s' := StaleWrites(actions, s, t, r);
    WithinServes(actions, more, LedgerChange(c.stale), NOON, changes);
  }

  /** The stale pair is written over the complete one, which carries the same timestamp. */
  lemma StaleWrites(actions: seq<Action>, s: Sys, t: Txn, r: string) returns (more: seq<Action>, s': Sys)
    requires Exec(actions) == Some(s) && s.open == map[0 := t] && t.change.LedgerChange? && RelatedId(t) == r
    requires t.stage.PairRead? && !t.stage.snapshot.pair.Complete()
    requires PairComplete(s.db.pairs, r) && s.db.pairs[r].updatedAt == 0
    ensures Exec(actions + more) == Some(s') && !PairComplete(s'.db.pairs, r) && Serves(more, t.change, NOON)
  {
    var idle := s.(open := map[]);
    assert At(idle, 0, t) == s;
    more := WritePairAndCommit(actions, idle, 0, t, NOON);
    s' := Exec(actions + more).value;
  }

  /** The exact condition. Completeness of `r` is sticky in every interleaved run of the changes if
      and only if they lack one of its legs, or at most one transaction id has events that
      recompute the pair. Clocks that never step back make no difference. */
  lemma StickyIff(changes: set<Change>, r: string)
    requires StableIdentity(LedgerEvents(changes))
    ensures Sticky(changes, r) <==> !BothLegs(LedgerEvents(changes), r) || OneTrigger(LedgerEvents(changes), r)
    ensures StickyForward(changes, r) <==> Sticky(changes, r)
  {
    if BothLegs(LedgerEvents(changes), r) && !OneTrigger(LedgerEvents(changes), r) {
      var actions, s, more, s' := CompletenessCanRegress(changes, r);
      NoonIsForward(actions + more);
    } else {
      forall actions, more, s, s'
        | Exec(actions) == Some(s) && Exec(actions + more) == Some(s') && Within(actions + more, changes)
          && PairComplete(s.db.pairs, r)
        ensures PairComplete(s'.db.pairs, r)
      {
        WithinPrefix(actions, more, changes);
        CompleteNeedsLegs(actions, s, changes, r);
        OneTriggerSticks(actions, more, s, s', changes, r);
      }
    }
  }
}
