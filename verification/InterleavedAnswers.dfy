/**
 End to end under concurrency: which answers depend on how the workers interleave.
 */
module InterleavedAnswers {
  import opened Wrappers
  import opened LatestWins
  import opened Pairing
  import opened Store
  import opened History
  import opened SerialRuns
  import opened Lookups
  import opened Convergence
  import opened AnyClock
  import opened Interleaving
  import opened Embedding

  /** A run of any workers that committed exactly the changes. */
  ghost predicate Commits(actions: seq<Action>, s: Sys, changes: set<Change>) {
    Exec(actions) == Some(s) && Within(actions, changes) && Changes(s.history) == changes
  }

  // ---------------------------------------------------------------- an order all of whose triggers are RECEIVE legs

  predicate HandlesTrigger(t: Txn, r: string) {
    t.change.LedgerChange? && Eligible(t.change.ledgerEvent) && t.change.ledgerEvent.body.relatedId == Some(r)
  }

  predicate SeesReceive(rows: seq<LedgerRow>) { FirstOfType(rows, RECEIVE).Some? }

  /** A transaction at work on the pair has seen its own leg, and ends with a pair in place. */
  predicate CarriesReceive(pairs: PairTable, t: Txn, r: string) {
    && (t.stage.Scanned? ==> SeesReceive(t.stage.rows))
    && (t.stage.OrderRead? ==> SeesReceive(t.stage.readRows))
    && (t.stage.PairRead? ==> t.stage.snapshot.pair.receiveTxId.Some?)
    && (t.ownPair.Some? ==> t.ownPair.value.pair.receiveTxId.Some?)
    && (t.stage.Finished? ==> t.ownPair.Some? || r in pairs)
  }

  /** Only transactions of eligible events work on pairs. */
  predicate PairWorkIsEligible(t: Txn) {
    t.stage.Written? || t.stage.Scanned? || t.stage.OrderRead? || t.stage.PairRead? || t.ownPair.Some? ==>
      t.change.LedgerChange? && Eligible(t.change.ledgerEvent)
  }

  ghost predicate Indexing(s: Sys, r: string) {
    && (r in s.db.pairs ==> ReceiveIndexed(s.db, r))
    && (TouchesPair(LedgerEvents(Changes(s.history)), r) <==> r in s.db.pairs)
    && forall w | w in s.open ::
         PairWorkIsEligible(s.open[w]) && (HandlesTrigger(s.open[w], r) ==> CarriesReceive(s.db.pairs, s.open[w], r))
  }

  /** The scan of a RECEIVE event's transaction lists its own row. */
  lemma OwnRowIsListed(s: Sys, t: Txn, changes: set<Change>, r: string, rows: seq<LedgerRow>)
    requires Inv(s, changes) && StableIdentity(LedgerEvents(changes)) && TxnOk(s.db, t, changes)
    requires HandlesTrigger(t, r) && t.change.ledgerEvent.body.entryType == RECEIVE && t.ownLedger.Some?
    requires Listing(rows, View(s.db, t), r)
    ensures rows != [] && SeesReceive(rows)
  {
    var e := t.change.ledgerEvent;
    EventsOfHistory(s.history);
    FewerEvents(Changes(s.history), changes);
    PutKeepsIdentity(LedgerArrivals(s.history), Row(e, t.ingested), LedgerEvents(changes));
    OwnLegIsSeen(rows, View(s.db, t), e, r);
  }

  lemma AdvanceIndexing(s: Sys, a: Action, changes: set<Change>, r: string)
    requires Inv(s, changes) && StableIdentity(LedgerEvents(changes)) && !OtherTouches(LedgerEvents(changes), r)
    requires Indexing(s, r) && Enabled(s, a) && !a.Begin? && !a.Commit? && !a.Rollback?
    ensures Indexing(Next(s, a), r)
  {
    var t := s.open[a.worker];
    if HandlesTrigger(t, r) && a.Scan? {
      ScanSeesReceive(s, a, changes, r);
    }
    AdvanceOneIndexing(s, t, a, r);
  }

  lemma ScanSeesReceive(s: Sys, a: Action, changes: set<Change>, r: string)
    requires Inv(s, changes) && StableIdentity(LedgerEvents(changes)) && !OtherTouches(LedgerEvents(changes), r)
    requires Enabled(s, a) && a.Scan? && HandlesTrigger(s.open[a.worker], r)
    ensures a.rows != [] && SeesReceive(a.rows)
  {
    var t := s.open[a.worker];
    assert TxnOk(s.db, t, changes);
    assert t.change.ledgerEvent in LedgerEvents(changes);
    OwnRowIsListed(s, t, changes, r, a.rows);
  }

  lemma AdvanceOneIndexing(s: Sys, t: Txn, a: Action, r: string)
    requires Enabled(s, a) && !a.Begin? && !a.Commit? && !a.Rollback? && s.open[a.worker] == t
    requires r in s.db.pairs ==> ReceiveIndexed(s.db, r)
    requires PairWorkIsEligible(t) && (HandlesTrigger(t, r) ==> CarriesReceive(s.db.pairs, t, r))
    requires HandlesTrigger(t, r) && a.Scan? ==> a.rows != [] && SeesReceive(a.rows)
    ensures var t' := Advance(s, t, a);
            PairWorkIsEligible(t') && (HandlesTrigger(t', r) ==> CarriesReceive(s.db.pairs, t', r))
  {}

  lemma TouchesSnoc(log: seq<Arrival>, last: Arrival, r: string)
    ensures TouchesPair(LedgerEvents(Changes(log + [last])), r)
            <==> TouchesPair(LedgerEvents(Changes(log)), r)
                 || (last.change.LedgerChange? && last.change.ledgerEvent.body.relatedId == Some(r)
                     && Eligible(last.change.ledgerEvent))
  {
    ChangesSnoc(log, last);
    if last.change.LedgerChange? {
      assert LedgerEvents(Changes(log + [last])) == LedgerEvents(Changes(log)) + {last.change.ledgerEvent};
    } else {
      assert LedgerEvents(Changes(log + [last])) == LedgerEvents(Changes(log));
    }
  }

  lemma CommitIndexing(s: Sys, w: nat, r: string)
    requires Indexing(s, r) && Enabled(s, Commit(w))
    ensures Indexing(Next(s, Commit(w)), r)
  {
    var s', t := Next(s, Commit(w)), s.open[w];
    TouchesSnoc(s.history, s'.history[|s.history|], r);
    assert s'.history == s.history + [s'.history[|s.history|]];
    forall v | v in s'.open
      ensures PairWorkIsEligible(s'.open[v])
      ensures HandlesTrigger(s'.open[v], r) ==> CarriesReceive(s'.db.pairs, s'.open[v], r)
    {
      assert s'.open[v] == s.open[v];
    }
  }

  lemma StepIndexing(s: Sys, a: Action, changes: set<Change>, r: string)
    requires Inv(s, changes) && StableIdentity(LedgerEvents(changes)) && !OtherTouches(LedgerEvents(changes), r)
    requires Indexing(s, r) && Enabled(s, a)
    ensures Indexing(Next(s, a), r)
  {
    match a {
      case Begin(_, _) =>
      case Rollback(_) =>
      case Commit(w) => CommitIndexing(s, w, r);
      case _ => AdvanceIndexing(s, a, changes, r);
    }
  }

  lemma {:induction false} RunIndexing(actions: seq<Action>, s: Sys, changes: set<Change>, r: string)
    requires Exec(actions) == Some(s) && Within(actions, changes) && StableIdentity(LedgerEvents(changes))
    requires !OtherTouches(LedgerEvents(changes), r)
    ensures Indexing(s, r)
    decreases |actions|
  {
    if actions != [] {
      var init, last := actions[..|actions| - 1], actions[|actions| - 1];
      assert ExecLast(actions) == Some(s);
      assert actions == init + [last];
      WithinPrefix(init, [last], changes);
      RunIndexing(init, Exec(init).value, changes, r);
      RunInv(init, Exec(init).value, changes);
      StepIndexing(Exec(init).value, last, changes, r);
    }
  }

  /** Without a late RECEIVE leg, whether the leg is indexed depends on the committed events alone. */
  lemma IndexedUnderConcurrency(actions: seq<Action>, s: Sys, changes: set<Change>, r: string)
    requires Commits(actions, s, changes) && StableIdentity(LedgerEvents(changes))
    requires !LateReceive(LedgerEvents(changes), r)
    ensures ReceiveIndexed(s.db, r) <==> IndexesReceive(LedgerEvents(changes), r)
  {
    if ReceiveIndexed(s.db, r) {
      InterleavedRunIsFaithful(actions, s, changes);
      IndexedOccurs(s.db, s.history, r);
    }
    if ReceiveOccurs(LedgerEvents(changes), r) {
      RunIndexing(actions, s, changes, r);
    }
  }

  lemma IndexedOccurs(db: Db, log: seq<Arrival>, r: string)
    requires Faithful(db, log) && ReceiveIndexed(db, r)
    ensures ReceiveOccurs(LedgerEvents(Changes(log)), r)
  {
    StoredEvents(db, log);
    assert PairSound(db.pairs[r].pair, r, db.ledger);
    assert db.ledger[db.pairs[r].pair.receiveTxId.value].event in LedgerEvents(Changes(log));
  }

  // ---------------------------------------------------------------- end to end

  /** All interleaved runs that commit the changes give one answer for `txId`. */
  ghost predicate OneInterleavedAnswer(changes: set<Change>, txId: string) {
    forall actions, s, actions', s' | Commits(actions, s, changes) && Commits(actions', s', changes) ::
      Keyed(s.db.ledger) && Keyed(s'.db.ledger) && AnswerTx(s.db, txId) == AnswerTx(s'.db, txId)
  }

  /** The same over the runs whose workers read one clock, which does not step back. */
  ghost predicate OneAnswerForward(changes: set<Change>, txId: string) {
    forall actions, s, actions', s'
      | Commits(actions, s, changes) && Commits(actions', s', changes)
        && ReadsForward(actions) && ReadsForward(actions') ::
      Keyed(s.db.ledger) && Keyed(s'.db.ledger) && AnswerTx(s.db, txId) == AnswerTx(s'.db, txId)
  }

  lemma InterleavedRunsAgree(
    actions: seq<Action>, s: Sys, actions': seq<Action>, s': Sys, changes: set<Change>, txId: string)
    requires Admissible(changes) && Commits(actions, s, changes) && Commits(actions', s', changes)
    requires forall r :: OtherPartOf(changes, txId, r) ==> !LateReceive(LedgerEvents(changes), r)
    ensures Keyed(s.db.ledger) && Keyed(s'.db.ledger) && AnswerTx(s.db, txId) == AnswerTx(s'.db, txId)
  {
    InterleavedAnswersConverge(actions, s, actions', s', changes, txId);
    if ReadsPairOnly(s.db, txId) {
      var r := s.db.ledger[txId].event.body.relatedId.value;
      InterleavedRunIsFaithful(actions, s, changes);
      ShownIsOtherPart(s.history, s.db, txId, r);
      IndexedUnderConcurrency(actions, s, changes, r);
      IndexedUnderConcurrency(actions', s', changes, r);
    }
  }

  // ---------------------------------------------------------------- a stale worker leaves the leg out

  /** `leg` is a RECEIVE event of order `r`, and `stale` another event of it that works on the pair. */
  ghost predicate LatePair(leg: LedgerEvent, stale: LedgerEvent, events: set<LedgerEvent>, r: string) {
    && leg in events && leg.body.relatedId == Some(r) && leg.body.entryType == RECEIVE
    && stale in events && stale.body.relatedId == Some(r) && Eligible(stale) && stale.body.entryType != RECEIVE
  }

  /** `head` holds the changes before those of the leg's transaction id. */
  ghost predicate BeforeLeg(head: seq<Arrival>, db: Db, changes: set<Change>, leg: LedgerEvent) {
    Leads(EMPTY, head, db) && Changes(head) == changes - ChangesOfKey(changes, leg.key)
  }

  /** Handling `stale` once more before the leg is committed reads a ledger without it. */
  lemma StaleStep(head: seq<Arrival>, db: Db, changes: set<Change>, leg: LedgerEvent, stale: LedgerEvent, r: string)
    returns (db': Db)
    requires BeforeLeg(head, db, changes, leg) && Admissible(changes) && LatePair(leg, stale, LedgerEvents(changes), r)
    ensures Step(db, LedgerChange(stale), NOON, db') && Keyed(db.ledger) && Keyed(db'.ledger)
    ensures stale.key in db'.ledger && Matches(db'.ledger[stale.key], r)
    ensures forall key | key in db'.ledger :: !(Matches(db'.ledger[key], r) && TypeOf(db'.ledger[key]) == RECEIVE)
  {
    var last := Arrival(LedgerChange(stale), NOON);
    var log := head + [last];
    assert Identity(stale) != Identity(leg) && LedgerChange(stale) in Changes(head);
    ChangesSnoc(head, last);
    assert Changes(log) == Changes(head);
    SerialRunIsFaithful(head, db);
    StoredEvents(db, head);
    db' := StepExists(db, LedgerChange(stale), NOON);
    LeadsSnoc(EMPTY, head, db, last, db');
    FewerEvents(Changes(log), changes);
    StoredIdentity(log, db', stale);
    NoLegStored(log, db', changes, leg, r);
  }

  lemma NoLegStored(log: seq<Arrival>, db: Db, changes: set<Change>, leg: LedgerEvent, r: string)
    requires BeforeLeg(log, db, changes, leg) && Admissible(changes) && r != ""
    requires leg in LedgerEvents(changes) && leg.body.relatedId == Some(r) && leg.body.entryType == RECEIVE
    ensures forall key | key in db.ledger :: !(Matches(db.ledger[key], r) && TypeOf(db.ledger[key]) == RECEIVE)
  {
    FewerEvents(Changes(log), changes);
    SerialRunIsFaithful(log, db);
    StoredEvents(db, log);
    forall key | key in db.ledger && Matches(db.ledger[key], r)
      ensures TypeOf(db.ledger[key]) != RECEIVE
    {
      var e := db.ledger[key].event;
      assert e in LedgerEvents(Changes(log)) && LedgerChange(e) in Changes(log);
    }
  }

  /** Worker 0 handles `stale` again and has decided what to write, before the leg is committed. */
  lemma StaleReads(head: seq<Arrival>, db: Db, changes: set<Change>, leg: LedgerEvent, stale: LedgerEvent, r: string)
    returns (actions: seq<Action>, s: Sys, t: Txn)
    requires BeforeLeg(head, db, changes, leg) && Admissible(changes) && LatePair(leg, stale, LedgerEvents(changes), r)
    requires AllNoon(head) && !ReceiveIndexed(db, r)
    ensures Exec(actions) == Some(At(s, 0, t)) && Within(actions, changes) && ReadsNoon(actions)
    ensures s.db == db && s.open == map[] && Changes(s.history) == Changes(head)
    ensures t.change == LedgerChange(stale) && t.stage.PairRead?
    ensures t.stage.snapshot.pair.receiveTxId.None? && t.ownPair.None?
  {
    var first, history := SerialRunIsInterleaved(head, db, changes);
    s := Sys(db, map[], history);
    var db' := StaleStep(head, db, changes, leg, stale, r);
    var rows := ListingExists(db'.ledger, db'.ledger.Keys, r);
    assert Listing(rows, db'.ledger, r) && db'.ledger[stale.key] in rows;
    FirstIsListed(rows, RECEIVE);
    actions, t := ReadsRows(first, s, changes, stale, rows);
  }

  lemma ReadsRows(first: seq<Action>, s: Sys, changes: set<Change>, stale: LedgerEvent, rows: seq<LedgerRow>)
    returns (actions: seq<Action>, t: Txn)
    requires Exec(first) == Some(s) && Within(first, changes) && ReadsNoon(first) && s.open == map[]
    requires LedgerChange(stale) in changes && Eligible(stale) && rows != [] && FirstOfType(rows, RECEIVE).None?
    requires Listing(rows, Put(s.db.ledger, Row(stale, 0)), stale.body.relatedId.value)
    requires !ReceiveIndexed(s.db, stale.body.relatedId.value)
    ensures Exec(actions) == Some(At(s, 0, t)) && Within(actions, changes) && ReadsNoon(actions)
    ensures t.change == LedgerChange(stale) && t.stage.PairRead?
    ensures t.stage.snapshot.pair.receiveTxId.None? && t.ownPair.None?
  {
    var second := UpToWrite(first, s, 0, stale, NOON);
    var third := UpToReadPair(first + second, s, 0, stale, NOON, rows);
    actions, t := first + second + third, Judged(s.db, stale, 0, rows, 0);
    WithinServes(first, second, LedgerChange(stale), NOON, changes);
    WithinServes(first + second, third, LedgerChange(stale), NOON, changes);
  }

  /** The stale pair is written over any that carries the same timestamp. */
  lemma StaleWrites(actions: seq<Action>, s: Sys, t: Txn, changes: set<Change>, r: string)
    returns (all: seq<Action>, s': Sys)
    requires Exec(actions) == Some(s) && s.open == map[0 := t] && Within(actions, changes) && ReadsNoon(actions)
    requires t.change in changes && t.change.LedgerChange? && RelatedId(t) == r
    requires t.stage.PairRead? && t.stage.snapshot.pair.receiveTxId.None?
    requires r in s.db.pairs ==> s.db.pairs[r].updatedAt == 0
    ensures Exec(all) == Some(s') && Within(all, changes) && ReadsNoon(all)
    ensures Changes(s'.history) == Changes(s.history) + {t.change} && !ReceiveIndexed(s'.db, r)
  {
    var idle := s.(open := map[]);
    assert At(idle, 0, t) == s;
    var more := WritePairAndCommit(actions, idle, 0, t, NOON);
    all, s' := actions + more, Exec(actions + more).value;
    WithinServes(actions, more, t.change, NOON, changes);
    ChangesSnoc(s.history, Arrival(t.change, Clock(t.ingested, t.ingested, t.ingested)));
  }

  /** Serial steps that leave the leg's changes for last. */
  lemma LegLast(changes: set<Change>, leg: LedgerEvent, r: string)
    returns (head: seq<Arrival>, middle: Db, rest: seq<Arrival>, db: Db)
    requires Admissible(changes)
    requires leg in LedgerEvents(changes) && leg.body.relatedId == Some(r) && leg.body.entryType == RECEIVE
    ensures BeforeLeg(head, middle, changes, leg) && AllNoon(head) && !ReceiveIndexed(middle, r)
    ensures Leads(middle, rest, db) && Changes(rest) == ChangesOfKey(changes, leg.key) && AllNoon(rest)
    ensures r in db.pairs ==> db.pairs[r].updatedAt == 0
  {
    head, rest := KeyLast(changes, leg.key);
    db := RunExists(head + rest);
    middle := LeadsSplit(EMPTY, head, rest, db);
    AllNoonPrefix(head, rest);
    HeadMissesLeg(changes, head, middle, leg, r);
    PairAtNoon(head + rest, db, r);
  }

  /** Some run whose clock stands still never indexes the leg: worker 1 commits it between the reads
      and the pair write of worker 0. */
  lemma StaleRun(changes: set<Change>, r: string) returns (actions: seq<Action>, s: Sys)
    requires Admissible(changes) && LateReceive(LedgerEvents(changes), r)
    ensures Commits(actions, s, changes) && ReadsNoon(actions) && !ReceiveIndexed(s.db, r)
  {
    var events := LedgerEvents(changes);
    var leg :| leg in events && leg.body.relatedId == Some(r) && leg.body.entryType == RECEIVE;
    var stale :| stale in events && stale.body.relatedId == Some(r)
      && Eligible(stale) && stale.body.entryType != RECEIVE;
    var head, middle, rest, db := LegLast(changes, leg, r);
    var reading, s0, t := StaleReads(head, middle, changes, leg, stale, r);
    assert Identity(stale) != Identity(leg);
    actions, s := LegThenStaleWrite(reading, s0, t, changes, leg, rest, db, r);
  }

  lemma LegThenStaleWrite(
    reading: seq<Action>, s0: Sys, t: Txn, changes: set<Change>,
    leg: LedgerEvent, rest: seq<Arrival>, db: Db, r: string)
    returns (actions: seq<Action>, s: Sys)
    requires Exec(reading) == Some(At(s0, 0, t)) && Within(reading, changes) && ReadsNoon(reading) && s0.open == map[]
    requires Changes(s0.history) == changes - ChangesOfKey(changes, leg.key)
    requires t.change in changes && t.change.LedgerChange? && t.change.ledgerEvent.key != leg.key && RelatedId(t) == r
    requires t.stage.PairRead? && t.stage.snapshot.pair.receiveTxId.None? && t.ownPair.None?
    requires Leads(s0.db, rest, db) && Changes(rest) == ChangesOfKey(changes, leg.key) && AllNoon(rest)
    requires r in db.pairs ==> db.pairs[r].updatedAt == 0
    ensures Commits(actions, s, changes) && ReadsNoon(actions) && !ReceiveIndexed(s.db, r)
  {
    var s1 := At(s0, 0, t);
    LegUnblocked(s1, t, changes, leg, rest);
    var late, history := TransactAll(reading, s1, 1, rest, db, changes);
    actions, s := StaleWrites(late, Sys(db, s1.open, history), t, changes, r);
  }

  lemma AllNoonPrefix(log: seq<Arrival>, more: seq<Arrival>)
    requires AllNoon(log + more)
    ensures AllNoon(log) && AllNoon(more)
  {
    assert forall arrival | arrival in log || arrival in more :: arrival in log + more;
  }

  lemma PairAtNoon(log: seq<Arrival>, db: Db, r: string)
    requires Leads(EMPTY, log, db) && AllNoon(log)
    ensures r in db.pairs ==> db.pairs[r].updatedAt == 0
  {
    if r in db.pairs {
      PairsStamped(log, db, r);
    }
  }

  /** The open transaction holds the key of its own event, and no pair. */
  lemma LegUnblocked(s: Sys, t: Txn, changes: set<Change>, leg: LedgerEvent, rest: seq<Arrival>)
    requires s.open == map[0 := t] && t.change.LedgerChange? && t.ownPair.None? && t.change.ledgerEvent.key != leg.key
    requires Changes(rest) == ChangesOfKey(changes, leg.key)
    ensures AllUnblocked(s, rest)
  {
    forall arrival | arrival in rest
      ensures Unblocked(s, arrival.change)
    {
      assert arrival.change in Changes(rest);
    }
  }

  // ---------------------------------------------------------------- end to end

  /** Two runs whose clocks stand still give different answers. */
  lemma TwoAnswersAtNoon(changes: set<Change>, txId: string, r: string)
    returns (actions: seq<Action>, s: Sys, actions': seq<Action>, s': Sys)
    requires Admissible(changes) && OtherPartOf(changes, txId, r) && LateReceive(LedgerEvents(changes), r)
    ensures Commits(actions, s, changes) && Commits(actions', s', changes) && ReadsNoon(actions) && ReadsNoon(actions')
    ensures Keyed(s.db.ledger) && Keyed(s'.db.ledger) && AnswerTx(s.db, txId) != AnswerTx(s'.db, txId)
  {
    actions, s := StaleRun(changes, r);
    var log, db := LegFirst(changes, r);
    var history;
    actions', history := SerialRunIsInterleaved(log, db, changes);
    s' := Sys(db, map[], history);
    InterleavedAnswersConverge(actions, s, actions', s', changes, txId);
    InterleavedRunIsFaithful(actions, s, changes);
    OtherPartIsShown(s.history, s.db, txId, r);
  }

  /** The end-to-end theorem under concurrency, for clocks that never step back and for any clocks: a
      transaction has one answer over all interleaved runs that commit the same admissible changes if
      and only if it is not a non-leg part of an order that has a RECEIVE leg and an eligible event
      of another type. */
  lemma EndToEndUnderConcurrency(changes: set<Change>, txId: string)
    requires Admissible(changes)
    ensures OneAnswerForward(changes, txId)
            <==> forall r :: OtherPartOf(changes, txId, r) ==> !LateReceive(LedgerEvents(changes), r)
    ensures OneAnswerForward(changes, txId) <==> OneInterleavedAnswer(changes, txId)
  {
    if forall r :: OtherPartOf(changes, txId, r) ==> !LateReceive(LedgerEvents(changes), r) {
      forall actions, s, actions', s' | Commits(actions, s, changes) && Commits(actions', s', changes)
        ensures Keyed(s.db.ledger) && Keyed(s'.db.ledger) && AnswerTx(s.db, txId) == AnswerTx(s'.db, txId)
      {
        InterleavedRunsAgree(actions, s, actions', s', changes, txId);
      }
    } else {
      var r :| OtherPartOf(changes, txId, r) && LateReceive(LedgerEvents(changes), r);
      var actions, s, actions', s' := TwoAnswersAtNoon(changes, txId, r);
      NoonIsForward(actions);
      NoonIsForward(actions');
    }
  }
}
