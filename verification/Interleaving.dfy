/**
 Several workers of one consumer group on one database, one step per SQL statement.

 A statement reads committed rows plus the worker's own writes. A write to a key that
 another open transaction has written waits, also when the guard refuses the row. Commit
 publishes all of a transaction's writes at once; rollback publishes none.
 */
module Interleaving {
  import opened Wrappers
  import opened LatestWins
  import opened Pairing
  import opened Store
  import opened History
  import opened Lookups
  import opened Convergence

  datatype Stage =
    | Begun
    | Written
    | Scanned(rows: seq<LedgerRow>)
    | OrderRead(readRows: seq<LedgerRow>, order: Option<OrderRow>)
    | PairRead(snapshot: PairingSnapshot)
    | Finished

  /** An open transaction. An own row, once there, also stands for the lock on its key. */
  datatype Txn = Txn(
    change: Change, ingested: int, stage: Stage,
    ownLedger: Option<LedgerRow>, ownOrder: Option<OrderRow>, ownPair: Option<PairRow>)
  {
    predicate HoldsLedger(key: string) { change.LedgerChange? && ownLedger.Some? && change.ledgerEvent.key == key }

    predicate HoldsOrder(key: string) { change.OrderChange? && ownOrder.Some? && change.orderEvent.key == key }

    predicate HoldsPair(relatedId: string) {
      change.LedgerChange? && ownPair.Some? && change.ledgerEvent.body.relatedId == Some(relatedId)
    }
  }

  /** `history` lists the committed changes in commit order. */
  datatype Sys = Sys(db: Db, open: map<nat, Txn>, history: seq<Arrival>)

  datatype Action =
    | Begin(worker: nat, change: Change)
    | WriteLedger(worker: nat, now: int)
    | Scan(worker: nat, rows: seq<LedgerRow>)
    | ReadOrder(worker: nat)
    | ReadPair(worker: nat, now: int)
    | WritePair(worker: nat, now: int)
    | WriteOrder(worker: nat, now: int)
    | Commit(worker: nat)
    | Rollback(worker: nat)

  const START := Sys(EMPTY, map[], [])

  /** The ledger as the transaction sees it. */
  function View(db: Db, t: Txn): LedgerTable {
    if t.change.LedgerChange? && t.ownLedger.Some? then db.ledger[t.change.ledgerEvent.key := t.ownLedger.value]
    else db.ledger
  }

  ghost predicate Enabled(s: Sys, a: Action) {
    if a.Begin? then a.worker !in s.open
    else a.worker in s.open && var t := s.open[a.worker];
      match a
      case WriteLedger(_, _) =>
        t.stage == Begun && t.change.LedgerChange?
        && forall v | v in s.open && v != a.worker :: !s.open[v].HoldsLedger(t.change.ledgerEvent.key)
      case Scan(_, rows) =>
        t.stage == Written && t.change.LedgerChange? && Eligible(t.change.ledgerEvent)
        && Listing(rows, View(s.db, t), t.change.ledgerEvent.body.relatedId.value)
      case ReadOrder(_) => t.stage.Scanned?
      case ReadPair(_, _) => t.stage.OrderRead?
      case WritePair(_, _) =>
        t.stage.PairRead?
        && forall v | v in s.open && v != a.worker :: !s.open[v].HoldsPair(RelatedId(t))
      case WriteOrder(_, _) =>
        t.stage == Begun && t.change.OrderChange?
        && forall v | v in s.open && v != a.worker :: !s.open[v].HoldsOrder(t.change.orderEvent.key)
      case Commit(_) => t.stage == Finished
      case Rollback(_) => true
  }

  function RelatedId(t: Txn): string {
    if t.change.LedgerChange? && t.change.ledgerEvent.body.relatedId.Some? then
      t.change.ledgerEvent.body.relatedId.value else ""
  }

  /** What the transaction has done after the statement. */
  function Advance(s: Sys, t: Txn, a: Action): Txn {
    match a
    case WriteLedger(_, now) =>
      if t.change.OrderChange? then t
      else
        var e := t.change.ledgerEvent;
        t.(ingested := now, ownLedger := Some(Put(s.db.ledger, Row(e, now))[e.key]),
           stage := if Eligible(e) then Written else Finished)
    case Scan(_, rows) => t.(stage := if rows == [] then Finished else Scanned(rows))
    case ReadOrder(_) =>
      if t.stage.Scanned? then t.(stage := OrderRead(t.stage.rows, Lookup(s.db.orders, RelatedId(t)))) else t
    case ReadPair(_, now) =>
      if !t.stage.OrderRead? then t
      else
        var snapshot := Compute(t.stage.readRows, t.stage.order, now);
        t.(stage := if ShouldUpdatePair(PairComplete(s.db.pairs, RelatedId(t)), snapshot.complete) then
            PairRead(snapshot) else Finished)
    case WritePair(_, now) =>
      if !t.stage.PairRead? then t
      else t.(ownPair := Some(PutPair(s.db.pairs, RelatedId(t),
              PairRow(t.stage.snapshot.pair, now, now))[RelatedId(t)]), stage := Finished)
    case WriteOrder(_, now) =>
      if t.change.LedgerChange? then t
      else
        var e := t.change.orderEvent;
        t.(ingested := now, ownOrder := Some(Put(s.db.orders, Row(e, now))[e.key]), stage := Finished)
    case _ => t
  }

  /** The tables once the transaction's writes are published. */
  function Publish(db: Db, t: Txn): Db {
    match t.change
    case LedgerChange(e) =>
      Db(View(db, t), db.orders, if t.ownPair.Some? then db.pairs[RelatedId(t) := t.ownPair.value] else db.pairs)
    case OrderChange(e) =>
      db.(orders := if t.ownOrder.Some? then db.orders[e.key := t.ownOrder.value] else db.orders)
  }

  function Next(s: Sys, a: Action): Sys {
    if a.Begin? then s.(open := s.open[a.worker := Txn(a.change, 0, Begun, None, None, None)])
    else if a.worker !in s.open then s
    else
      var t := s.open[a.worker];
      if a.Commit? then
        Sys(Publish(s.db, t), s.open - {a.worker},
            s.history + [Arrival(t.change, Clock(t.ingested, t.ingested, t.ingested))])
      else if a.Rollback? then s.(open := s.open - {a.worker})
      else s.(open := s.open[a.worker := Advance(s, t, a)])
  }

  /** The state after the actions, if each was enabled in its turn. */
  ghost function Exec(actions: seq<Action>): Option<Sys>
    decreases |actions|, 1
  {
    if actions == [] then Some(START) else ExecLast(actions)
  }

  ghost function ExecLast(actions: seq<Action>): Option<Sys>
    requires actions != []
    decreases |actions|, 0
  {
    var before := Exec(actions[..|actions| - 1]);
    var last := actions[|actions| - 1];
    if before.Some? && Enabled(before.value, last) then Some(Next(before.value, last)) else None
  }

  /** Every transaction of the run handles one of `changes`. */
  ghost predicate Within(actions: seq<Action>, changes: set<Change>) {
    forall a | a in actions && a.Begin? :: a.change in changes
  }

  /** The time that a statement takes from its worker's clock. */
  function Reading(a: Action): Option<int> {
    match a
    case WriteLedger(_, now) => Some(now)
    case ReadPair(_, now) => Some(now)
    case WritePair(_, now) => Some(now)
    case WriteOrder(_, now) => Some(now)
    case _ => None
  }

  predicate NotBefore(a: Action, b: Action) {
    Reading(a).Some? && Reading(b).Some? ==> Reading(a).value <= Reading(b).value
  }

  /** All workers read one clock, which does not step back. */
  ghost predicate ReadsForward(actions: seq<Action>) {
    forall i, j | 0 <= i < j < |actions| :: NotBefore(actions[i], actions[j])
  }

  /** The clock stands still. */
  ghost predicate ReadsNoon(actions: seq<Action>) {
    forall a | a in actions && Reading(a).Some? :: Reading(a).value == 0
  }

  lemma NoonIsForward(actions: seq<Action>)
    requires ReadsNoon(actions)
    ensures ReadsForward(actions)
  {
    forall i, j | 0 <= i < j < |actions|
      ensures NotBefore(actions[i], actions[j])
    {
      assert actions[i] in actions && actions[j] in actions;
    }
  }

  // ---------------------------------------------------------------- invariant

  /** Rows read earlier still stand for rows of the view. */
  ghost predicate StillThere(rows: seq<LedgerRow>, ledger: LedgerTable, relatedId: string) {
    forall row | row in rows ::
      row.event.key in ledger && Identity(ledger[row.event.key].event) == Identity(row.event) && Matches(row, relatedId)
  }

  ghost predicate TxnOk(db: Db, t: Txn, changes: set<Change>) {
    && t.change in changes
    && (t.change.OrderChange? ==> t.ownLedger.None? && t.ownPair.None? && (t.stage == Begun || t.stage == Finished))
    && (t.change.LedgerChange? ==> t.ownOrder.None? && (t.ownLedger.None? <==> t.stage == Begun))
    && (t.stage == Begun ==> t.ownPair.None? && t.ownOrder.None?)
    && (t.change.OrderChange? ==> (t.ownOrder.None? <==> t.stage == Begun))
    && (t.change.LedgerChange? && t.ownLedger.Some? ==>
        View(db, t) == Put(db.ledger, Row(t.change.ledgerEvent, t.ingested)))
    && (t.change.OrderChange? && t.ownOrder.Some? ==>
          db.orders[t.change.orderEvent.key := t.ownOrder.value]
            == Put(db.orders, Row(t.change.orderEvent, t.ingested)))
    && (t.stage.Scanned? ==> StillThere(t.stage.rows, View(db, t), RelatedId(t)))
    && (t.stage.OrderRead? ==> StillThere(t.stage.readRows, View(db, t), RelatedId(t)))
    && (t.stage.PairRead? ==> PairSound(t.stage.snapshot.pair, RelatedId(t), View(db, t)))
    && (t.ownPair.Some? ==> PairSound(t.ownPair.value.pair, RelatedId(t), View(db, t)))
  }

  ghost predicate Exclusive(s: Sys) {
    && (forall v, w, key | v in s.open && w in s.open && v != w ::
        !(s.open[v].HoldsLedger(key) && s.open[w].HoldsLedger(key)))
    && (forall v, w, key | v in s.open && w in s.open && v != w ::
        !(s.open[v].HoldsOrder(key) && s.open[w].HoldsOrder(key)))
  }

  ghost predicate Inv(s: Sys, changes: set<Change>) {
    && Faithful(s.db, s.history) && Changes(s.history) <= changes
    && Exclusive(s)
    && forall w | w in s.open :: TxnOk(s.db, s.open[w], changes)
  }

  /** The view of a transaction keeps the identity of every committed row. */
  lemma ViewKeepsIdentity(s: Sys, t: Txn, changes: set<Change>)
    requires Faithful(s.db, s.history) && Changes(s.history) <= changes && TxnOk(s.db, t, changes)
    requires StableIdentity(LedgerEvents(changes))
    ensures IdentityKept(s.db.ledger, View(s.db, t))
  {
    if t.change.LedgerChange? && t.ownLedger.Some? {
      EventsOfHistory(s.history);
      FewerEvents(Changes(s.history), changes);
      PutKeepsIdentity(LedgerArrivals(s.history), Row(t.change.ledgerEvent, t.ingested), LedgerEvents(changes));
    }
  }

  lemma StillThereKept(rows: seq<LedgerRow>, ledger: LedgerTable, ledger': LedgerTable, relatedId: string)
    requires StillThere(rows, ledger, relatedId) && IdentityKept(ledger, ledger')
    ensures StillThere(rows, ledger', relatedId)
  {}

  /** A recomputation over rows read earlier is sound for the view it is computed in. */
  lemma ComputeStillSound(
    rows: seq<LedgerRow>, ledger: LedgerTable, relatedId: string, order: Option<OrderRow>, now: int)
    requires StillThere(rows, ledger, relatedId)
    ensures PairSound(Compute(rows, order, now).pair, relatedId, ledger)
  {
    FirstIsListed(rows, PAYMENT);
    FirstIsListed(rows, RECEIVE);
  }

  /** A write decides the row that will be published, against the committed row. */
  lemma WriteOk(s: Sys, a: Action, changes: set<Change>)
    requires Inv(s, changes) && Enabled(s, a) && (a.WriteLedger? || a.WriteOrder?)
    ensures TxnOk(s.db, Advance(s, s.open[a.worker], a), changes)
  {}

  /** A read keeps what the transaction knows true of its view, and so does the pair write. */
  lemma ReadOk(s: Sys, a: Action, changes: set<Change>)
    requires Inv(s, changes) && StableIdentity(LedgerEvents(changes)) && Enabled(s, a)
    requires a.Scan? || a.ReadOrder? || a.ReadPair? || a.WritePair?
    ensures TxnOk(s.db, Advance(s, s.open[a.worker], a), changes)
  {
    var t := s.open[a.worker];
    match a {
      case ReadPair(_, now) => ComputeStillSound(t.stage.readRows, View(s.db, t), RelatedId(t), t.stage.order, now);
      case WritePair(_, now) =>
        ViewKeepsIdentity(s, t, changes);
        if RelatedId(t) in s.db.pairs {
          SoundKept(s.db.pairs[RelatedId(t)].pair, RelatedId(t), s.db.ledger, View(s.db, t));
        }
      case _ =>
    }
  }

  lemma AdvanceInv(s: Sys, a: Action, changes: set<Change>)
    requires Inv(s, changes) && StableIdentity(LedgerEvents(changes)) && Enabled(s, a)
    requires !a.Begin? && !a.Commit? && !a.Rollback?
    ensures Inv(Next(s, a), changes)
  {
    if a.WriteLedger? || a.WriteOrder? {
      WriteOk(s, a, changes);
    } else {
      ReadOk(s, a, changes);
    }
    AdvanceExclusive(s, a);
  }

  lemma AdvanceExclusive(s: Sys, a: Action)
    requires Exclusive(s) && Enabled(s, a) && !a.Begin? && !a.Commit? && !a.Rollback?
    ensures Exclusive(Next(s, a))
  {
    var t, t' := s.open[a.worker], Advance(s, s.open[a.worker], a);
    assert t'.change == t.change;
    assert !a.WriteLedger? ==> t'.ownLedger == t.ownLedger;
    assert !a.WriteOrder? ==> t'.ownOrder == t.ownOrder;
  }

  /** Publishing is the serial upsert of the transaction's event. */
  lemma PublishFaithful(s: Sys, w: nat, changes: set<Change>)
    requires Inv(s, changes) && StableIdentity(LedgerEvents(changes)) && w in s.open && s.open[w].stage == Finished
    ensures var s' := Next(s, Commit(w));
            Faithful(s'.db, s'.history) && Changes(s'.history) <= changes && IdentityKept(s.db.ledger, s'.db.ledger)
  {
    var t := s.open[w];
    var last := Arrival(t.change, Clock(t.ingested, t.ingested, t.ingested));
    var s' := Next(s, Commit(w));
    ChangesSnoc(s.history, last);
    if t.change.LedgerChange? {
      FoldSnoc(LedgerArrivals(s.history), Row(t.change.ledgerEvent, t.ingested));
    } else {
      FoldSnoc(OrderArrivals(s.history), Row(t.change.orderEvent, t.ingested));
    }
    ViewKeepsIdentity(s, t, changes);
    forall r | r in s'.db.pairs
      ensures PairSound(s'.db.pairs[r].pair, r, s'.db.ledger)
    {
      if r in s.db.pairs {
        SoundKept(s.db.pairs[r].pair, r, s.db.ledger, s'.db.ledger);
      }
    }
  }

  /** Another worker's commit leaves an open transaction in order: the keys it holds did not move. */
  lemma OtherTxnOk(s: Sys, w: nat, v: nat, changes: set<Change>)
    requires Inv(s, changes) && StableIdentity(LedgerEvents(changes)) && w in s.open && v in s.open && v != w
    requires s.open[w].stage == Finished
    ensures TxnOk(Next(s, Commit(w)).db, s.open[v], changes)
  {
    var s' := Next(s, Commit(w));
    var t, other := s.open[w], s.open[v];
    PublishFaithful(s, w, changes);
    OwnRowsKept(s, w, v, changes);
    ViewGrows(s, w, v, changes);
    match other.stage {
      case Scanned(rows) => StillThereKept(rows, View(s.db, other), View(s'.db, other), RelatedId(other));
      case OrderRead(rows, _) => StillThereKept(rows, View(s.db, other), View(s'.db, other), RelatedId(other));
      case PairRead(snapshot) => SoundKept(snapshot.pair, RelatedId(other), View(s.db, other), View(s'.db, other));
      case _ =>
    }
    if other.ownPair.Some? {
      SoundKept(other.ownPair.value.pair, RelatedId(other), View(s.db, other), View(s'.db, other));
    }
  }

  lemma OwnRowsKept(s: Sys, w: nat, v: nat, changes: set<Change>)
    requires Inv(s, changes) && w in s.open && v in s.open && v != w && s.open[w].stage == Finished
    ensures var db', other := Next(s, Commit(w)).db, s.open[v];
            && (other.change.LedgerChange? && other.ownLedger.Some? ==>
                  View(db', other) == Put(db'.ledger, Row(other.change.ledgerEvent, other.ingested)))
            && (other.change.OrderChange? && other.ownOrder.Some? ==>
                  db'.orders[other.change.orderEvent.key := other.ownOrder.value]
                  == Put(db'.orders, Row(other.change.orderEvent, other.ingested)))
  {
    var t, other := s.open[w], s.open[v];
    var db' := Next(s, Commit(w)).db;
    if other.change.LedgerChange? && other.ownLedger.Some? {
      var key := other.change.ledgerEvent.key;
      assert other.HoldsLedger(key) && !t.HoldsLedger(key);
      assert key in db'.ledger <==> key in s.db.ledger;
      assert View(s.db, other)[key] == other.ownLedger.value;
    }
    if other.change.OrderChange? && other.ownOrder.Some? {
      var key := other.change.orderEvent.key;
      assert other.HoldsOrder(key) && !t.HoldsOrder(key);
      assert key in db'.orders <==> key in s.db.orders;
      assert s.db.orders[key := other.ownOrder.value][key] == other.ownOrder.value;
    }
  }

  lemma ViewGrows(s: Sys, w: nat, v: nat, changes: set<Change>)
    requires Inv(s, changes) && StableIdentity(LedgerEvents(changes)) && w in s.open && v in s.open && v != w
    requires s.open[w].stage == Finished
    ensures IdentityKept(View(s.db, s.open[v]), View(Next(s, Commit(w)).db, s.open[v]))
  {
    PublishFaithful(s, w, changes);
  }

  lemma CommitInv(s: Sys, w: nat, changes: set<Change>)
    requires Inv(s, changes) && StableIdentity(LedgerEvents(changes)) && w in s.open && s.open[w].stage == Finished
    ensures Inv(Next(s, Commit(w)), changes)
  {
    PublishFaithful(s, w, changes);
    forall v | v in Next(s, Commit(w)).open
      ensures TxnOk(Next(s, Commit(w)).db, Next(s, Commit(w)).open[v], changes)
    {
      OtherTxnOk(s, w, v, changes);
    }
  }

  lemma StepInv(s: Sys, a: Action, changes: set<Change>)
    requires Inv(s, changes) && StableIdentity(LedgerEvents(changes)) && Enabled(s, a)
    requires a.Begin? ==> a.change in changes
    ensures Inv(Next(s, a), changes)
    ensures IdentityKept(s.db.ledger, Next(s, a).db.ledger)
  {
    match a {
      case Begin(_, _) =>
      case Rollback(_) =>
      case Commit(w) =>
        PublishFaithful(s, w, changes);
        CommitInv(s, w, changes);
      case _ => AdvanceInv(s, a, changes);
    }
  }

  // ---------------------------------------------------------------- theorems

  lemma {:induction false} RunInv(actions: seq<Action>, s: Sys, changes: set<Change>)
    requires Exec(actions) == Some(s) && Within(actions, changes) && StableIdentity(LedgerEvents(changes))
    ensures Inv(s, changes)
    decreases |actions|
  {
    if actions != [] {
      var init, last := actions[..|actions| - 1], actions[|actions| - 1];
      assert ExecLast(actions) == Some(s);
      RunInv(init, Exec(init).value, changes);
      StepInv(Exec(init).value, last, changes);
    }
  }

  /** In every reachable state, however workers interleave, commit and roll back: the committed
      ledger and order tables are those of the committed changes processed one after the other,
      and every committed pair row names committed rows of its types, with their wallets. */
  lemma InterleavedRunIsFaithful(actions: seq<Action>, s: Sys, changes: set<Change>)
    requires Exec(actions) == Some(s) && Within(actions, changes) && StableIdentity(LedgerEvents(changes))
    ensures Faithful(s.db, s.history) && Changes(s.history) <= changes
  {
    RunInv(actions, s, changes);
  }

  /** Committed rows stay, with their identity, however the run goes on. */
  lemma {:induction false} LaterLedger(actions: seq<Action>, more: seq<Action>, s: Sys, s': Sys, changes: set<Change>)
    requires Exec(actions) == Some(s) && Exec(actions + more) == Some(s')
    requires Within(actions + more, changes) && StableIdentity(LedgerEvents(changes))
    ensures IdentityKept(s.db.ledger, s'.db.ledger)
    decreases |more|
  {
    if more == [] {
      assert actions + more == actions;
    } else {
      var whole := actions + more;
      var init, last := more[..|more| - 1], more[|more| - 1];
      assert whole[..|whole| - 1] == actions + init && whole[|whole| - 1] == last;
      assert ExecLast(whole) == Some(s');
      LaterLedger(actions, init, s, Exec(actions + init).value, changes);
      RunInv(actions + init, Exec(actions + init).value, changes);
      StepInv(Exec(actions + init).value, last, changes);
    }
  }

  lemma CommittedRowsAreNamed(actions: seq<Action>, s: Sys, changes: set<Change>)
    requires Exec(actions) == Some(s) && Within(actions, changes)
    requires StableIdentity(LedgerEvents(changes)) && WellFormed(LedgerEvents(changes))
    ensures NamedRows(s.db.ledger) && PairsSound(s.db)
  {
    RunInv(actions, s, changes);
    StoredEvents(s.db, s.history);
    FewerEvents(Changes(s.history), changes);
  }

  /** Read-repair is exact under concurrency. A lookup's two statements may be separated by any
      steps of the workers (`more`): a PAYMENT or RECEIVE entry reads COMPLETE if an opposite leg
      was committed at the first statement and only if one is committed at the second, so with no
      step in between, exactly if one is committed, whatever the pair row says. */
  lemma ReadRepairUnderConcurrency(
    actions: seq<Action>, more: seq<Action>, s: Sys, s': Sys, changes: set<Change>, txId: string)
    requires Exec(actions) == Some(s) && Exec(actions + more) == Some(s') && Within(actions + more, changes)
    requires StableIdentity(LedgerEvents(changes)) && WellFormed(LedgerEvents(changes))
    requires txId in s.db.ledger && IsLegType(TypeOf(s.db.ledger[txId]))
    requires Keyed(s'.db.ledger) && Pairable(FetchTxContext(s.db, s'.db.ledger, txId).value)
    ensures var entry, view := s.db.ledger[txId], PairingOf(FetchTxContext(s.db, s'.db.ledger, txId).value);
            && (HasPeer(s.db.ledger, entry) ==> view.status == COMPLETE)
            && (view.status == COMPLETE ==> HasPeer(s'.db.ledger, entry))
            && (view.pairedTxId.Some? ==> IsPeer(s'.db.ledger, entry, view.pairedTxId.value))
            && (more == [] ==> (view.status == COMPLETE <==> HasPeer(s.db.ledger, entry)))
  {
    CommittedRowsAreNamed(actions, s, changes);
    CommittedRowsAreNamed(actions + more, s', changes);
    LaterLedger(actions, more, s, s', changes);
    ReadRepair(s.db, s'.db.ledger, txId);
    if more == [] {
      assert actions + more == actions;
    }
  }

  /** Two runs that committed the same changes, with any workers, interleavings and rollbacks,
      end with the same tables and the same answer for every PAYMENT and RECEIVE transaction,
      and for every transaction that is not shown as part of an order; and the same answer for any
      other transaction exactly if their indexes agree on whether the RECEIVE leg was indexed. */
  lemma InterleavedAnswersConverge(
    actions: seq<Action>, s: Sys, actions': seq<Action>, s': Sys, changes: set<Change>, txId: string)
    requires Exec(actions) == Some(s) && Within(actions, changes)
    requires Exec(actions') == Some(s') && Within(actions', changes)
    requires StableIdentity(LedgerEvents(changes))
    requires Changes(s.history) == Changes(s'.history) && Admissible(Changes(s.history))
    ensures Contents(s.db.ledger) == Contents(s'.db.ledger) && Contents(s.db.orders) == Contents(s'.db.orders)
    ensures Keyed(s.db.ledger) && Keyed(s'.db.ledger)
    ensures txId in s.db.ledger && (IsLegType(TypeOf(s.db.ledger[txId])) || !ShownAsOrder(s.db, txId)) ==>
              AnswerTx(s.db, txId) == AnswerTx(s'.db, txId)
    ensures AnswerTx(s.db, txId) == AnswerTx(s'.db, txId)
            <==> SameReceiveIndexed(s.db, s'.db, txId)
  {
    RunInv(actions, s, changes);
    RunInv(actions', s', changes);
    TablesConverge(s.db, s.history, s'.db, s'.history);
    AnswersConvergeIff(s.db, s.history, s'.db, s'.history, txId);
  }

  lemma ExecStep(actions: seq<Action>, s: Sys, a: Action, s': Sys)
    requires Exec(actions) == Some(s) && Enabled(s, a) && Next(s, a) == s'
    ensures Exec(actions + [a]) == Some(s')
  {
    assert (actions + [a])[..|actions|] == actions && (actions + [a])[|actions|] == a;
    assert ExecLast(actions + [a]) == Some(s');
  }

  /** Histories only grow. */
  lemma {:induction false} HistoryGrows(actions: seq<Action>, more: seq<Action>, s: Sys, s': Sys)
    requires Exec(actions) == Some(s) && Exec(actions + more) == Some(s')
    ensures s.history <= s'.history
    decreases |more|
  {
    if more == [] {
      assert actions + more == actions;
    } else {
      var whole := actions + more;
      assert whole[..|whole| - 1] == actions + more[..|more| - 1];
      assert ExecLast(whole) == Some(s');
      HistoryGrows(actions, more[..|more| - 1], s, Exec(actions + more[..|more| - 1]).value);
    }
  }

  /** Metadata is never lost under concurrency either. */
  lemma MetadataIsNeverLost(actions: seq<Action>, more: seq<Action>, s: Sys, s': Sys, changes: set<Change>, key: string)
    requires Exec(actions) == Some(s) && Exec(actions + more) == Some(s') && Within(actions + more, changes)
    requires StableIdentity(LedgerEvents(changes))
    ensures key in s.db.ledger && HasMetadata(s.db.ledger[key].event)
            ==> key in s'.db.ledger && HasMetadata(s'.db.ledger[key].event)
    ensures key in s.db.orders && HasMetadata(s.db.orders[key].event)
            ==> key in s'.db.orders && HasMetadata(s'.db.orders[key].event)
  {
    var later := LaterHistory(actions, more, s, s', changes);
    if key in s.db.ledger && HasMetadata(s.db.ledger[key].event) {
      MetadataKept(LedgerArrivals(s.history), LedgerArrivals(later), key);
    }
    if key in s.db.orders && HasMetadata(s.db.orders[key].event) {
      MetadataKept(OrderArrivals(s.history), OrderArrivals(later), key);
    }
  }

  lemma TablesOf(actions: seq<Action>, s: Sys, changes: set<Change>)
    requires Exec(actions) == Some(s) && Within(actions, changes) && StableIdentity(LedgerEvents(changes))
    ensures s.db.ledger == Fold(LedgerArrivals(s.history)) && s.db.orders == Fold(OrderArrivals(s.history))
  {
    RunInv(actions, s, changes);
  }

  lemma WithinPrefix(actions: seq<Action>, more: seq<Action>, changes: set<Change>)
    requires Within(actions + more, changes)
    ensures Within(actions, changes)
  {
    assert forall a | a in actions :: a in actions + more;
  }

  lemma WhatFollows(actions: seq<Action>, more: seq<Action>, s: Sys, s': Sys) returns (later: seq<Arrival>)
    requires Exec(actions) == Some(s) && Exec(actions + more) == Some(s')
    ensures s'.history == s.history + later
    ensures LedgerArrivals(s'.history) == LedgerArrivals(s.history) + LedgerArrivals(later)
    ensures OrderArrivals(s'.history) == OrderArrivals(s.history) + OrderArrivals(later)
  {
    HistoryGrows(actions, more, s, s');
    later := s'.history[|s.history|..];
    ArrivalsConcat(s.history, later);
  }

  /** What was committed between two states of a run. */
  lemma LaterHistory(
    actions: seq<Action>, more: seq<Action>, s: Sys, s': Sys, changes: set<Change>) returns (later: seq<Arrival>)
    requires Exec(actions) == Some(s) && Exec(actions + more) == Some(s') && Within(actions + more, changes)
    requires StableIdentity(LedgerEvents(changes))
    ensures s'.history == s.history + later
    ensures s.db.ledger == Fold(LedgerArrivals(s.history))
    ensures s'.db.ledger == Fold(LedgerArrivals(s.history) + LedgerArrivals(later))
    ensures s.db.orders == Fold(OrderArrivals(s.history))
    ensures s'.db.orders == Fold(OrderArrivals(s.history) + OrderArrivals(later))
  {
    WithinPrefix(actions, more, changes);
    TablesOf(actions, s, changes);
    TablesOf(actions + more, s', changes);
    later := WhatFollows(actions, more, s, s');
  }
}
