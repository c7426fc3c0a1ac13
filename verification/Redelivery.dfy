/**
 What delivery runs guarantee (src/consumer/main.py:248-334, scripts/replay_dlq.py): no message is
 skipped silently, and crashes, redelivery, dead-lettering and replay have the effect of one delivery.
 */
module Redelivery {
  import opened Wrappers
  import opened LatestWins
  import opened Pairing
  import opened Store
  import opened History
  import opened SerialRuns
  import opened Lookups
  import opened Convergence
  import opened Dlq
  import opened Delivery

  /** No message is skipped silently: whatever crashes and restarts happen, every offset below one
      the broker has stored, or has been asked to store, is of a message whose transaction
      committed or for which a dead-letter write was attempted. */
  lemma NoSilentSkip(env: Env, partitions: nat, actions: seq<Action>, n: Node, at: Place)
    requires Exec(env, partitions, actions) == Some(n)
    ensures Shaped(n)
    ensures InLogs(n.logs, at) && (at.offset < n.committed[at.partition] || at.offset < n.asked[at.partition]) ==>
              Handled(n, at)
  {
    RunInv(env, partitions, actions, n);
  }

  ghost predicate Drained(n: Node) {
    Shaped(n) && forall p | 0 <= p < |n.logs| :: n.committed[p] == |n.logs[p]|
  }

  /** The changes the messages of a node ask for. */
  ghost predicate Asks(env: Env, n: Node, change: Change) {
    exists at :: Carries(env, n.logs, at, change)
  }

  /** Some transaction committed what the message at `at` asks for. */
  ghost predicate Committed(env: Env, n: Node, at: Place)
    requires InLogs(n.logs, at)
  {
    exists other :: other in n.applied && InLogs(n.logs, other)
      && env.read(MessageAt(n.logs, other)) == env.read(MessageAt(n.logs, at))
  }

  /** No valid message was lost to a failure. */
  ghost predicate Recovered(env: Env, n: Node) {
    forall at {:trigger Committed(env, n, at)} | InLogs(n.logs, at) && env.read(MessageAt(n.logs, at)).Some? ::
      Committed(env, n, at)
  }

  /** What the message at `order[i]` asks for was asked for again by a later message. */
  ghost predicate AskedAgain(env: Env, n: Node, i: nat)
    requires Shaped(n) && i < |n.order|
  {
    exists j :: i < j < |n.order| && env.read(MessageAt(n.logs, n.order[j])) == env.read(MessageAt(n.logs, n.order[i]))
  }

  /** Each valid message that was only dead-lettered was asked for again after that. */
  ghost predicate AllReplayed(env: Env, n: Node)
    requires Shaped(n)
  {
    forall i: nat {:trigger AskedAgain(env, n, i)}
      | i < |n.order| && n.order[i] !in n.applied && env.read(MessageAt(n.logs, n.order[i])).Some? ::
      n.order[i] in n.deadLetters ==> AskedAgain(env, n, i)
  }

  lemma {:induction false} CopyCommitted(env: Env, n: Node, i: nat)
    requires Inv(env, n) && Drained(n) && AllReplayed(env, n)
    requires i < |n.order| && env.read(MessageAt(n.logs, n.order[i])).Some?
    ensures Committed(env, n, n.order[i])
    decreases |n.order| - i
  {
    var at := n.order[i];
    assert Handled(n, at);
    if at !in n.applied {
      assert AskedAgain(env, n, i);
      var j :| i < j < |n.order| && env.read(MessageAt(n.logs, n.order[j])) == env.read(MessageAt(n.logs, n.order[i]));
      CopyCommitted(env, n, j);
    }
  }

  /** Dead-letter and replay lose nothing: once the partitions are drained and every valid dead
      letter has been replayed, however often the copies failed in turn, each valid message
      has been applied in some copy. */
  lemma ReplayRecovers(env: Env, partitions: nat, actions: seq<Action>, n: Node)
    requires Exec(env, partitions, actions) == Some(n) && Drained(n) && AllReplayed(env, n)
    ensures Recovered(env, n)
  {
    RunInv(env, partitions, actions, n);
    forall at | InLogs(n.logs, at) && env.read(MessageAt(n.logs, at)).Some?
      ensures Committed(env, n, at)
    {
      var i :| 0 <= i < |n.order| && n.order[i] == at;
      CopyCommitted(env, n, i);
    }
  }

  /** In a recovered node the committed history is exactly what the messages ask for. */
  lemma RecoveredHistory(env: Env, partitions: nat, actions: seq<Action>, n: Node)
    requires Exec(env, partitions, actions) == Some(n) && Recovered(env, n)
    ensures Leads(EMPTY, n.history, n.db)
    ensures forall change :: change in Changes(n.history) <==> Asks(env, n, change)
  {
    RunInv(env, partitions, actions, n);
    forall change
      ensures change in Changes(n.history) <==> Asks(env, n, change)
    {
      if change in Changes(n.history) {
        assert HasSource(env, n.logs, n.applied, change);
      }
      if Asks(env, n, change) {
        var at :| Carries(env, n.logs, at, change);
        assert Committed(env, n, at);
        CommittedIsMatched(env, n, Changes(n.history), at, change);
      }
    }
  }

  lemma CommittedIsMatched(env: Env, n: Node, changes: set<Change>, at: Place, change: Change)
    requires HistoryMatches(env, n.logs, n.applied, changes)
    requires Carries(env, n.logs, at, change) && Committed(env, n, at)
    ensures change in changes
  {
    var other :| other in n.applied && InLogs(n.logs, other)
      && env.read(MessageAt(n.logs, other)) == env.read(MessageAt(n.logs, at));
    assert AsksOneOf(env, n.logs, other, changes);
  }

  /** Crashes, redelivery, dead-lettering and replay have the effect of one delivery. Two nodes
      whose messages ask for the same changes and that have recovered from their failures hold the
      same ledger and order rows and give the same answer for a transaction exactly if it is a
      PAYMENT or RECEIVE, or is not shown as part of an order, or both indexes know the RECEIVE leg
      of its order or neither does. */
  lemma RedeliveryIsOneDelivery(
    env: Env, partitions: nat, actions: seq<Action>, n: Node,
    partitions': nat, actions': seq<Action>, n': Node, txId: string)
    requires Exec(env, partitions, actions) == Some(n) && Recovered(env, n)
    requires Exec(env, partitions', actions') == Some(n') && Recovered(env, n')
    requires forall change :: Asks(env, n, change) <==> Asks(env, n', change)
    requires Admissible(Changes(n.history))
    ensures Contents(n.db.ledger) == Contents(n'.db.ledger) && Contents(n.db.orders) == Contents(n'.db.orders)
    ensures Keyed(n.db.ledger) && Keyed(n'.db.ledger)
    ensures AnswerTx(n.db, txId) == AnswerTx(n'.db, txId) <==> SameReceiveIndexed(n.db, n'.db, txId)
  {
    RecoveredHistory(env, partitions, actions, n);
    RecoveredHistory(env, partitions', actions', n');
    assert Changes(n.history) == Changes(n'.history);
    SerialRunIsFaithful(n.history, n.db);
    SerialRunIsFaithful(n'.history, n'.db);
    TablesConverge(n.db, n.history, n'.db, n'.history);
    AnswersConvergeIff(n.db, n.history, n'.db, n'.history, txId);
  }

  /** The pair tables agree too, in the columns that depend on the ledger, where the index is exact. */
  lemma RedeliveredIndexAgrees(
    env: Env, partitions: nat, actions: seq<Action>, n: Node,
    partitions': nat, actions': seq<Action>, n': Node, relatedId: string)
    requires Exec(env, partitions, actions) == Some(n) && Recovered(env, n)
    requires Exec(env, partitions', actions') == Some(n') && Recovered(env, n')
    requires forall change :: Asks(env, n, change) <==> Asks(env, n', change)
    requires Admissible(Changes(n.history)) && AllEligible(LedgerEvents(Changes(n.history)), relatedId)
    requires PairClockForward(n.history) && PairClockForward(n'.history)
    ensures relatedId in n.db.pairs <==> relatedId in n'.db.pairs
    ensures relatedId in n.db.pairs ==> SameLegs(n.db.pairs[relatedId].pair, n'.db.pairs[relatedId].pair)
  {
    RecoveredHistory(env, partitions, actions, n);
    RecoveredHistory(env, partitions', actions', n');
    assert Changes(n.history) == Changes(n'.history);
    SerialIndexesAgree(n.history, n.db, n'.history, n'.db, relatedId);
  }

  // ---------------------------------------------------------------- replays ask for nothing new

  ghost predicate IsCopy(n: Node, i: nat) { exists source, backend :: Replay(source, backend, i) in n.replays }

  /** The messages that upstream services produced, as opposed to replays, ask for this change. */
  ghost predicate AskedUpstream(env: Env, n: Node, change: Change)
    requires Shaped(n)
  {
    exists i: nat :: i < |n.order| && !IsCopy(n, i) && Carries(env, n.logs, n.order[i], change)
  }

  /** The copy of a message asks for what the message asks for, if it asks for anything. */
  predicate Harmless(env: Env, message: Message, copy: Message) {
    env.read(copy).Some? ==> env.read(copy) == env.read(message)
  }

  /** Every replayed message came back harmless. */
  ghost predicate ReplaysHarmless(env: Env, n: Node)
    requires Shaped(n)
  {
    forall r | r in n.replays && r.source < |n.order| && r.copy < |n.order| ::
      Harmless(env, MessageAt(n.logs, n.order[r.source]), MessageAt(n.logs, n.order[r.copy]))
  }

  lemma {:induction false} CopyAsksUpstream(env: Env, n: Node, i: nat, change: Change)
    requires Inv(env, n) && ReplaysHarmless(env, n)
    requires i < |n.order| && Carries(env, n.logs, n.order[i], change)
    ensures AskedUpstream(env, n, change)
    decreases i
  {
    if IsCopy(n, i) {
      var source, backend :| Replay(source, backend, i) in n.replays;
      assert Replay(source, backend, i).source < Replay(source, backend, i).copy;
      CopyAsksUpstream(env, n, source, change);
    }
  }

  lemma AsksUpstream(env: Env, n: Node, change: Change)
    requires Inv(env, n) && ReplaysHarmless(env, n)
    ensures Asks(env, n, change) <==> AskedUpstream(env, n, change)
  {
    if Asks(env, n, change) {
      var at :| Carries(env, n.logs, at, change);
      var i :| 0 <= i < |n.order| && n.order[i] == at;
      CopyAsksUpstream(env, n, i, change);
    }
  }

  lemma NeverFailed(env: Env, partitions: nat, actions: seq<Action>, n: Node)
    requires Exec(env, partitions, actions) == Some(n) && Drained(n)
    requires forall at | at in n.deadLetters && InLogs(n.logs, at) :: env.read(MessageAt(n.logs, at)).None?
    ensures Recovered(env, n)
  {
    forall at | InLogs(n.logs, at) && env.read(MessageAt(n.logs, at)).Some?
      ensures Committed(env, n, at)
    {
      NoSilentSkip(env, partitions, actions, n, at);
    }
  }

  /** Dead-letter then replay equals direct success: a node that dead-lettered and replayed, and to
      which no replay brought a new change, holds the same rows, and answers the same, as one that
      never failed on the upstream messages. */
  lemma ReplayIsDirectSuccess(
    env: Env, partitions: nat, actions: seq<Action>, n: Node,
    partitions': nat, actions': seq<Action>, n': Node, txId: string)
    requires Exec(env, partitions, actions) == Some(n) && Drained(n) && AllReplayed(env, n) && ReplaysHarmless(env, n)
    requires Exec(env, partitions', actions') == Some(n') && Drained(n')
    requires forall at | at in n'.deadLetters && InLogs(n'.logs, at) :: env.read(MessageAt(n'.logs, at)).None?
    requires forall change :: AskedUpstream(env, n, change) <==> Asks(env, n', change)
    requires Admissible(Changes(n.history))
    ensures Contents(n.db.ledger) == Contents(n'.db.ledger) && Contents(n.db.orders) == Contents(n'.db.orders)
    ensures Keyed(n.db.ledger) && Keyed(n'.db.ledger)
    ensures AnswerTx(n.db, txId) == AnswerTx(n'.db, txId) <==> SameReceiveIndexed(n.db, n'.db, txId)
  {
    RunInv(env, partitions, actions, n);
    ReplayRecovers(env, partitions, actions, n);
    NeverFailed(env, partitions', actions', n');
    forall change
      ensures Asks(env, n, change) <==> Asks(env, n', change)
    {
      AsksUpstream(env, n, change);
    }
    RedeliveryIsOneDelivery(env, partitions, actions, n, partitions', actions', n', txId);
  }

  // ---------------------------------------------------------------- exactly when replays ask for nothing new

  /** Whatever a replay publishes for a message is harmless. */
  ghost predicate HarmlessEnv(env: Env) {
    forall backend, message, copy | env.republish(backend, message) == Some(copy) :: Harmless(env, message, copy)
  }

  /** No run commits a change that no upstream message asked for. */
  ghost predicate InventsNothing(env: Env) {
    forall partitions, actions, n, change | Exec(env, partitions, actions) == Some(n) && change in Changes(n.history) ::
      Shaped(n) && AskedUpstream(env, n, change)
  }

  lemma HarmlessRun(env: Env, partitions: nat, actions: seq<Action>, n: Node, change: Change)
    requires HarmlessEnv(env) && Exec(env, partitions, actions) == Some(n) && change in Changes(n.history)
    ensures Shaped(n) && AskedUpstream(env, n, change)
  {
    RunInv(env, partitions, actions, n);
    assert HasSource(env, n.logs, n.applied, change);
    AsksUpstream(env, n, change);
  }

  const FIRST := Place(0, 0)

  function Produced(message: Message): Node { Fresh(1).(logs := [[message]], order := [FIRST]) }

  function PolledFirst(message: Message): Node { Produced(message).(flight := Polled(FIRST), position := [1]) }

  function LetterWritten(message: Message, backend: Backend): Node {
    Write(PolledFirst(message), FIRST, Some(backend), 0).(flight := DeadLettered(FIRST), deadLetters := {FIRST})
  }

  /** The node after one message was produced, failed, dead-lettered and settled. */
  function LetterSettled(message: Message, backend: Backend): Node {
    LetterWritten(message, backend).(flight := Idle, asked := [1])
  }

  lemma TakesStep(env: Env, actions: seq<Action>, n: Node, a: Action, n': Node) returns (more: seq<Action>)
    requires Exec(env, 1, actions) == Some(n) && Enabled(env, n, a) && Next(env, n, a) == n'
    ensures Exec(env, 1, more) == Some(n')
  {
    ExecStep(env, 1, actions, n, a);
    more := actions + [a];
  }

  lemma OneLog(log: seq<Message>, message: Message)
    ensures [log][0 := log + [message]] == [log + [message]]
    ensures log == [] ==> log + [message] == [message]
  {}

  lemma ProducedOnce(env: Env, message: Message) returns (actions: seq<Action>)
    ensures Exec(env, 1, actions) == Some(Produced(message))
  {
    assert Fresh(1).logs == [[]];
    OneLog([], message);
    actions := TakesStep(env, [], Fresh(1), Produce(0, message), Produced(message));
  }

  lemma PolledOnce(env: Env, message: Message) returns (actions: seq<Action>)
    ensures Exec(env, 1, actions) == Some(PolledFirst(message))
  {
    actions := ProducedOnce(env, message);
    assert Produced(message).position == [0] && Produced(message).position[0 := 1] == [1];
    actions := TakesStep(env, actions, Produced(message), Poll(0), PolledFirst(message));
  }

  lemma FailsAndIsWritten(env: Env, message: Message, backend: Backend) returns (actions: seq<Action>)
    ensures Exec(env, 1, actions) == Some(LetterWritten(message, backend))
  {
    actions := PolledOnce(env, message);
    var failed := PolledFirst(message).(flight := Failed(FIRST));
    actions := TakesStep(env, actions, PolledFirst(message), Fail, failed);
    actions := TakesStep(env, actions, failed, DeadLetter(Some(backend), 0), LetterWritten(message, backend));
  }

  lemma FailsAndSettles(env: Env, message: Message, backend: Backend) returns (actions: seq<Action>)
    ensures Exec(env, 1, actions) == Some(LetterSettled(message, backend))
  {
    actions := FailsAndIsWritten(env, message, backend);
    var n := LetterWritten(message, backend);
    assert n.asked == [0] && [0][0 := 1] == [1] && n.flight == DeadLettered(FIRST);
    actions := TakesStep(env, actions, n, CommitOffset, LetterSettled(message, backend));
  }

  function Copied(message: Message, backend: Backend, copy: Message): Node {
    LetterSettled(message, backend)
    .(logs := [[message, copy]], order := [FIRST, Place(0, 1)], replays := {Replay(0, backend, 1)})
  }

  lemma ReplaysCopy(env: Env, message: Message, backend: Backend, copy: Message) returns (actions: seq<Action>)
    requires env.republish(backend, message) == Some(copy)
    ensures Exec(env, 1, actions) == Some(Copied(message, backend, copy))
  {
    actions := FailsAndSettles(env, message, backend);
    var n := LetterSettled(message, backend);
    assert LettersIn(n, backend)[0].at == FIRST && HasLetter(n, FIRST, backend);
    OneLog([message], copy);
    assert [message] + [copy] == [message, copy] && [FIRST] + [Place(0, 1)] == [FIRST, Place(0, 1)];
    actions := TakesStep(env, actions, n, Republish(0, backend, 0), Copied(message, backend, copy));
  }

  function CopyPolled(message: Message, backend: Backend, copy: Message): Node {
    Copied(message, backend, copy).(flight := Polled(Place(0, 1)), position := [2])
  }

  lemma PollsCopy(env: Env, message: Message, backend: Backend, copy: Message) returns (actions: seq<Action>)
    requires env.republish(backend, message) == Some(copy)
    ensures Exec(env, 1, actions) == Some(CopyPolled(message, backend, copy))
  {
    actions := ReplaysCopy(env, message, backend, copy);
    assert Copied(message, backend, copy).position == [1] && [1][0 := 2] == [2];
    actions := TakesStep(env, actions, Copied(message, backend, copy), Poll(0), CopyPolled(message, backend, copy));
  }

  /** A replay brings a changed copy back, and the copy is applied. */
  lemma InventedChange(env: Env, backend: Backend, message: Message, copy: Message)
    returns (actions: seq<Action>, n: Node, change: Change)
    requires env.republish(backend, message) == Some(copy) && !Harmless(env, message, copy)
    ensures Exec(env, 1, actions) == Some(n) && change in Changes(n.history)
    ensures Shaped(n) && !AskedUpstream(env, n, change)
  {
    change := env.read(copy).value;
    actions := PollsCopy(env, message, backend, copy);
    var before := CopyPolled(message, backend, copy);
    var db := StepExists(EMPTY, change, NOON);
    n := CopyApplied(message, backend, copy, change, db);
    actions := TakesStep(env, actions, before, Handle(NOON, db), n);
    ChangesSnoc([], Arrival(change, NOON));
    assert [] + [Arrival(change, NOON)] == [Arrival(change, NOON)];
    NobodyAsked(env, n, backend, change);
  }

  function CopyApplied(message: Message, backend: Backend, copy: Message, change: Change, db: Db): Node {
    CopyPolled(message, backend, copy)
    .(db := db, history := [Arrival(change, NOON)], flight := Applied(Place(0, 1)), applied := {Place(0, 1)})
  }

  lemma NobodyAsked(env: Env, n: Node, backend: Backend, change: Change)
    requires Shaped(n) && |n.order| == 2 && n.order[0] == FIRST && Replay(0, backend, 1) in n.replays
    requires env.read(MessageAt(n.logs, FIRST)) != Some(change)
    ensures !AskedUpstream(env, n, change)
  {
    assert IsCopy(n, 1);
  }

  /** Replays never make the tables hold a change that nobody sent, exactly if every copy that a
      replay publishes is invalid or asks for what its message asks for. */
  lemma ReplayInventsIff(env: Env)
    ensures InventsNothing(env) <==> HarmlessEnv(env)
  {
    if HarmlessEnv(env) {
      forall partitions, actions, n, change | Exec(env, partitions, actions) == Some(n) && change in Changes(n.history)
        ensures Shaped(n) && AskedUpstream(env, n, change)
      {
        HarmlessRun(env, partitions, actions, n, change);
      }
    } else {
      var backend, message, copy :| env.republish(backend, message) == Some(copy) && !Harmless(env, message, copy);
      var actions, n, change := InventedChange(env, backend, message, copy);
    }
  }
}
