/**
 At-least-once delivery (src/consumer/main.py, src/db/session.py, scripts/replay_dlq.py): a
 message is polled, handled in one transaction, dead-lettered if that fails, and then its offset
 is committed. The process may stop anywhere and start again at the offsets the broker has
 stored, and dead letters may be published again.

 The machine is told what a message asks for and what a replay publishes for a dead letter.
 */
module Delivery {
  import opened Wrappers
  import opened LatestWins
  import opened Pairing
  import opened Store
  import opened History
  import opened SerialRuns
  import opened Dlq

  datatype Env = Env(
    read: Message -> Option<Change>,  // the change a message asks for, if it is valid
    republish: (Backend, Message) -> Option<Message>)  // what a replay of a store publishes for its dead letter

  datatype Place = Place(partition: nat, offset: nat)

  /** Where the message in hand is in its processing. */
  datatype Flight = Idle | Polled(at: Place) | Applied(at: Place) | Failed(at: Place) | DeadLettered(at: Place)

  /** A record of the message at `at`, written at `time`; `id` is its line or its row. */
  datatype Letter = Letter(at: Place, id: nat, time: int)

  /** A replay of `backend` published the message at `order[source]` again, as the one at `order[copy]`. */
  datatype Replay = Replay(source: nat, backend: Backend, copy: nat)

  /** The consumer, its database and its topic partitions. `asked` holds the offsets the consumer
      has asked the broker to commit, `committed` those the broker has stored; `order` lists the
      messages as they were produced, `file` and `table` hold the letters in the two stores. */
  datatype Node = Node(
    logs: seq<seq<Message>>, order: seq<Place>, db: Db, history: seq<Arrival>,
    position: seq<nat>, asked: seq<nat>, committed: seq<nat>, flight: Flight,
    applied: set<Place>, deadLetters: set<Place>,
    file: seq<Letter>, table: seq<Letter>, nextRow: nat, replays: set<Replay>)

  datatype Action =
    | Produce(partition: nat, message: Message)
    | Poll(partition: nat)
    | Handle(clock: Clock, after: Db)            // the transaction commits
    | Fail                                       // handling raises before that, for whatever reason
    | CommitOffset
    | CommitRaises                               // something raises between the two commits
    | DeadLetter(written: Option<Backend>, now: int)  // a dead-letter write is attempted
    | Prune(cutoff: int)                         // table letters older than that are deleted
    | BrokerStores(partition: nat)
    | Restart                                    // crash or rebalance, then resume at stored offsets
    | Republish(source: nat, backend: Backend, partition: nat)  // a replay of a letter of `order[source]`

  function Zeros(n: nat): (zeros: seq<nat>)
    ensures |zeros| == n && forall i | 0 <= i < n :: zeros[i] == 0
  {
    seq(n, _ => 0)
  }

  function Fresh(partitions: nat): Node {
    Node(seq(partitions, _ => []), [], EMPTY, [], Zeros(partitions), Zeros(partitions), Zeros(partitions), Idle,
         {}, {}, [], [], 0, {})
  }

  predicate InLogs(logs: seq<seq<Message>>, at: Place) {
    at.partition < |logs| && at.offset < |logs[at.partition]|
  }

  function MessageAt(logs: seq<seq<Message>>, at: Place): Message
    requires InLogs(logs, at)
  {
    logs[at.partition][at.offset]
  }

  /** All sequences are indexed by partition, and what is in flight was read from its log. */
  predicate Shaped(n: Node) {
    && |n.position| == |n.logs| && |n.asked| == |n.logs| && |n.committed| == |n.logs|
    && (!n.flight.Idle? ==> InLogs(n.logs, n.flight.at))
    && forall i | 0 <= i < |n.order| :: InLogs(n.logs, n.order[i])
  }

  /** What the message in hand asks for. */
  function Asked(env: Env, n: Node): Option<Change>
    requires Shaped(n)
  {
    if n.flight.Idle? then None else env.read(MessageAt(n.logs, n.flight.at))
  }

  function Copy(env: Env, n: Node, source: nat, backend: Backend): Option<Message>
    requires Shaped(n)
  {
    if source < |n.order| then env.republish(backend, MessageAt(n.logs, n.order[source])) else None
  }

  function LettersIn(n: Node, backend: Backend): seq<Letter> { if backend == File then n.file else n.table }

  ghost predicate HasLetter(n: Node, at: Place, backend: Backend) {
    exists k :: 0 <= k < |LettersIn(n, backend)| && LettersIn(n, backend)[k].at == at
  }

  /** The letters written at the cutoff or later. */
  function Recent(letters: seq<Letter>, cutoff: int): seq<Letter> {
    if letters == [] then []
    else
      var last := letters[|letters| - 1];
      Recent(letters[..|letters| - 1], cutoff) + if last.time >= cutoff then [last] else []
  }

  function Write(n: Node, at: Place, written: Option<Backend>, now: int): Node {
    if written == Some(File) then n.(file := n.file + [Letter(at, |n.file|, now)])
    else if written == Some(Table) then n.(table := n.table + [Letter(at, n.nextRow, now)], nextRow := n.nextRow + 1)
    else n
  }

  ghost predicate Enabled(env: Env, n: Node, a: Action) {
    Shaped(n)
    && match a
       case Produce(p, _) => p < |n.logs|
       case Poll(p) => n.flight.Idle? && p < |n.logs| && n.position[p] < |n.logs[p]|
       case Handle(clock, after) =>
         n.flight.Polled? && Asked(env, n).Some? && Step(n.db, Asked(env, n).value, clock, after)
       case Fail => n.flight.Polled?
       case CommitOffset => n.flight.Applied? || n.flight.DeadLettered?
       case CommitRaises => n.flight.Applied?
       case DeadLetter(_, _) => n.flight.Failed?
       case Prune(_) => true
       case BrokerStores(p) => p < |n.logs|
       case Restart => true
       case Republish(i, backend, p) =>
         i < |n.order| && p < |n.logs| && HasLetter(n, n.order[i], backend) && Copy(env, n, i, backend).Some?
  }

  function Append(n: Node, p: nat, message: Message): Node
    requires Shaped(n) && p < |n.logs|
  {
    n.(logs := n.logs[p := n.logs[p] + [message]], order := n.order + [Place(p, |n.logs[p]|)])
  }

  function Next(env: Env, n: Node, a: Action): Node
    requires Shaped(n)
  {
    match a
    case Produce(p, message) => if p < |n.logs| then Append(n, p, message) else n
    case Republish(i, backend, p) =>
      if p >= |n.logs| || Copy(env, n, i, backend).None? then n
      else Append(n, p, Copy(env, n, i, backend).value).(replays := n.replays + {Replay(i, backend, |n.order|)})
    case Poll(p) =>
      if p >= |n.logs| || n.position[p] >= |n.logs[p]| then n
      else n.(flight := Polled(Place(p, n.position[p])), position := n.position[p := n.position[p] + 1])
    case Handle(clock, after) =>
      if Asked(env, n).None? then n
      else
        n.(db := after, history := n.history + [Arrival(Asked(env, n).value, clock)],
           flight := Applied(n.flight.at), applied := n.applied + {n.flight.at})
    case Fail => if n.flight.Idle? then n else n.(flight := Failed(n.flight.at))
    case CommitRaises => if n.flight.Idle? then n else n.(flight := Failed(n.flight.at))
    case DeadLetter(written, now) =>
      if n.flight.Idle? then n
      else
        Write(n, n.flight.at, written, now)
        .(flight := DeadLettered(n.flight.at), deadLetters := n.deadLetters + {n.flight.at})
    case Prune(cutoff) => n.(table := Recent(n.table, cutoff))
    case CommitOffset =>
      if n.flight.Idle? then n
      else n.(flight := Idle, asked := n.asked[n.flight.at.partition := n.flight.at.offset + 1])
    case BrokerStores(p) => if p < |n.logs| then n.(committed := n.committed[p := n.asked[p]]) else n
    case Restart => n.(flight := Idle, position := n.committed, asked := n.committed)
  }

  ghost function Exec(env: Env, partitions: nat, actions: seq<Action>): Option<Node>
    decreases |actions|, 1
  {
    if actions == [] then Some(Fresh(partitions)) else ExecLast(env, partitions, actions)
  }

  ghost function ExecLast(env: Env, partitions: nat, actions: seq<Action>): Option<Node>
    requires actions != []
    decreases |actions|, 0
  {
    var before := Exec(env, partitions, actions[..|actions| - 1]);
    var last := actions[|actions| - 1];
    if before.Some? && Enabled(env, before.value, last) then Some(Next(env, before.value, last)) else None
  }

  lemma ExecStep(env: Env, partitions: nat, actions: seq<Action>, n: Node, a: Action)
    requires Exec(env, partitions, actions) == Some(n) && Enabled(env, n, a)
    ensures Exec(env, partitions, actions + [a]) == Some(Next(env, n, a))
  {}

  // ---------------------------------------------------------------- invariants

  ghost predicate Handled(n: Node, at: Place) { at in n.applied || at in n.deadLetters }

  ghost predicate Offsets(n: Node)
    requires Shaped(n)
  {
    && (forall p | 0 <= p < |n.logs| :: n.committed[p] <= n.asked[p] <= n.position[p] <= |n.logs[p]|)
    && (!n.flight.Idle? ==>
          n.position[n.flight.at.partition] == n.flight.at.offset + 1
            && n.asked[n.flight.at.partition] <= n.flight.at.offset)
  }

  /** Everything read so far is handled, except the message in hand before its outcome. */
  ghost predicate NothingSkipped(n: Node)
    requires Shaped(n)
  {
    && (forall at | InLogs(n.logs, at) && at.offset < n.position[at.partition] ::
          Handled(n, at) || n.flight == Polled(at) || n.flight == Failed(at))
    && (n.flight.Applied? || n.flight.DeadLettered? ==> Handled(n, n.flight.at))
  }

  ghost predicate Carries(env: Env, logs: seq<seq<Message>>, at: Place, change: Change) {
    InLogs(logs, at) && env.read(MessageAt(logs, at)) == Some(change)
  }

  ghost predicate AsksOneOf(env: Env, logs: seq<seq<Message>>, at: Place, changes: set<Change>) {
    exists change :: change in changes && Carries(env, logs, at, change)
  }

  ghost predicate HasSource(env: Env, logs: seq<seq<Message>>, applied: set<Place>, change: Change) {
    exists at :: at in applied && Carries(env, logs, at, change)
  }

  /** The history holds exactly the changes of the messages whose transaction committed. */
  ghost predicate HistoryMatches(env: Env, logs: seq<seq<Message>>, applied: set<Place>, changes: set<Change>) {
    && (forall at {:trigger AsksOneOf(env, logs, at, changes)} | at in applied :: AsksOneOf(env, logs, at, changes))
    && (forall change {:trigger HasSource(env, logs, applied, change)} | change in changes ::
        HasSource(env, logs, applied, change))
  }

  /** `order` lists every message, and a replay copies an earlier one. */
  ghost predicate Ledgered(env: Env, n: Node)
    requires Shaped(n)
  {
    && (forall at | InLogs(n.logs, at) :: at in n.order)
    && forall r | r in n.replays ::
         r.source < r.copy < |n.order|
         && env.republish(r.backend, MessageAt(n.logs, n.order[r.source])) == Some(MessageAt(n.logs, n.order[r.copy]))
  }

  ghost predicate Inv(env: Env, n: Node) {
    && Shaped(n) && Offsets(n) && NothingSkipped(n) && Ledgered(env, n)
    && HistoryMatches(env, n.logs, n.applied, Changes(n.history))
    && Leads(EMPTY, n.history, n.db)
  }

  ghost predicate LogsGrow(logs: seq<seq<Message>>, logs': seq<seq<Message>>) {
    forall at | InLogs(logs, at) :: InLogs(logs', at) && MessageAt(logs', at) == MessageAt(logs, at)
  }

  lemma AppendGrows(n: Node, p: nat, message: Message)
    requires Shaped(n) && p < |n.logs|
    ensures var n' := Append(n, p, message);
            && LogsGrow(n.logs, n'.logs) && Shaped(n')
            && (forall at | InLogs(n'.logs, at) :: InLogs(n.logs, at) || at == Place(p, |n.logs[p]|))
            && InLogs(n'.logs, Place(p, |n.logs[p]|)) && MessageAt(n'.logs, Place(p, |n.logs[p]|)) == message
            && n'.order == n.order + [Place(p, |n.logs[p]|)]
  {}

  lemma HistoryGrows(
    env: Env, logs: seq<seq<Message>>, logs': seq<seq<Message>>, applied: set<Place>, changes: set<Change>)
    requires HistoryMatches(env, logs, applied, changes) && LogsGrow(logs, logs')
    ensures HistoryMatches(env, logs', applied, changes)
  {
    forall at | at in applied
      ensures AsksOneOf(env, logs', at, changes)
    {
      assert AsksOneOf(env, logs, at, changes);
      var change :| change in changes && Carries(env, logs, at, change);
      assert Carries(env, logs', at, change);
    }
    forall change | change in changes
      ensures HasSource(env, logs', applied, change)
    {
      assert HasSource(env, logs, applied, change);
      var at :| at in applied && Carries(env, logs, at, change);
      assert Carries(env, logs', at, change);
    }
  }

  lemma HistoryExtends(
    env: Env, logs: seq<seq<Message>>, applied: set<Place>, changes: set<Change>, at: Place, change: Change)
    requires HistoryMatches(env, logs, applied, changes) && Carries(env, logs, at, change)
    ensures HistoryMatches(env, logs, applied + {at}, changes + {change})
  {
    forall at' | at' in applied + {at}
      ensures AsksOneOf(env, logs, at', changes + {change})
    {
      if at' in applied {
        assert AsksOneOf(env, logs, at', changes);
        var change' :| change' in changes && Carries(env, logs, at', change');
        assert change' in changes + {change};
      } else {
        assert change in changes + {change};
      }
    }
    forall change' | change' in changes + {change}
      ensures HasSource(env, logs, applied + {at}, change')
    {
      if change' in changes {
        assert HasSource(env, logs, applied, change');
        var at' :| at' in applied && Carries(env, logs, at', change');
        assert at' in applied + {at};
      } else {
        assert at in applied + {at};
      }
    }
  }

  lemma HandledHistory(env: Env, n: Node, a: Action)
    requires Inv(env, n) && Enabled(env, n, a) && a.Handle?
    ensures var n' := Next(env, n, a);
            Leads(EMPTY, n'.history, n'.db) && HistoryMatches(env, n'.logs, n'.applied, Changes(n'.history))
  {
    var change := Asked(env, n).value;
    LeadsSnoc(EMPTY, n.history, n.db, Arrival(change, a.clock), a.after);
    ChangesSnoc(n.history, Arrival(change, a.clock));
    HistoryExtends(env, n.logs, n.applied, Changes(n.history), n.flight.at, change);
  }

  lemma HandledOffsets(env: Env, n: Node, a: Action)
    requires Shaped(n) && Offsets(n) && NothingSkipped(n) && Ledgered(env, n) && Enabled(env, n, a) && a.Handle?
    ensures var n' := Next(env, n, a); Shaped(n') && Offsets(n') && NothingSkipped(n') && Ledgered(env, n')
  {}

  lemma AppendInv(env: Env, n: Node, a: Action)
    requires Inv(env, n) && Enabled(env, n, a) && (a.Produce? || a.Republish?)
    ensures Inv(env, Next(env, n, a))
  {
    var n' := Next(env, n, a);
    var message := if a.Produce? then a.message else Copy(env, n, a.source, a.backend).value;
    AppendGrows(n, a.partition, message);
    HistoryGrows(env, n.logs, n'.logs, n.applied, Changes(n.history));
    AppendLedgered(env, n, a);
  }

  lemma AppendLedgered(env: Env, n: Node, a: Action)
    requires Inv(env, n) && Enabled(env, n, a) && (a.Produce? || a.Republish?)
    ensures Shaped(Next(env, n, a)) && Ledgered(env, Next(env, n, a))
  {
    var n' := Next(env, n, a);
    var message := if a.Produce? then a.message else Copy(env, n, a.source, a.backend).value;
    AppendGrows(n, a.partition, message);
    assert n'.order[..|n.order|] == n.order && n'.order[|n.order|] == Place(a.partition, |n.logs[a.partition]|);
  }

  lemma OffsetsStep(env: Env, n: Node, a: Action)
    requires Shaped(n) && Offsets(n) && NothingSkipped(n)
    requires Enabled(env, n, a) && !a.Produce? && !a.Republish? && !a.Handle?
    ensures var n' := Next(env, n, a); Shaped(n') && Offsets(n') && NothingSkipped(n')
  {}

  lemma OffsetsInv(env: Env, n: Node, a: Action)
    requires Inv(env, n) && Enabled(env, n, a) && !a.Produce? && !a.Republish? && !a.Handle?
    ensures Inv(env, Next(env, n, a))
  {
    var n' := Next(env, n, a);
    OffsetsStep(env, n, a);
    assert n'.logs == n.logs && n'.order == n.order && n'.replays == n.replays;
    assert n'.history == n.history && n'.applied == n.applied && n'.db == n.db;
  }

  lemma StepInv(env: Env, n: Node, a: Action)
    requires Inv(env, n) && Enabled(env, n, a)
    ensures Inv(env, Next(env, n, a))
  {
    match a {
      case Handle(_, _) =>
        HandledHistory(env, n, a);
        HandledOffsets(env, n, a);
      case Produce(_, _) => AppendInv(env, n, a);
      case Republish(_, _, _) => AppendInv(env, n, a);
      case _ => OffsetsInv(env, n, a);
    }
  }

  lemma {:induction false} RunInv(env: Env, partitions: nat, actions: seq<Action>, n: Node)
    requires Exec(env, partitions, actions) == Some(n)
    ensures Inv(env, n)
    decreases |actions|
  {
    if actions != [] {
      var init := actions[..|actions| - 1];
      assert ExecLast(env, partitions, actions) == Some(n);
      var before := Exec(env, partitions, init).value;
      RunInv(env, partitions, init, before);
      StepInv(env, before, actions[|actions| - 1]);
    }
  }

  // ---------------------------------------------------------------- the letters of a run

  /** Row ids are given out in order. */
  ghost predicate Numbered(letters: seq<Letter>, next: nat) {
    && (forall k | 0 <= k < |letters| :: letters[k].id < next)
    && forall j, k | 0 <= j < k < |letters| :: letters[j].id < letters[k].id
  }

  lemma {:induction false} RecentHas(letters: seq<Letter>, cutoff: int)
    ensures forall letter :: letter in Recent(letters, cutoff) <==> letter in letters && letter.time >= cutoff
  {
    if letters != [] {
      RecentHas(letters[..|letters| - 1], cutoff);
      assert letters == letters[..|letters| - 1] + [letters[|letters| - 1]];
    }
  }

  lemma {:induction false} RecentNumbered(letters: seq<Letter>, cutoff: int, next: nat)
    requires Numbered(letters, next)
    ensures Numbered(Recent(letters, cutoff), next)
  {
    if letters != [] {
      var init, last := letters[..|letters| - 1], letters[|letters| - 1];
      assert Numbered(init, last.id);
      RecentNumbered(init, cutoff, last.id);
    }
  }

  lemma {:induction false} TableNumbered(env: Env, partitions: nat, actions: seq<Action>, n: Node)
    requires Exec(env, partitions, actions) == Some(n)
    ensures Numbered(n.table, n.nextRow)
    decreases |actions|
  {
    if actions != [] {
      assert ExecLast(env, partitions, actions) == Some(n);
      var before, last := Exec(env, partitions, actions[..|actions| - 1]).value, actions[|actions| - 1];
      TableNumbered(env, partitions, actions[..|actions| - 1], before);
      if last.Prune? {
        RecentNumbered(before.table, last.cutoff, before.nextRow);
      }
    }
  }

  /** No pruning among the actions takes letters of that time. */
  ghost predicate Spared(actions: seq<Action>, time: int) {
    forall a | a in actions && a.Prune? :: time >= a.cutoff
  }

  /** A letter of the file stays; one of the table stays exactly until a pruning finds it too old.
      Whatever the table holds with a row id given out by then was there then. */
  lemma {:induction false} LetterStaysIff(
    env: Env, partitions: nat, actions: seq<Action>, more: seq<Action>, n: Node, n': Node, letter: Letter)
    requires Exec(env, partitions, actions) == Some(n) && Exec(env, partitions, actions + more) == Some(n')
    ensures n.file <= n'.file && n.nextRow <= n'.nextRow
    ensures letter in n.table ==> (letter in n'.table <==> Spared(more, letter.time))
    ensures letter in n'.table && letter.id < n.nextRow ==> letter in n.table
    decreases |more|
  {
    TableNumbered(env, partitions, actions, n);
    if more == [] {
      assert actions + more == actions;
    } else {
      var whole, init, last := actions + more, more[..|more| - 1], more[|more| - 1];
      assert whole[..|whole| - 1] == actions + init && whole[|whole| - 1] == last && more == init + [last];
      assert ExecLast(env, partitions, whole) == Some(n');
      var before := Exec(env, partitions, actions + init).value;
      LetterStaysIff(env, partitions, actions, init, n, before, letter);
      StepLetters(env, before, last, letter, n.nextRow);
    }
  }

  lemma StepLetters(env: Env, n: Node, a: Action, letter: Letter, known: nat)
    requires Enabled(env, n, a) && known <= n.nextRow
    ensures var n' := Next(env, n, a);
            && n.file <= n'.file && n.nextRow <= n'.nextRow
            && (letter.id < known ==> (letter in n'.table <==> letter in n.table && Spared([a], letter.time)))
  {
    if a.Prune? {
      RecentHas(n.table, a.cutoff);
      assert a in [a];
    }
  }
}
