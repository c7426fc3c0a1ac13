/**
 The consumer process (src/consumer/main.py:166-334): one message from its bytes to its offset
 commit, and the polling loop. Every statement of the loop is proved to be a step of the delivery
 machine, so its theorems hold of every run of this code.
 */
module Consumer {
  import opened Wrappers
  import opened LatestWins
  import opened Store
  import opened History
  import opened SerialRuns
  import opened Contract
  import opened Dlq
  import opened Delivery
  import opened Handling
  import opened Turns
  import opened Redelivery
  import opened Letters

  /** The successful messages in a run: transactions committed whose offset commit did not raise. */
  function Successes(actions: seq<Action>): int {
    if actions == [] then 0
    else Successes(actions[..|actions| - 1]) + Gain(actions[|actions| - 1])
  }

  function Gain(a: Action): int {
    match a case Handle(_, _) => 1 case CommitRaises => -1 case _ => 0
  }

  lemma SuccessesSnoc(actions: seq<Action>, a: Action)
    ensures Successes(actions + [a]) == Successes(actions) + Gain(a)
  {}

  predicate Settled(flight: Flight) { flight.Applied? || flight.DeadLettered? }

  lemma CommitIsStep(env: Env, n: Node)
    requires Shaped(n) && Settled(n.flight)
    ensures Enabled(env, n, CommitOffset)
    ensures n.flight.at.partition < |n.asked|
    ensures Next(env, n, CommitOffset)
            == n.(flight := Idle, asked := n.asked[n.flight.at.partition := n.flight.at.offset + 1])
  {}

  /** What the pruning at the start of a process does: nothing unless letters go to the table,
      nothing if it raises, and a retention of zero days or less keeps everything. */
  function Pruning(setup: Setup, raises: bool, now: int): seq<Action> {
    if setup.useTable && !raises && setup.retentionDays > 0 then [Action.Prune(Cutoff(setup.retentionDays, now))]
    else []
  }

  function AfterPruning(setup: Setup, raises: bool, now: int, rows: seq<DlqRow>): seq<DlqRow> {
    if Pruning(setup, raises, now) == [] then rows else Kept(rows, Since(Cutoff(setup.retentionDays, now)))
  }

  /** `_maybe_prune_dlq`, which logs what it raises. */
  method MaybePrune(setup: Setup, letters: DeadLetters, raises: bool, now: int)
    requires letters.Valid()
    modifies letters`rows
    ensures letters.Valid() && letters.rows == AfterPruning(setup, raises, now, old(letters.rows))
    ensures forall row :: row in letters.rows
                          <==> row in old(letters.rows)
                               && (setup.useTable && !raises && setup.retentionDays > 0 ==>
                                     now - row.ingestedAt <= setup.retentionDays * (24 * 60 * 60 * 1_000_000))
  {
    if setup.useTable && !raises {
      var pruned := letters.Prune(setup.retentionDays, now);
    }
  }

  /** `_idle_expired`. */
  predicate Expired(maxIdle: Option<int>, now: int, lastMessageAt: int) {
    maxIdle.Some? && now - lastMessageAt >= maxIdle.value
  }

  /** Where the messages of a file replay come from. */
  lemma FileSources(setup: Setup, n: Node, lines: seq<string>, topics: Option<set<string>>, produced: seq<Message>)
    returns (sources: seq<nat>)
    requires Wired(setup) && FileMatches(setup.wire, n.logs, n.file, lines)
    requires DumpsLines(setup.wire) && AllLoad(setup.wire, lines) && produced <= Wanted(setup.wire, lines, topics)
    ensures Sources(EnvOf(setup), n, File, sources, produced)
  {
    forall message | message in produced
      ensures exists k: nat :: SourceOf(EnvOf(setup), n, File, k, message)
    {
      var k := FileSource(setup.wire, n.logs, n.file, lines, topics, message);
      assert SourceOf(EnvOf(setup), n, File, k, message);
    }
    sources := Gather(EnvOf(setup), n, File, produced);
  }

  lemma TableSources(
    setup: Setup, n: Node, rows: seq<DlqRow>, filter: Filter, limit: Option<int>, produced: seq<Message>)
    returns (sources: seq<nat>)
    requires Wired(setup) && TableMatches(setup.wire, n.logs, n.table, rows)
    requires produced == Published(Cap(limit, Selection(rows, filter)))
    ensures Sources(EnvOf(setup), n, Table, sources, produced)
  {
    forall message | message in produced
      ensures exists k: nat :: SourceOf(EnvOf(setup), n, Table, k, message)
    {
      PublishedHas(Cap(limit, Selection(rows, filter)), message);
      PublishedHas(Selection(rows, filter), message);
      var k := TableSource(setup.wire, n.logs, n.table, rows, filter, message);
      assert SourceOf(EnvOf(setup), n, Table, k, message);
    }
    sources := Gather(EnvOf(setup), n, Table, produced);
  }

  class Process {
    const setup: Setup
    const partitions: nat
    const tables: Tables
    const letters: DeadLetters
    var logs: seq<seq<Message>>
    var position: seq<nat>
    var asked: seq<nat>
    var committed: seq<nat>
    ghost var trace: seq<Action>
    ghost var node: Node

    /** The fields are those of a machine state that `trace` reaches. */
    ghost predicate Mirrors()
      reads this, tables, letters
    {
      && Wired(setup) && letters.Valid() && letters.wire == setup.wire
      && Exec(EnvOf(setup), partitions, trace) == Some(node)
      && |node.logs| == partitions && Shaped(node)
      && node.logs == logs && node.position == position && node.asked == asked && node.committed == committed
      && node.db == tables.State()
      && StoreMatches(setup.wire, node, Lines(letters.file), letters.rows, letters.nextId)
    }

    ghost predicate Valid()
      reads this, tables, letters
    {
      Mirrors() && node.flight.Idle?
    }

    constructor (setup: Setup, partitions: nat)
      requires Wired(setup) && DumpsLines(setup.wire)
      ensures Valid() && trace == [] && node == Fresh(partitions)
      ensures this.setup == setup && this.partitions == partitions
      ensures fresh(tables) && fresh(letters)
    {
      this.setup, this.partitions := setup, partitions;
      tables := new Tables();
      letters := new DeadLetters(setup.wire);
      var n := Fresh(partitions);
      logs, position, asked, committed := n.logs, n.position, n.asked, n.committed;
      trace, node := [], n;
    }

    /** Records a machine step; the caller brings the fields along. */
    ghost method Take(a: Action)
      requires Exec(EnvOf(setup), partitions, trace) == Some(node) && Enabled(EnvOf(setup), node, a)
      modifies this`trace, this`node
      ensures trace == old(trace) + [a] && node == Next(EnvOf(setup), old(node), a)
      ensures Exec(EnvOf(setup), partitions, trace) == Some(node)
      ensures Shaped(node) && |node.logs| == |old(node).logs|
      ensures Leads(EMPTY, node.history, node.db)
    {
      ExecStep(EnvOf(setup), partitions, trace, node, a);
      trace, node := trace + [a], Next(EnvOf(setup), node, a);
      RunInv(EnvOf(setup), partitions, trace, node);
    }

    /** The broker and the producers act between polls. */
    method Produce(p: nat, message: Message)
      requires Valid() && p < partitions
      modifies this`logs, this`trace, this`node
      ensures Valid() && trace == old(trace) + [Action.Produce(p, message)] && Successes(trace) == Successes(old(trace))
      ensures Aside(old(node), node) && logs == old(logs)[p := old(logs[p]) + [message]]
    {
      AsideStep(EnvOf(setup), node, Action.Produce(p, message));
      SuccessesSnoc(trace, Action.Produce(p, message));
      AppendGrows(node, p, message);
      StoreKeeps(setup.wire, node, Append(node, p, message), Lines(letters.file), letters.rows, letters.nextId);
      Take(Action.Produce(p, message));
      logs := logs[p := logs[p] + [message]];
    }

    method StoreOffset(p: nat)
      requires Valid() && p < partitions
      modifies this`committed, this`trace, this`node
      ensures Valid() && trace == old(trace) + [BrokerStores(p)] && Successes(trace) == Successes(old(trace))
      ensures Aside(old(node), node) && committed == old(committed)[p := asked[p]]
    {
      AsideStep(EnvOf(setup), node, BrokerStores(p));
      SuccessesSnoc(trace, BrokerStores(p));
      Take(BrokerStores(p));
      committed := committed[p := asked[p]];
    }

    /** The process ends; whoever starts it again resumes at the stored offsets. */
    method Close()
      requires Mirrors()
      modifies this`position, this`asked, this`trace, this`node
      ensures Valid() && trace == old(trace) + [Restart] && Successes(trace) == Successes(old(trace))
      ensures node.history == old(node).history && node.applied == old(node).applied
    {
      SuccessesSnoc(trace, Restart);
      Take(Restart);
      position, asked := committed, committed;
    }

    /** A start of the process prunes its dead-letter table. */
    method Prune(raises: bool, now: int)
      requires Valid()
      modifies this`trace, this`node, letters
      ensures Valid() && trace == old(trace) + Pruning(setup, raises, now) && Successes(trace) == Successes(old(trace))
      ensures letters.file == old(letters.file) && letters.rows == AfterPruning(setup, raises, now, old(letters.rows))
      ensures Alike(old(node), node)
    {
      ghost var rows := letters.rows;
      MaybePrune(setup, letters, raises, now);
      if Pruning(setup, raises, now) != [] {
        ghost var step := Action.Prune(Cutoff(setup.retentionDays, now));
        PruneMatches(setup.wire, logs, node.table, rows, step.cutoff);
        SuccessesSnoc(trace, step);
        Take(step);
      }
    }

    // -------------------------------------------------------------- replays

    /** A replay publishes again what it found for a letter of the store. */
    method Republish(backend: Backend, message: Message, p: nat, ghost k: nat)
      requires Valid() && p < partitions && SourceOf(EnvOf(setup), node, backend, k, message)
      modifies this`logs, this`trace, this`node
      ensures Valid() && Grown(old(node), node, [message]) && Aside(old(node), node)
      ensures exists i :: trace == old(trace) + [Action.Republish(i, backend, p)]
      ensures Successes(trace) == Successes(old(trace))
    {
      ghost var i := RepublishIsStep(EnvOf(setup), partitions, trace, node, backend, k, message, p);
      SuccessesSnoc(trace, Action.Republish(i, backend, p));
      AsideStep(EnvOf(setup), node, Action.Republish(i, backend, p));
      StoreKeeps(setup.wire, node, Next(EnvOf(setup), node, Action.Republish(i, backend, p)),
                 Lines(letters.file), letters.rows, letters.nextId);
      Take(Action.Republish(i, backend, p));
      logs := logs[p := logs[p] + [message]];
    }

    /** Publishes what a replay of a store produced; `choose` places the messages on partitions. */
    method RepublishAll(backend: Backend, produced: seq<Message>, choose: nat -> nat, ghost sources: seq<nat>)
      requires Valid() && (forall k: nat :: choose(k) < partitions)
      requires Sources(EnvOf(setup), node, backend, sources, produced)
      modifies this`logs, this`trace, this`node
      ensures Valid() && old(trace) <= trace && Grown(old(node), node, produced) && Aside(old(node), node)
      ensures Successes(trace) == Successes(old(trace))
    {
      ghost var start := node;
      for k := 0 to |produced|
        invariant Valid() && old(trace) <= trace && Grown(start, node, produced[..k]) && Aside(start, node)
        invariant Successes(trace) == Successes(old(trace))
      {
        ghost var before := node;
        SourceNow(EnvOf(setup), start, node, backend, sources, produced, k);
        Republish(backend, produced[k], choose(k), sources[k]);
        GrownAgain(start, before, node, produced, k);
      }
      assert produced[..|produced|] == produced;
    }

    /** `replay_file` on the dead-letter file of this process. */
    method ReplayFromFile(
      topics: Option<set<string>>, limit: Option<int>, choose: nat -> nat) returns (produced: seq<Message>)
      requires Valid() && forall k: nat :: choose(k) < partitions
      modifies this`logs, this`trace, this`node
      ensures Valid() && old(trace) <= trace && Successes(trace) == Successes(old(trace))
      ensures produced == Cap(limit, Wanted(setup.wire, Lines(letters.file), topics))
      ensures Grown(old(node), node, produced) && Aside(old(node), node)
      ensures topics.None? && limit.None? ==> StoreReplayed(old(node), node, File)
    {
      var ok;
      ok, produced := ReplayFile(setup.wire, letters.file, topics, limit);
      ghost var sources := FileSources(setup, node, Lines(letters.file), topics, produced);
      RepublishAll(File, produced, choose, sources);
      if topics.None? && limit.None? {
        FileReplaysAll(setup.wire, old(node), node, Lines(letters.file), produced);
      }
    }

    /** `replay_db` on its dead-letter table. */
    method ReplayFromTable(filter: Filter, limit: Option<int>, choose: nat -> nat) returns (produced: seq<Message>)
      requires Valid() && forall k: nat :: choose(k) < partitions
      modifies this`logs, this`trace, this`node
      ensures Valid() && old(trace) <= trace && Successes(trace) == Successes(old(trace))
      ensures produced == Published(Cap(limit, Selection(letters.rows, filter))) && Grown(old(node), node, produced)
      ensures Aside(old(node), node)
      ensures filter == ALL && limit.None? ==> StoreReplayed(old(node), node, Table)
    {
      produced := ReplayTable(letters.rows, filter, limit);
      ghost var sources := TableSources(setup, node, letters.rows, filter, limit, produced);
      RepublishAll(Table, produced, choose, sources);
      if filter == ALL && limit.None? {
        TableReplaysAll(setup.wire, old(node), node, letters.rows, produced);
      }
    }

    // -------------------------------------------------------------- one message

    /** `consumer.poll` returning a message. */
    method Poll(p: nat) returns (message: Message, at: Place)
      requires Valid() && p < partitions && position[p] < |logs[p]|
      modifies this`position, this`trace, this`node
      ensures Mirrors() && trace == old(trace) + [Action.Poll(p)] && Successes(trace) == Successes(old(trace))
      ensures at == Place(p, old(position[p])) && node.flight == Polled(at) && message == MessageAt(logs, at)
    {
      SuccessesSnoc(trace, Action.Poll(p));
      Take(Action.Poll(p));
      message, at := logs[p][position[p]], Place(p, position[p]);
      position := position[p := position[p] + 1];
    }

    /** From the bytes in hand to a committed transaction, or to a failure that changed nothing. */
    method Handle(message: Message, clock: Clock, failsAt: nat) returns (failure: Option<Failure>)
      requires Mirrors() && node.flight.Polled? && message == MessageAt(logs, node.flight.at)
      modifies tables, this`trace, this`node
      ensures Mirrors()
      ensures failure.None? ==>
                && ReadMessage(setup, message).Ok? && node.flight == Applied(old(node).flight.at)
                && trace == old(trace) + [Action.Handle(clock, tables.State())]
                && Successes(trace) == Successes(old(trace)) + 1
      ensures failure.Some? ==>
                && node.flight == Failed(old(node).flight.at)
                && trace == old(trace) + [Fail] && tables.State() == old(tables.State())
                && Successes(trace) == Successes(old(trace))
                && failure.value == match ReadMessage(setup, message) case Err(e) => e case Ok(_) => Broken
      ensures failsAt > COMMIT ==> (failure.None? <==> ReadMessage(setup, message).Ok?)
    {
      RunInv(EnvOf(setup), partitions, trace, node);
      KeyedAlong(node.history, node.db);
      var body := BodyOf(setup, message);
      if body.Err? {
        failure := Some(BadBody(body.error));
      } else {
        failure := HandlePayload(setup, tables, message.topic, body.value, clock, failsAt);
      }
      if failure.None? {
        SuccessesSnoc(trace, Action.Handle(clock, tables.State()));
        Take(Action.Handle(clock, tables.State()));
      } else {
        SuccessesSnoc(trace, Fail);
        Take(Fail);
      }
    }

    /** `_write_dlq_payload` for the message in hand. */
    method WriteDeadLetter(message: Message, at: Place, error: string, now: int, tableRaises: bool, fileRaises: bool)
      requires Mirrors() && node.flight == Failed(at) && message == MessageAt(logs, at)
      modifies letters, this`trace, this`node
      ensures Mirrors() && node.flight == DeadLettered(at)
      ensures trace == old(trace) + [Action.DeadLetter(Reaches(setup.useTable && !tableRaises, !fileRaises), now)]
      ensures Recorded(setup.wire, RecordFor(message, at.partition, at.offset, error), old(letters.nextId), now,
                       setup.useTable && !tableRaises, !fileRaises,
                       Lines(old(letters.file)), old(letters.rows), Lines(letters.file), letters.rows)
      ensures Successes(trace) == Successes(old(trace))
    {
      var record := RecordFor(message, at.partition, at.offset, error);
      ghost var lines, rows, id := Lines(letters.file), letters.rows, letters.nextId;
      ghost var written := letters.WritePayload(setup.useTable, record, now, tableRaises, fileRaises);
      StoreWrites(setup.wire, node, lines, rows, id, at, error, now, written, Lines(letters.file), letters.rows);
      SuccessesSnoc(trace, Action.DeadLetter(written, now));
      Take(Action.DeadLetter(written, now));
    }

    /** `consumer.commit(msg)`. */
    method Commit(at: Place)
      requires Mirrors() && !node.flight.Idle? && node.flight.at == at && Settled(node.flight)
      modifies this`asked, this`trace, this`node
      ensures Valid() && trace == old(trace) + [CommitOffset] && Successes(trace) == Successes(old(trace))
    {
      CommitIsStep(EnvOf(setup), node);
      SuccessesSnoc(trace, CommitOffset);
      Take(CommitOffset);
      asked := asked[at.partition := at.offset + 1];
    }

    /** Something raises between the transaction's commit and the offset's. */
    method RaiseLate(at: Place)
      requires Mirrors() && node.flight == Applied(at)
      modifies this`trace, this`node
      ensures Mirrors() && node.flight == Failed(at) && trace == old(trace) + [CommitRaises]
      ensures Successes(trace) == Successes(old(trace)) - 1
    {
      SuccessesSnoc(trace, CommitRaises);
      Take(CommitRaises);
    }

    /** The `try` block: the message is applied and its offset committed, or a failure is in hand,
        which came late if the transaction had committed. */
    method Attempt(p: nat, faults: Faults) returns (failure: Option<Failure>, late: bool, message: Message, at: Place)
      requires Valid() && p < partitions && position[p] < |logs[p]|
      modifies this`position, this`asked, this`trace, this`node, tables
      ensures at == Place(p, old(position[p])) && message == MessageAt(logs, at)
      ensures failure.Some? && !late ==> tables.State() == old(tables.State())
      ensures failure.None? || late ==> ReadMessage(setup, message).Ok?
      ensures faults.failsAt > COMMIT && ReadMessage(setup, message).Ok? ==> late || failure.None?
      ensures late ==> failure.Some? && faults.afterRaises
      ensures failure.None? ==> Valid() && !faults.afterRaises
      ensures failure.Some? ==> Mirrors() && node.flight == Failed(at)
      ensures Tried(old(trace), trace, p, faults.clock, tables.State(), failure.None?, late)
      ensures failure.Some? ==> AfterFailure(EnvOf(setup), old(node), node, p, faults.clock, late)
      ensures failure.None? ==> Served(setup, old(node), node, p, faults)
      ensures failure.Some? ==> Classify(failure.value) == CodeOf(ReadMessage(setup, message))
      ensures Successes(trace) == Successes(old(trace)) + if failure.None? then 1 else 0
    {
      late := false;
      ghost var before, start := trace, node;
      message, at := Poll(p);
      failure := Handle(message, faults.clock, faults.failsAt);
      if failure.Some? {
        FailureSteps(EnvOf(setup), partitions, before, start, p, faults.clock, node);
      } else {
        late := CommitOrRaise(at, faults.afterRaises);
        if late {
          failure := Some(Broken);
          LateSteps(EnvOf(setup), partitions, before, start, p, faults.clock, tables.State(), node);
        } else {
          SuccessSteps(EnvOf(setup), partitions, before, start, p, faults.clock, tables.State(), node);
        }
      }
    }

    /** The end of the `try` block, after the transaction. */
    method CommitOrRaise(at: Place, raises: bool) returns (late: bool)
      requires Mirrors() && node.flight == Applied(at)
      modifies this`asked, this`trace, this`node
      ensures Mirrors() && late == raises && trace == old(trace) + [if raises then CommitRaises else CommitOffset]
      ensures node.flight == if raises then Failed(at) else Idle
      ensures Successes(trace) == Successes(old(trace)) - if raises then 1 else 0
    {
      late := raises;
      if raises {
        RaiseLate(at);
      } else {
        Commit(at);
      }
    }

    /** The offset commit after the dead letter; if it raises, the process ends. */
    method CommitAgain(at: Place, raises: bool)
      requires Mirrors() && node.flight == DeadLettered(at)
      modifies this`position, this`asked, this`trace, this`node
      ensures Valid() && trace == old(trace) + [if raises then Restart else CommitOffset]
      ensures Successes(trace) == Successes(old(trace))
    {
      if raises {
        Close();
      } else {
        Commit(at);
      }
    }

    /** The dead-letter write and the offset commit after it. */
    method DeadLetterAndCommit(message: Message, at: Place, error: string, faults: Faults, now: int)
      requires Mirrors() && node.flight == Failed(at) && message == MessageAt(logs, at) && !faults.keyUndecodable
      modifies this`position, this`asked, this`trace, this`node, letters
      ensures Valid() && GaveUp(setup, old(trace), trace, faults, now)
      ensures Successes(trace) == Successes(old(trace))
      ensures LetterAdded(setup, RecordFor(message, at.partition, at.offset, error), faults, now,
                          old(letters.nextId), Lines(old(letters.file)),
                          old(letters.rows), Lines(letters.file), letters.rows)
    {
      ghost var before := trace;
      WriteDeadLetter(message, at, error, now, faults.tableRaises, faults.fileRaises);
      ghost var middle := trace;
      CommitAgain(at, faults.recommitRaises);
      LetterThenOffset(setup, before, middle, trace, faults, now);
    }

    /** The `except` block: dead-letter the message in hand, then commit its offset. */
    method Escalate(message: Message, at: Place, failure: Failure, faults: Faults, now: int) returns (escaped: bool)
      requires Mirrors() && node.flight == Failed(at) && message == MessageAt(logs, at)
      modifies this`position, this`asked, this`trace, this`node, letters
      ensures Valid() && GaveUp(setup, old(trace), trace, faults, now)
      ensures escaped <==> faults.keyUndecodable || faults.recommitRaises
      ensures Successes(trace) == Successes(old(trace))
      ensures Escalated(setup, old(node), node, at, faults, now)
      ensures LetterAdded(setup, RecordFor(message, at.partition, at.offset, Classify(failure)), faults, now,
                          old(letters.nextId), Lines(old(letters.file)),
                          old(letters.rows), Lines(letters.file), letters.rows)
    {
      ghost var before, start := trace, node;
      escaped := faults.keyUndecodable || faults.recommitRaises;
      if faults.keyUndecodable {
        Close();
        assert before + [] == before;
      } else {
        DeadLetterAndCommit(message, at, Classify(failure), faults, now);
      }
      EscalationSteps(setup, partitions, before, start, at, faults, now, trace, node);
    }

    /** One polled message, from its poll to its offset commit. */
    method OnMessage(p: nat, faults: Faults, now: int) returns (outcome: Outcome)
      requires Valid() && p < partitions && position[p] < |logs[p]|
      modifies this`position, this`asked, this`trace, this`node, tables, letters
      ensures Valid() && old(trace) <= trace
      ensures Successes(trace) == Successes(old(trace)) + if outcome == Succeeded then 1 else 0
      ensures Dealt(setup, old(node), node, p, faults, now, outcome)
      ensures var message := logs[p][old(position[p])];
              if outcome == Succeeded then letters.file == old(letters.file) && letters.rows == old(letters.rows)
              else
                LetterAdded(
                  setup, RecordFor(message, p, old(position[p]), CodeOf(ReadMessage(setup, message))), faults, now,
                  old(letters.nextId), Lines(old(letters.file)), old(letters.rows), Lines(letters.file), letters.rows)
    {
      ghost var start := node;
      var failure, late, message, at := Attempt(p, faults);
      if failure.None? {
        return Succeeded;
      }
      ghost var failed := node;
      var escaped := Escalate(message, at, failure.value, faults, now);
      outcome := if escaped then Escaped else SentToDlq;
      assert Ready(start, p) && start.position[p] == at.offset && at.partition == p;
      assert MessageIn(start, p) == message;
      assert AfterFailure(EnvOf(setup), start, failed, p, faults.clock, late);
      assert Escalated(setup, failed, node, Place(p, start.position[p]), faults, now);
      FailureIsDealt(setup, start, failed, node, p, faults, now, late);
    }

    /** What others do between polls: producers, the broker, and whoever runs the replay script. */
    method Outside(event: Occurrence)
      requires Valid()
      modifies this`logs, this`committed, this`trace, this`node
      ensures Valid() && old(trace) <= trace && Successes(trace) == Successes(old(trace))
      ensures Aside(old(node), node)
      ensures event.Produced? && event.partition < partitions ==>
                logs == old(logs)[event.partition := old(logs)[event.partition] + [event.message]]
      ensures event.OffsetStored? && event.partition < partitions ==>
                committed == old(committed)[event.partition := asked[event.partition]]
      ensures event.FileReplayed? && partitions > 0 ==>
                Grown(old(node), node, Cap(event.limit, Wanted(setup.wire, Lines(letters.file), event.topics)))
      ensures event.TableReplayed? && partitions > 0 ==>
                Grown(old(node), node, Published(Cap(event.limit, Selection(letters.rows, event.filter))))
    {
      match event {
        case Produced(p, message) =>
          if p < partitions { Produce(p, message); }
        case OffsetStored(p) =>
          if p < partitions { StoreOffset(p); }
        case FileReplayed(topics, limit, choose) =>
          if partitions > 0 {
            var produced := ReplayFromFile(topics, limit, k => choose(k) % partitions);
          }
        case TableReplayed(filter, limit, choose) =>
          if partitions > 0 {
            var produced := ReplayFromTable(filter, limit, k => choose(k) % partitions);
          }
        case _ =>
      }
    }

    /** One turn of the polling loop: whether the loop ends, and whether a message was a success. */
    method Turn(
      event: Occurrence, maxIdle: Option<int>, lastMessageAt: int) returns (ending: Option<Exit>, success: bool)
      requires Valid()
      modifies this, tables, letters
      ensures Valid() && old(trace) <= trace
      ensures Successes(trace) == Successes(old(trace)) + if success then 1 else 0
      ensures success ==> event.Delivered? && ending.None?
      ensures ending == Some(IdleExpired) ==> maxIdle.Some?
      ensures ending != Some(QuotaReached) && ending != Some(Stopped)
      ensures Turned(setup, old(node), node, event, maxIdle, lastMessageAt, ending, success)
    {
      ending, success := None, false;
      match event {
        case NothingPolled(now) =>
          if Expired(maxIdle, now, lastMessageAt) { ending := Some(IdleExpired); }
        case EndOfPartition(now) =>
          if Expired(maxIdle, now, lastMessageAt) { ending := Some(IdleExpired); }
        case PollError => ending := Some(Raised);
        case Interrupt => ending := Some(Interrupted);
        case Delivered(p, faults, now) =>
          if p < partitions && position[p] < |logs[p]| {
            var outcome := OnMessage(p, faults, now);
            success := outcome == Succeeded;
            if outcome == Escaped { ending := Some(Raised); }
          }
        case _ => Outside(event);
      }
    }

    /** One pass of the loop: a turn, and the counters after it. */
    method Pass(
      script: seq<Occurrence>, i: nat, ghost start: Node, ghost started: int, maxIdle: Option<int>,
      ghost outcomes: seq<bool>, processed: nat, lastMessageAt: int)
      returns (ending: Option<Exit>, ghost outcomes': seq<bool>, processed': nat, lastMessageAt': int)
      requires Valid() && i < |script|
      requires Turning(setup, start, node, script, started, maxIdle, i, outcomes, processed, lastMessageAt)
      modifies this, tables, letters
      ensures Valid() && old(trace) <= trace && processed' - processed == Successes(trace) - Successes(old(trace))
      ensures processed <= processed' <= processed + 1
      ensures ending.None? ==>
                Turning(setup, start, node, script, started, maxIdle, i + 1, outcomes', processed', lastMessageAt')
      ensures ending == Some(IdleExpired) ==> maxIdle.Some?
      ensures ending.Some? ==>
                EndedBy(setup, start, node, script, started, maxIdle, outcomes', ending.value, processed')
    {
      processed', lastMessageAt', outcomes' := processed, lastMessageAt, outcomes;
      ghost var before := node;
      var success;
      ending, success := Turn(script[i], maxIdle, lastMessageAt);
      if ending.Some? {
        TurnEnds(
          setup, start, before, node, script, started, maxIdle, i, outcomes, processed, lastMessageAt, ending, success);
      } else {
        TurnGoesOn(
          setup, start, before, node, script, started, maxIdle, i, outcomes, processed, lastMessageAt, ending, success);
        outcomes' := outcomes + [success];
        if success {
          processed', lastMessageAt' := processed + 1, script[i].now;
        }
      }
    }

    /** The polling loop, driven by what the outside world does; `outcomes` says of each completed turn
        whether it was a success. Only successes count towards `maxMessages`, and only they reset the
        idle clock. */
    method Loop(script: seq<Occurrence>, maxMessages: Option<int>, maxIdle: Option<int>, started: int)
      returns (exit: Exit, processed: nat, ghost outcomes: seq<bool>)
      requires Valid()
      modifies this, tables, letters
      ensures Valid() && old(trace) <= trace
      ensures processed == Successes(trace) - Successes(old(trace))
      ensures maxMessages.Some? ==> processed <= AtLeastZero(maxMessages.value)
      ensures exit == QuotaReached ==> maxMessages.Some? && processed == AtLeastZero(maxMessages.value)
      ensures exit == IdleExpired ==> maxIdle.Some?
      ensures Looped(setup, old(node), node, script, started, maxMessages, maxIdle, outcomes, exit, processed)
    {
      processed, exit, outcomes := 0, Stopped, [];
      var lastMessageAt := started;
      ghost var start := node;
      StartsAlong(setup, node, script, started, maxIdle);
      for i := 0 to |script|
        invariant Valid() && old(trace) <= trace
        invariant processed == Successes(trace) - Successes(old(trace))
        invariant maxMessages.Some? ==> processed <= AtLeastZero(maxMessages.value)
        invariant Turning(setup, start, node, script, started, maxIdle, i, outcomes, processed, lastMessageAt)
      {
        if maxMessages.Some? && processed >= maxMessages.value {
          exit := QuotaReached;
          EndsByItself(
            setup, start, node, script, started, maxMessages, maxIdle, i, outcomes, processed, lastMessageAt, exit);
          break;
        }
        var ending;
        ending, outcomes, processed, lastMessageAt :=
          Pass(script, i, start, started, maxIdle, outcomes, processed, lastMessageAt);
        if ending.Some? {
          exit := ending.value;
          break;
        }
      }
      if exit == Stopped {
        EndsByItself(
          setup, start, node, script, started, maxMessages, maxIdle,
          |script|, outcomes, processed, lastMessageAt, exit);
      }
    }

    /** The loop, and the `finally` block. */
    method PollAndClose(script: seq<Occurrence>, maxMessages: Option<int>, maxIdle: Option<int>, started: int)
      returns (exit: Exit, processed: nat, ghost outcomes: seq<bool>)
      requires Valid()
      modifies this, tables, letters
      ensures Valid() && old(trace) < trace && trace[|trace| - 1] == Restart
      ensures processed == Successes(trace) - Successes(old(trace))
      ensures maxMessages.Some? ==> processed <= AtLeastZero(maxMessages.value)
      ensures exit == QuotaReached ==> maxMessages.Some? && processed == AtLeastZero(maxMessages.value)
      ensures exit == IdleExpired ==> maxIdle.Some?
      ensures |outcomes| <= |script| && SuccessesAreDeliveries(script, outcomes) && processed == Wins(outcomes)
      ensures EndsRightly(script, started, maxMessages, maxIdle, outcomes, exit)
      ensures AllClean(setup, old(logs), old(position), script)
               && (maxMessages.None? || |script| <= maxMessages.value) ==>
                exit == Stopped && processed == |script| && AllApplied(setup, old(node), node, script, |script|)
    {
      exit, processed, outcomes := Loop(script, maxMessages, maxIdle, started);
      Close();
    }

    /** `run_consumer`: unless the topics are not distinct, it prunes the dead-letter table, polls, and closes. */
    method Run(
      script: seq<Occurrence>, maxMessages: Option<int>,
      maxIdle: Option<int>, started: int, pruneRaises: bool, now: int)
      returns (exit: Exit, processed: nat, ghost outcomes: seq<bool>)
      requires Valid()
      modifies this, tables, letters
      ensures Valid() && processed == Successes(trace) - Successes(old(trace))
      ensures if setup.profile.ledgerTopic == setup.profile.orderTopic then exit == Raised && trace == old(trace)
              else old(trace) + Pruning(setup, pruneRaises, now) < trace && trace[|trace| - 1] == Restart
      ensures maxMessages.Some? ==> processed <= AtLeastZero(maxMessages.value)
      ensures exit == QuotaReached ==> maxMessages.Some? && processed == AtLeastZero(maxMessages.value)
      ensures exit == IdleExpired ==> maxIdle.Some?
      ensures |outcomes| <= |script| && SuccessesAreDeliveries(script, outcomes) && processed == Wins(outcomes)
      ensures setup.profile.ledgerTopic != setup.profile.orderTopic ==>
                EndsRightly(script, started, maxMessages, maxIdle, outcomes, exit)
      ensures AllClean(setup, old(logs), old(position), script) && (maxMessages.None? || |script| <= maxMessages.value)
              && setup.profile.ledgerTopic != setup.profile.orderTopic ==>
                exit == Stopped && processed == |script| && AllApplied(setup, old(node), node, script, |script|)
    {
      if setup.profile.ledgerTopic == setup.profile.orderTopic {
        return Raised, 0, [];
      }
      Prune(pruneRaises, now);
      exit, processed, outcomes := PollAndClose(script, maxMessages, maxIdle, started);
    }
  }
}
