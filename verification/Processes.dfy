/**
 What the delivery machine's theorems say of the consumer's processes (src/consumer/main.py:219-334)
 and of the replays of their dead letters (scripts/replay_dlq.py:34-106).
 */
module Processes {
  import opened Wrappers
  import opened LatestWins
  import opened Pairing
  import opened Store
  import opened History
  import opened SerialRuns
  import opened Lookups
  import opened Convergence
  import opened Contract
  import opened Events
  import opened Dlq
  import opened Delivery
  import opened Redelivery
  import opened Letters
  import opened Handling
  import opened Consumer
  import LineFormat
  import Utf8

  /** A process never passes a message by: below a stored offset each message was applied, or its
      dead-letter write was attempted. */
  lemma NothingPassedBy(p: Process, at: Place)
    requires p.Valid() && InLogs(p.logs, at) && at.offset < p.committed[at.partition]
    ensures at in p.node.applied || at in p.node.deadLetters
  {
    NoSilentSkip(EnvOf(p.setup), p.partitions, p.trace, p.node, at);
  }

  // ---------------------------------------------------------------- dead letters

  ghost predicate RowThere(rows: seq<DlqRow>, id: nat) { exists row :: row in rows && row.id == id }

  /** A letter written to the file is there for good, and the next unlimited replay publishes the very
      message, if it survives the store. */
  lemma FileLetterIsReplayable(p: Process, actions: seq<Action>, n: Node, letter: Letter)
    requires p.Valid() && actions <= p.trace && Exec(EnvOf(p.setup), p.partitions, actions) == Some(n)
    requires letter in n.file
    ensures FileGives(p, letter.at)
  {
    LetterStaysInTrace(EnvOf(p.setup), p.partitions, p.trace, p.node, actions, n, letter);
    FileLetterGives(p, letter);
  }

  /** The row of a letter written to the table is there exactly until a start of the process finds it
      older than the retention; while it is there, the same holds of it. */
  lemma TableLetterIsReplayable(p: Process, actions: seq<Action>, n: Node, letter: Letter)
    requires p.Valid() && actions <= p.trace && Exec(EnvOf(p.setup), p.partitions, actions) == Some(n)
    requires letter in n.table
    ensures RowThere(p.letters.rows, letter.id) <==> Spared(p.trace[|actions|..], letter.time)
    ensures RowThere(p.letters.rows, letter.id) ==> TableGives(p, letter.at)
  {
    LetterStaysInTrace(EnvOf(p.setup), p.partitions, p.trace, p.node, actions, n, letter);
    RowIsItsLetter(p, actions, n, letter);
    if letter in p.node.table {
      TableLetterGives(p, letter);
    }
  }

  lemma LetterStaysInTrace(
    env: Env, partitions: nat, trace: seq<Action>, n': Node, actions: seq<Action>, n: Node, letter: Letter)
    requires Exec(env, partitions, trace) == Some(n') && actions <= trace && Exec(env, partitions, actions) == Some(n)
    ensures letter in n.file ==> letter in n'.file
    ensures letter in n.table ==> (letter in n'.table <==> Spared(trace[|actions|..], letter.time))
  {
    assert trace == actions + trace[|actions|..];
    LetterStaysIff(env, partitions, actions, trace[|actions|..], n, n', letter);
  }

  lemma FileLetterGives(p: Process, letter: Letter)
    requires p.Valid() && letter in p.node.file
    ensures FileGives(p, letter.at)
  {
    var k :| 0 <= k < |p.node.file| && p.node.file[k] == letter;
    InFileIsWanted(p.setup.wire, p.logs, p.node.file, Lines(p.letters.file), k);
  }

  lemma TableLetterGives(p: Process, letter: Letter)
    requires p.Valid() && letter in p.node.table
    ensures TableGives(p, letter.at)
  {
    var k :| 0 <= k < |p.node.table| && p.node.table[k] == letter;
    InTableIsPublished(p.setup.wire, p.logs, p.node.table, p.letters.rows, k);
  }

  /** No other letter can have taken the row's id. */
  lemma RowIsItsLetter(p: Process, actions: seq<Action>, n: Node, letter: Letter)
    requires p.Valid() && actions <= p.trace && Exec(EnvOf(p.setup), p.partitions, actions) == Some(n)
    requires letter in n.table
    ensures RowThere(p.letters.rows, letter.id) <==> letter in p.node.table
  {
    RowThereIff(p.setup.wire, p.logs, p.node.table, p.letters.rows, letter.id);
    if RowThere(p.letters.rows, letter.id) {
      var row :| row in p.letters.rows && row.id == letter.id;
      var letter' :| letter' in p.node.table && letter'.id == letter.id;
      OneLetterPerId(EnvOf(p.setup), p.partitions, p.trace, p.node, actions, n, letter, letter');
    }
  }

  /** The next unlimited replay of the file publishes the message at `at`, if it survives. */
  ghost predicate FileGives(p: Process, at: Place)
    reads p, p.letters
    requires p.letters.Valid()
  {
    InLogs(p.logs, at)
    && (Survives(File, MessageAt(p.logs, at)) ==>
        MessageAt(p.logs, at) in Wanted(p.setup.wire, Lines(p.letters.file), None))
  }

  ghost predicate TableGives(p: Process, at: Place)
    reads p, p.letters
  {
    InLogs(p.logs, at)
    && (Survives(Table, MessageAt(p.logs, at)) ==> MessageAt(p.logs, at) in Published(Selection(p.letters.rows, ALL)))
  }

  lemma OneLetterPerId(
    env: Env, partitions: nat, trace: seq<Action>, n': Node,
    actions: seq<Action>, n: Node, letter: Letter, letter': Letter)
    requires Exec(env, partitions, trace) == Some(n')
    requires actions <= trace && Exec(env, partitions, actions) == Some(n)
    requires letter in n.table && letter' in n'.table && letter'.id == letter.id
    ensures letter' == letter
  {
    var more := trace[|actions|..];
    assert trace == actions + more;
    TableNumbered(env, partitions, actions, n);
    LetterStaysIff(env, partitions, actions, more, n, n', letter');
  }

  // ---------------------------------------------------------------- what a replay may invent

  /** Each letter that a store alters comes back as a message that is invalid, or that asks for what
      the letter's message asks for. */
  ghost predicate AlteredAreHarmless(setup: Setup) {
    forall backend, message, copy
      | Republished(setup.wire, backend, message) == Some(copy) && !Survives(backend, message) ::
      Harmless(EnvOf(setup), message, copy)
  }

  lemma SurvivorsAreHarmless(setup: Setup)
    requires Wired(setup)
    ensures HarmlessEnv(EnvOf(setup)) <==> AlteredAreHarmless(setup)
  {
    forall backend, message, copy | setup.republish(backend, message) == Some(copy)
      ensures Republished(setup.wire, backend, message) == Some(copy)
      ensures Survives(backend, message) ==> copy == message
    {
      RepublishedExactly(setup.wire, backend, message);
    }
    if HarmlessEnv(EnvOf(setup)) {
      forall backend, message, copy
        | Republished(setup.wire, backend, message) == Some(copy) && !Survives(backend, message)
        ensures Harmless(EnvOf(setup), message, copy)
      {
        assert EnvOf(setup).republish(backend, message) == Some(copy);
      }
    }
  }

  /** No delivery run under the configuration, with letters in either store, commits a change that no
      upstream message asked for, exactly if no altered letter comes back asking for something else. */
  lemma ReplaysInventIff(setup: Setup)
    requires Wired(setup)
    ensures InventsNothing(EnvOf(setup)) <==> AlteredAreHarmless(setup)
  {
    ReplayInventsIff(EnvOf(setup));
    SurvivorsAreHarmless(setup);
  }

  /** So it is with a message that one stray byte makes invalid, if the rest of it with a
      replacement character in place of the byte would be accepted. */
  lemma StrayByteInvents(setup: Setup, backend: Backend, topic: string, before: Bytes, after: Bytes)
    requires Wired(setup) && Utf8.WellFormed(before)
    requires Survives(backend, Message(topic, Some(before + (Utf8.REPLACED + after))))
    requires ReadMessage(setup, Message(topic, Some(before + ([0xFF] + after)))).Err?
    requires ReadMessage(setup, Message(topic, Some(before + (Utf8.REPLACED + after)))).Ok?
    ensures !InventsNothing(EnvOf(setup))
  {
    var stray := Message(topic, Some(before + ([0xFF] + after)));
    var copy := Message(topic, Some(before + (Utf8.REPLACED + after)));
    StrayByteComesBack(setup.wire, backend, topic, before, after);
    assert !Harmless(EnvOf(setup), stray, copy);
    ReplaysInventIff(setup);
  }

  /** Such a configuration exists for every profile that accepts anything: its parser takes what is
      UTF-8 and raises on what is not. */
  lemma AStrayByteIsEnough(
    profile: Profile, codec: Codec, wire: Wire, topic: string, payload: Payload) returns (setup: Setup)
    requires Decode(profile, codec, topic, payload).Ok? && topic != "" && Stripped(topic)
    ensures Wired(setup) && setup.profile == profile && setup.codec == codec && setup.wire == wire
    ensures forall bytes :: setup.parse(bytes) == if Utf8.WellFormed(bytes) then Ok(payload) else Err(NotUnicode)
    ensures !InventsNothing(EnvOf(setup))
  {
    setup := Configure(
      profile, codec, bytes => if Utf8.WellFormed(bytes) then Ok(payload) else Err(NotUnicode), wire, true, 14);
    var copy := Message(topic, Some(Utf8.REPLACED));
    assert Utf8.WellFormed(Utf8.REPLACED);
    Utf8.StrayByte([], []);
    assert [] + ([0xFF] + []) == [0xFF] && [] + (Utf8.REPLACED + []) == Utf8.REPLACED;
    StrayByteInvents(setup, File, topic, [], []);
  }

  // ---------------------------------------------------------------- convergence

  lemma DecodedHistory(setup: Setup, n: Node)
    requires Wired(setup) && Inv(EnvOf(setup), n)
    ensures WellFormed(LedgerEvents(Changes(n.history)))
  {
    forall e | e in LedgerEvents(Changes(n.history))
      ensures WellFormed({e})
    {
      assert HasSource(EnvOf(setup), n.logs, n.applied, LedgerChange(e));
      var at :| at in n.applied && Delivery.Carries(EnvOf(setup), n.logs, at, LedgerChange(e));
      ReadIsWellFormed(setup, MessageAt(n.logs, at));
    }
    assert forall e | e in LedgerEvents(Changes(n.history)) :: e in {e};
  }

  lemma ReadIsWellFormed(setup: Setup, message: Message)
    requires Wired(setup)
    ensures var change := ChangeOf(setup, message);
            change.Some? && change.value.LedgerChange? ==> WellFormed({change.value.ledgerEvent})
  {
    var body := BodyOf(setup, message);
    if body.Ok? {
      assert setup.decode(message.topic, body.value) == Decode(setup.profile, setup.codec, message.topic, body.value);
      DecodedIsWellFormed(setup.profile, setup.codec, message.topic, body.value);
    }
  }

  /** What the upstream streams must satisfy for delivery not to matter. */
  ghost predicate Consistent(changes: set<Change>) {
    var events := LedgerEvents(changes);
    StableIdentity(events) && SingleLegs(events) && Decided(events) && Decided(OrderEvents(changes))
  }

  /** Two processes with the same configuration, whatever crashed, failed, was redelivered or was
      replayed in either, hold the same rows once both have recovered and their messages ask for the
      same changes. They give the same answer for a transaction exactly if it is a PAYMENT or
      RECEIVE, or is not shown as part of an order, or both indexes know the RECEIVE leg of its
      order or neither does. */
  lemma ProcessesConverge(p: Process, q: Process, txId: string)
    requires p.Valid() && q.Valid() && p.setup == q.setup
    requires Recovered(EnvOf(p.setup), p.node) && Recovered(EnvOf(q.setup), q.node)
    requires forall change :: Asks(EnvOf(p.setup), p.node, change) <==> Asks(EnvOf(q.setup), q.node, change)
    requires Consistent(Changes(p.node.history))
    ensures Contents(p.tables.ledger) == Contents(q.tables.ledger)
    ensures Contents(p.tables.orders) == Contents(q.tables.orders)
    ensures Keyed(p.tables.ledger) && Keyed(q.tables.ledger)
    ensures AnswerTx(p.tables.State(), txId) == AnswerTx(q.tables.State(), txId)
            <==> SameReceiveIndexed(p.tables.State(), q.tables.State(), txId)
  {
    RunInv(EnvOf(p.setup), p.partitions, p.trace, p.node);
    DecodedHistory(p.setup, p.node);
    RedeliveryIsOneDelivery(EnvOf(p.setup), p.partitions, p.trace, p.node, q.partitions, q.trace, q.node, txId);
  }

  /** Each letter that a replay brought back survived its store, or came back invalid or asking for
      what it asked for before. */
  ghost predicate ReplayedUnharmed(setup: Setup, n: Node)
    requires Wired(setup) && Shaped(n)
  {
    forall r | r in n.replays && r.source < |n.order| && r.copy < |n.order| ::
      var message, copy := MessageAt(n.logs, n.order[r.source]), MessageAt(n.logs, n.order[r.copy]);
      Survives(r.backend, message) || Harmless(EnvOf(setup), message, copy)
  }

  /** Dead-letter then replay equals direct success, for processes. `p` failed, dead-lettered and had
      its letters replayed, unharmed. `q` never failed on a valid message. Both have drained their
      partitions, and what the upstream services asked of `p` is what the messages of `q` ask for.
      Then both hold the same rows, and give the same answers under the condition above. */
  lemma ReplayedProcessIsDirect(p: Process, q: Process, txId: string)
    requires p.Valid() && q.Valid() && p.setup == q.setup && Drained(p.node) && Drained(q.node)
    requires AllReplayed(EnvOf(p.setup), p.node) && ReplayedUnharmed(p.setup, p.node)
    requires forall at | at in q.node.deadLetters && InLogs(q.logs, at) ::
              ChangeOf(q.setup, MessageAt(q.logs, at)).None?
    requires forall change :: AskedUpstream(EnvOf(p.setup), p.node, change) <==> Asks(EnvOf(q.setup), q.node, change)
    requires Consistent(Changes(p.node.history))
    ensures Contents(p.tables.ledger) == Contents(q.tables.ledger)
    ensures Contents(p.tables.orders) == Contents(q.tables.orders)
    ensures Keyed(p.tables.ledger) && Keyed(q.tables.ledger)
    ensures AnswerTx(p.tables.State(), txId) == AnswerTx(q.tables.State(), txId)
            <==> SameReceiveIndexed(p.tables.State(), q.tables.State(), txId)
  {
    RunInv(EnvOf(p.setup), p.partitions, p.trace, p.node);
    UnharmedIsHarmless(p.setup, p.node);
    DecodedHistory(p.setup, p.node);
    ReplayIsDirectSuccess(EnvOf(p.setup), p.partitions, p.trace, p.node, q.partitions, q.trace, q.node, txId);
  }

  lemma UnharmedIsHarmless(setup: Setup, n: Node)
    requires Wired(setup) && Inv(EnvOf(setup), n)
    ensures ReplayedUnharmed(setup, n) <==> ReplaysHarmless(EnvOf(setup), n)
  {
    forall r | r in n.replays && r.source < |n.order| && r.copy < |n.order|
               && Survives(r.backend, MessageAt(n.logs, n.order[r.source]))
      ensures Harmless(EnvOf(setup), MessageAt(n.logs, n.order[r.source]), MessageAt(n.logs, n.order[r.copy]))
    {
      RepublishedExactly(setup.wire, r.backend, MessageAt(n.logs, n.order[r.source]));
    }
  }

  /** A valid process exists for every profile and parser: its dead letters can be written as lines. */
  method NewProcess(
    profile: Profile, codec: Codec, parse: Bytes -> Result<Payload, BodyError>, useTable: bool, retentionDays: int,
    partitions: nat) returns (p: Process)
    ensures p.Valid() && p.partitions == partitions && p.node == Fresh(partitions)
    ensures p.setup.profile == profile && p.setup.codec == codec
    ensures p.setup.parse == parse && p.setup.useTable == useTable
    ensures p.setup.retentionDays == retentionDays
  {
    LineFormat.WireDumpsLines();
    p := new Process(Configure(profile, codec, parse, LineFormat.WIRE, useTable, retentionDays), partitions);
  }
}
