/**
 What the dead-letter file and table hold for the messages of a delivery run, and what a replay of
 either publishes (src/consumer/main.py:69-96, scripts/replay_dlq.py:34-106).
 */
module Letters {
  import opened Wrappers
  import opened Contract
  import opened Dlq
  import opened Delivery
  import opened Redelivery
  import Utf8

  type Logs = seq<seq<Message>>

  /** The line records the failure of the letter's message. */
  ghost predicate LineFor(wire: Wire, logs: Logs, letter: Letter, line: string) {
    InLogs(logs, letter.at)
    && exists error ::
      line == wire.dump(RecordFor(MessageAt(logs, letter.at), letter.at.partition, letter.at.offset, error))
  }

  /** So does the row, which carries the letter's id and time. */
  ghost predicate RowFor(wire: Wire, logs: Logs, letter: Letter, row: DlqRow) {
    InLogs(logs, letter.at)
    && exists error ::
      row == RowOf(wire, RecordFor(MessageAt(logs, letter.at), letter.at.partition, letter.at.offset, error),
                   letter.id, letter.time)
  }

  /** The file has one line for each of its letters, in order. */
  ghost predicate FileMatches(wire: Wire, logs: Logs, letters: seq<Letter>, lines: seq<string>) {
    |lines| == |letters| && forall k | 0 <= k < |letters| :: LineFor(wire, logs, letters[k], lines[k])
  }

  /** The table has one row for each of its letters, in order. */
  ghost predicate TableMatches(wire: Wire, logs: Logs, letters: seq<Letter>, rows: seq<DlqRow>) {
    |rows| == |letters| && forall k | 0 <= k < |letters| :: RowFor(wire, logs, letters[k], rows[k])
  }

  ghost predicate StoreMatches(wire: Wire, n: Node, lines: seq<string>, rows: seq<DlqRow>, nextId: nat) {
    FileMatches(wire, n.logs, n.file, lines) && TableMatches(wire, n.logs, n.table, rows) && nextId == n.nextRow
  }

  // ---------------------------------------------------------------- what changes keep it so

  lemma StoreKeeps(wire: Wire, n: Node, n': Node, lines: seq<string>, rows: seq<DlqRow>, nextId: nat)
    requires StoreMatches(wire, n, lines, rows, nextId) && LogsGrow(n.logs, n'.logs)
    requires n'.file == n.file && n'.table == n.table && n'.nextRow == n.nextRow
    ensures StoreMatches(wire, n', lines, rows, nextId)
  {
    forall k | 0 <= k < |n.file|
      ensures LineFor(wire, n'.logs, n.file[k], lines[k])
    {
      assert LineFor(wire, n.logs, n.file[k], lines[k]);
    }
    forall k | 0 <= k < |n.table|
      ensures RowFor(wire, n'.logs, n.table[k], rows[k])
    {
      assert RowFor(wire, n.logs, n.table[k], rows[k]);
    }
  }

  /** The dead-letter write of one message: `written` says to which store, if any. */
  lemma StoreWrites(
    wire: Wire, n: Node, lines: seq<string>, rows: seq<DlqRow>, nextId: nat,
    at: Place, error: string, now: int, written: Option<Backend>, lines': seq<string>, rows': seq<DlqRow>)
    requires StoreMatches(wire, n, lines, rows, nextId) && InLogs(n.logs, at)
    requires var record := RecordFor(MessageAt(n.logs, at), at.partition, at.offset, error);
             && lines' == (if written == Some(File) then lines + [wire.dump(record)] else lines)
             && rows' == (if written == Some(Table) then rows + [RowOf(wire, record, nextId, now)] else rows)
    ensures StoreMatches(wire, Write(n, at, written, now), lines',
            rows', if written == Some(Table) then nextId + 1 else nextId)
  {
    var record := RecordFor(MessageAt(n.logs, at), at.partition, at.offset, error);
    match written {
      case None =>
      case Some(File) => assert LineFor(wire, n.logs, Letter(at, |n.file|, now), wire.dump(record));
      case Some(Table) => assert RowFor(wire, n.logs, Letter(at, n.nextRow, now), RowOf(wire, record, nextId, now));
    }
  }

  /** Pruning takes the same letters from the table as from the model. */
  lemma {:induction false} PruneMatches(wire: Wire, logs: Logs, letters: seq<Letter>, rows: seq<DlqRow>, cutoff: int)
    requires TableMatches(wire, logs, letters, rows)
    ensures TableMatches(wire, logs, Recent(letters, cutoff), Kept(rows, Since(cutoff)))
  {
    if letters != [] {
      var k := |letters| - 1;
      assert TableMatches(wire, logs, letters[..k], rows[..k]) by {
        assert forall i | 0 <= i < k :: RowFor(wire, logs, letters[i], rows[i]);
      }
      PruneMatches(wire, logs, letters[..k], rows[..k], cutoff);
      assert RowFor(wire, logs, letters[k], rows[k]) && rows[k].ingestedAt == letters[k].time;
    }
  }

  /** A letter is in the table exactly if a row has its id, among letters whose ids are distinct. */
  lemma RowThereIff(wire: Wire, logs: Logs, letters: seq<Letter>, rows: seq<DlqRow>, id: nat)
    requires TableMatches(wire, logs, letters, rows)
    ensures (exists row :: row in rows && row.id == id) <==> exists letter :: letter in letters && letter.id == id
  {
    if row :| row in rows && row.id == id {
      var k :| 0 <= k < |rows| && rows[k] == row;
      assert RowFor(wire, logs, letters[k], rows[k]) && letters[k] in letters;
    }
    if letter :| letter in letters && letter.id == id {
      var k :| 0 <= k < |letters| && letters[k] == letter;
      assert RowFor(wire, logs, letters[k], rows[k]) && rows[k] in rows;
    }
  }

  // ---------------------------------------------------------------- what a replay publishes

  /** A surviving message with a letter in the file is wanted by the next unlimited replay, unchanged. */
  lemma InFileIsWanted(wire: Wire, logs: Logs, letters: seq<Letter>, lines: seq<string>, k: nat)
    requires FileMatches(wire, logs, letters, lines) && DumpsLines(wire) && AllLoad(wire, lines) && k < |letters|
    ensures InLogs(logs, letters[k].at)
    ensures Survives(File, MessageAt(logs, letters[k].at)) ==>
              MessageAt(logs, letters[k].at) in Wanted(wire, lines, None)
  {
    var message := MessageAt(logs, letters[k].at);
    LinePick(wire, logs, letters[k], lines[k], None);
    RepublishedExactly(wire, File, message);
    WantedHas(wire, lines, None, |lines|, message);
  }

  /** The same of the table. */
  lemma InTableIsPublished(wire: Wire, logs: Logs, letters: seq<Letter>, rows: seq<DlqRow>, k: nat)
    requires TableMatches(wire, logs, letters, rows) && k < |letters|
    ensures InLogs(logs, letters[k].at)
    ensures Survives(Table, MessageAt(logs, letters[k].at)) ==>
              MessageAt(logs, letters[k].at) in Published(Selection(rows, ALL))
  {
    var message := MessageAt(logs, letters[k].at);
    RowPick(wire, logs, letters[k], rows[k]);
    RepublishedExactly(wire, Table, message);
    TableReplayIsComplete(rows, ALL, message);
    assert rows[k] in rows;
  }

  /** What a replay of the store publishes for the letter. */
  ghost predicate Gives(wire: Wire, logs: Logs, letters: seq<Letter>, backend: Backend, k: nat, message: Message) {
    k < |letters| && InLogs(logs, letters[k].at)
      && Republished(wire, backend, MessageAt(logs, letters[k].at)) == Some(message)
  }

  /** Whatever a replay of the file publishes comes from a letter stored there. */
  lemma FileSource(
    wire: Wire, logs: Logs, letters: seq<Letter>, lines: seq<string>, topics: Option<set<string>>, message: Message)
    returns (k: nat)
    requires FileMatches(wire, logs, letters, lines) && DumpsLines(wire) && AllLoad(wire, lines)
    requires message in Wanted(wire, lines, topics)
    ensures Gives(wire, logs, letters, File, k, message)
  {
    WantedHas(wire, lines, topics, |lines|, message);
    k :| 0 <= k < |lines| && message in PickLine(wire, lines[k], topics);
    LinePick(wire, logs, letters[k], lines[k], topics);
  }

  lemma TableSource(
    wire: Wire, logs: Logs, letters: seq<Letter>, rows: seq<DlqRow>, filter: Filter, message: Message) returns (k: nat)
    requires TableMatches(wire, logs, letters, rows) && message in Published(Selection(rows, filter))
    ensures Gives(wire, logs, letters, Table, k, message)
  {
    TableReplayIsComplete(rows, filter, message);
    var row :| row in rows && filter.Keeps(row) && FromRow(row) == Some(message);
    k :| 0 <= k < |rows| && rows[k] == row;
    RowPick(wire, logs, letters[k], rows[k]);
  }

  lemma LinePick(wire: Wire, logs: Logs, letter: Letter, line: string, topics: Option<set<string>>)
    requires LineFor(wire, logs, letter, line) && DumpsLines(wire)
    ensures LineLoads(wire, line)
    ensures var published := Republished(wire, File, MessageAt(logs, letter.at));
            && (forall message | message in PickLine(wire, line, topics) :: published == Some(message))
            && (topics.None? && published.Some? ==> published.value in PickLine(wire, line, topics))
  {
    var at := letter.at;
    var error :| line == wire.dump(RecordFor(MessageAt(logs, at), at.partition, at.offset, error));
    DumpedLineLoads(wire, RecordFor(MessageAt(logs, at), at.partition, at.offset, error), topics);
  }

  lemma RowPick(wire: Wire, logs: Logs, letter: Letter, row: DlqRow)
    requires RowFor(wire, logs, letter, row)
    ensures FromRow(row) == Republished(wire, Table, MessageAt(logs, letter.at))
  {}

  /** Some of the first `n` lines gives the message. */
  ghost predicate Given(wire: Wire, lines: seq<string>, topics: Option<set<string>>, n: nat, message: Message)
    requires AllLoad(wire, lines) && n <= |lines|
  {
    exists k :: 0 <= k < n && message in PickLine(wire, lines[k], topics)
  }

  lemma GivenNext(wire: Wire, lines: seq<string>, topics: Option<set<string>>, n: nat, message: Message)
    requires AllLoad(wire, lines) && 0 < n <= |lines|
    ensures Given(wire, lines, topics, n, message)
            <==> Given(wire, lines, topics, n - 1, message) || message in PickLine(wire, lines[n - 1], topics)
  {}

  lemma {:induction false} WantedHas(
    wire: Wire, lines: seq<string>, topics: Option<set<string>>, n: nat, message: Message)
    requires AllLoad(wire, lines) && n <= |lines|
    ensures message in WantedUpTo(wire, lines, topics, n) <==> Given(wire, lines, topics, n, message)
  {
    if n > 0 {
      WantedHas(wire, lines, topics, n - 1, message);
      GivenNext(wire, lines, topics, n, message);
      assert WantedUpTo(wire, lines, topics, n)
          == WantedUpTo(wire, lines, topics, n - 1) + PickLine(wire, lines[n - 1], topics);
    }
  }

  /** A file replay wants exactly the records that have a topic and a payload, and whose topic is among those
      asked for, each as a message with the payload's text as UTF-8. */
  lemma WantedColumns(wire: Wire, lines: seq<string>, topics: Option<set<string>>, message: Message)
    requires AllLoad(wire, lines)
    ensures message in Wanted(wire, lines, topics)
            <==> exists k :: 0 <= k < |lines| && LineWants(wire, lines[k], topics, message)
  {
    WantedHas(wire, lines, topics, |lines|, message);
    forall k | 0 <= k < |lines|
      ensures message in PickLine(wire, lines[k], topics) <==> LineWants(wire, lines[k], topics, message)
    {
      PickColumns(wire, lines[k], topics, message);
    }
    assert message in Wanted(wire, lines, topics)
      <==> exists k :: 0 <= k < |lines| && message in PickLine(wire, lines[k], topics);
  }

  ghost predicate LineWants(wire: Wire, line: string, topics: Option<set<string>>, message: Message) {
    exists record :: Holds(wire, line, record) && Wants(wire, record, topics, message)
  }

  lemma PickColumns(wire: Wire, line: string, topics: Option<set<string>>, message: Message)
    requires LineLoads(wire, line)
    ensures message in PickLine(wire, line, topics) <==> LineWants(wire, line, topics, message)
  {
    if !Blank(line) {
      var record := wire.load(line).value;
      assert Holds(wire, line, record);
      assert LineWants(wire, line, topics, message) <==> Wants(wire, record, topics, message);
    }
  }

  predicate Holds(wire: Wire, line: string, record: Record) { Strip(line) != "" && wire.load(line) == Some(record) }

  predicate Wants(wire: Wire, record: Record, topics: Option<set<string>>, message: Message) {
    && record.topic != "" && message.topic == record.topic && (topics == None || record.topic in topics.value)
    && match record.payload
       case Nothing => false
       case Line(text) => message.value == Some(Utf8.Encode(text))
       case Object(fields) => message.value == Some(Utf8.Encode(wire.objectAscii(fields)))
  }

  // ---------------------------------------------------------------- a node after a replay

  /** The places hold the messages, one each. */
  ghost predicate Hold(logs: Logs, places: seq<Place>, messages: seq<Message>) {
    |places| == |messages|
    && forall k | 0 <= k < |places| :: InLogs(logs, places[k]) && MessageAt(logs, places[k]) == messages[k]
  }

  /** Only `produced` was added to the logs. */
  ghost predicate Grown(n: Node, n': Node, produced: seq<Message>) {
    && LogsGrow(n.logs, n'.logs) && n.order <= n'.order && Hold(n'.logs, n'.order[|n.order|..], produced)
    && n'.file == n.file && n'.table == n.table && n'.nextRow == n.nextRow
    && n'.applied == n.applied && n'.deadLetters == n.deadLetters && n'.db == n.db
  }

  lemma GrownAgain(n: Node, n': Node, n'': Node, produced: seq<Message>, k: nat)
    requires k < |produced| && Grown(n, n', produced[..k]) && Grown(n', n'', [produced[k]])
    ensures Grown(n, n'', produced[..k + 1])
  {
    assert produced[..k + 1] == produced[..k] + [produced[k]];
    assert n''.order[|n.order|..] == n'.order[|n.order|..] + n''.order[|n'.order|..];
  }

  /** The message is what a replay publishes for the letter at `k` of the store. */
  ghost predicate SourceOf(env: Env, n: Node, backend: Backend, k: nat, message: Message) {
    var letters := LettersIn(n, backend);
    k < |letters| && InLogs(n.logs, letters[k].at)
      && env.republish(backend, MessageAt(n.logs, letters[k].at)) == Some(message)
  }

  /** Publishing a letter again is a step of the machine that only adds the message. */
  lemma RepublishIsStep(
    env: Env, partitions: nat, actions: seq<Action>, n: Node, backend: Backend, k: nat, message: Message, p: nat)
    returns (i: nat)
    requires Exec(env, partitions, actions) == Some(n) && Shaped(n)
    requires p < |n.logs| && SourceOf(env, n, backend, k, message)
    ensures Enabled(env, n, Action.Republish(i, backend, p))
    ensures var n' := Next(env, n, Action.Republish(i, backend, p));
            && Grown(n, n', [message]) && n'.logs == n.logs[p := n.logs[p] + [message]]
            && n'.position == n.position && n'.asked == n.asked && n'.committed == n.committed && n'.flight == n.flight
  {
    RunInv(env, partitions, actions, n);
    var at := LettersIn(n, backend)[k].at;
    assert HasLetter(n, at, backend);
    i :| 0 <= i < |n.order| && n.order[i] == at;
    AppendGrows(n, p, message);
    assert Next(env, n, Action.Republish(i, backend, p)).order[|n.order|..] == [Place(p, |n.logs[p]|)];
  }

  /** The message at `order[i]` was published again later. */
  ghost predicate PublishedAgain(n: Node, i: nat)
    requires Shaped(n) && i < |n.order|
  {
    exists j :: i < j < |n.order| && MessageAt(n.logs, n.order[j]) == MessageAt(n.logs, n.order[i])
  }

  lemma PublishedIsAsked(env: Env, n: Node, i: nat)
    requires Shaped(n) && i < |n.order| && PublishedAgain(n, i)
    ensures AskedAgain(env, n, i)
  {}

  /** A message that a replay published is published again. */
  lemma GrownPublishesAgain(n: Node, n': Node, produced: seq<Message>, i: nat)
    requires Shaped(n) && Shaped(n') && Grown(n, n', produced) && i < |n.order|
    requires MessageAt(n.logs, n.order[i]) in produced
    ensures PublishedAgain(n', i)
  {
    var k :| 0 <= k < |produced| && produced[k] == MessageAt(n.logs, n.order[i]);
    assert n'.order[i] == n.order[i] && InLogs(n.logs, n.order[i]);
    assert n'.order[|n.order|..][k] == n'.order[|n.order| + k];
    assert MessageAt(n'.logs, n'.order[|n.order| + k]) == MessageAt(n'.logs, n'.order[i]);
  }

  /** Every surviving letter of the store was published again. */
  ghost predicate StoreReplayed(n: Node, n': Node, backend: Backend)
    requires Shaped(n) && Shaped(n')
  {
    forall i: nat | i < |n.order| && i < |n'.order| && HasLetter(n, n.order[i], backend)
                    && Survives(backend, MessageAt(n.logs, n.order[i])) :: PublishedAgain(n', i)
  }

  /** An unlimited replay of the file, or of the table, publishes all of its surviving letters. */
  lemma FileReplaysAll(wire: Wire, n: Node, n': Node, lines: seq<string>, produced: seq<Message>)
    requires Shaped(n) && Shaped(n') && Grown(n, n', produced) && produced == Wanted(wire, lines, None)
    requires FileMatches(wire, n.logs, n.file, lines) && DumpsLines(wire) && AllLoad(wire, lines)
    ensures StoreReplayed(n, n', File)
  {
    forall i: nat | i < |n.order| && i < |n'.order| && HasLetter(n, n.order[i], File)
                    && Survives(File, MessageAt(n.logs, n.order[i]))
      ensures PublishedAgain(n', i)
    {
      var k :| 0 <= k < |n.file| && n.file[k].at == n.order[i];
      InFileIsWanted(wire, n.logs, n.file, lines, k);
      GrownPublishesAgain(n, n', produced, i);
    }
  }

  lemma TableReplaysAll(wire: Wire, n: Node, n': Node, rows: seq<DlqRow>, produced: seq<Message>)
    requires Shaped(n) && Shaped(n') && Grown(n, n', produced) && produced == Published(Selection(rows, ALL))
    requires TableMatches(wire, n.logs, n.table, rows)
    ensures StoreReplayed(n, n', Table)
  {
    forall i: nat | i < |n.order| && i < |n'.order| && HasLetter(n, n.order[i], Table)
                    && Survives(Table, MessageAt(n.logs, n.order[i]))
      ensures PublishedAgain(n', i)
    {
      var k :| 0 <= k < |n.table| && n.table[k].at == n.order[i];
      InTableIsPublished(wire, n.logs, n.table, rows, k);
      GrownPublishesAgain(n, n', produced, i);
    }
  }

  ghost predicate Sources(env: Env, n: Node, backend: Backend, sources: seq<nat>, produced: seq<Message>) {
    |sources| == |produced|
    && forall k {:trigger sources[k]} | 0 <= k < |produced| :: SourceOf(env, n, backend, sources[k], produced[k])
  }

  lemma SourceNow(env: Env, start: Node, n: Node, backend: Backend, sources: seq<nat>, produced: seq<Message>, k: nat)
    requires Sources(env, start, backend, sources, produced) && k < |produced| && Grown(start, n, produced[..k])
    ensures SourceOf(env, n, backend, sources[k], produced[k])
  {
    assert SourceOf(env, start, backend, sources[k], produced[k]);
  }

  lemma Gather(env: Env, n: Node, backend: Backend, produced: seq<Message>) returns (sources: seq<nat>)
    requires forall message | message in produced :: exists k: nat :: SourceOf(env, n, backend, k, message)
    ensures Sources(env, n, backend, sources, produced)
  {
    sources := [];
    for k := 0 to |produced|
      invariant |sources| == k
      invariant forall j | 0 <= j < k :: SourceOf(env, n, backend, sources[j], produced[j])
    {
      assert produced[k] in produced;
      var source: nat :| SourceOf(env, n, backend, source, produced[k]);
      sources := sources + [source];
    }
  }
}
