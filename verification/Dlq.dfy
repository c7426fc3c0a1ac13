/**
 The dead-letter store (src/consumer/dlq.py, src/consumer/main.py:85-96) and its replay
 (scripts/replay_dlq.py): what is written for a failed message, and what comes back.
 */
module Dlq {
  import opened Wrappers
  import opened Contract
  import Utf8

  type Bytes = Utf8.Bytes

  /** A Kafka message; the value may be absent. */
  datatype Message = Message(topic: string, value: Option<Bytes>)

  /** The `payload` field of a record: the text of a message, or the object of a backfill line. */
  datatype Body = Nothing | Line(text: string) | Object(fields: Payload)

  datatype Record = Record(topic: string, partition: Option<nat>, offset: Option<nat>, payload: Body, error: string)

  datatype DlqRow = DlqRow(
    id: nat, topic: string, partition: Option<nat>, offset: Option<nat>,
    payload: Option<string>, error: string, ingestedAt: int)

  /** The two stores of dead letters. */
  datatype Backend = File | Table

  /** JSON syntax is left to these functions. */
  datatype Wire = Wire(
    dump: Record -> string, load: string -> Option<Record>,
    objectText: Payload -> string,         // with ensure_ascii=False
    objectAscii: Payload -> string)        // without

  // ---------------------------------------------------------------- one record

  /** What is recorded when handling a consumed message fails. */
  function RecordFor(message: Message, partition: nat, offset: nat, error: string): Record {
    Record(message.topic, Some(partition), Some(offset),
           if message.value.Some? && message.value.value != [] then Line(Utf8.Decode(message.value.value)) else Nothing,
           error)
  }

  function ToText(wire: Wire, body: Body): Option<string> {
    match body
    case Nothing => None
    case Line(text) => Some(text)
    case Object(fields) => Some(wire.objectText(fields))
  }

  function OrUnknown(text: string): string { if Strip(text) != "" then Strip(text) else "unknown" }

  function RowOf(wire: Wire, record: Record, id: nat, now: int): DlqRow {
    DlqRow(id, OrUnknown(record.topic), record.partition, record.offset,
        ToText(wire, record.payload), OrUnknown(record.error), now)
  }

  /** The columns of the row under which a failed message is recorded: where it was and what it held, with a
      blank topic or error code written as "unknown". */
  lemma LetterColumns(wire: Wire, message: Message, partition: nat, offset: nat, error: string, id: nat, now: int)
    ensures var record := RecordFor(message, partition, offset, error);
            var row := RowOf(wire, record, id, now);
            && record.topic == message.topic && record.error == error
            && record.partition == Some(partition) && record.offset == Some(offset)
            && row.id == id && row.ingestedAt == now && row.partition == Some(partition) && row.offset == Some(offset)
            && row.topic == (if Strip(message.topic) == "" then "unknown" else Strip(message.topic))
            && row.error == (if Strip(error) == "" then "unknown" else Strip(error))
            && (row.payload.None? <==> message.value.None? || message.value.value == [])
            && (row.payload.Some? ==> row.payload.value == Utf8.Decode(message.value.value))
            && record.payload == (if row.payload.None? then Nothing else Line(row.payload.value))
  {}

  /** What a replay publishes for one record of the file, if anything. */
  function FromFile(wire: Wire, record: Record): Option<Message> {
    if record.topic == "" then None
    else
      match record.payload
      case Nothing => None
      case Line(text) => Some(Message(record.topic, Some(Utf8.Encode(text))))
      case Object(fields) => Some(Message(record.topic, Some(Utf8.Encode(wire.objectAscii(fields)))))
  }

  function FromRow(row: DlqRow): Option<Message> {
    if row.topic == "" || row.payload.None? then None
    else Some(Message(row.topic, Some(Utf8.Encode(row.payload.value))))
  }

  /** What a replay of one store publishes for a dead-lettered message. */
  function Republished(wire: Wire, backend: Backend, message: Message): Option<Message> {
    var record := RecordFor(message, 0, 0, "");
    if backend == Table then FromRow(RowOf(wire, record, 0, 0)) else FromFile(wire, record)
  }

  /** The value is not empty and is well-formed UTF-8. */
  predicate CarriesText(message: Message) {
    message.value.Some? && message.value.value != [] && Utf8.WellFormed(message.value.value)
  }

  /** The file gives a message back unchanged exactly when it has a topic and carries text. */
  lemma FileRoundTrip(wire: Wire, message: Message, partition: nat, offset: nat, error: string)
    ensures FromFile(wire, RecordFor(message, partition, offset, error)) == Some(message)
            <==> message.topic != "" && CarriesText(message)
  {
    if message.value.Some? {
      Utf8.RoundTripIffWellFormed(message.value.value);
    }
  }

  /** The table also asks for a topic without surrounding blanks, because it stores topics stripped. */
  lemma TableRoundTrip(wire: Wire, message: Message, partition: nat, offset: nat, error: string, id: nat, now: int)
    ensures FromRow(RowOf(wire, RecordFor(message, partition, offset, error), id, now)) == Some(message)
            <==> message.topic != "" && Stripped(message.topic) && CarriesText(message)
  {
    if message.value.Some? {
      Utf8.RoundTripIffWellFormed(message.value.value);
    }
  }

  /** Whether a store gives a message back unchanged. */
  predicate Survives(backend: Backend, message: Message) {
    message.topic != "" && (backend == Table ==> Stripped(message.topic)) && CarriesText(message)
  }

  lemma RepublishedExactly(wire: Wire, backend: Backend, message: Message)
    ensures Republished(wire, backend, message) == Some(message) <==> Survives(backend, message)
  {
    FileRoundTrip(wire, message, 0, 0, "");
    TableRoundTrip(wire, message, 0, 0, "", 0, 0);
  }

  /** A message with a stray byte comes back from either store as the message that holds a
      replacement character in its place, if that one would survive. */
  lemma StrayByteComesBack(wire: Wire, backend: Backend, topic: string, before: Bytes, after: Bytes)
    requires Utf8.WellFormed(before)
    requires Survives(backend, Message(topic, Some(before + (Utf8.REPLACED + after))))
    ensures Republished(wire, backend, Message(topic, Some(before + ([0xFF] + after))))
            == Some(Message(topic, Some(before + (Utf8.REPLACED + after))))
    ensures !Survives(backend, Message(topic, Some(before + ([0xFF] + after))))
  {
    var stray, replaced :=
      Message(topic, Some(before + ([0xFF] + after))), Message(topic, Some(before + (Utf8.REPLACED + after)));
    Utf8.StrayByte(before, after);
    RepublishedExactly(wire, backend, replaced);
    assert RecordFor(stray, 0, 0, "") == RecordFor(replaced, 0, 0, "");
  }

  // ---------------------------------------------------------------- the file as text

  predicate EndsLine(c: char) { c == '\n' || c == '\r' }

  /** The lines a text file is read as, without their terminators. */
  function Lines(text: string): seq<string>
    decreases |text|, |text| + 1
  {
    if text == "" then [] else LinesFrom(text, 0)
  }

  /** The lines of a text whose first `i` characters hold no line end. */
  function LinesFrom(text: string, i: nat): seq<string>
    requires text != "" && i <= |text|
    decreases |text|, |text| - i
  {
    if i == |text| then [text]
    else if EndsLine(text[i]) then [text[..i]] + Lines(text[i + 1..])
    else LinesFrom(text, i + 1)
  }

  predicate Terminated(text: string) { text == "" || EndsLine(text[|text| - 1]) }

  predicate OneLine(text: string) { forall i | 0 <= i < |text| :: !EndsLine(text[i]) }

  /** Text appended to a terminated file adds its lines and changes no earlier one. */
  lemma {:induction false} LinesAppend(text: string, more: string)
    requires Terminated(text)
    ensures Lines(text + more) == Lines(text) + Lines(more)
    decreases |text|, |text| + 1
  {
    if text == "" {
      assert text + more == more;
    } else {
      LinesFromAppend(text, more, 0);
    }
  }

  lemma {:induction false} LinesFromAppend(text: string, more: string, i: nat)
    requires Terminated(text) && text != "" && i < |text|
    ensures LinesFrom(text + more, i) == LinesFrom(text, i) + Lines(more)
    decreases |text|, |text| - i
  {
    assert (text + more)[i] == text[i];
    if EndsLine(text[i]) {
      assert (text + more)[..i] == text[..i] && (text + more)[i + 1..] == text[i + 1..] + more;
      LinesAppend(text[i + 1..], more);
    } else {
      LinesFromAppend(text, more, i + 1);
    }
  }

  lemma {:induction false} LineAlone(text: string, i: nat)
    requires OneLine(text) && i <= |text|
    ensures LinesFrom(text + "\n", i) == [text]
    decreases |text| - i
  {
    var line := text + "\n";
    if i == |text| {
      assert line[..i] == text && line[i + 1..] == "";
    } else {
      assert line[i] == text[i];
      LineAlone(text, i + 1);
    }
  }

  predicate Blank(line: string) { Strip(line) == "" }

  predicate LineLoads(wire: Wire, line: string) { Blank(line) || wire.load(line).Some? }

  ghost predicate LoadUpTo(wire: Wire, lines: seq<string>, n: nat)
    requires n <= |lines|
  {
    forall i | 0 <= i < n :: LineLoads(wire, lines[i])
  }

  ghost predicate AllLoad(wire: Wire, lines: seq<string>) { LoadUpTo(wire, lines, |lines|) }

  /** What the JSON encoder guarantees: one line, not blank, that loads back. */
  ghost predicate DumpsLines(wire: Wire) {
    forall record ::
      OneLine(wire.dump(record)) && !Blank(wire.dump(record)) && wire.load(wire.dump(record)) == Some(record)
  }

  // ---------------------------------------------------------------- replay order and limits

  /** What one record adds to a replay limited to some topics. */
  function Pick(wire: Wire, record: Record, topics: Option<set<string>>): seq<Message> {
    var published := FromFile(wire, record);
    if published.None? || (topics.Some? && record.topic !in topics.value) then [] else [published.value]
  }

  function PickLine(wire: Wire, line: string, topics: Option<set<string>>): seq<Message>
    requires LineLoads(wire, line)
  {
    if Blank(line) then [] else Pick(wire, wire.load(line).value, topics)
  }

  /** The messages a replay wants from the first `n` lines, up to the first line that does not load. */
  ghost function WantedUpTo(wire: Wire, lines: seq<string>, topics: Option<set<string>>, n: nat): seq<Message>
    requires n <= |lines|
  {
    if n == 0 then []
    else
      WantedUpTo(wire, lines, topics, n - 1)
      + if LoadUpTo(wire, lines, n) then PickLine(wire, lines[n - 1], topics) else []
  }

  ghost function Wanted(wire: Wire, lines: seq<string>, topics: Option<set<string>>): seq<Message> {
    WantedUpTo(wire, lines, topics, |lines|)
  }

  lemma {:induction false} WantedGrows(wire: Wire, lines: seq<string>, topics: Option<set<string>>, n: nat, m: nat)
    requires n <= m <= |lines|
    ensures WantedUpTo(wire, lines, topics, n) <= WantedUpTo(wire, lines, topics, m)
    ensures !LoadUpTo(wire, lines, n) ==> WantedUpTo(wire, lines, topics, n) == WantedUpTo(wire, lines, topics, m)
  {
    if n < m {
      WantedGrows(wire, lines, topics, n, m - 1);
    }
  }

  /** One more line. */
  lemma WantedNext(wire: Wire, lines: seq<string>, topics: Option<set<string>>, n: nat)
    requires n < |lines| && LoadUpTo(wire, lines, n)
    ensures LoadUpTo(wire, lines, n + 1) <==> LineLoads(wire, lines[n])
    ensures WantedUpTo(wire, lines, topics, n + 1)
            == WantedUpTo(wire, lines, topics, n)
               + if LineLoads(wire, lines[n]) then PickLine(wire, lines[n], topics) else []
    ensures WantedUpTo(wire, lines, topics, n + 1) <= Wanted(wire, lines, topics)
    ensures !LineLoads(wire, lines[n]) ==>
              !AllLoad(wire, lines) && Wanted(wire, lines, topics) == WantedUpTo(wire, lines, topics, n)
  {
    WantedGrows(wire, lines, topics, n + 1, |lines|);
  }

  lemma {:induction false} WantedOfPrefix(
    wire: Wire, lines: seq<string>, line: string, topics: Option<set<string>>, n: nat)
    requires n <= |lines|
    ensures WantedUpTo(wire, lines + [line], topics, n) == WantedUpTo(wire, lines, topics, n)
  {
    if n > 0 {
      WantedOfPrefix(wire, lines, line, topics, n - 1);
      assert forall i | 0 <= i < n :: (lines + [line])[i] == lines[i];
    }
  }

  lemma WantedAfterLine(wire: Wire, lines: seq<string>, line: string, topics: Option<set<string>>)
    requires AllLoad(wire, lines) && LineLoads(wire, line)
    ensures AllLoad(wire, lines + [line])
    ensures Wanted(wire, lines + [line], topics) == Wanted(wire, lines, topics) + PickLine(wire, line, topics)
  {
    var whole := lines + [line];
    assert whole[|lines|] == line && LoadUpTo(wire, whole, |lines|) by {
      assert forall i | 0 <= i < |lines| :: whole[i] == lines[i];
    }
    WantedOfPrefix(wire, lines, line, topics, |lines|);
    WantedNext(wire, whole, topics, |lines|);
  }

  lemma DumpedLineLoads(wire: Wire, record: Record, topics: Option<set<string>>)
    requires DumpsLines(wire)
    ensures LineLoads(wire, wire.dump(record)) && OneLine(wire.dump(record))
    ensures PickLine(wire, wire.dump(record), topics) == Pick(wire, record, topics)
  {}

  /** Dead-letter then replay, through the file: the next replay publishes what it would have
      published before and then the failed message itself, exactly when that has a topic and carries text. */
  lemma FileGivesBack(wire: Wire, lines: seq<string>, message: Message, partition: nat, offset: nat, error: string)
    requires AllLoad(wire, lines) && DumpsLines(wire)
    ensures Wanted(wire, lines + [wire.dump(RecordFor(message, partition, offset, error))], None)
            == Wanted(wire, lines, None) + [message]
            <==> message.topic != "" && CarriesText(message)
  {
    var record := RecordFor(message, partition, offset, error);
    DumpedLineLoads(wire, record, None);
    WantedAfterLine(wire, lines, wire.dump(record), None);
    FileRoundTrip(wire, message, partition, offset, error);
    var before, picked := Wanted(wire, lines, None), Pick(wire, record, None);
    if before + picked == before + [message] {
      assert (before + picked)[|before|..] == picked && (before + [message])[|before|..] == [message];
    }
  }

  /** The same through the table, where the topic must also be free of surrounding blanks. */
  lemma TableGivesBack(
    wire: Wire, rows: seq<DlqRow>, message: Message, partition: nat, offset: nat, error: string, id: nat, now: int)
    ensures var row := RowOf(wire, RecordFor(message, partition, offset, error), id, now);
            Published(rows + [row]) == Published(rows) + [message]
            <==> message.topic != "" && Stripped(message.topic) && CarriesText(message)
  {
    var row := RowOf(wire, RecordFor(message, partition, offset, error), id, now);
    TableRoundTrip(wire, message, partition, offset, error, id, now);
    assert (rows + [row])[..|rows|] == rows;
    var before := Published(rows);
    if FromRow(row).Some? {
      assert (before + [FromRow(row).value])[|before|] == FromRow(row).value;
      assert (before + [message])[|before|] == message;
    } else {
      assert |before + [message]| == |before| + 1;
    }
  }

  function Published(rows: seq<DlqRow>): seq<Message> {
    if rows == [] then []
    else
      var last := rows[|rows| - 1];
      Published(rows[..|rows| - 1]) + if FromRow(last).Some? then [FromRow(last).value] else []
  }

  function Cap<T>(limit: Option<int>, items: seq<T>): seq<T> {
    if limit.None? || AtLeastZero(limit.value) >= |items| then items else items[..AtLeastZero(limit.value)]
  }

  /** The filters of a table replay; every bound is optional and inclusive. */
  datatype Filter = Filter(
    topics: Option<set<string>>, since: Option<int>, until: Option<int>, minId: Option<int>, maxId: Option<int>)
  {
    predicate Keeps(row: DlqRow) {
      && (topics.Some? ==> row.topic in topics.value)
      && (since.Some? ==> row.ingestedAt >= since.value)
      && (until.Some? ==> row.ingestedAt <= until.value)
      && (minId.Some? ==> row.id >= minId.value)
      && (maxId.Some? ==> row.id <= maxId.value)
    }
  }

  function Since(time: int): Filter { Filter(None, Some(time), None, None, None) }

  /** No filter. */
  const ALL := Filter(None, None, None, None, None)

  /** Times are in microseconds. */
  const DAY := 86_400_000_000

  /** Rows from before that are pruned. */
  function Cutoff(retentionDays: int, now: int): int { now - retentionDays * DAY }

  predicate Earlier(a: DlqRow, b: DlqRow) {
    a.ingestedAt < b.ingestedAt || (a.ingestedAt == b.ingestedAt && a.id <= b.id)
  }

  /** `ORDER BY ingested_at, dlq_id`. */
  predicate Ordered(rows: seq<DlqRow>) {
    forall i, j | 0 <= i < j < |rows| :: Earlier(rows[i], rows[j])
  }

  /** Where a row goes among sorted ones. */
  function Slot(rows: seq<DlqRow>, row: DlqRow): (i: nat)
    ensures i <= |rows|
    ensures i > 0 ==> Earlier(rows[i - 1], row)
    ensures i < |rows| ==> Earlier(row, rows[i])
  {
    if rows == [] || Earlier(rows[|rows| - 1], row) then |rows| else Slot(rows[..|rows| - 1], row)
  }

  function Insert(rows: seq<DlqRow>, row: DlqRow): seq<DlqRow> {
    rows[..Slot(rows, row)] + [row] + rows[Slot(rows, row)..]
  }

  lemma InsertSorts(rows: seq<DlqRow>, row: DlqRow)
    requires Ordered(rows)
    ensures Ordered(Insert(rows, row))
  {
    var i, sorted := Slot(rows, row), Insert(rows, row);
    forall j, k | 0 <= j < k < |sorted|
      ensures Earlier(sorted[j], sorted[k])
    {
      if j == i {
        assert sorted[k] == rows[k - 1] && (k - 1 == i || Earlier(rows[i], rows[k - 1]));
      } else if k == i {
        assert sorted[j] == rows[j] && (j == i - 1 || Earlier(rows[j], rows[i - 1]));
      }
    }
  }

  lemma InsertAdds(rows: seq<DlqRow>, row: DlqRow)
    ensures multiset(Insert(rows, row)) == multiset(rows) + multiset{row}
  {
    assert rows == rows[..Slot(rows, row)] + rows[Slot(rows, row)..];
  }

  /** The rows a filter keeps, sorted. */
  function Selection(rows: seq<DlqRow>, filter: Filter): (sorted: seq<DlqRow>)
    ensures Ordered(sorted)
    ensures multiset(sorted) == multiset(Kept(rows, filter))
  {
    if rows == [] then []
    else
      var last := rows[|rows| - 1];
      var rest := Selection(rows[..|rows| - 1], filter);
      InsertSorts(rest, last);
      InsertAdds(rest, last);
      if filter.Keeps(last) then Insert(rest, last) else rest
  }

  function Kept(rows: seq<DlqRow>, filter: Filter): seq<DlqRow> {
    if rows == [] then []
    else
      var last := rows[|rows| - 1];
      Kept(rows[..|rows| - 1], filter) + if filter.Keeps(last) then [last] else []
  }

  // ---------------------------------------------------------------- the store

  /** The store that a dead-letter write reaches. */
  function Reaches(table: bool, file: bool): Option<Backend> {
    if table then Some(Table) else if file then Some(File) else None
  }

  /** One record was added, to the table if that can be written, else to the file if that can be, else nowhere. */
  predicate Recorded(
    wire: Wire, record: Record, id: nat, now: int, table: bool, file: bool,
    lines: seq<string>, rows: seq<DlqRow>, lines': seq<string>, rows': seq<DlqRow>) {
    && rows' == (if table then rows + [RowOf(wire, record, id, now)] else rows)
    && lines' == (if !table && file then lines + [wire.dump(record)] else lines)
  }

  /** Rows have the ids that were given out, in order. */
  ghost predicate InOrder(rows: seq<DlqRow>, nextId: nat) {
    forall i | 0 <= i < |rows| :: rows[i].id < nextId && forall j | 0 <= j < i :: rows[j].id < rows[i].id
  }

  lemma {:induction false} KeptInOrder(rows: seq<DlqRow>, filter: Filter, nextId: nat)
    requires InOrder(rows, nextId)
    ensures InOrder(Kept(rows, filter), nextId) && |Kept(rows, filter)| <= |rows|
  {
    if rows != [] {
      var init, last := rows[..|rows| - 1], rows[|rows| - 1];
      assert InOrder(init, last.id);
      KeptInOrder(init, filter, last.id);
    }
  }

  /** Pruning keeps the rows that are at most so many days old, in microseconds. */
  lemma PruneColumns(rows: seq<DlqRow>, retentionDays: int, now: int)
    ensures forall row :: row in Kept(rows, Since(Cutoff(retentionDays, now)))
                          <==> row in rows && now - row.ingestedAt <= retentionDays * (24 * 60 * 60 * 1_000_000)
  {
    KeptHas(rows, Since(Cutoff(retentionDays, now)));
  }

  /** The dead-letter file and table. */
  class DeadLetters {
    const wire: Wire
    var file: string
    var rows: seq<DlqRow>
    var nextId: nat

    constructor (wire: Wire)
      requires DumpsLines(wire)
      ensures this.wire == wire && file == "" && rows == [] && nextId == 0 && Valid()
    {
      this.wire, file, rows, nextId := wire, "", [], 0;
    }

    /** Only whole lines are in the file, and ids are fresh. */
    ghost predicate Valid()
      reads this
    {
      && DumpsLines(wire) && Terminated(file) && AllLoad(wire, Lines(file))
      && InOrder(rows, nextId)
    }

    /** `write_dlq_file`. */
    method WriteFile(record: Record)
      requires Valid()
      modifies this`file
      ensures Valid()
      ensures Lines(file) == Lines(old(file)) + [wire.dump(record)]
    {
      var line := wire.dump(record);
      LinesAppend(file, line + "\n");
      LineAlone(line, 0);
      DumpedLineLoads(wire, record, None);
      WantedAfterLine(wire, Lines(file), line, None);
      file := file + (line + "\n");
    }

    /** `write_dlq_db`. */
    method WriteTable(record: Record, now: int)
      requires Valid()
      modifies this`rows, this`nextId
      ensures Valid()
      ensures rows == old(rows) + [RowOf(wire, record, old(nextId), now)] && nextId == old(nextId) + 1
    {
      rows := rows + [RowOf(wire, record, nextId, now)];
      nextId := nextId + 1;
    }

    /** `_write_dlq_payload`: the table if it is configured and works, else the file; never raises. */
    method WritePayload(useTable: bool, record: Record, now: int, tableRaises: bool, fileRaises: bool)
      returns (ghost written: Option<Backend>)
      requires Valid()
      modifies this
      ensures Valid() && written == Reaches(useTable && !tableRaises, !fileRaises)
      ensures rows == if written == Some(Table) then old(rows) + [RowOf(wire, record, old(nextId), now)] else old(rows)
      ensures nextId == if written == Some(Table) then old(nextId) + 1 else old(nextId)
      ensures written == Some(File) ==> Lines(file) == Lines(old(file)) + [wire.dump(record)]
      ensures written != Some(File) ==> file == old(file)
    {
      written := Some(Table);
      if useTable && !tableRaises {
        WriteTable(record, now);
        return;
      }
      if fileRaises {
        written := None;
      } else {
        written := Some(File);
        WriteFile(record);
      }
    }

    /** `prune_dlq_db`: rows older than the retention go, and a retention of zero or less keeps all. */
    method Prune(retentionDays: int, now: int) returns (pruned: nat)
      requires Valid()
      modifies this`rows
      ensures Valid()
      ensures pruned == |old(rows)| - |rows|
      ensures retentionDays <= 0 ==> rows == old(rows)
      ensures retentionDays > 0 ==> rows == Kept(old(rows), Since(Cutoff(retentionDays, now)))
      ensures retentionDays > 0 ==>
                forall row :: row in rows
                              <==> row in old(rows) && now - row.ingestedAt <= retentionDays * (24 * 3600 * 1_000_000)
    {
      if retentionDays <= 0 {
        return 0;
      }
      PruneColumns(rows, retentionDays, now);
      var before := rows;
      var filter := Since(Cutoff(retentionDays, now));
      var recent: seq<DlqRow> := [];
      for i := 0 to |before|
        invariant recent == Kept(before[..i], filter)
      {
        assert before[..i + 1][..i] == before[..i];
        if before[i].ingestedAt >= Cutoff(retentionDays, now) {
          recent := recent + [before[i]];
        }
      }
      assert before[..|before|] == before;
      KeptInOrder(before, filter, nextId);
      rows := recent;
      pruned := |before| - |recent|;
    }
  }

  // ---------------------------------------------------------------- replay

  /** What a file replay does when `wanted` may be published and `loads` says whether every line loads. */
  predicate Replayed(wanted: seq<Message>, loads: bool, limit: Option<int>, ok: bool, produced: seq<Message>) {
    produced == Cap(limit, wanted) && (ok <==> loads || (limit.Some? && AtLeastZero(limit.value) < |wanted|))
  }

  function AtLeastZero(n: int): nat { if n > 0 then n else 0 }

  /** `replay_file`: the wanted records in order, at most `limit` of them. A line that does not
      load raises, unless one more wanted record than the limit came before it. */
  method ReplayFile(wire: Wire, text: string, topics: Option<set<string>>, limit: Option<int>)
    returns (ok: bool, produced: seq<Message>)
    ensures Replayed(Wanted(wire, Lines(text), topics), AllLoad(wire, Lines(text)), limit, ok, produced)
  {
    ok, produced := ReplayLines(wire, Lines(text), topics, limit);
  }

  method ReplayLines(wire: Wire, lines: seq<string>, topics: Option<set<string>>, limit: Option<int>)
    returns (ok: bool, produced: seq<Message>)
    ensures Replayed(Wanted(wire, lines, topics), AllLoad(wire, lines), limit, ok, produced)
  {
    produced := [];
    var remaining := if limit.None? then None else Some(AtLeastZero(limit.value) as int);
    for i := 0 to |lines|
      invariant LoadUpTo(wire, lines, i) && produced == WantedUpTo(wire, lines, topics, i)
      invariant remaining.Some? <==> limit.Some?
      invariant remaining.Some? ==> remaining.value >= 0 && remaining.value + |produced| == AtLeastZero(limit.value)
    {
      WantedNext(wire, lines, topics, i);
      if Blank(lines[i]) { continue; }
      var loaded := wire.load(lines[i]);
      if loaded.None? {
        return false, produced;
      }
      var record := loaded.value;
      var published := FromFile(wire, record);
      if published.None? || (topics.Some? && record.topic !in topics.value) {
        continue;
      }
      if remaining.Some? && remaining.value <= 0 {
        return true, produced;
      }
      produced := produced + [published.value];
      if remaining.Some? {
        remaining := Some(remaining.value - 1);
      }
    }
    ok := true;
  }

  /** `replay_db`: filter, sort, limit, then publish the rows that have a payload. The limit
      counts rows without one. */
  method ReplayTable(rows: seq<DlqRow>, filter: Filter, limit: Option<int>) returns (produced: seq<Message>)
    ensures produced == Published(Cap(limit, Selection(rows, filter)))
  {
    var events := Cap(limit, Selection(rows, filter));
    produced := [];
    for i := 0 to |events|
      invariant produced == Published(events[..i])
    {
      assert events[..i + 1][..i] == events[..i];
      var published := FromRow(events[i]);
      if published.Some? {
        produced := produced + [published.value];
      }
    }
    assert events[..|events|] == events;
  }

  /** It publishes them by arrival time, and those of one time by id. */
  lemma SelectionSorted(rows: seq<DlqRow>, filter: Filter, i: nat, j: nat)
    requires i < j < |Selection(rows, filter)|
    ensures var a, b := Selection(rows, filter)[i], Selection(rows, filter)[j];
            a.ingestedAt < b.ingestedAt || (a.ingestedAt == b.ingestedAt && a.id <= b.id)
  {
    assert Earlier(Selection(rows, filter)[i], Selection(rows, filter)[j]);
  }

  /** A table replay picks the rows of its topics within its bounds on arrival time and id, bounds included. */
  lemma SelectionColumns(rows: seq<DlqRow>, filter: Filter, row: DlqRow)
    ensures row in Selection(rows, filter)
            <==> && row in rows && (filter.topics == None || row.topic in filter.topics.value)
                 && (filter.since == None || filter.since.value <= row.ingestedAt)
                 && (filter.until == None || row.ingestedAt <= filter.until.value)
                 && (filter.minId == None || filter.minId.value <= row.id)
                 && (filter.maxId == None || row.id <= filter.maxId.value)
  {
    assert row in Selection(rows, filter) <==> row in multiset(Selection(rows, filter));
    assert row in Kept(rows, filter) <==> row in multiset(Kept(rows, filter));
    KeptHas(rows, filter);
  }

  /** An unlimited table replay publishes exactly what the kept rows hold. */
  lemma TableReplayIsComplete(rows: seq<DlqRow>, filter: Filter, message: Message)
    ensures message in Published(Selection(rows, filter))
            <==> exists row :: row in rows && filter.Keeps(row) && FromRow(row) == Some(message)
  {
    PublishedHas(Selection(rows, filter), message);
    assert forall row :: row in Selection(rows, filter) <==> row in multiset(Selection(rows, filter));
    assert forall row :: row in Kept(rows, filter) <==> row in multiset(Kept(rows, filter));
    KeptHas(rows, filter);
  }

  lemma {:induction false} KeptHas(rows: seq<DlqRow>, filter: Filter)
    ensures forall row :: row in Kept(rows, filter) <==> row in rows && filter.Keeps(row)
  {
    if rows != [] {
      KeptHas(rows[..|rows| - 1], filter);
      assert rows == rows[..|rows| - 1] + [rows[|rows| - 1]];
    }
  }

  lemma {:induction false} PublishedHas(rows: seq<DlqRow>, message: Message)
    ensures message in Published(rows) <==> exists row :: row in rows && FromRow(row) == Some(message)
  {
    if rows != [] {
      var init, last := rows[..|rows| - 1], rows[|rows| - 1];
      PublishedHas(init, message);
      assert rows == init + [last];
      assert forall row :: row in rows <==> row in init || row == last;
    }
  }
}
