/**
 Backfill from files (src/consumer/main.py:337-474): the same events, read again from JSON lines,
 filtered by an inclusive time window and upserted in transactions of their own.
 */
module Backfill {
  import opened Wrappers
  import opened LatestWins
  import opened Pairing
  import opened Store
  import opened History
  import opened SerialRuns
  import opened Lookups
  import opened Convergence
  import opened Contract
  import opened Events
  import opened Dlq
  import opened Handling
  import opened Consumer
  import Interleaving

  /** Both bounds are optional and inclusive. */
  datatype Window = Window(since: Option<int>, until: Option<int>)
  {
    predicate Holds(time: int) { (since.Some? ==> since.value <= time) && (until.Some? ==> time <= until.value) }
  }

  /** A non-blank line of a file: a JSON object, or something that stops the backfill. */
  type FileLine = Option<Payload>

  function TimeOfChange(change: Change): int {
    match change
    case LedgerChange(e) => e.body.eventTime
    case OrderChange(e) => if e.updatedAt.Some? then e.updatedAt.value else e.body.createdAt
  }

  predicate Picks(setup: Setup, topic: string, window: Window, line: FileLine) {
    && line.Some? && ReadPayload(setup, topic, line.value).Ok?
    && window.Holds(TimeOfChange(ReadPayload(setup, topic, line.value).value))
  }

  function PickedChange(setup: Setup, topic: string, line: FileLine): Change
    requires line.Some? && ReadPayload(setup, topic, line.value).Ok?
  {
    ReadPayload(setup, topic, line.value).value
  }

  /** What a window picks from one line: a change or nothing. */
  function PickedFrom(setup: Setup, topic: string, window: Window, line: FileLine): set<Change> {
    if Picks(setup, topic, window, line) then {PickedChange(setup, topic, line)} else {}
  }

  /** The changes a backfill selects from the first `n` lines of a file. */
  function Selected(setup: Setup, topic: string, window: Window, lines: seq<FileLine>, n: nat): set<Change>
    requires n <= |lines|
  {
    if n == 0 then {} else Selected(setup, topic, window, lines, n - 1) + PickedFrom(setup, topic, window, lines[n - 1])
  }

  lemma StepKeepsKeyed(db: Db, change: Change, clock: Clock, db': Db)
    requires Keyed(db.ledger) && Step(db, change, clock, db')
    ensures Keyed(db'.ledger)
  {}

  /** What may go wrong at one line. */
  datatype LineFaults = LineFaults(clock: Clock, failsAt: nat, tableRaises: bool, fileRaises: bool, now: int)

  /** The record of a line that failed. */
  function RecordOfLine(dlqTopic: string, payload: Payload, error: string): Record {
    Record(dlqTopic, None, None, Object(payload), error)
  }

  /** Letters were only added, and all of them are under this name. */
  ghost predicate Under(
    wire: Wire, name: string, lines: seq<string>, rows: seq<DlqRow>, lines': seq<string>, rows': seq<DlqRow>) {
    && lines <= lines' && rows <= rows'
    && (forall k | |rows| <= k < |rows'| :: rows'[k].topic == name && rows'[k].partition.None? && rows'[k].offset.None?)
    && (forall k | |lines| <= k < |lines'| :: LineUnder(wire, name, lines'[k]))
  }

  ghost predicate LineUnder(wire: Wire, name: string, line: string) {
    exists payload, error :: line == wire.dump(RecordOfLine(name, payload, error))
  }

  lemma RecordedUnder(
    wire: Wire, name: string, payload: Payload, error: string, id: nat, now: int, table: bool, file: bool,
    lines: seq<string>, rows: seq<DlqRow>, lines': seq<string>, rows': seq<DlqRow>)
    requires name != "" && Stripped(name)
    requires Recorded(wire, RecordOfLine(name, payload, error), id, now, table, file, lines, rows, lines', rows')
    ensures Under(wire, name, lines, rows, lines', rows')
  {
    assert LineUnder(wire, name, wire.dump(RecordOfLine(name, payload, error)));
  }

  lemma UnderAgain(
    wire: Wire, name: string, lines: seq<string>, rows: seq<DlqRow>, lines': seq<string>, rows': seq<DlqRow>,
    lines'': seq<string>, rows'': seq<DlqRow>)
    requires Under(wire, name, lines, rows, lines', rows') && Under(wire, name, lines', rows', lines'', rows'')
    ensures Under(wire, name, lines, rows, lines'', rows'')
  {
    forall k | |lines| <= k < |lines''|
      ensures LineUnder(wire, name, lines''[k])
    {
      if k < |lines'| {
        assert LineUnder(wire, name, lines'[k]) && lines''[k] == lines'[k];
      }
    }
  }

  /** The window holds the event time of a ledger change, and of an order change the update time if
      there is one, and else the creation time. */
  predicate Due(window: Window, change: Change) {
    match change
    case LedgerChange(e) =>
      && (window.since.Some? ==> window.since.value <= e.body.eventTime)
      && (window.until.Some? ==> e.body.eventTime <= window.until.value)
    case OrderChange(e) =>
      if e.updatedAt.Some? then
        && (window.since.Some? ==> window.since.value <= e.updatedAt.value)
        && (window.until.Some? ==> e.updatedAt.value <= window.until.value)
      else
        && (window.since.Some? ==> window.since.value <= e.body.createdAt)
        && (window.until.Some? ==> e.body.createdAt <= window.until.value)
  }

  /** The code under which a line is dead-lettered whose handling failed. */
  function CodeOfLine(setup: Setup, topic: string, payload: Payload): string {
    match ReadPayload(setup, topic, payload) case Err(e) => Classify(e) case Ok(_) => "internal_error"
  }

  /** The body of the loop: apply, skip or dead-letter one line. The result holds what was committed. */
  method BackfillLine(
    setup: Setup, tables: Tables, letters: DeadLetters, topic: string, dlqTopic: string,
    window: Window, payload: Payload, f: LineFaults)
    returns (ghost done: seq<Arrival>)
    requires Wired(setup) && Keyed(tables.ledger) && letters.Valid() && setup.profile.KindOf(topic).Some?
    requires dlqTopic != "" && Stripped(dlqTopic)
    modifies tables, letters
    ensures letters.Valid() && |done| <= 1
    ensures done == [] ==> tables.State() == old(tables.State())
    ensures done != [] ==>
              && PickedFrom(setup, topic, window, Some(payload)) == {done[0].change}
              && Step(old(tables.State()), done[0].change, done[0].clock, tables.State())
    ensures f.failsAt > COMMIT && done == [] ==> PickedFrom(setup, topic, window, Some(payload)) == {}
    ensures var read := ReadPayload(setup, topic, payload);
            && (done != [] ==> read.Ok? && Due(window, read.value) && done == [Arrival(read.value, f.clock)])
            && (f.failsAt > COMMIT && read.Ok? && Due(window, read.value) ==> done != [])
    ensures var read := ReadPayload(setup, topic, payload);
            if done != [] || (read.Ok? && !Due(window, read.value)) then
              letters.file == old(letters.file) && letters.rows == old(letters.rows)
            else
              Recorded(letters.wire, RecordOfLine(dlqTopic, payload, CodeOfLine(setup, topic, payload)),
                       old(letters.nextId), f.now, setup.useTable && !f.tableRaises, !f.fileRaises,
                       Lines(old(letters.file)), old(letters.rows), Lines(letters.file), letters.rows)
    ensures Under(letters.wire, dlqTopic, Lines(old(letters.file)), old(letters.rows),
                  Lines(letters.file), letters.rows)
  {
    done := [];
    var failure;
    var change := DecodePayload(setup, topic, payload);
    if change.Ok? {
      if !window.Holds(TimeOfChange(change.value)) {
        return;
      }
      var ok, missing := Transact(tables, change.value, f.clock, f.failsAt);
      if ok {
        done := [Arrival(change.value, f.clock)];
        return;
      }
      failure := Broken;
    } else {
      failure := change.error;
    }
    DeadLetterLine(setup, letters, dlqTopic, payload, failure, f);
  }

  /** The `except` block. */
  method DeadLetterLine(
    setup: Setup, letters: DeadLetters, dlqTopic: string, payload: Payload, failure: Failure, f: LineFaults)
    requires letters.Valid() && dlqTopic != "" && Stripped(dlqTopic)
    modifies letters
    ensures letters.Valid()
    ensures Under(letters.wire, dlqTopic, Lines(old(letters.file)), old(letters.rows),
                  Lines(letters.file), letters.rows)
    ensures Recorded(letters.wire, RecordOfLine(dlqTopic, payload, Classify(failure)),
                     old(letters.nextId), f.now, setup.useTable && !f.tableRaises, !f.fileRaises,
                     Lines(old(letters.file)), old(letters.rows), Lines(letters.file), letters.rows)
  {
    ghost var lines, rows, id := Lines(letters.file), letters.rows, letters.nextId;
    var record := RecordOfLine(dlqTopic, payload, Classify(failure));
    ghost var written := letters.WritePayload(setup.useTable, record, f.now, f.tableRaises, f.fileRaises);
    RecordedUnder(
      letters.wire, dlqTopic, payload, Classify(failure), id, f.now, setup.useTable && !f.tableRaises, !f.fileRaises,
      lines, rows, Lines(letters.file), letters.rows);
  }

  /** One pass of the loop over a file. */
  method NextLine(
    setup: Setup, tables: Tables, letters: DeadLetters, topic: string, dlqTopic: string,
    window: Window, payload: Payload, f: LineFaults,
    ghost start: Db, ghost log: seq<Arrival>, ghost selected: set<Change>, ghost clean: bool,
    ghost lines: seq<string>, ghost rows: seq<DlqRow>)
    returns (ghost log': seq<Arrival>)
    requires Wired(setup) && Keyed(tables.ledger) && letters.Valid() && setup.profile.KindOf(topic).Some?
    requires dlqTopic != "" && Stripped(dlqTopic) && Progress(start, log, tables.State(), selected, clean)
    requires Under(letters.wire, dlqTopic, lines, rows, Lines(letters.file), letters.rows)
    modifies tables, letters
    ensures letters.Valid() && Under(letters.wire, dlqTopic, lines, rows, Lines(letters.file), letters.rows)
    ensures Progress(start, log', tables.State(), selected + PickedFrom(setup, topic, window, Some(payload)),
                     clean && f.failsAt > COMMIT)
  {
    ghost var before, lines0, rows0 := tables.State(), Lines(letters.file), letters.rows;
    ghost var done := BackfillLine(setup, tables, letters, topic, dlqTopic, window, payload, f);
    UnderAgain(letters.wire, dlqTopic, lines, rows, lines0, rows0, Lines(letters.file), letters.rows);
    ProgressNext(
      start, log, before, selected, clean,
      done, tables.State(), PickedFrom(setup, topic, window, Some(payload)), f.failsAt > COMMIT);
    log' := log + done;
  }

  /** One file. A line that is no JSON object ends the backfill; a line whose handling fails is
      dead-lettered, under a topic of the backfill's own, and skipped. */
  method BackfillFile(
    setup: Setup, tables: Tables, letters: DeadLetters, topic: string, dlqTopic: string,
    window: Window, lines: seq<FileLine>, faults: nat -> LineFaults)
    returns (ok: bool, ghost log: seq<Arrival>)
    requires Wired(setup) && Keyed(tables.ledger) && letters.Valid() && setup.profile.KindOf(topic).Some?
    requires dlqTopic != "" && Stripped(dlqTopic)
    modifies tables, letters
    ensures Leads(old(tables.State()), log, tables.State()) && Keyed(tables.ledger) && letters.Valid()
    ensures Under(letters.wire, dlqTopic, Lines(old(letters.file)), old(letters.rows),
                  Lines(letters.file), letters.rows)
    ensures Changes(log) <= Selected(setup, topic, window, lines, |lines|)
    ensures ok <==> forall i | 0 <= i < |lines| :: lines[i].Some?
    ensures ok && (forall i | 0 <= i < |lines| :: faults(i).failsAt > COMMIT) ==>
              Changes(log) == Selected(setup, topic, window, lines, |lines|)
    ensures (forall i | 0 <= i < |lines| :: faults(i).failsAt > COMMIT) ==>
              Changes(log) == Selected(setup, topic, window, lines, Whole(lines))
  {
    WholeEnds(lines);
    log := [];
    ghost var start := tables.State();
    ghost var clean := true;
    for i := 0 to |lines|
      invariant letters.Valid()
      invariant Under(letters.wire, dlqTopic, Lines(old(letters.file)), old(letters.rows),
                      Lines(letters.file), letters.rows)
      invariant forall j | 0 <= j < i :: lines[j].Some?
      invariant Progress(start, log, tables.State(), Selected(setup, topic, window, lines, i), clean)
      invariant (forall j | 0 <= j < i :: faults(j).failsAt > COMMIT) ==> clean
    {
      if lines[i].None? {
        SelectedGrows(setup, topic, window, lines, i, |lines|);
        assert Whole(lines) == i;
        return false, log;
      }
      log := NextLine(
        setup, tables, letters, topic, dlqTopic, window, lines[i].value, faults(i),
        start, log, Selected(setup, topic, window, lines, i), clean, Lines(old(letters.file)), old(letters.rows));
      clean := clean && faults(i).failsAt > COMMIT;
    }
    ok := true;
  }

  /** The lines before the first that is no object. */
  function Whole(lines: seq<FileLine>): (n: nat)
    ensures n <= |lines|
  {
    if lines == [] || lines[0].None? then 0 else 1 + Whole(lines[1..])
  }

  lemma {:induction false} WholeEnds(lines: seq<FileLine>)
    ensures forall i | 0 <= i < Whole(lines) :: lines[i].Some?
    ensures Whole(lines) < |lines| ==> lines[Whole(lines)].None?
  {
    if lines != [] && lines[0].Some? {
      WholeEnds(lines[1..]);
      assert forall i | 1 <= i < |lines| :: lines[i] == lines[1..][i - 1];
    }
  }

  /** The run so far: it commits nothing outside the selection, and all of it if it was clean. */
  ghost predicate Progress(start: Db, log: seq<Arrival>, db: Db, selected: set<Change>, clean: bool) {
    Leads(start, log, db) && Keyed(db.ledger) && Changes(log) <= selected && (clean ==> Changes(log) == selected)
  }

  lemma ProgressNext(
    start: Db, log: seq<Arrival>, before: Db, selected: set<Change>, clean: bool,
    done: seq<Arrival>, after: Db, picked: set<Change>, cleanLine: bool)
    requires Progress(start, log, before, selected, clean) && |done| <= 1
    requires if done == [] then after == before
            else Step(before, done[0].change, done[0].clock, after) && picked == {done[0].change}
    requires cleanLine && done == [] ==> picked == {}
    ensures Progress(start, log + done, after, selected + picked, clean && cleanLine)
  {
    if done == [] {
      assert log + done == log;
    } else {
      assert done == [done[0]];
      LeadsSnoc(start, log, before, done[0], after);
      ChangesSnoc(log, done[0]);
      StepKeepsKeyed(before, done[0].change, done[0].clock, after);
    }
  }

  lemma {:induction false} SelectedGrows(
    setup: Setup, topic: string, window: Window, lines: seq<FileLine>, n: nat, m: nat)
    requires n <= m <= |lines|
    ensures Selected(setup, topic, window, lines, n) <= Selected(setup, topic, window, lines, m)
  {
    if n < m {
      SelectedGrows(setup, topic, window, lines, n, m - 1);
    }
  }

  /** The two files of a backfill; each is optional. */
  datatype Files = Files(ledger: Option<seq<FileLine>>, orders: Option<seq<FileLine>>)

  function LinesOf(file: Option<seq<FileLine>>): seq<FileLine> { if file.Some? then file.value else [] }

  /** What a backfill of the files selects. */
  function Selection(setup: Setup, files: Files, window: Window): set<Change> {
    Selected(setup, setup.profile.ledgerTopic, window, LinesOf(files.ledger), |LinesOf(files.ledger)|)
    + Selected(setup, setup.profile.orderTopic, window, LinesOf(files.orders), |LinesOf(files.orders)|)
  }

  const LEDGER_DLQ := "backfill-ledger"
  const ORDER_DLQ := "backfill-payment-order"

  predicate Parses(file: Option<seq<FileLine>>) { forall i | 0 <= i < |LinesOf(file)| :: LinesOf(file)[i].Some? }

  /** One of the two files, if it was given. */
  method BackfillGiven(
    setup: Setup, tables: Tables, letters: DeadLetters, topic: string, dlqTopic: string,
    window: Window, file: Option<seq<FileLine>>, faults: nat -> LineFaults)
    returns (ok: bool, ghost log: seq<Arrival>)
    requires Wired(setup) && Keyed(tables.ledger) && letters.Valid() && setup.profile.KindOf(topic).Some?
    requires dlqTopic != "" && Stripped(dlqTopic)
    modifies tables, letters
    ensures Leads(old(tables.State()), log, tables.State()) && Keyed(tables.ledger) && letters.Valid()
    ensures Under(letters.wire, dlqTopic, Lines(old(letters.file)), old(letters.rows),
                  Lines(letters.file), letters.rows)
    ensures Changes(log) <= Selected(setup, topic, window, LinesOf(file), |LinesOf(file)|)
    ensures ok <==> Parses(file)
    ensures ok && (forall i: nat :: faults(i).failsAt > COMMIT) ==>
              Changes(log) == Selected(setup, topic, window, LinesOf(file), |LinesOf(file)|)
  {
    ok, log := true, [];
    if file.Some? {
      ok, log := BackfillFile(setup, tables, letters, topic, dlqTopic, window, file.value, faults);
    }
  }

  /** `run_backfill`: prunes the dead-letter table, then reads the ledger file, then the order file. */
  method RunBackfill(
    setup: Setup, tables: Tables, letters: DeadLetters, files: Files, window: Window,
    ledgerFaults: nat -> LineFaults, orderFaults: nat -> LineFaults, pruneRaises: bool, now: int)
    returns (ok: bool, ghost log: seq<Arrival>, ghost lines: seq<string>, ghost rows: seq<DlqRow>)
    requires Wired(setup) && Keyed(tables.ledger) && letters.Valid()
    modifies tables, letters
    ensures Leads(old(tables.State()), log, tables.State())
    ensures Changes(log) <= Selection(setup, files, window)
    ensures ok
            <==> setup.profile.ledgerTopic != setup.profile.orderTopic && Parses(files.ledger) && Parses(files.orders)
    ensures ok && (forall i: nat :: ledgerFaults(i).failsAt > COMMIT && orderFaults(i).failsAt > COMMIT) ==>
              Changes(log) == Selection(setup, files, window)
    ensures if setup.profile.ledgerTopic == setup.profile.orderTopic then
              letters.file == old(letters.file) && letters.rows == old(letters.rows)
            else
              && Under(letters.wire, "backfill-ledger", Lines(old(letters.file)),
                       AfterPruning(setup, pruneRaises, now, old(letters.rows)), lines, rows)
              && Under(letters.wire, "backfill-payment-order", lines, rows, Lines(letters.file), letters.rows)
  {
    log, lines, rows := [], [], [];
    if setup.profile.ledgerTopic == setup.profile.orderTopic {
      return false, log, lines, rows;
    }
    MaybePrune(setup, letters, pruneRaises, now);
    ghost var start := tables.State();
    ok, log := BackfillGiven(
      setup, tables, letters, setup.profile.ledgerTopic, LEDGER_DLQ, window, files.ledger, ledgerFaults);
    lines, rows := Lines(letters.file), letters.rows;
    if ok {
      ghost var middle, more := tables.State(), [];
      ok, more := BackfillGiven(
        setup, tables, letters, setup.profile.orderTopic, ORDER_DLQ, window, files.orders, orderFaults);
      LeadsAppend(start, log, middle, more, tables.State());
      ChangesAppend(log, more);
      log := log + more;
    }
  }

  lemma ChangesAppend(log: seq<Arrival>, more: seq<Arrival>)
    ensures Changes(log + more) == Changes(log) + Changes(more)
  {}

  /** A change is selected exactly if some line of its topic's file reads as it and the window holds its time. */
  lemma SelectionColumns(setup: Setup, files: Files, window: Window, change: Change)
    ensures change in Selection(setup, files, window)
            <==> Due(window, change)
                 && (ReadFrom(setup, setup.profile.ledgerTopic, files.ledger, change)
                     || ReadFrom(setup, setup.profile.orderTopic, files.orders, change))
  {
    SelectedColumns(setup, setup.profile.ledgerTopic, window, LinesOf(files.ledger), |LinesOf(files.ledger)|, change);
    SelectedColumns(setup, setup.profile.orderTopic, window, LinesOf(files.orders), |LinesOf(files.orders)|, change);
  }

  ghost predicate ReadFrom(setup: Setup, topic: string, file: Option<seq<FileLine>>, change: Change) {
    file.Some? && ReadUpTo(setup, topic, file.value, |file.value|, change)
  }

  ghost predicate ReadUpTo(setup: Setup, topic: string, lines: seq<FileLine>, n: nat, change: Change)
    requires n <= |lines|
  {
    exists i :: 0 <= i < n && lines[i].Some? && ReadPayload(setup, topic, lines[i].value) == Ok(change)
  }

  lemma {:induction false} SelectedColumns(
    setup: Setup, topic: string, window: Window, lines: seq<FileLine>, n: nat, change: Change)
    requires n <= |lines|
    ensures change in Selected(setup, topic, window, lines, n)
            <==> Due(window, change) && ReadUpTo(setup, topic, lines, n, change)
  {
    if n > 0 {
      SelectedColumns(setup, topic, window, lines, n - 1, change);
      if ReadUpTo(setup, topic, lines, n, change) && !ReadUpTo(setup, topic, lines, n - 1, change) {
        assert lines[n - 1].Some? && ReadPayload(setup, topic, lines[n - 1].value) == Ok(change);
      }
    }
  }

  // ---------------------------------------------------------------- windows

  const ALWAYS := Window(None, None)

  /** Everything in the files whose time falls in the window. */
  lemma SelectionByTime(setup: Setup, files: Files, window: Window, change: Change)
    ensures change in Selection(setup, files, window)
            <==> change in Selection(setup, files, ALWAYS) && window.Holds(TimeOfChange(change))
  {
    var ledger, orders := LinesOf(files.ledger), LinesOf(files.orders);
    SelectedByTime(setup, setup.profile.ledgerTopic, window, ledger, |ledger|, change);
    SelectedByTime(setup, setup.profile.orderTopic, window, orders, |orders|, change);
  }

  lemma {:induction false} SelectedByTime(
    setup: Setup, topic: string, window: Window, lines: seq<FileLine>, n: nat, change: Change)
    requires n <= |lines|
    ensures change in Selected(setup, topic, window, lines, n)
            <==> change in Selected(setup, topic, ALWAYS, lines, n) && window.Holds(TimeOfChange(change))
  {
    if n > 0 {
      SelectedByTime(setup, topic, window, lines, n - 1, change);
      PickedByTime(setup, topic, window, lines[n - 1], change);
    }
  }

  lemma PickedByTime(setup: Setup, topic: string, window: Window, line: FileLine, change: Change)
    ensures change in PickedFrom(setup, topic, window, line)
            <==> change in PickedFrom(setup, topic, ALWAYS, line) && window.Holds(TimeOfChange(change))
  {}

  function Selections(setup: Setup, files: Files, windows: seq<Window>): set<Change> {
    if windows == [] then {}
    else Selections(setup, files, windows[..|windows| - 1]) + Selection(setup, files, windows[|windows| - 1])
  }

  predicate Held(windows: seq<Window>, time: int) {
    exists i :: 0 <= i < |windows| && windows[i].Holds(time)
  }

  lemma HeldLast(windows: seq<Window>, time: int)
    requires windows != []
    ensures Held(windows, time) <==> windows[|windows| - 1].Holds(time) || Held(windows[..|windows| - 1], time)
  {
    var init := windows[..|windows| - 1];
    if Held(init, time) {
      var i :| 0 <= i < |init| && init[i].Holds(time);
      assert windows[i].Holds(time);
    }
    if Held(windows, time) {
      var i :| 0 <= i < |windows| && windows[i].Holds(time);
      assert i < |init| ==> init[i].Holds(time);
    }
  }

  lemma {:induction false} SelectionsByTime(setup: Setup, files: Files, windows: seq<Window>, change: Change)
    ensures change in Selections(setup, files, windows)
            <==> change in Selection(setup, files, ALWAYS) && Held(windows, TimeOfChange(change))
  {
    if windows != [] {
      SelectionsByTime(setup, files, windows[..|windows| - 1], change);
      SelectionByTime(setup, files, windows[|windows| - 1], change);
      HeldLast(windows, TimeOfChange(change));
    }
  }

  const NEVER := Window(Some(1), Some(0))

  predicate Empty(w: Window) { w.since.Some? && w.until.Some? && w.until.value < w.since.value }

  function Lower(a: Option<int>, b: Option<int>): Option<int> {
    if a.None? || b.None? then None else if a.value <= b.value then a else b
  }

  function Upper(a: Option<int>, b: Option<int>): Option<int> {
    if a.None? || b.None? then None else if a.value >= b.value then a else b
  }

  function Join(w: Window, v: Window): Window {
    if Empty(w) then v else if Empty(v) then w else Window(Lower(w.since, v.since), Upper(w.until, v.until))
  }

  /** From the least to the greatest time that some window holds. */
  function Hull(windows: seq<Window>): Window {
    if windows == [] then NEVER else Join(Hull(windows[..|windows| - 1]), windows[|windows| - 1])
  }

  ghost predicate HeldFrom(windows: seq<Window>, time: int) { exists t :: t <= time && Held(windows, t) }

  ghost predicate HeldUntil(windows: seq<Window>, time: int) { exists t :: time <= t && Held(windows, t) }

  predicate Starts(w: Window, time: int) { !Empty(w) && (w.since.Some? ==> w.since.value <= time) }

  predicate Ends(w: Window, time: int) { !Empty(w) && (w.until.Some? ==> time <= w.until.value) }

  lemma StartsIff(w: Window, time: int)
    ensures Starts(w, time) <==> exists t :: t <= time && w.Holds(t)
    ensures Ends(w, time) <==> exists t :: time <= t && w.Holds(t)
  {
    if Starts(w, time) {
      var t := if w.since.Some? then w.since.value
               else if w.until.Some? && w.until.value < time then w.until.value else time;
      assert t <= time && w.Holds(t);
    }
    if Ends(w, time) {
      var t := if w.until.Some? then w.until.value
               else if w.since.Some? && w.since.value > time then w.since.value else time;
      assert time <= t && w.Holds(t);
    }
  }

  lemma HeldFromLast(windows: seq<Window>, time: int)
    requires windows != []
    ensures var init, last := windows[..|windows| - 1], windows[|windows| - 1];
            && (HeldFrom(windows, time) <==> HeldFrom(init, time) || Starts(last, time))
            && (HeldUntil(windows, time) <==> HeldUntil(init, time) || Ends(last, time))
  {
    var init, last := windows[..|windows| - 1], windows[|windows| - 1];
    forall t
      ensures last.Holds(t) || Held(init, t) ==> Held(windows, t)
      ensures Held(windows, t) ==> last.Holds(t) || Held(init, t)
    {
      HeldLast(windows, t);
    }
    StartsIff(last, time);
    if Starts(last, time) {
      var t :| t <= time && last.Holds(t);
      assert Held(windows, t);
    }
    if Ends(last, time) {
      var t :| time <= t && last.Holds(t);
      assert Held(windows, t);
    }
  }

  /** The hull starts where the first held time is, and ends where the last one is. */
  lemma {:induction false} HullBounds(windows: seq<Window>, time: int)
    ensures Starts(Hull(windows), time) <==> HeldFrom(windows, time)
    ensures Ends(Hull(windows), time) <==> HeldUntil(windows, time)
  {
    if windows != [] {
      HeldFromLast(windows, time);
      HullBounds(windows[..|windows| - 1], time);
    }
  }

  /** No time between two held ones is missed. */
  ghost predicate Convex(windows: seq<Window>) {
    forall a, t, b | Held(windows, a) && Held(windows, b) && a <= t <= b :: Held(windows, t)
  }

  ghost predicate HullIsExact(windows: seq<Window>) {
    forall time :: Held(windows, time) <==> Hull(windows).Holds(time)
  }

  /** Windows hold together what their hull holds, exactly if they leave no gap. */
  lemma HullIsExactIff(windows: seq<Window>)
    ensures HullIsExact(windows) <==> Convex(windows)
  {
    forall time
      ensures Hull(windows).Holds(time) <==> HeldFrom(windows, time) && HeldUntil(windows, time)
    {
      HullBounds(windows, time);
    }
    if Convex(windows) {
      forall time
        ensures Held(windows, time) <==> Hull(windows).Holds(time)
      {
        if HeldFrom(windows, time) && HeldUntil(windows, time) {
          var a :| a <= time && Held(windows, a);
          var b :| time <= b && Held(windows, b);
        }
      }
    } else {
      var a, t, b :| Held(windows, a) && Held(windows, b) && a <= t <= b && !Held(windows, t);
      assert HeldFrom(windows, t) && HeldUntil(windows, t);
    }
  }

  /** Each window that holds anything and does not end last is followed by a held time. */
  predicate Gapless(windows: seq<Window>) {
    forall i | 0 <= i < |windows| && !Empty(windows[i]) && windows[i].until != Hull(windows).until ::
      windows[i].until.Some? && Held(windows, windows[i].until.value + 1)
  }

  /** Which can be read off the windows. */
  lemma ConvexIffGapless(windows: seq<Window>)
    ensures Convex(windows) <==> Gapless(windows)
  {
    if Gapless(windows) {
      forall a, t, b | Held(windows, a) && Held(windows, b) && a <= t <= b
        ensures Held(windows, t)
      {
        NoGap(windows, a, t, b);
      }
    }
    if Convex(windows) {
      forall i | 0 <= i < |windows| && !Empty(windows[i]) && windows[i].until != Hull(windows).until
        ensures windows[i].until.Some? && Held(windows, windows[i].until.value + 1)
      {
        EndsInside(windows, i);
      }
    }
  }

  lemma {:induction false} NoGap(windows: seq<Window>, a: int, t: int, b: int)
    requires Gapless(windows) && Held(windows, a) && Held(windows, b) && a <= t <= b
    ensures Held(windows, t)
    decreases t - a
  {
    if a < t {
      NoGap(windows, a, t - 1, b);
      var i :| 0 <= i < |windows| && windows[i].Holds(t - 1);
      if !windows[i].Holds(t) {
        assert HeldUntil(windows, t);
        HullBounds(windows, t);
      }
    }
  }

  lemma EndsInside(windows: seq<Window>, i: nat)
    requires Convex(windows) && i < |windows| && !Empty(windows[i]) && windows[i].until != Hull(windows).until
    ensures windows[i].until.Some? && Held(windows, windows[i].until.value + 1)
  {
    var w := windows[i];
    if w.until.None? {
      var u := Hull(windows).until.value;
      StartsIff(w, u + 1);
      assert Ends(w, u + 1);
      var t :| u + 1 <= t && w.Holds(t);
      assert windows[i].Holds(t) && Held(windows, t);
      HullBounds(windows, u + 1);
    } else {
      var u := w.until.value;
      assert w.Holds(u) && Held(windows, u) && HeldUntil(windows, u);
      HullBounds(windows, u);
      HullBounds(windows, u + 1);
      var t :| u + 1 <= t && Held(windows, t);
    }
  }

  /** Backfilling windows that leave no gap one by one selects what one backfill of their hull selects. */
  lemma ChunksSelectTheHull(setup: Setup, files: Files, windows: seq<Window>)
    requires Gapless(windows)
    ensures Selections(setup, files, windows) == Selection(setup, files, Hull(windows))
  {
    ConvexIffGapless(windows);
    HullIsExactIff(windows);
    forall change
      ensures change in Selections(setup, files, windows) <==> change in Selection(setup, files, Hull(windows))
    {
      SelectionsByTime(setup, files, windows, change);
      SelectionByTime(setup, files, Hull(windows), change);
    }
  }

  /** Backfill commutes with live consumption. Let any workers, interleaved statement by statement,
      commit the live changes and those of backfills over windows that leave no gap, in any order and
      any number of times; and let other runs commit the live changes and one backfill of the hull.
      The ledger and order rows are the same. So is the answer for a transaction, exactly if it is a
      PAYMENT or RECEIVE, or is not shown as part of an order, or both indexes know the RECEIVE leg
      of its order or neither does. */
  lemma BackfillCommutes(
    setup: Setup, files: Files, windows: seq<Window>, live: set<Change>, changes: set<Change>,
    actions: seq<Interleaving.Action>, s: Interleaving.Sys, actions': seq<Interleaving.Action>, s': Interleaving.Sys,
    txId: string)
    requires Gapless(windows)
    requires Interleaving.Exec(actions) == Some(s) && Interleaving.Within(actions, changes)
    requires Interleaving.Exec(actions') == Some(s') && Interleaving.Within(actions', changes)
    requires StableIdentity(LedgerEvents(changes))
    requires Changes(s.history) == live + Selections(setup, files, windows)
    requires Changes(s'.history) == live + Selection(setup, files, Hull(windows))
    requires Admissible(Changes(s.history))
    ensures Contents(s.db.ledger) == Contents(s'.db.ledger) && Contents(s.db.orders) == Contents(s'.db.orders)
    ensures Keyed(s.db.ledger) && Keyed(s'.db.ledger)
    ensures AnswerTx(s.db, txId) == AnswerTx(s'.db, txId) <==> SameReceiveIndexed(s.db, s'.db, txId)
  {
    ChunksSelectTheHull(setup, files, windows);
    Interleaving.InterleavedAnswersConverge(actions, s, actions', s', changes, txId);
  }

  /** The backfill's own dead letters never reach the tables again: a replay of either store publishes
      them under the backfill's topics, which the consumer rejects unless its profile uses those very names. */
  lemma BackfillLettersAreNotConsumed(
    setup: Setup, dlqTopic: string, payload: Payload, error: string, id: nat, now: int, backend: Backend)
    requires Wired(setup) && (dlqTopic == LEDGER_DLQ || dlqTopic == ORDER_DLQ)
    requires dlqTopic != setup.profile.ledgerTopic && dlqTopic != setup.profile.orderTopic
    ensures var record := RecordOfLine(dlqTopic, payload, error);
            var copy := if backend == File then FromFile(setup.wire, record)
              else FromRow(RowOf(setup.wire, record, id, now));
            copy.Some? && copy.value.topic == dlqTopic && ChangeOf(setup, copy.value).None?
  {
    assert Stripped(dlqTopic);
    var record := RecordOfLine(dlqTopic, payload, error);
    var copy := if backend == File then FromFile(setup.wire, record) else FromRow(RowOf(setup.wire, record, id, now));
    var body := BodyOf(setup, copy.value);
    if body.Ok? {
      assert Decode(setup.profile, setup.codec, dlqTopic, body.value).Err?;
    }
  }
}
