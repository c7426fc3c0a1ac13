/**
 What the polling loop must do (src/consumer/main.py:247-331), stated on the delivery machine's
 states alone: what one delivery leaves behind, when an idle loop ends, and what a script of
 deliveries comes to.
 */
module Turns {
  import opened Wrappers
  import opened Store
  import opened History
  import opened SerialRuns
  import opened Dlq
  import opened Delivery
  import opened Handling

  /** What goes wrong, and when, while one message is processed. */
  datatype Faults = Faults(
    clock: Clock, failsAt: nat,
    afterRaises: bool,        // something raises after the transaction, the offset commit included
    keyUndecodable: bool,     // the message key is not UTF-8
    tableRaises: bool, fileRaises: bool,
    recommitRaises: bool)     // the offset commit after the dead letter raises

  /** What the outside world does next. */
  datatype Occurrence =
    | NothingPolled(now: int)
    | EndOfPartition(now: int)
    | PollError
    | Interrupt
    | Delivered(partition: nat, faults: Faults, now: int)
    | Produced(partition: nat, message: Message)
    | OffsetStored(partition: nat)
    | FileReplayed(topics: Option<set<string>>, limit: Option<int>, choose: nat -> nat)  // the replay script
    | TableReplayed(filter: Filter, limit: Option<int>, choose: nat -> nat)

  datatype Outcome = Succeeded | SentToDlq | Escaped

  datatype Exit = QuotaReached | IdleExpired | Interrupted | Raised | Stopped

  // ---------------------------------------------------------------- one delivery

  /** There is a message at the position in that partition. */
  predicate Ready(n: Node, p: nat) { p < |n.logs| && p < |n.position| && p < |n.asked| && n.position[p] < |n.logs[p]| }

  function MessageIn(n: Node, p: nat): Message
    requires Ready(n, p)
  {
    n.logs[p][n.position[p]]
  }

  predicate SameLetters(n: Node, n': Node) { n'.file == n.file && n'.table == n.table && n'.nextRow == n.nextRow }

  /** The message's change was committed once, at the clock's readings. */
  predicate CommittedOnce(env: Env, n: Node, n': Node, p: nat, clock: Clock)
    requires Ready(n, p)
  {
    && env.read(MessageIn(n, p)).Some?
    && n'.history == n.history + [Arrival(env.read(MessageIn(n, p)).value, clock)]
    && n'.applied == n.applied + {Place(p, n.position[p])}
  }

  /** Nothing was committed. */
  predicate Untouched(n: Node, n': Node) { n'.history == n.history && n'.applied == n.applied && n'.db == n.db }

  /** The position is past the message, and the offset after it has been asked for. */
  predicate MovedOn(n: Node, n': Node, p: nat)
    requires Ready(n, p)
  {
    && n'.position == n.position[p := n.position[p] + 1] && n'.asked == n.asked[p := n.position[p] + 1]
    && n'.flight == Idle
  }

  /** The message at the position was handled, and its handling failed; late, if it had been committed. */
  predicate AfterFailure(env: Env, n: Node, n': Node, p: nat, clock: Clock, late: bool)
    requires Ready(n, p)
  {
    && n'.flight == Failed(Place(p, n.position[p])) && n'.position == n.position[p := n.position[p] + 1]
    && n'.asked == n.asked && n'.logs == n.logs && n'.committed == n.committed
    && n'.deadLetters == n.deadLetters && SameLetters(n, n')
    && if late then CommittedOnce(env, n, n', p, clock) else Untouched(n, n')
  }

  /** What a delivery leaves behind that went well. */
  predicate Served(setup: Setup, n: Node, n': Node, p: nat, faults: Faults)
    requires Ready(n, p)
  {
    && !faults.afterRaises && n'.logs == n.logs && n'.committed == n.committed
    && MovedOn(n, n', p) && CommittedOnce(EnvOf(setup), n, n', p, faults.clock)
    && n'.deadLetters == n.deadLetters && SameLetters(n, n')
  }

  /** What one leaves behind that did not: nothing is committed, unless something raised after that; the
      message is dead-lettered, unless its key does not decode; and it is moved past, or the process ends
      and resumes at the stored offsets. */
  predicate Failing(setup: Setup, n: Node, n': Node, p: nat, faults: Faults, now: int, escaped: bool)
    requires Ready(n, p)
  {
    && n'.logs == n.logs && n'.committed == n.committed && n'.flight == Idle
    && (ReadMessage(setup, MessageIn(n, p)).Ok? && faults.failsAt > COMMIT ==> faults.afterRaises)
    && (Untouched(n, n') || (faults.afterRaises && CommittedOnce(EnvOf(setup), n, n', p, faults.clock)))
    && (if faults.keyUndecodable then n'.deadLetters == n.deadLetters && SameLetters(n, n')
        else LetterFor(setup, n, n', Place(p, n.position[p]), faults, now))
    && (escaped <==> faults.keyUndecodable || faults.recommitRaises)
    && (if escaped then n'.position == n.committed && n'.asked == n.committed else MovedOn(n, n', p))
  }

  /** What one delivery leaves behind, by how it came out. */
  predicate Dealt(setup: Setup, n: Node, n': Node, p: nat, faults: Faults, now: int, outcome: Outcome)
    requires Ready(n, p)
  {
    if outcome == Succeeded then Served(setup, n, n', p, faults)
    else Failing(setup, n, n', p, faults, now, outcome == Escaped)
  }

  /** A dead-letter write was attempted for the message at `at`. */
  predicate LetterFor(setup: Setup, n: Node, n': Node, at: Place, faults: Faults, now: int) {
    && n'.deadLetters == n.deadLetters + {at}
    && n'.file == n.file
         + (if (!setup.useTable || faults.tableRaises) && !faults.fileRaises then [Letter(at, |n.file|, now)] else [])
    && n'.table == n.table + (if setup.useTable && !faults.tableRaises then [Letter(at, n.nextRow, now)] else [])
  }

  /** The steps of the `try` block. */
  predicate Tried(before: seq<Action>, after: seq<Action>, p: nat, clock: Clock, db: Db, served: bool, late: bool) {
    && before <= after
    && (served ==> after == before + [Action.Poll(p)] + [Action.Handle(clock, db)] + [CommitOffset])
    && (!served && late ==> after == before + [Action.Poll(p)] + [Action.Handle(clock, db)] + [CommitRaises])
    && (!served && !late ==> after == before + [Action.Poll(p)] + [Fail])
  }

  /** The steps of the `except` block. */
  predicate GaveUp(setup: Setup, before: seq<Action>, after: seq<Action>, faults: Faults, now: int) {
    && before <= after
    && after == before + (if faults.keyUndecodable then [] else [Action.DeadLetter(Written(setup, faults), now)])
                + [if faults.keyUndecodable || faults.recommitRaises then Restart else CommitOffset]
  }

  lemma LetterThenOffset(
    setup: Setup, before: seq<Action>, middle: seq<Action>, after: seq<Action>, faults: Faults, now: int)
    requires !faults.keyUndecodable && middle == before + [Action.DeadLetter(Written(setup, faults), now)]
    requires after == middle + [if faults.recommitRaises then Restart else CommitOffset]
    ensures GaveUp(setup, before, after, faults, now)
  {}

  /** The record was added to the store that the write reached, unless the key did not decode. */
  predicate LetterAdded(
    setup: Setup, record: Record, faults: Faults, now: int, id: nat,
    lines: seq<string>, rows: seq<DlqRow>, lines': seq<string>, rows': seq<DlqRow>) {
    if faults.keyUndecodable then lines' == lines && rows' == rows
    else Recorded(setup.wire, record, id, now, setup.useTable && !faults.tableRaises,
        !faults.fileRaises, lines, rows, lines', rows')
  }

  /** What others do to the logs and the stored offsets leaves the consumer where it is. */
  ghost predicate Aside(n: Node, n': Node) {
    && LogsGrow(n.logs, n'.logs) && |n'.logs| == |n.logs|
    && n'.position == n.position && n'.asked == n.asked && n'.flight == n.flight && Untouched(n, n')
    && n'.deadLetters == n.deadLetters && SameLetters(n, n')
  }

  lemma AsideStep(env: Env, n: Node, a: Action)
    requires Shaped(n) && (a.Produce? || a.Republish? || a.BrokerStores?)
    ensures Aside(n, Next(env, n, a))
  {}

  // ---------------------------------------------------------------- the machine's steps of one delivery

  lemma LastMove(env: Env, partitions: nat, actions: seq<Action>, a: Action, n': Node) returns (n: Node)
    requires Exec(env, partitions, actions + [a]) == Some(n')
    ensures Exec(env, partitions, actions) == Some(n) && Enabled(env, n, a) && n' == Next(env, n, a)
  {
    assert (actions + [a])[..|actions|] == actions;
    assert ExecLast(env, partitions, actions + [a]) == Some(n');
    n := Exec(env, partitions, actions).value;
  }

  /** Poll, transaction, offset. */
  lemma SuccessSteps(env: Env, partitions: nat, actions: seq<Action>, n: Node, p: nat, clock: Clock, db: Db, n': Node)
    requires Exec(env, partitions, actions) == Some(n) && Ready(n, p)
    requires Exec(env, partitions, actions + [Action.Poll(p)] + [Action.Handle(clock, db)] + [CommitOffset]) == Some(n')
    ensures MovedOn(n, n', p) && CommittedOnce(env, n, n', p, clock)
    ensures n'.logs == n.logs && n'.committed == n.committed && n'.deadLetters == n.deadLetters && SameLetters(n, n')
  {
    var n2 := LastMove(env, partitions, actions + [Action.Poll(p)] + [Action.Handle(clock, db)], CommitOffset, n');
    var n1 := LastMove(env, partitions, actions + [Action.Poll(p)], Action.Handle(clock, db), n2);
    var n0 := LastMove(env, partitions, actions, Action.Poll(p), n1);
  }

  /** Poll, and a failure before the transaction's commit. */
  lemma FailureSteps(env: Env, partitions: nat, actions: seq<Action>, n: Node, p: nat, clock: Clock, n': Node)
    requires Exec(env, partitions, actions) == Some(n) && Ready(n, p)
    requires Exec(env, partitions, actions + [Action.Poll(p)] + [Fail]) == Some(n')
    ensures AfterFailure(env, n, n', p, clock, false)
  {
    var n1 := LastMove(env, partitions, actions + [Action.Poll(p)], Fail, n');
    var n0 := LastMove(env, partitions, actions, Action.Poll(p), n1);
  }

  /** Poll, transaction, and a failure before the offset's commit. */
  lemma LateSteps(env: Env, partitions: nat, actions: seq<Action>, n: Node, p: nat, clock: Clock, db: Db, n': Node)
    requires Exec(env, partitions, actions) == Some(n) && Ready(n, p)
    requires Exec(env, partitions, actions + [Action.Poll(p)] + [Action.Handle(clock, db)] + [CommitRaises]) == Some(n')
    ensures AfterFailure(env, n, n', p, clock, true)
  {
    var n2 := LastMove(env, partitions, actions + [Action.Poll(p)] + [Action.Handle(clock, db)], CommitRaises, n');
    var n1 := LastMove(env, partitions, actions + [Action.Poll(p)], Action.Handle(clock, db), n2);
    var n0 := LastMove(env, partitions, actions, Action.Poll(p), n1);
  }

  /** What the `except` block leaves behind. */
  predicate Escalated(setup: Setup, n: Node, n': Node, at: Place, faults: Faults, now: int) {
    && at.partition < |n.asked| && n'.logs == n.logs
    && n'.committed == n.committed && n'.flight == Idle && Untouched(n, n')
    && (if faults.keyUndecodable || faults.recommitRaises then n'.position == n.committed && n'.asked == n.committed
        else n'.position == n.position && n'.asked == n.asked[at.partition := at.offset + 1])
    && (if faults.keyUndecodable then n'.deadLetters == n.deadLetters && SameLetters(n, n')
        else LetterFor(setup, n, n', at, faults, now))
  }

  function Written(setup: Setup, faults: Faults): Option<Backend> {
    Reaches(setup.useTable && !faults.tableRaises, !faults.fileRaises)
  }

  /** The dead letter, and then the offset or a restart. */
  lemma EscalationSteps(
    setup: Setup, partitions: nat, actions: seq<Action>, n: Node, at: Place, faults: Faults, now: int,
    actions': seq<Action>, n': Node)
    requires Exec(EnvOf(setup), partitions, actions) == Some(n) && n.flight == Failed(at)
    requires Exec(EnvOf(setup), partitions, actions') == Some(n') && GaveUp(setup, actions, actions', faults, now)
    ensures Escalated(setup, n, n', at, faults, now)
  {
    var last := if faults.keyUndecodable || faults.recommitRaises then Restart else CommitOffset;
    var letter := if faults.keyUndecodable then [] else [Action.DeadLetter(Written(setup, faults), now)];
    var n2 := LastMove(EnvOf(setup), partitions, actions + letter, last, n');
    if faults.keyUndecodable {
      assert actions + letter == actions;
    } else {
      var n1 := LastMove(EnvOf(setup), partitions, actions, Action.DeadLetter(Written(setup, faults), now), n2);
    }
  }

  /** Both blocks together. */
  lemma FailureIsDealt(
    setup: Setup, n: Node, n1: Node, n': Node, p: nat, faults: Faults, now: int, late: bool)
    requires Ready(n, p) && AfterFailure(EnvOf(setup), n, n1, p, faults.clock, late)
    requires Escalated(setup, n1, n', Place(p, n.position[p]), faults, now)
    requires late ==> faults.afterRaises
    requires faults.failsAt > COMMIT && ReadMessage(setup, MessageIn(n, p)).Ok? ==> late
    ensures Failing(setup, n, n', p, faults, now, faults.keyUndecodable || faults.recommitRaises)
  {}

  // ---------------------------------------------------------------- one turn

  /** What one turn of the loop does: a delivery is dealt with, and ends the loop if its failure escapes; an
      idle poll ends it if the last success is too long ago; others' doings leave the consumer alone. */
  ghost predicate Turned(
    setup: Setup, n: Node, n': Node, event: Occurrence,
    maxIdle: Option<int>, last: int, ending: Option<Exit>, success: bool) {
    match event
    case Delivered(p, faults, now) =>
      if Ready(n, p) then
        && (ending.Some? ==> ending == Some(Raised) && !success)
        && Dealt(setup, n, n', p, faults, now,
            if success then Succeeded else if ending.Some? then Escaped else SentToDlq)
      else n' == n && ending.None? && !success
    case NothingPolled(now) => n' == n && !success && ending == IdleEnd(maxIdle, now - last)
    case EndOfPartition(now) => n' == n && !success && ending == IdleEnd(maxIdle, now - last)
    case PollError => n' == n && !success && ending == Some(Raised)
    case Interrupt => n' == n && !success && ending == Some(Interrupted)
    case _ => Aside(n, n') && !success && ending.None?
  }

  function IdleEnd(maxIdle: Option<int>, idle: int): Option<Exit> {
    if maxIdle.Some? && idle >= maxIdle.value then Some(IdleExpired) else None
  }

  // ---------------------------------------------------------------- a script of turns

  /** The deliveries from partition `p` among the first `k` occurrences. */
  function Taken(script: seq<Occurrence>, k: nat, p: nat): nat
    requires k <= |script|
  {
    if k == 0 then 0
    else Taken(script, k - 1, p) + if script[k - 1].Delivered? && script[k - 1].partition == p then 1 else 0
  }

  /** The log holds a message for the `i`th occurrence, if all earlier deliveries moved on. */
  predicate HasMessage(logs: seq<seq<Message>>, position: seq<nat>, script: seq<Occurrence>, i: nat)
    requires i < |script| && script[i].Delivered?
  {
    var p := script[i].partition;
    p < |logs| && p < |position| && position[p] + Taken(script, i, p) < |logs[p]|
  }

  /** Each delivery finds a message in the logs as they are at the start. */
  predicate Supplied(logs: seq<seq<Message>>, position: seq<nat>, script: seq<Occurrence>) {
    forall i {:trigger HasMessage(logs, position, script, i)}
      | 0 <= i < |script| && script[i].Delivered? :: HasMessage(logs, position, script, i)
  }

  function PlaceOf(position: seq<nat>, script: seq<Occurrence>, i: nat): Place
    requires i < |script| && script[i].Delivered? && script[i].partition < |position|
  {
    Place(script[i].partition, position[script[i].partition] + Taken(script, i, script[i].partition))
  }

  ghost predicate SameShape(n: Node, n': Node) {
    && LogsGrow(n.logs, n'.logs) && |n'.logs| == |n.logs| == |n.position| == |n'.position| == |n.asked| == |n'.asked|
    && n.applied <= n'.applied && n.deadLetters <= n'.deadLetters
  }

  /** After `k` turns each partition's position has moved past the deliveries from it, the offset after them has
      been asked for, and each of their messages was applied or dead-lettered. */
  ghost predicate Along(n: Node, n': Node, script: seq<Occurrence>, k: nat)
    requires k <= |script| && Supplied(n.logs, n.position, script)
  {
    && SameShape(n, n')
    && (forall p: nat {:trigger Taken(script, k, p)} | p < |n.logs| ::
          n'.position[p] == n.position[p] + Taken(script, k, p)
            && (Taken(script, k, p) > 0 ==> n'.asked[p] == n'.position[p]))
    && forall i {:trigger HasMessage(n.logs, n.position, script, i)} | 0 <= i < k && script[i].Delivered? ::
         HasMessage(n.logs, n.position, script, i)
         && (PlaceOf(n.position, script, i) in n'.applied || PlaceOf(n.position, script, i) in n'.deadLetters)
  }

  lemma TurnGrows(
    setup: Setup, n: Node, n': Node, event: Occurrence,
    maxIdle: Option<int>, last: int, ending: Option<Exit>, success: bool)
    requires Turned(setup, n, n', event, maxIdle, last, ending, success) && ending.None?
    requires |n.logs| == |n.position| == |n.asked|
    ensures SameShape(n, n')
    ensures event.Delivered? && Ready(n, event.partition) ==>
              var at := Place(event.partition, n.position[event.partition]);
              && MovedOn(n, n', event.partition) && (at in n'.applied || at in n'.deadLetters)
    ensures !event.Delivered? ==> n'.position == n.position && n'.asked == n.asked
  {}

  lemma TurnAlong(
    setup: Setup, start: Node, n: Node, n': Node, script: seq<Occurrence>, k: nat, maxIdle: Option<int>, last: int,
    ending: Option<Exit>, success: bool)
    requires k < |script| && Supplied(start.logs, start.position, script) && Along(start, n, script, k)
    requires Turned(setup, n, n', script[k], maxIdle, last, ending, success) && ending.None?
    ensures Along(start, n', script, k + 1)
  {
    TurnGrows(setup, n, n', script[k], maxIdle, last, ending, success);
    if script[k].Delivered? {
      var p := script[k].partition;
      assert HasMessage(start.logs, start.position, script, k) && Taken(script, k, p) >= 0;
      assert InLogs(start.logs, PlaceOf(start.position, script, k))
        && InLogs(n.logs, PlaceOf(start.position, script, k));
      assert Ready(n, p);
    }
    forall i | 0 <= i < k + 1 && script[i].Delivered?
      ensures HasMessage(start.logs, start.position, script, i)
      ensures PlaceOf(start.position, script, i) in n'.applied || PlaceOf(start.position, script, i) in n'.deadLetters
    {
      assert HasMessage(start.logs, start.position, script, i);
    }
    forall p: nat | p < |start.logs|
      ensures n'.position[p] == start.position[p] + Taken(script, k + 1, p)
      ensures Taken(script, k + 1, p) > 0 ==> n'.asked[p] == n'.position[p]
    {
      assert n.position[p] == start.position[p] + Taken(script, k, p);
    }
  }

  /** The `i`th occurrence delivers a valid message, and nothing fails while it is handled. */
  predicate Clean(setup: Setup, logs: seq<seq<Message>>, position: seq<nat>, script: seq<Occurrence>, i: nat)
    requires i < |script|
  {
    && script[i].Delivered? && HasMessage(logs, position, script, i)
    && script[i].faults.failsAt > COMMIT && !script[i].faults.afterRaises
    && ReadMessage(setup, MessageAt(logs, PlaceOf(position, script, i))).Ok?
  }

  predicate AllClean(setup: Setup, logs: seq<seq<Message>>, position: seq<nat>, script: seq<Occurrence>) {
    forall i {:trigger Clean(setup, logs, position, script, i)} | 0 <= i < |script| ::
      Clean(setup, logs, position, script, i)
  }

  /** What a clean script commits, in order. */
  function Commits(
    setup: Setup, logs: seq<seq<Message>>, position: seq<nat>, script: seq<Occurrence>, k: nat): (log: seq<Arrival>)
    requires k <= |script| && AllClean(setup, logs, position, script)
    ensures |log| == k
  {
    if k == 0 then []
    else
      assert Clean(setup, logs, position, script, k - 1);
      Commits(setup, logs, position, script, k - 1)
      + [Arrival(ReadMessage(setup, MessageAt(logs, PlaceOf(position, script, k - 1))).value,
            script[k - 1].faults.clock)]
  }

  /** The first `k` of its messages are applied, one after the other. */
  ghost predicate AllApplied(setup: Setup, n: Node, n': Node, script: seq<Occurrence>, k: nat)
    requires k <= |script| && AllClean(setup, n.logs, n.position, script)
  {
    && n'.history == n.history + Commits(setup, n.logs, n.position, script, k)
    && forall i {:trigger Clean(setup, n.logs, n.position, script, i)} | 0 <= i < k ::
         Clean(setup, n.logs, n.position, script, i) && PlaceOf(n.position, script, i) in n'.applied
  }

  lemma CleanIsSupplied(setup: Setup, n: Node, script: seq<Occurrence>)
    requires AllClean(setup, n.logs, n.position, script)
    ensures Supplied(n.logs, n.position, script)
  {
    forall i | 0 <= i < |script| && script[i].Delivered?
      ensures HasMessage(n.logs, n.position, script, i)
    {
      assert Clean(setup, n.logs, n.position, script, i);
    }
  }

  /** The delivery finds the message that the script speaks of. */
  lemma FindsItsMessage(setup: Setup, start: Node, n: Node, script: seq<Occurrence>, k: nat)
    requires k < |script| && AllClean(setup, start.logs, start.position, script)
    requires Supplied(start.logs, start.position, script) && Along(start, n, script, k)
    ensures Clean(setup, start.logs, start.position, script, k) && Ready(n, script[k].partition)
    ensures Place(script[k].partition, n.position[script[k].partition]) == PlaceOf(start.position, script, k)
    ensures MessageIn(n, script[k].partition) == MessageAt(start.logs, PlaceOf(start.position, script, k))
  {
    assert Clean(setup, start.logs, start.position, script, k);
    var p := script[k].partition;
    var at := PlaceOf(start.position, script, k);
    assert n.position[p] == start.position[p] + Taken(script, k, p);
    assert InLogs(n.logs, at) && MessageAt(n.logs, at) == MessageAt(start.logs, at);
  }

  /** A clean delivery succeeds. */
  lemma CleanTurn(
    setup: Setup, start: Node, n: Node, n': Node, script: seq<Occurrence>, k: nat, maxIdle: Option<int>, last: int,
    ending: Option<Exit>, success: bool)
    requires k < |script| && AllClean(setup, start.logs, start.position, script)
    requires Supplied(start.logs, start.position, script) && Along(start, n, script, k)
    requires Turned(setup, n, n', script[k], maxIdle, last, ending, success)
    ensures success && ending.None? && Clean(setup, start.logs, start.position, script, k)
    ensures n'.applied == n.applied + {PlaceOf(start.position, script, k)}
    ensures var at := PlaceOf(start.position, script, k);
            n'.history
              == n.history + [Arrival(ReadMessage(setup, MessageAt(start.logs, at)).value, script[k].faults.clock)]
  {
    FindsItsMessage(setup, start, n, script, k);
    var outcome := if success then Succeeded else if ending.Some? then Escaped else SentToDlq;
    DealtWell(setup, n, n', script[k].partition, script[k].faults, script[k].now, outcome);
  }

  lemma CleanTurnApplies(
    setup: Setup, start: Node, n: Node, n': Node, script: seq<Occurrence>, k: nat, maxIdle: Option<int>, last: int,
    ending: Option<Exit>, success: bool)
    requires k < |script| && AllClean(setup, start.logs, start.position, script)
    requires Supplied(start.logs, start.position, script) && Along(start, n, script, k)
    requires AllApplied(setup, start, n, script, k)
    requires Turned(setup, n, n', script[k], maxIdle, last, ending, success)
    ensures success && ending.None? && AllApplied(setup, start, n', script, k + 1)
  {
    CleanTurn(setup, start, n, n', script, k, maxIdle, last, ending, success);
    var arrival := Arrival(ReadMessage(setup, MessageAt(start.logs, PlaceOf(start.position, script, k))).value,
        script[k].faults.clock);
    CommitsNext(setup, start, script, k, arrival);
    forall i | 0 <= i < k + 1
      ensures Clean(setup, start.logs, start.position, script, i) && PlaceOf(start.position, script, i) in n'.applied
    {
      assert i < k ==>
        Clean(setup, start.logs, start.position, script, i) && PlaceOf(start.position, script, i) in n.applied;
    }
  }

  lemma CommitsNext(setup: Setup, n: Node, script: seq<Occurrence>, k: nat, arrival: Arrival)
    requires k < |script| && AllClean(setup, n.logs, n.position, script) && Clean(setup, n.logs, n.position, script, k)
    requires arrival == Arrival(ReadMessage(setup, MessageAt(n.logs, PlaceOf(n.position, script, k))).value,
            script[k].faults.clock)
    ensures n.history + Commits(setup, n.logs, n.position, script, k + 1)
            == (n.history + Commits(setup, n.logs, n.position, script, k)) + [arrival]
  {
    assert Commits(setup, n.logs, n.position, script, k + 1)
      == Commits(setup, n.logs, n.position, script, k) + [arrival];
  }

  /** Without a failure there is only one way a valid message can come out. */
  lemma DealtWell(setup: Setup, n: Node, n': Node, p: nat, faults: Faults, now: int, outcome: Outcome)
    requires Ready(n, p) && Dealt(setup, n, n', p, faults, now, outcome)
    requires faults.failsAt > COMMIT && !faults.afterRaises && ReadMessage(setup, MessageIn(n, p)).Ok?
    ensures outcome == Succeeded
    ensures n'.history == n.history + [Arrival(ReadMessage(setup, MessageIn(n, p)).value, faults.clock)]
    ensures n'.applied == n.applied + {Place(p, n.position[p])}
  {}

  // ---------------------------------------------------------------- the idle clock

  /** The time of the last success, or of the start; `outcomes` says which turns were successes. */
  function LastSuccess(script: seq<Occurrence>, started: int, outcomes: seq<bool>): int
    requires |outcomes| <= |script| && SuccessesAreDeliveries(script, outcomes)
  {
    if outcomes == [] then started
    else if outcomes[|outcomes| - 1] then script[|outcomes| - 1].now
    else LastSuccess(script, started, outcomes[..|outcomes| - 1])
  }

  predicate SuccessesAreDeliveries(script: seq<Occurrence>, outcomes: seq<bool>)
    requires |outcomes| <= |script|
  {
    forall i | 0 <= i < |outcomes| && outcomes[i] :: script[i].Delivered?
  }

  /** An idle poll that comes this long after the last success. */
  predicate IdleTooLong(script: seq<Occurrence>, started: int, maxIdle: Option<int>, outcomes: seq<bool>)
    requires |outcomes| < |script| && SuccessesAreDeliveries(script, outcomes)
  {
    var event := script[|outcomes|];
    && (event.NothingPolled? || event.EndOfPartition?) && maxIdle.Some?
    && event.now - LastSuccess(script, started, outcomes) >= maxIdle.value
  }

  /** No turn so far was an idle poll that should have ended the loop. */
  predicate NeverIdleTooLong(script: seq<Occurrence>, started: int, maxIdle: Option<int>, outcomes: seq<bool>)
    requires |outcomes| <= |script| && SuccessesAreDeliveries(script, outcomes)
  {
    outcomes == []
    || (NeverIdleTooLong(script, started, maxIdle, outcomes[..|outcomes| - 1])
        && !IdleTooLong(script, started, maxIdle, outcomes[..|outcomes| - 1]))
  }

  function Wins(outcomes: seq<bool>): (n: nat)
    ensures n <= |outcomes|
  {
    if outcomes == [] then 0 else Wins(outcomes[..|outcomes| - 1]) + if outcomes[|outcomes| - 1] then 1 else 0
  }

  /** The next turn. */
  lemma NextOutcome(script: seq<Occurrence>, started: int, maxIdle: Option<int>, outcomes: seq<bool>, success: bool)
    requires |outcomes| < |script| && SuccessesAreDeliveries(script, outcomes)
    requires success ==> script[|outcomes|].Delivered?
    ensures var outcomes' := outcomes + [success];
            && SuccessesAreDeliveries(script, outcomes')
            && Wins(outcomes') == Wins(outcomes) + (if success then 1 else 0)
            && LastSuccess(script, started, outcomes')
               == (if success then script[|outcomes|].now else LastSuccess(script, started, outcomes))
            && (NeverIdleTooLong(script, started, maxIdle, outcomes')
                <==> NeverIdleTooLong(script, started, maxIdle, outcomes)
                     && !IdleTooLong(script, started, maxIdle, outcomes))
  {
    assert (outcomes + [success])[..|outcomes|] == outcomes;
  }

  // ---------------------------------------------------------------- the whole loop

  /** How a loop ends after as many turns as `outcomes` has: by itself only when the script is over or the quota
      is reached; else by an occurrence that says so. */
  ghost predicate EndsRightly(
    script: seq<Occurrence>, started: int, maxMessages: Option<int>,
    maxIdle: Option<int>, outcomes: seq<bool>, exit: Exit)
    requires |outcomes| <= |script| && SuccessesAreDeliveries(script, outcomes)
  {
    && NeverIdleTooLong(script, started, maxIdle, outcomes)
    && (exit == Stopped <==> |outcomes| == |script|)
    && (exit == QuotaReached ==> maxMessages.Some? && Wins(outcomes) == AtLeastZero(maxMessages.value))
    && (exit == IdleExpired ==>
        maxIdle.Some? && |outcomes| < |script| && IdleTooLong(script, started, maxIdle, outcomes))
    && (exit == Interrupted ==> |outcomes| < |script| && script[|outcomes|].Interrupt?)
    && (exit == Raised ==>
          |outcomes| < |script|
          && var event := script[|outcomes|];
             event.PollError? || (event.Delivered? && (event.faults.keyUndecodable || event.faults.recommitRaises)))
  }

  /** What a loop leaves behind: `outcomes` says of each completed turn whether it was a success. Unless something
      was raised the positions have moved past all deliveries, whose messages were applied or dead-lettered;
      and a clean script within the quota is committed message by message. */
  ghost predicate Looped(
    setup: Setup, start: Node, n: Node, script: seq<Occurrence>, started: int, maxMessages: Option<int>,
    maxIdle: Option<int>, outcomes: seq<bool>, exit: Exit, processed: nat) {
    && |outcomes| <= |script| && SuccessesAreDeliveries(script, outcomes) && processed == Wins(outcomes)
    && EndsRightly(script, started, maxMessages, maxIdle, outcomes, exit)
    && (Supplied(start.logs, start.position, script) && exit != Raised ==> Along(start, n, script, |outcomes|))
    && (AllClean(setup, start.logs, start.position, script) && (maxMessages.None? || |script| <= maxMessages.value) ==>
          exit == Stopped && processed == |script| && AllApplied(setup, start, n, script, |script|))
  }

  /** An occurrence ended the loop, whatever the quota. */
  ghost predicate EndedBy(
    setup: Setup, start: Node, n: Node, script: seq<Occurrence>, started: int, maxIdle: Option<int>,
    outcomes: seq<bool>, exit: Exit, processed: nat) {
    && exit != Stopped && exit != QuotaReached
    && forall maxMessages :: Looped(setup, start, n, script, started, maxMessages, maxIdle, outcomes, exit, processed)
  }

  /** What holds of the loop before its `k`th turn. */
  ghost predicate Turning(
    setup: Setup, start: Node, n: Node, script: seq<Occurrence>, started: int, maxIdle: Option<int>, k: nat,
    outcomes: seq<bool>, processed: nat, lastMessageAt: int) {
    && |outcomes| == k <= |script| && SuccessesAreDeliveries(script, outcomes)
    && processed == Wins(outcomes) && lastMessageAt == LastSuccess(script, started, outcomes)
    && NeverIdleTooLong(script, started, maxIdle, outcomes)
    && (Supplied(start.logs, start.position, script) ==> Along(start, n, script, k))
    && (AllClean(setup, start.logs, start.position, script) ==>
        Supplied(start.logs, start.position, script) && AllApplied(setup, start, n, script, k) && processed == k)
  }

  lemma StartsAlong(setup: Setup, n: Node, script: seq<Occurrence>, started: int, maxIdle: Option<int>)
    requires Shaped(n)
    ensures Turning(setup, n, n, script, started, maxIdle, 0, [], 0, started)
  {
    if AllClean(setup, n.logs, n.position, script) {
      CleanIsSupplied(setup, n, script);
      assert n.history + [] == n.history;
    }
  }

  lemma TurnGoesOn(
    setup: Setup, start: Node, n: Node, n': Node, script: seq<Occurrence>, started: int, maxIdle: Option<int>, k: nat,
    outcomes: seq<bool>, processed: nat, lastMessageAt: int, ending: Option<Exit>, success: bool)
    requires k < |script| && Turning(setup, start, n, script, started, maxIdle, k, outcomes, processed, lastMessageAt)
    requires Turned(setup, n, n', script[k], maxIdle, lastMessageAt, ending, success) && ending.None?
    requires success ==> script[k].Delivered?
    ensures Turning(setup, start, n', script, started, maxIdle, k + 1, outcomes + [success],
                    processed + (if success then 1 else 0), if success then script[k].now else lastMessageAt)
  {
    NextOutcome(script, started, maxIdle, outcomes, success);
    if Supplied(start.logs, start.position, script) {
      TurnAlong(setup, start, n, n', script, k, maxIdle, lastMessageAt, ending, success);
    }
    if AllClean(setup, start.logs, start.position, script) {
      CleanTurnApplies(setup, start, n, n', script, k, maxIdle, lastMessageAt, ending, success);
    }
  }

  lemma TurnEnds(
    setup: Setup, start: Node, n: Node, n': Node, script: seq<Occurrence>, started: int, maxIdle: Option<int>, k: nat,
    outcomes: seq<bool>, processed: nat, lastMessageAt: int, ending: Option<Exit>, success: bool)
    requires k < |script| && Turning(setup, start, n, script, started, maxIdle, k, outcomes, processed, lastMessageAt)
    requires Turned(setup, n, n', script[k], maxIdle, lastMessageAt, ending, success) && ending.Some?
    requires ending != Some(Stopped) && ending != Some(QuotaReached)
    ensures EndedBy(setup, start, n', script, started, maxIdle, outcomes, ending.value, processed)
  {
    if AllClean(setup, start.logs, start.position, script) {
      CleanTurnApplies(setup, start, n, n', script, k, maxIdle, lastMessageAt, ending, success);
      assert false;
    }
  }

  /** Nodes that differ in nothing a script depends on. */
  ghost predicate Alike(n: Node, m: Node) { n.logs == m.logs && n.position == m.position && n.history == m.history }

  /** The loop ends by itself: the script is over, or the quota reached. */
  lemma EndsByItself(
    setup: Setup, start: Node, n: Node, script: seq<Occurrence>, started: int, maxMessages: Option<int>,
    maxIdle: Option<int>, k: nat, outcomes: seq<bool>, processed: nat, lastMessageAt: int, exit: Exit)
    requires Turning(setup, start, n, script, started, maxIdle, k, outcomes, processed, lastMessageAt)
    requires maxMessages.Some? ==> processed <= AtLeastZero(maxMessages.value)
    requires if k == |script| then exit == Stopped
             else exit == QuotaReached && maxMessages.Some? && processed >= maxMessages.value
    ensures Looped(setup, start, n, script, started, maxMessages, maxIdle, outcomes, exit, processed)
  {}
}
