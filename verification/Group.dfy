/**
 A consumer group (src/consumer/main.py:219-334, src/db/session.py): several workers, each with
 partitions assigned to it, deliver messages to one database, statement by statement. Workers join,
 crash and lose partitions to each other at any point; a worker that lost a partition goes on with
 the message it has in hand.
 */
module Group {
  import opened Wrappers
  import opened LatestWins
  import opened Pairing
  import opened Store
  import opened History
  import opened SerialRuns
  import opened Lookups
  import opened Convergence
  import opened Dlq
  import opened Delivery
  import opened Redelivery
  import Interleaving

  /** A worker: where it reads next in each partition assigned to it, and the message in hand. */
  datatype Hand = Hand(next: map<nat, nat>, flight: Flight)

  /** `requests` holds the offsets that workers have asked the broker to store, as places. */
  datatype Crew = Crew(
    logs: seq<seq<Message>>, order: seq<Place>, committed: seq<nat>, requests: set<Place>, hands: map<nat, Hand>,
    sys: Interleaving.Sys, applied: set<Place>, deadLetters: set<Place>)

  datatype Move =
    | Produce(partition: nat, message: Message)
    | Join(worker: nat)
    | Assign(worker: nat, partition: nat)        // the worker resumes at the stored offset
    | Revoke(worker: nat, partition: nat)
    | Poll(worker: nat, partition: nat)
    | Begin(worker: nat)
    | Statement(action: Interleaving.Action)
    | Commit(worker: nat)                        // the transaction commits
    | Fail(worker: nat)                          // handling raises, and the transaction is rolled back
    | CommitRaises(worker: nat)
    | DeadLetter(worker: nat)
    | CommitOffset(worker: nat)
    | BrokerStores(request: Place)               // now or later, in any order, or never
    | Crash(worker: nat)

  function Gathered(partitions: nat): Crew {
    Crew(seq(partitions, _ => []), [], Zeros(partitions), {}, map[], Interleaving.START, {}, {})
  }

  predicate HandShaped(logs: seq<seq<Message>>, hand: Hand) { hand.flight.Idle? || InLogs(logs, hand.flight.at) }

  predicate ShapedCrew(c: Crew) {
    && |c.committed| == |c.logs|
    && (forall w | w in c.hands :: HandShaped(c.logs, c.hands[w]))
    && forall i | 0 <= i < |c.order| :: InLogs(c.logs, c.order[i])
  }

  /** What the worker's message asks for. */
  function AskedOf(env: Env, c: Crew, w: nat): Option<Change>
    requires ShapedCrew(c)
  {
    if w !in c.hands || c.hands[w].flight.Idle? then None else env.read(MessageAt(c.logs, c.hands[w].flight.at))
  }

  predicate IsStatement(a: Interleaving.Action) { !a.Begin? && !a.Commit? && !a.Rollback? }

  ghost predicate Enabled(env: Env, c: Crew, a: Move) {
    ShapedCrew(c)
    && match a
       case Produce(p, _) => p < |c.logs|
       case Join(w) => w !in c.hands
       case Assign(w, p) => w in c.hands && p < |c.logs|
       case Revoke(w, _) => w in c.hands
       case Poll(w, p) =>
         w in c.hands && c.hands[w].flight.Idle? && p in c.hands[w].next
           && p < |c.logs| && c.hands[w].next[p] < |c.logs[p]|
       case Begin(w) => w in c.hands && c.hands[w].flight.Polled? && w !in c.sys.open && AskedOf(env, c, w).Some?
       case Statement(b) => IsStatement(b) && Interleaving.Enabled(c.sys, b)
       case Commit(w) => Interleaving.Enabled(c.sys, Interleaving.Commit(w))
       case Fail(w) => w in c.hands && c.hands[w].flight.Polled?
       case CommitRaises(w) => w in c.hands && c.hands[w].flight.Applied?
       case DeadLetter(w) => w in c.hands && c.hands[w].flight.Failed?
       case CommitOffset(w) => w in c.hands && (c.hands[w].flight.Applied? || c.hands[w].flight.DeadLettered?)
       case BrokerStores(request) => request in c.requests && request.partition < |c.logs|
       case Crash(w) => w in c.hands
  }

  /** What the move does to the database. */
  function DbAction(env: Env, c: Crew, a: Move): Option<Interleaving.Action>
    requires ShapedCrew(c)
  {
    match a
    case Begin(w) => if AskedOf(env, c, w).Some? then Some(Interleaving.Begin(w, AskedOf(env, c, w).value)) else None
    case Statement(b) => Some(b)
    case Commit(w) => Some(Interleaving.Commit(w))
    case Fail(w) => if w in c.sys.open then Some(Interleaving.Rollback(w)) else None
    case Crash(w) => if w in c.sys.open then Some(Interleaving.Rollback(w)) else None
    case _ => None
  }

  function WithFlight(c: Crew, w: nat, flight: Flight): Crew {
    if w in c.hands then c.(hands := c.hands[w := c.hands[w].(flight := flight)]) else c
  }

  function WithNext(c: Crew, w: nat, p: nat, next: nat): Crew {
    if w in c.hands then c.(hands := c.hands[w := c.hands[w].(next := c.hands[w].next[p := next])]) else c
  }

  /** What the move does to everything else. */
  function Moved(c: Crew, a: Move): Crew
    requires ShapedCrew(c)
  {
    match a
    case Produce(p, message) =>
      if p < |c.logs| then c.(logs := c.logs[p := c.logs[p] + [message]], order := c.order + [Place(p, |c.logs[p]|)])
      else c
    case Join(w) => c.(hands := c.hands[w := Hand(map[], Idle)])
    case Assign(w, p) => if p < |c.logs| then WithNext(c, w, p, c.committed[p]) else c
    case Revoke(w, p) =>
      if w in c.hands then c.(hands := c.hands[w := c.hands[w].(next := c.hands[w].next - {p})]) else c
    case Poll(w, p) =>
      if w in c.hands && p in c.hands[w].next then
        WithNext(WithFlight(c, w, Polled(Place(p, c.hands[w].next[p]))), w, p, c.hands[w].next[p] + 1)
      else c
    case Begin(_) => c
    case Statement(_) => c
    case Commit(w) =>
      if w !in c.hands || c.hands[w].flight.Idle? then c
      else WithFlight(c, w, Applied(c.hands[w].flight.at)).(applied := c.applied + {c.hands[w].flight.at})
    case Fail(w) =>
      if w !in c.hands || c.hands[w].flight.Idle? then c else WithFlight(c, w, Failed(c.hands[w].flight.at))
    case CommitRaises(w) =>
      if w !in c.hands || c.hands[w].flight.Idle? then c else WithFlight(c, w, Failed(c.hands[w].flight.at))
    case DeadLetter(w) =>
      if w !in c.hands || c.hands[w].flight.Idle? then c
      else WithFlight(c, w, DeadLettered(c.hands[w].flight.at)).(deadLetters := c.deadLetters + {c.hands[w].flight.at})
    case CommitOffset(w) =>
      if w !in c.hands || c.hands[w].flight.Idle? then c
      else
        var at := c.hands[w].flight.at;
        WithFlight(c, w, Idle).(requests := c.requests + {Place(at.partition, at.offset + 1)})
    case BrokerStores(request) =>
      if request.partition < |c.committed| then c.(committed := c.committed[request.partition := request.offset]) else c
    case Crash(w) => c.(hands := c.hands - {w})
  }

  function Next(env: Env, c: Crew, a: Move): Crew
    requires ShapedCrew(c)
  {
    var b := DbAction(env, c, a);
    Moved(c, a).(sys := if b.Some? then Interleaving.Next(c.sys, b.value) else c.sys)
  }

  ghost function Exec(env: Env, partitions: nat, moves: seq<Move>): Option<Crew>
    decreases |moves|, 1
  {
    if moves == [] then Some(Gathered(partitions)) else ExecLast(env, partitions, moves)
  }

  ghost function ExecLast(env: Env, partitions: nat, moves: seq<Move>): Option<Crew>
    requires moves != []
    decreases |moves|, 0
  {
    var before := Exec(env, partitions, moves[..|moves| - 1]);
    var last := moves[|moves| - 1];
    if before.Some? && Enabled(env, before.value, last) then Some(Next(env, before.value, last)) else None
  }

  // ---------------------------------------------------------------- invariant

  ghost predicate Done(c: Crew, at: Place) { at in c.applied || at in c.deadLetters }

  predicate InWork(flight: Flight) { flight.Polled? || flight.Failed? }

  /** Every message below the place was applied or dead-lettered, but for the one in hand before its outcome. */
  ghost predicate Below(c: Crew, p: nat, offset: nat, flight: Flight) {
    p < |c.logs| && offset <= |c.logs[p]|
    && forall k: nat {:trigger Place(p, k)} | k < offset ::
         Done(c, Place(p, k)) || (InWork(flight) && flight.at == Place(p, k))
  }

  ghost predicate HandOk(c: Crew, hand: Hand) {
    && (forall p {:trigger hand.next[p]} | p in hand.next :: Below(c, p, hand.next[p], hand.flight))
    && (!hand.flight.Idle? ==>
        Below(c, hand.flight.at.partition, hand.flight.at.offset, Idle) && InLogs(c.logs, hand.flight.at))
    && (hand.flight.Applied? || hand.flight.DeadLettered? ==> Done(c, hand.flight.at))
  }

  ghost predicate OffsetsOk(c: Crew) {
    && |c.committed| == |c.logs|
    && (forall p {:trigger c.committed[p]} | 0 <= p < |c.logs| :: Below(c, p, c.committed[p], Idle))
    && forall request | request in c.requests :: Below(c, request.partition, request.offset, Idle)
  }

  /** The open transaction handles the message in its worker's hand. */
  ghost predicate OpenFor(env: Env, c: Crew, w: nat) {
    w in c.hands && c.hands[w].flight.Polled? && w in c.sys.open
    && Carries(env, c.logs, c.hands[w].flight.at, c.sys.open[w].change)
  }

  ghost predicate OpenOk(env: Env, c: Crew) {
    forall w | w in c.sys.open :: OpenFor(env, c, w)
  }

  ghost predicate Ordered(c: Crew) {
    && (forall i | 0 <= i < |c.order| :: InLogs(c.logs, c.order[i]))
    && forall at | InLogs(c.logs, at) :: at in c.order
  }

  ghost predicate CrewInv(env: Env, c: Crew) {
    && OffsetsOk(c) && (forall w | w in c.hands :: HandOk(c, c.hands[w]))
    && OpenOk(env, c) && Ordered(c) && HistoryMatches(env, c.logs, c.applied, Changes(c.sys.history))
  }

  ghost predicate Grew(c: Crew, c': Crew) {
    LogsGrow(c.logs, c'.logs) && |c.logs| == |c'.logs| && c.applied <= c'.applied && c.deadLetters <= c'.deadLetters
    && forall p | 0 <= p < |c.logs| :: |c.logs[p]| <= |c'.logs[p]|
  }

  lemma MoveGrows(env: Env, c: Crew, a: Move)
    requires Enabled(env, c, a)
    ensures Grew(c, Next(env, c, a))
  {}

  lemma BelowKept(c: Crew, c': Crew, p: nat, offset: nat, flight: Flight)
    requires Grew(c, c') && Below(c, p, offset, flight)
    ensures Below(c', p, offset, flight)
  {}

  lemma HandKept(c: Crew, c': Crew, hand: Hand)
    requires Grew(c, c') && HandOk(c, hand)
    ensures HandOk(c', hand)
  {
    forall p | p in hand.next
      ensures Below(c', p, hand.next[p], hand.flight)
    {
      BelowKept(c, c', p, hand.next[p], hand.flight);
    }
    if !hand.flight.Idle? {
      BelowKept(c, c', hand.flight.at.partition, hand.flight.at.offset, Idle);
      assert MessageAt(c'.logs, hand.flight.at) == MessageAt(c.logs, hand.flight.at);
    }
  }

  lemma SettledBelow(c: Crew, at: Place)
    requires Below(c, at.partition, at.offset, Idle) && Done(c, at) && InLogs(c.logs, at)
    ensures Below(c, at.partition, at.offset + 1, Idle)
  {
    forall k: nat | k < at.offset + 1
      ensures Done(c, Place(at.partition, k))
    {
      assert k == at.offset ==> Place(at.partition, k) == at;
    }
  }

  lemma MoveOffsets(env: Env, c: Crew, a: Move)
    requires CrewInv(env, c) && Enabled(env, c, a)
    ensures OffsetsOk(Next(env, c, a))
  {
    var c' := Next(env, c, a);
    MoveGrows(env, c, a);
    forall p | 0 <= p < |c.logs|
      ensures Below(c', p, c.committed[p], Idle)
    {
      BelowKept(c, c', p, c.committed[p], Idle);
    }
    forall request | request in c.requests
      ensures Below(c', request.partition, request.offset, Idle)
    {
      BelowKept(c, c', request.partition, request.offset, Idle);
    }
    if a.CommitOffset? {
      assert HandOk(c, c.hands[a.worker]);
      SettledBelow(c, c.hands[a.worker].flight.at);
      BelowKept(c, c', c.hands[a.worker].flight.at.partition, c.hands[a.worker].flight.at.offset + 1, Idle);
    }
  }

  /** The hand of a worker whose place in some partition changes. */
  lemma NextMoves(env: Env, c: Crew, a: Move, w: nat)
    requires CrewInv(env, c) && Enabled(env, c, a) && (a.Assign? || a.Revoke? || a.Poll?) && w in c.hands
    ensures HandOk(Next(env, c, a), Next(env, c, a).hands[w])
  {
    var c' := Next(env, c, a);
    MoveGrows(env, c, a);
    HandKept(c, c', c.hands[w]);
  }

  /** The hand of a worker whose message gets on. */
  lemma FlightMoves(env: Env, c: Crew, a: Move, w: nat)
    requires CrewInv(env, c) && Enabled(env, c, a) && !a.Assign? && !a.Revoke? && !a.Poll?
    requires w in c.hands && w in Next(env, c, a).hands
    ensures HandOk(Next(env, c, a), Next(env, c, a).hands[w])
  {
    var c' := Next(env, c, a);
    MoveGrows(env, c, a);
    HandKept(c, c', c.hands[w]);
  }

  lemma MoveHands(env: Env, c: Crew, a: Move, w: nat)
    requires CrewInv(env, c) && Enabled(env, c, a) && w in Next(env, c, a).hands
    ensures HandOk(Next(env, c, a), Next(env, c, a).hands[w])
  {
    if w in c.hands {
      if a.Assign? || a.Revoke? || a.Poll? {
        NextMoves(env, c, a, w);
      } else {
        FlightMoves(env, c, a, w);
      }
    }
  }

  /** A transaction that a move of the database leaves open. */
  lemma DbMoveOpen(env: Env, c: Crew, a: Move, w: nat)
    requires CrewInv(env, c) && Enabled(env, c, a) && DbAction(env, c, a).Some? && w in Next(env, c, a).sys.open
    ensures OpenFor(env, Next(env, c, a), w)
  {
    assert a.Statement? ==> a.action.worker in c.sys.open;
  }

  lemma FlightStays(env: Env, c: Crew, a: Move, w: nat)
    requires Enabled(env, c, a) && DbAction(env, c, a).None? && OpenFor(env, c, w)
    ensures var c' := Next(env, c, a);
            && w in c'.hands && c'.hands[w].flight == c.hands[w].flight && c'.sys == c.sys
            && (!a.Produce? ==> c'.logs == c.logs)
  {}

  lemma OtherMoveOpen(env: Env, c: Crew, a: Move, w: nat)
    requires CrewInv(env, c) && Enabled(env, c, a) && DbAction(env, c, a).None? && w in Next(env, c, a).sys.open
    ensures OpenFor(env, Next(env, c, a), w)
  {
    assert OpenFor(env, c, w);
    FlightStays(env, c, a, w);
    if a.Produce? {
      MoveGrows(env, c, a);
    }
  }

  lemma MoveOpen(env: Env, c: Crew, a: Move)
    requires CrewInv(env, c) && Enabled(env, c, a)
    ensures OpenOk(env, Next(env, c, a))
  {
    forall w | w in Next(env, c, a).sys.open
      ensures OpenFor(env, Next(env, c, a), w)
    {
      if DbAction(env, c, a).Some? {
        DbMoveOpen(env, c, a, w);
      } else {
        OtherMoveOpen(env, c, a, w);
      }
    }
  }

  lemma MoveOrdered(env: Env, c: Crew, a: Move)
    requires CrewInv(env, c) && Enabled(env, c, a)
    ensures Ordered(Next(env, c, a))
  {
    var c' := Next(env, c, a);
    MoveGrows(env, c, a);
    if a.Produce? {
      assert c'.order[..|c.order|] == c.order && c'.order[|c.order|] == Place(a.partition, |c.logs[a.partition]|);
    }
  }

  lemma MoveHistory(env: Env, c: Crew, a: Move)
    requires CrewInv(env, c) && Enabled(env, c, a)
    ensures var c' := Next(env, c, a); HistoryMatches(env, c'.logs, c'.applied, Changes(c'.sys.history))
  {
    var c' := Next(env, c, a);
    MoveGrows(env, c, a);
    if a.Commit? {
      var t := c.sys.open[a.worker];
      ChangesSnoc(c.sys.history, Arrival(t.change, Clock(t.ingested, t.ingested, t.ingested)));
      HistoryExtends(env, c.logs, c.applied, Changes(c.sys.history), c.hands[a.worker].flight.at, t.change);
    } else {
      assert c'.sys.history == c.sys.history && c'.applied == c.applied;
      HistoryGrows(env, c.logs, c'.logs, c.applied, Changes(c.sys.history));
    }
  }

  /** Every move keeps the invariant. */
  lemma MoveInv(env: Env, c: Crew, a: Move)
    requires CrewInv(env, c) && Enabled(env, c, a)
    ensures CrewInv(env, Next(env, c, a))
  {
    MoveOffsets(env, c, a);
    MoveOpen(env, c, a);
    MoveOrdered(env, c, a);
    MoveHistory(env, c, a);
    forall w | w in Next(env, c, a).hands
      ensures HandOk(Next(env, c, a), Next(env, c, a).hands[w])
    {
      MoveHands(env, c, a, w);
    }
  }

  lemma {:induction false} CrewRunInv(env: Env, partitions: nat, moves: seq<Move>, c: Crew)
    requires Exec(env, partitions, moves) == Some(c)
    ensures CrewInv(env, c) && ShapedCrew(c)
    decreases |moves|
  {
    if moves != [] {
      var init := moves[..|moves| - 1];
      assert ExecLast(env, partitions, moves) == Some(c);
      var before := Exec(env, partitions, init).value;
      CrewRunInv(env, partitions, init, before);
      MoveInv(env, before, moves[|moves| - 1]);
    }
  }

  /** The group never passes a message by, whoever crashes or loses a partition: below a stored offset
      each message was applied, or its dead-letter write was attempted. */
  lemma GroupSkipsNothing(env: Env, partitions: nat, moves: seq<Move>, c: Crew, at: Place)
    requires Exec(env, partitions, moves) == Some(c)
    ensures ShapedCrew(c)
    ensures InLogs(c.logs, at) && at.offset < c.committed[at.partition] ==> Done(c, at)
  {
    CrewRunInv(env, partitions, moves, c);
    if InLogs(c.logs, at) && at.offset < c.committed[at.partition] {
      assert Below(c, at.partition, c.committed[at.partition], Idle);
      assert at == Place(at.partition, at.offset);
    }
  }

  // ---------------------------------------------------------------- the database of a group

  ghost predicate AsksWithin(env: Env, logs: seq<seq<Message>>, changes: set<Change>) {
    forall at | InLogs(logs, at) && env.read(MessageAt(logs, at)).Some? ::
      env.read(MessageAt(logs, at)).value in changes
  }

  lemma FewerAsks(env: Env, logs: seq<seq<Message>>, logs': seq<seq<Message>>, changes: set<Change>)
    requires LogsGrow(logs, logs') && AsksWithin(env, logs', changes)
    ensures AsksWithin(env, logs, changes)
  {
    forall at | InLogs(logs, at) && env.read(MessageAt(logs, at)).Some?
      ensures env.read(MessageAt(logs, at)).value in changes
    {
      assert InLogs(logs', at) && MessageAt(logs', at) == MessageAt(logs, at);
    }
  }

  /** To the database a group is a number of interleaved workers. */
  lemma {:induction false} GroupInterleaves(env: Env, partitions: nat, moves: seq<Move>, c: Crew, changes: set<Change>)
    returns (actions: seq<Interleaving.Action>)
    requires Exec(env, partitions, moves) == Some(c) && AsksWithin(env, c.logs, changes)
    ensures Interleaving.Exec(actions) == Some(c.sys) && Interleaving.Within(actions, changes)
    decreases |moves|
  {
    actions := [];
    if moves != [] {
      var init, last := moves[..|moves| - 1], moves[|moves| - 1];
      assert ExecLast(env, partitions, moves) == Some(c);
      var before := Exec(env, partitions, init).value;
      CrewRunInv(env, partitions, init, before);
      MoveGrows(env, before, last);
      FewerAsks(env, before.logs, c.logs, changes);
      actions := GroupInterleaves(env, partitions, init, before, changes);
      actions := MoveInterleaves(env, before, last, actions, changes);
    }
  }

  lemma MoveInterleaves(env: Env, c: Crew, a: Move, actions: seq<Interleaving.Action>, changes: set<Change>)
    returns (actions': seq<Interleaving.Action>)
    requires CrewInv(env, c) && Enabled(env, c, a) && AsksWithin(env, c.logs, changes)
    requires Interleaving.Exec(actions) == Some(c.sys) && Interleaving.Within(actions, changes)
    ensures Interleaving.Exec(actions') == Some(Next(env, c, a).sys) && Interleaving.Within(actions', changes)
  {
    var b := DbAction(env, c, a);
    actions' := actions;
    if b.Some? {
      assert Interleaving.Enabled(c.sys, b.value);
      Interleaving.ExecStep(actions, c.sys, b.value, Next(env, c, a).sys);
      actions' := actions + [b.value];
    }
  }

  // ---------------------------------------------------------------- recovery and convergence

  /** What the theorems about messages need to know of a group. */
  function AsNode(c: Crew): Node {
    Node(c.logs, c.order, c.sys.db, c.sys.history, c.committed, c.committed, c.committed, Idle,
         c.applied, c.deadLetters, [], [], 0, {})
  }

  lemma {:induction false} GroupCopyCommitted(env: Env, c: Crew, i: nat)
    requires CrewInv(env, c) && ShapedCrew(c) && Drained(AsNode(c)) && AllReplayed(env, AsNode(c))
    requires i < |c.order| && env.read(MessageAt(c.logs, c.order[i])).Some?
    ensures Redelivery.Committed(env, AsNode(c), c.order[i])
    decreases |c.order| - i
  {
    var at := c.order[i];
    assert Below(c, at.partition, c.committed[at.partition], Idle) && at == Place(at.partition, at.offset);
    if at !in c.applied {
      assert AskedAgain(env, AsNode(c), i);
      var j :| i < j < |c.order| && env.read(MessageAt(c.logs, c.order[j])) == env.read(MessageAt(c.logs, c.order[i]));
      GroupCopyCommitted(env, c, j);
    }
  }

  /** A group that has drained its partitions, and whose valid dead letters were all asked for again, has
      lost nothing. */
  lemma GroupRecovers(env: Env, partitions: nat, moves: seq<Move>, c: Crew)
    requires Exec(env, partitions, moves) == Some(c) && Drained(AsNode(c)) && AllReplayed(env, AsNode(c))
    ensures Recovered(env, AsNode(c))
  {
    CrewRunInv(env, partitions, moves, c);
    forall at | InLogs(c.logs, at) && env.read(MessageAt(c.logs, at)).Some?
      ensures Redelivery.Committed(env, AsNode(c), at)
    {
      var i :| 0 <= i < |c.order| && c.order[i] == at;
      GroupCopyCommitted(env, c, i);
    }
  }

  /** Its committed history is then exactly what the messages ask for. */
  lemma GroupHistory(env: Env, partitions: nat, moves: seq<Move>, c: Crew)
    requires Exec(env, partitions, moves) == Some(c) && Recovered(env, AsNode(c))
    ensures forall change :: change in Changes(c.sys.history) <==> Asks(env, AsNode(c), change)
    ensures AsksWithin(env, c.logs, Changes(c.sys.history))
  {
    CrewRunInv(env, partitions, moves, c);
    forall change
      ensures change in Changes(c.sys.history) <==> Asks(env, AsNode(c), change)
    {
      if change in Changes(c.sys.history) {
        assert HasSource(env, c.logs, c.applied, change);
      }
      if Asks(env, AsNode(c), change) {
        var at :| Delivery.Carries(env, c.logs, at, change);
        assert Redelivery.Committed(env, AsNode(c), at);
        CommittedIsMatched(env, AsNode(c), Changes(c.sys.history), at, change);
      }
    }
    forall at | InLogs(c.logs, at) && env.read(MessageAt(c.logs, at)).Some?
      ensures env.read(MessageAt(c.logs, at)).value in Changes(c.sys.history)
    {
      assert Delivery.Carries(env, c.logs, at, env.read(MessageAt(c.logs, at)).value);
    }
  }

  /** And its tables are those of the history. */
  lemma RecoveredGroup(env: Env, partitions: nat, moves: seq<Move>, c: Crew)
    requires Exec(env, partitions, moves) == Some(c) && Recovered(env, AsNode(c))
    requires StableIdentity(LedgerEvents(Changes(c.sys.history)))
    ensures Faithful(c.sys.db, c.sys.history)
  {
    GroupHistory(env, partitions, moves, c);
    var actions := GroupInterleaves(env, partitions, moves, c, Changes(c.sys.history));
    Interleaving.InterleavedRunIsFaithful(actions, c.sys, Changes(c.sys.history));
  }

  /** A group of workers ends as one consumer: whatever crashed, was rebalanced, redelivered or replayed,
      and however the workers' statements interleaved, a recovered group holds the rows of a recovered
      single consumer whose messages ask for the same changes. The answer for a transaction is the
      same exactly if it is a PAYMENT or RECEIVE, or is not shown as part of an order, or both
      indexes know the RECEIVE leg of its order or neither does. */
  lemma GroupIsOneConsumer(
    env: Env, partitions: nat, moves: seq<Move>, c: Crew, partitions': nat, actions: seq<Action>, n: Node, txId: string)
    requires Exec(env, partitions, moves) == Some(c) && Recovered(env, AsNode(c))
    requires Delivery.Exec(env, partitions', actions) == Some(n) && Recovered(env, n)
    requires forall change :: Asks(env, AsNode(c), change) <==> Asks(env, n, change)
    requires Admissible(Changes(c.sys.history))
    ensures Contents(c.sys.db.ledger) == Contents(n.db.ledger) && Contents(c.sys.db.orders) == Contents(n.db.orders)
    ensures Keyed(c.sys.db.ledger) && Keyed(n.db.ledger)
    ensures AnswerTx(c.sys.db, txId) == AnswerTx(n.db, txId) <==> SameReceiveIndexed(c.sys.db, n.db, txId)
  {
    GroupHistory(env, partitions, moves, c);
    RecoveredGroup(env, partitions, moves, c);
    RecoveredHistory(env, partitions', actions, n);
    assert Changes(c.sys.history) == Changes(n.history);
    SerialRunIsFaithful(n.history, n.db);
    TablesConverge(c.sys.db, c.sys.history, n.db, n.history);
    AnswersConvergeIff(c.sys.db, c.sys.history, n.db, n.history, txId);
  }

  /** So do two groups. */
  lemma GroupsConverge(
    env: Env, partitions: nat, moves: seq<Move>, c: Crew, partitions': nat, moves': seq<Move>, c': Crew, txId: string)
    requires Exec(env, partitions, moves) == Some(c) && Recovered(env, AsNode(c))
    requires Exec(env, partitions', moves') == Some(c') && Recovered(env, AsNode(c'))
    requires forall change :: Asks(env, AsNode(c), change) <==> Asks(env, AsNode(c'), change)
    requires Admissible(Changes(c.sys.history))
    ensures Contents(c.sys.db.ledger) == Contents(c'.sys.db.ledger)
    ensures Contents(c.sys.db.orders) == Contents(c'.sys.db.orders)
    ensures Keyed(c.sys.db.ledger) && Keyed(c'.sys.db.ledger)
    ensures AnswerTx(c.sys.db, txId) == AnswerTx(c'.sys.db, txId) <==> SameReceiveIndexed(c.sys.db, c'.sys.db, txId)
  {
    GroupHistory(env, partitions, moves, c);
    GroupHistory(env, partitions', moves', c');
    assert Changes(c.sys.history) == Changes(c'.sys.history);
    RecoveredGroup(env, partitions, moves, c);
    RecoveredGroup(env, partitions', moves', c');
    TablesConverge(c.sys.db, c.sys.history, c'.sys.db, c'.sys.history);
    AnswersConvergeIff(c.sys.db, c.sys.history, c'.sys.db, c'.sys.history, txId);
  }
}
