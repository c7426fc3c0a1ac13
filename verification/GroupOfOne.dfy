/**
 A group may consist of one worker, and then can do whatever a single consumer can: every run of the
 delivery machine is a run of a group, statement by statement, with the same rows and offsets.
 */
module GroupOfOne {
  import opened Wrappers
  import opened LatestWins
  import opened Pairing
  import opened Store
  import opened History
  import opened SerialRuns
  import opened Dlq
  import opened Delivery
  import Group
  import Interleaving
  import Embedding

  const ONE: nat := 0

  /** The worker reads every partition, at the consumer's positions. */
  ghost predicate Reads(next: map<nat, nat>, position: seq<nat>) {
    && (forall p: nat :: p in next <==> p < |position|)
    && forall p: nat | p < |position| :: next[p] == position[p]
  }

  /** The group's one worker is where the consumer is. */
  ghost predicate Same(n: Node, c: Group.Crew) {
    && c.logs == n.logs && c.order == n.order && c.committed == n.committed
    && c.applied == n.applied && c.deadLetters == n.deadLetters
    && c.sys.db == n.db && c.sys.open == map[] && Changes(c.sys.history) == Changes(n.history)
    && c.hands.Keys == {ONE} && c.hands[ONE].flight == n.flight && Reads(c.hands[ONE].next, n.position)
    && Requested(n, c.requests)
  }

  /** What the consumer has asked the broker for, the group has too. */
  ghost predicate Requested(n: Node, requests: set<Place>) {
    && |n.asked| == |n.committed| == |n.logs| == |n.position|
    && forall p: nat | p < |n.logs| :: n.asked[p] == n.committed[p] || Place(p, n.asked[p]) in requests
  }

  lemma SameIsShaped(n: Node, c: Group.Crew)
    requires Shaped(n) && Same(n, c)
    ensures Group.ShapedCrew(c)
  {}

  lemma Does(env: Env, partitions: nat, moves: seq<Group.Move>, c: Group.Crew, a: Group.Move)
    requires Group.Exec(env, partitions, moves) == Some(c) && Group.Enabled(env, c, a)
    ensures Group.Exec(env, partitions, moves + [a]) == Some(Group.Next(env, c, a))
  {
    assert (moves + [a])[..|moves|] == moves && (moves + [a])[|moves|] == a;
    assert Group.ExecLast(env, partitions, moves + [a]) == Some(Group.Next(env, c, a));
  }

  // ---------------------------------------------------------------- joining

  /** A worker that has joined and has the first `k` partitions assigned to it, at the stored offsets. */
  function Joined(c: Group.Crew, k: nat): Group.Crew
    requires k <= |c.committed|
  {
    c.(hands := map[ONE := Group.Hand(map p: nat | p < k :: c.committed[p], Idle)])
  }

  lemma Joins(env: Env, partitions: nat, moves: seq<Group.Move>, c: Group.Crew)
    returns (moves': seq<Group.Move>)
    requires Group.Exec(env, partitions, moves) == Some(c) && Group.ShapedCrew(c) && c.hands == map[]
    ensures Group.Exec(env, partitions, moves') == Some(Joined(c, |c.logs|))
  {
    Does(env, partitions, moves, c, Group.Move.Join(ONE));
    assert Group.Next(env, c, Group.Move.Join(ONE)) == Joined(c, 0);
    moves' := AssignsUpTo(env, partitions, moves + [Group.Move.Join(ONE)], c, |c.logs|);
  }

  lemma AssignsUpTo(env: Env, partitions: nat, moves: seq<Group.Move>, c: Group.Crew, k: nat)
    returns (moves': seq<Group.Move>)
    requires Group.ShapedCrew(c) && c.hands == map[] && k <= |c.logs|
    requires Group.Exec(env, partitions, moves) == Some(Joined(c, 0))
    ensures Group.Exec(env, partitions, moves') == Some(Joined(c, k))
  {
    moves' := moves;
    if k > 0 {
      moves' := AssignsUpTo(env, partitions, moves, c, k - 1);
      AssignsNext(env, c, k - 1);
      Does(env, partitions, moves', Joined(c, k - 1), Group.Move.Assign(ONE, k - 1));
      moves' := moves' + [Group.Move.Assign(ONE, k - 1)];
    }
  }

  lemma AssignsNext(env: Env, c: Group.Crew, k: nat)
    requires Group.ShapedCrew(c) && c.hands == map[] && k < |c.logs|
    ensures Group.ShapedCrew(Joined(c, k))
    ensures Group.Next(env, Joined(c, k), Group.Move.Assign(ONE, k)) == Joined(c, k + 1)
  {
    var next := Joined(c, k).hands[ONE].next;
    assert next[k := c.committed[k]] == Joined(c, k + 1).hands[ONE].next;
    assert Joined(c, k).hands[ONE := Group.Hand(next[k := c.committed[k]], Idle)] == Joined(c, k + 1).hands;
  }

  // ---------------------------------------------------------------- the consumer's steps

  /** The group's move for a step that is neither a transaction, a restart, nor nothing to the group. */
  function MoveFor(env: Env, n: Node, a: Action): Group.Move
    requires Shaped(n)
  {
    match a
    case Produce(p, message) => Group.Move.Produce(p, message)
    case Republish(i, backend, p) =>
      Group.Move.Produce(p,
          if Copy(env, n, i, backend).Some? then Copy(env, n, i, backend).value else Message("", None))
    case Poll(p) => Group.Move.Poll(ONE, p)
    case Fail => Group.Move.Fail(ONE)
    case CommitOffset => Group.Move.CommitOffset(ONE)
    case CommitRaises => Group.Move.CommitRaises(ONE)
    case DeadLetter(_, _) => Group.Move.DeadLetter(ONE)
    case BrokerStores(p) => Group.Move.BrokerStores(Place(p, if p < |n.asked| then n.asked[p] else 0))
    case _ => Group.Move.Crash(ONE)
  }

  lemma LogMove(env: Env, n: Node, c: Group.Crew, a: Action)
    requires Shaped(n) && Same(n, c) && Enabled(env, n, a) && (a.Produce? || a.Republish?)
    ensures Group.Enabled(env, c, MoveFor(env, n, a)) && Same(Next(env, n, a), Group.Next(env, c, MoveFor(env, n, a)))
  {
    var n', c' := Next(env, n, a), Group.Next(env, c, MoveFor(env, n, a));
    assert |n'.logs| == |n.logs|;
  }

  lemma PollMove(env: Env, n: Node, c: Group.Crew, p: nat)
    requires Shaped(n) && Same(n, c) && Enabled(env, n, Poll(p))
    ensures Group.Enabled(env, c, Group.Move.Poll(ONE, p))
    ensures Same(Next(env, n, Poll(p)), Group.Next(env, c, Group.Move.Poll(ONE, p)))
  {
    assert p in c.hands[ONE].next && c.hands[ONE].next[p] == n.position[p];
  }

  lemma FlightMove(env: Env, n: Node, c: Group.Crew, a: Action)
    requires Shaped(n) && Same(n, c) && Enabled(env, n, a) && (a.Fail? || a.CommitRaises? || a.DeadLetter?)
    ensures Group.Enabled(env, c, MoveFor(env, n, a)) && Same(Next(env, n, a), Group.Next(env, c, MoveFor(env, n, a)))
  {}

  lemma OffsetMove(env: Env, n: Node, c: Group.Crew)
    requires Shaped(n) && Same(n, c) && Enabled(env, n, CommitOffset)
    ensures Group.Enabled(env, c, Group.Move.CommitOffset(ONE))
    ensures Same(Next(env, n, CommitOffset), Group.Next(env, c, Group.Move.CommitOffset(ONE)))
  {
    var n', c' := Next(env, n, CommitOffset), Group.Next(env, c, Group.Move.CommitOffset(ONE));
    var at := n.flight.at;
    assert Place(at.partition, at.offset + 1) in c'.requests;
    forall p: nat | p < |n'.logs|
      ensures n'.asked[p] == n'.committed[p] || Place(p, n'.asked[p]) in c'.requests
    {
      assert p != at.partition ==> n'.asked[p] == n.asked[p];
    }
  }

  /** The broker stores what was asked for; if it has it already, nothing happens. */
  lemma StoreMove(env: Env, n: Node, c: Group.Crew, p: nat)
    requires Shaped(n) && Same(n, c) && Enabled(env, n, BrokerStores(p))
    ensures var a, n' := Group.Move.BrokerStores(Place(p, n.asked[p])), Next(env, n, BrokerStores(p));
            if n.asked[p] == n.committed[p] then Same(n', c)
            else Group.Enabled(env, c, a) && Same(n', Group.Next(env, c, a))
  {
    assert n.asked[p] == n.committed[p] ==> n.committed[p := n.asked[p]] == n.committed;
  }

  /** A step that is one move of the group, or none. */
  lemma OneMove(env: Env, partitions: nat, moves: seq<Group.Move>, c: Group.Crew, n: Node, a: Action)
    returns (moves': seq<Group.Move>, c': Group.Crew)
    requires Group.Exec(env, partitions, moves) == Some(c) && Shaped(n) && Same(n, c)
    requires Enabled(env, n, a) && !a.Handle? && !a.Restart?
    ensures Group.Exec(env, partitions, moves') == Some(c') && Same(Next(env, n, a), c')
  {
    moves', c' := moves, c;
    var move := MoveFor(env, n, a);
    match a {
      case Prune(_) => return;
      case BrokerStores(p) =>
        StoreMove(env, n, c, p);
        if n.asked[p] == n.committed[p] {
          return;
        }
      case Poll(p) => PollMove(env, n, c, p);
      case CommitOffset => OffsetMove(env, n, c);
      case Produce(_, _) => LogMove(env, n, c, a);
      case Republish(_, _, _) => LogMove(env, n, c, a);
      case _ => FlightMove(env, n, c, a);
    }
    Does(env, partitions, moves, c, move);
    moves', c' := moves + [move], Group.Next(env, c, move);
  }

  /** The process ends and starts again: the worker crashes, joins and gets all partitions back. */
  lemma RestartMoves(env: Env, partitions: nat, moves: seq<Group.Move>, c: Group.Crew, n: Node)
    returns (moves': seq<Group.Move>, c': Group.Crew)
    requires Group.Exec(env, partitions, moves) == Some(c) && Shaped(n) && Same(n, c)
    ensures Group.Exec(env, partitions, moves') == Some(c') && Same(Next(env, n, Restart), c')
  {
    SameIsShaped(n, c);
    var crash := Group.Move.Crash(ONE);
    Does(env, partitions, moves, c, crash);
    var gone := Group.Next(env, c, crash);
    assert gone == c.(hands := map[]);
    moves' := Joins(env, partitions, moves + [crash], gone);
    c' := Joined(gone, |gone.logs|);
  }

  // ---------------------------------------------------------------- a transaction, statement by statement

  lemma LastAction(actions: seq<Interleaving.Action>, a: Interleaving.Action, s': Interleaving.Sys)
    returns (s: Interleaving.Sys)
    requires Interleaving.Exec(actions + [a]) == Some(s')
    ensures Interleaving.Exec(actions) == Some(s) && Interleaving.Enabled(s, a) && s' == Interleaving.Next(s, a)
  {
    assert (actions + [a])[..|actions|] == actions;
    assert Interleaving.ExecLast(actions + [a]) == Some(s');
    s := Interleaving.Exec(actions).value;
  }

  /** Statements of an open transaction are moves of the group. */
  lemma {:induction false} StatementMoves(
    env: Env, partitions: nat, moves: seq<Group.Move>, c: Group.Crew, actions: seq<Interleaving.Action>,
    more: seq<Interleaving.Action>, s': Interleaving.Sys)
    returns (moves': seq<Group.Move>)
    requires Group.Exec(env, partitions, moves) == Some(c) && Group.ShapedCrew(c)
    requires Interleaving.Exec(actions) == Some(c.sys) && Interleaving.Exec(actions + more) == Some(s')
    requires Embedding.Statements(more, ONE)
    ensures Group.Exec(env, partitions, moves') == Some(c.(sys := s'))
    decreases |more|
  {
    moves' := moves;
    if more == [] {
      assert actions + more == actions;
      assert c.(sys := s') == c;
    } else {
      var init, last := more[..|more| - 1], more[|more| - 1];
      assert actions + more == (actions + init) + [last];
      var s := LastAction(actions + init, last, s');
      moves' := StatementMoves(env, partitions, moves, c, actions, init, s);
      assert Embedding.Statement(last, ONE);
      Does(env, partitions, moves', c.(sys := s), Group.Move.Statement(last));
      moves' := moves' + [Group.Move.Statement(last)];
    }
  }

  /** Begin, the statements, and the commit. */
  lemma TransactionMoves(
    env: Env, partitions: nat, moves: seq<Group.Move>, c: Group.Crew, actions: seq<Interleaving.Action>,
    more: seq<Interleaving.Action>, change: Change, s': Interleaving.Sys)
    returns (moves': seq<Group.Move>)
    requires Group.Exec(env, partitions, moves) == Some(c) && Group.ShapedCrew(c)
    requires ONE in c.hands && c.hands[ONE].flight.Polled?
    requires ONE !in c.sys.open && Group.AskedOf(env, c, ONE) == Some(change)
    requires Interleaving.Exec(actions) == Some(c.sys) && Interleaving.Exec(actions + more) == Some(s')
    requires Embedding.OneTransaction(more, ONE, change)
    ensures var at := c.hands[ONE].flight.at;
            Group.Exec(env, partitions, moves')
            == Some(c.(sys := s', hands := c.hands[ONE := c.hands[ONE].(flight := Applied(at))],
                  applied := c.applied + {at}))
  {
    var begin, rest := more[0], more[1..];
    var middle, commit := rest[..|rest| - 1], rest[|rest| - 1];
    assert actions + more == ((actions + [begin]) + middle) + [commit];
    var s2 := LastAction((actions + [begin]) + middle, commit, s');
    var c1 := c.(sys := Interleaving.Next(c.sys, begin));
    Does(env, partitions, moves, c, Group.Move.Begin(ONE));
    Interleaving.ExecStep(actions, c.sys, begin, c1.sys);
    moves' := StatementMoves(env, partitions, moves + [Group.Move.Begin(ONE)], c1, actions + [begin], middle, s2);
    Does(env, partitions, moves', c1.(sys := s2), Group.Move.Commit(ONE));
    moves' := moves' + [Group.Move.Commit(ONE)];
  }

  /** The group after its worker's transaction. */
  function Transacted(c: Group.Crew, after: Db, change: Change, ingested: int): Group.Crew
    requires ONE in c.hands && !c.hands[ONE].flight.Idle?
  {
    var at := c.hands[ONE].flight.at;
    c.(sys := Embedding.Done(c.sys, after, change, ingested),
       hands := c.hands[ONE := c.hands[ONE].(flight := Applied(at))], applied := c.applied + {at})
  }

  lemma TransactedIsSame(env: Env, c: Group.Crew, n: Node, clock: Clock, after: Db)
    requires Shaped(n) && Same(n, c) && Enabled(env, n, Handle(clock, after))
    ensures Same(Next(env, n, Handle(clock, after)), Transacted(c, after, Asked(env, n).value, clock.ingested))
  {
    var change := Asked(env, n).value;
    ChangesSnoc(c.sys.history, Arrival(change, Clock(clock.ingested, clock.ingested, clock.ingested)));
    ChangesSnoc(n.history, Arrival(change, clock));
  }

  lemma HandleMoves(
    env: Env, partitions: nat, moves: seq<Group.Move>, c: Group.Crew,
    n: Node, clock: Clock, after: Db, changes: set<Change>)
    returns (moves': seq<Group.Move>, c': Group.Crew)
    requires Group.Exec(env, partitions, moves) == Some(c) && Shaped(n) && Same(n, c)
    requires Enabled(env, n, Handle(clock, after)) && Group.AsksWithin(env, c.logs, changes)
    ensures Group.Exec(env, partitions, moves') == Some(c') && Same(Next(env, n, Handle(clock, after)), c')
  {
    SameIsShaped(n, c);
    var change := Asked(env, n).value;
    var actions := Group.GroupInterleaves(env, partitions, moves, c, changes);
    var more := Embedding.Transact(actions, c.sys, ONE, change, clock, after);
    c' := Transacted(c, after, change, clock.ingested);
    moves' := TransactionMoves(env, partitions, moves, c, actions, more, change, c'.sys);
    TransactedIsSame(env, c, n, clock, after);
  }

  // ---------------------------------------------------------------- whole runs

  /** Every run of the single consumer is one of a group of one worker: the same messages are applied and
      dead-lettered, the same offsets stored, and the tables are the same. */
  lemma {:induction false} ConsumerIsAGroup(env: Env, partitions: nat, actions: seq<Action>, n: Node)
    returns (moves: seq<Group.Move>, c: Group.Crew)
    requires Exec(env, partitions, actions) == Some(n)
    ensures Group.Exec(env, partitions, moves) == Some(c) && Same(n, c) && Shaped(n)
    decreases |actions|
  {
    if actions == [] {
      var c0 := Group.Gathered(partitions);
      moves := Joins(env, partitions, [], c0);
      c := Joined(c0, |c0.logs|);
    } else {
      var init, last := actions[..|actions| - 1], actions[|actions| - 1];
      assert ExecLast(env, partitions, actions) == Some(n);
      var before := Exec(env, partitions, init).value;
      var first, c0 := ConsumerIsAGroup(env, partitions, init, before);
      RunInv(env, partitions, actions, n);
      match last {
        case Handle(clock, after) =>
          var changes := EverythingAsked(env, c0.logs);
          moves, c := HandleMoves(env, partitions, first, c0, before, clock, after, changes);
        case Restart => moves, c := RestartMoves(env, partitions, first, c0, before);
        case _ => moves, c := OneMove(env, partitions, first, c0, before, last);
      }
    }
  }

  lemma EverythingAsked(env: Env, logs: seq<seq<Message>>) returns (changes: set<Change>)
    ensures Group.AsksWithin(env, logs, changes)
  {
    changes := {};
    for p := 0 to |logs|
      invariant forall at | InLogs(logs, at) && at.partition < p && env.read(MessageAt(logs, at)).Some? ::
                  env.read(MessageAt(logs, at)).value in changes
    {
      for k := 0 to |logs[p]|
        invariant forall at | InLogs(logs, at) && (at.partition < p || (at.partition == p && at.offset < k))
                              && env.read(MessageAt(logs, at)).Some? :: env.read(MessageAt(logs, at)).value in changes
      {
        var asked := env.read(logs[p][k]);
        if asked.Some? {
          changes := changes + {asked.value};
        }
      }
    }
  }
}
