/**
 The conditional upsert every table is written with (src/db/upsert.py).

 The statement builder produces a SQL predicate over the incoming and the stored row.
 `Accepts` is the decision it denotes; `Put` and `Fold` are its effect on a table, and
 the theorems say what a whole stream of upserts leaves behind.
 */
module LatestWins {
  import opened Wrappers

  // ---------------------------------------------------------------- SQL predicates

  /** SQL's three truth values. */
  datatype Truth = Yes | No | Unknown

  function Both(a: Truth, b: Truth): Truth {
    if a == No || b == No then No else if a == Unknown || b == Unknown then Unknown else Yes
  }

  function Either(a: Truth, b: Truth): Truth {
    if a == Yes || b == Yes then Yes else if a == Unknown || b == Unknown then Unknown else No
  }

  datatype Column = UpdatedAt | SourceVersion | IngestedAt

  datatype Predicate =
    | IncomingIsNull(column: Column)
    | IncomingIsNotNull(column: Column)
    | ExistingIsNull(column: Column)
    | IncomingNotBefore(column: Column) // incoming.column >= existing.column
    | AllOf(parts: seq<Predicate>)
    | AnyOf(parts: seq<Predicate>)

  /** The columns of a row that the guard reads; `None` is SQL NULL. */
  datatype Stamp = Stamp(updatedAt: Option<int>, version: Option<int>, ingestedAt: Option<int>)
  {
    function Read(column: Column): Option<int> {
      match column
      case UpdatedAt => updatedAt
      case SourceVersion => version
      case IngestedAt => ingestedAt
    }
  }

  function Known(b: bool): Truth { if b then Yes else No }

  /** SQL evaluation: a comparison with NULL is Unknown. */
  function Eval(p: Predicate, incoming: Stamp, existing: Stamp): Truth
    decreases p, 1
  {
    match p
    case IncomingIsNull(c) => Known(incoming.Read(c).None?)
    case IncomingIsNotNull(c) => Known(incoming.Read(c).Some?)
    case ExistingIsNull(c) => Known(existing.Read(c).None?)
    case IncomingNotBefore(c) =>
      if incoming.Read(c).None? || existing.Read(c).None? then Unknown
      else Known(incoming.Read(c).value >= existing.Read(c).value)
    case AllOf(parts) => EvalAll(parts, incoming, existing)
    case AnyOf(parts) => EvalAny(parts, incoming, existing)
  }

  function EvalAll(ps: seq<Predicate>, incoming: Stamp, existing: Stamp): Truth
    decreases ps, 0
  {
    if ps == [] then Yes else Both(Eval(ps[0], incoming, existing), EvalAll(ps[1..], incoming, existing))
  }

  function EvalAny(ps: seq<Predicate>, incoming: Stamp, existing: Stamp): Truth
    decreases ps, 0
  {
    if ps == [] then No else Either(Eval(ps[0], incoming, existing), EvalAny(ps[1..], incoming, existing))
  }

  /** What the guard means: `updated_at` decides if the incoming row has one, else the
      version if the table and the incoming row have one, else arrival time, and then only
      against a stored row that carries no metadata either. */
  predicate Accepts(incoming: Stamp, existing: Stamp, versioned: bool) {
    if incoming.updatedAt.Some? then
      existing.updatedAt.None? || incoming.updatedAt.value >= existing.updatedAt.value
    else if versioned && incoming.version.Some? then
      existing.version.None? || incoming.version.value >= existing.version.value
    else
      && existing.updatedAt.None?
      && (versioned ==> existing.version.None?)
      && incoming.ingestedAt.Some? && existing.ingestedAt.Some?
      && incoming.ingestedAt.value >= existing.ingestedAt.value
  }

  /** Unrolls a conjunction or disjunction of two or three parts. */
  lemma EvalUnrolled(ps: seq<Predicate>, i: Stamp, e: Stamp)
    requires 2 <= |ps| <= 3
    ensures EvalAll(ps, i, e)
            == Both(Eval(ps[0], i, e), Both(Eval(ps[1], i, e), if |ps| == 2 then Yes else Eval(ps[2], i, e)))
    ensures EvalAny(ps, i, e)
            == Either(Eval(ps[0], i, e), Either(Eval(ps[1], i, e), if |ps| == 2 then No else Eval(ps[2], i, e)))
  {
    assert EvalAll(ps[2..], i, e) == if |ps| == 2 then Yes else Both(Eval(ps[2], i, e), EvalAll(ps[2..][1..], i, e));
    assert EvalAny(ps[2..], i, e) == if |ps| == 2 then No else Either(Eval(ps[2], i, e), EvalAny(ps[2..][1..], i, e));
    assert ps[1..][1..] == ps[2..];
  }

  /** A conjunction of known truth values, for the guard's longest clause. */
  lemma {:induction false} AllKnown(ps: seq<Predicate>, i: Stamp, e: Stamp)
    requires forall k | 0 <= k < |ps| :: Eval(ps[k], i, e) != Unknown
    ensures EvalAll(ps, i, e) == Known(forall k | 0 <= k < |ps| :: Eval(ps[k], i, e) == Yes)
  {
    if ps != [] {
      AllKnown(ps[1..], i, e);
      assert forall k | 1 <= k < |ps| :: ps[k] == ps[1..][k - 1];
      assert (forall k | 0 <= k < |ps| :: Eval(ps[k], i, e) == Yes)
        <==> Eval(ps[0], i, e) == Yes && forall k | 0 <= k < |ps[1..]| :: Eval(ps[1..][k], i, e) == Yes;
    }
  }

  function NotOlder(column: Column): Predicate {
    AnyOf([ExistingIsNull(column), IncomingNotBefore(column)])
  }

  function TimeClause(): Predicate {
    AllOf([IncomingIsNotNull(UpdatedAt), NotOlder(UpdatedAt)])
  }

  lemma TimeClauseMeans(i: Stamp, e: Stamp)
    ensures Eval(TimeClause(), i, e)
            == Known(i.updatedAt.Some? && (e.updatedAt.None? || i.updatedAt.value >= e.updatedAt.value))
  {}

  function VersionClause(): Predicate {
    AllOf([IncomingIsNull(UpdatedAt), IncomingIsNotNull(SourceVersion), NotOlder(SourceVersion)])
  }

  lemma VersionClauseMeans(i: Stamp, e: Stamp)
    ensures Eval(VersionClause(), i, e)
            == Known(i.updatedAt.None? && i.version.Some? && (e.version.None? || i.version.value >= e.version.value))
  {}

  function FallbackChecks(versioned: bool): seq<Predicate> {
    if versioned then
      [IncomingIsNull(UpdatedAt), IncomingIsNull(SourceVersion), ExistingIsNull(UpdatedAt),
       ExistingIsNull(SourceVersion), IncomingNotBefore(IngestedAt)]
    else
      [IncomingIsNull(UpdatedAt), ExistingIsNull(UpdatedAt), IncomingNotBefore(IngestedAt)]
  }

  lemma FallbackMeans(versioned: bool, i: Stamp, e: Stamp)
    requires i.ingestedAt.Some? && e.ingestedAt.Some?
    ensures EvalAll(FallbackChecks(versioned), i, e)
            == Known(&& i.updatedAt.None? && e.updatedAt.None? && i.ingestedAt.value >= e.ingestedAt.value
                     && (versioned ==> i.version.None? && e.version.None?))
  {
    var ps := FallbackChecks(versioned);
    AllKnown(ps, i, e);
    assert ps[0] == IncomingIsNull(UpdatedAt) && ps[|ps| - 1] == IncomingNotBefore(IngestedAt);
    assert ps[|ps| - 2] == if versioned then ExistingIsNull(SourceVersion) else ExistingIsNull(UpdatedAt);
    assert versioned ==> ps[1] == IncomingIsNull(SourceVersion) && ps[2] == ExistingIsNull(UpdatedAt);
  }

  lemma GuardMeans(conditions: seq<Predicate>, versioned: bool, i: Stamp, e: Stamp)
    requires conditions
            == [TimeClause()] + (if versioned then [VersionClause()] else []) + [AllOf(FallbackChecks(versioned))]
    requires i.ingestedAt.Some? && e.ingestedAt.Some?
    ensures Eval(AnyOf(conditions), i, e) == Known(Accepts(i, e, versioned))
  {
    EvalUnrolled(conditions, i, e);
    TimeClauseMeans(i, e);
    VersionClauseMeans(i, e);
    FallbackMeans(versioned, i, e);
    assert Eval(AllOf(FallbackChecks(versioned)), i, e) == EvalAll(FallbackChecks(versioned), i, e);
  }

  /** The statement builder. The predicate it returns is never Unknown on rows whose
      NOT NULL arrival time is set, and it is true exactly when the guard accepts. */
  method BuildPredicate(columns: set<Column>) returns (guard: Option<Predicate>)
    ensures guard.Some? <==> UpdatedAt in columns && IngestedAt in columns
    ensures guard.Some? ==>
              forall incoming: Stamp, existing: Stamp
                | incoming.ingestedAt.Some? && existing.ingestedAt.Some? ::
                Eval(guard.value, incoming, existing)
                == Known(Accepts(incoming, existing, SourceVersion in columns))
  {
    guard := None;
    if UpdatedAt in columns && IngestedAt in columns {
      var conditions := [TimeClause()];
      if SourceVersion in columns {
        conditions := conditions + [VersionClause()];
      }
      var fallbackChecks := [IncomingIsNull(UpdatedAt)];
      if SourceVersion in columns {
        fallbackChecks := fallbackChecks + [IncomingIsNull(SourceVersion)];
      }
      fallbackChecks := fallbackChecks + [ExistingIsNull(UpdatedAt)];
      if SourceVersion in columns {
        fallbackChecks := fallbackChecks + [ExistingIsNull(SourceVersion)];
      }
      fallbackChecks := fallbackChecks + [IncomingNotBefore(IngestedAt)];
      assert fallbackChecks == FallbackChecks(SourceVersion in columns);
      conditions := conditions + [AllOf(fallbackChecks)];
      guard := Some(AnyOf(conditions));

      forall i: Stamp, e: Stamp | i.ingestedAt.Some? && e.ingestedAt.Some?
        ensures Eval(guard.value, i, e) == Known(Accepts(i, e, SourceVersion in columns))
      {
        GuardMeans(conditions, SourceVersion in columns, i, e);
      }
    }
  }

  // ---------------------------------------------------------------- tables of versioned rows

  /** One upsert event for the row `key`; `body` holds the columns the guard does not read. */
  datatype Event<+T> = Event(key: string, body: T, updatedAt: Option<int>, version: Option<int>)

  /** A stored (or arriving) row: the event and the clock reading taken when it was handled. */
  datatype Row<+T> = Row(event: Event<T>, ingestedAt: int)

  function StampOf<T>(row: Row<T>): Stamp {
    Stamp(row.event.updatedAt, row.event.version, Some(row.ingestedAt))
  }

  predicate HasMetadata<T>(e: Event<T>) {
    e.updatedAt.Some? || e.version.Some?
  }

  predicate Replaces<T>(incoming: Row<T>, existing: Row<T>) {
    Accepts(StampOf(incoming), StampOf(existing), true)
  }

  /** INSERT ... ON CONFLICT (key) DO UPDATE ... WHERE guard. */
  function Put<T>(table: map<string, Row<T>>, incoming: Row<T>): map<string, Row<T>> {
    var key := incoming.event.key;
    if key in table && !Replaces(incoming, table[key]) then table else table[key := incoming]
  }

  /** The table left by a stream of upserts. */
  function Fold<T>(log: seq<Row<T>>): map<string, Row<T>> {
    if log == [] then map[] else Put(Fold(log[..|log| - 1]), log[|log| - 1])
  }

  ghost function EventsOf<T>(log: seq<Row<T>>): set<Event<T>> {
    set row | row in log :: row.event
  }

  /** The table without the clock-written arrival column. */
  ghost function Contents<T>(table: map<string, Row<T>>): map<string, Event<T>> {
    map key | key in table :: table[key].event
  }

  ghost predicate Keyed<T>(table: map<string, Row<T>>) {
    forall key | key in table :: table[key].event.key == key
  }

  /** `a` arriving no earlier than `b` was stored replaces it. */
  predicate Beats<T>(a: Event<T>, b: Event<T>) {
    Replaces(Row(a, 0), Row(b, 0))
  }

  lemma ReplacesIsBeats<T>(a: Row<T>, b: Row<T>)
    ensures Replaces(a, b) ==> Beats(a.event, b.event)
    ensures Beats(a.event, b.event) && (HasMetadata(a.event) || a.ingestedAt >= b.ingestedAt) ==> Replaces(a, b)
  {}

  ghost predicate Occurs<T>(key: string, events: set<Event<T>>) {
    exists e :: e in events && e.key == key
  }

  /** A table holds, for exactly the keys that arrived, an event that arrived. */
  lemma {:induction false} FoldOfLog<T>(log: seq<Row<T>>)
    ensures Keyed(Fold(log))
    ensures forall key :: key in Fold(log) <==> Occurs(key, EventsOf(log))
    ensures forall key | key in Fold(log) :: Fold(log)[key] in log
  {
    if log != [] {
      var init, last := log[..|log| - 1], log[|log| - 1];
      FoldOfLog(init);
      assert log == init + [last];
      assert EventsOf(log) == EventsOf(init) + {last.event};
      forall key
        ensures Occurs(key, EventsOf(log)) <==> key == last.event.key || Occurs(key, EventsOf(init))
      {
        assert last.event in EventsOf(log);
      }
    }
  }

  // ---------------------------------------------------------------- dominant events

  /** `w` replaces every other event of its key, and none of them replaces it. */
  ghost predicate Dominates<T(!new)>(w: Event<T>, events: set<Event<T>>) {
    && w in events
    && forall e | e in events && e.key == w.key :: Beats(w, e) && (Beats(e, w) ==> e == w)
  }

  /** Every key has a dominant event: a finite check on pairs of events. */
  ghost predicate Decided<T(!new)>(events: set<Event<T>>) {
    forall key | Occurs(key, events) :: HasDominant(key, events)
  }

  ghost predicate HasDominant<T(!new)>(key: string, events: set<Event<T>>) {
    exists w: Event<T> :: w.key == key && Dominates(w, events)
  }

  lemma {:induction false} FoldKeepsDominant<T(!new)>(log: seq<Row<T>>, events: set<Event<T>>, w: Event<T>)
    requires EventsOf(log) <= events && Dominates(w, events) && w in EventsOf(log)
    ensures w.key in Fold(log) && Fold(log)[w.key].event == w
  {
    var init, last := log[..|log| - 1], log[|log| - 1];
    assert log == init + [last];
    assert EventsOf(log) == EventsOf(init) + {last.event};
    FoldOfLog(init);
    if w.key in Fold(init) {
      var row := Fold(init)[w.key];
      assert row.event in EventsOf(init);
      ReplacesIsBeats(last, row);
      if w in EventsOf(init) {
        FoldKeepsDominant(init, events, w);
      } else {
        assert last.event == w && Beats(w, row.event);
        if !HasMetadata(w) {
          // then the stored event is bare too, and would beat w back
          assert Beats(row.event, w);
        }
      }
    }
  }

  lemma DominantInBoth<T(!new)>(log: seq<Row<T>>, log': seq<Row<T>>, key: string)
    requires EventsOf(log) == EventsOf(log') && Decided(EventsOf(log)) && key in Fold(log)
    ensures key in Fold(log') && Fold(log')[key].event == Fold(log)[key].event
  {
    FoldOfLog(log);
    assert Fold(log)[key].event in EventsOf(log) && Occurs(key, EventsOf(log));
    assert HasDominant(key, EventsOf(log));
    var w: Event<T> :| w.key == key && Dominates(w, EventsOf(log));
    FoldKeepsDominant(log, EventsOf(log), w);
    FoldKeepsDominant(log', EventsOf(log), w);
  }

  /** Order and duplication do not matter when every key is decided; no clock hypothesis. */
  lemma Convergence<T(!new)>(log: seq<Row<T>>, log': seq<Row<T>>)
    requires EventsOf(log) == EventsOf(log') && Decided(EventsOf(log))
    ensures Contents(Fold(log)) == Contents(Fold(log'))
  {
    forall key | key in Fold(log)
      ensures key in Fold(log') && Fold(log')[key].event == Fold(log)[key].event
    {
      DominantInBoth(log, log', key);
    }
    forall key | key in Fold(log')
      ensures key in Fold(log)
    {
      DominantInBoth(log', log, key);
    }
  }

  // ---------------------------------------------------------------- exactness

  ghost predicate ClockForward<T>(log: seq<Row<T>>) {
    forall i, j | 0 <= i <= j < |log| :: log[i].ingestedAt <= log[j].ingestedAt
  }

  /** `log` delivers exactly `events`, in some order, with any repetition, while the clock never goes back. */
  ghost predicate Delivers<T>(log: seq<Row<T>>, events: set<Event<T>>) {
    EventsOf(log) == events && ClockForward(log)
  }

  ghost predicate OrderIndependent<T(!new)>(events: set<Event<T>>) {
    forall log: seq<Row<T>>, log': seq<Row<T>> | Delivers(log, events) && Delivers(log', events) ::
      Contents(Fold(log)) == Contents(Fold(log'))
  }

  ghost predicate AllAtZero<T>(log: seq<Row<T>>) {
    forall row | row in log :: row.ingestedAt == 0
  }

  /** Some log delivers the events one after the other, all at time 0. */
  lemma LogOf<T>(events: set<Event<T>>) returns (log: seq<Row<T>>)
    ensures EventsOf(log) == events && AllAtZero(log)
  {
    if events == {} {
      log := [];
    } else {
      var e :| e in events;
      var rest := LogOf(events - {e});
      log := rest + [Row(e, 0)];
      assert EventsOf(log) == EventsOf(rest) + {e};
    }
  }

  /** An event that is not stored and does not arrive again is never stored. */
  lemma {:induction false} NeverReturns<T>(prefix: seq<Row<T>>, more: seq<Row<T>>, w: Event<T>)
    requires w.key in Fold(prefix) && Fold(prefix)[w.key].event != w && w !in EventsOf(more)
    ensures w.key in Fold(prefix + more) && Fold(prefix + more)[w.key].event != w
  {
    if more == [] {
      assert prefix + more == prefix;
    } else {
      var init, last := more[..|more| - 1], more[|more| - 1];
      assert more == init + [last];
      EventsSnoc(init, last);
      NeverReturns(prefix, init, w);
      assert (prefix + more)[..|prefix + more| - 1] == prefix + init;
    }
  }

  lemma FoldSnoc<T>(log: seq<Row<T>>, row: Row<T>)
    ensures Fold(log + [row]) == Put(Fold(log), row)
  {}

  lemma EventsSnoc<T>(log: seq<Row<T>>, row: Row<T>)
    ensures EventsOf(log + [row]) == EventsOf(log) + {row.event}
  {}

  lemma EventsConcat<T>(log: seq<Row<T>>, more: seq<Row<T>>)
    ensures EventsOf(log + more) == EventsOf(log) + EventsOf(more)
  {}

  lemma SameWinner<T(!new)>(events: set<Event<T>>, log: seq<Row<T>>, log': seq<Row<T>>, key: string)
    requires OrderIndependent(events) && Delivers(log, events) && Delivers(log', events) && key in Fold(log)
    ensures key in Fold(log') && Fold(log')[key].event == Fold(log)[key].event
  {
    assert Contents(Fold(log)) == Contents(Fold(log'));
    assert key in Contents(Fold(log)) && Contents(Fold(log))[key] == Fold(log)[key].event;
  }

  /** The common winner rejects any other event that comes last. */
  lemma WinnerRejects<T(!new)>(events: set<Event<T>>, base: seq<Row<T>>, w: Event<T>, e: Event<T>)
    requires OrderIndependent(events) && EventsOf(base) == events && AllAtZero(base)
    requires w.key in Fold(base) && Fold(base)[w.key].event == w
    requires e in events && e.key == w.key
    ensures Beats(e, w) ==> e == w
  {
    FoldOfLog(base);
    var late := base + [Row(e, 0)];
    EventsSnoc(base, Row(e, 0));
    FoldSnoc(base, Row(e, 0));
    SameWinner(events, base, late, w.key);
    assert Fold(base)[w.key].ingestedAt == 0;
  }

  /** Once `e` rejects `w`, a log that does not repeat `w` never ends at it. */
  lemma RejectedForGood<T>(e: Event<T>, w: Event<T>, rest: seq<Row<T>>)
    requires e.key == w.key && e != w && !Beats(w, e) && w !in EventsOf(rest)
    ensures var log := [Row(e, 0), Row(w, 0)] + rest;
            w.key in Fold(log) && Fold(log)[w.key].event != w
  {
    var first: seq<Row<T>> := [Row(e, 0)];
    FoldSnoc([], Row(e, 0));
    assert [] + first == first;
    FoldSnoc(first, Row(w, 0));
    assert first + [Row(w, 0)] == [Row(e, 0), Row(w, 0)];
    NeverReturns([Row(e, 0), Row(w, 0)], rest, w);
  }

  /** The common winner replaces any other event that came first. */
  lemma WinnerReplaces<T(!new)>(events: set<Event<T>>, base: seq<Row<T>>, w: Event<T>, e: Event<T>)
    requires OrderIndependent(events) && EventsOf(base) == events && AllAtZero(base)
    requires w in events && w.key in Fold(base) && Fold(base)[w.key].event == w
    requires e in events && e.key == w.key
    ensures Beats(w, e)
  {
    if e != w {
      var rest := LogOf(events - {w});
      var log := [Row(e, 0), Row(w, 0)] + rest;
      assert EventsOf(log) == events by {
        EventsConcat([Row(e, 0), Row(w, 0)], rest);
        EventsConcat([Row(e, 0)], [Row(w, 0)]);
        assert [Row(e, 0), Row(w, 0)] == [Row(e, 0)] + [Row(w, 0)];
      }
      assert AllAtZero(log);
      SameWinner(events, base, log, w.key);
      if !Beats(w, e) {
        RejectedForGood(e, w, rest);
      }
    }
  }

  lemma WinnerDominates<T(!new)>(events: set<Event<T>>, base: seq<Row<T>>, key: string)
    requires OrderIndependent(events) && EventsOf(base) == events && AllAtZero(base) && key in Fold(base)
    ensures HasDominant(key, events)
  {
    FoldOfLog(base);
    var w := Fold(base)[key].event;
    assert w in EventsOf(base);
    forall e | e in events && e.key == w.key
      ensures Beats(w, e) && (Beats(e, w) ==> e == w)
    {
      WinnerRejects(events, base, w, e);
      WinnerReplaces(events, base, w, e);
    }
    assert Dominates(w, events);
  }

  /** Latest-wins forgets arrival order if and only if every key has a dominant event. */
  lemma OrderIndependentIffDecided<T(!new)>(events: set<Event<T>>)
    ensures OrderIndependent(events) <==> Decided(events)
  {
    if Decided(events) {
      forall log: seq<Row<T>>, log': seq<Row<T>> | Delivers(log, events) && Delivers(log', events)
        ensures Contents(Fold(log)) == Contents(Fold(log'))
      {
        Convergence(log, log');
      }
    }
    if OrderIndependent(events) {
      var base := LogOf(events);
      FoldOfLog(base);
      forall key | Occurs(key, events)
        ensures HasDominant(key, events)
      {
        WinnerDominates(events, base, key);
      }
    }
  }

  // ---------------------------------------------------------------- streams of one metadata class

  /** What the events of one class are ranked by; bare events come below all others. */
  function Rank<T>(e: Event<T>): Option<int> {
    if e.updatedAt.Some? then e.updatedAt else e.version
  }

  predicate AtLeast(a: Option<int>, b: Option<int>) {
    b.None? || (a.Some? && a.value >= b.value)
  }

  /** Within a key, metadata is always a version alone, or always includes `updated_at`. */
  ghost predicate OneClass<T(!new)>(events: set<Event<T>>) {
    forall a, b | a in events && b in events && a.key == b.key && HasMetadata(a) && HasMetadata(b) ::
      a.updatedAt.Some? <==> b.updatedAt.Some?
  }

  /** Within a key, events of the same rank are the same event. */
  ghost predicate TiesAgree<T(!new)>(events: set<Event<T>>) {
    forall a, b | a in events && b in events && a.key == b.key && Rank(a) == Rank(b) :: a == b
  }

  /** The guard of the code, restricted to one class, is the total preorder by rank. */
  lemma BeatsIsRank<T(!new)>(events: set<Event<T>>, a: Event<T>, b: Event<T>)
    requires OneClass(events) && a in events && b in events && a.key == b.key
    ensures Beats(a, b) <==> AtLeast(Rank(a), Rank(b))
  {}

  /** `m` is the last position in `log` of an event of greatest rank for `key`. */
  ghost predicate LastMaximum<T>(log: seq<Row<T>>, key: string, m: int) {
    && 0 <= m < |log| && log[m].event.key == key
    && (forall j | 0 <= j < |log| && log[j].event.key == key :: AtLeast(Rank(log[m].event), Rank(log[j].event)))
    && (forall j | m < j < |log| && log[j].event.key == key :: Rank(log[j].event) != Rank(log[m].event))
  }

  lemma MaximumOfTwo<T(!new)>(init: seq<Row<T>>, last: Row<T>, m: int)
    requires OneClass(EventsOf(init + [last])) && ClockForward(init + [last]) && LastMaximum(init, last.event.key, m)
    ensures LastMaximum(init + [last], last.event.key, if Replaces(last, init[m]) then |init| else m)
  {}

  lemma MaximumStep<T(!new)>(init: seq<Row<T>>, last: Row<T>, key: string, m: int)
    requires OneClass(EventsOf(init + [last])) && ClockForward(init + [last])
    requires LastMaximum(init, key, m) && key in Fold(init) && init[m] == Fold(init)[key]
    ensures exists m' :: LastMaximum(init + [last], key, m') && (init + [last])[m'] == Put(Fold(init), last)[key]
  {
    if last.event.key == key {
      MaximumOfTwo(init, last, m);
    } else {
      assert LastMaximum(init + [last], key, m);
    }
  }

  lemma FirstArrival<T>(init: seq<Row<T>>, last: Row<T>)
    requires last.event.key !in Fold(init)
    ensures LastMaximum(init + [last], last.event.key, |init|)
  {
    FoldOfLog(init);
    forall j | 0 <= j < |init|
      ensures init[j].event.key != last.event.key
    {
      assert init[j].event in EventsOf(init);
    }
  }

  /** A stream of one class leaves, for each key, the last of its events of greatest rank. */
  lemma {:induction false} KeepsLastMaximum<T(!new)>(log: seq<Row<T>>, key: string)
    requires OneClass(EventsOf(log)) && ClockForward(log) && key in Fold(log)
    ensures exists m :: LastMaximum(log, key, m) && log[m] == Fold(log)[key]
  {
    var n := |log| - 1;
    var init, last := log[..n], log[n];
    assert log == init + [last];
    if key !in Fold(init) {
      FirstArrival(init, last);
    } else {
      EventsSnoc(init, last);
      assert OneClass(EventsOf(init));
      KeepsLastMaximum(init, key);
      var m :| LastMaximum(init, key, m) && init[m] == Fold(init)[key];
      MaximumStep(init, last, key, m);
    }
  }

  lemma MaximumDominates<T(!new)>(events: set<Event<T>>, log: seq<Row<T>>, key: string, m: int)
    requires OneClass(events) && TiesAgree(events) && EventsOf(log) == events && LastMaximum(log, key, m)
    ensures Dominates(log[m].event, events)
  {}

  /** One class and agreeing ties decide every key. */
  lemma OneClassDecides<T(!new)>(events: set<Event<T>>)
    requires OneClass(events) && TiesAgree(events)
    ensures Decided(events)
  {
    var log := LogOf(events);
    FoldOfLog(log);
    forall key | Occurs(key, events)
      ensures HasDominant(key, events)
    {
      KeepsLastMaximum(log, key);
      var m :| LastMaximum(log, key, m) && log[m] == Fold(log)[key];
      MaximumDominates(events, log, key, m);
    }
  }

  /** The class hypothesis cannot be dropped: of these three events with distinct ranks, none dominates,
      because the one that carries only a version sits between the other two. */
  lemma MixedClassesDiverge<T(!new)>(key: string, body: T)
    ensures var events :=
              {Event(key, body, Some(10), None), Event(key, body, None, Some(1)), Event(key, body, Some(5), None)};
            TiesAgree(events) && !OrderIndependent(events)
  {
    var newest, versionOnly, oldest :=
      Event(key, body, Some(10), None), Event(key, body, None, Some(1)), Event(key, body, Some(5), None);
    var events := {newest, versionOnly, oldest};
    assert TiesAgree(events);
    assert !Decided(events) by {
      assert newest in events && versionOnly in events && oldest in events;
      NoneDominates(events, newest, versionOnly, oldest);
    }
    OrderIndependentIffDecided(events);
  }

  lemma NoneDominates<T(!new)>(events: set<Event<T>>, a: Event<T>, b: Event<T>, c: Event<T>)
    requires events == {a, b, c} && a.key == b.key == c.key && a != b && b != c && c != a
    requires Beats(b, a) && Beats(c, b) && Beats(a, c)
    ensures !Decided(events)
  {
    assert a in events && Occurs(a.key, events);
    forall w: Event<T> | w.key == a.key
      ensures !Dominates(w, events)
    {
      assert b in events && c in events;
    }
  }

  /** Metadata is never lost: a row that carries some is only replaced by one that does. */
  lemma {:induction false} MetadataKept<T>(log: seq<Row<T>>, more: seq<Row<T>>, key: string)
    requires key in Fold(log) && HasMetadata(Fold(log)[key].event)
    ensures key in Fold(log + more) && HasMetadata(Fold(log + more)[key].event)
  {
    if more == [] {
      assert log + more == log;
    } else {
      var init := more[..|more| - 1];
      MetadataKept(log, init, key);
      assert (log + more)[..|log + more| - 1] == log + init;
    }
  }
}
