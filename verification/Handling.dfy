/**
 One payload (src/consumer/main.py:142-212): from the bytes of a message to a committed transaction, or
 to the failure under which it is dead-lettered.
 */
module Handling {
  import opened Wrappers
  import opened LatestWins
  import opened Pairing
  import opened Store
  import opened History
  import opened SerialRuns
  import opened Contract
  import opened Events
  import opened Dlq
  import opened Delivery

  datatype BodyError = NotUnicode | NotJson | NotAnObject

  /** What a process is configured with. `decode` is the composition of normaliser and parsers,
      `republish` what a replay does with a dead letter. */
  datatype Setup = Setup(
    profile: Profile, codec: Codec, decode: (string, Payload) -> Result<Change, DecodeError>,
    parse: Bytes -> Result<Payload, BodyError>, wire: Wire, republish: (Backend, Message) -> Option<Message>,
    useTable: bool, retentionDays: int)

  function Configure(
    profile: Profile, codec: Codec, parse: Bytes -> Result<Payload, BodyError>, wire: Wire, useTable: bool,
    retentionDays: int): (setup: Setup)
    ensures Wired(setup) && setup.wire == wire && setup.useTable == useTable && setup.retentionDays == retentionDays
    ensures setup.profile == profile && setup.codec == codec && setup.parse == parse
  {
    Setup(profile, codec, (topic, payload) => Decode(profile, codec, topic, payload), parse,
          wire, (backend, message) => Republished(wire, backend, message), useTable, retentionDays)
  }

  ghost predicate Wired(setup: Setup) {
    && (forall topic, payload {:trigger Decode(setup.profile, setup.codec, topic, payload)} ::
          setup.decode(topic, payload) == Decode(setup.profile, setup.codec, topic, payload))
    && (forall backend, message {:trigger Republished(setup.wire, backend, message)} ::
          setup.republish(backend, message) == Republished(setup.wire, backend, message))
  }

  const EMPTY_OBJECT: Bytes := [123, 125]

  /** `json.loads(msg.value() or b"{}")`, which must be an object. */
  function BodyOf(setup: Setup, message: Message): Result<Payload, BodyError> {
    setup.parse(if message.value.None? || message.value.value == [] then EMPTY_OBJECT else message.value.value)
  }

  datatype Failure = BadBody(body: BodyError) | Rejected(decode: DecodeError) | Broken

  function ReadPayload(setup: Setup, topic: string, payload: Payload): Result<Change, Failure> {
    match setup.decode(topic, payload)
    case Err(e) => Err(Rejected(e))
    case Ok(change) => Ok(change)
  }

  function ReadMessage(setup: Setup, message: Message): Result<Change, Failure> {
    match BodyOf(setup, message)
    case Err(e) => Err(BadBody(e))
    case Ok(payload) => ReadPayload(setup, message.topic, payload)
  }

  function ChangeOf(setup: Setup, message: Message): Option<Change> {
    if ReadMessage(setup, message).Ok? then Some(ReadMessage(setup, message).value) else None
  }

  function EnvOf(setup: Setup): Env {
    Env(message => ChangeOf(setup, message), setup.republish)
  }

  /** `_classify_error`. */
  function Classify(failure: Failure): string {
    match failure
    case Rejected(Contract(AliasConflict(_))) => "contract_core_violation"
    case Rejected(Contract(UnsupportedTopic)) => "unsupported_topic"
    case Rejected(_) => "parse_error"
    case BadBody(NotUnicode) => "internal_error"
    case BadBody(_) => "parse_error"
    case Broken => "internal_error"
  }

  // ---------------------------------------------------------------- one transaction

  lemma KeyedAlong(log: seq<Arrival>, db: Db)
    requires Leads(EMPTY, log, db)
    ensures Keyed(db.ledger)
  {}

  const COMMIT := 5  // the statement number of the transaction's own commit

  /** Runs one change in a transaction: all of it or nothing (`session_scope`). */
  method Transact(tables: Tables, change: Change, clock: Clock, failsAt: nat) returns (ok: bool, missingVersion: bool)
    requires Keyed(tables.ledger)
    modifies tables
    ensures ok ==> Step(old(tables.State()), change, clock, tables.State())
    ensures !ok ==> tables.State() == old(tables.State())
    ensures failsAt > COMMIT ==> ok
  {
    var before := tables.State();
    match change {
      case LedgerChange(e) =>
        var snapshot;
        ok, missingVersion, snapshot := tables.UpsertLedgerEntry(e, clock, failsAt);
      case OrderChange(e) =>
        ok, missingVersion := tables.UpsertPaymentOrder(e, clock, failsAt);
    }
    if failsAt == COMMIT {
      ok := false;
    }
    if !ok {
      tables.Rollback(before);
    }
  }

  /** `_handle_payload`: the change is in the tables, or the tables are untouched and the failure says why. */
  method HandlePayload(setup: Setup, tables: Tables, topic: string, payload: Payload, clock: Clock, failsAt: nat)
    returns (failure: Option<Failure>)
    requires Wired(setup) && Keyed(tables.ledger)
    modifies tables
    ensures failure.None? ==>
              var change := ReadPayload(setup, topic, payload);
              change.Ok? && Step(old(tables.State()), change.value, clock, tables.State())
    ensures failure.Some? ==> tables.State() == old(tables.State())
    ensures failure.Some? ==>
              failure.value == match ReadPayload(setup, topic, payload) case Err(e) => e case Ok(_) => Broken
    ensures failsAt > COMMIT ==> (failure.None? <==> ReadPayload(setup, topic, payload).Ok?)
  {
    var change := DecodePayload(setup, topic, payload);
    if change.Err? {
      return Some(change.error);
    }
    var ok, missingVersion := Transact(tables, change.value, clock, failsAt);
    failure := if ok then None else Some(Broken);
  }

  /** Topic check, normalisation and the parser of the topic's kind. */
  method DecodePayload(setup: Setup, topic: string, payload: Payload) returns (change: Result<Change, Failure>)
    requires Wired(setup)
    ensures change == ReadPayload(setup, topic, payload)
  {
    ghost var decoded := Decode(setup.profile, setup.codec, topic, payload);
    var kind := setup.profile.KindOf(topic);
    if kind.None? {
      return Err(Rejected(Contract(UnsupportedTopic)));
    }
    var normalized := NormalizePayloadForTopic(topic, payload, setup.profile);
    if normalized.Err? {
      return Err(Rejected(Contract(normalized.error)));
    }
    if kind.value == LedgerTopic {
      var event := ParseLedger(setup.codec, normalized.value.payload);
      change := if event.Ok? then Ok(LedgerChange(event.value)) else Err(Rejected(Parse(event.error)));
    } else {
      var event := ParseOrder(setup.codec, normalized.value.payload);
      change := if event.Ok? then Ok(OrderChange(event.value)) else Err(Rejected(Parse(event.error)));
    }
  }

  // ---------------------------------------------------------------- error codes

  /** The code under which a message is dead-lettered. One that reads as a change fails for another reason. */
  function CodeOf(read: Result<Change, Failure>): string {
    match read case Err(e) => Classify(e) case Ok(_) => "internal_error"
  }

  /** A message off both topics is an unsupported one; on them, disagreeing aliases are a contract violation;
      what is no JSON object or has a field missing or without a reading is a parse error; and bytes that
      do not decode, or a failure elsewhere, are internal errors. */
  lemma Codes(setup: Setup, message: Message)
    requires Wired(setup)
    ensures var body, code, profile := BodyOf(setup, message), CodeOf(ReadMessage(setup, message)), setup.profile;
            if body == Err(NotUnicode) then code == "internal_error"
            else if body.Err? then code == "parse_error"
            else if message.topic != profile.ledgerTopic && message.topic != profile.orderTopic then
              code == "unsupported_topic"
            else
              var ledger := message.topic == profile.ledgerTopic;
              var groups := if ledger then profile.ledgerAliases else profile.orderAliases;
              if Overlay(body.value, groups).Err? then code == "contract_core_violation"
              else code == if ReadMessage(setup, message).Ok? then "internal_error" else "parse_error"
  {
    var body := BodyOf(setup, message);
    if body.Ok? {
      assert setup.decode(message.topic, body.value) == Decode(setup.profile, setup.codec, message.topic, body.value);
      var groups := if message.topic == setup.profile.ledgerTopic then setup.profile.ledgerAliases
        else setup.profile.orderAliases;
      OverlayConflicts(body.value, groups);
    }
  }

  /** Only disagreeing aliases make an overlay fail. */
  lemma {:induction false} OverlayConflicts(payload: Payload, groups: seq<AliasGroup>)
    ensures Overlay(payload, groups).Err? ==> Overlay(payload, groups).error.AliasConflict?
  {
    if groups != [] {
      OverlayConflicts(payload, groups[..|groups| - 1]);
    }
  }
}
