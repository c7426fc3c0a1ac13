/**
 The event parsers (src/consumer/events.py) behind the shipped contract
 (configs/event_profiles.yaml), and what the two together guarantee.
 */
module Events {
  import opened Wrappers
  import opened LatestWins
  import opened Pairing
  import opened Store
  import opened History
  import opened Contract

  /** Number and timestamp syntax is left to these partial functions. */
  datatype Codec = Codec(
    str: Value -> string,                 // str(value) of anything but text
    decimal: string -> Option<int>,       // Decimal(text)
    time: string -> Option<int>,          // the ISO-8601 reading of stripped text
    integer: Value -> Option<int>)        // int(value)

  /** An empty timestamp is not one. */
  ghost predicate Sensible(codec: Codec) { codec.time("") == None }

  function StrOf(codec: Codec, v: Value): string { if v.Text? then v.s else codec.str(v) }

  /** Python's `v or w`. */
  function Or(v: Value, w: Value): Value { if IsTrue(v) then v else w }

  /** `str(v or "").strip()`. */
  function TextField(codec: Codec, v: Value): string { if IsTrue(v) then Strip(StrOf(codec, v)) else "" }

  /** `str(v).strip() if v is not None else None`. */
  function OptionalText(codec: Codec, v: Value): Option<string> {
    if v.Null? then None else Some(Strip(StrOf(codec, v)))
  }

  datatype ParseError = Required(field: string) | NotNumeric(field: string) | NotATime(field: string) | BadVersion

  function ParseDecimal(codec: Codec, v: Value, field: string): Result<int, ParseError> {
    if v.Null? then Err(Required(field))
    else
      match codec.decimal(StrOf(codec, v))
      case None => Err(NotNumeric(field))
      case Some(amount) => Ok(amount)
  }

  function ParseTime(codec: Codec, v: Value, field: string): Result<int, ParseError> {
    if v.Null? then Err(Required(field))
    else if !v.Text? then Err(NotATime(field))
    else
      match codec.time(Strip(v.s))
      case None => Err(NotATime(field))
      case Some(t) => Ok(t)
  }

  function ParseOptionalTime(codec: Codec, v: Value): Result<Option<int>, ParseError> {
    if v.Null? then Ok(None)
    else
      match ParseTime(codec, v, "updated_at")
      case Err(e) => Err(e)
      case Ok(t) => Ok(Some(t))
  }

  function ParseVersion(codec: Codec, p: Payload): Result<Option<int>, ParseError> {
    var v := Or(Get(p, "version"), Get(p, "source_version"));
    if v.Null? then Ok(None) else if codec.integer(v).None? then Err(BadVersion) else Ok(codec.integer(v))
  }

  function EventTime(codec: Codec, p: Payload): Result<int, ParseError> {
    ParseTime(codec, Or(Or(Get(p, "event_time"), Get(p, "source_created_at")), Get(p, "created_at")), "event_time")
  }

  function CreatedAt(codec: Codec, p: Payload): Result<int, ParseError> {
    ParseTime(codec, Or(Or(Get(p, "source_created_at"), Get(p, "created_at")), Get(p, "event_time")), "created_at")
  }

  function EntryType(codec: Codec, p: Payload): string {
    TextField(codec, Or(Get(p, "entry_type"), Get(p, "type")))
  }

  /** `LedgerEntryUpserted.from_dict`. */
  function ParseLedger(codec: Codec, p: Payload): Result<LedgerEvent, ParseError> {
    var txId, walletId := TextField(codec, Get(p, "tx_id")), TextField(codec, Get(p, "wallet_id"));
    var entryType := EntryType(codec, p);
    if txId == "" then Err(Required("tx_id"))
    else if walletId == "" then Err(Required("wallet_id"))
    else if entryType == "" then Err(Required("entry_type"))
    else
      var amount := ParseDecimal(codec, Get(p, "amount"), "amount");
      var amountSigned := ParseDecimal(codec, Get(p, "amount_signed"), "amount_signed");
      var eventTime, createdAt := EventTime(codec, p), CreatedAt(codec, p);
      var updatedAt, version := ParseOptionalTime(codec, Get(p, "updated_at")), ParseVersion(codec, p);
      if amount.Err? then Err(amount.error)
      else if !Get(p, "amount_signed").Null? && amountSigned.Err? then Err(amountSigned.error)
      else if eventTime.Err? then Err(eventTime.error)
      else if createdAt.Err? then Err(createdAt.error)
      else if updatedAt.Err? then Err(updatedAt.error)
      else if version.Err? then Err(version.error)
      else
        Ok(Event(
             txId,
             LedgerBody(
               walletId, entryType, amount.value, if amountSigned.Ok? then Some(amountSigned.value) else None,
               OptionalText(codec, Get(p, "related_id")), OptionalText(codec, Get(p, "related_type")),
               eventTime.value, createdAt.value),
             updatedAt.value, version.value))
  }

  /** `PaymentOrderUpserted.from_dict`. */
  function ParseOrder(codec: Codec, p: Payload): Result<OrderEvent, ParseError> {
    var orderId, status := TextField(codec, Get(p, "order_id")), TextField(codec, Get(p, "status"));
    if orderId == "" then Err(Required("order_id"))
    else if status == "" then Err(Required("status"))
    else
      var amount := ParseDecimal(codec, Get(p, "amount"), "amount");
      var createdAt := ParseTime(codec, Get(p, "created_at"), "created_at");
      var updatedAt, version := ParseOptionalTime(codec, Get(p, "updated_at")), ParseVersion(codec, p);
      if amount.Err? then Err(amount.error)
      else if createdAt.Err? then Err(createdAt.error)
      else if updatedAt.Err? then Err(updatedAt.error)
      else if version.Err? then Err(version.error)
      else
        Ok(Event(
             orderId,
             OrderBody(OptionalText(codec, Get(p, "user_id")), OptionalText(codec, Get(p, "merchant_name")),
                       amount.value, status, createdAt.value),
             updatedAt.value, version.value))
  }

  datatype DecodeError = Contract(contractError: ContractError) | Parse(parseError: ParseError)

  /** Normalisation and parsing of one payload on one topic. */
  function Decode(profile: Profile, codec: Codec, topic: string, payload: Payload): Result<Change, DecodeError> {
    match profile.KindOf(topic)
    case None => Err(Contract(UnsupportedTopic))
    case Some(kind) =>
      var normalized := Normalize(payload, profile.AliasesFor(kind), profile.RequiredFor(kind));
      if normalized.Err? then Err(Contract(normalized.error))
      else if kind == LedgerTopic then
        match ParseLedger(codec, normalized.value.payload)
        case Err(e) => Err(Parse(e))
        case Ok(event) => Ok(LedgerChange(event))
      else
        match ParseOrder(codec, normalized.value.payload)
        case Err(e) => Err(Parse(e))
        case Ok(event) => Ok(OrderChange(event))
  }

  /** Accepted ledger events name a transaction, a wallet and a type, as the lookups rely on. */
  lemma DecodedIsWellFormed(profile: Profile, codec: Codec, topic: string, payload: Payload)
    ensures var change := Decode(profile, codec, topic, payload);
            change.Ok? && change.value.LedgerChange? ==> WellFormed({change.value.ledgerEvent})
  {}

  // ---------------------------------------------------------------- the shipped contract

  const TYPE_GROUP := AliasGroup("entry_type", ["entry_type", "type"])
  const TIME_GROUP := AliasGroup("event_time", ["event_time", "source_created_at", "created_at"])
  const VERSION_GROUP := AliasGroup("version", ["version", "source_version"])

  const LEDGER_GROUPS := [TYPE_GROUP, TIME_GROUP, VERSION_GROUP]
  const LEDGER_REQUIRED := ["tx_id", "wallet_id", "entry_type", "amount", "event_time_or_alias"]

  lemma ShippedGroupsAreSeparate()
    ensures Separate(LEDGER_GROUPS)
  {}

  /** The outcome of a ledger payload under the shipped contract; a failure of any kind is `None`. */
  function Outcome(codec: Codec, p: Payload): Option<LedgerEvent> {
    var normalized := Normalize(p, LEDGER_GROUPS, LEDGER_REQUIRED);
    if normalized.Err? then None
    else
      match ParseLedger(codec, normalized.value.payload)
      case Err(_) => None
      case Ok(event) => Some(event)
  }

  /** What a group leaves under its canonical key. */
  ghost predicate Settles(p: Payload, out: Payload, group: AliasGroup) {
    && Resolve(p, group).Ok?
    && Get(out, group.canonical)
       == if Resolve(p, group).value.Some? then Resolve(p, group).value.value.1 else Get(p, group.canonical)
  }

  /** What the overlay leaves under the keys of the three groups, and everywhere else. */
  lemma ShippedPointwise(p: Payload)
    requires Overlay(p, LEDGER_GROUPS).Ok?
    ensures var out := Overlay(p, LEDGER_GROUPS).value.payload;
            && Settles(p, out, TYPE_GROUP) && Settles(p, out, TIME_GROUP) && Settles(p, out, VERSION_GROUP)
            && forall key | key !in {"entry_type", "event_time", "version"} :: SameAt(out, p, key)
  {
    ShippedGroupsAreSeparate();
    OverlayPointwise(p, LEDGER_GROUPS);
    assert LEDGER_GROUPS[0] == TYPE_GROUP && LEDGER_GROUPS[1] == TIME_GROUP && LEDGER_GROUPS[2] == VERSION_GROUP;
  }

  lemma RequiredIsPresent(out: Payload)
    requires MissingOf(out, LEDGER_REQUIRED) == []
    ensures !IsMissing(Get(out, "entry_type")) && !IsMissing(Get(out, "event_time"))
  {
    NothingMissing(out, LEDGER_REQUIRED, 2);
    NothingMissing(out, LEDGER_REQUIRED, 4);
  }

  lemma {:induction false} NothingMissing(p: Payload, required: seq<string>, i: nat)
    requires MissingOf(p, required) == [] && i < |required|
    ensures !IsMissing(Get(p, RequiredKey(required[i])))
  {
    if i < |required| - 1 {
      NothingMissing(p, required[..|required| - 1], i);
    }
  }

  /** Every accepted ledger payload yields `event_time` equal to `created_at`, whichever aliases it carries. */
  lemma EventTimeIsCreatedAt(codec: Codec, p: Payload)
    requires Sensible(codec) && Outcome(codec, p).Some?
    ensures Outcome(codec, p).value.body.eventTime == Outcome(codec, p).value.body.createdAt
  {
    OutcomeTimes(codec, p);
    SettledTime(p);
    TimesAgree(codec, p, Overlay(p, LEDGER_GROUPS).value.payload);
  }

  lemma OutcomeTimes(codec: Codec, p: Payload)
    requires Outcome(codec, p).Some?
    ensures Overlay(p, LEDGER_GROUPS).Ok? && MissingOf(Overlay(p, LEDGER_GROUPS).value.payload, LEDGER_REQUIRED) == []
    ensures var out, event := Overlay(p, LEDGER_GROUPS).value.payload, Outcome(codec, p).value;
            EventTime(codec, out) == Ok(event.body.eventTime) && CreatedAt(codec, out) == Ok(event.body.createdAt)
  {}

  lemma SettledTime(p: Payload)
    requires Overlay(p, LEDGER_GROUPS).Ok? && MissingOf(Overlay(p, LEDGER_GROUPS).value.payload, LEDGER_REQUIRED) == []
    ensures var out := Overlay(p, LEDGER_GROUPS).value.payload;
            && Settles(p, out, TIME_GROUP) && !IsMissing(Get(out, "event_time"))
            && SameAt(out, p, "source_created_at") && SameAt(out, p, "created_at")
  {
    ShippedPointwise(p);
    RequiredIsPresent(Overlay(p, LEDGER_GROUPS).value.payload);
  }

  lemma TimesAgree(codec: Codec, p: Payload, out: Payload)
    requires Sensible(codec) && Settles(p, out, TIME_GROUP) && !IsMissing(Get(out, "event_time"))
    requires SameAt(out, p, "source_created_at") && SameAt(out, p, "created_at")
    requires EventTime(codec, out).Ok? && CreatedAt(codec, out).Ok?
    ensures EventTime(codec, out) == CreatedAt(codec, out)
  {
    assert "event_time" in TIME_GROUP.aliases && "source_created_at" in TIME_GROUP.aliases
      && "created_at" in TIME_GROUP.aliases by {
      assert TIME_GROUP.aliases[0] == "event_time"
        && TIME_GROUP.aliases[1] == "source_created_at" && TIME_GROUP.aliases[2] == "created_at";
    }
    var v := Get(out, "event_time");
    assert Resolve(p, TIME_GROUP).value.Some? && Resolve(p, TIME_GROUP).value.value.1 == v;
    assert AllAgree(p, TIME_GROUP.aliases, v);
    SameTime(codec, Get(p, "source_created_at"), v);
    SameTime(codec, Get(p, "created_at"), v);
  }

  /** An alias that is missing never parses; one that agrees with `v` parses to the same time. */
  lemma SameTime(codec: Codec, w: Value, v: Value)
    requires Sensible(codec) && !IsMissing(v) && (v.Text? ==> Stripped(v.s))
    requires IsMissing(w) || PyEq(NormalizeValue(w), v)
    ensures IsTrue(w) && ParseTime(codec, w, "").Ok? ==> v.Text? && ParseTime(codec, w, "") == ParseTime(codec, v, "")
  {}

  // ---------------------------------------------------------------- alias spelling

  /** `payload` carries `v` under at most one alias of the group; `Null` also stands for none. */
  ghost predicate Carries(p: Payload, group: AliasGroup, v: Value) {
    && (forall alias | alias in group.aliases :: Get(p, alias) == Null || Get(p, alias) == v)
    && (exists alias :: alias in group.aliases && Get(p, alias) == v)
    && (forall a, b | a in group.aliases && b in group.aliases && a in p && b in p :: a == b)
  }

  const GROUP_KEYS :=
    {"entry_type", "type", "event_time", "source_created_at", "created_at", "version", "source_version"}

  /** The payloads differ only in which alias carries the single value of each group. */
  ghost predicate Respelled(p: Payload, q: Payload, entryType: Value, time: Value, version: Value) {
    && Carries(p, TYPE_GROUP, entryType) && Carries(q, TYPE_GROUP, entryType)
    && Carries(p, TIME_GROUP, time) && Carries(q, TIME_GROUP, time)
    && Carries(p, VERSION_GROUP, version) && Carries(q, VERSION_GROUP, version)
    && forall key | key !in GROUP_KEYS :: SameAt(p, q, key)
  }

  lemma SingleResolves(p: Payload, group: AliasGroup, v: Value)
    requires Carries(p, group, v)
    ensures Resolve(p, group).Ok?
    ensures IsMissing(v) ==> Resolve(p, group).value.None?
    ensures !IsMissing(v) ==> Resolve(p, group).value.Some? && Resolve(p, group).value.value.1 == NormalizeValue(v)
  {}

  lemma {:induction false} OverlaySucceeds(p: Payload, groups: seq<AliasGroup>)
    requires forall group | group in groups :: Resolve(p, group).Ok?
    ensures Overlay(p, groups).Ok?
  {
    if groups != [] {
      assert groups[|groups| - 1] in groups;
      OverlaySucceeds(p, groups[..|groups| - 1]);
    }
  }

  /** What the overlay holds under a group's canonical key. */
  function Canonical(p: Payload, group: AliasGroup, v: Value): Value {
    if IsMissing(v) then Get(p, group.canonical) else NormalizeValue(v)
  }

  lemma SpelledOverlay(p: Payload, entryType: Value, time: Value, version: Value)
    requires Carries(p, TYPE_GROUP, entryType) && Carries(p, TIME_GROUP, time) && Carries(p, VERSION_GROUP, version)
    ensures Overlay(p, LEDGER_GROUPS).Ok?
    ensures var out := Overlay(p, LEDGER_GROUPS).value.payload;
            && Get(out, "entry_type") == Canonical(p, TYPE_GROUP, entryType)
            && Get(out, "event_time") == Canonical(p, TIME_GROUP, time)
            && Get(out, "version") == Canonical(p, VERSION_GROUP, version)
            && forall key | key !in {"entry_type", "event_time", "version"} :: SameAt(out, p, key)
  {
    SingleResolves(p, TYPE_GROUP, entryType);
    SingleResolves(p, TIME_GROUP, time);
    SingleResolves(p, VERSION_GROUP, version);
    AllResolve(p);
    ShippedPointwise(p);
  }

  lemma AllResolve(p: Payload)
    requires Resolve(p, TYPE_GROUP).Ok? && Resolve(p, TIME_GROUP).Ok? && Resolve(p, VERSION_GROUP).Ok?
    ensures Overlay(p, LEDGER_GROUPS).Ok?
  {
    assert forall group | group in LEDGER_GROUPS ::
      group == TYPE_GROUP || group == TIME_GROUP || group == VERSION_GROUP;
    OverlaySucceeds(p, LEDGER_GROUPS);
  }

  lemma TypeRead(codec: Codec, p: Payload, out: Payload, v: Value)
    requires Carries(p, TYPE_GROUP, v) && !IsMissing(v)
    requires Get(out, "entry_type") == Canonical(p, TYPE_GROUP, v) && SameAt(out, p, "type")
    ensures EntryType(codec, out) == TextField(codec, NormalizeValue(v))
  {}

  lemma TimeRead(codec: Codec, p: Payload, out: Payload, v: Value)
    requires Carries(p, TIME_GROUP, v) && !IsMissing(v)
    requires Get(out, "event_time") == Canonical(p, TIME_GROUP, v)
    requires SameAt(out, p, "source_created_at") && SameAt(out, p, "created_at")
    ensures IsTrue(v) ==> EventTime(codec, out) == ParseTime(codec, NormalizeValue(v), "event_time")
    ensures IsTrue(v) ==> CreatedAt(codec, out) == ParseTime(codec, NormalizeValue(v), "created_at")
    ensures !IsTrue(v) ==> EventTime(codec, out).Err?
  {}

  /** What the parser reads as the version of an overlaid payload. */
  function VersionValue(out: Payload): Value { Or(Get(out, "version"), Get(out, "source_version")) }

  /** `version or source_version` keeps a null or truthy version whichever alias carries it; a falsy one
      survives only under the second alias. */
  lemma VersionRead(p: Payload, out: Payload, v: Value)
    requires Carries(p, VERSION_GROUP, v)
    requires Get(out, "version") == Canonical(p, VERSION_GROUP, v) && SameAt(out, p, "source_version")
    ensures v.Null? || IsTrue(v) ==> VersionValue(out) == if IsMissing(v) then v else NormalizeValue(v)
    ensures !v.Null? && !IsTrue(v) ==> VersionValue(out) == if Get(p, "version") == v then Null else v
  {}

  /** Both payloads carry the version under the same alias, or it does not matter which one. */
  predicate VersionSafe(p: Payload, q: Payload, version: Value) {
    version.Null? || IsTrue(version) || Get(p, "version") == Get(q, "version")
  }

  lemma {:induction false} SameVerdict(p: Payload, q: Payload, required: seq<string>)
    requires forall r | r in required :: IsMissing(Get(p, RequiredKey(r))) <==> IsMissing(Get(q, RequiredKey(r)))
    ensures MissingOf(p, required) == MissingOf(q, required)
  {
    if required != [] {
      assert required[|required| - 1] in required;
      SameVerdict(p, q, required[..|required| - 1]);
    }
  }

  predicate SameReading<T(==)>(a: Result<T, ParseError>, b: Result<T, ParseError>) {
    (a.Ok? <==> b.Ok?) && (a.Ok? ==> a.value == b.value)
  }

  /** The fields outside the groups agree. */
  ghost predicate SamePlainFields(p: Payload, q: Payload) {
    && Get(p, "tx_id") == Get(q, "tx_id") && Get(p, "wallet_id") == Get(q, "wallet_id")
    && Get(p, "amount") == Get(q, "amount") && Get(p, "amount_signed") == Get(q, "amount_signed")
    && Get(p, "related_id") == Get(q, "related_id") && Get(p, "related_type") == Get(q, "related_type")
    && Get(p, "updated_at") == Get(q, "updated_at")
  }

  lemma PlainFields(p: Payload, q: Payload, groupKeys: set<string>)
    requires groupKeys <= GROUP_KEYS && forall key | key !in groupKeys :: SameAt(p, q, key)
    ensures SamePlainFields(p, q)
  {
    assert "tx_id" !in GROUP_KEYS && "wallet_id" !in GROUP_KEYS
      && "amount" !in GROUP_KEYS && "amount_signed" !in GROUP_KEYS;
    assert "related_id" !in GROUP_KEYS && "related_type" !in GROUP_KEYS && "updated_at" !in GROUP_KEYS;
    assert SameAt(p, q, "tx_id") && SameAt(p, q, "wallet_id")
      && SameAt(p, q, "amount") && SameAt(p, q, "amount_signed");
    assert SameAt(p, q, "related_id") && SameAt(p, q, "related_type") && SameAt(p, q, "updated_at");
  }

  /** The parser sees the groups only through these readings. */
  lemma SameParse(codec: Codec, p: Payload, q: Payload)
    requires SamePlainFields(p, q)
    requires EntryType(codec, p) == EntryType(codec, q)
    requires (EventTime(codec, p).Err? && EventTime(codec, q).Err?)
             || (SameReading(EventTime(codec, p), EventTime(codec, q))
                 && SameReading(CreatedAt(codec, p), CreatedAt(codec, q)))
    requires ParseVersion(codec, p) == ParseVersion(codec, q)
    ensures SameReading(ParseLedger(codec, p), ParseLedger(codec, q))
  {}

  lemma OverlayFields(p: Payload)
    requires Overlay(p, LEDGER_GROUPS).Ok?
    ensures SamePlainFields(Overlay(p, LEDGER_GROUPS).value.payload, p)
  {
    ShippedPointwise(p);
    PlainFields(Overlay(p, LEDGER_GROUPS).value.payload, p, {"entry_type", "event_time", "version"});
  }

  /** The plain fields of both overlays agree. */
  lemma SpelledFields(p: Payload, q: Payload, entryType: Value, time: Value, version: Value)
    requires Respelled(p, q, entryType, time, version) && Overlay(p, LEDGER_GROUPS).Ok? && Overlay(q, LEDGER_GROUPS).Ok?
    ensures SamePlainFields(Overlay(p, LEDGER_GROUPS).value.payload, Overlay(q, LEDGER_GROUPS).value.payload)
  {
    OverlayFields(p);
    OverlayFields(q);
    PlainFields(p, q, GROUP_KEYS);
  }

  lemma MissingTogether(a: Payload, b: Payload)
    requires SamePlainFields(a, b)
    requires IsMissing(Get(a, "entry_type")) <==> IsMissing(Get(b, "entry_type"))
    requires IsMissing(Get(a, "event_time")) <==> IsMissing(Get(b, "event_time"))
    ensures MissingOf(a, LEDGER_REQUIRED) == MissingOf(b, LEDGER_REQUIRED)
  {
    forall r | r in LEDGER_REQUIRED
      ensures IsMissing(Get(a, RequiredKey(r))) <==> IsMissing(Get(b, RequiredKey(r)))
    {
      assert r == "tx_id" || r == "wallet_id" || r == "entry_type" || r == "amount" || r == SENTINEL;
    }
    SameVerdict(a, b, LEDGER_REQUIRED);
  }

  lemma SpelledVerdict(p: Payload, q: Payload, entryType: Value, time: Value, version: Value)
    requires Respelled(p, q, entryType, time, version)
    ensures Overlay(p, LEDGER_GROUPS).Ok? && Overlay(q, LEDGER_GROUPS).Ok?
    ensures MissingOf(Overlay(p, LEDGER_GROUPS).value.payload, LEDGER_REQUIRED)
            == MissingOf(Overlay(q, LEDGER_GROUPS).value.payload, LEDGER_REQUIRED)
    ensures MissingOf(Overlay(p, LEDGER_GROUPS).value.payload, LEDGER_REQUIRED) == [] ==>
              !IsMissing(entryType) && !IsMissing(time)
  {
    SpelledOverlay(p, entryType, time, version);
    SpelledOverlay(q, entryType, time, version);
    SpelledFields(p, q, entryType, time, version);
    assert TYPE_GROUP.aliases[0] == TYPE_GROUP.canonical && TIME_GROUP.aliases[0] == TIME_GROUP.canonical;
    CanonicalMissing(p, q, TYPE_GROUP, entryType);
    CanonicalMissing(p, q, TIME_GROUP, time);
    var a, b := Overlay(p, LEDGER_GROUPS).value.payload, Overlay(q, LEDGER_GROUPS).value.payload;
    MissingTogether(a, b);
    if MissingOf(a, LEDGER_REQUIRED) == [] {
      RequiredIsPresent(a);
    }
  }

  lemma CanonicalMissing(p: Payload, q: Payload, group: AliasGroup, v: Value)
    requires Carries(p, group, v) && Carries(q, group, v) && group.canonical in group.aliases
    ensures IsMissing(Canonical(p, group, v)) <==> IsMissing(v)
    ensures IsMissing(Canonical(q, group, v)) <==> IsMissing(v)
  {}

  lemma SpelledReadings(codec: Codec, p: Payload, a: Payload, entryType: Value, time: Value, version: Value)
    requires Carries(p, TYPE_GROUP, entryType) && Carries(p, TIME_GROUP, time) && Carries(p, VERSION_GROUP, version)
    requires Overlay(p, LEDGER_GROUPS).Ok? && a == Overlay(p, LEDGER_GROUPS).value.payload
    requires !IsMissing(entryType) && !IsMissing(time)
    ensures EntryType(codec, a) == TextField(codec, NormalizeValue(entryType))
    ensures IsTrue(time) ==> EventTime(codec, a) == ParseTime(codec, NormalizeValue(time), "event_time")
    ensures IsTrue(time) ==> CreatedAt(codec, a) == ParseTime(codec, NormalizeValue(time), "created_at")
    ensures !IsTrue(time) ==> EventTime(codec, a).Err?
  {
    SpelledOverlay(p, entryType, time, version);
    assert SameAt(a, p, "type") && SameAt(a, p, "source_created_at") && SameAt(a, p, "created_at");
    TypeRead(codec, p, a, entryType);
    TimeRead(codec, p, a, time);
  }

  lemma SpelledVersion(p: Payload, entryType: Value, time: Value, version: Value)
    requires Carries(p, TYPE_GROUP, entryType) && Carries(p, TIME_GROUP, time) && Carries(p, VERSION_GROUP, version)
    ensures Overlay(p, LEDGER_GROUPS).Ok?
    ensures var read := VersionValue(Overlay(p, LEDGER_GROUPS).value.payload);
            && (version.Null? || IsTrue(version) ==>
                read == if IsMissing(version) then version else NormalizeValue(version))
            && (!version.Null? && !IsTrue(version) ==> read == if Get(p, "version") == version then Null else version)
  {
    SpelledOverlay(p, entryType, time, version);
    assert SameAt(Overlay(p, LEDGER_GROUPS).value.payload, p, "source_version");
    VersionRead(p, Overlay(p, LEDGER_GROUPS).value.payload, version);
  }

  lemma VersionCarrier(p: Payload, version: Value)
    requires Carries(p, VERSION_GROUP, version) && !version.Null?
    ensures Get(p, "version") == version || Get(p, "version") == Null
  {}

  /** Two payloads that differ only in which alias carries each group's single value normalise and
      parse to the same event, or both fail, unless the version is a falsy value other than null. */
  lemma SpellingDoesNotMatter(codec: Codec, p: Payload, q: Payload, entryType: Value, time: Value, version: Value)
    requires Respelled(p, q, entryType, time, version) && VersionSafe(p, q, version)
    ensures Outcome(codec, p) == Outcome(codec, q)
  {
    SpelledVerdict(p, q, entryType, time, version);
    var a, b := Overlay(p, LEDGER_GROUPS).value.payload, Overlay(q, LEDGER_GROUPS).value.payload;
    if MissingOf(a, LEDGER_REQUIRED) == [] {
      SpelledParse(codec, p, q, a, b, entryType, time, version);
    }
    SameOutcome(codec, p, q);
  }

  lemma SpelledParse(
    codec: Codec, p: Payload, q: Payload, a: Payload, b: Payload, entryType: Value, time: Value, version: Value)
    requires Respelled(p, q, entryType, time, version) && VersionSafe(p, q, version)
    requires Overlay(p, LEDGER_GROUPS).Ok? && a == Overlay(p, LEDGER_GROUPS).value.payload
    requires Overlay(q, LEDGER_GROUPS).Ok? && b == Overlay(q, LEDGER_GROUPS).value.payload
    requires !IsMissing(entryType) && !IsMissing(time)
    ensures SameReading(ParseLedger(codec, a), ParseLedger(codec, b))
  {
    SpelledFields(p, q, entryType, time, version);
    SpelledReadings(codec, p, a, entryType, time, version);
    SpelledReadings(codec, q, b, entryType, time, version);
    SpelledVersion(p, entryType, time, version);
    SpelledVersion(q, entryType, time, version);
    assert VersionValue(a) == VersionValue(b);
    SameParse(codec, a, b);
  }

  lemma SameOutcome(codec: Codec, p: Payload, q: Payload)
    requires Overlay(p, LEDGER_GROUPS).Ok? && Overlay(q, LEDGER_GROUPS).Ok?
    requires var a, b := Overlay(p, LEDGER_GROUPS).value.payload, Overlay(q, LEDGER_GROUPS).value.payload;
             && MissingOf(a, LEDGER_REQUIRED) == MissingOf(b, LEDGER_REQUIRED)
             && (MissingOf(a, LEDGER_REQUIRED) == [] ==> SameReading(ParseLedger(codec, a), ParseLedger(codec, b)))
    ensures Outcome(codec, p) == Outcome(codec, q)
  {}

  lemma VersionReadsNull(codec: Codec, out: Payload)
    requires ParseVersion(codec, out).Ok?
    ensures ParseVersion(codec, out).value.None? <==> VersionValue(out).Null?
  {}

  /** The version of an accepted event tells what the parser read. */
  lemma OutcomeVersion(codec: Codec, p: Payload)
    requires Outcome(codec, p).Some?
    ensures Overlay(p, LEDGER_GROUPS).Ok?
    ensures Outcome(codec, p).value.version.None? <==> VersionValue(Overlay(p, LEDGER_GROUPS).value.payload).Null?
  {
    VersionReadsNull(codec, Overlay(p, LEDGER_GROUPS).value.payload);
  }

  lemma UnsafeVersions(p: Payload, q: Payload, entryType: Value, time: Value, version: Value)
    requires Respelled(p, q, entryType, time, version) && !VersionSafe(p, q, version)
    ensures Overlay(p, LEDGER_GROUPS).Ok? && Overlay(q, LEDGER_GROUPS).Ok?
    ensures VersionValue(Overlay(p, LEDGER_GROUPS).value.payload).Null?
            != VersionValue(Overlay(q, LEDGER_GROUPS).value.payload).Null?
  {
    SpelledVersion(p, entryType, time, version);
    SpelledVersion(q, entryType, time, version);
    VersionCarrier(p, version);
    VersionCarrier(q, version);
  }

  /** An accepted payload has the same outcome under every respelling, exactly if the version is null
      or truthy or stays under its alias: `version or source_version` drops any other value that the
      first alias carries, such as an integer 0, and keeps one that the second carries. */
  lemma SpellingMattersIff(codec: Codec, p: Payload, q: Payload, entryType: Value, time: Value, version: Value)
    requires Respelled(p, q, entryType, time, version) && Outcome(codec, p).Some?
    ensures Outcome(codec, p) == Outcome(codec, q) <==> VersionSafe(p, q, version)
  {
    if VersionSafe(p, q, version) {
      SpellingDoesNotMatter(codec, p, q, entryType, time, version);
    } else {
      UnsafeVersions(p, q, entryType, time, version);
      DifferentVersions(codec, p, q);
    }
  }

  lemma DifferentVersions(codec: Codec, p: Payload, q: Payload)
    requires Overlay(p, LEDGER_GROUPS).Ok? && Overlay(q, LEDGER_GROUPS).Ok? && Outcome(codec, p).Some?
    requires VersionValue(Overlay(p, LEDGER_GROUPS).value.payload).Null?
            != VersionValue(Overlay(q, LEDGER_GROUPS).value.payload).Null?
    ensures Outcome(codec, p) != Outcome(codec, q)
  {
    OutcomeVersion(codec, p);
    if Outcome(codec, q).Some? {
      OutcomeVersion(codec, q);
    }
  }

  // ---------------------------------------------------------------- orders

  const ORDER_GROUPS := [VERSION_GROUP]
  const ORDER_REQUIRED := ["order_id", "amount", "status", "created_at"]

  function OrderOutcome(codec: Codec, p: Payload): Option<OrderEvent> {
    var normalized := Normalize(p, ORDER_GROUPS, ORDER_REQUIRED);
    if normalized.Err? then None
    else
      match ParseOrder(codec, normalized.value.payload)
      case Err(_) => None
      case Ok(event) => Some(event)
  }

  /** The payloads differ only in which alias carries the version. */
  ghost predicate OrderRespelled(p: Payload, q: Payload, version: Value) {
    && Carries(p, VERSION_GROUP, version) && Carries(q, VERSION_GROUP, version)
    && forall key | key != "version" && key != "source_version" :: SameAt(p, q, key)
  }

  lemma OrderOverlay(p: Payload, version: Value)
    requires Carries(p, VERSION_GROUP, version)
    ensures Overlay(p, ORDER_GROUPS).Ok?
    ensures var out := Overlay(p, ORDER_GROUPS).value.payload;
            && Get(out, "version") == Canonical(p, VERSION_GROUP, version)
            && forall key | key != "version" :: SameAt(out, p, key)
  {
    SingleResolves(p, VERSION_GROUP, version);
    OverlaySucceeds(p, ORDER_GROUPS);
    OverlayPointwise(p, ORDER_GROUPS);
    assert ORDER_GROUPS[0] == VERSION_GROUP;
  }

  ghost predicate SameOrderFields(p: Payload, q: Payload) {
    && Get(p, "order_id") == Get(q, "order_id")
    && Get(p, "status") == Get(q, "status") && Get(p, "amount") == Get(q, "amount")
    && Get(p, "created_at") == Get(q, "created_at") && Get(p, "updated_at") == Get(q, "updated_at")
    && Get(p, "user_id") == Get(q, "user_id") && Get(p, "merchant_name") == Get(q, "merchant_name")
  }

  lemma OrderFields(p: Payload, q: Payload)
    requires forall key | key != "version" && key != "source_version" :: SameAt(p, q, key)
    ensures SameOrderFields(p, q)
  {
    assert SameAt(p, q, "order_id") && SameAt(p, q, "status") && SameAt(p, q, "amount") && SameAt(p, q, "created_at");
    assert SameAt(p, q, "updated_at") && SameAt(p, q, "user_id") && SameAt(p, q, "merchant_name");
  }

  lemma OrderMissingTogether(a: Payload, b: Payload)
    requires SameOrderFields(a, b)
    ensures MissingOf(a, ORDER_REQUIRED) == MissingOf(b, ORDER_REQUIRED)
  {
    forall r | r in ORDER_REQUIRED
      ensures IsMissing(Get(a, RequiredKey(r))) <==> IsMissing(Get(b, RequiredKey(r)))
    {
      assert r == "order_id" || r == "amount" || r == "status" || r == "created_at";
    }
    SameVerdict(a, b, ORDER_REQUIRED);
  }

  /** The parser sees the version only through this reading. */
  lemma SameOrderParse(codec: Codec, a: Payload, b: Payload)
    requires SameOrderFields(a, b)
    ensures VersionValue(a) == VersionValue(b) ==> ParseOrder(codec, a) == ParseOrder(codec, b)
    ensures ParseOrder(codec, a).Ok? ==> ParseVersion(codec, a) == Ok(ParseOrder(codec, a).value.version)
  {}

  lemma OrderReadings(p: Payload, q: Payload, version: Value)
    requires OrderRespelled(p, q, version)
    ensures Overlay(p, ORDER_GROUPS).Ok? && Overlay(q, ORDER_GROUPS).Ok?
    ensures var a, b := Overlay(p, ORDER_GROUPS).value.payload, Overlay(q, ORDER_GROUPS).value.payload;
            && SameOrderFields(a, b)
            && (VersionSafe(p, q, version) ==> VersionValue(a) == VersionValue(b))
            && (!VersionSafe(p, q, version) ==> VersionValue(a).Null? != VersionValue(b).Null?)
  {
    OrderOverlay(p, version);
    OrderOverlay(q, version);
    var a, b := Overlay(p, ORDER_GROUPS).value.payload, Overlay(q, ORDER_GROUPS).value.payload;
    OrderFields(a, p);
    OrderFields(b, q);
    OrderFields(p, q);
    assert SameAt(a, p, "source_version") && SameAt(b, q, "source_version");
    VersionRead(p, a, version);
    VersionRead(q, b, version);
    if !VersionSafe(p, q, version) {
      VersionCarrier(p, version);
      VersionCarrier(q, version);
    }
  }

  lemma OrderOutcomeOf(codec: Codec, p: Payload)
    requires Overlay(p, ORDER_GROUPS).Ok?
    ensures var out := Overlay(p, ORDER_GROUPS).value.payload;
            OrderOutcome(codec, p)
            == if MissingOf(out, ORDER_REQUIRED) == [] && ParseOrder(codec, out).Ok? then
              Some(ParseOrder(codec, out).value) else None
  {}

  /** Order payloads: an accepted one has the same outcome under a respelling exactly if the version
      is null or truthy or stays under its alias; and then two rejected ones are rejected together. */
  lemma OrderSpellingMattersIff(codec: Codec, p: Payload, q: Payload, version: Value)
    requires OrderRespelled(p, q, version)
    ensures VersionSafe(p, q, version) ==> OrderOutcome(codec, p) == OrderOutcome(codec, q)
    ensures OrderOutcome(codec, p).Some? && !VersionSafe(p, q, version) ==>
              OrderOutcome(codec, p) != OrderOutcome(codec, q)
  {
    OrderReadings(p, q, version);
    OrderOutcomeOf(codec, p);
    OrderOutcomeOf(codec, q);
    var a, b := Overlay(p, ORDER_GROUPS).value.payload, Overlay(q, ORDER_GROUPS).value.payload;
    OrderMissingTogether(a, b);
    SameOrderParse(codec, a, b);
    SameOrderParse(codec, b, a);
    if OrderOutcome(codec, p).Some? && OrderOutcome(codec, q).Some? {
      VersionReadsNull(codec, a);
      VersionReadsNull(codec, b);
    }
  }
}
