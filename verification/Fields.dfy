/**
 Where the fields of an accepted event come from (src/consumer/events.py:76-187,
 src/consumer/contract_normalizer.py:83-121): each is the reading of its own key in the payload that
 the aliases of its topic normalise, and a payload is rejected only for a field that has no reading.
 */
module Fields {
  import opened Wrappers
  import opened LatestWins
  import opened Pairing
  import opened Store
  import opened Contract
  import opened Events

  /** The first of the two keys unless its value is falsy. */
  function EitherAt(p: Payload, key: string, other: string): Value {
    if IsTrue(Get(p, key)) then Get(p, key) else Get(p, other)
  }

  function TextIn(codec: Codec, v: Value): string { Strip(if v.Text? then v.s else codec.str(v)) }

  /** The key holds a text that is not blank, and this is the text. */
  predicate HoldsText(codec: Codec, v: Value, text: string) { IsTrue(v) && text != "" && text == TextIn(codec, v) }

  predicate HoldsOptional(codec: Codec, v: Value, text: Option<string>) {
    text == if v.Null? then None else Some(TextIn(codec, v))
  }

  predicate HoldsNumber(codec: Codec, v: Value, amount: int) {
    !v.Null? && codec.decimal(if v.Text? then v.s else codec.str(v)) == Some(amount)
  }

  predicate HoldsTime(codec: Codec, v: Value, time: int) { v.Text? && codec.time(Strip(v.s)) == Some(time) }

  predicate HoldsVersion(codec: Codec, p: Payload, version: Option<int>) {
    var v := EitherAt(p, "version", "source_version");
    if v.Null? then version == None else version.Some? && codec.integer(v) == version
  }

  predicate HoldsUpdate(codec: Codec, p: Payload, time: Option<int>) {
    if Get(p, "updated_at").Null? then time == None
    else time.Some? && HoldsTime(codec, Get(p, "updated_at"), time.value)
  }

  /** The values that the two times of a ledger event are read from. */
  function EventTimeAt(p: Payload): Value {
    if IsTrue(Get(p, "event_time")) then Get(p, "event_time")
    else EitherAt(p, "source_created_at", "created_at")
  }

  function CreatedAtAt(p: Payload): Value {
    if IsTrue(Get(p, "source_created_at")) then Get(p, "source_created_at")
    else EitherAt(p, "created_at", "event_time")
  }

  predicate NamesRead(codec: Codec, p: Payload, e: LedgerEvent) {
    && HoldsText(codec, Get(p, "tx_id"), e.key)
    && HoldsText(codec, Get(p, "wallet_id"), e.body.walletId)
    && HoldsText(codec, EitherAt(p, "entry_type", "type"), e.body.entryType)
    && HoldsOptional(codec, Get(p, "related_id"), e.body.relatedId)
    && HoldsOptional(codec, Get(p, "related_type"), e.body.relatedType)
  }

  predicate AmountsRead(codec: Codec, p: Payload, e: LedgerEvent) {
    && HoldsNumber(codec, Get(p, "amount"), e.body.amount)
    && (if Get(p, "amount_signed").Null? then e.body.amountSigned == None
        else e.body.amountSigned.Some? && HoldsNumber(codec, Get(p, "amount_signed"), e.body.amountSigned.value))
  }

  predicate TimesRead(codec: Codec, p: Payload, e: LedgerEvent) {
    && HoldsTime(codec, EventTimeAt(p), e.body.eventTime)
    && HoldsTime(codec, CreatedAtAt(p), e.body.createdAt)
    && HoldsUpdate(codec, p, e.updatedAt) && HoldsVersion(codec, p, e.version)
  }

  /** The event is what the payload holds, key by key. */
  predicate IsLedgerReading(codec: Codec, p: Payload, e: LedgerEvent) {
    NamesRead(codec, p, e) && AmountsRead(codec, p, e) && TimesRead(codec, p, e)
  }

  predicate IsOrderReading(codec: Codec, p: Payload, e: OrderEvent) {
    && HoldsText(codec, Get(p, "order_id"), e.key)
    && HoldsText(codec, Get(p, "status"), e.body.status)
    && HoldsNumber(codec, Get(p, "amount"), e.body.amount)
    && HoldsOptional(codec, Get(p, "user_id"), e.body.userId)
    && HoldsOptional(codec, Get(p, "merchant_name"), e.body.merchantName)
    && HoldsTime(codec, Get(p, "created_at"), e.body.createdAt)
    && HoldsUpdate(codec, p, e.updatedAt) && HoldsVersion(codec, p, e.version)
  }

  /** The texts and amounts of a ledger event, as the parser computes them. */
  predicate NamesParsed(codec: Codec, p: Payload, e: LedgerEvent) {
    && TextField(codec, Get(p, "tx_id")) == e.key && e.key != ""
    && TextField(codec, Get(p, "wallet_id")) == e.body.walletId && e.body.walletId != ""
    && EntryType(codec, p) == e.body.entryType && e.body.entryType != ""
    && OptionalText(codec, Get(p, "related_id")) == e.body.relatedId
    && OptionalText(codec, Get(p, "related_type")) == e.body.relatedType
  }

  predicate AmountsParsed(codec: Codec, p: Payload, e: LedgerEvent) {
    && ParseDecimal(codec, Get(p, "amount"), "amount") == Ok(e.body.amount)
    && (if Get(p, "amount_signed").Null? then e.body.amountSigned.None?
        else e.body.amountSigned.Some?
             && ParseDecimal(codec, Get(p, "amount_signed"), "amount_signed") == Ok(e.body.amountSigned.value))
  }

  predicate TimesParsed(codec: Codec, p: Payload, e: LedgerEvent) {
    && EventTime(codec, p) == Ok(e.body.eventTime) && CreatedAt(codec, p) == Ok(e.body.createdAt)
    && ParseOptionalTime(codec, Get(p, "updated_at")) == Ok(e.updatedAt) && ParseVersion(codec, p) == Ok(e.version)
  }

  lemma LedgerPartsIff(codec: Codec, p: Payload, e: LedgerEvent)
    ensures ParseLedger(codec, p) == Ok(e)
            <==> NamesParsed(codec, p, e) && AmountsParsed(codec, p, e) && TimesParsed(codec, p, e)
  {}

  lemma NamesIff(codec: Codec, p: Payload, e: LedgerEvent)
    ensures NamesParsed(codec, p, e) <==> NamesRead(codec, p, e)
  {}

  lemma AmountsIff(codec: Codec, p: Payload, e: LedgerEvent)
    ensures AmountsParsed(codec, p, e) <==> AmountsRead(codec, p, e)
  {}

  lemma TimesIff(codec: Codec, p: Payload, e: LedgerEvent)
    ensures TimesParsed(codec, p, e) <==> TimesRead(codec, p, e)
  {}

  /** A payload is accepted exactly if some event is its reading, and that event is the outcome. */
  lemma LedgerFields(codec: Codec, p: Payload, e: LedgerEvent)
    ensures ParseLedger(codec, p) == Ok(e) <==> IsLedgerReading(codec, p, e)
  {
    LedgerPartsIff(codec, p, e);
    NamesIff(codec, p, e);
    AmountsIff(codec, p, e);
    TimesIff(codec, p, e);
  }

  lemma OrderFields(codec: Codec, p: Payload, e: OrderEvent)
    ensures ParseOrder(codec, p) == Ok(e) <==> IsOrderReading(codec, p, e)
  {}

  // ---------------------------------------------------------------- rejections

  predicate NoText(codec: Codec, v: Value) { !IsTrue(v) || TextIn(codec, v) == "" }

  predicate NoNumber(codec: Codec, v: Value) { codec.decimal(if v.Text? then v.s else codec.str(v)).None? }

  predicate NoTime(codec: Codec, v: Value) { !v.Text? || codec.time(Strip(v.s)).None? }

  /** The value is needed and null, or is no number. */
  predicate NumberFault(codec: Codec, v: Value, field: string, error: ParseError) {
    (error == Required(field) && v.Null?) || (error == NotNumeric(field) && !v.Null? && NoNumber(codec, v))
  }

  predicate TimeFault(codec: Codec, v: Value, field: string, error: ParseError) {
    (error == Required(field) && v.Null?) || (error == NotATime(field) && !v.Null? && NoTime(codec, v))
  }

  /** What is optional is there and has no reading. */
  predicate StampFault(codec: Codec, p: Payload, error: ParseError) {
    || (!Get(p, "updated_at").Null? && TimeFault(codec, Get(p, "updated_at"), "updated_at", error))
    || (error == BadVersion && !EitherAt(p, "version", "source_version").Null?
        && codec.integer(EitherAt(p, "version", "source_version")).None?)
  }

  /** The error names a field of a ledger payload that has no reading. */
  predicate LedgerFault(codec: Codec, p: Payload, error: ParseError) {
    || (error == Required("tx_id") && NoText(codec, Get(p, "tx_id")))
    || (error == Required("wallet_id") && NoText(codec, Get(p, "wallet_id")))
    || (error == Required("entry_type") && NoText(codec, EitherAt(p, "entry_type", "type")))
    || NumberFault(codec, Get(p, "amount"), "amount", error)
    || (!Get(p, "amount_signed").Null? && NumberFault(codec, Get(p, "amount_signed"), "amount_signed", error))
    || TimeFault(codec, EventTimeAt(p), "event_time", error)
    || TimeFault(codec, CreatedAtAt(p), "created_at", error)
    || StampFault(codec, p, error)
  }

  lemma NumberFails(codec: Codec, v: Value, field: string)
    ensures ParseDecimal(codec, v, field).Err? ==> NumberFault(codec, v, field, ParseDecimal(codec, v, field).error)
  {}

  lemma StampFails(codec: Codec, p: Payload)
    ensures var updatedAt, version := ParseOptionalTime(codec, Get(p, "updated_at")), ParseVersion(codec, p);
            && (updatedAt.Err? ==> StampFault(codec, p, updatedAt.error))
            && (version.Err? ==> StampFault(codec, p, version.error))
  {}

  lemma TimesFail(codec: Codec, p: Payload)
    ensures EventTime(codec, p).Err? ==> TimeFault(codec, EventTimeAt(p), "event_time", EventTime(codec, p).error)
    ensures CreatedAt(codec, p).Err? ==> TimeFault(codec, CreatedAtAt(p), "created_at", CreatedAt(codec, p).error)
  {}

  /** The error of a rejected payload is one of its parts'. */
  lemma LedgerErrors(codec: Codec, p: Payload)
    requires ParseLedger(codec, p).Err?
    ensures var error := ParseLedger(codec, p).error;
            || (error == Required("tx_id") && TextField(codec, Get(p, "tx_id")) == "")
            || (error == Required("wallet_id") && TextField(codec, Get(p, "wallet_id")) == "")
            || (error == Required("entry_type") && EntryType(codec, p) == "")
            || Err(error) == ParseDecimal(codec, Get(p, "amount"), "amount")
            || (!Get(p, "amount_signed").Null?
                && Err(error) == ParseDecimal(codec, Get(p, "amount_signed"), "amount_signed"))
            || Err(error) == EventTime(codec, p) || Err(error) == CreatedAt(codec, p)
            || Err(error) == ParseOptionalTime(codec, Get(p, "updated_at")) || Err(error) == ParseVersion(codec, p)
  {}

  lemma LedgerRejected(codec: Codec, p: Payload)
    requires ParseLedger(codec, p).Err?
    ensures LedgerFault(codec, p, ParseLedger(codec, p).error)
  {
    LedgerErrors(codec, p);
    NumberFails(codec, Get(p, "amount"), "amount");
    NumberFails(codec, Get(p, "amount_signed"), "amount_signed");
    TimesFail(codec, p);
    StampFails(codec, p);
  }

  predicate OrderFault(codec: Codec, p: Payload, error: ParseError) {
    || (error == Required("order_id") && NoText(codec, Get(p, "order_id")))
    || (error == Required("status") && NoText(codec, Get(p, "status")))
    || NumberFault(codec, Get(p, "amount"), "amount", error)
    || TimeFault(codec, Get(p, "created_at"), "created_at", error)
    || StampFault(codec, p, error)
  }

  lemma OrderRejected(codec: Codec, p: Payload)
    requires ParseOrder(codec, p).Err?
    ensures OrderFault(codec, p, ParseOrder(codec, p).error)
  {
    NumberFails(codec, Get(p, "amount"), "amount");
    StampFails(codec, p);
  }

  // ---------------------------------------------------------------- routing

  /** A payload on the ledger topic is normalised by the ledger groups and required fields, and becomes the
      ledger change that it reads as; a rejection is the contract's or names a field without a reading. */
  lemma LedgerTopicDecodes(profile: Profile, codec: Codec, payload: Payload, e: LedgerEvent)
    ensures var decoded := Decode(profile, codec, profile.ledgerTopic, payload);
            var normalized := Normalize(payload, profile.ledgerAliases, profile.ledgerRequired);
            && (normalized.Err? ==> decoded == Err(Contract(normalized.error)))
            && (normalized.Ok? ==>
                && (decoded == Ok(LedgerChange(e)) <==> IsLedgerReading(codec, normalized.value.payload, e))
                && (decoded.Err? ==>
                    decoded.error.Parse? && LedgerFault(codec, normalized.value.payload, decoded.error.parseError))
                && (decoded.Ok? ==> decoded.value.LedgerChange?))
  {
    var normalized := Normalize(payload, profile.ledgerAliases, profile.ledgerRequired);
    if normalized.Ok? {
      LedgerFields(codec, normalized.value.payload, e);
      if ParseLedger(codec, normalized.value.payload).Err? {
        LedgerRejected(codec, normalized.value.payload);
      }
    }
  }

  /** The same of the order topic, unless it is the ledger topic. */
  lemma OrderTopicDecodes(profile: Profile, codec: Codec, payload: Payload, e: OrderEvent)
    requires profile.orderTopic != profile.ledgerTopic
    ensures var decoded := Decode(profile, codec, profile.orderTopic, payload);
            var normalized := Normalize(payload, profile.orderAliases, profile.orderRequired);
            && (normalized.Err? ==> decoded == Err(Contract(normalized.error)))
            && (normalized.Ok? ==>
                && (decoded == Ok(OrderChange(e)) <==> IsOrderReading(codec, normalized.value.payload, e))
                && (decoded.Err? ==>
                    decoded.error.Parse? && OrderFault(codec, normalized.value.payload, decoded.error.parseError))
                && (decoded.Ok? ==> decoded.value.OrderChange?))
  {
    var normalized := Normalize(payload, profile.orderAliases, profile.orderRequired);
    if normalized.Ok? {
      OrderFields(codec, normalized.value.payload, e);
      if ParseOrder(codec, normalized.value.payload).Err? {
        OrderRejected(codec, normalized.value.payload);
      }
    }
  }

  /** Any other topic is rejected. */
  lemma OtherTopicsAreRejected(profile: Profile, codec: Codec, topic: string, payload: Payload)
    requires topic != profile.ledgerTopic && topic != profile.orderTopic
    ensures Decode(profile, codec, topic, payload) == Err(Contract(UnsupportedTopic))
  {}
}
