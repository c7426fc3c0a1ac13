/**
 The event contract: alias resolution and required fields in front of the parsers
 (src/consumer/contract_normalizer.py, src/consumer/contract_profile.py).
 */
module Contract {
  import opened Wrappers

  // ---------------------------------------------------------------- Python values

  datatype Binary = Binary(mantissa: int, scale: nat)

  /** A finite float, `mantissa / 2^scale` in lowest terms. */
  type Double = x: Binary | x.scale == 0 || x.mantissa % 2 == 1 witness Binary(0, 0)

  function TwoTo(n: nat): (p: int)
    ensures p > 0
  {
    if n == 0 then 1 else 2 * TwoTo(n - 1)
  }

  /** A decoded JSON value. Lists and objects are opaque; Python's `==` compares their elements, and
      `alike` names the class of those that it takes for equal. */
  datatype Value =
    | Null
    | Bool(b: bool)
    | Int(n: int)
    | Float(x: Double)
    | Text(s: string)
    | Tree(id: int, alike: int, isEmpty: bool)

  type Payload = map<string, Value>

  /** `payload.get(key)`. */
  function Get(payload: Payload, key: string): Value {
    if key in payload then payload[key] else Null
  }

  predicate IsTrue(v: Value) {
    match v
    case Null => false
    case Bool(b) => b
    case Int(n) => n != 0
    case Float(x) => x.mantissa != 0
    case Text(s) => s != ""
    case Tree(_, _, isEmpty) => !isEmpty
  }

  predicate IsNumber(v: Value) { v.Bool? || v.Int? || v.Float? }

  function NumberOf(v: Value): real
    requires IsNumber(v)
  {
    match v
    case Bool(b) => if b then 1.0 else 0.0
    case Int(n) => n as real
    case Float(x) => x.mantissa as real / TwoTo(x.scale) as real
  }

  /** Python's `==`: numbers and booleans compare by value, lists and objects by their elements. */
  predicate PyEq(v: Value, w: Value) {
    if IsNumber(v) && IsNumber(w) then NumberOf(v) == NumberOf(w)
    else if v.Tree? && w.Tree? then v.alike == w.alike && v.isEmpty == w.isEmpty
    else v == w
  }

  /** The code points `str.strip` removes. */
  predicate IsSpace(c: char) {
    var n := c as int;
    || 9 <= n <= 13 || 28 <= n <= 32 || n == 133 || n == 160 || n == 5760
    || 8192 <= n <= 8202 || n == 8232 || n == 8233 || n == 8239 || n == 8287 || n == 12288
  }

  predicate Stripped(s: string) {
    s != "" ==> !IsSpace(s[0]) && !IsSpace(s[|s| - 1])
  }

  function Strip(s: string): (r: string)
    ensures Stripped(r)
    ensures Stripped(s) ==> r == s
  {
    if s != "" && IsSpace(s[0]) then Strip(s[1..])
    else if s != "" && IsSpace(s[|s| - 1]) then Strip(s[..|s| - 1])
    else s
  }

  /** What is stripped is white space on either side, and all of it. */
  ghost predicate Trims(s: string, i: int, j: int, r: string) {
    && 0 <= i <= j <= |s| && r == s[i..j]
    && forall k | 0 <= k < |s| && !(i <= k < j) :: IsSpace(s[k])
  }

  lemma {:induction false} StripTrims(s: string) returns (i: nat, j: nat)
    ensures Trims(s, i, j, Strip(s)) && Stripped(Strip(s))
    decreases |s|
  {
    i, j := 0, |s|;
    if s != "" && IsSpace(s[0]) {
      i, j := StripTrims(s[1..]);
      i, j := i + 1, j + 1;
      assert s[1..][i - 1..j - 1] == s[i..j];
      assert forall k | 1 <= k < |s| :: s[k] == s[1..][k - 1];
    } else if s != "" && IsSpace(s[|s| - 1]) {
      i, j := StripTrims(s[..|s| - 1]);
      assert s[..|s| - 1][i..j] == s[i..j];
      assert forall k | 0 <= k < |s| - 1 :: s[k] == s[..|s| - 1][k];
    }
  }

  predicate IsMissing(v: Value) {
    v.Null? || (v.Text? && Strip(v.s) == "")
  }

  function NormalizeValue(v: Value): Value {
    if v.Text? then Text(Strip(v.s)) else v
  }

  // ---------------------------------------------------------------- profiles

  datatype AliasGroup = AliasGroup(canonical: string, aliases: seq<string>)

  datatype TopicKind = LedgerTopic | OrderTopic

  datatype Profile = Profile(
    ledgerTopic: string, orderTopic: string,
    ledgerAliases: seq<AliasGroup>, orderAliases: seq<AliasGroup>,
    ledgerRequired: seq<string>, orderRequired: seq<string>)
  {
    function KindOf(topic: string): Option<TopicKind> {
      if topic == ledgerTopic then Some(LedgerTopic) else if topic == orderTopic then Some(OrderTopic) else None
    }

    function AliasesFor(kind: TopicKind): seq<AliasGroup> {
      if kind == LedgerTopic then ledgerAliases else orderAliases
    }

    function RequiredFor(kind: TopicKind): seq<string> {
      if kind == LedgerTopic then ledgerRequired else orderRequired
    }
  }

  datatype ContractError = UnsupportedTopic | AliasConflict(canonical: string) | MissingFields(fields: seq<string>)

  // ---------------------------------------------------------------- one alias group

  function FirstPresent(payload: Payload, aliases: seq<string>): (first: Option<string>)
    ensures first.None? <==> forall alias | alias in aliases :: IsMissing(Get(payload, alias))
    ensures first.Some? ==> first.value in aliases && !IsMissing(Get(payload, first.value))
  {
    if aliases == [] then None
    else if !IsMissing(Get(payload, aliases[0])) then Some(aliases[0])
    else
      assert forall alias | alias in aliases :: alias == aliases[0] || alias in aliases[1..];
      FirstPresent(payload, aliases[1..])
  }

  /** Every alias that carries a value carries `v`, up to Python equality. */
  predicate AllAgree(payload: Payload, aliases: seq<string>, v: Value) {
    forall alias | alias in aliases && !IsMissing(Get(payload, alias)) :: PyEq(NormalizeValue(Get(payload, alias)), v)
  }

  /** What a group resolves to: the first alias with a value, unless another alias disagrees. */
  function Resolve(payload: Payload, group: AliasGroup): Result<Option<(string, Value)>, ContractError> {
    var first := FirstPresent(payload, group.aliases);
    if first.None? then Ok(None)
    else
      var v := NormalizeValue(Get(payload, first.value));
      if AllAgree(payload, group.aliases, v) then Ok(Some((first.value, v))) else Err(AliasConflict(group.canonical))
  }

  /** The value counts: it is not null, and not a text of white space alone. */
  ghost predicate Counts(v: Value) { !v.Null? && (v.Text? ==> exists k :: 0 <= k < |v.s| && !IsSpace(v.s[k])) }

  lemma CountsIff(v: Value)
    ensures Counts(v) <==> !IsMissing(v)
  {
    if v.Text? {
      var i, j := StripTrims(v.s);
      if Strip(v.s) != "" {
        assert !IsSpace(v.s[i]) by {
          assert v.s[i..j][0] == v.s[i];
        }
      }
    }
  }

  /** Two aliases of the group carry values that Python does not hold equal. */
  ghost predicate Conflict(payload: Payload, aliases: seq<string>) {
    exists a, b :: a in aliases && b in aliases && Counts(Get(payload, a)) && Counts(Get(payload, b))
                   && !PyEq(NormalizeValue(Get(payload, a)), NormalizeValue(Get(payload, b)))
  }

  /** A group resolves to the value of the first of its aliases that carries one, with the blanks around a
      text removed; to nothing if none does; and to a conflict exactly if two of them disagree. */
  lemma ResolveColumns(payload: Payload, group: AliasGroup)
    ensures var resolved := Resolve(payload, group);
            && (resolved == Err(AliasConflict(group.canonical)) <==> Conflict(payload, group.aliases))
            && (resolved == Ok(None) <==> forall alias | alias in group.aliases :: !Counts(Get(payload, alias)))
            && (resolved.Ok? && resolved.value.Some? ==>
                  var (alias, v) := resolved.value.value;
                  && (exists i :: CarriesFirst(payload, group.aliases, i) && group.aliases[i] == alias)
                  && v == (if Get(payload, alias).Text? then Text(Strip(Get(payload, alias).s))
                           else Get(payload, alias)))
  {
    forall alias
      ensures Counts(Get(payload, alias)) <==> !IsMissing(Get(payload, alias))
    {
      CountsIff(Get(payload, alias));
    }
    var i := FirstPosition(payload, group.aliases);
  }

  /** The alias at `i` is the first of the list that carries a value. */
  ghost predicate CarriesFirst(payload: Payload, aliases: seq<string>, i: int) {
    && 0 <= i < |aliases| && Counts(Get(payload, aliases[i]))
    && forall j | 0 <= j < i :: !Counts(Get(payload, aliases[j]))
  }

  lemma {:induction false} FirstPosition(payload: Payload, aliases: seq<string>) returns (i: nat)
    ensures var first := FirstPresent(payload, aliases);
            first.Some? ==> CarriesFirst(payload, aliases, i) && aliases[i] == first.value
  {
    i := 0;
    if aliases != [] {
      CountsIff(Get(payload, aliases[0]));
      if IsMissing(Get(payload, aliases[0])) {
        i := FirstPosition(payload, aliases[1..]);
        i := i + 1;
        assert forall j | 1 <= j < |aliases| :: aliases[j] == aliases[1..][j - 1];
      }
    }
  }

  /** The aliases with a value, in order, as `_resolve_alias_value` collects them. */
  function Candidates(payload: Payload, aliases: seq<string>): seq<(string, Value)> {
    if aliases == [] then []
    else
      var init, last := aliases[..|aliases| - 1], aliases[|aliases| - 1];
      Candidates(payload, init)
      + if IsMissing(Get(payload, last)) then [] else [(last, NormalizeValue(Get(payload, last)))]
  }

  lemma {:induction false} CandidatesMean(payload: Payload, aliases: seq<string>)
    ensures var cs := Candidates(payload, aliases);
            && (cs == [] <==> FirstPresent(payload, aliases).None?)
            && (cs != [] ==>
                FirstPresent(payload, aliases) == Some(cs[0].0) && cs[0].1 == NormalizeValue(Get(payload, cs[0].0)))
            && forall v :: AllAgree(payload, aliases, v) <==> forall i | 0 <= i < |cs| :: PyEq(cs[i].1, v)
  {
    if aliases != [] {
      var init, last := aliases[..|aliases| - 1], aliases[|aliases| - 1];
      CandidatesMean(payload, init);
      assert aliases == init + [last];
      FirstPresentSnoc(payload, init, last);
      var cs, before := Candidates(payload, aliases), Candidates(payload, init);
      forall v
        ensures AllAgree(payload, aliases, v) <==> forall i | 0 <= i < |cs| :: PyEq(cs[i].1, v)
      {
        AgreeSnoc(payload, init, last, v);
        if !IsMissing(Get(payload, last)) {
          assert cs == before + [(last, NormalizeValue(Get(payload, last)))];
          assert cs[|before|].1 == NormalizeValue(Get(payload, last)) && forall i | 0 <= i < |before| ::
            cs[i] == before[i];
        } else {
          assert cs == before;
        }
      }
    }
  }

  lemma AgreeSnoc(payload: Payload, init: seq<string>, last: string, v: Value)
    ensures AllAgree(payload, init + [last], v) <==>
            AllAgree(payload, init, v) && (IsMissing(Get(payload, last)) || PyEq(NormalizeValue(Get(payload, last)), v))
  {}

  lemma {:induction false} FirstPresentSnoc(payload: Payload, init: seq<string>, last: string)
    ensures FirstPresent(payload, init + [last])
            == if FirstPresent(payload, init).Some? then FirstPresent(payload, init)
               else if IsMissing(Get(payload, last)) then None else Some(last)
  {
    if init == [] {
      assert init + [last] == [last];
    } else {
      FirstPresentSnoc(payload, init[1..], last);
      assert (init + [last])[1..] == init[1..] + [last];
    }
  }

  /** `_resolve_alias_value`. */
  method ResolveAliasValue(payload: Payload, group: AliasGroup)
    returns (resolved: Result<Option<(string, Value)>, ContractError>)
    ensures resolved == Resolve(payload, group)
  {
    var candidates := [];
    for i := 0 to |group.aliases|
      invariant candidates == Candidates(payload, group.aliases[..i])
    {
      assert group.aliases[..i + 1][..i] == group.aliases[..i];
      var raw := Get(payload, group.aliases[i]);
      if !IsMissing(raw) {
        candidates := candidates + [(group.aliases[i], NormalizeValue(raw))];
      }
    }
    assert group.aliases[..|group.aliases|] == group.aliases;
    CandidatesMean(payload, group.aliases);
    if candidates == [] {
      return Ok(None);
    }
    var firstValue := candidates[0].1;
    for i := 1 to |candidates|
      invariant forall j | 0 <= j < i :: PyEq(candidates[j].1, firstValue)
    {
      if !PyEq(candidates[i].1, firstValue) {
        assert !AllAgree(payload, group.aliases, firstValue);
        return Err(AliasConflict(group.canonical));
      }
    }
    assert AllAgree(payload, group.aliases, firstValue);
    resolved := Ok(Some((candidates[0].0, firstValue)));
  }

  // ---------------------------------------------------------------- a whole payload

  datatype Normalized = Normalized(payload: Payload, aliasHits: seq<(string, string)>)

  /** The canonical keys of the groups set to their resolved values; every group reads the original payload. */
  function Overlay(payload: Payload, groups: seq<AliasGroup>): Result<Normalized, ContractError> {
    if groups == [] then Ok(Normalized(payload, []))
    else
      var before := Overlay(payload, groups[..|groups| - 1]);
      if before.Err? then before
      else
        var group := groups[|groups| - 1];
        match Resolve(payload, group)
        case Err(e) => Err(e)
        case Ok(None) => before
        case Ok(Some((alias, v))) =>
          Ok(Normalized(
               before.value.payload[group.canonical := v],
               if alias == group.canonical then before.value.aliasHits
               else before.value.aliasHits + [(group.canonical, alias)]))
  }

  const SENTINEL := "event_time_or_alias"

  function RequiredKey(required: string): string {
    if required == SENTINEL then "event_time" else required
  }

  function MissingOf(payload: Payload, required: seq<string>): seq<string> {
    if required == [] then []
    else
      var last := required[|required| - 1];
      MissingOf(payload, required[..|required| - 1])
      + if IsMissing(Get(payload, RequiredKey(last))) then [last] else []
  }

  function Normalize(
    payload: Payload, groups: seq<AliasGroup>, required: seq<string>): Result<Normalized, ContractError> {
    var overlaid := Overlay(payload, groups);
    if overlaid.Err? then overlaid
    else
      var missing := MissingOf(overlaid.value.payload, required);
      if missing == [] then overlaid else Err(MissingFields(missing))
  }

  /** Reported missing are the required fields whose key carries no value; the one that stands for an event
      time under any alias is looked for under `event_time`. */
  lemma {:induction false} MissingColumns(payload: Payload, required: seq<string>, field: string)
    ensures field in MissingOf(payload, required)
            <==> field in required
                 && !Counts(Get(payload, if field == "event_time_or_alias" then "event_time" else field))
  {
    CountsIff(Get(payload, RequiredKey(field)));
    if required != [] {
      var init, last := required[..|required| - 1], required[|required| - 1];
      MissingColumns(payload, init, field);
      assert required == init + [last];
    }
  }

  method ValidateCoreRequired(payload: Payload, required: seq<string>) returns (missing: seq<string>)
    ensures missing == MissingOf(payload, required)
  {
    missing := [];
    for i := 0 to |required|
      invariant missing == MissingOf(payload, required[..i])
    {
      assert required[..i + 1][..i] == required[..i];
      if IsMissing(Get(payload, RequiredKey(required[i]))) {
        missing := missing + [required[i]];
      }
    }
    assert required[..|required|] == required;
  }

  /** `normalize_payload_for_topic`. */
  method NormalizePayloadForTopic(topic: string, payload: Payload, profile: Profile)
    returns (normalized: Result<Normalized, ContractError>)
    ensures normalized == match profile.KindOf(topic)
                          case None => Err(UnsupportedTopic)
                          case Some(kind) => Normalize(payload, profile.AliasesFor(kind), profile.RequiredFor(kind))
  {
    var kind := profile.KindOf(topic);
    if kind.None? {
      return Err(UnsupportedTopic);
    }
    var groups := profile.AliasesFor(kind.value);
    var current, aliasHits := payload, [];
    for i := 0 to |groups|
      invariant Overlay(payload, groups[..i]) == Ok(Normalized(current, aliasHits))
    {
      assert groups[..i + 1][..i] == groups[..i] && groups[..i + 1][i] == groups[i];
      var resolved := ResolveAliasValue(payload, groups[i]);
      if resolved.Err? {
        OverlayFails(payload, groups, i);
        return Err(resolved.error);
      }
      if resolved.value.Some? {
        var (alias, v) := resolved.value.value;
        current := current[groups[i].canonical := v];
        if alias != groups[i].canonical {
          aliasHits := aliasHits + [(groups[i].canonical, alias)];
        }
      }
    }
    assert groups[..|groups|] == groups;
    var missing := ValidateCoreRequired(current, profile.RequiredFor(kind.value));
    normalized := if missing == [] then Ok(Normalized(current, aliasHits)) else Err(MissingFields(missing));
  }

  /** A conflict in one group is the outcome, whatever the later groups hold. */
  lemma {:induction false} OverlayFails(payload: Payload, groups: seq<AliasGroup>, i: nat)
    requires i < |groups| && Overlay(payload, groups[..i]).Ok? && Resolve(payload, groups[i]).Err?
    ensures Overlay(payload, groups) == Err(Resolve(payload, groups[i]).error)
    decreases |groups|
  {
    var init := groups[..|groups| - 1];
    if i == |groups| - 1 {
      assert groups[..i] == init;
    } else {
      assert init[..i] == groups[..i];
      OverlayFails(payload, init, i);
    }
  }

  // ---------------------------------------------------------------- what normalisation keeps

  /** Canonical keys are distinct, and none is an alias of another group. */
  ghost predicate Separate(groups: seq<AliasGroup>) {
    forall i, j | 0 <= i < |groups| && 0 <= j < |groups| && i != j ::
      groups[i].canonical != groups[j].canonical && groups[i].canonical !in groups[j].aliases
  }

  /** Canonical keys are distinct, as the keys of a mapping are. */
  ghost predicate DistinctKeys(groups: seq<AliasGroup>) {
    forall i, j | 0 <= i < j < |groups| :: groups[i].canonical != groups[j].canonical
  }

  /** The overlay, key by key: resolved canonical keys change, nothing else does. */
  lemma {:induction false} OverlayPointwise(payload: Payload, groups: seq<AliasGroup>)
    requires DistinctKeys(groups) && Overlay(payload, groups).Ok?
    ensures var out := Overlay(payload, groups).value.payload;
            && (forall i | 0 <= i < |groups| ::
                  && Resolve(payload, groups[i]).Ok?
                  && (Resolve(payload, groups[i]).value.Some? ==>
                        groups[i].canonical in out
                          && out[groups[i].canonical] == Resolve(payload, groups[i]).value.value.1)
                  && (Resolve(payload, groups[i]).value.None? ==> SameAt(out, payload, groups[i].canonical)))
            && (forall key | (forall i | 0 <= i < |groups| :: groups[i].canonical != key) :: SameAt(out, payload, key))
  {
    if groups != [] {
      var init, group := groups[..|groups| - 1], groups[|groups| - 1];
      assert DistinctKeys(init);
      OverlayPointwise(payload, init);
      assert forall i | 0 <= i < |init| :: init[i] == groups[i];
      assert forall i | 0 <= i < |init| :: init[i].canonical != group.canonical;
      var out := Overlay(payload, groups).value.payload;
      forall key | forall i | 0 <= i < |groups| :: groups[i].canonical != key
        ensures SameAt(out, payload, key)
      {
        assert group.canonical != key;
        assert forall i | 0 <= i < |init| :: init[i].canonical != key;
        assert SameAt(Overlay(payload, init).value.payload, payload, key);
      }
    }
  }

  predicate SameAt(p: Payload, q: Payload, key: string) {
    (key in p <==> key in q) && (key in p ==> p[key] == q[key])
  }

  /** Resolving a group again, after its canonical key was set to the resolved value. */
  lemma ResolveAgain(p: Payload, q: Payload, group: AliasGroup)
    requires Resolve(p, group).Ok? && Resolve(p, group).value.Some?
    requires Get(q, group.canonical) == Resolve(p, group).value.value.1
    requires forall alias | alias in group.aliases && alias != group.canonical :: SameAt(q, p, alias)
    ensures Resolve(q, group).Ok? && Resolve(q, group).value.Some?
    ensures Resolve(q, group).value.value.1 == Resolve(p, group).value.value.1
  {
    var (a, v) := Resolve(p, group).value.value;
    assert NormalizeValue(v) == v && !IsMissing(v);
    FirstAgain(p, q, group.aliases, group.canonical, a);
    assert AllAgree(q, group.aliases, v);
  }

  lemma {:induction false} FirstAgain(p: Payload, q: Payload, aliases: seq<string>, canonical: string, a: string)
    requires FirstPresent(p, aliases) == Some(a) && !IsMissing(Get(q, canonical))
    requires Get(q, canonical) == NormalizeValue(Get(p, a))
    requires forall alias | alias in aliases && alias != canonical :: SameAt(q, p, alias)
    ensures FirstPresent(q, aliases).Some?
    ensures NormalizeValue(Get(q, FirstPresent(q, aliases).value)) == NormalizeValue(Get(p, a))
  {
    if IsMissing(Get(p, aliases[0])) && aliases[0] != canonical {
      assert SameAt(q, p, aliases[0]);
      FirstAgain(p, q, aliases[1..], canonical, a);
    }
  }

  lemma ResolveSame(p: Payload, q: Payload, group: AliasGroup)
    requires forall alias | alias in group.aliases :: SameAt(q, p, alias)
    ensures Resolve(q, group) == Resolve(p, group)
  {
    FirstSame(p, q, group.aliases);
  }

  lemma {:induction false} FirstSame(p: Payload, q: Payload, aliases: seq<string>)
    requires forall alias | alias in aliases :: SameAt(q, p, alias)
    ensures FirstPresent(q, aliases) == FirstPresent(p, aliases)
  {
    if aliases != [] {
      assert SameAt(q, p, aliases[0]);
      FirstSame(p, q, aliases[1..]);
    }
  }

  /** Each group resolves in the normalised payload to what it resolved to before. */
  lemma GroupAgain(payload: Payload, groups: seq<AliasGroup>, i: nat)
    requires Separate(groups) && Overlay(payload, groups).Ok? && i < |groups|
    ensures var out := Overlay(payload, groups).value.payload;
            && Resolve(out, groups[i]).Ok?
            && (Resolve(out, groups[i]).value.Some? ==>
                  groups[i].canonical in out && out[groups[i].canonical] == Resolve(out, groups[i]).value.value.1)
  {
    OverlayPointwise(payload, groups);
    var out, group := Overlay(payload, groups).value.payload, groups[i];
    forall alias | alias in group.aliases && alias != group.canonical
      ensures SameAt(out, payload, alias)
    {
    }
    if Resolve(payload, group).value.Some? {
      ResolveAgain(payload, out, group);
    } else {
      ResolveSame(payload, out, group);
    }
  }

  lemma {:induction false} OverlayFixed(out: Payload, groups: seq<AliasGroup>)
    requires forall group | group in groups ::
               && Resolve(out, group).Ok?
               && (Resolve(out, group).value.Some? ==>
                     group.canonical in out && out[group.canonical] == Resolve(out, group).value.value.1)
    ensures Overlay(out, groups).Ok? && Overlay(out, groups).value.payload == out
  {
    if groups != [] {
      assert groups[|groups| - 1] in groups;
      OverlayFixed(out, groups[..|groups| - 1]);
    }
  }

  /** Normalising a normalised payload succeeds and changes nothing. */
  lemma NormalizeIsIdempotent(payload: Payload, groups: seq<AliasGroup>, required: seq<string>)
    requires Separate(groups) && Normalize(payload, groups, required).Ok?
    ensures var out := Normalize(payload, groups, required).value.payload;
            Normalize(out, groups, required).Ok? && Normalize(out, groups, required).value.payload == out
  {
    var out := Normalize(payload, groups, required).value.payload;
    forall group | group in groups
      ensures && Resolve(out, group).Ok?
              && (Resolve(out, group).value.Some? ==>
                    group.canonical in out && out[group.canonical] == Resolve(out, group).value.value.1)
    {
      var i :| 0 <= i < |groups| && groups[i] == group;
      GroupAgain(payload, groups, i);
    }
    OverlayFixed(out, groups);
  }

  // ---------------------------------------------------------------- the order of aliases

  ghost predicate SameAliases(groups: seq<AliasGroup>, groups': seq<AliasGroup>) {
    && |groups| == |groups'|
    && forall i | 0 <= i < |groups| ::
      && groups[i].canonical == groups'[i].canonical
      && forall alias :: alias in groups[i].aliases <==> alias in groups'[i].aliases
  }

  ghost predicate PyEqPayloads(p: Payload, q: Payload) {
    p.Keys == q.Keys && forall key | key in p :: PyEq(p[key], q[key])
  }

  /** Reordering the aliases of a group changes neither whether it resolves nor, up to Python
      equality, to what; for values other than numbers, to exactly what. */
  lemma ResolveReordered(payload: Payload, group: AliasGroup, group': AliasGroup)
    requires group.canonical == group'.canonical
    requires forall alias :: alias in group.aliases <==> alias in group'.aliases
    ensures Resolve(payload, group).Err? ==> Resolve(payload, group') == Resolve(payload, group)
    ensures Resolve(payload, group).Ok? ==> Resolve(payload, group').Ok?
    ensures Resolve(payload, group).Ok? ==>
              var r, r' := Resolve(payload, group).value, Resolve(payload, group').value;
              (r.None? <==> r'.None?) && (r.Some? ==> PyEq(r.value.1, r'.value.1))
  {}

  lemma PyEqUpdate(p: Payload, q: Payload, key: string, v: Value, w: Value)
    requires PyEqPayloads(p, q) && PyEq(v, w)
    ensures PyEqPayloads(p[key := v], q[key := w])
  {}

  lemma {:induction false} OverlayReordered(payload: Payload, groups: seq<AliasGroup>, groups': seq<AliasGroup>)
    requires SameAliases(groups, groups')
    ensures Overlay(payload, groups).Err? ==> Overlay(payload, groups') == Overlay(payload, groups)
    ensures Overlay(payload, groups).Ok? ==>
              Overlay(payload, groups').Ok?
              && PyEqPayloads(Overlay(payload, groups).value.payload, Overlay(payload, groups').value.payload)
  {
    if groups != [] {
      var init, init' := groups[..|groups| - 1], groups'[..|groups'| - 1];
      var group, group' := groups[|groups| - 1], groups'[|groups| - 1];
      OverlayReordered(payload, init, init');
      ResolveReordered(payload, group, group');
      if Overlay(payload, groups).Ok? && Resolve(payload, group).value.Some? {
        PyEqUpdate(Overlay(payload, init).value.payload, Overlay(payload, init').value.payload, group.canonical,
                   Resolve(payload, group).value.value.1, Resolve(payload, group').value.value.1);
      }
    }
  }

  lemma {:induction false} MissingSame(p: Payload, q: Payload, required: seq<string>)
    requires PyEqPayloads(p, q)
    ensures MissingOf(p, required) == MissingOf(q, required)
  {
    if required != [] {
      MissingSame(p, q, required[..|required| - 1]);
      var key := RequiredKey(required[|required| - 1]);
      assert key in p <==> key in q;
    }
  }

  /** Python holds nothing else equal to the value. */
  predicate Alone(v: Value) { v.Null? || v.Text? }

  /** Permuting alias lists changes the alias hits and, at most, which of several numbers, lists or
      objects that Python holds equal is stored; the verdict and the error stay the same. */
  lemma AliasOrderDoesNotMatter(
    payload: Payload, groups: seq<AliasGroup>, groups': seq<AliasGroup>, required: seq<string>)
    requires SameAliases(groups, groups')
    ensures var r, r' := Normalize(payload, groups, required), Normalize(payload, groups', required);
            if r.Err? then r' == r else r'.Ok? && PyEqPayloads(r.value.payload, r'.value.payload)
    ensures var r, r' := Normalize(payload, groups, required), Normalize(payload, groups', required);
            r.Ok? && (forall key | key in r.value.payload :: Alone(r.value.payload[key])) ==>
              r'.value.payload == r.value.payload
  {
    OverlayReordered(payload, groups, groups');
    if Overlay(payload, groups).Ok? {
      MissingSame(Overlay(payload, groups).value.payload, Overlay(payload, groups').value.payload, required);
    }
  }

  /** Such cases are real: `1` and `true`, or `[1]` and `[true]`, are equal aliases, and the first listed
      one is stored. */
  lemma AliasOrderCanShow(v: Value, w: Value)
    requires PyEq(v, w) && v != w
    ensures var payload := map["version" := v, "source_version" := w];
            var here := AliasGroup("version", ["version", "source_version"]);
            var there := AliasGroup("version", ["source_version", "version"]);
            Resolve(payload, here) == Ok(Some(("version", v)))
              && Resolve(payload, there) == Ok(Some(("source_version", w)))
    ensures PyEq(Int(1), Bool(true)) && PyEq(Tree(0, 0, false), Tree(1, 0, false))
  {}

  // ---------------------------------------------------------------- exactly when alias order shows

  /** All aliases that carry a value carry the same one, types included. */
  predicate Uniform(payload: Payload, aliases: seq<string>) {
    forall a, b | a in aliases && b in aliases && !IsMissing(Get(payload, a)) && !IsMissing(Get(payload, b)) ::
      NormalizeValue(Get(payload, a)) == NormalizeValue(Get(payload, b))
  }

  ghost predicate AllUniform(payload: Payload, groups: seq<AliasGroup>) {
    forall i | 0 <= i < |groups| :: Uniform(payload, groups[i].aliases)
  }

  /** Each alias list of `groups'` is a permutation of that of `groups`. */
  ghost predicate Permuted(groups: seq<AliasGroup>, groups': seq<AliasGroup>) {
    && |groups| == |groups'|
    && forall i | 0 <= i < |groups| ::
      groups[i].canonical == groups'[i].canonical && multiset(groups[i].aliases) == multiset(groups'[i].aliases)
  }

  lemma PermutedIsSame(groups: seq<AliasGroup>, groups': seq<AliasGroup>)
    requires Permuted(groups, groups')
    ensures SameAliases(groups, groups')
  {
    forall i, alias | 0 <= i < |groups|
      ensures alias in groups[i].aliases <==> alias in groups'[i].aliases
    {
      assert alias in groups[i].aliases <==> alias in multiset(groups[i].aliases);
      assert alias in groups'[i].aliases <==> alias in multiset(groups'[i].aliases);
    }
  }

  lemma UniformResolves(payload: Payload, group: AliasGroup, group': AliasGroup)
    requires group.canonical == group'.canonical && Uniform(payload, group.aliases)
    requires forall alias :: alias in group.aliases <==> alias in group'.aliases
    ensures Resolve(payload, group).Ok? && Resolve(payload, group').Ok?
    ensures var r, r' := Resolve(payload, group).value, Resolve(payload, group').value;
            (r.None? <==> r'.None?) && (r.Some? ==> r.value.1 == r'.value.1)
  {}

  lemma {:induction false} UniformOverlay(payload: Payload, groups: seq<AliasGroup>, groups': seq<AliasGroup>)
    requires SameAliases(groups, groups') && AllUniform(payload, groups)
    ensures Overlay(payload, groups).Ok? && Overlay(payload, groups').Ok?
    ensures Overlay(payload, groups).value.payload == Overlay(payload, groups').value.payload
  {
    if groups != [] {
      UniformOverlay(payload, groups[..|groups| - 1], groups'[..|groups'| - 1]);
      UniformResolves(payload, groups[|groups| - 1], groups'[|groups| - 1]);
    }
  }

  /** The list with the alias at `k` moved to the front. */
  function ToFront(aliases: seq<string>, k: nat): (moved: seq<string>)
    requires k < |aliases|
    ensures moved != [] && moved[0] == aliases[k]
    ensures multiset(moved) == multiset(aliases)
  {
    assert aliases == aliases[..k] + [aliases[k]] + aliases[k + 1..];
    [aliases[k]] + aliases[..k] + aliases[k + 1..]
  }

  /** Where two aliases carry different values, some order of the list resolves to another value. */
  lemma SomeOrderShows(payload: Payload, group: AliasGroup) returns (group': AliasGroup)
    requires !Uniform(payload, group.aliases) && Resolve(payload, group).Ok?
    ensures group'.canonical == group.canonical && multiset(group'.aliases) == multiset(group.aliases)
    ensures Resolve(payload, group).value.Some?
    ensures Resolve(payload, group').Ok? ==>
              Resolve(payload, group').value.Some?
                && Resolve(payload, group').value.value.1 != Resolve(payload, group).value.value.1
  {
    var a, b :| a in group.aliases && b in group.aliases && !IsMissing(Get(payload, a)) && !IsMissing(Get(payload, b))
                && NormalizeValue(Get(payload, a)) != NormalizeValue(Get(payload, b));
    var v := Resolve(payload, group).value.value.1;
    var other := if NormalizeValue(Get(payload, a)) != v then a else b;
    var k :| 0 <= k < |group.aliases| && group.aliases[k] == other;
    group' := AliasGroup(group.canonical, ToFront(group.aliases, k));
    assert FirstPresent(payload, group'.aliases) == Some(other);
  }

  /** The normalised payload is the same, whatever the order of the alias lists. */
  ghost predicate OrderFree(payload: Payload, groups: seq<AliasGroup>, required: seq<string>)
    requires Normalize(payload, groups, required).Ok?
  {
    forall groups' | Permuted(groups, groups') ::
      Normalize(payload, groups', required).Ok?
      && Normalize(payload, groups', required).value.payload == Normalize(payload, groups, required).value.payload
  }

  lemma OneOrderShows(payload: Payload, groups: seq<AliasGroup>, required: seq<string>, i: nat)
    requires DistinctKeys(groups) && Normalize(payload, groups, required).Ok?
    requires i < |groups| && !Uniform(payload, groups[i].aliases)
    ensures !OrderFree(payload, groups, required)
  {
    OverlayPointwise(payload, groups);
    var group := SomeOrderShows(payload, groups[i]);
    var groups' := groups[i := group];
    assert Permuted(groups, groups');
    PermutedIsSame(groups, groups');
    AliasOrderDoesNotMatter(payload, groups, groups', required);
    assert DistinctKeys(groups') && groups'[i] == group;
    OverlayPointwise(payload, groups');
    var out, out' :=
      Normalize(payload, groups, required).value.payload, Normalize(payload, groups', required).value.payload;
    assert out[group.canonical] != out'[group.canonical];
  }

  /** Permuting alias lists changes nothing but the alias hits of an accepted payload, exactly if in
      each group all aliases that carry a value carry the very same one. */
  lemma AliasOrderMattersIff(payload: Payload, groups: seq<AliasGroup>, required: seq<string>)
    requires DistinctKeys(groups) && Normalize(payload, groups, required).Ok?
    ensures OrderFree(payload, groups, required) <==> AllUniform(payload, groups)
  {
    if AllUniform(payload, groups) {
      forall groups' | Permuted(groups, groups')
        ensures Normalize(payload, groups', required).Ok?
                && Normalize(payload, groups', required).value.payload
                     == Normalize(payload, groups, required).value.payload
      {
        PermutedIsSame(groups, groups');
        UniformOverlay(payload, groups, groups');
      }
    } else {
      var i: nat :| i < |groups| && !Uniform(payload, groups[i].aliases);
      OneOrderShows(payload, groups, required, i);
    }
  }
}
