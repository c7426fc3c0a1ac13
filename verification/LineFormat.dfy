/**
 One text form of dead-letter records that meets everything the model asks of JSON (`DumpsLines`):
 each record is one line, line ends inside texts being escaped, and loads back as it was.
 Its syntax is simpler than JSON's; it stands for an encoder, it does not describe one.
 */
module LineFormat {
  import opened Wrappers
  import opened Contract
  import opened Dlq

  /** What a parser leaves: the value and the rest of the text. */
  type Parsed<T> = Option<(T, string)>

  // ---------------------------------------------------------------- numbers

  function Digit(d: nat): (c: char)
    requires d < 10
    ensures !EndsLine(c)
  {
    (d + 48) as char
  }

  function Digits(n: nat): (s: string)
    ensures OneLine(s)
  {
    if n < 10 then [Digit(n)] else Digits(n / 10) + [Digit(n % 10)]
  }

  function PrintNat(n: nat): (s: string)
    ensures OneLine(s)
  {
    Digits(n) + ";"
  }

  function ParseNat(s: string, sofar: nat): (r: Parsed<nat>)
    ensures r.Some? ==> |r.value.1| < |s|
  {
    if s == "" then None
    else if s[0] == ';' then Some((sofar, s[1..]))
    else if '0' <= s[0] <= '9' then ParseNat(s[1..], sofar * 10 + (s[0] as int - 48))
    else None
  }

  lemma {:induction false} DigitsParse(n: nat, rest: string)
    ensures ParseNat(Digits(n) + rest, 0) == ParseNat(rest, n)
  {
    if n < 10 {
      assert ([Digit(n)] + rest)[1..] == rest;
    } else {
      var last := [Digit(n % 10)];
      DigitsParse(n / 10, last + rest);
      assert Digits(n) + rest == Digits(n / 10) + (last + rest);
      assert (last + rest)[1..] == rest;
    }
  }

  lemma NatRoundTrip(n: nat, rest: string)
    ensures ParseNat(PrintNat(n) + rest, 0) == Some((n, rest))
  {
    assert PrintNat(n) + rest == Digits(n) + (";" + rest);
    DigitsParse(n, ";" + rest);
    assert (";" + rest)[1..] == rest;
  }

  function PrintInt(n: int): (s: string)
    ensures OneLine(s)
  {
    if n < 0 then "-" + PrintNat(-n) else "+" + PrintNat(n)
  }

  function ParseInt(s: string): (r: Parsed<int>)
    ensures r.Some? ==> |r.value.1| < |s|
  {
    if s == "" then None
    else
      match ParseNat(s[1..], 0)
      case None => None
      case Some((n, rest)) =>
        var m: int := n;
        Some((if s[0] == '-' then -m else m, rest))
  }

  lemma IntRoundTrip(n: int, rest: string)
    ensures ParseInt(PrintInt(n) + rest) == Some((n, rest))
  {
    var m := if n < 0 then -n else n;
    NatRoundTrip(m, rest);
    assert (PrintInt(n) + rest)[1..] == PrintNat(m) + rest;
  }

  function PrintOption(n: Option<nat>): (s: string)
    ensures OneLine(s)
  {
    if n.None? then "-" else "+" + PrintNat(n.value)
  }

  function ParseOption(s: string): (r: Parsed<Option<nat>>)
    ensures r.Some? ==> |r.value.1| < |s|
  {
    if s == "" then None
    else if s[0] == '-' then Some((None, s[1..]))
    else
      match ParseNat(s[1..], 0)
      case None => None
      case Some((n, rest)) => Some((Some(n), rest))
  }

  lemma OptionRoundTrip(n: Option<nat>, rest: string)
    ensures ParseOption(PrintOption(n) + rest) == Some((n, rest))
  {
    if n.Some? {
      NatRoundTrip(n.value, rest);
      assert (PrintOption(n) + rest)[1..] == PrintNat(n.value) + rest;
    } else {
      assert (PrintOption(n) + rest)[1..] == rest;
    }
  }

  // ---------------------------------------------------------------- texts

  function EscapeChar(c: char): (s: string)
    ensures OneLine(s)
  {
    if c == '\n' then ['\\', 'n'] else if c == '\r' then ['\\', 'r']
    else if c == '"' || c == '\\' then ['\\', c] else [c]
  }

  function Unescape(c: char): char { if c == 'n' then '\n' else if c == 'r' then '\r' else c }

  /** The text with line ends, quotes and backslashes escaped, closed by a quote. */
  function PrintText(text: string): (s: string)
    ensures OneLine(s)
  {
    if text == "" then "\"" else EscapeChar(text[0]) + PrintText(text[1..])
  }

  function ParseText(s: string): (r: Parsed<string>)
    ensures r.Some? ==> |r.value.1| < |s|
  {
    if s == "" then None
    else if s[0] == '"' then Some(("", s[1..]))
    else
      var escaped := s[0] == '\\';
      if escaped && |s| == 1 then None
      else
        match ParseText(if escaped then s[2..] else s[1..])
        case None => None
        case Some((text, rest)) => Some(([if escaped then Unescape(s[1]) else s[0]] + text, rest))
  }

  lemma {:induction false} TextRoundTrip(text: string, rest: string)
    ensures ParseText(PrintText(text) + rest) == Some((text, rest))
  {
    if text == "" {
      assert (PrintText(text) + rest)[1..] == rest;
    } else {
      var more := PrintText(text[1..]) + rest;
      TextRoundTrip(text[1..], rest);
      assert PrintText(text) + rest == EscapeChar(text[0]) + more;
      CharRoundTrip(text[0], more);
      assert [text[0]] + text[1..] == text;
    }
  }

  lemma CharRoundTrip(c: char, more: string)
    ensures ParseText(EscapeChar(c) + more)
            == match ParseText(more) case None => None case Some((text, rest)) => Some(([c] + text, rest))
  {
    var s := EscapeChar(c) + more;
    assert s[|EscapeChar(c)|..] == more;
  }

  // ---------------------------------------------------------------- values

  function PrintValue(v: Value): (s: string)
    ensures OneLine(s) && s != ""
  {
    match v
    case Null => "n"
    case Bool(b) => if b then "t" else "f"
    case Int(n) => "i" + PrintInt(n)
    case Float(x) => "d" + PrintInt(x.mantissa) + PrintNat(x.scale)
    case Text(text) => "s" + PrintText(text)
    case Tree(id, alike, isEmpty) => (if isEmpty then "e" else "o") + PrintInt(id) + PrintInt(alike)
  }

  function ParseFloat(s: string): (r: Parsed<Value>)
    ensures r.Some? ==> |r.value.1| < |s|
  {
    match ParseInt(s)
    case None => None
    case Some((mantissa, rest)) =>
      match ParseNat(rest, 0)
      case None => None
      case Some((scale, rest')) =>
        if scale == 0 || mantissa % 2 == 1 then Some((Float(Binary(mantissa, scale)), rest')) else None
  }

  function ParseTree(s: string, isEmpty: bool): (r: Parsed<Value>)
    ensures r.Some? ==> |r.value.1| < |s|
  {
    match ParseInt(s)
    case None => None
    case Some((id, rest)) =>
      match ParseInt(rest)
      case None => None
      case Some((alike, rest')) => Some((Tree(id, alike, isEmpty), rest'))
  }

  function ParseValue(s: string): (r: Parsed<Value>)
    ensures r.Some? ==> |r.value.1| < |s|
  {
    if s == "" then None
    else
      var rest := s[1..];
      match s[0]
      case 'n' => Some((Null, rest))
      case 't' => Some((Bool(true), rest))
      case 'f' => Some((Bool(false), rest))
      case 'i' => (match ParseInt(rest) case None => None case Some((n, rest')) => Some((Int(n), rest')))
      case 'd' => ParseFloat(rest)
      case 's' => (match ParseText(rest) case None => None case Some((text, rest')) => Some((Text(text), rest')))
      case 'e' => ParseTree(rest, true)
      case 'o' => ParseTree(rest, false)
      case _ => None
  }

  lemma FloatRoundTrip(x: Double, rest: string)
    ensures ParseFloat(PrintInt(x.mantissa) + PrintNat(x.scale) + rest) == Some((Float(x), rest))
  {
    assert PrintInt(x.mantissa) + PrintNat(x.scale) + rest == PrintInt(x.mantissa) + (PrintNat(x.scale) + rest);
    IntRoundTrip(x.mantissa, PrintNat(x.scale) + rest);
    NatRoundTrip(x.scale, rest);
  }

  lemma Tagged(tag: string, s: string, rest: string)
    requires |tag| == 1
    ensures (tag + s + rest)[0] == tag[0] && (tag + s + rest)[1..] == s + rest
  {}

  lemma IntValue(n: int, rest: string)
    ensures ParseValue("i" + PrintInt(n) + rest) == Some((Int(n), rest))
  {
    Tagged("i", PrintInt(n), rest);
    IntRoundTrip(n, rest);
  }

  lemma FloatValue(x: Double, rest: string)
    ensures ParseValue("d" + PrintInt(x.mantissa) + PrintNat(x.scale) + rest) == Some((Float(x), rest))
  {
    Tagged("d", PrintInt(x.mantissa) + PrintNat(x.scale), rest);
    assert "d" + PrintInt(x.mantissa) + PrintNat(x.scale) + rest
      == "d" + (PrintInt(x.mantissa) + PrintNat(x.scale)) + rest;
    FloatRoundTrip(x, rest);
  }

  lemma TextValue(text: string, rest: string)
    ensures ParseValue("s" + PrintText(text) + rest) == Some((Text(text), rest))
  {
    Tagged("s", PrintText(text), rest);
    TextRoundTrip(text, rest);
  }

  lemma TreeRoundTrip(id: int, alike: int, isEmpty: bool, rest: string)
    ensures ParseTree(PrintInt(id) + PrintInt(alike) + rest, isEmpty) == Some((Tree(id, alike, isEmpty), rest))
  {
    assert PrintInt(id) + PrintInt(alike) + rest == PrintInt(id) + (PrintInt(alike) + rest);
    IntRoundTrip(id, PrintInt(alike) + rest);
    IntRoundTrip(alike, rest);
  }

  lemma TreeValue(id: int, alike: int, isEmpty: bool, rest: string)
    ensures ParseValue((if isEmpty then "e" else "o") + PrintInt(id) + PrintInt(alike) + rest)
            == Some((Tree(id, alike, isEmpty), rest))
  {
    var tag := if isEmpty then "e" else "o";
    Tagged(tag, PrintInt(id) + PrintInt(alike), rest);
    assert tag + PrintInt(id) + PrintInt(alike) + rest == tag + (PrintInt(id) + PrintInt(alike)) + rest;
    TreeRoundTrip(id, alike, isEmpty, rest);
  }

  lemma PlainValue(v: Value, rest: string)
    requires v.Null? || v.Bool?
    ensures ParseValue(PrintValue(v) + rest) == Some((v, rest))
  {
    Tagged(PrintValue(v), "", rest);
    assert PrintValue(v) + "" + rest == PrintValue(v) + rest && "" + rest == rest;
  }

  lemma ValueRoundTrip(v: Value, rest: string)
    ensures ParseValue(PrintValue(v) + rest) == Some((v, rest))
  {
    match v {
      case Int(n) => IntValue(n, rest);
      case Float(x) => FloatValue(x, rest);
      case Text(text) => TextValue(text, rest);
      case Tree(id, alike, isEmpty) => TreeValue(id, alike, isEmpty, rest);
      case _ => PlainValue(v, rest);
    }
  }

  // ---------------------------------------------------------------- objects

  predicate IsFirstKey(keys: set<string>, key: string) {
    key in keys && forall other | other in keys :: other == key || TextBefore(key, other)
  }

  lemma FirstKeyExists(keys: set<string>) returns (first: string)
    requires keys != {}
    ensures IsFirstKey(keys, first)
  {
    first :| first in keys;
    if keys != {first} {
      var rest := FirstKeyExists(keys - {first});
      TextOrder(first, rest, rest);
      forall other | other in keys
        ensures TextBefore(first, rest) ==> other == first || TextBefore(first, other)
      {
        TextOrder(first, rest, other);
      }
      if !TextBefore(first, rest) {
        first := rest;
      }
    }
  }

  function FirstKey(keys: set<string>): (key: string)
    requires keys != {}
    ensures key in keys
  {
    assert exists key :: IsFirstKey(keys, key) by {
      var key := FirstKeyExists(keys);
    }
    assert forall a, b | IsFirstKey(keys, a) && IsFirstKey(keys, b) :: a == b by {
      forall a, b | IsFirstKey(keys, a) && IsFirstKey(keys, b)
        ensures a == b
      {
        TextOrder(a, b, a);
      }
    }
    var key :| key in keys && IsFirstKey(keys, key);
    key
  }

  /** Its entries in the order of their keys. */
  function PrintObject(fields: Payload): (s: string)
    ensures OneLine(s)
    decreases |fields|
  {
    if fields == map[] then "}"
    else
      var key := FirstKey(fields.Keys);
      "," + (PrintEntry(key, fields[key]) + PrintObject(fields - {key}))
  }

  function PrintEntry(key: string, v: Value): (s: string)
    ensures OneLine(s)
  {
    PrintText(key) + PrintValue(v)
  }

  function ParseEntry(s: string): (r: Parsed<(string, Value)>)
    ensures r.Some? ==> |r.value.1| < |s|
  {
    match ParseText(s)
    case None => None
    case Some((key, rest)) =>
      match ParseValue(rest)
      case None => None
      case Some((v, rest')) => Some(((key, v), rest'))
  }

  lemma EntryRoundTrip(key: string, v: Value, rest: string)
    ensures ParseEntry(PrintEntry(key, v) + rest) == Some(((key, v), rest))
  {
    assert PrintEntry(key, v) + rest == PrintText(key) + (PrintValue(v) + rest);
    TextRoundTrip(key, PrintValue(v) + rest);
    ValueRoundTrip(v, rest);
  }

  function ParseObject(s: string): (r: Parsed<Payload>)
    ensures r.Some? ==> |r.value.1| < |s|
    decreases |s|
  {
    if s == "" then None else if s[0] == '}' then Some((map[], s[1..])) else ParseMore(s[1..])
  }

  function ParseMore(s: string): (r: Parsed<Payload>)
    ensures r.Some? ==> |r.value.1| < |s|
    decreases |s|
  {
    match ParseEntry(s)
    case None => None
    case Some(((key, v), rest)) =>
      match ParseObject(rest)
      case None => None
      case Some((fields, rest')) => Some((fields[key := v], rest'))
  }

  lemma {:induction false} ObjectRoundTrip(fields: Payload, rest: string)
    ensures ParseObject(PrintObject(fields) + rest) == Some((fields, rest))
    decreases |fields|
  {
    if fields == map[] {
      assert (PrintObject(fields) + rest)[1..] == rest;
    } else {
      var key := FirstKey(fields.Keys);
      ObjectRoundTrip(fields - {key}, rest);
      var more := PrintObject(fields - {key}) + rest;
      EntryRoundTrip(key, fields[key], more);
      FirstEntry(PrintEntry(key, fields[key]), key, fields[key], fields - {key}, more, rest);
      assert (fields - {key})[key := fields[key]] == fields;
      PrintedFirst(fields, rest);
    }
  }

  lemma PrintedFirst(fields: Payload, rest: string)
    requires fields != map[]
    ensures var key := FirstKey(fields.Keys);
            PrintObject(fields) + rest == "," + (PrintEntry(key, fields[key]) + (PrintObject(fields - {key}) + rest))
  {
    var key := FirstKey(fields.Keys);
    Regroup(",", PrintEntry(key, fields[key]), PrintObject(fields - {key}), rest);
  }

  lemma Regroup(a: string, b: string, c: string, d: string)
    ensures (a + (b + c)) + d == a + (b + (c + d))
  {}

  lemma FirstEntry(entry: string, key: string, v: Value, others: Payload, more: string, rest: string)
    requires ParseEntry(entry + more) == Some(((key, v), more)) && ParseObject(more) == Some((others, rest))
    ensures ParseObject("," + (entry + more)) == Some((others[key := v], rest))
  {
    assert ("," + (entry + more))[1..] == entry + more;
    assert ParseMore(entry + more) == Some((others[key := v], rest));
  }

  // ---------------------------------------------------------------- records

  function PrintBody(body: Body): (s: string)
    ensures OneLine(s)
  {
    match body
    case Nothing => "-"
    case Line(text) => "\"" + PrintText(text)
    case Object(fields) => "{" + PrintObject(fields)
  }

  function ParseBody(s: string): Parsed<Body> {
    if s == "" then None
    else if s[0] == '-' then Some((Nothing, s[1..]))
    else if s[0] == '"' then
      (match ParseText(s[1..]) case None => None case Some((text, rest)) => Some((Line(text), rest)))
    else match ParseObject(s[1..]) case None => None case Some((fields, rest)) => Some((Object(fields), rest))
  }

  lemma LineBody(text: string, rest: string)
    ensures ParseBody("\"" + PrintText(text) + rest) == Some((Line(text), rest))
  {
    Tagged("\"", PrintText(text), rest);
    TextRoundTrip(text, rest);
  }

  lemma ObjectBody(fields: Payload, rest: string)
    ensures ParseBody("{" + PrintObject(fields) + rest) == Some((Object(fields), rest))
  {
    Tagged("{", PrintObject(fields), rest);
    ObjectRoundTrip(fields, rest);
  }

  lemma BodyRoundTrip(body: Body, rest: string)
    ensures ParseBody(PrintBody(body) + rest) == Some((body, rest))
  {
    match body {
      case Nothing => assert (PrintBody(body) + rest)[1..] == rest;
      case Line(text) => LineBody(text, rest);
      case Object(fields) => ObjectBody(fields, rest);
    }
  }

  function Dump(record: Record): (s: string)
    ensures OneLine(s)
  {
    "[" + (PrintText(record.topic)
    + (PrintOption(record.partition)
        + (PrintOption(record.offset) + (PrintBody(record.payload) + PrintText(record.error)))))
  }

  function Load(s: string): Option<Record> {
    if s == "" then None
    else
      match ParseText(s[1..])
      case None => None
      case Some((topic, s1)) =>
        match ParseOption(s1)
        case None => None
        case Some((partition, s2)) =>
          match ParseOption(s2)
          case None => None
          case Some((offset, s3)) =>
            match ParseBody(s3)
            case None => None
            case Some((payload, s4)) =>
              match ParseText(s4)
              case None => None
              case Some((error, s5)) =>
                if s5 == "" then Some(Record(topic, partition, offset, payload, error)) else None
  }

  lemma RecordRoundTrip(record: Record)
    ensures Load(Dump(record)) == Some(record)
  {
    var s4 := PrintText(record.error);
    var s3 := PrintBody(record.payload) + s4;
    var s2 := PrintOption(record.offset) + s3;
    var s1 := PrintOption(record.partition) + s2;
    assert Dump(record)[1..] == PrintText(record.topic) + s1;
    TextRoundTrip(record.topic, s1);
    OptionRoundTrip(record.partition, s2);
    OptionRoundTrip(record.offset, s3);
    BodyRoundTrip(record.payload, s4);
    TextRoundTrip(record.error, "");
    assert s4 + "" == s4;
  }

  lemma {:induction false} NotBlank(s: string)
    requires s != "" && !IsSpace(s[0])
    ensures !Blank(s)
  {
    if |s| > 1 && IsSpace(s[|s| - 1]) {
      NotBlank(s[..|s| - 1]);
    }
  }

  const WIRE := Wire(record => Dump(record), s => Load(s), fields => PrintObject(fields), fields => PrintObject(fields))

  /** What the model asks of JSON can be had. */
  lemma WireDumpsLines()
    ensures DumpsLines(WIRE)
  {
    forall record
      ensures OneLine(WIRE.dump(record)) && !Blank(WIRE.dump(record)) && WIRE.load(WIRE.dump(record)) == Some(record)
    {
      RecordRoundTrip(record);
      NotBlank(Dump(record));
    }
  }
}
