/** The log cursor: a JSON payload in base64url without padding (section 5 of RFC 4648), accepted only in
    its one canonical form. */
module LogCursor {
  import opened Options

  datatype Payload = Payload(fingerprint: string, occurredAtMs: nat, id: nat)

  const ORDER_NAME := "occurred_at_ms_desc_id_desc"
  const MAX_SAFE := 9007199254740991
  const MAX_ENCODED := 512

  predicate IsHex(c: char) { '0' <= c <= '9' || 'a' <= c <= 'f' }

  /** `logCursorPayloadSchema`. */
  predicate ValidPayload(p: Payload) {
    && |p.fingerprint| == 16 && (forall i :: 0 <= i < 16 ==> IsHex(p.fingerprint[i]))
    && p.occurredAtMs <= MAX_SAFE && 1 <= p.id <= MAX_SAFE
  }

  // ----- Decimal numbers -----

  function Digit(d: nat): char
    requires d < 10
  {
    '0' + d as char
  }

  predicate IsDigit(c: char) { '0' <= c <= '9' }

  function Print(n: nat): (s: string)
    ensures s != [] && (forall i :: 0 <= i < |s| ==> IsDigit(s[i])) && (n > 0 ==> s[0] != '0') && (n == 0 ==> s == "0")
  {
    if n < 10 then [Digit(n)] else Print(n / 10) + [Digit(n % 10)]
  }

  function DigitValue(c: char): (d: nat)
    requires IsDigit(c)
    ensures d < 10 && Digit(d) == c
  {
    c as int - '0' as int
  }

  function Number(s: string): nat
    requires forall i :: 0 <= i < |s| ==> IsDigit(s[i])
  {
    if s == [] then 0 else 10 * Number(s[..|s| - 1]) + DigitValue(s[|s| - 1])
  }

  lemma {:induction false} NumberOfPrint(n: nat)
    ensures Number(Print(n)) == n
  {
    if n >= 10 {
      NumberOfPrint(n / 10);
      assert Print(n)[..|Print(n)| - 1] == Print(n / 10);
    } else {
      assert Print(n)[..0] == [];
    }
  }

  function Power10(n: nat): nat { if n == 0 then 1 else 10 * Power10(n - 1) }

  // ----- JSON objects with the payload's fields -----

  datatype Field = SchemaVersion | Order | FilterFingerprint | OccurredAtMs | Id

  datatype Value = Text(text: string) | Count(count: nat)

  function NameOf(f: Field): string {
    match f
    case SchemaVersion => "schemaVersion"
    case Order => "order"
    case FilterFingerprint => "filterFingerprint"
    case OccurredAtMs => "occurredAtMs"
    case Id => "id"
  }

  /** The field of a name; the strict schema knows no others. */
  function FieldOf(name: string): Option<Field> {
    if name == NameOf(SchemaVersion) then Some(SchemaVersion)
    else if name == NameOf(Order) then Some(Order)
    else if name == NameOf(FilterFingerprint) then Some(FilterFingerprint)
    else if name == NameOf(OccurredAtMs) then Some(OccurredAtMs)
    else if name == NameOf(Id) then Some(Id)
    else None
  }

  lemma FieldOfName(f: Field)
    ensures FieldOf(NameOf(f)) == Some(f) && Plain(NameOf(f))
  {
    assert |NameOf(SchemaVersion)| == 13 && |NameOf(Order)| == 5 && |NameOf(FilterFingerprint)| == 17;
    assert |NameOf(OccurredAtMs)| == 12 && |NameOf(Id)| == 2;
  }

  predicate Plain(s: string) { forall i :: 0 <= i < |s| ==> s[i] != '"' && s[i] != '\\' }

  function Quoted(s: string): string { ['"'] + s + ['"'] }

  function PrintValue(v: Value): string { if v.Text? then Quoted(v.text) else Print(v.count) }

  function PrintMembers(ms: seq<(Field, Value)>): string
    decreases |ms|, 1
  {
    if ms == [] then []
    else Quoted(NameOf(ms[0].0)) + ([':'] + (PrintValue(ms[0].1) + PrintTail(ms)))
  }

  function PrintTail(ms: seq<(Field, Value)>): string
    requires ms != []
    decreases |ms|, 0
  {
    if |ms| == 1 then ['}'] else [','] + PrintMembers(ms[1..])
  }

  /** The characters up to a closing quote, and what follows it. */
  function UpToQuote(s: string): Option<(string, string)> {
    if s == [] || s[0] == '\\' then None
    else if s[0] == '"' then Some(("", s[1..]))
    else
      match UpToQuote(s[1..])
      case Some((text, rest)) => Some(([s[0]] + text, rest))
      case None => None
  }

  function ParseString(s: string): Option<(string, string)> {
    if s == [] || s[0] != '"' then None else UpToQuote(s[1..])
  }

  function Digits(s: string): (n: nat)
    ensures n <= |s| && (forall i :: 0 <= i < n ==> IsDigit(s[i])) && (n < |s| ==> !IsDigit(s[n]))
  {
    if s == [] || !IsDigit(s[0]) then 0 else 1 + Digits(s[1..])
  }

  /** A JSON integer: no leading zero unless it is the only digit. */
  function ParseNumber(s: string): Option<(nat, string)> {
    var n := Digits(s);
    if n == 0 || (n > 1 && s[0] == '0') then None else Some((Number(s[..n]), s[n..]))
  }

  function ParseValue(s: string): Option<(Value, string)> {
    if s != [] && s[0] == '"' then
      match ParseString(s)
      case Some((text, rest)) => Some((Text(text), rest))
      case None => None
    else
      match ParseNumber(s)
      case Some((n, rest)) => Some((Count(n), rest))
      case None => None
  }

  lemma {:induction false} UpToQuoteShortens(s: string)
    ensures UpToQuote(s).Some? ==> |UpToQuote(s).value.1| < |s|
  {
    if s != [] { UpToQuoteShortens(s[1..]); }
  }

  lemma ParseValueShortens(s: string)
    ensures ParseValue(s).Some? ==> |ParseValue(s).value.1| < |s|
  {
    if s != [] { UpToQuoteShortens(s[1..]); }
  }

  /** The members of an object in any order, the last of two with the same name winning. */
  function ParseMembers(s: string, fields: map<Field, Value>): Option<map<Field, Value>>
    decreases |s|
  {
    match ParseString(s)
    case None => None
    case Some((name, afterName)) =>
      UpToQuoteShortens(s[1..]);
      if afterName == [] || afterName[0] != ':' || FieldOf(name).None? then None
      else
        ParseValueShortens(afterName[1..]);
        match ParseValue(afterName[1..])
        case None => None
        case Some((value, rest)) =>
          var more := fields[FieldOf(name).value := value];
          if rest == ['}'] then Some(more)
          else if rest != [] && rest[0] == ',' then ParseMembers(rest[1..], more)
          else None
  }

  // ----- What is printed parses back -----

  lemma {:induction false} UpToQuotePrinted(text: string, rest: string)
    requires Plain(text)
    ensures UpToQuote(text + (['"'] + rest)) == Some((text, rest))
  {
    var s := text + (['"'] + rest);
    if text == [] {
      assert s == ['"'] + rest && s[1..] == rest;
    } else {
      assert s[0] == text[0] && s[1..] == text[1..] + (['"'] + rest);
      UpToQuotePrinted(text[1..], rest);
      assert [text[0]] + text[1..] == text;
    }
  }

  lemma StringPrinted(text: string, rest: string)
    requires Plain(text)
    ensures ParseString(Quoted(text) + rest) == Some((text, rest))
  {
    assert (Quoted(text) + rest)[1..] == text + (['"'] + rest);
    UpToQuotePrinted(text, rest);
  }

  lemma {:induction false} DigitsPrinted(digits: string, rest: string)
    requires forall i :: 0 <= i < |digits| ==> IsDigit(digits[i])
    requires rest == [] || !IsDigit(rest[0])
    ensures Digits(digits + rest) == |digits|
  {
    if digits == [] {
      assert digits + rest == rest;
    } else {
      assert (digits + rest)[1..] == digits[1..] + rest;
      DigitsPrinted(digits[1..], rest);
    }
  }

  lemma NumberPrinted(n: nat, rest: string)
    requires rest == [] || !IsDigit(rest[0])
    ensures ParseNumber(Print(n) + rest) == Some((n, rest))
  {
    var digits := Print(n);
    DigitsPrinted(digits, rest);
    NumberOfPrint(n);
    assert (digits + rest)[..|digits|] == digits && (digits + rest)[|digits|..] == rest;
  }

  predicate Printable(v: Value) { v.Text? ==> Plain(v.text) }

  lemma ValuePrinted(v: Value, rest: string)
    requires Printable(v) && (rest == [] || !IsDigit(rest[0]))
    ensures ParseValue(PrintValue(v) + rest) == Some((v, rest))
  {
    if v.Text? {
      StringPrinted(v.text, rest);
    } else {
      NumberPrinted(v.count, rest);
      assert IsDigit((Print(v.count) + rest)[0]);
    }
  }

  function Collect(ms: seq<(Field, Value)>, fields: map<Field, Value>): map<Field, Value> {
    if ms == [] then fields else Collect(ms[1..], fields[ms[0].0 := ms[0].1])
  }

  predicate AllPrintable(ms: seq<(Field, Value)>) { forall i :: 0 <= i < |ms| ==> Printable(ms[i].1) }

  /** One member parses off the front. */
  lemma MemberPrinted(f: Field, v: Value, tail: string, fields: map<Field, Value>)
    requires Printable(v) && tail != [] && !IsDigit(tail[0])
    ensures var s := Quoted(NameOf(f)) + ([':'] + (PrintValue(v) + tail));
            ParseMembers(s, fields) ==
              if tail == ['}'] then Some(fields[f := v])
              else if tail[0] == ',' then ParseMembers(tail[1..], fields[f := v])
              else None
  {
    var afterName := [':'] + (PrintValue(v) + tail);
    FieldOfName(f);
    StringPrinted(NameOf(f), afterName);
    assert afterName[1..] == PrintValue(v) + tail;
    ValuePrinted(v, tail);
  }

  lemma {:induction false} MembersPrinted(ms: seq<(Field, Value)>, fields: map<Field, Value>)
    requires ms != [] && AllPrintable(ms)
    ensures ParseMembers(PrintMembers(ms), fields) == Some(Collect(ms, fields))
    decreases |ms|
  {
    var more := fields[ms[0].0 := ms[0].1];
    MemberPrinted(ms[0].0, ms[0].1, PrintTail(ms), fields);
    if |ms| == 1 {
      assert Collect(ms[1..], more) == more;
    } else {
      assert PrintTail(ms)[1..] == PrintMembers(ms[1..]);
      assert |PrintMembers(ms[1..])| > 0;
      MembersPrinted(ms[1..], more);
    }
  }

  // ----- Payloads -----

  function MembersOf(p: Payload): seq<(Field, Value)> {
    [(SchemaVersion, Count(1)), (Order, Text(ORDER_NAME)), (FilterFingerprint, Text(p.fingerprint)),
     (OccurredAtMs, Count(p.occurredAtMs)), (Id, Count(p.id))]
  }

  function CanonicalJson(p: Payload): string { ['{'] + PrintMembers(MembersOf(p)) }

  /** The strict schema: all five fields, of these types and values. */
  function PayloadOf(fields: map<Field, Value>): Option<Payload> {
    if (forall f: Field :: f in fields)
       && fields[SchemaVersion] == Count(1) && fields[Order] == Text(ORDER_NAME)
       && fields[FilterFingerprint].Text? && fields[OccurredAtMs].Count? && fields[Id].Count?
    then
      var p := Payload(fields[FilterFingerprint].text, fields[OccurredAtMs].count, fields[Id].count);
      if ValidPayload(p) then Some(p) else None
    else None
  }

  function ParsePayload(json: string): Option<Payload> {
    if json == [] || json[0] != '{' then None
    else
      match ParseMembers(json[1..], map[])
      case Some(fields) => PayloadOf(fields)
      case None => None
  }

  lemma CollectPayload(p: Payload)
    ensures PayloadOf(Collect(MembersOf(p), map[])) == if ValidPayload(p) then Some(p) else None
  {
    var ms := MembersOf(p);
    var m1, m2, m3, m4 := ms[1..], ms[2..], ms[3..], ms[4..];
    assert m1[1..] == m2 && m2[1..] == m3 && m3[1..] == m4 && m4[1..] == [];
    var c1 := map[SchemaVersion := Count(1)];
    var c2 := c1[Order := Text(ORDER_NAME)];
    var c3 := c2[FilterFingerprint := Text(p.fingerprint)];
    var c4 := c3[OccurredAtMs := Count(p.occurredAtMs)];
    var c5 := c4[Id := Count(p.id)];
    assert Collect(m4, c4) == c5;
    assert Collect(m3, c3) == c5;
    assert Collect(m2, c2) == c5;
    assert Collect(m1, c1) == c5;
    assert Collect(ms, map[]) == c5;
    forall f: Field ensures f in c5 {
      assert f == SchemaVersion || f == Order || f == FilterFingerprint || f == OccurredAtMs || f == Id;
    }
  }

  lemma OrderIsPlain()
    ensures Plain(ORDER_NAME)
  {
  }

  lemma PayloadPrinted(p: Payload)
    requires ValidPayload(p)
    ensures ParsePayload(CanonicalJson(p)) == Some(p)
  {
    var ms := MembersOf(p);
    OrderIsPlain();
    assert AllPrintable(ms);
    assert CanonicalJson(p)[1..] == PrintMembers(ms);
    MembersPrinted(ms, map[]);
    CollectPayload(p);
  }

  // ----- base64url without padding -----

  type Byte = x: int | 0 <= x < 256

  /** The alphabet of section 5 of RFC 4648. */
  function Letter(v: nat): char
    requires v < 64
  {
    if v < 26 then 'A' + v as char
    else if v < 52 then 'a' + (v - 26) as char
    else if v < 62 then '0' + (v - 52) as char
    else if v == 62 then '-'
    else '_'
  }

  predicate InAlphabet(c: char) { 'A' <= c <= 'Z' || 'a' <= c <= 'z' || '0' <= c <= '9' || c == '-' || c == '_' }

  function Sextet(c: char): (v: nat)
    requires InAlphabet(c)
    ensures v < 64 && Letter(v) == c
  {
    if 'A' <= c <= 'Z' then c as int - 'A' as int
    else if 'a' <= c <= 'z' then c as int - 'a' as int + 26
    else if '0' <= c <= '9' then c as int - '0' as int + 52
    else if c == '-' then 62
    else 63
  }

  lemma SextetOfLetter(v: nat)
    requires v < 64
    ensures InAlphabet(Letter(v)) && Sextet(Letter(v)) == v
  {
  }

  type Six = x: int | 0 <= x < 64

  /** Three bytes as four groups of six bits, and back. */
  function FirstSix(a: Byte): Six { a / 4 }
  function SecondSix(a: Byte, b: Byte): Six { a % 4 * 16 + b / 16 }
  function ThirdSix(b: Byte, c: Byte): Six { b % 16 * 4 + c / 64 }
  function FourthSix(c: Byte): Six { c % 64 }
  function FirstByte(x: Six, y: Six): Byte { x * 4 + y / 16 }
  function SecondByte(y: Six, z: Six): Byte { y % 16 * 16 + z / 4 }
  function ThirdByte(z: Six, w: Six): Byte { z % 4 * 64 + w }

  lemma GroupsRegroup(a: Byte, b: Byte, c: Byte)
    ensures FirstByte(FirstSix(a), SecondSix(a, b)) == a
    ensures SecondByte(SecondSix(a, b), ThirdSix(b, c)) == b
    ensures ThirdByte(ThirdSix(b, c), FourthSix(c)) == c
  {
  }

  /** Bytes regrouped in six bits each, the last group filled up with zero bits. */
  function Sextets(b: seq<Byte>): (v: seq<Six>)
    ensures 3 * |v| <= 4 * |b| + 2
  {
    if |b| == 0 then []
    else if |b| == 1 then [FirstSix(b[0]), SecondSix(b[0], 0)]
    else if |b| == 2 then [FirstSix(b[0]), SecondSix(b[0], b[1]), ThirdSix(b[1], 0)]
    else [FirstSix(b[0]), SecondSix(b[0], b[1]), ThirdSix(b[1], b[2]), FourthSix(b[2])] + Sextets(b[3..])
  }

  /** As `atob` reads padded input: the unused low bits of the last group are dropped unseen. */
  function FromSextets(v: seq<Six>): Option<seq<Byte>> {
    if |v| == 0 then Some([])
    else if |v| == 1 then None
    else if |v| == 2 then Some([FirstByte(v[0], v[1])])
    else if |v| == 3 then Some([FirstByte(v[0], v[1]), SecondByte(v[1], v[2])])
    else
      match FromSextets(v[4..])
      case Some(rest) => Some([FirstByte(v[0], v[1]), SecondByte(v[1], v[2]), ThirdByte(v[2], v[3])] + rest)
      case None => None
  }

  lemma ShortGroups(x: Six, y: Six, z: Six)
    ensures FromSextets([x, y]) == Some([FirstByte(x, y)])
    ensures FromSextets([x, y, z]) == Some([FirstByte(x, y), SecondByte(y, z)])
  {
  }

  lemma FullGroup(x: Six, y: Six, z: Six, w: Six, rest: seq<Six>)
    requires FromSextets(rest).Some?
    ensures FromSextets([x, y, z, w] + rest)
      == Some([FirstByte(x, y), SecondByte(y, z), ThirdByte(z, w)] + FromSextets(rest).value)
  {
    assert ([x, y, z, w] + rest)[4..] == rest;
  }

  lemma {:induction false} SextetsRoundTrip(b: seq<Byte>)
    ensures FromSextets(Sextets(b)) == Some(b)
  {
    if |b| == 0 {
    } else if |b| == 1 {
      assert b == [b[0]];
      OneByte(b[0]);
    } else if |b| == 2 {
      assert b == [b[0], b[1]];
      TwoBytes(b[0], b[1]);
    } else {
      SextetsRoundTrip(b[3..]);
      GroupsRegroup(b[0], b[1], b[2]);
      FullGroup(FirstSix(b[0]), SecondSix(b[0], b[1]), ThirdSix(b[1], b[2]), FourthSix(b[2]), Sextets(b[3..]));
      assert b == [b[0], b[1], b[2]] + b[3..];
    }
  }

  lemma ShortSextets(a: Byte, b: Byte)
    ensures Sextets([a]) == [FirstSix(a), SecondSix(a, 0)]
    ensures Sextets([a, b]) == [FirstSix(a), SecondSix(a, b), ThirdSix(b, 0)]
  {
  }

  lemma OneByte(a: Byte)
    ensures FromSextets(Sextets([a])) == Some([a])
  {
    ShortSextets(a, 0);
    ShortGroups(FirstSix(a), SecondSix(a, 0), 0);
    GroupsRegroup(a, 0, 0);
  }

  lemma TwoBytes(a: Byte, b: Byte)
    ensures FromSextets(Sextets([a, b])) == Some([a, b])
  {
    ShortSextets(a, b);
    ShortGroups(FirstSix(a), SecondSix(a, b), ThirdSix(b, 0));
    GroupsRegroup(a, b, 0);
  }

  predicate Letters(s: string) { forall i :: 0 <= i < |s| ==> InAlphabet(s[i]) }

  function Spelled(v: seq<Six>): (s: string)
    ensures |s| == |v| && Letters(s)
  {
    seq(|v|, i requires 0 <= i < |v| => Letter(v[i]))
  }

  function ValuesOf(s: string): (v: seq<Six>)
    requires Letters(s)
    ensures |v| == |s|
  {
    seq(|s|, i requires 0 <= i < |s| => Sextet(s[i]))
  }

  lemma SpellingRoundTrip(v: seq<Six>)
    ensures ValuesOf(Spelled(v)) == v
  {
    forall i | 0 <= i < |v| ensures ValuesOf(Spelled(v))[i] == v[i] { SextetOfLetter(v[i]); }
  }

  function EncodeBytes(b: seq<Byte>): (s: string)
    ensures Letters(s) && 3 * |s| <= 4 * |b| + 2
  {
    Spelled(Sextets(b))
  }

  function DecodeLetters(s: string): Option<seq<Byte>>
    requires Letters(s)
  {
    FromSextets(ValuesOf(s))
  }

  lemma BytesRoundTrip(b: seq<Byte>)
    ensures DecodeLetters(EncodeBytes(b)) == Some(b)
  {
    SpellingRoundTrip(Sextets(b));
    SextetsRoundTrip(b);
  }

  // ----- ASCII text as bytes -----

  predicate Ascii(s: string) { forall i :: 0 <= i < |s| ==> s[i] < 128 as char }

  function Bytes(s: string): (b: seq<Byte>)
    requires Ascii(s)
    ensures |b| == |s|
  {
    seq(|s|, i requires 0 <= i < |s| => s[i] as int)
  }

  /** Decoded text; anything beyond ASCII cannot be canonical and is refused here already. */
  function TextOf(b: seq<Byte>): Option<string> {
    if forall i :: 0 <= i < |b| ==> b[i] < 128 then Some(seq(|b|, i requires 0 <= i < |b| => b[i] as char)) else None
  }

  lemma TextRoundTrip(s: string)
    requires Ascii(s)
    ensures TextOf(Bytes(s)) == Some(s)
  {
    var b := Bytes(s);
    forall i | 0 <= i < |s| ensures b[i] < 128 && b[i] as char == s[i] {
      assert s[i] < 128 as char;
      assert b[i] == s[i] as int;
    }
    assert TextOf(b).value == s;
  }

  lemma PrintAscii(v: Value)
    requires v.Text? ==> Ascii(v.text)
    ensures Ascii(PrintValue(v))
  {
  }

  lemma {:induction false} MembersAscii(ms: seq<(Field, Value)>)
    requires forall i :: 0 <= i < |ms| && ms[i].1.Text? ==> Ascii(ms[i].1.text)
    ensures Ascii(PrintMembers(ms))
    decreases |ms|
  {
    if ms != [] {
      NameAscii(ms[0].0);
      PrintAscii(ms[0].1);
      MembersAscii(ms[1..]);
    }
  }

  lemma NameAscii(f: Field)
    ensures Ascii(NameOf(f))
  {
  }

  lemma JsonAscii(p: Payload)
    requires ValidPayload(p)
    ensures Ascii(CanonicalJson(p))
  {
    var ms := MembersOf(p);
    OrderIsAscii();
    assert Ascii(p.fingerprint) by {
      forall i | 0 <= i < 16 ensures p.fingerprint[i] < 128 as char { assert IsHex(p.fingerprint[i]); }
    }
    assert ms[1].1 == Text(ORDER_NAME) && ms[2].1 == Text(p.fingerprint);
    MembersAscii(ms);
  }

  lemma OrderIsAscii()
    ensures Ascii(ORDER_NAME) && |ORDER_NAME| == 27
  {
  }

  // ----- The cursor -----

  /** `encodeLogCursor`; `None` where it throws. */
  function Encode(p: Payload): Option<string> {
    if !ValidPayload(p) then None
    else
      JsonAscii(p);
      var s := EncodeBytes(Bytes(CanonicalJson(p)));
      if 1 <= |s| <= MAX_ENCODED then Some(s) else None
  }

  /** `decodeLogCursor`; `None` where it throws. */
  function Decode(s: string): Option<Payload> {
    if !(1 <= |s| <= MAX_ENCODED) || !Letters(s) then None
    else
      match DecodeLetters(s)
      case None => None
      case Some(bytes) =>
        match TextOf(bytes)
        case None => None
        case Some(json) =>
          match ParsePayload(json)
          case None => None
          case Some(p) => if Encode(p) == Some(s) then Some(p) else None
  }

  lemma {:induction false} MembersLength(ms: seq<(Field, Value)>)
    requires forall i :: 0 <= i < |ms| ==> |PrintValue(ms[i].1)| <= 29
    ensures |PrintMembers(ms)| <= 50 * |ms|
    decreases |ms|
  {
    if ms != [] {
      assert |NameOf(ms[0].0)| <= 17;
      MembersLength(ms[1..]);
    }
  }

  lemma NumbersAreShort(n: nat)
    requires n <= MAX_SAFE
    ensures |Print(n)| <= 16
  {
    assert Power10(16) == 10000000000000000 by {
      assert Power10(4) == 10000;
      assert Power10(8) == 100000000;
      assert Power10(12) == 1000000000000;
    }
    PrintIsShorter(n, 16);
  }

  lemma {:induction false} PrintIsShorter(n: nat, digits: nat)
    requires n < Power10(digits) && digits >= 1
    ensures |Print(n)| <= digits
    decreases digits
  {
    if n >= 10 { PrintIsShorter(n / 10, digits - 1); }
  }

  /** Every valid payload has a cursor: the length limit never bites. */
  lemma EveryPayloadEncodes(p: Payload)
    requires ValidPayload(p)
    ensures Encode(p).Some?
  {
    var ms := MembersOf(p);
    OrderIsAscii();
    NumbersAreShort(p.occurredAtMs);
    NumbersAreShort(p.id);
    assert |PrintValue(ms[0].1)| <= 16 by { NumbersAreShort(1); }
    forall i | 0 <= i < |ms| ensures |PrintValue(ms[i].1)| <= 29 {
      assert i == 0 || i == 1 || i == 2 || i == 3 || i == 4;
    }
    MembersLength(ms);
  }

  /** Round trip. */
  lemma DecodesItsEncoding(p: Payload)
    requires ValidPayload(p)
    ensures Encode(p).Some? && Decode(Encode(p).value) == Some(p)
  {
    EveryPayloadEncodes(p);
    JsonAscii(p);
    BytesRoundTrip(Bytes(CanonicalJson(p)));
    TextRoundTrip(CanonicalJson(p));
    PayloadPrinted(p);
  }

  /** For every payload exactly one string is accepted, and for every accepted string exactly one payload. */
  lemma OneCursorPerPayload(s: string, p: Payload)
    ensures Decode(s) == Some(p) <==> ValidPayload(p) && Encode(p) == Some(s)
  {
    if ValidPayload(p) && Encode(p) == Some(s) { DecodesItsEncoding(p); }
  }

  /** Different payloads have different cursors. */
  lemma EncodingIsInjective(p: Payload, q: Payload)
    requires ValidPayload(p) && ValidPayload(q) && Encode(p) == Encode(q)
    ensures p == q
  {
    DecodesItsEncoding(p);
    DecodesItsEncoding(q);
  }

  /** A string with other unused bits in its last letter decodes to the same bytes, and is refused. */
  lemma OtherTailIsRefused(p: Payload, s: string)
    requires ValidPayload(p) && Letters(s) && Encode(p) != Some(s) && Ascii(CanonicalJson(p))
    requires DecodeLetters(s) == Some(Bytes(CanonicalJson(p)))
    ensures Decode(s) == None
  {
    TextRoundTrip(CanonicalJson(p));
    PayloadPrinted(p);
  }

  /** The bits of the last letter that reach the `n` bytes. */
  predicate SameUsedBits(n: nat, x: Six, y: Six) {
    if n % 3 == 1 then x / 16 == y / 16 else n % 3 == 2 && x / 4 == y / 4
  }

  lemma OtherLastOfOne(a: Byte, x: Six)
    requires SameUsedBits(1, SecondSix(a, 0), x)
    ensures FirstByte(FirstSix(a), x) == a
  {
  }

  lemma OtherLastOfTwo(a: Byte, b: Byte, x: Six)
    requires SameUsedBits(2, ThirdSix(b, 0), x)
    ensures FirstByte(FirstSix(a), SecondSix(a, b)) == a && SecondByte(SecondSix(a, b), x) == b
  {
    GroupsRegroup(a, b, 0);
  }

  lemma LastOfSum(a: seq<Six>, b: seq<Six>, x: Six)
    requires b != []
    ensures (a + b)[|a + b| - 1] == b[|b| - 1] && (a + b)[|a + b| - 1 := x] == a + b[|b| - 1 := x]
  {
  }

  lemma OtherLastShort(b: seq<Byte>, x: Six)
    requires 1 <= |b| <= 2 && SameUsedBits(|b|, Sextets(b)[|Sextets(b)| - 1], x)
    ensures FromSextets(Sextets(b)[|Sextets(b)| - 1 := x]) == Some(b)
  {
    var v := Sextets(b);
    if |b| == 1 {
      OtherLastOfOne(b[0], x);
      assert v[1 := x] == [v[0], x] && b == [b[0]];
      ShortGroups(v[0], x, 0);
    } else {
      OtherLastOfTwo(b[0], b[1], x);
      assert v[2 := x] == [v[0], v[1], x] && b == [b[0], b[1]];
      ShortGroups(v[0], v[1], x);
    }
  }

  lemma SextetsStep(b: seq<Byte>)
    requires |b| > 3
    ensures Sextets(b) == [FirstSix(b[0]), SecondSix(b[0], b[1]), ThirdSix(b[1], b[2]), FourthSix(b[2])]
      + Sextets(b[3..])
    ensures Sextets(b[3..]) != [] && Sextets(b)[|Sextets(b)| - 1] == Sextets(b[3..])[|Sextets(b[3..])| - 1]
  {
  }

  lemma ThreeLess(n: nat)
    requires n > 3
    ensures (n - 3) % 3 == n % 3
  {
  }

  /** The unused bits of the last group do not reach the bytes. */
  lemma {:induction false} OtherLast(b: seq<Byte>, x: Six)
    requires |b| % 3 != 0 && SameUsedBits(|b|, Sextets(b)[|Sextets(b)| - 1], x)
    ensures FromSextets(Sextets(b)[|Sextets(b)| - 1 := x]) == Some(b)
    decreases |b|
  {
    if |b| <= 2 {
      OtherLastShort(b, x);
    } else {
      ThreeLess(|b|);
      SextetsStep(b);
      OtherLast(b[3..], x);
      OtherLastJoins(b, Sextets(b[3..]), x);
    }
  }

  lemma OtherLastJoins(b: seq<Byte>, rest: seq<Six>, x: Six)
    requires |b| > 3 && rest != [] && FromSextets(rest[|rest| - 1 := x]) == Some(b[3..])
    ensures var v := [FirstSix(b[0]), SecondSix(b[0], b[1]), ThirdSix(b[1], b[2]), FourthSix(b[2])] + rest;
            FromSextets(v[|v| - 1 := x]) == Some(b)
  {
    LastOfSum([FirstSix(b[0]), SecondSix(b[0], b[1]), ThirdSix(b[1], b[2]), FourthSix(b[2])], rest, x);
    OtherLastAfter(b[0], b[1], b[2], b[3..], rest[|rest| - 1 := x]);
    assert b == [b[0], b[1], b[2]] + b[3..];
  }

  lemma OtherLastAfter(a: Byte, b: Byte, c: Byte, rest: seq<Byte>, groups: seq<Six>)
    requires FromSextets(groups) == Some(rest)
    ensures FromSextets([FirstSix(a), SecondSix(a, b), ThirdSix(b, c), FourthSix(c)] + groups) == Some([a, b, c] + rest)
  {
    GroupsRegroup(a, b, c);
    FullGroup(FirstSix(a), SecondSix(a, b), ThirdSix(b, c), FourthSix(c), groups);
  }

  /** For every payload whose document does not fill its last group, every string that differs from its cursor
      in the unused bits of the last letter decodes to the same bytes, and is refused. */
  lemma EveryOtherTailIsRefused(p: Payload, c: char)
    requires ValidPayload(p) && Encode(p).Some? && |CanonicalJson(p)| % 3 != 0
    requires var s := Encode(p).value;
             InAlphabet(c) && c != s[|s| - 1] && Letters(s)
             && SameUsedBits(|CanonicalJson(p)|, Sextet(s[|s| - 1]), Sextet(c))
    ensures var s := Encode(p).value;
            var t := s[|s| - 1 := c];
            Letters(t) && Ascii(CanonicalJson(p)) && DecodeLetters(t) == Some(Bytes(CanonicalJson(p)))
              && Decode(t) == None
  {
    JsonAscii(p);
    var b, s := Bytes(CanonicalJson(p)), Encode(p).value;
    var t := s[|s| - 1 := c];
    SpellingRoundTrip(Sextets(b));
    assert ValuesOf(s) == Sextets(b) && ValuesOf(t) == Sextets(b)[|s| - 1 := Sextet(c)];
    OtherLast(b, Sextet(c));
    OtherTailIsRefused(p, t);
  }

  lemma {:induction false} LastIsPadded(b: seq<Byte>)
    requires |b| % 3 != 0
    ensures var last := Sextets(b)[|Sextets(b)| - 1]; last % 4 == 0 && (|b| % 3 == 1 ==> last % 16 == 0)
    decreases |b|
  {
    if |b| > 2 {
      ThreeLess(|b|);
      SextetsStep(b);
      LastIsPadded(b[3..]);
    }
  }

  lemma NextLetter(v: Six, n: nat)
    requires v % 4 == 0 && n % 3 != 0 && (n % 3 == 1 ==> v % 16 == 0)
    ensures v + 1 < 64 && SameUsedBits(n, v, v + 1)
  {
  }

  /** Such strings always exist. */
  lemma SomeOtherTail(p: Payload) returns (c: char)
    requires ValidPayload(p) && |CanonicalJson(p)| % 3 != 0
    ensures Encode(p).Some?
    ensures var s := Encode(p).value; InAlphabet(c) && c != s[|s| - 1] && Decode(s[|s| - 1 := c]) == None
  {
    EveryPayloadEncodes(p);
    JsonAscii(p);
    var v := Sextets(Bytes(CanonicalJson(p)));
    var last := v[|v| - 1];
    LastIsPadded(Bytes(CanonicalJson(p)));
    NextLetter(last, |CanonicalJson(p)|);
    SextetOfLetter(last);
    SextetOfLetter(last + 1);
    c := Letter(last + 1);
    EveryOtherTailIsRefused(p, c);
  }

  /** Another printing of the same payload parses to it, and its cursor is refused. */
  lemma OtherPrintingIsRefused(p: Payload, ms: seq<(Field, Value)>)
    requires ValidPayload(p) && AllPrintable(ms) && ms != [] && Ascii(['{'] + PrintMembers(ms))
    requires PayloadOf(Collect(ms, map[])) == Some(p) && ['{'] + PrintMembers(ms) != CanonicalJson(p)
    ensures ParsePayload(['{'] + PrintMembers(ms)) == Some(p)
    ensures Decode(EncodeBytes(Bytes(['{'] + PrintMembers(ms)))) == None
  {
    var json := ['{'] + PrintMembers(ms);
    assert json[1..] == PrintMembers(ms);
    MembersPrinted(ms, map[]);
    BytesRoundTrip(Bytes(json));
    TextRoundTrip(json);
    JsonAscii(p);
    if Encode(p) == Some(EncodeBytes(Bytes(json))) {
      BytesRoundTrip(Bytes(CanonicalJson(p)));
      TextRoundTrip(CanonicalJson(p));
    }
  }

  /** The payload's fields in some order. */
  predicate IsOrder(p: Payload, ms: seq<(Field, Value)>) {
    && |ms| == 5
    && (forall i :: 0 <= i < |ms| ==> ms[i] in MembersOf(p))
    && (forall i, j :: 0 <= i < j < |ms| ==> ms[i].0 != ms[j].0)
  }

  lemma {:induction false} CollectKeeps(ms: seq<(Field, Value)>, fields: map<Field, Value>, f: Field)
    requires forall i :: 0 <= i < |ms| ==> ms[i].0 != f
    ensures f in Collect(ms, fields) <==> f in fields
    ensures f in fields ==> Collect(ms, fields)[f] == fields[f]
    decreases |ms|
  {
    if ms != [] { CollectKeeps(ms[1..], fields[ms[0].0 := ms[0].1], f); }
  }

  lemma {:induction false} CollectFinds(ms: seq<(Field, Value)>, fields: map<Field, Value>, i: nat)
    requires i < |ms| && forall j :: i < j < |ms| ==> ms[j].0 != ms[i].0
    ensures ms[i].0 in Collect(ms, fields) && Collect(ms, fields)[ms[i].0] == ms[i].1
    decreases |ms|
  {
    var more := fields[ms[0].0 := ms[0].1];
    if i == 0 { CollectKeeps(ms[1..], more, ms[0].0); } else { CollectFinds(ms[1..], more, i - 1); }
  }

  lemma {:induction false} SameSize<T>(a: set<T>, b: set<T>)
    requires a <= b && |a| == |b|
    ensures a == b
    decreases a
  {
    if a != {} {
      var x :| x in a;
      SameSize(a - {x}, b - {x});
    } else {
      assert |b| == 0;
    }
  }

  lemma FiveNames(a: Field, b: Field, c: Field, d: Field, e: Field, f: Field)
    requires a != b && a != c && a != d && a != e && b != c && b != d && b != e && c != d && c != e && d != e
    ensures f == a || f == b || f == c || f == d || f == e
  {
    var fields := {SchemaVersion, Order, FilterFingerprint, OccurredAtMs, Id};
    assert |{a, b, c, d, e}| == 5 && |fields| == 5;
    SameSize({a, b, c, d, e}, fields);
    assert f in fields;
  }

  /** Five different members out of five are all of them. */
  lemma OrderHas(p: Payload, ms: seq<(Field, Value)>, f: Field) returns (i: nat)
    requires IsOrder(p, ms)
    ensures i < |ms| && ms[i].0 == f
  {
    FiveNames(ms[0].0, ms[1].0, ms[2].0, ms[3].0, ms[4].0, f);
    i := if f == ms[0].0 then 0
         else if f == ms[1].0 then 1
         else if f == ms[2].0 then 2
         else if f == ms[3].0 then 3
         else 4;
  }

  lemma CollectOrder(p: Payload, ms: seq<(Field, Value)>)
    requires IsOrder(p, ms)
    ensures Collect(ms, map[]) == Collect(MembersOf(p), map[])
  {
    var all := MembersOf(p);
    assert IsOrder(p, all);
    forall f: Field
      ensures f in Collect(ms, map[]) && f in Collect(all, map[]) && Collect(ms, map[])[f] == Collect(all, map[])[f]
    {
      var i := OrderHas(p, ms, f);
      var k := OrderHas(p, all, f);
      CollectFinds(ms, map[], i);
      CollectFinds(all, map[], k);
      assert ms[i] in all;
    }
  }

  lemma SameField(f: Field, g: Field)
    requires NameOf(f) == NameOf(g)
    ensures f == g
  {
    FieldOfName(f);
    FieldOfName(g);
  }

  /** One member can be read off a printed object in one way only. */
  lemma SameFirst(f: Field, v: Value, tail: string, g: Field, w: Value, end: string)
    requires Printable(v) && Printable(w) && tail != [] && !IsDigit(tail[0]) && end != [] && !IsDigit(end[0])
    requires Quoted(NameOf(f)) + ([':'] + (PrintValue(v) + tail)) == Quoted(NameOf(g)) + ([':'] + (PrintValue(w) + end))
    ensures f == g && v == w && tail == end
  {
    var afterF, afterG := [':'] + (PrintValue(v) + tail), [':'] + (PrintValue(w) + end);
    FieldOfName(f);
    FieldOfName(g);
    StringPrinted(NameOf(f), afterF);
    StringPrinted(NameOf(g), afterG);
    SameField(f, g);
    assert afterF[1..] == PrintValue(v) + tail && afterG[1..] == PrintValue(w) + end;
    ValuePrinted(v, tail);
    ValuePrinted(w, end);
  }

  /** Different lists of members are printed differently. */
  lemma {:induction false} PrintInjective(ms: seq<(Field, Value)>, ns: seq<(Field, Value)>)
    requires ms != [] && ns != [] && AllPrintable(ms) && AllPrintable(ns) && PrintMembers(ms) == PrintMembers(ns)
    ensures ms == ns
    decreases |ms|
  {
    SameFirst(ms[0].0, ms[0].1, PrintTail(ms), ns[0].0, ns[0].1, PrintTail(ns));
    assert ms == [ms[0]] + ms[1..] && ns == [ns[0]] + ns[1..];
    if |ms| > 1 && |ns| > 1 {
      assert PrintTail(ms)[1..] == PrintMembers(ms[1..]) && PrintTail(ns)[1..] == PrintMembers(ns[1..]);
      PrintInjective(ms[1..], ns[1..]);
    } else {
      assert PrintTail(ms)[0] == (if |ms| == 1 then '}' else ',')
        && PrintTail(ns)[0] == (if |ns| == 1 then '}' else ',');
    }
  }

  lemma FingerprintIsAscii(p: Payload)
    requires ValidPayload(p)
    ensures Ascii(p.fingerprint) && Plain(p.fingerprint)
  {
    forall i | 0 <= i < 16 ensures p.fingerprint[i] < 128 as char { assert IsHex(p.fingerprint[i]); }
  }

  lemma MemberIsPrintable(p: Payload, m: (Field, Value))
    requires ValidPayload(p) && m in MembersOf(p)
    ensures Printable(m.1) && (m.1.Text? ==> Ascii(m.1.text))
  {
    OrderIsAscii();
    OrderIsPlain();
    FingerprintIsAscii(p);
  }

  lemma OrderIsPrintable(p: Payload, ms: seq<(Field, Value)>)
    requires ValidPayload(p) && forall i :: 0 <= i < |ms| ==> ms[i] in MembersOf(p)
    ensures AllPrintable(ms) && Ascii(['{'] + PrintMembers(ms))
  {
    forall i | 0 <= i < |ms| ensures Printable(ms[i].1) && (ms[i].1.Text? ==> Ascii(ms[i].1.text)) {
      MemberIsPrintable(p, ms[i]);
    }
    MembersAscii(ms);
  }

  /** The same document with its fields in any other order parses to the same payload, and is refused. */
  lemma EveryReorderingIsRefused(p: Payload, ms: seq<(Field, Value)>)
    requires ValidPayload(p) && IsOrder(p, ms) && ms != MembersOf(p)
    ensures Ascii(['{'] + PrintMembers(ms))
    ensures ParsePayload(['{'] + PrintMembers(ms)) == Some(p)
    ensures Decode(EncodeBytes(Bytes(['{'] + PrintMembers(ms)))) == None
  {
    OrderIsPrintable(p, ms);
    OrderIsPrintable(p, MembersOf(p));
    CollectOrder(p, ms);
    CollectPayload(p);
    if ['{'] + PrintMembers(ms) == CanonicalJson(p) {
      assert (['{'] + PrintMembers(ms))[1..] == PrintMembers(ms) && CanonicalJson(p)[1..] == PrintMembers(MembersOf(p));
      PrintInjective(ms, MembersOf(p));
    }
    OtherPrintingIsRefused(p, ms);
  }
}
