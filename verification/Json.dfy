/** The JSON printer and parser embedded in the generated Java harness (services/runner/harness/java.ts), on UTF-16 code
    units: what they compute, and that parsing undoes printing. */
module Json {
  import opened Domain

  newtype Unit = x: int | 0 <= x < 0x1_0000

  type Text = seq<Unit>

  datatype Value =
    | Null
    | Bool(b: bool)
    | Num(n: int)
    | Str(s: Text)
    | List(items: seq<Value>)
    | Obj(members: map<Text, Value>)

  const QUOTE: Unit := 0x22
  const PLUS: Unit := 0x2b
  const COMMA: Unit := 0x2c
  const MINUS: Unit := 0x2d
  const SLASH: Unit := 0x2f
  const ZERO: Unit := 0x30
  const NINE: Unit := 0x39
  const COLON: Unit := 0x3a
  const OPEN: Unit := 0x5b
  const BACKSLASH: Unit := 0x5c
  const CLOSE: Unit := 0x5d
  const OPEN_BRACE: Unit := 0x7b
  const CLOSE_BRACE: Unit := 0x7d

  const NULL_TEXT: Text := [0x6e, 0x75, 0x6c, 0x6c]
  const TRUE_TEXT: Text := [0x74, 0x72, 0x75, 0x65]
  const FALSE_TEXT: Text := [0x66, 0x61, 0x6c, 0x73, 0x65]

  const LONG_MIN := -0x8000_0000_0000_0000
  const LONG_MAX := 0x7fff_ffff_ffff_ffff

  /** Character.isWhitespace. */
  predicate Whitespace(c: Unit) {
    || 0x09 <= c <= 0x0d || 0x1c <= c <= 0x20
    || c == 0x1680 || 0x2000 <= c <= 0x2006 || 0x2008 <= c <= 0x200a
    || c == 0x2028 || c == 0x2029 || c == 0x205f || c == 0x3000
  }

  predicate Digit(c: Unit) {
    ZERO <= c <= NINE
  }

  // ----- printing

  function HexDigit(n: int): Unit
    requires 0 <= n < 16
  {
    if n < 10 then ZERO + n as Unit else 0x61 + (n - 10) as Unit
  }

  /** The two-character escape of a unit, if it has one. */
  function ShortEscape(c: Unit): Option<Unit> {
    if c == QUOTE then Some(QUOTE)
    else if c == BACKSLASH then Some(BACKSLASH)
    else if c == 0x08 then Some(0x62)
    else if c == 0x0c then Some(0x66)
    else if c == 0x0a then Some(0x6e)
    else if c == 0x0d then Some(0x72)
    else if c == 0x09 then Some(0x74)
    else None
  }

  /** Backslash, u and four lower-case hexadecimal digits. */
  function HexEscape(c: Unit): Text {
    var n := c as int;
    [BACKSLASH, 0x75, HexDigit(n / 4096), HexDigit(n / 256 % 16), HexDigit(n / 16 % 16), HexDigit(n % 16)]
  }

  function EscapedUnit(c: Unit): (r: Text)
    ensures r != []
  {
    if ShortEscape(c).Some? then [BACKSLASH, ShortEscape(c).value]
    else if c < 0x20 then HexEscape(c)
    else [c]
  }

  function Escaped(s: Text): Text {
    if s == [] then [] else EscapedUnit(s[0]) + Escaped(s[1..])
  }

  function Digits(n: nat): (r: Text)
    ensures r != [] && forall i :: 0 <= i < |r| ==> Digit(r[i])
  {
    (if n < 10 then [] else Digits(n / 10)) + [ZERO + (n % 10) as Unit]
  }

  function Decimal(n: int): Text {
    if n < 0 then [MINUS] + Digits(-n) else Digits(n)
  }

  /** JSON.stringify also escapes a surrogate without its partner (section 25.5.2.3 of ECMA-262). */
  predicate High(c: Unit) {
    0xd800 <= c <= 0xdbff
  }

  predicate Low(c: Unit) {
    0xdc00 <= c <= 0xdfff
  }

  function Stringified(s: Text): Text {
    if s == [] then []
    else if High(s[0]) && |s| > 1 && Low(s[1]) then [s[0], s[1]] + Stringified(s[2..])
    else if High(s[0]) || Low(s[0]) then HexEscape(s[0]) + Stringified(s[1..])
    else EscapedUnit(s[0]) + Stringified(s[1..])
  }

  datatype Printer = Harness | Stringify

  function StringText(p: Printer, s: Text): Text {
    if p == Harness then Escaped(s) else Stringified(s)
  }

  /** appendJson: objects have no printed form, and nesting beyond 100 throws. JSON.stringify has no such limit and
      prints the rest the same way, but for lone surrogates. */
  function Printed(p: Printer, v: Value, depth: nat): Option<Text>
    decreases v
  {
    if p == Harness && depth > 100 then None
    else
      match v
      case Null => Some(NULL_TEXT)
      case Bool(b) => Some(if b then TRUE_TEXT else FALSE_TEXT)
      case Num(n) => Some(Decimal(n))
      case Str(s) => Some([QUOTE] + StringText(p, s) + [QUOTE])
      case List(items) =>
        var inner := PrintedItems(p, items, depth + 1);
        if inner.None? then None else Some([OPEN] + inner.value + [CLOSE])
      case Obj(_) => None
  }

  function PrintedItems(p: Printer, items: seq<Value>, depth: nat): Option<Text>
    decreases items
  {
    if items == [] then Some([])
    else
      var first := Printed(p, items[0], depth);
      if first.None? then None
      else if |items| == 1 then first
      else
        var rest := PrintedItems(p, items[1..], depth);
        if rest.None? then None else Some(first.value + [COMMA] + rest.value)
  }

  // ----- parsing: each function consumes a prefix of the text

  datatype Parsing<+T> = Parsed(value: T, rest: Text) | Failed

  function SkipWhitespace(t: Text): (r: Text)
    ensures |r| <= |t| && (r != [] ==> !Whitespace(r[0]))
    ensures r == t[|t| - |r|..]
  {
    if t != [] && Whitespace(t[0]) then SkipWhitespace(t[1..]) else t
  }

  predicate At(t: Text, c: Unit) {
    t != [] && t[0] == c
  }

  function Literal(t: Text, expected: Text, v: Value): (r: Parsing<Value>)
    ensures r.Parsed? && expected != [] ==> |r.rest| < |t|
  {
    if expected <= t then Parsed(v, t[|expected|..]) else Failed
  }

  function HexValue(c: Unit): Option<int> {
    if Digit(c) then Some((c - ZERO) as int)
    else if 0x61 <= c <= 0x66 then Some((c - 0x61) as int + 10)
    else if 0x41 <= c <= 0x46 then Some((c - 0x41) as int + 10)
    else None
  }

  function HexNumber(t: Text): Option<int> {
    if t == [] then Some(0)
    else
      var front, last := HexNumber(t[..|t| - 1]), HexValue(t[|t| - 1]);
      if front.Some? && last.Some? then Some(front.value * 16 + last.value) else None
  }

  /** Integer.parseInt(text, 16) allows a sign; the cast to char wraps. */
  function ParseHex(t: Text): Option<Unit> {
    var signed := t != [] && (t[0] == PLUS || t[0] == MINUS);
    var digits := if signed then t[1..] else t;
    var n := HexNumber(digits);
    if digits == [] || n.None? then None
    else Some(((if signed && t[0] == MINUS then -n.value else n.value) % 0x1_0000) as Unit)
  }

  function Unescaped(c: Unit): Option<Unit> {
    if c == QUOTE || c == BACKSLASH || c == SLASH then Some(c)
    else if c == 0x62 then Some(0x08)
    else if c == 0x66 then Some(0x0c)
    else if c == 0x6e then Some(0x0a)
    else if c == 0x72 then Some(0x0d)
    else if c == 0x74 then Some(0x09)
    else None
  }

  /** One character of a string body, escapes included. */
  function StringUnit(t: Text): (r: Parsing<Unit>)
    requires t != []
    ensures r.Parsed? ==> |r.rest| < |t|
  {
    if t[0] != BACKSLASH then Parsed(t[0], t[1..])
    else if |t| < 2 then Failed
    else if t[1] == 0x75 then
      if |t| < 6 || ParseHex(t[2..6]).None? then Failed else Parsed(ParseHex(t[2..6]).value, t[6..])
    else if Unescaped(t[1]).Some? then Parsed(Unescaped(t[1]).value, t[2..])
    else Failed
  }

  function StringBody(t: Text): (r: Parsing<Text>)
    ensures r.Parsed? ==> |r.rest| < |t|
    decreases |t|
  {
    if t == [] then Failed
    else if t[0] == QUOTE then Parsed([], t[1..])
    else
      var first := StringUnit(t);
      if first.Failed? then Failed
      else
        var others := StringBody(first.rest);
        if others.Failed? then Failed else Parsed([first.value] + others.value, others.rest)
  }

  function ParseString(t: Text): (r: Parsing<Text>)
    ensures r.Parsed? ==> |r.rest| < |t|
  {
    if At(t, QUOTE) then StringBody(t[1..]) else Failed
  }

  function DigitRun(t: Text): (n: nat)
    ensures n <= |t| && (forall i :: 0 <= i < n ==> Digit(t[i])) && (n < |t| ==> !Digit(t[n]))
  {
    if t != [] && Digit(t[0]) then 1 + DigitRun(t[1..]) else 0
  }

  function DecimalValue(t: Text): nat
    requires forall i :: 0 <= i < |t| ==> Digit(t[i])
  {
    if t == [] then 0
    else
      assert Digit(t[|t| - 1]);
      DecimalValue(t[..|t| - 1]) * 10 + (t[|t| - 1] as int - ZERO as int)
  }

  function ParseNumber(t: Text): (r: Parsing<Value>)
    requires t != []
    ensures r.Parsed? ==> |r.rest| < |t|
  {
    var start := if t[0] == MINUS then 1 else 0;
    var count := DigitRun(t[start..]);
    var size: int := DecimalValue(t[start..][..count]);
    var n := if start == 1 then -size else size;
    if count == 0 || n < LONG_MIN || n > LONG_MAX then Failed else Parsed(Num(n), t[start..][count..])
  }

  function ParseValue(t: Text): (r: Parsing<Value>)
    ensures r.Parsed? ==> |r.rest| < |t|
    decreases |t|, 0
  {
    var s := SkipWhitespace(t);
    if s == [] then Failed
    else if s[0] == OPEN_BRACE then ParseObject(s[1..])
    else if s[0] == OPEN then ParseArray(s[1..])
    else if s[0] == QUOTE then
      var text := ParseString(s);
      if text.Failed? then Failed else Parsed(Str(text.value), text.rest)
    else if s[0] == 0x6e then Literal(s, NULL_TEXT, Null)
    else if s[0] == 0x74 then Literal(s, TRUE_TEXT, Bool(true))
    else if s[0] == 0x66 then Literal(s, FALSE_TEXT, Bool(false))
    else ParseNumber(s)
  }

  function ParseArray(t: Text): (r: Parsing<Value>)
    ensures r.Parsed? ==> |r.rest| <= |t|
    decreases |t|, 2
  {
    var s := SkipWhitespace(t);
    if At(s, CLOSE) then Parsed(List([]), s[1..])
    else
      var items := ParseItems(s);
      if items.Failed? then Failed else Parsed(List(items.value), items.rest)
  }

  function ParseItems(t: Text): (r: Parsing<seq<Value>>)
    ensures r.Parsed? ==> |r.rest| <= |t|
    decreases |t|, 1
  {
    var first := ParseValue(t);
    if first.Failed? then Failed
    else
      var s := SkipWhitespace(first.rest);
      if At(s, COMMA) then
        var others := ParseItems(s[1..]);
        if others.Failed? then Failed else Parsed([first.value] + others.value, others.rest)
      else if At(s, CLOSE) then Parsed([first.value], s[1..])
      else Failed
  }

  function ParseObject(t: Text): (r: Parsing<Value>)
    ensures r.Parsed? ==> |r.rest| <= |t|
    decreases |t|, 2
  {
    var s := SkipWhitespace(t);
    if At(s, CLOSE_BRACE) then Parsed(Obj(map[]), s[1..])
    else
      var members := ParseMembers(s, map[]);
      if members.Failed? then Failed else Parsed(Obj(members.value), members.rest)
  }

  /** A key must follow its comma at once: no white space is skipped there. */
  function ParseMembers(t: Text, known: map<Text, Value>): (r: Parsing<map<Text, Value>>)
    ensures r.Parsed? ==> |r.rest| <= |t|
    decreases |t|, 1
  {
    var key := ParseString(t);
    if key.Failed? then Failed
    else
      var colon := SkipWhitespace(key.rest);
      if !At(colon, COLON) then Failed
      else
        var v := ParseValue(colon[1..]);
        if v.Failed? then Failed
        else
          var s := SkipWhitespace(v.rest);
          var members := known[key.value := v.value];
          if At(s, COMMA) then ParseMembers(s[1..], members)
          else if At(s, CLOSE_BRACE) then Parsed(members, s[1..])
          else Failed
  }

  /** JsonParser.parse: one value and nothing but white space after it. */
  function Parse(t: Text): Option<Value> {
    var r := ParseValue(t);
    if r.Parsed? && SkipWhitespace(r.rest) == [] then Some(r.value) else None
  }

  // ----- strings come back

  lemma HexStep(t: Text, n: int, d: int)
    requires HexNumber(t) == Some(n) && 0 <= d < 16
    ensures HexNumber(t + [HexDigit(d)]) == Some(n * 16 + d)
  {
    assert (t + [HexDigit(d)])[..|t|] == t;
    assert HexValue(HexDigit(d)) == Some(d);
  }

  lemma HexPlaces(n: int)
    requires 0 <= n < 0x1_0000
    ensures ((n / 4096 * 16 + n / 256 % 16) * 16 + n / 16 % 16) * 16 + n % 16 == n
    ensures 0 <= n / 4096 < 16
  {
  }

  lemma FourDigits(d3: int, d2: int, d1: int, d0: int)
    requires 0 <= d3 < 16 && 0 <= d2 < 16 && 0 <= d1 < 16 && 0 <= d0 < 16
    ensures
      var t: Text := [HexDigit(d3), HexDigit(d2), HexDigit(d1), HexDigit(d0)];
      HexNumber(t) == Some(((d3 * 16 + d2) * 16 + d1) * 16 + d0) && t[0] != PLUS && t[0] != MINUS
  {
    var t: Text := [];
    assert HexNumber(t) == Some(0);
    assert HexDigit(d3) != PLUS && HexDigit(d3) != MINUS;
    hide HexNumber, HexDigit;
    HexStep(t, 0, d3);
    HexStep(t + [HexDigit(d3)], d3, d2);
    HexStep(t + [HexDigit(d3)] + [HexDigit(d2)], d3 * 16 + d2, d1);
    HexStep(t + [HexDigit(d3)] + [HexDigit(d2)] + [HexDigit(d1)], (d3 * 16 + d2) * 16 + d1, d0);
    assert t + [HexDigit(d3)] + [HexDigit(d2)] + [HexDigit(d1)] + [HexDigit(d0)]
        == [HexDigit(d3), HexDigit(d2), HexDigit(d1), HexDigit(d0)];
  }

  lemma HexComesBack(c: Unit)
    ensures ParseHex(HexEscape(c)[2..]) == Some(c)
  {
    hide HexNumber, HexDigit;
    var n := c as int;
    HexPlaces(n);
    FourDigits(n / 4096, n / 256 % 16, n / 16 % 16, n % 16);
    assert HexEscape(c)[2..] == [HexDigit(n / 4096), HexDigit(n / 256 % 16), HexDigit(n / 16 % 16), HexDigit(n % 16)];
  }

  /** How a text spells one unit. */
  predicate Spells(e: Text, c: Unit) {
    e == HexEscape(c) || e == EscapedUnit(c) || (e == [c] && c >= 0x20 && c != QUOTE && c != BACKSLASH)
  }

  lemma HexUnitComesBack(c: Unit, rest: Text)
    ensures StringUnit(HexEscape(c) + rest) == Parsed(c, rest)
  {
    var t := HexEscape(c) + rest;
    HexComesBack(c);
    assert t[0] == BACKSLASH && t[1] == 0x75;
    assert t[2..6] == HexEscape(c)[2..] && t[6..] == rest;
    hide HexEscape, ParseHex;
  }

  lemma ShortUnitComesBack(c: Unit, rest: Text)
    requires ShortEscape(c).Some?
    ensures StringUnit([BACKSLASH, ShortEscape(c).value] + rest) == Parsed(c, rest)
  {
    var t := [BACKSLASH, ShortEscape(c).value] + rest;
    assert t[2..] == rest;
  }

  lemma UnitComesBack(e: Text, c: Unit, rest: Text)
    requires Spells(e, c)
    ensures e != [] && e[0] != QUOTE && StringUnit(e + rest) == Parsed(c, rest)
  {
    hide StringUnit;
    if e == HexEscape(c) {
      HexUnitComesBack(c, rest);
    } else if e == [c] {
      RawUnitComesBack(c, rest);
    } else {
      ShortUnitComesBack(c, rest);
    }
  }

  lemma RawUnitComesBack(c: Unit, rest: Text)
    requires c != BACKSLASH
    ensures StringUnit([c] + rest) == Parsed(c, rest)
  {
    assert ([c] + rest)[1..] == rest;
  }

  lemma {:induction false} LongerBody(t: Text, c: Unit, onward: Text, s: Text, rest: Text)
    requires t != [] && t[0] != QUOTE && StringUnit(t) == Parsed(c, onward) && StringBody(onward) == Parsed(s, rest)
    ensures StringBody(t) == Parsed([c] + s, rest)
  {
    hide StringUnit;
  }

  lemma {:induction false} UnitThenBody(e: Text, c: Unit, text: Text, s: Text, rest: Text)
    requires Spells(e, c) && StringBody(text + [QUOTE] + rest) == Parsed(s, rest)
    ensures StringBody(e + text + [QUOTE] + rest) == Parsed([c] + s, rest)
  {
    hide Spells, StringBody, StringUnit;
    var onward := text + [QUOTE] + rest;
    UnitComesBack(e, c, onward);
    assert e + text + [QUOTE] + rest == e + onward && (e + onward)[0] == e[0];
    LongerBody(e + onward, c, onward, s, rest);
  }

  lemma EmptyBody(rest: Text)
    ensures StringBody([] + [QUOTE] + rest) == Parsed([], rest)
  {
    assert [] + [QUOTE] + rest == [QUOTE] + rest && ([QUOTE] + rest)[1..] == rest;
  }

  lemma {:induction false} EscapedComesBack(s: Text, rest: Text)
    ensures StringBody(Escaped(s) + [QUOTE] + rest) == Parsed(s, rest)
  {
    EmptyBody(rest);
    if s != [] {
      EscapedComesBack(s[1..], rest);
      UnitThenBody(EscapedUnit(s[0]), s[0], Escaped(s[1..]), s[1..], rest);
      assert s == [s[0]] + s[1..];
    }
  }

  lemma SurrogatesThenBody(a: Unit, b: Unit, text: Text, s: Text, rest: Text)
    requires High(a) && Low(b) && StringBody(text + [QUOTE] + rest) == Parsed(s, rest)
    ensures StringBody([a, b] + text + [QUOTE] + rest) == Parsed([a, b] + s, rest)
  {
    hide StringBody;
    UnitThenBody([b], b, text, s, rest);
    UnitThenBody([a], a, [b] + text, [b] + s, rest);
    assert [a, b] + text == [a] + ([b] + text) && [a, b] + s == [a] + ([b] + s);
  }

  lemma {:induction false} StringifiedComesBack(s: Text, rest: Text)
    ensures StringBody(Stringified(s) + [QUOTE] + rest) == Parsed(s, rest)
    decreases |s|
  {
    EmptyBody(rest);
    hide StringBody, HexEscape, EscapedUnit;
    if s == [] {
    } else if High(s[0]) && |s| > 1 && Low(s[1]) {
      StringifiedComesBack(s[2..], rest);
      SurrogatesThenBody(s[0], s[1], Stringified(s[2..]), s[2..], rest);
      assert s == [s[0], s[1]] + s[2..];
    } else {
      var e := if High(s[0]) || Low(s[0]) then HexEscape(s[0]) else EscapedUnit(s[0]);
      StringifiedComesBack(s[1..], rest);
      UnitThenBody(e, s[0], Stringified(s[1..]), s[1..], rest);
      assert s == [s[0]] + s[1..];
    }
  }

  lemma BodyComesBack(p: Printer, s: Text, rest: Text)
    ensures StringBody(StringText(p, s) + [QUOTE] + rest) == Parsed(s, rest)
  {
    EscapedComesBack(s, rest);
    StringifiedComesBack(s, rest);
  }

  lemma StringComesBack(p: Printer, s: Text, rest: Text)
    ensures ParseString([QUOTE] + StringText(p, s) + [QUOTE] + rest) == Parsed(s, rest)
  {
    var t := [QUOTE] + StringText(p, s) + [QUOTE] + rest;
    assert t[1..] == StringText(p, s) + [QUOTE] + rest;
    BodyComesBack(p, s, rest);
  }

  // ----- numbers come back

  lemma {:induction false} DigitsValue(n: nat)
    ensures DecimalValue(Digits(n)) == n
  {
    var last: Text := [ZERO + (n % 10) as Unit];
    if n < 10 {
      assert Digits(n) == last;
      assert last[..0] == [];
    } else {
      DigitsValue(n / 10);
      assert Digits(n)[..|Digits(n)| - 1] == Digits(n / 10);
    }
  }

  predicate NoDigit(rest: Text) {
    rest == [] || !Digit(rest[0])
  }

  lemma {:induction false} RunOfDigits(digits: Text, rest: Text)
    requires forall i :: 0 <= i < |digits| ==> Digit(digits[i])
    requires NoDigit(rest)
    ensures DigitRun(digits + rest) == |digits|
  {
    if digits == [] {
      assert digits + rest == rest;
    } else {
      RunOfDigits(digits[1..], rest);
      assert (digits + rest)[1..] == digits[1..] + rest;
    }
  }

  lemma SplitsAt(digits: Text, rest: Text)
    ensures (digits + rest)[..|digits|] == digits && (digits + rest)[|digits|..] == rest
  {
  }

  lemma NumberComesBack(n: int, rest: Text)
    requires LONG_MIN <= n <= LONG_MAX && NoDigit(rest)
    ensures ParseNumber(Decimal(n) + rest) == Parsed(Num(n), rest)
  {
    hide Digits, DecimalValue, DigitRun;
    var size: nat := if n < 0 then -n else n;
    var digits, t := Digits(size), Decimal(n) + rest;
    DigitsValue(size);
    RunOfDigits(digits, rest);
    SplitsAt(digits, rest);
    if n < 0 {
      assert t == [MINUS] + (digits + rest);
      assert t[1..] == digits + rest;
    } else {
      assert t == digits + rest && Digit(t[0]);
      assert t[0..] == t;
    }
  }

  // ----- values come back

  /** Every number fits a Java long. */
  predicate Representable(v: Value)
    decreases v
  {
    match v
    case Num(n) => LONG_MIN <= n <= LONG_MAX
    case List(items) => forall i :: 0 <= i < |items| ==> Representable(items[i])
    case _ => true
  }

  predicate Starts(t: Text) {
    t != [] && !Whitespace(t[0]) && t[0] != CLOSE && t[0] != OPEN_BRACE
  }

  lemma PrintedStarts(p: Printer, v: Value, depth: nat)
    requires Printed(p, v, depth).Some?
    ensures Starts(Printed(p, v, depth).value)
  {
  }

  lemma LiteralComesBack(expected: Text, rest: Text, v: Value)
    ensures Literal(expected + rest, expected, v) == Parsed(v, rest)
  {
    assert (expected + rest)[|expected|..] == rest;
  }

  lemma NoLeadingSpace(t: Text)
    requires t == [] || !Whitespace(t[0])
    ensures SkipWhitespace(t) == t
  {
  }

  lemma NumberStarts(n: int)
    ensures Decimal(n) != [] && (Decimal(n)[0] == MINUS || Digit(Decimal(n)[0]))
  {
  }

  lemma NullComesBack(rest: Text)
    ensures ParseValue(NULL_TEXT + rest) == Parsed(Null, rest)
  {
    hide ParseArray, ParseObject, ParseNumber, ParseString, Literal, SkipWhitespace;
    assert (NULL_TEXT + rest)[0] == 0x6e;
    NoLeadingSpace(NULL_TEXT + rest);
    LiteralComesBack(NULL_TEXT, rest, Null);
  }

  lemma TrueComesBack(rest: Text)
    ensures ParseValue(TRUE_TEXT + rest) == Parsed(Bool(true), rest)
  {
    hide ParseArray, ParseObject, ParseNumber, ParseString, Literal, SkipWhitespace;
    assert (TRUE_TEXT + rest)[0] == 0x74;
    NoLeadingSpace(TRUE_TEXT + rest);
    LiteralComesBack(TRUE_TEXT, rest, Bool(true));
  }

  lemma FalseComesBack(rest: Text)
    ensures ParseValue(FALSE_TEXT + rest) == Parsed(Bool(false), rest)
  {
    hide ParseArray, ParseObject, ParseNumber, ParseString, Literal, SkipWhitespace;
    assert (FALSE_TEXT + rest)[0] == 0x66;
    NoLeadingSpace(FALSE_TEXT + rest);
    LiteralComesBack(FALSE_TEXT, rest, Bool(false));
  }

  lemma OpensNumber(t: Text)
    requires t != [] && (t[0] == MINUS || Digit(t[0]))
    ensures ParseValue(t) == ParseNumber(t)
  {
    hide ParseArray, ParseObject, ParseNumber, ParseString, Literal, SkipWhitespace, ParseItems, ParseMembers,
      StringBody, DigitRun, DecimalValue;
    NoLeadingSpace(t);
    assert ParseValue(t) == ParseNumber(t);
  }

  lemma NumberValueComesBack(n: int, rest: Text)
    requires LONG_MIN <= n <= LONG_MAX && NoDigit(rest)
    ensures ParseValue(Decimal(n) + rest) == Parsed(Num(n), rest)
  {
    hide ParseValue, ParseNumber, Decimal;
    NumberStarts(n);
    assert (Decimal(n) + rest)[0] == Decimal(n)[0];
    OpensNumber(Decimal(n) + rest);
    NumberComesBack(n, rest);
  }

  lemma StringValueComesBack(p: Printer, s: Text, rest: Text)
    ensures ParseValue([QUOTE] + StringText(p, s) + [QUOTE] + rest) == Parsed(Str(s), rest)
  {
    hide ParseArray, ParseObject, ParseNumber, ParseString, Literal, SkipWhitespace, StringText;
    NoLeadingSpace([QUOTE] + StringText(p, s) + [QUOTE] + rest);
    StringComesBack(p, s, rest);
  }

  lemma ScalarComesBack(p: Printer, v: Value, depth: nat, rest: Text)
    requires Printed(p, v, depth).Some? && Representable(v) && !v.List? && NoDigit(rest)
    ensures ParseValue(Printed(p, v, depth).value + rest) == Parsed(v, rest)
  {
    hide ParseValue, Decimal, StringText;
    match v {
      case Null => NullComesBack(rest);
      case Bool(_) =>
        TrueComesBack(rest);
        FalseComesBack(rest);
      case Num(n) => NumberValueComesBack(n, rest);
      case Str(s) => StringValueComesBack(p, s, rest);
    }
  }

  lemma OpensArray(t: Text)
    requires At(t, OPEN)
    ensures ParseValue(t) == ParseArray(t[1..])
  {
    hide ParseArray, ParseObject;
    NoLeadingSpace(t);
  }

  lemma EmptyArray(rest: Text)
    ensures ParseArray([CLOSE] + rest) == Parsed(List([]), rest)
  {
    hide ParseItems;
    NoLeadingSpace([CLOSE] + rest);
    assert ([CLOSE] + rest)[1..] == rest;
  }

  lemma ArrayOfItems(t: Text, items: seq<Value>, rest: Text)
    requires Starts(t) && ParseItems(t) == Parsed(items, rest)
    ensures ParseArray(t) == Parsed(List(items), rest)
  {
    hide ParseItems;
    NoLeadingSpace(t);
  }

  lemma LastItem(t: Text, v: Value, rest: Text)
    requires ParseValue(t) == Parsed(v, [CLOSE] + rest)
    ensures ParseItems(t) == Parsed([v], rest)
  {
    hide ParseValue;
    NoLeadingSpace([CLOSE] + rest);
    assert ([CLOSE] + rest)[1..] == rest;
  }

  lemma MoreItems(t: Text, v: Value, onward: Text, items: seq<Value>, rest: Text)
    requires ParseValue(t) == Parsed(v, [COMMA] + onward) && ParseItems(onward) == Parsed(items, rest)
    ensures ParseItems(t) == Parsed([v] + items, rest)
  {
    hide ParseValue;
    NoLeadingSpace([COMMA] + onward);
    assert ([COMMA] + onward)[1..] == onward;
  }

  /** Parsing printed text gives the value back and stops right after it. */
  lemma {:induction false} ValueComesBack(p: Printer, v: Value, depth: nat, rest: Text)
    requires Printed(p, v, depth).Some? && Representable(v) && NoDigit(rest)
    ensures ParseValue(Printed(p, v, depth).value + rest) == Parsed(v, rest)
    decreases v
  {
    hide ParseValue, ParseArray, ParseItems, Starts;
    if !v.List? {
      ScalarComesBack(p, v, depth, rest);
    } else {
      var inner := PrintedItems(p, v.items, depth + 1).value;
      var t := [OPEN] + inner + [CLOSE] + rest;
      assert Printed(p, v, depth).value + rest == t;
      assert t[1..] == inner + ([CLOSE] + rest);
      OpensArray(t);
      if v.items == [] {
        EmptyArray(rest);
        assert t[1..] == [CLOSE] + rest;
      } else {
        ItemsComeBack(p, v.items, depth + 1, rest);
        ItemsStart(p, v.items, depth + 1, [CLOSE] + rest);
        ArrayOfItems(inner + ([CLOSE] + rest), v.items, rest);
      }
    }
  }

  lemma ItemsStart(p: Printer, items: seq<Value>, depth: nat, rest: Text)
    requires items != [] && PrintedItems(p, items, depth).Some?
    ensures Starts(PrintedItems(p, items, depth).value + rest)
  {
    PrintedStarts(p, items[0], depth);
  }

  lemma {:induction false} ItemsComeBack(p: Printer, items: seq<Value>, depth: nat, rest: Text)
    requires items != [] && PrintedItems(p, items, depth).Some?
    requires forall i :: 0 <= i < |items| ==> Representable(items[i])
    ensures ParseItems(PrintedItems(p, items, depth).value + ([CLOSE] + rest)) == Parsed(items, rest)
    decreases items
  {
    hide ParseValue, ParseItems, Printed;
    var first := Printed(p, items[0], depth).value;
    if |items| == 1 {
      ValueComesBack(p, items[0], depth, [CLOSE] + rest);
      LastItem(first + ([CLOSE] + rest), items[0], rest);
      assert items == [items[0]];
    } else {
      var others := PrintedItems(p, items[1..], depth).value;
      var onward := others + ([CLOSE] + rest);
      ValueComesBack(p, items[0], depth, [COMMA] + onward);
      ItemsComeBack(p, items[1..], depth, rest);
      MoreItems(first + ([COMMA] + onward), items[0], onward, items[1..], rest);
      assert PrintedItems(p, items, depth).value + ([CLOSE] + rest) == first + ([COMMA] + onward);
      assert items == [items[0]] + items[1..];
    }
  }

  /** parse(json(v)) == v, for every null, boolean, 64-bit integer, string and list nested no deeper than printable. */
  lemma RoundTrip(p: Printer, v: Value)
    requires Printed(p, v, 0).Some? && Representable(v)
    ensures Parse(Printed(p, v, 0).value) == Some(v)
  {
    ValueComesBack(p, v, 0, []);
    assert Printed(p, v, 0).value + [] == Printed(p, v, 0).value;
  }

  /** So two different values never print alike. */
  lemma PrinterInjective(p: Printer, v: Value, w: Value)
    requires Printed(p, v, 0).Some? && Representable(v) && Representable(w) && Printed(p, w, 0) == Printed(p, v, 0)
    ensures v == w
  {
    RoundTrip(p, v);
    RoundTrip(p, w);
  }

  // ----- objects come back

  /** The members of an object literal as JSON.stringify writes them, without any white space. */
  function MembersText(p: Printer, members: seq<(Text, Value)>): Option<Text>
    decreases |members|
  {
    if members == [] then Some([])
    else
      var v := Printed(p, members[0].1, 1);
      var rest := MembersText(p, members[1..]);
      if v.None? || rest.None? then None
      else
        var first := [QUOTE] + StringText(p, members[0].0) + [QUOTE] + ([COLON] + v.value);
        Some(if |members| == 1 then first else first + ([COMMA] + rest.value))
  }

  /** Later members override earlier ones of the same name. */
  function Collected(known: map<Text, Value>, members: seq<(Text, Value)>): map<Text, Value>
    decreases |members|
  {
    if members == [] then known else Collected(known[members[0].0 := members[0].1], members[1..])
  }

  lemma OneMoreMember(t: Text, known: map<Text, Value>)
    ensures
      var key := ParseString(t);
      if key.Failed? then ParseMembers(t, known).Failed?
      else
        var colon := SkipWhitespace(key.rest);
        if !At(colon, COLON) || ParseValue(colon[1..]).Failed? then ParseMembers(t, known).Failed?
        else
          var v := ParseValue(colon[1..]);
          var s := SkipWhitespace(v.rest);
          ParseMembers(t, known) ==
            if At(s, COMMA) then ParseMembers(s[1..], known[key.value := v.value])
            else if At(s, CLOSE_BRACE) then Parsed(known[key.value := v.value], s[1..])
            else Failed
  {
    hide ParseValue, ParseString, SkipWhitespace;
  }

  lemma {:induction false} LastMember(t: Text, key: Text, onward: Text, v: Value, known: map<Text, Value>, rest: Text)
    requires ParseString(t) == Parsed(key, [COLON] + onward) && ParseValue(onward) == Parsed(v, [CLOSE_BRACE] + rest)
    ensures ParseMembers(t, known) == Parsed(known[key := v], rest)
  {
    hide ParseString, ParseValue, ParseMembers;
    OneMoreMember(t, known);
    NoLeadingSpace([COLON] + onward);
    NoLeadingSpace([CLOSE_BRACE] + rest);
    assert ([COLON] + onward)[1..] == onward && ([CLOSE_BRACE] + rest)[1..] == rest;
  }

  lemma {:induction false} MoreMembers(t: Text, key: Text, onward: Text, v: Value, known: map<Text, Value>, after: Text)
    requires ParseString(t) == Parsed(key, [COLON] + onward) && ParseValue(onward) == Parsed(v, [COMMA] + after)
    ensures ParseMembers(t, known) == ParseMembers(after, known[key := v])
  {
    hide ParseString, ParseValue, ParseMembers;
    OneMoreMember(t, known);
    NoLeadingSpace([COLON] + onward);
    NoLeadingSpace([COMMA] + after);
    assert ([COLON] + onward)[1..] == onward && ([COMMA] + after)[1..] == after;
  }

  lemma {:induction false} MembersComeBack(p: Printer, members: seq<(Text, Value)>, known: map<Text, Value>, rest: Text)
    requires members != [] && MembersText(p, members).Some?
    requires forall i :: 0 <= i < |members| ==> Representable(members[i].1)
    ensures
      ParseMembers(MembersText(p, members).value + ([CLOSE_BRACE] + rest), known)
        == Parsed(Collected(known, members), rest)
    decreases |members|
  {
    hide ParseString, ParseValue, ParseMembers, Printed, StringText;
    var (key, v) := members[0];
    var text := Printed(p, v, 1).value;
    var others := members[1..];
    var after := if others == [] then [CLOSE_BRACE] + rest
                 else [COMMA] + (MembersText(p, others).value + ([CLOSE_BRACE] + rest));
    var t := [QUOTE] + StringText(p, key) + [QUOTE] + ([COLON] + (text + after));
    assert MembersText(p, members).value + ([CLOSE_BRACE] + rest) == t;
    StringComesBack(p, key, [COLON] + (text + after));
    ValueComesBack(p, v, 1, after);
    if others == [] {
      LastMember(t, key, text + after, v, known, rest);
    } else {
      var next := MembersText(p, others).value + ([CLOSE_BRACE] + rest);
      MembersComeBack(p, others, known[key := v], rest);
      MoreMembers(t, key, text + after, v, known, next);
    }
  }

  lemma OpensObject(t: Text)
    requires At(t, OPEN_BRACE)
    ensures ParseValue(t) == ParseObject(t[1..])
  {
    hide ParseArray, ParseObject;
    NoLeadingSpace(t);
  }

  lemma {:induction false} ObjectOfMembers(inner: Text, members: map<Text, Value>, rest: Text)
    requires At(inner, QUOTE) && ParseMembers(inner, map[]) == Parsed(members, rest)
    ensures ParseObject(inner) == Parsed(Obj(members), rest)
  {
    hide ParseMembers;
    NoLeadingSpace(inner);
  }

  lemma {:induction false} EmptyObject(rest: Text)
    ensures ParseObject([CLOSE_BRACE] + rest) == Parsed(Obj(map[]), rest)
  {
    hide ParseMembers;
    NoLeadingSpace([CLOSE_BRACE] + rest);
    assert ([CLOSE_BRACE] + rest)[1..] == rest;
  }

  lemma MembersStart(p: Printer, members: seq<(Text, Value)>)
    requires members != [] && MembersText(p, members).Some?
    ensures At(MembersText(p, members).value, QUOTE)
  {
    hide Printed, StringText;
  }

  lemma {:induction false} InsideComesBack(p: Printer, members: seq<(Text, Value)>, rest: Text)
    requires MembersText(p, members).Some? && forall i :: 0 <= i < |members| ==> Representable(members[i].1)
    ensures
      ParseObject(MembersText(p, members).value + ([CLOSE_BRACE] + rest))
      == Parsed(Obj(Collected(map[], members)), rest)
  {
    hide ParseMembers, ParseObject, Representable;
    var text := MembersText(p, members).value;
    if members == [] {
      EmptyObject(rest);
      assert text + ([CLOSE_BRACE] + rest) == [CLOSE_BRACE] + rest;
    } else {
      MembersComeBack(p, members, map[], rest);
      MembersStart(p, members);
      hide MembersText, Collected;
      ObjectOfMembers(text + ([CLOSE_BRACE] + rest), Collected(map[], members), rest);
    }
  }

  lemma WholeText(t: Text, v: Value)
    requires ParseValue(t) == Parsed(v, [])
    ensures Parse(t) == Some(v)
  {
    hide ParseValue;
    NoLeadingSpace([]);
  }

  /** An object literal parses to its members, whatever their number and names. */
  lemma {:induction false} ObjectComesBack(p: Printer, members: seq<(Text, Value)>)
    requires MembersText(p, members).Some? && forall i :: 0 <= i < |members| ==> Representable(members[i].1)
    ensures Parse([OPEN_BRACE] + MembersText(p, members).value + [CLOSE_BRACE]) == Some(Obj(Collected(map[], members)))
  {
    hide Parse, ParseValue, ParseObject, MembersText, Collected, Representable;
    var t := [OPEN_BRACE] + MembersText(p, members).value + [CLOSE_BRACE];
    assert t[1..] == MembersText(p, members).value + ([CLOSE_BRACE] + []);
    InsideComesBack(p, members, []);
    OpensObject(t);
    WholeText(t, Obj(Collected(map[], members)));
  }

  const ARGS: Text := [0x61, 0x72, 0x67, 0x73]

  /** The line the runner writes for a test case: JSON.stringify of an object holding the arguments. */
  function RequestLine(args: seq<Value>): Option<Text> {
    var list := Printed(Stringify, List(args), 1);
    if list.None? then None
    else Some([OPEN_BRACE] + ([QUOTE] + Stringified(ARGS) + [QUOTE] + ([COLON] + list.value)) + [CLOSE_BRACE])
  }

  // ----- exactly which values print

  lemma {:induction false} ItemsPrint(p: Printer, items: seq<Value>, depth: nat)
    ensures PrintedItems(p, items, depth).Some? <==> forall i :: 0 <= i < |items| ==> Printed(p, items[i], depth).Some?
    decreases |items|
  {
    if |items| > 1 {
      ItemsPrint(p, items[1..], depth);
      assert forall i :: 1 <= i < |items| ==> items[i] == items[1..][i - 1];
    }
  }

  predicate ObjectFree(v: Value)
    decreases v
  {
    !v.Obj? && (v.List? ==> forall i :: 0 <= i < |v.items| ==> ObjectFree(v.items[i]))
  }

  /** How many lists an element of the value lies in, at most; an empty list has no element. */
  function Nesting(v: Value): nat
    decreases v
  {
    if v.List? && v.items != [] then 1 + Deepest(v.items) else 0
  }

  function Deepest(items: seq<Value>): (n: nat)
    requires items != []
    decreases items
  {
    if |items| == 1 then Nesting(items[0]) else Max(Nesting(items[0]), Deepest(items[1..]))
  }

  lemma {:induction false} ItemsPrintIffShallow(p: Printer, items: seq<Value>, depth: nat)
    requires items != []
    ensures PrintedItems(p, items, depth).Some? <==>
              && (forall i :: 0 <= i < |items| ==> ObjectFree(items[i]))
              && (p == Harness ==> depth + Deepest(items) <= 100)
    decreases items
  {
    hide Printed, ObjectFree, Nesting;
    PrintsIffShallow(p, items[0], depth);
    if |items| > 1 {
      ItemsPrintIffShallow(p, items[1..], depth);
      assert forall i :: 1 <= i < |items| ==> items[i] == items[1..][i - 1];
    }
  }

  /** The harness prints a value exactly when it has no object in it and none of its elements lies below level 100;
      JSON.stringify, however deep it is nested. */
  lemma {:induction false} PrintsIffShallow(p: Printer, v: Value, depth: nat)
    ensures Printed(p, v, depth).Some? <==> ObjectFree(v) && (p == Harness ==> depth + Nesting(v) <= 100)
    decreases v
  {
    if v.List? && v.items != [] {
      ItemsPrintIffShallow(p, v.items, depth + 1);
    }
  }

  /** What the harness reads is what the runner wrote: the arguments of every test case arrive unchanged, however deep
      they are nested. */
  lemma {:induction false} ArgumentsArrive(args: seq<Value>)
    requires ObjectFree(List(args)) && Representable(List(args))
    ensures RequestLine(args).Some? && Parse(RequestLine(args).value) == Some(Obj(map[ARGS := List(args)]))
  {
    hide Parse, Printed, Stringified, Representable, ObjectFree;
    PrintsIffShallow(Stringify, List(args), 1);
    var members := [(ARGS, List(args))];
    assert members[1..] == [];
    ObjectComesBack(Stringify, members);
  }

  /** Printed text is one protocol line: no control character, so no line break, ever appears raw. */
  lemma {:induction false} PrintedIsOneLine(p: Printer, v: Value, depth: nat)
    requires Printed(p, v, depth).Some?
    ensures forall i :: 0 <= i < |Printed(p, v, depth).value| ==> Printed(p, v, depth).value[i] >= 0x20
    decreases v
  {
    match v {
      case Str(s) =>
        EscapedIsOneLine(s);
        StringifiedIsOneLine(s);
      case List(items) => ItemsAreOneLine(p, items, depth + 1);
      case _ =>
    }
  }

  lemma {:induction false} EscapedIsOneLine(s: Text)
    ensures forall i :: 0 <= i < |Escaped(s)| ==> Escaped(s)[i] >= 0x20
  {
    if s != [] {
      EscapedIsOneLine(s[1..]);
    }
  }

  lemma {:induction false} StringifiedIsOneLine(s: Text)
    ensures forall i :: 0 <= i < |Stringified(s)| ==> Stringified(s)[i] >= 0x20
    decreases |s|
  {
    if s != [] {
      StringifiedIsOneLine(s[1..]);
      if |s| > 1 {
        StringifiedIsOneLine(s[2..]);
      }
    }
  }

  lemma {:induction false} ItemsAreOneLine(p: Printer, items: seq<Value>, depth: nat)
    requires PrintedItems(p, items, depth).Some?
    ensures forall i :: 0 <= i < |PrintedItems(p, items, depth).value| ==>
            PrintedItems(p, items, depth).value[i] >= 0x20
    decreases items
  {
    if items != [] {
      PrintedIsOneLine(p, items[0], depth);
      if |items| > 1 {
        ItemsAreOneLine(p, items[1..], depth);
      }
    }
  }
}
