/** The texts the harness reads, as a grammar: what each value may look like, piece by piece, without saying how it is
    found. The parser is proved to read exactly these. */
module JsonGrammar {
  import opened Domain
  import opened Json

  predicate Blank(t: Text) {
    forall i :: 0 <= i < |t| ==> Whitespace(t[i])
  }

  predicate Wrapped(t: Text, open: Unit, close: Unit) {
    |t| >= 2 && t[0] == open && t[|t| - 1] == close
  }

  function Inside(t: Text): Text
    requires |t| >= 2
  {
    t[1..|t| - 1]
  }

  // ----- strings

  /** Two characters for one, by the letter after the backslash. */
  predicate Escapes(letter: Unit, c: Unit) {
    || (letter == 0x22 && c == 0x22) || (letter == 0x5c && c == 0x5c) || (letter == 0x2f && c == 0x2f)
    || (letter == 0x62 && c == 0x08) || (letter == 0x66 && c == 0x0c) || (letter == 0x6e && c == 0x0a)
    || (letter == 0x72 && c == 0x0d) || (letter == 0x74 && c == 0x09)
  }

  predicate UnitSpelled(e: Text, c: Unit) {
    || (e == [c] && c != 0x22 && c != 0x5c)
    || (|e| == 2 && e[0] == 0x5c && Escapes(e[1], c))
    || (|e| == 6 && e[0] == 0x5c && e[1] == 0x75 && ParseHex(e[2..]) == Some(c))
  }

  ghost predicate BodySpelled(body: Text, s: Text)
    decreases |s|
  {
    if s == [] then body == []
    else exists k :: 0 < k <= |body| && UnitSpelled(body[..k], s[0]) && BodySpelled(body[k..], s[1..])
  }

  ghost predicate StringSpelled(t: Text, s: Text) {
    Wrapped(t, 0x22, 0x22) && BodySpelled(Inside(t), s)
  }

  /** The value of a hexadecimal digit, in either case. */
  function Hexit(c: Unit): Option<int> {
    if 48 <= c <= 57 then Some(c as int - 48)
    else if 65 <= c <= 70 then Some(c as int - 55)
    else if 97 <= c <= 102 then Some(c as int - 87)
    else None
  }

  /** The four characters of a \u escape: hexadecimal digits, or a sign and three of them, wrapping around. */
  lemma HexExactly(a: Unit, b: Unit, c: Unit, d: Unit)
    ensures
      ParseHex([a, b, c, d])
      == if Hexit(b).None? || Hexit(c).None? || Hexit(d).None? then None
         else
           var low := (Hexit(b).value * 16 + Hexit(c).value) * 16 + Hexit(d).value;
           if Hexit(a).Some? then Some((Hexit(a).value * 4096 + low) as Unit)
           else if a == 43 then Some(low as Unit)
           else if a == 45 then Some((if low == 0 then 0 else 65536 - low) as Unit)
           else None
  {
    HexitIs(a);
    HexitIs(b);
    HexitIs(c);
    HexitIs(d);
    hide HexValue, Hexit, HexNumber;
    var t: Text := [a, b, c, d];
    assert t[1..] == [b, c, d];
    ThreeHexits(b, c, d);
    ThreeHexits(a, b, c);
    FourHexits(a, b, c, d);
  }

  lemma HexitIs(c: Unit)
    ensures HexValue(c) == Hexit(c) && (c == 43 || c == 45 ==> Hexit(c).None?)
    ensures Hexit(c).Some? ==> 0 <= Hexit(c).value < 16
  {
  }

  lemma OneMoreHexit(t: Text, c: Unit)
    ensures HexNumber(t + [c])
            == if HexNumber(t).Some? && HexValue(c).Some? then Some(HexNumber(t).value * 16 + HexValue(c).value)
               else None
  {
    assert (t + [c])[..|t|] == t;
  }

  lemma ThreeHexits(a: Unit, b: Unit, c: Unit)
    ensures
      HexNumber([a, b, c])
      == if HexValue(a).Some? && HexValue(b).Some? && HexValue(c).Some?
         then Some((HexValue(a).value * 16 + HexValue(b).value) * 16 + HexValue(c).value) else None
  {
    var none: Text := [];
    assert HexNumber(none) == Some(0);
    hide HexNumber, HexValue;
    OneMoreHexit([], a);
    OneMoreHexit([a], b);
    OneMoreHexit([a, b], c);
    assert [] + [a] == [a] && [a] + [b] == [a, b] && [a, b] + [c] == [a, b, c];
  }

  lemma FourHexits(a: Unit, b: Unit, c: Unit, d: Unit)
    ensures
      HexNumber([a, b, c, d])
      == if HexNumber([a, b, c]).Some? && HexValue(d).Some?
         then Some(HexNumber([a, b, c]).value * 16 + HexValue(d).value) else None
  {
    OneMoreHexit([a, b, c], d);
    assert [a, b, c] + [d] == [a, b, c, d];
  }

  // ----- numbers

  predicate AllDigits(t: Text) {
    forall i :: 0 <= i < |t| ==> 0x30 <= t[i] <= 0x39
  }

  function BaseTen(t: Text): int {
    if t == [] then 0 else BaseTen(t[..|t| - 1]) * 10 + (t[|t| - 1] as int - 0x30)
  }

  /** An optional minus sign and at least one digit, within 64 bits. */
  predicate NumberSpelled(t: Text, n: int) {
    var negative := t != [] && t[0] == 0x2d;
    var digits := if negative then t[1..] else t;
    && digits != [] && AllDigits(digits) && n == (if negative then -BaseTen(digits) else BaseTen(digits))
    && -0x8000_0000_0000_0000 <= n <= 0x7fff_ffff_ffff_ffff
  }

  // ----- values

  /** One entry of a list, up to the comma or the end. */
  datatype Item = Item(lead: Text, core: Text, trail: Text, rest: Text)

  predicate ItemCut(t: Text, p: Item) {
    t == p.lead + p.core + p.trail + p.rest && Blank(p.lead) && Blank(p.trail)
  }

  /** One member of an object, likewise; nothing stands before its name. */
  datatype Member = Member(name: Text, gap: Text, lead: Text, core: Text, trail: Text, rest: Text)

  predicate MemberCut(t: Text, q: Member) {
    && t == q.name + q.gap + [COLON] + q.lead + q.core + q.trail + q.rest
    && Blank(q.gap) && Blank(q.lead) && Blank(q.trail)
  }

  ghost predicate Spelled(t: Text, v: Value)
    decreases |t|, 0
  {
    match v
    case Null => t == [0x6e, 0x75, 0x6c, 0x6c]
    case Bool(b) => t == if b then [0x74, 0x72, 0x75, 0x65] else [0x66, 0x61, 0x6c, 0x73, 0x65]
    case Num(n) => NumberSpelled(t, n)
    case Str(s) => StringSpelled(t, s)
    case List(items) =>
      Wrapped(t, 0x5b, 0x5d) && if items == [] then Blank(Inside(t)) else ItemsSpelled(Inside(t), items)
    case Obj(m) =>
      Wrapped(t, 0x7b, 0x7d) && ObjectSpelled(Inside(t), m)
  }

  /** Nothing but white space, or members with white space before the first. */
  ghost predicate ObjectSpelled(t: Text, m: map<Text, Value>)
    decreases |t|, 2
  {
    || (m == map[] && Blank(t))
    || exists k, members ::
         && 0 <= k <= |t| && Blank(t[..k]) && members != [] && MembersSpelled(t[k..], members)
         && m == Collected(map[], members)
  }

  ghost predicate ItemsSpelled(t: Text, items: seq<Value>)
    requires items != []
    decreases |t|, 1
  {
    exists p ::
      && ItemCut(t, p) && Spelled(p.core, items[0])
      && if |items| == 1 then p.rest == [] else At(p.rest, 0x2c) && ItemsSpelled(p.rest[1..], items[1..])
  }

  ghost predicate MembersSpelled(t: Text, members: seq<(Text, Value)>)
    requires members != []
    decreases |t|, 1
  {
    exists q ::
      && MemberCut(t, q) && StringSpelled(q.name, members[0].0) && Spelled(q.core, members[0].1)
      && if |members| == 1 then q.rest == [] else At(q.rest, 0x2c) && MembersSpelled(q.rest[1..], members[1..])
  }

  /** A whole line: one value with white space around it. */
  ghost predicate LineSpelled(t: Text, v: Value) {
    exists p :: ItemCut(t, p) && Spelled(p.core, v) && p.rest == []
  }

  // ----- white space

  lemma {:induction false} SkipsBlanks(t: Text) returns (i: nat)
    ensures i <= |t| && Blank(t[..i]) && SkipWhitespace(t) == t[i..]
  {
    i := 0;
    if t != [] && Whitespace(t[0]) {
      var onward := t[1..];
      var k := SkipsBlanks(onward);
      i := k + 1;
      assert t[i..] == onward[k..];
      forall j | 0 <= j < i
        ensures Whitespace(t[..i][j])
      {
        if j > 0 {
          assert t[..i][j] == onward[..k][j - 1];
        }
      }
    } else {
      assert t[0..] == t;
    }
  }

  lemma {:induction false} SkipsTo(lead: Text, t: Text)
    requires Blank(lead) && (t != [] ==> !Whitespace(t[0]))
    ensures SkipWhitespace(lead + t) == t
  {
    if lead == [] {
      assert lead + t == t;
    } else {
      assert (lead + t)[1..] == lead[1..] + t;
      SkipsTo(lead[1..], t);
    }
  }

  // ----- strings are read exactly

  lemma UnitReads(t: Text, c: Unit, onward: Text) returns (k: nat)
    requires t != [] && t[0] != QUOTE && StringUnit(t) == Parsed(c, onward)
    ensures 0 < k <= |t| && UnitSpelled(t[..k], c) && onward == t[k..]
  {
    hide ParseHex;
    k := if t[0] != BACKSLASH then 1 else if t[1] == 0x75 then 6 else 2;
    if k == 6 {
      assert t[..6][2..] == t[2..6];
    }
  }

  lemma UnitIsRead(e: Text, c: Unit, rest: Text)
    requires UnitSpelled(e, c)
    ensures e != [] && e[0] != QUOTE && StringUnit(e + rest) == Parsed(c, rest)
  {
    hide ParseHex;
    var t := e + rest;
    assert t[|e|..] == rest;
    if |e| == 6 {
      assert t[2..6] == e[2..];
    }
  }

  lemma {:induction false} LongerSpelling(e: Text, c: Unit, body: Text, s: Text)
    requires e != [] && UnitSpelled(e, c) && BodySpelled(body, s)
    ensures BodySpelled(e + body, [c] + s)
  {
    hide UnitSpelled;
    assert (e + body)[..|e|] == e && (e + body)[|e|..] == body && ([c] + s)[1..] == s;
  }

  lemma Shifted(t: Text, k: nat, j: nat)
    requires k <= |t| && j < |t| - k
    ensures t[..k + j] == t[..k] + t[k..][..j] && t[k..][j] == t[k + j] && t[k..][j + 1..] == t[k + j + 1..]
  {
  }

  lemma {:induction false} BodyReads(t: Text, s: Text, rest: Text) returns (k: nat)
    requires StringBody(t) == Parsed(s, rest)
    ensures k < |t| && BodySpelled(t[..k], s) && t[k] == QUOTE && rest == t[k + 1..]
    decreases |t|
  {
    hide StringUnit, UnitSpelled;
    k := 0;
    if t[0] == QUOTE {
      assert t[..0] == [];
    } else {
      var first := StringUnit(t);
      var i := UnitReads(t, first.value, first.rest);
      var j := BodyReads(t[i..], s[1..], rest);
      k := i + j;
      hide BodySpelled, StringBody;
      Shifted(t, i, j);
      LongerSpelling(t[..i], first.value, t[i..][..j], s[1..]);
      assert s == [first.value] + s[1..];
    }
  }

  lemma {:induction false} BodyIsRead(body: Text, s: Text, rest: Text)
    requires BodySpelled(body, s)
    ensures StringBody(body + ([QUOTE] + rest)) == Parsed(s, rest)
    decreases |s|
  {
    hide StringUnit, UnitSpelled;
    if s == [] {
      assert body + ([QUOTE] + rest) == [QUOTE] + rest && ([QUOTE] + rest)[1..] == rest;
    } else {
      var k :| 0 < k <= |body| && UnitSpelled(body[..k], s[0]) && BodySpelled(body[k..], s[1..]);
      var onward := body[k..] + ([QUOTE] + rest);
      assert body + ([QUOTE] + rest) == body[..k] + onward;
      UnitIsRead(body[..k], s[0], onward);
      BodyIsRead(body[k..], s[1..], rest);
      assert s == [s[0]] + s[1..];
    }
  }

  lemma StringReads(t: Text, s: Text, rest: Text) returns (k: nat)
    requires ParseString(t) == Parsed(s, rest)
    ensures k <= |t| && StringSpelled(t[..k], s) && rest == t[k..]
  {
    hide StringBody, BodySpelled;
    var n := BodyReads(t[1..], s, rest);
    k := n + 2;
    WrappedText(t, n, QUOTE, QUOTE);
  }

  lemma WrappedText(t: Text, k: nat, open: Unit, close: Unit)
    requires t != [] && t[0] == open && k < |t[1..]| && t[1..][k] == close
    ensures Wrapped(t[..k + 2], open, close) && Inside(t[..k + 2]) == t[1..][..k] && t[k + 2..] == t[1..][k + 1..]
  {
  }

  lemma StringIsRead(t: Text, s: Text, rest: Text)
    requires StringSpelled(t, s)
    ensures ParseString(t + rest) == Parsed(s, rest)
  {
    hide StringBody, BodySpelled;
    BodyIsRead(Inside(t), s, rest);
    assert (t + rest)[1..] == Inside(t) + ([QUOTE] + rest);
  }

  // ----- numbers are read exactly

  lemma {:induction false} DigitsAreBaseTen(t: Text)
    requires forall i :: 0 <= i < |t| ==> Digit(t[i])
    ensures DecimalValue(t) == BaseTen(t)
  {
    if t != [] {
      DigitsAreBaseTen(t[..|t| - 1]);
    }
  }

  lemma NumberReads(t: Text, v: Value, rest: Text) returns (k: nat)
    requires t != [] && ParseNumber(t) == Parsed(v, rest)
    ensures v.Num? && k <= |t| && NumberSpelled(t[..k], v.n) && rest == t[k..]
  {
    hide DecimalValue, DigitRun, BaseTen;
    var start := if t[0] == MINUS then 1 else 0;
    var count := DigitRun(t[start..]);
    var digits := t[start..][..count];
    DigitsAreBaseTen(digits);
    k := start + count;
    if start == 1 {
      assert t[..k][1..] == digits;
    } else {
      assert t[..k] == digits;
      assert digits[0] != MINUS;
    }
    assert AllDigits(digits);
    assert t[start..][count..] == t[k..];
  }

  lemma NumberIsRead(t: Text, n: int, rest: Text)
    requires NumberSpelled(t, n) && NoDigit(rest)
    ensures t != [] && (t[0] == MINUS || Digit(t[0])) && ParseNumber(t + rest) == Parsed(Num(n), rest)
  {
    hide DecimalValue, DigitRun, BaseTen;
    var negative := t[0] == MINUS;
    var digits := if negative then t[1..] else t;
    assert forall i :: 0 <= i < |digits| ==> Digit(digits[i]);
    DigitsAreBaseTen(digits);
    RunOfDigits(digits, rest);
    SplitsAt(digits, rest);
    if negative {
      assert (t + rest)[1..] == digits + rest;
    } else {
      assert (t + rest)[0..] == digits + rest;
    }
  }

  // ----- what is read is spelled

  lemma LiteralReads(t: Text, expected: Text, w: Value, v: Value, rest: Text)
    requires Literal(t, expected, w) == Parsed(v, rest)
    ensures v == w && |expected| <= |t| && t[..|expected|] == expected && rest == t[|expected|..]
  {
  }

  lemma ScalarParses(t: Text)
    requires t != [] && !Whitespace(t[0]) && t[0] != OPEN && t[0] != OPEN_BRACE
    ensures
      ParseValue(t)
      == if t[0] == QUOTE then
           (var text := ParseString(t); if text.Failed? then Failed else Parsed(Str(text.value), text.rest))
         else if t[0] == 0x6e then Literal(t, NULL_TEXT, Null)
         else if t[0] == 0x74 then Literal(t, TRUE_TEXT, Bool(true))
         else if t[0] == 0x66 then Literal(t, FALSE_TEXT, Bool(false))
         else ParseNumber(t)
  {
    hide ParseArray, ParseObject, ParseNumber, ParseString, Literal, SkipWhitespace;
    NoLeadingSpace(t);
  }

  lemma ScalarReads(t: Text, v: Value, rest: Text) returns (k: nat)
    requires t != [] && !Whitespace(t[0]) && t[0] != OPEN && t[0] != OPEN_BRACE
    requires ParseValue(t) == Parsed(v, rest)
    ensures k <= |t| && Spelled(t[..k], v) && rest == t[k..]
  {
    hide ParseValue, ParseNumber, ParseString, Literal, NumberSpelled, StringSpelled;
    ScalarParses(t);
    if t[0] == QUOTE {
      k := StringReads(t, v.s, rest);
    } else if t[0] == 0x6e {
      LiteralReads(t, NULL_TEXT, Null, v, rest);
      k := 4;
    } else if t[0] == 0x74 {
      LiteralReads(t, TRUE_TEXT, Bool(true), v, rest);
      k := 4;
    } else if t[0] == 0x66 {
      LiteralReads(t, FALSE_TEXT, Bool(false), v, rest);
      k := 5;
    } else {
      k := NumberReads(t, v, rest);
    }
  }

  lemma SkippedValue(t: Text)
    ensures ParseValue(t) == ParseValue(SkipWhitespace(t))
  {
    hide ParseArray, ParseObject, ParseNumber, ParseString, Literal, SkipWhitespace;
    NoLeadingSpace(SkipWhitespace(t));
  }

  lemma SomethingRead(s: Text, v: Value, rest: Text)
    requires SkipWhitespace(s) == s && ParseValue(s) == Parsed(v, rest)
    ensures s != [] && !Whitespace(s[0])
  {
    hide ParseArray, ParseObject, ParseNumber, ParseString, Literal;
  }

  lemma {:induction false} SkipsOnce(t: Text)
    ensures SkipWhitespace(SkipWhitespace(t)) == SkipWhitespace(t)
  {
    if t != [] && Whitespace(t[0]) {
      SkipsOnce(t[1..]);
    }
  }

  lemma After(t: Text, i: nat, k: nat)
    requires i <= |t| && k <= |t[i..]|
    ensures t[i..][..k] == t[i..i + k] && t[i..][k..] == t[i + k..]
  {
  }

  lemma SkipsFrom(t: Text, a: nat) returns (b: nat)
    requires a <= |t|
    ensures a <= b <= |t| && Blank(t[a..b]) && SkipWhitespace(t[a..]) == t[b..]
  {
    hide SkipWhitespace, Blank;
    var onward := t[a..];
    var gap := SkipsBlanks(onward);
    b := a + gap;
    assert t[a..b] == onward[..gap];
    assert t[b..] == onward[gap..];
  }

  lemma {:induction false} ListSpelled(t: Text, items: seq<Value>)
    requires Wrapped(t, OPEN, CLOSE)
    requires if items == [] then Blank(Inside(t)) else ItemsSpelled(Inside(t), items)
    ensures Spelled(t, List(items))
  {
    hide Blank, Wrapped, Inside, ItemsSpelled;
  }

  lemma {:induction false} RecordSpelled(t: Text, m: map<Text, Value>)
    requires Wrapped(t, OPEN_BRACE, CLOSE_BRACE) && ObjectSpelled(Inside(t), m)
    ensures Spelled(t, Obj(m))
  {
    hide Wrapped, Inside, ObjectSpelled;
  }

  /** Reading a value: white space up to i, then a spelling of it up to k. */
  lemma {:induction false} ValueReads(t: Text, v: Value, rest: Text) returns (i: nat, k: nat)
    requires ParseValue(t) == Parsed(v, rest)
    ensures i <= k <= |t| && Blank(t[..i]) && Spelled(t[i..k], v) && rest == t[k..]
    decreases |t|, 0
  {
    hide ParseValue, ParseArray, ParseObject, ItemsSpelled, ObjectSpelled, Spelled, Wrapped, Inside, Blank;
    hide SkipWhitespace;
    i := SkipsBlanks(t);
    SkippedValue(t);
    SkipsOnce(t);
    var s := t[i..];
    SomethingRead(s, v, rest);
    var n: nat;
    if s[0] == OPEN {
      OpensArray(s);
      n := ArrayReads(s[1..], v, rest);
      WrappedText(s, n, OPEN, CLOSE);
      n := n + 2;
      ListSpelled(s[..n], v.items);
    } else if s[0] == OPEN_BRACE {
      OpensObject(s);
      n := ObjectReads(s[1..], v, rest);
      WrappedText(s, n, OPEN_BRACE, CLOSE_BRACE);
      n := n + 2;
      RecordSpelled(s[..n], v.members);
    } else {
      n := ScalarReads(s, v, rest);
    }
    After(t, i, n);
    k := i + n;
  }

  lemma ArrayHead(t: Text, i: nat)
    requires i <= |t| && SkipWhitespace(t) == t[i..] && ParseArray(t).Parsed?
    ensures
      if At(t[i..], CLOSE) then ParseArray(t) == Parsed(List([]), t[i..][1..])
      else
        ParseItems(t[i..]).Parsed?
        && ParseArray(t) == Parsed(List(ParseItems(t[i..]).value), ParseItems(t[i..]).rest)
  {
    hide ParseItems, SkipWhitespace;
  }

  lemma {:induction false} ArrayReads(t: Text, v: Value, rest: Text) returns (k: nat)
    requires ParseArray(t) == Parsed(v, rest)
    ensures v.List? && k < |t| && t[k] == CLOSE && rest == t[k + 1..]
    ensures if v.items == [] then Blank(t[..k]) else ItemsSpelled(t[..k], v.items)
    decreases |t|, 3
  {
    hide ParseArray, ParseItems, ItemsSpelled, Spelled, SkipWhitespace, Blank;
    var i := SkipsBlanks(t);
    ArrayHead(t, i);
    var s := t[i..];
    k := i;
    if At(s, CLOSE) {
      Shifted(t, i, 0);
    } else {
      var n := ItemsRead(s, v.items, rest);
      k := i + n;
      Shifted(t, i, n);
      BlanksBefore(t[..i], s[..n], v.items);
    }
  }

  /** Blanks in front of the first entry belong to it. */
  lemma {:induction false} BlanksBefore(lead: Text, t: Text, items: seq<Value>)
    requires items != [] && Blank(lead) && ItemsSpelled(t, items)
    ensures ItemsSpelled(lead + t, items)
  {
    var p :| ItemCut(t, p) && Spelled(p.core, items[0])
             && if |items| == 1 then p.rest == [] else At(p.rest, 0x2c) && ItemsSpelled(p.rest[1..], items[1..]);
    hide Spelled, ItemsSpelled;
    assert lead + (p.lead + p.core + p.trail + p.rest) == lead + p.lead + p.core + p.trail + p.rest;
    ItemsOf(lead + t, p.(lead := lead + p.lead), items);
  }

  lemma {:induction false} ItemsOf(t: Text, p: Item, items: seq<Value>)
    requires items != [] && ItemCut(t, p) && Spelled(p.core, items[0])
    requires if |items| == 1 then p.rest == [] else At(p.rest, 0x2c) && ItemsSpelled(p.rest[1..], items[1..])
    ensures ItemsSpelled(t, items)
  {
    hide Spelled, ItemCut;
  }

  lemma ItemPieces(t: Text, i: nat, k: nat, j: nat, n: nat)
    requires i <= k <= j <= n <= |t| && Blank(t[..i]) && Blank(t[k..j])
    ensures ItemCut(t[..n], Item(t[..i], t[i..k], t[k..j], t[j..n]))
  {
    hide Blank;
  }

  lemma ItemsHead(t: Text)
    requires ParseItems(t).Parsed?
    ensures ParseValue(t).Parsed?
    ensures
      var first, s := ParseValue(t), SkipWhitespace(ParseValue(t).rest);
      if At(s, CLOSE) then ParseItems(t) == Parsed([first.value], s[1..])
      else At(s, COMMA) && ParseItems(s[1..]).Parsed?
           && ParseItems(t) == Parsed([first.value] + ParseItems(s[1..]).value, ParseItems(s[1..]).rest)
  {
    hide ParseValue, SkipWhitespace;
  }

  lemma {:induction false} LastItemSpelled(t: Text, i: nat, c: nat, j: nat, v: Value)
    requires i <= c <= j <= |t| && Blank(t[..i]) && Spelled(t[i..c], v) && Blank(t[c..j])
    ensures ItemsSpelled(t[..j], [v])
  {
    hide Blank, Spelled, ItemCut;
    ItemPieces(t, i, c, j, j);
    assert t[j..j] == [];
    ItemsOf(t[..j], Item(t[..i], t[i..c], t[c..j], t[j..j]), [v]);
  }

  lemma {:induction false} MoreItemsSpelled(t: Text, i: nat, c: nat, j: nat, k: nat, v: Value, others: seq<Value>)
    requires i <= c <= j < k <= |t| && Blank(t[..i]) && Spelled(t[i..c], v) && Blank(t[c..j])
    requires t[j] == COMMA && others != [] && ItemsSpelled(t[j + 1..k], others)
    ensures ItemsSpelled(t[..k], [v] + others)
  {
    hide Blank, Spelled, ItemCut, ItemsSpelled;
    ItemPieces(t, i, c, j, k);
    assert t[j..k][1..] == t[j + 1..k] && ([v] + others)[1..] == others;
    ItemsOf(t[..k], Item(t[..i], t[i..c], t[c..j], t[j..k]), [v] + others);
  }

  /** One entry: white space up to i, the value up to c, white space up to j. */
  lemma {:induction false} ItemRead(t: Text) returns (i: nat, c: nat, j: nat)
    requires ParseValue(t).Parsed?
    ensures i <= c <= j <= |t| && Blank(t[..i]) && Spelled(t[i..c], ParseValue(t).value) && Blank(t[c..j])
    ensures SkipWhitespace(ParseValue(t).rest) == t[j..]
    decreases |t|, 1
  {
    hide ParseValue, Spelled, Blank, SkipWhitespace;
    var first := ParseValue(t);
    i, c := ValueReads(t, first.value, first.rest);
    j := SkipsFrom(t, c);
  }

  lemma {:induction false} ItemsRead(t: Text, items: seq<Value>, rest: Text) returns (k: nat)
    requires ParseItems(t) == Parsed(items, rest)
    ensures items != [] && k < |t| && ItemsSpelled(t[..k], items) && t[k] == CLOSE && rest == t[k + 1..]
    decreases |t|, 2
  {
    hide ParseValue, ParseItems, Spelled, ItemsSpelled, Blank, SkipWhitespace;
    ItemsHead(t);
    var v := ParseValue(t).value;
    var i, c, j := ItemRead(t);
    Next(t, j);
    if t[j] == CLOSE {
      k := j;
      LastItemSpelled(t, i, c, j, v);
    } else {
      var n := ItemsRead(t[j + 1..], items[1..], rest);
      k := j + 1 + n;
      Shifted(t, j + 1, n);
      After(t, j + 1, n);
      MoreItemsSpelled(t, i, c, j, k, v, items[1..]);
      assert items == [v] + items[1..];
    }
  }

  lemma Next(t: Text, j: nat)
    requires j < |t|
    ensures t[j..] != [] && t[j..][0] == t[j] && t[j..][1..] == t[j + 1..]
  {
  }

  lemma {:induction false} MembersOf(t: Text, q: Member, members: seq<(Text, Value)>)
    requires members != [] && MemberCut(t, q) && StringSpelled(q.name, members[0].0) && Spelled(q.core, members[0].1)
    requires if |members| == 1 then q.rest == [] else At(q.rest, 0x2c) && MembersSpelled(q.rest[1..], members[1..])
    ensures MembersSpelled(t, members)
  {
    hide Spelled, StringSpelled, MemberCut;
  }

  /** A name, a colon and a value, with the white space between them and after. */
  lemma MemberPieces(t: Text, a: nat, b: nat, i: nat, k: nat, j: nat, n: nat)
    requires a <= b < i <= k <= j <= n <= |t| && t[b] == COLON
    requires Blank(t[a..b]) && Blank(t[b + 1..i]) && Blank(t[k..j])
    ensures MemberCut(t[..n], Member(t[..a], t[a..b], t[b + 1..i], t[i..k], t[k..j], t[j..n]))
  {
    hide Blank;
    assert t[..b] == t[..a] + t[a..b];
    assert t[..i] == t[..b] + [COLON] + t[b + 1..i];
    assert t[..n] == t[..i] + t[i..k] + t[k..j] + t[j..n];
  }

  lemma MemberHead(t: Text, known: map<Text, Value>)
    requires ParseMembers(t, known).Parsed?
    ensures ParseString(t).Parsed? && At(SkipWhitespace(ParseString(t).rest), COLON)
    ensures ParseValue(SkipWhitespace(ParseString(t).rest)[1..]).Parsed?
    ensures
      var key, v := ParseString(t), ParseValue(SkipWhitespace(ParseString(t).rest)[1..]);
      var s, later := SkipWhitespace(v.rest), known[key.value := v.value];
      if At(s, CLOSE_BRACE) then ParseMembers(t, known) == Parsed(later, s[1..])
      else At(s, COMMA) && ParseMembers(t, known) == ParseMembers(s[1..], later)
  {
    hide ParseValue, ParseString, SkipWhitespace, ParseMembers;
    OneMoreMember(t, known);
  }

  /** A name and its colon. */
  lemma NameRead(t: Text) returns (a: nat, b: nat)
    requires ParseString(t).Parsed? && At(SkipWhitespace(ParseString(t).rest), COLON)
    ensures a <= b < |t| && StringSpelled(t[..a], ParseString(t).value) && Blank(t[a..b]) && t[b] == COLON
    ensures SkipWhitespace(ParseString(t).rest)[1..] == t[b + 1..]
  {
    hide ParseString, StringSpelled, Blank, SkipWhitespace;
    var key := ParseString(t);
    a := StringReads(t, key.value, key.rest);
    b := SkipsFrom(t, a);
    Next(t, b);
  }

  lemma {:induction false} LastMemberSpelled(t: Text, a: nat, b: nat, i: nat, c: nat, j: nat, name: Text, v: Value)
    requires a <= b < i <= c <= j <= |t| && t[b] == COLON && StringSpelled(t[..a], name) && Spelled(t[i..c], v)
    requires Blank(t[a..b]) && Blank(t[b + 1..i]) && Blank(t[c..j])
    ensures MembersSpelled(t[..j], [(name, v)])
  {
    hide Blank, Spelled, StringSpelled, MemberCut;
    MemberPieces(t, a, b, i, c, j, j);
    assert t[j..j] == [];
    MembersOf(t[..j], Member(t[..a], t[a..b], t[b + 1..i], t[i..c], t[c..j], t[j..j]), [(name, v)]);
  }

  lemma {:induction false} MoreMembersSpelled(t: Text, a: nat, b: nat, i: nat, c: nat, j: nat, k: nat, name: Text,
                                              v: Value, others: seq<(Text, Value)>)
    requires a <= b < i <= c <= j < k <= |t| && t[b] == COLON && StringSpelled(t[..a], name) && Spelled(t[i..c], v)
    requires Blank(t[a..b]) && Blank(t[b + 1..i]) && Blank(t[c..j])
    requires t[j] == COMMA && others != [] && MembersSpelled(t[j + 1..k], others)
    ensures MembersSpelled(t[..k], [(name, v)] + others)
  {
    hide Blank, Spelled, StringSpelled, MemberCut, MembersSpelled;
    MemberPieces(t, a, b, i, c, j, k);
    var members := [(name, v)] + others;
    assert t[j..k][1..] == t[j + 1..k] && members[1..] == others;
    MembersOf(t[..k], Member(t[..a], t[a..b], t[b + 1..i], t[i..c], t[c..j], t[j..k]), members);
  }

  /** The value after a colon, in the positions of the whole text. */
  lemma {:induction false} ValueAfter(t: Text, b: nat) returns (i: nat, c: nat, j: nat)
    requires b < |t| && ParseValue(t[b + 1..]).Parsed?
    ensures b < i <= c <= j <= |t| && Blank(t[b + 1..i]) && Blank(t[c..j])
    ensures Spelled(t[i..c], ParseValue(t[b + 1..]).value)
    ensures SkipWhitespace(ParseValue(t[b + 1..]).rest) == t[j..]
    decreases |t|, 1
  {
    hide ParseValue, Spelled, Blank, SkipWhitespace;
    var onward := t[b + 1..];
    var i0, c0, j0 := ItemRead(onward);
    i, c, j := b + 1 + i0, b + 1 + c0, b + 1 + j0;
    assert t[b + 1..i] == onward[..i0] && t[i..c] == onward[i0..c0] && t[c..j] == onward[c0..j0]
      && t[j..] == onward[j0..];
  }

  lemma {:induction false} MembersRead(t: Text, known: map<Text, Value>, m: map<Text, Value>, rest: Text)
    returns (k: nat, members: seq<(Text, Value)>)
    requires ParseMembers(t, known) == Parsed(m, rest)
    ensures k < |t| && members != [] && MembersSpelled(t[..k], members) && t[k] == CLOSE_BRACE
    ensures rest == t[k + 1..] && m == Collected(known, members)
    decreases |t|, 2
  {
    hide ParseValue, ParseString, ParseMembers, Spelled, StringSpelled, MembersSpelled, Blank, SkipWhitespace,
      Collected;
    MemberHead(t, known);
    var name := ParseString(t).value;
    var a, b := NameRead(t);
    var v := ParseValue(t[b + 1..]).value;
    var i, c, j := ValueAfter(t, b);
    Next(t, j);
    if t[j] == CLOSE_BRACE {
      k, members := j, [(name, v)];
      LastMemberSpelled(t, a, b, i, c, j, name, v);
      OneCollected(known, name, v);
    } else {
      var n, others := MembersRead(t[j + 1..], known[name := v], m, rest);
      k, members := j + 1 + n, [(name, v)] + others;
      Shifted(t, j + 1, n);
      After(t, j + 1, n);
      MoreMembersSpelled(t, a, b, i, c, j, k, name, v, others);
      MoreCollected(known, name, v, others);
    }
  }

  lemma OneCollected(known: map<Text, Value>, name: Text, v: Value)
    ensures Collected(known, [(name, v)]) == known[name := v]
  {
    assert [(name, v)][1..] == [];
  }

  lemma MoreCollected(known: map<Text, Value>, name: Text, v: Value, others: seq<(Text, Value)>)
    ensures Collected(known, [(name, v)] + others) == Collected(known[name := v], others)
  {
    assert ([(name, v)] + others)[1..] == others;
  }

  lemma ObjectHead(t: Text, i: nat)
    requires i <= |t| && SkipWhitespace(t) == t[i..] && ParseObject(t).Parsed?
    ensures
      if At(t[i..], CLOSE_BRACE) then ParseObject(t) == Parsed(Obj(map[]), t[i..][1..])
      else
        var members := ParseMembers(t[i..], map[]);
        members.Parsed? && ParseObject(t) == Parsed(Obj(members.value), members.rest)
  {
    hide ParseMembers, SkipWhitespace;
  }

  lemma {:induction false} MembersInside(t: Text, i: nat, n: nat, members: seq<(Text, Value)>)
    requires i <= |t| && n <= |t[i..]| && Blank(t[..i]) && members != [] && MembersSpelled(t[i..][..n], members)
    ensures ObjectSpelled(t[..i + n], Collected(map[], members))
  {
    hide Blank, MembersSpelled, Collected;
    var inner := t[..i + n];
    assert inner[..i] == t[..i] && inner[i..] == t[i..][..n];
  }

  lemma {:induction false} ObjectReads(t: Text, v: Value, rest: Text) returns (k: nat)
    requires ParseObject(t) == Parsed(v, rest)
    ensures v.Obj? && k < |t| && t[k] == CLOSE_BRACE && rest == t[k + 1..] && ObjectSpelled(t[..k], v.members)
    decreases |t|, 3
  {
    hide ParseObject, ParseMembers, MembersSpelled, Collected, SkipWhitespace, Blank;
    var i := SkipsBlanks(t);
    ObjectHead(t, i);
    var s := t[i..];
    k := i;
    if At(s, CLOSE_BRACE) {
      Shifted(t, i, 0);
    } else {
      hide ObjectSpelled;
      var n, members := MembersRead(s, map[], v.members, rest);
      k := i + n;
      Shifted(t, i, n);
      MembersInside(t, i, n, members);
    }
  }

  // ----- what is spelled is read

  lemma {:induction false} CoreStarts(t: Text, v: Value)
    requires Spelled(t, v)
    ensures t != [] && !Whitespace(t[0])
  {
    hide ItemsSpelled, ObjectSpelled, BodySpelled, BaseTen;
  }

  lemma ScalarIsRead(t: Text, v: Value, rest: Text)
    requires Spelled(t, v) && !v.List? && !v.Obj? && NoDigit(rest)
    ensures ParseValue(t + rest) == Parsed(v, rest)
  {
    hide ParseValue, ParseNumber, ParseString, StringSpelled, NumberSpelled, NoDigit;
    CoreStarts(t, v);
    assert (t + rest)[0] == t[0];
    match v {
      case Null => NullComesBack(rest);
      case Bool(b) =>
        TrueComesBack(rest);
        FalseComesBack(rest);
      case Num(n) =>
        NumberIsRead(t, n, rest);
        OpensNumber(t + rest);
      case Str(s) =>
        StringIsRead(t, s, rest);
        OpensString(t, s, rest);
    }
  }

  lemma OpensString(t: Text, s: Text, rest: Text)
    requires StringSpelled(t, s) && ParseString(t + rest) == Parsed(s, rest)
    ensures ParseValue(t + rest) == Parsed(Str(s), rest)
  {
    hide ParseString, ParseValue, BodySpelled;
    ScalarParses(t + rest);
  }

  lemma LeadSkipped(lead: Text, t: Text)
    requires Blank(lead) && (t != [] ==> !Whitespace(t[0]))
    ensures ParseValue(lead + t) == ParseValue(t)
  {
    hide ParseValue, SkipWhitespace;
    SkipsTo(lead, t);
    SkippedValue(lead + t);
  }

  /** A spelled value, with white space in front, is read as far as it goes. */
  lemma {:induction false} ValueIsRead(lead: Text, core: Text, v: Value, rest: Text)
    requires Blank(lead) && Spelled(core, v) && NoDigit(rest)
    ensures ParseValue(lead + core + rest) == Parsed(v, rest)
    decreases |core|, 0
  {
    hide ParseValue, ParseArray, ParseObject, ItemsSpelled, ObjectSpelled, Blank, NoDigit, Whitespace;
    CoreStarts(core, v);
    assert lead + core + rest == lead + (core + rest);
    LeadSkipped(lead, core + rest);
    if v.List? {
      OpensArray(core + rest);
      assert (core + rest)[1..] == Inside(core) + ([CLOSE] + rest);
      ArrayIsRead(Inside(core), v.items, rest);
    } else if v.Obj? {
      OpensObject(core + rest);
      assert (core + rest)[1..] == Inside(core) + ([CLOSE_BRACE] + rest);
      ObjectIsRead(Inside(core), v.members, rest);
    } else {
      ScalarIsRead(core, v, rest);
    }
  }

  lemma {:induction false} ArrayIsRead(t: Text, items: seq<Value>, rest: Text)
    requires if items == [] then Blank(t) else ItemsSpelled(t, items)
    ensures ParseArray(t + ([CLOSE] + rest)) == Parsed(List(items), rest)
    decreases |t|, 2
  {
    hide ParseItems, ParseArray, ItemsSpelled, SkipWhitespace, Blank;
    if items == [] {
      SkipsTo(t, [CLOSE] + rest);
      EmptyArrayIsRead(t, rest);
    } else {
      ItemsAreRead(t, items, rest);
      SomeItems(t, items, rest);
    }
  }

  lemma EmptyArrayIsRead(t: Text, rest: Text)
    requires SkipWhitespace(t + ([CLOSE] + rest)) == [CLOSE] + rest
    ensures ParseArray(t + ([CLOSE] + rest)) == Parsed(List([]), rest)
  {
    hide ParseItems, SkipWhitespace;
    assert ([CLOSE] + rest)[1..] == rest;
  }

  lemma Regrouped(a: Text, b: Text, c: Text, d: Text, e: Text)
    ensures a + b + c + d + e == a + b + (c + (d + e)) && a + b + c + d + e == a + (b + (c + (d + e)))
  {
  }

  lemma Headed(t: Text, c: Unit, tail: Text)
    requires At(t, c)
    ensures t + tail == [c] + (t[1..] + tail)
  {
  }

  /** White space before the first entry is skipped twice. */
  lemma {:induction false} SomeItems(t: Text, items: seq<Value>, rest: Text)
    requires items != [] && ItemsSpelled(t, items)
    requires ParseItems(t + ([CLOSE] + rest)) == Parsed(items, rest)
    ensures ParseArray(t + ([CLOSE] + rest)) == Parsed(List(items), rest)
  {
    var p :| ItemCut(t, p) && Spelled(p.core, items[0]);
    hide ItemsSpelled, Spelled, ParseItems, ParseArray, SkipWhitespace, Blank, Whitespace, ItemCut;
    CoreStarts(p.core, items[0]);
    CoreIsNoBracket(p.core, items[0]);
    ItemWhole(t, p, [CLOSE] + rest);
    var onward := p.core + (p.trail + (p.rest + ([CLOSE] + rest)));
    assert onward[0] == p.core[0];
    SkipsTo(p.lead, onward);
    ItemsSkip(t + ([CLOSE] + rest), onward);
    OpenItems(t + ([CLOSE] + rest), onward, items, rest);
  }

  lemma ItemWhole(t: Text, p: Item, tail: Text)
    requires ItemCut(t, p)
    ensures Blank(p.lead) && Blank(p.trail) && |p.core| <= |t| && |p.rest| <= |t|
    ensures t + tail == p.lead + (p.core + (p.trail + (p.rest + tail)))
    ensures t + tail == p.lead + p.core + (p.trail + (p.rest + tail))
  {
    hide Blank;
    Regrouped(p.lead, p.core, p.trail, p.rest, tail);
  }

  lemma OpenItems(t: Text, onward: Text, items: seq<Value>, rest: Text)
    requires SkipWhitespace(t) == onward && !At(onward, CLOSE) && ParseItems(onward) == Parsed(items, rest)
    ensures ParseArray(t) == Parsed(List(items), rest)
  {
    hide ParseItems, SkipWhitespace;
  }

  lemma {:induction false} CoreIsNoBracket(t: Text, v: Value)
    requires Spelled(t, v)
    ensures t != [] && t[0] != CLOSE && t[0] != CLOSE_BRACE
  {
    hide ItemsSpelled, ObjectSpelled, BodySpelled, BaseTen;
  }

  lemma ItemsSkip(t: Text, onward: Text)
    requires SkipWhitespace(t) == onward
    ensures ParseItems(t) == ParseItems(onward)
  {
    hide ParseValue, SkipWhitespace;
    SkippedValue(t);
  }

  /** What stands after a value: white space, then a comma or the end. */
  lemma AfterValue(trail: Text, stop: Unit, rest: Text)
    requires Blank(trail) && (stop == COMMA || stop == CLOSE || stop == CLOSE_BRACE)
    ensures NoDigit(trail + ([stop] + rest)) && SkipWhitespace(trail + ([stop] + rest)) == [stop] + rest
    ensures ([stop] + rest)[1..] == rest
  {
    SkipsTo(trail, [stop] + rest);
    if trail != [] {
      assert Whitespace(trail[0]);
    }
  }

  lemma {:induction false} FirstItem(t: Text, items: seq<Value>) returns (p: Item)
    requires items != [] && ItemsSpelled(t, items)
    ensures ItemCut(t, p) && Spelled(p.core, items[0])
    ensures if |items| == 1 then p.rest == [] else At(p.rest, 0x2c) && ItemsSpelled(p.rest[1..], items[1..])
  {
    p :| ItemCut(t, p) && Spelled(p.core, items[0])
         && if |items| == 1 then p.rest == [] else At(p.rest, 0x2c) && ItemsSpelled(p.rest[1..], items[1..]);
  }

  /** What follows an entry, up to and beyond the end of the list. */
  lemma ItemEnds(t: Text, p: Item, rest: Text, more: bool)
    requires ItemCut(t, p) && if more then At(p.rest, COMMA) else p.rest == []
    ensures
      var onward := if more then p.rest[1..] + ([CLOSE] + rest) else rest;
      var after := p.trail + ([if more then COMMA else CLOSE] + onward);
      && Blank(p.lead) && t + ([CLOSE] + rest) == p.lead + p.core + after && NoDigit(after)
      && SkipWhitespace(after) == [if more then COMMA else CLOSE] + onward
      && |p.core| <= |t| && |p.rest| <= |t|
  {
    hide ItemCut, Blank, SkipWhitespace, NoDigit;
    ItemWhole(t, p, [CLOSE] + rest);
    if more {
      Headed(p.rest, COMMA, [CLOSE] + rest);
      AfterValue(p.trail, COMMA, p.rest[1..] + ([CLOSE] + rest));
    } else {
      assert p.rest + ([CLOSE] + rest) == [CLOSE] + rest;
      AfterValue(p.trail, CLOSE, rest);
    }
  }

  lemma {:induction false} ItemsAreRead(t: Text, items: seq<Value>, rest: Text)
    requires items != [] && ItemsSpelled(t, items)
    ensures ParseItems(t + ([CLOSE] + rest)) == Parsed(items, rest)
    decreases |t|, 1
  {
    hide ParseValue, ParseItems, Spelled, ItemsSpelled, SkipWhitespace, Blank, NoDigit, ItemCut;
    var p := FirstItem(t, items);
    ItemEnds(t, p, rest, |items| > 1);
    if |items| == 1 {
      var after := p.trail + ([CLOSE] + rest);
      ValueIsRead(p.lead, p.core, items[0], after);
      LastIsRead(p.lead + p.core + after, items[0], after, rest);
      assert items == [items[0]];
    } else {
      var onward := p.rest[1..] + ([CLOSE] + rest);
      var after := p.trail + ([COMMA] + onward);
      ValueIsRead(p.lead, p.core, items[0], after);
      ItemsAreRead(p.rest[1..], items[1..], rest);
      MoreAreRead(p.lead + p.core + after, items[0], after, onward, items[1..], rest);
      assert items == [items[0]] + items[1..];
    }
  }

  lemma LastIsRead(t: Text, v: Value, after: Text, rest: Text)
    requires ParseValue(t) == Parsed(v, after) && SkipWhitespace(after) == [CLOSE] + rest
    ensures ParseItems(t) == Parsed([v], rest)
  {
    hide ParseValue, SkipWhitespace;
    assert ([CLOSE] + rest)[1..] == rest;
  }

  lemma MoreAreRead(t: Text, v: Value, after: Text, onward: Text, items: seq<Value>, rest: Text)
    requires ParseValue(t) == Parsed(v, after) && SkipWhitespace(after) == [COMMA] + onward
    requires ParseItems(onward) == Parsed(items, rest)
    ensures ParseItems(t) == Parsed([v] + items, rest)
  {
    hide ParseValue, SkipWhitespace;
    assert ([COMMA] + onward)[1..] == onward;
  }

  lemma {:induction false} ObjectIsRead(t: Text, m: map<Text, Value>, rest: Text)
    requires ObjectSpelled(t, m)
    ensures ParseObject(t + ([CLOSE_BRACE] + rest)) == Parsed(Obj(m), rest)
    decreases |t|, 2
  {
    hide ParseMembers, ParseObject, MembersSpelled, SkipWhitespace, Blank, Collected, Whitespace;
    if m == map[] && Blank(t) {
      NoSpaces();
      SkipsTo(t, [CLOSE_BRACE] + rest);
      EmptyObjectIsRead(t, rest);
    } else {
      var k, members :|
        && 0 <= k <= |t| && Blank(t[..k]) && members != [] && MembersSpelled(t[k..], members)
        && m == Collected(map[], members);
      MembersAreRead(t[k..], members, map[], rest);
      NameStarts(t[k..], members);
      NoSpaces();
      var onward := t[k..] + ([CLOSE_BRACE] + rest);
      assert t + ([CLOSE_BRACE] + rest) == t[..k] + onward && onward[0] == t[k..][0];
      SkipsTo(t[..k], onward);
      SomeMembers(t + ([CLOSE_BRACE] + rest), onward, m, rest);
    }
  }

  lemma NoSpaces()
    ensures !Whitespace(CLOSE_BRACE) && !Whitespace(QUOTE) && !Whitespace(COLON)
  {
  }

  lemma EmptyObjectIsRead(t: Text, rest: Text)
    requires SkipWhitespace(t + ([CLOSE_BRACE] + rest)) == [CLOSE_BRACE] + rest
    ensures ParseObject(t + ([CLOSE_BRACE] + rest)) == Parsed(Obj(map[]), rest)
  {
    hide ParseMembers, SkipWhitespace;
    assert ([CLOSE_BRACE] + rest)[1..] == rest;
  }

  lemma SomeMembers(t: Text, onward: Text, m: map<Text, Value>, rest: Text)
    requires SkipWhitespace(t) == onward && At(onward, QUOTE) && ParseMembers(onward, map[]) == Parsed(m, rest)
    ensures ParseObject(t) == Parsed(Obj(m), rest)
  {
    hide ParseMembers, SkipWhitespace;
  }

  lemma {:induction false} NameStarts(t: Text, members: seq<(Text, Value)>)
    requires members != [] && MembersSpelled(t, members)
    ensures At(t, QUOTE)
  {
    var q :| MemberCut(t, q) && StringSpelled(q.name, members[0].0);
    hide MembersSpelled, Spelled, BodySpelled, Blank;
    assert t[0] == q.name[0];
  }

  lemma {:induction false} FirstMember(t: Text, members: seq<(Text, Value)>) returns (q: Member)
    requires members != [] && MembersSpelled(t, members)
    ensures MemberCut(t, q) && StringSpelled(q.name, members[0].0) && Spelled(q.core, members[0].1)
    ensures if |members| == 1 then q.rest == [] else At(q.rest, 0x2c) && MembersSpelled(q.rest[1..], members[1..])
  {
    q :| MemberCut(t, q) && StringSpelled(q.name, members[0].0) && Spelled(q.core, members[0].1)
         && if |members| == 1 then q.rest == []
            else At(q.rest, 0x2c) && MembersSpelled(q.rest[1..], members[1..]);
  }

  /** What follows a member, up to and beyond the end of the object. */
  lemma MemberEnds(t: Text, q: Member, rest: Text, more: bool)
    requires MemberCut(t, q) && if more then At(q.rest, COMMA) else q.rest == []
    ensures
      var onward := if more then q.rest[1..] + ([CLOSE_BRACE] + rest) else rest;
      var after := q.trail + ([if more then COMMA else CLOSE_BRACE] + onward);
      && Blank(q.gap) && Blank(q.lead) && NoDigit(after) && |q.core| < |t| && |q.rest| < |t|
      && t + ([CLOSE_BRACE] + rest) == q.name + (q.gap + ([COLON] + (q.lead + q.core + after)))
      && SkipWhitespace(after) == [if more then COMMA else CLOSE_BRACE] + onward
  {
    hide MemberCut, Blank, SkipWhitespace, NoDigit;
    MemberWhole(t, q, [CLOSE_BRACE] + rest);
    if more {
      Headed(q.rest, COMMA, [CLOSE_BRACE] + rest);
      AfterValue(q.trail, COMMA, q.rest[1..] + ([CLOSE_BRACE] + rest));
    } else {
      assert q.rest + ([CLOSE_BRACE] + rest) == [CLOSE_BRACE] + rest;
      AfterValue(q.trail, CLOSE_BRACE, rest);
    }
  }

  lemma {:induction false} MembersAreRead(t: Text, members: seq<(Text, Value)>, known: map<Text, Value>, rest: Text)
    requires members != [] && MembersSpelled(t, members)
    ensures ParseMembers(t + ([CLOSE_BRACE] + rest), known) == Parsed(Collected(known, members), rest)
    decreases |t|, 1
  {
    hide ParseValue, ParseString, ParseMembers, Spelled, StringSpelled, MembersSpelled, SkipWhitespace, Blank,
      NoDigit, Collected, MemberCut;
    var q := FirstMember(t, members);
    var (name, v) := members[0];
    MemberEnds(t, q, rest, |members| > 1);
    var next := if |members| == 1 then rest else q.rest[1..] + ([CLOSE_BRACE] + rest);
    var stop := if |members| == 1 then CLOSE_BRACE else COMMA;
    ValueIsRead(q.lead, q.core, v, q.trail + ([stop] + next));
    MemberIsRead(t + ([CLOSE_BRACE] + rest), q, known, name, v, stop, next);
    if |members| == 1 {
      OneCollected(known, name, v);
      assert members == [(name, v)];
    } else {
      MembersAreRead(q.rest[1..], members[1..], known[name := v], rest);
      MoreCollected(known, name, v, members[1..]);
      assert members == [(name, v)] + members[1..];
    }
  }

  lemma MemberIsRead(t: Text, q: Member, known: map<Text, Value>, name: Text, v: Value, stop: Unit, next: Text)
    requires StringSpelled(q.name, name) && Blank(q.gap) && (stop == COMMA || stop == CLOSE_BRACE)
    requires
      var after := q.trail + ([stop] + next);
      && t == q.name + (q.gap + ([COLON] + (q.lead + q.core + after)))
      && ParseValue(q.lead + q.core + after) == Parsed(v, after) && SkipWhitespace(after) == [stop] + next
    ensures ParseMembers(t, known)
            == if stop == COMMA then ParseMembers(next, known[name := v]) else Parsed(known[name := v], next)
  {
    hide ParseValue, ParseString, ParseMembers, StringSpelled, SkipWhitespace, Blank;
    var after := q.trail + ([stop] + next);
    var onward := q.lead + q.core + after;
    NameIsRead(q.name, name, q.gap, onward);
    MemberStep(t, known, name, q.gap + ([COLON] + onward), onward, v, after);
    assert ([stop] + next)[1..] == next;
  }

  lemma MemberWhole(t: Text, q: Member, tail: Text)
    requires MemberCut(t, q)
    ensures Blank(q.gap) && Blank(q.lead) && Blank(q.trail) && |q.core| < |t| && |q.rest| < |t|
    ensures t + tail == q.name + (q.gap + ([COLON] + (q.lead + q.core + (q.trail + (q.rest + tail)))))
  {
    hide Blank;
    Regrouped(q.lead, q.core, q.trail, q.rest, tail);
    var onward := q.lead + q.core + q.trail + q.rest + tail;
    assert t + tail == q.name + q.gap + [COLON] + (q.lead + q.core + q.trail + q.rest + tail);
    Regrouped([], q.name, q.gap, [COLON], onward);
    assert [] + q.name == q.name;
    assert [] + (q.name + (q.gap + ([COLON] + onward))) == q.name + (q.gap + ([COLON] + onward));
  }

  lemma NameIsRead(t: Text, name: Text, gap: Text, onward: Text)
    requires StringSpelled(t, name) && Blank(gap)
    ensures ParseString(t + (gap + ([COLON] + onward))) == Parsed(name, gap + ([COLON] + onward))
    ensures SkipWhitespace(gap + ([COLON] + onward)) == [COLON] + onward && ([COLON] + onward)[1..] == onward
  {
    hide ParseString, StringSpelled, SkipWhitespace;
    StringIsRead(t, name, gap + ([COLON] + onward));
    SkipsTo(gap, [COLON] + onward);
  }

  lemma MemberStep(t: Text, known: map<Text, Value>, name: Text, colon: Text, onward: Text, v: Value, after: Text)
    requires ParseString(t) == Parsed(name, colon) && SkipWhitespace(colon) == [COLON] + onward
    requires ParseValue(onward) == Parsed(v, after)
    ensures
      var s, later := SkipWhitespace(after), known[name := v];
      ParseMembers(t, known) == if At(s, COMMA) then ParseMembers(s[1..], later)
                                else if At(s, CLOSE_BRACE) then Parsed(later, s[1..]) else Failed
  {
    hide ParseString, ParseValue, SkipWhitespace, ParseMembers;
    assert ([COLON] + onward)[1..] == onward;
    OneMoreMember(t, known);
  }

  // ----- the parser is the grammar

  lemma {:induction false} LineIsRead(t: Text, v: Value)
    requires LineSpelled(t, v)
    ensures Parse(t) == Some(v)
  {
    var p :| ItemCut(t, p) && Spelled(p.core, v) && p.rest == [];
    hide ParseValue, Spelled, SkipWhitespace, Blank, NoDigit;
    BlankTail(p.trail);
    ValueIsRead(p.lead, p.core, v, p.trail);
    assert t == p.lead + p.core + p.trail;
  }

  lemma BlankTail(t: Text)
    requires Blank(t)
    ensures NoDigit(t) && SkipWhitespace(t) == []
  {
    SkipsTo(t, []);
    assert t + [] == t;
    if t != [] {
      assert Whitespace(t[0]);
    }
  }

  lemma {:induction false} LineReads(t: Text, v: Value)
    requires Parse(t) == Some(v)
    ensures LineSpelled(t, v)
  {
    hide ParseValue, Spelled, SkipWhitespace, Blank, ItemCut;
    var i, c, j := ItemRead(t);
    assert t[j..] == [];
    ItemPieces(t, i, c, j, j);
    assert t[..j] == t && t[j..j] == [];
    assert ItemCut(t, Item(t[..i], t[i..c], t[c..j], t[j..j]));
  }

  /** The harness reads a line as a value exactly when the line spells it: white space anywhere around values, commas
      and colons, except in front of a later name; strings with any of the escapes; numbers within 64 bits. */
  lemma ParsesExactly(t: Text, v: Value)
    ensures Parse(t) == Some(v) <==> LineSpelled(t, v)
  {
    hide Parse, LineSpelled;
    if Parse(t) == Some(v) {
      LineReads(t, v);
    }
    if LineSpelled(t, v) {
      LineIsRead(t, v);
    }
  }
}
