/** The printed form, character by character: what the code units of Json.dfy spell. */
module JsonText {
  import opened Domain
  import opened Json

  /** The code units of ASCII text. */
  function Units(s: string): Text
    requires forall i :: 0 <= i < |s| ==> s[i] < '\U{0080}'
  {
    seq(|s|, i requires 0 <= i < |s| => s[i] as int as Unit)
  }

  lemma Literals(p: Printer)
    ensures Printed(p, Null, 0) == Some(Units("null"))
    ensures Printed(p, Bool(true), 0) == Some(Units("true")) && Printed(p, Bool(false), 0) == Some(Units("false"))
  {
    assert NULL_TEXT == Units("null");
    assert TRUE_TEXT == Units("true");
    assert FALSE_TEXT == Units("false");
  }

  /** Strings in quotes, lists in brackets with commas between their entries. */
  lemma Punctuation(p: Printer, s: Text, v: Value, w: Value)
    ensures Printed(p, Str(s), 0) == Some(Units("\"") + StringText(p, s) + Units("\""))
    ensures Printed(p, List([]), 0) == Some(Units("[]"))
    ensures Printed(p, v, 1).Some? ==>
              Printed(p, List([v]), 0) == Some(Units("[") + Printed(p, v, 1).value + Units("]"))
    ensures Printed(p, v, 1).Some? && Printed(p, w, 1).Some? ==>
              Printed(p, List([v, w]), 0)
              == Some(Units("[") + (Printed(p, v, 1).value + Units(",") + Printed(p, w, 1).value) + Units("]"))
  {
    assert [v, w][1..] == [w];
    assert [QUOTE] == Units("\"") && [OPEN] == Units("[") && [CLOSE] == Units("]") && [COMMA] == Units(",");
    assert [OPEN] + [] + [CLOSE] == Units("[]");
    if Printed(p, v, 1).Some? && Printed(p, w, 1).Some? {
      assert PrintedItems(p, [w], 1) == Printed(p, w, 1);
      assert PrintedItems(p, [v, w], 1) == Some(Printed(p, v, 1).value + [COMMA] + Printed(p, w, 1).value);
    }
  }

  /** The request line of a test case. */
  lemma RequestLineExactly(args: seq<Value>)
    ensures Printed(Stringify, List(args), 1).Some? ==>
              RequestLine(args) == Some(Units("{\"args\":") + Printed(Stringify, List(args), 1).value + Units("}"))
  {
    hide Printed;
    ArgsText();
    if Printed(Stringify, List(args), 1).Some? {
      var list := Printed(Stringify, List(args), 1).value;
      assert [OPEN_BRACE] + [QUOTE] + Units("args") + [QUOTE] + [COLON] == Units("{\"args\":");
      assert [CLOSE_BRACE] == Units("}");
      Regrouped([OPEN_BRACE], [QUOTE], Units("args"), [COLON], list, [CLOSE_BRACE]);
    }
  }

  lemma Regrouped(a: Text, q: Text, b: Text, c: Text, d: Text, e: Text)
    ensures a + (q + b + q + (c + d)) + e == a + q + b + q + c + d + e
  {
  }

  lemma ArgsText()
    ensures Stringified(ARGS) == Units("args")
  {
    assert ARGS[1..] == [0x72, 0x67, 0x73] && ARGS[1..][1..] == [0x67, 0x73];
    assert Stringified(ARGS[1..][1..][1..]) == Units("s") by {
      assert ARGS[1..][1..][1..] == [0x73];
    }
    assert Stringified(ARGS[1..][1..]) == Units("gs");
    assert Stringified(ARGS[1..]) == Units("rgs");
  }

  /** A string is printed unit by unit between quotes: seven units have a two-character escape, the other control
      characters four lower-case hexadecimal digits, and everything else is itself. */
  lemma EscapesExactly(c: Unit)
    ensures EscapedUnit(c)
            == if c == 0x22 then Units("\\\"") else if c == 0x5c then Units("\\\\")
               else if c == 0x08 then Units("\\b") else if c == 0x0c then Units("\\f")
               else if c == 0x0a then Units("\\n") else if c == 0x0d then Units("\\r")
               else if c == 0x09 then Units("\\t")
               else if c < 0x20 then
                 Units("\\u00") + [Units("0123456789abcdef")[c as int / 16], Units("0123456789abcdef")[c as int % 16]]
               else [c]
  {
    HexDigitsExactly(c as int / 16 % 16);
    HexDigitsExactly(c as int % 16);
    HexDigitsExactly(0);
    if c < 0x20 {
      SmallHex(c);
    }
  }

  lemma SmallHex(c: Unit)
    requires c < 0x20
    ensures HexEscape(c) == [0x5c, 0x75, HexDigit(0), HexDigit(0), HexDigit(c as int / 16), HexDigit(c as int % 16)]
  {
    hide HexDigit;
  }

  lemma HexDigitsExactly(n: int)
    requires 0 <= n < 16
    ensures HexDigit(n) == Units("0123456789abcdef")[n]
  {
  }

  lemma {:induction false} EscapedAddsUp(a: Text, b: Text)
    ensures Escaped(a + b) == Escaped(a) + Escaped(b) && Escaped([]) == []
    ensures |a| == 1 ==> Escaped(a) == EscapedUnit(a[0])
    decreases |a|
  {
    hide EscapedUnit, Escaped;
    EscapedHead(a);
    EscapedHead(a + b);
    if a == [] {
      assert a + b == b;
    } else {
      assert (a + b)[1..] == a[1..] + b;
      EscapedAddsUp(a[1..], b);
      EscapedHead(a[1..]);
    }
  }

  lemma {:induction false} EscapedHead(a: Text)
    ensures Escaped(a) == if a == [] then [] else EscapedUnit(a[0]) + Escaped(a[1..])
  {
    hide EscapedUnit;
  }

  /** Integers are printed in base ten: a digit for the ones after the digits of the tens, and a sign for what is below
      zero. */
  lemma DecimalExactly(n: nat, d: nat)
    requires d < 10
    ensures Decimal(d) == [Units("0123456789")[d]]
    ensures n > 0 ==> Decimal(10 * n + d) == Decimal(n) + [Units("0123456789")[d]]
    ensures n > 0 ==> Decimal(0 - n) == Units("-") + Decimal(n)
  {
    if n > 0 {
      assert (10 * n + d) / 10 == n && (10 * n + d) % 10 == d;
    }
  }

  lemma NumbersReadBack(n: int)
    ensures ParseNumber(Decimal(n))
            == if -9_223_372_036_854_775_808 <= n <= 9_223_372_036_854_775_807 then Parsed(Num(n), []) else Failed
  {
    hide Digits, DecimalValue, DigitRun;
    var size: nat := if n < 0 then -n else n;
    var digits := Digits(size);
    DigitsValue(size);
    RunOfDigits(digits, []);
    assert digits + [] == digits;
    if n < 0 {
      assert Decimal(n)[1..] == digits;
    } else {
      assert Digit(Decimal(n)[0]);
      assert Decimal(n)[0..] == digits;
    }
    assert digits[..|digits|] == digits && digits[|digits|..] == [];
  }

  /** The harness reads back exactly the integers of 64 bits. */
  lemma IntegersReadExactly(n: int)
    ensures Parse(Decimal(n))
            == if -9_223_372_036_854_775_808 <= n <= 9_223_372_036_854_775_807 then Some(Num(n)) else None
  {
    hide ParseNumber, Decimal, ParseValue;
    NumberStarts(n);
    OpensNumber(Decimal(n));
    NumbersReadBack(n);
    NoLeadingSpace([]);
  }

  /** The halves of a surrogate pair, by code point. */
  lemma SurrogatesExactly(c: Unit)
    ensures (High(c) <==> 55296 <= c <= 56319) && (Low(c) <==> 56320 <= c <= 57343)
  {
  }

  /** White space as Java knows it, by code point. */
  lemma WhitespaceExactly(c: Unit)
    ensures Whitespace(c)
            <==> c in {9, 10, 11, 12, 13, 28, 29, 30, 31, 32, 5760, 8192, 8193, 8194, 8195, 8196, 8197, 8198, 8200,
                       8201,
                       8202, 8232, 8233, 8287, 12288}
  {
  }
}
