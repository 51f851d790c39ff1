/** The harness code itself: a printer that appends to a builder and a parser that advances an index, each proved to
    compute what module Json says. */
module JsonHarness {
  import opened Domain
  import opened Json

  // ----- the printer

  lemma {:induction false} EscapedAppend(s: Text, c: Unit)
    ensures Escaped(s + [c]) == Escaped(s) + EscapedUnit(c)
  {
    hide EscapedUnit;
    if s == [] {
      assert [c][1..] == [] && s + [c] == [c];
      assert Escaped([c]) == EscapedUnit(c) + Escaped([]);
    } else {
      EscapedAppend(s[1..], c);
      assert (s + [c])[1..] == s[1..] + [c];
      assert Escaped(s) == EscapedUnit(s[0]) + Escaped(s[1..]);
    }
  }

  lemma ItemsCons(v: Value, rest: seq<Value>, depth: nat)
    requires rest != []
    ensures
      PrintedItems(Harness, [v] + rest, depth) ==
        if Printed(Harness, v, depth).None? || PrintedItems(Harness, rest, depth).None? then None
        else Some(Printed(Harness, v, depth).value + [COMMA] + PrintedItems(Harness, rest, depth).value)
  {
    hide Printed;
    assert ([v] + rest)[1..] == rest;
  }

  lemma ItemsOne(v: Value, depth: nat)
    ensures PrintedItems(Harness, [v], depth) == Printed(Harness, v, depth)
  {
    hide Printed;
  }

  lemma {:induction false} ItemsAppend(items: seq<Value>, v: Value, depth: nat)
    requires PrintedItems(Harness, items, depth).Some?
    ensures
      PrintedItems(Harness, items + [v], depth) ==
        if Printed(Harness, v, depth).None? then None
        else Some(PrintedItems(Harness, items, depth).value + (if items == [] then [] else [COMMA])
                  + Printed(Harness, v, depth).value)
    decreases |items|
  {
    hide Printed;
    ItemsOne(v, depth);
    if items == [] {
      assert items + [v] == [v] && PrintedItems(Harness, items, depth) == Some([]);
      if Printed(Harness, v, depth).Some? {
        assert [] + [] + Printed(Harness, v, depth).value == Printed(Harness, v, depth).value;
      }
    } else {
      hide PrintedItems;
      var rest := items[1..];
      assert items == [items[0]] + rest && items + [v] == [items[0]] + (rest + [v]);
      ItemsCons(items[0], rest + [v], depth);
      if rest == [] {
        ItemsOne(items[0], depth);
        assert rest + [v] == [v];
      } else {
        ItemsCons(items[0], rest, depth);
        ItemsAppend(rest, v, depth);
        if Printed(Harness, v, depth).Some? {
          var a, b, c := Printed(Harness, items[0], depth).value, PrintedItems(Harness, rest, depth).value,
            Printed(Harness, v, depth).value;
          assert a + [COMMA] + (b + [COMMA] + c) == a + [COMMA] + b + [COMMA] + c;
        }
      }
    }
  }

  lemma PrefixPrints(items: seq<Value>, k: nat, depth: nat)
    requires k <= |items| && PrintedItems(Harness, items, depth).Some?
    ensures PrintedItems(Harness, items[..k], depth).Some?
  {
    ItemsPrint(Harness, items, depth);
    ItemsPrint(Harness, items[..k], depth);
  }

  class Builder {
    var text: Text

    constructor ()
      ensures text == []
    {
      text := [];
    }

    method Append(more: Text)
      modifies this
      ensures text == old(text) + more
    {
      text := text + more;
    }
  }

  method AppendUnit(output: Builder, c: Unit)
    modifies output
    ensures output.text == old(output.text) + EscapedUnit(c)
  {
    if c == QUOTE {
      output.Append([BACKSLASH, QUOTE]);
    } else if c == BACKSLASH {
      output.Append([BACKSLASH, BACKSLASH]);
    } else if c == 0x08 {
      output.Append([BACKSLASH, 0x62]);
    } else if c == 0x0c {
      output.Append([BACKSLASH, 0x66]);
    } else if c == 0x0a {
      output.Append([BACKSLASH, 0x6e]);
    } else if c == 0x0d {
      output.Append([BACKSLASH, 0x72]);
    } else if c == 0x09 {
      output.Append([BACKSLASH, 0x74]);
    } else if c < 0x20 {
      output.Append(HexEscape(c));
    } else {
      output.Append([c]);
    }
  }

  method AppendString(output: Builder, s: Text)
    modifies output
    ensures output.text == old(output.text) + [QUOTE] + Escaped(s) + [QUOTE]
  {
    hide EscapedUnit;
    output.Append([QUOTE]);
    assert s[..0] == [];
    for i := 0 to |s|
      invariant output.text == old(output.text) + [QUOTE] + Escaped(s[..i])
    {
      EscapedAppend(s[..i], s[i]);
      assert s[..i + 1] == s[..i] + [s[i]];
      AppendUnit(output, s[i]);
    }
    assert s[..|s|] == s;
    output.Append([QUOTE]);
  }

  /** appendJson; `ok` is false where the original throws. */
  method AppendJson(output: Builder, v: Value, depth: nat) returns (ok: bool)
    modifies output
    ensures ok <==> Printed(Harness, v, depth).Some?
    ensures ok ==> output.text == old(output.text) + Printed(Harness, v, depth).value
    decreases v, 0
  {
    hide PrintedItems, Decimal, Escaped, Stringified;
    if depth > 100 {
      return false;
    }
    match v
    case Null => output.Append(NULL_TEXT); return true;
    case Bool(b) => output.Append(if b then TRUE_TEXT else FALSE_TEXT); return true;
    case Num(n) => output.Append(Decimal(n)); return true;
    case Str(s) => AppendString(output, s); return true;
    case Obj(_) => return false;
    case List(items) =>
      output.Append([OPEN]);
      ok := AppendEntries(output, items, depth + 1);
      output.Append([CLOSE]);
  }

  /** The loop over a list's entries. */
  method AppendEntries(output: Builder, items: seq<Value>, depth: nat) returns (ok: bool)
    modifies output
    ensures ok <==> PrintedItems(Harness, items, depth).Some?
    ensures ok ==> output.text == old(output.text) + PrintedItems(Harness, items, depth).value
    decreases items
  {
    hide Printed;
    var first := true;
    ghost var before := output.text;
    assert items[..0] == [];
    for i := 0 to |items|
      invariant first <==> i == 0
      invariant PrintedItems(Harness, items[..i], depth).Some?
      invariant output.text == before + PrintedItems(Harness, items[..i], depth).value
    {
      hide PrintedItems;
      assert items[..i + 1] == items[..i] + [items[i]];
      ItemsAppend(items[..i], items[i], depth);
      if !first {
        output.Append([COMMA]);
      }
      first := false;
      ok := AppendJson(output, items[i], depth);
      if !ok {
        if PrintedItems(Harness, items, depth).Some? {
          PrefixPrints(items, i + 1, depth);
        }
        return;
      }
    }
    assert items[..|items|] == items;
    ok := true;
  }

  // ----- the parser

  predicate Yields<T(==)>(r: Option<T>, spec: Parsing<T>, rest: Text) {
    if r.Some? then spec == Parsed(r.value, rest) else spec.Failed?
  }

  function Behind(front: Text, others: Parsing<Text>): Parsing<Text> {
    if others.Failed? then Failed else Parsed(front + others.value, others.rest)
  }

  function BehindItems(front: seq<Value>, others: Parsing<seq<Value>>): Parsing<seq<Value>> {
    if others.Failed? then Failed else Parsed(front + others.value, others.rest)
  }

  lemma OneMoreUnit(front: Text, t: Text)
    requires t != [] && t[0] != QUOTE
    ensures
      var unit := StringUnit(t);
      Behind(front, StringBody(t)) == if unit.Failed? then Failed
        else Behind(front + [unit.value], StringBody(unit.rest))
  {
    var unit := StringUnit(t);
    if unit.Parsed? && StringBody(unit.rest).Parsed? {
      var others := StringBody(unit.rest).value;
      assert front + ([unit.value] + others) == front + [unit.value] + others;
    }
  }

  lemma OneMoreItem(front: seq<Value>, t: Text)
    requires ParseValue(t).Parsed?
    ensures
      var v := ParseValue(t);
      var s := SkipWhitespace(v.rest);
      BehindItems(front, ParseItems(t)) ==
        if At(s, COMMA) then BehindItems(front + [v.value], ParseItems(s[1..]))
        else if At(s, CLOSE) then Parsed(front + [v.value], s[1..])
        else Failed
  {
    hide ParseValue, SkipWhitespace;
    var v := ParseValue(t);
    var s := SkipWhitespace(v.rest);
    if At(s, COMMA) && ParseItems(s[1..]).Parsed? {
      var others := ParseItems(s[1..]).value;
      assert front + ([v.value] + others) == front + [v.value] + others;
    }
  }

  class JsonParser {
    const source: Text
    var index: nat

    constructor (source: Text)
      ensures this.source == source && index == 0
    {
      this.source, index := source, 0;
    }

    predicate Valid()
      reads this
    {
      index <= |source|
    }

    function Rest(): Text
      requires Valid()
      reads this
    {
      source[index..]
    }

    method SkipSpaces()
      requires Valid()
      modifies this`index
      ensures Valid() && Rest() == SkipWhitespace(old(Rest())) && index >= old(index)
    {
      while index < |source| && Whitespace(source[index])
        invariant Valid() && index >= old(index)
        invariant SkipWhitespace(Rest()) == SkipWhitespace(old(Rest()))
        decreases |source| - index
      {
        assert Rest()[1..] == source[index + 1..];
        index := index + 1;
      }
    }

    method Take(expected: Unit) returns (taken: bool)
      requires Valid()
      modifies this`index
      ensures Valid() && taken == At(old(Rest()), expected)
      ensures Rest() == if taken then old(Rest())[1..] else old(Rest())
      ensures index == old(index) + if taken then 1 else 0
    {
      if index < |source| && source[index] == expected {
        index := index + 1;
        return true;
      }
      return false;
    }

    method ReadLiteral(expected: Text) returns (ok: bool)
      requires Valid()
      modifies this`index
      ensures Valid() && ok == (expected <= old(Rest()))
      ensures index == old(index) + if ok then |expected| else 0
      ensures ok ==> Rest() == old(Rest())[|expected|..]
    {
      if |expected| <= |source| - index && source[index..index + |expected|] == expected {
        assert Rest()[..|expected|] == source[index..index + |expected|];
        index := index + |expected|;
        return true;
      }
      assert index + |expected| <= |source| ==> source[index..index + |expected|] == Rest()[..|expected|];
      return false;
    }

    /** One character after the opening quote, escapes resolved. */
    method ReadUnit() returns (r: Option<Unit>)
      requires Valid() && index < |source|
      modifies this`index
      ensures Valid() && Yields(r, StringUnit(old(Rest())), Rest()) && index > old(index)
    {
      ghost var t := Rest();
      var character := source[index];
      index := index + 1;
      assert Rest() == t[1..];
      if character != BACKSLASH {
        return Some(character);
      }
      if index >= |source| {
        return None;
      }
      var escape := source[index];
      index := index + 1;
      assert Rest() == t[2..];
      if escape == 0x75 {
        if |source| - index < 4 {
          return None;
        }
        assert source[index..index + 4] == t[2..6];
        r := ParseHex(source[index..index + 4]);
        index := index + 4;
        assert Rest() == t[6..];
        return;
      }
      return Unescaped(escape);
    }

    method ReadString() returns (r: Option<Text>)
      requires Valid()
      modifies this`index
      ensures Valid() && index >= old(index)
      ensures Yields(r, ParseString(old(Rest())), Rest())
      ensures r.Some? ==> index > old(index)
    {
      var quoted := Take(QUOTE);
      if !quoted {
        return None;
      }
      var result: Text := [];
      ghost var body := StringBody(Rest());
      assert body.Parsed? ==> [] + body.value == body.value;
      while index < |source|
        invariant Valid() && index > old(index)
        invariant body == Behind(result, StringBody(Rest()))
        decreases |source| - index
      {
        assert Rest()[0] == source[index];
        if source[index] == QUOTE {
          assert Rest()[1..] == source[index + 1..];
          index := index + 1;
          assert result + [] == result;
          return Some(result);
        }
        OneMoreUnit(result, Rest());
        var unit := ReadUnit();
        if unit.None? {
          return None;
        }
        result := result + [unit.value];
      }
      return None;
    }

    method SkipDigits()
      requires Valid()
      modifies this`index
      ensures Valid() && index == old(index) + DigitRun(old(Rest()))
    {
      var start := index;
      ghost var run := DigitRun(Rest());
      while index < |source| && Digit(source[index])
        invariant Valid() && start <= index && run == index - start + DigitRun(Rest())
        decreases |source| - index
      {
        assert Rest()[1..] == source[index + 1..];
        index := index + 1;
      }
    }

    method ReadNumber() returns (r: Option<Value>)
      requires index < |source|
      modifies this`index
      ensures Valid() && index >= old(index)
      ensures Yields(r, ParseNumber(old(Rest())), Rest())
    {
      hide DecimalValue, DigitRun;
      ghost var t := Rest();
      var negative := source[index] == MINUS;
      if negative {
        index := index + 1;
      }
      var start := index;
      assert Rest() == t[if negative then 1 else 0..];
      SkipDigits();
      ghost var unsigned := t[if negative then 1 else 0..];
      assert unsigned[..index - start] == source[start..index] && unsigned[index - start..] == Rest();
      if index == start {
        return None;
      }
      var size: int := DecimalValue(source[start..index]);
      var n := if negative then -size else size;
      if n < LONG_MIN || n > LONG_MAX {
        return None;
      }
      return Some(Num(n));
    }

    method ReadValue() returns (r: Option<Value>)
      requires Valid()
      modifies this`index
      ensures Valid() && index >= old(index)
      ensures Yields(r, ParseValue(old(Rest())), Rest())
      ensures r.Some? ==> index > old(index)
      decreases |source| - index, 1
    {
      hide ParseArray, ParseObject, ParseNumber, ParseString, SkipWhitespace;
      ghost var before := Rest();
      SkipSpaces();
      if index >= |source| {
        return None;
      }
      ghost var s := Rest();
      var c := source[index];
      if c == OPEN_BRACE {
        r := ReadObject();
      } else if c == OPEN {
        r := ReadArray();
      } else if c == QUOTE {
        var text := ReadString();
        r := if text.Some? then Some(Str(text.value)) else None;
      } else if c == 0x6e {
        var ok := ReadLiteral(NULL_TEXT);
        r := if ok then Some(Null) else None;
      } else if c == 0x74 {
        var ok := ReadLiteral(TRUE_TEXT);
        r := if ok then Some(Bool(true)) else None;
      } else if c == 0x66 {
        var ok := ReadLiteral(FALSE_TEXT);
        r := if ok then Some(Bool(false)) else None;
      } else {
        r := ReadNumber();
      }
      Consumed(before, r);
    }

    lemma Consumed(before: Text, r: Option<Value>)
      requires Valid() && |before| <= |source|
      requires Yields(r, ParseValue(before), Rest())
      ensures r.Some? ==> |Rest()| < |before|
    {
      hide ParseValue;
    }

    method ReadArray() returns (r: Option<Value>)
      requires index < |source|
      modifies this`index
      ensures Valid() && index >= old(index)
      ensures Yields(r, ParseArray(old(Rest())[1..]), Rest())
      decreases |source| - index, 0
    {
      hide ParseItems, SkipWhitespace;
      assert Rest()[1..] == source[index + 1..];
      index := index + 1;
      SkipSpaces();
      var closed := Take(CLOSE);
      if closed {
        return Some(List([]));
      }
      var items := ReadItems();
      return if items.Some? then Some(List(items.value)) else None;
    }

    /** The do loop of array(). */
    method ReadItems() returns (r: Option<seq<Value>>)
      requires Valid()
      modifies this`index
      ensures Valid() && index >= old(index)
      ensures Yields(r, ParseItems(old(Rest())), Rest())
      decreases |source| - index, 2
    {
      hide ParseValue, ParseItems, SkipWhitespace;
      var result: seq<Value> := [];
      ghost var items := ParseItems(Rest());
      assert items.Parsed? ==> [] + items.value == items.value;
      var more := true;
      while more
        invariant Valid() && index >= old(index)
        invariant more ==> items == BehindItems(result, ParseItems(Rest()))
        invariant !more ==> items == if At(Rest(), CLOSE) then Parsed(result, Rest()[1..]) else Failed
        decreases |source| - index, more
      {
        ghost var t := Rest();
        var v := ReadValue();
        if v.None? {
          FailedItem(result, t);
          return None;
        }
        OneMoreItem(result, t);
        result := result + [v.value];
        SkipSpaces();
        more := Take(COMMA);
      }
      var closed := Take(CLOSE);
      return if closed then Some(result) else None;
    }

    method ReadObject() returns (r: Option<Value>)
      requires index < |source|
      modifies this`index
      ensures Valid() && index >= old(index)
      ensures Yields(r, ParseObject(old(Rest())[1..]), Rest())
      decreases |source| - index, 0
    {
      hide ParseMembers, SkipWhitespace;
      assert Rest()[1..] == source[index + 1..];
      index := index + 1;
      SkipSpaces();
      var closed := Take(CLOSE_BRACE);
      if closed {
        return Some(Obj(map[]));
      }
      var members := ReadMembers();
      return if members.Some? then Some(Obj(members.value)) else None;
    }

    /** The do loop of object(). */
    method ReadMembers() returns (r: Option<map<Text, Value>>)
      requires Valid()
      modifies this`index
      ensures Valid() && index >= old(index)
      ensures Yields(r, ParseMembers(old(Rest()), map[]), Rest())
      decreases |source| - index, 2
    {
      hide ParseValue, ParseString, SkipWhitespace, ParseMembers;
      var result: map<Text, Value> := map[];
      ghost var members := ParseMembers(Rest(), map[]);
      var more := true;
      while more
        invariant Valid() && index >= old(index)
        invariant more ==> members == ParseMembers(Rest(), result)
        invariant !more ==> members == if At(Rest(), CLOSE_BRACE) then Parsed(result, Rest()[1..]) else Failed
        decreases |source| - index, more
      {
        OneMoreMember(Rest(), result);
        var key := ReadString();
        if key.None? {
          return None;
        }
        SkipSpaces();
        var colon := Take(COLON);
        if !colon {
          return None;
        }
        var v := ReadValue();
        if v.None? {
          return None;
        }
        result := result[key.value := v.value];
        SkipSpaces();
        more := Take(COMMA);
      }
      var closed := Take(CLOSE_BRACE);
      return if closed then Some(result) else None;
    }

    /** The whole line must be one value. */
    method ParseLine() returns (r: Option<Value>)
      requires index == 0
      modifies this`index
      ensures r == Parse(source)
    {
      assert Rest() == source;
      r := ReadValue();
      if r.None? {
        return;
      }
      SkipSpaces();
      if index != |source| {
        return None;
      }
    }
  }

  lemma FailedItem(front: seq<Value>, t: Text)
    requires ParseValue(t).Failed?
    ensures BehindItems(front, ParseItems(t)).Failed?
  {
    hide ParseValue;
  }

  /** A printed value survives the trip through a builder and a fresh parser. */
  method PrintThenParse(v: Value) returns (r: Option<Value>)
    requires Representable(v)
    ensures r == if Printed(Harness, v, 0).Some? then Some(v) else None
  {
    var output := new Builder();
    var ok := AppendJson(output, v, 0);
    if !ok {
      return None;
    }
    assert [] + Printed(Harness, v, 0).value == Printed(Harness, v, 0).value;
    RoundTrip(Harness, v);
    var parser := new JsonParser(output.text);
    r := parser.ParseLine();
  }
}
