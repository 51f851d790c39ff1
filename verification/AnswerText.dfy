/** The prose normalizer and its measurement (src/shared/ai-ml-answer.ts). Text is a sequence of code points and is
    taken to be in Unicode normalization form C already. */
module AnswerText {

  type Text = seq<char>

  const CR: char := '\r'
  const NL: char := '\n'
  const SP: char := ' '

  /** The class \s of ECMAScript regular expressions, which String.prototype.trim uses too. */
  predicate Space(c: char) {
    || c in {'\t', '\n', '\U{000B}', '\U{000C}', '\r', ' ', '\U{00A0}', '\U{1680}', '\U{2028}', '\U{2029}', '\U{202F}',
             '\U{205F}', '\U{3000}', '\U{FEFF}'}
    || '\U{2000}' <= c <= '\U{200A}'
  }

  predicate Horizontal(c: char) {
    Space(c) && c != NL
  }

  predicate LineSeparator(c: char) {
    c in {'\U{0085}', '\U{2028}', '\U{2029}'}
  }

  /** White space, and the breaks among it, by code point. */
  lemma SpacesExactly(c: char)
    ensures Space(c)
            <==> c as int in {9, 10, 11, 12, 13, 32, 160, 5760, 8192, 8193, 8194, 8195, 8196, 8197, 8198, 8199, 8200,
                              8201, 8202, 8232, 8233, 8239, 8287, 12288, 65279}
    ensures LineSeparator(c) <==> c as int in {133, 8232, 8233}
  {
  }

  // ----- the four replacements

  function LineEndings(s: Text): Text {
    if s == [] then []
    else if s[0] == CR then
      [NL] + LineEndings(if |s| > 1 && s[1] == NL then s[2..] else s[1..])
    else [if LineSeparator(s[0]) then NL else s[0]] + LineEndings(s[1..])
  }

  /** Every way to end a line becomes one break: the pair of carriage return and line feed, either alone, and the three
      separators. */
  lemma LineEndingsExactly(c: char, t: Text)
    ensures LineEndings([]) == []
    ensures LineEndings(['\r', '\n'] + t) == ['\n'] + LineEndings(t)
    ensures t == [] || t[0] != '\n' ==> LineEndings(['\r'] + t) == ['\n'] + LineEndings(t)
    ensures c != '\r' ==>
              LineEndings([c] + t) == [if c as int in {133, 8232, 8233} then '\n' else c] + LineEndings(t)
  {
    assert (['\r', '\n'] + t)[2..] == t;
    assert (['\r'] + t)[1..] == t;
    assert ([c] + t)[1..] == t;
  }

  function SkipHorizontal(s: Text): (r: Text)
    ensures |r| <= |s|
  {
    if s != [] && Horizontal(s[0]) then SkipHorizontal(s[1..]) else s
  }

  function CollapseSpaces(s: Text): Text
    decreases |s|
  {
    if s == [] then []
    else if Horizontal(s[0]) then [SP] + CollapseSpaces(SkipHorizontal(s[1..]))
    else [s[0]] + CollapseSpaces(s[1..])
  }

  function SkipBlanks(s: Text): (r: Text)
    ensures |r| <= |s|
  {
    if s != [] && s[0] == SP then SkipBlanks(s[1..]) else s
  }

  function TightenBreaks(s: Text): Text
    decreases |s|
  {
    if s == [] then []
    else
      var afterBlanks := SkipBlanks(s);
      if afterBlanks != [] && afterBlanks[0] == NL then [NL] + TightenBreaks(SkipBlanks(afterBlanks[1..]))
      else [s[0]] + TightenBreaks(s[1..])
  }

  function TrimStart(s: Text): Text {
    if s != [] && Space(s[0]) then TrimStart(s[1..]) else s
  }

  function TrimEnd(s: Text): Text {
    if s != [] && Space(s[|s| - 1]) then TrimEnd(s[..|s| - 1]) else s
  }

  function Normalize(s: Text): Text {
    TrimEnd(TrimStart(TightenBreaks(CollapseSpaces(LineEndings(s)))))
  }

  // ----- reference reading: a text is a list of words and line breaks

  datatype Token = Word(text: Text) | Break

  function Tokens(s: Text): (ts: seq<Token>)
    ensures s != [] && !Space(s[0]) ==> ts != [] && ts[0].Word?
  {
    if s == [] then []
    else
      var rest := Tokens(s[1..]);
      if s[0] == NL then [Break] + rest
      else if Space(s[0]) then rest
      else if |s| > 1 && !Space(s[1]) then [Word([s[0]] + rest[0].text)] + rest[1..]
      else [Word([s[0]])] + rest
  }

  function Render(ts: seq<Token>): Text {
    if ts == [] then []
    else if ts[0].Break? then [NL] + Render(ts[1..])
    else ts[0].text + (if |ts| > 1 && ts[1].Word? then [SP] else []) + Render(ts[1..])
  }

  function DropLeadingBreaks(ts: seq<Token>): seq<Token> {
    if ts != [] && ts[0].Break? then DropLeadingBreaks(ts[1..]) else ts
  }

  function DropTrailingBreaks(ts: seq<Token>): seq<Token> {
    if ts != [] && ts[|ts| - 1].Break? then DropTrailingBreaks(ts[..|ts| - 1]) else ts
  }

  function WordCount(ts: seq<Token>): nat {
    if ts == [] then 0 else (if ts[0].Word? then 1 else 0) + WordCount(ts[1..])
  }

  /** The content the normalizer must keep: words in order, line breaks between them. */
  function Content(s: Text): seq<Token> {
    DropTrailingBreaks(DropLeadingBreaks(Tokens(LineEndings(s))))
  }

  // ----- canonical texts

  predicate OnlyBlanksAndBreaks(s: Text) {
    forall i :: 0 <= i < |s| && Space(s[i]) ==> s[i] == SP || s[i] == NL
  }

  predicate SingleBlanks(s: Text) {
    forall i :: 0 <= i < |s| - 1 ==> !(s[i] == SP && s[i + 1] == SP)
  }

  predicate TightBreaks(s: Text) {
    forall i :: 0 <= i < |s| - 1 ==> !(s[i] == SP && s[i + 1] == NL) && !(s[i] == NL && s[i + 1] == SP)
  }

  predicate Trimmed(s: Text) {
    s == [] || (!Space(s[0]) && !Space(s[|s| - 1]))
  }

  predicate Canonical(s: Text) {
    OnlyBlanksAndBreaks(s) && SingleBlanks(s) && TightBreaks(s) && Trimmed(s) && NoSeparators(s)
  }

  predicate NoSeparators(s: Text) {
    forall i :: 0 <= i < |s| ==> s[i] != CR && !LineSeparator(s[i])
  }

  // ----- each step keeps the tokens

  lemma {:induction false} SkipHorizontalTokens(s: Text)
    ensures Tokens(SkipHorizontal(s)) == Tokens(s)
    ensures SkipHorizontal(s) == [] || !Horizontal(SkipHorizontal(s)[0])
  {
    if s != [] && Horizontal(s[0]) {
      SkipHorizontalTokens(s[1..]);
    }
  }

  lemma {:induction false} SkipBlanksTokens(s: Text)
    ensures Tokens(SkipBlanks(s)) == Tokens(s)
    ensures SkipBlanks(s) == [] || SkipBlanks(s)[0] != SP
    ensures s != [] && s[0] != SP ==> SkipBlanks(s) == s
  {
    if s != [] && s[0] == SP {
      SkipBlanksTokens(s[1..]);
    }
  }

  ghost predicate SameFront(a: Text, b: Text) {
    (a == [] <==> b == []) && (a != [] && b != [] ==> Space(a[0]) == Space(b[0]))
  }

  lemma PrependTokens(c: char, a: Text, b: Text)
    requires Tokens(a) == Tokens(b) && SameFront(a, b)
    ensures Tokens([c] + a) == Tokens([c] + b)
  {
    assert ([c] + a)[1..] == a && ([c] + b)[1..] == b;
  }

  lemma {:induction false} CollapseTokens(s: Text)
    ensures Tokens(CollapseSpaces(s)) == Tokens(s)
    ensures SameFront(CollapseSpaces(s), s)
    decreases |s|
  {
    if s != [] {
      if Horizontal(s[0]) {
        var rest := SkipHorizontal(s[1..]);
        SkipHorizontalTokens(s[1..]);
        CollapseTokens(rest);
        assert ([SP] + CollapseSpaces(rest))[1..] == CollapseSpaces(rest);
      } else {
        CollapseTokens(s[1..]);
        PrependTokens(s[0], CollapseSpaces(s[1..]), s[1..]);
        assert [s[0]] + s[1..] == s;
      }
    }
  }

  lemma {:induction false} TightenTokens(s: Text)
    ensures Tokens(TightenBreaks(s)) == Tokens(s)
    ensures SameFront(TightenBreaks(s), s)
    decreases |s|
  {
    if s != [] {
      var afterBlanks := SkipBlanks(s);
      SkipBlanksTokens(s);
      if afterBlanks != [] && afterBlanks[0] == NL {
        var rest := SkipBlanks(afterBlanks[1..]);
        SkipBlanksTokens(afterBlanks[1..]);
        TightenTokens(rest);
        assert ([NL] + TightenBreaks(rest))[1..] == TightenBreaks(rest);
      } else {
        TightenTokens(s[1..]);
        PrependTokens(s[0], TightenBreaks(s[1..]), s[1..]);
        assert [s[0]] + s[1..] == s;
      }
    }
  }

  lemma {:induction false} TrimStartTokens(s: Text)
    ensures Tokens(TrimStart(s)) == DropLeadingBreaks(Tokens(s))
  {
    if s != [] && Space(s[0]) {
      TrimStartTokens(s[1..]);
      if s[0] == NL {
        assert Tokens(s)[1..] == Tokens(s[1..]);
      }
    }
  }

  lemma {:induction false} AppendSpaceTokens(s: Text, c: char)
    requires Space(c)
    ensures Tokens(s + [c]) == Tokens(s) + (if c == NL then [Break] else [])
  {
    if s == [] {
      assert s + [c] == [c];
    } else {
      AppendSpaceTokens(s[1..], c);
      assert (s + [c])[1..] == s[1..] + [c];
      var tail := if c == NL then [Break] else [];
      var rest := Tokens(s[1..]);
      if s[0] != NL && !Space(s[0]) && |s| > 1 && !Space(s[1]) {
        assert (rest + tail)[1..] == rest[1..] + tail;
      }
    }
  }

  lemma {:induction false} TrimEndTokens(s: Text)
    ensures Tokens(TrimEnd(s)) == DropTrailingBreaks(Tokens(s))
  {
    if s != [] {
      var front, last := s[..|s| - 1], s[|s| - 1];
      if Space(last) {
        assert s == front + [last];
        TrimEndTokens(front);
        AppendSpaceTokens(front, last);
        if last == NL {
          assert Tokens(s)[..|Tokens(s)| - 1] == Tokens(front);
        } else {
          assert Tokens(s) == Tokens(front);
        }
      } else {
        LastIsWord(s);
      }
    }
  }

  lemma LastOfLonger(first: Token, rest: seq<Token>)
    requires rest != [] && rest[|rest| - 1].Word?
    ensures ([first] + rest)[|[first] + rest| - 1].Word?
    ensures first.Word? ==> ([first] + rest[1..])[|[first] + rest[1..]| - 1].Word?
  {
  }

  lemma {:induction false} TokensOneMore(s: Text)
    requires |s| > 1
    ensures
      var rest := Tokens(s[1..]);
      Tokens(s) ==
        if s[0] == NL then [Break] + rest
        else if Space(s[0]) then rest
        else if !Space(s[1]) && rest != [] && rest[0].Word? then [Word([s[0]] + rest[0].text)] + rest[1..]
        else [Word([s[0]])] + rest
  {
    assert !Space(s[1]) ==> !Space(s[1..][0]);
  }

  lemma OneWord(s: Text)
    requires |s| == 1 && !Space(s[0])
    ensures Tokens(s) == [Word([s[0]])]
  {
    assert s[1..] == [];
  }

  lemma {:induction false} LastIsWord(s: Text)
    requires s != [] && !Space(s[|s| - 1])
    ensures Tokens(s) != [] && Tokens(s)[|Tokens(s)| - 1].Word?
  {
    hide Tokens, Space;
    if |s| == 1 {
      OneWord(s);
    } else {
      var rest := Tokens(s[1..]);
      assert s[1..][|s[1..]| - 1] == s[|s| - 1];
      LastIsWord(s[1..]);
      TokensOneMore(s);
      LastOfLonger(Break, rest);
      LastOfLonger(Word([s[0]]), rest);
      if rest[0].Word? {
        LastOfLonger(Word([s[0]] + rest[0].text), rest);
      }
    }
  }

  /** Nothing but edge breaks is lost: the words and inner line breaks survive in order. */
  lemma NormalizeKeepsContent(s: Text)
    ensures Tokens(Normalize(s)) == Content(s)
  {
    var ended := LineEndings(s);
    var collapsed := CollapseSpaces(ended);
    CollapseTokens(ended);
    TightenTokens(collapsed);
    TrimStartTokens(TightenBreaks(collapsed));
    TrimEndTokens(TrimStart(TightenBreaks(collapsed)));
  }

  // ----- each step establishes its part of the canonical form

  lemma {:induction false} LineEndingsCanon(s: Text)
    ensures NoSeparators(LineEndings(s))
  {
    if s != [] {
      LineEndingsCanon(s[1..]);
      if |s| > 1 {
        LineEndingsCanon(s[2..]);
      }
    }
  }

  lemma {:induction false} SkipHorizontalSuffix(s: Text)
    requires NoSeparators(s)
    ensures NoSeparators(SkipHorizontal(s))
  {
    if s != [] && Horizontal(s[0]) {
      SkipHorizontalSuffix(s[1..]);
    }
  }

  lemma {:induction false} CollapseCanon(s: Text)
    requires NoSeparators(s)
    ensures
      var r := CollapseSpaces(s);
      && OnlyBlanksAndBreaks(r) && SingleBlanks(r) && NoSeparators(r)
      && (r != [] && r[0] == SP ==> s != [] && Horizontal(s[0]))
    decreases |s|
  {
    if s != [] {
      if Horizontal(s[0]) {
        SkipHorizontalSuffix(s[1..]);
        SkipHorizontalTokens(s[1..]);
        CollapseCanon(SkipHorizontal(s[1..]));
      } else {
        CollapseCanon(s[1..]);
      }
    }
  }

  lemma {:induction false} SkipBlanksSuffix(s: Text)
    requires OnlyBlanksAndBreaks(s) && SingleBlanks(s) && NoSeparators(s)
    ensures
      var r := SkipBlanks(s);
      && OnlyBlanksAndBreaks(r) && SingleBlanks(r) && NoSeparators(r) && (r == [] || r[0] != SP)
      && r == (if s != [] && s[0] == SP then s[1..] else s)
  {
    if s != [] && s[0] == SP {
      assert s[1..] == [] || s[1..][0] == s[1];
      SkipBlanksSuffix(s[1..]);
    }
  }

  lemma {:induction false} TightenCanon(s: Text)
    requires OnlyBlanksAndBreaks(s) && SingleBlanks(s) && NoSeparators(s)
    ensures
      var r := TightenBreaks(s);
      && OnlyBlanksAndBreaks(r) && SingleBlanks(r) && NoSeparators(r) && TightBreaks(r)
      && (r == [] <==> s == [])
      && (r != [] && r[0] == SP ==> s[0] == SP)
      && (r != [] && s[0] == SP && r[0] != SP ==> r[0] == NL)
      && (r != [] && s[0] != SP ==> r[0] == s[0])
      && (|s| > 1 && s[0] == SP && s[1] == NL ==> r[0] == NL)
    decreases |s|
  {
    if s != [] {
      SkipBlanksSuffix(s);
      var afterBlanks := SkipBlanks(s);
      if afterBlanks != [] && afterBlanks[0] == NL {
        SkipBlanksSuffix(afterBlanks[1..]);
        TightenCanon(SkipBlanks(afterBlanks[1..]));
      } else {
        TightenCanon(s[1..]);
      }
    }
  }

  lemma {:induction false} TrimStartCanon(s: Text)
    requires OnlyBlanksAndBreaks(s) && SingleBlanks(s) && NoSeparators(s) && TightBreaks(s)
    ensures
      var r := TrimStart(s);
      && OnlyBlanksAndBreaks(r) && SingleBlanks(r) && NoSeparators(r) && TightBreaks(r)
      && (r == [] || !Space(r[0]))
  {
    if s != [] && Space(s[0]) {
      TrimStartCanon(s[1..]);
    }
  }

  lemma {:induction false} TrimEndCanon(s: Text)
    requires OnlyBlanksAndBreaks(s) && SingleBlanks(s) && NoSeparators(s) && TightBreaks(s)
    requires s == [] || !Space(s[0])
    ensures Canonical(TrimEnd(s))
  {
    if s != [] && Space(s[|s| - 1]) {
      TrimEndCanon(s[..|s| - 1]);
    }
  }

  lemma NormalizeIsCanonical(s: Text)
    ensures Canonical(Normalize(s))
  {
    LineEndingsCanon(s);
    CollapseCanon(LineEndings(s));
    TightenCanon(CollapseSpaces(LineEndings(s)));
    TrimStartCanon(TightenBreaks(CollapseSpaces(LineEndings(s))));
    TrimEndCanon(TrimStart(TightenBreaks(CollapseSpaces(LineEndings(s)))));
  }

  // ----- a canonical text is what its tokens render to

  lemma RenderWord(text: Text, rest: seq<Token>)
    ensures Render([Word(text)] + rest) == text + (if rest != [] && rest[0].Word? then [SP] else []) + Render(rest)
  {
    assert ([Word(text)] + rest)[1..] == rest;
  }

  lemma RenderLongerWord(c: char, ts: seq<Token>)
    requires ts != [] && ts[0].Word?
    ensures Render([Word([c] + ts[0].text)] + ts[1..]) == [c] + Render(ts)
  {
    hide Render;
    assert ts == [Word(ts[0].text)] + ts[1..];
    RenderWord(ts[0].text, ts[1..]);
    RenderWord([c] + ts[0].text, ts[1..]);
    var gap := if ts[1..] != [] && ts[1..][0].Word? then [SP] else [];
    assert [c] + ts[0].text + gap + Render(ts[1..]) == [c] + (ts[0].text + gap + Render(ts[1..]));
  }

  /** A word's first character, before what the rest already renders as. */
  lemma RenderWordStart(s: Text)
    requires s != [] && !Space(s[0]) && OnlyBlanksAndBreaks(s) && SingleBlanks(s) && TightBreaks(s)
    requires !Space(s[|s| - 1])
    requires Render(Tokens(s[1..])) == if |s| > 1 && s[1] == SP then s[2..] else s[1..]
    ensures Render(Tokens(s)) == s
  {
    var ts, rest := Tokens(s), Tokens(s[1..]);
    if |s| > 1 && !Space(s[1]) {
      RenderLongerWord(s[0], rest);
      assert [s[0]] + s[1..] == s;
    } else {
      assert ts[1..] == rest;
      if |s| > 1 && s[1] == SP {
        assert !Space(s[2]);
        assert rest == Tokens(s[2..]) by {
          assert s[1..][1..] == s[2..];
        }
      }
      if |s| > 1 && s[1] == NL {
        assert rest[0].Break?;
      }
    }
  }

  lemma {:induction false} RenderTokens(s: Text)
    requires OnlyBlanksAndBreaks(s) && SingleBlanks(s) && TightBreaks(s)
    requires s == [] || !Space(s[|s| - 1])
    ensures Render(Tokens(s)) == if s != [] && s[0] == SP then s[1..] else s
  {
    if s != [] {
      assert s[1..] == [] || s[1..][|s[1..]| - 1] == s[|s| - 1];
      RenderTokens(s[1..]);
      if s[0] == NL {
        assert Tokens(s)[1..] == Tokens(s[1..]);
      } else if !Space(s[0]) {
        assert |s| > 1 ==> s[1..][1..] == s[2..];
        RenderWordStart(s);
      }
    }
  }

  /** Normalization is a function of the content alone, and keeps apart what differs in content. */
  lemma NormalizeIsRendering(s: Text)
    ensures Normalize(s) == Render(Content(s))
  {
    NormalizeIsCanonical(s);
    NormalizeKeepsContent(s);
    RenderTokens(Normalize(s));
  }

  lemma SameContentSameText(s: Text, t: Text)
    ensures Normalize(s) == Normalize(t) <==> Content(s) == Content(t)
  {
    NormalizeIsRendering(s);
    NormalizeIsRendering(t);
    NormalizeKeepsContent(s);
    NormalizeKeepsContent(t);
  }

  lemma {:induction false} CanonicalLineEndings(s: Text)
    requires NoSeparators(s)
    ensures LineEndings(s) == s
  {
    if s != [] {
      CanonicalLineEndings(s[1..]);
    }
  }

  lemma {:induction false} TokenEdges(s: Text)
    requires Canonical(s)
    ensures Content(s) == Tokens(s)
  {
    CanonicalLineEndings(s);
    if s != [] {
      LastIsWord(s);
    }
  }

  lemma NormalizeIdempotent(s: Text)
    ensures Normalize(Normalize(s)) == Normalize(s)
  {
    var n := Normalize(s);
    NormalizeIsCanonical(s);
    TokenEdges(n);
    NormalizeIsRendering(n);
    RenderTokens(n);
  }

  // ----- word counting

  predicate Gap(c: char) {
    Space(c) || LineSeparator(c)
  }

  /** Maximal runs of characters that are no gap, counted where they begin. */
  function Runs(s: Text): nat {
    if s == [] then 0
    else (if !Gap(s[0]) && (|s| == 1 || Gap(s[1])) then 1 else 0) + Runs(s[1..])
  }

  /** split(/\s+/u).length: one more than the number of maximal whitespace runs. */
  function SpaceRuns(s: Text): nat {
    if s == [] then 0
    else (if Space(s[0]) && (|s| == 1 || !Space(s[1])) then 1 else 0) + SpaceRuns(s[1..])
  }

  function Words(s: Text): nat {
    if s == [] then 0 else SpaceRuns(s) + 1
  }

  lemma {:induction false} RunsAreWords(s: Text)
    ensures Runs(s) == WordCount(Tokens(LineEndings(s)))
    ensures var r := LineEndings(s); (s == [] <==> r == []) && (s != [] ==> Gap(s[0]) == Space(r[0]))
    decreases |s|
  {
    if s != [] {
      RunsAreWords(s[1..]);
      var r := LineEndings(s);
      if s[0] == CR && |s| > 1 && s[1] == NL {
        RunsAreWords(s[2..]);
        assert s[1..][1..] == s[2..];
        assert r[1..] == LineEndings(s[2..]);
        assert Tokens(r)[1..] == Tokens(r[1..]);
      } else {
        var t := LineEndings(s[1..]);
        assert r[1..] == t;
        var ts, rest := Tokens(r), Tokens(t);
        if r[0] == NL || (!Space(r[0]) && !(|r| > 1 && !Space(r[1]))) {
          assert ts[1..] == rest;
        } else if !Space(r[0]) {
          assert ts[1..] == rest[1..];
        }
      }
    }
  }

  lemma {:induction false} DropBreaksKeepWords(ts: seq<Token>)
    ensures WordCount(DropLeadingBreaks(ts)) == WordCount(ts)
    ensures WordCount(DropTrailingBreaks(ts)) == WordCount(ts)
  {
    if ts != [] {
      DropBreaksKeepWords(ts[1..]);
      var front, last := ts[..|ts| - 1], ts[|ts| - 1];
      DropBreaksKeepWords(front);
      WordCountAppend(front, last);
      assert ts == front + [last];
    }
  }

  lemma {:induction false} WordCountAppend(ts: seq<Token>, t: Token)
    ensures WordCount(ts + [t]) == WordCount(ts) + if t.Word? then 1 else 0
  {
    if ts != [] {
      assert (ts + [t])[1..] == ts[1..] + [t];
      WordCountAppend(ts[1..], t);
    }
  }

  lemma {:induction false} SpaceRunsAreWords(s: Text)
    requires s != [] ==> !Space(s[|s| - 1])
    ensures WordCount(Tokens(s)) == if s == [] then 0 else SpaceRuns(s) + if Space(s[0]) then 0 else 1
  {
    if s != [] {
      assert s[1..] == [] || s[1..][|s[1..]| - 1] == s[|s| - 1];
      SpaceRunsAreWords(s[1..]);
      var ts, rest := Tokens(s), Tokens(s[1..]);
      if s[0] == NL || (!Space(s[0]) && !(|s| > 1 && !Space(s[1]))) {
        assert ts[1..] == rest;
      } else if !Space(s[0]) {
        assert ts[1..] == rest[1..];
      }
    }
  }

  /** The stored word count is the number of maximal runs of non-gap characters of what was typed. */
  lemma WordCountIsRunsOfInput(s: Text)
    ensures Words(Normalize(s)) == Runs(s)
  {
    var n := Normalize(s);
    NormalizeIsCanonical(s);
    NormalizeKeepsContent(s);
    SpaceRunsAreWords(n);
    RunsAreWords(s);
    var ts := Tokens(LineEndings(s));
    DropBreaksKeepWords(ts);
    DropBreaksKeepWords(DropLeadingBreaks(ts));
  }

  // ----- measurement

  datatype Violation = TooManyWords | TooManyCharacters | TooManyUtf8Bytes

  datatype Limits = Limits(maxWords: nat, maxCharacters: nat, maxUtf8Bytes: nat)

  const ANSWER_LIMITS := Limits(500, 12_000, 24_000)

  function Utf8Length(s: Text): nat {
    if s == [] then 0
    else
      var code := s[0] as int;
      (if code < 0x80 then 1 else if code < 0x800 then 2 else if code < 0x1_0000 then 3 else 4) + Utf8Length(s[1..])
  }

  datatype Measurement = Measurement(normalized: Text, words: nat, characters: nat, utf8Bytes: nat,
                                     violations: seq<Violation>)

  function Violations(words: nat, characters: nat, utf8Bytes: nat, limits: Limits): seq<Violation> {
    (if words > limits.maxWords then [TooManyWords] else [])
    + (if characters > limits.maxCharacters then [TooManyCharacters] else [])
    + (if utf8Bytes > limits.maxUtf8Bytes then [TooManyUtf8Bytes] else [])
  }

  function Measured(s: Text, limits: Limits): Measurement {
    var n := Normalize(s);
    Measurement(n, Words(n), |n|, Utf8Length(n), Violations(Words(n), |n|, Utf8Length(n), limits))
  }

  method MeasureAiMlAnswer(answer: Text, limits: Limits) returns (m: Measurement)
    ensures m == Measured(answer, limits)
    ensures m.violations == [] <==>
              && m.words <= limits.maxWords
              && m.characters <= limits.maxCharacters
              && m.utf8Bytes <= limits.maxUtf8Bytes
    ensures m.words == Runs(answer)
  {
    WordCountIsRunsOfInput(answer);
    var normalized := Normalize(answer);
    var violations := [];
    if Words(normalized) > limits.maxWords {
      violations := violations + [TooManyWords];
    }
    if |normalized| > limits.maxCharacters {
      violations := violations + [TooManyCharacters];
    }
    if Utf8Length(normalized) > limits.maxUtf8Bytes {
      violations := violations + [TooManyUtf8Bytes];
    }
    m := Measurement(normalized, Words(normalized), |normalized|, Utf8Length(normalized), violations);
  }

  /** An answer is within the limits of the shared constants exactly with at most 500 words, 12,000 characters and
      24,000 bytes, of what is stored; and it is told apart which of these it exceeds. */
  lemma LimitsExactly(answer: Text)
    ensures
      var m := Measured(answer, ANSWER_LIMITS);
      && m.words == Runs(answer) && m.characters == |m.normalized| && m.utf8Bytes == Utf8Length(m.normalized)
      && (m.violations == [] <==> m.words <= 500 && m.characters <= 12_000 && m.utf8Bytes <= 24_000)
      && (TooManyWords in m.violations <==> m.words > 500)
      && (TooManyCharacters in m.violations <==> m.characters > 12_000)
      && (TooManyUtf8Bytes in m.violations <==> m.utf8Bytes > 24_000)
  {
    WordCountIsRunsOfInput(answer);
    hide Normalize, Words, Runs, Utf8Length;
  }

  /** UTF-8 spends 1 to 4 bytes on a code point (section 3 of RFC 3629), and lengths add up. */
  lemma {:induction false} Utf8LengthsAddUp(a: Text, b: Text, c: char)
    ensures Utf8Length(a + b) == Utf8Length(a) + Utf8Length(b) && Utf8Length([]) == 0
    ensures Utf8Length([c]) == if c as int <= 127 then 1 else if c as int <= 2047 then 2
                               else if c as int <= 65535 then 3 else 4
    decreases |a|
  {
    assert [c][1..] == [];
    if a == [] {
      assert a + b == b;
    } else {
      assert (a + b)[1..] == a[1..] + b;
      Utf8LengthsAddUp(a[1..], b, c);
    }
  }

  /** The snapshot schema measures the stored answer again: nothing changes, and nothing becomes too long. */
  lemma StoredAnswerSurvivesSnapshot(answer: Text, limits: Limits)
    ensures Measured(Measured(answer, limits).normalized, limits) == Measured(answer, limits)
  {
    NormalizeIdempotent(answer);
  }

  /** An answer is blank exactly when it has no word and no inner structure. */
  lemma BlankIffNoWords(answer: Text)
    ensures Normalize(answer) == [] <==> Runs(answer) == 0
  {
    WordCountIsRunsOfInput(answer);
  }
}
