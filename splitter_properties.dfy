/**
 * Properties of Split stated on its specification: what Unescape does, the shape
 * and order of the emitted spans, whitespace-only input, trailing whitespace and
 * input without double quotes.
 */
module SplitterProperties {
  import opened Wrappers
  import opened CommandLineStringSplitter
  import opened TokenGrammar

  // ----- Unescape -----

  /** t holds a backslash immediately followed by a double quote. */
  predicate HasEscapedQuote(t: string) {
    exists k :: 0 <= k < |t| - 1 && t[k] == '\\' && t[k + 1] == '"'
  }

  /** t with every backslash that immediately precedes a double quote deleted. */
  function DropEscapes(t: string): string
    decreases |t|
  {
    if t == [] then []
    else (if |t| > 1 && t[0] == '\\' && t[1] == '"' then [] else [t[0]]) + DropEscapes(t[1..])
  }

  /** Replacing each `\"` by `"` is deleting each backslash that precedes a double quote. */
  lemma {:induction false} UnescapeDropsEscapes(t: string)
    ensures Unescape(t) == DropEscapes(t)
    decreases |t|
  {
    if |t| == 1 {
      assert DropEscapes(t) == [t[0]] + DropEscapes(t[1..]);
    } else if |t| >= 2 {
      if t[0] == '\\' && t[1] == '"' {
        UnescapeDropsEscapes(t[2..]);
        assert t[1..][1..] == t[2..];
        calc {
          DropEscapes(t);
          DropEscapes(t[1..]);
          ['"'] + DropEscapes(t[1..][1..]);
          Unescape(t);
        }
      } else {
        UnescapeDropsEscapes(t[1..]);
      }
    }
  }

  /** Unescape leaves its argument unchanged exactly when the argument holds no `\"`. */
  lemma {:induction false} UnescapeUnchanged(t: string)
    ensures Unescape(t) == t <==> !HasEscapedQuote(t)
    decreases |t|
  {
    if |t| >= 2 {
      if t[0] == '\\' && t[1] == '"' {
        assert |Unescape(t)| < |t|;
      } else {
        UnescapeUnchanged(t[1..]);
        if HasEscapedQuote(t[1..]) {
          var k :| 0 <= k < |t[1..]| - 1 && t[1..][k] == '\\' && t[1..][k + 1] == '"';
          assert t[k + 1] == '\\' && t[k + 2] == '"';
        }
        if HasEscapedQuote(t) {
          var k :| 0 <= k < |t| - 1 && t[k] == '\\' && t[k + 1] == '"';
          assert t[1..][k - 1] == '\\' && t[1..][k] == '"';
        }
        assert Unescape(t) == [t[0]] + Unescape(t[1..]);
        assert t == [t[0]] + t[1..];
      }
    } else if |t| == 1 {
      assert !HasEscapedQuote(t);
    }
  }

  /** Only the empty string unescapes to the empty string. */
  lemma UnescapeEmpty(t: string)
    ensures Unescape(t) == [] <==> t == []
  {
    if |t| >= 2 {
      assert |Unescape(t)| >= 1;
    }
  }

  /** A string without double quotes unescapes to itself. */
  lemma UnescapeQuoteFree(t: string)
    requires forall k :: 0 <= k < |t| ==> t[k] != '"'
    ensures Unescape(t) == t
  {
    UnescapeUnchanged(t);
  }

  // ----- Shape and order of the spans -----

  /**
   * A quoted token: the text strictly between an opening double quote and the
   * first later double quote not preceded by a backslash.
   */
  predicate QuotedSpan(s: string, sp: Span) {
    0 < sp.lo <= sp.hi < |s| && s[sp.lo - 1] == '"' && ClosesQuote(s, sp.hi)
    && forall m :: sp.lo <= m < sp.hi ==> !ClosesQuote(s, m)
  }

  /**
   * A bare word: it is not empty, starts at a character that is neither whitespace
   * nor a double quote and ends at whitespace or at the end of the input.
   */
  predicate WordSpan(s: string, sp: Span) {
    sp.lo < sp.hi <= |s| && !IsWhiteSpace(s[sp.lo]) && s[sp.lo] != '"'
    && (sp.hi < |s| ==> IsWhiteSpace(s[sp.hi]))
  }

  /**
   * Every span of r starts at or after i, is quoted or a bare word, and ends
   * strictly before the next span begins.
   */
  predicate WellShaped(s: string, r: seq<Span>, i: nat) {
    (forall k :: 0 <= k < |r| ==> i <= r[k].lo && (QuotedSpan(s, r[k]) || WordSpan(s, r[k])))
    && (forall k :: 0 <= k < |r| - 1 ==> r[k].hi < r[k + 1].lo)
  }

  /** A well-shaped span in front of well-shaped spans that start after it. */
  lemma ShapedCons(s: string, sp: Span, t: seq<Span>, i: nat, j: nat)
    requires i <= sp.lo && sp.hi < j && (QuotedSpan(s, sp) || WordSpan(s, sp))
    requires WellShaped(s, t, j)
    ensures WellShaped(s, [sp] + t, i)
  {
    assert forall k :: 0 < k < |t| + 1 ==> ([sp] + t)[k] == t[k - 1];
  }

  /** Every span Lex gives is quoted or a bare word, and each ends before the next begins. */
  lemma {:induction false} LexShape(s: string, i: nat)
    requires i <= |s|
    ensures WellShaped(s, Lex(s, i), i)
    decreases |s| - i, 1
  {
    if i == |s| {
    } else if IsWhiteSpace(s[i]) {
      LexShape(s, i + 1);
    } else if s[i] == '"' {
      QuotedShape(s, i);
    } else {
      WordShape(s, i);
    }
  }

  /** The case of LexShape at an opening double quote. */
  lemma {:induction false} QuotedShape(s: string, i: nat)
    requires i < |s| && s[i] == '"'
    ensures WellShaped(s, Lex(s, i), i)
    decreases |s| - i, 0
  {
    match QuoteClose(s, i + 1)
    case None =>
      LexUnclosed(s, i);
    case Some(j) =>
      LexShape(s, j + 1);
      ShapedCons(s, Span(i + 1, j), Lex(s, j + 1), i, j + 1);
      LexQuoted(s, i, j);
  }

  /** The span from a bare word's first character to its end is a bare word. */
  lemma BareWordSpan(s: string, i: nat)
    requires i < |s| && !IsWhiteSpace(s[i]) && s[i] != '"'
    ensures WordSpan(s, Span(i, BareWordEnd(s, i + 1, false)))
  {
  }

  /** A single bare word is well shaped. */
  lemma ShapedWord(s: string, sp: Span, i: nat)
    requires i <= sp.lo && WordSpan(s, sp)
    ensures WellShaped(s, [sp], i)
  {
  }

  /** The case of LexShape at the start of a bare word. */
  lemma {:induction false} WordShape(s: string, i: nat)
    requires i < |s| && !IsWhiteSpace(s[i]) && s[i] != '"'
    ensures WellShaped(s, Lex(s, i), i)
    decreases |s| - i, 0
  {
    var j := BareWordEnd(s, i + 1, false);
    BareWordSpan(s, i);
    if j < |s| {
      LexShape(s, j + 1);
      ShapedCons(s, Span(i, j), Lex(s, j + 1), i, j + 1);
      LexWord(s, i, j);
    } else {
      ShapedWord(s, Span(i, j), i);
      LexWordAtEnd(s, i);
    }
  }

  /**
   * The tokens of Split come from slices in input order that do not overlap: each
   * token's slice ends strictly before the next token's slice begins.
   */
  lemma SpansOrdered(s: string)
    ensures WellShaped(s, TokenSpans(s), 0)
  {
    SpansAreLex(s);
    LexShape(s, 0);
  }

  /** A bare word is never empty; an empty token comes only from a pair of adjacent quotes `""`. */
  lemma EmptyTokenIsQuotePair(s: string, k: nat)
    requires k < |Tokens(s)| && Tokens(s)[k] == []
    ensures var sp := TokenSpans(s)[k];
            0 < sp.lo == sp.hi < |s| && s[sp.lo - 1] == '"' && s[sp.hi] == '"'
  {
    SpansOrdered(s);
    var sp := TokenSpans(s)[k];
    UnescapeEmpty(s[sp.lo..sp.hi]);
  }

  // ----- Whitespace-only input -----

  /** From i on, s is all whitespace. */
  predicate BlankFrom(s: string, i: nat) {
    forall k :: i <= k < |s| ==> IsWhiteSpace(s[k])
  }

  /** Lex gives no span over whitespace only. */
  lemma {:induction false} LexBlank(s: string, i: nat)
    requires i <= |s| && BlankFrom(s, i)
    ensures Lex(s, i) == []
    decreases |s| - i
  {
    if i < |s| {
      LexBlank(s, i + 1);
    }
  }

  /** Empty and whitespace-only input yields no token. */
  lemma BlankInputHasNoTokens(s: string)
    requires BlankFrom(s, 0)
    ensures Tokens(s) == []
  {
    SpansAreLex(s);
    LexBlank(s, 0);
  }

  // ----- Trailing whitespace -----

  /** Step reads only the current and the previous character. */
  lemma {:induction false} RunPrefix(s: string, t: string, from: nat, upto: nat, st: Scan)
    requires from <= upto <= |s|
    ensures Run(s + t, from, upto, st) == Run(s, from, upto, st)
    decreases upto - from
  {
    if from < upto {
      assert (s + t)[from] == s[from];
      assert from > 0 ==> (s + t)[from - 1] == s[from - 1];
      assert Step(s + t, from, st) == Step(s, from, st);
      RunPrefix(s, t, from + 1, upto, Step(s, from, st));
    }
  }

  /** Over whitespace, the loop waiting for a token start stays there and emits nothing. */
  lemma {:induction false} RunBlankIdle(u: string, from: nat, st: Scan)
    requires from <= |u| && BlankFrom(u, from)
    requires st.seeking == TokenStart
    ensures Run(u, from, |u|, st).seeking == TokenStart && Run(u, from, |u|, st).spans == st.spans
    decreases |u| - from
  {
    if from < |u| {
      RunBlankIdle(u, from + 1, Step(u, from, st));
    }
  }

  /** Over whitespace, the loop inside an open quote changes nothing. */
  lemma {:induction false} RunBlankQuoted(u: string, from: nat, st: Scan)
    requires from <= |u| && BlankFrom(u, from)
    requires st.seekingQuote == QuoteEnd
    ensures Run(u, from, |u|, st) == st
    decreases |u| - from
  {
    if from < |u| {
      assert Step(u, from, st) == st;
      RunBlankQuoted(u, from + 1, st);
    }
  }

  /** Tokens of spans inside s do not depend on what follows s. */
  lemma TokensOfPrefix(s: string, t: string, spans: seq<Span>)
    requires InRange(spans, |s|)
    ensures InRange(spans, |s + t|) && TokensOf(s + t, spans) == TokensOf(s, spans)
  {
    assert InRange(spans, |s + t|);
    forall k | 0 <= k < |spans|
      ensures Token(s + t, spans[k]) == Token(s, spans[k])
    {
      assert (s + t)[spans[k].lo..spans[k].hi] == s[spans[k].lo..spans[k].hi];
    }
  }

  /** The loop ends s inside a bare word whose quote toggle is on. */
  predicate EndsInOpenQuotedWord(s: string) {
    var f := Run(s, 0, |s|, Initial);
    f.seeking == WordEnd && f.seekingQuote == QuoteEnd
  }

  /**
   * Trailing whitespace adds no token and changes none, unless s ends inside a bare
   * word whose quote toggle is on.
   */
  lemma TrailingWhitespace(s: string, w: string)
    requires BlankFrom(w, 0) && !EndsInOpenQuotedWord(s)
    ensures Tokens(s + w) == Tokens(s)
  {
    var u := s + w;
    var f := Run(s, 0, |s|, Initial);
    RunSplit(u, 0, |s|, |u|, Initial);
    RunPrefix(s, w, 0, |s|, Initial);
    assert BlankFrom(u, |s|) by {
      forall k | |s| <= k < |u| ensures IsWhiteSpace(u[k]) {
        assert u[k] == w[k - |s|];
      }
    }
    var g := Run(u, |s|, |u|, f);
    assert Finish(u, g) == Finish(s, f) by {
      if |w| > 0 {
        if f.seekingQuote == QuoteEnd {
          RunBlankQuoted(u, |s|, f);
        } else {
          RunUnfold(u, |s|, |u|, f);
          RunBlankIdle(u, |s| + 1, Step(u, |s|, f));
        }
      }
    }
    TokensOfPrefix(s, w, TokenSpans(s));
  }

  /**
   * Inside a bare word whose quote toggle is on, trailing whitespace belongs to the
   * last token: the final span reaches the end of the padded input.
   */
  lemma TrailingWhitespaceInOpenQuotedWord(s: string, w: string)
    requires BlankFrom(w, 0) && EndsInOpenQuotedWord(s)
    ensures var f := Run(s, 0, |s|, Initial);
            TokenSpans(s + w) == f.spans + [Span(f.start, |s + w|)]
  {
    var u := s + w;
    var f := Run(s, 0, |s|, Initial);
    RunSplit(u, 0, |s|, |u|, Initial);
    RunPrefix(s, w, 0, |s|, Initial);
    assert BlankFrom(u, |s|) by {
      forall k | |s| <= k < |u| ensures IsWhiteSpace(u[k]) {
        assert u[k] == w[k - |s|];
      }
    }
    RunBlankQuoted(u, |s|, f);
  }

  // ----- Input without double quotes -----

  /** The first whitespace at or after k, or the end of s. */
  function NextSpace(s: string, k: nat): (r: nat)
    requires k <= |s|
    ensures k <= r <= |s|
    ensures forall m :: k <= m < r ==> !IsWhiteSpace(s[m])
    ensures r < |s| ==> IsWhiteSpace(s[r])
    decreases |s| - k
  {
    if k == |s| || IsWhiteSpace(s[k]) then k else NextSpace(s, k + 1)
  }

  /** The maximal runs of non-whitespace characters of s from i on, in order. */
  function Words(s: string, i: nat): seq<string>
    requires i <= |s|
    decreases |s| - i
  {
    if i == |s| then []
    else if IsWhiteSpace(s[i]) then Words(s, i + 1)
    else
      var j := NextSpace(s, i + 1);
      [s[i..j]] + Words(s, j)
  }

  /** Every word is non-empty and holds no whitespace. */
  lemma {:induction false} WordsAreWords(s: string, i: nat)
    requires i <= |s|
    ensures forall k :: 0 <= k < |Words(s, i)| ==>
              |Words(s, i)[k]| > 0 && forall m :: 0 <= m < |Words(s, i)[k]| ==> !IsWhiteSpace(Words(s, i)[k][m])
    decreases |s| - i
  {
    if i < |s| {
      if IsWhiteSpace(s[i]) {
        WordsAreWords(s, i + 1);
      } else {
        var j := NextSpace(s, i + 1);
        WordsAreWords(s, j);
        var r := Words(s, j);
        assert Words(s, i) == [s[i..j]] + r;
        assert forall k :: 0 < k < |r| + 1 ==> ([s[i..j]] + r)[k] == r[k - 1];
      }
    }
  }

  /** s holds no double quote. */
  predicate QuoteFree(s: string) {
    forall k :: 0 <= k < |s| ==> s[k] != '"'
  }

  /** Without double quotes a bare word ends at the first whitespace. */
  lemma {:induction false} BareWordEndQuoteFree(s: string, k: nat)
    requires k <= |s| && QuoteFree(s)
    ensures BareWordEnd(s, k, false) == NextSpace(s, k)
    decreases |s| - k
  {
    if k < |s| && !IsWhiteSpace(s[k]) {
      BareWordEndQuoteFree(s, k + 1);
    }
  }

  /** The tokens of a span list followed by another are the tokens of each, in order. */
  lemma TokensOfAppend(s: string, a: seq<Span>, b: seq<Span>)
    requires InRange(a, |s|) && InRange(b, |s|)
    ensures InRange(a + b, |s|) && TokensOf(s, a + b) == TokensOf(s, a) + TokensOf(s, b)
  {
    assert InRange(a + b, |s|) by {
      forall k | 0 <= k < |a + b| ensures (a + b)[k].lo <= (a + b)[k].hi <= |s| {
        if k >= |a| { assert (a + b)[k] == b[k - |a|]; }
      }
    }
    var l := TokensOf(s, a + b);
    var rr := TokensOf(s, a) + TokensOf(s, b);
    forall k | 0 <= k < |l| ensures l[k] == rr[k] {
      if k >= |a| { assert (a + b)[k] == b[k - |a|]; }
    }
  }

  /** The tokens of a span in front of other spans: its token in front of theirs. */
  lemma TokensOfCons(s: string, sp: Span, rest: seq<Span>, word: string, words: seq<string>)
    requires sp.lo <= sp.hi <= |s| && InRange(rest, |s|)
    requires Token(s, sp) == word && TokensOf(s, rest) == words
    ensures InRange([sp] + rest, |s|) && TokensOf(s, [sp] + rest) == [word] + words
  {
    TokensOfAppend(s, [sp], rest);
    assert TokensOf(s, [sp])[0] == word;
  }

  /** Every span Lex gives lies inside the input. */
  lemma LexInRange(s: string, i: nat)
    requires i <= |s|
    ensures InRange(Lex(s, i), |s|)
  {
    LexShape(s, i);
  }

  /** Without double quotes, a bare word at i ends where its word ends and is its own token. */
  lemma QuoteFreeWord(s: string, i: nat)
    requires i < |s| && QuoteFree(s)
    ensures var j := BareWordEnd(s, i + 1, false);
            j == NextSpace(s, i + 1) && Token(s, Span(i, j)) == s[i..j]
  {
    BareWordEndQuoteFree(s, i + 1);
    UnescapeQuoteFree(s[i..BareWordEnd(s, i + 1, false)]);
  }

  /** Without double quotes, Lex from i gives the words of the rest of the input. */
  lemma {:induction false} LexQuoteFree(s: string, i: nat)
    requires i <= |s| && QuoteFree(s)
    ensures InRange(Lex(s, i), |s|) && TokensOf(s, Lex(s, i)) == Words(s, i)
    decreases |s| - i, 1
  {
    if i == |s| {
    } else if IsWhiteSpace(s[i]) {
      LexQuoteFree(s, i + 1);
    } else {
      QuoteFreeWordThenRest(s, i);
    }
    LexInRange(s, i);
  }

  /** The case of LexQuoteFree at the start of a word. */
  lemma {:induction false} QuoteFreeWordThenRest(s: string, i: nat)
    requires i < |s| && QuoteFree(s) && !IsWhiteSpace(s[i])
    ensures InRange(Lex(s, i), |s|) && TokensOf(s, Lex(s, i)) == Words(s, i)
    decreases |s| - i, 0
  {
    var j := BareWordEnd(s, i + 1, false);
    QuoteFreeWord(s, i);
    if j == |s| {
      QuoteFreeLastWord(s, i, j);
    } else {
      LexQuoteFree(s, j + 1);
      LexWordTokens(s, i, j, s[i..j], Words(s, j + 1));
      WordThenWords(s, i, j);
    }
  }

  /** A word that whitespace ends at j is followed by the words after j. */
  lemma WordThenWords(s: string, i: nat, j: nat)
    requires i < |s| && !IsWhiteSpace(s[i]) && j == NextSpace(s, i + 1) < |s|
    ensures Words(s, i) == [s[i..j]] + Words(s, j + 1)
  {
  }

  /** Without double quotes, a word that reaches the end of the input is the last token. */
  lemma QuoteFreeLastWord(s: string, i: nat, j: nat)
    requires i < |s| && QuoteFree(s) && !IsWhiteSpace(s[i]) && j == BareWordEnd(s, i + 1, false) == |s|
    requires j == NextSpace(s, i + 1) && Token(s, Span(i, j)) == s[i..j]
    ensures InRange(Lex(s, i), |s|) && TokensOf(s, Lex(s, i)) == Words(s, i)
  {
    TokensOfCons(s, Span(i, j), [], s[i..j], []);
    LexWordAtEnd(s, i);
  }

  /** The tokens of Lex at a bare word that whitespace ends: the word's token, then those after it. */
  lemma LexWordTokens(s: string, i: nat, j: nat, word: string, words: seq<string>)
    requires i < |s| && !IsWhiteSpace(s[i]) && s[i] != '"' && j == BareWordEnd(s, i + 1, false) < |s|
    requires InRange(Lex(s, j + 1), |s|) && TokensOf(s, Lex(s, j + 1)) == words && Token(s, Span(i, j)) == word
    ensures InRange(Lex(s, i), |s|) && TokensOf(s, Lex(s, i)) == [word] + words
  {
    TokensOfCons(s, Span(i, j), Lex(s, j + 1), word, words);
    LexWord(s, i, j);
  }

  /**
   * For input without double quotes, Split yields exactly the maximal runs of
   * non-whitespace characters, in order, with backslashes kept verbatim.
   */
  lemma QuoteFreeTokensAreWords(s: string)
    requires QuoteFree(s)
    ensures Tokens(s) == Words(s, 0)
  {
    SpansAreLex(s);
    LexQuoteFree(s, 0);
  }

  // ----- A dangling quote -----

  /**
   * A double quote at the end of a bare word only flips the word's quote toggle;
   * the end-of-input check then emits the whole word, quote included.
   */
  lemma DanglingQuoteKept()
    ensures Tokens("foo\"") == ["foo\""]
  {
    var s := "foo\"";
    SpansAreLex(s);
    assert BareWordEnd(s, 1, false) == 4;
    assert Lex(s, 0) == [Span(0, 4)];
    assert s[0..4] == s;
    assert !HasEscapedQuote(s);
    UnescapeUnchanged(s);
    assert Tokens(s) == TokensOf(s, [Span(0, 4)]);
  }
}
