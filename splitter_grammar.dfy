/**
 * A token-level description of what Split emits, independent of the character-level
 * loop: skip whitespace; a double quote at a token start opens a quoted region that
 * ends at the first later double quote not preceded by a backslash (or never); any
 * other character starts a bare word that ends at the first whitespace met while no
 * quote toggled inside the word is open. `RunMatchesLex` proves that the loop emits
 * exactly the spans `Lex` describes.
 */
module TokenGrammar {
  import opened Wrappers
  import opened CommandLineStringSplitter

  /** A double quote at k > 0 closes a quoted region unless a backslash precedes it. */
  predicate ClosesQuote(s: string, k: nat)
    requires 0 < k < |s|
  {
    s[k] == '"' && s[k - 1] != '\\'
  }

  /** The first position at or after k whose double quote closes a quoted region, if any. */
  function QuoteClose(s: string, k: nat): (r: Option<nat>)
    requires 0 < k <= |s|
    ensures r.Some? ==> k <= r.value < |s| && ClosesQuote(s, r.value)
    ensures r.Some? ==> forall m :: k <= m < r.value ==> !ClosesQuote(s, m)
    ensures r.None? ==> forall m :: k <= m < |s| ==> !ClosesQuote(s, m)
    decreases |s| - k
  {
    if k == |s| then None
    else if ClosesQuote(s, k) then Some(k)
    else QuoteClose(s, k + 1)
  }

  /**
   * The end of a bare word whose scan has reached k: the first whitespace at or
   * after k seen while the quote toggle is off (inQuote says whether it is on at k),
   * or the end of the input. Each double quote flips the toggle.
   */
  function BareWordEnd(s: string, k: nat, inQuote: bool): (r: nat)
    requires k <= |s|
    ensures k <= r <= |s|
    ensures r < |s| ==> IsWhiteSpace(s[r])
    decreases |s| - k
  {
    if k == |s| then k
    else if IsWhiteSpace(s[k]) && !inQuote then k
    else BareWordEnd(s, k + 1, if s[k] == '"' then !inQuote else inQuote)
  }

  /** The spans of the tokens in s from position i on. */
  function Lex(s: string, i: nat): seq<Span>
    requires i <= |s|
    decreases |s| - i
  {
    if i == |s| then []
    else if IsWhiteSpace(s[i]) then Lex(s, i + 1)
    else if s[i] == '"' then
      match QuoteClose(s, i + 1)
      case None => []
      case Some(j) => [Span(i + 1, j)] + Lex(s, j + 1)
    else
      var j := BareWordEnd(s, i + 1, false);
      if j == |s| then [Span(i, j)] else [Span(i, j)] + Lex(s, j + 1)
  }

  /** Lex at an opening quote that some later quote closes. */
  lemma LexQuoted(s: string, i: nat, j: nat)
    requires i < |s| && s[i] == '"' && QuoteClose(s, i + 1) == Some(j)
    ensures Lex(s, i) == [Span(i + 1, j)] + Lex(s, j + 1)
  {
  }

  /** Lex at a bare word that whitespace ends before the end of the input. */
  lemma LexWord(s: string, i: nat, j: nat)
    requires i < |s| && !IsWhiteSpace(s[i]) && s[i] != '"' && j == BareWordEnd(s, i + 1, false) < |s|
    ensures Lex(s, i) == [Span(i, j)] + Lex(s, j + 1)
  {
  }

  /** The loop is waiting for a token outside any quoted region. */
  predicate AtTokenStart(st: Scan) {
    st.seeking == TokenStart && st.seekingQuote == QuoteStart
  }

  /** Running the loop over i..k is running it over i..j and then over j..k. */
  lemma {:induction false} RunSplit(s: string, i: nat, j: nat, k: nat, st: Scan)
    requires i <= j <= k <= |s|
    ensures Run(s, i, k, st) == Run(s, j, k, Run(s, i, j, st))
    decreases j - i
  {
    if i < j {
      RunSplit(s, i + 1, j, k, Step(s, i, st));
    }
  }

  /** Inside a quoted region opened at a token start, nothing changes until a closing quote. */
  lemma {:induction false} InsideQuotes(s: string, m: nat, upto: nat, st: Scan)
    requires 0 < m <= upto <= |s|
    requires st.seeking == TokenStart && st.seekingQuote == QuoteEnd
    requires forall k :: m <= k < upto ==> !ClosesQuote(s, k)
    ensures Run(s, m, upto, st) == st
    decreases upto - m
  {
    if m < upto {
      assert !ClosesQuote(s, m);
      assert Step(s, m, st) == st;
      InsideQuotes(s, m + 1, upto, st);
    }
  }

  /**
   * Inside a bare word the loop only flips the quote toggle until the word's end;
   * at a word end before the end of the input the toggle is off.
   */
  lemma {:induction false} InsideWord(s: string, m: nat, st: Scan, inQuote: bool)
    requires m <= |s|
    requires st.seeking == WordEnd && st.seekingQuote == (if inQuote then QuoteEnd else QuoteStart)
    ensures var j := BareWordEnd(s, m, inQuote);
            var r := Run(s, m, j, st);
            r.start == st.start && r.seeking == WordEnd && r.spans == st.spans
            && (j < |s| ==> r.seekingQuote == QuoteStart)
    decreases |s| - m
  {
    if m < |s| && !(IsWhiteSpace(s[m]) && !inQuote) {
      var inQuote' := if s[m] == '"' then !inQuote else inQuote;
      var st' := st.(seekingQuote := if inQuote' then QuoteEnd else QuoteStart);
      assert Step(s, m, st) == st';
      InsideWord(s, m + 1, st', inQuote');
    }
  }

  /** From any token start, the loop followed by the end-of-input check emits Lex's spans. */
  lemma {:induction false} RunMatchesLex(s: string, i: nat, st: Scan)
    requires i <= |s| && AtTokenStart(st)
    ensures Finish(s, Run(s, i, |s|, st)) == st.spans + Lex(s, i)
    decreases |s| - i, 1
  {
    if i == |s| {
    } else if IsWhiteSpace(s[i]) {
      RunMatchesLex(s, i + 1, Step(s, i, st));
    } else if s[i] == '"' {
      QuotedMatchesLex(s, i, st);
    } else {
      WordMatchesLex(s, i, st);
    }
  }

  /** Opening a quoted region at i: nothing changes until the first closing quote at j. */
  lemma QuoteOpened(s: string, i: nat, j: nat, st: Scan)
    requires i < j < |s| && AtTokenStart(st) && s[i] == '"'
    requires forall k :: i + 1 <= k < j ==> !ClosesQuote(s, k)
    ensures Run(s, i, j + 1, st) == Run(s, j, j + 1, st.(start := i + 1, seekingQuote := QuoteEnd))
  {
    var open := st.(start := i + 1, seekingQuote := QuoteEnd);
    assert Step(s, i, st) == open;
    RunUnfold(s, i, j + 1, st);
    RunSplit(s, i + 1, j, j + 1, open);
    InsideQuotes(s, i + 1, j, open);
  }

  /** The closing quote at j emits the quoted text and waits for a token again. */
  lemma QuoteClosed(s: string, j: nat, open: Scan)
    requires 0 < j < |s| && open.seeking == TokenStart && open.seekingQuote == QuoteEnd
    requires ClosesQuote(s, j)
    ensures Run(s, j, j + 1, open) == Scan(j, TokenStart, QuoteStart, open.spans + [Span(open.start, j)])
  {
    RunUnfold(s, j, j + 1, open);
    RunEmpty(s, j + 1, Step(s, j, open));
  }

  /** A quoted region opened at i and closed at j: one token, the text strictly between. */
  lemma QuotedRegion(s: string, i: nat, j: nat, st: Scan)
    requires i < j < |s| && AtTokenStart(st) && s[i] == '"'
    requires ClosesQuote(s, j) && forall k :: i + 1 <= k < j ==> !ClosesQuote(s, k)
    ensures Run(s, i, j + 1, st) == Scan(j, TokenStart, QuoteStart, st.spans + [Span(i + 1, j)])
  {
    QuoteOpened(s, i, j, st);
    QuoteClosed(s, j, st.(start := i + 1, seekingQuote := QuoteEnd));
  }

  /** A quoted region opened at i that never closes: the loop stays waiting for the quote. */
  lemma UnclosedRegion(s: string, i: nat, st: Scan)
    requires i < |s| && AtTokenStart(st) && s[i] == '"'
    requires forall k :: i + 1 <= k < |s| ==> !ClosesQuote(s, k)
    ensures Run(s, i, |s|, st) == st.(start := i + 1, seekingQuote := QuoteEnd)
  {
    var open := st.(start := i + 1, seekingQuote := QuoteEnd);
    assert Step(s, i, st) == open;
    RunUnfold(s, i, |s|, st);
    InsideQuotes(s, i + 1, |s|, open);
  }

  /** A bare word starting at i: up to its end the loop only tracks the word. */
  lemma BareWord(s: string, i: nat, st: Scan)
    requires i < |s| && AtTokenStart(st)
    requires !IsWhiteSpace(s[i]) && s[i] != '"'
    ensures var j := BareWordEnd(s, i + 1, false);
            var r := Run(s, i, j, st);
            r.start == i && r.seeking == WordEnd && r.spans == st.spans
            && (j < |s| ==> r.seekingQuote == QuoteStart)
  {
    var w := st.(seeking := WordEnd, start := i);
    assert Step(s, i, st) == w;
    InsideWord(s, i + 1, w, false);
    RunUnfold(s, i, BareWordEnd(s, i + 1, false), st);
  }

  /** A bare word that whitespace ends at j: the loop emits it at j and waits for a token. */
  lemma WordEnded(s: string, i: nat, st: Scan)
    requires i < |s| && AtTokenStart(st)
    requires !IsWhiteSpace(s[i]) && s[i] != '"'
    requires BareWordEnd(s, i + 1, false) < |s|
    ensures var j := BareWordEnd(s, i + 1, false);
            Run(s, i, j + 1, st) == Scan(j, TokenStart, QuoteStart, st.spans + [Span(i, j)])
  {
    var j := BareWordEnd(s, i + 1, false);
    BareWord(s, i, st);
    var r := Run(s, i, j, st);
    assert Step(s, j, r) == Scan(j, TokenStart, QuoteStart, st.spans + [Span(i, j)]);
    RunSplit(s, i, j, j + 1, st);
    RunUnfold(s, j, j + 1, r);
    RunEmpty(s, j + 1, Step(s, j, r));
  }

  /** A bare word that reaches the end of the input: the end-of-input check emits it. */
  lemma WordAtEnd(s: string, i: nat, st: Scan)
    requires i < |s| && AtTokenStart(st)
    requires !IsWhiteSpace(s[i]) && s[i] != '"'
    requires BareWordEnd(s, i + 1, false) == |s|
    ensures Finish(s, Run(s, i, |s|, st)) == st.spans + [Span(i, |s|)]
  {
    BareWord(s, i, st);
  }

  /** A quoted region closed at j: the run is the emission of the region, then the run after it. */
  lemma QuoteThenRest(s: string, i: nat, j: nat, st: Scan)
    requires i < j < |s| && AtTokenStart(st) && s[i] == '"'
    requires ClosesQuote(s, j) && forall k :: i + 1 <= k < j ==> !ClosesQuote(s, k)
    ensures Run(s, i, |s|, st) == Run(s, j + 1, |s|, Scan(j, TokenStart, QuoteStart, st.spans + [Span(i + 1, j)]))
  {
    RunSplit(s, i, j + 1, |s|, st);
    QuotedRegion(s, i, j, st);
  }

  /** Lex at an opening quote that no later quote closes. */
  lemma LexUnclosed(s: string, i: nat)
    requires i < |s| && s[i] == '"' && QuoteClose(s, i + 1).None?
    ensures Lex(s, i) == []
  {
  }

  /** The case of RunMatchesLex where a double quote opens a quoted region. */
  lemma {:induction false} QuotedMatchesLex(s: string, i: nat, st: Scan)
    requires i < |s| && AtTokenStart(st)
    requires s[i] == '"'
    ensures Finish(s, Run(s, i, |s|, st)) == st.spans + Lex(s, i)
    decreases |s| - i, 0
  {
    match QuoteClose(s, i + 1)
    case None =>
      UnclosedRegion(s, i, st);
      LexUnclosed(s, i);
    case Some(j) =>
      var closed := Scan(j, TokenStart, QuoteStart, st.spans + [Span(i + 1, j)]);
      QuoteThenRest(s, i, j, st);
      RunMatchesLex(s, j + 1, closed);
      LexQuoted(s, i, j);
      Emitted(Finish(s, Run(s, i, |s|, st)), st.spans, Span(i + 1, j), Lex(s, j + 1), Lex(s, i));
  }

  /** A bare word that whitespace ends: the run is the emission of the word, then the run after it. */
  lemma WordThenRest(s: string, i: nat, st: Scan)
    requires i < |s| && AtTokenStart(st)
    requires !IsWhiteSpace(s[i]) && s[i] != '"'
    requires BareWordEnd(s, i + 1, false) < |s|
    ensures var j := BareWordEnd(s, i + 1, false);
            Run(s, i, |s|, st) == Run(s, j + 1, |s|, Scan(j, TokenStart, QuoteStart, st.spans + [Span(i, j)]))
  {
    RunSplit(s, i, BareWordEnd(s, i + 1, false) + 1, |s|, st);
    WordEnded(s, i, st);
  }

  /** Lex at a bare word that reaches the end of the input. */
  lemma LexWordAtEnd(s: string, i: nat)
    requires i < |s| && !IsWhiteSpace(s[i]) && s[i] != '"' && BareWordEnd(s, i + 1, false) == |s|
    ensures Lex(s, i) == [Span(i, |s|)]
  {
  }

  /**
   * Emitting one token and then the rest is emitting the token followed by the rest
   * (a solver aid that keeps the last step of the case lemmas small).
   */
  lemma Emitted(emitted: seq<Span>, before: seq<Span>, sp: Span, rest: seq<Span>, lexed: seq<Span>)
    requires emitted == (before + [sp]) + rest && lexed == [sp] + rest
    ensures emitted == before + lexed
  {
  }

  /** The case of RunMatchesLex where any other character starts a bare word. */
  lemma {:induction false} WordMatchesLex(s: string, i: nat, st: Scan)
    requires i < |s| && AtTokenStart(st)
    requires !IsWhiteSpace(s[i]) && s[i] != '"'
    ensures Finish(s, Run(s, i, |s|, st)) == st.spans + Lex(s, i)
    decreases |s| - i, 0
  {
    var j := BareWordEnd(s, i + 1, false);
    if j < |s| {
      var ended := Scan(j, TokenStart, QuoteStart, st.spans + [Span(i, j)]);
      WordThenRest(s, i, st);
      RunMatchesLex(s, j + 1, ended);
      LexWord(s, i, j);
      Emitted(Finish(s, Run(s, i, |s|, st)), st.spans, Span(i, j), Lex(s, j + 1), Lex(s, i));
    } else {
      WordAtEnd(s, i, st);
      LexWordAtEnd(s, i);
    }
  }

  /** Split emits exactly the spans Lex describes for the whole input. */
  lemma SpansAreLex(s: string)
    ensures TokenSpans(s) == Lex(s, 0)
  {
    RunMatchesLex(s, 0, Initial);
  }
}
