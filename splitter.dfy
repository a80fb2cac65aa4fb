/**
 * Model of CommandLineStringSplitter.Split: the hand-written lexer that turns one
 * command-line string into a sequence of tokens.
 *
 * The loop of the source is the method `Split`. It is proved against a functional
 * statement of the same machine: `Step` is one iteration of the loop, `Run` folds it
 * over a range of positions and `Finish` is the end-of-input emission. The functional
 * machine records where each token lies in the input (a `Span`); the tokens are the
 * unescaped slices of those spans (`TokensOf`).
 */
module CommandLineStringSplitter {

  /** What the scan expects next outside quotation marks (the source's `seeking`). */
  datatype Seeking = TokenStart | WordEnd

  /** What the scan expects next about quotation marks (the source's `seekingQuote`). */
  datatype SeekingQuote = QuoteStart | QuoteEnd

  /** The position of one token in the input: the half-open slice [lo, hi). */
  datatype Span = Span(lo: nat, hi: nat)

  /** The locals of the loop between two iterations, with the tokens emitted so far as spans. */
  datatype Scan = Scan(start: nat, seeking: Seeking, seekingQuote: SeekingQuote, spans: seq<Span>)

  /** The locals before the first iteration. */
  const Initial: Scan := Scan(0, TokenStart, QuoteStart, [])

  /**
   * .NET's char.IsWhiteSpace: the space separators, the line and paragraph
   * separators, U+0009 to U+000D and U+0085.
   */
  predicate IsWhiteSpace(c: char) {
    ('\t' <= c <= '\r') || c == ' ' || c == '\U{0085}' || c == '\U{00A0}' || c == '\U{1680}'
    || ('\U{2000}' <= c <= '\U{200A}') || c == '\U{2028}' || c == '\U{2029}'
    || c == '\U{202F}' || c == '\U{205F}' || c == '\U{3000}'
  }

  /**
   * `currentToken.Replace("\\\"", "\"")`: every backslash immediately followed by a
   * double quote, taken left to right without overlap, is replaced by the quote alone.
   */
  function Unescape(t: string): (r: string)
    ensures |r| <= |t|
  {
    if |t| < 2 then t
    else if t[0] == '\\' && t[1] == '"' then ['"'] + Unescape(t[2..])
    else [t[0]] + Unescape(t[1..])
  }

  /** Every span lies inside the first n characters. */
  predicate InRange(spans: seq<Span>, n: nat) {
    forall k :: 0 <= k < |spans| ==> spans[k].lo <= spans[k].hi <= n
  }

  /** The source's CurrentToken: the slice of the span, unescaped. */
  function Token(s: string, sp: Span): string
    requires sp.lo <= sp.hi <= |s|
  {
    Unescape(s[sp.lo..sp.hi])
  }

  /** The tokens that a sequence of spans denotes, in the same order. */
  function TokensOf(s: string, spans: seq<Span>): (r: seq<string>)
    requires InRange(spans, |s|)
    ensures |r| == |spans|
    ensures forall k :: 0 <= k < |spans| ==> r[k] == Token(s, spans[k])
  {
    if spans == [] then [] else TokensOf(s, spans[..|spans| - 1]) + [Token(s, spans[|spans| - 1])]
  }

  /** Appending a span appends its token. */
  lemma TokensOfSnoc(s: string, spans: seq<Span>, sp: Span)
    requires InRange(spans, |s|) && sp.lo <= sp.hi <= |s|
    ensures InRange(spans + [sp], |s|)
    ensures TokensOf(s, spans + [sp]) == TokensOf(s, spans) + [Token(s, sp)]
  {
    assert (spans + [sp])[..|spans|] == spans;
  }

  /**
   * One iteration of the loop at position pos, before `Advance`: the branches on
   * whitespace, on a double quote and on any other character. A step emits at most
   * the span from the token start to pos, and moves the token start to pos or
   * pos + 1 or leaves it.
   */
  function Step(s: string, pos: nat, st: Scan): (r: Scan)
    requires pos < |s|
    ensures r.start == st.start || pos <= r.start <= pos + 1
    ensures r.spans == st.spans || r.spans == st.spans + [Span(st.start, pos)]
  {
    var c := s[pos];
    if IsWhiteSpace(c) then
      if st.seekingQuote == QuoteStart then
        match st.seeking
        case WordEnd => Scan(pos, TokenStart, QuoteStart, st.spans + [Span(st.start, pos)])
        case TokenStart => st.(start := pos)
      else st
    else if c == '"' then
      if st.seeking == TokenStart then
        match st.seekingQuote
        case QuoteEnd =>
          if pos > 0 && s[pos - 1] != '\\' then Scan(pos, TokenStart, QuoteStart, st.spans + [Span(st.start, pos)])
          else st
        case QuoteStart => st.(start := pos + 1, seekingQuote := QuoteEnd)
      else
        match st.seekingQuote
        case QuoteEnd => st.(seekingQuote := QuoteStart)
        case QuoteStart => st.(seekingQuote := QuoteEnd)
    else if st.seeking == TokenStart && st.seekingQuote == QuoteStart then
      st.(seeking := WordEnd, start := pos)
    else st
  }

  /** The loop run over the positions from, ..., upto - 1, starting in state st. */
  function Run(s: string, from: nat, upto: nat, st: Scan): Scan
    requires from <= upto <= |s|
    decreases upto - from
  {
    if from == upto then st else Run(s, from + 1, upto, Step(s, from, st))
  }

  /** A step keeps the token start and every span inside the characters read so far. */
  lemma StepInRange(s: string, pos: nat, st: Scan)
    requires pos < |s| && st.start <= pos && InRange(st.spans, pos)
    ensures Step(s, pos, st).start <= pos + 1 && InRange(Step(s, pos, st).spans, pos + 1)
  {
  }

  /**
   * Every iteration keeps `startTokenIndex <= pos` and every emitted span inside the
   * characters read so far: each slice the loop takes is in range.
   */
  lemma {:induction false} RunInRange(s: string, from: nat, upto: nat, st: Scan)
    requires from <= upto <= |s| && st.start <= from && InRange(st.spans, from)
    ensures Run(s, from, upto, st).start <= upto && InRange(Run(s, from, upto, st).spans, upto)
    decreases upto - from
  {
    if from < upto {
      StepInRange(s, from, st);
      RunInRange(s, from + 1, upto, Step(s, from, st));
    } else {
      assert InRange(st.spans, upto);
    }
  }

  /** One more iteration of the loop: the run from pos is the run from pos + 1 after Step. */
  lemma RunUnfold(s: string, pos: nat, upto: nat, st: Scan)
    requires pos < upto <= |s|
    ensures Run(s, pos, upto, st) == Run(s, pos + 1, upto, Step(s, pos, st))
  {
  }

  /** A run over no positions changes nothing. */
  lemma RunEmpty(s: string, pos: nat, st: Scan)
    requires pos <= |s|
    ensures Run(s, pos, pos, st) == st
  {
  }

  /**
   * One iteration of Split's loop keeps its invariant: the token start and the spans
   * stay inside the characters read, and the rest of the run from the next position
   * ends where the run from the first position ends.
   */
  lemma LoopStep(s: string, pos: nat, next: nat, before: Scan, after: Scan)
    requires pos < |s| && next == pos + 1 && after == Step(s, pos, before)
    requires before.start <= pos && InRange(before.spans, pos)
    requires Run(s, pos, |s|, before) == Run(s, 0, |s|, Initial)
    ensures after.start <= next && InRange(after.spans, next)
    ensures next < |s| ==> Run(s, next, |s|, after) == Run(s, 0, |s|, Initial)
    ensures next == |s| ==> Finish(s, after) == TokenSpans(s)
  {
    StepInRange(s, pos, before);
    RunUnfold(s, pos, |s|, before);
    if next == |s| {
      RunEmpty(s, next, after);
    }
  }

  /** The end-of-input check: an open bare word is emitted, anything else is not. */
  function Finish(s: string, st: Scan): seq<Span> {
    match st.seeking
    case TokenStart => st.spans
    case WordEnd => st.spans + [Span(st.start, |s|)]
  }

  /** The spans of all tokens Split emits for s; every one lies inside s. */
  function TokenSpans(s: string): (r: seq<Span>)
    ensures InRange(r, |s|)
  {
    RunInRange(s, 0, |s|, Initial);
    var f := Run(s, 0, |s|, Initial);
    TokensOfSnoc(s, f.spans, Span(f.start, |s|));
    Finish(s, f)
  }

  /** The tokens Split emits for s. */
  function Tokens(s: string): (r: seq<string>)
    ensures |r| == |TokenSpans(s)|
  {
    TokensOf(s, TokenSpans(s))
  }

  /**
   * Split, with the lazy `yield return` replaced by appending to the result.
   * The closures of the source are inlined: Advance is `pos := pos + 1`,
   * IsAtEndOfInput is `pos == |memory|`, CurrentToken is `Token`.
   */
  method Split(commandLine: string) returns (tokens: seq<string>)
    ensures tokens == Tokens(commandLine)
  {
    var memory := commandLine;
    var startTokenIndex: nat := 0;
    var pos: nat := 0;
    var seeking := TokenStart;
    var seekingQuote := QuoteStart;
    tokens := [];
    ghost var spans: seq<Span> := [];
    while pos < |memory|
      invariant pos <= |memory| && startTokenIndex <= pos && InRange(spans, pos)
      invariant tokens == TokensOf(memory, spans)
      invariant pos < |memory| ==>
        Run(memory, pos, |memory|, Scan(startTokenIndex, seeking, seekingQuote, spans))
        == Run(memory, 0, |memory|, Initial)
      invariant pos == |memory| ==> spans == TokenSpans(memory)
      decreases |memory| - pos
    {
      ghost var before := Scan(startTokenIndex, seeking, seekingQuote, spans);
      var c := memory[pos];
      if IsWhiteSpace(c) {
        if seekingQuote == QuoteStart {
          match seeking
          case WordEnd =>
            TokensOfSnoc(memory, spans, Span(startTokenIndex, pos));
            tokens := tokens + [Token(memory, Span(startTokenIndex, pos))];
            spans := spans + [Span(startTokenIndex, pos)];
            startTokenIndex := pos;
            seeking := TokenStart;
          case TokenStart =>
            startTokenIndex := pos;
        }
      } else if c == '"' {
        if seeking == TokenStart {
          match seekingQuote
          case QuoteEnd =>
            if pos > 0 && memory[pos - 1] != '\\' {
              TokensOfSnoc(memory, spans, Span(startTokenIndex, pos));
              tokens := tokens + [Token(memory, Span(startTokenIndex, pos))];
              spans := spans + [Span(startTokenIndex, pos)];
              startTokenIndex := pos;
              seekingQuote := QuoteStart;
            }
          case QuoteStart =>
            startTokenIndex := pos + 1;
            seekingQuote := QuoteEnd;
        } else {
          match seekingQuote
          case QuoteEnd =>
            seekingQuote := QuoteStart;
          case QuoteStart =>
            seekingQuote := QuoteEnd;
        }
      } else if seeking == TokenStart && seekingQuote == QuoteStart {
        seeking := WordEnd;
        startTokenIndex := pos;
      }
      ghost var after := Scan(startTokenIndex, seeking, seekingQuote, spans);
      assert after == Step(memory, pos, before);
      var next := pos + 1;
      LoopStep(memory, pos, next, before, after);

      pos := next;

      if pos == |memory| {
        match seeking
        case TokenStart =>
        case WordEnd =>
          TokensOfSnoc(memory, spans, Span(startTokenIndex, pos));
          tokens := tokens + [Token(memory, Span(startTokenIndex, pos))];
          spans := spans + [Span(startTokenIndex, pos)];
      }
    }
  }
}
