# Command-line front end: string splitter and parser configuration

This project models two pieces of the front end of the System.CommandLine argument parser and proves properties of them.

- **`CommandLineStringSplitter.Split`** turns one command-line string into tokens. It scans left to right with:
  - a cursor;
  - a token-start index;
  - two two-valued trackers: `seeking` (token start or word end) and `seekingQuote` (quote start or quote end).

  Every emitted token is an input slice in which each `\"` is rewritten to `"`.
- **The `ParserConfiguration` constructor** does four things:
  - it rejects a missing or empty symbol list;
  - it wraps the symbols in an implicit root command when none of them is a command;
  - it fills in the default delimiters (`:` `=`) and prefixes (`-` `--` `/`);
  - it normalises aliases. For each given symbol, for each alias in a snapshot of its aliases, the alias is expanded unless it starts with *every* prefix. Expanding appends `prefix + alias` for each prefix in order.

The model follows the source's imperative form.

- **`Split` is a `method`.** Its `while` loop keeps the source's branches and its end-of-input check inside the loop.
  - It is proved against a functional statement of the same machine:
    - `Step` is one iteration;
    - `Run` folds it over a range of positions;
    - `Finish` is the end-of-input emission.
  - The functional machine records each token as a `Span` of the input. `TokensOf` unescapes those slices.
  - A second, token-level description (`TokenGrammar.Lex`) is independent of the loop:
    - skip whitespace;
    - a quote at a token start opens a region that ends at the first later quote not preceded by a backslash;
    - any other character starts a bare word that ends at whitespace met while the word's quote toggle is off.
  - `SpansAreLex` proves the loop emits exactly `Lex`'s spans. The remaining splitter properties are stated on that description.
- **Symbols are heap objects** (`class Symbol`) whose alias list the nested loops (`NormalizeAll`, `NormalizeSymbol`, `AddPrefixed`) update in place.
  - The constructor's two `throw`s become a `Failure` returned by the factory `ParserConfiguration.Create`. Nothing has changed at that point.
  - The source's optional arguments stay optional: `delimiters` and `prefixes` default to `None` (the source's `null`), and `allowUnbundling` defaults to true.
  - A symbol that appears n times in the list is normalised n times. `Visited` gives the result of n visits.

The model follows the code wherever the code departs from the test file `CommandLineStringSplitterTests.cs`:

- **The dangling quote.**
  - The test at `CommandLineStringSplitterTests.cs:108` expects a dangling trailing quote to be stripped (`foo"` gives `foo`).
  - The code only flips the word's quote toggle and keeps the quote: `DanglingQuoteKept` proves `foo"` gives `foo"`.
- **Quotes inside a bare word are kept in the token.** `Unescape` rewrites only `\"`. The quote-stripping code at `CommandLineStringSplitter.cs:131-136` is commented out. So the expectations at `CommandLineStringSplitterTests.cs:39-57`, `79-97` and `104-106` do not hold for the code.
- **An escaped quote never closes a quoted region,** so everything after an unclosed region is dropped (`UnclosedRegion`). `rm -r "c:\temp files\"` therefore gives only `rm` and `-r`, not the three tokens of `CommandLineStringSplitterTests.cs:29-37`.
- **Opening a quote does not start a word.** The comment at `CommandLineStringSplitter.cs:84` asks whether it should. The code leaves `seeking` at TokenStart, which has two consequences:
  - an unclosed region emits nothing at end of input (`UnclosedRegion`);
  - text right after a closing quote starts a new token (`QuotedRegion`, `SpansOrdered`).
- **The start index set at line 80 is never read before it is reset** by the next token start. Any value there gives the same tokens.

## Model

| member | source | states |
|---|---|---|
| CommandLineStringSplitter.Split | src/System.CommandLine/Parsing/CommandLineStringSplitter.cs:35-123 | the tokens the loop yields are exactly `Tokens(commandLine)`: the unescaped slices of the spans of the functional machine run over the whole input, then the end-of-input check |
| CommandLineStringSplitter.Step | src/System.CommandLine/Parsing/CommandLineStringSplitter.cs:48-108 | one iteration either keeps the emitted spans or appends the single span from the token start to the cursor; the token start stays, or moves to the cursor or one past it |
| CommandLineStringSplitter.LoopStep | src/System.CommandLine/Parsing/CommandLineStringSplitter.cs:110-125 | after Advance the token start is still at most the cursor and every span lies inside the characters read; the rest of the run from the new cursor ends where the whole run ends, and at the end of input the spans are the final ones |
| CommandLineStringSplitter.RunInRange | src/System.CommandLine/Parsing/CommandLineStringSplitter.cs:139-143 | over any stretch of iterations the token start never passes the cursor and every emitted span is in range, so each slice taken by CurrentToken is valid |
| CommandLineStringSplitter.TokenSpans | src/System.CommandLine/Parsing/CommandLineStringSplitter.cs:112-121 | every span emitted for the input, including the one emitted at end of input, lies inside the input |
| CommandLineStringSplitter.TokensOf | src/System.CommandLine/Parsing/CommandLineStringSplitter.cs:127-141 | one token per span, in span order, each the unescaped slice from the span's start to its end |
| CommandLineStringSplitter.TokensOfSnoc | src/System.CommandLine/Parsing/CommandLineStringSplitter.cs:57-57 | proof helper: yielding a token after the others appends exactly that token's text |
| CommandLineStringSplitter.Unescape | src/System.CommandLine/Parsing/CommandLineStringSplitter.cs:147-147 | the rewritten token is never longer than the slice |
| TokenGrammar.QuoteClose | src/System.CommandLine/Parsing/CommandLineStringSplitter.cs:74-83 | the position found is a quote not preceded by a backslash, and no such quote lies before it; when nothing is found, none lies anywhere after the start |
| TokenGrammar.BareWordEnd | src/System.CommandLine/Parsing/CommandLineStringSplitter.cs:50-56 | a bare word ends at whitespace or at the end of the input, never before the scan position |
| TokenGrammar.RunSplit | src/System.CommandLine/Parsing/CommandLineStringSplitter.cs:46-46 | proof helper: running the loop over a range is running it over the two halves of the range one after the other |
| TokenGrammar.InsideQuotes | src/System.CommandLine/Parsing/CommandLineStringSplitter.cs:50-83 | inside a quoted region opened at a token start, whitespace, escaped quotes and other characters change none of the locals |
| TokenGrammar.InsideWord | src/System.CommandLine/Parsing/CommandLineStringSplitter.cs:90-102 | inside a bare word a quote only flips the quote toggle; no span is emitted and the token start stays until the word's end, at which the toggle is off |
| TokenGrammar.QuoteOpened | src/System.CommandLine/Parsing/CommandLineStringSplitter.cs:84-87 | a quote at a token start moves the token start past it and waits for the closing quote, which is the next thing that changes the state |
| TokenGrammar.QuoteClosed | src/System.CommandLine/Parsing/CommandLineStringSplitter.cs:74-83 | proof helper: a closing quote emits the text since the opening quote, moves the token start to itself and waits for a token again |
| TokenGrammar.QuotedRegion | src/System.CommandLine/Parsing/CommandLineStringSplitter.cs:70-87 | a quoted region opened at a token start emits one token: the characters strictly between the opening quote and the first later quote not preceded by a backslash; an empty region emits an empty token |
| TokenGrammar.UnclosedRegion | src/System.CommandLine/Parsing/CommandLineStringSplitter.cs:84-87 | a quoted region that never closes leaves `seeking` at TokenStart, so nothing after the opening quote is emitted, including at end of input |
| TokenGrammar.BareWord | src/System.CommandLine/Parsing/CommandLineStringSplitter.cs:104-108 | a character other than whitespace or a quote at a token start begins a bare word there, which stays open without emitting up to its end |
| TokenGrammar.WordEnded | src/System.CommandLine/Parsing/CommandLineStringSplitter.cs:56-60 | whitespace ending a bare word emits the word and waits for a token again |
| TokenGrammar.WordAtEnd | src/System.CommandLine/Parsing/CommandLineStringSplitter.cs:112-121 | a bare word still open at the end of the input is emitted by the end-of-input check, up to the end of the input |
| TokenGrammar.QuoteThenRest | src/System.CommandLine/Parsing/CommandLineStringSplitter.cs:79-81 | once a quoted region closes, the rest of the scan proceeds from the character after the closing quote with the region's token emitted |
| TokenGrammar.WordThenRest | src/System.CommandLine/Parsing/CommandLineStringSplitter.cs:57-59 | once whitespace ends a bare word, the rest of the scan proceeds from the character after it with the word emitted |
| TokenGrammar.LexQuoted | src/System.CommandLine/Parsing/CommandLineStringSplitter.cs:70-87 | proof helper: in the token grammar a closed quoted region contributes its inner span and the grammar resumes after the closing quote |
| TokenGrammar.LexWord | src/System.CommandLine/Parsing/CommandLineStringSplitter.cs:104-108 | proof helper: in the token grammar a bare word ended by whitespace contributes its span and the grammar resumes after that whitespace |
| TokenGrammar.RunMatchesLex | src/System.CommandLine/Parsing/CommandLineStringSplitter.cs:46-121 | from any token start, the loop and the end-of-input check emit exactly the spans of the token grammar, after those emitted before |
| TokenGrammar.QuotedMatchesLex | src/System.CommandLine/Parsing/CommandLineStringSplitter.cs:68-103 | the quote case of RunMatchesLex: a closed or unclosed quoted region is emitted as the grammar says |
| TokenGrammar.WordMatchesLex | src/System.CommandLine/Parsing/CommandLineStringSplitter.cs:104-121 | the bare-word case of RunMatchesLex: a word ended by whitespace or by the end of the input is emitted as the grammar says |
| TokenGrammar.SpansAreLex | src/System.CommandLine/Parsing/CommandLineStringSplitter.cs:35-123 | the spans Split emits for any input are exactly the spans the token grammar gives |
| CommandLineStringSplitter.IsWhiteSpace | src/System.CommandLine/Parsing/CommandLineStringSplitter.cs:50-50 | definition: the characters `char.IsWhiteSpace` accepts, U+0009 to U+000D, U+0020, U+0085, U+00A0, U+1680, U+2000 to U+200A, U+2028, U+2029, U+202F, U+205F and U+3000 |
| CommandLineStringSplitter.Run | src/System.CommandLine/Parsing/CommandLineStringSplitter.cs:46-110 | definition: the `while` loop run over positions from, ..., upto - 1, one Step and one Advance per position; its properties are RunInRange, RunSplit and RunMatchesLex |
| CommandLineStringSplitter.Finish | src/System.CommandLine/Parsing/CommandLineStringSplitter.cs:112-121 | definition: the end-of-input check; an open bare word (`seeking` is WordEnd) is emitted up to the end of the input and nothing else is |
| CommandLineStringSplitter.Token | src/System.CommandLine/Parsing/CommandLineStringSplitter.cs:127-143 | definition: CurrentToken, the slice from `startTokenIndex` of length `pos - startTokenIndex` (IndexOfEndOfToken), unescaped |
| CommandLineStringSplitter.Tokens | src/System.CommandLine/Parsing/CommandLineStringSplitter.cs:35-148 | one token for each span of TokenSpans, the sequence Split yields; SpansAreLex and the lemmas after it characterise it |
| TokenGrammar.ClosesQuote | src/System.CommandLine/Parsing/CommandLineStringSplitter.cs:77-77 | definition: the test that a double quote closes a quoted region, namely that it is not the first character and no backslash precedes it |
| TokenGrammar.Lex | src/System.CommandLine/Parsing/CommandLineStringSplitter.cs:46-121 | definition: the reference token grammar the splitter properties rest on; SpansAreLex proves the loop emits exactly its spans |
| SplitterProperties.UnescapeDropsEscapes | src/System.CommandLine/Parsing/CommandLineStringSplitter.cs:147-147 | replacing `\"` by `"` left to right is deleting every backslash that immediately precedes a quote |
| SplitterProperties.UnescapeUnchanged | src/System.CommandLine/Parsing/CommandLineStringSplitter.cs:147-147 | Unescape returns its argument unchanged exactly when the argument holds no `\"` |
| SplitterProperties.UnescapeEmpty | src/System.CommandLine/Parsing/CommandLineStringSplitter.cs:147-147 | only the empty slice unescapes to the empty token |
| SplitterProperties.UnescapeQuoteFree | src/System.CommandLine/Parsing/CommandLineStringSplitter.cs:147-147 | a slice without double quotes is returned verbatim, backslashes included |
| SplitterProperties.SpansOrdered | src/System.CommandLine/Parsing/CommandLineStringSplitter.cs:57-80 | every emitted span is a quoted region's interior or a non-empty bare word, and each ends strictly before the next begins: tokens come in input order from non-overlapping slices |
| SplitterProperties.EmptyTokenIsQuotePair | src/System.CommandLine/Parsing/CommandLineStringSplitter.cs:84-87 | an empty token can only come from two adjacent quotes `""` |
| SplitterProperties.BlankInputHasNoTokens | src/System.CommandLine/Parsing/CommandLineStringSplitter.cs:50-65 | empty and whitespace-only input yields no token |
| SplitterProperties.RunPrefix | src/System.CommandLine/Parsing/CommandLineStringSplitter.cs:48-77 | proof helper: the loop looks only at the current and the previous character, so appending text does not change the run over the earlier positions |
| SplitterProperties.TrailingWhitespace | src/System.CommandLine/Parsing/CommandLineStringSplitter.cs:112-121 | appending whitespace adds no token and changes none, unless the input ends inside a bare word whose quote toggle is on |
| SplitterProperties.TrailingWhitespaceInOpenQuotedWord | src/System.CommandLine/Parsing/CommandLineStringSplitter.cs:90-102 | when the input ends inside a bare word whose quote toggle is on, appended whitespace joins the last token, which then reaches the end of the padded input |
| SplitterProperties.WordsAreWords | src/System.CommandLine/Parsing/CommandLineStringSplitter.cs:104-108 | the maximal runs of non-whitespace characters are non-empty and hold no whitespace |
| SplitterProperties.QuoteFreeTokensAreWords | src/System.CommandLine/Parsing/CommandLineStringSplitter.cs:50-66 | for input without double quotes the tokens are exactly the maximal runs of non-whitespace characters, in order, backslashes kept |
| SplitterProperties.DanglingQuoteKept | src/System.CommandLine/Parsing/CommandLineStringSplitter.cs:90-102 | a quote at the end of a bare word stays in the token: `foo"` splits to `foo"` |
| Configuration.DefaultPrefixes | src/source/CommandLine/ParserConfiguration.cs:9-10 | definition: the prefixes `-`, `--`, `/`, in that order |
| Configuration.DefaultDelimiters | src/source/CommandLine/ParserConfiguration.cs:38-38 | definition: the argument delimiters `:` and `=` |
| Configuration.StartsWith | src/source/CommandLine/ParserConfiguration.cs:46-46 | definition: ordinal `alias.StartsWith(prefix)`, the prefix is a prefix of the alias |
| Configuration.StartsWithAll | src/source/CommandLine/ParserConfiguration.cs:46-46 | definition: the literal `Prefixes.All(prefix => alias.StartsWith(prefix))`, so the alias starts with every prefix |
| Configuration.HasCommand | src/source/CommandLine/ParserConfiguration.cs:28-28 | definition: `definedSymbols.OfType<Command>().Any()`, so some given symbol is a command |
| Configuration.Expansion | src/source/CommandLine/ParserConfiguration.cs:46-51 | definition: what one snapshot alias contributes, nothing if it starts with every prefix and otherwise every prefixed form; counted by ExpansionLength and AddedLength |
| Configuration.Added | src/source/CommandLine/ParserConfiguration.cs:44-53 | definition: the aliases one visit appends, the expansions of the snapshot's aliases in snapshot order; AddedLength and AddedMembers characterise it |
| Configuration.Normalized | src/source/CommandLine/ParserConfiguration.cs:44-53 | definition: a symbol's aliases after one visit, the snapshot followed by what is added; NormalizeSymbol is proved to compute it |
| Configuration.Visited | src/source/CommandLine/ParserConfiguration.cs:42-54 | definition: a symbol's aliases after n visits, for a symbol that occurs n times in the list; NormalizeAll and Create are proved to compute it |
| Configuration.FailingCount | src/source/CommandLine/ParserConfiguration.cs:46-46 | how many aliases fail the test at line 46, never more than there are aliases; FailingCountZero characterises zero |
| Configuration.ParserConfiguration.Init | src/source/CommandLine/ParserConfiguration.cs:57-65 | the properties DefinedSymbols, ArgumentDelimiters, Prefixes, AllowUnbundling and RootCommand hold the values the constructor computed |
| Configuration.ParserConfiguration.RootCommandIsImplicit | src/source/CommandLine/ParserConfiguration.cs:67-67 | definition: the root command is not null; Create proves it holds exactly when no given symbol is a command |
| Configuration.Symbol.constructor | src/source/CommandLine/ParserConfiguration.cs:13-13 | a declared symbol carries its command flag and its aliases in order |
| Configuration.Symbol.Root | src/source/CommandLine/ParserConfiguration.cs:30-30 | the implicit root is a command that holds all the given symbols and has the program name as its one alias |
| Configuration.Symbol.AddAlias | src/source/CommandLine/ParserConfiguration.cs:50-50 | adding an alias appends it after the existing ones |
| Configuration.Prefixed | src/source/CommandLine/ParserConfiguration.cs:48-51 | one alias per prefix, in the prefixes' order, each the prefix followed by the alias |
| Configuration.AddPrefixed | src/source/CommandLine/ParserConfiguration.cs:48-51 | the innermost loop appends `prefix + alias` for every prefix in order and changes nothing else |
| Configuration.NormalizeSymbol | src/source/CommandLine/ParserConfiguration.cs:44-53 | the aliases of a snapshot taken before the loop are each examined once, in order; each is expanded unless it starts with every prefix; aliases added meanwhile are not examined |
| Configuration.NormalizeAll | src/source/CommandLine/ParserConfiguration.cs:42-54 | each symbol in the caller's list is normalised once per occurrence in the list, and no other object changes |
| Configuration.ParserConfiguration.Create | src/source/CommandLine/ParserConfiguration.cs:12-55 | a missing list and an empty list fail with the argument-null and the argument error, changing nothing; otherwise: the implicit root exists exactly when no symbol is a command, and is then fresh and the only defined symbol, holding the given symbols; otherwise the defined symbols are the given ones in order; delimiters and prefixes default to `:` `=` and `-` `--` `/`; the unbundling flag is kept; and every given symbol's aliases are normalised once per occurrence |
| AliasProperties.AddedLength | src/source/CommandLine/ParserConfiguration.cs:44-51 | one visit adds one alias per prefix for each alias that does not start with every prefix, and none for the others |
| AliasProperties.FailingCountZero | src/source/CommandLine/ParserConfiguration.cs:46-46 | no alias is expanded exactly when every alias starts with every prefix |
| AliasProperties.NoPrefixesAddNothing | src/source/CommandLine/ParserConfiguration.cs:46-46 | with an empty prefix collection every alias passes the test and nothing is added |
| AliasProperties.NormalizedUnchanged | src/source/CommandLine/ParserConfiguration.cs:44-53 | one visit changes a symbol's aliases exactly when there is a prefix and some alias does not start with all prefixes |
| AliasProperties.DefaultPrefixesExpandEveryAlias | src/source/CommandLine/ParserConfiguration.cs:9-10 | no string starts with both `-` and `/`, so with the default prefixes every alias is expanded |
| AliasProperties.DefaultPrefixesQuadruple | src/source/CommandLine/ParserConfiguration.cs:40-51 | with the default prefixes one visit makes a symbol's alias list four times as long |
| AliasProperties.DefaultPrefixesSingleAlias | src/source/CommandLine/ParserConfiguration.cs:48-51 | with the default prefixes a single alias `a` becomes `a`, `-a`, `--a`, `/a`, in that order |
| AliasProperties.AddedMembers | src/source/CommandLine/ParserConfiguration.cs:44-51 | an alias is added exactly when it is some prefix followed by some snapshot alias that does not start with every prefix |
| AliasProperties.KeptAndExpanded | src/source/CommandLine/ParserConfiguration.cs:46-51 | an alias that starts with every prefix is kept as it is and one that does not is expanded, after the original aliases |
| AliasProperties.VisitedKeepsAliases | src/source/CommandLine/ParserConfiguration.cs:42-54 | no alias is ever removed: after any number of visits the original aliases come first, unchanged and in order |
| AliasProperties.RepeatedSymbolExpandsTwice | src/source/CommandLine/ParserConfiguration.cs:42-44 | a symbol given twice is normalised twice: with one prefix, the second visit expands the original alias again and keeps the prefixed one, so the prefixed alias appears twice |

## Left out

- `char.IsWhiteSpace` is modelled as the fixed list of .NET white-space characters (U+0009 to U+000D, U+0020, U+0085, U+00A0, U+1680, U+2000 to U+200A, U+2028, U+2029, U+202F, U+205F, U+3000). The base library's classification is not part of this model.
- Strings are sequences of Dafny characters (Unicode scalar values), not UTF-16 code units. A surrogate pair is never whitespace or a quote, so the tokens are the same.
- Split returns its tokens eagerly. The lazy `yield return` enumeration is not modelled.
- The singleton `Instance` and the private constructor are not modelled.
- `StartsWith` is modelled as ordinal comparison. The source's culture-sensitive default comparison is not modelled.
- `Symbol`, `Command`, `SymbolSet`, `Create.RootCommand` and `AddAlias` are not part of this model, and are modelled abstractly:
  - a symbol is an object with a command flag and an ordered alias list;
  - `AddAlias` appends, with no de-duplication;
  - `DefinedSymbols` is an ordered sequence.
- The root command's name, which `Create.RootCommand` takes from the running program, is a parameter `rootName` of `Create`.
- Configuration.ParserConfiguration.Create: returns a `Failure` value where the source throws. The exception types and their messages become the two `ConfigurationError` cases.
- The meaning of `ArgumentDelimiters` and `AllowUnbundling` is not modelled. The constructor only stores them; their use lies in the matching engine, which is not part of this model.
- The expectations in `CommandLineStringSplitterTests.cs` that contradict the code are not stated as lemmas. These are lines 29-37, 39-57, 79-97, 104-106 and 108. The code's own behaviour is stated instead.
- Configuration.ParserConfiguration.Create: a `null` element of the symbol list is not modelled, because `seq<Symbol>` holds no null. In the source the loop raises `NullReferenceException` at line 44 when it reaches that element. By then the properties are set and the earlier symbols are normalised. When no symbol is a command, `Create.RootCommand` receives the null first; it is not part of this model.
- CommandLineStringSplitter.Split: a `null` command line is not modelled, because `string` holds no null. In the source `AsMemory()` turns it into empty memory and Split yields nothing, which is what the model gives for the empty string (BlankInputHasNoTokens).
- No concurrency is present, so none is modelled.
