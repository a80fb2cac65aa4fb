/**
 * Model of the ParserConfiguration constructor: it validates the symbol list,
 * creates an implicit root command when no command is given, fills in default
 * delimiters and prefixes, and normalises every given symbol's aliases by adding
 * each prefix in front of each alias that does not already start with all of them.
 *
 * The constructor's checks throw; here `ParserConfiguration.Create` returns a
 * `Failure` instead, and otherwise a freshly built configuration. The symbols are
 * heap objects whose alias lists the normalisation updates in place.
 */
module Configuration {
  import opened Wrappers

  /** An option or a command, as far as the configuration sees it. */
  class Symbol {
    /** Whether the symbol is a Command. */
    const isCommand: bool
    /** The symbols a root command was created from. */
    const children: seq<Symbol>
    /** The aliases, in the order they were added. */
    var rawAliases: seq<string>

    constructor (isCommand: bool, aliases: seq<string>)
      ensures this.isCommand == isCommand && children == [] && rawAliases == aliases
    {
      this.isCommand := isCommand;
      children := [];
      rawAliases := aliases;
    }

    /** Create.RootCommand: a command named after the running program that holds the given symbols. */
    constructor Root(name: string, children: seq<Symbol>)
      ensures isCommand && this.children == children && rawAliases == [name]
    {
      isCommand := true;
      this.children := children;
      rawAliases := [name];
    }

    /** Adds one alias after the existing ones. */
    method AddAlias(alias: string)
      modifies this
      ensures rawAliases == old(rawAliases) + [alias]
    {
      rawAliases := rawAliases + [alias];
    }
  }

  /** The prefixes used when none are given. */
  const DefaultPrefixes: seq<string> := ["-", "--", "/"]

  /** The argument delimiters used when none are given. */
  const DefaultDelimiters: seq<char> := [':', '=']

  /** Why the configuration could not be built: the exceptions the constructor throws. */
  datatype ConfigurationError =
    | ArgumentNull(paramName: string)
    | EmptySymbols(message: string)

  /** Ordinal `s.StartsWith(prefix)`. */
  predicate StartsWith(s: string, prefix: string) {
    prefix <= s
  }

  /** `prefixes.All(prefix => alias.StartsWith(prefix))`: the alias starts with every prefix. */
  predicate StartsWithAll(alias: string, prefixes: seq<string>) {
    forall k :: 0 <= k < |prefixes| ==> StartsWith(alias, prefixes[k])
  }

  /** Some given symbol is a command. */
  predicate HasCommand(symbols: seq<Symbol>) {
    exists k :: 0 <= k < |symbols| && symbols[k].isCommand
  }

  /** `prefix + alias` for every prefix, in the prefixes' order. */
  function Prefixed(prefixes: seq<string>, alias: string): (r: seq<string>)
    ensures |r| == |prefixes|
    ensures forall k :: 0 <= k < |r| ==> r[k] == prefixes[k] + alias
  {
    if prefixes == [] then []
    else Prefixed(prefixes[..|prefixes| - 1], alias) + [prefixes[|prefixes| - 1] + alias]
  }

  /** What one alias contributes: nothing if it starts with every prefix, else every prefixed form. */
  function Expansion(prefixes: seq<string>, alias: string): seq<string> {
    if StartsWithAll(alias, prefixes) then [] else Prefixed(prefixes, alias)
  }

  /** The aliases added for a snapshot of aliases, alias by alias. */
  function Added(prefixes: seq<string>, aliases: seq<string>): seq<string> {
    if aliases == [] then []
    else Added(prefixes, aliases[..|aliases| - 1]) + Expansion(prefixes, aliases[|aliases| - 1])
  }

  /** The aliases of a symbol after one visit of the normalisation loop. */
  function Normalized(prefixes: seq<string>, aliases: seq<string>): seq<string> {
    aliases + Added(prefixes, aliases)
  }

  /** The aliases of a symbol after n visits (a symbol given n times is visited n times). */
  function Visited(prefixes: seq<string>, aliases: seq<string>, n: nat): seq<string> {
    if n == 0 then aliases else Normalized(prefixes, Visited(prefixes, aliases, n - 1))
  }

  /** How many of the aliases fail to start with every prefix. */
  function FailingCount(prefixes: seq<string>, aliases: seq<string>): (n: nat)
    ensures n <= |aliases|
  {
    if aliases == [] then 0
    else FailingCount(prefixes, aliases[..|aliases| - 1])
         + (if StartsWithAll(aliases[|aliases| - 1], prefixes) then 0 else 1)
  }

  /** The innermost loop: AddAlias(prefix + alias) for every prefix, in order. */
  method AddPrefixed(symbol: Symbol, prefixes: seq<string>, alias: string)
    modifies symbol
    ensures symbol.rawAliases == old(symbol.rawAliases) + Prefixed(prefixes, alias)
  {
    for k := 0 to |prefixes|
      invariant symbol.rawAliases == old(symbol.rawAliases) + Prefixed(prefixes[..k], alias)
    {
      assert prefixes[..k + 1][..k] == prefixes[..k];
      symbol.AddAlias(prefixes[k] + alias);
    }
    assert prefixes[..|prefixes|] == prefixes;
  }

  /**
   * The middle loop: every alias of a snapshot taken before the loop is examined once,
   * in order, and expanded unless it starts with every prefix; aliases added meanwhile
   * are not examined.
   */
  method NormalizeSymbol(symbol: Symbol, prefixes: seq<string>)
    modifies symbol
    ensures symbol.rawAliases == Normalized(prefixes, old(symbol.rawAliases))
  {
    var aliases := symbol.rawAliases;
    for j := 0 to |aliases|
      invariant symbol.rawAliases == aliases + Added(prefixes, aliases[..j])
    {
      var alias := aliases[j];
      AddedSnoc(prefixes, aliases, j);
      if !StartsWithAll(alias, prefixes) {
        AddPrefixed(symbol, prefixes, alias);
      }
    }
    assert aliases[..|aliases|] == aliases;
  }

  /** Examining one more alias of the snapshot appends its expansion. */
  lemma AddedSnoc(prefixes: seq<string>, aliases: seq<string>, j: nat)
    requires j < |aliases|
    ensures aliases + Added(prefixes, aliases[..j + 1])
            == (aliases + Added(prefixes, aliases[..j])) + Expansion(prefixes, aliases[j])
    ensures StartsWithAll(aliases[j], prefixes) ==> Expansion(prefixes, aliases[j]) == []
  {
    assert aliases[..j + 1][..j] == aliases[..j];
  }

  /**
   * The outer loop over the given symbols (not over DefinedSymbols): a symbol given
   * n times is normalised n times, and no other object changes.
   */
  method NormalizeAll(given: seq<Symbol>, prefixes: seq<string>)
    modifies set x: Symbol | x in given
    ensures forall x :: x in given ==> x.rawAliases == Visited(prefixes, old(x.rawAliases), multiset(given)[x])
  {
    for i := 0 to |given|
      invariant forall x :: x in given ==>
                  x.rawAliases == Visited(prefixes, old(x.rawAliases), multiset(given[..i])[x])
    {
      var symbol := given[i];
      label before:
      NormalizeSymbol(symbol, prefixes);
      forall x | x in given
        ensures x.rawAliases == Visited(prefixes, old(x.rawAliases), multiset(given[..i + 1])[x])
      {
        CountStep(given, i, x);
        if x == symbol {
          VisitedStep(prefixes, old(x.rawAliases), multiset(given[..i])[x], multiset(given[..i + 1])[x]);
        } else {
          assert x.rawAliases == old@before(x.rawAliases);
        }
      }
    }
    assert given[..|given|] == given;
  }

  /** The symbol objects of a possibly missing list. */
  function Given(symbols: Option<seq<Symbol>>): set<Symbol> {
    if symbols.Some? then set x: Symbol | x in symbols.value else {}
  }

  /** The occurrences of x among the first i + 1 elements. */
  lemma CountStep<T>(given: seq<T>, i: nat, x: T)
    requires i < |given|
    ensures multiset(given[..i + 1])[x] == multiset(given[..i])[x] + if x == given[i] then 1 else 0
  {
    assert given[..i + 1] == given[..i] + [given[i]];
  }

  /** One more visit normalises the aliases once more. */
  lemma VisitedStep(prefixes: seq<string>, aliases: seq<string>, m: nat, n: nat)
    requires n == m + 1
    ensures Visited(prefixes, aliases, n) == Normalized(prefixes, Visited(prefixes, aliases, m))
  {
  }

  class ParserConfiguration {
    /** DefinedSymbols: the given symbols, or the implicit root alone. */
    const definedSymbols: seq<Symbol>
    const argumentDelimiters: seq<char>
    const prefixes: seq<string>
    const allowUnbundling: bool
    /** The implicit root command, or null when a command was given. */
    const rootCommand: Symbol?

    /** Stores the properties as given. */
    constructor Init(definedSymbols: seq<Symbol>, argumentDelimiters: seq<char>, prefixes: seq<string>,
                     allowUnbundling: bool, rootCommand: Symbol?)
      ensures this.definedSymbols == definedSymbols && this.argumentDelimiters == argumentDelimiters
      ensures this.prefixes == prefixes && this.allowUnbundling == allowUnbundling
      ensures this.rootCommand == rootCommand
    {
      this.definedSymbols := definedSymbols;
      this.argumentDelimiters := argumentDelimiters;
      this.prefixes := prefixes;
      this.allowUnbundling := allowUnbundling;
      this.rootCommand := rootCommand;
    }

    /** RootCommandIsImplicit. */
    predicate RootCommandIsImplicit() {
      rootCommand != null
    }

    /**
     * The constructor. A missing collection is `None`; as in the source the last three
     * arguments may be omitted, and then no delimiters and no prefixes are given and
     * unbundling is allowed. A missing symbol list and an empty one fail before anything
     * changes. Otherwise the configuration is built and the aliases of every given
     * symbol are normalised once per occurrence of it in the list; the implicit root
     * is not among them and keeps the one alias it was created with.
     */
    static method Create(symbols: Option<seq<Symbol>>, rootName: string,
                         delimiters: Option<seq<char>> := None, prefixes: Option<seq<string>> := None,
                         allowUnbundling: bool := true)
      returns (r: Result<ParserConfiguration, ConfigurationError>)
      modifies Given(symbols)
      ensures symbols.None? ==> r == Failure(ArgumentNull("definedSymbols"))
      ensures symbols == Some([]) ==> r == Failure(EmptySymbols("You must specify at least one option."))
      ensures symbols.Some? && symbols.value != [] ==> r.Success?
      ensures r.Failure? ==> unchanged(Given(symbols))
      ensures r.Success? ==>
                var c, given := r.value, symbols.value;
                fresh(c)
                && (c.RootCommandIsImplicit() <==> !HasCommand(given))
                && (HasCommand(given) ==> c.definedSymbols == given && c.rootCommand == null)
                && (!HasCommand(given) ==>
                      c.rootCommand != null && fresh(c.rootCommand) && c.definedSymbols == [c.rootCommand]
                      && c.rootCommand.isCommand && c.rootCommand.children == given
                      && c.rootCommand.rawAliases == [rootName])
                && c.argumentDelimiters == (if delimiters.Some? then delimiters.value else DefaultDelimiters)
                && c.prefixes == (if prefixes.Some? then prefixes.value else DefaultPrefixes)
                && c.allowUnbundling == allowUnbundling
                && forall x :: x in given ==>
                     x.rawAliases == Visited(c.prefixes, old(x.rawAliases), multiset(given)[x])
    {
      if symbols.None? {
        return Failure(ArgumentNull("definedSymbols"));
      }
      var given := symbols.value;
      if given == [] {
        return Failure(EmptySymbols("You must specify at least one option."));
      }
      var root: Symbol? := null;
      var defined := given;
      if !HasCommand(given) {
        root := new Symbol.Root(rootName, given);
        defined := [root];
      }
      var argumentDelimiters := if delimiters.Some? then delimiters.value else DefaultDelimiters;
      var pre := if prefixes.Some? then prefixes.value else DefaultPrefixes;
      var c := new ParserConfiguration.Init(defined, argumentDelimiters, pre, allowUnbundling, root);

      NormalizeAll(given, pre);
      return Success(c);
    }
  }
}
