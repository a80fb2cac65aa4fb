/**
 * Properties of the alias normalisation: how many aliases it adds, which ones,
 * when it adds none, why the default prefixes expand every alias, and that the
 * original aliases survive every visit.
 */
module AliasProperties {
  import opened Configuration

  /** Each alias that fails the test contributes one alias per prefix. */
  lemma {:induction false} AddedLength(prefixes: seq<string>, aliases: seq<string>)
    ensures |Added(prefixes, aliases)| == |prefixes| * FailingCount(prefixes, aliases)
    decreases |aliases|
  {
    if aliases != [] {
      var init, last := aliases[..|aliases| - 1], aliases[|aliases| - 1];
      AddedLength(prefixes, init);
      ExpansionLength(prefixes, last);
      var fails := if StartsWithAll(last, prefixes) then 0 else 1;
      assert |Added(prefixes, aliases)| == |Added(prefixes, init)| + |Expansion(prefixes, last)|;
      MulAdd(|prefixes|, FailingCount(prefixes, init), fails, FailingCount(prefixes, aliases));
    }
  }

  /** One alias contributes one alias per prefix, or none when it starts with all of them. */
  lemma ExpansionLength(prefixes: seq<string>, alias: string)
    ensures |Expansion(prefixes, alias)| == |prefixes| * (if StartsWithAll(alias, prefixes) then 0 else 1)
  {
  }

  /** Multiplication distributes over addition (a solver aid for AddedLength). */
  lemma MulAdd(a: nat, b: nat, c: nat, d: nat)
    requires d == b + c
    ensures a * b + a * c == a * d
  {
  }

  /** A product of positive numbers is positive (a solver aid for NormalizedUnchanged). */
  lemma MulPositive(a: nat, b: nat)
    requires a > 0 && b > 0
    ensures a * b > 0
  {
  }

  /** No alias fails the test exactly when every alias starts with every prefix. */
  lemma {:induction false} FailingCountZero(prefixes: seq<string>, aliases: seq<string>)
    ensures FailingCount(prefixes, aliases) == 0
            <==> forall k :: 0 <= k < |aliases| ==> StartsWithAll(aliases[k], prefixes)
    decreases |aliases|
  {
    if aliases != [] {
      var init := aliases[..|aliases| - 1];
      FailingCountZero(prefixes, init);
      assert forall k :: 0 <= k < |init| ==> init[k] == aliases[k];
    }
  }

  /** When every alias fails the test, every alias counts. */
  lemma {:induction false} FailingCountAll(prefixes: seq<string>, aliases: seq<string>)
    requires forall k :: 0 <= k < |aliases| ==> !StartsWithAll(aliases[k], prefixes)
    ensures FailingCount(prefixes, aliases) == |aliases|
    decreases |aliases|
  {
    if aliases != [] {
      var init := aliases[..|aliases| - 1];
      assert forall k :: 0 <= k < |init| ==> init[k] == aliases[k];
      FailingCountAll(prefixes, init);
    }
  }

  /** With an empty prefix collection the loop adds nothing. */
  lemma NoPrefixesAddNothing(aliases: seq<string>)
    ensures Normalized([], aliases) == aliases
  {
    AddedLength([], aliases);
  }

  /** One visit leaves the aliases unchanged exactly when there are no prefixes or every alias starts with all of them. */
  lemma NormalizedUnchanged(prefixes: seq<string>, aliases: seq<string>)
    ensures Normalized(prefixes, aliases) == aliases
            <==> (prefixes == [] || forall k :: 0 <= k < |aliases| ==> StartsWithAll(aliases[k], prefixes))
  {
    AddedLength(prefixes, aliases);
    FailingCountZero(prefixes, aliases);
    var c := FailingCount(prefixes, aliases);
    if prefixes != [] && c != 0 {
      MulPositive(|prefixes|, c);
    }
  }

  /** No string starts with both "-" and "/", so the default prefixes expand every alias. */
  lemma DefaultPrefixesExpandEveryAlias(alias: string)
    ensures !StartsWithAll(alias, DefaultPrefixes)
  {
    if alias != [] && alias[0] == '-' {
      assert !StartsWith(alias, DefaultPrefixes[2]);
    } else {
      assert !StartsWith(alias, DefaultPrefixes[0]);
    }
  }

  /** With the default prefixes every alias gains three more: one visit quadruples the list. */
  lemma DefaultPrefixesQuadruple(aliases: seq<string>)
    ensures |Normalized(DefaultPrefixes, aliases)| == 4 * |aliases|
  {
    forall k | 0 <= k < |aliases| ensures !StartsWithAll(aliases[k], DefaultPrefixes) {
      DefaultPrefixesExpandEveryAlias(aliases[k]);
    }
    FailingCountAll(DefaultPrefixes, aliases);
    AddedLength(DefaultPrefixes, aliases);
  }

  /**
   * An alias is added exactly when it is a prefix in front of an alias of the
   * snapshot that does not start with every prefix.
   */
  lemma {:induction false} AddedMembers(prefixes: seq<string>, aliases: seq<string>, y: string)
    ensures y in Added(prefixes, aliases)
            <==> exists k, m :: 0 <= k < |aliases| && 0 <= m < |prefixes|
                                && !StartsWithAll(aliases[k], prefixes) && y == prefixes[m] + aliases[k]
    decreases |aliases|
  {
    if aliases != [] {
      var n := |aliases| - 1;
      var init := aliases[..n];
      AddedMembers(prefixes, init, y);
      assert forall k :: 0 <= k < n ==> init[k] == aliases[k];
      var last := Expansion(prefixes, aliases[n]);
      assert Added(prefixes, aliases) == Added(prefixes, init) + last;
      if y in last {
        var m :| 0 <= m < |last| && last[m] == y;
        assert !StartsWithAll(aliases[n], prefixes) && y == prefixes[m] + aliases[n];
      }
      if exists k, m :: 0 <= k < |aliases| && 0 <= m < |prefixes|
                        && !StartsWithAll(aliases[k], prefixes) && y == prefixes[m] + aliases[k] {
        var k, m :| 0 <= k < |aliases| && 0 <= m < |prefixes|
                    && !StartsWithAll(aliases[k], prefixes) && y == prefixes[m] + aliases[k];
        if k == n {
          assert last[m] == y;
        }
      }
    }
  }

  /** Nothing is ever removed: the aliases before any number of visits come first, unchanged. */
  lemma {:induction false} VisitedKeepsAliases(prefixes: seq<string>, aliases: seq<string>, n: nat)
    ensures aliases <= Visited(prefixes, aliases, n)
  {
    if n > 0 {
      var m := n - 1;
      VisitedKeepsAliases(prefixes, aliases, m);
      VisitKeepsAliases(prefixes, aliases, m, n);
    }
  }

  /** A visit keeps what the previous visits kept. */
  lemma VisitKeepsAliases(prefixes: seq<string>, aliases: seq<string>, m: nat, n: nat)
    requires n == m + 1 && aliases <= Visited(prefixes, aliases, m)
    ensures aliases <= Visited(prefixes, aliases, n)
  {
    var v := Visited(prefixes, aliases, m);
    PrefixTrans(aliases, v, Normalized(prefixes, v));
    VisitedStep(prefixes, aliases, m, n);
  }

  /** The prefix order is transitive (a solver aid for VisitKeepsAliases). */
  lemma PrefixTrans<T>(a: seq<T>, b: seq<T>, c: seq<T>)
    requires a <= b && b <= c
    ensures a <= c
  {
  }

  /** The aliases added for a single alias are its expansion. */
  lemma AddedOne(prefixes: seq<string>, alias: string)
    ensures Added(prefixes, [alias]) == Expansion(prefixes, alias)
  {
    assert [alias][..0] == [];
  }

  /** The aliases added for two aliases are their expansions, in order. */
  lemma AddedTwo(prefixes: seq<string>, a: string, b: string)
    ensures Added(prefixes, [a, b]) == Expansion(prefixes, a) + Expansion(prefixes, b)
  {
    assert [a, b][..1] == [a];
    AddedOne(prefixes, a);
  }

  /** With the default prefixes a symbol's one alias gains "-", "--" and "/" in front, in that order. */
  lemma DefaultPrefixesSingleAlias(alias: string)
    ensures Normalized(DefaultPrefixes, [alias]) == [alias, "-" + alias, "--" + alias, "/" + alias]
  {
    DefaultPrefixesExpandEveryAlias(alias);
    AddedOne(DefaultPrefixes, alias);
    var e := Prefixed(DefaultPrefixes, alias);
    assert e[0] == "-" + alias && e[1] == "--" + alias && e[2] == "/" + alias;
    assert e == ["-" + alias, "--" + alias, "/" + alias];
  }

  /** An alias that starts with every prefix is kept as it is; one that does not is expanded. */
  lemma KeptAndExpanded(prefixes: seq<string>, kept: string, expanded: string)
    requires StartsWithAll(kept, prefixes) && !StartsWithAll(expanded, prefixes)
    ensures Normalized(prefixes, [kept, expanded]) == [kept, expanded] + Prefixed(prefixes, expanded)
  {
    AddedTwo(prefixes, kept, expanded);
  }

  /**
   * A symbol given twice is normalised twice: with a single prefix, the second visit
   * expands the original alias again and keeps the prefixed one.
   */
  lemma RepeatedSymbolExpandsTwice(prefix: string, alias: string)
    requires !StartsWith(alias, prefix)
    ensures Visited([prefix], [alias], 2) == [alias, prefix + alias, prefix + alias]
  {
    var p := [prefix];
    assert Prefixed(p, alias) == [prefix + alias];
    assert StartsWith(prefix + alias, p[0]);
    AddedOne(p, alias);
    VisitedStep(p, [alias], 0, 1);
    assert Visited(p, [alias], 1) == [alias, prefix + alias];
    AddedTwo(p, alias, prefix + alias);
    VisitedStep(p, [alias], 1, 2);
  }
}
