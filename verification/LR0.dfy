/** The LR(0) automaton that `FindStates` has to build, described without loops. */
module LR0 {
  import opened Grammars
  import opened BitSets
  import opened FirstSets

  /** A rule with a dot: the rule's index and how much of its right-hand side has been seen. */
  datatype Config = Config(rule: nat, dot: nat)

  /** A configuration of a state, its follow set, and its propagation links into the state. */
  datatype Item = Item(cfg: Config, fws: set<nat>, fplp: seq<Config>)

  datatype Shift = Shift(sym: nat, stp: nat)

  datatype State = State(basis: seq<Config>, cfp: seq<Item>, shifts: seq<Shift>)

  ghost predicate ValidConfig(g: Grammar, c: Config) {
    c.rule < |g.rules| && c.dot <= |g.rules[c.rule].rhs|
  }

  /** The dot of c stands before the symbol x. */
  ghost predicate Before(g: Grammar, c: Config, x: nat) {
    c.rule < |g.rules| && c.dot < |g.rules[c.rule].rhs| && g.rules[c.rule].rhs[c.dot] == x
  }

  function Advance(c: Config): Config {
    Config(c.rule, c.dot + 1)
  }

  /** The part of the right-hand side after the symbol at the dot. */
  function Rest(g: Grammar, c: Config): Symbols {
    if c.rule < |g.rules| && c.dot < |g.rules[c.rule].rhs| then g.rules[c.rule].rhs[c.dot+1..] else []
  }

  /** d starts a rule of the nonterminal at the dot of c. */
  ghost predicate Predicts(g: Grammar, c: Config, d: Config) {
    d.dot == 0 && d.rule < |g.rules| && Before(g, c, g.rules[d.rule].lhs)
  }

  function AllConfigs(g: Grammar): set<Config> {
    set r: nat, d: nat | r < |g.rules| && d <= |g.rules[r].rhs| :: Config(r, d)
  }

  lemma InAllConfigs(g: Grammar, c: Config)
    ensures c in AllConfigs(g) <==> ValidConfig(g, c)
  {
    if ValidConfig(g, c) { assert Config(c.rule, c.dot) in AllConfigs(g); }
  }

  // ------------------------------------------------------------ first sets of strings

  /** What `Configlist_closure` adds for the string a: the first sets of its symbols, up to
      and including the first one that cannot vanish. */
  function FirstOf(g: Grammar, lam: Flags, first: Sets, a: Symbols): set<nat> {
    if a == [] then {}
    else if g.Terminal(a[0]) then {a[0]}
    else
      var own := if a[0] < |first| then first[a[0]] else {};
      if a[0] < |lam| && lam[a[0]] then own + FirstOf(g, lam, first, a[1..]) else own
  }

  function Vanishes(g: Grammar, lam: Flags, a: Symbols): bool {
    a == [] || (!g.Terminal(a[0]) && a[0] < |lam| && lam[a[0]] && Vanishes(g, lam, a[1..]))
  }

  /** The exact tables are fixpoints of the two loops. */
  lemma ExactIsClosed(g: Grammar, lam: Flags, first: Sets)
    requires g.Valid() && LambdaExact(g, lam) && FirstExact(g, first) && LambdaSound(g, lam)
    ensures LambdaClosed(g, lam) && FirstClosed(g, lam, first)
  {
    forall r: nat | r < |g.rules| ensures LambdaSaturated(g.rules[r], lam) {
      assert g.ValidRule(g.rules[r]);
      if AllLambda(g.rules[r].rhs, lam) {
        RuleDerives(g, r);
        AllLambdaDerives(g, g.rules[r].rhs, lam);
        DerivesTrans(g, [g.rules[r].lhs], g.rules[r].rhs, []);
      }
    }
    forall r: nat, k: nat, t: nat | r < |g.rules| && k < |g.rules[r].rhs| && AllLambda(g.rules[r].rhs[..k], lam)
        && t in Contributes(g, first, g.rules[r].rhs[k])
      ensures t in Contributes(g, first, g.rules[r].lhs)
    {
      assert g.ValidRule(g.rules[r]);
      ExactContributes(g, first, g.rules[r].rhs[k], t);
      BeginsRule(g, r, k, lam, t);
    }
  }

  lemma ExactContributes(g: Grammar, first: Sets, x: nat, t: nat)
    requires FirstExact(g, first) && t in Contributes(g, first, x)
    ensures g.Terminal(t) && Begins(g, [x], t)
  {
    if g.Terminal(x) {
      DerivesSelf(g, [x]);
      assert [t] + [] == [x];
      assert Derives(g, [x], [t] + []);
    } else {
      assert x < |first| && t in first[x];
      assert g.Terminal(t) && Begins(g, [x], t);
    }
  }

  lemma {:induction false} VanishesIsAllLambda(g: Grammar, lam: Flags, a: Symbols)
    requires LambdaSound(g, lam)
    ensures Vanishes(g, lam, a) <==> AllLambda(a, lam)
  {
    if a != [] {
      VanishesIsAllLambda(g, lam, a[1..]);
      if AllLambda(a, lam) { assert AllLambda(a[1..], lam); }
      if Vanishes(g, lam, a) {
        forall k | 0 <= k < |a| ensures a[k] < |lam| && lam[a[k]] {
          if k > 0 { assert a[1..][k-1] == a[k]; }
        }
      }
    }
  }

  lemma {:induction false} FirstOfHas(g: Grammar, lam: Flags, first: Sets, a: Symbols, t: nat, k: nat)
    requires LambdaSound(g, lam) && InFirstAt(g, lam, first, a, t, k)
    ensures t in FirstOf(g, lam, first, a)
  {
    if k > 0 {
      assert a[..k][0] == a[0];
      var w := a[1..][..k-1];
      forall m | 0 <= m < |w| ensures w[m] < |lam| && lam[w[m]] {
        assert w[m] == a[..k][m+1];
      }
      FirstOfHas(g, lam, first, a[1..], t, k - 1);
    }
  }

  lemma {:induction false} FirstOfFrom(g: Grammar, lam: Flags, first: Sets, a: Symbols, t: nat)
    requires LambdaSound(g, lam) && FirstExact(g, first) && t in FirstOf(g, lam, first, a)
    ensures g.Terminal(t) && Begins(g, a, t)
  {
    var x, v := [a[0]], a[1..];
    assert x + v == a && [] + x + v == a;
    DerivesSelf(g, []);
    DerivesSelf(g, a);
    if t in Contributes(g, first, a[0]) {
      ExactContributes(g, first, a[0], t);
      BeginsAfter(g, a, [], x, v, t);
    } else {
      FirstOfFrom(g, lam, first, v, t);
      assert Derives(g, x, []);
      assert x + v + [] == a;
      DerivesSelf(g, v);
      BeginsAfter(g, a, x, v, [], t);
    }
  }

  /** With exact tables the computed first set of a string is exact ... */
  lemma FirstOfExact(g: Grammar, lam: Flags, first: Sets, a: Symbols, t: nat)
    requires g.Valid() && LambdaSound(g, lam) && LambdaExact(g, lam) && FirstExact(g, first)
    ensures t in FirstOf(g, lam, first, a) <==> g.Terminal(t) && Begins(g, a, t)
  {
    if t in FirstOf(g, lam, first, a) { FirstOfFrom(g, lam, first, a, t); }
    if g.Terminal(t) && Begins(g, a, t) {
      ExactIsClosed(g, lam, first);
      var b: Symbols :| Derives(g, a, [t] + b);
      var n: nat :| DerivesIn(g, a, [t] + b, n);
      var k := FirstComplete(g, lam, first, a, t, b, n);
      FirstOfHas(g, lam, first, a, t, k);
    }
  }

  /** ... and so is the test whether it can vanish. */
  lemma VanishesExact(g: Grammar, lam: Flags, first: Sets, a: Symbols)
    requires g.Valid() && LambdaSound(g, lam) && LambdaExact(g, lam) && FirstExact(g, first)
    ensures Vanishes(g, lam, a) <==> Derives(g, a, [])
  {
    VanishesIsAllLambda(g, lam, a);
    if AllLambda(a, lam) { AllLambdaDerives(g, a, lam); }
    if Derives(g, a, []) {
      ExactIsClosed(g, lam, first);
      var n: nat :| DerivesIn(g, a, [], n);
      LambdaComplete(g, lam, a, n);
    }
  }
}
