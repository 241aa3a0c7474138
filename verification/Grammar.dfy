/** Context-free grammars as Lemon holds them after parsing its input: symbols are numbered,
    terminals first, and every rule has an index. */
module Grammars {
  import opened Shared

  datatype Assoc = LEFT | RIGHT | NONE | UNK

  datatype Rule = Rule(lhs: nat, rhs: seq<nat>, precsym: Option<nat>)

  type Symbols = seq<nat>

  /** `nterminal` terminals 0, 1, ... (0 is the end-of-input token) are followed by the
      nonterminals; `prec` is -1 for a symbol without a precedence. */
  datatype Grammar = Grammar(nterminal: nat, nsymbol: nat, rules: seq<Rule>, start: nat,
                             prec: seq<int>, assoc: seq<Assoc>)
  {
    predicate Terminal(x: nat) {
      x < nterminal
    }

    ghost predicate Valid() {
      && 0 < nterminal <= start < nsymbol
      && |prec| == nsymbol && |assoc| == nsymbol
      && forall r :: 0 <= r < |rules| ==> ValidRule(rules[r])
    }

    ghost predicate ValidRule(rule: Rule) {
      && nterminal <= rule.lhs < nsymbol
      && (forall k :: 0 <= k < |rule.rhs| ==> rule.rhs[k] < nsymbol)
      && (rule.precsym.Some? ==> rule.precsym.value < nsymbol)
    }

    /** `FindStates` reports every rule that breaks this. */
    ghost predicate StartNotOnRhs() {
      forall r, k :: 0 <= r < |rules| && 0 <= k < |rules[r].rhs| ==> rules[r].rhs[k] != start
    }
  }

  // ------------------------------------------------------------ derivations

  /** b is a with one occurrence of the left-hand side of rule r, at position i, expanded. */
  ghost predicate StepAt(g: Grammar, a: Symbols, b: Symbols, i: nat, r: nat) {
    i < |a| && r < |g.rules| && a[i] == g.rules[r].lhs && b == a[..i] + g.rules[r].rhs + a[i+1..]
  }

  ghost predicate Step(g: Grammar, a: Symbols, b: Symbols) {
    exists i: nat, r: nat :: StepAt(g, a, b, i, r)
  }

  /** a derives b in n steps. */
  ghost predicate DerivesIn(g: Grammar, a: Symbols, b: Symbols, n: nat)
    decreases n
  {
    if n == 0 then a == b else exists c: Symbols :: Step(g, a, c) && DerivesIn(g, c, b, n - 1)
  }

  ghost predicate Derives(g: Grammar, a: Symbols, b: Symbols) {
    exists n: nat :: DerivesIn(g, a, b, n)
  }

  lemma {:induction false} DerivesInTrans(g: Grammar, a: Symbols, b: Symbols, c: Symbols, m: nat, n: nat)
    requires DerivesIn(g, a, b, m) && DerivesIn(g, b, c, n)
    ensures DerivesIn(g, a, c, m + n)
    decreases m
  {
    if m > 0 {
      var d: Symbols :| Step(g, a, d) && DerivesIn(g, d, b, m - 1);
      DerivesInTrans(g, d, b, c, m - 1, n);
    }
  }

  lemma DerivesTrans(g: Grammar, a: Symbols, b: Symbols, c: Symbols)
    requires Derives(g, a, b) && Derives(g, b, c)
    ensures Derives(g, a, c)
  {
    var m: nat :| DerivesIn(g, a, b, m);
    var n: nat :| DerivesIn(g, b, c, n);
    DerivesInTrans(g, a, b, c, m, n);
  }

  lemma DerivesSelf(g: Grammar, a: Symbols)
    ensures Derives(g, a, a)
  {
    assert DerivesIn(g, a, a, 0);
  }

  lemma StepContext(g: Grammar, u: Symbols, a: Symbols, c: Symbols, v: Symbols, i: nat, r: nat)
    requires StepAt(g, a, c, i, r)
    ensures StepAt(g, u + a + v, u + c + v, |u| + i, r)
  {
    var x, y := u + a + v, u + c + v;
    assert x[..|u| + i] == u + a[..i];
    assert x[|u| + i + 1..] == a[i+1..] + v;
    assert y == x[..|u| + i] + g.rules[r].rhs + x[|u| + i + 1..];
  }

  lemma {:induction false} DerivesInContext(g: Grammar, u: Symbols, a: Symbols, b: Symbols, v: Symbols, n: nat)
    requires DerivesIn(g, a, b, n)
    ensures DerivesIn(g, u + a + v, u + b + v, n)
    decreases n
  {
    if n > 0 {
      hide StepAt;
      var c: Symbols :| Step(g, a, c) && DerivesIn(g, c, b, n - 1);
      var i: nat, r: nat :| StepAt(g, a, c, i, r);
      DerivesInContext(g, u, c, b, v, n - 1);
      StepContext(g, u, a, c, v, i, r);
      assert Step(g, u + a + v, u + c + v);
    }
  }

  /** Derivations work inside any context. */
  lemma DerivesContext(g: Grammar, u: Symbols, a: Symbols, b: Symbols, v: Symbols)
    requires Derives(g, a, b)
    ensures Derives(g, u + a + v, u + b + v)
  {
    var n: nat :| DerivesIn(g, a, b, n);
    DerivesInContext(g, u, a, b, v, n);
  }

  lemma RuleDerives(g: Grammar, r: nat)
    requires r < |g.rules|
    ensures Derives(g, [g.rules[r].lhs], g.rules[r].rhs)
  {
    var a, b := [g.rules[r].lhs], g.rules[r].rhs;
    assert b == a[..0] + b + a[1..];
    assert StepAt(g, a, b, 0, r);
    assert Step(g, a, b) && DerivesIn(g, b, b, 0);
    assert DerivesIn(g, a, b, 1);
  }

  // ------------------------------------------------------------ rightmost derivations

  ghost predicate AllTerminals(g: Grammar, a: Symbols) {
    forall k :: 0 <= k < |a| ==> g.Terminal(a[k])
  }

  /** Expanding, at each step, the rightmost nonterminal by the next rule of `rs` turns a into b. */
  ghost predicate Rightmost(g: Grammar, a: Symbols, rs: seq<nat>, b: Symbols)
    decreases rs
  {
    if rs == [] then a == b
    else exists i: nat, c: Symbols :: StepAt(g, a, c, i, rs[0]) && AllTerminals(g, a[i+1..]) && Rightmost(g, c, rs[1..], b)
  }

  /** A rightmost derivation is a derivation. */
  lemma {:induction false} RightmostDerives(g: Grammar, a: Symbols, rs: seq<nat>, b: Symbols)
    requires Rightmost(g, a, rs, b)
    ensures DerivesIn(g, a, b, |rs|)
    decreases rs
  {
    if rs != [] {
      var i: nat, c: Symbols :| StepAt(g, a, c, i, rs[0]) && AllTerminals(g, a[i+1..]) && Rightmost(g, c, rs[1..], b);
      RightmostDerives(g, c, rs[1..], b);
      assert Step(g, a, c);
    }
  }

  lemma StepInside(g: Grammar, a: Symbols, b: Symbols, i: nat, r: nat)
    requires StepAt(g, a, b, i, r)
    ensures i < |a|
  {
  }

  /** A terminal may be appended to every line of a rightmost derivation. */
  lemma {:induction false} RightmostAppend(g: Grammar, a: Symbols, rs: seq<nat>, b: Symbols, t: nat)
    requires Rightmost(g, a, rs, b) && g.Terminal(t)
    ensures Rightmost(g, a + [t], rs, b + [t])
    decreases rs
  {
    if rs != [] {
      var i: nat, c: Symbols :| StepAt(g, a, c, i, rs[0]) && AllTerminals(g, a[i+1..]) && Rightmost(g, c, rs[1..], b);
      RightmostAppend(g, c, rs[1..], b, t);
      StepContext(g, [], a, c, [t], i, rs[0]);
      assert [] + a + [t] == a + [t] && [] + c + [t] == c + [t];
      assert i < |a| by { StepInside(g, a, c, i, rs[0]); }
      hide StepAt;
      var a', c' := a + [t], c + [t];
      assert a'[i+1..] == a[i+1..] + [t];
      assert StepAt(g, a', c', i, rs[0]) && AllTerminals(g, a'[i+1..]) && Rightmost(g, c', rs[1..], b + [t]);
    }
  }

  /** Undoing a reduction by rule r at the right end is one more rightmost step in front. */
  lemma RightmostReduce(g: Grammar, a: Symbols, rs: seq<nat>, b: Symbols, r: nat)
    requires r < |g.rules| && Rightmost(g, a + g.rules[r].rhs, rs, b)
    ensures Rightmost(g, a + [g.rules[r].lhs], [r] + rs, b)
  {
    var x, y := a + [g.rules[r].lhs], a + g.rules[r].rhs;
    assert x[..|a|] == a && x[|a|+1..] == [];
    assert y == x[..|a|] + g.rules[r].rhs + x[|a|+1..];
    var rs' := [r] + rs;
    assert rs'[1..] == rs;
    assert StepAt(g, x, y, |a|, rs'[0]) && AllTerminals(g, x[|a|+1..]) && Rightmost(g, y, rs'[1..], b);
  }
}
