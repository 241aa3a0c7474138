/** The LALR(1) lookaheads of a productive grammar by derivations alone: t follows a configuration in a
    state if and only if some rightmost derivation, along some path to the state, has t next. */
module Realized {
  import opened Grammars
  import opened BitSets
  import opened FirstSets
  import opened LR0
  import opened Closure
  import opened Automaton
  import opened Lookaheads
  import opened Viable

  /** On the path a to state q, a right-sentential form has a up to the dot of c and t, or the end, behind
      the nonterminal that is expanded by the rule of c. */
  ghost predicate RealizedBy(g: Grammar, states: seq<State>, q: nat, c: Config, t: nat, a: Symbols, rs: seq<nat>, u: Symbols, v: Symbols) {
    Leads(states, a, q) && ReachedBy(g, a, c, rs, u, v) && Next(v) == t
  }

  ghost predicate Realized(g: Grammar, states: seq<State>, q: nat, c: Config, t: nat) {
    exists a: Symbols, rs: seq<nat>, u: Symbols, v: Symbols :: RealizedBy(g, states, q, c, t, a, rs, u, v)
  }

  // ------------------------------------------------------------ what is realized is a lookahead

  lemma RealizedLooks(g: Grammar, states: seq<State>, q: nat, c: Config, t: nat)
    requires Viable.Complete(g, states) && Realized(g, states, q, c, t)
    ensures q < |states| && Has(states[q].cfp, c) && Lookahead(g, states, q, c, t)
  {
    hide Viable.Complete, Rightmost, AllTerminals, NextIs;
    var a: Symbols, rs: seq<nat>, u: Symbols, v: Symbols :| RealizedBy(g, states, q, c, t, a, rs, u, v);
    var b := u + [g.rules[c.rule].lhs] + v;
    assert b[..|u|] == u && b[|u|+1..] == v;
    IsValid(g, states);
    NextOfTerminals(g, v);
    var p := ViablePrefix(g, states, rs, b, |u|, c.rule, t);
    var q' := Along(g, states, u, p, c.rule, t, c.dot);
    SameTop(g, states, a, q, q', c, t);
  }

  lemma IsValid(g: Grammar, states: seq<State>)
    requires Viable.Complete(g, states)
    ensures g.Valid()
  {
  }

  // ------------------------------------------------------------ every lookahead is realized

  lemma {:induction false} DerivedAlphabet(g: Grammar, a: Symbols, b: Symbols, n: nat)
    requires g.Valid() && Alphabet(g, a) && DerivesIn(g, a, b, n)
    ensures Alphabet(g, b)
    decreases n
  {
    if n > 0 {
      var c: Symbols :| Step(g, a, c) && DerivesIn(g, c, b, n - 1);
      var i: nat, r: nat :| StepAt(g, a, c, i, r);
      assert g.ValidRule(g.rules[r]);
      DerivedAlphabet(g, c, b, n - 1);
    }
  }

  /** What begins with a terminal derives a terminal string that begins with it. */
  lemma BeginsString(g: Grammar, a: Symbols, t: nat) returns (w: Symbols)
    requires g.Valid() && Productive(g) && Alphabet(g, a) && g.Terminal(t) && Begins(g, a, t)
    ensures AllTerminals(g, w) && w != [] && w[0] == t && Derives(g, a, w)
  {
    var c: Symbols :| Derives(g, a, [t] + c);
    var n: nat :| DerivesIn(g, a, [t] + c, n);
    hide DerivesIn, Productive, Step;
    DerivedAlphabet(g, a, [t] + c, n);
    RestProductive(g, [t] + c);
    w :| AllTerminals(g, w) && Derives(g, [t] + c, w);
    var m: nat :| DerivesIn(g, [t] + c, w, m);
    var w1, n1, w2, n2 := Split(g, [t], c, w, m);
    TerminalsStay(g, [t], w1, n1);
    DerivesTrans(g, a, [t] + c, w);
  }

  /** Every state is reached. */
  lemma {:induction false} PathTo(g: Grammar, lam: Flags, first: Sets, states: seq<State>, q: nat) returns (a: Symbols)
    requires Collection(g, lam, first, states) && q < |states|
    ensures Leads(states, a, q)
  {
    a := [];
    if q > 0 {
      assert Discovered(states, q);
      var i: nat, x: nat :| i < q && i < |states| && HasShift(states[i], x, q);
      hide Collection;
      var b := PathTo(g, lam, first, states, i);
      a := b + [x];
      assert a[..|a|-1] == b && a[|a|-1] == x;
    }
  }

  lemma GeneratedRealized(g: Grammar, lam: Flags, first: Sets, states: seq<State>, q: nat, c: Config, t: nat)
    requires g.Valid() && Productive(g) && Collection(g, lam, first, states) && Generated(g, states, q, c, t)
    ensures Realized(g, states, q, c, t)
  {
    hide Rightmost, Productive, Collection, Alphabet, AllTerminals;
    if q == 0 && c.dot == 0 && c.rule < |g.rules| && g.rules[c.rule].lhs == g.start && t == 0 {
      StartRealized(g, lam, first, states, c);
    } else {
      var d :| Has(states[q].cfp, d) && Predicts(g, d, c) && g.Terminal(t) && Begins(g, Rest(g, d), t);
      var a := PathTo(g, lam, first, states, q);
      ReachedAll(g, lam, first, states, a, q, d);
      var rs: seq<nat>, u: Symbols, v: Symbols :| ReachedBy(g, a, d, rs, u, v);
      RuleAlphabet(g, d.rule, d.dot + 1);
      var y := BeginsString(g, Rest(g, d), t);
      var rs' := ReachedVia(g, a, d, c, rs, u, v, y);
      assert RealizedBy(g, states, q, c, t, a, rs', a, y + v);
    }
  }

  lemma StartRealized(g: Grammar, lam: Flags, first: Sets, states: seq<State>, c: Config)
    requires Collection(g, lam, first, states) && c.dot == 0 && c.rule < |g.rules| && g.rules[c.rule].lhs == g.start
    ensures Realized(g, states, 0, c, 0)
  {
    assert [] + [g.start] + [] == [g.start];
    assert RealizedBy(g, states, 0, c, 0, [], [], [], []);
  }

  lemma ShiftRealized(g: Grammar, states: seq<State>, p: nat, d: Config, q: nat, x: nat, t: nat)
    requires p < |states| && Realized(g, states, p, d, t) && Before(g, d, x) && HasShift(states[p], x, q)
    ensures Realized(g, states, q, Advance(d), t)
  {
    hide Rightmost;
    var a: Symbols, rs: seq<nat>, u: Symbols, v: Symbols :| RealizedBy(g, states, p, d, t, a, rs, u, v);
    var rhs, b := g.rules[d.rule].rhs, a + [x];
    assert rhs[..d.dot+1] == rhs[..d.dot] + [x];
    assert b[..|b|-1] == a && b[|b|-1] == x;
    assert RealizedBy(g, states, q, Advance(d), t, b, rs, u, v);
  }

  lemma PredictedRealized(g: Grammar, states: seq<State>, q: nat, d: Config, c: Config, t: nat)
    requires g.Valid() && Realized(g, states, q, d, t) && Predicts(g, d, c) && Derives(g, Rest(g, d), [])
    ensures Realized(g, states, q, c, t)
  {
    hide Rightmost, Derives, Leads;
    var a: Symbols, rs: seq<nat>, u: Symbols, v: Symbols :| RealizedBy(g, states, q, d, t, a, rs, u, v);
    var rs' := ReachedVia(g, a, d, c, rs, u, v, []);
    assert [] + v == v;
    assert RealizedBy(g, states, q, c, t, a, rs', a, v);
  }

  lemma {:induction false} LooksRealized(g: Grammar, lam: Flags, first: Sets, states: seq<State>, q: nat, c: Config, t: nat, n: nat)
    requires g.Valid() && Productive(g) && Collection(g, lam, first, states) && LookIn(g, states, q, c, t, n)
    ensures Realized(g, states, q, c, t)
    decreases n
  {
    hide Productive, Collection, Generated, Realized;
    if n == 0 {
      GeneratedRealized(g, lam, first, states, q, c, t);
    } else {
      var p: nat, d :| Propagates(g, states, p, d, q, c) && LookIn(g, states, p, d, t, n - 1);
      LooksRealized(g, lam, first, states, p, d, t, n - 1);
      if p == q && Predicts(g, d, c) && Derives(g, Rest(g, d), []) {
        PredictedRealized(g, states, q, d, c, t);
      } else {
        var x: nat :| Before(g, d, x) && HasShift(states[p], x, q);
        ShiftRealized(g, states, p, d, q, x, t);
      }
    }
  }

  /** In a productive grammar the lookaheads are exactly what rightmost derivations realize. */
  lemma LookaheadIs(g: Grammar, lam: Flags, first: Sets, states: seq<State>, q: nat, c: Config, t: nat)
    requires g.Valid() && Productive(g) && Collection(g, lam, first, states)
    ensures Lookahead(g, states, q, c, t) <==> Realized(g, states, q, c, t)
  {
    hide Productive, Collection, Realized;
    if Lookahead(g, states, q, c, t) {
      var n: nat :| LookIn(g, states, q, c, t, n);
      LooksRealized(g, lam, first, states, q, c, t, n);
    }
    if Realized(g, states, q, c, t) {
      CollectionComplete(g, lam, first, states);
      RealizedLooks(g, states, q, c, t);
    }
  }

  /** So are the follow sets that `FindFollowSets` leaves. */
  lemma FollowIs(g: Grammar, lam: Flags, first: Sets, states: seq<State>, states': seq<State>, q: nat, k: nat, t: nat)
    requires g.Valid() && Productive(g) && Collection(g, lam, first, states) && LookaheadsExact(g, states, states')
    requires q < |states'| && k < |states'[q].cfp|
    ensures t in states'[q].cfp[k].fws <==> Realized(g, states, q, states'[q].cfp[k].cfg, t)
  {
    hide Productive, Collection, Realized;
    assert FollowExactAt(g, states, states', q, k);
    LookaheadIs(g, lam, first, states, q, states'[q].cfp[k].cfg, t);
  }
}
