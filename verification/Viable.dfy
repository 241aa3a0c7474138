/** Rightmost derivations and the automaton: whatever part of a rightmost derivation has been
    read, the automaton has the configuration that goes on with it, with the lookahead it needs. */
module Viable {
  import opened Grammars
  import opened BitSets
  import opened FirstSets
  import opened LR0
  import opened Closure
  import opened Automaton
  import opened Lookaheads

  // ------------------------------------------------------------ derivations of a concatenation

  /** A derivation from u + v consists of one from u and one from v. */
  lemma {:induction false} Split(g: Grammar, u: Symbols, v: Symbols, w: Symbols, n: nat)
    returns (w1: Symbols, n1: nat, w2: Symbols, n2: nat)
    requires DerivesIn(g, u + v, w, n)
    ensures w == w1 + w2 && n == n1 + n2 && DerivesIn(g, u, w1, n1) && DerivesIn(g, v, w2, n2)
    decreases n
  {
    hide StepAt;
    if n == 0 {
      w1, n1, w2, n2 := u, 0, v, 0;
    } else {
      var c: Symbols :| Step(g, u + v, c) && DerivesIn(g, c, w, n - 1);
      var i: nat, r: nat :| StepAt(g, u + v, c, i, r);
      StepBounds(g, u + v, c, i, r);
      if i < |u| {
        var u' := u[..i] + g.rules[r].rhs + u[i+1..];
        StepLeft(g, u, v, c, i, r);
        w1, n1, w2, n2 := Split(g, u', v, w, n - 1);
        assert Step(g, u, u');
        n1 := n1 + 1;
      } else {
        var v' := v[..i-|u|] + g.rules[r].rhs + v[i-|u|+1..];
        StepRight(g, u, v, c, i, r);
        w1, n1, w2, n2 := Split(g, u, v', w, n - 1);
        assert Step(g, v, v');
        n2 := n2 + 1;
      }
    }
  }

  lemma StepBounds(g: Grammar, a: Symbols, c: Symbols, i: nat, r: nat)
    requires StepAt(g, a, c, i, r)
    ensures i < |a| && r < |g.rules|
  {
  }

  lemma StepLeft(g: Grammar, u: Symbols, v: Symbols, c: Symbols, i: nat, r: nat)
    requires StepAt(g, u + v, c, i, r) && i < |u|
    ensures StepAt(g, u, u[..i] + g.rules[r].rhs + u[i+1..], i, r)
    ensures c == u[..i] + g.rules[r].rhs + u[i+1..] + v
  {
    assert (u + v)[..i] == u[..i] && (u + v)[i+1..] == u[i+1..] + v;
  }

  lemma StepRight(g: Grammar, u: Symbols, v: Symbols, c: Symbols, i: nat, r: nat)
    requires StepAt(g, u + v, c, i, r) && i >= |u|
    ensures StepAt(g, v, v[..i-|u|] + g.rules[r].rhs + v[i-|u|+1..], i - |u|, r)
    ensures c == u + (v[..i-|u|] + g.rules[r].rhs + v[i-|u|+1..])
  {
    assert (u + v)[..i] == u + v[..i-|u|] && (u + v)[i+1..] == v[i-|u|+1..];
  }

  lemma NoStep(g: Grammar, a: Symbols)
    requires g.Valid() && AllTerminals(g, a)
    ensures forall c: Symbols :: !Step(g, a, c)
  {
    forall c: Symbols, i: nat, r: nat ensures !StepAt(g, a, c, i, r) {
      assert r < |g.rules| ==> g.ValidRule(g.rules[r]);
    }
  }

  /** Terminals derive only themselves. */
  lemma TerminalsStay(g: Grammar, a: Symbols, b: Symbols, n: nat)
    requires g.Valid() && AllTerminals(g, a) && DerivesIn(g, a, b, n)
    ensures n == 0 && a == b
  {
    NoStep(g, a);
  }

  /** The rightmost nonterminal. */
  lemma {:induction false} LastNonterminal(g: Grammar, a: Symbols) returns (k: nat)
    requires !AllTerminals(g, a)
    ensures k < |a| && !g.Terminal(a[k]) && AllTerminals(g, a[k+1..])
  {
    k := |a| - 1;
    if g.Terminal(a[k]) {
      var front := a[..k];
      assert a == front + [a[|a|-1]];
      k := LastNonterminal(g, front);
      assert a[k+1..] == front[k+1..] + [a[|a|-1]];
    }
  }

  /** Every derivation of a sentence can be made a rightmost one. */
  lemma {:induction false} RightmostExists(g: Grammar, a: Symbols, w: Symbols, n: nat) returns (rs: seq<nat>)
    requires g.Valid() && DerivesIn(g, a, w, n) && AllTerminals(g, w)
    ensures Rightmost(g, a, rs, w) && |rs| == n
    decreases n
  {
    if AllTerminals(g, a) {
      TerminalsStay(g, a, w, n);
      return [];
    }
    var k := LastNonterminal(g, a);
    var r, c := RightmostFirst(g, a, w, n, k);
    var rest := RightmostExists(g, c, w, n - 1);
    rs := [r] + rest;
    assert rs[1..] == rest;
    assert StepAt(g, a, c, k, rs[0]) && AllTerminals(g, a[k+1..]) && Rightmost(g, c, rs[1..], w);
  }

  /** The rightmost nonterminal can be expanded first. */
  lemma RightmostFirst(g: Grammar, a: Symbols, w: Symbols, n: nat, k: nat) returns (r: nat, c: Symbols)
    requires g.Valid() && DerivesIn(g, a, w, n) && AllTerminals(g, w) && k < |a| && !g.Terminal(a[k])
    ensures n > 0 && StepAt(g, a, c, k, r) && DerivesIn(g, c, w, n - 1)
  {
    hide *;
    var a1, x, a2 := a[..k], [a[k]], a[k+1..];
    assert a == a1 + (x + a2);
    var w1, n1, w', n' := Split(g, a1, x + a2, w, n);
    var wx, m, w2, n2 := Split(g, x, a2, w', n');
    NotThere(g, w1, x, wx, w2, m);
    var d;
    r, d := FirstStep(g, a[k], wx, m);
    c := a1 + d + a2;
    StepHere(g, a, k, r);
    Together(g, a1, d, a2, w1, wx, w2, n1, m - 1, n2);
    assert w == w1 + wx + w2;
  }

  lemma StepHere(g: Grammar, a: Symbols, k: nat, r: nat)
    requires k < |a| && r < |g.rules| && a[k] == g.rules[r].lhs
    ensures StepAt(g, a, a[..k] + g.rules[r].rhs + a[k+1..], k, r)
  {
  }

  lemma InTail(u: Symbols, z: Symbols, k: nat)
    ensures |u| <= k < |u + z| ==> (u + z)[k] == z[k-|u|]
  {
  }

  lemma NotThere(g: Grammar, w1: Symbols, x: Symbols, wx: Symbols, w2: Symbols, m: nat)
    requires AllTerminals(g, w1 + (wx + w2)) && |x| == 1 && !g.Terminal(x[0]) && DerivesIn(g, x, wx, m)
    ensures m > 0
  {
    InTail(w1, wx + w2, |w1|);
    InTail([], wx, 0);
  }

  lemma FirstStep(g: Grammar, x: nat, w: Symbols, m: nat) returns (r: nat, d: Symbols)
    requires m > 0 && DerivesIn(g, [x], w, m)
    ensures r < |g.rules| && g.rules[r].lhs == x && d == g.rules[r].rhs && DerivesIn(g, d, w, m - 1)
  {
    d :| Step(g, [x], d) && DerivesIn(g, d, w, m - 1);
    var i: nat;
    i, r :| StepAt(g, [x], d, i, r);
    assert [x][..0] == [] && [x][1..] == [];
  }

  lemma Together(g: Grammar, a1: Symbols, d: Symbols, a2: Symbols, w1: Symbols, wx: Symbols, w2: Symbols, n1: nat, m: nat, n2: nat)
    requires DerivesIn(g, a1, w1, n1) && DerivesIn(g, d, wx, m) && DerivesIn(g, a2, w2, n2)
    ensures DerivesIn(g, a1 + d + a2, w1 + wx + w2, n1 + m + n2)
  {
    hide *;
    DerivesInContext(g, a1, d, wx, a2, m);
    DerivesInContext(g, a1 + wx, a2, w2, [], n2);
    assert a1 + wx + a2 + [] == a1 + wx + a2 && a1 + wx + w2 + [] == a1 + wx + w2;
    DerivesInTrans(g, a1 + d + a2, a1 + wx + a2, a1 + wx + w2, m, n2);
    DerivesInContext(g, [], a1, w1, wx + w2, n1);
    assert [] + a1 + (wx + w2) == a1 + wx + w2 && [] + w1 + (wx + w2) == w1 + wx + w2;
    DerivesInTrans(g, a1 + d + a2, a1 + wx + w2, w1 + wx + w2, m + n2, n1);
  }

  // ------------------------------------------------------------ the last step of a rightmost derivation

  /** The last step of a rightmost derivation to b expands position i of c by the last rule. */
  ghost predicate LastStep(g: Grammar, a: Symbols, rs: seq<nat>, b: Symbols, c: Symbols, i: nat) {
    rs != [] && Rightmost(g, a, rs[..|rs|-1], c) && StepAt(g, c, b, i, rs[|rs|-1]) && AllTerminals(g, c[i+1..])
  }

  lemma {:induction false} RightmostLast(g: Grammar, a: Symbols, rs: seq<nat>, b: Symbols) returns (c: Symbols, i: nat)
    requires Rightmost(g, a, rs, b) && rs != []
    ensures LastStep(g, a, rs, b, c, i)
    decreases rs
  {
    var j: nat, d: Symbols :| StepAt(g, a, d, j, rs[0]) && AllTerminals(g, a[j+1..]) && Rightmost(g, d, rs[1..], b);
    if |rs| == 1 {
      c, i := a, j;
    } else {
      c, i := RightmostLast(g, d, rs[1..], b);
      var front := rs[..|rs|-1];
      assert front[0] == rs[0] && front[1..] == rs[1..][..|rs[1..]|-1];
      assert StepAt(g, a, d, j, front[0]) && AllTerminals(g, a[j+1..]) && Rightmost(g, d, front[1..], c);
    }
  }

  // ------------------------------------------------------------ what can come next

  /** Terminal t, or the end marker, can come right after a sentential form ends with a. */
  ghost predicate NextIs(g: Grammar, a: Symbols, t: nat) {
    g.Terminal(t) && (Begins(g, a, t) || (t == 0 && Derives(g, a, [])))
  }

  lemma NextBefore(g: Grammar, a: Symbols, b: Symbols, t: nat)
    requires Step(g, a, b) && NextIs(g, b, t)
    ensures NextIs(g, a, t)
  {
    assert DerivesIn(g, b, b, 0);
    assert DerivesIn(g, a, b, 1);
    if Begins(g, b, t) {
      var c: Symbols :| Derives(g, b, [t] + c);
      DerivesTrans(g, a, b, [t] + c);
    } else {
      DerivesTrans(g, a, b, []);
    }
  }

  /** What comes after u + v comes from u, or, if u can vanish, from v. */
  lemma NextAfter(g: Grammar, u: Symbols, v: Symbols, t: nat)
    requires NextIs(g, u + v, t)
    ensures Begins(g, u, t) || (Derives(g, u, []) && NextIs(g, v, t))
  {
    hide DerivesIn;
    if Begins(g, u + v, t) {
      var c: Symbols :| Derives(g, u + v, [t] + c);
      var n: nat :| DerivesIn(g, u + v, [t] + c, n);
      var b1, n1, b2, n2 := Split(g, u, v, [t] + c, n);
      assert Derives(g, u, b1) && Derives(g, v, b2);
      if b1 == [] {
        assert b2 == [t] + c;
      } else {
        StartsWith(b1, b2, t, c);
        assert Derives(g, u, [t] + b1[1..]);
      }
    } else {
      var n: nat :| DerivesIn(g, u + v, [], n);
      var b1, n1, b2, n2 := Split(g, u, v, [], n);
      assert b1 == [] && b2 == [];
      assert Derives(g, u, []) && Derives(g, v, []);
    }
  }

  lemma StartsWith(a: Symbols, b: Symbols, t: nat, c: Symbols)
    requires a + b == [t] + c && a != []
    ensures a == [t] + a[1..]
  {
    assert (a + b)[0] == a[0];
  }

  /** The first of some terminals, or the end marker. */
  function Next(a: Symbols): nat {
    if a == [] then 0 else a[0]
  }

  lemma NextOfTerminals(g: Grammar, a: Symbols)
    requires g.Valid() && AllTerminals(g, a)
    ensures NextIs(g, a, Next(a))
  {
    DerivesSelf(g, a);
    if a != [] { assert a == [a[0]] + a[1..]; }
  }

  // ------------------------------------------------------------ paths of the automaton

  /** The automaton goes from its first state to q over the symbols a. */
  ghost predicate Leads(states: seq<State>, a: Symbols, q: nat)
    decreases |a|
  {
    if a == [] then q == 0 && 0 < |states|
    else exists p: nat :: p < |states| && Leads(states, a[..|a|-1], p) && HasShift(states[p], a[|a|-1], q)
  }

  /** What is used of the automaton. */
  ghost predicate Complete(g: Grammar, states: seq<State>) {
    && |states| > 0 && g.Valid()
    && (forall q: nat :: q < |states| ==> Finished(g, states, q))
    && (forall q: nat, c, d :: q < |states| && Has(states[q].cfp, c) && Predicts(g, c, d) ==> Has(states[q].cfp, d))
    && (forall q: nat, c :: q < |states| && c in states[q].basis ==> Has(states[q].cfp, c))
    && forall r: nat :: r < |g.rules| && g.rules[r].lhs == g.start ==> Has(states[0].cfp, Config(r, 0))
  }

  lemma CollectionComplete(g: Grammar, lam: Flags, first: Sets, states: seq<State>)
    requires g.Valid() && Collection(g, lam, first, states)
    ensures Complete(g, states)
  {
    hide Finished, StrictlySorted, FollowStart, LinksWithin, DistinctItems, Discovered, KernelBasis, ClosedUnder;
    forall q: nat, c, d | q < |states| && Has(states[q].cfp, c) && Predicts(g, c, d) ensures Has(states[q].cfp, d) {
      assert StateOK(g, lam, first, q, states[q]);
    }
    forall q: nat, c | q < |states| && c in states[q].basis ensures Has(states[q].cfp, c) {
      assert StateOK(g, lam, first, q, states[q]);
    }
    forall r: nat | r < |g.rules| && g.rules[r].lhs == g.start ensures Has(states[0].cfp, Config(r, 0)) {
      assert StateOK(g, lam, first, 0, states[0]);
      assert Config(r, 0) in states[0].basis;
    }
  }

  lemma ShiftTarget(g: Grammar, states: seq<State>, p: nat, x: nat, q: nat)
    requires Complete(g, states) && p < |states| && HasShift(states[p], x, q)
    ensures q < |states|
    ensures forall q': nat :: HasShift(states[p], x, q') ==> q' == q
    ensures forall c :: Has(states[p].cfp, c) && Before(g, c, x) ==> Has(states[q].cfp, Advance(c))
  {
    assert Finished(g, states, p);
    forall c | Has(states[p].cfp, c) && Before(g, c, x) ensures Has(states[q].cfp, Advance(c)) {
      assert InGoto(g, states[p].cfp, x, Advance(c));
    }
    var k :| 0 <= k < |states[p].shifts| && states[p].shifts[k] == Shift(x, q);
    forall q': nat | HasShift(states[p], x, q') ensures q' == q {
      var k' :| 0 <= k' < |states[p].shifts| && states[p].shifts[k'] == Shift(x, q');
      assert k == k';
    }
  }

  lemma ShiftExists(g: Grammar, states: seq<State>, p: nat, c: Config) returns (q: nat)
    requires Complete(g, states) && p < |states| && Has(states[p].cfp, c) && c.rule < |g.rules| && c.dot < |g.rules[c.rule].rhs|
    ensures HasShift(states[p], g.rules[c.rule].rhs[c.dot], q)
  {
    assert Finished(g, states, p);
    var x := g.rules[c.rule].rhs[c.dot];
    var i :| 0 <= i < |states[p].cfp| && states[p].cfp[i].cfg == c;
    assert Before(g, states[p].cfp[i].cfg, x);
    assert ShiftsOn(states[p], x);
    var k :| 0 <= k < |states[p].shifts| && states[p].shifts[k].sym == x;
    q := states[p].shifts[k].stp;
    assert states[p].shifts[k] == Shift(x, q);
  }

  lemma {:induction false} OnePath(g: Grammar, states: seq<State>, a: Symbols, q: nat, q': nat)
    requires Complete(g, states) && Leads(states, a, q) && Leads(states, a, q')
    ensures q == q' && q < |states|
    decreases |a|
  {
    if a != [] {
      var p: nat :| p < |states| && Leads(states, a[..|a|-1], p) && HasShift(states[p], a[|a|-1], q);
      var p': nat :| p' < |states| && Leads(states, a[..|a|-1], p') && HasShift(states[p'], a[|a|-1], q');
      OnePath(g, states, a[..|a|-1], p, p');
      ShiftTarget(g, states, p, a[|a|-1], q);
    }
  }

  /** Any part of a path is a path. */
  lemma {:induction false} PathPrefix(states: seq<State>, a: Symbols, q: nat, k: nat) returns (p: nat)
    requires Leads(states, a, q) && k <= |a|
    ensures Leads(states, a[..k], p)
    decreases |a|
  {
    if k == |a| {
      p := q;
      assert a[..k] == a;
    } else {
      var o: nat :| o < |states| && Leads(states, a[..|a|-1], o) && HasShift(states[o], a[|a|-1], q);
      p := PathPrefix(states, a[..|a|-1], o, k);
      assert a[..|a|-1][..k] == a[..k];
    }
  }

  /** State q is reached over a, has configuration c, and t is a lookahead of c there. */
  ghost predicate Expects(g: Grammar, states: seq<State>, a: Symbols, q: nat, c: Config, t: nat) {
    q < |states| && Leads(states, a, q) && Has(states[q].cfp, c) && Lookahead(g, states, q, c, t)
  }

  /** Along the right-hand side of a rule the configuration moves on, with its lookaheads. */
  lemma {:induction false} Along(g: Grammar, states: seq<State>, a: Symbols, p: nat, r: nat, t: nat, j: nat) returns (q: nat)
    requires Complete(g, states) && r < |g.rules| && Expects(g, states, a, p, Config(r, 0), t) && j <= |g.rules[r].rhs|
    ensures Expects(g, states, a + g.rules[r].rhs[..j], q, Config(r, j), t)
    decreases j
  {
    if j == 0 {
      q := p;
      assert a + g.rules[r].rhs[..0] == a;
    } else {
      var i: nat := j - 1;
      var o := Along(g, states, a, p, r, t, i);
      var x, c := g.rules[r].rhs[i], Config(r, i);
      q := ShiftExists(g, states, o, c);
      ShiftTarget(g, states, o, x, q);
      var b := a + g.rules[r].rhs[..j];
      assert b[..|b|-1] == a + g.rules[r].rhs[..i] && b[|b|-1] == x;
      assert Leads(states, b, q);
      LookMoves(g, states, o, c, x, q, t);
    }
  }

  lemma LookMoves(g: Grammar, states: seq<State>, p: nat, c: Config, x: nat, q: nat, t: nat)
    requires p < |states| && Has(states[p].cfp, c) && Before(g, c, x) && HasShift(states[p], x, q)
    requires Lookahead(g, states, p, c, t)
    ensures Lookahead(g, states, q, Advance(c), t)
  {
    var n: nat :| LookIn(g, states, p, c, t, n);
    assert Propagates(g, states, p, c, q, Advance(c));
    assert LookIn(g, states, q, Advance(c), t, n + 1);
  }

  /** A configuration predicted within a state has what can follow the nonterminal as lookahead. */
  lemma Predicted(g: Grammar, states: seq<State>, a: Symbols, q: nat, c: Config, d: Config, t: nat, t': nat)
    requires Complete(g, states) && Expects(g, states, a, q, c, t') && Predicts(g, c, d) && g.Terminal(t)
    requires Begins(g, Rest(g, c), t) || (Derives(g, Rest(g, c), []) && t == t')
    ensures Expects(g, states, a, q, d, t)
  {
    if Begins(g, Rest(g, c), t) {
      assert Generated(g, states, q, d, t);
      assert LookIn(g, states, q, d, t, 0);
    } else {
      var n: nat :| LookIn(g, states, q, c, t, n);
      assert Propagates(g, states, q, c, q, d);
      assert LookIn(g, states, q, d, t, n + 1);
    }
  }

  // ------------------------------------------------------------ viable prefixes

  /** In any form of a rightmost derivation, the automaton follows the symbols before a nonterminal,
      and expects the rules of the nonterminal with whatever can come after it. */
  lemma {:induction false} ViablePrefix(g: Grammar, states: seq<State>, rs: seq<nat>, b: Symbols, k: nat, r: nat, t: nat) returns (q: nat)
    requires Complete(g, states) && Rightmost(g, [g.start], rs, b) && k < |b| && r < |g.rules| && b[k] == g.rules[r].lhs
    requires NextIs(g, b[k+1..], t)
    ensures Expects(g, states, b[..k], q, Config(r, 0), t)
    decreases |rs|
  {
    if rs == [] {
      q := 0;
      AtStart(g, states, b, k, r, t);
    } else {
      hide *;
      var c, i := RightmostLast(g, [g.start], rs, b);
      var s := rs[|rs|-1];
      LastStepIs(g, states, rs, b, c, i);
      if k < i {
        LeftOfStep(g, c, b, i, s, k, t);
        q := ViablePrefix(g, states, rs[..|rs|-1], c, k, r, t);
      } else {
        InsideStep(g, c, b, i, s, k, r);
        var j := k - i;
        var rest, z := g.rules[s].rhs[j+1..], c[i+1..];
        NextAfter(g, rest, z, t);
        NextTerminal(g, rest + z, t);
        var t' := if Begins(g, rest, t) then Next(z) else t;
        NextOfTerminals(g, z);
        var p := ViablePrefix(g, states, rs[..|rs|-1], c, i, s, t');
        q := Along(g, states, c[..i], p, s, t', j);
        PredictsNext(g, s, j, r);
        Predicted(g, states, b[..k], q, Config(s, j), Config(r, 0), t, t');
      }
    }
  }

  lemma PredictsNext(g: Grammar, s: nat, j: nat, r: nat)
    requires s < |g.rules| && r < |g.rules| && j < |g.rules[s].rhs| && g.rules[s].rhs[j] == g.rules[r].lhs
    ensures Predicts(g, Config(s, j), Config(r, 0)) && Rest(g, Config(s, j)) == g.rules[s].rhs[j+1..]
  {
  }

  lemma NextTerminal(g: Grammar, a: Symbols, t: nat)
    requires NextIs(g, a, t)
    ensures g.Terminal(t)
  {
  }

  lemma LastStepIs(g: Grammar, states: seq<State>, rs: seq<nat>, b: Symbols, c: Symbols, i: nat)
    requires Complete(g, states) && LastStep(g, [g.start], rs, b, c, i)
    ensures g.Valid() && i < |c| && rs[|rs|-1] < |g.rules| && c[i] == g.rules[rs[|rs|-1]].lhs
    ensures Rightmost(g, [g.start], rs[..|rs|-1], c) && StepAt(g, c, b, i, rs[|rs|-1]) && AllTerminals(g, c[i+1..])
  {
    hide Rightmost;
  }

  lemma AtStart(g: Grammar, states: seq<State>, b: Symbols, k: nat, r: nat, t: nat)
    requires Complete(g, states) && b == [g.start] && k < |b| && r < |g.rules| && b[k] == g.rules[r].lhs && NextIs(g, b[k+1..], t)
    ensures Expects(g, states, b[..k], 0, Config(r, 0), t)
  {
    assert b[..k] == [] && b[k+1..] == [];
    EmptyStays(g, t);
    assert Generated(g, states, 0, Config(r, 0), t);
    assert LookIn(g, states, 0, Config(r, 0), t, 0);
  }

  lemma EmptyStays(g: Grammar, t: nat)
    requires g.Valid()
    ensures !Begins(g, [], t)
  {
    forall c: Symbols ensures !Derives(g, [], [t] + c) {
      forall n: nat ensures !DerivesIn(g, [], [t] + c, n) {
        if DerivesIn(g, [], [t] + c, n) { TerminalsStay(g, [], [t] + c, n); }
      }
    }
  }

  lemma LeftOfStep(g: Grammar, c: Symbols, b: Symbols, i: nat, s: nat, k: nat, t: nat)
    requires StepAt(g, c, b, i, s) && k < i && NextIs(g, b[k+1..], t)
    ensures c[..k] == b[..k] && c[k] == b[k] && NextIs(g, c[k+1..], t)
  {
    var u, v := c[k+1..], b[k+1..];
    assert u[..i-k-1] == c[k+1..i] && u[i-k..] == c[i+1..];
    assert v == u[..i-k-1] + g.rules[s].rhs + u[i-k..];
    assert StepAt(g, u, v, i - k - 1, s);
    NextBefore(g, u, v, t);
  }

  lemma InsideStep(g: Grammar, c: Symbols, b: Symbols, i: nat, s: nat, k: nat, r: nat)
    requires g.Valid() && StepAt(g, c, b, i, s) && AllTerminals(g, c[i+1..]) && i <= k < |b| && r < |g.rules| && b[k] == g.rules[r].lhs
    ensures k - i < |g.rules[s].rhs| && g.rules[s].rhs[k-i] == b[k] && c[i] == g.rules[s].lhs
    ensures b[k+1..] == g.rules[s].rhs[k-i+1..] + c[i+1..] && b[..k] == c[..i] + g.rules[s].rhs[..k-i]
  {
    assert g.ValidRule(g.rules[r]);
    var z := c[i+1..];
    InTail(c[..i] + g.rules[s].rhs, z, k);
  }

  // ------------------------------------------------------------ a parse that is on its way

  /** A rightmost derivation of what is on the stack and what is ahead, whose last step does not
      end before the top of the stack. */
  ghost predicate HopefulBy(g: Grammar, a: Symbols, ahead: Symbols, rs: seq<nat>, c: Symbols, i: nat) {
    LastStep(g, [g.start], rs, a + ahead, c, i) && rs[|rs|-1] < |g.rules| && i + |g.rules[rs[|rs|-1]].rhs| >= |a|
  }

  ghost predicate Hopeful(g: Grammar, a: Symbols, ahead: Symbols, n: nat) {
    AllTerminals(g, ahead) && exists rs: seq<nat>, c: Symbols, i: nat :: HopefulBy(g, a, ahead, rs, c, i) && |rs| <= n
  }

  lemma StartIsNone(g: Grammar)
    requires g.Valid()
    ensures !AllTerminals(g, [g.start])
  {
    assert [g.start][0] == g.start;
  }

  /** A sentence gives hope at the start. */
  lemma SentenceHopeful(g: Grammar, w: Symbols, n: nat)
    requires g.Valid() && DerivesIn(g, [g.start], w, n) && AllTerminals(g, w)
    ensures Hopeful(g, [], w, n)
  {
    var rs := RightmostExists(g, [g.start], w, n);
    StartIsNone(g);
    var c, i := RightmostLast(g, [g.start], rs, w);
    assert [] + w == w;
    assert HopefulBy(g, [], w, rs, c, i);
  }

  /** The state on top of the stack can reduce by r, with the next token as lookahead, to a stack
      from which there is still hope, or there is nothing left to do. */
  ghost predicate CanReduceBy(g: Grammar, states: seq<State>, a: Symbols, q: nat, ahead: Symbols, n: nat, r: nat) {
    && n > 0 && q < |states| && r < |g.rules| && |g.rules[r].rhs| <= |a| && Has(states[q].cfp, Config(r, |g.rules[r].rhs|))
    && Lookahead(g, states, q, Config(r, |g.rules[r].rhs|), Next(ahead))
    && (g.rules[r].lhs == g.start || Hopeful(g, a[..|a|-|g.rules[r].rhs|] + [g.rules[r].lhs], ahead, n - 1))
  }

  ghost predicate CanShiftTo(g: Grammar, states: seq<State>, a: Symbols, q: nat, ahead: Symbols, n: nat, s: nat) {
    q < |states| && ahead != [] && HasShift(states[q], ahead[0], s) && Hopeful(g, a + [ahead[0]], ahead[1..], n)
  }

  /** A hopeful parse can go on: by a shift or by a reduction of the automaton. */
  lemma GoesOn(g: Grammar, states: seq<State>, a: Symbols, q: nat, ahead: Symbols, n: nat)
    requires Complete(g, states) && Leads(states, a, q) && Hopeful(g, a, ahead, n)
    ensures (exists s: nat :: CanShiftTo(g, states, a, q, ahead, n, s)) || (exists r: nat :: CanReduceBy(g, states, a, q, ahead, n, r))
  {
    hide Complete, Rightmost, StepAt;
    var rs: seq<nat>, c: Symbols, i: nat :| HopefulBy(g, a, ahead, rs, c, i) && |rs| <= n;
    var h := AtHandle(g, states, a, ahead, rs, c, i);
    if i + |g.rules[rs[|rs|-1]].rhs| == |a| {
      ReduceNow(g, states, a, q, ahead, n, rs, c, i, h);
    } else {
      ShiftNow(g, states, a, q, ahead, n, rs, c, i, h);
    }
  }

  /** The automaton reaches the end of the handle. */
  lemma AtHandle(g: Grammar, states: seq<State>, a: Symbols, ahead: Symbols, rs: seq<nat>, c: Symbols, i: nat) returns (h: nat)
    requires Complete(g, states) && HopefulBy(g, a, ahead, rs, c, i)
    ensures i < |c| && AllTerminals(g, c[i+1..])
    ensures var r := rs[|rs|-1]; var k := i + |g.rules[r].rhs|;
      k <= |a + ahead| && Expects(g, states, (a + ahead)[..k], h, Config(r, |g.rules[r].rhs|), Next(c[i+1..]))
  {
    hide Expects;
    var r, b := rs[|rs|-1], a + ahead;
    var n := |g.rules[r].rhs|;
    var z := c[i+1..];
    NextOfTerminals(g, z);
    var p := ViablePrefix(g, states, rs[..|rs|-1], c, i, r, Next(z));
    h := Along(g, states, c[..i], p, r, Next(z), n);
    assert g.rules[r].rhs[..n] == g.rules[r].rhs;
    assert b[..i+n] == c[..i] + g.rules[r].rhs;
  }

  lemma ReduceNow(g: Grammar, states: seq<State>, a: Symbols, q: nat, ahead: Symbols, n: nat, rs: seq<nat>, c: Symbols, i: nat, h: nat)
    requires Complete(g, states) && Leads(states, a, q) && HopefulBy(g, a, ahead, rs, c, i) && |rs| <= n && AllTerminals(g, ahead)
    requires i + |g.rules[rs[|rs|-1]].rhs| == |a| && i < |c|
    requires var r := rs[|rs|-1]; Expects(g, states, (a + ahead)[..|a|], h, Config(r, |g.rules[r].rhs|), Next(c[i+1..]))
    ensures CanReduceBy(g, states, a, q, ahead, n, rs[|rs|-1])
  {
    hide Complete, Expects, Rightmost, Hopeful;
    LhsIsNonterminal(g, states, rs[|rs|-1]);
    var r := rs[|rs|-1];
    assert (a + ahead)[..|a|] == a;
    SameTop(g, states, a, q, h, Config(r, |g.rules[r].rhs|), Next(c[i+1..]));
    var b := a + ahead;
    assert b == c[..i] + g.rules[r].rhs + c[i+1..];
    assert ahead == b[|a|..] && c[i+1..] == b[i+|g.rules[r].rhs|..];
    var a' := a[..|a|-|g.rules[r].rhs|] + [g.rules[r].lhs];
    assert a' == c[..i] + [c[i]] && a' + ahead == c;
    Undo(g, a', ahead, n - 1, rs[..|rs|-1], c, i);
  }

  lemma LhsIsNonterminal(g: Grammar, states: seq<State>, r: nat)
    requires Complete(g, states) && r < |g.rules|
    ensures g.Valid() && g.nterminal <= g.rules[r].lhs
  {
    assert g.ValidRule(g.rules[r]);
  }

  lemma SameTop(g: Grammar, states: seq<State>, a: Symbols, q: nat, h: nat, c: Config, t: nat)
    requires Complete(g, states) && Leads(states, a, q) && Expects(g, states, a, h, c, t)
    ensures q == h && q < |states| && Has(states[q].cfp, c) && Lookahead(g, states, q, c, t)
  {
    OnePath(g, states, a, q, h);
  }

  /** With its last step undone the derivation still gives hope, unless it is over. */
  lemma Undo(g: Grammar, a: Symbols, ahead: Symbols, n: nat, rs: seq<nat>, c: Symbols, i: nat)
    requires g.Valid() && Rightmost(g, [g.start], rs, c) && |rs| <= n && a + ahead == c && |a| == i + 1 && AllTerminals(g, ahead)
    requires i < |c| && g.nterminal <= c[i]
    ensures c[i] == g.start || Hopeful(g, a, ahead, n)
  {
    if rs != [] {
      var d, j := RightmostLast(g, [g.start], rs, c);
      var z := d[j+1..];
      assert c == d[..j] + g.rules[rs[|rs|-1]].rhs + z;
      InTail(d[..j] + g.rules[rs[|rs|-1]].rhs, z, i);
      assert HopefulBy(g, a, ahead, rs, d, j);
    }
  }

  lemma TerminalsTail(g: Grammar, a: Symbols)
    requires AllTerminals(g, a)
    ensures a != [] ==> AllTerminals(g, a[1..])
  {
  }

  /** The parse stays hopeful when the next token is shifted. */
  lemma HopeShifts(g: Grammar, a: Symbols, ahead: Symbols, n: nat, rs: seq<nat>, c: Symbols, i: nat)
    requires HopefulBy(g, a, ahead, rs, c, i) && |rs| <= n && AllTerminals(g, ahead) && ahead != []
    requires |a| < i + |g.rules[rs[|rs|-1]].rhs|
    ensures Hopeful(g, a + [ahead[0]], ahead[1..], n)
  {
    hide LastStep, AllTerminals;
    TerminalsTail(g, ahead);
    var e := a + [ahead[0]];
    assert e + ahead[1..] == a + ahead;
    assert HopefulBy(g, e, ahead[1..], rs, c, i);
  }

  lemma NextShift(g: Grammar, states: seq<State>, a: Symbols, q: nat, e: Symbols, s: nat)
    requires Complete(g, states) && Leads(states, a, q) && Leads(states, e, s) && |e| == |a| + 1 && e[..|a|] == a
    ensures q < |states| && HasShift(states[q], e[|a|], s)
  {
    hide Complete;
    assert e[..|e|-1] == a;
    var p: nat :| p < |states| && Leads(states, a, p) && HasShift(states[p], e[|e|-1], s);
    OnePath(g, states, a, q, p);
  }

  lemma ShiftNow(g: Grammar, states: seq<State>, a: Symbols, q: nat, ahead: Symbols, n: nat, rs: seq<nat>, c: Symbols, i: nat, h: nat)
    requires Complete(g, states) && Leads(states, a, q) && HopefulBy(g, a, ahead, rs, c, i) && |rs| <= n && AllTerminals(g, ahead)
    requires var r := rs[|rs|-1]; var k := i + |g.rules[r].rhs|; |a| < k <= |a + ahead| && Leads(states, (a + ahead)[..k], h)
    ensures exists s: nat :: CanShiftTo(g, states, a, q, ahead, n, s)
  {
    var b, k := a + ahead, i + |g.rules[rs[|rs|-1]].rhs|;
    hide Complete, LastStep, AllTerminals, Leads, Hopeful;
    var s := PathPrefix(states, b[..k], h, |a| + 1);
    assert b[..k][..|a|+1] == a + [ahead[0]];
    NextShift(g, states, a, q, a + [ahead[0]], s);
    HopeShifts(g, a, ahead, n, rs, c, i);
    assert CanShiftTo(g, states, a, q, ahead, n, s);
  }

  // ------------------------------------------------------------ productive grammars

  ghost predicate DerivesSentence(g: Grammar, a: Symbols) {
    exists w: Symbols :: AllTerminals(g, w) && Derives(g, a, w)
  }

  /** Every nonterminal derives some terminal string. */
  ghost predicate Productive(g: Grammar) {
    forall x: nat :: g.nterminal <= x < g.nsymbol ==> DerivesSentence(g, [x])
  }

  lemma {:induction false} StringProductive(g: Grammar, a: Symbols)
    requires g.Valid() && Productive(g) && forall k :: 0 <= k < |a| ==> a[k] < g.nsymbol
    ensures DerivesSentence(g, a)
  {
    hide Derives;
    if a == [] {
      DerivesSelf(g, a);
      assert AllTerminals(g, a);
    } else {
      var x, rest := [a[0]], a[1..];
      StringProductive(g, rest);
      OneProductive(g, a[0]);
      var w: Symbols :| AllTerminals(g, w) && Derives(g, x, w);
      var v: Symbols :| AllTerminals(g, v) && Derives(g, rest, v);
      BothDerive(g, x, w, rest, v);
      assert x + rest == a;
    }
  }

  lemma BothDerive(g: Grammar, a: Symbols, w: Symbols, b: Symbols, v: Symbols)
    requires AllTerminals(g, w) && AllTerminals(g, v) && Derives(g, a, w) && Derives(g, b, v)
    ensures DerivesSentence(g, a + b)
  {
    hide Derives;
    DerivesContext(g, [], a, w, b);
    DerivesContext(g, w, b, v, []);
    assert [] + a + b == a + b && [] + w + b == w + b && w + b + [] == w + b && w + v + [] == w + v;
    DerivesTrans(g, a + b, w + b, w + v);
    assert AllTerminals(g, w + v);
  }

  lemma OneProductive(g: Grammar, x: nat)
    requires g.Valid() && Productive(g) && x < g.nsymbol
    ensures DerivesSentence(g, [x])
  {
    if g.Terminal(x) {
      DerivesSelf(g, [x]);
      assert AllTerminals(g, [x]);
    }
  }

  /** Every nonterminal derives something that begins with a terminal, or nothing at all. */
  ghost predicate Startable(g: Grammar) {
    forall x: nat :: g.nterminal <= x < g.nsymbol ==> Starts(g, x)
  }

  ghost predicate Starts(g: Grammar, x: nat) {
    Derives(g, [x], []) || exists t: nat :: g.Terminal(t) && Begins(g, [x], t)
  }

  /** What `FindFirstSets` has to show for it: each nonterminal is marked or has a first set. */
  predicate AllMarked(g: Grammar, lam: Flags, first: Sets)
    requires |lam| == |first| == g.nsymbol
  {
    forall x :: g.nterminal <= x < g.nsymbol ==> lam[x] || first[x] != {}
  }

  lemma MarkedStarts(g: Grammar, lam: Flags, first: Sets)
    requires g.Valid() && LambdaExact(g, lam) && FirstExact(g, first)
    ensures AllMarked(g, lam, first) <==> Startable(g)
  {
    hide Derives, Begins;
    forall x: nat | g.nterminal <= x < g.nsymbol ensures Starts(g, x) <==> lam[x] || first[x] != {} {
      if first[x] != {} {
        var t: nat :| t in first[x];
        assert g.Terminal(t) && Begins(g, [x], t);
      }
      if t: nat :| g.Terminal(t) && Begins(g, [x], t) { assert t in first[x]; }
    }
  }

  lemma ProductiveStarts(g: Grammar)
    requires Productive(g)
    ensures Startable(g)
  {
    forall x: nat | g.nterminal <= x < g.nsymbol ensures Starts(g, x) {
      var w: Symbols :| AllTerminals(g, w) && Derives(g, [x], w);
      if w != [] {
        assert w == [w[0]] + w[1..];
        assert g.Terminal(w[0]) && Begins(g, [x], w[0]);
      }
    }
  }

  /** Something, or nothing at all, can begin what is left of a rule. */
  lemma {:induction false} SomethingNext(g: Grammar, a: Symbols) returns (t: nat)
    requires g.Valid() && Startable(g) && forall k :: 0 <= k < |a| ==> a[k] < g.nsymbol
    ensures g.Terminal(t) && (Begins(g, a, t) || Derives(g, a, []))
  {
    hide Derives;
    t := 0;
    if a == [] {
      DerivesSelf(g, a);
    } else {
      var x, rest := [a[0]], a[1..];
      assert a == [] + x + rest;
      if g.Terminal(a[0]) {
        t := a[0];
        DerivesSelf(g, a);
        assert a == [t] + rest;
      } else {
        assert Starts(g, a[0]);
        if s: nat :| g.Terminal(s) && Begins(g, x, s) {
          t := s;
          var b: Symbols :| Derives(g, x, [t] + b);
          DerivesContext(g, [], x, [t] + b, rest);
          assert [] + ([t] + b) + rest == [t] + (b + rest);
        } else {
          t := SomethingNext(g, rest);
          DerivesContext(g, [], x, [], rest);
          assert [] + [] + rest == rest;
          RestNext(g, a, rest, t);
        }
      }
    }
  }

  lemma RestNext(g: Grammar, a: Symbols, rest: Symbols, t: nat)
    requires Derives(g, a, rest) && (Begins(g, rest, t) || Derives(g, rest, []))
    ensures Begins(g, a, t) || Derives(g, a, [])
  {
    hide Derives;
    if Derives(g, rest, []) {
      DerivesTrans(g, a, rest, []);
    } else {
      var b: Symbols :| Derives(g, rest, [t] + b);
      DerivesTrans(g, a, rest, [t] + b);
    }
  }

  ghost predicate Looked(g: Grammar, states: seq<State>, q: nat, c: Config) {
    exists t: nat :: g.Terminal(t) && Lookahead(g, states, q, c, t)
  }

  /** If every nonterminal starts with something, every configuration of every state has a lookahead. */
  lemma {:induction false} AllLooked(g: Grammar, lam: Flags, first: Sets, states: seq<State>, q: nat, c: Config)
    requires g.Valid() && Startable(g) && Collection(g, lam, first, states) && q < |states| && Has(states[q].cfp, c)
    ensures Looked(g, states, q, c)
    decreases q
  {
    hide Startable, Looked, Collection, Has, Predicts, ClosedUnder;
    forall d | d in states[q].basis ensures Has(states[q].cfp, d) && Looked(g, states, q, d) {
      BasisHas(g, lam, first, states, q, d);
      if q == 0 {
        StartLooked(g, lam, first, states, d);
      } else {
        var i, x, e := BasisFrom(g, lam, first, states, q, d);
        AllLooked(g, lam, first, states, i, e);
        LookedMoves(g, states, i, e, x, q);
      }
    }
    forall a, d | Has(states[q].cfp, a) && Looked(g, states, q, a) && Predicts(g, a, d)
      ensures Has(states[q].cfp, d) && Looked(g, states, q, d)
    {
      LookedPredicted(g, lam, first, states, q, a, d);
    }
    LeastOfAll(g, lam, first, states, q, c);
  }

  lemma BasisHas(g: Grammar, lam: Flags, first: Sets, states: seq<State>, q: nat, d: Config)
    requires Collection(g, lam, first, states) && q < |states| && d in states[q].basis
    ensures Has(states[q].cfp, d)
  {
    assert StateOK(g, lam, first, q, states[q]);
  }

  lemma StartLooked(g: Grammar, lam: Flags, first: Sets, states: seq<State>, d: Config)
    requires g.Valid() && Collection(g, lam, first, states) && d in states[0].basis
    ensures Looked(g, states, 0, d)
  {
    assert StateOK(g, lam, first, 0, states[0]);
    assert Generated(g, states, 0, d, 0);
    assert LookIn(g, states, 0, d, 0, 0);
    assert g.Terminal(0) && Lookahead(g, states, 0, d, 0);
  }

  /** A configuration of the basis of a later state comes from a state before it. */
  lemma BasisFrom(g: Grammar, lam: Flags, first: Sets, states: seq<State>, q: nat, d: Config) returns (i: nat, x: nat, e: Config)
    requires Collection(g, lam, first, states) && 0 < q < |states| && d in states[q].basis
    ensures i < q && HasShift(states[i], x, q) && Has(states[i].cfp, e) && Before(g, e, x) && d == Advance(e)
  {
    hide StatesOK;
    assert Discovered(states, q);
    i, x :| i < q && i < |states| && HasShift(states[i], x, q);
    assert Finished(g, states, i);
    assert InGoto(g, states[i].cfp, x, d);
    var k :| 0 <= k < |states[i].cfp| && Before(g, states[i].cfp[k].cfg, x) && d == Advance(states[i].cfp[k].cfg);
    e := states[i].cfp[k].cfg;
  }

  lemma LookedMoves(g: Grammar, states: seq<State>, p: nat, c: Config, x: nat, q: nat)
    requires p < |states| && Has(states[p].cfp, c) && Before(g, c, x) && HasShift(states[p], x, q) && Looked(g, states, p, c)
    ensures Looked(g, states, q, Advance(c))
  {
    var t: nat :| g.Terminal(t) && Lookahead(g, states, p, c, t);
    LookMoves(g, states, p, c, x, q, t);
  }

  lemma LookedPredicted(g: Grammar, lam: Flags, first: Sets, states: seq<State>, q: nat, a: Config, d: Config)
    requires g.Valid() && Startable(g) && Collection(g, lam, first, states) && q < |states|
    requires Has(states[q].cfp, a) && Looked(g, states, q, a) && Predicts(g, a, d)
    ensures Has(states[q].cfp, d) && Looked(g, states, q, d)
  {
    assert Has(states[q].cfp, d) by { assert StateOK(g, lam, first, q, states[q]); }
    hide Collection, Startable;
    assert g.ValidRule(g.rules[a.rule]);
    var t := SomethingNext(g, Rest(g, a));
    if Begins(g, Rest(g, a), t) {
      assert Generated(g, states, q, d, t);
      assert LookIn(g, states, q, d, t, 0);
      assert Lookahead(g, states, q, d, t);
    } else {
      var t': nat :| g.Terminal(t') && Lookahead(g, states, q, a, t');
      var n: nat :| LookIn(g, states, q, a, t', n);
      assert Propagates(g, states, q, a, q, d);
      assert LookIn(g, states, q, d, t', n + 1);
      assert Lookahead(g, states, q, d, t');
    }
  }

  /** What holds of the basis and passes to predicted configurations holds of all. */
  lemma LeastOfAll(g: Grammar, lam: Flags, first: Sets, states: seq<State>, q: nat, c: Config)
    requires Collection(g, lam, first, states) && q < |states| && Has(states[q].cfp, c)
    requires forall d :: d in states[q].basis ==> Has(states[q].cfp, d) && Looked(g, states, q, d)
    requires forall a, d :: Has(states[q].cfp, a) && Looked(g, states, q, a) && Predicts(g, a, d) ==>
               Has(states[q].cfp, d) && Looked(g, states, q, d)
    ensures Looked(g, states, q, c)
  {
    hide Looked;
    var st := states[q];
    assert StateOK(g, lam, first, q, st);
    hide StrictlySorted, FollowStart, LinksWithin, DistinctItems, Predicts, StartBasis, KernelBasis;
    var t := set i | 0 <= i < |st.cfp| && Looked(g, states, q, st.cfp[i].cfg) :: st.cfp[i].cfg;
    forall d | Has(st.cfp, d) && Looked(g, states, q, d) ensures d in t {
      var i :| 0 <= i < |st.cfp| && st.cfp[i].cfg == d;
    }
    assert ClosedUnder(g, t);
    var i :| 0 <= i < |st.cfp| && st.cfp[i].cfg == c;
    assert st.cfp[i].cfg in t;
  }

  // ------------------------------------------------------------ every path is the beginning of something

  ghost predicate ReachedBy(g: Grammar, a: Symbols, c: Config, rs: seq<nat>, u: Symbols, v: Symbols) {
    && ValidConfig(g, c) && a == u + g.rules[c.rule].rhs[..c.dot] && AllTerminals(g, v)
    && Rightmost(g, [g.start], rs, u + [g.rules[c.rule].lhs] + v)
  }

  /** Some right-sentential form has the string a up to the dot of c. */
  ghost predicate Reached(g: Grammar, a: Symbols, c: Config) {
    exists rs: seq<nat>, u: Symbols, v: Symbols :: ReachedBy(g, a, c, rs, u, v)
  }

  lemma ReachedStart(g: Grammar, c: Config)
    requires c.rule < |g.rules| && c.dot == 0 && g.rules[c.rule].lhs == g.start
    ensures Reached(g, [], c)
  {
    assert [] + [g.start] + [] == [g.start];
    assert ReachedBy(g, [], c, [], [], []);
  }

  lemma RightmostFrom(g: Grammar, a: Symbols, c: Symbols, i: nat, r: nat, rs: seq<nat>, b: Symbols)
    requires StepAt(g, a, c, i, r) && AllTerminals(g, a[i+1..]) && Rightmost(g, c, rs, b)
    ensures Rightmost(g, a, [r] + rs, b)
  {
    assert i < |a|;
    hide StepAt, AllTerminals;
    var all := [r] + rs;
    assert all[1..] == rs;
    assert StepAt(g, a, c, i, all[0]) && AllTerminals(g, a[i+1..]) && Rightmost(g, c, all[1..], b);
  }

  lemma RightmostInto(g: Grammar, a: Symbols, rs: seq<nat>, b: Symbols) returns (c: Symbols, i: nat)
    requires Rightmost(g, a, rs, b) && rs != []
    ensures i < |a| && StepAt(g, a, c, i, rs[0]) && AllTerminals(g, a[i+1..]) && Rightmost(g, c, rs[1..], b)
  {
    i, c :| StepAt(g, a, c, i, rs[0]) && AllTerminals(g, a[i+1..]) && Rightmost(g, c, rs[1..], b);
  }

  lemma RightmostNone(g: Grammar, a: Symbols, rs: seq<nat>, b: Symbols)
    requires Rightmost(g, a, rs, b) && rs == []
    ensures a == b
  {
  }

  lemma {:induction false} RightmostTrans(g: Grammar, a: Symbols, rs: seq<nat>, b: Symbols, rs': seq<nat>, c: Symbols)
    requires Rightmost(g, a, rs, b) && Rightmost(g, b, rs', c)
    ensures Rightmost(g, a, rs + rs', c)
    decreases rs
  {
    hide *;
    if rs == [] {
      RightmostNone(g, a, rs, b);
      assert rs + rs' == rs';
    } else {
      var d, i := RightmostInto(g, a, rs, b);
      RightmostTrans(g, d, rs[1..], b, rs', c);
      RightmostFrom(g, a, d, i, rs[0], rs[1..] + rs', c);
      assert rs + rs' == [rs[0]] + (rs[1..] + rs');
    }
  }

  /** One step at the last nonterminal. */
  lemma OneStep(g: Grammar, u: Symbols, r: nat, v: Symbols)
    requires r < |g.rules| && AllTerminals(g, v)
    ensures Rightmost(g, u + [g.rules[r].lhs] + v, [r], u + g.rules[r].rhs + v)
  {
    var a, b := u + [g.rules[r].lhs] + v, u + g.rules[r].rhs + v;
    assert a[..|u|] == u && a[|u|+1..] == v;
    assert [r][1..] == [] && Rightmost(g, b, [], b);
    assert StepAt(g, a, b, |u|, [r][0]) && AllTerminals(g, a[|u|+1..]) && Rightmost(g, b, [r][1..], b);
  }

  lemma TerminalsContext(g: Grammar, u: Symbols, a: Symbols, v: Symbols, i: nat)
    requires i < |a| && AllTerminals(g, a[i+1..]) && AllTerminals(g, v)
    ensures AllTerminals(g, (u + a + v)[|u|+i+1..])
  {
    assert (u + a + v)[|u|+i+1..] == a[i+1..] + v;
  }

  /** Rightmost derivations work between any string and a string of terminals. */
  lemma {:induction false} RightmostContext(g: Grammar, u: Symbols, a: Symbols, rs: seq<nat>, b: Symbols, v: Symbols)
    requires Rightmost(g, a, rs, b) && AllTerminals(g, v)
    ensures Rightmost(g, u + a + v, rs, u + b + v)
    decreases rs
  {
    hide StepAt, AllTerminals;
    if rs != [] {
      var c, i := RightmostInto(g, a, rs, b);
      RightmostContext(g, u, c, rs[1..], b, v);
      StepContext(g, u, a, c, v, i, rs[0]);
      TerminalsContext(g, u, a, v, i);
      hide Rightmost;
      RightmostFrom(g, u + a + v, u + c + v, |u| + i, rs[0], rs[1..], u + b + v);
      assert rs == [rs[0]] + rs[1..];
    }
  }

  lemma ReachedForm(g: Grammar, c: Config, rs: seq<nat>, u: Symbols, v: Symbols)
    requires ValidConfig(g, c) && AllTerminals(g, v) && Rightmost(g, [g.start], rs, u + [g.rules[c.rule].lhs] + v)
    ensures Rightmost(g, [g.start], rs + [c.rule], u + g.rules[c.rule].rhs + v)
  {
    OneStep(g, u, c.rule, v);
    RightmostTrans(g, [g.start], rs, u + [g.rules[c.rule].lhs] + v, [c.rule], u + g.rules[c.rule].rhs + v);
  }

  /** What follows in a right-sentential form becomes a terminal string that it derives. */
  lemma RestBecomes(g: Grammar, rs: seq<nat>, a: Symbols, rest: Symbols, y: Symbols, v: Symbols) returns (rs': seq<nat>)
    requires g.Valid() && AllTerminals(g, y) && AllTerminals(g, v) && Derives(g, rest, y)
    requires Rightmost(g, [g.start], rs, a + rest + v)
    ensures AllTerminals(g, y + v) && Rightmost(g, [g.start], rs', a + (y + v))
  {
    hide Rightmost, AllTerminals;
    var n: nat :| DerivesIn(g, rest, y, n);
    var more := RightmostExists(g, rest, y, n);
    RightmostContext(g, a, rest, more, y, v);
    RightmostTrans(g, [g.start], rs, a + rest + v, more, a + y + v);
    rs' := rs + more;
    assert a + y + v == a + (y + v);
    BothTerminals(g, y, v);
  }

  /** What follows in a right-sentential form of a productive grammar can be made terminal. */
  lemma RestToTerminals(g: Grammar, rs: seq<nat>, a: Symbols, rest: Symbols, v: Symbols) returns (rs': seq<nat>, w: Symbols)
    requires g.Valid() && Productive(g) && AllTerminals(g, v) && Alphabet(g, rest)
    requires Rightmost(g, [g.start], rs, a + rest + v)
    ensures AllTerminals(g, w) && Rightmost(g, [g.start], rs', a + w)
  {
    hide Rightmost, AllTerminals, Productive, Alphabet;
    RestProductive(g, rest);
    var y: Symbols :| AllTerminals(g, y) && Derives(g, rest, y);
    rs' := RestBecomes(g, rs, a, rest, y, v);
    w := y + v;
  }

  lemma BothTerminals(g: Grammar, a: Symbols, b: Symbols)
    requires AllTerminals(g, a) && AllTerminals(g, b)
    ensures AllTerminals(g, a + b)
  {
  }

  lemma RestProductive(g: Grammar, a: Symbols)
    requires g.Valid() && Productive(g) && Alphabet(g, a)
    ensures DerivesSentence(g, a)
  {
    StringProductive(g, a);
  }

  lemma RuleAlphabet(g: Grammar, r: nat, k: nat)
    requires g.Valid() && r < |g.rules| && k <= |g.rules[r].rhs|
    ensures Alphabet(g, g.rules[r].rhs[k..])
  {
    assert g.ValidRule(g.rules[r]);
  }

  /** What is behind the nonterminal at the dot of c becomes y, and the nonterminal is next to be expanded. */
  lemma ReachedVia(g: Grammar, a: Symbols, c: Config, d: Config, rs: seq<nat>, u: Symbols, v: Symbols, y: Symbols) returns (rs': seq<nat>)
    requires g.Valid() && ReachedBy(g, a, c, rs, u, v) && Predicts(g, c, d)
    requires AllTerminals(g, y) && Derives(g, Rest(g, c), y)
    ensures ReachedBy(g, a, d, rs', a, y + v)
  {
    hide Rightmost, AllTerminals;
    ReachedForm(g, c, rs, u, v);
    var rhs := g.rules[c.rule].rhs;
    var B, rest := [rhs[c.dot]], rhs[c.dot+1..];
    assert rhs == rhs[..c.dot] + B + rest;
    assert u + rhs + v == (a + B) + rest + v;
    rs' := RestBecomes(g, rs + [c.rule], a + B, rest, y, v);
    assert g.rules[d.rule].rhs[..0] == [] && a + [] == a;
  }

  lemma ReachedPredicts(g: Grammar, a: Symbols, c: Config, d: Config)
    requires g.Valid() && Productive(g) && Reached(g, a, c) && Predicts(g, c, d)
    ensures Reached(g, a, d)
  {
    hide Rightmost, Productive, Alphabet, AllTerminals;
    var rs: seq<nat>, u: Symbols, v: Symbols :| ReachedBy(g, a, c, rs, u, v);
    RuleAlphabet(g, c.rule, c.dot + 1);
    RestProductive(g, Rest(g, c));
    var y: Symbols :| AllTerminals(g, y) && Derives(g, Rest(g, c), y);
    var rs' := ReachedVia(g, a, c, d, rs, u, v, y);
  }

  lemma ReachedMoves(g: Grammar, a: Symbols, c: Config, x: nat)
    requires Reached(g, a, c) && Before(g, c, x)
    ensures Reached(g, a + [x], Advance(c))
  {
    hide Rightmost;
    var rs: seq<nat>, u: Symbols, v: Symbols :| ReachedBy(g, a, c, rs, u, v);
    var rhs := g.rules[c.rule].rhs;
    assert rhs[..c.dot+1] == rhs[..c.dot] + [x];
    assert ReachedBy(g, a + [x], Advance(c), rs, u, v);
  }

  /** Along a path every configuration of its last state is reached. */
  lemma {:induction false} ReachedAll(g: Grammar, lam: Flags, first: Sets, states: seq<State>, a: Symbols, q: nat, c: Config)
    requires g.Valid() && Productive(g) && Collection(g, lam, first, states)
    requires Leads(states, a, q) && q < |states| && Has(states[q].cfp, c)
    ensures Reached(g, a, c)
    decreases |a|
  {
    hide Reached, Productive, Collection, Has, Predicts, ClosedUnder;
    forall d | d in states[q].basis ensures Reached(g, a, d) {
      if a == [] {
        StartBasisIs(g, lam, first, states, d);
        ReachedStart(g, d);
      } else {
        var n := |a| - 1;
        var p: nat :| p < |states| && Leads(states, a[..n], p) && HasShift(states[p], a[n], q);
        var e := GotoFrom(g, lam, first, states, p, a[n], q, d);
        ReachedAll(g, lam, first, states, a[..n], p, e);
        ReachedMoves(g, a[..n], e, a[n]);
        assert a == a[..n] + [a[n]];
      }
    }
    forall e, d | Reached(g, a, e) && Predicts(g, e, d) ensures Reached(g, a, d) { ReachedPredicts(g, a, e, d); }
    ReachedLeast(g, lam, first, states, a, q, c);
  }

  lemma StartBasisIs(g: Grammar, lam: Flags, first: Sets, states: seq<State>, d: Config)
    requires Collection(g, lam, first, states) && d in states[0].basis
    ensures d.dot == 0 && d.rule < |g.rules| && g.rules[d.rule].lhs == g.start
  {
    assert StateOK(g, lam, first, 0, states[0]);
  }

  lemma GotoFrom(g: Grammar, lam: Flags, first: Sets, states: seq<State>, p: nat, x: nat, q: nat, d: Config) returns (e: Config)
    requires Collection(g, lam, first, states) && p < |states| && q < |states| && HasShift(states[p], x, q) && d in states[q].basis
    ensures Has(states[p].cfp, e) && Before(g, e, x) && d == Advance(e)
  {
    hide StatesOK;
    assert Finished(g, states, p);
    assert InGoto(g, states[p].cfp, x, d);
    var k :| 0 <= k < |states[p].cfp| && Before(g, states[p].cfp[k].cfg, x) && d == Advance(states[p].cfp[k].cfg);
    e := states[p].cfp[k].cfg;
  }

  lemma ReachedLeast(g: Grammar, lam: Flags, first: Sets, states: seq<State>, a: Symbols, q: nat, c: Config)
    requires Collection(g, lam, first, states) && q < |states| && Has(states[q].cfp, c)
    requires forall d :: d in states[q].basis ==> Reached(g, a, d)
    requires forall e, d :: Reached(g, a, e) && Predicts(g, e, d) ==> Reached(g, a, d)
    ensures Reached(g, a, c)
  {
    hide Reached;
    var st := states[q];
    assert StateOK(g, lam, first, q, st);
    hide StrictlySorted, FollowStart, LinksWithin, DistinctItems, Predicts, StartBasis, KernelBasis;
    var t := set d | d in AllConfigs(g) && Reached(g, a, d);
    forall d | d in st.basis ensures d in t {
      assert Has(st.cfp, d);
      InAllConfigs(g, d);
    }
    forall e, d | e in t && Predicts(g, e, d) ensures d in t {
      PredictedValid(g, e, d);
      InAllConfigs(g, d);
    }
    assert ClosedUnder(g, t);
    var i :| 0 <= i < |st.cfp| && st.cfp[i].cfg == c;
    assert st.cfp[i].cfg in t;
  }

  /** w is a terminal string that makes a sentence of u. */
  ghost predicate Completion(g: Grammar, u: Symbols, w: Symbols) {
    AllTerminals(g, w) && Derives(g, [g.start], u + w)
  }

  /** u is the beginning of a sentence. */
  ghost predicate Completable(g: Grammar, u: Symbols) {
    exists w: Symbols :: Completion(g, u, w)
  }

  lemma ReachedEnds(g: Grammar, a: Symbols, c: Config) returns (rs: seq<nat>, w: Symbols)
    requires g.Valid() && Productive(g) && Reached(g, a, c)
    ensures AllTerminals(g, w) && Rightmost(g, [g.start], rs, a + w)
  {
    hide Rightmost, Productive, Alphabet, AllTerminals;
    var rs0: seq<nat>, u: Symbols, v: Symbols :| ReachedBy(g, a, c, rs0, u, v);
    ReachedForm(g, c, rs0, u, v);
    var rhs := g.rules[c.rule].rhs;
    assert rhs == rhs[..c.dot] + rhs[c.dot..];
    assert u + rhs + v == a + rhs[c.dot..] + v;
    RuleAlphabet(g, c.rule, c.dot);
    rs, w := RestToTerminals(g, rs0 + [c.rule], a, rhs[c.dot..], v);
  }

  /** In a productive grammar every path of the automaton, followed by some terminals, is a
      right-sentential form. */
  lemma PathBegins(g: Grammar, lam: Flags, first: Sets, states: seq<State>, a: Symbols, q: nat) returns (rs: seq<nat>, w: Symbols)
    requires g.Valid() && Productive(g) && Collection(g, lam, first, states) && Leads(states, a, q) && a != []
    ensures AllTerminals(g, w) && Rightmost(g, [g.start], rs, a + w)
  {
    hide *;
    var c := LastItem(g, lam, first, states, a, q);
    ReachedAll(g, lam, first, states, a, q, c);
    rs, w := ReachedEnds(g, a, c);
  }

  lemma LastItem(g: Grammar, lam: Flags, first: Sets, states: seq<State>, a: Symbols, q: nat) returns (c: Config)
    requires Collection(g, lam, first, states) && Leads(states, a, q) && a != []
    ensures q < |states| && Has(states[q].cfp, c)
  {
    hide StatesOK;
    var p: nat :| p < |states| && Leads(states, a[..|a|-1], p) && HasShift(states[p], a[|a|-1], q);
    assert Finished(g, states, p);
    c := states[q].basis[0];
    assert c in states[q].basis;
    BasisHas(g, lam, first, states, q, c);
  }

  /** In a productive grammar, the tokens that a path of the automaton stands for can be completed to a sentence. */
  lemma PathCompletes(g: Grammar, lam: Flags, first: Sets, states: seq<State>, a: Symbols, q: nat, shifted: Symbols)
    requires g.Valid() && Productive(g) && Collection(g, lam, first, states) && Leads(states, a, q) && Derives(g, a, shifted)
    requires a == [] ==> shifted == []
    ensures Completable(g, shifted)
  {
    hide Derives;
    if a == [] {
      OneProductive(g, g.start);
      var w: Symbols :| AllTerminals(g, w) && Derives(g, [g.start], w);
      assert shifted + w == w;
      assert Completion(g, shifted, w);
    } else {
      var rs, w := PathBegins(g, lam, first, states, a, q);
      RightmostDerives(g, [g.start], rs, a + w);
      IsDerivation(g, [g.start], a + w, |rs|);
      DerivesContext(g, [], a, shifted, w);
      assert [] + a + w == a + w && [] + shifted + w == shifted + w;
      DerivesTrans(g, [g.start], a + w, shifted + w);
      assert Completion(g, shifted, w);
    }
  }

  lemma IsDerivation(g: Grammar, a: Symbols, b: Symbols, n: nat)
    requires DerivesIn(g, a, b, n)
    ensures Derives(g, a, b)
  {
  }

  ghost predicate Alphabet(g: Grammar, a: Symbols) {
    forall k :: 0 <= k < |a| ==> a[k] < g.nsymbol
  }
}
