/** When the driver's loop ends, whatever the tables are: the reductions on a token go on for ever if
    and only if the stack comes back to a stack it was, and then some nonterminal derives itself. */
module Cycles {
  import opened Grammars
  import opened BitSets
  import FirstSets
  import opened LR0
  import opened Closure
  import opened Automaton
  import opened Actions
  import opened Compress
  import opened Lookaheads
  import opened Viable
  import opened Halting

  // ------------------------------------------------------------ runs and cycles

  /** While these reductions are made, the stack stays lower than d. */
  ghost predicate Stays(g: Grammar, a: Symbols, rs: seq<nat>, d: nat)
    decreases rs
  {
    |a| < d &&
    (rs == [] || (rs[0] < |g.rules| && |g.rules[rs[0]].rhs| <= |a| && Stays(g, Reduced(g, a, rs[0]), rs[1..], d)))
  }

  ghost predicate Runs(g: Grammar, states: seq<State>, acts: seq<seq<Action>>, x: nat, d: nat, a: Symbols, rs: seq<nat>, b: Symbols) {
    Reductions(g, states, acts, x, a, rs, b) && Stays(g, a, rs, d)
  }

  /** On the token x the parser makes at least n reductions in a row. */
  ghost predicate RunsFor(g: Grammar, states: seq<State>, acts: seq<seq<Action>>, x: nat, d: nat, a: Symbols, n: nat) {
    exists rs: seq<nat>, b: Symbols :: |rs| == n && Runs(g, states, acts, x, d, a, rs, b)
  }

  /** The parser comes back to the stack b. */
  ghost predicate Cycle(g: Grammar, states: seq<State>, acts: seq<seq<Action>>, x: nat, d: nat, b: Symbols) {
    exists rs: seq<nat> :: rs != [] && Runs(g, states, acts, x, d, b, rs, b)
  }

  ghost predicate IntoCycle(g: Grammar, states: seq<State>, acts: seq<seq<Action>>, x: nat, d: nat, a: Symbols) {
    exists rs: seq<nat>, b: Symbols :: Runs(g, states, acts, x, d, a, rs, b) && Cycle(g, states, acts, x, d, b)
  }

  lemma RunsNone(g: Grammar, states: seq<State>, acts: seq<seq<Action>>, x: nat, d: nat, a: Symbols)
    requires |a| < d
    ensures Runs(g, states, acts, x, d, a, [], a)
  {
  }

  lemma RunsLow(g: Grammar, states: seq<State>, acts: seq<seq<Action>>, x: nat, d: nat, a: Symbols, rs: seq<nat>, b: Symbols)
    requires Runs(g, states, acts, x, d, a, rs, b)
    ensures |a| < d
  {
  }

  lemma {:induction false} RunsEndLow(g: Grammar, states: seq<State>, acts: seq<seq<Action>>, x: nat, d: nat, a: Symbols, rs: seq<nat>, b: Symbols)
    requires Runs(g, states, acts, x, d, a, rs, b)
    ensures |b| < d
    decreases rs
  {
    if rs != [] {
      hide Runs, Reduces;
      RunsFirst(g, states, acts, x, d, a, rs, b);
      RunsEndLow(g, states, acts, x, d, Reduced(g, a, rs[0]), rs[1..], b);
    }
  }

  /** A run is its first reduction and a run from there. */
  lemma RunsFirst(g: Grammar, states: seq<State>, acts: seq<seq<Action>>, x: nat, d: nat, a: Symbols, rs: seq<nat>, b: Symbols)
    requires rs != []
    ensures Runs(g, states, acts, x, d, a, rs, b) <==>
            && |a| < d && Reduces(g, states, acts, x, a, rs[0]) && rs[0] < |g.rules| && |g.rules[rs[0]].rhs| <= |a|
            && Runs(g, states, acts, x, d, Reduced(g, a, rs[0]), rs[1..], b)
  {
  }

  lemma {:induction false} RunsAppend(g: Grammar, states: seq<State>, acts: seq<seq<Action>>, x: nat, d: nat, a: Symbols, rs: seq<nat>,
                                      b: Symbols, rs': seq<nat>, c: Symbols)
    requires Runs(g, states, acts, x, d, a, rs, b) && Runs(g, states, acts, x, d, b, rs', c)
    ensures Runs(g, states, acts, x, d, a, rs + rs', c)
    decreases rs
  {
    if rs == [] {
      assert rs + rs' == rs';
    } else {
      hide Runs, Reduces;
      RunsFirst(g, states, acts, x, d, a, rs, b);
      RunsAppend(g, states, acts, x, d, Reduced(g, a, rs[0]), rs[1..], b, rs', c);
      var all := rs + rs';
      assert all[0] == rs[0] && all[1..] == rs[1..] + rs';
      RunsFirst(g, states, acts, x, d, a, all, c);
    }
  }

  /** The first i reductions of a run lead to a stack from which the others are made. */
  lemma {:induction false} RunsSplit(g: Grammar, states: seq<State>, acts: seq<seq<Action>>, x: nat, d: nat, a: Symbols, rs: seq<nat>,
                                     b: Symbols, i: nat) returns (c: Symbols)
    requires Runs(g, states, acts, x, d, a, rs, b) && i <= |rs|
    ensures Runs(g, states, acts, x, d, a, rs[..i], c) && Runs(g, states, acts, x, d, c, rs[i..], b)
    decreases rs
  {
    hide Runs, Reduces;
    if i == 0 {
      c := a;
      RunsLow(g, states, acts, x, d, a, rs, b);
      RunsNone(g, states, acts, x, d, a);
      assert rs[..0] == [] && rs[0..] == rs;
    } else {
      RunsFirst(g, states, acts, x, d, a, rs, b);
      c := RunsSplit(g, states, acts, x, d, Reduced(g, a, rs[0]), rs[1..], b, i - 1);
      assert rs[..i][0] == rs[0] && rs[..i][1..] == rs[1..][..i-1] && rs[1..][i-1..] == rs[i..];
      RunsFirst(g, states, acts, x, d, a, rs[..i], c);
    }
  }

  /** From a cycle the parser never gets out. */
  lemma {:induction false} RoundAndRound(g: Grammar, states: seq<State>, acts: seq<seq<Action>>, x: nat, d: nat, b: Symbols,
                                         rs: seq<nat>, n: nat) returns (more: seq<nat>)
    requires rs != [] && Runs(g, states, acts, x, d, b, rs, b)
    ensures |more| >= n && Runs(g, states, acts, x, d, b, more, b)
  {
    hide Runs;
    if n == 0 {
      more := rs;
    } else {
      var less := RoundAndRound(g, states, acts, x, d, b, rs, n - 1);
      RunsAppend(g, states, acts, x, d, b, rs, b, less, b);
      more := rs + less;
    }
  }

  /** The strings over the first k symbols of length at most n. */
  ghost function Words(k: nat, n: nat): set<Symbols> {
    if n == 0 then {[]} else Words(k, n - 1) + set w, s: nat | w in Words(k, n - 1) && s < k :: w + [s]
  }

  ghost predicate SymbolsBelow(w: Symbols, k: nat) {
    forall i :: 0 <= i < |w| ==> w[i] < k
  }

  lemma {:induction false} IsWord(w: Symbols, k: nat, n: nat)
    requires |w| <= n && SymbolsBelow(w, k)
    ensures w in Words(k, n)
    decreases n
  {
    if |w| == n && n > 0 {
      var m := n - 1;
      IsWord(w[..m], k, m);
      assert w == w[..m] + [w[m]];
    } else if n > 0 {
      IsWord(w, k, n - 1);
    }
  }

  lemma ReducedBelow(g: Grammar, a: Symbols, r: nat, k: nat)
    requires g.Valid() && r < |g.rules| && |g.rules[r].rhs| <= |a| && SymbolsBelow(a, k) && g.nsymbol <= k
    ensures SymbolsBelow(Reduced(g, a, r), k)
  {
    assert g.ValidRule(g.rules[r]);
  }

  ghost predicate Reaches(g: Grammar, states: seq<State>, acts: seq<seq<Action>>, x: nat, d: nat, s: Symbols, a: Symbols) {
    exists rs: seq<nat> :: rs != [] && Runs(g, states, acts, x, d, s, rs, a)
  }

  /** A long run comes to a stack that it has seen. */
  lemma {:induction false} SeenAgain(g: Grammar, states: seq<State>, acts: seq<seq<Action>>, x: nat, d: nat, a: Symbols, rs: seq<nat>,
                                     b: Symbols, seen: set<Symbols>, k: nat)
    requires g.Valid() && g.nsymbol <= k && SymbolsBelow(a, k) && d > 0 && Runs(g, states, acts, x, d, a, rs, b)
    requires seen <= Words(k, d - 1) && forall s :: s in seen ==> Reaches(g, states, acts, x, d, s, a)
    ensures |rs| + |seen| < |Words(k, d - 1)| || IntoCycle(g, states, acts, x, d, a)
    decreases rs
  {
    hide Runs, Reduces, Words, SymbolsBelow;
    RunsLow(g, states, acts, x, d, a, rs, b);
    if a in seen {
      RunsNone(g, states, acts, x, d, a);
      assert Reaches(g, states, acts, x, d, a, a);
      assert Cycle(g, states, acts, x, d, a);
    } else {
      IsWord(a, k, d - 1);
      var seen' := seen + {a};
      Smaller(seen', Words(k, d - 1));
      if rs != [] {
        RunsFirst(g, states, acts, x, d, a, rs, b);
        var a' := Reduced(g, a, rs[0]);
        ReducedBelow(g, a, rs[0], k);
        OneReduction(g, states, acts, x, d, a, rs[0], rs[1..], b);
        forall s | s in seen' ensures Reaches(g, states, acts, x, d, s, a') {
          if s != a { ReachesOn(g, states, acts, x, d, s, a, [rs[0]], a'); }
        }
        SeenAgain(g, states, acts, x, d, a', rs[1..], b, seen', k);
        if IntoCycle(g, states, acts, x, d, a') { ThenIntoCycle(g, states, acts, x, d, a, [rs[0]], a'); }
      }
    }
  }

  lemma Smaller(s: set<Symbols>, t: set<Symbols>)
    requires s <= t
    ensures |s| <= |t|
  {
    assert t == s + (t - s);
  }

  lemma OneReduction(g: Grammar, states: seq<State>, acts: seq<seq<Action>>, x: nat, d: nat, a: Symbols, r: nat, rest: seq<nat>, b: Symbols)
    requires |a| < d && Reduces(g, states, acts, x, a, r) && r < |g.rules| && |g.rules[r].rhs| <= |a|
    requires Runs(g, states, acts, x, d, Reduced(g, a, r), rest, b)
    ensures Runs(g, states, acts, x, d, a, [r], Reduced(g, a, r)) && Reaches(g, states, acts, x, d, a, Reduced(g, a, r))
  {
    hide Reduces;
    RunsLow(g, states, acts, x, d, Reduced(g, a, r), rest, b);
    RunsNone(g, states, acts, x, d, Reduced(g, a, r));
    RunsFirst(g, states, acts, x, d, a, [r], Reduced(g, a, r));
    assert [r][1..] == [];
    hide Runs;
    assert [r] != [] && Runs(g, states, acts, x, d, a, [r], Reduced(g, a, r));
  }

  lemma ReachesOn(g: Grammar, states: seq<State>, acts: seq<seq<Action>>, x: nat, d: nat, s: Symbols, a: Symbols, rs: seq<nat>, b: Symbols)
    requires Reaches(g, states, acts, x, d, s, a) && Runs(g, states, acts, x, d, a, rs, b)
    ensures Reaches(g, states, acts, x, d, s, b)
  {
    hide Runs;
    var before: seq<nat> :| before != [] && Runs(g, states, acts, x, d, s, before, a);
    RunsAppend(g, states, acts, x, d, s, before, a, rs, b);
  }

  lemma ThenIntoCycle(g: Grammar, states: seq<State>, acts: seq<seq<Action>>, x: nat, d: nat, a: Symbols, rs: seq<nat>, b: Symbols)
    requires Runs(g, states, acts, x, d, a, rs, b) && IntoCycle(g, states, acts, x, d, b)
    ensures IntoCycle(g, states, acts, x, d, a)
  {
    hide Runs, Cycle;
    var more: seq<nat>, c: Symbols :| Runs(g, states, acts, x, d, b, more, c) && Cycle(g, states, acts, x, d, c);
    RunsAppend(g, states, acts, x, d, a, rs, b, more, c);
  }

  lemma {:induction false} AllBelow(a: Symbols, least: nat) returns (k: nat)
    ensures k >= least && SymbolsBelow(a, k)
  {
    k := least;
    if a != [] {
      var n := |a| - 1;
      k := AllBelow(a[..n], if a[n] < least then least else a[n] + 1);
      forall i | 0 <= i < |a| ensures a[i] < k {
        if i < n { assert a[..n][i] == a[i]; }
      }
    }
  }

  /** A number of reductions that no run exceeds that does not come back to one of its stacks. */
  lemma NoLongRuns(g: Grammar, states: seq<State>, acts: seq<seq<Action>>, x: nat, d: nat, a: Symbols) returns (n: nat)
    requires g.Valid() && !IntoCycle(g, states, acts, x, d, a)
    ensures forall rs: seq<nat>, b: Symbols :: Runs(g, states, acts, x, d, a, rs, b) ==> |rs| < n
  {
    hide Runs, IntoCycle, Words;
    var k := AllBelow(a, g.nsymbol);
    n := if d > 0 then |Words(k, d - 1)| else 0;
    forall rs: seq<nat>, b: Symbols | Runs(g, states, acts, x, d, a, rs, b) ensures |rs| < n {
      RunsLow(g, states, acts, x, d, a, rs, b);
      SeenAgain(g, states, acts, x, d, a, rs, b, {}, k);
    }
  }

  /** Whatever the tables are: the reductions on a token go on without end if and only if they come
      to a cycle; a stack of depth d that is exceeded ends them as well. */
  lemma EndlessIffCycle(g: Grammar, states: seq<State>, acts: seq<seq<Action>>, x: nat, d: nat, a: Symbols)
    requires g.Valid()
    ensures (forall n: nat :: RunsFor(g, states, acts, x, d, a, n)) <==> IntoCycle(g, states, acts, x, d, a)
  {
    if IntoCycle(g, states, acts, x, d, a) {
      forall n: nat ensures RunsFor(g, states, acts, x, d, a, n) { CycleRuns(g, states, acts, x, d, a, n); }
    } else {
      hide Runs, IntoCycle;
      var n := NoLongRuns(g, states, acts, x, d, a);
      assert !RunsFor(g, states, acts, x, d, a, n);
    }
  }

  lemma CycleRuns(g: Grammar, states: seq<State>, acts: seq<seq<Action>>, x: nat, d: nat, a: Symbols, n: nat)
    requires IntoCycle(g, states, acts, x, d, a)
    ensures RunsFor(g, states, acts, x, d, a, n)
  {
    hide Runs;
    var rs: seq<nat>, b: Symbols :| Runs(g, states, acts, x, d, a, rs, b) && Cycle(g, states, acts, x, d, b);
    var round: seq<nat> :| round != [] && Runs(g, states, acts, x, d, b, round, b);
    var more := RoundAndRound(g, states, acts, x, d, b, round, n);
    RunsAppend(g, states, acts, x, d, a, rs, b, more, b);
    var all := rs + more;
    var c := RunsSplit(g, states, acts, x, d, a, all, b, n);
    assert |all[..n]| == n;
  }

  /** No token makes the parser go round, on any stack lower than d. */
  ghost predicate NoCycle(g: Grammar, states: seq<State>, acts: seq<seq<Action>>, d: nat) {
    forall x: nat, b: Symbols :: !Cycle(g, states, acts, x, d, b)
  }

  lemma NoCycleNone(g: Grammar, states: seq<State>, acts: seq<seq<Action>>, d: nat, x: nat, a: Symbols)
    requires NoCycle(g, states, acts, d)
    ensures !IntoCycle(g, states, acts, x, d, a)
  {
  }

  /** Decisive tables of a productive grammar have none. */
  lemma DecisiveNoCycle(g: Grammar, lam: Flags, first: Sets, states: seq<State>, acts: seq<seq<Action>>, d: nat)
    requires g.Valid() && Productive(g) && Collection(g, lam, first, states) && Decisive(g, states, acts)
    ensures NoCycle(g, states, acts, d)
  {
    hide Productive, Collection, Decisive, Reductions, Stays;
    forall x: nat, b: Symbols ensures !Cycle(g, states, acts, x, d, b) {
      if rs: seq<nat> :| rs != [] && Runs(g, states, acts, x, d, b, rs, b) {
        var n := Halts(g, lam, first, states, acts, b);
        var more := RoundAndRound(g, states, acts, x, d, b, rs, n + 1);
        RunAtMost(g, states, acts, x, d, b, more, b, n);
        assert false;
      }
    }
  }

  lemma RunAtMost(g: Grammar, states: seq<State>, acts: seq<seq<Action>>, x: nat, d: nat, a: Symbols, rs: seq<nat>, b: Symbols, n: nat)
    requires AtMost(g, states, acts, a, n) && Runs(g, states, acts, x, d, a, rs, b)
    ensures |rs| <= n
  {
  }

  // ------------------------------------------------------------ grammars without cycles

  /** While these reductions are made, the stack is not lower than m. */
  ghost predicate Tall(g: Grammar, a: Symbols, rs: seq<nat>, m: nat)
    decreases rs
  {
    |a| >= m &&
    (rs == [] || (rs[0] < |g.rules| && |g.rules[rs[0]].rhs| <= |a| && Tall(g, Reduced(g, a, rs[0]), rs[1..], m)))
  }

  lemma {:induction false} NotTall(g: Grammar, states: seq<State>, acts: seq<seq<Action>>, x: nat, d: nat, a: Symbols, rs: seq<nat>,
                                   b: Symbols, m: nat) returns (i: nat, c: Symbols)
    requires Runs(g, states, acts, x, d, a, rs, b) && !Tall(g, a, rs, m)
    ensures i <= |rs| && |c| < m && Runs(g, states, acts, x, d, a, rs[..i], c) && Runs(g, states, acts, x, d, c, rs[i..], b)
    decreases rs
  {
    if |a| < m {
      i, c := 0, a;
      assert rs[..0] == [] && rs[0..] == rs;
      RunsLow(g, states, acts, x, d, a, rs, b);
      RunsNone(g, states, acts, x, d, a);
    } else {
      hide Runs, Reduces;
      RunsFirst(g, states, acts, x, d, a, rs, b);
      i, c := NotTall(g, states, acts, x, d, Reduced(g, a, rs[0]), rs[1..], b, m);
      i := i + 1;
      assert rs[..i][0] == rs[0] && rs[..i][1..] == rs[1..][..i-1] && rs[1..][i-1..] == rs[i..];
      RunsFirst(g, states, acts, x, d, a, rs[..i], c);
    }
  }

  /** Reductions that do not touch u are reductions of what is above it. */
  lemma {:induction false} AboveDerives(g: Grammar, states: seq<State>, acts: seq<seq<Action>>, x: nat, u: Symbols, v: Symbols,
                                        rs: seq<nat>, b: Symbols)
    requires Reductions(g, states, acts, x, u + v, rs, b) && Tall(g, u + v, rs, |u| + 1)
    ensures |b| > |u| && b[..|u|] == u && Rightmost(g, b[|u|..], Backwards(rs), v)
    decreases rs
  {
    hide Rightmost, Reduces;
    if rs == [] {
      assert (u + v)[|u|..] == v;
      NoSteps(g, v);
    } else {
      var r := rs[0];
      var a' := Reduced(g, u + v, r);
      var z := Undone(g, states, acts, x, u + v, r, []);
      assert |a'| > |u| by { TallFirst(g, a', rs[1..], |u| + 1); }
      var v1 := z[|u|..];
      assert z[..|u|] == u && z == u + v1 && v == v1 + g.rules[r].rhs by { Beyond(u, v, z, g.rules[r].rhs); }
      assert a' == u + (v1 + [g.rules[r].lhs]);
      AboveDerives(g, states, acts, x, u, v1 + [g.rules[r].lhs], rs[1..], b);
      OneStep(g, v1, r, []);
      assert v1 + [g.rules[r].lhs] + [] == v1 + [g.rules[r].lhs] && v1 + g.rules[r].rhs + [] == v;
      RightmostTrans(g, b[|u|..], Backwards(rs[1..]), v1 + [g.rules[r].lhs], [r], v);
    }
  }

  lemma TallFirst(g: Grammar, a: Symbols, rs: seq<nat>, m: nat)
    requires Tall(g, a, rs, m)
    ensures |a| >= m
  {
  }

  lemma Beyond(u: Symbols, v: Symbols, z: Symbols, y: Symbols)
    requires u + v == z + y && |u| <= |z|
    ensures z[..|u|] == u && z == u + z[|u|..] && v == z[|u|..] + y
  {
    assert z == (u + v)[..|z|];
    assert (u + v)[|u|..] == v && (z + y)[|u|..] == z[|u|..] + y;
  }

  /** Some nonterminal derives itself in one step or more. */
  ghost predicate SelfDeriving(g: Grammar, s: nat) {
    exists n: nat :: n > 0 && DerivesIn(g, [s], [s], n)
  }

  /** Where the parser goes round, a nonterminal derives itself: the one on top of the lowest stack. */
  lemma {:induction false} CycleDerives(g: Grammar, states: seq<State>, acts: seq<seq<Action>>, x: nat, d: nat, b: Symbols, rs: seq<nat>)
    returns (s: nat)
    requires rs != [] && Runs(g, states, acts, x, d, b, rs, b)
    ensures SelfDeriving(g, s)
    decreases |b|
  {
    hide Runs, Tall, DerivesIn, Rightmost;
    if Tall(g, b, rs, |b|) {
      NotEmpty(g, states, acts, x, d, b, rs, b);
      var u, v := b[..|b|-1], [b[|b|-1]];
      assert b == u + v && b[|u|..] == v;
      AboveDerives(g, states, acts, x, u, v, rs, b) by { RunsReduces(g, states, acts, x, d, b, rs, b); }
      RightmostDerives(g, v, Backwards(rs), v);
      BackwardsLength(rs);
      s := b[|b|-1];
    } else {
      var i, c := NotTall(g, states, acts, x, d, b, rs, b, |b|);
      RunsAppend(g, states, acts, x, d, c, rs[i..], b, rs[..i], c);
      s := CycleDerives(g, states, acts, x, d, c, rs[i..] + rs[..i]);
    }
  }

  lemma RunsReduces(g: Grammar, states: seq<State>, acts: seq<seq<Action>>, x: nat, d: nat, a: Symbols, rs: seq<nat>, b: Symbols)
    requires Runs(g, states, acts, x, d, a, rs, b)
    ensures Reductions(g, states, acts, x, a, rs, b)
  {
  }

  lemma NotEmpty(g: Grammar, states: seq<State>, acts: seq<seq<Action>>, x: nat, d: nat, a: Symbols, rs: seq<nat>, b: Symbols)
    requires rs != [] && Runs(g, states, acts, x, d, a, rs, b)
    ensures b != []
  {
    EndsOnPath(g, states, acts, x, a, rs, b);
  }

  /** A rule of nonterminal s has the symbol t, and everything else of it can vanish. */
  ghost predicate UnitStepAt(g: Grammar, s: nat, t: nat, r: nat, k: nat) {
    && r < |g.rules| && g.rules[r].lhs == s && k < |g.rules[r].rhs| && g.rules[r].rhs[k] == t
    && Derives(g, g.rules[r].rhs[..k], []) && Derives(g, g.rules[r].rhs[k+1..], [])
  }

  ghost predicate UnitStep(g: Grammar, s: nat, t: nat) {
    exists r: nat, k: nat :: UnitStepAt(g, s, t, r, k)
  }

  ghost predicate UnitPath(g: Grammar, s: nat, t: nat, n: nat)
    decreases n
  {
    if n == 0 then s == t else exists u: nat :: UnitStep(g, s, u) && UnitPath(g, u, t, n - 1)
  }

  /** From no symbol do the rules lead back to it, one symbol at a time with the rest vanishing. */
  ghost predicate Acyclic(g: Grammar) {
    forall s: nat, n: nat :: n > 0 ==> !UnitPath(g, s, s, n)
  }

  /** The steps are seen in the lambda flags that `FindFirstSets` leaves. */
  lemma UnitStepMarked(g: Grammar, lam: Flags, s: nat, t: nat, r: nat, k: nat)
    requires g.Valid() && FirstSets.LambdaSound(g, lam) && FirstSets.LambdaClosed(g, lam)
    ensures UnitStepAt(g, s, t, r, k) <==>
            && r < |g.rules| && g.rules[r].lhs == s && k < |g.rules[r].rhs| && g.rules[r].rhs[k] == t
            && FirstSets.AllLambda(g.rules[r].rhs[..k], lam) && FirstSets.AllLambda(g.rules[r].rhs[k+1..], lam)
  {
    if r < |g.rules| && k < |g.rules[r].rhs| {
      VanishIsLambda(g, lam, g.rules[r].rhs[..k]);
      VanishIsLambda(g, lam, g.rules[r].rhs[k+1..]);
    }
  }

  lemma VanishIsLambda(g: Grammar, lam: Flags, a: Symbols)
    requires FirstSets.LambdaSound(g, lam) && FirstSets.LambdaClosed(g, lam)
    ensures Derives(g, a, []) <==> FirstSets.AllLambda(a, lam)
  {
    hide FirstSets.LambdaSound, FirstSets.LambdaClosed, FirstSets.AllLambda;
    if FirstSets.AllLambda(a, lam) { FirstSets.AllLambdaDerives(g, a, lam); }
    if n: nat :| DerivesIn(g, a, [], n) { FirstSets.LambdaComplete(g, lam, a, n); }
  }

  /** When a string derives a single symbol, one of its symbols does, and the others vanish. */
  lemma {:induction false} OneSymbolLeft(g: Grammar, a: Symbols, t: nat, n: nat) returns (k: nat, m: nat)
    requires DerivesIn(g, a, [t], n)
    ensures k < |a| && m <= n && DerivesIn(g, [a[k]], [t], m) && Derives(g, a[..k], []) && Derives(g, a[k+1..], [])
    decreases |a|
  {
    hide Derives, DerivesIn;
    if a == [] {
      EmptyDerives(g, [t], n);
      assert false;
    } else {
      var x, rest := [a[0]], a[1..];
      assert a == x + rest;
      var w1, n1, w2, n2 := Split(g, x, rest, [t], n);
      if w1 == [] {
        assert w2 == [t];
        var k', m' := OneSymbolLeft(g, rest, t, n2);
        k, m := k' + 1, m';
        FirstVanishes(g, a, k', n1);
        assert a[k+1..] == rest[k'+1..];
      } else {
        assert w1 == [t] && w2 == [];
        k, m := 0, n1;
        assert a[..0] == [] && a[0+1..] == rest;
        DerivesSelf(g, []);
        IsDerivation(g, rest, [], n2);
      }
    }
  }

  lemma FirstVanishes(g: Grammar, a: Symbols, k: nat, n: nat)
    requires k < |a| && DerivesIn(g, [a[0]], [], n) && Derives(g, a[1..][..k], [])
    ensures Derives(g, a[..k+1], [])
  {
    hide Derives, DerivesIn;
    var x, y := [a[0]], a[1..][..k];
    IsDerivation(g, x, [], n);
    DerivesContext(g, [], x, [], y);
    assert [] + x + y == a[..k+1] && [] + [] + y == y;
    DerivesTrans(g, a[..k+1], y, []);
  }

  lemma EmptyDerives(g: Grammar, b: Symbols, n: nat)
    ensures DerivesIn(g, [], b, n) ==> b == []
  {
    forall c: Symbols ensures !Step(g, [], c) { NoStepFromNothing(g, c); }
  }

  lemma NoStepFromNothing(g: Grammar, c: Symbols)
    ensures !Step(g, [], c)
  {
  }

  lemma {:induction false} DerivesAlongUnits(g: Grammar, s: nat, t: nat, n: nat) returns (m: nat)
    requires n > 0 && DerivesIn(g, [s], [t], n)
    ensures m > 0 && UnitPath(g, s, t, m)
    decreases n
  {
    hide Derives;
    var r, c := FirstOfOne(g, s, [t], n);
    var k, i := OneSymbolLeft(g, c, t, n - 1);
    var u := c[k];
    assert UnitStepAt(g, s, u, r, k) && UnitStep(g, s, u);
    var j: nat := 0;
    if i == 0 {
      assert [u][0] == [t][0];
    } else {
      j := DerivesAlongUnits(g, u, t, i);
    }
    m := j + 1;
    assert UnitPath(g, u, t, j);
  }

  lemma FirstOfOne(g: Grammar, s: nat, b: Symbols, n: nat) returns (r: nat, c: Symbols)
    requires n > 0 && DerivesIn(g, [s], b, n)
    ensures r < |g.rules| && g.rules[r].lhs == s && c == g.rules[r].rhs && DerivesIn(g, c, b, n - 1)
  {
    c :| Step(g, [s], c) && DerivesIn(g, c, b, n - 1);
    var i: nat;
    i, r :| StepAt(g, [s], c, i, r);
    assert c == [] + g.rules[r].rhs + [];
  }

  lemma {:induction false} UnitsDerive(g: Grammar, s: nat, t: nat, m: nat) returns (n: nat)
    requires UnitPath(g, s, t, m)
    ensures n >= m && DerivesIn(g, [s], [t], n)
    decreases m
  {
    hide Derives, UnitStepAt;
    if m == 0 {
      n := 0;
    } else {
      var u: nat :| UnitStep(g, s, u) && UnitPath(g, u, t, m - 1);
      var r: nat, k: nat :| UnitStepAt(g, s, u, r, k);
      var i := UnitDerives(g, s, u, r, k);
      var j := UnitsDerive(g, u, t, m - 1);
      DerivesInTrans(g, [s], [u], [t], i, j);
      n := i + j;
    }
  }

  lemma OthersVanish(g: Grammar, y: Symbols, t: nat, z: Symbols)
    requires Derives(g, y, []) && Derives(g, z, [])
    ensures Derives(g, y + [t] + z, [t])
  {
    hide Derives;
    DerivesContext(g, [], y, [], [t] + z);
    DerivesContext(g, [t], z, [], []);
    assert [] + y + ([t] + z) == y + [t] + z && [] + [] + ([t] + z) == [t] + z;
    assert [t] + z + [] == [t] + z && [t] + [] + [] == [t];
    DerivesTrans(g, y + [t] + z, [t] + z, [t]);
  }

  lemma StepOfOne(g: Grammar, r: nat)
    requires r < |g.rules|
    ensures Step(g, [g.rules[r].lhs], g.rules[r].rhs)
  {
    var a, rhs := [g.rules[r].lhs], g.rules[r].rhs;
    assert a[..0] + rhs + a[1..] == rhs;
    assert StepAt(g, a, rhs, 0, r);
  }

  lemma UnitDerives(g: Grammar, s: nat, t: nat, r: nat, k: nat) returns (n: nat)
    requires UnitStepAt(g, s, t, r, k)
    ensures n > 0 && DerivesIn(g, [s], [t], n)
  {
    hide Step;
    var rhs := g.rules[r].rhs;
    assert rhs == rhs[..k] + [t] + rhs[k+1..];
    OthersVanish(g, rhs[..k], t, rhs[k+1..]);
    StepOfOne(g, r);
    var m: nat :| DerivesIn(g, rhs, [t], m);
    n := m + 1;
  }

  /** The condition on the grammar is exact for what it says: no nonterminal derives itself. */
  lemma AcyclicIs(g: Grammar)
    ensures Acyclic(g) <==> forall s: nat :: !SelfDeriving(g, s)
  {
    hide DerivesIn, UnitPath;
    if Acyclic(g) {
      forall s: nat ensures !SelfDeriving(g, s) {
        if n: nat :| n > 0 && DerivesIn(g, [s], [s], n) {
          var m := DerivesAlongUnits(g, s, s, n);
          assert false;
        }
      }
    } else {
      var s: nat, m: nat :| m > 0 && UnitPath(g, s, s, m);
      var n := UnitsDerive(g, s, s, m);
      assert SelfDeriving(g, s);
    }
  }

  /** With an acyclic grammar no tables make the parser go round, whatever precedences and conflicts
      they come from. */
  lemma AcyclicNoCycle(g: Grammar, states: seq<State>, acts: seq<seq<Action>>, d: nat)
    requires Acyclic(g)
    ensures NoCycle(g, states, acts, d)
  {
    hide Acyclic, SelfDeriving, Runs;
    AcyclicIs(g);
    forall x: nat, b: Symbols ensures !Cycle(g, states, acts, x, d, b) {
      if rs: seq<nat> :| rs != [] && Runs(g, states, acts, x, d, b, rs, b) {
        var s := CycleDerives(g, states, acts, x, d, b, rs);
        assert false;
      }
    }
  }

  // ------------------------------------------------------------ what the tables determine

  /** With the symbols a on the stack the parser shifts the token x. */
  ghost predicate Shifts(g: Grammar, states: seq<State>, acts: seq<seq<Action>>, x: nat, a: Symbols) {
    exists q: nat :: ShiftsIn(g, states, acts, x, a, q)
  }

  ghost predicate ShiftsIn(g: Grammar, states: seq<State>, acts: seq<seq<Action>>, x: nat, a: Symbols, q: nat) {
    Leads(states, a, q) && q < |acts| && Meaning(g, acts[q], x).Go?
  }

  /** On the token x the parser gets from the stack a to the stack c. */
  ghost predicate Takes(g: Grammar, states: seq<State>, acts: seq<seq<Action>>, x: nat, d: nat, a: Symbols, c: Symbols) {
    |c| < d && exists rs: seq<nat>, b: Symbols :: Runs(g, states, acts, x, d, a, rs, b) && Shifts(g, states, acts, x, b) && c == b + [x]
  }

  function Last(u: Symbols): nat
    requires u != []
  {
    u[|u|-1]
  }

  /** After the tokens u the parser has the stack a. */
  ghost predicate Gets(g: Grammar, states: seq<State>, acts: seq<seq<Action>>, d: nat, u: Symbols, a: Symbols)
    decreases |u|
  {
    if u == [] then a == []
    else exists c: Symbols :: Takes(g, states, acts, Last(u), d, c, a) && Gets(g, states, acts, d, u[..|u|-1], c)
  }

  /** After k tokens of the input the next one, or the end marker, leads to no cycle. */
  ghost predicate EndsAt(g: Grammar, states: seq<State>, acts: seq<seq<Action>>, d: nat, input: Symbols, k: nat)
    requires k <= |input|
  {
    forall a: Symbols :: Gets(g, states, acts, d, input[..k], a) ==> !IntoCycle(g, states, acts, Next(input[k..]), d, a)
  }

  /** On its way through the input, the end marker included, the parser comes to no cycle. */
  ghost predicate EndsOn(g: Grammar, states: seq<State>, acts: seq<seq<Action>>, d: nat, input: Symbols) {
    forall k: nat :: k <= |input| ==> EndsAt(g, states, acts, d, input, k)
  }

  lemma NoCycleEnds(g: Grammar, states: seq<State>, acts: seq<seq<Action>>, d: nat, input: Symbols)
    requires NoCycle(g, states, acts, d)
    ensures EndsOn(g, states, acts, d, input)
  {
    hide Gets, NoCycle, IntoCycle;
    forall k: nat, a: Symbols | k <= |input| ensures !IntoCycle(g, states, acts, Next(input[k..]), d, a) {
      NoCycleNone(g, states, acts, d, Next(input[k..]), a);
    }
  }

  lemma EndsHere(g: Grammar, states: seq<State>, acts: seq<seq<Action>>, d: nat, input: Symbols, k: nat, a: Symbols)
    requires EndsOn(g, states, acts, d, input) && k <= |input| && Gets(g, states, acts, d, input[..k], a)
    ensures EndsAt(g, states, acts, d, input, k) && !IntoCycle(g, states, acts, Next(input[k..]), d, a)
  {
    hide Gets, IntoCycle;
    assert EndsAt(g, states, acts, d, input, k);
  }

  lemma EndsEverywhere(g: Grammar, states: seq<State>, acts: seq<seq<Action>>, d: nat, input: Symbols)
    requires forall k: nat :: k <= |input| ==> EndsAt(g, states, acts, d, input, k)
    ensures EndsOn(g, states, acts, d, input)
  {
    hide EndsAt;
  }

  /** A run that is not as long as some number shows that there is no cycle. */
  lemma NotForEver(g: Grammar, states: seq<State>, acts: seq<seq<Action>>, d: nat, input: Symbols, k: nat, a: Symbols, n: nat)
    requires Viable.Complete(g, states) && k <= |input| && Gets(g, states, acts, d, input[..k], a)
    requires !RunsFor(g, states, acts, Next(input[k..]), d, a, n)
    ensures EndsAt(g, states, acts, d, input, k)
  {
    hide Gets, IntoCycle, RunsFor, Viable.Complete;
    forall a': Symbols | Gets(g, states, acts, d, input[..k], a') ensures !IntoCycle(g, states, acts, Next(input[k..]), d, a') {
      GetsOne(g, states, acts, d, input[..k], a, a');
      if IntoCycle(g, states, acts, Next(input[k..]), d, a) {
        CycleRuns(g, states, acts, Next(input[k..]), d, a, n);
        assert false;
      }
    }
  }

  /** Behind a token that the parser does not take it never comes. */
  lemma NeverGot(g: Grammar, states: seq<State>, acts: seq<seq<Action>>, d: nat, input: Symbols, j: nat, a: Symbols, k: nat)
    requires Viable.Complete(g, states) && j < k <= |input| && Gets(g, states, acts, d, input[..j], a)
    requires forall c: Symbols :: !Takes(g, states, acts, input[j], d, a, c)
    ensures EndsAt(g, states, acts, d, input, k)
  {
    hide Gets, Takes, IntoCycle, Viable.Complete;
    forall a': Symbols ensures !Gets(g, states, acts, d, input[..k], a') {
      if Gets(g, states, acts, d, input[..k], a') {
        var b, c := GetsBefore(g, states, acts, d, input[..k], a', j);
        assert input[..k][..j] == input[..j];
        GetsOne(g, states, acts, d, input[..j], a, b);
        assert false;
      }
    }
  }

  lemma GotNothing(g: Grammar, states: seq<State>, acts: seq<seq<Action>>, d: nat, input: Symbols)
    ensures Gets(g, states, acts, d, input[..0], [])
  {
  }

  lemma OneRule(g: Grammar, states: seq<State>, acts: seq<seq<Action>>, x: nat, a: Symbols, r: nat, r': nat)
    requires Viable.Complete(g, states) && Reduces(g, states, acts, x, a, r) && Reduces(g, states, acts, x, a, r')
    ensures r == r'
  {
    var q: nat :| ReducesIn(g, states, acts, x, a, q, r);
    var q': nat :| ReducesIn(g, states, acts, x, a, q', r');
    OnePath(g, states, a, q, q');
  }

  lemma ShiftOrReduce(g: Grammar, states: seq<State>, acts: seq<seq<Action>>, x: nat, a: Symbols, r: nat)
    requires Viable.Complete(g, states) && Reduces(g, states, acts, x, a, r)
    ensures !Shifts(g, states, acts, x, a)
  {
    var q: nat :| ReducesIn(g, states, acts, x, a, q, r);
    forall q': nat ensures !ShiftsIn(g, states, acts, x, a, q') {
      if Leads(states, a, q') { OnePath(g, states, a, q, q'); }
    }
  }

  /** Of two runs from the same stack one continues the other. */
  lemma {:induction false} OneRun(g: Grammar, states: seq<State>, acts: seq<seq<Action>>, x: nat, d: nat, a: Symbols,
                                  rs: seq<nat>, b: Symbols, rs': seq<nat>, b': Symbols)
    requires Viable.Complete(g, states) && Runs(g, states, acts, x, d, a, rs, b) && Runs(g, states, acts, x, d, a, rs', b') && |rs| <= |rs'|
    ensures Runs(g, states, acts, x, d, b, rs'[|rs|..], b')
    decreases rs
  {
    hide Runs, Reduces, Viable.Complete;
    if rs == [] {
      RunsNothing(g, states, acts, x, d, a, b);
      assert rs'[0..] == rs';
    } else {
      RunsFirst(g, states, acts, x, d, a, rs, b);
      RunsFirst(g, states, acts, x, d, a, rs', b');
      OneRule(g, states, acts, x, a, rs[0], rs'[0]);
      OneRun(g, states, acts, x, d, Reduced(g, a, rs[0]), rs[1..], b, rs'[1..], b');
      assert rs'[1..][|rs[1..]|..] == rs'[|rs|..];
    }
  }

  lemma RunsNothing(g: Grammar, states: seq<State>, acts: seq<seq<Action>>, x: nat, d: nat, a: Symbols, b: Symbols)
    requires Runs(g, states, acts, x, d, a, [], b)
    ensures a == b
  {
  }

  /** The parser makes no further reduction below depth d. */
  ghost predicate Rests(g: Grammar, states: seq<State>, acts: seq<seq<Action>>, x: nat, d: nat, b: Symbols) {
    forall r: nat :: r < |g.rules| && |g.rules[r].rhs| <= |b| && Reduces(g, states, acts, x, b, r) ==> |Reduced(g, b, r)| >= d
  }

  lemma RestsHere(g: Grammar, states: seq<State>, acts: seq<seq<Action>>, x: nat, d: nat, b: Symbols, rs: seq<nat>, c: Symbols)
    requires Rests(g, states, acts, x, d, b) && Runs(g, states, acts, x, d, b, rs, c)
    ensures rs == []
  {
    if rs != [] {
      RunsStart(g, states, acts, x, d, b, rs, c);
      assert false;
    }
  }

  lemma RunsStart(g: Grammar, states: seq<State>, acts: seq<seq<Action>>, x: nat, d: nat, a: Symbols, rs: seq<nat>, b: Symbols)
    requires rs != [] && Runs(g, states, acts, x, d, a, rs, b)
    ensures rs[0] < |g.rules| && |g.rules[rs[0]].rhs| <= |a| && Reduces(g, states, acts, x, a, rs[0]) && |Reduced(g, a, rs[0])| < d
  {
    RunsLow(g, states, acts, x, d, Reduced(g, a, rs[0]), rs[1..], b);
  }

  /** Where the parser rests the longest run ends. */
  lemma RestsAfter(g: Grammar, states: seq<State>, acts: seq<seq<Action>>, x: nat, d: nat, a: Symbols, rs: seq<nat>, b: Symbols, n: nat)
    requires Viable.Complete(g, states) && Runs(g, states, acts, x, d, a, rs, b) && Rests(g, states, acts, x, d, b)
    requires n > |rs|
    ensures !RunsFor(g, states, acts, x, d, a, n)
  {
    hide Runs, Rests, Viable.Complete;
    forall rs': seq<nat>, b': Symbols | Runs(g, states, acts, x, d, a, rs', b') ensures |rs'| != n {
      if |rs'| == n {
        OneRun(g, states, acts, x, d, a, rs, b, rs', b');
        RestsHere(g, states, acts, x, d, b, rs'[|rs|..], b');
        assert false;
      }
    }
  }

  /** And what the parser takes it takes from there. */
  lemma TakesAfter(g: Grammar, states: seq<State>, acts: seq<seq<Action>>, x: nat, d: nat, a: Symbols, rs: seq<nat>, b: Symbols, c: Symbols)
    requires Viable.Complete(g, states) && Runs(g, states, acts, x, d, a, rs, b) && Rests(g, states, acts, x, d, b)
    requires Takes(g, states, acts, x, d, a, c)
    ensures Shifts(g, states, acts, x, b) && |b| + 1 < d && c == b + [x]
  {
    hide Runs, Rests, Viable.Complete, Shifts, Reduces;
    var rs': seq<nat>, b': Symbols :| Runs(g, states, acts, x, d, a, rs', b') && Shifts(g, states, acts, x, b') && c == b' + [x];
    if |rs| <= |rs'| {
      OneRun(g, states, acts, x, d, a, rs, b, rs', b');
      RestsHere(g, states, acts, x, d, b, rs'[|rs|..], b');
      RunsNothing(g, states, acts, x, d, b, b');
    } else {
      OneRun(g, states, acts, x, d, a, rs', b', rs, b);
      var rest := rs[|rs'|..];
      RunsFirst(g, states, acts, x, d, b', rest, b);
      ShiftOrReduce(g, states, acts, x, b', rest[0]);
      assert false;
    }
  }

  lemma ShiftRests(g: Grammar, states: seq<State>, acts: seq<seq<Action>>, x: nat, d: nat, b: Symbols)
    requires Viable.Complete(g, states) && Shifts(g, states, acts, x, b)
    ensures Rests(g, states, acts, x, d, b)
  {
    hide Viable.Complete, Shifts, Reduces;
    forall r: nat | Reduces(g, states, acts, x, b, r) ensures false { ShiftOrReduce(g, states, acts, x, b, r); }
  }

  lemma TakesOne(g: Grammar, states: seq<State>, acts: seq<seq<Action>>, x: nat, d: nat, a: Symbols, c: Symbols, c': Symbols)
    requires Viable.Complete(g, states) && Takes(g, states, acts, x, d, a, c) && Takes(g, states, acts, x, d, a, c')
    ensures c == c'
  {
    hide Runs, Viable.Complete, Shifts, Rests;
    var rs: seq<nat>, b: Symbols :| Runs(g, states, acts, x, d, a, rs, b) && Shifts(g, states, acts, x, b) && c == b + [x];
    ShiftRests(g, states, acts, x, d, b);
    TakesAfter(g, states, acts, x, d, a, rs, b, c');
  }

  /** The stack after some tokens is determined. */
  lemma {:induction false} GetsOne(g: Grammar, states: seq<State>, acts: seq<seq<Action>>, d: nat, u: Symbols, a: Symbols, a': Symbols)
    requires Viable.Complete(g, states) && Gets(g, states, acts, d, u, a) && Gets(g, states, acts, d, u, a')
    ensures a == a'
    decreases |u|
  {
    hide Takes, Viable.Complete;
    if u != [] {
      var n := |u| - 1;
      var c: Symbols :| Takes(g, states, acts, Last(u), d, c, a) && Gets(g, states, acts, d, u[..|u|-1], c);
      var c': Symbols :| Takes(g, states, acts, Last(u), d, c', a') && Gets(g, states, acts, d, u[..|u|-1], c');
      GetsOne(g, states, acts, d, u[..n], c, c');
      TakesOne(g, states, acts, u[n], d, c, a, a');
    }
  }

  /** What the parser has after more tokens it has got by way of what it had after fewer. */
  lemma {:induction false} GetsBefore(g: Grammar, states: seq<State>, acts: seq<seq<Action>>, d: nat, u: Symbols, a: Symbols, j: nat)
    returns (b: Symbols, c: Symbols)
    requires Gets(g, states, acts, d, u, a) && j < |u|
    ensures Gets(g, states, acts, d, u[..j], b) && Takes(g, states, acts, u[j], d, b, c)
    decreases |u|
  {
    hide Takes;
    var n := |u| - 1;
    var e: Symbols :| Takes(g, states, acts, Last(u), d, e, a) && Gets(g, states, acts, d, u[..|u|-1], e);
    if j == n {
      b, c := e, a;
    } else {
      b, c := GetsBefore(g, states, acts, d, u[..n], e, j);
      assert u[..n][..j] == u[..j];
    }
  }

  lemma GetsMore(g: Grammar, states: seq<State>, acts: seq<seq<Action>>, d: nat, u: Symbols, a: Symbols, x: nat, c: Symbols)
    requires Gets(g, states, acts, d, u, a) && Takes(g, states, acts, x, d, a, c)
    ensures Gets(g, states, acts, d, u + [x], c)
  {
    hide Takes;
    var v := u + [x];
    assert v[..|v|-1] == u && Last(v) == x;
  }
}
