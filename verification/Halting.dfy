/** The parser stops reducing: if the tables do all that an LALR(1) automaton allows, the number of
    reductions on any token, right or wrong, is bounded by a number that depends on the stack alone. */
module Halting {
  import opened Grammars
  import opened BitSets
  import opened LR0
  import opened Closure
  import opened Automaton
  import opened Actions
  import opened Compress
  import opened Lookaheads
  import opened Viable

  /** Rule r is complete in state q, with x as one of its lookaheads. */
  ghost predicate Completes(g: Grammar, states: seq<State>, q: nat, r: nat, x: nat) {
    && q < |states| && r < |g.rules| && g.Terminal(x)
    && Has(states[q].cfp, Config(r, |g.rules[r].rhs|)) && Lookahead(g, states, q, Config(r, |g.rules[r].rhs|), x)
  }

  /** The tables do all that the automaton allows: every shift of a terminal, and every reduction
      of a complete configuration on each of its lookaheads. */
  ghost predicate Decisive(g: Grammar, states: seq<State>, acts: seq<seq<Action>>) {
    && |acts| == |states|
    && (forall q: nat, x: nat, s: nat :: q < |states| && g.Terminal(x) && HasShift(states[q], x, s) ==> Meaning(g, acts[q], x) == Go(s))
    && forall q: nat, r: nat, x: nat :: Completes(g, states, q, r, x) ==> Meaning(g, acts[q], x) == Reduce(r)
  }

  // ------------------------------------------------------------ runs of reductions

  /** What a reduction by r leaves of the symbols a on the stack. */
  function Reduced(g: Grammar, a: Symbols, r: nat): Symbols
    requires r < |g.rules| && |g.rules[r].rhs| <= |a|
  {
    a[..|a|-|g.rules[r].rhs|] + [g.rules[r].lhs]
  }

  /** With the symbols a on the stack and the token x next, the parser reduces by r and goes on. */
  ghost predicate ReducesIn(g: Grammar, states: seq<State>, acts: seq<seq<Action>>, x: nat, a: Symbols, q: nat, r: nat) {
    && Leads(states, a, q) && q < |acts| && Meaning(g, acts[q], x) == Reduce(r)
    && r < |g.rules| && |g.rules[r].rhs| <= |a| && a[|a|-|g.rules[r].rhs|..] == g.rules[r].rhs && g.rules[r].lhs != g.start
    && exists p: nat :: Leads(states, Reduced(g, a, r), p)
  }

  ghost predicate Reduces(g: Grammar, states: seq<State>, acts: seq<seq<Action>>, x: nat, a: Symbols, r: nat) {
    exists q: nat :: ReducesIn(g, states, acts, x, a, q, r)
  }

  /** The reductions rs, in this order, on the same token x, turn the stack a into b. */
  ghost predicate Reductions(g: Grammar, states: seq<State>, acts: seq<seq<Action>>, x: nat, a: Symbols, rs: seq<nat>, b: Symbols)
    decreases rs
  {
    if rs == [] then a == b
    else Reduces(g, states, acts, x, a, rs[0])
         && rs[0] < |g.rules| && |g.rules[rs[0]].rhs| <= |a| && Reductions(g, states, acts, x, Reduced(g, a, rs[0]), rs[1..], b)
  }

  function Backwards(rs: seq<nat>): seq<nat> {
    if rs == [] then [] else Backwards(rs[1..]) + [rs[0]]
  }

  lemma {:induction false} BackwardsLength(rs: seq<nat>)
    ensures |Backwards(rs)| == |rs|
  {
    if rs != [] { BackwardsLength(rs[1..]); }
  }

  lemma Undone(g: Grammar, states: seq<State>, acts: seq<seq<Action>>, x: nat, a: Symbols, r: nat, w: Symbols) returns (u: Symbols)
    requires Reduces(g, states, acts, x, a, r) && AllTerminals(g, w)
    ensures r < |g.rules| && |g.rules[r].rhs| <= |a| && |u| + |g.rules[r].rhs| == |a|
    ensures Reduced(g, a, r) == u + [g.rules[r].lhs] && a == u + g.rules[r].rhs
    ensures Rightmost(g, Reduced(g, a, r) + w, [r], a + w)
  {
    u := a[..|a|-|g.rules[r].rhs|];
    assert a == u + g.rules[r].rhs;
    OneStep(g, u, r, w);
  }

  /** Read backwards, the reductions derive what was on the stack before. */
  lemma {:induction false} ReductionsDerive(g: Grammar, states: seq<State>, acts: seq<seq<Action>>, x: nat, a: Symbols, rs: seq<nat>,
                                            b: Symbols, w: Symbols)
    requires Reductions(g, states, acts, x, a, rs, b) && AllTerminals(g, w)
    ensures Rightmost(g, b + w, Backwards(rs), a + w)
    decreases rs
  {
    hide Rightmost, Reduces, AllTerminals;
    if rs == [] {
      NoSteps(g, a + w);
    } else {
      var u := Undone(g, states, acts, x, a, rs[0], w);
      ReductionsDerive(g, states, acts, x, Reduced(g, a, rs[0]), rs[1..], b, w);
      RightmostTrans(g, b + w, Backwards(rs[1..]), Reduced(g, a, rs[0]) + w, [rs[0]], a + w);
    }
  }

  lemma NoSteps(g: Grammar, a: Symbols)
    ensures Rightmost(g, a, [], a)
  {
  }

  // ------------------------------------------------------------ the same reductions on a right token

  /** If the stack after all reductions goes on to a sentence by w, the first of them is made on the
      first token of w, too. */
  lemma AlsoReduces(g: Grammar, states: seq<State>, acts: seq<seq<Action>>, x: nat, a: Symbols, r: nat, before: seq<nat>, w: Symbols)
    requires Viable.Complete(g, states) && Decisive(g, states, acts) && Reduces(g, states, acts, x, a, r) && AllTerminals(g, w)
    requires r < |g.rules| && |g.rules[r].rhs| <= |a| && Rightmost(g, [g.start], before, Reduced(g, a, r) + w)
    ensures Reduces(g, states, acts, Next(w), a, r)
    ensures Hopeful(g, a, w, |before| + 1)
  {
    hide Viable.Complete, Decisive, Rightmost, Lookahead;
    var u := a[..|a|-|g.rules[r].rhs|];
    assert a == u + g.rules[r].rhs;
    var c := Reduced(g, a, r) + w;
    var rs := before + [r];
    assert c[..|u|] == u && c[|u|+1..] == w && rs[..|rs|-1] == before;
    assert StepAt(g, c, a + w, |u|, r);
    assert LastStep(g, [g.start], rs, a + w, c, |u|);
    assert HopefulBy(g, a, w, rs, c, |u|);
    var q: nat :| ReducesIn(g, states, acts, x, a, q, r);
    var h := AtHandle(g, states, a, w, rs, c, |u|);
    assert (a + w)[..|a|] == a;
    ReduceNow(g, states, a, q, w, |rs|, rs, c, |u|, h);
    TerminalNext(g, states, w);
    TakesIt(g, states, acts, a, q, w, |rs|, r);
    assert ReducesIn(g, states, acts, Next(w), a, q, r);
  }

  lemma TerminalNext(g: Grammar, states: seq<State>, w: Symbols)
    requires Viable.Complete(g, states) && AllTerminals(g, w)
    ensures g.Terminal(Next(w))
  {
  }

  lemma TakesIt(g: Grammar, states: seq<State>, acts: seq<seq<Action>>, a: Symbols, q: nat, ahead: Symbols, n: nat, r: nat)
    requires Decisive(g, states, acts) && CanReduceBy(g, states, a, q, ahead, n, r) && g.Terminal(Next(ahead))
    ensures q < |acts| && Meaning(g, acts[q], Next(ahead)) == Reduce(r)
  {
    assert Completes(g, states, q, r, Next(ahead));
  }

  lemma {:induction false} SameReductions(g: Grammar, states: seq<State>, acts: seq<seq<Action>>, x: nat, a: Symbols, rs: seq<nat>,
                                          b: Symbols, before: seq<nat>, w: Symbols)
    requires Viable.Complete(g, states) && Decisive(g, states, acts) && Reductions(g, states, acts, x, a, rs, b) && AllTerminals(g, w)
    requires Rightmost(g, [g.start], before, b + w)
    ensures Reductions(g, states, acts, Next(w), a, rs, b)
    ensures rs != [] ==> Hopeful(g, a, w, |before| + |rs|)
    decreases rs
  {
    hide Viable.Complete, Decisive, Rightmost, Reduces, AllTerminals, Hopeful;
    if rs != [] {
      var a' := Reduced(g, a, rs[0]);
      SameReductions(g, states, acts, x, a', rs[1..], b, before, w);
      ReductionsDerive(g, states, acts, x, a', rs[1..], b, w);
      RightmostTrans(g, [g.start], before, b + w, Backwards(rs[1..]), a' + w);
      AlsoReduces(g, states, acts, x, a, rs[0], before + Backwards(rs[1..]), w);
      BackwardsLength(rs[1..]);
    }
  }

  /** On the first token of a sentence that is under way, no more reductions are made than it has steps left. */
  lemma {:induction false} HopeBounds(g: Grammar, states: seq<State>, acts: seq<seq<Action>>, a: Symbols, rs: seq<nat>, b: Symbols,
                                      w: Symbols, n: nat)
    requires Viable.Complete(g, states) && Decisive(g, states, acts) && Hopeful(g, a, w, n)
    requires Reductions(g, states, acts, Next(w), a, rs, b)
    ensures |rs| <= n
    decreases rs
  {
    hide Viable.Complete, Decisive, Hopeful;
    if rs != [] {
      StepOfHope(g, states, acts, a, rs[0], w, n);
      HopeBounds(g, states, acts, Reduced(g, a, rs[0]), rs[1..], b, w, n - 1);
    }
  }

  lemma StepOfHope(g: Grammar, states: seq<State>, acts: seq<seq<Action>>, a: Symbols, r: nat, w: Symbols, n: nat)
    requires Viable.Complete(g, states) && Decisive(g, states, acts) && Hopeful(g, a, w, n) && Reduces(g, states, acts, Next(w), a, r)
    ensures n > 0 && r < |g.rules| && |g.rules[r].rhs| <= |a| && Hopeful(g, Reduced(g, a, r), w, n - 1)
  {
    assert AllTerminals(g, w);
    TerminalNext(g, states, w);
    hide Viable.Complete, Decisive, Hopeful;
    var q: nat :| ReducesIn(g, states, acts, Next(w), a, q, r);
    GoesOn(g, states, a, q, w, n);
    if s: nat :| CanShiftTo(g, states, a, q, w, n, s) {
      ShiftsIt(g, states, acts, a, q, w, n, s);
      assert false;
    } else {
      var r': nat :| CanReduceBy(g, states, a, q, w, n, r');
      TakesIt(g, states, acts, a, q, w, n, r');
    }
  }

  lemma ShiftsIt(g: Grammar, states: seq<State>, acts: seq<seq<Action>>, a: Symbols, q: nat, ahead: Symbols, n: nat, s: nat)
    requires Decisive(g, states, acts) && CanShiftTo(g, states, a, q, ahead, n, s) && g.Terminal(Next(ahead))
    ensures q < |acts| && Meaning(g, acts[q], Next(ahead)) == Go(s)
  {
  }

  // ------------------------------------------------------------ the bound

  /** Some sentence that begins with the token y on this stack has at most n steps left. */
  ghost predicate HopeWithin(g: Grammar, a: Symbols, y: nat, n: nat) {
    exists w: Symbols, m: nat :: Next(w) == y && m <= n && Hopeful(g, a, w, m)
  }

  /** n steps are enough for some sentence with the token y, if there is one at all. */
  ghost predicate Enough(g: Grammar, a: Symbols, y: nat, n: nat) {
    forall m: nat :: HopeWithin(g, a, y, m) ==> HopeWithin(g, a, y, n)
  }

  lemma {:induction false} EnoughForAll(g: Grammar, a: Symbols, k: nat) returns (n: nat)
    ensures forall y: nat :: y < k ==> Enough(g, a, y, n)
  {
    hide HopeWithin;
    n := 0;
    if k > 0 {
      var last: nat := k - 1;
      n := EnoughForAll(g, a, last);
      if m: nat :| HopeWithin(g, a, last, m) {
        var most := if m > n then m else n;
        MoreIsEnough(g, a, last, m, most);
        forall y: nat | y < last ensures Enough(g, a, y, most) {
          assert Enough(g, a, y, n);
          forall i: nat | HopeWithin(g, a, y, i) ensures HopeWithin(g, a, y, most) { MoreIsEnough(g, a, y, n, most); }
        }
        n := most;
      }
    }
  }

  lemma MoreIsEnough(g: Grammar, a: Symbols, y: nat, m: nat, n: nat)
    requires m <= n
    ensures HopeWithin(g, a, y, m) ==> HopeWithin(g, a, y, n)
  {
  }

  /** No token makes the parser reduce more than n times from the stack a. */
  ghost predicate AtMost(g: Grammar, states: seq<State>, acts: seq<seq<Action>>, a: Symbols, n: nat) {
    forall x: nat, rs: seq<nat>, b: Symbols :: Reductions(g, states, acts, x, a, rs, b) ==> |rs| <= n
  }

  lemma {:induction false} EndsOnPath(g: Grammar, states: seq<State>, acts: seq<seq<Action>>, x: nat, a: Symbols, rs: seq<nat>, b: Symbols)
    requires Reductions(g, states, acts, x, a, rs, b) && rs != []
    ensures b != [] && exists q: nat :: Leads(states, b, q)
    decreases rs
  {
    hide Leads;
    if rs[1..] == [] {
      var q: nat :| ReducesIn(g, states, acts, x, a, q, rs[0]);
      assert b == Reduced(g, a, rs[0]);
    } else {
      EndsOnPath(g, states, acts, x, Reduced(g, a, rs[0]), rs[1..], b);
    }
  }

  /** A productive grammar: every sequence of reductions goes on to some sentence, on whose next token
      it is made as well; and each of the finitely many tokens has its bound. */
  lemma Halts(g: Grammar, lam: Flags, first: Sets, states: seq<State>, acts: seq<seq<Action>>, a: Symbols) returns (n: nat)
    requires g.Valid() && Productive(g) && Collection(g, lam, first, states) && Decisive(g, states, acts)
    ensures AtMost(g, states, acts, a, n)
  {
    n := EnoughForAll(g, a, g.nterminal);
    forall x: nat, rs: seq<nat>, b: Symbols | Reductions(g, states, acts, x, a, rs, b) ensures |rs| <= n {
      if rs != [] { BoundHolds(g, lam, first, states, acts, x, a, rs, b, n); }
    }
  }

  lemma BoundHolds(g: Grammar, lam: Flags, first: Sets, states: seq<State>, acts: seq<seq<Action>>, x: nat, a: Symbols, rs: seq<nat>,
                   b: Symbols, n: nat)
    requires g.Valid() && Productive(g) && Collection(g, lam, first, states) && Decisive(g, states, acts)
    requires Reductions(g, states, acts, x, a, rs, b) && rs != [] && forall y: nat :: y < g.nterminal ==> Enough(g, a, y, n)
    ensures |rs| <= n
  {
    hide Viable.Complete, Decisive, Collection, Productive, Rightmost, Hopeful, Leads, Reductions;
    EndsOnPath(g, states, acts, x, a, rs, b);
    var q: nat :| Leads(states, b, q);
    var before, w := PathBegins(g, lam, first, states, b, q);
    CollectionComplete(g, lam, first, states);
    TerminalNext(g, states, w);
    SameReductions(g, states, acts, x, a, rs, b, before, w);
    assert HopeWithin(g, a, Next(w), |before| + |rs|);
    assert Enough(g, a, Next(w), n);
    var v: Symbols, m: nat :| Next(v) == Next(w) && m <= n && Hopeful(g, a, v, m);
    HopeBounds(g, states, acts, a, rs, b, v, m);
  }
}
