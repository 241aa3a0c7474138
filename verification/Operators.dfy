/** Associativity at work: for E -> E op E, E -> a with an operator of some precedence, the parser that Lemon makes builds
    left-nested expressions if the operator is left-associative, and right-nested ones if not. */
module Operators {
  import opened Shared
  import opened Grammars
  import opened BitSets
  import opened FirstSets
  import opened LR0
  import opened Closure
  import opened Automaton
  import opened Actions
  import opened Compress
  import opened Lookaheads
  import opened Viable
  import opened Halting
  import opened Cycles
  import opened TableRuns
  import opened Driver
  import opened Lemon
  import opened Precedence
  import StuckGrammar
  import Tables
  import MSort
  import States

  const op: nat := 1
  const a: nat := 2
  const E: nat := 3
  const S: nat := 4

  /** The grammar as it is written. */
  function Written(how: Assoc): Grammar {
    Grammar(3, 5, [Rule(S, [E], None), Rule(E, [E, op, E], None), Rule(E, [a], None)], S, [-1, 1, -1, -1, -1],
            [UNK, how, UNK, UNK, UNK])
  }

  /** In it the rule E -> E op E has the precedence of op. */
  function Ops(how: Assoc): Grammar {
    Grammar(3, 5, [Rule(S, [E], None), Rule(E, [E, op, E], Some(op)), Rule(E, [a], None)], S, [-1, 1, -1, -1, -1],
            [UNK, how, UNK, UNK, UNK])
  }

  // ------------------------------------------------------------ inputs, stacks and expressions

  /** a op a op ... a, with n operators. */
  function Input(n: nat): Symbols {
    if n == 0 then [a] else Input(n - 1) + [op, a]
  }

  /** E op, k times. */
  ghost function Open(k: nat): Symbols {
    if k == 0 then [] else Open(k - 1) + [E, op]
  }

  datatype Expr = Leaf | Binary(left: Expr, right: Expr)

  function LeftNested(n: nat): Expr {
    if n == 0 then Leaf else Binary(LeftNested(n - 1), Leaf)
  }

  function RightNested(n: nat): Expr {
    if n == 0 then Leaf else Binary(Leaf, RightNested(n - 1))
  }

  /** The reductions that build an expression from the left to the right, the latest first: one by E -> a for each leaf,
      and one by E -> E op E for each node, after those of its parts. */
  function Building(e: Expr): seq<nat> {
    match e
    case Leaf => [2]
    case Binary(l, r) => [1] + Building(r) + Building(l)
  }

  /** The input that an expression stands for. */
  function Tokens(e: Expr): Symbols {
    match e
    case Leaf => [a]
    case Binary(l, r) => Tokens(l) + [op] + Tokens(r)
  }

  lemma {:induction false} BothStandFor(n: nat)
    ensures Tokens(LeftNested(n)) == Input(n) && Tokens(RightNested(n)) == Input(n)
  {
    if n > 0 {
      BothStandFor(n - 1);
      assert Input(n - 1) + [op] + [a] == Input(n);
      InputFront(n - 1);
    }
  }

  lemma {:induction false} InputFront(n: nat)
    ensures Input(n + 1) == [a] + [op] + Input(n)
  {
    if n == 0 {
      assert Input(1) == Input(0) + [op, a];
    } else {
      InputFront(n - 1);
      assert [a] + [op] + (Input(n - 1) + [op, a]) == [a] + [op] + Input(n - 1) + [op, a];
    }
  }

  /** From one operator on the two expressions, and so the reductions that build them, are different. */
  lemma BuildingDiffers(n: nat)
    requires n >= 2
    ensures Building(LeftNested(n)) != Building(RightNested(n))
  {
    assert Building(Leaf) == [2];
    assert Building(LeftNested(n))[1] == 2;
    assert Building(RightNested(n - 1))[0] == 1;
    assert Building(RightNested(n))[1] == 1;
  }

  // ------------------------------------------------------------ the grammar

  lemma Terminals(g: Grammar, how: Assoc)
    requires g == Ops(how)
    ensures g.Valid() && g.StartNotOnRhs() && EndNotOnRhs(g) && |g.rules| == 3 && g.start == S && g.nterminal == 3
    ensures g.rules[0] == Rule(S, [E], None) && g.rules[1] == Rule(E, [E, op, E], Some(op)) && g.rules[2] == Rule(E, [a], None)
    ensures g.prec[op] == 1 && g.prec[a] == -1 && g.assoc[op] == how
  {
  }

  lemma OpsOK(g: Grammar, how: Assoc)
    requires g == Ops(how) && how != UNK
    ensures GrammarOK(g) && Startable(g)
  {
    Terminals(g, how);
    OpsSmall(g, how);
    OpsStartable(g, how);
    hide States.Small, SmallTables, Startable;
  }

  lemma OpsSmall(g: Grammar, how: Assoc)
    requires g == Ops(how)
    ensures States.Small(g) && SmallTables(g)
  {
    hide Pow2;
    StuckGrammar.Pow2Above(MSort.LISTSIZE);
    var all := {Config(0, 0), Config(0, 1), Config(1, 0), Config(1, 1), Config(1, 2), Config(1, 3), Config(2, 0), Config(2, 1)};
    forall d | d in AllConfigs(g) ensures d in all {}
    StuckGrammar.SubsetSmall(AllConfigs(g), all);
    assert |all| <= 8;
  }

  lemma OpsStartable(g: Grammar, how: Assoc)
    requires g == Ops(how)
    ensures Startable(g)
  {
    Terminals(g, how);
    hide Ops, Derives;
    RuleDerives(g, 2);
    RuleDerives(g, 0);
    DerivesTrans(g, [S], [E], [a]);
    assert [a] == [a] + [];
    assert Begins(g, [E], a) && Begins(g, [S], a) && g.Terminal(a);
    forall x: nat | g.nterminal <= x < g.nsymbol ensures Starts(g, x) { assert x == E || x == S; }
  }

  ghost function Rank(x: nat): nat {
    if x == S then 2 else if x == E then 1 else 0
  }

  lemma UnitDown(g: Grammar, how: Assoc, s: nat, t: nat)
    requires g == Ops(how) && UnitStep(g, s, t)
    ensures Rank(t) < Rank(s)
  {
    Terminals(g, how);
    hide Ops, Derives;
    var r: nat, k: nat :| UnitStepAt(g, s, t, r, k);
    var rhs := g.rules[r].rhs;
    if r == 1 && k != 1 {
      Sides(rhs);
      if k == 0 { NotVanishing(g, [], [E], rhs[k+1..]); } else { NotVanishing(g, [E], [], rhs[..k]); }
    }
  }

  lemma Sides(rhs: Symbols)
    requires rhs == [E, op, E]
    ensures rhs[1..] == [] + [op] + [E] && rhs[..2] == [E] + [op] + []
  {
  }

  lemma NotVanishing(g: Grammar, u: Symbols, v: Symbols, w: Symbols)
    requires g.Valid() && g.Terminal(op) && w == u + [op] + v
    ensures !Derives(g, w, [])
  {
    hide DerivesIn;
    forall n: nat ensures !DerivesIn(g, w, [], n) {
      if DerivesIn(g, w, [], n) {
        assert w == u + ([op] + v);
        var b1, n1, b2, n2 := Split(g, u, [op] + v, [], n);
        var c1, m1, c2, m2 := Split(g, [op], v, b2, n2);
        TerminalsStay(g, [op], c1, m1);
        assert false;
      }
    }
  }

  lemma {:induction false} PathDown(g: Grammar, how: Assoc, s: nat, t: nat, n: nat)
    requires g == Ops(how) && UnitPath(g, s, t, n)
    ensures n > 0 ==> Rank(t) < Rank(s)
    decreases n
  {
    hide Ops, UnitStep, Rank;
    if n > 0 {
      var u: nat :| UnitStep(g, s, u) && UnitPath(g, u, t, n - 1);
      UnitDown(g, how, s, u);
      PathDown(g, how, u, t, n - 1);
    }
  }

  lemma OpsAcyclic(g: Grammar, how: Assoc)
    requires g == Ops(how)
    ensures Acyclic(g)
  {
    hide Ops, UnitPath, Rank;
    forall s: nat, n: nat | n > 0 ensures !UnitPath(g, s, s, n) {
      if UnitPath(g, s, s, n) { PathDown(g, how, s, s, n); }
    }
  }

  // ------------------------------------------------------------ derivations and the automaton

  lemma {:induction false} OpenForm(g: Grammar, how: Assoc, k: nat) returns (rs: seq<nat>)
    requires g == Ops(how)
    ensures Rightmost(g, [g.start], rs, Open(k) + [E])
  {
    Terminals(g, how);
    hide Ops, Rightmost, Open;
    if k == 0 {
      OneStep(g, [], 0, []);
      assert [] + [S] + [] == [S] && [] + [E] + [] == [E];
      assert Open(0) + [E] == [E] by { OpenNone(); }
      rs := [0];
    } else {
      var m: nat := k - 1;
      var before := OpenForm(g, how, m);
      OneStep(g, Open(m), 1, []);
      OpenMore(m);
      assert Open(m) + [E] + [] == Open(m) + [E] && Open(m) + [E, op, E] + [] == Open(m) + [E, op] + [E];
      RightmostTrans(g, [g.start], before, Open(m) + [E], [1], Open(k) + [E]);
      rs := before + [1];
    }
  }

  lemma OpenNone()
    ensures Open(0) == []
  {
  }

  lemma OpenMore(k: nat)
    ensures Open(k + 1) == Open(k) + [E, op]
  {
  }

  lemma OpForm(g: Grammar, how: Assoc, k: nat) returns (rs: seq<nat>)
    requires g == Ops(how)
    ensures Rightmost(g, [g.start], rs, Open(k) + [E] + [op, a])
  {
    Terminals(g, how);
    hide Ops, Rightmost, Open;
    var before := OpenForm(g, how, k + 1);
    OneStep(g, Open(k + 1), 2, []);
    OpenMore(k);
    assert Open(k + 1) + [E] + [] == Open(k + 1) + [E] && Open(k + 1) + [a] + [] == Open(k) + [E] + [op, a];
    RightmostTrans(g, [g.start], before, Open(k + 1) + [E], [2], Open(k) + [E] + [op, a]);
    rs := before + [2];
  }

  /** After E op, k times, every rule of E is expected, with the end or an operator behind it. */
  lemma Expected(g: Grammar, how: Assoc, states: seq<State>, k: nat, r: nat, t: nat) returns (q: nat)
    requires g == Ops(how) && Viable.Complete(g, states) && (r == 1 || r == 2) && (t == 0 || t == op)
    ensures Expects(g, states, Open(k), q, Config(r, 0), t)
  {
    Terminals(g, how);
    hide Ops, Rightmost, Open, Viable.Complete, Expects, NextIs;
    var i := |Open(k)|;
    if t == 0 {
      var rs := OpenForm(g, how, k);
      var b := Open(k) + [E];
      assert b[..i] == Open(k) && b[i+1..] == [] && b[i] == E;
      NextOfTerminals(g, []);
      q := ViablePrefix(g, states, rs, b, i, r, t);
    } else {
      var rs := OpForm(g, how, k);
      var b := Open(k) + [E] + [op, a];
      assert b[..i] == Open(k) && b[i+1..] == [op, a] && b[i] == E;
      assert AllTerminals(g, [op, a]);
      NextOfTerminals(g, [op, a]);
      q := ViablePrefix(g, states, rs, b, i, r, t);
    }
  }

  /** The state after all of rule r, which follows E op k times, has the rule complete on the end and on an operator. */
  lemma CompleteAfter(g: Grammar, how: Assoc, states: seq<State>, k: nat, r: nat) returns (q: nat)
    requires g == Ops(how) && Viable.Complete(g, states) && (r == 1 || r == 2)
    ensures r < |g.rules| && Leads(states, Open(k) + g.rules[r].rhs, q) && Completes(g, states, q, r, 0) && Completes(g, states, q, r, op)
  {
    Terminals(g, how);
    hide Ops, Open, Viable.Complete, Leads;
    var rhs := g.rules[r].rhs;
    var n := |rhs|;
    var p := Expected(g, how, states, k, r, 0);
    q := Along(g, states, Open(k), p, r, 0, n);
    var p' := Expected(g, how, states, k, r, op);
    var q' := Along(g, states, Open(k), p', r, op, n);
    assert rhs[..n] == rhs;
    OnePath(g, states, Open(k) + rhs, q, q');
  }

  /** In the state that a path ends in, an item whose dot has moved has moved over the last symbol. */
  lemma LastSymbol(g: Grammar, lam: Flags, first: Sets, states: seq<State>, b: Symbols, q: nat, c: Config) returns (p: nat, e: Config)
    requires Automatic(g, lam, first, states) && Leads(states, b, q) && b != [] && q < |states| && Has(states[q].cfp, c) && c.dot > 0
    ensures p < |states| && Leads(states, b[..|b|-1], p) && Has(states[p].cfp, e) && Before(g, e, b[|b|-1]) && c == Advance(e)
  {
    MovedIsBasis(g, lam, first, states, q, c);
    p :| p < |states| && Leads(states, b[..|b|-1], p) && HasShift(states[p], b[|b|-1], q);
    e := GotoFrom(g, lam, first, states, p, b[|b|-1], q, c);
  }

  /** A shift comes from an item. */
  lemma ShiftHasItem(g: Grammar, lam: Flags, first: Sets, states: seq<State>, q: nat, x: nat, s: nat) returns (e: Config)
    requires Automatic(g, lam, first, states) && q < |states| && HasShift(states[q], x, s)
    ensures Has(states[q].cfp, e) && Before(g, e, x)
  {
    assert Finished(g, states, q);
    assert states[s].basis[0] in states[s].basis;
    e := GotoFrom(g, lam, first, states, q, x, s, states[s].basis[0]);
  }

  ghost predicate IsComplete(g: Grammar, st: State, r: nat) {
    r < |g.rules| && Has(st.cfp, Config(r, |g.rules[r].rhs|))
  }

  /** Behind a only the rule E -> a is complete, and no operator can be shifted. */
  lemma AfterLeaf(g: Grammar, how: Assoc, lam: Flags, first: Sets, states: seq<State>, b: Symbols, q: nat)
    requires g == Ops(how) && Automatic(g, lam, first, states) && Leads(states, b, q) && b != [] && b[|b|-1] == a && q < |states|
    ensures forall r: nat :: IsComplete(g, states[q], r) ==> r == 2
    ensures forall s: nat :: !HasShift(states[q], op, s)
  {
    Terminals(g, how);
    hide Ops, Automatic, Leads;
    forall r: nat | IsComplete(g, states[q], r) ensures r == 2 {
      var p, e := LastSymbol(g, lam, first, states, b, q, Config(r, |g.rules[r].rhs|));
    }
    forall s: nat ensures !HasShift(states[q], op, s) {
      if HasShift(states[q], op, s) {
        var c := ShiftHasItem(g, lam, first, states, q, op, s);
        var p, e := LastSymbol(g, lam, first, states, b, q, c);
        assert false;
      }
    }
  }

  /** Behind E op E only the rule E -> E op E is complete. */
  lemma AfterNode(g: Grammar, how: Assoc, lam: Flags, first: Sets, states: seq<State>, k: nat, q: nat)
    requires g == Ops(how) && Automatic(g, lam, first, states) && Leads(states, Open(k + 1) + [E], q) && q < |states|
    ensures forall r: nat :: IsComplete(g, states[q], r) ==> r == 1
  {
    Terminals(g, how);
    OpenMore(k);
    hide Ops, Automatic, Leads, Open;
    var b := Open(k + 1) + [E];
    var u := b[..|b|-1];
    assert u == Open(k + 1) && u[|u|-1] == op && b[|b|-1] == E;
    forall r: nat | IsComplete(g, states[q], r) ensures r == 1 {
      var p, e := LastSymbol(g, lam, first, states, b, q, Config(r, |g.rules[r].rhs|));
      if r == 0 {
        NotStarting(g, lam, first, states, u, p);
        assert false;
      }
    }
  }

  /** The start rule begins only in the first state. */
  lemma NotStarting(g: Grammar, lam: Flags, first: Sets, states: seq<State>, b: Symbols, p: nat)
    requires Automatic(g, lam, first, states) && Leads(states, b, p) && b != [] && p < |states|
    requires 0 < |g.rules| && g.rules[0].lhs == g.start
    ensures !Has(states[p].cfp, Config(0, 0))
  {
    var c := Config(0, 0);
    if Has(states[p].cfp, c) {
      NeverPredicted(g, c);
      if c in states[p].basis {
        var o: nat :| o < |states| && Leads(states, b[..|b|-1], o) && HasShift(states[o], b[|b|-1], p);
        var e := GotoFrom(g, lam, first, states, o, b[|b|-1], p, c);
        assert false;
      } else {
        OtherIsPredicted(g, lam, first, states, p, c);
        assert false;
      }
    }
  }

  /** Behind the first E only the start rule is complete. */
  lemma AfterFirst(g: Grammar, how: Assoc, lam: Flags, first: Sets, states: seq<State>, q: nat)
    requires g == Ops(how) && Automatic(g, lam, first, states) && Leads(states, [E], q) && q < |states|
    ensures forall r: nat :: IsComplete(g, states[q], r) ==> r == 0
  {
    Terminals(g, how);
    hide Ops, Automatic;
    assert [E][..0] == [];
    forall r: nat | IsComplete(g, states[q], r) ensures r == 0 {
      var p, e := LastSymbol(g, lam, first, states, [E], q, Config(r, |g.rules[r].rhs|));
      if r == 1 {
        assert p == 0 && e.dot > 0;
        FirstHasNone(g, lam, first, states, e);
        assert false;
      }
    }
  }

  lemma FirstHasNone(g: Grammar, lam: Flags, first: Sets, states: seq<State>, e: Config)
    requires Automatic(g, lam, first, states) && 0 < |states| && e.dot > 0
    ensures !Has(states[0].cfp, e)
  {
    if Has(states[0].cfp, e) {
      MovedIsBasis(g, lam, first, states, 0, e);
      StartBasisIs(g, lam, first, states, e);
    }
  }

  // ------------------------------------------------------------ the tables

  lemma CompleteOnly(g: Grammar, states: seq<State>, states': seq<State>, q: nat, t: nat)
    requires LookaheadsExact(g, states, states') && q < |states|
    ensures |states'| == |states|
    ensures forall r: nat :: ReducesOn(g, states'[q], t, r) ==> IsComplete(g, states[q], r)
    ensures forall x: nat, s: nat :: HasShift(states'[q], x, s) <==> HasShift(states[q], x, s)
  {
    assert SameCore(states[q], states'[q]);
    forall r: nat | ReducesOn(g, states'[q], t, r) ensures IsComplete(g, states[q], r) {
      Lemon.SameHas(states[q], states'[q], Config(r, |g.rules[r].rhs|));
    }
    forall x: nat, s: nat ensures HasShift(states'[q], x, s) <==> HasShift(states[q], x, s) { Lemon.SameShift(states[q], states'[q], x, s); }
  }

  lemma CanReduce(g: Grammar, states: seq<State>, states': seq<State>, q: nat, r: nat, t: nat)
    requires LookaheadsExact(g, states, states') && Completes(g, states, q, r, t)
    ensures q < |states'| && ReducesOn(g, states'[q], t, r)
  {
    hide LookaheadsExact, Completes;
    ReduceCandidate(g, states, states', q, r, t);
  }

  /** The only complete rule is what the state reduces by, where it cannot shift. */
  lemma ReduceEntry(g: Grammar, lam: Flags, first: Sets, states: seq<State>, states': seq<State>, acts: seq<seq<Action>>,
                    q: nat, r: nat, t: nat)
    requires Made(g, lam, first, states, states', acts) && Completes(g, states, q, r, t)
    requires forall r': nat :: IsComplete(g, states[q], r') ==> r' == r
    requires forall s: nat :: !HasShift(states[q], t, s)
    ensures q < |acts| && Meaning(g, acts[q], t) == Reduce(r)
  {
    hide LookaheadsExact, MadeFrom, Meaning, ReducesOn, HasShift, Collection;
    CompleteOnly(g, states, states', q, t);
    CanReduce(g, states, states', q, r, t);
    RuleWins(g, q, states'[q], acts[q], t, r);
  }

  /** What the state shifts, where precedence decides for no complete rule. */
  lemma ShiftEntry(g: Grammar, lam: Flags, first: Sets, states: seq<State>, states': seq<State>, acts: seq<seq<Action>>,
                   q: nat, t: nat, s: nat)
    requires Made(g, lam, first, states, states', acts) && PrecedenceHasAssoc(g) && q < |states| && t < g.nterminal && HasShift(states[q], t, s)
    requires forall r: nat :: r < |g.rules| && IsComplete(g, states[q], r) ==> !RuleFirst(g, t, r)
    ensures q < |acts| && Meaning(g, acts[q], t) == Go(s)
  {
    hide LookaheadsExact, MadeFrom, Meaning, ReducesOn, HasShift, Collection, RuleFirst, IsComplete;
    CompleteOnly(g, states, states', q, t);
    ShiftWins(g, q, states'[q], acts[q], t, s);
  }

  /** A shift against the only complete rule. */
  lemma PairEntry(g: Grammar, lam: Flags, first: Sets, states: seq<State>, states': seq<State>, acts: seq<seq<Action>>,
                  q: nat, r: nat, t: nat, s: nat)
    requires Made(g, lam, first, states, states', acts) && PrecedenceHasAssoc(g) && Completes(g, states, q, r, t) && HasShift(states[q], t, s)
    requires forall r': nat :: IsComplete(g, states[q], r') ==> r' == r
    ensures q < |acts| && Meaning(g, acts[q], t) == if RuleFirst(g, t, r) then Reduce(r) else Go(s)
  {
    hide LookaheadsExact, MadeFrom, Meaning, ReducesOn, HasShift, Collection, RuleFirst, SymbolFirst;
    CompleteOnly(g, states, states', q, t);
    CanReduce(g, states, states', q, r, t);
    ShiftOrRule(g, q, states'[q], acts[q], t, s, r);
  }

  /** All that is needed of the automaton and the tables. */
  ghost predicate OpsMade(g: Grammar, how: Assoc, lam: Flags, first: Sets, states: seq<State>, states': seq<State>, acts: seq<seq<Action>>) {
    g == Ops(how) && how in {LEFT, RIGHT, NONE} && Made(g, lam, first, states, states', acts) && Viable.Complete(g, states)
  }

  lemma OpsMadeIs(g: Grammar, how: Assoc, lam: Flags, first: Sets, states: seq<State>, states': seq<State>, acts: seq<seq<Action>>)
    requires OpsMade(g, how, lam, first, states, states', acts)
    ensures g == Ops(how) && how in {LEFT, RIGHT, NONE} && Made(g, lam, first, states, states', acts) && Viable.Complete(g, states)
    ensures Automatic(g, lam, first, states) && g.Valid() && EndNotOnRhs(g) && PrecedenceHasAssoc(g) && |acts| == |states|
  {
    hide Ops, MadeFrom, Collection, Viable.Complete;
    Terminals(g, how);
    OpsPrecedence(g, how);
  }

  lemma OpsPrecedence(g: Grammar, how: Assoc)
    requires g == Ops(how) && how != UNK
    ensures PrecedenceHasAssoc(g)
  {
  }

  /** A leaf is reduced, both at the end and before an operator. */
  lemma LeafReduces(g: Grammar, how: Assoc, lam: Flags, first: Sets, states: seq<State>, states': seq<State>, acts: seq<seq<Action>>, k: nat, t: nat)
    requires OpsMade(g, how, lam, first, states, states', acts) && (t == 0 || t == op)
    ensures Reduces(g, states, acts, t, Open(k) + [a], 2)
    ensures 2 < |g.rules| && |g.rules[2].rhs| == 1 && Reduced(g, Open(k) + [a], 2) == Open(k) + [E]
  {
    hide OpsMade, Made, Viable.Complete, Automatic, Ops, Open, Leads, Meaning, Completes, IsComplete;
    OpsMadeIs(g, how, lam, first, states, states', acts);
    Terminals(g, how);
    var q := CompleteAfter(g, how, states, k, 2);
    var b := Open(k) + [a];
    CompletesIn(g, states, q, 2, t);
    AfterLeaf(g, how, lam, first, states, b, q);
    if t == 0 {
      forall s: nat ensures !HasShift(states[q], 0, s) { EndNotShifted(g, lam, first, states, q, s); }
    }
    ReduceEntry(g, lam, first, states, states', acts, q, 2, t);
    var p := EReached(g, how, states, k);
    assert b[|b|-1..] == [a] && b[..|b|-1] == Open(k);
    assert Reduced(g, b, 2) == Open(k) + [E] && Leads(states, Reduced(g, b, 2), p);
    assert ReducesIn(g, states, acts, t, b, q, 2);
  }

  lemma CompletesIn(g: Grammar, states: seq<State>, q: nat, r: nat, t: nat)
    requires Completes(g, states, q, r, t)
    ensures q < |states| && IsComplete(g, states[q], r)
  {
  }

  /** After E op, k times, and E. */
  lemma EReached(g: Grammar, how: Assoc, states: seq<State>, k: nat) returns (q: nat)
    requires g == Ops(how) && Viable.Complete(g, states)
    ensures Leads(states, Open(k) + [E], q) && q < |states| && Has(states[q].cfp, Config(1, 1))
  {
    Terminals(g, how);
    hide Ops, Open, Viable.Complete, Leads;
    var p := Expected(g, how, states, k, 1, 0);
    q := Along(g, states, Open(k), p, 1, 0, 1);
    assert g.rules[1].rhs[..1] == [E];
  }

  /** E op E is complete behind at least one operator. */
  lemma NodeComplete(g: Grammar, how: Assoc, states: seq<State>, k: nat) returns (q: nat, s: nat)
    requires g == Ops(how) && Viable.Complete(g, states)
    ensures Leads(states, Open(k + 1) + [E], q) && Completes(g, states, q, 1, 0) && Completes(g, states, q, 1, op)
    ensures q < |states| && HasShift(states[q], op, s)
  {
    Terminals(g, how);
    OpenMore(k);
    hide Ops, Open, Viable.Complete, Leads;
    q := CompleteAfter(g, how, states, k, 1);
    assert Open(k) + [E, op, E] == Open(k + 1) + [E];
    CompletesIn(g, states, q, 1, 0);
    var p := EReached(g, how, states, k + 1);
    OnePath(g, states, Open(k + 1) + [E], q, p);
    s := ShiftExists(g, states, q, Config(1, 1));
  }

  lemma RuleFirstIs(g: Grammar, how: Assoc)
    requires g == Ops(how)
    ensures g.Valid() && (RuleFirst(g, op, 1) <==> how == LEFT) && !RuleFirst(g, op, 0)
    ensures forall r: nat :: r < |g.rules| ==> !RuleFirst(g, a, r)
  {
    Terminals(g, how);
  }

  /** At the end E op E is reduced; before an operator it is reduced if op is left-associative, and else the operator is
      shifted. */
  lemma NodeReduces(g: Grammar, how: Assoc, lam: Flags, first: Sets, states: seq<State>, states': seq<State>, acts: seq<seq<Action>>, k: nat)
    requires OpsMade(g, how, lam, first, states, states', acts)
    ensures 1 < |g.rules| && |g.rules[1].rhs| == 3 <= |Open(k + 1) + [E]| && Reduced(g, Open(k + 1) + [E], 1) == Open(k) + [E]
    ensures Reduces(g, states, acts, 0, Open(k + 1) + [E], 1)
    ensures how == LEFT ==> Reduces(g, states, acts, op, Open(k + 1) + [E], 1)
    ensures how != LEFT ==> Shifts(g, states, acts, op, Open(k + 1) + [E])
  {
    hide OpsMade, Made, Viable.Complete, Automatic, Ops, Open, Leads, Meaning, Completes, IsComplete, RuleFirst;
    OpsMadeIs(g, how, lam, first, states, states', acts);
    Terminals(g, how);
    RuleFirstIs(g, how);
    OpenMore(k);
    var b := Open(k + 1) + [E];
    var q, s := NodeComplete(g, how, states, k);
    AfterNode(g, how, lam, first, states, k, q);
    forall s: nat ensures !HasShift(states[q], 0, s) { EndNotShifted(g, lam, first, states, q, s); }
    ReduceEntry(g, lam, first, states, states', acts, q, 1, 0);
    PairEntry(g, lam, first, states, states', acts, q, 1, op, s);
    var p := EReached(g, how, states, k);
    assert b == Open(k) + [E, op, E] && b[|b|-3..] == [E, op, E] && b[..|b|-3] == Open(k);
    assert Reduced(g, b, 1) == Open(k) + [E] && Leads(states, Reduced(g, b, 1), p);
    assert ReducesIn(g, states, acts, 0, b, q, 1);
    if how == LEFT {
      assert ReducesIn(g, states, acts, op, b, q, 1);
    } else {
      assert ShiftsIn(g, states, acts, op, b, q);
    }
  }

  /** The first E is all there is at the end, and may be followed by an operator. */
  lemma FirstEnds(g: Grammar, how: Assoc, lam: Flags, first: Sets, states: seq<State>, states': seq<State>, acts: seq<seq<Action>>)
    requires OpsMade(g, how, lam, first, states, states', acts)
    ensures Finishes(g, states, acts, 0, [E], 0) && Shifts(g, states, acts, op, [E])
  {
    hide OpsMade, Made, Viable.Complete, Automatic, Ops, Leads, Meaning, IsComplete, RuleFirst;
    OpsMadeIs(g, how, lam, first, states, states', acts);
    Terminals(g, how);
    RuleFirstIs(g, how);
    var q := StartComplete(g, how, states);
    CompletesIn(g, states, q, 0, 0);
    AfterFirst(g, how, lam, first, states, q);
    forall s: nat ensures !HasShift(states[q], 0, s) { EndNotShifted(g, lam, first, states, q, s); }
    ReduceEntry(g, lam, first, states, states', acts, q, 0, 0);
    assert FinishesIn(g, states, acts, 0, [E], q, 0);
    OpenNone();
    var p := EReached(g, how, states, 0);
    assert [] + [E] == [E];
    OnePath(g, states, [E], q, p);
    var s := ShiftExists(g, states, q, Config(1, 1));
    ShiftEntry(g, lam, first, states, states', acts, q, op, s);
    assert ShiftsIn(g, states, acts, op, [E], q);
  }

  lemma StartComplete(g: Grammar, how: Assoc, states: seq<State>) returns (q: nat)
    requires g == Ops(how) && Viable.Complete(g, states)
    ensures Leads(states, [E], q) && Completes(g, states, q, 0, 0)
  {
    Terminals(g, how);
    hide Ops, Viable.Complete, Leads, NextIs, Rightmost;
    assert [S][..0] == [] && [S][1..] == [];
    NextOfTerminals(g, []);
    assert Rightmost(g, [S], [], [S]) by { NoSteps(g, [S]); }
    var p := ViablePrefix(g, states, [], [S], 0, 0, 0);
    q := Along(g, states, [], p, 0, 0, 1);
    assert [] + g.rules[0].rhs[..1] == [E];
  }

  lemma NoSteps(g: Grammar, b: Symbols)
    ensures Rightmost(g, b, [], b)
  {
  }

  /** A leaf can be shifted at the beginning and behind every operator. */
  lemma LeafShifts(g: Grammar, how: Assoc, lam: Flags, first: Sets, states: seq<State>, states': seq<State>, acts: seq<seq<Action>>, k: nat)
    requires OpsMade(g, how, lam, first, states, states', acts)
    ensures Shifts(g, states, acts, a, Open(k))
  {
    hide OpsMade, Made, Viable.Complete, Automatic, Ops, Open, Leads, Meaning, IsComplete, RuleFirst;
    OpsMadeIs(g, how, lam, first, states, states', acts);
    Terminals(g, how);
    RuleFirstIs(g, how);
    var q := Expected(g, how, states, k, 2, 0);
    var s := ShiftExists(g, states, q, Config(2, 0));
    ShiftEntry(g, lam, first, states, states', acts, q, a, s);
    assert ShiftsIn(g, states, acts, a, Open(k), q);
  }

  // ------------------------------------------------------------ the runs of the tables

  lemma {:induction false} OpenLength(k: nat)
    ensures |Open(k)| == 2 * k
  {
    if k > 0 { OpenLength(k - 1); }
  }

  lemma RunsOne(g: Grammar, states: seq<State>, acts: seq<seq<Action>>, x: nat, d: nat, b: Symbols, r: nat, c: Symbols)
    requires |b| < d && |c| < d && Reduces(g, states, acts, x, b, r) && r < |g.rules| && |g.rules[r].rhs| <= |b| && c == Reduced(g, b, r)
    ensures Runs(g, states, acts, x, d, b, [r], c)
  {
    hide Reduces, Runs;
    RunsNone(g, states, acts, x, d, c);
    assert [r][1..] == [];
    RunsFirst(g, states, acts, x, d, b, [r], c);
  }

  lemma TakesNow(g: Grammar, states: seq<State>, acts: seq<seq<Action>>, x: nat, d: nat, b: Symbols, rs: seq<nat>, c: Symbols)
    requires Runs(g, states, acts, x, d, b, rs, c) && Shifts(g, states, acts, x, c) && |c| + 1 < d
    ensures TakesBy(g, states, acts, x, d, b, rs, c + [x])
  {
  }

  /** The first token. */
  lemma FirstTaken(g: Grammar, how: Assoc, lam: Flags, first: Sets, states: seq<State>, states': seq<State>, acts: seq<seq<Action>>, d: nat)
    requires OpsMade(g, how, lam, first, states, states', acts) && d > 1
    ensures Follows(g, states, acts, d, Input(0), Open(0) + [a], [])
  {
    hide OpsMade, Runs, Shifts, TakesBy, Open, Backwards;
    OpenNone();
    LeafShifts(g, how, lam, first, states, states', acts, 0);
    RunsNone(g, states, acts, a, d, []);
    TakesNow(g, states, acts, a, d, [], [], []);
    assert [] + [a] == [a];
    assert Follows(g, states, acts, d, [], [], []);
    FollowsMore(g, states, acts, d, [], [], [], a, [], [a]);
    NothingBackwards([]);
    assert [] + [a] == [a];
  }

  /** An operator and a leaf, after the stack has become E op, k times, and E. */
  lemma TwoTaken(g: Grammar, how: Assoc, lam: Flags, first: Sets, states: seq<State>, states': seq<State>, acts: seq<seq<Action>>, d: nat,
                 u: Symbols, b: Symbols, before: seq<nat>, rs: seq<nat>, k: nat)
    requires OpsMade(g, how, lam, first, states, states', acts) && 2 * k + 3 < d
    requires Follows(g, states, acts, d, u, b, before) && Runs(g, states, acts, op, d, b, rs, Open(k) + [E])
    requires Shifts(g, states, acts, op, Open(k) + [E])
    ensures Follows(g, states, acts, d, u + [op, a], Open(k + 1) + [a], Backwards(rs) + before)
  {
    hide *;
    OpenLength(k);
    OpenMore(k);
    var c := Open(k) + [E];
    TakesNow(g, states, acts, op, d, b, rs, c);
    FollowsMore(g, states, acts, d, u, b, before, op, rs, c + [op]);
    assert c + [op] == Open(k + 1);
    LeafShifts(g, how, lam, first, states, states', acts, k + 1);
    RunsNone(g, states, acts, a, d, Open(k + 1));
    TakesNow(g, states, acts, a, d, Open(k + 1), [], Open(k + 1));
    FollowsMore(g, states, acts, d, u + [op], Open(k + 1), Backwards(rs) + before, a, [], Open(k + 1) + [a]);
    NothingBackwards(Backwards(rs) + before);
    assert u + [op] + [a] == u + [op, a];
  }

  lemma LeafRuns(g: Grammar, how: Assoc, lam: Flags, first: Sets, states: seq<State>, states': seq<State>, acts: seq<seq<Action>>, d: nat,
                 k: nat, t: nat)
    requires OpsMade(g, how, lam, first, states, states', acts) && 2 * k + 1 < d && (t == 0 || t == op)
    ensures Runs(g, states, acts, t, d, Open(k) + [a], [2], Open(k) + [E])
  {
    hide *;
    OpenLength(k);
    LeafReduces(g, how, lam, first, states, states', acts, k, t);
    RunsOne(g, states, acts, t, d, Open(k) + [a], 2, Open(k) + [E]);
  }

  lemma NodeRuns(g: Grammar, how: Assoc, lam: Flags, first: Sets, states: seq<State>, states': seq<State>, acts: seq<seq<Action>>, d: nat,
                 k: nat, t: nat)
    requires OpsMade(g, how, lam, first, states, states', acts) && 2 * k + 3 < d && (t == 0 || (t == op && how == LEFT))
    ensures Runs(g, states, acts, t, d, Open(k + 1) + [E], [1], Open(k) + [E])
  {
    hide *;
    OpenLength(k);
    OpenLength(k + 1);
    NodeReduces(g, how, lam, first, states, states', acts, k);
    RunsOne(g, states, acts, t, d, Open(k + 1) + [E], 1, Open(k) + [E]);
  }

  function Least(n: nat, m: nat): nat {
    if n < m then n else m
  }

  /** A left-associative operator: the stack never has more than one operator, and each node is built as soon as it is
      complete. */
  lemma {:induction false} LeftFollows(g: Grammar, lam: Flags, first: Sets, states: seq<State>, states': seq<State>, acts: seq<seq<Action>>,
                                       d: nat, n: nat)
    requires OpsMade(g, LEFT, lam, first, states, states', acts) && d > 3
    ensures Follows(g, states, acts, d, Input(n), Open(Least(n, 1)) + [a], if n == 0 then [] else Building(LeftNested(n - 1)))
  {
    hide OpsMade, Follows, Runs, Reduces, Shifts, Open, Backwards, Building;
    if n == 0 {
      FirstTaken(g, LEFT, lam, first, states, states', acts, d);
    } else {
      var m: nat := n - 1;
      LeftFollows(g, lam, first, states, states', acts, d, m);
      var rs := LeftRuns(g, lam, first, states, states', acts, d, Least(m, 1), op);
      FirstEnds(g, LEFT, lam, first, states, states', acts);
      OpenNone();
      assert [] + [E] == [E];
      var before := if m == 0 then [] else Building(LeftNested(m - 1));
      TwoTaken(g, LEFT, lam, first, states, states', acts, d, Input(m), Open(Least(m, 1)) + [a], before, rs, 0);
      LeftBuilt(m, rs);
    }
  }

  /** The reductions on an operator or at the end leave the first E. */
  lemma LeftRuns(g: Grammar, lam: Flags, first: Sets, states: seq<State>, states': seq<State>, acts: seq<seq<Action>>, d: nat, k: nat, t: nat)
    returns (rs: seq<nat>)
    requires OpsMade(g, LEFT, lam, first, states, states', acts) && d > 3 && k <= 1 && (t == 0 || t == op)
    ensures Runs(g, states, acts, t, d, Open(k) + [a], rs, Open(0) + [E]) && rs == if k == 0 then [2] else [2, 1]
  {
    hide *;
    LeafRuns(g, LEFT, lam, first, states, states', acts, d, k, t);
    rs := [2];
    if k == 1 {
      NodeRuns(g, LEFT, lam, first, states, states', acts, d, 0, t);
      RunsAppend(g, states, acts, t, d, Open(1) + [a], [2], Open(1) + [E], [1], Open(0) + [E]);
      rs := [2] + [1];
    }
  }

  lemma LeftBuilt(m: nat, rs: seq<nat>)
    requires rs == if m == 0 then [2] else [2, 1]
    ensures Backwards(rs) + (if m == 0 then [] else Building(LeftNested(m - 1))) == Building(LeftNested(m))
  {
    assert Backwards([]) == [] && [2][1..] == [] && Backwards([2]) == [2];
    assert [2, 1][1..] == [1] && [1][1..] == [] && Backwards([1]) == [1] && Backwards([2, 1]) == [1, 2];
    if m > 0 {
      assert Building(LeftNested(m)) == [1] + Building(Leaf) + Building(LeftNested(m - 1));
      assert [1] + [2] == [1, 2];
    }
  }

  lemma LeftAccepts(g: Grammar, lam: Flags, first: Sets, states: seq<State>, states': seq<State>, acts: seq<seq<Action>>, d: nat, n: nat)
    requires OpsMade(g, LEFT, lam, first, states, states', acts) && d > 3
    ensures Accepts(g, states, acts, d, Input(n), [0] + Building(LeftNested(n)))
  {
    hide *;
    LeftFollows(g, lam, first, states, states', acts, d, n);
    LeastIs(n);
    var k := Least(n, 1);
    var rs := LeftRuns(g, lam, first, states, states', acts, d, k, 0);
    FirstEnds(g, LEFT, lam, first, states, states', acts);
    OpenNone();
    assert [] + [E] == [E];
    LeftBuilt(n, rs);
    var before := if n == 0 then [] else Building(LeftNested(n - 1));
    IsAccepted(g, states, acts, d, Input(n), Open(k) + [a], before, rs, [E], 0, [0] + Building(LeftNested(n)));
  }

  lemma LeastIs(n: nat)
    ensures Least(n, 1) <= 1 && (Least(n, 1) == 0 <==> n == 0)
  {
  }

  lemma IsAccepted(g: Grammar, states: seq<State>, acts: seq<seq<Action>>, d: nat, u: Symbols, b: Symbols, before: seq<nat>,
                   rs: seq<nat>, c: Symbols, r: nat, ls: seq<nat>)
    requires Follows(g, states, acts, d, u, b, before) && Runs(g, states, acts, 0, d, b, rs, c) && Finishes(g, states, acts, 0, c, r)
    requires ls == [r] + (Backwards(rs) + before)
    ensures Accepts(g, states, acts, d, u, ls)
  {
    hide Follows, Runs, Finishes, Backwards;
    assert [r] + (Backwards(rs) + before) == [r] + Backwards(rs) + before;
    assert AcceptsFrom(g, states, acts, d, ls, b, before, rs, c, r);
  }

  function Times(n: nat, r: nat): seq<nat> {
    if n == 0 then [] else Times(n - 1, r) + [r]
  }

  /** An operator that is not left-associative: all of the input is shifted first. */
  lemma {:induction false} RightFollows(g: Grammar, how: Assoc, lam: Flags, first: Sets, states: seq<State>, states': seq<State>,
                                        acts: seq<seq<Action>>, d: nat, n: nat)
    requires OpsMade(g, how, lam, first, states, states', acts) && how != LEFT && d > 2 * n + 1
    ensures Follows(g, states, acts, d, Input(n), Open(n) + [a], Times(n, 2))
  {
    hide OpsMade, Follows, Runs, Reduces, Shifts, Open, Backwards;
    if n == 0 {
      FirstTaken(g, how, lam, first, states, states', acts, d);
    } else {
      var m: nat := n - 1;
      RightFollows(g, how, lam, first, states, states', acts, d, m);
      LeafRuns(g, how, lam, first, states, states', acts, d, m, op);
      if m == 0 {
        OpenNone();
        assert [] + [E] == [E];
        FirstEnds(g, how, lam, first, states, states', acts);
      } else {
        NodeReduces(g, how, lam, first, states, states', acts, m - 1);
      }
      TwoTaken(g, how, lam, first, states, states', acts, d, Input(m), Open(m) + [a], Times(m, 2), [2], m);
      OneBackwards(2);
      TimesFront(m, 2);
    }
  }

  lemma OneBackwards(r: nat)
    ensures Backwards([r]) == [r]
  {
    assert [r][1..] == [] && Backwards([]) == [];
  }

  lemma {:induction false} TimesFront(n: nat, r: nat)
    ensures Times(n + 1, r) == [r] + Times(n, r)
  {
    if n > 0 { TimesFront(n - 1, r); }
  }

  /** At the end all nodes are built, from the last. */
  lemma {:induction false} Collapse(g: Grammar, how: Assoc, lam: Flags, first: Sets, states: seq<State>, states': seq<State>,
                                    acts: seq<seq<Action>>, d: nat, n: nat)
    requires OpsMade(g, how, lam, first, states, states', acts) && d > 2 * n + 1
    ensures Runs(g, states, acts, 0, d, Open(n) + [E], Times(n, 1), Open(0) + [E])
  {
    hide *;
    if n == 0 {
      OpenLength(0);
      RunsNone(g, states, acts, 0, d, Open(0) + [E]);
      TimesNone(1);
    } else {
      var m: nat := n - 1;
      NodeRuns(g, how, lam, first, states, states', acts, d, m, 0);
      Collapse(g, how, lam, first, states, states', acts, d, m);
      RunsAppend(g, states, acts, 0, d, Open(n) + [E], [1], Open(m) + [E], Times(m, 1), Open(0) + [E]);
      TimesFront(m, 1);
    }
  }

  lemma TimesNone(r: nat)
    ensures Times(0, r) == []
  {
  }

  lemma {:induction false} RightBuilt(n: nat)
    ensures Backwards([2] + Times(n, 1)) + Times(n, 2) == Building(RightNested(n))
  {
    if n == 0 {
      OneBackwards(2);
      assert [2] + [] == [2];
    } else {
      var m: nat := n - 1;
      RightBuilt(m);
      BackwardsMore([2] + Times(m, 1), 1);
      assert [2] + Times(n, 1) == [2] + Times(m, 1) + [1];
      assert Building(RightNested(n)) == [1] + Building(RightNested(m)) + [2];
    }
  }

  lemma RightAccepts(g: Grammar, how: Assoc, lam: Flags, first: Sets, states: seq<State>, states': seq<State>, acts: seq<seq<Action>>,
                     d: nat, n: nat)
    requires OpsMade(g, how, lam, first, states, states', acts) && how != LEFT && d > 2 * n + 1
    ensures Accepts(g, states, acts, d, Input(n), [0] + Building(RightNested(n)))
  {
    hide *;
    RightFollows(g, how, lam, first, states, states', acts, d, n);
    LeafRuns(g, how, lam, first, states, states', acts, d, n, 0);
    Collapse(g, how, lam, first, states, states', acts, d, n);
    RunsAppend(g, states, acts, 0, d, Open(n) + [a], [2], Open(n) + [E], Times(n, 1), Open(0) + [E]);
    FirstEnds(g, how, lam, first, states, states', acts);
    OpenNone();
    assert [] + [E] == [E];
    RightBuilt(n);
    IsAccepted(g, states, acts, d, Input(n), Open(n) + [a], Times(n, 2), [2] + Times(n, 1), [E], 0, [0] + Building(RightNested(n)));
  }

  // ------------------------------------------------------------ Lemon and its parser

  lemma {:induction false} InputTerminals(n: nat)
    ensures Input(n) != [] && forall i :: 0 <= i < |Input(n)| ==> 0 < Input(n)[i] < 3
  {
    if n > 0 { InputTerminals(n - 1); }
  }

  /** A parser whose tables accept the input, and which its input leads to no cycle, accepts by the reductions of the tables. */
  method RunTables(t: Tables.ParseTables, info: seq<RuleInfo>, depth: nat, input: seq<nat>, ghost g: Grammar,
                   ghost lam: Flags, ghost first: Sets, ghost states: seq<State>, ghost acts: seq<seq<Action>>, ghost ls: seq<nat>)
    returns (outcome: Outcome, ghost reduced: seq<nat>)
    requires depth > 0 && Ready(g, lam, first, states, acts, t, info) && input != []
    requires forall i :: 0 <= i < |input| ==> 0 < input[i] < g.nterminal
    requires EndsOn(g, states, acts, depth, input) && Accepts(g, states, acts, depth, input, ls)
    ensures outcome == Accepted && reduced == ls
  {
    hide *;
    ReadyComplete(g, lam, first, states, acts, t, info);
    var parser := new Parser(t, info, depth, g, lam, first, states, acts);
    ghost var k;
    outcome, k := parser.ParseAll(input, None);
    reduced := parser.reduced;
    AcceptsOnce(g, states, acts, depth, input, ls, reduced);
  }

  lemma ReadyComplete(g: Grammar, lam: Flags, first: Sets, states: seq<State>, acts: seq<seq<Action>>, t: Tables.ParseTables, info: seq<RuleInfo>)
    requires Ready(g, lam, first, states, acts, t, info)
    ensures Viable.Complete(g, states)
  {
    CollectionComplete(g, lam, first, states);
  }

  /** What the tables do with a op a op ... a. */
  lemma OpsAccept(g: Grammar, how: Assoc, lam: Flags, first: Sets, states: seq<State>, states': seq<State>, acts: seq<seq<Action>>,
                  d: nat, n: nat)
    requires g == Ops(how) && how in {LEFT, RIGHT, NONE} && Made(g, lam, first, states, states', acts) && d > 2 * n + 3
    ensures Accepts(g, states, acts, d, Input(n), [0] + Building(if how == LEFT then LeftNested(n) else RightNested(n)))
    ensures EndsOn(g, states, acts, d, Input(n))
  {
    hide *;
    IsOpsMade(g, how, lam, first, states, states', acts);
    OpsAcyclic(g, how);
    AcyclicNoCycle(g, states, acts, d);
    NoCycleEnds(g, states, acts, d, Input(n));
    if how == LEFT {
      LeftAccepts(g, lam, first, states, states', acts, d, n);
    } else {
      RightAccepts(g, how, lam, first, states, states', acts, d, n);
    }
  }

  /** Lemon makes a parser of the grammar, and on a op a op ... a that parser accepts, without a limit on its rounds; it has
      built the left-nested expression if op is left-associative, and the right-nested one if not. */
  method ParseOperators(how: Assoc, n: nat, depth: nat) returns (outcome: Outcome, nconflict: nat, ghost reduced: seq<nat>)
    requires how in {LEFT, RIGHT, NONE} && depth > 2 * n + 3
    ensures outcome == Accepted
    ensures reduced == [0] + Building(if how == LEFT then LeftNested(n) else RightNested(n))
  {
    WrittenValid(how);
    var g := FindRulePrecedences(Written(how));
    RankedOps(how, g);
    hide *;
    var input := Input(n);
    InputTerminals(n);
    Terminals(g, how);
    OpsOK(g, how);
    ghost var ls := [0] + Building(if how == LEFT then LeftNested(n) else RightNested(n));
    forall lam: Flags, first: Sets, states: seq<State>, states': seq<State>, acts: seq<seq<Action>>
      | Made(g, lam, first, states, states', acts) ensures MakesOf(g, states, acts, depth, input, ls)
    {
      OpsAccept(g, how, lam, first, states, states', acts, depth, n);
      IsMakesOf(g, states, acts, depth, input, ls);
    }
    outcome, nconflict, reduced := GenerateAndRun(g, input, depth, ls);
  }

  lemma WrittenValid(how: Assoc)
    ensures Written(how).Valid()
  {
  }

  lemma RankedOps(how: Assoc, g: Grammar)
    requires Written(how).Valid() && g == Written(how).(rules := g.rules) && |g.rules| == 3
    requires forall r :: 0 <= r < 3 ==> Written(how).ValidRule(Written(how).rules[r]) && Ranked(Written(how), Written(how).rules[r], g.rules[r])
    ensures g == Ops(how)
  {
    assert FirstRanked(Written(how), Written(how).rules[1].rhs, 1);
    forall r | 0 <= r < 3 ensures g.rules[r] == Ops(how).rules[r] { }
  }

  ghost predicate MakesOf(g: Grammar, states: seq<State>, acts: seq<seq<Action>>, d: nat, u: Symbols, ls: seq<nat>) {
    EndsOn(g, states, acts, d, u) && Accepts(g, states, acts, d, u, ls)
  }

  lemma IsMakesOf(g: Grammar, states: seq<State>, acts: seq<seq<Action>>, d: nat, u: Symbols, ls: seq<nat>)
    ensures MakesOf(g, states, acts, d, u, ls) <==> EndsOn(g, states, acts, d, u) && Accepts(g, states, acts, d, u, ls)
  {
  }

  /** The parser that Lemon makes does with an input what all tables that Lemon can make do with it. */
  method GenerateAndRun(g: Grammar, input: seq<nat>, depth: nat, ghost ls: seq<nat>)
    returns (outcome: Outcome, nconflict: nat, ghost reduced: seq<nat>)
    requires GrammarOK(g) && Startable(g) && depth > 0 && input != []
    requires forall i :: 0 <= i < |input| ==> 0 < input[i] < g.nterminal
    requires forall lam: Flags, first: Sets, states: seq<State>, states': seq<State>, acts: seq<seq<Action>> ::
               Made(g, lam, first, states, states', acts) ==> MakesOf(g, states, acts, depth, input, ls)
    ensures outcome == Accepted && reduced == ls
  {
    hide *;
    var ok, t, info;
    ghost var lam, first, states, states', acts;
    ok, t, info, nconflict, lam, first, states, states', acts := Generate(g);
    IsMade(g, lam, first, states, states', acts, t, info);
    IsMakesOf(g, states, acts, depth, input, ls);
    outcome, reduced := RunTables(t, info, depth, input, g, lam, first, states, acts, ls);
  }

  lemma IsOpsMade(g: Grammar, how: Assoc, lam: Flags, first: Sets, states: seq<State>, states': seq<State>, acts: seq<seq<Action>>)
    requires g == Ops(how) && how in {LEFT, RIGHT, NONE} && Made(g, lam, first, states, states', acts)
    ensures OpsMade(g, how, lam, first, states, states', acts)
  {
    CollectionComplete(g, lam, first, states);
  }
}
