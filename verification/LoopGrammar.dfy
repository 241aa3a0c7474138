/** A grammar for which Lemon reports a conflict and makes a parser that never stops: A -> A, S -> A,
    A -> a. After the input a it reduces A to A for ever. */
module LoopGrammar {
  import opened Shared
  import opened Grammars
  import opened BitSets
  import opened FirstSets
  import opened LR0
  import opened Closure
  import opened Automaton
  import opened Actions
  import opened Compress
  import opened Viable
  import opened Halting
  import opened Cycles
  import opened Lookaheads
  import opened Driver
  import opened Lemon
  import StuckGrammar
  import Tables
  import MSort
  import States

  const a: nat := 1
  const A: nat := 2
  const S: nat := 3

  function Loops(): Grammar {
    Grammar(2, 4, [Rule(A, [A], None), Rule(S, [A], None), Rule(A, [a], None)], S, [-1, -1, -1, -1], [UNK, UNK, UNK, UNK])
  }

  // ------------------------------------------------------------ the automaton

  lemma FirstItems(states: seq<State>)
    requires Viable.Complete(Loops(), states)
    ensures Has(states[0].cfp, Config(1, 0)) && Has(states[0].cfp, Config(0, 0)) && Has(states[0].cfp, Config(2, 0))
  {
    assert Has(states[0].cfp, Config(1, 0));
    assert Predicts(Loops(), Config(1, 0), Config(0, 0)) && Predicts(Loops(), Config(1, 0), Config(2, 0));
  }

  /** The end marker follows every rule of A in the first state. */
  lemma FirstLooks(states: seq<State>, r: nat)
    requires Viable.Complete(Loops(), states) && (r == 0 || r == 2)
    ensures Lookahead(Loops(), states, 0, Config(r, 0), 0)
  {
    var g := Loops();
    FirstItems(states);
    DerivesSelf(g, []);
    assert Rest(g, Config(1, 0)) == [];
    assert Generated(g, states, 0, Config(1, 0), 0) && LookIn(g, states, 0, Config(1, 0), 0, 0);
    assert Propagates(g, states, 0, Config(1, 0), 0, Config(r, 0));
    assert LookIn(g, states, 0, Config(r, 0), 0, 1);
  }

  /** The state behind the symbol x, which is all of rule r, reduces by r at the end of the input. */
  lemma After(states: seq<State>, r: nat, x: nat) returns (q: nat)
    requires Viable.Complete(Loops(), states) && ((r == 0 && x == A) || (r == 2 && x == a))
    ensures q < |states| && HasShift(states[0], x, q) && Leads(states, [x], q)
    ensures Completes(Loops(), states, q, r, 0)
  {
    var g := Loops();
    FirstItems(states);
    FirstLooks(states, r);
    q := ShiftExists(g, states, 0, Config(r, 0));
    ShiftTarget(g, states, 0, x, q);
    LookMoves(g, states, 0, Config(r, 0), x, q, 0);
    assert [x][..0] == [] && Leads(states, [], 0);
  }

  // ------------------------------------------------------------ the tables

  lemma NoPrecedences()
    ensures NoPrecedence(Loops())
  {
  }

  /** Nothing beats the shift of a. */
  lemma ShiftWins(b: Action, s: nat, typ: ActType)
    ensures !GivesWay(Loops(), b, Action(a, SHIFT, s), typ)
  {
  }

  /** The lower rule wins. */
  lemma LowerWins(b: Action, r: nat, typ: ActType)
    requires b.typ != SHIFT && (b.typ == REDUCE ==> b.x >= r)
    ensures !GivesWay(Loops(), b, Action(0, REDUCE, r), typ)
  {
  }

  lemma OtherEnd(b: Action, sp: nat, r: nat, typ: ActType)
    requires b.sp != sp
    ensures !GivesWay(Loops(), b, Action(sp, REDUCE, r), typ)
  {
  }

  /** A rule that is complete in the state behind x ends in x. */
  lemma EndsIn(lam: Flags, first: Sets, states: seq<State>, q: nat, x: nat, r: nat)
    requires Automatic(Loops(), lam, first, states) && q < |states| && HasShift(states[0], x, q)
    requires r < 3 && Has(states[q].cfp, Config(r, 1))
    ensures Loops().rules[r].rhs == [x]
  {
    var g := Loops();
    MovedIsBasis(g, lam, first, states, q, Config(r, 1));
    assert Finished(g, states, 0);
    assert IsGoto(g, states[0].cfp, x, states[q].basis);
    assert InGoto(g, states[0].cfp, x, Config(r, 1));
  }

  lemma NothingOnEnd(lam: Flags, first: Sets, states: seq<State>, q: nat, s: nat)
    requires Automatic(Loops(), lam, first, states) && q < |states|
    ensures !HasShift(states[q], 0, s)
  {
    EndNotShifted(Loops(), lam, first, states, q, s);
  }

  /** The table entry of the state behind x, which is all of rule r, at the end of the input. */
  lemma EndEntry(lam: Flags, first: Sets, states: seq<State>, states': seq<State>, q: nat, r: nat, x: nat, after: seq<Action>)
    requires Automatic(Loops(), lam, first, states) && LookaheadsExact(Loops(), states, states') && Completes(Loops(), states, q, r, 0)
    requires HasShift(states[0], x, q) && ((r == 0 && x == A) || (r == 2 && x == a)) && MadeFrom(Loops(), q, states'[q], after)
    ensures Meaning(Loops(), after, 0) == Reduce(r)
  {
    var g, act := Loops(), Action(0, REDUCE, r);
    ReduceCandidate(g, states, states', q, r, 0);
    forall b, typ | Candidate(g, q, states'[q], b) ensures !GivesWay(g, b, act, typ) {
      if b.sp != 0 {
        OtherEnd(b, 0, r, typ);
      } else {
        NotBeaten(lam, first, states, states', q, r, x, b);
        LowerWins(b, r, typ);
      }
    }
    hide Candidate, GivesWay, Meaning, MadeFrom;
    Unbeaten(g, q, states'[q], after, act);
  }

  lemma NotBeaten(lam: Flags, first: Sets, states: seq<State>, states': seq<State>, q: nat, r: nat, x: nat, b: Action)
    requires Automatic(Loops(), lam, first, states) && LookaheadsExact(Loops(), states, states') && q < |states| == |states'|
    requires HasShift(states[0], x, q) && ((r == 0 && x == A) || (r == 2 && x == a))
    requires Candidate(Loops(), q, states'[q], b) && b.sp == 0
    ensures b.typ != SHIFT && (b.typ == REDUCE ==> b.x >= r)
  {
    var g := Loops();
    assert SameCore(states[q], states'[q]);
    if b.typ == SHIFT {
      NothingOnEnd(lam, first, states, q, b.x);
      SameShift(states[q], states'[q], 0, b.x);
      assert false;
    } else if b.typ == REDUCE {
      assert Has(states'[q].cfp, Config(b.x, 1));
      SameHas(states[q], states'[q], Config(b.x, 1));
      EndsIn(lam, first, states, q, x, b.x);
    }
  }

  lemma ShiftEntry(states: seq<State>, states': seq<State>, s: nat, after: seq<Action>)
    requires |states| > 0 && LookaheadsExact(Loops(), states, states') && HasShift(states[0], a, s)
    requires MadeFrom(Loops(), 0, states'[0], after)
    ensures Meaning(Loops(), after, a) == Go(s)
  {
    var g := Loops();
    ShiftCandidate(g, states, states', 0, a, s);
    forall b, typ | Candidate(g, 0, states'[0], b) ensures !GivesWay(g, b, Action(a, SHIFT, s), typ) { ShiftWins(b, s, typ); }
    hide Candidate, GivesWay, Meaning, MadeFrom;
    Unbeaten(g, 0, states'[0], after, Action(a, SHIFT, s));
  }

  // ------------------------------------------------------------ the run

  /** What the tables do: a is shifted, reduced to A, and then A to A. */
  ghost predicate GoesRound(states: seq<State>, acts: seq<seq<Action>>) {
    && Shifts(Loops(), states, acts, a, [])
    && Reduces(Loops(), states, acts, 0, [a], 2)
    && Reduces(Loops(), states, acts, 0, [A], 0)
  }

  lemma TablesGoRound(lam: Flags, first: Sets, states: seq<State>, states': seq<State>, acts: seq<seq<Action>>)
    requires Automatic(Loops(), lam, first, states) && LookaheadsExact(Loops(), states, states') && |acts| == |states'|
    requires forall q: nat :: q < |acts| ==> MadeFrom(Loops(), q, states'[q], acts[q])
    ensures GoesRound(states, acts)
  {
    var g := Loops();
    hide Meaning, MadeFrom, Leads, Completes, Shifts, Reduces, Viable.Complete, Collection;
    CollectionComplete(g, lam, first, states);
    var p := After(states, 2, a);
    var q := After(states, 0, A);
    SameStates(states, states');
    hide LookaheadsExact;
    EndEntry(lam, first, states, states', p, 2, a, acts[p]);
    EndEntry(lam, first, states, states', q, 0, A, acts[q]);
    ShiftEntry(states, states', p, acts[0]);
    RoundTrip(states, acts, p, q);
  }

  lemma SameStates(states: seq<State>, states': seq<State>)
    requires LookaheadsExact(Loops(), states, states')
    ensures |states'| == |states|
  {
  }

  lemma RoundTrip(states: seq<State>, acts: seq<seq<Action>>, p: nat, q: nat)
    requires |acts| == |states| && p < |states| && q < |states| && Leads(states, [a], p) && Leads(states, [A], q)
    requires Meaning(Loops(), acts[0], a) == Go(p) && Meaning(Loops(), acts[p], 0) == Reduce(2) && Meaning(Loops(), acts[q], 0) == Reduce(0)
    ensures GoesRound(states, acts)
  {
    var g := Loops();
    assert Leads(states, [], 0);
    hide Meaning, Leads;
    assert ShiftsIn(g, states, acts, a, [], 0);
    assert Reduced(g, [a], 2) == [A] && Reduced(g, [A], 0) == [A];
    assert ReducesIn(g, states, acts, 0, [a], p, 2);
    assert ReducesIn(g, states, acts, 0, [A], q, 0);
  }

  /** So the input a leads into a cycle, on a stack of any depth above one. */
  lemma NeverEnds(states: seq<State>, acts: seq<seq<Action>>, d: nat)
    requires GoesRound(states, acts) && d > 1
    ensures !EndsOn(Loops(), states, acts, d, [a])
  {
    var g := Loops();
    hide Reduces, Shifts;
    assert Reduced(g, [a], 2) == [A] && Reduced(g, [A], 0) == [A];
    assert Runs(g, states, acts, 0, d, [A], [0], [A]) by {
      RunsNone(g, states, acts, 0, d, [A]);
      RunsFirst(g, states, acts, 0, d, [A], [0], [A]);
      assert [0][1..] == [];
    }
    assert Runs(g, states, acts, 0, d, [a], [2], [A]) by {
      RunsNone(g, states, acts, 0, d, [A]);
      RunsFirst(g, states, acts, 0, d, [a], [2], [A]);
      assert [2][1..] == [];
    }
    assert Cycle(g, states, acts, 0, d, [A]);
    assert IntoCycle(g, states, acts, 0, d, [a]);
    RunsNone(g, states, acts, a, d, []);
    assert [] + [a] == [a] && Takes(g, states, acts, a, d, [], [a]);
    assert [a][..0] == [] && [a][..1] == [a] && [a][1..] == [];
    assert Gets(g, states, acts, d, [a][..0], []) && Last([a]) == a;
    assert Gets(g, states, acts, d, [a][..1], [a]);
    assert !EndsAt(g, states, acts, d, [a], 1);
  }

  lemma LoopsOK()
    ensures GrammarOK(Loops()) && Productive(Loops())
  {
    LoopsSmall();
    LoopsProductive();
    hide States.Small, SmallTables, Productive;
  }

  lemma LoopsSmall()
    ensures States.Small(Loops()) && SmallTables(Loops())
  {
    hide Pow2;
    StuckGrammar.Pow2Above(MSort.LISTSIZE);
    var all := {Config(0, 0), Config(0, 1), Config(1, 0), Config(1, 1), Config(2, 0), Config(2, 1)};
    forall d | d in AllConfigs(Loops()) ensures d in all {}
    StuckGrammar.SubsetSmall(AllConfigs(Loops()), all);
    assert |all| <= 6;
  }

  lemma LoopsProductive()
    ensures Productive(Loops())
  {
    var g := Loops();
    RuleDerives(g, 2);
    RuleDerives(g, 1);
    DerivesTrans(g, [S], [A], [a]);
    assert AllTerminals(g, [a]);
    forall x: nat | g.nterminal <= x < g.nsymbol ensures DerivesSentence(g, [x]) { assert x == A || x == S; }
  }

  /** Decisive tables of a productive grammar do not go round. */
  lemma NotDecisive(g: Grammar, lam: Flags, first: Sets, states: seq<State>, acts: seq<seq<Action>>, d: nat, input: Symbols)
    requires g.Valid() && Productive(g) && Collection(g, lam, first, states) && !EndsOn(g, states, acts, d, input)
    ensures !Decisive(g, states, acts)
  {
    hide *;
    if Decisive(g, states, acts) {
      DecisiveNoCycle(g, lam, first, states, acts, d);
      NoCycleEnds(g, states, acts, d, input);
      assert false;
    }
  }

  /** A parser whose input leads to a cycle reaches every limit on its rounds. */
  method ReachesLimit(t: Tables.ParseTables, info: seq<RuleInfo>, depth: nat, steps: nat, input: seq<nat>, ghost g: Grammar,
                      ghost lam: Flags, ghost first: Sets, ghost states: seq<State>, ghost acts: seq<seq<Action>>)
    returns (outcome: Outcome)
    requires depth > 0 && Ready(g, lam, first, states, acts, t, info) && input != []
    requires forall i :: 0 <= i < |input| ==> 0 < input[i] < g.nterminal
    requires !EndsOn(g, states, acts, depth, input)
    ensures outcome == OutOfSteps
  {
    hide *;
    var parser := new Parser(t, info, depth, g, lam, first, states, acts);
    ghost var k;
    outcome, k := parser.ParseAll(input, Some(steps));
  }

  /** What Lemon makes of a grammar without precedences when an input leads into a cycle: there is a
      conflict, and the parser reaches every limit. */
  method Endless(g: Grammar, depth: nat, steps: nat, input: seq<nat>) returns (outcome: Outcome, nconflict: nat)
    requires GrammarOK(g) && Productive(g) && NoPrecedence(g) && depth > 0 && input != []
    requires forall i :: 0 <= i < |input| ==> 0 < input[i] < g.nterminal
    requires forall lam: Flags, first: Sets, states: seq<State>, states': seq<State>, acts: seq<seq<Action>> ::
               Made(g, lam, first, states, states', acts) ==> !EndsOn(g, states, acts, depth, input)
    ensures outcome == OutOfSteps && nconflict > 0
  {
    hide *;
    ProductiveStarts(g);
    var ok, t, info;
    ghost var lam, first, states, states', acts;
    ok, t, info, nconflict, lam, first, states, states', acts := Generate(g);
    IsMade(g, lam, first, states, states', acts, t, info);
    NotDecisive(g, lam, first, states, acts, depth, input);
    outcome := ReachesLimit(t, info, depth, steps, input, g, lam, first, states, acts);
  }

  /** Lemon reports a conflict, makes a parser all the same, and that parser reaches every limit on
      its rounds on the input a. */
  method RunsForEver(depth: nat, steps: nat) returns (outcome: Outcome, nconflict: nat)
    requires depth > 1
    ensures outcome == OutOfSteps && nconflict > 0
  {
    var g := Loops();
    assert 0 < a < g.nterminal;
    LoopsOK();
    NoPrecedences();
    hide *;
    forall lam: Flags, first: Sets, states: seq<State>, states': seq<State>, acts: seq<seq<Action>>
      | Made(g, lam, first, states, states', acts) ensures !EndsOn(g, states, acts, depth, [a])
    {
      LoopMade(lam, first, states, states', acts, depth);
    }
    outcome, nconflict := Endless(g, depth, steps, [a]);
  }

  lemma LoopMade(lam: Flags, first: Sets, states: seq<State>, states': seq<State>, acts: seq<seq<Action>>, d: nat)
    requires Made(Loops(), lam, first, states, states', acts) && d > 1
    ensures !EndsOn(Loops(), states, acts, d, [a])
  {
    hide LookaheadsExact, MadeFrom, Collection, GoesRound, EndsOn;
    TablesGoRound(lam, first, states, states', acts);
    NeverEnds(states, acts, d);
  }
}
