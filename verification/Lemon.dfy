/** The phases of Lemon in the order in which its main program runs them, and what they
    guarantee together: the tables that the driver needs. */
module Lemon {
  import opened Shared
  import opened Grammars
  import opened BitSets
  import opened LR0
  import opened Closure
  import opened Automaton
  import opened Actions
  import opened Compress
  import opened Tables
  import opened Driver
  import opened Viable
  import opened Halting
  import opened Cycles
  import FirstSets
  import Lookaheads
  import States
  import MSort

  // ------------------------------------------------------------ states with their lookaheads

  lemma SameHas(s: State, t: State, c: Config)
    requires Lookaheads.SameCore(s, t)
    ensures Has(s.cfp, c) <==> Has(t.cfp, c)
  {
  }

  lemma SameShift(s: State, t: State, x: nat, q: nat)
    requires Lookaheads.SameCore(s, t)
    ensures HasShift(s, x, q) <==> HasShift(t, x, q)
  {
  }

  /** Replacing the follow sets leaves the automaton as it was. */
  lemma CoreReady(g: Grammar, lam: Flags, first: Sets, states: seq<State>, states': seq<State>, q: nat)
    requires Collection(g, lam, first, states) && Lookaheads.LookaheadsExact(g, states, states') && q < |states|
    ensures |states'| == |states| && StateReady(g, states', q)
  {
    assert Lookaheads.SameCore(states[q], states'[q]);
    assert StateOK(g, lam, first, q, states[q]) && Finished(g, states, q);
    hide Lookaheads.FollowExactAt, LeastClosure, FollowStart, LinksWithin, StartBasis, KernelBasis, StrictlySorted;
    forall x: nat, t: nat | HasShift(states'[q], x, t)
      ensures t < |states'| && IsGoto(g, states'[q].cfp, x, states'[t].basis) && states'[t].basis != []
    {
      SameShift(states[q], states'[q], x, t);
      assert Lookaheads.SameCore(states[t], states'[t]);
      SameGoto(g, states[q].cfp, states'[q].cfp, x, states[t].basis);
    }
    forall k, x: nat | 0 <= k < |states'[q].cfp| && Before(g, states'[q].cfp[k].cfg, x) ensures ShiftsOn(states'[q], x) {
      assert Before(g, states[q].cfp[k].cfg, x);
      assert ShiftsOn(states[q], x);
    }
  }

  lemma SameGoto(g: Grammar, items: seq<Item>, items': seq<Item>, x: nat, basis: seq<Config>)
    requires |items| == |items'| && forall k :: 0 <= k < |items| ==> items[k].cfg == items'[k].cfg
    requires IsGoto(g, items, x, basis)
    ensures IsGoto(g, items', x, basis)
  {
    forall d ensures InGoto(g, items', x, d) <==> InGoto(g, items, x, d) { }
  }

  // ------------------------------------------------------------ the action lists are short

  /** The number of candidates a state can have is bounded by the size of the grammar. */
  ghost predicate SmallTables(g: Grammar) {
    g.nsymbol * (|g.rules| + 2) < Pow2(MSort.LISTSIZE)
  }

  function Kind(g: Grammar, a: Action): nat {
    match a.typ
    case SHIFT => 0
    case REDUCE => if a.x < |g.rules| then a.x + 1 else 0
    case _ => |g.rules| + 1
  }

  function Number(g: Grammar, a: Action): nat {
    a.sp * (|g.rules| + 2) + Kind(g, a)
  }

  lemma NextMultiple(a: nat, b: nat, m: nat)
    requires a < b
    ensures a * m + m <= b * m
  {
    var d := b - a - 1;
    assert b * m == (a + 1 + d) * m == a * m + m + d * m;
  }

  lemma DigitsUnique(a: nat, b: nat, i: nat, j: nat, m: nat)
    requires i < m && j < m && a * m + i == b * m + j
    ensures a == b && i == j
  {
    if a < b { NextMultiple(a, b, m); }
    if b < a { NextMultiple(b, a, m); }
  }

  lemma {:induction false} Pigeonhole(s: seq<nat>, n: nat)
    requires forall i, j :: 0 <= i < j < |s| ==> s[i] != s[j]
    requires forall i :: 0 <= i < |s| ==> s[i] < n
    ensures |s| <= n
  {
    if s != [] {
      var xs := set i | 0 <= i < |s| :: s[i];
      DistinctSize(s);
      forall x: nat | x in xs ensures x in Below(n) { }
      SubsetSize(xs, Below(n));
      BelowSize(n);
    }
  }

  lemma {:induction false} DistinctSize(s: seq<nat>)
    requires forall i, j :: 0 <= i < j < |s| ==> s[i] != s[j]
    ensures |set i | 0 <= i < |s| :: s[i]| == |s|
  {
    if s != [] {
      var n := |s| - 1;
      var xs, front := set i | 0 <= i < |s| :: s[i], set i | 0 <= i < n :: s[..n][i];
      DistinctSize(s[..n]);
      assert front == set i | 0 <= i < |s[..n]| :: s[..n][i];
      forall x: nat | x in xs ensures x in front + {s[n]} {
        var i :| 0 <= i < |s| && s[i] == x;
        if i < n { assert s[..n][i] == x; }
      }
      forall x: nat | x in front ensures x in xs {
        var i :| 0 <= i < n && s[..n][i] == x;
        assert s[i] == x;
      }
      assert xs == front + {s[n]};
    }
  }

  lemma {:induction false} BelowSize(n: nat)
    ensures |Below(n)| == n
  {
    if n > 0 { BelowSize(n - 1); }
  }

  lemma CandidateSymbol(g: Grammar, states: seq<State>, q: nat, a: Action)
    requires g.Valid() && q < |states| && ShiftsOK(g, states, q) && Candidate(g, q, states[q], a)
    ensures a.sp < g.nsymbol
  {
    if a.typ == SHIFT {
      var d := states[a.x].basis[0];
      assert d in states[a.x].basis;
      assert InGoto(g, states[q].cfp, a.sp, d);
      var i :| 0 <= i < |states[q].cfp| && Before(g, states[q].cfp[i].cfg, a.sp);
      assert g.ValidRule(g.rules[states[q].cfp[i].cfg.rule]);
    }
  }

  lemma CandidateNumber(g: Grammar, states: seq<State>, q: nat, a: Action)
    requires g.Valid() && q < |states| && ShiftsOK(g, states, q) && Candidate(g, q, states[q], a)
    ensures Number(g, a) < g.nsymbol * (|g.rules| + 2)
  {
    CandidateSymbol(g, states, q, a);
    hide *;
    NextMultiple(a.sp, g.nsymbol, |g.rules| + 2);
    NumberBelow(g, a);
  }

  lemma NumberBelow(g: Grammar, a: Action)
    ensures Number(g, a) < a.sp * (|g.rules| + 2) + (|g.rules| + 2)
  {
  }

  lemma CandidateUnique(g: Grammar, states: seq<State>, q: nat, a: Action, b: Action)
    requires g.Valid() && q < |states| && ShiftsOK(g, states, q)
    requires Candidate(g, q, states[q], a) && Candidate(g, q, states[q], b) && Number(g, a) == Number(g, b)
    ensures a == b
  {
    DigitsUnique(a.sp, b.sp, Kind(g, a), Kind(g, b), |g.rules| + 2);
    if a.typ == SHIFT && b.typ == SHIFT { OneTarget(g, states, q, a.sp, a.x, b.x); }
  }

  lemma FewCandidates(g: Grammar, states: seq<State>, q: nat)
    requires g.Valid() && SmallTables(g) && q < |states| && ShiftsOK(g, states, q)
    ensures FewActions(g, q, states[q])
  {
    hide ShiftsOK, Candidate, Number;
    forall ap | AllCandidates(g, q, states[q], ap) ensures |ap| < Pow2(MSort.LISTSIZE) {
      var s := seq(|ap|, i requires 0 <= i < |ap| => Number(g, ap[i]));
      forall i | 0 <= i < |ap| ensures s[i] < g.nsymbol * (|g.rules| + 2) {
        assert ap[i] in ap;
        CandidateNumber(g, states, q, ap[i]);
      }
      forall i, j | 0 <= i < j < |s| ensures s[i] != s[j] {
        assert ap[i] in ap && ap[j] in ap && ap[i] != ap[j];
        if s[i] == s[j] {
          CandidateUnique(g, states, q, ap[i], ap[j]);
          assert false;
        }
      }
      Pigeonhole(s, g.nsymbol * (|g.rules| + 2));
    }
  }

  // ------------------------------------------------------------ from one phase to the next

  /** The list after conflict resolution can be compressed. */
  lemma ActionsCompressible(g: Grammar, states: seq<State>, q: nat, ap: seq<Action>)
    requires g.Valid() && g.StartNotOnRhs() && q < |states| && Finished(g, states, q)
    requires ActionsOf(g, q, states[q], ap) && FewActions(g, q, states[q])
    ensures Compressible(g, ap)
  {
    var st := states[q];
    ActionsAreSound(g, states, q, ap);
    var s: seq<Action> :| SortedCandidates(g, q, st, s) && Resolved(g, s, ap);
    assert ShiftsOK(g, states, q);
    hide Candidate, Finished, GivesWay, ShiftsOK;
    forall i, j | 0 <= i < j < |s| ensures s[i] != s[j] {
      assert s[i].sp == s[j].sp ==> Comparable(s[i], s[j]);
    }
    assert AllCandidates(g, q, st, s);
    forall a | a in ap ensures a.sp < g.nsymbol && (Live(a) ==> a.typ != ERROR) {
      var i: nat :| i < |ap| && ap[i] == a;
      SameSp(g, s, ap, i);
      assert s[i] in s;
      CandidateSymbol(g, states, q, s[i]);
      if Live(a) { CandidateNoError(g, q, st, a); }
    }
  }

  lemma CandidateNoError(g: Grammar, q: nat, st: State, a: Action)
    requires Candidate(g, q, st, a)
    ensures a.typ != ERROR
  {
  }

  /** The end marker is the only lookahead of a start rule. */
  lemma StartRuleAtEnd(g: Grammar, states: seq<State>, states': seq<State>, q: nat, a: Action)
    requires g.StartNotOnRhs() && Lookaheads.LookaheadsExact(g, states, states') && q < |states|
    requires Candidate(g, q, states'[q], a) && a.typ == REDUCE && g.rules[a.x].lhs == g.start
    ensures a.sp == 0
  {
    var k: nat :| k < |states'[q].cfp| && states'[q].cfp[k].cfg == Config(a.x, |g.rules[a.x].rhs|) && a.sp in states'[q].cfp[k].fws;
    assert Lookaheads.FollowExactAt(g, states, states', q, k);
    var n: nat :| Lookaheads.LookIn(g, states, q, states'[q].cfp[k].cfg, a.sp, n);
    Lookaheads.StartLookahead(g, states, q, states'[q].cfp[k].cfg, a.sp, n);
  }

  lemma CandidateAllowed(g: Grammar, states: seq<State>, states': seq<State>, q: nat, a: Action)
    requires g.StartNotOnRhs() && Lookaheads.LookaheadsExact(g, states, states') && q < |states|
    requires Candidate(g, q, states'[q], a)
    ensures a.typ == SHIFT ==> HasShift(states[q], a.sp, a.x)
    ensures a.typ == REDUCE ==> a.x < |g.rules| && Has(states[q].cfp, Config(a.x, |g.rules[a.x].rhs|))
                                && (g.rules[a.x].lhs == g.start ==> a.sp == 0)
    ensures a.typ == ACCEPT ==> q == 0 && a.sp == g.start
    ensures a.typ in {SHIFT, REDUCE, ACCEPT}
  {
    assert Lookaheads.SameCore(states[q], states'[q]);
    if a.typ == SHIFT { SameShift(states[q], states'[q], a.sp, a.x); }
    if a.typ == REDUCE {
      SameHas(states[q], states'[q], Config(a.x, |g.rules[a.x].rhs|));
      if g.rules[a.x].lhs == g.start { StartRuleAtEnd(g, states, states', q, a); }
    }
  }

  /** A default reduction is a reduction that the state has, and not to the start symbol. */
  lemma DefaultAllowed(g: Grammar, states: seq<State>, states': seq<State>, q: nat, ap: seq<Action>, b: nat)
    requires g.StartNotOnRhs() && Lookaheads.LookaheadsExact(g, states, states') && q < |states|
    requires Sound(g, q, states'[q], ap) && Count(ap, b) >= 2
    ensures b < |g.rules| && Has(states[q].cfp, Config(b, |g.rules[b].rhs|)) && g.rules[b].lhs != g.start
  {
    var i := CountSome(ap, b);
    assert ap[i] in ap && Live(ap[i]);
    CandidateAllowed(g, states, states', q, ap[i]);
    if g.rules[b].lhs == g.start {
      forall a | a in ap && ReducesBy(a, b) ensures a.sp == 0 { CandidateAllowed(g, states, states', q, a); }
      CountSpread(ap, b, 0);
    }
  }

  /** Before compression the meaning of a list is allowed by the automaton. */
  lemma MeaningAllowed(g: Grammar, states: seq<State>, states': seq<State>, q: nat, ap: seq<Action>, x: nat)
    requires g.Valid() && g.StartNotOnRhs() && Lookaheads.LookaheadsExact(g, states, states') && q < |states|
    requires Sound(g, q, states'[q], ap) && Undefaulted(g, ap) && x < g.nsymbol
    ensures Allowed(g, states, q, x, Meaning(g, ap, x))
  {
    assert |states'| == |states|;
    hide Candidate, OneEach, Lookaheads.LookaheadsExact;
    NoLiveOn(ap, g.nsymbol);
    if LiveOn(ap, x).Some? {
      var a := LiveOn(ap, x).value;
      LiveOnIs(ap, x, a);
      CandidateAllowed(g, states, states', q, a);
    }
    forall s: nat | x >= g.nterminal && HasShift(states[q], x, s) ensures Meaning(g, ap, x) == Go(s) {
      KeepsShift(g, states, states', q, ap, x, s);
    }
    if q == 0 && x == g.start {
      assert Candidate(g, q, states'[q], Action(x, ACCEPT, 0)) by { AcceptCandidate(g, states'[q]); }
      LiveOnIs(ap, x, Action(x, ACCEPT, 0));
    }
  }

  lemma AcceptCandidate(g: Grammar, st: State)
    ensures Candidate(g, 0, st, Action(g.start, ACCEPT, 0))
  {
  }

  lemma KeepsShift(g: Grammar, states: seq<State>, states': seq<State>, q: nat, ap: seq<Action>, x: nat, s: nat)
    requires Lookaheads.LookaheadsExact(g, states, states') && q < |states|
    requires Sound(g, q, states'[q], ap) && x >= g.nterminal && HasShift(states[q], x, s)
    ensures Meaning(g, ap, x) == Go(s)
  {
    var a := Action(x, SHIFT, s);
    assert Lookaheads.SameCore(states[q], states'[q]);
    SameShift(states[q], states'[q], x, s);
    assert Candidate(g, q, states'[q], a);
    LiveOnIs(ap, x, a);
  }

  /** Nor does compression lead to anything that the automaton does not allow. */
  lemma CompressedAllowed(g: Grammar, states: seq<State>, states': seq<State>, q: nat, ap: seq<Action>, after: seq<Action>, x: nat)
    requires g.Valid() && g.StartNotOnRhs() && Lookaheads.LookaheadsExact(g, states, states') && q < |states|
    requires Sound(g, q, states'[q], ap) && Undefaulted(g, ap) && Compressed(g, ap, after) && x < g.nsymbol
    ensures Allowed(g, states, q, x, Meaning(g, after, x))
  {
    MeaningAllowed(g, states, states', q, ap, x);
    hide Sound, Lookaheads.LookaheadsExact, Meaning, Undefaulted, HasDefault;
    if after != ap {
      var b: nat :| Count(ap, b) >= 2 && MostFrequent(ap, b) && DefaultsTo(g, ap, b, after);
      DefaultAllowed(g, states, states', q, ap, b);
    }
  }

  // ------------------------------------------------------------ grammars without conflicts

  ghost predicate NoPrecedence(g: Grammar) {
    forall s: nat :: SymPrec(g, s) < 0
  }

  /** No lookahead of the state has two candidates. */
  ghost predicate OneCandidate(g: Grammar, q: nat, st: State) {
    forall a, b :: Candidate(g, q, st, a) && Candidate(g, q, st, b) && a.sp == b.sp ==> a == b
  }

  ghost predicate Lalr1(g: Grammar, states: seq<State>) {
    forall q: nat :: q < |states| ==> OneCandidate(g, q, states[q])
  }

  lemma {:induction false} ConflictCounted(cur: seq<Action>, i: nat)
    requires i < |cur| && cur[i].typ == CONFLICT
    ensures Conflicts(cur) > 0
  {
    var n := |cur| - 1;
    if i < n {
      assert cur[..n][i].typ == CONFLICT;
      ConflictCounted(cur[..n], i);
    }
  }

  lemma ResolvedFacts(g: Grammar, q: nat, st: State, ap: seq<Action>) returns (s: seq<Action>)
    requires ActionsOf(g, q, st, ap)
    ensures |s| == |ap| && OneEach(ap) && WellSorted(s)
    ensures forall i: nat :: i < |s| ==> ResolvedAt(g, s, ap, i) && Candidate(g, q, st, s[i])
    ensures forall a :: Candidate(g, q, st, a) ==> a in s
  {
    hide Candidate, ResolvedAt, WellSorted;
    s :| SortedCandidates(g, q, st, s) && Resolved(g, s, ap);
    SortedOnes(g, q, st, s);
    forall i: nat | i < |s| ensures Candidate(g, q, st, s[i]) { assert s[i] in s; }
  }

  lemma SortedOnes(g: Grammar, q: nat, st: State, s: seq<Action>)
    requires SortedCandidates(g, q, st, s)
    ensures WellSorted(s) && forall a :: a in s <==> Candidate(g, q, st, a)
  {
  }

  /** Without precedences, the conflicts that are reported are all there are. */
  lemma ConflictFree(g: Grammar, q: nat, st: State, ap: seq<Action>)
    requires ActionsOf(g, q, st, ap) && NoPrecedence(g)
    ensures Conflicts(ap) == 0 <==> OneCandidate(g, q, st)
  {
    var s := ResolvedFacts(g, q, st, ap);
    hide Candidate, ActionsOf, SymPrec, ResolvedAt, WellSorted, Live;
    if Conflicts(ap) == 0 {
      forall i: nat | i < |s| ensures ap[i] == s[i] && Live(s[i]) {
        Unresolved(g, s, ap, i);
      }
      forall a, b | Candidate(g, q, st, a) && Candidate(g, q, st, b) && a.sp == b.sp ensures a == b {
        SameAction(s, ap, a, b);
      }
    } else if OneCandidate(g, q, st) {
      forall i: nat | i < |s| ensures Live(ap[i]) {
        NothingGivesWay(g, q, st, s, ap, i);
      }
      NoConflicts(ap);
    }
  }

  lemma SameAction(s: seq<Action>, ap: seq<Action>, a: Action, b: Action)
    requires |s| == |ap| && OneEach(ap) && a in s && b in s && a.sp == b.sp
    requires forall i: nat :: i < |s| ==> ap[i] == s[i] && Live(s[i])
    ensures a == b
  {
    var i: nat :| i < |s| && s[i] == a;
    var j: nat :| j < |s| && s[j] == b;
    BothLive(ap, i, j);
  }

  lemma BothLive(ap: seq<Action>, i: nat, j: nat)
    requires OneEach(ap) && i < |ap| && j < |ap| && Live(ap[i]) && Live(ap[j]) && ap[i].sp == ap[j].sp
    ensures i == j
  {
  }

  lemma Unresolved(g: Grammar, s: seq<Action>, ap: seq<Action>, i: nat)
    requires NoPrecedence(g) && |s| == |ap| && i < |s| && ResolvedAt(g, s, ap, i) && Conflicts(ap) == 0 && WellSorted(s)
    ensures ap[i] == s[i] && Live(s[i])
  {
    if ap[i].typ == CONFLICT { ConflictCounted(ap, i); }
    forall a: Action, b: Action, typ: ActType | GivesWay(g, a, b, typ) ensures typ == CONFLICT { NoPrecedenceDecides(g, a, b, typ); }
  }

  lemma NoPrecedenceDecides(g: Grammar, a: Action, b: Action, typ: ActType)
    requires NoPrecedence(g) && GivesWay(g, a, b, typ)
    ensures typ == CONFLICT
  {
    assert SymPrec(g, a.sp) < 0;
    assert RulePrec(g, a.x) < 0 by { NoRulePrec(g, a.x); }
  }

  lemma NoRulePrec(g: Grammar, r: nat)
    requires NoPrecedence(g)
    ensures RulePrec(g, r) < 0
  {
    if r < |g.rules| && g.rules[r].precsym.Some? { assert SymPrec(g, g.rules[r].precsym.value) < 0; }
  }

  lemma NothingGivesWay(g: Grammar, q: nat, st: State, s: seq<Action>, ap: seq<Action>, i: nat)
    requires OneCandidate(g, q, st) && |s| == |ap| && i < |s| && ResolvedAt(g, s, ap, i)
    requires forall k: nat :: k < |s| ==> Candidate(g, q, st, s[k])
    ensures Live(ap[i])
  {
    hide Candidate;
    CandidateLive(g, q, st, s[i]);
    forall j: nat | j < |s| ensures !GivesWay(g, s[j], s[i], ap[i].typ) {
      NotToItself(g, s[j], ap[i].typ);
    }
  }

  lemma NotToItself(g: Grammar, a: Action, typ: ActType)
    ensures !GivesWay(g, a, a, typ)
  {
  }

  /** With one candidate on every lookahead, the parser does what the candidate says. */
  lemma DoesCandidate(g: Grammar, q: nat, st: State, ap: seq<Action>, after: seq<Action>, a: Action)
    requires Sound(g, q, st, ap) && NoneLost(g, q, st, ap) && OneCandidate(g, q, st)
    requires Compressed(g, ap, after) && Candidate(g, q, st, a) && a.sp < g.nsymbol && a.typ in {SHIFT, REDUCE, ACCEPT}
    ensures Meaning(g, after, a.sp) == Does(a)
  {
    hide Candidate, HasDefault;
    assert GroupAlive(ap, a.sp);
    var j :| 0 <= j < |ap| && ap[j].sp == a.sp && Live(ap[j]);
    assert ap[j] in ap;
    assert ap[j] == a;
    LiveOnIs(ap, a.sp, a);
  }

  lemma DecidesAll(g: Grammar, states: seq<State>, states': seq<State>, acts: seq<seq<Action>>, acts': seq<seq<Action>>)
    requires g.Valid() && Lookaheads.LookaheadsExact(g, states, states') && |acts| == |acts'| == |states| == |states'| && Lalr1(g, states')
    requires forall q: nat :: q < |states| ==>
               Sound(g, q, states'[q], acts[q]) && NoneLost(g, q, states'[q], acts[q]) && Compressed(g, acts[q], acts'[q])
    ensures Decisive(g, states, acts')
  {
    hide Sound, NoneLost, Compressed, OneCandidate, Meaning, Candidate, Lookaheads.Lookahead;
    forall q: nat, x: nat, s: nat | q < |states| && g.Terminal(x) && HasShift(states[q], x, s)
      ensures Meaning(g, acts'[q], x) == Go(s)
    {
      ShiftCandidate(g, states, states', q, x, s);
      DoesCandidate(g, q, states'[q], acts[q], acts'[q], Action(x, SHIFT, s));
    }
    forall q: nat, r: nat, x: nat | Completes(g, states, q, r, x) ensures Meaning(g, acts'[q], x) == Reduce(r) {
      ReduceCandidate(g, states, states', q, r, x);
      DoesCandidate(g, q, states'[q], acts[q], acts'[q], Action(x, REDUCE, r));
    }
  }

  lemma ShiftCandidate(g: Grammar, states: seq<State>, states': seq<State>, q: nat, x: nat, s: nat)
    requires Lookaheads.LookaheadsExact(g, states, states') && q < |states| && HasShift(states[q], x, s)
    ensures q < |states'| && Candidate(g, q, states'[q], Action(x, SHIFT, s))
  {
    assert Lookaheads.SameCore(states[q], states'[q]);
    SameShift(states[q], states'[q], x, s);
  }

  lemma ReduceCandidate(g: Grammar, states: seq<State>, states': seq<State>, q: nat, r: nat, x: nat)
    requires Lookaheads.LookaheadsExact(g, states, states') && Completes(g, states, q, r, x)
    ensures q < |states'| && Candidate(g, q, states'[q], Action(x, REDUCE, r))
  {
    hide Lookaheads.Lookahead;
    var c := Config(r, |g.rules[r].rhs|);
    assert Lookaheads.SameCore(states[q], states'[q]);
    SameHas(states[q], states'[q], c);
    var k: nat :| k < |states'[q].cfp| && states'[q].cfp[k].cfg == c;
    assert Lookaheads.FollowExactAt(g, states, states', q, k);
  }

  // ------------------------------------------------------------ states without actions

  /** If every nonterminal starts with something, every state has an action. */
  lemma NoneStuck(g: Grammar, lam: Flags, first: Sets, states: seq<State>, states': seq<State>, q: nat)
    requires g.Valid() && Startable(g) && Collection(g, lam, first, states) && Lookaheads.LookaheadsExact(g, states, states')
    requires q < |states|
    ensures |states'| == |states| && !NoAction(g, q, states'[q])
  {
    if q == 0 {
      AcceptCandidate(g, states'[q]);
    } else {
      var c := SomeItem(g, lam, first, states, q);
      hide Startable, Collection, Lookaheads.LookaheadsExact, Has, Candidate, Lookaheads.Lookahead;
      if c.dot < |g.rules[c.rule].rhs| {
        CollectionComplete(g, lam, first, states);
        var s := ShiftExists(g, states, q, c);
        ShiftCandidate(g, states, states', q, g.rules[c.rule].rhs[c.dot], s);
      } else {
        AllLooked(g, lam, first, states, q, c);
        var t: nat :| g.Terminal(t) && Lookaheads.Lookahead(g, states, q, c, t);
        assert c == Config(c.rule, |g.rules[c.rule].rhs|);
        assert Completes(g, states, q, c.rule, t);
        ReduceCandidate(g, states, states', q, c.rule, t);
      }
    }
  }

  lemma SomeItem(g: Grammar, lam: Flags, first: Sets, states: seq<State>, q: nat) returns (c: Config)
    requires Collection(g, lam, first, states) && 0 < q < |states|
    ensures Has(states[q].cfp, c) && ValidConfig(g, c)
  {
    assert StateOK(g, lam, first, q, states[q]);
    c := states[q].basis[0];
    assert c in states[q].basis;
  }

  // ------------------------------------------------------------ qsort

  method InsertSet(s: seq<AxSet>, a: AxSet) returns (s': seq<AxSet>)
    requires LargestFirst(s)
    ensures LargestFirst(s') && multiset(s') == multiset(s) + multiset{a}
  {
    var j := 0;
    while j < |s| && s[j].nAction >= a.nAction
      invariant 0 <= j <= |s|
      invariant forall k :: 0 <= k < j ==> s[k].nAction >= a.nAction
    {
      j := j + 1;
    }
    s' := s[..j] + [a] + s[j..];
    InsertedCounts(s, j, a);
    InsertedOrder(s, j, a);
  }

  lemma InsertedCounts(s: seq<AxSet>, j: nat, a: AxSet)
    requires j <= |s|
    ensures multiset(s[..j] + [a] + s[j..]) == multiset(s) + multiset{a}
  {
    assert s == s[..j] + s[j..];
  }

  lemma InsertedOrder(s: seq<AxSet>, j: nat, a: AxSet)
    requires LargestFirst(s) && j <= |s| && (j < |s| ==> s[j].nAction < a.nAction)
    requires forall k :: 0 <= k < j ==> s[k].nAction >= a.nAction
    ensures LargestFirst(s[..j] + [a] + s[j..])
  {
  }

  /** Stands in for the library's `qsort`; `ReportTable` is correct for any order of equal sizes. */
  method SortSets(ax: seq<AxSet>) returns (s: seq<AxSet>)
    ensures multiset(s) == multiset(ax) && LargestFirst(s)
  {
    s := [];
    hide LargestFirst;
    assert LargestFirst(s) by { EmptySorted(); }
    var i := 0;
    while i < |ax|
      invariant 0 <= i <= |ax|
      invariant multiset(s) == multiset(ax[..i]) && LargestFirst(s)
    {
      assert ax[..i+1] == ax[..i] + [ax[i]];
      s := InsertSet(s, ax[i]);
      i := i + 1;
    }
    assert ax[..i] == ax;
  }

  lemma EmptySorted()
    ensures LargestFirst([])
  {
  }

  lemma SortedCovers(g: Grammar, acts: seq<seq<Action>>, ax: seq<AxSet>, s: seq<AxSet>)
    requires Covers(g, acts, ax) && multiset(s) == multiset(ax)
    ensures Covers(g, acts, s)
  {
    forall a ensures a in s <==> a in ax {
      assert a in s <==> a in multiset(s);
      assert a in ax <==> a in multiset(ax);
    }
    hide Trans;
    forall k | 0 <= k < |s| ensures s[k].stp < |acts| && s[k].nAction == |Trans(g, |acts|, acts[s[k].stp], s[k].isTkn)| {
      assert s[k] in s;
    }
    OnlyOnce(ax);
    forall k, m | 0 <= k < m < |s| ensures s[k].stp != s[m].stp || s[k].isTkn != s[m].isTkn {
      assert s[k] in s && s[m] in s;
      var i :| 0 <= i < |ax| && ax[i] == s[k];
      var j :| 0 <= j < |ax| && ax[j] == s[m];
      if s[k] == s[m] {
        TwiceInMultiset(s, k, m);
        assert false;
      }
      assert i < j || j < i;
    }
    forall q: nat, b: bool | q < |acts| ensures HasSet(s, q, b) {
      assert HasSet(ax, q, b);
      var i :| 0 <= i < |ax| && ax[i].stp == q && ax[i].isTkn == b;
      assert ax[i] in s;
    }
  }

  // ------------------------------------------------------------ the main program

  /** The grammars for which the generated parser is correct: the start symbol and the end marker
      are on no right-hand side, precedences come with associativities, and nothing overflows. */
  ghost predicate GrammarOK(g: Grammar) {
    && g.Valid() && g.StartNotOnRhs() && EndNotOnRhs(g) && PrecedenceHasAssoc(g)
    && ShortRules(g) && States.Small(g) && SmallTables(g) && g.nsymbol < -NO_OFFSET
  }

  /** `FindFirstSets` and `FindStates` */
  method FindAutomaton(g: Grammar) returns (lam: Flags, first: Sets, states: seq<State>, links: set<Link>)
    requires g.Valid() && States.Small(g)
    ensures Lookaheads.Built(g, lam, first, states, links)
  {
    hide Collection, FirstSets.LambdaSound, FirstSets.LambdaExact, FirstSets.FirstExact;
    var symbols := new FirstSets.SymbolTable(g);
    symbols.FindFirstSets();
    lam, first := symbols.lambda[..], symbols.firstset[..];
    var generator := new States.Generator(g, lam, first);
    generator.FindStates();
    states, links := generator.states, generator.links;
  }

  /** `FindLinks`, `FindFollowSets` and `FindActions` */
  method FindAllActions(g: Grammar, lam: Flags, first: Sets, states: seq<State>, links: set<Link>)
    returns (states': seq<State>, acts: Option<seq<seq<Action>>>, nconflict: nat)
    requires GrammarOK(g) && Lookaheads.Built(g, lam, first, states, links)
    ensures Lookaheads.LookaheadsExact(g, states, states') && |states'| == |states|
    ensures acts.None? <==> exists q: nat :: q < |states'| && NoAction(g, q, states'[q])
    ensures AllMarked(g, lam, first) ==> acts.Some?
    ensures acts.Some? ==> |acts.value| == |states| && nconflict == AllConflicts(acts.value)
    ensures acts.Some? ==> forall q: nat :: q < |states| ==>
              ActionsOf(g, q, states'[q], acts.value[q]) && StateReady(g, states', q) && FewActions(g, q, states'[q])
    ensures acts.Some? && NoPrecedence(g) ==> (nconflict == 0 <==> Lalr1(g, states'))
  {
    states' := Lookaheads.FindLookaheads(g, lam, first, states, links);
    assert Collection(g, lam, first, states);
    assert FirstSets.LambdaExact(g, lam) && FirstSets.FirstExact(g, first);
    assert |states'| == |states|;
    hide Lookaheads.Built, Lookaheads.LookaheadsExact, Collection, FewActions, ShiftsOK, DistinctItems, ActionsOf, NoAction;
    hide PrecedenceHasAssoc, ShortRules, States.Small, SmallTables, EndNotOnRhs, Startable, AllMarked;
    forall q: nat | q < |states| ensures StateReady(g, states', q) && FewActions(g, q, states'[q]) {
      CoreReady(g, lam, first, states, states', q);
      FewCandidates(g, states', q);
    }
    acts, nconflict := FindActions(g, states');
    if acts.Some? && NoPrecedence(g) { NoConflictAtAll(g, states', acts.value); }
    if AllMarked(g, lam, first) {
      MarkedStarts(g, lam, first);
      forall q: nat | q < |states'| ensures !NoAction(g, q, states'[q]) { NoneStuck(g, lam, first, states, states', q); }
    }
  }

  lemma {:induction false} ConflictSomewhere(acts: seq<seq<Action>>)
    ensures AllConflicts(acts) == 0 <==> forall q: nat :: q < |acts| ==> Conflicts(acts[q]) == 0
  {
    if acts != [] {
      var n := |acts| - 1;
      ConflictSomewhere(acts[..n]);
      if forall q: nat :: q < n ==> Conflicts(acts[..n][q]) == 0 {
        forall q: nat | q < |acts| ensures q < n ==> Conflicts(acts[q]) == 0 { assert q < n ==> acts[..n][q] == acts[q]; }
      }
    }
  }

  /** Without precedences Lemon reports no conflict exactly when the grammar is LALR(1). */
  lemma NoConflictAtAll(g: Grammar, states: seq<State>, acts: seq<seq<Action>>)
    requires NoPrecedence(g) && |acts| == |states| && forall q: nat :: q < |states| ==> ActionsOf(g, q, states[q], acts[q])
    ensures AllConflicts(acts) == 0 <==> Lalr1(g, states)
  {
    hide ActionsOf, NoPrecedence, OneCandidate, Conflicts;
    ConflictSomewhere(acts);
    forall q: nat | q < |states| ensures Conflicts(acts[q]) == 0 <==> OneCandidate(g, q, states[q]) {
      ConflictFree(g, q, states[q], acts[q]);
    }
  }

  /** `CompressTables` and `ReportTable` */
  method FindTables(g: Grammar, ghost states: seq<State>, ghost states': seq<State>, acts: seq<seq<Action>>)
    returns (acts': seq<seq<Action>>, t: ParseTables)
    requires GrammarOK(g) && Lookaheads.LookaheadsExact(g, states, states') && |acts| == |states| == |states'|
    requires forall q: nat :: q < |states| ==>
               ActionsOf(g, q, states'[q], acts[q]) && StateReady(g, states', q) && FewActions(g, q, states'[q])
    ensures Obeys(g, states, acts') && TablesAgree(g, acts', t)
    ensures |acts'| == |acts| && forall q: nat :: q < |acts| ==> Compressed(g, acts[q], acts'[q])
    ensures Lalr1(g, states') ==> Decisive(g, states, acts')
  {
    hide Lookaheads.LookaheadsExact, FewActions, Finished, DistinctItems, ActionsOf, Allowed, Compressible, Compressed, Sound;
    hide PrecedenceHasAssoc, ShortRules, States.Small, SmallTables, EndNotOnRhs, TablesAgree, Covers, LargestFirst, Listed, Meaning;
    hide Default;
    hide Decisive, Lalr1, NoneLost;
    forall q: nat | q < |states| ensures Compressible(g, acts[q]) && Sound(g, q, states'[q], acts[q]) && NoneLost(g, q, states'[q], acts[q]) {
      assert StateReady(g, states', q);
      ActionsCompressible(g, states', q, acts[q]);
      ActionsAreSound(g, states', q, acts[q]);
    }
    acts' := CompressTables(g, acts);
    if Lalr1(g, states') { DecidesAll(g, states, states', acts, acts'); }
    forall q: nat | q < |acts'| ensures Listed(g, acts'[q]) {
      CompressedListed(g, acts[q], acts'[q]);
    }
    var ax, iDflt := AxSets(g, acts');
    var sorted := SortSets(ax);
    SortedCovers(g, acts', ax, sorted);
    t := ReportTable(g, acts', sorted, iDflt);
    forall q: nat, x: nat | q < |states| && x < g.nsymbol ensures Allowed(g, states, q, x, Meaning(g, acts'[q], x)) {
      assert Compressible(g, acts[q]) && Sound(g, q, states'[q], acts[q]);
      assert Undefaulted(g, acts[q]) by { IsUndefaulted(g, acts[q]); }
      CompressedAllowed(g, states, states', q, acts[q], acts'[q], x);
    }
  }

  lemma IsUndefaulted(g: Grammar, ap: seq<Action>)
    requires Compressible(g, ap)
    ensures Undefaulted(g, ap)
  {
  }

  lemma CompressedListed(g: Grammar, ap: seq<Action>, after: seq<Action>)
    requires g.Valid() && Compressible(g, ap) && Compressed(g, ap, after)
    ensures Listed(g, after)
  {
    CompressedActions(g, ap, after);
  }

  /** A list of the tables: the candidates of the state, resolved and compressed. */
  ghost predicate MadeFrom(g: Grammar, q: nat, st: State, after: seq<Action>) {
    exists ap :: ActionsOf(g, q, st, ap) && Compressed(g, ap, after)
  }

  /** What is known of the states and the actions that Lemon makes. */
  ghost predicate Made(g: Grammar, lam: Flags, first: Sets, states: seq<State>, states': seq<State>, acts: seq<seq<Action>>) {
    && Automatic(g, lam, first, states) && Lookaheads.LookaheadsExact(g, states, states') && |acts| == |states'|
    && forall q: nat :: q < |acts| ==> MadeFrom(g, q, states'[q], acts[q])
  }

  lemma IsMade(g: Grammar, lam: Flags, first: Sets, states: seq<State>, states': seq<State>, acts: seq<seq<Action>>,
               t: ParseTables, info: seq<RuleInfo>)
    requires Ready(g, lam, first, states, acts, t, info) && Lookaheads.LookaheadsExact(g, states, states')
    requires |acts| == |states'| && forall q: nat :: q < |acts| ==> MadeFrom(g, q, states'[q], acts[q])
    ensures Made(g, lam, first, states, states', acts) && g.Valid()
  {
    hide Lookaheads.LookaheadsExact, MadeFrom, Collection;
  }

  /** Lemon: the tables are ready for the driver, unless some state has no action at all, which does not
      happen if every nonterminal derives something that begins with a terminal, or nothing.  For a grammar
      without precedences, no conflict is reported exactly when it is LALR(1), and then the tables do all
      that the automaton allows. */
  method Generate(g: Grammar)
    returns (ok: bool, t: ParseTables, info: seq<RuleInfo>, nconflict: nat, ghost lam: Flags, ghost first: Sets,
             ghost states: seq<State>, ghost states': seq<State>, ghost acts: seq<seq<Action>>)
    requires GrammarOK(g)
    ensures Collection(g, lam, first, states) && Lookaheads.LookaheadsExact(g, states, states')
    ensures !ok <==> exists q: nat :: q < |states'| && NoAction(g, q, states'[q])
    ensures Startable(g) ==> ok
    ensures ok ==> Ready(g, lam, first, states, acts, t, info)
    ensures ok ==> |acts| == |states'| && forall q: nat :: q < |acts| ==> MadeFrom(g, q, states'[q], acts[q])
    ensures ok && NoPrecedence(g) ==> (nconflict == 0 <==> Lalr1(g, states'))
    ensures ok && NoPrecedence(g) && nconflict == 0 ==> Decisive(g, states, acts)
  {
    hide Lookaheads.LookaheadsExact, Obeys, TablesAgree, Collection, PrecedenceHasAssoc, SmallTables, ActionsOf, FewActions, StateReady;
    hide Decisive, Lalr1, NoPrecedence, Startable, AllMarked, NoAction;
    var lam0, first0, states0, links := FindAutomaton(g);
    MarkedStarts(g, lam0, first0);
    var states1, acts0;
    states1, acts0, nconflict := FindAllActions(g, lam0, first0, states0, links);
    lam, first, states, states' := lam0, first0, states0, states1;
    info := seq(|g.rules|, r requires 0 <= r < |g.rules| => InfoOf(g.rules[r]));
    if acts0.None? {
      ok, t, acts := false, ParseTables(0, 0, 0, [], [], 0, [], 0, [], []), [];
      return;
    }
    var acts1, t0 := FindTables(g, states0, states1, acts0.value);
    forall q: nat | q < |acts1| ensures MadeFrom(g, q, states1[q], acts1[q]) {
      assert ActionsOf(g, q, states1[q], acts0.value[q]) && Compressed(g, acts0.value[q], acts1[q]);
    }
    ok, t, acts := true, t0, acts1;
  }

  /** A candidate that no other candidate beats is what the tables do on its lookahead. */
  lemma Unbeaten(g: Grammar, q: nat, st: State, after: seq<Action>, a: Action)
    requires MadeFrom(g, q, st, after) && Candidate(g, q, st, a) && a.sp < g.nsymbol && a.typ in {SHIFT, REDUCE}
    requires forall b, typ :: Candidate(g, q, st, b) ==> !GivesWay(g, b, a, typ)
    ensures Meaning(g, after, a.sp) == Does(a)
  {
    hide Candidate, GivesWay, Meaning;
    var ap :| ActionsOf(g, q, st, ap) && Compressed(g, ap, after);
    StaysLive(g, q, st, ap, a);
    LiveOnIs(ap, a.sp, a);
    OnLive(g, ap, a);
  }

  lemma OnLive(g: Grammar, ap: seq<Action>, a: Action)
    requires LiveOn(ap, a.sp) == Some(a)
    ensures Meaning(g, ap, a.sp) == Does(a)
  {
  }

  lemma StaysLive(g: Grammar, q: nat, st: State, ap: seq<Action>, a: Action)
    requires ActionsOf(g, q, st, ap) && Candidate(g, q, st, a)
    requires forall b, typ :: Candidate(g, q, st, b) ==> !GivesWay(g, b, a, typ)
    ensures OneEach(ap) && a in ap && Live(a)
  {
    hide Candidate, GivesWay;
    var s :| SortedCandidates(g, q, st, s) && Resolved(g, s, ap);
    assert a in s;
    var i: nat :| i < |s| && s[i] == a;
    assert ResolvedAt(g, s, ap, i);
    forall j | 0 <= j < |s| ensures !GivesWay(g, s[j], a, ap[i].typ) { assert s[j] in s; }
    assert ap[i] == a;
  }

  lemma AcyclicEnds(g: Grammar, states: seq<State>, acts: seq<seq<Action>>, d: nat, input: Symbols)
    ensures Acyclic(g) ==> EndsOn(g, states, acts, d, input)
  {
    hide *;
    if Acyclic(g) {
      AcyclicNoCycle(g, states, acts, d);
      NoCycleEnds(g, states, acts, d, input);
    }
  }

  /** A parser generated from a grammar accepts only sentences of the grammar.  When no conflict was
      reported and no precedence given, it fails on no sentence, and accepts every sentence but the
      empty one, in at most n + 1 rounds for each token and with room for n symbols more than the
      input has, n being the length of any derivation of the sentence.  A failure comes at the first
      token after which the input cannot be completed to a sentence any more.  If no nonterminal
      derives itself no limit on the rounds is needed, whatever conflicts and precedences there are. */
  method GenerateAndParse(g: Grammar, input: seq<nat>, yystackdepth: nat, steps: Option<nat>)
    returns (outcome: Option<Outcome>, nconflict: nat, ghost k: nat)
    requires GrammarOK(g) && yystackdepth > 0
    requires forall k :: 0 <= k < |input| ==> 0 < input[k] < g.nterminal
    requires steps.None? ==> Acyclic(g)
    ensures Startable(g) ==> outcome.Some?
    ensures outcome == Some(OutOfSteps) ==> steps.Some?
    ensures outcome == Some(Accepted) ==> Derives(g, [g.start], input)
    ensures NoPrecedence(g) && nconflict == 0 && outcome == Some(Failed) ==> !Derives(g, [g.start], input)
    ensures NoPrecedence(g) && nconflict == 0 && outcome.Some? && input != [] ==>
              forall n: nat :: DerivesIn(g, [g.start], input, n) && Above(steps, n) && |input| + n + 1 < yystackdepth ==>
                outcome == Some(Accepted)
    ensures outcome == Some(Failed) ==> k <= |input| && (Productive(g) ==> Completable(g, input[..k]))
    ensures NoPrecedence(g) && nconflict == 0 && outcome == Some(Failed) && k < |input| ==> !Completable(g, input[..k+1])
  {
    k := 0;
    var ok, t, info, conflicts, lam, first, states, states', acts := Generate(g);
    nconflict := conflicts;
    if !ok { return None, nconflict, k; }
    hide Ready, Running, DerivesIn, Rightmost, Decisive, NoPrecedence, Startable, Productive, Completable, NoAction, Lalr1, Lookaheads.LookaheadsExact, Collection;
    var parser := new Parser(t, info, yystackdepth, g, lam, first, states, acts);
    AcyclicEnds(g, states, acts, yystackdepth, input);
    var o;
    o, k := parser.ParseAll(input, steps);
    outcome := Some(o);
  }

  /** For a productive grammar without precedences for which no conflict is reported, the generated
      parser decides: it ends on every input, with no limit on its rounds, and unless the stack is too
      low for a sentence it accepts exactly the nonempty sentences. */
  method GenerateAndDecide(g: Grammar, input: seq<nat>, yystackdepth: nat) returns (outcome: Option<Outcome>, nconflict: nat)
    requires GrammarOK(g) && NoPrecedence(g) && Productive(g) && yystackdepth > 0
    requires input != [] && forall k :: 0 <= k < |input| ==> 0 < input[k] < g.nterminal
    ensures outcome.Some? <==> nconflict == 0
    ensures outcome.Some? ==> outcome.value in {Accepted, Failed, Overflowed}
    ensures outcome == Some(Accepted) ==> Derives(g, [g.start], input)
    ensures outcome == Some(Failed) ==> !Derives(g, [g.start], input)
    ensures outcome == Some(Overflowed) ==> forall n: nat :: DerivesIn(g, [g.start], input, n) ==> yystackdepth <= |input| + n + 1
  {
    ProductiveStarts(g);
    var ok, t, info, conflicts, lam, first, states, states', acts := Generate(g);
    nconflict := conflicts;
    if nconflict > 0 { return None, nconflict; }
    hide Ready, Running, DerivesIn, Rightmost, Decisive, NoPrecedence, Startable, Productive, Completable, NoAction, Lalr1;
    hide Lookaheads.LookaheadsExact, Collection;
    var parser := new Parser(t, info, yystackdepth, g, lam, first, states, acts);
    DecisiveNoCycle(g, lam, first, states, acts, yystackdepth);
    NoCycleEnds(g, states, acts, yystackdepth, input);
    ghost var k;
    var o;
    o, k := parser.ParseAll(input, None);
    outcome := Some(o);
  }
}
