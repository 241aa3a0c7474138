/** What the precedences and associativities of a grammar mean for the finished tables, in terms of the grammar and of
    the items of a state alone. */
module Precedence {
  import opened Shared
  import opened Grammars
  import opened BitSets
  import opened FirstSets
  import opened LR0
  import opened Closure
  import opened Automaton
  import opened Actions
  import opened Compress
  import opened Lemon

  // ------------------------------------------------------------ precedence symbols

  /** Symbol k is the first on the right-hand side that has a precedence. */
  ghost predicate FirstRanked(g: Grammar, rhs: seq<nat>, k: nat)
    requires g.Valid() && forall i :: 0 <= i < |rhs| ==> rhs[i] < g.nsymbol
  {
    k < |rhs| && g.prec[rhs[k]] >= 0 && forall j: nat :: j < k ==> g.prec[rhs[j]] < 0
  }

  /** A rule keeps the precedence symbol it was written with; otherwise it gets the first symbol with a precedence on
      its right-hand side, if there is one. */
  ghost predicate Ranked(g: Grammar, before: Rule, after: Rule)
    requires g.Valid() && g.ValidRule(before)
  {
    && after.lhs == before.lhs && after.rhs == before.rhs
    && (before.precsym.Some? ==> after.precsym == before.precsym)
    && (before.precsym == None ==>
          forall x: nat :: after.precsym == Some(x) <==> exists k: nat :: FirstRanked(g, before.rhs, k) && before.rhs[k] == x)
  }

  /** `FindRulePrecedences` */
  method FindRulePrecedences(g: Grammar) returns (g': Grammar)
    requires g.Valid()
    ensures g'.Valid() && g' == g.(rules := g'.rules) && |g'.rules| == |g.rules|
    ensures forall r :: 0 <= r < |g.rules| ==> g.ValidRule(g.rules[r]) && Ranked(g, g.rules[r], g'.rules[r])
  {
    var rules := g.rules;
    for rp := 0 to |rules|
      invariant |rules| == |g.rules|
      invariant forall r :: 0 <= r < rp ==> g.ValidRule(g.rules[r]) && Ranked(g, g.rules[r], rules[r])
      invariant forall r :: rp <= r < |rules| ==> rules[r] == g.rules[r]
    {
      assert g.ValidRule(g.rules[rp]);
      if rules[rp].precsym == None {
        var i := 0;
        while i < |rules[rp].rhs| && g.prec[rules[rp].rhs[i]] < 0
          invariant 0 <= i <= |rules[rp].rhs|
          invariant forall j :: 0 <= j < i ==> g.prec[rules[rp].rhs[j]] < 0
        {
          i := i + 1;
        }
        if i < |rules[rp].rhs| {
          assert FirstRanked(g, rules[rp].rhs, i);
          rules := rules[rp := rules[rp].(precsym := Some(rules[rp].rhs[i]))];
        }
      }
    }
    g' := g.(rules := rules);
    forall r | 0 <= r < |rules| ensures g'.ValidRule(rules[r]) {
      RankedValid(g, g.rules[r], rules[r]);
    }
  }

  lemma RankedValid(g: Grammar, before: Rule, after: Rule)
    requires g.Valid() && g.ValidRule(before) && Ranked(g, before, after)
    ensures g.ValidRule(after)
  {
  }

  // ------------------------------------------------------------ what they decide

  /** The precedence of a rule is that of its precedence symbol. */
  ghost function PrecOf(g: Grammar, r: nat): int
    requires g.Valid() && r < |g.rules|
  {
    assert g.ValidRule(g.rules[r]);
    if g.rules[r].precsym.Some? then g.prec[g.rules[r].precsym.value] else -1
  }

  /** Precedence decides for the rule: both have one, and the rule's is higher, or it is the same and the symbol
      is left-associative. */
  ghost predicate RuleFirst(g: Grammar, t: nat, r: nat)
    requires g.Valid() && t < g.nsymbol && r < |g.rules|
  {
    0 <= g.prec[t] && 0 <= PrecOf(g, r) && (g.prec[t] < PrecOf(g, r) || (g.prec[t] == PrecOf(g, r) && g.assoc[t] == LEFT))
  }

  /** Precedence decides for the symbol: both have one, and the symbol's is higher, or it is the same and the symbol
      is right-associative. */
  ghost predicate SymbolFirst(g: Grammar, t: nat, r: nat)
    requires g.Valid() && t < g.nsymbol && r < |g.rules|
  {
    0 <= g.prec[t] && 0 <= PrecOf(g, r) && (g.prec[t] > PrecOf(g, r) || (g.prec[t] == PrecOf(g, r) && g.assoc[t] == RIGHT))
  }

  /** Of two rules the first is preferred: it has the higher precedence, or, where precedence does not decide, it
      comes first in the grammar. */
  ghost predicate RuleBefore(g: Grammar, r: nat, r': nat)
    requires g.Valid() && r < |g.rules| && r' < |g.rules|
  {
    if 0 <= PrecOf(g, r) && 0 <= PrecOf(g, r') && PrecOf(g, r) != PrecOf(g, r') then PrecOf(g, r) > PrecOf(g, r') else r < r'
  }

  lemma PrecIs(g: Grammar, t: nat, r: nat)
    requires g.Valid() && t < g.nsymbol && r < |g.rules|
    ensures SymPrec(g, t) == g.prec[t] && SymAssoc(g, t) == g.assoc[t] && RulePrec(g, r) == PrecOf(g, r)
  {
    assert g.ValidRule(g.rules[r]);
  }

  /** A shift is what the tables do unless precedence decides for one of the rules that the state could reduce by. */
  lemma ShiftWins(g: Grammar, q: nat, st: State, after: seq<Action>, t: nat, s: nat)
    requires g.Valid() && PrecedenceHasAssoc(g) && MadeFrom(g, q, st, after) && t < g.nterminal && HasShift(st, t, s)
    requires forall r: nat :: r < |g.rules| && ReducesOn(g, st, t, r) ==> !RuleFirst(g, t, r)
    ensures Meaning(g, after, t) == Go(s)
  {
    var act := Action(t, SHIFT, s);
    forall b, typ | Candidate(g, q, st, b) ensures !GivesWay(g, b, act, typ) {
      if b.typ == REDUCE && b.sp == t {
        assert b.x < |g.rules|;
        PrecIs(g, t, b.x);
        assert !RuleFirst(g, t, b.x);
      }
    }
    hide Candidate, GivesWay, Meaning, MadeFrom;
    assert Candidate(g, q, st, act) by { IsShift(g, q, st, t, s); }
    Unbeaten(g, q, st, after, act);
  }

  lemma IsShift(g: Grammar, q: nat, st: State, t: nat, s: nat)
    requires HasShift(st, t, s)
    ensures Candidate(g, q, st, Action(t, SHIFT, s))
  {
  }

  /** A rule is what the tables reduce by where precedence decides for it against every shift, and it is preferred to
      every other rule. */
  lemma RuleWins(g: Grammar, q: nat, st: State, after: seq<Action>, t: nat, r: nat)
    requires g.Valid() && MadeFrom(g, q, st, after) && t < g.nterminal && r < |g.rules| && ReducesOn(g, st, t, r)
    requires forall s: nat :: HasShift(st, t, s) ==> RuleFirst(g, t, r)
    requires forall r': nat :: r' < |g.rules| && ReducesOn(g, st, t, r') && r' != r ==> RuleBefore(g, r, r')
    ensures Meaning(g, after, t) == Reduce(r)
  {
    var act := Action(t, REDUCE, r);
    PrecIs(g, t, r);
    forall b, typ | Candidate(g, q, st, b) ensures !GivesWay(g, b, act, typ) {
      if b.typ == REDUCE && b.sp == t {
        assert b.x < |g.rules|;
        PrecIs(g, t, b.x);
        assert b.x != r ==> RuleBefore(g, r, b.x);
      } else if b.typ == SHIFT && b.sp == t {
        assert RuleFirst(g, t, r);
      }
    }
    hide Candidate, GivesWay, Meaning, MadeFrom;
    assert Candidate(g, q, st, act) by { IsReduction(g, q, st, t, r); }
    Unbeaten(g, q, st, after, act);
  }

  lemma IsReduction(g: Grammar, q: nat, st: State, t: nat, r: nat)
    requires t < g.nterminal && ReducesOn(g, st, t, r)
    ensures Candidate(g, q, st, Action(t, REDUCE, r))
  {
  }

  /** One shift against one rule: the rule if precedence decides for it, and otherwise the shift. */
  lemma ShiftOrRule(g: Grammar, q: nat, st: State, after: seq<Action>, t: nat, s: nat, r: nat)
    requires g.Valid() && PrecedenceHasAssoc(g) && MadeFrom(g, q, st, after) && t < g.nterminal && r < |g.rules|
    requires HasShift(st, t, s) && ReducesOn(g, st, t, r)
    requires forall r': nat :: r' < |g.rules| && ReducesOn(g, st, t, r') ==> r' == r
    ensures Meaning(g, after, t) == if RuleFirst(g, t, r) then Reduce(r) else Go(s)
    ensures SymbolFirst(g, t, r) ==> Meaning(g, after, t) == Go(s)
  {
    hide MadeFrom, ReducesOn, HasShift, Meaning;
    if RuleFirst(g, t, r) {
      RuleWins(g, q, st, after, t, r);
    } else {
      ShiftWins(g, q, st, after, t, s);
    }
  }

  /** Two rules, and no shift: the one with the higher precedence, and otherwise the first. */
  lemma RuleOrRule(g: Grammar, q: nat, st: State, after: seq<Action>, t: nat, r: nat, r': nat)
    requires g.Valid() && MadeFrom(g, q, st, after) && t < g.nterminal && r < |g.rules| && r' < |g.rules| && r != r'
    requires ReducesOn(g, st, t, r) && ReducesOn(g, st, t, r') && forall s: nat :: !HasShift(st, t, s)
    requires forall r'': nat :: r'' < |g.rules| && ReducesOn(g, st, t, r'') ==> r'' == r || r'' == r'
    ensures Meaning(g, after, t) == Reduce(if RuleBefore(g, r, r') then r else r')
  {
    hide MadeFrom, ReducesOn, HasShift, Meaning;
    if RuleBefore(g, r, r') {
      RuleWins(g, q, st, after, t, r);
    } else {
      assert RuleBefore(g, r', r);
      RuleWins(g, q, st, after, t, r');
    }
  }

  /** Where a shift and a rule are the only candidates on a symbol, the rule is left as a conflict, which is counted,
      exactly if precedence decides for neither. */
  lemma ConflictOnPair(g: Grammar, q: nat, st: State, ap: seq<Action>, t: nat, s: nat, r: nat)
    requires g.Valid() && PrecedenceHasAssoc(g) && ActionsOf(g, q, st, ap) && t < g.nterminal && r < |g.rules|
    requires HasShift(st, t, s) && ReducesOn(g, st, t, r)
    requires forall r': nat :: r' < |g.rules| && ReducesOn(g, st, t, r') ==> r' == r
    requires forall s': nat :: HasShift(st, t, s') ==> s' == s
    ensures Action(t, CONFLICT, r) in ap <==> !RuleFirst(g, t, r) && !SymbolFirst(g, t, r)
  {
    var l: seq<Action> :| SortedCandidates(g, q, st, l) && Resolved(g, l, ap) && ChampionsLeft(g, l, ap, |l|);
    hide *;
    var i, j := PairListed(g, q, st, l, t, s, r);
    var m := SomeAlive(g, l, ap, i);
    TIsSymbol(g, t);
    PairGives(g, t, s, r);
    PairEnds(g, l, ap, t, s, r, i, j, m);
  }

  lemma TIsSymbol(g: Grammar, t: nat)
    requires g.Valid() && t < g.nterminal
    ensures t < g.nsymbol
  {
  }

  lemma PairListed(g: Grammar, q: nat, st: State, l: seq<Action>, t: nat, s: nat, r: nat) returns (i: nat, j: nat)
    requires SortedCandidates(g, q, st, l) && t < g.nterminal <= g.start && HasShift(st, t, s) && ReducesOn(g, st, t, r)
    requires forall r': nat :: r' < |g.rules| && ReducesOn(g, st, t, r') ==> r' == r
    requires forall s': nat :: HasShift(st, t, s') ==> s' == s
    ensures i < |l| && j < |l| && l[i] == Action(t, REDUCE, r) && l[j] == Action(t, SHIFT, s)
    ensures forall k: nat :: k < |l| && l[k].sp == t ==> l[k] in {l[i], l[j]}
  {
    var shift, reduce := Action(t, SHIFT, s), Action(t, REDUCE, r);
    IsShift(g, q, st, t, s);
    IsReduction(g, q, st, t, r);
    assert shift in l && reduce in l;
    i :| i < |l| && l[i] == reduce;
    j :| j < |l| && l[j] == shift;
    hide WellSorted, HasShift;
    forall k: nat | k < |l| && l[k].sp == t ensures l[k] in {shift, reduce} {
      assert l[k] in l && Candidate(g, q, st, l[k]);
      assert l[k].typ == REDUCE ==> ReducesOn(g, st, t, l[k].x);
    }
  }

  lemma SomeAlive(g: Grammar, l: seq<Action>, ap: seq<Action>, i: nat) returns (m: nat)
    requires Resolved(g, l, ap) && i < |l|
    ensures |ap| == |l| && OneEach(ap) && forall k: nat :: k < |l| ==> ResolvedAt(g, l, ap, k)
    ensures m < |l| && ap[m].sp == l[i].sp && Live(ap[m])
  {
    hide ResolvedAt, OneEach;
    assert GroupAlive(ap, l[i].sp);
    m :| m < |ap| && ap[m].sp == l[i].sp && Live(ap[m]);
  }

  /** The only ways in which one of the two gives way. */
  lemma PairGives(g: Grammar, t: nat, s: nat, r: nat)
    requires g.Valid() && PrecedenceHasAssoc(g) && t < g.nsymbol && r < |g.rules|
    ensures var shift, reduce := Action(t, SHIFT, s), Action(t, REDUCE, r); forall typ ::
      && (GivesWay(g, shift, reduce, typ) <==> !RuleFirst(g, t, r) && typ == if SymbolFirst(g, t, r) then RD_RESOLVED else CONFLICT)
      && (GivesWay(g, reduce, shift, typ) <==> RuleFirst(g, t, r) && typ == SH_RESOLVED)
      && !GivesWay(g, shift, shift, typ) && !GivesWay(g, reduce, reduce, typ)
    ensures RuleFirst(g, t, r) ==> !SymbolFirst(g, t, r)
    ensures forall a, b, typ :: GivesWay(g, a, b, typ) ==> a.sp == b.sp
  {
    PrecIs(g, t, r);
  }

  lemma PairEnds(g: Grammar, l: seq<Action>, ap: seq<Action>, t: nat, s: nat, r: nat, i: nat, j: nat, m: nat)
    requires g.Valid() && t < g.nsymbol && r < |g.rules| && |ap| == |l|
    requires i < |l| && j < |l| && m < |l| && l[i] == Action(t, REDUCE, r) && l[j] == Action(t, SHIFT, s)
    requires forall k: nat :: k < |l| && l[k].sp == t ==> l[k] in {l[i], l[j]}
    requires forall k: nat :: k < |l| ==> ResolvedAt(g, l, ap, k)
    requires ap[m].sp == t && Live(ap[m]) && OneEach(ap)
    requires forall typ ::
      && (GivesWay(g, l[j], l[i], typ) <==> !RuleFirst(g, t, r) && typ == if SymbolFirst(g, t, r) then RD_RESOLVED else CONFLICT)
      && (GivesWay(g, l[i], l[j], typ) <==> RuleFirst(g, t, r) && typ == SH_RESOLVED)
      && !GivesWay(g, l[j], l[j], typ) && !GivesWay(g, l[i], l[i], typ)
    requires RuleFirst(g, t, r) ==> !SymbolFirst(g, t, r)
    requires forall a, b, typ :: GivesWay(g, a, b, typ) ==> a.sp == b.sp
    ensures Action(t, CONFLICT, r) in ap <==> !RuleFirst(g, t, r) && !SymbolFirst(g, t, r)
  {
    hide GivesWay, RuleFirst, SymbolFirst;
    forall k: nat | k < |l| && l[k].sp == t
      ensures ap[k] == l[k] || ap[k] == (if l[k] == l[i] then l[i].(typ := if SymbolFirst(g, t, r) then RD_RESOLVED else CONFLICT)
                                         else l[j].(typ := SH_RESOLVED))
      ensures ap[k] != l[k] ==> (l[k] == l[i] <==> !RuleFirst(g, t, r))
    {
      assert ResolvedAt(g, l, ap, k);
    }
    forall k: nat | k < |ap| && ap[k] == Action(t, CONFLICT, r) ensures !RuleFirst(g, t, r) && !SymbolFirst(g, t, r) {
      assert ResolvedAt(g, l, ap, k);
    }
    if !RuleFirst(g, t, r) {
      assert ap[j] == l[j] && Live(ap[j]);
      assert i != j && !Live(ap[i]);
    }
  }
}
