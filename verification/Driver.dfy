/** The driver of the generated parser (`lempar.c`): a stack machine that reads nothing but the
    packed tables. */
module Driver {
  import opened Shared
  import opened Grammars
  import opened BitSets
  import opened LR0
  import opened Closure
  import opened Automaton
  import opened Actions
  import opened Compress
  import opened Tables
  import opened Lookaheads
  import opened Viable
  import opened Halting
  import opened Cycles
  import opened TableRuns

  datatype StackEntry = StackEntry(stateno: nat, major: nat)

  /** An entry of `yyRuleInfo`; nrhs is an unsigned char. */
  datatype RuleInfo = RuleInfo(lhs: nat, nrhs: nat)

  function InfoOf(rule: Rule): RuleInfo {
    RuleInfo(rule.lhs, |rule.rhs| % 256)
  }

  /** The table of rules tells how much to pop exactly for rules of at most 255 symbols. */
  lemma RuleInfoExact(rule: Rule)
    ensures InfoOf(rule).nrhs == |rule.rhs| <==> |rule.rhs| < 256
  {
  }

  /** The end marker `$` cannot be written in a rule. */
  ghost predicate EndNotOnRhs(g: Grammar) {
    forall r, k :: 0 <= r < |g.rules| && 0 <= k < |g.rules[r].rhs| ==> g.rules[r].rhs[k] != 0
  }

  ghost predicate ShortRules(g: Grammar) {
    forall r :: 0 <= r < |g.rules| ==> |g.rules[r].rhs| < 256
  }

  // ------------------------------------------------------------ the tables fit the automaton

  /** What the driver does in state q on symbol x is allowed by the automaton, every transition on
      a nonterminal is taken, and only the end of the input allows a reduction to the start symbol. */
  ghost predicate Allowed(g: Grammar, states: seq<State>, q: nat, x: nat, d: Doing)
    requires q < |states|
  {
    && (match d
        case Go(s) => HasShift(states[q], x, s)
        case Reduce(r) =>
          x < g.nterminal ==> r < |g.rules| && Has(states[q].cfp, Config(r, |g.rules[r].rhs|))
                              && (g.rules[r].lhs == g.start ==> x == 0)
        case Accept => q == 0 && x == g.start
        case SyntaxError => true)
    && (forall s: nat :: x >= g.nterminal && HasShift(states[q], x, s) ==> d == Go(s))
    && (q == 0 && x == g.start ==> d == Accept)
  }

  ghost predicate Obeys(g: Grammar, states: seq<State>, acts: seq<seq<Action>>) {
    |acts| == |states| &&
    forall q: nat, x: nat :: q < |states| && x < g.nsymbol ==> Allowed(g, states, q, x, Meaning(g, acts[q], x))
  }

  // ------------------------------------------------------------ the stack

  ghost predicate Path(states: seq<State>, stack: seq<StackEntry>) {
    && 0 < |stack| && 0 < |states| && stack[0].stateno == 0
    && (forall i :: 0 <= i < |stack| ==> stack[i].stateno < |states|)
    && forall i: nat :: i < |stack| - 1 ==> Transition(states, stack, i)
  }

  ghost predicate Transition(states: seq<State>, stack: seq<StackEntry>, i: nat)
    requires i + 1 < |stack| && stack[i].stateno < |states|
  {
    HasShift(states[stack[i].stateno], stack[i+1].major, stack[i+1].stateno)
  }

  /** The symbols on the stack, above its first entry. */
  function Majors(stack: seq<StackEntry>): Symbols {
    if |stack| <= 1 then [] else Majors(stack[..|stack|-1]) + [stack[|stack|-1].major]
  }

  lemma MajorsPush(stack: seq<StackEntry>, e: StackEntry)
    requires stack != []
    ensures Majors(stack + [e]) == Majors(stack) + [e.major]
  {
    assert (stack + [e])[..|stack|] == stack;
  }

  lemma TakeFront(u: Symbols, v: Symbols)
    ensures (u + v)[..|u + v|-|v|] == u
  {
  }

  lemma Popped(a: seq<StackEntry>, stack: seq<StackEntry>, n: nat)
    requires n <= |stack| <= |a| && stack == a[..|stack|]
    ensures a[..|stack|-n] == stack[..|stack|-n]
  {
  }

  lemma PathPush(states: seq<State>, stack: seq<StackEntry>, e: StackEntry)
    requires Path(states, stack) && e.stateno < |states|
    requires HasShift(states[stack[|stack|-1].stateno], e.major, e.stateno)
    ensures Path(states, stack + [e])
  {
    var s := stack + [e];
    forall i: nat | i < |s| - 1 ensures Transition(states, s, i) {
      if i < |stack| - 1 { assert Transition(states, stack, i); }
    }
  }

  lemma PathPop(states: seq<State>, stack: seq<StackEntry>)
    requires Path(states, stack) && |stack| > 1
    ensures Path(states, stack[..|stack|-1])
  {
    var s := stack[..|stack|-1];
    forall i: nat | i < |s| - 1 ensures Transition(states, s, i) { assert Transition(states, stack, i); }
  }

  // ------------------------------------------------------------ facts about the automaton

  ghost predicate Automatic(g: Grammar, lam: Flags, first: Sets, states: seq<State>) {
    g.Valid() && g.StartNotOnRhs() && Collection(g, lam, first, states)
  }

  /** A configuration whose dot has moved belongs to the basis. */
  lemma MovedIsBasis(g: Grammar, lam: Flags, first: Sets, states: seq<State>, q: nat, c: Config)
    requires Automatic(g, lam, first, states) && q < |states|
    requires Has(states[q].cfp, c) && c.dot > 0
    ensures c in states[q].basis
  {
    var st := states[q];
    assert StateOK(g, lam, first, q, st);
    var t := set d | d in AllConfigs(g) && (d in st.basis || d.dot == 0);
    hide StrictlySorted, FollowStart, LinksWithin, DistinctItems;
    forall d | d in st.basis ensures d in t {
      assert Has(st.cfp, d);
      InAllConfigs(g, d);
    }
    forall a, d | a in t && Predicts(g, a, d) ensures d in t { InAllConfigs(g, d); }
    assert ClosedUnder(g, t);
    var i :| 0 <= i < |st.cfp| && st.cfp[i].cfg == c;
    assert st.cfp[i].cfg in t;
  }

  /** Any other configuration is predicted by one of the state. */
  lemma OtherIsPredicted(g: Grammar, lam: Flags, first: Sets, states: seq<State>, q: nat, c: Config)
    requires Automatic(g, lam, first, states) && q < |states|
    requires Has(states[q].cfp, c) && c !in states[q].basis
    ensures exists d :: Has(states[q].cfp, d) && Predicts(g, d, c)
  {
    var st := states[q];
    assert StateOK(g, lam, first, q, st);
    hide StrictlySorted, FollowStart, LinksWithin, DistinctItems, Predicts, StartBasis, KernelBasis;
    var t := set i | 0 <= i < |st.cfp| && st.cfp[i].cfg != c :: st.cfp[i].cfg;
    forall d | d in st.basis ensures d in t { assert Has(st.cfp, d); }
    var i :| 0 <= i < |st.cfp| && st.cfp[i].cfg == c;
    assert ClosedUnder(g, t) ==> c in t;
    assert c !in t;
    var a, d :| a in t && Predicts(g, a, d) && d !in t;
    var k :| 0 <= k < |st.cfp| && st.cfp[k].cfg == a;
    assert Has(st.cfp, a) && Has(st.cfp, d);
    assert d == c;
  }

  /** The first state is not the target of a shift. */
  lemma NotToStart(g: Grammar, lam: Flags, first: Sets, states: seq<State>, q: nat, x: nat, t: nat)
    requires Automatic(g, lam, first, states) && q < |states| && HasShift(states[q], x, t)
    ensures 0 < t < |states|
  {
    assert ShiftsOK(g, states, q) by { assert Finished(g, states, q); }
    hide ClosureOf, StrictlySorted, Finished;
    assert IsGoto(g, states[q].cfp, x, states[t].basis);
    var d := states[t].basis[0];
    assert d in states[t].basis;
    assert InGoto(g, states[q].cfp, x, d);
    assert StateOK(g, lam, first, t, states[t]);
  }

  /** A configuration with its dot moved came over the shift from the state below. */
  lemma CameFrom(g: Grammar, lam: Flags, first: Sets, states: seq<State>, p: nat, x: nat, q: nat, c: Config)
    requires Automatic(g, lam, first, states) && p < |states| && HasShift(states[p], x, q) && q < |states|
    requires Has(states[q].cfp, c) && c.dot > 0
    ensures Has(states[p].cfp, Config(c.rule, c.dot - 1)) && Before(g, Config(c.rule, c.dot - 1), x)
  {
    MovedIsBasis(g, lam, first, states, q, c);
    assert ShiftsOK(g, states, p) by { assert Finished(g, states, p); }
    hide StatesOK, Finished;
    assert IsGoto(g, states[p].cfp, x, states[q].basis);
    assert InGoto(g, states[p].cfp, x, c);
    var i :| 0 <= i < |states[p].cfp| && Before(g, states[p].cfp[i].cfg, x) && c == Advance(states[p].cfp[i].cfg);
    assert states[p].cfp[i].cfg == Config(c.rule, c.dot - 1);
  }

  // ------------------------------------------------------------ the handle is on the stack

  /** The symbols before the dot of a configuration of the top state are on top of the stack, and
      the state below them has the configuration with the dot at the start. */
  lemma {:induction false} HandleOnTop(g: Grammar, lam: Flags, first: Sets, states: seq<State>, stack: seq<StackEntry>, c: Config)
    requires Automatic(g, lam, first, states) && Path(states, stack)
    requires Has(states[stack[|stack|-1].stateno].cfp, c) && ValidConfig(g, c)
    ensures c.dot < |stack|
    ensures Path(states, stack[..|stack|-c.dot])
    ensures Has(states[stack[|stack|-1-c.dot].stateno].cfp, Config(c.rule, 0))
    ensures Majors(stack) == Majors(stack[..|stack|-c.dot]) + g.rules[c.rule].rhs[..c.dot]
    decreases c.dot
  {
    hide Collection, Has, Majors;
    var n := |stack| - 1;
    if c.dot == 0 {
      assert stack[..|stack|] == stack;
    } else {
      if n == 0 {
        NotAtBottom(g, lam, first, states, c);
        assert false;
      } else {
        var below, c' := stack[..n], Config(c.rule, c.dot - 1);
        assert Transition(states, stack, n - 1);
        CameFrom(g, lam, first, states, stack[n-1].stateno, stack[n].major, stack[n].stateno, c);
        PathPop(states, stack);
        hide Path;
        HandleOnTop(g, lam, first, states, below, c');
        assert below[..|below|-c'.dot] == stack[..|stack|-c.dot];
        assert below + [stack[n]] == stack;
        MajorsPush(below, stack[n]);
        assert g.rules[c.rule].rhs[..c.dot] == g.rules[c.rule].rhs[..c'.dot] + [stack[n].major];
      }
    }
  }

  lemma NotAtBottom(g: Grammar, lam: Flags, first: Sets, states: seq<State>, c: Config)
    requires Automatic(g, lam, first, states) && Has(states[0].cfp, c)
    ensures c.dot == 0
  {
    assert StateOK(g, lam, first, 0, states[0]);
    if c.dot > 0 { MovedIsBasis(g, lam, first, states, 0, c); }
  }

  /** Where a rule starts, the automaton goes on after its left-hand side, unless it is the start
      symbol at the bottom of the stack. */
  lemma GotoExists(g: Grammar, lam: Flags, first: Sets, states: seq<State>, stack: seq<StackEntry>, r: nat)
    requires Automatic(g, lam, first, states) && Path(states, stack) && r < |g.rules|
    requires Has(states[stack[|stack|-1].stateno].cfp, Config(r, 0))
    ensures g.rules[r].lhs == g.start ==> |stack| == 1
    ensures g.rules[r].lhs != g.start ==> ShiftsOn(states[stack[|stack|-1].stateno], g.rules[r].lhs)
  {
    var q, n, c := stack[|stack|-1].stateno, |stack| - 1, Config(r, 0);
    if c in states[q].basis {
      assert StateOK(g, lam, first, q, states[q]);
      if n > 0 {
        assert Transition(states, stack, n - 1);
        NotToStart(g, lam, first, states, stack[n-1].stateno, stack[n].major, q);
        assert false;
      }
    } else {
      OtherIsPredicted(g, lam, first, states, q, c);
      hide StatesOK, ShiftsOK, ShiftsOn, Path;
      var d :| Has(states[q].cfp, d) && Predicts(g, d, c);
      var k: nat :| k < |states[q].cfp| && states[q].cfp[k].cfg == d;
      assert Finished(g, states, q);
      assert Before(g, d, g.rules[r].lhs);
    }
  }

  /** What the driver finds after popping the right-hand side of rule r: a shift that leads back to
      a path of the automaton, or, with nothing left on the stack, the accept action. */
  lemma ReduceStep(g: Grammar, lam: Flags, first: Sets, states: seq<State>, acts: seq<seq<Action>>,
                   stack: seq<StackEntry>, r: nat) returns (below: seq<StackEntry>)
    requires Automatic(g, lam, first, states) && Obeys(g, states, acts) && Path(states, stack)
    requires r < |g.rules| && Has(states[stack[|stack|-1].stateno].cfp, Config(r, |g.rules[r].rhs|))
    ensures |g.rules[r].rhs| < |stack| && below == stack[..|stack|-|g.rules[r].rhs|]
    ensures Path(states, below) && Majors(stack) == Majors(below) + g.rules[r].rhs
    ensures g.rules[r].lhs < g.nsymbol
    ensures var d := Meaning(g, acts[below[|below|-1].stateno], g.rules[r].lhs);
            if g.rules[r].lhs == g.start then |below| == 1 && d == Accept
            else d.Go? && d.stp < |states| && Path(states, below + [StackEntry(d.stp, g.rules[r].lhs)])
  {
    var n, x := |g.rules[r].rhs|, g.rules[r].lhs;
    assert g.ValidRule(g.rules[r]);
    HandleOnTop(g, lam, first, states, stack, Config(r, n));
    below := stack[..|stack|-n];
    var q := below[|below|-1].stateno;
    assert g.rules[r].rhs[..n] == g.rules[r].rhs;
    GotoExists(g, lam, first, states, below, r);
    assert Allowed(g, states, q, x, Meaning(g, acts[q], x));
    hide Collection, Meaning, Majors;
    if x != g.start {
      var k: nat :| k < |states[q].shifts| && states[q].shifts[k].sym == x;
      var s := states[q].shifts[k].stp;
      assert HasShift(states[q], x, s);
      NotToStart(g, lam, first, states, q, x, s);
      PathPush(states, below, StackEntry(s, x));
    }
  }

  // ------------------------------------------------------------ the parser

  /** What is known about the tables that the driver was compiled with. */
  ghost predicate Ready(g: Grammar, lam: Flags, first: Sets, states: seq<State>, acts: seq<seq<Action>>,
                        t: ParseTables, info: seq<RuleInfo>)
  {
    && Automatic(g, lam, first, states) && Obeys(g, states, acts) && TablesAgree(g, acts, t) && ShortRules(g) && EndNotOnRhs(g)
    && |info| == |g.rules| && forall r :: 0 <= r < |info| ==> info[r] == InfoOf(g.rules[r])
  }

  /** The reductions made so far, latest first, derive the shifted tokens from the stack. */
  ghost predicate Running(g: Grammar, states: seq<State>, stack: seq<StackEntry>, reduced: seq<nat>, shifted: Symbols) {
    Path(states, stack) && Rightmost(g, Majors(stack), reduced, shifted)
  }

  /** The table entry and the meaning of the action list agree, and the automaton allows it. */
  lemma TableSays(g: Grammar, lam: Flags, first: Sets, states: seq<State>, acts: seq<seq<Action>>,
                  t: ParseTables, info: seq<RuleInfo>, q: nat, x: nat)
    requires Ready(g, lam, first, states, acts, t, info) && q < |states| && x < g.nsymbol
    ensures t.Shaped() && t.nstate == |states| && t.nrule == |g.rules| && |acts| == |states|
    ensures Allowed(g, states, q, x, Meaning(g, acts[q], x))
    ensures Found(t, g, q, x) == Code(|states|, |g.rules|, Meaning(g, acts[q], x))
    ensures Meaning(g, acts[q], x).Go? ==> 0 < Meaning(g, acts[q], x).stp < |states|
  {
    hide Automatic, Allowed;
    assert Allowed(g, states, q, x, Meaning(g, acts[q], x));
    var d := Meaning(g, acts[q], x);
    if d.Go? {
      assert HasShift(states[q], x, d.stp) by { GoShifts(g, states, q, x, d); }
      NotToStart(g, lam, first, states, q, x, d.stp);
    }
  }

  lemma GoShifts(g: Grammar, states: seq<State>, q: nat, x: nat, d: Doing)
    requires q < |states| && Allowed(g, states, q, x, d) && d.Go?
    ensures HasShift(states[q], x, d.stp)
  {
  }

  /** A token moves from the input to the stack. */
  lemma ShiftStep(g: Grammar, lam: Flags, first: Sets, states: seq<State>, stack: seq<StackEntry>, reduced: seq<nat>,
                  shifted: Symbols, s: nat, x: nat)
    requires Automatic(g, lam, first, states) && Running(g, states, stack, reduced, shifted) && x < g.nterminal
    requires HasShift(states[stack[|stack|-1].stateno], x, s)
    ensures Running(g, states, stack + [StackEntry(s, x)], reduced, shifted + [x])
  {
    var q := stack[|stack|-1].stateno;
    NotToStart(g, lam, first, states, q, x, s);
    hide Automatic;
    PathPush(states, stack, StackEntry(s, x));
    hide Path;
    MajorsPush(stack, StackEntry(s, x));
    RightmostAppend(g, Majors(stack), reduced, shifted, x);
  }

  /** A right-hand side on the stack is replaced by its left-hand side. */
  lemma ReplaceStep(g: Grammar, below: seq<StackEntry>, stack: seq<StackEntry>, reduced: seq<nat>, shifted: Symbols, r: nat, s: nat)
    requires r < |g.rules| && below != [] && Majors(stack) == Majors(below) + g.rules[r].rhs
    requires Rightmost(g, Majors(stack), reduced, shifted)
    ensures Rightmost(g, Majors(below + [StackEntry(s, g.rules[r].lhs)]), [r] + reduced, shifted)
    ensures |below| == 1 ==> Rightmost(g, [g.rules[r].lhs], [r] + reduced, shifted)
  {
    hide Rightmost;
    MajorsPush(below, StackEntry(s, g.rules[r].lhs));
    RightmostReduce(g, Majors(below), reduced, shifted, r);
    if |below| == 1 { assert Majors(below) + [g.rules[r].lhs] == [g.rules[r].lhs]; }
  }

  lemma IsShort(g: Grammar, r: nat)
    requires ShortRules(g) && r < |g.rules|
    ensures |g.rules[r].rhs| % 256 == |g.rules[r].rhs|
  {
  }

  lemma LhsNonterminal(g: Grammar, lam: Flags, first: Sets, states: seq<State>, r: nat)
    requires Automatic(g, lam, first, states) && r < |g.rules|
    ensures g.nterminal <= g.rules[r].lhs < g.nsymbol
  {
    assert g.ValidRule(g.rules[r]);
  }

  lemma CodeRanges(nstate: nat, nrule: nat, d: Doing)
    requires d.Go? ==> d.stp < nstate
    ensures Code(nstate, nrule, d) < nstate <==> d.Go?
    ensures d.Go? ==> Code(nstate, nrule, d) == d.stp
    ensures d.Reduce? && d.rule < nrule ==> nstate <= Code(nstate, nrule, d) < nstate + nrule && Code(nstate, nrule, d) - nstate == d.rule
    ensures d.Accept? ==> Code(nstate, nrule, d) == nstate + nrule + 1
    ensures d.SyntaxError? ==> Code(nstate, nrule, d) == nstate + nrule
  {
  }

  /** The lookup after a reduction finds a shift to a state that continues the path, or, for the
      start symbol, the accept action; there is no third case. */
  lemma AfterReduce(g: Grammar, lam: Flags, first: Sets, states: seq<State>, acts: seq<seq<Action>>,
                    t: ParseTables, info: seq<RuleInfo>, stack: seq<StackEntry>, reduced: seq<nat>, shifted: Symbols,
                    r: nat) returns (below: seq<StackEntry>)
    requires Ready(g, lam, first, states, acts, t, info) && Running(g, states, stack, reduced, shifted)
    requires r < |g.rules| && Has(states[stack[|stack|-1].stateno].cfp, Config(r, |g.rules[r].rhs|))
    ensures |info| == |g.rules| && info[r].lhs == g.rules[r].lhs && info[r].nrhs == |g.rules[r].rhs| < |stack|
    ensures below == stack[..|stack|-info[r].nrhs]
    ensures Majors(stack) == Majors(below) + g.rules[r].rhs
    ensures t.Shaped() && below[|below|-1].stateno < t.nstate
    ensures ReduceFinds(g, states, t, below, [r] + reduced, shifted, r)
  {
    hide Automatic, Obeys, TablesAgree, Rightmost, Majors, Path, Has, Code;
    IsShort(g, r);
    below := ReduceStep(g, lam, first, states, acts, stack, r);
    var q, x := below[|below|-1].stateno, g.rules[r].lhs;
    assert q < |states| by { PathTop(states, below); }
    TableSays(g, lam, first, states, acts, t, info, q, x);
    LhsNonterminal(g, lam, first, states, r);
    var d := Meaning(g, acts[q], x);
    CodeRanges(|states|, |g.rules|, d);
    ReplaceStep(g, below, stack, reduced, shifted, r, if d.Go? then d.stp else 0);
  }

  ghost predicate ReduceFinds(g: Grammar, states: seq<State>, t: ParseTables, below: seq<StackEntry>, reduced: seq<nat>,
                              shifted: Symbols, r: nat)
    requires t.Shaped() && below != [] && below[|below|-1].stateno < t.nstate && r < |g.rules|
  {
    var x := g.rules[r].lhs;
    var yyact := t.FindReduceAction(below[|below|-1].stateno, x);
    if x == g.start then yyact == t.nstate + t.nrule + 1 && Rightmost(g, [g.start], reduced, shifted)
    else 0 <= yyact < t.nstate && Running(g, states, below + [StackEntry(yyact, x)], reduced, shifted)
  }

  lemma PathTop(states: seq<State>, stack: seq<StackEntry>)
    requires Path(states, stack)
    ensures stack != [] && stack[|stack|-1].stateno < |states|
  {
  }

  lemma EndNotShifted(g: Grammar, lam: Flags, first: Sets, states: seq<State>, q: nat, s: nat)
    requires Automatic(g, lam, first, states) && EndNotOnRhs(g) && q < |states|
    ensures !HasShift(states[q], 0, s)
  {
    assert Finished(g, states, q);
    forall d ensures !InGoto(g, states[q].cfp, 0, d) {
      forall c ensures !Before(g, c, 0) { }
    }
    assert s < |states| && states[s].basis != [] ==> states[s].basis[0] in states[s].basis;
  }

  /** What the driver finds for a token: a shift along the automaton, a reduction by a rule that is
      complete in the top state, or a syntax error; the branch for anything else is unreachable. */
  ghost predicate ShiftFinds(g: Grammar, states: seq<State>, t: ParseTables, stack: seq<StackEntry>, reduced: seq<nat>,
                             shifted: Symbols, x: nat)
    requires t.Shaped() && stack != [] && stack[|stack|-1].stateno < t.nstate == |states| && t.nrule == |g.rules|
  {
    var yyact := t.FindShiftAction(stack[|stack|-1].stateno, x);
    if yyact < t.nstate then
      0 <= yyact && x != 0 && Running(g, states, stack + [StackEntry(yyact, x)], reduced, shifted + [x])
    else if yyact < t.nstate + t.nrule then
      var r := yyact - t.nstate;
      Has(states[stack[|stack|-1].stateno].cfp, Config(r, |g.rules[r].rhs|)) && (g.rules[r].lhs == g.start ==> x == 0)
    else yyact == t.nstate + t.nrule
  }

  lemma ForToken(g: Grammar, lam: Flags, first: Sets, states: seq<State>, acts: seq<seq<Action>>, t: ParseTables,
                 info: seq<RuleInfo>, stack: seq<StackEntry>, reduced: seq<nat>, shifted: Symbols, x: nat)
    requires Ready(g, lam, first, states, acts, t, info) && Running(g, states, stack, reduced, shifted)
    requires x < g.nterminal
    ensures t.Shaped() && stack != [] && stack[|stack|-1].stateno < t.nstate == |states| && t.nrule == |g.rules|
    ensures ShiftFinds(g, states, t, stack, reduced, shifted, x)
  {
    hide Automatic, Obeys, TablesAgree, Rightmost, Majors, Path, Has, Code, ShortRules, EndNotOnRhs;
    PathTop(states, stack);
    var q := stack[|stack|-1].stateno;
    assert x < g.nsymbol && x != g.start by { TokenBelowStart(g, lam, first, states, x); }
    TableSays(g, lam, first, states, acts, t, info, q, x);
    var d := Meaning(g, acts[q], x);
    CodeRanges(|states|, |g.rules|, d);
    if d.Go? {
      EndNotShifted(g, lam, first, states, q, d.stp);
      ShiftStep(g, lam, first, states, stack, reduced, shifted, d.stp, x);
    }
  }

  lemma TokenBelowStart(g: Grammar, lam: Flags, first: Sets, states: seq<State>, x: nat)
    requires Automatic(g, lam, first, states) && x < g.nterminal
    ensures x < g.nsymbol && x != g.start
  {
  }

  // ------------------------------------------------------------ no false errors

  lemma {:induction false} PathLeads(states: seq<State>, stack: seq<StackEntry>)
    requires Path(states, stack)
    ensures Leads(states, Majors(stack), stack[|stack|-1].stateno)
    decreases |stack|
  {
    var n := |stack| - 1;
    if n > 0 {
      PathPop(states, stack);
      PathLeads(states, stack[..n]);
      assert Transition(states, stack, n - 1);
      var m := Majors(stack);
      assert m[..|m|-1] == Majors(stack[..n]) && m[|m|-1] == stack[n].major;
    }
  }

  /** What the driver finds for the next token: a shift or a reduction after which there is still
      hope, the reduction with one step less to undo. */
  ghost predicate Onward(g: Grammar, t: ParseTables, stack: seq<StackEntry>, ahead: Symbols, n: nat)
    requires t.Shaped() && stack != [] && stack[|stack|-1].stateno < t.nstate && t.nrule == |g.rules|
  {
    var yyact := t.FindShiftAction(stack[|stack|-1].stateno, Next(ahead));
    if yyact < t.nstate then ahead != [] && Hopeful(g, Majors(stack) + [ahead[0]], ahead[1..], n)
    else
      yyact < t.nstate + t.nrule && HopeAfter(g, Majors(stack), ahead, n, yyact - t.nstate)
  }

  ghost predicate HopeAfter(g: Grammar, a: Symbols, ahead: Symbols, n: nat, r: nat) {
    n > 0 && r < |g.rules| && |g.rules[r].rhs| <= |a|
    && (g.rules[r].lhs == g.start || Hopeful(g, a[..|a|-|g.rules[r].rhs|] + [g.rules[r].lhs], ahead, n - 1))
  }

  lemma FindsOnward(g: Grammar, lam: Flags, first: Sets, states: seq<State>, acts: seq<seq<Action>>, t: ParseTables,
                    info: seq<RuleInfo>, stack: seq<StackEntry>, reduced: seq<nat>, shifted: Symbols, ahead: Symbols, n: nat)
    requires Ready(g, lam, first, states, acts, t, info) && Running(g, states, stack, reduced, shifted)
    requires Decisive(g, states, acts) && Hopeful(g, Majors(stack), ahead, n)
    ensures t.Shaped() && stack != [] && stack[|stack|-1].stateno < t.nstate == |states| && t.nrule == |g.rules|
    ensures Onward(g, t, stack, ahead, n)
  {
    hide *;
    var q, x, a := RunningTop(g, lam, first, states, acts, t, info, stack, reduced, shifted, ahead, n);
    GoesOn(g, states, a, q, ahead, n);
    TableSays(g, lam, first, states, acts, t, info, q, x);
    var d := Meaning(g, acts[q], x);
    CodeRanges(|states|, |g.rules|, d);
    if s: nat :| CanShiftTo(g, states, a, q, ahead, n, s) {
      ShiftDecided(g, states, acts, a, q, ahead, n, s);
      MeansOnward(g, t, stack, ahead, n, q, d);
    } else {
      var r: nat :| CanReduceBy(g, states, a, q, ahead, n, r);
      ReduceDecided(g, states, acts, a, q, ahead, n, r);
      MeansOnward(g, t, stack, ahead, n, q, d);
    }
  }

  lemma RunningTop(g: Grammar, lam: Flags, first: Sets, states: seq<State>, acts: seq<seq<Action>>, t: ParseTables,
                   info: seq<RuleInfo>, stack: seq<StackEntry>, reduced: seq<nat>, shifted: Symbols, ahead: Symbols, n: nat)
    returns (q: nat, x: nat, a: Symbols)
    requires Ready(g, lam, first, states, acts, t, info) && Running(g, states, stack, reduced, shifted)
    requires Hopeful(g, Majors(stack), ahead, n)
    ensures stack != [] && q == stack[|stack|-1].stateno < |states| && a == Majors(stack) && x == Next(ahead)
    ensures Viable.Complete(g, states) && Leads(states, a, q) && g.Terminal(x) && x < g.nsymbol
  {
    hide Collection, Obeys, TablesAgree, Rightmost;
    PathTop(states, stack);
    PathLeads(states, stack);
    CollectionComplete(g, lam, first, states);
    q, x, a := stack[|stack|-1].stateno, Next(ahead), Majors(stack);
  }

  lemma ShiftDecided(g: Grammar, states: seq<State>, acts: seq<seq<Action>>, a: Symbols, q: nat, ahead: Symbols, n: nat, s: nat)
    requires Decisive(g, states, acts) && CanShiftTo(g, states, a, q, ahead, n, s) && g.Terminal(Next(ahead))
    ensures q < |acts| && Meaning(g, acts[q], Next(ahead)) == Go(s)
    ensures ahead != [] && Hopeful(g, a + [ahead[0]], ahead[1..], n)
  {
  }

  lemma ReduceDecided(g: Grammar, states: seq<State>, acts: seq<seq<Action>>, a: Symbols, q: nat, ahead: Symbols, n: nat, r: nat)
    requires Decisive(g, states, acts) && CanReduceBy(g, states, a, q, ahead, n, r) && g.Terminal(Next(ahead))
    ensures q < |acts| && Meaning(g, acts[q], Next(ahead)) == Reduce(r) && r < |g.rules|
    ensures HopeAfter(g, a, ahead, n, r)
  {
    assert Completes(g, states, q, r, Next(ahead));
  }

  lemma MeansOnward(g: Grammar, t: ParseTables, stack: seq<StackEntry>, ahead: Symbols, n: nat, q: nat, d: Doing)
    requires t.Shaped() && stack != [] && q == stack[|stack|-1].stateno < t.nstate && t.nrule == |g.rules| && g.Terminal(Next(ahead))
    requires Found(t, g, q, Next(ahead)) == Code(t.nstate, t.nrule, d)
    requires match d
             case Go(s) => s < t.nstate && ahead != [] && Hopeful(g, Majors(stack) + [ahead[0]], ahead[1..], n)
             case Reduce(r) => r < t.nrule && HopeAfter(g, Majors(stack), ahead, n, r)
             case _ => false
    ensures Onward(g, t, stack, ahead, n)
  {
    hide Hopeful, HopeAfter, ParseTables.FindShiftAction, ParseTables.FindReduceAction;
  }

  /** A limit, if there is one, of more than n rounds. */
  predicate Above(steps: Option<nat>, n: nat) {
    steps.Some? ==> n < steps.value
  }

  /** What the table entry for the token says of the reductions and shifts on it. */
  lemma CodeTells(g: Grammar, lam: Flags, first: Sets, states: seq<State>, acts: seq<seq<Action>>, t: ParseTables,
                  info: seq<RuleInfo>, stack: seq<StackEntry>, reduced: seq<nat>, shifted: Symbols, x: nat)
    requires Ready(g, lam, first, states, acts, t, info) && Running(g, states, stack, reduced, shifted) && x < g.nterminal
    ensures t.Shaped() && stack != [] && stack[|stack|-1].stateno < t.nstate == |states| && t.nrule == |g.rules|
    ensures Shifts(g, states, acts, x, Majors(stack)) <==> t.FindShiftAction(stack[|stack|-1].stateno, x) < t.nstate
    ensures forall r: nat :: Reduces(g, states, acts, x, Majors(stack), r) ==>
              t.FindShiftAction(stack[|stack|-1].stateno, x) == t.nstate + r && r < |g.rules| && g.rules[r].lhs != g.start
  {
    PathTop(states, stack);
    PathLeads(states, stack);
    CollectionComplete(g, lam, first, states);
    hide Automatic, Obeys, TablesAgree, Rightmost, Majors, Code, ShortRules, EndNotOnRhs, ParseTables.FindShiftAction, Leads, Meaning, Path;
    hide Viable.Complete;
    var q, a := stack[|stack|-1].stateno, Majors(stack);
    TokenBelowStart(g, lam, first, states, x);
    TableSays(g, lam, first, states, acts, t, info, q, x);
    CodeRanges(|states|, |g.rules|, Meaning(g, acts[q], x));
    assert ShiftsIn(g, states, acts, x, a, q) <==> Meaning(g, acts[q], x).Go?;
    forall p: nat | Leads(states, a, p) ensures p == q { OnePath(g, states, a, p, q); }
    assert forall p: nat :: ShiftsIn(g, states, acts, x, a, p) ==> p == q;
  }

  /** The table entry names a rule of the start symbol exactly where the parser is to accept by it. */
  lemma {:induction false} CodeFinishes(g: Grammar, lam: Flags, first: Sets, states: seq<State>, acts: seq<seq<Action>>, t: ParseTables,
                     info: seq<RuleInfo>, stack: seq<StackEntry>, reduced: seq<nat>, shifted: Symbols, x: nat)
    requires Ready(g, lam, first, states, acts, t, info) && Running(g, states, stack, reduced, shifted) && x < g.nterminal
    ensures t.Shaped() && stack != [] && stack[|stack|-1].stateno < t.nstate
    ensures forall r: nat :: Finishes(g, states, acts, x, Majors(stack), r) <==>
              t.FindShiftAction(stack[|stack|-1].stateno, x) == t.nstate + r && r < |g.rules| && g.rules[r].lhs == g.start
  {
    PathTop(states, stack);
    PathLeads(states, stack);
    CollectionComplete(g, lam, first, states);
    hide Automatic, Obeys, TablesAgree, Rightmost, Majors, Code, ShortRules, EndNotOnRhs, ParseTables.FindShiftAction, Leads, Meaning, Path;
    hide Viable.Complete;
    var q, a := stack[|stack|-1].stateno, Majors(stack);
    TokenBelowStart(g, lam, first, states, x);
    TableSays(g, lam, first, states, acts, t, info, q, x);
    CodeRanges(|states|, |g.rules|, Meaning(g, acts[q], x));
    forall p: nat | Leads(states, a, p) ensures p == q { OnePath(g, states, a, p, q); }
    forall r: nat ensures Finishes(g, states, acts, x, a, r) <==> Meaning(g, acts[q], x) == Reduce(r) && r < |g.rules| && g.rules[r].lhs == g.start {
      if Meaning(g, acts[q], x) == Reduce(r) && r < |g.rules| && g.rules[r].lhs == g.start { assert FinishesIn(g, states, acts, x, a, q, r); }
    }
  }

  /** A rule that the table names is reduced by, with a right-hand side that is on the stack. */
  lemma CodeReduces(g: Grammar, lam: Flags, first: Sets, states: seq<State>, acts: seq<seq<Action>>, t: ParseTables,
                    info: seq<RuleInfo>, stack: seq<StackEntry>, reduced: seq<nat>, shifted: Symbols, x: nat, r: nat,
                    stack': seq<StackEntry>, reduced': seq<nat>)
    requires Ready(g, lam, first, states, acts, t, info) && Running(g, states, stack, reduced, shifted) && x < g.nterminal
    requires t.Shaped() && stack[|stack|-1].stateno < t.nstate == |states| && t.nrule == |g.rules|
    requires r < |g.rules| && t.FindShiftAction(stack[|stack|-1].stateno, x) == t.nstate + r && g.rules[r].lhs != g.start
    requires Has(states[stack[|stack|-1].stateno].cfp, Config(r, |g.rules[r].rhs|))
    requires Running(g, states, stack', reduced', shifted) && |g.rules[r].rhs| <= |Majors(stack)|
    requires Majors(stack') == Majors(stack)[..|Majors(stack)|-|g.rules[r].rhs|] + [g.rules[r].lhs]
    ensures Reduces(g, states, acts, x, Majors(stack), r) && Majors(stack') == Reduced(g, Majors(stack), r)
  {
    hide Automatic, Obeys, TablesAgree, Rightmost, Majors, Has, Code, ShortRules, EndNotOnRhs, ParseTables.FindShiftAction, Leads, Meaning;
    var q, a := stack[|stack|-1].stateno, Majors(stack);
    TokenBelowStart(g, lam, first, states, x);
    TableSays(g, lam, first, states, acts, t, info, q, x);
    CodeRanges(|states|, |g.rules|, Meaning(g, acts[q], x));
    var below := AfterReduce(g, lam, first, states, acts, t, info, stack, reduced, shifted, r);
    TakeFront(Majors(below), g.rules[r].rhs);
    PathLeads(states, stack);
    PathLeads(states, stack');
    assert Meaning(g, acts[q], x) == Reduce(r);
    assert a[|a|-|g.rules[r].rhs|..] == g.rules[r].rhs;
    assert Reduced(g, a, r) == Majors(stack') && Leads(states, Majors(stack'), stack'[|stack'|-1].stateno);
    assert ReducesIn(g, states, acts, x, a, q, r);
  }

  datatype Outcome = MoreInput | Accepted | Overflowed | Failed | Ignored | OutOfSteps

  /** How a round on the token x, with the symbols a on a stack of depth d, is determined by the tables:
      it reduces by r or shifts, to the stack b, or neither is to be done below the depth. */
  ghost predicate RoundSays(g: Grammar, states: seq<State>, acts: seq<seq<Action>>, x: nat, d: nat, a: Symbols,
                            outcome: Option<Outcome>, r: nat, b: Symbols)
  {
    match outcome
    case None => |b| < d && Reduces(g, states, acts, x, a, r) && r < |g.rules| && |g.rules[r].rhs| <= |a| && b == Reduced(g, a, r)
    case Some(MoreInput) => |b| < d && Shifts(g, states, acts, x, a) && b == a + [x]
    case Some(_) => Rests(g, states, acts, x, d, a) && (Shifts(g, states, acts, x, a) ==> |a| + 1 >= d)
  }

  /** What a round records of the reductions, before and after it, and when it accepts. */
  ghost predicate RoundMakes(g: Grammar, states: seq<State>, acts: seq<seq<Action>>, x: nat, a: Symbols, outcome: Option<Outcome>,
                             before: seq<nat>, after: seq<nat>)
  {
    match outcome
    case None => after != [] && after == [after[0]] + before
    case Some(MoreInput) => after == before
    case Some(Accepted) => after != [] && after == [after[0]] + before && Finishes(g, states, acts, x, a, after[0])
    case Some(_) => forall r: nat :: !Finishes(g, states, acts, x, a, r)
  }

  ghost predicate TokenMakesBy(g: Grammar, states: seq<State>, acts: seq<seq<Action>>, x: nat, d: nat, a: Symbols, outcome: Outcome,
                               before: seq<nat>, after: seq<nat>, c: Symbols, rs: seq<nat>, b: Symbols)
  {
    && Runs(g, states, acts, x, d, a, rs, b)
    && match outcome
       case MoreInput => TakesBy(g, states, acts, x, d, a, rs, c) && after == Backwards(rs) + before
       case Accepted => after != [] && Finishes(g, states, acts, x, b, after[0]) && after == [after[0]] + Backwards(rs) + before
       case OutOfSteps => true
       case _ => Rests(g, states, acts, x, d, b) && forall r: nat :: !Finishes(g, states, acts, x, b, r)
  }

  /** The reductions that the loop on the token x makes, from the stack a to the stack c: they are the run of
      the tables, and it accepts exactly where that run comes to a start rule. */
  ghost predicate TokenMakes(g: Grammar, states: seq<State>, acts: seq<seq<Action>>, x: nat, d: nat, a: Symbols, outcome: Outcome,
                             before: seq<nat>, after: seq<nat>, c: Symbols)
  {
    exists rs: seq<nat>, b: Symbols :: TokenMakesBy(g, states, acts, x, d, a, outcome, before, after, c, rs, b)
  }

  /** How the loop on the token x ends, from the stack a with the stack c. */
  ghost predicate TokenSays(g: Grammar, states: seq<State>, acts: seq<seq<Action>>, x: nat, d: nat, a: Symbols, steps: Option<nat>,
                            outcome: Outcome, c: Symbols)
  {
    && (outcome == OutOfSteps <==> steps.Some? && RunsFor(g, states, acts, x, d, a, steps.value))
    && (outcome == MoreInput ==> Takes(g, states, acts, x, d, a, c))
    && (outcome !in {MoreInput, OutOfSteps} ==> forall e: Symbols :: !Takes(g, states, acts, x, d, a, e))
  }

  lemma SaysShift(g: Grammar, states: seq<State>, acts: seq<seq<Action>>, x: nat, d: nat, a: Symbols, low: bool, b: Symbols)
    requires Shifts(g, states, acts, x, a) && (low <==> |a| + 1 < d) && (low ==> b == a + [x])
    requires forall r: nat :: !Reduces(g, states, acts, x, a, r)
    ensures RoundSays(g, states, acts, x, d, a, Some(if low then MoreInput else Overflowed), 0, b)
  {
  }

  lemma SaysEnd(g: Grammar, states: seq<State>, acts: seq<seq<Action>>, x: nat, d: nat, a: Symbols, outcome: Outcome, r: nat)
    requires outcome != MoreInput && !Shifts(g, states, acts, x, a)
    requires forall r': nat :: Reduces(g, states, acts, x, a, r') ==> r' == r
    requires r < |g.rules| && |g.rules[r].rhs| <= |a| && g.rules[r].lhs != g.start ==> |a| - |g.rules[r].rhs| + 1 >= d
    requires r < |g.rules| && g.rules[r].lhs == g.start ==> !Reduces(g, states, acts, x, a, r)
    ensures RoundSays(g, states, acts, x, d, a, Some(outcome), r, [])
  {
    hide Reduces;
  }

  class Parser {
    const t: ParseTables
    const yyRuleInfo: seq<RuleInfo>
    const yystack: array<StackEntry>
    var yyidx: int
    var yyerrcnt: int

    ghost const g: Grammar
    ghost const lam: Flags
    ghost const first: Sets
    ghost const states: seq<State>
    ghost const acts: seq<seq<Action>>
    ghost var shifted: Symbols
    ghost var reduced: seq<nat>

    ghost predicate Sane()
      reads this
    {
      -1 <= yyidx < yystack.Length && 0 < yystack.Length && Ready(g, lam, first, states, acts, t, yyRuleInfo)
    }

    ghost function Stack(): seq<StackEntry>
      reads this, yystack
      requires -1 <= yyidx < yystack.Length
    {
      yystack[..yyidx + 1]
    }

    ghost predicate Valid()
      reads this, yystack
    {
      Sane() && (yyidx >= 0 ==> Running(g, states, Stack(), reduced, shifted))
    }

    /** The stack and the tokens ahead belong to a rightmost derivation of at most n steps, the
        steps undone so far included. */
    ghost predicate Hope(ahead: Symbols, n: nat)
      reads this, yystack
    {
      && 0 <= yyidx < yystack.Length && Decisive(g, states, acts)
      && |reduced| <= n && Hopeful(g, Majors(Stack()), ahead, n - |reduced|)
    }

    /** `ParseAlloc`; the stack size is the constant YYSTACKDEPTH of the generated parser. */
    constructor (t: ParseTables, yyRuleInfo: seq<RuleInfo>, yystackdepth: nat,
                 ghost g: Grammar, ghost lam: Flags, ghost first: Sets, ghost states: seq<State>, ghost acts: seq<seq<Action>>)
      requires yystackdepth > 0 && Ready(g, lam, first, states, acts, t, yyRuleInfo)
      ensures Valid() && yyidx == -1 && fresh(yystack) && yystack.Length == yystackdepth
      ensures this.g == g && this.t == t && this.states == states && this.acts == acts
    {
      this.t, this.yyRuleInfo := t, yyRuleInfo;
      this.g, this.lam, this.first, this.states, this.acts := g, lam, first, states, acts;
      yystack := new StackEntry[yystackdepth](_ => StackEntry(0, 0));
      yyidx, yyerrcnt := -1, -1;
      shifted, reduced := [], [];
    }

    /** `yy_shift`: an overflow empties the stack. */
    method Shift(yyNewState: nat, yyMajor: nat)
      requires -1 <= yyidx < yystack.Length
      modifies `yyidx, yystack
      ensures old(yyidx) + 1 >= yystack.Length ==> yyidx == -1
      ensures old(yyidx) + 1 < yystack.Length ==>
                yyidx == old(yyidx) + 1 && Stack() == old(Stack()) + [StackEntry(yyNewState, yyMajor)]
    {
      yyidx := yyidx + 1;
      if yyidx >= yystack.Length {
        yyidx := yyidx - 1;
        PopAll();
        return;
      }
      yystack[yyidx] := StackEntry(yyNewState, yyMajor);
    }

    /** `while( yyidx>=0 ) yy_pop_parser_stack` */
    method PopAll()
      requires -1 <= yyidx < yystack.Length
      modifies `yyidx
      ensures yyidx == -1
    {
      while yyidx >= 0
        invariant -1 <= yyidx < yystack.Length
      {
        yyidx := yyidx - 1;
      }
    }

    /** The lookup after the right-hand side has been popped always finds a shift or the accept action. */
    method Goto(yygoto: nat, ghost r: nat) returns (accepted: bool)
      requires Sane() && 0 <= yyidx && r < |g.rules| && yygoto == g.rules[r].lhs
      requires t.Shaped() && yystack[yyidx].stateno < t.nstate && ReduceFinds(g, states, t, Stack(), reduced, shifted, r)
      modifies `yyidx, yystack
      ensures Valid()
      ensures accepted <==> g.rules[r].lhs == g.start
      ensures accepted ==> yyidx == -1 && Rightmost(g, [g.start], reduced, shifted)
      ensures !accepted && yyidx >= 0 ==> Majors(Stack()) == old(Majors(Stack())) + [yygoto]
      ensures !accepted && yyidx < 0 ==> old(yyidx) + 1 == yystack.Length
    {
      hide Ready, Running, Rightmost, Has, ParseTables.FindReduceAction, Majors;
      ghost var below := Stack();
      var yyact := t.FindReduceAction(yystack[yyidx].stateno, yygoto);
      accepted := false;
      if yyact < t.nstate {
        MajorsPush(below, StackEntry(yyact, yygoto));
        Shift(yyact, yygoto);
      } else if yyact == t.nstate + t.nrule + 1 {
        PopAll();
        accepted := true;
      } else {
        assert false;
      }
    }

    /** `yy_reduce`: the right-hand side is on top of the stack, and its left-hand side takes its place. */
    method Reduce(yyruleno: nat) returns (accepted: bool)
      requires Valid() && yyidx >= 0 && yyruleno < |g.rules|
      requires Has(states[Stack()[yyidx].stateno].cfp, Config(yyruleno, |g.rules[yyruleno].rhs|))
      modifies this, yystack
      ensures Valid() && shifted == old(shifted)
      ensures reduced == [yyruleno] + old(reduced)
      ensures accepted <==> g.rules[yyruleno].lhs == g.start
      ensures accepted ==> yyidx == -1 && Rightmost(g, [g.start], reduced, shifted)
      ensures var a, m := old(Majors(Stack())), |g.rules[yyruleno].rhs|;
        m <= |a| && (yyidx >= 0 ==> Majors(Stack()) == a[..|a|-m] + [g.rules[yyruleno].lhs])
      ensures !accepted && yyidx < 0 ==>
                old(yyidx) + 1 == yystack.Length && |old(Majors(Stack()))| - |g.rules[yyruleno].rhs| + 1 >= yystack.Length
    {
      hide *;
      RunningNow();
      ghost var stack := yystack[..yyidx+1];
      MajorsLength(stack);
      ghost var below := AfterReduce(g, lam, first, states, acts, t, yyRuleInfo, stack, reduced, shifted, yyruleno);
      TakeFront(Majors(below), g.rules[yyruleno].rhs);
      var yygoto := yyRuleInfo[yyruleno].lhs;
      var yysize := yyRuleInfo[yyruleno].nrhs;
      Popped(yystack[..], stack, yysize);
      yyidx := yyidx - yysize;
      reduced := [yyruleno] + reduced;
      IsStack();
      accepted := Goto(yygoto, yyruleno);
    }

    lemma RunningNow()
      requires Valid() && yyidx >= 0
      ensures Sane() && yyidx < yystack.Length && Stack() == yystack[..yyidx+1]
      ensures Ready(g, lam, first, states, acts, t, yyRuleInfo) && Running(g, states, Stack(), reduced, shifted)
    {
    }

    lemma IsStack()
      requires -1 <= yyidx < yystack.Length && 0 < yystack.Length && Ready(g, lam, first, states, acts, t, yyRuleInfo)
      ensures Sane() && Stack() == yystack[..yyidx+1]
    {
    }

    /** The (re)initialization at the start of `Parse`. */
    method Start()
      requires Valid()
      modifies this, yystack
      ensures Valid() && yyidx >= 0
      ensures old(yyidx) < 0 ==> shifted == [] && reduced == [] && Majors(Stack()) == []
      ensures old(yyidx) >= 0 ==> shifted == old(shifted) && reduced == old(reduced) && yyidx == old(yyidx) && Stack() == old(Stack())
    {
      if yyidx < 0 {
        hide Ready, Running;
        yyidx, yyerrcnt := 0, -1;
        yystack[0] := StackEntry(0, 0);
        shifted, reduced := [], [];
        assert Stack() == [StackEntry(0, 0)];
        JustStarted(g, lam, first, states, acts, t, yyRuleInfo);
      }
    }

    /** The symbols on the stack; none when it is empty. */
    ghost function Held(): Symbols
      reads this, yystack
      requires -1 <= yyidx < yystack.Length
    {
      if yyidx < 0 then [] else Majors(Stack())
    }

    /** The reductions made on the input; none before it begins. */
    ghost function Made(): seq<nat>
      reads this
    {
      if yyidx < 0 then [] else reduced
    }

    /** The rule of the latest reduction. */
    ghost function Latest(): nat
      reads this
    {
      if reduced == [] then 0 else reduced[0]
    }

    /** One round of the loop of `Parse`; MoreInput means that the token was shifted.  It is determined
        by the tables, fails exactly on an error entry, and overflows only with a full stack.  While
        there is hope it does not fail, and a round without an outcome undoes one step. */
    method Round(yymajor: nat, ghost ahead: Symbols, ghost n: nat) returns (outcome: Option<Outcome>)
      requires Valid() && yyidx >= 0 && yymajor < g.nterminal && yymajor == Next(ahead)
      modifies this, yystack
      ensures Valid()
      ensures outcome.None? ==> yyidx >= 0 && shifted == old(shifted) && |reduced| == old(|reduced|) + 1
      ensures RoundSays(g, states, acts, yymajor, yystack.Length, old(Held()), outcome, Latest(), Held())
      ensures RoundMakes(g, states, acts, yymajor, old(Held()), outcome, old(reduced), reduced)
      ensures outcome.Some? ==> Ended(outcome.value, yymajor, old(shifted)) && outcome.value !in {Ignored, OutOfSteps}
      ensures t.Shaped() && old(yystack[yyidx].stateno) < t.nstate
      ensures outcome == Some(Failed) <==> t.FindShiftAction(old(yystack[yyidx].stateno), yymajor) == t.nstate + t.nrule
      ensures outcome == Some(Overflowed) ==> old(yyidx) + 1 == yystack.Length
      ensures old(Hope(ahead, n)) ==> outcome != Some(Failed)
      ensures old(Hope(ahead, n)) && outcome.None? ==> Hope(ahead, n)
      ensures old(Hope(ahead, n)) && outcome == Some(MoreInput) ==> ahead != [] && Hope(ahead[1..], n)
    {
      hide Ready, Running, Rightmost, Has, ParseTables.FindShiftAction, Majors, Decisive, Hopeful, Reduces, Reduced, Shifts, RoundSays, Finishes;
      ghost var stack, hope, a, d := Stack(), Hope(ahead, n), Majors(Stack()), yystack.Length;
      MajorsLength(stack);
      ForToken(g, lam, first, states, acts, t, yyRuleInfo, stack, reduced, shifted, yymajor);
      CodeTells(g, lam, first, states, acts, t, yyRuleInfo, stack, reduced, shifted, yymajor);
      CodeFinishes(g, lam, first, states, acts, t, yyRuleInfo, stack, reduced, shifted, yymajor);
      if hope { FindsOnward(g, lam, first, states, acts, t, yyRuleInfo, stack, reduced, shifted, ahead, n - |reduced|); }
      var yyact := t.FindShiftAction(yystack[yyidx].stateno, yymajor);
      if yyact < t.nstate {
        // yymajor is not 0, so after this the source leaves its loop.
        shifted := shifted + [yymajor];
        MajorsPush(stack, StackEntry(yyact, yymajor));
        Shift(yyact, yymajor);
        yyerrcnt := yyerrcnt - 1;
        SaysShift(g, states, acts, yymajor, d, a, yyidx >= 0, Held());
        SaysAny(g, states, acts, yymajor, d, a, Some(if yyidx >= 0 then MoreInput else Overflowed), 0, Latest(), Held());
        return Some(if yyidx >= 0 then MoreInput else Overflowed);
      } else if yyact < t.nstate + t.nrule {
        ghost var reduced0 := reduced;
        var accepted := Reduce(yyact - t.nstate);
        if accepted {
          SaysEnd(g, states, acts, yymajor, d, a, Accepted, yyact - t.nstate);
          return Some(Accepted);
        }
        if yyidx < 0 {
          SaysEnd(g, states, acts, yymajor, d, a, Overflowed, yyact - t.nstate);
          return Some(Overflowed);
        }
        MajorsLength(Stack());
        CodeReduces(g, lam, first, states, acts, t, yyRuleInfo, stack, reduced0, shifted, yymajor, yyact - t.nstate, Stack(), reduced);
        SaysReduce(g, states, acts, yymajor, d, a, yyact - t.nstate, Held());
        return None;
      } else if yyact == t.nstate + t.nrule {
        SaysEnd(g, states, acts, yymajor, d, a, Failed, t.nrule);
        SaysAny(g, states, acts, yymajor, d, a, Some(Failed), t.nrule, Latest(), Held());
        return Some(Failed);
      } else {
        assert false;
      }
    }

    /** `Parse` for one token; 0 ends the input.  Whether the source's loop ends can be told from the
        tables: without a limit on the rounds it has to, and with one the limit is reached exactly
        when that many reductions can be made.  When a derivation of n steps is being undone, n + 1
        rounds are enough, and so is a stack that has room for the tokens, the n steps and the bottom. */
    method Parse(yymajor: nat, steps: Option<nat>, ghost ahead: Symbols, ghost n: nat) returns (outcome: Outcome)
      requires Valid() && yymajor < g.nterminal && yymajor == Next(ahead)
      requires steps.None? && (yyidx >= 0 || yymajor != 0) ==> !IntoCycle(g, states, acts, yymajor, yystack.Length, Held())
      modifies this, yystack
      ensures Valid() && Ended(outcome, yymajor, if old(yyidx) < 0 then [] else old(shifted))
      ensures outcome == Ignored <==> old(yyidx) < 0 && yymajor == 0
      ensures outcome == OutOfSteps ==> steps.Some?
      ensures outcome != Ignored ==> TokenSays(g, states, acts, yymajor, yystack.Length, old(Held()), steps, outcome, Held())
      ensures outcome != Ignored ==>
                TokenMakes(g, states, acts, yymajor, yystack.Length, old(Held()), outcome, old(Made()), reduced, Held())
      ensures old(if yyidx < 0 then Decisive(g, states, acts) && Hopeful(g, [], ahead, n) else Hope(ahead, n)) ==>
                && outcome != Failed && (Above(steps, n) ==> outcome != OutOfSteps)
                && (outcome == Overflowed ==> yystack.Length <= (if old(yyidx) < 0 then 0 else old(|shifted|)) + n + 1)
                && (outcome == MoreInput ==> ahead != [] && Hope(ahead[1..], n))
    {
      if yyidx < 0 && yymajor == 0 { return Ignored; }
      hide *;
      HeldFirst();
      MadeIs();
      Start();
      HeldNow();
      outcome := Rounds(yymajor, steps, ahead, n);
    }

    /** The loop of `Parse`. */
    method Rounds(yymajor: nat, steps: Option<nat>, ghost ahead: Symbols, ghost n: nat) returns (outcome: Outcome)
      requires Valid() && yyidx >= 0 && yymajor < g.nterminal && yymajor == Next(ahead)
      requires steps.None? ==> !IntoCycle(g, states, acts, yymajor, yystack.Length, Held())
      modifies this, yystack
      ensures Valid() && Ended(outcome, yymajor, old(shifted)) && outcome != Ignored && (outcome == OutOfSteps ==> steps.Some?)
      ensures TokenSays(g, states, acts, yymajor, yystack.Length, old(Held()), steps, outcome, Held())
      ensures TokenMakes(g, states, acts, yymajor, yystack.Length, old(Held()), outcome, old(reduced), reduced, Held())
      ensures old(Hope(ahead, n)) ==>
                && outcome != Failed && (Above(steps, n) ==> outcome != OutOfSteps)
                && (outcome == Overflowed ==> yystack.Length <= old(|shifted|) + n + 1)
                && (outcome == MoreInput ==> ahead != [] && Hope(ahead[1..], n))
    {
      hide *;
      AboveIs(steps, n);
      HeldNow();
      CompleteNow();
      ghost var begun, hope, a0, d, before := shifted, Hope(ahead, n), Held(), yystack.Length, reduced;
      ghost var bound: nat, rs: seq<nat> := 0, [];
      if steps.None? { bound := NoLongRuns(g, states, acts, yymajor, d, a0); }
      RunsNone(g, states, acts, yymajor, d, a0);
      assert reduced == Backwards(rs) + before by { NothingBackwards(reduced); }
      var left: nat := if steps.Some? then steps.value else 0;
      while steps.None? || left > 0
        invariant Valid() && 0 <= yyidx < yystack.Length && shifted == begun
        invariant hope ==> Hope(ahead, n) && (steps.Some? && steps.value > n ==> left > n - |reduced|)
        invariant Runs(g, states, acts, yymajor, d, a0, rs, Held()) && reduced == Backwards(rs) + before
        invariant if steps.Some? then left + |rs| == steps.value else |rs| < bound
        decreases if steps.None? then bound - |rs| else left
      {
        if steps.Some? { left := left - 1; }
        RunningNow();
        Height(g, states, Stack(), reduced, shifted);
        HopeHas(ahead, n);
        ghost var b, done := Held(), reduced;
        var o := Round(yymajor, ahead, n);
        ValidLow();
        if o.Some? {
          TokenMade(g, states, acts, yymajor, d, a0, o.value, before, done, reduced, Latest(), Held(), rs, b);
          TokenEnds(g, states, acts, yymajor, d, a0, rs, b, steps, o.value, Latest(), Held());
          return o.value;
        }
        RunGrows(g, states, acts, yymajor, d, a0, rs, b, Latest(), Held());
        LatestIs();
        MoreBackwards(g, states, acts, yymajor, b, before, done, reduced, Latest(), rs);
        rs := rs + [Latest()];
        HeldNow();
        if steps.None? { assert |rs| < bound; }
      }
      outcome := OutOfSteps;
      HopeHas(ahead, n);
      OutIsEnd(yymajor, begun);
      TokenStops(g, states, acts, yymajor, d, a0, rs, Held(), steps);
      TokenCut(g, states, acts, yymajor, d, a0, before, reduced, Held(), rs);
    }

    lemma ValidLow()
      requires Valid()
      ensures -1 <= yyidx < yystack.Length
    {
    }

    lemma OutIsEnd(yymajor: nat, begun: Symbols)
      ensures Ended(OutOfSteps, yymajor, begun)
    {
    }

    lemma HeldFirst()
      requires Valid()
      ensures yyidx < 0 ==> Held() == []
      ensures yyidx >= 0 ==> Held() == Majors(Stack())
    {
    }

    lemma LatestIs()
      ensures reduced != [] ==> Latest() == reduced[0]
    {
    }

    lemma MadeIs()
      ensures Made() == if yyidx < 0 then [] else reduced
    {
    }

    lemma HeldNow()
      requires Valid() && yyidx >= 0
      ensures Held() == Majors(Stack()) && |Held()| == yyidx < yystack.Length
    {
      MajorsLength(Stack());
    }

    lemma CompleteNow()
      requires Valid()
      ensures g.Valid() && Viable.Complete(g, states)
    {
      CollectionComplete(g, lam, first, states);
    }

    lemma HopeHas(ahead: Symbols, n: nat)
      requires 0 <= yyidx < yystack.Length
      ensures Hope(ahead, n) ==> |reduced| <= n
    {
    }

    /** How `Parse` can end; begun are the tokens shifted before. */
    ghost predicate Ended(outcome: Outcome, yymajor: nat, begun: Symbols)
      reads this
    {
      match outcome
      case MoreInput => yyidx >= 0 && yymajor != 0 && shifted == begun + [yymajor]
      case Accepted => yyidx == -1 && yymajor == 0 && shifted == begun && Rightmost(g, [g.start], reduced, shifted)
      case Overflowed => yyidx == -1
      case Failed => yyidx >= 0 && shifted == begun
      case _ => true
    }

    /** The tokens before the end of the input; k of them are shifted before it stops. If the first
        m of them are the beginning of a sentence, it does not fail among these. */
    method ParseTokens(input: seq<nat>, steps: Option<nat>, ghost m: nat, ghost tail: Symbols, ghost n: nat)
      returns (outcome: Outcome, ghost k: nat)
      requires Valid() && yyidx == -1 && m <= |input|
      requires steps.None? && input != [] ==> EndsOn(g, states, acts, yystack.Length, input)
      requires forall i :: 0 <= i < |input| ==> 0 < input[i] < g.nterminal
      modifies this, yystack
      ensures Valid() && outcome !in {Accepted, Ignored} && (input == [] ==> outcome == MoreInput)
      ensures outcome == OutOfSteps ==> steps.Some?
      ensures outcome == MoreInput ==> if input == [] then yyidx == -1 else yyidx >= 0 && shifted == input
      ensures outcome == Failed ==> k < |input| && yyidx >= 0 && shifted == input[..k]
      ensures outcome == MoreInput ==> Gets(g, states, acts, yystack.Length, input, Held())
      ensures outcome == MoreInput ==> Follows(g, states, acts, yystack.Length, input, Held(), Made())
      ensures outcome !in {MoreInput, OutOfSteps} ==> forall a: Symbols :: !Gets(g, states, acts, yystack.Length, input, a)
      ensures outcome != OutOfSteps ==> forall i: nat :: i < |input| ==> EndsAt(g, states, acts, yystack.Length, input, i)
      ensures outcome !in {MoreInput, OutOfSteps} ==> EndsOn(g, states, acts, yystack.Length, input)
      ensures Decisive(g, states, acts) && Hopeful(g, [], input[..m] + tail, n) && outcome == Failed ==> k >= m
      ensures Decisive(g, states, acts) && Hopeful(g, [], input + tail, n) && m == |input| ==>
                && (Above(steps, n) ==> outcome != OutOfSteps)
                && (outcome == Overflowed ==> yystack.Length <= |input| + n + 1)
                && (outcome == MoreInput && input != [] ==> Hope(tail, n))
    {
      hide *;
      ghost var hope := Decisive(g, states, acts) && Hopeful(g, [], input[..m] + tail, n);
      outcome := MoreInput;
      var j := 0;
      k := j;
      assert m == |input| ==> input[..m] == input;
      HeldFirst();
      CompleteNow();
      ghost var d := yystack.Length;
      GotNothing(g, states, acts, d, input);
      MadeIs();
      assert Follows(g, states, acts, d, input[..0], Held(), Made()) by { FollowsNothing(g, states, acts, d, input); }
      while j < |input|
        invariant 0 <= j <= |input| && k == j && Valid()
        invariant if j == 0 then yyidx == -1 else yyidx >= 0 && shifted == input[..j]
        invariant yyidx < yystack.Length && Gets(g, states, acts, d, input[..j], Held())
        invariant Follows(g, states, acts, d, input[..j], Held(), Made())
        invariant forall i: nat :: i < j ==> EndsAt(g, states, acts, d, input, i)
        invariant hope && j <= m ==> if j == 0 then Hopeful(g, [], input[..m] + tail, n) else Hope(input[j..m] + tail, n)
      {
        ghost var ahead := if j < m then input[j..m] + tail else [input[j]];
        assert Next(ahead) == input[j] by { NextIsFirst(ahead); }
        assert input[..m] + tail == input[0..m] + tail;
        assert j < m ==> ahead[1..] == input[j+1..m] + tail;
        assert Next(input[j..]) == input[j] by { NextIsFirst(input[j..]); }
        ghost var a, made := Held(), Made();
        if steps.None? { EndsHere(g, states, acts, d, input, j, a); }
        outcome := Parse(input[j], steps, ahead, n);
        EndedMeans(outcome, input[j], input[..j]);
        if outcome == OutOfSteps { return; }
        ValidLow();
        TokenPassed(g, states, acts, d, input, j, a, steps, outcome, Held());
        if outcome != MoreInput {
          EndsEverywhere(g, states, acts, d, input);
          NeverGets(g, states, acts, d, input, j, a, steps, outcome, Held());
          return;
        }
        MadeIs();
        FollowsToken(g, states, acts, d, input, j, a, made, reduced, Held());
        assert input[..j+1] == input[..j] + [input[j]];
        j := j + 1;
        k := j;
      }
      assert input[..j] == input && (m == j ==> input[j..m] + tail == tail);
      outcome := MoreInput;
    }

    lemma EndedMeans(outcome: Outcome, yymajor: nat, begun: Symbols)
      requires Ended(outcome, yymajor, begun)
      ensures outcome == MoreInput ==> yyidx >= 0 && yymajor != 0 && shifted == begun + [yymajor]
      ensures outcome == Accepted ==> yymajor == 0 && shifted == begun && Rightmost(g, [g.start], reduced, shifted)
      ensures outcome == Failed ==> yyidx >= 0 && shifted == begun
    {
    }

    /** What a parser that is running has shifted is the beginning of a sentence. */
    lemma ShiftedCompletes()
      requires Valid() && yyidx >= 0 && Productive(g)
      ensures Completable(g, shifted)
    {
      var stack := Stack();
      assert Running(g, states, stack, reduced, shifted);
      hide Obeys, TablesAgree, Productive, Completable, Collection;
      PathLeads(states, stack);
      RightmostDerives(g, Majors(stack), reduced, shifted);
      IsDerived(g, Majors(stack), shifted, |reduced|);
      NothingFromNothing(g, Majors(stack), reduced, shifted);
      PathCompletes(g, lam, first, states, Majors(stack), stack[|stack|-1].stateno, shifted);
    }

    /** A caller's loop over a whole input.  On acceptance the reductions, read backwards, are a
        rightmost derivation of the input from the start symbol.  With decisive tables no sentence
        fails, and one that has a derivation of n steps is accepted if there are more than n rounds
        for each token and the stack has room for the input and n more.  A failure comes after k
        tokens: these are the beginning of a sentence, and no token more is, if the tables are
        decisive.  A limit on the rounds is needed exactly if the input leads the tables to a cycle,
        and then every limit is reached. */
    method ParseAll(input: seq<nat>, steps: Option<nat>) returns (outcome: Outcome, ghost k: nat)
      requires Valid() && yyidx == -1
      requires steps.None? && input != [] ==> EndsOn(g, states, acts, yystack.Length, input)
      requires forall i :: 0 <= i < |input| ==> 0 < input[i] < g.nterminal
      modifies this, yystack
      ensures Valid()
      ensures outcome == Accepted ==> Rightmost(g, [g.start], reduced, input) && Derives(g, [g.start], input)
      ensures outcome == Ignored <==> input == []
      ensures outcome != MoreInput
      ensures Decisive(g, states, acts) && Derives(g, [g.start], input) ==> outcome != Failed
      ensures Decisive(g, states, acts) && input != [] ==>
                forall n: nat :: DerivesIn(g, [g.start], input, n) && Above(steps, n) && |input| + n + 1 < yystack.Length ==>
                  outcome == Accepted
      ensures outcome == OutOfSteps ==> steps.Some?
      ensures input != [] && outcome != OutOfSteps ==> EndsOn(g, states, acts, yystack.Length, input)
      ensures outcome == Accepted ==> Accepts(g, states, acts, yystack.Length, input, reduced)
      ensures outcome !in {Accepted, OutOfSteps} && input != [] ==>
                forall ls: seq<nat> :: !Accepts(g, states, acts, yystack.Length, input, ls)
      ensures outcome == Failed ==> k <= |input| && (Productive(g) ==> Completable(g, input[..k]))
      ensures outcome == Failed && Decisive(g, states, acts) && k < |input| ==> !Completable(g, input[..k+1])
    {
      hide *;
      ReadyNow();
      ghost var m, tail, n := BestHope(g, lam, first, states, acts, t, yyRuleInfo, input);
      AboveDown(steps, n);
      assert input[..|input|] == input && input + [] == input;
      outcome, k := ParseTokens(input, steps, m, tail, n);
      if outcome == Failed && Productive(g) { ShiftedCompletes(); }
      if outcome != MoreInput {
        if outcome != OutOfSteps { NeverTaken(g, states, acts, yystack.Length, input); }
        return;
      }
      assert Next([]) == 0 by { NextIsFirst([]); }
      ValidLow();
      ghost var a, d, made := Held(), yystack.Length, Made();
      assert input[|input|..] == [];
      CompleteNow();
      if steps.None? && input != [] { EndsHere(g, states, acts, d, input, |input|, a); }
      outcome := Parse(0, steps, [], n);
      EndedMeans(outcome, 0, input);
      if input != [] && outcome != OutOfSteps {
        ValidLow();
        AcceptsOrNot(g, states, acts, d, input, a, outcome, made, reduced, Held());
        LastPassed(g, states, acts, d, input, a, steps, outcome, Held());
        EndsEverywhere(g, states, acts, d, input);
      }
      if outcome == Accepted {
        RightmostDerives(g, [g.start], reduced, shifted);
        IsDerived(g, [g.start], input, |reduced|);
      }
      k := |input|;
      if outcome == Failed && Productive(g) { ShiftedCompletes(); }
    }

    lemma ReadyNow()
      requires Valid()
      ensures Ready(g, lam, first, states, acts, t, yyRuleInfo) && 0 < g.nterminal
    {
    }
  }

  lemma AboveIs(steps: Option<nat>, n: nat)
    ensures Above(steps, n) <==> (steps.Some? ==> n < steps.value)
  {
  }

  lemma SaysAny(g: Grammar, states: seq<State>, acts: seq<seq<Action>>, x: nat, d: nat, a: Symbols, outcome: Option<Outcome>,
                r: nat, r': nat, b: Symbols)
    requires outcome.Some? && RoundSays(g, states, acts, x, d, a, outcome, r, if outcome == Some(MoreInput) then b else [])
    ensures RoundSays(g, states, acts, x, d, a, outcome, r', b)
  {
  }

  lemma SaysReduce(g: Grammar, states: seq<State>, acts: seq<seq<Action>>, x: nat, d: nat, a: Symbols, r: nat, b: Symbols)
    requires |b| < d && Reduces(g, states, acts, x, a, r) && r < |g.rules| && |g.rules[r].rhs| <= |a| && b == Reduced(g, a, r)
    ensures RoundSays(g, states, acts, x, d, a, None, r, b)
  {
  }

  lemma RunGrows(g: Grammar, states: seq<State>, acts: seq<seq<Action>>, x: nat, d: nat, a: Symbols, rs: seq<nat>, b: Symbols,
                 r: nat, c: Symbols)
    requires Runs(g, states, acts, x, d, a, rs, b) && RoundSays(g, states, acts, x, d, b, None, r, c)
    ensures Runs(g, states, acts, x, d, a, rs + [r], c)
  {
    hide Runs, Reduces;
    RunsNone(g, states, acts, x, d, c);
    RunsEndLow(g, states, acts, x, d, a, rs, b);
    RunsFirst(g, states, acts, x, d, b, [r], c);
    assert [r][1..] == [];
    RunsAppend(g, states, acts, x, d, a, rs, b, [r], c);
  }

  /** A round with an outcome comes where no reduction is left. */
  lemma TokenEnds(g: Grammar, states: seq<State>, acts: seq<seq<Action>>, x: nat, d: nat, a: Symbols, rs: seq<nat>, b: Symbols,
                  steps: Option<nat>, outcome: Outcome, r: nat, c: Symbols)
    requires Viable.Complete(g, states) && Runs(g, states, acts, x, d, a, rs, b)
    requires RoundSays(g, states, acts, x, d, b, Some(outcome), r, c) && outcome != OutOfSteps && (steps.Some? ==> |rs| < steps.value)
    ensures TokenSays(g, states, acts, x, d, a, steps, outcome, c)
  {
    hide Runs, Rests, Shifts, Reduces, RunsFor, Viable.Complete;
    if outcome == MoreInput {
      ShiftRests(g, states, acts, x, d, b);
    } else {
      forall e: Symbols ensures !Takes(g, states, acts, x, d, a, e) {
        if Takes(g, states, acts, x, d, a, e) {
          TakesAfter(g, states, acts, x, d, a, rs, b, e);
          assert false;
        }
      }
    }
    if steps.Some? { RestsAfter(g, states, acts, x, d, a, rs, b, steps.value); }
  }

  lemma NothingBackwards(before: seq<nat>)
    ensures before == Backwards([]) + before
  {
    assert Backwards([]) == [];
  }

  lemma {:induction false} BackwardsMore(rs: seq<nat>, r: nat)
    ensures Backwards(rs + [r]) == [r] + Backwards(rs)
  {
    if rs == [] {
      assert [] + [r] == [r] && [r][1..] == [] && Backwards([]) == [];
    } else {
      assert (rs + [r])[1..] == rs[1..] + [r];
      BackwardsMore(rs[1..], r);
    }
  }

  lemma MoreBackwards(g: Grammar, states: seq<State>, acts: seq<seq<Action>>, x: nat, b: Symbols, before: seq<nat>, done: seq<nat>,
                      after: seq<nat>, r: nat, rs: seq<nat>)
    requires RoundMakes(g, states, acts, x, b, None, done, after) && done == Backwards(rs) + before && (after != [] ==> r == after[0])
    ensures after == Backwards(rs + [r]) + before
  {
    BackwardsMore(rs, r);
  }

  lemma TokenMade(g: Grammar, states: seq<State>, acts: seq<seq<Action>>, x: nat, d: nat, a: Symbols, outcome: Outcome,
                  before: seq<nat>, done: seq<nat>, after: seq<nat>, r: nat, c: Symbols, rs: seq<nat>, b: Symbols)
    requires Runs(g, states, acts, x, d, a, rs, b) && done == Backwards(rs) + before
    requires RoundSays(g, states, acts, x, d, b, Some(outcome), r, c) && RoundMakes(g, states, acts, x, b, Some(outcome), done, after)
    ensures TokenMakes(g, states, acts, x, d, a, outcome, before, after, c)
  {
    hide Runs, Finishes, Shifts, Rests, Backwards;
    assert TokenMakesBy(g, states, acts, x, d, a, outcome, before, after, c, rs, b);
  }

  lemma TokenCut(g: Grammar, states: seq<State>, acts: seq<seq<Action>>, x: nat, d: nat, a: Symbols,
                 before: seq<nat>, after: seq<nat>, c: Symbols, rs: seq<nat>)
    requires Runs(g, states, acts, x, d, a, rs, c)
    ensures TokenMakes(g, states, acts, x, d, a, OutOfSteps, before, after, c)
  {
    hide Runs;
    assert TokenMakesBy(g, states, acts, x, d, a, OutOfSteps, before, after, c, rs, c);
  }

  lemma FollowsNothing(g: Grammar, states: seq<State>, acts: seq<seq<Action>>, d: nat, input: Symbols)
    ensures Follows(g, states, acts, d, input[..0], [], [])
  {
  }

  /** The token j has been taken. */
  lemma FollowsToken(g: Grammar, states: seq<State>, acts: seq<seq<Action>>, d: nat, input: Symbols, j: nat, a: Symbols,
                     before: seq<nat>, after: seq<nat>, c: Symbols)
    requires j < |input| && Follows(g, states, acts, d, input[..j], a, before)
    requires TokenMakes(g, states, acts, input[j], d, a, MoreInput, before, after, c)
    ensures Follows(g, states, acts, d, input[..j+1], c, after)
  {
    hide Runs, Follows, TakesBy;
    var rs: seq<nat>, b: Symbols :| TokenMakesBy(g, states, acts, input[j], d, a, MoreInput, before, after, c, rs, b);
    FollowsMore(g, states, acts, d, input[..j], a, before, input[j], rs, c);
    assert input[..j+1] == input[..j] + [input[j]];
  }

  /** Where a token is not taken the input never is. */
  lemma NeverGets(g: Grammar, states: seq<State>, acts: seq<seq<Action>>, d: nat, input: Symbols, j: nat, a: Symbols,
                  steps: Option<nat>, outcome: Outcome, c: Symbols)
    requires Viable.Complete(g, states) && j < |input| && Gets(g, states, acts, d, input[..j], a)
    requires TokenSays(g, states, acts, input[j], d, a, steps, outcome, c) && outcome !in {MoreInput, OutOfSteps}
    ensures forall e: Symbols :: !Gets(g, states, acts, d, input, e)
  {
    hide Gets, Takes, RunsFor, Viable.Complete;
    forall e: Symbols ensures !Gets(g, states, acts, d, input, e) {
      if Gets(g, states, acts, d, input, e) {
        var b, c' := GetsBefore(g, states, acts, d, input, e, j);
        GetsOne(g, states, acts, d, input[..j], a, b);
        assert false;
      }
    }
  }

  /** At the end marker the parser accepts if the tables do, by their reductions, and otherwise they do not. */
  lemma AcceptsOrNot(g: Grammar, states: seq<State>, acts: seq<seq<Action>>, d: nat, input: Symbols, a: Symbols, outcome: Outcome,
                     before: seq<nat>, after: seq<nat>, c: Symbols)
    requires Viable.Complete(g, states) && Gets(g, states, acts, d, input, a) && Follows(g, states, acts, d, input, a, before)
    requires TokenMakes(g, states, acts, 0, d, a, outcome, before, after, c) && outcome !in {OutOfSteps, MoreInput}
    ensures outcome == Accepted ==> Accepts(g, states, acts, d, input, after)
    ensures outcome != Accepted ==> forall ls: seq<nat> :: !Accepts(g, states, acts, d, input, ls)
  {
    hide Viable.Complete, Runs, Follows, Finishes, Rests, Gets;
    var rs: seq<nat>, b: Symbols :| TokenMakesBy(g, states, acts, 0, d, a, outcome, before, after, c, rs, b);
    if outcome == Accepted {
      assert AcceptsFrom(g, states, acts, d, after, a, before, rs, b, after[0]);
    } else {
      NotAccepted(g, states, acts, d, input, a, rs, b);
    }
  }

  lemma TokenStops(g: Grammar, states: seq<State>, acts: seq<seq<Action>>, x: nat, d: nat, a: Symbols, rs: seq<nat>, b: Symbols,
                   steps: Option<nat>)
    requires Runs(g, states, acts, x, d, a, rs, b) && steps == Some(|rs|)
    ensures TokenSays(g, states, acts, x, d, a, steps, OutOfSteps, b)
  {
    hide Runs, Takes;
    assert RunsFor(g, states, acts, x, d, a, |rs|);
  }

  /** What is known after token j has been treated. */
  lemma TokenPassed(g: Grammar, states: seq<State>, acts: seq<seq<Action>>, d: nat, input: Symbols, j: nat, a: Symbols,
                    steps: Option<nat>, outcome: Outcome, c: Symbols)
    requires Viable.Complete(g, states) && j < |input| && Gets(g, states, acts, d, input[..j], a)
    requires TokenSays(g, states, acts, input[j], d, a, steps, outcome, c) && outcome != OutOfSteps
    requires steps.None? ==> EndsAt(g, states, acts, d, input, j)
    ensures EndsAt(g, states, acts, d, input, j)
    ensures outcome == MoreInput ==> Gets(g, states, acts, d, input[..j+1], c)
    ensures outcome != MoreInput ==> forall i: nat :: j < i <= |input| ==> EndsAt(g, states, acts, d, input, i)
  {
    hide Gets, Takes, RunsFor, EndsAt, Viable.Complete;
    assert Next(input[j..]) == input[j] by { NextIsFirst(input[j..]); }
    if steps.Some? { NotForEver(g, states, acts, d, input, j, a, steps.value); }
    if outcome == MoreInput {
      GetsMore(g, states, acts, d, input[..j], a, input[j], c);
      assert input[..j+1] == input[..j] + [input[j]];
    } else {
      forall i: nat | j < i <= |input| ensures EndsAt(g, states, acts, d, input, i) {
        NeverGot(g, states, acts, d, input, j, a, i);
      }
    }
  }

  lemma LastPassed(g: Grammar, states: seq<State>, acts: seq<seq<Action>>, d: nat, input: Symbols, a: Symbols,
                   steps: Option<nat>, outcome: Outcome, c: Symbols)
    requires Viable.Complete(g, states) && Gets(g, states, acts, d, input, a)
    requires TokenSays(g, states, acts, 0, d, a, steps, outcome, c) && outcome != OutOfSteps
    requires steps.None? ==> EndsAt(g, states, acts, d, input, |input|)
    ensures EndsAt(g, states, acts, d, input, |input|)
  {
    hide Gets, Takes, RunsFor, EndsAt, Viable.Complete;
    assert input[..|input|] == input && Next(input[|input|..]) == 0;
    if steps.Some? { NotForEver(g, states, acts, d, input, |input|, a, steps.value); }
  }

  lemma AboveDown(steps: Option<nat>, n: nat)
    ensures forall d: nat :: n <= d && Above(steps, d) ==> Above(steps, n)
  {
  }

  lemma NextIsFirst(a: Symbols)
    ensures Next(a) == if a == [] then 0 else a[0]
  {
  }

  lemma IsDerived(g: Grammar, a: Symbols, b: Symbols, n: nat)
    requires DerivesIn(g, a, b, n)
    ensures Derives(g, a, b)
  {
  }

  /** A derivation shortens a form by at most one symbol a step. */
  lemma {:induction false} RightmostLength(g: Grammar, a: Symbols, rs: seq<nat>, b: Symbols)
    requires Rightmost(g, a, rs, b)
    ensures |a| <= |b| + |rs|
    decreases rs
  {
    if rs != [] {
      var i: nat, c: Symbols :| StepAt(g, a, c, i, rs[0]) && AllTerminals(g, a[i+1..]) && Rightmost(g, c, rs[1..], b);
      RightmostLength(g, c, rs[1..], b);
    }
  }

  lemma {:induction false} MajorsLength(stack: seq<StackEntry>)
    requires stack != []
    ensures |Majors(stack)| == |stack| - 1
  {
    if |stack| > 1 { MajorsLength(stack[..|stack|-1]); }
  }

  /** The stack is never higher than there are tokens shifted and reductions made. */
  lemma Height(g: Grammar, states: seq<State>, stack: seq<StackEntry>, reduced: seq<nat>, shifted: Symbols)
    requires Running(g, states, stack, reduced, shifted)
    ensures |stack| - 1 <= |shifted| + |reduced|
  {
    hide Rightmost;
    RightmostLength(g, Majors(stack), reduced, shifted);
    MajorsLength(stack);
  }

  lemma {:induction false} NothingFromNothing(g: Grammar, a: Symbols, rs: seq<nat>, b: Symbols)
    requires Rightmost(g, a, rs, b)
    ensures a == [] ==> b == []
  {
  }

  /** The longest part of the input that is the beginning of a sentence, and a rest of that sentence. */
  lemma {:induction false} LongestBeginning(g: Grammar, input: Symbols, k: nat) returns (m: nat, tail: Symbols)
    requires k <= |input|
    ensures m <= k && (m > 0 ==> Completion(g, input[..m], tail))
    ensures forall j: nat :: m < j <= k ==> !Completable(g, input[..j])
  {
    hide Completion;
    m, tail := k, [];
    if k > 0 {
      if w: Symbols :| Completion(g, input[..k], w) {
        tail := w;
      } else {
        m, tail := LongestBeginning(g, input, k - 1);
      }
    }
  }

  /** The shortest derivation of a sentence gives hope, and so does some sentence that has the most
      of the input. */
  lemma BestHope(g: Grammar, lam: Flags, first: Sets, states: seq<State>, acts: seq<seq<Action>>, t: ParseTables,
                 info: seq<RuleInfo>, input: seq<nat>) returns (m: nat, tail: Symbols, n: nat)
    requires Ready(g, lam, first, states, acts, t, info)
    requires forall k :: 0 <= k < |input| ==> 0 < input[k] < g.nterminal
    ensures m <= |input| && (m > 0 ==> Hopeful(g, [], input[..m] + tail, n))
    ensures Derives(g, [g.start], input) ==> m == |input| && tail == [] && Hopeful(g, [], input, n)
    ensures forall d: nat :: DerivesIn(g, [g.start], input, d) ==> n <= d && Derives(g, [g.start], input)
    ensures forall k: nat :: m < k <= |input| ==> !Completable(g, input[..k])
  {
    hide Obeys, TablesAgree, Collection, DerivesIn, Hopeful;
    if Derives(g, [g.start], input) {
      var k: nat :| DerivesIn(g, [g.start], input, k);
      m, tail := |input|, [];
      n := Shortest(g, [g.start], input, k);
      assert input[..m] + tail == input;
      SentenceHopeful(g, input, n);
    } else {
      n := 0;
      m, tail := LongestBeginning(g, input, |input|);
      if m > 0 {
        n :| DerivesIn(g, [g.start], input[..m] + tail, n);
        SentenceHopeful(g, input[..m] + tail, n);
      }
    }
  }

  lemma {:induction false} Shortest(g: Grammar, a: Symbols, b: Symbols, k: nat) returns (n: nat)
    requires DerivesIn(g, a, b, k)
    ensures DerivesIn(g, a, b, n) && forall m: nat :: DerivesIn(g, a, b, m) ==> n <= m
    decreases k
  {
    hide DerivesIn;
    n := k;
    if m: nat :| DerivesIn(g, a, b, m) && m < k {
      n := Shortest(g, a, b, m);
    }
  }

  lemma JustStarted(g: Grammar, lam: Flags, first: Sets, states: seq<State>, acts: seq<seq<Action>>, t: ParseTables,
                    info: seq<RuleInfo>)
    requires Ready(g, lam, first, states, acts, t, info)
    ensures Running(g, states, [StackEntry(0, 0)], [], [])
  {
  }
}
