/** A grammar on which Lemon's assertion that every state has an action fails: S -> B C,
    C -> C c, B -> b.  Nothing begins C, so that nothing can follow B. */
module StuckGrammar {
  import opened Shared
  import opened Grammars
  import opened BitSets
  import opened FirstSets
  import opened LR0
  import opened Closure
  import opened Automaton
  import opened Actions
  import opened Viable
  import opened Lookaheads
  import opened Lemon
  import MSort
  import States

  const b: nat := 1
  const c: nat := 2
  const S: nat := 3
  const B: nat := 4
  const C: nat := 5

  function NoWay(): Grammar {
    Grammar(3, 6, [Rule(S, [B, C], None), Rule(C, [C, c], None), Rule(B, [b], None)], S, [-1, -1, -1, -1, -1, -1],
            [UNK, UNK, UNK, UNK, UNK, UNK])
  }

  /** Whatever a string that begins with C derives begins with C. */
  lemma {:induction false} StaysC(w: Symbols, v: Symbols, n: nat)
    requires w != [] && w[0] == C && DerivesIn(NoWay(), w, v, n)
    ensures v != [] && v[0] == C
    decreases n
  {
    if n > 0 {
      var u: Symbols :| Step(NoWay(), w, u) && DerivesIn(NoWay(), u, v, n - 1);
      var i: nat, r: nat :| StepAt(NoWay(), w, u, i, r);
      assert u[0] == C;
      StaysC(u, v, n - 1);
    }
  }

  lemma NothingBegins(t: nat)
    ensures !Derives(NoWay(), [C], []) && (t < C ==> !Begins(NoWay(), [C], t))
  {
    var w: Symbols := [C];
    forall v: Symbols | Derives(NoWay(), w, v) ensures v != [] && v[0] == C {
      var n: nat :| DerivesIn(NoWay(), w, v, n);
      StaysC(w, v, n);
    }
  }

  /** B is predicted only before C. */
  lemma BeforeC(d: Config, k: nat)
    requires Predicts(NoWay(), d, Config(2, k))
    ensures Rest(NoWay(), d) == [C]
  {
    assert d.rule == 0 && d.dot == 0;
  }

  lemma {:induction false} NoLookahead(states: seq<State>, q: nat, k: nat, t: nat, n: nat)
    requires t < C
    ensures !LookIn(NoWay(), states, q, Config(2, k), t, n)
    decreases n
  {
    var g, d := NoWay(), Config(2, k);
    NothingBegins(t);
    if n == 0 {
      forall e | Predicts(g, e, d) ensures !Begins(g, Rest(g, e), t) { BeforeC(e, k); }
    } else {
      forall p: nat, e | Propagates(g, states, p, e, q, d) ensures !LookIn(g, states, p, e, t, n - 1) {
        if Predicts(g, e, d) { BeforeC(e, k); }
        if d == Advance(e) { NoLookahead(states, p, e.dot, t, n - 1); }
      }
    }
  }

  /** The state that B -> b ends in: all of its configurations are B -> b. with nothing to follow. */
  lemma AfterB(lam: Flags, first: Sets, states: seq<State>) returns (q: nat)
    requires Collection(NoWay(), lam, first, states)
    ensures 0 < q < |states| && forall i :: 0 <= i < |states[q].cfp| ==> states[q].cfp[i].cfg == Config(2, 1)
  {
    StartsWithS(lam, first, states);
    CollectionComplete(NoWay(), lam, first, states);
    q := AfterShift(states);
    OnlyBasis(lam, first, states, q);
  }

  lemma AfterShift(states: seq<State>) returns (q: nat)
    requires Complete(NoWay(), states)
    ensures q < |states| && forall d :: d in states[q].basis ==> d == Config(2, 1)
  {
    var g := NoWay();
    StartCase(states);
    q := ShiftExists(g, states, 0, Config(2, 0));
    assert Finished(g, states, 0) && IsGoto(g, states[0].cfp, b, states[q].basis);
    forall d | d in states[q].basis ensures d == Config(2, 1) {
      assert InGoto(g, states[0].cfp, b, d);
      BeforeSmallB(states[0].cfp, d);
    }
  }

  lemma StartCase(states: seq<State>)
    requires Complete(NoWay(), states)
    ensures Has(states[0].cfp, Config(2, 0))
  {
    assert Has(states[0].cfp, Config(0, 0)) && Predicts(NoWay(), Config(0, 0), Config(2, 0));
  }

  lemma BeforeSmallB(items: seq<Item>, d: Config)
    requires InGoto(NoWay(), items, b, d)
    ensures d == Config(2, 1)
  {
  }

  lemma NothingPredicted(d: Config)
    ensures !Predicts(NoWay(), Config(2, 1), d)
  {
  }

  lemma OnlyBasis(lam: Flags, first: Sets, states: seq<State>, q: nat)
    requires Collection(NoWay(), lam, first, states) && q < |states|
    requires forall d :: d in states[q].basis ==> d == Config(2, 1)
    ensures forall i :: 0 <= i < |states[q].cfp| ==> states[q].cfp[i].cfg == Config(2, 1)
  {
    var g, t := NoWay(), {Config(2, 1)};
    assert StateOK(g, lam, first, q, states[q]);
    forall d ensures !Predicts(g, Config(2, 1), d) { NothingPredicted(d); }
    hide Predicts;
    assert ClosedUnder(g, t);
    forall i | 0 <= i < |states[q].cfp| ensures states[q].cfp[i].cfg == Config(2, 1) {
      assert states[q].cfp[i].cfg in t;
    }
  }

  lemma StartsWithS(lam: Flags, first: Sets, states: seq<State>)
    requires Collection(NoWay(), lam, first, states)
    ensures exists i :: 0 <= i < |states[0].cfp| && states[0].cfp[i].cfg == Config(0, 0)
  {
    CollectionComplete(NoWay(), lam, first, states);
    assert Has(states[0].cfp, Config(0, 0));
  }

  lemma ShiftsGoOn(g: Grammar, states: seq<State>, q: nat)
    requires q < |states| && Finished(g, states, q)
    ensures states[q].shifts != [] ==>
              exists i, x: nat :: 0 <= i < |states[q].cfp| && Before(g, states[q].cfp[i].cfg, x)
  {
    var st := states[q];
    if st.shifts != [] {
      var x, p := st.shifts[0].sym, st.shifts[0].stp;
      assert HasShift(st, x, p);
      var d := states[p].basis[0];
      assert d in states[p].basis && InGoto(g, st.cfp, x, d);
    }
  }

  /** Whatever automaton is built for this grammar, one of its states has no action. */
  lemma SomeStateStuck(lam: Flags, first: Sets, states: seq<State>, states': seq<State>) returns (q: nat)
    requires Collection(NoWay(), lam, first, states) && LookaheadsExact(NoWay(), states, states')
    ensures q < |states'| && NoAction(NoWay(), q, states'[q])
  {
    var g := NoWay();
    q := AfterB(lam, first, states);
    CoreReady(g, lam, first, states, states', q);
    var st := states'[q];
    assert SameCore(states[q], st);
    forall i, t: nat | 0 <= i < |st.cfp| && t < g.nterminal ensures t !in st.cfp[i].fws {
      assert FollowExactAt(g, states, states', q, i);
      forall n: nat ensures !LookIn(g, states, q, Config(2, 1), t, n) { NoLookahead(states, q, 1, t, n); }
    }
    assert Finished(g, states', q);
    ShiftsGoOn(g, states', q);
    NoActionIs(g, states', q);
  }

  lemma {:induction false} Pow2Above(n: nat)
    ensures Pow2(n) > n
  {
    if n > 0 { Pow2Above(n - 1); }
  }

  lemma NoWaySmall()
    ensures States.Small(NoWay()) && SmallTables(NoWay())
  {
    hide Pow2;
    Pow2Above(MSort.LISTSIZE);
    var all := {Config(0, 0), Config(0, 1), Config(0, 2), Config(1, 0), Config(1, 1), Config(1, 2), Config(2, 0), Config(2, 1)};
    forall d | d in AllConfigs(NoWay()) ensures d in all {}
    SubsetSmall(AllConfigs(NoWay()), all);
    assert |all| <= 8;
  }

  lemma {:induction false} SubsetSmall(s: set<Config>, t: set<Config>)
    requires s <= t
    ensures |s| <= |t|
  {
    assert t == s + (t - s);
  }

  lemma NoWayOK()
    ensures GrammarOK(NoWay())
  {
    NoWaySmall();
    hide States.Small, SmallTables;
  }

  /** The run of Lemon on this grammar ends in the failed assertion. */
  method GeneratesNothing() returns (ok: bool)
    ensures !ok
  {
    NoWayOK();
    var t, info, nconflict;
    ghost var lam, first, states, states', acts;
    ok, t, info, nconflict, lam, first, states, states', acts := Generate(NoWay());
    ghost var q := SomeStateStuck(lam, first, states, states');
  }
}
