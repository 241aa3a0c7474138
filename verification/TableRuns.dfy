/** What the tables do with a whole input: the tokens they take, the reductions they make, and whether they
    accept.  All of it is determined by the tables. */
module TableRuns {
  import opened Grammars
  import opened BitSets
  import opened LR0
  import opened Closure
  import opened Automaton
  import opened Actions
  import opened Compress
  import opened Lookaheads
  import opened Viable
  import opened Halting
  import opened Cycles

  /** With the symbols a on the stack and the token x next, the parser reduces by the start rule r and accepts. */
  ghost predicate Finishes(g: Grammar, states: seq<State>, acts: seq<seq<Action>>, x: nat, a: Symbols, r: nat) {
    exists q: nat :: FinishesIn(g, states, acts, x, a, q, r)
  }

  ghost predicate FinishesIn(g: Grammar, states: seq<State>, acts: seq<seq<Action>>, x: nat, a: Symbols, q: nat, r: nat) {
    Leads(states, a, q) && q < |acts| && Meaning(g, acts[q], x) == Reduce(r) && r < |g.rules| && g.rules[r].lhs == g.start
  }

  /** On the token x the parser makes the reductions rs and shifts, to the stack c. */
  ghost predicate TakesBy(g: Grammar, states: seq<State>, acts: seq<seq<Action>>, x: nat, d: nat, a: Symbols, rs: seq<nat>, c: Symbols) {
    |c| < d && exists b: Symbols :: Runs(g, states, acts, x, d, a, rs, b) && Shifts(g, states, acts, x, b) && c == b + [x]
  }

  ghost predicate FollowsFrom(g: Grammar, states: seq<State>, acts: seq<seq<Action>>, d: nat, u: Symbols, a: Symbols, ls: seq<nat>,
                              c: Symbols, before: seq<nat>, rs: seq<nat>)
    requires u != []
  {
    TakesBy(g, states, acts, Last(u), d, c, rs, a) && ls == Backwards(rs) + before
  }

  /** On the tokens u the parser makes the reductions ls, the latest first, and has the stack a. */
  ghost predicate Follows(g: Grammar, states: seq<State>, acts: seq<seq<Action>>, d: nat, u: Symbols, a: Symbols, ls: seq<nat>)
    decreases |u|
  {
    if u == [] then a == [] && ls == []
    else exists c: Symbols, before: seq<nat>, rs: seq<nat> ::
           FollowsFrom(g, states, acts, d, u, a, ls, c, before, rs) && Follows(g, states, acts, d, u[..|u|-1], c, before)
  }

  ghost predicate AcceptsFrom(g: Grammar, states: seq<State>, acts: seq<seq<Action>>, d: nat, ls: seq<nat>,
                              a: Symbols, before: seq<nat>, rs: seq<nat>, b: Symbols, r: nat)
  {
    Runs(g, states, acts, 0, d, a, rs, b) && Finishes(g, states, acts, 0, b, r) && ls == [r] + Backwards(rs) + before
  }

  /** The parser takes all of u and accepts at the end marker, by the reductions ls, the latest first. */
  ghost predicate Accepts(g: Grammar, states: seq<State>, acts: seq<seq<Action>>, d: nat, u: Symbols, ls: seq<nat>) {
    exists a: Symbols, before: seq<nat>, rs: seq<nat>, b: Symbols, r: nat ::
      Follows(g, states, acts, d, u, a, before) && AcceptsFrom(g, states, acts, d, ls, a, before, rs, b, r)
  }

  /** Of two runs from the same stack one begins with the other. */
  lemma {:induction false} RunPrefix(g: Grammar, states: seq<State>, acts: seq<seq<Action>>, x: nat, d: nat, a: Symbols,
                                     rs: seq<nat>, b: Symbols, rs': seq<nat>, b': Symbols)
    requires Viable.Complete(g, states) && Runs(g, states, acts, x, d, a, rs, b) && Runs(g, states, acts, x, d, a, rs', b') && |rs| <= |rs'|
    ensures rs'[..|rs|] == rs
    decreases rs
  {
    hide Runs, Reduces, Viable.Complete;
    if rs != [] {
      RunsFirst(g, states, acts, x, d, a, rs, b);
      RunsFirst(g, states, acts, x, d, a, rs', b');
      OneRule(g, states, acts, x, a, rs[0], rs'[0]);
      RunPrefix(g, states, acts, x, d, Reduced(g, a, rs[0]), rs[1..], b, rs'[1..], b');
      assert rs'[..|rs|] == [rs'[0]] + rs'[1..][..|rs|-1];
    }
  }

  /** Two runs from the same stack that both end where nothing is left to reduce are the same. */
  lemma OneRest(g: Grammar, states: seq<State>, acts: seq<seq<Action>>, x: nat, d: nat, a: Symbols,
                rs: seq<nat>, b: Symbols, rs': seq<nat>, b': Symbols)
    requires Viable.Complete(g, states) && Runs(g, states, acts, x, d, a, rs, b) && Runs(g, states, acts, x, d, a, rs', b')
    requires Rests(g, states, acts, x, d, b) && Rests(g, states, acts, x, d, b')
    ensures rs == rs' && b == b'
  {
    hide *;
    if |rs| <= |rs'| {
      RunPrefix(g, states, acts, x, d, a, rs, b, rs', b');
      OneRun(g, states, acts, x, d, a, rs, b, rs', b');
      RestsHere(g, states, acts, x, d, b, rs'[|rs|..], b');
      RunsNothing(g, states, acts, x, d, b, b');
      assert rs'[..|rs|] == rs';
    } else {
      RunPrefix(g, states, acts, x, d, a, rs', b', rs, b);
      OneRun(g, states, acts, x, d, a, rs', b', rs, b);
      RestsHere(g, states, acts, x, d, b', rs[|rs'|..], b);
      assert false;
    }
  }

  lemma FinishRests(g: Grammar, states: seq<State>, acts: seq<seq<Action>>, x: nat, d: nat, b: Symbols, r: nat)
    requires Viable.Complete(g, states) && Finishes(g, states, acts, x, b, r)
    ensures Rests(g, states, acts, x, d, b) && !Shifts(g, states, acts, x, b)
    ensures forall r': nat :: Finishes(g, states, acts, x, b, r') ==> r' == r
  {
    hide Viable.Complete, Meaning, Leads;
    var q: nat :| FinishesIn(g, states, acts, x, b, q, r);
    forall p: nat | Leads(states, b, p) ensures p == q { OnePath(g, states, b, p, q); }
    forall r': nat ensures !Reduces(g, states, acts, x, b, r') {
      forall p: nat ensures !ReducesIn(g, states, acts, x, b, p, r') {}
    }
    forall p: nat ensures !ShiftsIn(g, states, acts, x, b, p) {}
  }

  lemma TakesOnce(g: Grammar, states: seq<State>, acts: seq<seq<Action>>, x: nat, d: nat, a: Symbols, rs: seq<nat>, c: Symbols,
                  rs': seq<nat>, c': Symbols)
    requires Viable.Complete(g, states) && TakesBy(g, states, acts, x, d, a, rs, c) && TakesBy(g, states, acts, x, d, a, rs', c')
    ensures rs == rs' && c == c'
  {
    hide Viable.Complete, Runs, Shifts;
    var b: Symbols :| Runs(g, states, acts, x, d, a, rs, b) && Shifts(g, states, acts, x, b) && c == b + [x];
    var b': Symbols :| Runs(g, states, acts, x, d, a, rs', b') && Shifts(g, states, acts, x, b') && c' == b' + [x];
    ShiftRests(g, states, acts, x, d, b);
    ShiftRests(g, states, acts, x, d, b');
    OneRest(g, states, acts, x, d, a, rs, b, rs', b');
  }

  /** Stack and reductions after some tokens are determined by the tables. */
  lemma {:induction false} FollowsOnce(g: Grammar, states: seq<State>, acts: seq<seq<Action>>, d: nat, u: Symbols, a: Symbols, ls: seq<nat>,
                                       a': Symbols, ls': seq<nat>)
    requires Viable.Complete(g, states) && Follows(g, states, acts, d, u, a, ls) && Follows(g, states, acts, d, u, a', ls')
    ensures a == a' && ls == ls'
    decreases |u|
  {
    hide Viable.Complete, TakesBy;
    if u != [] {
      var n := |u| - 1;
      var c: Symbols, before: seq<nat>, rs: seq<nat> :|
        FollowsFrom(g, states, acts, d, u, a, ls, c, before, rs) && Follows(g, states, acts, d, u[..|u|-1], c, before);
      var c': Symbols, before': seq<nat>, rs': seq<nat> :|
        FollowsFrom(g, states, acts, d, u, a', ls', c', before', rs') && Follows(g, states, acts, d, u[..|u|-1], c', before');
      FollowsOnce(g, states, acts, d, u[..n], c, before, c', before');
      TakesOnce(g, states, acts, Last(u), d, c, rs, a, rs', a');
    }
  }

  lemma FollowsMore(g: Grammar, states: seq<State>, acts: seq<seq<Action>>, d: nat, u: Symbols, a: Symbols, before: seq<nat>,
                    x: nat, rs: seq<nat>, c: Symbols)
    requires Follows(g, states, acts, d, u, a, before) && TakesBy(g, states, acts, x, d, a, rs, c)
    ensures Follows(g, states, acts, d, u + [x], c, Backwards(rs) + before)
  {
    hide TakesBy;
    var v := u + [x];
    assert v[..|v|-1] == u && Last(v) == x;
    assert FollowsFrom(g, states, acts, d, v, c, Backwards(rs) + before, a, before, rs);
  }

  lemma TakesAs(g: Grammar, states: seq<State>, acts: seq<seq<Action>>, x: nat, d: nat, a: Symbols, rs: seq<nat>, c: Symbols)
    requires TakesBy(g, states, acts, x, d, a, rs, c)
    ensures Takes(g, states, acts, x, d, a, c)
  {
  }

  lemma {:induction false} FollowsGets(g: Grammar, states: seq<State>, acts: seq<seq<Action>>, d: nat, u: Symbols, a: Symbols, ls: seq<nat>)
    requires Follows(g, states, acts, d, u, a, ls)
    ensures Gets(g, states, acts, d, u, a)
    decreases |u|
  {
    hide TakesBy, Takes;
    if u != [] {
      var n := |u| - 1;
      var c: Symbols, before: seq<nat>, rs: seq<nat> :|
        FollowsFrom(g, states, acts, d, u, a, ls, c, before, rs) && Follows(g, states, acts, d, u[..|u|-1], c, before);
      FollowsGets(g, states, acts, d, u[..n], c, before);
      TakesAs(g, states, acts, Last(u), d, c, rs, a);
    }
  }

  /** An input is accepted by one sequence of reductions at most. */
  lemma AcceptsOnce(g: Grammar, states: seq<State>, acts: seq<seq<Action>>, d: nat, u: Symbols, ls: seq<nat>, ls': seq<nat>)
    requires Viable.Complete(g, states) && Accepts(g, states, acts, d, u, ls) && Accepts(g, states, acts, d, u, ls')
    ensures ls == ls'
  {
    hide Viable.Complete, Follows, Runs, Finishes, Rests;
    var a: Symbols, before: seq<nat>, rs: seq<nat>, b: Symbols, r: nat :|
      Follows(g, states, acts, d, u, a, before) && AcceptsFrom(g, states, acts, d, ls, a, before, rs, b, r);
    var a': Symbols, before': seq<nat>, rs': seq<nat>, b': Symbols, r': nat :|
      Follows(g, states, acts, d, u, a', before') && AcceptsFrom(g, states, acts, d, ls', a', before', rs', b', r');
    FollowsOnce(g, states, acts, d, u, a, before, a', before');
    FinishRests(g, states, acts, 0, d, b, r);
    FinishRests(g, states, acts, 0, d, b', r');
    OneRest(g, states, acts, 0, d, a, rs, b, rs', b');
  }

  /** Where the parser stops on the end marker without accepting, the input is not accepted. */
  lemma NotAccepted(g: Grammar, states: seq<State>, acts: seq<seq<Action>>, d: nat, u: Symbols, a: Symbols, rs: seq<nat>, b: Symbols)
    requires Viable.Complete(g, states) && Gets(g, states, acts, d, u, a) && Runs(g, states, acts, 0, d, a, rs, b)
    requires Rests(g, states, acts, 0, d, b) && forall r: nat :: !Finishes(g, states, acts, 0, b, r)
    ensures forall ls: seq<nat> :: !Accepts(g, states, acts, d, u, ls)
  {
    hide Viable.Complete, Follows, Runs, Finishes, Rests, Gets;
    forall ls: seq<nat> ensures !Accepts(g, states, acts, d, u, ls) {
      if a': Symbols, before': seq<nat>, rs': seq<nat>, b': Symbols, r': nat :|
        Follows(g, states, acts, d, u, a', before') && AcceptsFrom(g, states, acts, d, ls, a', before', rs', b', r') {
        FollowsGets(g, states, acts, d, u, a', before');
        GetsOne(g, states, acts, d, u, a, a');
        FinishRests(g, states, acts, 0, d, b', r');
        OneRest(g, states, acts, 0, d, a, rs, b, rs', b');
        assert false;
      }
    }
  }

  /** An input that the parser does not take to its end is not accepted. */
  lemma NeverTaken(g: Grammar, states: seq<State>, acts: seq<seq<Action>>, d: nat, u: Symbols)
    requires forall a: Symbols :: !Gets(g, states, acts, d, u, a)
    ensures forall ls: seq<nat> :: !Accepts(g, states, acts, d, u, ls)
  {
    hide Follows, Gets;
    forall ls: seq<nat> ensures !Accepts(g, states, acts, d, u, ls) {
      if a: Symbols, before: seq<nat>, rs: seq<nat>, b: Symbols, r: nat :|
        Follows(g, states, acts, d, u, a, before) && AcceptsFrom(g, states, acts, d, ls, a, before, rs, b, r) {
        FollowsGets(g, states, acts, d, u, a, before);
        assert false;
      }
    }
  }
}
