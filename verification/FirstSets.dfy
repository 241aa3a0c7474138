/** `FindFirstSets`: which nonterminals derive the empty string, and which terminals can begin
    what a nonterminal derives.  Both are computed by iterating over the rules until nothing
    changes; both results are exact. */
module FirstSets {
  import opened Grammars
  import opened BitSets

  // ------------------------------------------------------------ the empty string

  ghost predicate AllLambda(a: Symbols, lam: Flags) {
    forall k :: 0 <= k < |a| ==> a[k] < |lam| && lam[a[k]]
  }

  ghost predicate LambdaSound(g: Grammar, lam: Flags) {
    |lam| == g.nsymbol &&
    forall s: nat :: s < |lam| && lam[s] ==> g.nterminal <= s && Derives(g, [s], [])
  }

  ghost predicate LambdaSaturated(rule: Rule, lam: Flags) {
    AllLambda(rule.rhs, lam) ==> rule.lhs < |lam| && lam[rule.lhs]
  }

  ghost predicate LambdaClosed(g: Grammar, lam: Flags) {
    forall r :: 0 <= r < |g.rules| ==> LambdaSaturated(g.rules[r], lam)
  }

  lemma {:induction false} AllLambdaDerives(g: Grammar, a: Symbols, lam: Flags)
    requires LambdaSound(g, lam) && AllLambda(a, lam)
    ensures Derives(g, a, [])
  {
    if a == [] {
      DerivesSelf(g, a);
    } else {
      AllLambdaDerives(g, a[1..], lam);
      DerivesContext(g, [], [a[0]], [], a[1..]);
      assert [] + [a[0]] + a[1..] == a && [] + [] + a[1..] == a[1..];
      DerivesTrans(g, a, a[1..], []);
    }
  }

  lemma LambdaRule(g: Grammar, r: nat, lam: Flags)
    requires g.Valid() && r < |g.rules| && LambdaSound(g, lam) && AllLambda(g.rules[r].rhs, lam)
    ensures LambdaSound(g, lam[g.rules[r].lhs := true])
  {
    AllLambdaDerives(g, g.rules[r].rhs, lam);
    RuleDerives(g, r);
    DerivesTrans(g, [g.rules[r].lhs], g.rules[r].rhs, []);
  }

  lemma NoneLambda(a: Symbols, lam: Flags)
    requires a == []
    ensures AllLambda(a, lam)
  {
  }

  /** At the fixpoint every string that derives the empty string consists of lambda symbols. */
  lemma {:induction false} LambdaComplete(g: Grammar, lam: Flags, a: Symbols, n: nat)
    requires LambdaClosed(g, lam) && DerivesIn(g, a, [], n)
    ensures AllLambda(a, lam)
    decreases n
  {
    hide LambdaClosed, AllLambda, Step;
    if n > 0 {
      var c: Symbols :| Step(g, a, c) && DerivesIn(g, c, [], n - 1);
      hide DerivesIn;
      LambdaComplete(g, lam, c, n - 1);
      LambdaUnstepAll(g, lam, a, c);
    } else {
      NoneLambda(a, lam);
    }
  }

  lemma LambdaUnstepAll(g: Grammar, lam: Flags, a: Symbols, c: Symbols)
    requires LambdaClosed(g, lam) && Step(g, a, c) && AllLambda(c, lam)
    ensures AllLambda(a, lam)
  {
    hide LambdaClosed, AllLambda, StepAt;
    var i: nat, r: nat :| StepAt(g, a, c, i, r);
    StepShape(g, a, c, i, r);
    Whole(a);
    Whole(c);
    LambdaUnstep(g, lam, a, c, i, r, |c|);
  }

  lemma Whole(a: Symbols)
    ensures a[..|a|] == a
  {
  }

  // ------------------------------------------------------------ first terminals

  /** a derives a sentential form that starts with t. */
  ghost predicate Begins(g: Grammar, a: Symbols, t: nat) {
    exists b: Symbols :: Derives(g, a, [t] + b)
  }

  /** What symbol x contributes to the first set of a string that it starts. */
  ghost function Contributes(g: Grammar, first: Sets, x: nat): set<nat> {
    if g.Terminal(x) then {x} else if x < |first| then first[x] else {}
  }

  ghost predicate FirstSound(g: Grammar, first: Sets) {
    |first| == g.nsymbol &&
    forall s: nat, t: nat :: s < |first| && t in first[s] ==> g.Terminal(t) && Begins(g, [s], t)
  }

  /** The prefix of the right-hand side that can vanish, and the symbol after it, are accounted for. */
  ghost predicate FirstSaturated(g: Grammar, rule: Rule, lam: Flags, first: Sets, n: nat) {
    forall k :: 0 <= k < n && k < |rule.rhs| && AllLambda(rule.rhs[..k], lam)
      ==> Contributes(g, first, rule.rhs[k]) <= Contributes(g, first, rule.lhs)
  }

  ghost predicate FirstClosed(g: Grammar, lam: Flags, first: Sets) {
    forall r :: 0 <= r < |g.rules| ==> FirstSaturated(g, g.rules[r], lam, first, |g.rules[r].rhs|)
  }

  lemma ContributesBegins(g: Grammar, first: Sets, x: nat, t: nat)
    requires FirstSound(g, first) && t in Contributes(g, first, x)
    ensures Begins(g, [x], t)
  {
    if g.Terminal(x) {
      DerivesSelf(g, [x]);
      assert [t] + [] == [x];
      assert Derives(g, [x], [t] + []);
    } else {
      assert x < |first| && t in first[x];
      assert g.Terminal(t);
      assert Begins(g, [x], t);
    }
  }

  lemma BeginsAfter(g: Grammar, a: Symbols, u: Symbols, x: Symbols, v: Symbols, t: nat)
    requires Derives(g, a, u + x + v) && Derives(g, u, []) && Begins(g, x, t)
    ensures Begins(g, a, t)
  {
    hide Derives;
    var b: Symbols :| Derives(g, x, [t] + b);
    DerivesContext(g, [], u, [], x + v);
    assert [] + u + (x + v) == u + x + v;
    assert [] + [] + (x + v) == x + v;
    DerivesTrans(g, a, u + x + v, x + v);
    DerivesContext(g, [], x, [t] + b, v);
    assert [] + x + v == x + v;
    assert [] + ([t] + b) + v == [t] + (b + v);
    DerivesTrans(g, a, x + v, [t] + (b + v));
  }

  lemma BeginsRule(g: Grammar, r: nat, k: nat, lam: Flags, t: nat)
    requires r < |g.rules| && k < |g.rules[r].rhs| && LambdaSound(g, lam)
    requires AllLambda(g.rules[r].rhs[..k], lam) && Begins(g, [g.rules[r].rhs[k]], t)
    ensures Begins(g, [g.rules[r].lhs], t)
  {
    var rhs := g.rules[r].rhs;
    RuleDerives(g, r);
    AllLambdaDerives(g, rhs[..k], lam);
    assert rhs[..k] + [rhs[k]] + rhs[k+1..] == rhs;
    BeginsAfter(g, [g.rules[r].lhs], rhs[..k], [rhs[k]], rhs[k+1..], t);
  }

  ghost predicate InFirstAt(g: Grammar, lam: Flags, first: Sets, a: Symbols, t: nat, k: nat) {
    k < |a| && AllLambda(a[..k], lam) && t in Contributes(g, first, a[k])
  }

  /** At the fixpoint: a string that derives something starting with t has a vanishing prefix
      followed by a symbol to which t is attributed. */
  lemma {:induction false} FirstComplete(g: Grammar, lam: Flags, first: Sets, a: Symbols, t: nat, b: Symbols, n: nat)
    returns (k: nat)
    requires g.Valid() && LambdaClosed(g, lam) && FirstClosed(g, lam, first)
    requires g.Terminal(t) && DerivesIn(g, a, [t] + b, n)
    ensures InFirstAt(g, lam, first, a, t, k)
    decreases n
  {
    if n == 0 {
      k := 0;
    } else {
      var c: Symbols :| Step(g, a, c) && DerivesIn(g, c, [t] + b, n - 1);
      var j := FirstComplete(g, lam, first, c, t, b, n - 1);
      var i: nat, r: nat :| StepAt(g, a, c, i, r);
      k := FirstUnstep(g, lam, first, a, c, i, r, t, j);
    }
  }

  lemma StepShape(g: Grammar, a: Symbols, c: Symbols, i: nat, r: nat)
    requires StepAt(g, a, c, i, r)
    ensures i < |a| && r < |g.rules| && |c| == |a| - 1 + |g.rules[r].rhs|
    ensures forall m :: 0 <= m < i ==> c[m] == a[m]
    ensures forall m :: 0 <= m < |g.rules[r].rhs| ==> c[i + m] == g.rules[r].rhs[m]
    ensures forall m :: i < m < |a| ==> c[m - 1 + |g.rules[r].rhs|] == a[m]
  {
  }

  lemma FirstUnstep(g: Grammar, lam: Flags, first: Sets, a: Symbols, c: Symbols, i: nat, r: nat, t: nat, j: nat)
    returns (k: nat)
    requires g.Valid() && LambdaClosed(g, lam) && FirstClosed(g, lam, first)
    requires StepAt(g, a, c, i, r) && InFirstAt(g, lam, first, c, t, j)
    ensures InFirstAt(g, lam, first, a, t, k)
  {
    hide *;
    StepShape(g, a, c, i, r);
    if j < i {
      k := j;
      FirstUnstepBefore(g, lam, first, a, c, i, t, j);
    } else if j < i + |g.rules[r].rhs| {
      k := i;
      FirstUnstepWithin(g, lam, first, a, c, i, r, t, j);
    } else {
      k := j - |g.rules[r].rhs| + 1;
      FirstUnstepAfter(g, lam, first, a, c, i, r, t, j);
    }
  }

  lemma FirstUnstepBefore(g: Grammar, lam: Flags, first: Sets, a: Symbols, c: Symbols, i: nat, t: nat, j: nat)
    requires InFirstAt(g, lam, first, c, t, j) && j < i <= |a| && i <= |c| && forall m :: 0 <= m < i ==> c[m] == a[m]
    ensures InFirstAt(g, lam, first, a, t, j)
  {
    assert a[..j] == c[..j];
  }

  lemma FirstUnstepAfter(g: Grammar, lam: Flags, first: Sets, a: Symbols, c: Symbols, i: nat, r: nat, t: nat, j: nat)
    requires LambdaClosed(g, lam)
    requires StepAt(g, a, c, i, r) && InFirstAt(g, lam, first, c, t, j) && j >= i + |g.rules[r].rhs|
    ensures InFirstAt(g, lam, first, a, t, j - |g.rules[r].rhs| + 1)
  {
    StepShape(g, a, c, i, r);
    LambdaUnstep(g, lam, a, c, i, r, j);
    hide LambdaClosed, Contributes, StepAt, AllLambda;
    var m: nat := j - |g.rules[r].rhs| + 1;
    assert c[m - 1 + |g.rules[r].rhs|] == a[m];
  }

  lemma FirstUnstepWithin(g: Grammar, lam: Flags, first: Sets, a: Symbols, c: Symbols, i: nat, r: nat, t: nat, j: nat)
    requires g.Valid() && FirstClosed(g, lam, first)
    requires StepAt(g, a, c, i, r) && InFirstAt(g, lam, first, c, t, j) && i <= j < i + |g.rules[r].rhs|
    ensures InFirstAt(g, lam, first, a, t, i)
  {
    var rhs := g.rules[r].rhs;
    StepShape(g, a, c, i, r);
    assert c[..i] == a[..i] && c[i..j] == rhs[..j-i];
    LambdaPart(lam, c[..j], 0, i);
    LambdaPart(lam, c[..j], i, j);
    assert c[..j][0..i] == c[..i] && c[..j][i..j] == c[i..j];
    hide AllLambda, StepAt, Contributes;
    assert FirstSaturated(g, g.rules[r], lam, first, |rhs|);
    assert g.ValidRule(g.rules[r]);
    assert c[j] == rhs[j - i];
  }

  lemma LambdaPart(lam: Flags, a: Symbols, i: nat, j: nat)
    requires AllLambda(a, lam) && i <= j <= |a|
    ensures AllLambda(a[i..j], lam)
  {
    forall m | 0 <= m < |a[i..j]| ensures a[i..j][m] < |lam| && lam[a[i..j][m]] { assert a[i..j][m] == a[i + m]; }
  }

  ghost predicate LambdaAt(lam: Flags, a: Symbols, k: nat) {
    k < |a| && a[k] < |lam| && lam[a[k]]
  }

  lemma LambdaPrefix(lam: Flags, a: Symbols, j: nat)
    requires j <= |a|
    ensures AllLambda(a[..j], lam) <==> forall k: nat :: k < j ==> LambdaAt(lam, a, k)
  {
    forall k: nat | k < j ensures a[..j][k] == a[k] {}
    if AllLambda(a[..j], lam) {
      forall k: nat | k < j ensures LambdaAt(lam, a, k) { assert a[..j][k] == a[k]; }
    } else {
      var k: nat :| k < j && !(a[..j][k] < |lam| && lam[a[..j][k]]);
      assert !LambdaAt(lam, a, k);
    }
  }

  lemma LambdaUnstep(g: Grammar, lam: Flags, a: Symbols, c: Symbols, i: nat, r: nat, j: nat)
    requires LambdaClosed(g, lam) && StepAt(g, a, c, i, r)
    requires i + |g.rules[r].rhs| <= j <= |c| && AllLambda(c[..j], lam)
    ensures AllLambda(a[..j - |g.rules[r].rhs| + 1], lam)
  {
    var n, k: nat := |g.rules[r].rhs|, j - |g.rules[r].rhs| + 1;
    assert LambdaSaturated(g.rules[r], lam);
    StepShape(g, a, c, i, r);
    LambdaPrefix(lam, c, j);
    LambdaPrefix(lam, a, k);
    hide LambdaClosed, StepAt;
    forall m: nat | m < n ensures LambdaAt(lam, g.rules[r].rhs, m) { assert LambdaAt(lam, c, i + m); }
    hide LambdaSaturated;
    LambdaSide(g.rules[r], lam);
    forall m: nat | m < k ensures LambdaAt(lam, a, m) {
      var m': nat := if m <= i then m else m - 1 + n;
      if m != i { assert LambdaAt(lam, c, m'); }
    }
  }

  lemma LambdaSide(rule: Rule, lam: Flags)
    requires LambdaSaturated(rule, lam) && forall m: nat :: m < |rule.rhs| ==> LambdaAt(lam, rule.rhs, m)
    ensures rule.lhs < |lam| && lam[rule.lhs]
  {
    assert rule.rhs[..|rule.rhs|] == rule.rhs;
    LambdaPrefix(lam, rule.rhs, |rule.rhs|);
  }

  lemma OneMoreLambda(a: Symbols, lam: Flags, i: nat)
    requires i < |a| && AllLambda(a[..i], lam) && a[i] < |lam| && lam[a[i]]
    ensures AllLambda(a[..i+1], lam)
  {
    assert a[..i+1] == a[..i] + [a[i]];
  }

  // ------------------------------------------------------------ the two loops

  ghost predicate LambdaExact(g: Grammar, lam: Flags) {
    |lam| == g.nsymbol && forall s: nat :: s < |lam| ==> (lam[s] <==> Derives(g, [s], []))
  }

  ghost predicate FirstExact(g: Grammar, first: Sets) {
    |first| == g.nsymbol &&
    forall s: nat, t: nat :: g.nterminal <= s < |first| ==>
      (t in first[s] <==> g.Terminal(t) && Begins(g, [s], t))
  }

  lemma LambdaFixpoint(g: Grammar, lam: Flags)
    requires LambdaSound(g, lam) && LambdaClosed(g, lam)
    ensures LambdaExact(g, lam)
  {
    forall s: nat | s < |lam| ensures lam[s] <==> Derives(g, [s], []) {
      if Derives(g, [s], []) {
        var n: nat :| DerivesIn(g, [s], [], n);
        LambdaComplete(g, lam, [s], n);
        assert [s][0] == s;
      }
    }
  }

  lemma FirstFixpoint(g: Grammar, lam: Flags, first: Sets)
    requires g.Valid() && LambdaClosed(g, lam) && FirstSound(g, first) && FirstClosed(g, lam, first)
    ensures FirstExact(g, first)
  {
    forall s: nat, t: nat | g.nterminal <= s < |first|
      ensures t in first[s] <==> g.Terminal(t) && Begins(g, [s], t)
    {
      if g.Terminal(t) && Begins(g, [s], t) {
        var b: Symbols :| Derives(g, [s], [t] + b);
        var n: nat :| DerivesIn(g, [s], [t] + b, n);
        var k := FirstComplete(g, lam, first, [s], t, b, n);
        assert [s][k] == s;
      }
    }
  }

  class SymbolTable {
    const g: Grammar
    var lambda: array<bool>
    var firstset: array<set<nat>>

    ghost predicate Shaped()
      reads this
    {
      g.Valid() && lambda.Length == firstset.Length == g.nsymbol
    }

    constructor (g: Grammar)
      requires g.Valid()
      ensures Shaped() && this.g == g && fresh(lambda) && fresh(firstset)
    {
      this.g := g;
      lambda := new bool[g.nsymbol];
      firstset := new set<nat>[g.nsymbol];
    }

    /** Can the whole right-hand side vanish? */
    method AllVanish(rule: Rule) returns (b: bool)
      requires Shaped() && g.ValidRule(rule)
      ensures b <==> AllLambda(rule.rhs, lambda[..])
    {
      var i := 0;
      while i < |rule.rhs|
        invariant 0 <= i <= |rule.rhs|
        invariant forall k :: 0 <= k < i ==> lambda[rule.rhs[k]]
      {
        if !lambda[rule.rhs[i]] { return false; }
        i := i + 1;
      }
      return true;
    }

    /** One pass over all rules for lambda. */
    method LambdaPass() returns (progress: bool)
      requires Shaped() && LambdaSound(g, lambda[..])
      modifies lambda
      ensures LambdaSound(g, lambda[..])
      ensures progress ==> Unset(lambda[..]) < old(Unset(lambda[..]))
      ensures !progress ==> lambda[..] == old(lambda[..]) && LambdaClosed(g, lambda[..])
    {
      progress := false;
      var r := 0;
      while r < |g.rules|
        invariant 0 <= r <= |g.rules|
        invariant LambdaSound(g, lambda[..])
        invariant progress ==> Unset(lambda[..]) < old(Unset(lambda[..]))
        invariant !progress ==> lambda[..] == old(lambda[..])
        invariant !progress ==> forall r' :: 0 <= r' < r ==> LambdaSaturated(g.rules[r'], lambda[..])
      {
        var rule := g.rules[r];
        assert g.ValidRule(rule);
        if !lambda[rule.lhs] {
          ghost var before := lambda[..];
          var b := AllVanish(rule);
          if b {
            LambdaRule(g, r, before);
            UnsetDrops(before, rule.lhs);
            lambda[rule.lhs] := true;
            progress := true;
            assert lambda[..] == before[rule.lhs := true];
          }
        }
        r := r + 1;
      }
    }
  
    /** `SetAdd` and `SetUnion`: true if the set grew. */
    method AddAll(s: nat, more: set<nat>) returns (grew: bool)
      requires Shaped() && s < g.nsymbol
      modifies firstset
      ensures firstset[..] == old(firstset[..])[s := old(firstset[s]) + more]
      ensures grew <==> !(more <= old(firstset[s]))
    {
      grew := !(more <= firstset[s]);
      firstset[s] := firstset[s] + more;
    }

    /** Account for the symbol at i of the right-hand side of rule r. */
    method FirstOfSymbol(r: nat, i: nat) returns (progress: bool)
      requires Shaped() && r < |g.rules| && i < |g.rules[r].rhs|
      requires LambdaSound(g, lambda[..]) && FirstSound(g, firstset[..])
      requires AllLambda(g.rules[r].rhs[..i], lambda[..])
      requires FirstSaturated(g, g.rules[r], lambda[..], firstset[..], i)
      modifies firstset
      ensures FirstSound(g, firstset[..])
      ensures FirstSaturated(g, g.rules[r], lambda[..], firstset[..], i + 1)
      ensures progress ==> Room(firstset[..], g.nterminal) < old(Room(firstset[..], g.nterminal))
      ensures !progress ==> firstset[..] == old(firstset[..])
    {
      hide LambdaSound, FirstSound, AllLambda, FirstSaturated;
      var rule := g.rules[r];
      assert g.ValidRule(rule);
      var s2 := rule.rhs[i];
      ghost var before := firstset[..];
      progress := false;
      if s2 != rule.lhs {
        var more := if g.Terminal(s2) then {s2} else firstset[s2];
        assert more == Contributes(g, before, s2);
        UnionSound(g, before, lambda[..], r, i);
        progress := AddAll(rule.lhs, more);
        if progress {
          RoomDrops(before, rule.lhs, more, g.nterminal);
        } else {
          assert before[rule.lhs] + more == before[rule.lhs];
        }
      }
      SaturateOne(g, rule, lambda[..], before, firstset[..], i);
    }

    /** The loop over the right-hand side of one rule. */
    method FirstOfRule(r: nat) returns (progress: bool)
      requires Shaped() && r < |g.rules|
      requires LambdaSound(g, lambda[..]) && FirstSound(g, firstset[..])
      modifies firstset
      ensures FirstSound(g, firstset[..])
      ensures FirstSaturated(g, g.rules[r], lambda[..], firstset[..], |g.rules[r].rhs|)
      ensures progress ==> Room(firstset[..], g.nterminal) < old(Room(firstset[..], g.nterminal))
      ensures !progress ==> firstset[..] == old(firstset[..])
    {
      var rule := g.rules[r];
      assert g.ValidRule(rule);
      assert AllLambda(rule.rhs[..0], lambda[..]) && FirstSaturated(g, rule, lambda[..], firstset[..], 0);
      hide LambdaSound, FirstSound, FirstSaturated, Room, AllLambda;
      progress := false;
      var i := 0;
      while i < |rule.rhs|
        invariant 0 <= i <= |rule.rhs|
        invariant AllLambda(rule.rhs[..i], lambda[..])
        invariant FirstSound(g, firstset[..])
        invariant FirstSaturated(g, rule, lambda[..], firstset[..], i)
        invariant progress ==> Room(firstset[..], g.nterminal) < old(Room(firstset[..], g.nterminal))
        invariant !progress ==> firstset[..] == old(firstset[..])
        modifies firstset
      {
        var s2 := rule.rhs[i];
        var grew := FirstOfSymbol(r, i);
        if grew { progress := true; }
        if g.Terminal(s2) || !lambda[s2] {
          StopHere(g, rule, lambda[..], firstset[..], i);
          break;
        }
        OneMoreLambda(rule.rhs, lambda[..], i);
        i := i + 1;
      }
    }

    /** One pass over all rules for the first sets. */
    method FirstPass() returns (progress: bool)
      requires Shaped()
      requires LambdaSound(g, lambda[..]) && FirstSound(g, firstset[..])
      modifies firstset
      ensures FirstSound(g, firstset[..])
      ensures progress ==> Room(firstset[..], g.nterminal) < old(Room(firstset[..], g.nterminal))
      ensures !progress ==> firstset[..] == old(firstset[..]) && FirstClosed(g, lambda[..], firstset[..])
    {
      hide FirstSaturated, FirstSound, LambdaSound;
      progress := false;
      var r := 0;
      while r < |g.rules|
        invariant 0 <= r <= |g.rules|
        invariant FirstSound(g, firstset[..])
        invariant progress ==> Room(firstset[..], g.nterminal) < old(Room(firstset[..], g.nterminal))
        invariant !progress ==> firstset[..] == old(firstset[..])
        invariant !progress ==> forall r' :: 0 <= r' < r ==>
                    FirstSaturated(g, g.rules[r'], lambda[..], firstset[..], |g.rules[r'].rhs|)
        modifies firstset
      {
        var grew := FirstOfRule(r);
        if grew { progress := true; }
        r := r + 1;
      }
    }

    /** `FindFirstSets`: both tables are exact when it returns. */
    method FindFirstSets()
      requires Shaped()
      modifies lambda, firstset
      ensures Shaped()
      ensures LambdaSound(g, lambda[..]) && LambdaExact(g, lambda[..])
      ensures FirstExact(g, firstset[..])
    {
      hide LambdaClosed, FirstClosed, LambdaExact, FirstExact;
      var i := 0;
      while i < g.nsymbol
        invariant 0 <= i <= g.nsymbol
        invariant forall k :: 0 <= k < i ==> !lambda[k] && firstset[k] == {}
        modifies lambda, firstset
      {
        lambda[i], firstset[i] := false, {};
        i := i + 1;
      }
      assert LambdaSound(g, lambda[..]);
      assert FirstSound(g, firstset[..]);
      hide LambdaSound, FirstSound;
      var progress := true;
      while progress
        invariant LambdaSound(g, lambda[..]) && FirstSound(g, firstset[..])
        invariant !progress ==> LambdaClosed(g, lambda[..])
        decreases Unset(lambda[..]), progress
        modifies lambda
      {
        progress := LambdaPass();
      }
      LambdaFixpoint(g, lambda[..]);
      ghost var lam := lambda[..];
      progress := true;
      while progress
        invariant lambda[..] == lam
        invariant FirstSound(g, firstset[..])
        invariant !progress ==> FirstClosed(g, lambda[..], firstset[..])
        decreases Room(firstset[..], g.nterminal), progress
        modifies firstset
      {
        progress := FirstPass();
      }
      FirstFixpoint(g, lambda[..], firstset[..]);
    }
  }

  // ------------------------------------------------------------ steps of the loops

  /** Adding what the symbol at i contributes keeps the sets sound. */
  lemma UnionSound(g: Grammar, first: Sets, lam: Flags, r: nat, i: nat)
    requires g.Valid() && r < |g.rules| && i < |g.rules[r].rhs|
    requires LambdaSound(g, lam) && FirstSound(g, first) && AllLambda(g.rules[r].rhs[..i], lam)
    ensures Contributes(g, first, g.rules[r].rhs[i]) <= Below(g.nterminal)
    ensures g.rules[r].lhs < |first|
    ensures FirstSound(g, first[g.rules[r].lhs := first[g.rules[r].lhs] + Contributes(g, first, g.rules[r].rhs[i])])
  {
    var x := g.rules[r].rhs[i];
    assert g.ValidRule(g.rules[r]);
    forall t: nat | t in Contributes(g, first, x) ensures g.Terminal(t) && Begins(g, [g.rules[r].lhs], t) {
      ContributesBegins(g, first, x, t);
      BeginsRule(g, r, i, lam, t);
    }
  }

  lemma SaturateOne(g: Grammar, rule: Rule, lam: Flags, before: Sets, after: Sets, i: nat)
    requires g.Valid() && g.ValidRule(rule) && i < |rule.rhs| && |before| == g.nsymbol
    requires FirstSaturated(g, rule, lam, before, i)
    requires after == if rule.rhs[i] == rule.lhs then before
                      else before[rule.lhs := before[rule.lhs] + Contributes(g, before, rule.rhs[i])]
    ensures FirstSaturated(g, rule, lam, after, i + 1)
  {
  }

  /** After a symbol that cannot vanish nothing more of the right-hand side counts. */
  lemma StopHere(g: Grammar, rule: Rule, lam: Flags, first: Sets, i: nat)
    requires LambdaSound(g, lam) && g.ValidRule(rule) && i < |rule.rhs|
    requires g.Terminal(rule.rhs[i]) || !lam[rule.rhs[i]]
    requires FirstSaturated(g, rule, lam, first, i + 1)
    ensures FirstSaturated(g, rule, lam, first, |rule.rhs|)
  {
    forall k | i < k < |rule.rhs| ensures !AllLambda(rule.rhs[..k], lam) {
      assert rule.rhs[..k][i] == rule.rhs[i];
    }
  }
}
