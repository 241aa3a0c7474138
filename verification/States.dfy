/** `FindStates`, `getstate` and `buildshifts`: the recursive construction of all LR(0) states. */
module States {
  import opened Shared
  import opened Grammars
  import opened BitSets
  import opened FirstSets
  import opened LR0
  import opened Closure
  import opened Automaton
  import MSort

  /** The lists that are sorted stay below the limit of `msort`. */
  ghost predicate Small(g: Grammar) {
    |AllConfigs(g)| < Pow2(MSort.LISTSIZE)
  }

  ghost predicate AllValid(g: Grammar, s: seq<Config>) {
    forall c :: c in s ==> ValidConfig(g, c)
  }

  lemma {:induction false} ConfigsBound(s: seq<Config>, all: set<Config>)
    requires Distinct(s) && forall c :: c in s ==> c in all
    ensures |s| <= |all|
  {
    if s != [] {
      assert forall c :: c in s[1..] ==> c in all && c != s[0];
      ConfigsBound(s[1..], all - {s[0]});
    }
  }

  /** `Configlist_sortbasis` */
  method SortBasis(g: Grammar, current: seq<Config>) returns (basis: seq<Config>)
    requires Small(g) && Distinct(current) && AllValid(g, current)
    ensures StrictlySorted(basis) && forall c :: c in basis <==> c in current
  {
    forall c | c in current ensures c in AllConfigs(g) { InAllConfigs(g, c); }
    ConfigsBound(current, AllConfigs(g));
    ConfigcmpIsOrder();
    basis := MSort.Msort(current, Configcmp);
    SortedDistinct(current, basis);
  }

  // ------------------------------------------------------------ sorting a closure

  ghost predicate SameItems(s: seq<Item>, t: seq<Item>) {
    multiset(s) == multiset(t)
  }

  lemma SameAt(s: seq<Item>, t: seq<Item>, i: nat) returns (j: nat)
    requires SameItems(s, t) && i < |s|
    ensures j < |t| && t[j] == s[i]
  {
    assert s[i] in multiset(t);
    j :| j < |t| && t[j] == s[i];
  }

  lemma SameDistinct(s: seq<Item>, t: seq<Item>)
    requires SameItems(s, t) && DistinctItems(s)
    ensures DistinctItems(t)
  {
    OnlyOnce(s);
    forall i, j | 0 <= i < j < |t| ensures t[i].cfg != t[j].cfg {
      var i' := SameAt(t, s, i);
      var j' := SameAt(t, s, j);
      if i' == j' {
        TwiceInMultiset(t, i, j);
        assert false;
      }
    }
  }

  lemma SameHas(s: seq<Item>, t: seq<Item>, c: Config)
    requires SameItems(s, t) && Has(s, c)
    ensures Has(t, c)
  {
    var i: nat :| i < |s| && s[i].cfg == c;
    var j := SameAt(s, t, i);
  }

  lemma SameSpontaneous(g: Grammar, lam: Flags, first: Sets, s: seq<Item>, t: seq<Item>, d: Config, x: nat)
    requires SameItems(s, t) && Spontaneous(g, lam, first, s, d, x)
    ensures Spontaneous(g, lam, first, t, d, x)
  {
    var i: nat :| i < |s| && Predicts(g, s[i].cfg, d) && x in FirstOf(g, lam, first, Rest(g, s[i].cfg));
    var j := SameAt(s, t, i);
  }

  lemma SameLeast(g: Grammar, basis: seq<Config>, s: seq<Item>, t: seq<Item>)
    requires SameItems(s, t) && LeastClosure(g, basis, s)
    ensures LeastClosure(g, basis, t)
  {
    hide Predicts, Has;
    forall c | c in basis ensures Has(t, c) { SameHas(s, t, c); }
    forall i, d | 0 <= i < |t| && Predicts(g, t[i].cfg, d) ensures Has(t, d) {
      var j := SameAt(t, s, i);
      SameHas(s, t, d);
    }
    forall u: set<Config>, i | (forall c :: c in basis ==> c in u) && ClosedUnder(g, u) && 0 <= i < |t|
      ensures t[i].cfg in u
    {
      var j := SameAt(t, s, i);
    }
  }

  /** The closure does not depend on the order of its configurations. */
  lemma ClosureSorted(g: Grammar, lam: Flags, first: Sets, basis: seq<Config>, init: set<nat>, s: seq<Item>, t: seq<Item>)
    requires ClosureOf(g, lam, first, basis, init, s) && SameItems(s, t)
    ensures ClosureOf(g, lam, first, basis, init, t)
  {
    hide Predicts, Spontaneous, ValidConfig;
    SameDistinct(s, t);
    SameLeast(g, basis, s, t);
    forall i | 0 <= i < |t| ensures ValidConfig(g, t[i].cfg) { var j := SameAt(t, s, i); }
    forall k: nat, x: nat | k < |t| ensures FollowsFrom(g, lam, first, basis, init, t, k, x) {
      var j := SameAt(t, s, k);
      if Spontaneous(g, lam, first, t, t[k].cfg, x) { SameSpontaneous(g, lam, first, t, s, t[k].cfg, x); }
      if Spontaneous(g, lam, first, s, t[k].cfg, x) { SameSpontaneous(g, lam, first, s, t, t[k].cfg, x); }
      assert FollowsFrom(g, lam, first, basis, init, s, j, x);
    }
    forall i: nat, d | i < |t| ensures LinkedTo(g, lam, t[i], d) {
      var j := SameAt(t, s, i);
      assert LinkedTo(g, lam, s[j], d);
    }
  }

  /** `Configlist_closure` followed by `Configlist_sort` */
  method SortedClosure(g: Grammar, lam: Flags, first: Sets, basis: seq<Config>, init: set<nat>) returns (cfp: seq<Item>)
    requires g.Valid() && Small(g) && StrictlySorted(basis) && AllValid(g, basis)
    ensures ClosureOf(g, lam, first, basis, init, cfp)
  {
    forall i | 0 <= i < |basis| ensures ValidConfig(g, basis[i]) { assert basis[i] in basis; }
    var current := Closure.Closure(g, lam, first, basis, init);
    hide ClosureOf;
    ItemcmpIsOrder();
    cfp := MSort.Msort(current, Itemcmp);
    ClosureSorted(g, lam, first, basis, init, current, cfp);
  }

  // ------------------------------------------------------------ the configurations with x at the dot

  /** A configuration is complete once its symbol has been shifted. */
  ghost predicate StatusOK(g: Grammar, items: seq<Item>, status: Flags, st: State) {
    |status| == |items| &&
    forall k: nat :: k < |items| ==>
      (status[k] <==> exists y: nat :: Before(g, items[k].cfg, y) && ShiftsOn(st, y))
  }

  /** Configurations before place p that can be shifted have been. */
  ghost predicate DoneBefore(g: Grammar, items: seq<Item>, status: Flags, p: nat) {
    |status| == |items| &&
    forall k: nat, y: nat :: k < p && k < |items| && Before(g, items[k].cfg, y) ==> status[k]
  }

  ghost predicate GatheredSoFar(g: Grammar, items: seq<Item>, x: nat, n: nat, current: seq<Config>) {
    && n <= |items|
    && Distinct(current)
    && forall d :: d in current <==> InGoto(g, items[..n], x, d)
  }

  lemma GatherOne(g: Grammar, items: seq<Item>, x: nat, n: nat, current: seq<Config>)
    requires n < |items| && GatheredSoFar(g, items, x, n, current)
    ensures !Before(g, items[n].cfg, x) ==> GatheredSoFar(g, items, x, n + 1, current)
    ensures Before(g, items[n].cfg, x) ==>
              GatheredSoFar(g, items, x, n + 1,
                if Advance(items[n].cfg) in current then current else current + [Advance(items[n].cfg)])
  {
    var d0 := Advance(items[n].cfg);
    forall d ensures InGoto(g, items[..n+1], x, d) <==>
                     InGoto(g, items[..n], x, d) || (Before(g, items[n].cfg, x) && d == d0)
    {
      if InGoto(g, items[..n], x, d) {
        var i :| 0 <= i < n && Before(g, items[..n][i].cfg, x) && d == Advance(items[..n][i].cfg);
        assert items[..n+1][i] == items[..n][i];
      }
      if Before(g, items[n].cfg, x) && d == d0 { assert items[..n+1][n] == items[n]; }
      if InGoto(g, items[..n+1], x, d) {
        var i :| 0 <= i < n + 1 && Before(g, items[..n+1][i].cfg, x) && d == Advance(items[..n+1][i].cfg);
        assert i < n ==> items[..n][i] == items[..n+1][i];
      }
    }
  }

  /** The inner loop of `buildshifts`. */
  method Gather(g: Grammar, items: seq<Item>, status: Flags, p: nat, x: nat, ghost st: State)
    returns (current: seq<Config>, status': Flags)
    requires p < |items| && Before(g, items[p].cfg, x) && !ShiftsOn(st, x)
    requires StatusOK(g, items, status, st) && DoneBefore(g, items, status, p)
    ensures IsGoto(g, items, x, current) && Distinct(current)
    ensures |status'| == |items|
    ensures forall k: nat :: k < |items| ==> (status'[k] <==> status[k] || Before(g, items[k].cfg, x))
  {
    hide Before;
    current, status' := [], status;
    NoneBefore(g, items, status, p, x, st);
    var b := p;
    while b < |items|
      invariant p <= b <= |items|
      invariant GatheredSoFar(g, items, x, b, current)
      invariant |status'| == |items|
      invariant forall k: nat :: k < b ==> (status'[k] <==> status[k] || Before(g, items[k].cfg, x))
      invariant forall k: nat :: b <= k < |items| ==> status'[k] == status[k]
    {
      var c := items[b].cfg;
      GatherOne(g, items, x, b, current);
      NotDoneYet(g, items, status, b, x, st);
      if !status'[b] && AtDot(g, c, x) {
        status' := status'[b := true];
        if Advance(c) !in current { current := current + [Advance(c)]; }
      }
      b := b + 1;
    }
    assert items[..b] == items;
  }

  /** The dot of c is not at the end and stands before x. */
  predicate AtDot(g: Grammar, c: Config, x: nat)
    ensures AtDot(g, c, x) <==> Before(g, c, x)
  {
    c.rule < |g.rules| && c.dot < |g.rules[c.rule].rhs| && g.rules[c.rule].rhs[c.dot] == x
  }

  lemma NotDoneYet(g: Grammar, items: seq<Item>, status: Flags, b: nat, x: nat, st: State)
    requires StatusOK(g, items, status, st) && b < |items| && !ShiftsOn(st, x)
    ensures Before(g, items[b].cfg, x) ==> !status[b]
  {
  }

  lemma NoneBefore(g: Grammar, items: seq<Item>, status: Flags, p: nat, x: nat, st: State)
    requires StatusOK(g, items, status, st) && DoneBefore(g, items, status, p) && p < |items| && !ShiftsOn(st, x)
    ensures GatheredSoFar(g, items, x, p, [])
    ensures forall k: nat :: k < p ==> !Before(g, items[k].cfg, x)
  {
    forall k: nat | k < p ensures !Before(g, items[k].cfg, x) { NotDoneYet(g, items, status, k, x, st); }
    forall d ensures !InGoto(g, items[..p], x, d) {
      forall i | 0 <= i < p ensures !Before(g, items[..p][i].cfg, x) { assert items[..p][i] == items[i]; }
    }
  }

  // ------------------------------------------------------------ pure steps of the construction

  /** Links recorded for the shift from one state into the basis `current` of state r. */
  ghost predicate IsNewLink(from: Option<nat>, current: seq<Config>, r: nat, l: Link) {
    && from.Some? && l.from.stp == from.value && l.to.stp == r
    && l.to.cfg in current && l.to.cfg == Advance(l.from.cfg)
  }

  ghost predicate LinkSince(g: Grammar, states: seq<State>, lo: nat, l: Link) {
    IsGotoLink(g, states, l) && l.from.stp >= lo
  }

  /** State i as it is after the shift of x to r has been added to its actions. */
  function WithShift(states: seq<State>, i: nat, x: nat, r: nat): seq<State>
    requires i < |states|
  {
    states[i := states[i].(shifts := [Shift(x, r)] + states[i].shifts)]
  }

  lemma HasShiftAfter(st: State, x: nat, r: nat, y: nat, t: nat)
    ensures HasShift(st.(shifts := [Shift(x, r)] + st.shifts), y, t) <==> HasShift(st, y, t) || (y == x && t == r)
    ensures ShiftsOn(st.(shifts := [Shift(x, r)] + st.shifts), y) <==> ShiftsOn(st, y) || y == x
  {
    var st' := st.(shifts := [Shift(x, r)] + st.shifts);
    forall k | 0 <= k < |st.shifts| ensures st'.shifts[k + 1] == st.shifts[k] {}
    if HasShift(st, y, t) {
      var k :| 0 <= k < |st.shifts| && st.shifts[k] == Shift(y, t);
      assert st'.shifts[k + 1] == Shift(y, t);
    }
    if ShiftsOn(st, y) {
      var k :| 0 <= k < |st.shifts| && st.shifts[k].sym == y;
      assert st'.shifts[k + 1].sym == y;
    }
    assert st'.shifts[0] == Shift(x, r);
  }

  lemma ShiftAdded(g: Grammar, states: seq<State>, i: nat, x: nat, r: nat)
    requires i < |states| && r < |states| && ShiftsOK(g, states, i) && !ShiftsOn(states[i], x)
    requires IsGoto(g, states[i].cfp, x, states[r].basis) && states[r].basis != []
    ensures ShiftsOK(g, WithShift(states, i, x, r), i)
  {
    hide IsGoto, ShiftsOn, HasShift;
    var states' := WithShift(states, i, x, r);
    forall k, k' | 0 <= k < k' < |states'[i].shifts|
      ensures states'[i].shifts[k].sym != states'[i].shifts[k'].sym
    {
      assert states'[i].shifts[k'] == states[i].shifts[k' - 1];
      if k == 0 {
        NotOn(states[i], x, k' - 1);
      } else {
        assert states'[i].shifts[k] == states[i].shifts[k - 1];
      }
    }
    forall y: nat, t: nat | HasShift(states'[i], y, t)
      ensures t < |states'| && IsGoto(g, states'[i].cfp, y, states'[t].basis) && states'[t].basis != []
    {
      HasShiftAfter(states[i], x, r, y, t);
    }
  }

  lemma NotOn(st: State, x: nat, k: nat)
    requires !ShiftsOn(st, x) && k < |st.shifts|
    ensures st.shifts[k].sym != x
  {
  }

  lemma DiscoveredStays(old_: seq<State>, i: nat, x: nat, r: nat, j: nat)
    requires i < |old_|
    ensures Discovered(old_, j) ==> Discovered(WithShift(old_, i, x, r), j)
    ensures i < r ==> Discovered(WithShift(old_, i, x, r), r)
  {
    var new_ := WithShift(old_, i, x, r);
    if Discovered(old_, j) {
      var a: nat, y: nat :| a < j && a < |old_| && HasShift(old_[a], y, j);
      HasShiftAfter(old_[i], x, r, y, j);
      assert HasShift(new_[a], y, j);
    }
    HasShiftAfter(old_[i], x, r, x, r);
    assert HasShift(new_[i], x, r);
  }

  lemma LinksAdded(g: Grammar, states: seq<State>, i: nat, x: nat, r: nat, current: seq<Config>, l: Link)
    requires i < |states| && r < |states| && IsGoto(g, states[i].cfp, x, current)
    ensures IsGotoLink(g, WithShift(states, i, x, r), l) <==>
            IsGotoLink(g, states, l) || IsNewLink(Some(i), current, r, l)
  {
    var states' := WithShift(states, i, x, r);
    if l.from.stp == i {
      forall y: nat ensures HasShift(states'[i], y, l.to.stp) <==> HasShift(states[i], y, l.to.stp) || (y == x && l.to.stp == r) {
        HasShiftAfter(states[i], x, r, y, l.to.stp);
      }
      assert Has(states'[i].cfp, l.from.cfg) <==> Has(states[i].cfp, l.from.cfg);
      if Has(states[i].cfp, l.from.cfg) && l.to.cfg == Advance(l.from.cfg) && Before(g, l.from.cfg, x) {
        var k :| 0 <= k < |states[i].cfp| && states[i].cfp[k].cfg == l.from.cfg;
        assert InGoto(g, states[i].cfp, x, l.to.cfg);
      }
      if l.to.cfg in current && l.to.cfg == Advance(l.from.cfg) {
        assert InGoto(g, states[i].cfp, x, l.to.cfg);
        var k :| 0 <= k < |states[i].cfp| && Before(g, states[i].cfp[k].cfg, x) && l.to.cfg == Advance(states[i].cfp[k].cfg);
        assert states[i].cfp[k].cfg == l.from.cfg;
      }
    }
  }

  lemma StatesOKWithShift(g: Grammar, lam: Flags, first: Sets, states: seq<State>, i: nat, x: nat, r: nat)
    requires i < |states| && StatesOK(g, lam, first, states)
    ensures StatesOK(g, lam, first, WithShift(states, i, x, r))
  {
    hide ClosureOf, StrictlySorted;
    forall k: nat | k < |states| ensures StateOK(g, lam, first, k, WithShift(states, i, x, r)[k]) {
      assert StateOK(g, lam, first, k, states[k]);
    }
  }

  // ------------------------------------------------------------ the recursive construction

  /** What `getstate` does to the table: old states stay as they are, new states are finished
      and, but for the one returned, were found by a shift. */
  ghost predicate Grown(g: Grammar, lam: Flags, first: Sets, s0: seq<State>, s1: seq<State>, r: nat) {
    && Extends(s0, s1) && StatesOK(g, lam, first, s1) && r < |s1|
    && (forall j: nat :: |s0| <= j < |s1| ==> Finished(g, s1, j) && (j == r || Discovered(s1, j)))
    && (r < |s0| ==> |s1| == |s0|)
  }

  /** The table while the shifts of state i are built. */
  ghost predicate Building(g: Grammar, lam: Flags, first: Sets, s0: seq<State>, s: seq<State>, i: nat) {
    && |s0| == i + 1 <= |s|
    && (forall j :: 0 <= j < i ==> s[j] == s0[j])
    && s[i].basis == s0[i].basis && s[i].cfp == s0[i].cfp
    && StatesOK(g, lam, first, s) && ShiftsOK(g, s, i)
    && forall j: nat :: i < j < |s| ==> Finished(g, s, j) && Discovered(s, j)
  }

  ghost predicate LinksAre(g: Grammar, links0: set<Link>, states: seq<State>, lo: nat, links: set<Link>) {
    forall l :: l in links <==> l in links0 || LinkSince(g, states, lo, l)
  }

  ghost predicate LinksWithNew(g: Grammar, links0: set<Link>, states: seq<State>, lo: nat,
                               from: Option<nat>, current: seq<Config>, r: nat, links: set<Link>) {
    forall l :: l in links <==> l in links0 || LinkSince(g, states, lo, l) || IsNewLink(from, current, r, l)
  }

  /** One round of `buildshifts`: s is the table before `getstate`, s1 after it. */
  lemma BuildRound(g: Grammar, lam: Flags, first: Sets, s0: seq<State>, s: seq<State>, s1: seq<State>,
                   i: nat, x: nat, r: nat, current: seq<Config>)
    requires Building(g, lam, first, s0, s, i) && Grown(g, lam, first, s, s1, r)
    requires !ShiftsOn(s[i], x) && IsGoto(g, s[i].cfp, x, current) && current != []
    requires forall c :: c in s1[r].basis <==> c in current
    ensures Building(g, lam, first, s0, WithShift(s1, i, x, r), i)
  {
    var s2 := WithShift(s1, i, x, r);
    assert current[0] in s1[r].basis;
    assert s1[i] == s[i];
    hide IsGoto, Finished, ShiftsOK, StatesOK, Discovered;
    assert IsGoto(g, s1[i].cfp, x, s1[r].basis) by { SameGoto(g, s[i].cfp, x, current, s1[r].basis); }
    assert ShiftsOK(g, s1, i) by { FinishedStays(g, s, s1, i); }
    ShiftAdded(g, s1, i, x, r);
    StatesOKWithShift(g, lam, first, s1, i, x, r);
    assert Keeps(s1, s2);
    forall j: nat | i < j < |s2| ensures Finished(g, s2, j) && Discovered(s2, j) {
      assert s2[j] == s1[j];
      if j < |s| {
        FinishedStays(g, s, s1, j);
        DiscoveredExtends(s, s1, j);
      }
      FinishedStays(g, s1, s2, j);
      DiscoveredStays(s1, i, x, r, j);
    }
  }

  lemma SameGoto(g: Grammar, items: seq<Item>, x: nat, a: seq<Config>, b: seq<Config>)
    requires IsGoto(g, items, x, a) && forall c :: c in b <==> c in a
    ensures IsGoto(g, items, x, b)
  {
  }

  lemma DiscoveredExtends(s: seq<State>, s1: seq<State>, j: nat)
    requires Extends(s, s1)
    ensures Discovered(s, j) ==> Discovered(s1, j)
  {
    if Discovered(s, j) {
      var a: nat, y: nat :| a < j && a < |s| && HasShift(s[a], y, j);
      assert s1[a] == s[a];
    }
  }

  lemma BuildLinks(g: Grammar, links0: set<Link>, s: seq<State>, links: set<Link>, s1: seq<State>, links1: set<Link>,
                   i: nat, x: nat, r: nat, current: seq<Config>)
    requires Extends(s, s1) && i < |s| && r < |s1| && IsGoto(g, s[i].cfp, x, current)
    requires LinksAre(g, links0, s, i, links)
    requires LinksWithNew(g, links, s1, |s|, Some(i), current, r, links1)
    ensures LinksAre(g, links0, WithShift(s1, i, x, r), i, links1)
  {
    hide IsGoto, IsNewLink;
    assert s1[i] == s[i];
    forall l ensures l in links1 <==> l in links0 || LinkSince(g, WithShift(s1, i, x, r), i, l) {
      LinksAdded(g, s1, i, x, r, current, l);
      if l.from.stp < |s| {
        assert s1[l.from.stp] == s[l.from.stp];
        assert IsGotoLink(g, s1, l) <==> IsGotoLink(g, s, l);
      }
      assert IsNewLink(Some(i), current, r, l) ==> l.from.stp == i by { NewLinkFrom(i, current, r, l); }
      assert LinkSince(g, s1, i, l) <==> LinkSince(g, s, i, l) || LinkSince(g, s1, |s|, l);
    }
  }

  lemma NewLinkFrom(i: nat, current: seq<Config>, r: nat, l: Link)
    ensures IsNewLink(Some(i), current, r, l) ==> l.from.stp == i
  {
  }

  /** Can `current` be the configurations with which `getstate` is called? */
  ghost predicate CallOK(g: Grammar, states: seq<State>, current: seq<Config>, init: set<nat>, from: Option<nat>) {
    && Distinct(current) && AllValid(g, current)
    && if from.None? then states == [] && StartBasis(g, current) && init == {0}
       else from.value < |states| && KernelBasis(g, current) && init == {}
  }

  lemma NewStateOK(g: Grammar, lam: Flags, first: Sets, states: seq<State>, current: seq<Config>,
                   init: set<nat>, from: Option<nat>, st: State)
    requires StatesOK(g, lam, first, states) && CallOK(g, states, current, init, from)
    requires StrictlySorted(st.basis) && forall c :: c in st.basis <==> c in current
    requires ClosureOf(g, lam, first, st.basis, init, st.cfp)
    requires forall i :: 0 <= i < |states| ==> states[i].basis != st.basis
    requires st.shifts == []
    ensures StatesOK(g, lam, first, states + [st])
    ensures ShiftsOK(g, states + [st], |states|)
    ensures AllBases(g) - Bases(states + [st]) < AllBases(g) - Bases(states)
  {
    hide ClosureOf, StrictlySorted, ValidConfig;
    var s' := states + [st];
    NewBasis(g, lam, first, states, st);
    if from.Some? {
      assert current[0] in st.basis;
      assert KernelBasis(g, st.basis);
    } else {
      assert StartBasis(g, st.basis);
    }
    forall i: nat | i < |s'| ensures StateOK(g, lam, first, i, s'[i]) {
      if i < |states| { assert StateOK(g, lam, first, i, states[i]); }
    }
    forall x: nat, t: nat ensures !HasShift(s'[|states|], x, t) { }
  }

  lemma NothingShifted(g: Grammar, items: seq<Item>, status: Flags, st: State)
    requires |status| == |items| && st.shifts == [] && forall k :: 0 <= k < |status| ==> !status[k]
    ensures StatusOK(g, items, status, st) && DoneBefore(g, items, status, 0)
  {
    assert forall y :: !ShiftsOn(st, y);
  }

  lemma NoLinksYet(g: Grammar, links: set<Link>, states: seq<State>, i: nat)
    requires |states| == i + 1 && states[i].shifts == []
    ensures LinksAre(g, links, states, i, links)
  {
    forall l ensures !LinkSince(g, states, i, l) {
      assert l.from.stp == i ==> forall x: nat :: !HasShift(states[i], x, l.to.stp);
    }
  }

  lemma NotShiftedYet(g: Grammar, items: seq<Item>, status: Flags, st: State, p: nat, x: nat)
    requires StatusOK(g, items, status, st) && p < |items| && !status[p]
    ensures Before(g, items[p].cfg, x) ==> !ShiftsOn(st, x)
  {
  }

  lemma GotoKernel(g: Grammar, items: seq<Item>, p: nat, x: nat, current: seq<Config>)
    requires p < |items| && Before(g, items[p].cfg, x) && IsGoto(g, items, x, current)
    ensures KernelBasis(g, current) && AllValid(g, current)
  {
    assert InGoto(g, items, x, Advance(items[p].cfg));
    assert Advance(items[p].cfg) in current;
  }

  lemma StatusAfter(g: Grammar, items: seq<Item>, status: Flags, status': Flags, st: State, x: nat, r: nat)
    requires StatusOK(g, items, status, st) && |status'| == |items|
    requires forall k: nat :: k < |items| ==> (status'[k] <==> status[k] || Before(g, items[k].cfg, x))
    ensures StatusOK(g, items, status', st.(shifts := [Shift(x, r)] + st.shifts))
  {
    var st' := st.(shifts := [Shift(x, r)] + st.shifts);
    forall k: nat | k < |items|
      ensures status'[k] <==> exists y: nat :: Before(g, items[k].cfg, y) && ShiftsOn(st', y)
    {
      forall y: nat ensures ShiftsOn(st', y) <==> ShiftsOn(st, y) || y == x { HasShiftAfter(st, x, r, y, 0); }
      if status'[k] {
        if Before(g, items[k].cfg, x) {
          assert ShiftsOn(st', x);
        } else {
          var y: nat :| Before(g, items[k].cfg, y) && ShiftsOn(st, y);
          assert ShiftsOn(st', y);
        }
      }
    }
  }

  lemma NextStatus(g: Grammar, items: seq<Item>, status: Flags, status': Flags, st: State, p: nat)
    requires p < |items| && DoneBefore(g, items, status, p) && StatusOK(g, items, status', st)
    requires forall k: nat :: k < |items| && status[k] ==> status'[k]
    requires status'[p] || forall y: nat :: !Before(g, items[p].cfg, y)
    ensures DoneBefore(g, items, status', p + 1)
  {
  }

  lemma AllShifted(g: Grammar, items: seq<Item>, status: Flags, states: seq<State>, i: nat)
    requires i < |states| && states[i].cfp == items && ShiftsOK(g, states, i)
    requires StatusOK(g, items, status, states[i]) && DoneBefore(g, items, status, |items|)
    ensures Finished(g, states, i)
  {
    hide ShiftsOK, ShiftsOn;
    forall k, x: nat | 0 <= k < |items| && Before(g, items[k].cfg, x) ensures ShiftsOn(states[i], x) {
      assert status[k];
      var y: nat :| Before(g, items[k].cfg, y) && ShiftsOn(states[i], y);
    }
  }

  lemma StartIsFirst(g: Grammar, lam: Flags, first: Sets, states: seq<State>, current: seq<Config>, r: nat)
    requires Grown(g, lam, first, [], states, r) && StartBasis(g, current)
    requires forall c :: c in states[r].basis <==> c in current
    ensures Collection(g, lam, first, states)
  {
    assert StateOK(g, lam, first, r, states[r]);
    assert forall c :: c in states[r].basis ==> c.dot == 0;
    assert states[r].basis == [] || states[r].basis[0] in states[r].basis;
    assert r == 0;
  }

  class Generator {
    const g: Grammar
    const lam: Flags
    const first: Sets
    var states: seq<State>
    var links: set<Link>

    ghost predicate Good()
      reads this
    {
      g.Valid() && Small(g) && StatesOK(g, lam, first, states)
    }

    constructor (g: Grammar, lam: Flags, first: Sets)
      requires g.Valid() && Small(g)
      ensures this.g == g && this.lam == lam && this.first == first
      ensures Good() && states == [] && links == {}
    {
      this.g, this.lam, this.first := g, lam, first;
      states, links := [], {};
    }

    /** `State_find` */
    method FindState(basis: seq<Config>) returns (r: nat)
      ensures r <= |states|
      ensures r < |states| ==> states[r].basis == basis
      ensures r == |states| ==> forall i :: 0 <= i < |states| ==> states[i].basis != basis
    {
      r := 0;
      while r < |states|
        invariant 0 <= r <= |states|
        invariant forall i :: 0 <= i < r ==> states[i].basis != basis
      {
        if states[r].basis == basis { return; }
        r := r + 1;
      }
    }

    /** `Plink_copy` and `Plink_add`: the backward links of the basis of state r. */
    method AddLinks(from: Option<nat>, current: seq<Config>, r: nat)
      requires forall c :: c in current && from.Some? ==> c.dot > 0
      modifies `links
      ensures forall l :: l in links <==> l in old(links) || IsNewLink(from, current, r, l)
    {
      if from.Some? {
        var k := 0;
        while k < |current|
          invariant 0 <= k <= |current|
          invariant forall l :: l in links <==> l in old(links) || IsNewLink(from, current[..k], r, l)
        {
          var c := current[k];
          assert c in current;
          ghost var l0 := Link(Node(from.value, Config(c.rule, c.dot - 1)), Node(r, c));
          links := links + {Link(Node(from.value, Config(c.rule, c.dot - 1)), Node(r, c))};
          assert current[..k+1] == current[..k] + [c];
          forall l ensures IsNewLink(from, current[..k+1], r, l) <==> IsNewLink(from, current[..k], r, l) || l == l0 { }
          k := k + 1;
        }
        assert current[..k] == current;
      }
    }

    /** `getstate` */
    method GetState(current: seq<Config>, init: set<nat>, from: Option<nat>) returns (r: nat)
      requires Good() && CallOK(g, states, current, init, from)
      modifies this
      ensures Good()
      ensures Grown(g, lam, first, old(states), states, r)
      ensures forall c :: c in states[r].basis <==> c in current
      ensures LinksWithNew(g, old(links), states, |old(states)|, from, current, r, links)
      decreases AllBases(g) - Bases(states), 0
    {
      hide StatesOK, Small, StrictlySorted, ValidConfig;
      var basis := SortBasis(g, current);
      r := FindState(basis);
      if r < |states| {
        AddLinks(from, current, r);
      } else {
        ghost var s0, links0 := states, links;
        var cfp := SortedClosure(g, lam, first, basis, init);
        var st := State(basis, cfp, []);
        NewStateOK(g, lam, first, states, current, init, from, st);
        states := states + [st];
        BuildShifts(r);
        AddLinks(from, current, r);
      }
    }

    /** `buildshifts` */
    method BuildShifts(i: nat)
      requires Good() && |states| == i + 1 && states[i].shifts == [] && ShiftsOK(g, states, i)
      modifies this
      ensures Good()
      ensures Building(g, lam, first, old(states), states, i)
      ensures Finished(g, states, i)
      ensures LinksAre(g, old(links), states, i, links)
      decreases AllBases(g) - Bases(states), 1
    {
      hide StatesOK, Small, ValidConfig, ShiftsOK, Finished, StatusOK, DoneBefore, LinksAre, Discovered;
      ghost var s0, links0 := states, links;
      var cfp := states[i].cfp;
      var status := seq(|cfp|, _ => false);
      NothingShifted(g, cfp, status, states[i]);
      NoLinksYet(g, links, states, i);
      var p := 0;
      while p < |cfp|
        invariant 0 <= p <= |cfp| == |status|
        invariant Good() && Building(g, lam, first, s0, states, i)
        invariant StatusOK(g, cfp, status, states[i]) && DoneBefore(g, cfp, status, p)
        invariant LinksAre(g, links0, states, i, links)
      {
        var c := cfp[p].cfg;
        ghost var status0, p0 := status, p;
        if !status[p] && c.rule < |g.rules| && c.dot < |g.rules[c.rule].rhs| {
          var x := g.rules[c.rule].rhs[c.dot];
          NotShiftedYet(g, cfp, status, states[i], p, x);
          var current;
          current, status := Gather(g, cfp, status, p, x, states[i]);
          GotoKernel(g, cfp, p, x, current);
          ghost var s, links1 := states, links;
          assert Keeps(s0, s);
          BasesGrow(g, s0, s);
          var r := GetState(current, {}, Some(i));
          BuildRound(g, lam, first, s0, s, states, i, x, r, current);
          BuildLinks(g, links0, s, links1, states, links, i, x, r, current);
          StatusAfter(g, cfp, status0, status, s[i], x, r);
          assert states[i] == s[i];
          states := WithShift(states, i, x, r);
        }
        NextStatus(g, cfp, status0, status, states[i], p);
        p := p + 1;
      }
      AllShifted(g, cfp, status, states, i);
    }

    /** `FindStates`: the states are the LR(0) collection of the grammar, and the links are exactly
        those from a configuration to the same configuration with the dot advanced, over a shift. */
    method FindStates()
      requires Good() && states == [] && links == {}
      modifies this
      ensures Good()
      ensures Collection(g, lam, first, states)
      ensures forall l :: l in links <==> IsGotoLink(g, states, l)
    {
      hide StatesOK, Small;
      var current: seq<Config> := [];
      var r := 0;
      while r < |g.rules|
        invariant 0 <= r <= |g.rules|
        invariant Distinct(current)
        invariant forall c :: c in current <==> c.dot == 0 && c.rule < r && g.rules[c.rule].lhs == g.start
      {
        if g.rules[r].lhs == g.start { current := current + [Config(r, 0)]; }
        r := r + 1;
      }
      var first0 := GetState(current, {0}, None);
      StartIsFirst(g, lam, first, states, current, first0);
    }
  }
}
