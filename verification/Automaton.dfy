/** The state table of Lemon: sorted bases, transitions, and the links along which follow sets
    are propagated from state to state. */
module Automaton {
  import opened Grammars
  import opened BitSets
  import opened LR0
  import opened Closure
  import MSort

  // ------------------------------------------------------------ the order of configurations

  /** `Configcmp` */
  function Configcmp(a: Config, b: Config): int {
    if a.rule != b.rule then a.rule - b.rule else a.dot - b.dot
  }

  function Itemcmp(a: Item, b: Item): int {
    Configcmp(a.cfg, b.cfg)
  }

  ghost predicate StrictlySorted(s: seq<Config>) {
    forall i, j :: 0 <= i < j < |s| ==> Configcmp(s[i], s[j]) < 0
  }

  lemma ConfigcmpIsOrder()
    ensures MSort.Comparator(Configcmp)
  {
  }

  lemma ItemcmpIsOrder()
    ensures MSort.Comparator(Itemcmp)
  {
  }

  lemma SameLeast(s: seq<Config>, t: seq<Config>)
    requires StrictlySorted(s) && StrictlySorted(t) && s != []
    requires forall c :: c in s <==> c in t
    ensures t != [] && s[0] == t[0]
  {
    assert s[0] in s;
    var k :| 0 <= k < |t| && t[k] == s[0];
    assert t[0] in t;
    var m :| 0 <= m < |s| && s[m] == t[0];
    assert k == 0 || Configcmp(t[0], t[k]) < 0;
    assert m == 0 || Configcmp(s[0], s[m]) < 0;
  }

  lemma SortedTail(s: seq<Config>, c: Config)
    requires StrictlySorted(s) && s != []
    ensures StrictlySorted(s[1..])
    ensures c in s[1..] <==> c in s && c != s[0]
  {
    if c in s[1..] {
      var k :| 0 <= k < |s[1..]| && s[1..][k] == c;
      assert Configcmp(s[0], s[k+1]) < 0;
    }
  }

  lemma HasFirst(s: seq<Config>)
    ensures s == [] || s[0] in s
  {
  }

  /** A strictly sorted list is determined by its elements. */
  lemma {:induction false} SortedUnique(s: seq<Config>, t: seq<Config>)
    requires StrictlySorted(s) && StrictlySorted(t)
    requires forall c :: c in s <==> c in t
    ensures s == t
  {
    hide StrictlySorted, Configcmp;
    if s == [] {
      HasFirst(t);
    } else {
      SameLeast(s, t);
      forall c ensures c in s[1..] <==> c in t[1..] {
        SortedTail(s, c);
        SortedTail(t, c);
      }
      SortedTail(s, s[0]);
      SortedTail(t, t[0]);
      SortedUnique(s[1..], t[1..]);
      assert s == [s[0]] + s[1..] && t == [t[0]] + t[1..];
    }
  }

  /** A sorted list without repetitions is strictly sorted. */
  lemma SortedDistinct(list: seq<Config>, s: seq<Config>)
    requires MSort.StableSort(list, s, Configcmp)
    requires forall i, j :: 0 <= i < j < |list| ==> list[i] != list[j]
    ensures StrictlySorted(s) && forall c :: c in s <==> c in list
  {
    forall c ensures c in s <==> c in list {
      assert c in s <==> c in multiset(s);
      assert c in list <==> c in multiset(list);
    }
    OnlyOnce(list);
    forall i, j | 0 <= i < j < |s| ensures Configcmp(s[i], s[j]) < 0 {
      assert MSort.Leq(Configcmp, s[i], s[j]);
      if s[i] == s[j] {
        TwiceInMultiset(s, i, j);
        assert false;
      }
    }
  }

  lemma {:induction false} OnlyOnce<T>(list: seq<T>)
    requires forall i, j :: 0 <= i < j < |list| ==> list[i] != list[j]
    ensures forall c :: multiset(list)[c] <= 1
  {
    if list != [] {
      var n := |list| - 1;
      OnlyOnce(list[..n]);
      assert list == list[..n] + [list[n]];
      forall c ensures multiset(list)[c] <= 1 {
        if c == list[n] { assert c !in list[..n]; }
      }
    }
  }

  lemma TwiceInMultiset<T>(s: seq<T>, i: nat, j: nat)
    requires i < j < |s| && s[i] == s[j]
    ensures multiset(s)[s[i]] >= 2
  {
    assert s == s[..j] + [s[j]] + s[j+1..];
    assert s[i] in s[..j] by { assert s[..j][i] == s[i]; }
  }

  // ------------------------------------------------------------ states

  datatype Node = Node(stp: nat, cfg: Config)

  /** Follow symbols of `from` are follow symbols of `to`. */
  datatype Link = Link(from: Node, to: Node)

  /** d is in the basis of the state reached from these configurations by a shift of x. */
  ghost predicate InGoto(g: Grammar, items: seq<Item>, x: nat, d: Config) {
    exists i :: 0 <= i < |items| && Before(g, items[i].cfg, x) && d == Advance(items[i].cfg)
  }

  ghost predicate IsGoto(g: Grammar, items: seq<Item>, x: nat, basis: seq<Config>) {
    forall d :: d in basis <==> InGoto(g, items, x, d)
  }

  ghost predicate StartBasis(g: Grammar, basis: seq<Config>) {
    forall c :: c in basis <==> c.dot == 0 && c.rule < |g.rules| && g.rules[c.rule].lhs == g.start
  }

  ghost predicate KernelBasis(g: Grammar, basis: seq<Config>) {
    basis != [] && forall c :: c in basis ==> c.dot > 0 && ValidConfig(g, c)
  }

  ghost predicate StateOK(g: Grammar, lam: Flags, first: Sets, i: nat, st: State) {
    && StrictlySorted(st.basis)
    && (if i == 0 then StartBasis(g, st.basis) else KernelBasis(g, st.basis))
    && ClosureOf(g, lam, first, st.basis, if i == 0 then {0} else {}, st.cfp)
  }

  ghost predicate StatesOK(g: Grammar, lam: Flags, first: Sets, states: seq<State>) {
    && (forall i: nat :: i < |states| ==> StateOK(g, lam, first, i, states[i]))
    && forall i, j :: 0 <= i < j < |states| ==> states[i].basis != states[j].basis
  }

  ghost predicate HasShift(st: State, x: nat, t: nat) {
    exists k :: 0 <= k < |st.shifts| && st.shifts[k] == Shift(x, t)
  }

  ghost predicate ShiftsOn(st: State, x: nat) {
    exists k :: 0 <= k < |st.shifts| && st.shifts[k].sym == x
  }

  /** Every shift recorded so far leads to the right state, and no symbol has two. */
  ghost predicate ShiftsOK(g: Grammar, states: seq<State>, i: nat)
    requires i < |states|
  {
    && (forall k, k' :: 0 <= k < k' < |states[i].shifts| ==> states[i].shifts[k].sym != states[i].shifts[k'].sym)
    && (forall x: nat, t: nat :: HasShift(states[i], x, t) ==>
          t < |states| && IsGoto(g, states[i].cfp, x, states[t].basis) && states[t].basis != [])
  }

  /** All shifts of state i have been recorded. */
  ghost predicate Finished(g: Grammar, states: seq<State>, i: nat)
    requires i < |states|
  {
    && ShiftsOK(g, states, i)
    && forall k, x: nat :: 0 <= k < |states[i].cfp| && Before(g, states[i].cfp[k].cfg, x) ==> ShiftsOn(states[i], x)
  }

  ghost predicate Extends(old_: seq<State>, new_: seq<State>) {
    |old_| <= |new_| && forall i :: 0 <= i < |old_| ==> new_[i] == old_[i]
  }

  /** State j was found by a shift from an earlier state. */
  ghost predicate Discovered(states: seq<State>, j: nat) {
    exists i: nat, x: nat :: i < j && i < |states| && HasShift(states[i], x, j)
  }

  ghost predicate IsGotoLink(g: Grammar, states: seq<State>, l: Link) {
    && l.from.stp < |states| && Has(states[l.from.stp].cfp, l.from.cfg)
    && l.to.cfg == Advance(l.from.cfg)
    && exists x: nat :: Before(g, l.from.cfg, x) && HasShift(states[l.from.stp], x, l.to.stp)
  }

  /** The LR(0) collection: what `FindStates` promises about its result. */
  ghost predicate Collection(g: Grammar, lam: Flags, first: Sets, states: seq<State>) {
    && |states| > 0
    && StatesOK(g, lam, first, states)
    && (forall i: nat :: i < |states| ==> Finished(g, states, i))
    && (forall j: nat :: 0 < j < |states| ==> Discovered(states, j))
  }

  /** Bases and configurations stay; state i as a whole stays. */
  ghost predicate Keeps(old_: seq<State>, new_: seq<State>) {
    |old_| <= |new_| && forall i :: 0 <= i < |old_| ==> new_[i].basis == old_[i].basis && new_[i].cfp == old_[i].cfp
  }

  lemma FinishedStays(g: Grammar, old_: seq<State>, new_: seq<State>, i: nat)
    requires Keeps(old_, new_) && i < |old_| && new_[i] == old_[i]
    ensures ShiftsOK(g, old_, i) ==> ShiftsOK(g, new_, i)
    ensures Finished(g, old_, i) ==> Finished(g, new_, i)
  {
    hide IsGoto, HasShift, ShiftsOn;
  }

  // ------------------------------------------------------------ termination

  ghost function Elements(basis: seq<Config>): set<Config> {
    set c | c in basis
  }

  ghost function Bases(states: seq<State>): set<set<Config>> {
    set i | 0 <= i < |states| :: Elements(states[i].basis)
  }

  ghost function AllBases(g: Grammar): set<set<Config>> {
    set b: set<Config> | b <= AllConfigs(g)
  }

  lemma BasesGrow(g: Grammar, old_: seq<State>, new_: seq<State>)
    requires Keeps(old_, new_)
    ensures AllBases(g) - Bases(new_) <= AllBases(g) - Bases(old_)
  {
    forall b | b in Bases(old_) ensures b in Bases(new_) {
      var i :| 0 <= i < |old_| && b == Elements(old_[i].basis);
      assert new_[i].basis == old_[i].basis;
    }
  }

  lemma NewBasis(g: Grammar, lam: Flags, first: Sets, states: seq<State>, st: State)
    requires StatesOK(g, lam, first, states) && StrictlySorted(st.basis)
    requires forall c :: c in st.basis ==> ValidConfig(g, c)
    requires forall i :: 0 <= i < |states| ==> states[i].basis != st.basis
    ensures AllBases(g) - Bases(states + [st]) < AllBases(g) - Bases(states)
  {
    var b := Elements(st.basis);
    BasesGrow(g, states, states + [st]);
    assert (states + [st])[|states|] == st;
    assert b in Bases(states + [st]);
    assert b in AllBases(g) by {
      forall c | c in b ensures c in AllConfigs(g) { InAllConfigs(g, c); }
    }
    assert b !in Bases(states) by {
      if b in Bases(states) {
        var i: nat :| i < |states| && b == Elements(states[i].basis);
        assert StateOK(g, lam, first, i, states[i]);
        forall c ensures c in states[i].basis <==> c in st.basis { assert c in b <==> c in Elements(states[i].basis); }
        SortedUnique(states[i].basis, st.basis);
        assert false;
      }
    }
  }
}
