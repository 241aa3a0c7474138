/** `FindLinks` and the follow sets of the whole automaton: the set of every configuration is
    exactly its set of LALR(1) lookaheads. */
module Lookaheads {
  import opened Grammars
  import opened BitSets
  import opened FirstSets
  import opened LR0
  import opened Closure
  import opened Automaton
  import FollowSets

  // ------------------------------------------------------------ LALR(1) lookaheads

  /** Terminal t follows configuration c of state q without being inherited from another
      configuration: the end marker follows the start rules of the first state, and whatever
      can begin the rest after a nonterminal follows the rules of that nonterminal. */
  ghost predicate Generated(g: Grammar, states: seq<State>, q: nat, c: Config, t: nat) {
    || (q == 0 && c.dot == 0 && c.rule < |g.rules| && g.rules[c.rule].lhs == g.start && t == 0)
    || (q < |states| && exists d ::
          Has(states[q].cfp, d) && Predicts(g, d, c) && g.Terminal(t) && Begins(g, Rest(g, d), t))
  }

  /** What follows configuration d of state p also follows configuration c of state q: because
      d predicts c and the rest of d can vanish, or because c is d after a shift from p to q. */
  ghost predicate Propagates(g: Grammar, states: seq<State>, p: nat, d: Config, q: nat, c: Config) {
    && p < |states| && Has(states[p].cfp, d)
    && ((p == q && Predicts(g, d, c) && Derives(g, Rest(g, d), []))
        || (c == Advance(d) && exists x: nat :: Before(g, d, x) && HasShift(states[p], x, q)))
  }

  /** t is a lookahead of c in state q, inherited over n steps. */
  ghost predicate LookIn(g: Grammar, states: seq<State>, q: nat, c: Config, t: nat, n: nat)
    decreases n
  {
    if n == 0 then Generated(g, states, q, c, t)
    else exists p: nat, d :: Propagates(g, states, p, d, q, c) && LookIn(g, states, p, d, t, n - 1)
  }

  ghost predicate Lookahead(g: Grammar, states: seq<State>, q: nat, c: Config, t: nat) {
    exists n: nat :: LookIn(g, states, q, c, t, n)
  }

  lemma NeverPredicted(g: Grammar, c: Config)
    requires g.StartNotOnRhs() && c.rule < |g.rules| && g.rules[c.rule].lhs == g.start
    ensures forall d :: !Predicts(g, d, c)
  {
    forall d ensures !Before(g, d, g.start) { }
  }

  /** If the start symbol is on no right-hand side, only the end marker follows a start rule. */
  lemma {:induction false} StartLookahead(g: Grammar, states: seq<State>, q: nat, c: Config, t: nat, n: nat)
    requires g.StartNotOnRhs() && c.rule < |g.rules| && g.rules[c.rule].lhs == g.start
    requires LookIn(g, states, q, c, t, n)
    ensures t == 0
    decreases n
  {
    NeverPredicted(g, c);
    if n > 0 {
      var p: nat, d :| Propagates(g, states, p, d, q, c) && LookIn(g, states, p, d, t, n - 1);
      StartLookahead(g, states, p, d, t, n - 1);
    }
  }

  // ------------------------------------------------------------ numbering the configurations

  function NodesOf(q: nat, items: seq<Item>): seq<Node> {
    seq(|items|, k requires 0 <= k < |items| => Node(q, items[k].cfg))
  }

  /** All configurations, state by state. */
  function Nodes(states: seq<State>): seq<Node> {
    if states == [] then [] else Nodes(states[..|states|-1]) + NodesOf(|states| - 1, states[|states|-1].cfp)
  }

  /** The number of the first configuration of state q. */
  function Base(states: seq<State>, q: nat): nat
    requires q <= |states|
  {
    |Nodes(states[..q])|
  }

  lemma {:induction false} NodeAt(states: seq<State>, q: nat, k: nat)
    requires q < |states| && k < |states[q].cfp|
    ensures Base(states, q) + k < |Nodes(states)|
    ensures Nodes(states)[Base(states, q) + k] == Node(q, states[q].cfp[k].cfg)
  {
    var n := |states| - 1;
    if q < n {
      NodeAt(states[..n], q, k);
      assert states[..n][..q] == states[..q];
    }
  }

  lemma {:induction false} NodeOf(states: seq<State>, m: nat) returns (q: nat, k: nat)
    requires m < |Nodes(states)|
    ensures q < |states| && k < |states[q].cfp| && m == Base(states, q) + k
  {
    var n := |states| - 1;
    if m < |Nodes(states[..n])| {
      q, k := NodeOf(states[..n], m);
      assert states[..n][..q] == states[..q];
    } else {
      q, k := n, m - |Nodes(states[..n])|;
    }
  }

  lemma SumOrder(states: seq<State>, q: nat, q': nat)
    requires q < q' <= |states|
    ensures Base(states, q) + |states[q].cfp| <= Base(states, q')
    decreases q'
  {
    var n := q' - 1;
    assert states[..q'][..n] == states[..n];
    if q < n { SumOrder(states, q, n); }
  }

  // ------------------------------------------------------------ links as numbers

  predicate WithinLink(items: seq<Item>, c: Config, d: Config) {
    exists k :: 0 <= k < |items| && items[k].cfg == c && d in items[k].fplp
  }

  predicate LinkBetween(states: seq<State>, links: set<Link>, a: Node, b: Node) {
    Link(a, b) in links || (a.stp == b.stp && a.stp < |states| && WithinLink(states[a.stp].cfp, a.cfg, b.cfg))
  }

  ghost predicate RowMatches(states: seq<State>, links: set<Link>, nodes: seq<Node>, m: nat, row: seq<nat>)
    requires m < |nodes|
  {
    forall n: nat :: n in row <==> n < |nodes| && LinkBetween(states, links, nodes[m], nodes[n])
  }

  ghost predicate LinksMatch(states: seq<State>, links: set<Link>, fplp: FollowSets.Links) {
    |fplp| == |Nodes(states)| &&
    forall m: nat :: m < |fplp| ==> RowMatches(states, links, Nodes(states), m, fplp[m])
  }

  /** `FindLinks`: all links become forward links. */
  method FindLinks(states: seq<State>, links: set<Link>) returns (fplp: FollowSets.Links)
    ensures LinksMatch(states, links, fplp)
    ensures FollowSets.ValidLinks(fplp)
  {
    hide LinkBetween;
    var nodes := Nodes(states);
    fplp := [];
    var m := 0;
    while m < |nodes|
      invariant 0 <= m == |fplp| <= |nodes|
      invariant forall i: nat :: i < m ==> RowMatches(states, links, nodes, i, fplp[i])
    {
      var out: seq<nat> := [];
      var n := 0;
      while n < |nodes|
        invariant 0 <= n <= |nodes|
        invariant forall j: nat :: j in out <==> j < n && LinkBetween(states, links, nodes[m], nodes[j])
      {
        if LinkBetween(states, links, nodes[m], nodes[n]) { out := out + [n]; }
        n := n + 1;
      }
      assert RowMatches(states, links, nodes, m, out);
      fplp := fplp + [out];
      m := m + 1;
    }
    forall c: nat, j: nat | c < |fplp| && j < |fplp[c]| ensures fplp[c][j] < |fplp| {
      assert RowMatches(states, links, nodes, c, fplp[c]);
      assert fplp[c][j] in fplp[c];
    }
  }

  // ------------------------------------------------------------ numbers and lookaheads agree

  /** Everything the earlier phases promise. */
  ghost predicate Built(g: Grammar, lam: Flags, first: Sets, states: seq<State>, links: set<Link>) {
    && g.Valid() && LambdaSound(g, lam) && LambdaExact(g, lam) && FirstExact(g, first)
    && Collection(g, lam, first, states)
    && forall l :: l in links <==> IsGotoLink(g, states, l)
  }

  lemma WithinIsPropagation(g: Grammar, lam: Flags, first: Sets, states: seq<State>, links: set<Link>, q: nat, d: Config, c: Config)
    requires Built(g, lam, first, states, links) && q < |states|
    ensures WithinLink(states[q].cfp, d, c) <==>
            Has(states[q].cfp, d) && Predicts(g, d, c) && Derives(g, Rest(g, d), [])
  {
    VanishesExact(g, lam, first, Rest(g, d));
    hide LambdaExact, FirstExact, LambdaSound, Predicts, Derives, Vanishes;
    var items := states[q].cfp;
    assert StateOK(g, lam, first, q, states[q]);
    forall k: nat | k < |items| && items[k].cfg == d
      ensures c in items[k].fplp <==> Predicts(g, d, c) && Vanishes(g, lam, Rest(g, d))
    {
      assert LinkedTo(g, lam, items[k], c);
    }
  }

  lemma LinkIsPropagation(g: Grammar, lam: Flags, first: Sets, states: seq<State>, links: set<Link>,
                          p: nat, d: Config, q: nat, c: Config)
    requires Built(g, lam, first, states, links) && p < |states| && Has(states[p].cfp, d)
    ensures LinkBetween(states, links, Node(p, d), Node(q, c)) <==> Propagates(g, states, p, d, q, c)
  {
    WithinIsPropagation(g, lam, first, states, links, p, d, c);
    assert Link(Node(p, d), Node(q, c)) in links <==> IsGotoLink(g, states, Link(Node(p, d), Node(q, c)));
  }

  lemma InitIsGenerated(g: Grammar, lam: Flags, first: Sets, states: seq<State>, links: set<Link>, q: nat, k: nat, t: nat)
    requires Built(g, lam, first, states, links) && q < |states| && k < |states[q].cfp|
    ensures t in states[q].cfp[k].fws <==> Generated(g, states, q, states[q].cfp[k].cfg, t)
  {
    var items, c := states[q].cfp, states[q].cfp[k].cfg;
    assert StateOK(g, lam, first, q, states[q]);
    assert FollowsFrom(g, lam, first, states[q].basis, if q == 0 then {0} else {}, items, k, t);
    assert ValidConfig(g, c);
    forall i: nat | i < |items|
      ensures t in FirstOf(g, lam, first, Rest(g, items[i].cfg)) <==> g.Terminal(t) && Begins(g, Rest(g, items[i].cfg), t)
    {
      FirstOfExact(g, lam, first, Rest(g, items[i].cfg), t);
    }
    SpontaneousIsGenerated(g, lam, first, items, c, t);
  }

  lemma SpontaneousIsGenerated(g: Grammar, lam: Flags, first: Sets, items: seq<Item>, c: Config, t: nat)
    requires forall i: nat :: i < |items| ==>
               (t in FirstOf(g, lam, first, Rest(g, items[i].cfg)) <==> g.Terminal(t) && Begins(g, Rest(g, items[i].cfg), t))
    ensures Spontaneous(g, lam, first, items, c, t) <==>
            exists d :: Has(items, d) && Predicts(g, d, c) && g.Terminal(t) && Begins(g, Rest(g, d), t)
  {
    hide FirstOf, Begins, Predicts, Rest;
    if Spontaneous(g, lam, first, items, c, t) {
      var i: nat :| i < |items| && Predicts(g, items[i].cfg, c) && t in FirstOf(g, lam, first, Rest(g, items[i].cfg));
      HasAt(items, i, items[i].cfg);
    }
    if d :| Has(items, d) && Predicts(g, d, c) && g.Terminal(t) && Begins(g, Rest(g, d), t) {
      var i: nat :| i < |items| && items[i].cfg == d;
    }
  }

  ghost predicate InitMatches(states: seq<State>, init: Sets) {
    |init| == |Nodes(states)| &&
    forall q: nat, k: nat :: q < |states| && k < |states[q].cfp| ==> NodeInit(states, init, q, k)
  }

  ghost predicate NodeInit(states: seq<State>, init: Sets, q: nat, k: nat)
    requires |init| == |Nodes(states)| && q < |states| && k < |states[q].cfp|
  {
    Base(states, q) + k < |init| && init[Base(states, q) + k] == states[q].cfp[k].fws
  }

  lemma NodeHas(states: seq<State>, m: nat)
    requires m < |Nodes(states)|
    ensures Nodes(states)[m].stp < |states|
    ensures Has(states[Nodes(states)[m].stp].cfp, Nodes(states)[m].cfg)
  {
    var q, k := NodeOf(states, m);
    NodeAt(states, q, k);
    HasAt(states[q].cfp, k, states[q].cfp[k].cfg);
  }

  lemma HasNode(states: seq<State>, q: nat, c: Config) returns (m: nat)
    requires q < |states| && Has(states[q].cfp, c)
    ensures m < |Nodes(states)| && Nodes(states)[m] == Node(q, c)
  {
    var k: nat :| k < |states[q].cfp| && states[q].cfp[k].cfg == c;
    NodeAt(states, q, k);
    m := Base(states, q) + k;
  }

  /** Paths of links carry lookaheads forward. */
  lemma {:induction false} PathLooks(g: Grammar, lam: Flags, first: Sets, states: seq<State>, links: set<Link>,
                                     fplp: FollowSets.Links, d: nat, c: nat, k: nat, t: nat, n: nat)
    requires Built(g, lam, first, states, links) && LinksMatch(states, links, fplp)
    requires d < |fplp| && c < |fplp| && FollowSets.Reaches(fplp, d, c, k)
    requires LookIn(g, states, Nodes(states)[d].stp, Nodes(states)[d].cfg, t, n)
    ensures LookIn(g, states, Nodes(states)[c].stp, Nodes(states)[c].cfg, t, n + k)
    decreases k
  {
    hide Built, Generated, LookIn, LinksMatch, Nodes;
    if k > 0 {
      var e: nat :| e in fplp[d] && FollowSets.Reaches(fplp, e, c, k - 1);
      LinkLooks(g, lam, first, states, links, fplp, d, e, t, n);
      PathLooks(g, lam, first, states, links, fplp, e, c, k - 1, t, n + 1);
    }
  }

  lemma LinkLooks(g: Grammar, lam: Flags, first: Sets, states: seq<State>, links: set<Link>,
                  fplp: FollowSets.Links, d: nat, e: nat, t: nat, n: nat)
    requires Built(g, lam, first, states, links) && LinksMatch(states, links, fplp)
    requires d < |fplp| && e in fplp[d]
    requires LookIn(g, states, Nodes(states)[d].stp, Nodes(states)[d].cfg, t, n)
    ensures e < |fplp| && LookIn(g, states, Nodes(states)[e].stp, Nodes(states)[e].cfg, t, n + 1)
  {
    hide Built, Generated, Propagates;
    assert RowMatches(states, links, Nodes(states), d, fplp[d]);
    var a, b := Nodes(states)[d], Nodes(states)[e];
    NodeHas(states, d);
    LinkIsPropagation(g, lam, first, states, links, a.stp, a.cfg, b.stp, b.cfg);
    assert Propagates(g, states, a.stp, a.cfg, b.stp, b.cfg);
  }

  /** Every inherited lookahead arrives along a path of links. */
  lemma {:induction false} LookPath(g: Grammar, lam: Flags, first: Sets, states: seq<State>, links: set<Link>,
                                    fplp: FollowSets.Links, init: Sets, c: nat, t: nat, n: nat)
    requires Built(g, lam, first, states, links) && LinksMatch(states, links, fplp) && FollowSets.ValidLinks(fplp)
    requires InitMatches(states, init) && c < |fplp|
    requires LookIn(g, states, Nodes(states)[c].stp, Nodes(states)[c].cfg, t, n)
    ensures FollowSets.Inherited(fplp, init, c, t)
    decreases n
  {
    hide Built, Generated, Propagates;
    if n == 0 {
      var q, k := NodeOf(states, c);
      NodeAt(states, q, k);
      InitIsGenerated(g, lam, first, states, links, q, k, t);
      assert NodeInit(states, init, q, k);
      assert FollowSets.Reaches(fplp, c, c, 0);
    } else {
      var b := Nodes(states)[c];
      var p: nat, d :| Propagates(g, states, p, d, b.stp, b.cfg) && LookIn(g, states, p, d, t, n - 1);
      assert p < |states| && Has(states[p].cfp, d) by { FromHas(g, states, p, d, b.stp, b.cfg); }
      var m := HasNode(states, p, d);
      LookPath(g, lam, first, states, links, fplp, init, m, t, n - 1);
      LinkIsPropagation(g, lam, first, states, links, p, d, b.stp, b.cfg);
      assert RowMatches(states, links, Nodes(states), m, fplp[m]);
      FollowSets.InheritedOneMore(fplp, init, m, c, t);
    }
  }

  lemma FromHas(g: Grammar, states: seq<State>, p: nat, d: Config, q: nat, c: Config)
    requires Propagates(g, states, p, d, q, c)
    ensures p < |states| && Has(states[p].cfp, d)
  {
  }

  lemma InheritedIsLookahead(g: Grammar, lam: Flags, first: Sets, states: seq<State>, links: set<Link>,
                             fplp: FollowSets.Links, init: Sets, c: nat, t: nat)
    requires Built(g, lam, first, states, links) && LinksMatch(states, links, fplp) && FollowSets.ValidLinks(fplp)
    requires InitMatches(states, init) && c < |fplp|
    ensures FollowSets.Inherited(fplp, init, c, t) <==> Lookahead(g, states, Nodes(states)[c].stp, Nodes(states)[c].cfg, t)
  {
    hide Built, LookIn;
    if FollowSets.Inherited(fplp, init, c, t) {
      var d: nat, k: nat :| d < |init| && FollowSets.Reaches(fplp, d, c, k) && t in init[d];
      var q, j := NodeOf(states, d);
      NodeAt(states, q, j);
      InitIsGenerated(g, lam, first, states, links, q, j, t);
      assert NodeInit(states, init, q, j);
      GeneratedLooks(g, states, Nodes(states)[d].stp, Nodes(states)[d].cfg, t);
      PathLooks(g, lam, first, states, links, fplp, d, c, k, t, 0);
    }
    if Lookahead(g, states, Nodes(states)[c].stp, Nodes(states)[c].cfg, t) {
      var n: nat :| LookIn(g, states, Nodes(states)[c].stp, Nodes(states)[c].cfg, t, n);
      LookPath(g, lam, first, states, links, fplp, init, c, t, n);
    }
  }

  lemma GeneratedLooks(g: Grammar, states: seq<State>, q: nat, c: Config, t: nat)
    requires Generated(g, states, q, c, t)
    ensures LookIn(g, states, q, c, t, 0)
  {
  }

  // ------------------------------------------------------------ the computation

  /** The follow sets that the closure started with, in the order of `Nodes`. */
  function Inits(states: seq<State>): Sets {
    if states == [] then []
    else
      var items := states[|states|-1].cfp;
      Inits(states[..|states|-1]) + seq(|items|, k requires 0 <= k < |items| => items[k].fws)
  }

  lemma {:induction false} InitsAt(states: seq<State>)
    ensures InitMatches(states, Inits(states))
  {
    if states != [] {
      var n := |states| - 1;
      InitsAt(states[..n]);
      forall q: nat, k: nat | q < |states| && k < |states[q].cfp| ensures NodeInit(states, Inits(states), q, k) {
        NodeAt(states, q, k);
        if q < n {
          assert NodeInit(states[..n], Inits(states[..n]), q, k);
          assert states[..n][..q] == states[..q];
          NodeAt(states[..n], q, k);
        }
      }
    }
  }

  lemma InitsBounded(g: Grammar, lam: Flags, first: Sets, states: seq<State>, links: set<Link>, init: Sets)
    requires Built(g, lam, first, states, links) && InitMatches(states, init)
    ensures FollowSets.Bounded(init, g.nterminal)
  {
    hide Built;
    forall m: nat, t: nat | m < |init| && t in init[m] ensures t in Below(g.nterminal) {
      var q, k := NodeOf(states, m);
      assert NodeInit(states, init, q, k);
      InitIsGenerated(g, lam, first, states, links, q, k, t);
      GeneratedTerminal(g, lam, first, states, links, q, states[q].cfp[k].cfg, t);
    }
  }

  lemma GeneratedTerminal(g: Grammar, lam: Flags, first: Sets, states: seq<State>, links: set<Link>, q: nat, c: Config, t: nat)
    requires Built(g, lam, first, states, links) && Generated(g, states, q, c, t)
    ensures g.Terminal(t)
  {
  }

  /** The states with their follow sets replaced. */
  function WithFollow(states: seq<State>, fws: Sets): seq<State>
    requires |fws| == |Nodes(states)|
  {
    seq(|states|, q requires 0 <= q < |states| =>
      states[q].(cfp := seq(|states[q].cfp|, k requires 0 <= k < |states[q].cfp| =>
        (NodeAt(states, q, k); states[q].cfp[k].(fws := fws[Base(states, q) + k])))))
  }

  /** The same automaton, whose follow sets are the LALR(1) lookaheads. */
  ghost predicate LookaheadsExact(g: Grammar, states: seq<State>, states': seq<State>) {
    && |states'| == |states|
    && (forall q: nat :: q < |states| ==> SameCore(states[q], states'[q]))
    && forall q: nat, k: nat :: q < |states| && k < |states'[q].cfp| ==> FollowExactAt(g, states, states', q, k)
  }

  ghost predicate SameCore(s: State, t: State) {
    && t.basis == s.basis && t.shifts == s.shifts && |t.cfp| == |s.cfp|
    && forall k :: 0 <= k < |s.cfp| ==> t.cfp[k].cfg == s.cfp[k].cfg
  }

  ghost predicate FollowExactAt(g: Grammar, states: seq<State>, states': seq<State>, q: nat, k: nat)
    requires q < |states'| && k < |states'[q].cfp|
  {
    forall t: nat :: t in states'[q].cfp[k].fws <==> Lookahead(g, states, q, states'[q].cfp[k].cfg, t)
  }

  /** `FindLinks` and `FindFollowSets` together. */
  method FindLookaheads(g: Grammar, lam: Flags, first: Sets, states: seq<State>, links: set<Link>)
    returns (states': seq<State>)
    requires Built(g, lam, first, states, links)
    ensures LookaheadsExact(g, states, states')
  {
    hide Built, LinksMatch, InitMatches, FollowSets.Bounded, FollowSets.FollowExact, WithFollow;
    var fplp := FindLinks(states, links);
    assert |fplp| == |Nodes(states)| by { LinksLength(states, links, fplp); }
    var init := Inits(states);
    InitsAt(states);
    assert |init| == |Nodes(states)| by { InitLength(states, init); }
    InitsBounded(g, lam, first, states, links, init);
    var fws := new set<nat>[|init|](i requires 0 <= i < |init| => init[i]);
    assert fws[..] == init;
    FollowSets.FindFollowSets(fplp, fws, g.nterminal);
    states' := WithFollow(states, fws[..]);
    FollowIsLookahead(g, lam, first, states, links, fplp, init, fws[..]);
  }

  lemma LinksLength(states: seq<State>, links: set<Link>, fplp: FollowSets.Links)
    requires LinksMatch(states, links, fplp)
    ensures |fplp| == |Nodes(states)|
  {
  }

  lemma InitLength(states: seq<State>, init: Sets)
    requires InitMatches(states, init)
    ensures |init| == |Nodes(states)|
  {
  }

  lemma FollowIsLookahead(g: Grammar, lam: Flags, first: Sets, states: seq<State>, links: set<Link>,
                          fplp: FollowSets.Links, init: Sets, fws: Sets)
    requires Built(g, lam, first, states, links) && LinksMatch(states, links, fplp) && FollowSets.ValidLinks(fplp)
    requires InitMatches(states, init) && FollowSets.FollowExact(fplp, init, fws)
    requires |fws| == |Nodes(states)|
    ensures LookaheadsExact(g, states, WithFollow(states, fws))
  {
    hide Built, Lookahead, FollowSets.Inherited;
    var states' := WithFollow(states, fws);
    forall q: nat, k: nat | q < |states| && k < |states'[q].cfp| ensures FollowExactAt(g, states, states', q, k) {
      NodeAt(states, q, k);
      var c := Base(states, q) + k;
      forall t: nat ensures t in states'[q].cfp[k].fws <==> Lookahead(g, states, q, states'[q].cfp[k].cfg, t) {
        InheritedIsLookahead(g, lam, first, states, links, fplp, init, c, t);
        assert t in fws[c] <==> FollowSets.Inherited(fplp, init, c, t);
      }
    }
  }
}
