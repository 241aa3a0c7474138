/** `Configlist_closure`: the work list that adds, for every configuration with a nonterminal at
    its dot, the rules of that nonterminal, together with the follow symbols and the propagation
    links that this generates. */
module Closure {
  import opened Grammars
  import opened BitSets
  import opened LR0

  ghost predicate Has(items: seq<Item>, c: Config) {
    exists i :: 0 <= i < |items| && items[i].cfg == c
  }

  ghost predicate DistinctItems(items: seq<Item>) {
    forall i, j :: 0 <= i < j < |items| ==> items[i].cfg != items[j].cfg
  }

  /** The lookup of the configuration table: the place of c, or the length if it is new. */
  function Find(items: seq<Item>, c: Config): (k: nat)
    ensures k <= |items|
    ensures k < |items| ==> items[k].cfg == c
    ensures forall j :: 0 <= j < k ==> items[j].cfg != c
  {
    if items == [] || items[0].cfg == c then 0 else 1 + Find(items[1..], c)
  }

  /** `Configlist_add` */
  function Added(items: seq<Item>, c: Config): seq<Item> {
    if Find(items, c) == |items| then items + [Item(c, {}, [])] else items
  }

  /** The body of the closure loops for the configuration at i and rule r of the nonterminal at its dot. */
  function Predict(g: Grammar, lam: Flags, first: Sets, items: seq<Item>, i: nat, r: nat): seq<Item>
    requires i < |items|
  {
    var rest, d, k := Rest(g, items[i].cfg), Config(r, 0), Find(items, Config(r, 0));
    var a := Added(items, d);
    var b := a[k := a[k].(fws := a[k].fws + FirstOf(g, lam, first, rest))];
    if Vanishes(g, lam, rest) then b[i := b[i].(fplp := b[i].fplp + [d])] else b
  }

  // ------------------------------------------------------------ what the closure is

  ghost predicate ClosedUnder(g: Grammar, t: set<Config>) {
    forall c, d :: c in t && Predicts(g, c, d) ==> d in t
  }

  /** The configurations are the least closed set that contains the basis. */
  ghost predicate LeastClosure(g: Grammar, basis: seq<Config>, items: seq<Item>) {
    && (forall c :: c in basis ==> Has(items, c))
    && (forall i, d :: 0 <= i < |items| && Predicts(g, items[i].cfg, d) ==> Has(items, d))
    && forall t: set<Config>, i :: (forall c :: c in basis ==> c in t) && ClosedUnder(g, t) && 0 <= i < |items| ==>
         items[i].cfg in t
  }

  /** t follows a configuration d of the state because the rest after the nonterminal that
      predicts d can begin with t. */
  ghost predicate Spontaneous(g: Grammar, lam: Flags, first: Sets, items: seq<Item>, d: Config, t: nat) {
    exists i :: 0 <= i < |items| && Predicts(g, items[i].cfg, d) && t in FirstOf(g, lam, first, Rest(g, items[i].cfg))
  }

  ghost predicate FollowsFrom(g: Grammar, lam: Flags, first: Sets, basis: seq<Config>, init: set<nat>, items: seq<Item>,
                              k: nat, t: nat)
    requires k < |items|
  {
    t in items[k].fws <==>
      (items[k].cfg in basis && t in init) || Spontaneous(g, lam, first, items, items[k].cfg, t)
  }

  ghost predicate FollowStart(g: Grammar, lam: Flags, first: Sets, basis: seq<Config>, init: set<nat>, items: seq<Item>) {
    forall k: nat, t: nat :: k < |items| ==> FollowsFrom(g, lam, first, basis, init, items, k, t)
  }

  ghost predicate LinkedTo(g: Grammar, lam: Flags, it: Item, d: Config) {
    d in it.fplp <==> Predicts(g, it.cfg, d) && Vanishes(g, lam, Rest(g, it.cfg))
  }

  ghost predicate LinksWithin(g: Grammar, lam: Flags, items: seq<Item>) {
    forall i: nat, d :: i < |items| ==> LinkedTo(g, lam, items[i], d)
  }

  ghost predicate ClosureOf(g: Grammar, lam: Flags, first: Sets, basis: seq<Config>, init: set<nat>, items: seq<Item>) {
    && DistinctItems(items)
    && (forall i :: 0 <= i < |items| ==> ValidConfig(g, items[i].cfg))
    && LeastClosure(g, basis, items)
    && FollowStart(g, lam, first, basis, init, items)
    && LinksWithin(g, lam, items)
  }

  // ------------------------------------------------------------ the loops half way

  /** The pair of configuration i and rule r has been processed when the loops stand at (p, q). */
  ghost predicate Done(i: int, r: nat, p: nat, q: nat) {
    i < p || (i == p && r < q)
  }

  ghost predicate Shape(g: Grammar, basis: seq<Config>, items: seq<Item>) {
    && DistinctItems(items)
    && (forall i :: 0 <= i < |items| ==> ValidConfig(g, items[i].cfg))
    && |basis| <= |items|
    && (forall i :: 0 <= i < |basis| ==> items[i].cfg == basis[i])
    && forall j: nat :: |basis| <= j < |items| ==> PredictedAt(g, items, j)
  }

  /** A configuration before j predicts the one at j. */
  ghost predicate PredictedAt(g: Grammar, items: seq<Item>, j: nat)
    requires j < |items|
  {
    exists i :: 0 <= i < j && Predicts(g, items[i].cfg, items[j].cfg)
  }

  ghost predicate ClosedSoFar(g: Grammar, items: seq<Item>, p: nat, q: nat) {
    forall i, d :: 0 <= i < |items| && Predicts(g, items[i].cfg, d) && Done(i, d.rule, p, q) ==> Has(items, d)
  }

  ghost predicate SpontaneousSoFar(g: Grammar, lam: Flags, first: Sets, items: seq<Item>, d: Config, t: nat, p: nat, q: nat) {
    exists i :: 0 <= i < |items| && Predicts(g, items[i].cfg, d) && Done(i, d.rule, p, q)
      && t in FirstOf(g, lam, first, Rest(g, items[i].cfg))
  }

  ghost predicate FollowAt(g: Grammar, lam: Flags, first: Sets, basis: seq<Config>, init: set<nat>, items: seq<Item>,
                           p: nat, q: nat, k: nat, t: nat)
    requires k < |items|
  {
    t in items[k].fws <==>
      (items[k].cfg in basis && t in init) || SpontaneousSoFar(g, lam, first, items, items[k].cfg, t, p, q)
  }

  ghost predicate FollowSoFar(g: Grammar, lam: Flags, first: Sets, basis: seq<Config>, init: set<nat>, items: seq<Item>, p: nat, q: nat) {
    forall k: nat, t: nat :: k < |items| ==> FollowAt(g, lam, first, basis, init, items, p, q, k, t)
  }

  ghost predicate LinksSoFar(g: Grammar, lam: Flags, items: seq<Item>, p: nat, q: nat) {
    forall i: nat, d :: i < |items| ==> LinkedSoFar(g, lam, items[i], i, d, p, q)
  }

  ghost predicate LinkedSoFar(g: Grammar, lam: Flags, it: Item, i: nat, d: Config, p: nat, q: nat) {
    d in it.fplp <==> Predicts(g, it.cfg, d) && Vanishes(g, lam, Rest(g, it.cfg)) && Done(i, d.rule, p, q)
  }

  ghost predicate Partial(g: Grammar, lam: Flags, first: Sets, basis: seq<Config>, init: set<nat>, items: seq<Item>, p: nat, q: nat) {
    && Shape(g, basis, items)
    && ClosedSoFar(g, items, p, q)
    && FollowSoFar(g, lam, first, basis, init, items, p, q)
    && LinksSoFar(g, lam, items, p, q)
  }

  ghost predicate SameDone(g: Grammar, items: seq<Item>, p: nat, q: nat, p': nat, q': nat) {
    forall i, d: Config :: 0 <= i < |items| && Predicts(g, items[i].cfg, d) ==>
      (Done(i, d.rule, p, q) <==> Done(i, d.rule, p', q'))
  }

  lemma MoveOn(g: Grammar, lam: Flags, first: Sets, basis: seq<Config>, init: set<nat>, items: seq<Item>,
               p: nat, q: nat, p': nat, q': nat)
    requires Partial(g, lam, first, basis, init, items, p, q) && SameDone(g, items, p, q, p', q')
    ensures Partial(g, lam, first, basis, init, items, p', q')
  {
    hide Predicts, Done, Shape, Has;
    assert ClosedSoFar(g, items, p', q');
    forall k: nat, t: nat | k < |items| ensures FollowAt(g, lam, first, basis, init, items, p', q', k, t) {
      assert FollowAt(g, lam, first, basis, init, items, p, q, k, t);
      assert SpontaneousSoFar(g, lam, first, items, items[k].cfg, t, p, q)
        <==> SpontaneousSoFar(g, lam, first, items, items[k].cfg, t, p', q');
    }
    assert FollowSoFar(g, lam, first, basis, init, items, p', q');
    forall i: nat, d: Config | i < |items| ensures LinkedSoFar(g, lam, items[i], i, d, p', q') {
      assert LinkedSoFar(g, lam, items[i], i, d, p, q);
    }
    assert LinksSoFar(g, lam, items, p', q');
  }

  /** Rule q does not belong to the nonterminal at the dot of configuration p: nothing to do. */
  lemma SkipPair(g: Grammar, lam: Flags, first: Sets, basis: seq<Config>, init: set<nat>, items: seq<Item>, p: nat, q: nat)
    requires Partial(g, lam, first, basis, init, items, p, q)
    requires p < |items| && !Predicts(g, items[p].cfg, Config(q, 0))
    ensures Partial(g, lam, first, basis, init, items, p, q + 1)
  {
    hide Partial;
    assert forall d: Config :: Predicts(g, items[p].cfg, d) ==> d == Config(d.rule, 0);
    MoveOn(g, lam, first, basis, init, items, p, q, p, q + 1);
  }

  lemma NextItem(g: Grammar, lam: Flags, first: Sets, basis: seq<Config>, init: set<nat>, items: seq<Item>, p: nat, q: nat)
    requires Partial(g, lam, first, basis, init, items, p, q) && q >= |g.rules|
    ensures Partial(g, lam, first, basis, init, items, p + 1, 0)
  {
    hide Partial;
    MoveOn(g, lam, first, basis, init, items, p, q, p + 1, 0);
  }

  // ------------------------------------------------------------ one step

  /** What one step changes, place by place. */
  ghost predicate Stepped(g: Grammar, lam: Flags, first: Sets, items: seq<Item>, items': seq<Item>, p: nat, q: nat) {
    && p < |items|
    && var d := Config(q, 0);
       var k := Find(items, d);
       var a := Added(items, d);
       var more := FirstOf(g, lam, first, Rest(g, items[p].cfg));
       && |items'| == |a|
       && (forall j :: 0 <= j < |a| ==> items'[j].cfg == a[j].cfg)
       && (forall j :: 0 <= j < |a| ==> items'[j].fws == if j == k then a[j].fws + more else a[j].fws)
       && forall j :: 0 <= j < |a| ==>
            items'[j].fplp == if j == p && Vanishes(g, lam, Rest(g, items[p].cfg)) then a[j].fplp + [d] else a[j].fplp
  }

  lemma PredictSteps(g: Grammar, lam: Flags, first: Sets, items: seq<Item>, p: nat, q: nat)
    requires p < |items|
    ensures Stepped(g, lam, first, items, Predict(g, lam, first, items, p, q), p, q)
  {
  }

  /** Adding d changes no configuration, and adds d at the end if it is new. */
  ghost predicate GrownBy(items: seq<Item>, items': seq<Item>, d: Config) {
    && |items| <= |items'| <= |items| + 1
    && (forall j :: 0 <= j < |items| ==> items'[j].cfg == items[j].cfg)
    && (|items'| > |items| ==> items'[|items|].cfg == d && forall j :: 0 <= j < |items| ==> items[j].cfg != d)
  }

  lemma AddedGrows(items: seq<Item>, items': seq<Item>, d: Config)
    requires |items'| == |Added(items, d)|
    requires forall j :: 0 <= j < |items'| ==> items'[j].cfg == Added(items, d)[j].cfg
    ensures GrownBy(items, items', d)
  {
  }

  lemma GrownPredicted(g: Grammar, basis: seq<Config>, items: seq<Item>, items': seq<Item>, p: nat, d: Config, j: nat)
    requires Shape(g, basis, items) && p < |items| && Predicts(g, items[p].cfg, d) && GrownBy(items, items', d)
    requires |basis| <= j < |items'|
    ensures PredictedAt(g, items', j)
  {
    hide Predicts, ValidConfig, DistinctItems;
    if j < |items| {
      assert PredictedAt(g, items, j);
      var i :| 0 <= i < j && Predicts(g, items[i].cfg, items[j].cfg);
      assert items'[i].cfg == items[i].cfg && items'[j].cfg == items[j].cfg;
    } else {
      assert items'[p].cfg == items[p].cfg;
    }
  }

  lemma GrownDistinct(items: seq<Item>, items': seq<Item>, d: Config)
    requires DistinctItems(items) && GrownBy(items, items', d)
    ensures DistinctItems(items')
  {
  }

  lemma StepShape(g: Grammar, basis: seq<Config>, items: seq<Item>, items': seq<Item>, p: nat, d: Config)
    requires Shape(g, basis, items) && p < |items| && Predicts(g, items[p].cfg, d) && GrownBy(items, items', d)
    ensures Shape(g, basis, items')
  {
    PredictedValid(g, items[p].cfg, d);
    GrownDistinct(items, items', d);
    hide Predicts, ValidConfig, DistinctItems, PredictedAt;
    forall j: nat | |basis| <= j < |items'| ensures PredictedAt(g, items', j) {
      GrownPredicted(g, basis, items, items', p, d, j);
    }
  }

  lemma StepHas(items: seq<Item>, items': seq<Item>, d: Config)
    requires |items'| == |Added(items, d)|
    requires forall j :: 0 <= j < |items'| ==> items'[j].cfg == Added(items, d)[j].cfg
    ensures forall c :: Has(items, c) ==> Has(items', c)
    ensures Has(items', d)
  {
    forall c | Has(items, c) ensures Has(items', c) {
      var i :| 0 <= i < |items| && items[i].cfg == c;
      assert items'[i].cfg == c;
    }
    assert items'[Find(items, d)].cfg == d;
  }

  lemma PredictedValid(g: Grammar, c: Config, d: Config)
    requires Predicts(g, c, d)
    ensures ValidConfig(g, d)
  {
  }

  lemma StepClosed(g: Grammar, lam: Flags, first: Sets, basis: seq<Config>, items: seq<Item>, items': seq<Item>, p: nat, q: nat)
    requires ClosedSoFar(g, items, p, q) && Stepped(g, lam, first, items, items', p, q)
    requires forall c :: Has(items, c) ==> Has(items', c)
    requires Has(items', Config(q, 0))
    ensures ClosedSoFar(g, items', p, q + 1)
  {
    forall i, d: Config | 0 <= i < |items'| && Predicts(g, items'[i].cfg, d) && Done(i, d.rule, p, q + 1)
      ensures Has(items', d)
    {
      if !(i == p && d.rule == q) {
        assert i < |items| && items'[i].cfg == items[i].cfg && Predicts(g, items[i].cfg, d);
        assert Done(i, d.rule, p, q);
      }
    }
  }

  lemma StepLinks(g: Grammar, lam: Flags, first: Sets, items: seq<Item>, items': seq<Item>, p: nat, q: nat)
    requires LinksSoFar(g, lam, items, p, q) && Stepped(g, lam, first, items, items', p, q)
    requires Predicts(g, items[p].cfg, Config(q, 0))
    ensures LinksSoFar(g, lam, items', p, q + 1)
  {
    hide LinkedSoFar;
    var q' := q + 1;
    forall i: nat, d: Config | i < |items'| ensures LinkedSoFar(g, lam, items'[i], i, d, p, q') {
      StepLinksAt(g, lam, first, items, items', p, q, i, d);
    }
  }

  lemma StepLinksAt(g: Grammar, lam: Flags, first: Sets, items: seq<Item>, items': seq<Item>, p: nat, q: nat, i: nat, d: Config)
    requires i < |items| ==> LinkedSoFar(g, lam, items[i], i, d, p, q)
    requires Stepped(g, lam, first, items, items', p, q) && i < |items'|
    requires Predicts(g, items[p].cfg, Config(q, 0))
    ensures LinkedSoFar(g, lam, items'[i], i, d, p, q + 1)
  {
    if i < |items| && i == p && d.rule == q && d != Config(q, 0) { assert !Predicts(g, items[i].cfg, d); }
  }

  lemma StepFollow(g: Grammar, lam: Flags, first: Sets, basis: seq<Config>, init: set<nat>,
                   items: seq<Item>, items': seq<Item>, p: nat, q: nat)
    requires Shape(g, basis, items) && ClosedSoFar(g, items, p, q)
    requires FollowSoFar(g, lam, first, basis, init, items, p, q) && Stepped(g, lam, first, items, items', p, q)
    requires Predicts(g, items[p].cfg, Config(q, 0))
    ensures FollowSoFar(g, lam, first, basis, init, items', p, q + 1)
  {
    var q' := q + 1;
    forall k: nat, t: nat | k < |items'| ensures FollowAt(g, lam, first, basis, init, items', p, q', k, t) {
      StepFollowAt(g, lam, first, basis, init, items, items', p, q, k, t);
    }
  }

  lemma StepFollowAt(g: Grammar, lam: Flags, first: Sets, basis: seq<Config>, init: set<nat>,
                     items: seq<Item>, items': seq<Item>, p: nat, q: nat, k: nat, t: nat)
    requires Shape(g, basis, items) && ClosedSoFar(g, items, p, q)
    requires FollowSoFar(g, lam, first, basis, init, items, p, q) && Stepped(g, lam, first, items, items', p, q)
    requires Predicts(g, items[p].cfg, Config(q, 0)) && k < |items'|
    ensures FollowAt(g, lam, first, basis, init, items', p, q + 1, k, t)
  {
    var d := Config(q, 0);
    var c := items'[k].cfg;
    StepSpontaneous(g, lam, first, basis, items, items', p, q, c, t);
    if k == |items| { NewIsFresh(g, lam, first, basis, items, p, q, d, t); }
    hide Predicts, SpontaneousSoFar, Shape, FirstOf;
    if k < |items| {
      assert FollowAt(g, lam, first, basis, init, items, p, q, k, t);
      assert k == Find(items, d) <==> c == d by { FindUnique(g, basis, items, k, d); }
    }
  }

  lemma FindUnique(g: Grammar, basis: seq<Config>, items: seq<Item>, k: nat, d: Config)
    requires Shape(g, basis, items) && k < |items|
    ensures k == Find(items, d) <==> items[k].cfg == d
  {
  }

  lemma StepSpontaneous(g: Grammar, lam: Flags, first: Sets, basis: seq<Config>,
                        items: seq<Item>, items': seq<Item>, p: nat, q: nat, c: Config, t: nat)
    requires Stepped(g, lam, first, items, items', p, q) && Predicts(g, items[p].cfg, Config(q, 0))
    ensures SpontaneousSoFar(g, lam, first, items', c, t, p, q + 1) <==>
            SpontaneousSoFar(g, lam, first, items, c, t, p, q)
            || (c == Config(q, 0) && t in FirstOf(g, lam, first, Rest(g, items[p].cfg)))
  {
    if SpontaneousSoFar(g, lam, first, items, c, t, p, q) {
      var i :| 0 <= i < |items| && Predicts(g, items[i].cfg, c) && Done(i, c.rule, p, q)
        && t in FirstOf(g, lam, first, Rest(g, items[i].cfg));
      assert items'[i].cfg == items[i].cfg;
      assert SpontaneousSoFar(g, lam, first, items', c, t, p, q + 1);
    }
    if c == Config(q, 0) && t in FirstOf(g, lam, first, Rest(g, items[p].cfg)) {
      assert items'[p].cfg == items[p].cfg && Done(p, c.rule, p, q + 1);
      assert SpontaneousSoFar(g, lam, first, items', c, t, p, q + 1);
    }
    if SpontaneousSoFar(g, lam, first, items', c, t, p, q + 1) {
      var i :| 0 <= i < |items'| && Predicts(g, items'[i].cfg, c) && Done(i, c.rule, p, q + 1)
        && t in FirstOf(g, lam, first, Rest(g, items'[i].cfg));
      assert i < |items| && items'[i].cfg == items[i].cfg;
      assert Done(i, c.rule, p, q) || (i == p && c == Config(q, 0));
    }
  }

  /** Nothing has been attributed to a configuration that is not in the list. */
  lemma NewIsFresh(g: Grammar, lam: Flags, first: Sets, basis: seq<Config>, items: seq<Item>, p: nat, q: nat, d: Config, t: nat)
    requires Shape(g, basis, items) && ClosedSoFar(g, items, p, q) && Find(items, d) == |items|
    ensures d !in basis && !SpontaneousSoFar(g, lam, first, items, d, t, p, q)
  {
    assert !Has(items, d);
    forall i | 0 <= i < |basis| ensures basis[i] != d { assert items[i].cfg == basis[i]; }
  }

  lemma StepPartial(g: Grammar, lam: Flags, first: Sets, basis: seq<Config>, init: set<nat>, items: seq<Item>, p: nat, q: nat)
    requires p < |items| && Partial(g, lam, first, basis, init, items, p, q)
    requires Predicts(g, items[p].cfg, Config(q, 0))
    ensures Partial(g, lam, first, basis, init, Predict(g, lam, first, items, p, q), p, q + 1)
    ensures |items| <= |Predict(g, lam, first, items, p, q)|
    ensures Predict(g, lam, first, items, p, q)[p].cfg == items[p].cfg
  {
    var items' := Predict(g, lam, first, items, p, q);
    PredictSteps(g, lam, first, items, p, q);
    hide Predict, Predicts;
    StepFollow(g, lam, first, basis, init, items, items', p, q);
    AddedGrows(items, items', Config(q, 0));
    StepShape(g, basis, items, items', p, Config(q, 0));
    StepHas(items, items', Config(q, 0));
    StepClosed(g, lam, first, basis, items, items', p, q);
    StepLinks(g, lam, first, items, items', p, q);
  }

  // ------------------------------------------------------------ the loops

  /** Nothing is predicted by configuration p: its dot is at the end or before a terminal. */
  lemma SkipItem(g: Grammar, lam: Flags, first: Sets, basis: seq<Config>, init: set<nat>, items: seq<Item>, p: nat)
    requires Partial(g, lam, first, basis, init, items, p, 0) && p < |items|
    requires forall d :: !Predicts(g, items[p].cfg, d)
    ensures Partial(g, lam, first, basis, init, items, p + 1, 0)
  {
    MoveOn(g, lam, first, basis, init, items, p, 0, p + 1, 0);
  }

  lemma {:induction false} DistinctBound(items: seq<Item>, all: set<Config>)
    requires DistinctItems(items) && forall i :: 0 <= i < |items| ==> items[i].cfg in all
    ensures |items| <= |all|
  {
    if items != [] {
      var c := items[0].cfg;
      DistinctBound(items[1..], all - {c});
    }
  }

  lemma PartialBound(g: Grammar, lam: Flags, first: Sets, basis: seq<Config>, init: set<nat>, items: seq<Item>, p: nat, q: nat)
    requires Partial(g, lam, first, basis, init, items, p, q)
    ensures |items| <= |AllConfigs(g)|
  {
    forall i | 0 <= i < |items| ensures items[i].cfg in AllConfigs(g) { InAllConfigs(g, items[i].cfg); }
    DistinctBound(items, AllConfigs(g));
  }

  lemma {:induction false} InEveryClosed(g: Grammar, basis: seq<Config>, items: seq<Item>, t: set<Config>, i: nat)
    requires Shape(g, basis, items) && i < |items|
    requires ClosedUnder(g, t) && forall c :: c in basis ==> c in t
    ensures items[i].cfg in t
    decreases i
  {
    if i < |basis| {
      assert basis[i] in basis;
    } else {
      assert PredictedAt(g, items, i);
      var j :| 0 <= j < i && Predicts(g, items[j].cfg, items[i].cfg);
      InEveryClosed(g, basis, items, t, j);
    }
  }

  /** When the work list is exhausted it is the closure. */
  lemma Exhausted(g: Grammar, lam: Flags, first: Sets, basis: seq<Config>, init: set<nat>, items: seq<Item>)
    requires Partial(g, lam, first, basis, init, items, |items|, 0)
    ensures ClosureOf(g, lam, first, basis, init, items)
  {
    hide Predicts, ValidConfig;
    var n := |items|;
    assert forall i, r :: 0 <= i < n ==> Done(i, r, n, 0);
    ExhaustedLeast(g, basis, items);
    forall k: nat, t: nat | k < |items| ensures FollowsFrom(g, lam, first, basis, init, items, k, t) {
      assert FollowAt(g, lam, first, basis, init, items, n, 0, k, t);
      assert SpontaneousSoFar(g, lam, first, items, items[k].cfg, t, n, 0)
        <==> Spontaneous(g, lam, first, items, items[k].cfg, t);
    }
    forall i: nat, d: Config | i < |items| ensures LinkedTo(g, lam, items[i], d) {
      assert LinkedSoFar(g, lam, items[i], i, d, n, 0) && Done(i, d.rule, n, 0);
    }
  }

  lemma ExhaustedLeast(g: Grammar, basis: seq<Config>, items: seq<Item>)
    requires Shape(g, basis, items) && ClosedSoFar(g, items, |items|, 0)
    ensures LeastClosure(g, basis, items)
  {
    hide Predicts, ValidConfig, Has;
    forall c | c in basis ensures Has(items, c) {
      var i :| 0 <= i < |basis| && basis[i] == c;
      HasAt(items, i, c);
    }
    forall i, d | 0 <= i < |items| && Predicts(g, items[i].cfg, d) ensures Has(items, d) {
      assert Done(i, d.rule, |items|, 0);
    }
    forall t: set<Config>, i | (forall c :: c in basis ==> c in t) && ClosedUnder(g, t) && 0 <= i < |items|
      ensures items[i].cfg in t
    {
      InEveryClosed(g, basis, items, t, i);
    }
  }

  lemma HasAt(items: seq<Item>, i: nat, c: Config)
    requires i < |items| && items[i].cfg == c
    ensures Has(items, c)
  {
  }

  lemma StartPartial(g: Grammar, lam: Flags, first: Sets, basis: seq<Config>, init: set<nat>, items: seq<Item>)
    requires forall i, j :: 0 <= i < j < |basis| ==> basis[i] != basis[j]
    requires forall i :: 0 <= i < |basis| ==> ValidConfig(g, basis[i])
    requires |items| == |basis| && forall i :: 0 <= i < |basis| ==> items[i] == Item(basis[i], init, [])
    ensures Partial(g, lam, first, basis, init, items, 0, 0)
  {
    hide ValidConfig;
    forall k: nat, t: nat | k < |items| ensures FollowAt(g, lam, first, basis, init, items, 0, 0, k, t) {
      assert items[k] == Item(basis[k], init, []);
    }
  }

  /** The loop over the rules of the nonterminal x at the dot of configuration p. */
  method ClosureOfItem(g: Grammar, lam: Flags, first: Sets, ghost basis: seq<Config>, ghost init: set<nat>,
                       items: seq<Item>, p: nat, x: nat)
    returns (current: seq<Item>)
    requires p < |items| && Before(g, items[p].cfg, x)
    requires Partial(g, lam, first, basis, init, items, p, 0)
    ensures |items| <= |current|
    ensures Partial(g, lam, first, basis, init, current, p + 1, 0)
  {
    hide Partial, Predict;
    current := items;
    var r := 0;
    while r < |g.rules|
      invariant 0 <= r <= |g.rules|
      invariant |items| <= |current| && current[p].cfg == items[p].cfg
      invariant Partial(g, lam, first, basis, init, current, p, r)
    {
      if g.rules[r].lhs == x {
        StepPartial(g, lam, first, basis, init, current, p, r);
        current := Predict(g, lam, first, current, p, r);
      } else {
        SkipPair(g, lam, first, basis, init, current, p, r);
      }
      r := r + 1;
    }
    NextItem(g, lam, first, basis, init, current, p, r);
  }

  lemma PredictsNothing(g: Grammar, c: Config)
    requires g.Valid()
    requires c.rule < |g.rules| && c.dot < |g.rules[c.rule].rhs| ==> g.Terminal(g.rules[c.rule].rhs[c.dot])
    ensures forall d :: !Predicts(g, c, d)
  {
    forall d ensures !Predicts(g, c, d) {
      if d.rule < |g.rules| { assert g.ValidRule(g.rules[d.rule]); }
    }
  }

  /** `Configlist_closure` */
  method Closure(g: Grammar, lam: Flags, first: Sets, basis: seq<Config>, init: set<nat>) returns (current: seq<Item>)
    requires g.Valid()
    requires forall i, j :: 0 <= i < j < |basis| ==> basis[i] != basis[j]
    requires forall i :: 0 <= i < |basis| ==> ValidConfig(g, basis[i])
    ensures ClosureOf(g, lam, first, basis, init, current)
    ensures |current| <= |AllConfigs(g)|
  {
    hide Partial, Predict, Predicts, ValidConfig, ClosureOf, AllConfigs;
    current := seq(|basis|, i requires 0 <= i < |basis| => Item(basis[i], init, []));
    StartPartial(g, lam, first, basis, init, current);
    PartialBound(g, lam, first, basis, init, current, 0, 0);
    var p := 0;
    while p < |current|
      invariant 0 <= p <= |current| <= |AllConfigs(g)|
      invariant Partial(g, lam, first, basis, init, current, p, 0)
      decreases |AllConfigs(g)| - p
    {
      var c := current[p].cfg;
      if c.rule < |g.rules| && c.dot < |g.rules[c.rule].rhs| && !g.Terminal(g.rules[c.rule].rhs[c.dot]) {
        current := ClosureOfItem(g, lam, first, basis, init, current, p, g.rules[c.rule].rhs[c.dot]);
        PartialBound(g, lam, first, basis, init, current, p + 1, 0);
      } else {
        PredictsNothing(g, c);
        SkipItem(g, lam, first, basis, init, current, p);
      }
      p := p + 1;
    }
    Exhausted(g, lam, first, basis, init, current);
  }
}
