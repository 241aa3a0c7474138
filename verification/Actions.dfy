/** `FindActions` and `resolve_conflict`: the parser actions of one state, and what becomes of
    several actions on one lookahead. */
module Actions {
  import opened Shared
  import opened Grammars
  import opened LR0
  import opened Closure
  import opened Automaton
  import MSort

  datatype ActType = SHIFT | ACCEPT | REDUCE | ERROR | CONFLICT | SH_RESOLVED | RD_RESOLVED | NOT_USED

  /** Lookahead symbol, type, and the state shifted to or the rule reduced by. */
  datatype Action = Action(sp: nat, typ: ActType, x: nat)

  function Ord(t: ActType): nat {
    match t
    case SHIFT => 0
    case ACCEPT => 1
    case REDUCE => 2
    case ERROR => 3
    case CONFLICT => 4
    case SH_RESOLVED => 5
    case RD_RESOLVED => 6
    case NOT_USED => 7
  }

  /** `actioncmp`; its assertion that only reductions are compared by rule is `TiesAreReductions`. */
  function Actioncmp(a: Action, b: Action): int {
    if a.sp != b.sp then a.sp - b.sp
    else if a.typ != b.typ then Ord(a.typ) - Ord(b.typ)
    else a.x - b.x
  }

  lemma ActioncmpIsOrder()
    ensures MSort.Comparator(Actioncmp)
  {
  }

  /** `compute_action` gives the action a place in the tables. */
  predicate Live(a: Action) {
    a.typ == SHIFT || a.typ == REDUCE || a.typ == ACCEPT || a.typ == ERROR
  }

  // ------------------------------------------------------------ the actions before resolution

  ghost predicate ReducesOn(g: Grammar, st: State, t: nat, r: nat) {
    r < |g.rules| && exists k :: 0 <= k < |st.cfp| && st.cfp[k].cfg == Config(r, |g.rules[r].rhs|) && t in st.cfp[k].fws
  }

  /** The actions that `buildshifts` and `FindActions` add to state q. */
  ghost predicate Candidate(g: Grammar, q: nat, st: State, a: Action) {
    match a.typ
    case SHIFT => HasShift(st, a.sp, a.x)
    case REDUCE => a.sp < g.nterminal && ReducesOn(g, st, a.sp, a.x)
    case ACCEPT => q == 0 && a.sp == g.start && a.x == 0
    case _ => false
  }

  ghost predicate NoRepeat(s: seq<Action>) {
    forall i, j :: 0 <= i < j < |s| ==> s[i] != s[j]
  }

  ghost predicate AllCandidates(g: Grammar, q: nat, st: State, ap: seq<Action>) {
    NoRepeat(ap) && forall a :: a in ap <==> Candidate(g, q, st, a)
  }

  // ------------------------------------------------------------ resolution of one pair

  /** `%left`, `%right` and `%nonassoc` give precedence and associativity together. */
  ghost predicate PrecedenceHasAssoc(g: Grammar) {
    forall s: nat :: SymPrec(g, s) >= 0 ==> SymAssoc(g, s) != UNK
  }

  /** The precedence of the precedence symbol of rule r, or -1. */
  function RulePrec(g: Grammar, r: nat): int {
    if r < |g.rules| && g.rules[r].precsym.Some? && g.rules[r].precsym.value < |g.prec|
    then g.prec[g.rules[r].precsym.value] else -1
  }

  function SymPrec(g: Grammar, s: nat): int {
    if s < |g.prec| then g.prec[s] else -1
  }

  function SymAssoc(g: Grammar, s: nat): Assoc {
    if s < |g.assoc| then g.assoc[s] else UNK
  }

  /** Action `loser` gives way to action `winner`, and `typ` is what it becomes. */
  ghost predicate GivesWay(g: Grammar, winner: Action, loser: Action, typ: ActType) {
    && winner.sp == loser.sp
    && var s := SymPrec(g, loser.sp);
       match (winner.typ, loser.typ)
       case (SHIFT, REDUCE) =>
         var r := RulePrec(g, loser.x);
         if s < 0 || r < 0 || (s == r && SymAssoc(g, loser.sp) == NONE) then typ == CONFLICT
         else typ == RD_RESOLVED && (s > r || (s == r && SymAssoc(g, loser.sp) == RIGHT))
       case (REDUCE, SHIFT) =>
         var r := RulePrec(g, winner.x);
         typ == SH_RESOLVED && s >= 0 && r >= 0 && (s < r || (s == r && SymAssoc(g, loser.sp) == LEFT))
       case (REDUCE, REDUCE) =>
         var w, l := RulePrec(g, winner.x), RulePrec(g, loser.x);
         if w < 0 || l < 0 || w == l then typ == CONFLICT && winner.x < loser.x
         else typ == RD_RESOLVED && w > l
       case _ => false
  }

  /** The pairs of live actions on one lookahead that a sorted list can hold. */
  ghost predicate Comparable(a: Action, b: Action) {
    a.sp == b.sp && b.typ == REDUCE && (a.typ == SHIFT || (a.typ == REDUCE && a.x < b.x))
  }

  /** `resolve_conflict`: of two live actions exactly one gives way to the other, and the pair
      counts as a conflict if precedence did not decide. */
  method ResolveConflict(g: Grammar, apx: Action, apy: Action) returns (apx': Action, apy': Action, errcnt: nat)
    requires PrecedenceHasAssoc(g)
    requires Live(apx) && Live(apy) ==> Comparable(apx, apy)
    ensures !(Live(apx) && Live(apy)) ==> apx' == apx && apy' == apy && errcnt == 0
    ensures Live(apx) && Live(apy) ==>
              || (apx' == apx && apy' == apy.(typ := apy'.typ) && GivesWay(g, apx, apy, apy'.typ)
                  && errcnt == if apy'.typ == CONFLICT then 1 else 0)
              || (apy' == apy && apx' == apx.(typ := apx'.typ) && GivesWay(g, apy, apx, apx'.typ)
                  && apx'.typ != CONFLICT && errcnt == 0)
  {
    apx', apy', errcnt := apx, apy, 0;
    if apx.typ == SHIFT && apy.typ == REDUCE {
      var spx := SymPrec(g, apx.sp);
      var spy := RulePrec(g, apy.x);
      if spy < 0 || spx < 0 {
        apy' := apy.(typ := CONFLICT);
        errcnt := errcnt + 1;
      } else if spx > spy {
        apy' := apy.(typ := RD_RESOLVED);
      } else if spx < spy {
        apx' := apx.(typ := SH_RESOLVED);
      } else if spx == spy && SymAssoc(g, apx.sp) == RIGHT {
        apy' := apy.(typ := RD_RESOLVED);
      } else if spx == spy && SymAssoc(g, apx.sp) == LEFT {
        apx' := apx.(typ := SH_RESOLVED);
      } else {
        assert spx == spy && SymAssoc(g, apx.sp) == NONE;
        apy' := apy.(typ := CONFLICT);
        errcnt := errcnt + 1;
      }
    } else if apx.typ == REDUCE && apy.typ == REDUCE {
      var spx := RulePrec(g, apx.x);
      var spy := RulePrec(g, apy.x);
      if spx < 0 || spy < 0 || spx == spy {
        apy' := apy.(typ := CONFLICT);
        errcnt := errcnt + 1;
      } else if spx > spy {
        apy' := apy.(typ := RD_RESOLVED);
      } else if spx < spy {
        apx' := apx.(typ := RD_RESOLVED);
      }
    } else {
      assert !Live(apx) || !Live(apy);
    }
  }

  // ------------------------------------------------------------ resolution of a whole list

  /** The list `cur` is `s` with some actions resolved, each in favour of another action of its group. */
  ghost predicate ResolvedAt(g: Grammar, s: seq<Action>, cur: seq<Action>, i: nat)
    requires i < |s| == |cur|
  {
    cur[i] == s[i] ||
    (cur[i] == s[i].(typ := cur[i].typ)
     && exists j :: 0 <= j < |s| && GivesWay(g, s[j], s[i], cur[i].typ))
  }

  ghost predicate GroupAlive(cur: seq<Action>, sp: nat) {
    exists j :: 0 <= j < |cur| && cur[j].sp == sp && Live(cur[j])
  }

  /** No two live actions share a lookahead. */
  ghost predicate OneEach(cur: seq<Action>) {
    forall a, b :: 0 <= a < b < |cur| && cur[a].sp == cur[b].sp ==> !Live(cur[a]) || !Live(cur[b])
  }

  ghost predicate OneEachSoFar(cur: seq<Action>, i: nat, j: nat) {
    forall a, b :: 0 <= a < b < |cur| && cur[a].sp == cur[b].sp && (a < i || (a == i && b < j)) ==>
      !Live(cur[a]) || !Live(cur[b])
  }

  ghost predicate Resolving(g: Grammar, s: seq<Action>, cur: seq<Action>) {
    && |cur| == |s|
    && (forall i: nat :: i < |s| ==> ResolvedAt(g, s, cur, i))
    && (forall i: nat :: i < |s| ==> GroupAlive(cur, s[i].sp))
  }

  /** The outcome: on every lookahead that had an action exactly one is left, and every other one
      gave way to an action on the same lookahead. */
  ghost predicate Resolved(g: Grammar, s: seq<Action>, cur: seq<Action>) {
    Resolving(g, s, cur) && OneEach(cur)
  }

  /** What a sorted list of candidates looks like. */
  ghost predicate WellSorted(s: seq<Action>) {
    && MSort.Sorted(s, Actioncmp)
    && (forall i :: 0 <= i < |s| ==> Live(s[i]))
    && forall i, j :: 0 <= i < j < |s| && s[i].sp == s[j].sp ==> Comparable(s[i], s[j])
  }

  ghost function Conflicts(cur: seq<Action>): nat {
    if cur == [] then 0 else Conflicts(cur[..|cur|-1]) + if cur[|cur|-1].typ == CONFLICT then 1 else 0
  }

  lemma {:induction false} ConflictsUpdate(cur: seq<Action>, i: nat, a: Action)
    requires i < |cur| && cur[i].typ != CONFLICT
    ensures Conflicts(cur[i := a]) == Conflicts(cur) + if a.typ == CONFLICT then 1 else 0
  {
    var n := |cur| - 1;
    if i < n {
      ConflictsUpdate(cur[..n], i, a);
      assert cur[i := a][..n] == cur[..n][i := a];
    } else {
      assert cur[i := a][..n] == cur[..n];
    }
  }

  lemma GiveWayKeeps(g: Grammar, s: seq<Action>, cur: seq<Action>, w: nat, l: nat, typ: ActType, i: nat, j: nat)
    requires WellSorted(s) && Resolving(g, s, cur) && OneEachSoFar(cur, i, j)
    requires w < |s| && l < |s| && w != l && Live(cur[w]) && Live(cur[l])
    requires GivesWay(g, cur[w], cur[l], typ)
    requires (w == i && l == j) || (w == j && l == i)
    ensures Resolving(g, s, cur[l := cur[l].(typ := typ)])
    ensures OneEachSoFar(cur[l := cur[l].(typ := typ)], i, j + 1)
    ensures !Live(cur[l].(typ := typ))
  {
    var after := cur[l := cur[l].(typ := typ)];
    assert ResolvedAt(g, s, cur, w) && ResolvedAt(g, s, cur, l);
    LiveUnchanged(g, s, cur, w);
    LiveUnchanged(g, s, cur, l);
    hide GivesWay, Comparable;
    forall k: nat | k < |s| ensures ResolvedAt(g, s, after, k) { assert ResolvedAt(g, s, cur, k); }
    assert !Live(cur[l].(typ := typ)) by { LoserDies(g, cur[w], cur[l], typ); }
    assert cur[w].sp == cur[l].sp by { LoserDies(g, cur[w], cur[l], typ); }
    forall k: nat | k < |s| ensures GroupAlive(after, s[k].sp) {
      assert GroupAlive(cur, s[k].sp);
      var m :| 0 <= m < |cur| && cur[m].sp == s[k].sp && Live(cur[m]);
      if m == l { assert after[w].sp == s[k].sp && Live(after[w]); } else { assert after[m] == cur[m]; }
    }
  }

  lemma LiveUnchanged(g: Grammar, s: seq<Action>, cur: seq<Action>, i: nat)
    requires i < |s| == |cur| && ResolvedAt(g, s, cur, i) && Live(cur[i])
    ensures cur[i] == s[i]
  {
  }

  lemma LoserDies(g: Grammar, w: Action, l: Action, typ: ActType)
    requires GivesWay(g, w, l, typ)
    ensures !Live(l.(typ := typ)) && w.sp == l.sp
  {
  }

  /** The winner so far among the actions on the lookahead of s[k], up to s[k]: it is compared with one
      action after the other and replaced by the first that beats it. */
  ghost function Champion(g: Grammar, s: seq<Action>, k: nat): (c: nat)
    requires k < |s|
    ensures c <= k && s[c].sp == s[k].sp
  {
    if k == 0 || s[k-1].sp != s[k].sp then k
    else var c := Champion(g, s, k - 1); if Beats(g, s[k], s[c]) then k else c
  }

  ghost predicate Beats(g: Grammar, winner: Action, loser: Action) {
    exists typ :: GivesWay(g, winner, loser, typ)
  }

  /** Action k is the champion from its place on to the end of its group, as far as that is below f. */
  ghost predicate Reigns(g: Grammar, s: seq<Action>, k: nat, f: nat)
    requires f <= |s|
  {
    forall e: nat :: k <= e < f && s[e].sp == s[k].sp ==> Champion(g, s, e) == k
  }

  /** Of the first f actions the reigning champions are left, and the others are untouched. */
  ghost predicate ChampionsLeft(g: Grammar, s: seq<Action>, cur: seq<Action>, f: nat) {
    && |cur| == |s| && f <= |s|
    && (forall k: nat :: k < f ==> (Live(cur[k]) <==> Reigns(g, s, k, f)))
    && (forall k: nat :: f <= k < |s| ==> cur[k] == s[k])
  }

  lemma {:induction false} ChampionReigns(g: Grammar, s: seq<Action>, e: nat)
    requires e < |s| && MSort.Sorted(s, Actioncmp)
    ensures Reigns(g, s, Champion(g, s, e), e + 1)
  {
    var c := Champion(g, s, e);
    forall k: nat | c <= k < e + 1 && s[k].sp == s[c].sp ensures Champion(g, s, k) == c {
      if k < e {
        assert s[e-1].sp == s[e].sp by { Between(s, k, e - 1, e); }
        var d: int := e - 1;
        ChampionReigns(g, s, d);
        assert Champion(g, s, d) == c;
      }
    }
  }

  lemma Between(s: seq<Action>, i: nat, j: nat, k: nat)
    requires MSort.Sorted(s, Actioncmp) && i <= j <= k < |s| && s[i].sp == s[k].sp
    ensures s[j].sp == s[i].sp
  {
    assert i < j ==> MSort.Leq(Actioncmp, s[i], s[j]);
    assert j < k ==> MSort.Leq(Actioncmp, s[j], s[k]);
  }

  /** What becomes of two actions that are compared. */
  ghost predicate PairResolved(g: Grammar, cur: seq<Action>, i: nat, j: nat, after: seq<Action>)
    requires i < |cur| && j < |cur|
  {
    if Live(cur[i]) && Live(cur[j]) then
      || (exists typ :: GivesWay(g, cur[i], cur[j], typ) && after == cur[j := cur[j].(typ := typ)])
      || (exists typ :: GivesWay(g, cur[j], cur[i], typ) && after == cur[i := cur[i].(typ := typ)])
    else
      after == cur
  }

  lemma OneWay(g: Grammar, a: Action, b: Action, typ: ActType)
    requires GivesWay(g, a, b, typ)
    ensures !Beats(g, b, a) && !Live(b.(typ := typ)) && Beats(g, a, b)
  {
  }

  /** The rest of the group of action c is behind. */
  ghost predicate Settled(s: seq<Action>, c: nat, f: nat) {
    forall e: nat :: f <= e < |s| && c < |s| ==> s[e].sp != s[c].sp
  }

  ghost predicate SettledBelow(s: seq<Action>, cur: seq<Action>, i: nat, f: nat) {
    forall c: nat :: c < i && c < |cur| && Live(cur[c]) ==> Settled(s, c, f)
  }

  lemma NewChampion(g: Grammar, s: seq<Action>, cur: seq<Action>, i: nat)
    requires WellSorted(s) && ChampionsLeft(g, s, cur, i) && SettledBelow(s, cur, i, i) && i < |s|
    ensures ChampionsLeft(g, s, cur, i + 1) && SettledBelow(s, cur, i, i + 1)
  {
    if i > 0 && s[i-1].sp == s[i].sp {
      var d: int := i - 1;
      ChampionReigns(g, s, d);
      assert false;
    }
    assert Champion(g, s, i) == i;
    forall k: nat | k < i && Reigns(g, s, k, i) ensures Reigns(g, s, k, i + 1) { assert Settled(s, k, i); }
  }

  lemma ChampionNext(g: Grammar, s: seq<Action>, d: nat)
    requires d + 1 < |s| && s[d].sp == s[d+1].sp
    ensures Champion(g, s, d + 1) == if Beats(g, s[d+1], s[Champion(g, s, d)]) then d + 1 else Champion(g, s, d)
  {
  }

  lemma ReignsAt(g: Grammar, s: seq<Action>, k: nat, f: nat, e: nat)
    requires f <= |s| && Reigns(g, s, k, f) && k <= e < f && s[e].sp == s[k].sp
    ensures Champion(g, s, e) == k
  {
  }

  lemma ReignsMore(g: Grammar, s: seq<Action>, k: nat, j: nat)
    requires k < j < |s| && Reigns(g, s, k, j) && (s[j].sp == s[k].sp ==> Champion(g, s, j) == k)
    ensures Reigns(g, s, k, j + 1)
  {
  }

  lemma ReignsLess(g: Grammar, s: seq<Action>, k: nat, j: nat)
    requires k <= j < |s| && Reigns(g, s, k, j + 1)
    ensures Reigns(g, s, k, j) && (s[j].sp == s[k].sp ==> Champion(g, s, j) == k)
  {
  }

  /** Where the reigning champion i meets action j. */
  lemma ChampionMeets(g: Grammar, s: seq<Action>, i: nat, j: nat)
    requires MSort.Sorted(s, Actioncmp) && i < j < |s| && s[i].sp == s[j].sp && Reigns(g, s, i, j)
    ensures Champion(g, s, j) == if Beats(g, s[j], s[i]) then j else i
    ensures forall k: nat :: k < j && k != i ==> (Reigns(g, s, k, j + 1) <==> Reigns(g, s, k, j))
    ensures Reigns(g, s, i, j + 1) <==> !Beats(g, s[j], s[i])
    ensures Reigns(g, s, j, j + 1) <==> Beats(g, s[j], s[i])
  {
    hide *;
    var d: int := j - 1;
    Between(s, i, d, j);
    ReignsAt(g, s, i, j, d);
    ChampionNext(g, s, d);
    forall k: nat | k < j && k != i ensures Reigns(g, s, k, j + 1) <==> Reigns(g, s, k, j) {
      if Reigns(g, s, k, j + 1) { ReignsLess(g, s, k, j); }
      if Reigns(g, s, k, j) {
        if s[j].sp == s[k].sp {
          Between(s, k, d, j);
          ReignsAt(g, s, k, j, d);
          assert false;
        }
        ReignsMore(g, s, k, j);
      }
    }
    if Beats(g, s[j], s[i]) {
      ReignsAlone(g, s, j);
      if Reigns(g, s, i, j + 1) { ReignsLess(g, s, i, j); }
    } else {
      ReignsMore(g, s, i, j);
      if Reigns(g, s, j, j + 1) { ReignsLess(g, s, j, j); }
    }
  }

  lemma ReignsAlone(g: Grammar, s: seq<Action>, j: nat)
    requires j < |s| && Champion(g, s, j) == j
    ensures Reigns(g, s, j, j + 1)
  {
  }

  lemma ChampionStep(g: Grammar, s: seq<Action>, cur: seq<Action>, cur': seq<Action>, i: nat, j: nat, f: nat) returns (f': nat)
    requires WellSorted(s) && ChampionsLeft(g, s, cur, f) && i < j < |s| && i < f && s[i].sp == s[j].sp
    requires Resolving(g, s, cur) && PairResolved(g, cur, i, j, cur') && (Live(cur[i]) ==> j <= f) && SettledBelow(s, cur, i, f)
    ensures ChampionsLeft(g, s, cur', f') && f <= f' && (Live(cur'[i]) ==> j + 1 <= f') && SettledBelow(s, cur', i, f')
  {
    f' := f;
    if Live(cur[i]) {
      assert ResolvedAt(g, s, cur, i);
      LiveUnchanged(g, s, cur, i);
      if j == f {
        f' := f + 1;
        JustMet(g, s, cur, cur', i, j);
      } else {
        assert Champion(g, s, j) == i;
        assert !Reigns(g, s, j, f);
      }
    }
  }

  lemma JustMet(g: Grammar, s: seq<Action>, cur: seq<Action>, cur': seq<Action>, i: nat, j: nat)
    requires WellSorted(s) && ChampionsLeft(g, s, cur, j) && i < j < |s| && s[i].sp == s[j].sp
    requires Live(cur[i]) && cur[i] == s[i] && PairResolved(g, cur, i, j, cur') && SettledBelow(s, cur, i, j)
    ensures ChampionsLeft(g, s, cur', j + 1) && SettledBelow(s, cur', i, j + 1)
  {
    AllLive(s, j);
    OneDies(g, s, cur, cur', i, j);
    ChampionMeets(g, s, i, j);
    hide WellSorted, PairResolved, Champion, Reigns, Live, Beats;
  }

  lemma OneDies(g: Grammar, s: seq<Action>, cur: seq<Action>, cur': seq<Action>, i: nat, j: nat)
    requires i < j < |s| == |cur| && cur[i] == s[i] && cur[j] == s[j] && Live(s[i]) && Live(s[j]) && PairResolved(g, cur, i, j, cur')
    ensures |cur'| == |cur| && Live(cur'[j]) == Beats(g, s[j], s[i]) && Live(cur'[i]) == !Beats(g, s[j], s[i])
    ensures forall k: nat :: k < |cur| && k != i && k != j ==> cur'[k] == cur[k]
  {
    hide GivesWay, Live, Beats;
    if typ :| GivesWay(g, cur[i], cur[j], typ) && cur' == cur[j := cur[j].(typ := typ)] {
      OneWay(g, s[i], s[j], typ);
    } else {
      var typ :| GivesWay(g, cur[j], cur[i], typ) && cur' == cur[i := cur[i].(typ := typ)];
      OneWay(g, s[j], s[i], typ);
    }
  }

  lemma AllLive(s: seq<Action>, i: nat)
    requires WellSorted(s) && i < |s|
    ensures Live(s[i])
  {
  }

  lemma GroupSettled(s: seq<Action>, cur: seq<Action>, i: nat, j: nat, f: nat)
    requires WellSorted(s) && i < j <= |s| == |cur| && (j < |s| ==> s[j].sp != s[i].sp) && (Live(cur[i]) ==> j <= f)
    requires SettledBelow(s, cur, i, f)
    ensures SettledBelow(s, cur, i + 1, f)
  {
    if Live(cur[i]) {
      forall e: nat | f <= e < |s| ensures s[e].sp != s[i].sp {
        if s[e].sp == s[i].sp { Between(s, i, j, e); }
      }
    }
  }

  /** One pair of the loops, at i < j. */
  method ResolvePair(g: Grammar, ghost s: seq<Action>, cur: seq<Action>, i: nat, j: nat)
    returns (cur': seq<Action>, errcnt: nat)
    requires PrecedenceHasAssoc(g) && WellSorted(s) && Resolving(g, s, cur)
    requires i < j < |cur| && cur[i].sp == cur[j].sp && OneEachSoFar(cur, i, j)
    ensures Resolving(g, s, cur') && OneEachSoFar(cur', i, j + 1)
    ensures PairResolved(g, cur, i, j, cur')
    ensures Conflicts(cur') == Conflicts(cur) + errcnt
  {
    assert ResolvedAt(g, s, cur, i) && ResolvedAt(g, s, cur, j);
    if Live(cur[i]) { LiveUnchanged(g, s, cur, i); }
    if Live(cur[j]) { LiveUnchanged(g, s, cur, j); }
    var apx, apy;
    apx, apy, errcnt := ResolveConflict(g, cur[i], cur[j]);
    cur' := cur[i := apx][j := apy];
    if Live(cur[i]) && Live(cur[j]) {
      if apx == cur[i] {
        assert cur' == cur[j := cur[j].(typ := apy.typ)];
        GiveWayKeeps(g, s, cur, i, j, apy.typ, i, j);
        ConflictsUpdate(cur, j, apy);
      } else {
        assert cur' == cur[i := cur[i].(typ := apx.typ)];
        GiveWayKeeps(g, s, cur, j, i, apx.typ, i, j);
        ConflictsUpdate(cur, i, apx);
      }
    } else {
      assert cur' == cur;
    }
  }

  lemma SameSp(g: Grammar, s: seq<Action>, cur: seq<Action>, i: nat)
    requires |cur| == |s| && i < |s| && ResolvedAt(g, s, cur, i)
    ensures cur[i].sp == s[i].sp
  {
  }

  /** Equal lookaheads are neighbours in a sorted list. */
  lemma GroupEnds(g: Grammar, s: seq<Action>, cur: seq<Action>, i: nat, j: nat)
    requires WellSorted(s) && Resolving(g, s, cur) && i < j <= |s| && OneEachSoFar(cur, i, j)
    requires j < |s| ==> cur[j].sp != cur[i].sp
    ensures OneEachSoFar(cur, i + 1, i + 2)
  {
    forall b | j <= b < |s| ensures cur[b].sp != cur[i].sp {
      SameSp(g, s, cur, b);
      SameSp(g, s, cur, i);
      SameSp(g, s, cur, j);
      assert MSort.Leq(Actioncmp, s[i], s[j]);
      assert b > j ==> MSort.Leq(Actioncmp, s[j], s[b]);
    }
  }

  /** The inner loop: action i is compared with those behind it on the same lookahead. */
  method ResolveAgainst(g: Grammar, s: seq<Action>, cur0: seq<Action>, i: nat, ghost f0: nat)
    returns (cur: seq<Action>, nconflict: nat, ghost f: nat)
    requires PrecedenceHasAssoc(g) && WellSorted(s) && i < |s| == |cur0|
    requires Resolving(g, s, cur0) && OneEachSoFar(cur0, i, i + 1)
    requires ChampionsLeft(g, s, cur0, f0) && SettledBelow(s, cur0, i, f0) && i < f0
    ensures |cur| == |s| && Resolving(g, s, cur) && OneEachSoFar(cur, i + 1, i + 2)
    ensures ChampionsLeft(g, s, cur, f) && SettledBelow(s, cur, i + 1, f) && i < f
    ensures Conflicts(cur) == Conflicts(cur0) + nconflict
  {
    hide *;
    cur, nconflict, f := cur0, 0, f0;
    var j := i + 1;
    while j < |s| && cur[j].sp == cur[i].sp
      invariant i < j <= |s| == |cur|
      invariant Resolving(g, s, cur) && OneEachSoFar(cur, i, j)
      invariant ChampionsLeft(g, s, cur, f) && SettledBelow(s, cur, i, f) && i < f && (Live(cur[i]) ==> j <= f)
      invariant Conflicts(cur) == Conflicts(cur0) + nconflict
    {
      ghost var before := cur;
      SameSps(g, s, cur, i, j);
      var errcnt;
      cur, errcnt := ResolvePair(g, s, cur, i, j);
      f := ChampionStep(g, s, before, cur, i, j, f);
      ResolvingLength(g, s, cur);
      nconflict := nconflict + errcnt;
      j := j + 1;
    }
    GroupEnds(g, s, cur, i, j);
    if j < |s| { SameSps(g, s, cur, i, j); }
    GroupSettled(s, cur, i, j, f);
  }

  /** The conflict loops of `FindActions` for one sorted list: on each lookahead the last champion is left. */
  method ResolveList(g: Grammar, s: seq<Action>) returns (cur: seq<Action>, nconflict: nat)
    requires PrecedenceHasAssoc(g) && WellSorted(s)
    ensures Resolved(g, s, cur)
    ensures ChampionsLeft(g, s, cur, |s|)
    ensures nconflict == Conflicts(cur)
  {
    hide *;
    cur, nconflict := s, 0;
    NothingResolved(g, s);
    var i := 0;
    ghost var f: nat := 0;
    while i < |s|
      invariant 0 <= i <= |s| == |cur|
      invariant Resolving(g, s, cur) && OneEachSoFar(cur, i, i + 1)
      invariant ChampionsLeft(g, s, cur, f) && SettledBelow(s, cur, i, f) && i <= f
      invariant nconflict == Conflicts(cur)
    {
      if f == i {
        NewChampion(g, s, cur, i);
        f := i + 1;
      }
      var n;
      cur, n, f := ResolveAgainst(g, s, cur, i, f);
      nconflict := nconflict + n;
      i := i + 1;
    }
    ChampionsAll(g, s, cur, f);
    AllResolved(g, s, cur, i);
  }

  lemma SameSps(g: Grammar, s: seq<Action>, cur: seq<Action>, i: nat, j: nat)
    requires Resolving(g, s, cur) && i < |s| && j < |s|
    ensures |cur| == |s| && cur[i].sp == s[i].sp && cur[j].sp == s[j].sp
  {
    assert ResolvedAt(g, s, cur, i) && ResolvedAt(g, s, cur, j);
  }

  lemma AllResolved(g: Grammar, s: seq<Action>, cur: seq<Action>, i: nat)
    requires Resolving(g, s, cur) && i >= |s| && OneEachSoFar(cur, i, i + 1)
    ensures Resolved(g, s, cur)
  {
  }

  lemma ChampionsAll(g: Grammar, s: seq<Action>, cur: seq<Action>, f: nat)
    requires ChampionsLeft(g, s, cur, f) && f >= |s|
    ensures ChampionsLeft(g, s, cur, |s|)
  {
  }

  lemma ResolvingLength(g: Grammar, s: seq<Action>, cur: seq<Action>)
    requires Resolving(g, s, cur)
    ensures |cur| == |s|
  {
  }

  lemma {:induction false} NothingResolved(g: Grammar, s: seq<Action>)
    requires WellSorted(s)
    ensures Resolving(g, s, s) && OneEachSoFar(s, 0, 1) && Conflicts(s) == 0
    ensures ChampionsLeft(g, s, s, 0) && SettledBelow(s, s, 0, 0)
  {
    NoConflicts(s);
  }

  lemma {:induction false} NoConflicts(s: seq<Action>)
    requires forall i :: 0 <= i < |s| ==> Live(s[i])
    ensures Conflicts(s) == 0
  {
    if s != [] { NoConflicts(s[..|s|-1]); }
  }

  // ------------------------------------------------------------ the lists of all states

  /** The candidates of one state are pairwise different, so that sorting them puts at most one
      shift, followed by reductions by increasing rules, on each lookahead. */
  lemma TiesAreReductions(g: Grammar, states: seq<State>, q: nat, a: Action, b: Action)
    requires g.Valid() && g.StartNotOnRhs() && q < |states| && Finished(g, states, q)
    requires forall k :: 0 <= k < |states[q].cfp| ==> ValidConfig(g, states[q].cfp[k].cfg)
    requires Candidate(g, q, states[q], a) && Candidate(g, q, states[q], b)
    requires a != b && a.sp == b.sp && Actioncmp(a, b) <= 0
    ensures Comparable(a, b)
  {
    if a.typ == SHIFT && b.typ == SHIFT { OneTarget(g, states, q, a.sp, a.x, b.x); }
    if a.typ == SHIFT && b.typ == ACCEPT {
      NoShiftOnStart(g, states, q, a.x);
    }
  }

  lemma OneTarget(g: Grammar, states: seq<State>, q: nat, x: nat, t: nat, t': nat)
    requires q < |states| && ShiftsOK(g, states, q)
    requires HasShift(states[q], x, t) && HasShift(states[q], x, t')
    ensures t == t'
  {
    var k :| 0 <= k < |states[q].shifts| && states[q].shifts[k] == Shift(x, t);
    var k' :| 0 <= k' < |states[q].shifts| && states[q].shifts[k'] == Shift(x, t');
    assert k == k';
  }

  lemma NoShiftOnStart(g: Grammar, states: seq<State>, q: nat, t: nat)
    requires g.StartNotOnRhs() && q < |states| && ShiftsOK(g, states, q)
    ensures !HasShift(states[q], g.start, t)
  {
    forall d ensures !InGoto(g, states[q].cfp, g.start, d) {
      forall c ensures !Before(g, c, g.start) { }
    }
    assert t < |states| && states[t].basis != [] ==> states[t].basis[0] in states[t].basis;
  }

  ghost predicate SortedCandidates(g: Grammar, q: nat, st: State, s: seq<Action>) {
    WellSorted(s) && forall a :: a in s <==> Candidate(g, q, st, a)
  }

  lemma SortCandidates(g: Grammar, states: seq<State>, q: nat, ap: seq<Action>, s: seq<Action>)
    requires g.Valid() && g.StartNotOnRhs() && q < |states| && Finished(g, states, q)
    requires forall k :: 0 <= k < |states[q].cfp| ==> ValidConfig(g, states[q].cfp[k].cfg)
    requires AllCandidates(g, q, states[q], ap) && MSort.StableSort(ap, s, Actioncmp)
    ensures SortedCandidates(g, q, states[q], s)
  {
    hide Candidate, Finished, ValidConfig;
    forall a ensures a in s <==> a in ap {
      assert a in s <==> a in multiset(s);
      assert a in ap <==> a in multiset(ap);
    }
    OnlyOnce(ap);
    forall i | 0 <= i < |s| ensures Live(s[i]) {
      assert s[i] in s;
      CandidateLive(g, q, states[q], s[i]);
    }
    forall i, j | 0 <= i < j < |s| && s[i].sp == s[j].sp ensures Comparable(s[i], s[j]) {
      assert s[i] in s && s[j] in s;
      assert MSort.Leq(Actioncmp, s[i], s[j]);
      if s[i] == s[j] {
        TwiceInMultiset(s, i, j);
        assert false;
      }
      TiesAreReductions(g, states, q, s[i], s[j]);
    }
  }

  lemma CandidateLive(g: Grammar, q: nat, st: State, a: Action)
    requires Candidate(g, q, st, a)
    ensures Live(a)
  {
  }

  // ------------------------------------------------------------ collecting the candidates

  /** The reductions by one completed configuration, added in front of the list. */
  method AddReductions(g: Grammar, it: Item, ap: seq<Action>) returns (ap': seq<Action>)
    requires NoRepeat(ap) && forall t: nat :: Action(t, REDUCE, it.cfg.rule) !in ap
    ensures NoRepeat(ap')
    ensures forall a :: a in ap' <==>
              a in ap || (a.typ == REDUCE && a.x == it.cfg.rule && a.sp < g.nterminal && a.sp in it.fws)
  {
    ap' := ap;
    var j := 0;
    while j < g.nterminal
      invariant 0 <= j <= g.nterminal
      invariant NoRepeat(ap')
      invariant forall a :: a in ap' <==>
                  a in ap || (a.typ == REDUCE && a.x == it.cfg.rule && a.sp < j && a.sp in it.fws)
    {
      if j in it.fws {
        assert Action(j, REDUCE, it.cfg.rule) !in ap';
        ap' := [Action(j, REDUCE, it.cfg.rule)] + ap';
      }
      j := j + 1;
    }
  }

  ghost predicate ReducesSoFar(g: Grammar, st: State, n: nat, a: Action)
    requires n <= |st.cfp|
  {
    a.typ == REDUCE && a.sp < g.nterminal && a.x < |g.rules|
    && exists k :: 0 <= k < n && st.cfp[k].cfg == Config(a.x, |g.rules[a.x].rhs|) && a.sp in st.cfp[k].fws
  }

  ghost predicate CollectedSoFar(g: Grammar, st: State, ap: seq<Action>, n: nat)
    requires n <= |st.cfp|
  {
    NoRepeat(ap) &&
    forall a :: a in ap <==> (a.typ == SHIFT && HasShift(st, a.sp, a.x)) || ReducesSoFar(g, st, n, a)
  }

  /** The list that `buildshifts` left behind. */
  method ShiftActions(st: State) returns (ap: seq<Action>)
    requires forall k, k' :: 0 <= k < k' < |st.shifts| ==> st.shifts[k].sym != st.shifts[k'].sym
    ensures NoRepeat(ap) && forall a :: a in ap <==> a.typ == SHIFT && HasShift(st, a.sp, a.x)
  {
    ap := [];
    var k := 0;
    while k < |st.shifts|
      invariant 0 <= k <= |st.shifts| && |ap| == k
      invariant forall i :: 0 <= i < k ==> ap[i] == Action(st.shifts[i].sym, SHIFT, st.shifts[i].stp)
    {
      ap := ap + [Action(st.shifts[k].sym, SHIFT, st.shifts[k].stp)];
      k := k + 1;
    }
    forall a ensures a in ap <==> a.typ == SHIFT && HasShift(st, a.sp, a.x) {
      if a.typ == SHIFT && HasShift(st, a.sp, a.x) {
        var i :| 0 <= i < |st.shifts| && st.shifts[i] == Shift(a.sp, a.x);
        assert ap[i] == a;
      }
    }
  }

  lemma CollectOne(g: Grammar, st: State, ap: seq<Action>, ap': seq<Action>, n: nat)
    requires n < |st.cfp| && CollectedSoFar(g, st, ap, n) && NoRepeat(ap')
    requires ValidConfig(g, st.cfp[n].cfg)
    requires st.cfp[n].cfg.dot < |g.rules[st.cfp[n].cfg.rule].rhs| ==> ap' == ap
    requires st.cfp[n].cfg.dot == |g.rules[st.cfp[n].cfg.rule].rhs| ==>
               forall a :: a in ap' <==>
                 a in ap || (a.typ == REDUCE && a.x == st.cfp[n].cfg.rule && a.sp < g.nterminal && a.sp in st.cfp[n].fws)
    ensures CollectedSoFar(g, st, ap', n + 1)
  {
    hide NoRepeat, HasShift;
    var it := st.cfp[n];
    forall a ensures ReducesSoFar(g, st, n + 1, a) <==>
              (ReducesSoFar(g, st, n, a)
               || (it.cfg.dot == |g.rules[it.cfg.rule].rhs|
                   && a.typ == REDUCE && a.x == it.cfg.rule && a.sp < g.nterminal && a.sp in it.fws))
    {
      assert it.cfg == Config(it.cfg.rule, it.cfg.dot);
    }
  }

  lemma FreshReductions(g: Grammar, st: State, ap: seq<Action>, n: nat)
    requires n < |st.cfp| && CollectedSoFar(g, st, ap, n) && DistinctItems(st.cfp)
    requires ValidConfig(g, st.cfp[n].cfg) && st.cfp[n].cfg.dot == |g.rules[st.cfp[n].cfg.rule].rhs|
    ensures forall t: nat :: Action(t, REDUCE, st.cfp[n].cfg.rule) !in ap
  {
    forall t: nat ensures !ReducesSoFar(g, st, n, Action(t, REDUCE, st.cfp[n].cfg.rule)) {
      assert st.cfp[n].cfg == Config(st.cfp[n].cfg.rule, st.cfp[n].cfg.dot);
    }
  }

  /** The actions of state q before conflicts are resolved. */
  method StateActions(g: Grammar, states: seq<State>, q: nat) returns (ap: seq<Action>)
    requires q < |states| && ShiftsOK(g, states, q) && DistinctItems(states[q].cfp)
    requires forall k :: 0 <= k < |states[q].cfp| ==> ValidConfig(g, states[q].cfp[k].cfg)
    ensures AllCandidates(g, q, states[q], ap)
  {
    var st := states[q];
    ap := ShiftActions(st);
    assert CollectedSoFar(g, st, ap, 0);
    hide CollectedSoFar, ShiftsOK, DistinctItems, NoRepeat;
    var k := 0;
    while k < |st.cfp|
      invariant 0 <= k <= |st.cfp|
      invariant CollectedSoFar(g, st, ap, k)
    {
      var c := st.cfp[k].cfg;
      assert ValidConfig(g, c);
      assert NoRepeat(ap) by { CollectedNoRepeat(g, st, ap, k); }
      ghost var before := ap;
      if c.dot == |g.rules[c.rule].rhs| {
        FreshReductions(g, st, ap, k);
        ap := AddReductions(g, st.cfp[k], ap);
      }
      CollectOne(g, st, before, ap, k);
      k := k + 1;
    }
    Collected(g, q, st, ap);
    if q == 0 { ap := [Action(g.start, ACCEPT, 0)] + ap; }
  }

  lemma CollectedNoRepeat(g: Grammar, st: State, ap: seq<Action>, n: nat)
    requires n <= |st.cfp| && CollectedSoFar(g, st, ap, n)
    ensures NoRepeat(ap)
  {
  }

  lemma Collected(g: Grammar, q: nat, st: State, ap: seq<Action>)
    requires CollectedSoFar(g, st, ap, |st.cfp|)
    ensures q > 0 ==> AllCandidates(g, q, st, ap)
    ensures q == 0 ==> AllCandidates(g, q, st, [Action(g.start, ACCEPT, 0)] + ap)
  {
    hide HasShift;
    var acc := Action(g.start, ACCEPT, 0);
    forall a ensures Candidate(g, q, st, a) <==> a in ap || (q == 0 && a == acc) {
      assert a in ap <==> (a.typ == SHIFT && HasShift(st, a.sp, a.x)) || ReducesSoFar(g, st, |st.cfp|, a);
    }
    assert acc !in ap;
  }

  // ------------------------------------------------------------ all states

  /** What `FindActions` needs to know about the states. */
  ghost predicate StateReady(g: Grammar, states: seq<State>, q: nat)
    requires q < |states|
  {
    && Finished(g, states, q) && DistinctItems(states[q].cfp)
    && forall k :: 0 <= k < |states[q].cfp| ==> ValidConfig(g, states[q].cfp[k].cfg)
  }

  /** The state has fewer actions than `msort` can hold. */
  ghost predicate FewActions(g: Grammar, q: nat, st: State) {
    forall ap :: AllCandidates(g, q, st, ap) ==> |ap| < Pow2(MSort.LISTSIZE)
  }

  ghost predicate NoAction(g: Grammar, q: nat, st: State) {
    forall a :: !Candidate(g, q, st, a)
  }

  /** The sorted candidates of state q after the resolution of all conflicts. */
  ghost predicate ActionsOf(g: Grammar, q: nat, st: State, ap: seq<Action>) {
    exists s :: SortedCandidates(g, q, st, s) && Resolved(g, s, ap) && ChampionsLeft(g, s, ap, |s|)
  }

  /** `Action_sort` and the conflict loops for one state. */
  method ResolveState(g: Grammar, states: seq<State>, q: nat, ap: seq<Action>) returns (ap': seq<Action>, n: nat)
    requires g.Valid() && g.StartNotOnRhs() && PrecedenceHasAssoc(g)
    requires q < |states| && StateReady(g, states, q) && FewActions(g, q, states[q])
    requires AllCandidates(g, q, states[q], ap)
    ensures ActionsOf(g, q, states[q], ap')
    ensures n == Conflicts(ap')
  {
    ActioncmpIsOrder();
    var s := MSort.Msort(ap, Actioncmp);
    SortCandidates(g, states, q, ap, s);
    hide Finished, DistinctItems, PrecedenceHasAssoc, AllCandidates, Resolved, WellSorted, ChampionsLeft;
    ap', n := ResolveList(g, s);
  }

  lemma NoCandidates(g: Grammar, q: nat, st: State, ap: seq<Action>)
    requires AllCandidates(g, q, st, ap)
    ensures ap == [] <==> NoAction(g, q, st)
  {
    if ap != [] {
      assert ap[0] in ap;
    } else {
      forall a ensures !Candidate(g, q, st, a) { assert a !in ap; }
    }
  }

  /** The state has no shift, and no terminal follows any of its configurations. */
  ghost predicate Stuck(g: Grammar, st: State) {
    st.shifts == [] && forall k, t: nat :: 0 <= k < |st.cfp| && t < g.nterminal ==> t !in st.cfp[k].fws
  }

  lemma OpenShifts(g: Grammar, states: seq<State>, q: nat, k: nat)
    requires q < |states| && StateReady(g, states, q) && k < |states[q].cfp|
    ensures states[q].shifts == [] ==>
              states[q].cfp[k].cfg == Config(states[q].cfp[k].cfg.rule, |g.rules[states[q].cfp[k].cfg.rule].rhs|)
  {
    var c := states[q].cfp[k].cfg;
    if c.dot < |g.rules[c.rule].rhs| {
      assert Before(g, c, g.rules[c.rule].rhs[c.dot]);
      assert ShiftsOn(states[q], g.rules[c.rule].rhs[c.dot]);
    }
  }

  /** Which states have no action can be seen before `FindActions`. */
  lemma NoActionIs(g: Grammar, states: seq<State>, q: nat)
    requires q < |states| && StateReady(g, states, q)
    ensures NoAction(g, q, states[q]) <==> q > 0 && Stuck(g, states[q])
  {
    var st := states[q];
    if NoAction(g, q, st) {
      assert !Candidate(g, q, st, Action(g.start, ACCEPT, 0));
      if st.shifts != [] {
        assert HasShift(st, st.shifts[0].sym, st.shifts[0].stp);
        assert Candidate(g, q, st, Action(st.shifts[0].sym, SHIFT, st.shifts[0].stp));
      }
      forall k, t: nat | 0 <= k < |st.cfp| && t < g.nterminal ensures t !in st.cfp[k].fws {
        var c := st.cfp[k].cfg;
        assert c == Config(c.rule, c.dot);
        OpenShifts(g, states, q, k);
        if t in st.cfp[k].fws {
          assert Candidate(g, q, st, Action(t, REDUCE, c.rule));
        }
      }
    }
  }

  ghost function AllConflicts(acts: seq<seq<Action>>): nat {
    if acts == [] then 0 else AllConflicts(acts[..|acts|-1]) + Conflicts(acts[|acts|-1])
  }

  /** `FindActions`: in every state, each lookahead that has an action keeps exactly one, the
      others give way to it by the precedence rules, and the conflicts that precedence does not
      decide are counted.  The source's assertion that every state has an action fails exactly
      when the result is None. */
  method FindActions(g: Grammar, states: seq<State>) returns (acts: Option<seq<seq<Action>>>, nconflict: nat)
    requires g.Valid() && g.StartNotOnRhs() && PrecedenceHasAssoc(g)
    requires forall q: nat :: q < |states| ==> StateReady(g, states, q) && FewActions(g, q, states[q])
    ensures acts.None? <==> exists q: nat :: q < |states| && NoAction(g, q, states[q])
    ensures acts.Some? ==> |acts.value| == |states| && nconflict == AllConflicts(acts.value)
    ensures acts.Some? ==> forall q: nat :: q < |states| ==> ActionsOf(g, q, states[q], acts.value[q])
  {
    hide Candidate, ActionsOf, AllCandidates, FewActions, NoAction, PrecedenceHasAssoc, ShiftsOK, DistinctItems;
    var done: seq<seq<Action>> := [];
    nconflict := 0;
    var q := 0;
    while q < |states|
      invariant 0 <= q <= |states| && |done| == q
      invariant nconflict == AllConflicts(done)
      invariant forall p: nat :: p < q ==> !NoAction(g, p, states[p]) && ActionsOf(g, p, states[p], done[p])
    {
      assert StateReady(g, states, q);
      var ap := StateActions(g, states, q);
      NoCandidates(g, q, states[q], ap);
      if ap == [] { return None, nconflict; }
      var ap', n := ResolveState(g, states, q, ap);
      assert (done + [ap'])[..q] == done;
      done := done + [ap'];
      nconflict := nconflict + n;
      q := q + 1;
    }
    acts := Some(done);
  }

  // ------------------------------------------------------------ what the later phases rely on

  /** At most one live action on a lookahead, all of them candidates, none lost on nonterminals. */
  ghost predicate Sound(g: Grammar, q: nat, st: State, ap: seq<Action>) {
    && OneEach(ap)
    && (forall a :: a in ap && Live(a) ==> Candidate(g, q, st, a))
    && forall a :: Candidate(g, q, st, a) && a.sp >= g.nterminal ==> a in ap
  }

  /** Every lookahead with a candidate still has a live action. */
  ghost predicate NoneLost(g: Grammar, q: nat, st: State, ap: seq<Action>) {
    forall a :: Candidate(g, q, st, a) ==> GroupAlive(ap, a.sp)
  }

  lemma ActionsAreSound(g: Grammar, states: seq<State>, q: nat, ap: seq<Action>)
    requires g.Valid() && g.StartNotOnRhs() && q < |states| && Finished(g, states, q)
    requires ActionsOf(g, q, states[q], ap)
    ensures Sound(g, q, states[q], ap) && NoneLost(g, q, states[q], ap)
  {
    var st := states[q];
    var s: seq<Action> :| SortedCandidates(g, q, st, s) && Resolved(g, s, ap);
    hide Candidate, Finished, GivesWay;
    forall a | a in ap && Live(a) ensures Candidate(g, q, st, a) {
      var i: nat :| i < |ap| && ap[i] == a;
      LiveUnchanged(g, s, ap, i);
      assert s[i] in s;
    }
    forall a | Candidate(g, q, st, a) ensures GroupAlive(ap, a.sp) && (a.sp >= g.nterminal ==> a in ap) {
      assert a in s;
      var i: nat :| i < |s| && s[i] == a;
      assert GroupAlive(ap, s[i].sp);
      var j :| 0 <= j < |ap| && ap[j].sp == a.sp && Live(ap[j]);
      LiveUnchanged(g, s, ap, j);
      assert s[j] in s;
      if a.sp >= g.nterminal { NoRivals(g, states, q, a, s[j]); }
    }
  }

  /** A nonterminal has at most one candidate. */
  lemma NoRivals(g: Grammar, states: seq<State>, q: nat, a: Action, b: Action)
    requires g.Valid() && g.StartNotOnRhs() && q < |states| && Finished(g, states, q)
    requires Candidate(g, q, states[q], a) && Candidate(g, q, states[q], b) && a.sp == b.sp >= g.nterminal
    ensures a == b
  {
    if a.typ == SHIFT && b.typ == SHIFT { OneTarget(g, states, q, a.sp, a.x, b.x); }
    if a.typ == SHIFT && b.typ == ACCEPT { NoShiftOnStart(g, states, q, a.x); }
    if b.typ == SHIFT && a.typ == ACCEPT { NoShiftOnStart(g, states, q, b.x); }
  }
}
