/** The tables of the generated parser: the lookups of the driver, and the part of `ReportTable`
    that packs the actions of all states into one array. */
module Tables {
  import opened Shared
  import opened Grammars
  import opened Actions
  import opened ActTab
  import opened Compress

  /** The arrays and constants that `ReportTable` prints. */
  datatype ParseTables = ParseTables(nsymbol: nat, nstate: nat, nrule: nat, action: seq<int>, lookahead: seq<int>,
                                     shiftUseDflt: int, shiftOfst: seq<int>,
                                     reduceUseDflt: int, reduceOfst: seq<int>, dflt: seq<int>)
  {
    predicate Shaped() {
      |lookahead| == |action| && |shiftOfst| == |reduceOfst| == |dflt| == nstate
    }

    /** `YYNOCODE` */
    function NoCode(): nat { nsymbol + 1 }

    /** `YY_NO_ACTION` */
    function NoAction(): nat { nstate + nrule + 2 }

    /** `yy_find_shift_action` in state `stateno` */
    function FindShiftAction(stateno: nat, iLookAhead: nat): int
      requires Shaped() && stateno < nstate
    {
      var i := shiftOfst[stateno];
      if i == shiftUseDflt then dflt[stateno]
      else if iLookAhead == NoCode() then NoAction()
      else
        var i := i + iLookAhead;
        if i < 0 || i >= |action| || lookahead[i] != iLookAhead then dflt[stateno] else action[i]
    }

    /** `yy_find_reduce_action` in state `stateno` */
    function FindReduceAction(stateno: nat, iLookAhead: nat): int
      requires Shaped() && stateno < nstate
    {
      var i := reduceOfst[stateno];
      if i == reduceUseDflt then dflt[stateno]
      else if iLookAhead == NoCode() then NoAction()
      else
        var i := i + iLookAhead;
        if i < 0 || i >= |action| || lookahead[i] != iLookAhead then dflt[stateno] else action[i]
    }
  }

  // ------------------------------------------------------------ action codes

  /** `compute_action` */
  function ComputeAction(nstate: nat, nrule: nat, a: Action): int {
    match a.typ
    case SHIFT => a.x
    case REDUCE => a.x + nstate
    case ERROR => nstate + nrule
    case ACCEPT => nstate + nrule + 1
    case _ => -1
  }

  /** The number by which the tables denote what the parser does. */
  function Code(nstate: nat, nrule: nat, d: Doing): nat {
    match d
    case Go(stp) => stp
    case Reduce(rule) => rule + nstate
    case SyntaxError => nstate + nrule
    case Accept => nstate + nrule + 1
  }

  lemma CodeOfLive(nstate: nat, nrule: nat, a: Action)
    ensures ComputeAction(nstate, nrule, a) >= 0 <==> Live(a)
    ensures Live(a) ==> ComputeAction(nstate, nrule, a) == Code(nstate, nrule, Does(a))
  {
  }

  // ------------------------------------------------------------ the sets to be packed

  predicate InRange(g: Grammar, sp: nat, isTkn: bool) {
    if isTkn then sp < g.nterminal else g.nterminal <= sp < g.nsymbol
  }

  /** The live actions of a list on terminals, or on nonterminals, as a transaction set. */
  ghost function Trans(g: Grammar, nstate: nat, ap: seq<Action>, isTkn: bool): seq<Entry> {
    if ap == [] then []
    else
      var a, front := ap[|ap|-1], Trans(g, nstate, ap[..|ap|-1], isTkn);
      if Live(a) && InRange(g, a.sp, isTkn) then front + [Entry(a.sp, ComputeAction(nstate, |g.rules|, a))] else front
  }

  lemma {:induction false} TransHas(g: Grammar, nstate: nat, ap: seq<Action>, isTkn: bool, k: nat)
    requires k < |Trans(g, nstate, ap, isTkn)|
    ensures exists a :: a in ap && Live(a) && InRange(g, a.sp, isTkn)
                        && Trans(g, nstate, ap, isTkn)[k] == Entry(a.sp, ComputeAction(nstate, |g.rules|, a))
  {
    var n := |ap| - 1;
    if k < |Trans(g, nstate, ap[..n], isTkn)| {
      TransHas(g, nstate, ap[..n], isTkn, k);
    }
  }

  lemma {:induction false} HasTrans(g: Grammar, nstate: nat, ap: seq<Action>, isTkn: bool, a: Action) returns (k: nat)
    requires a in ap && Live(a) && InRange(g, a.sp, isTkn)
    ensures k < |Trans(g, nstate, ap, isTkn)|
    ensures Trans(g, nstate, ap, isTkn)[k] == Entry(a.sp, ComputeAction(nstate, |g.rules|, a))
  {
    var n := |ap| - 1;
    if ap[n] == a { k := |Trans(g, nstate, ap[..n], isTkn)|; } else { k := HasTrans(g, nstate, ap[..n], isTkn, a); }
  }

  lemma OneEachFront(ap: seq<Action>)
    requires OneEach(ap) && ap != []
    ensures OneEach(ap[..|ap|-1])
  {
    hide Live;
    var s := ap[..|ap|-1];
    forall i, j | 0 <= i < j < |s| && s[i].sp == s[j].sp ensures !Live(s[i]) || !Live(s[j]) {
      assert ap[i].sp == ap[j].sp;
    }
  }

  /** One live action for each symbol: this is what makes the set a transaction. */
  lemma {:induction false} TransIsTransaction(g: Grammar, nstate: nat, ap: seq<Action>, isTkn: bool)
    requires OneEach(ap)
    ensures Transaction(Trans(g, nstate, ap, isTkn))
  {
    if ap != [] {
      var n := |ap| - 1;
      var s, front := Trans(g, nstate, ap, isTkn), Trans(g, nstate, ap[..n], isTkn);
      OneEachFront(ap);
      TransIsTransaction(g, nstate, ap[..n], isTkn);
      if Live(ap[n]) {
        forall k | 0 <= k < |front| ensures front[k].lookahead != ap[n].sp {
          TransHas(g, nstate, ap[..n], isTkn, k);
          var a :| a in ap[..n] && Live(a) && front[k] == Entry(a.sp, ComputeAction(nstate, |g.rules|, a));
          var i: nat :| i < n && ap[i] == a;
        }
      }
    }
  }

  lemma TransPairs(g: Grammar, nstate: nat, ap: seq<Action>, isTkn: bool, x: nat)
    requires OneEach(ap) && InRange(g, x, isTkn)
    ensures Transaction(Trans(g, nstate, ap, isTkn))
    ensures x in Pairs(Trans(g, nstate, ap, isTkn)) <==> LiveOn(ap, x).Some?
    ensures LiveOn(ap, x).Some? ==>
              Pairs(Trans(g, nstate, ap, isTkn))[x] == Code(nstate, |g.rules|, Does(LiveOn(ap, x).value))
  {
    var s := Trans(g, nstate, ap, isTkn);
    TransIsTransaction(g, nstate, ap, isTkn);
    hide OneEach, Transaction, Does, ComputeAction;
    if LiveOn(ap, x).Some? {
      var a := LiveOn(ap, x).value;
      LiveOnIs(ap, x, a);
      var k := HasTrans(g, nstate, ap, isTkn, a);
      PairsAt(s, k);
      CodeOfLive(nstate, |g.rules|, a);
    }
    if x in Pairs(s) {
      PairsOnly(s, x);
      var k :| 0 <= k < |s| && s[k].lookahead == x;
      TransHas(g, nstate, ap, isTkn, k);
      var a :| a in ap && Live(a) && s[k] == Entry(a.sp, ComputeAction(nstate, |g.rules|, a));
      LiveOnIs(ap, x, a);
    }
  }

  /** A list whose symbols end with `{default}`. */
  ghost predicate Listed(g: Grammar, ap: seq<Action>) {
    g.nterminal <= g.nsymbol && OneEach(ap) && forall a :: a in ap && Live(a) ==> a.sp <= g.nsymbol
  }

  /** What is done where no set has an action. */
  ghost function Default(g: Grammar, nstate: nat, ap: seq<Action>): nat {
    Code(nstate, |g.rules|, Meaning(g, ap, g.nsymbol))
  }

  // ------------------------------------------------------------ counting

  datatype AxSet = AxSet(stp: nat, isTkn: bool, nAction: nat)

  ghost predicate DefaultSoFar(g: Grammar, nstate: nat, ap: seq<Action>, k: nat, iDflt: nat)
    requires k <= |ap|
  {
    if forall i :: 0 <= i < k ==> !Live(ap[i]) || ap[i].sp < g.nsymbol then iDflt == nstate + |g.rules|
    else exists i :: 0 <= i < k && Live(ap[i]) && ap[i].sp == g.nsymbol && iDflt == Code(nstate, |g.rules|, Does(ap[i]))
  }

  lemma DefaultNext(g: Grammar, nstate: nat, ap: seq<Action>, k: nat, iDflt: nat, iDflt': nat)
    requires k < |ap| && DefaultSoFar(g, nstate, ap, k, iDflt) && (Live(ap[k]) ==> ap[k].sp <= g.nsymbol)
    requires iDflt' == if Live(ap[k]) && ap[k].sp == g.nsymbol then Code(nstate, |g.rules|, Does(ap[k])) else iDflt
    ensures DefaultSoFar(g, nstate, ap, k + 1, iDflt')
  {
    hide Live, Does, Code;
  }

  /** The counting loop of `ReportTable` for one state. */
  method CountActions(g: Grammar, nstate: nat, ap: seq<Action>) returns (nTknAct: nat, nNtAct: nat, iDflt: nat)
    requires Listed(g, ap)
    ensures nTknAct == |Trans(g, nstate, ap, true)| && nNtAct == |Trans(g, nstate, ap, false)|
    ensures iDflt == Default(g, nstate, ap)
  {
    nTknAct, nNtAct, iDflt := 0, 0, nstate + |g.rules|;
    hide OneEach, Meaning, DefaultSoFar;
    assert DefaultSoFar(g, nstate, ap, 0, iDflt) by { NoDefaultYet(g, nstate, ap); }
    var k := 0;
    while k < |ap|
      invariant 0 <= k <= |ap|
      invariant nTknAct == |Trans(g, nstate, ap[..k], true)| && nNtAct == |Trans(g, nstate, ap[..k], false)|
      invariant DefaultSoFar(g, nstate, ap, k, iDflt)
    {
      assert ap[..k+1][..k] == ap[..k];
      assert ap[k] in ap;
      ghost var before := iDflt;
      if ComputeAction(nstate, |g.rules|, ap[k]) >= 0 {
        if ap[k].sp < g.nterminal {
          nTknAct := nTknAct + 1;
        } else if ap[k].sp < g.nsymbol {
          nNtAct := nNtAct + 1;
        } else {
          iDflt := ComputeAction(nstate, |g.rules|, ap[k]);
        }
      }
      CodeOfLive(nstate, |g.rules|, ap[k]);
      DefaultNext(g, nstate, ap, k, before, iDflt);
      k := k + 1;
    }
    assert ap[..k] == ap;
    DefaultFound(g, nstate, ap, iDflt);
  }

  lemma NoDefaultYet(g: Grammar, nstate: nat, ap: seq<Action>)
    ensures DefaultSoFar(g, nstate, ap, 0, nstate + |g.rules|)
  {
  }

  lemma DefaultFound(g: Grammar, nstate: nat, ap: seq<Action>, iDflt: nat)
    requires Listed(g, ap)
    requires DefaultSoFar(g, nstate, ap, |ap|, iDflt)
    ensures iDflt == Default(g, nstate, ap)
  {
    hide OneEach, Live;
    if i :| 0 <= i < |ap| && Live(ap[i]) && ap[i].sp == g.nsymbol && iDflt == Code(nstate, |g.rules|, Does(ap[i])) {
      LiveOnIs(ap, g.nsymbol, ap[i]);
    } else {
      NoLiveOn(ap, g.nsymbol);
    }
  }

  /** The sets come in any order, one for the terminals and one for the nonterminals of each state. */
  ghost predicate Covers(g: Grammar, acts: seq<seq<Action>>, ax: seq<AxSet>) {
    CoversSoFar(g, acts, ax, |acts|)
  }

  ghost predicate HasSet(ax: seq<AxSet>, q: nat, b: bool) {
    exists k :: 0 <= k < |ax| && ax[k].stp == q && ax[k].isTkn == b
  }

  /** What `qsort` with `axset_compare` leaves: larger sets first, ties in any order. */
  ghost predicate LargestFirst(ax: seq<AxSet>) {
    forall k, m :: 0 <= k < m < |ax| ==> ax[k].nAction >= ax[m].nAction
  }

  lemma CoversMore(g: Grammar, acts: seq<seq<Action>>, ax: seq<AxSet>, i: nat)
    requires i < |acts| && CoversSoFar(g, acts, ax, i)
    ensures CoversSoFar(g, acts, ax + [AxSet(i, true, |Trans(g, |acts|, acts[i], true)|),
                                       AxSet(i, false, |Trans(g, |acts|, acts[i], false)|)], i + 1)
  {
    hide Trans;
    var t, n := AxSet(i, true, |Trans(g, |acts|, acts[i], true)|), AxSet(i, false, |Trans(g, |acts|, acts[i], false)|);
    var ax' := ax + [t, n];
    assert ax'[|ax|] == t && ax'[|ax| + 1] == n;
    forall q: nat, b: bool | q <= i ensures HasSet(ax', q, b) {
      if q < i {
        assert HasSet(ax, q, b);
        var k :| 0 <= k < |ax| && ax[k].stp == q && ax[k].isTkn == b;
        assert ax'[k] == ax[k];
      }
    }
  }

  /** The sets of the first n states. */
  ghost predicate CoversSoFar(g: Grammar, acts: seq<seq<Action>>, ax: seq<AxSet>, n: nat)
    requires n <= |acts|
  {
    && (forall k :: 0 <= k < |ax| ==> ax[k].stp < n && ax[k].nAction == |Trans(g, |acts|, acts[ax[k].stp], ax[k].isTkn)|)
    && (forall k, m :: 0 <= k < m < |ax| ==> ax[k].stp != ax[m].stp || ax[k].isTkn != ax[m].isTkn)
    && forall q: nat, b: bool :: q < n ==> HasSet(ax, q, b)
  }

  /** The first loop of `ReportTable`. */
  method AxSets(g: Grammar, acts: seq<seq<Action>>) returns (ax: seq<AxSet>, iDflt: seq<int>)
    requires forall q :: 0 <= q < |acts| ==> Listed(g, acts[q])
    ensures Covers(g, acts, ax)
    ensures |iDflt| == |acts| && forall q :: 0 <= q < |acts| ==> iDflt[q] == Default(g, |acts|, acts[q])
  {
    ax, iDflt := [], [];
    assert CoversSoFar(g, acts, ax, 0);
    hide Listed, Trans, Default, CoversSoFar;
    var i := 0;
    while i < |acts|
      invariant 0 <= i <= |acts| && |iDflt| == i
      invariant forall q :: 0 <= q < i ==> iDflt[q] == Default(g, |acts|, acts[q])
      invariant CoversSoFar(g, acts, ax, i)
    {
      var nTknAct, nNtAct, dflt := CountActions(g, |acts|, acts[i]);
      iDflt := iDflt + [dflt];
      CoversMore(g, acts, ax, i);
      ax := ax + [AxSet(i, true, nTknAct), AxSet(i, false, nNtAct)];
      i := i + 1;
    }
  }

  // ------------------------------------------------------------ packing

  const NO_OFFSET: int := -2147483647

  /** Set q, b is packed at offset o, or it is empty and has no offset. */
  ghost predicate At(g: Grammar, acts: seq<seq<Action>>, tab: seq<Entry>, q: nat, b: bool, o: int, mn: int)
    requires q < |acts| && OneEach(acts[q])
  {
    var s := Trans(g, |acts|, acts[q], b);
    TransIsTransaction(g, |acts|, acts[q], b);
    if s == [] then o == NO_OFFSET else mn <= o && Row(tab, o) == Pairs(s)
  }

  function Ofst(tkn: seq<int>, nt: seq<int>, set_: AxSet): int
    requires set_.stp < |tkn| && set_.stp < |nt|
  {
    if set_.isTkn then tkn[set_.stp] else nt[set_.stp]
  }

  function Min(mnTkn: int, mnNt: int, b: bool): int {
    if b then mnTkn else mnNt
  }

  /** The first i sets are packed, the others have no offset yet. */
  ghost predicate PackedSoFar(g: Grammar, acts: seq<seq<Action>>, ax: seq<AxSet>, i: nat, tab: seq<Entry>,
                              tkn: seq<int>, nt: seq<int>, mnTkn: int, mnNt: int)
    requires i <= |ax| && |tkn| == |nt| == |acts|
    requires forall q :: 0 <= q < |acts| ==> OneEach(acts[q])
    requires forall k :: 0 <= k < |ax| ==> ax[k].stp < |acts|
  {
    && 0 - g.nsymbol <= mnTkn <= 0 && 0 - g.nsymbol <= mnNt <= 0
    && (forall k :: 0 <= k < i ==>
          At(g, acts, tab, ax[k].stp, ax[k].isTkn, Ofst(tkn, nt, ax[k]), Min(mnTkn, mnNt, ax[k].isTkn)))
    && forall k :: i <= k < |ax| ==> Ofst(tkn, nt, ax[k]) == NO_OFFSET
  }

  /** The inner loops of `ReportTable`: one set goes into the table under construction. */
  method PackSet(g: Grammar, nstate: nat, ap: seq<Action>, isTkn: bool, tab: Acttab) returns (o: int)
    requires Listed(g, ap) && Trans(g, nstate, ap, isTkn) != []
    requires tab.Valid() && tab.Pending() && tab.aLookahead == []
    modifies tab, tab.aAction
    ensures tab.Valid() && tab.Pending() && tab.aLookahead == []
    ensures tab.aAction == old(tab.aAction) || fresh(tab.aAction)
    ensures 0 - g.nsymbol <= o
    ensures Transaction(Trans(g, nstate, ap, isTkn))
    ensures Inserted(old(tab.Table()), Trans(g, nstate, ap, isTkn), o, tab.Table())
  {
    TransIsTransaction(g, nstate, ap, isTkn);
    hide OneEach, Inserted, Transaction, FirstTaker, WellUsed;
    ghost var before := tab.Table();
    var k := 0;
    while k < |ap|
      invariant 0 <= k <= |ap|
      invariant tab.Valid() && tab.Pending() && tab.aLookahead == Trans(g, nstate, ap[..k], isTkn)
      invariant tab.Table() == before && tab.aAction == old(tab.aAction)
      modifies tab`aLookahead, tab`mnLookahead, tab`mnAction, tab`mxLookahead
    {
      assert ap[..k+1][..k] == ap[..k];
      CodeOfLive(nstate, |g.rules|, ap[k]);
      assert ap[k] in ap;
      var action := ComputeAction(nstate, |g.rules|, ap[k]);
      if isTkn {
        if ap[k].sp < g.nterminal && action >= 0 { tab.Action(ap[k].sp, action); }
      } else {
        if ap[k].sp >= g.nterminal && ap[k].sp != g.nsymbol && action >= 0 { tab.Action(ap[k].sp, action); }
      }
      k := k + 1;
    }
    assert ap[..k] == ap;
    ghost var mn := tab.mnLookahead;
    LeastBelow(g, nstate, ap, isTkn, Entry(mn, tab.mnAction));
    o := tab.Insert();
    assert -mn <= o by { FirstIsFrom(before, Trans(g, nstate, ap, isTkn), -mn, o); }
  }

  lemma FirstIsFrom(tab: seq<Entry>, s: seq<Entry>, from: int, o: int)
    requires Transaction(s) && FirstTaker(tab, s, from, o)
    ensures from <= o
  {
  }

  lemma LeastBelow(g: Grammar, nstate: nat, ap: seq<Action>, isTkn: bool, e: Entry)
    requires Listed(g, ap) && e in Trans(g, nstate, ap, isTkn)
    ensures e.lookahead <= g.nsymbol
  {
    hide OneEach;
    var s := Trans(g, nstate, ap, isTkn);
    var k: nat :| k < |s| && s[k] == e;
    TransHas(g, nstate, ap, isTkn, k);
  }

  lemma OthersStay(g: Grammar, acts: seq<seq<Action>>, before: seq<Entry>, after: seq<Entry>, s: seq<Entry>, o: int,
                   q: nat, b: bool, o': int, mn: int, mn': int)
    requires q < |acts| && OneEach(acts[q]) && mn' <= mn
    requires At(g, acts, before, q, b, o', mn)
    requires Transaction(s) && Inserted(before, s, o, after)
    ensures At(g, acts, after, q, b, o', mn')
  {
    hide OneEach, Transaction, Row;
    var t := Trans(g, |acts|, acts[q], b);
    TransIsTransaction(g, |acts|, acts[q], b);
    if t != [] && o' == o {
      PairsHolds(t);
      assert Pairs(t) != map[];
    }
  }

  lemma PackedMore(g: Grammar, acts: seq<seq<Action>>, ax: seq<AxSet>, i: nat, before: seq<Entry>, after: seq<Entry>,
                   tkn: seq<int>, nt: seq<int>, mnTkn: int, mnNt: int, o: int)
    requires i < |ax| && |tkn| == |nt| == |acts|
    requires forall q :: 0 <= q < |acts| ==> OneEach(acts[q])
    requires Covers(g, acts, ax) && ax[i].nAction > 0
    requires PackedSoFar(g, acts, ax, i, before, tkn, nt, mnTkn, mnNt) && 0 - g.nsymbol <= o
    requires Transaction(Trans(g, |acts|, acts[ax[i].stp], ax[i].isTkn))
    requires Inserted(before, Trans(g, |acts|, acts[ax[i].stp], ax[i].isTkn), o, after)
    ensures ax[i].isTkn ==>
              PackedSoFar(g, acts, ax, i + 1, after, tkn[ax[i].stp := o], nt, if o < mnTkn then o else mnTkn, mnNt)
    ensures !ax[i].isTkn ==>
              PackedSoFar(g, acts, ax, i + 1, after, tkn, nt[ax[i].stp := o], mnTkn, if o < mnNt then o else mnNt)
  {
    var tkn' := if ax[i].isTkn then tkn[ax[i].stp := o] else tkn;
    var nt' := if ax[i].isTkn then nt else nt[ax[i].stp := o];
    var mnTkn' := if ax[i].isTkn && o < mnTkn then o else mnTkn;
    var mnNt' := if !ax[i].isTkn && o < mnNt then o else mnNt;
    forall k | 0 <= k < |ax| && k != i ensures Ofst(tkn', nt', ax[k]) == Ofst(tkn, nt, ax[k]) {
      assert k < i || i < k;
    }
    var s := Trans(g, |acts|, acts[ax[i].stp], ax[i].isTkn);
    assert At(g, acts, after, ax[i].stp, ax[i].isTkn, o, Min(mnTkn', mnNt', ax[i].isTkn)) by {
      assert Row(after, o) == Pairs(s);
    }
    hide OneEach, Transaction, Inserted, At, Covers;
    forall k | 0 <= k < i
      ensures At(g, acts, after, ax[k].stp, ax[k].isTkn, Ofst(tkn, nt, ax[k]), Min(mnTkn', mnNt', ax[k].isTkn))
    {
      OthersStay(g, acts, before, after, s, o, ax[k].stp, ax[k].isTkn, Ofst(tkn, nt, ax[k]),
                 Min(mnTkn, mnNt, ax[k].isTkn), Min(mnTkn', mnNt', ax[k].isTkn));
    }
  }

  /** Every set is packed, or it is empty and has no offset. */
  ghost predicate Packed(g: Grammar, acts: seq<seq<Action>>, tab: seq<Entry>,
                         tkn: seq<int>, nt: seq<int>, mnTkn: int, mnNt: int)
  {
    && |tkn| == |nt| == |acts| && mnTkn >= 0 - g.nsymbol && mnNt >= 0 - g.nsymbol
    && forall q: nat :: q < |acts| ==>
         OneEach(acts[q]) && At(g, acts, tab, q, true, tkn[q], mnTkn) && At(g, acts, tab, q, false, nt[q], mnNt)
  }

  lemma PackedAll(g: Grammar, acts: seq<seq<Action>>, ax: seq<AxSet>, i: nat, tab: seq<Entry>,
                  tkn: seq<int>, nt: seq<int>, mnTkn: int, mnNt: int)
    requires i <= |ax| && |tkn| == |nt| == |acts|
    requires forall q :: 0 <= q < |acts| ==> OneEach(acts[q])
    requires Covers(g, acts, ax) && LargestFirst(ax) && (i < |ax| ==> ax[i].nAction == 0)
    requires PackedSoFar(g, acts, ax, i, tab, tkn, nt, mnTkn, mnNt)
    ensures Packed(g, acts, tab, tkn, nt, mnTkn, mnNt)
  {
    hide OneEach;
    forall q: nat, b: bool | q < |acts|
      ensures At(g, acts, tab, q, b, Ofst(tkn, nt, AxSet(q, b, 0)), Min(mnTkn, mnNt, b))
    {
      assert HasSet(ax, q, b);
      var k :| 0 <= k < |ax| && ax[k].stp == q && ax[k].isTkn == b;
      if k >= i { assert ax[i].nAction >= ax[k].nAction; }
    }
    forall q: nat | q < |acts|
      ensures At(g, acts, tab, q, true, tkn[q], mnTkn) && At(g, acts, tab, q, false, nt[q], mnNt)
    {
      assert At(g, acts, tab, q, true, Ofst(tkn, nt, AxSet(q, true, 0)), Min(mnTkn, mnNt, true));
      assert At(g, acts, tab, q, false, Ofst(tkn, nt, AxSet(q, false, 0)), Min(mnTkn, mnNt, false));
    }
  }

  /** The packing loop of `ReportTable`. */
  method PackAll(g: Grammar, acts: seq<seq<Action>>, ax: seq<AxSet>)
    returns (tab: seq<Entry>, tkn: seq<int>, nt: seq<int>, mnTkn: int, mnNt: int)
    requires forall q :: 0 <= q < |acts| ==> Listed(g, acts[q])
    requires Covers(g, acts, ax) && LargestFirst(ax)
    ensures Packed(g, acts, tab, tkn, nt, mnTkn, mnNt)
  {
    var pActtab := new Acttab();
    tkn, nt := seq(|acts|, _ => NO_OFFSET), seq(|acts|, _ => NO_OFFSET);
    mnTkn, mnNt := 0, 0;
    hide OneEach, Inserted, Transaction, WellUsed, At, LargestFirst;
    var i := 0;
    while i < |ax| && ax[i].nAction > 0
      invariant 0 <= i <= |ax| && |tkn| == |nt| == |acts|
      invariant pActtab.Valid() && pActtab.Pending() && pActtab.aLookahead == []
      invariant fresh(pActtab) && fresh(pActtab.aAction)
      invariant PackedSoFar(g, acts, ax, i, pActtab.Table(), tkn, nt, mnTkn, mnNt)
      decreases |ax| - i
    {
      var stp := ax[i].stp;
      ghost var before := pActtab.Table();
      assert Listed(g, acts[stp]);
      var o := PackSet(g, |acts|, acts[stp], ax[i].isTkn, pActtab);
      PackedMore(g, acts, ax, i, before, pActtab.Table(), tkn, nt, mnTkn, mnNt, o);
      if ax[i].isTkn {
        tkn := tkn[stp := o];
        if o < mnTkn { mnTkn := o; }
      } else {
        nt := nt[stp := o];
        if o < mnNt { mnNt := o; }
      }
      i := i + 1;
    }
    tab := pActtab.aAction[..pActtab.nAction];
    PackedAll(g, acts, ax, i, tab, tkn, nt, mnTkn, mnNt);
  }

  // ------------------------------------------------------------ the printed tables

  function PrintedAction(g: Grammar, e: Entry): int {
    if e.action < 0 then g.nsymbol + |g.rules| + 2 else e.action
  }

  function PrintedLookahead(g: Grammar, e: Entry): int {
    if e.lookahead < 0 then g.nsymbol else e.lookahead
  }

  function PrintedOfst(o: int, mn: int): int {
    if o == NO_OFFSET then mn - 1 else o
  }

  function Printed(g: Grammar, nstate: nat, tab: seq<Entry>, tkn: seq<int>, nt: seq<int>, mnTkn: int, mnNt: int,
                   iDflt: seq<int>): (t: ParseTables)
    requires |tkn| == |nt| == |iDflt| == nstate
    ensures t.Shaped()
  {
    ParseTables(g.nsymbol, nstate, |g.rules|,
                seq(|tab|, i requires 0 <= i < |tab| => PrintedAction(g, tab[i])),
                seq(|tab|, i requires 0 <= i < |tab| => PrintedLookahead(g, tab[i])),
                mnTkn - 1, seq(nstate, i requires 0 <= i < nstate => PrintedOfst(tkn[i], mnTkn)),
                mnNt - 1, seq(nstate, i requires 0 <= i < nstate => PrintedOfst(nt[i], mnNt)),
                iDflt)
  }

  /** What the driver finds in the tables. */
  function Found(t: ParseTables, g: Grammar, q: nat, x: nat): int
    requires t.Shaped() && q < t.nstate
  {
    if x < g.nterminal then t.FindShiftAction(q, x) else t.FindReduceAction(q, x)
  }

  /** In every state and on every symbol, the driver finds the meaning of the state's action list. */
  ghost predicate TablesAgree(g: Grammar, acts: seq<seq<Action>>, t: ParseTables) {
    && t.Shaped() && t.nstate == |acts| && t.nrule == |g.rules| && t.nsymbol == g.nsymbol
    && forall q: nat, x: nat :: q < |acts| && x < g.nsymbol ==>
         Found(t, g, q, x) == Code(|acts|, |g.rules|, Meaning(g, acts[q], x))
  }

  /** A lookup at offset o finds the meaning. */
  lemma LookupMeans(g: Grammar, acts: seq<seq<Action>>, tab: seq<Entry>, q: nat, b: bool, o: int, mn: int, x: nat)
    requires q < |acts| && OneEach(acts[q]) && At(g, acts, tab, q, b, o, mn) && InRange(g, x, b) && x < g.nsymbol
    ensures Code(|acts|, |g.rules|, Meaning(g, acts[q], x))
            == if o == NO_OFFSET && Trans(g, |acts|, acts[q], b) == [] then Default(g, |acts|, acts[q])
               else Lookup(tab, o, x, Default(g, |acts|, acts[q]))
    ensures Trans(g, |acts|, acts[q], b) != [] ==> mn <= o
    ensures Owns(tab, o, x) && Trans(g, |acts|, acts[q], b) != [] ==> tab[o + x].action >= 0
  {
    var s := Trans(g, |acts|, acts[q], b);
    TransPairs(g, |acts|, acts[q], b, x);
    LookupReadsRow(tab, o, x, Default(g, |acts|, acts[q]));
    hide OneEach, Transaction, Code;
    if s != [] {
      assert Row(tab, o) == Pairs(s);
      assert Owns(tab, o, x) ==> x in Row(tab, o);
    }
  }

  lemma PrintedLookup(g: Grammar, tab: seq<Entry>, i: int, x: nat)
    requires x < g.nsymbol && 0 <= i < |tab|
    ensures PrintedLookahead(g, tab[i]) == x <==> tab[i].lookahead == x
  {
  }

  lemma PrintedAgrees(g: Grammar, acts: seq<seq<Action>>, tab: seq<Entry>, tkn: seq<int>, nt: seq<int>,
                      mnTkn: int, mnNt: int, iDflt: seq<int>, q: nat, x: nat)
    requires Packed(g, acts, tab, tkn, nt, mnTkn, mnNt) && g.nsymbol < -NO_OFFSET && g.nterminal <= g.nsymbol
    requires |iDflt| == |acts| && forall q :: 0 <= q < |acts| ==> iDflt[q] == Default(g, |acts|, acts[q])
    requires q < |acts| && x < g.nsymbol
    ensures Found(Printed(g, |acts|, tab, tkn, nt, mnTkn, mnNt, iDflt), g, q, x)
            == Code(|acts|, |g.rules|, Meaning(g, acts[q], x))
  {
    var b := x < g.nterminal;
    var o, mn := if b then tkn[q] else nt[q], if b then mnTkn else mnNt;
    LookupMeans(g, acts, tab, q, b, o, mn, x);
    hide OneEach, Code, Meaning, Default, Trans;
    if 0 <= o + x < |tab| { PrintedLookup(g, tab, o + x, x); }
    var t := Printed(g, |acts|, tab, tkn, nt, mnTkn, mnNt, iDflt);
    if 0 <= o + x < |tab| {
      assert t.action[o + x] == PrintedAction(g, tab[o + x]) && t.lookahead[o + x] == PrintedLookahead(g, tab[o + x]);
    }
  }

  /** The tables part of `ReportTable`; ax is the array of sets as `qsort` left it. */
  method ReportTable(g: Grammar, acts: seq<seq<Action>>, ax: seq<AxSet>, iDflt: seq<int>) returns (t: ParseTables)
    requires g.nterminal <= g.nsymbol < -NO_OFFSET
    requires forall q :: 0 <= q < |acts| ==> Listed(g, acts[q])
    requires Covers(g, acts, ax) && LargestFirst(ax)
    requires |iDflt| == |acts| && forall q :: 0 <= q < |acts| ==> iDflt[q] == Default(g, |acts|, acts[q])
    ensures TablesAgree(g, acts, t)
  {
    hide Listed, Covers, LargestFirst, Default, Meaning, Found;
    var tab, tkn, nt, mnTkn, mnNt := PackAll(g, acts, ax);
    t := Printed(g, |acts|, tab, tkn, nt, mnTkn, mnNt, iDflt);
    forall q: nat, x: nat | q < |acts| && x < g.nsymbol
      ensures Found(t, g, q, x) == Code(|acts|, |g.rules|, Meaning(g, acts[q], x))
    {
      PrintedAgrees(g, acts, tab, tkn, nt, mnTkn, mnNt, iDflt, q, x);
    }
  }
}
