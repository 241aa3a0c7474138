/** `CompressTables`: the most frequent reduction of a state becomes its default action. */
module Compress {
  import opened Shared
  import opened Grammars
  import opened Actions
  import Automaton
  import MSort

  // ------------------------------------------------------------ what a list of actions means

  datatype Doing = Go(stp: nat) | Reduce(rule: nat) | Accept | SyntaxError

  function Does(a: Action): Doing {
    match a.typ
    case SHIFT => Go(a.x)
    case REDUCE => Reduce(a.x)
    case ACCEPT => Accept
    case _ => SyntaxError
  }

  /** The first live action on a symbol. */
  function LiveOn(ap: seq<Action>, sp: nat): Option<Action> {
    if ap == [] then None
    else if Live(ap[0]) && ap[0].sp == sp then Some(ap[0])
    else LiveOn(ap[1..], sp)
  }

  /** What the parser does on symbol x; the symbol `{default}` has the number g.nsymbol. */
  function Meaning(g: Grammar, ap: seq<Action>, x: nat): Doing {
    match LiveOn(ap, x)
    case Some(a) => Does(a)
    case None =>
      match LiveOn(ap, g.nsymbol)
      case Some(a) => Does(a)
      case None => SyntaxError
  }

  lemma {:induction false} LiveOnIs(ap: seq<Action>, sp: nat, a: Action)
    requires OneEach(ap)
    ensures LiveOn(ap, sp) == Some(a) <==> a in ap && Live(a) && a.sp == sp
  {
    if ap != [] {
      hide Live;
      assert OneEach(ap[1..]) by {
        forall i, j | 0 <= i < j < |ap[1..]| && ap[1..][i].sp == ap[1..][j].sp
          ensures !Live(ap[1..][i]) || !Live(ap[1..][j])
        {
          assert ap[i+1].sp == ap[j+1].sp;
        }
      }
      LiveOnIs(ap[1..], sp, a);
      assert a in ap <==> a == ap[0] || a in ap[1..];
      if Live(ap[0]) && ap[0].sp == sp && a in ap[1..] && a.sp == sp {
        var j :| 0 <= j < |ap[1..]| && ap[1..][j] == a;
        assert ap[j+1] == a;
      }
    }
  }

  lemma NoLiveOn(ap: seq<Action>, sp: nat)
    requires OneEach(ap)
    ensures LiveOn(ap, sp).None? <==> forall a :: a in ap && a.sp == sp ==> !Live(a)
  {
    forall a | a in ap && a.sp == sp && Live(a) ensures LiveOn(ap, sp) == Some(a) { LiveOnIs(ap, sp, a); }
    if LiveOn(ap, sp).Some? { LiveOnIs(ap, sp, LiveOn(ap, sp).value); }
  }

  // ------------------------------------------------------------ the most frequent reduction

  predicate ReducesBy(a: Action, r: nat) {
    a.typ == REDUCE && a.x == r
  }

  /** How many actions of the list reduce by rule r. */
  function Count(ap: seq<Action>, r: nat): nat {
    if ap == [] then 0 else Count(ap[..|ap|-1], r) + if ReducesBy(ap[|ap|-1], r) then 1 else 0
  }

  ghost predicate MostFrequent(ap: seq<Action>, r: nat) {
    forall r' :: Count(ap, r') <= Count(ap, r)
  }

  lemma {:induction false} CountGrows(ap: seq<Action>, i: nat, j: nat, r: nat)
    requires i <= j <= |ap|
    ensures Count(ap[..i], r) <= Count(ap[..j], r)
    decreases j
  {
    if i < j {
      CountGrows(ap, i, j - 1, r);
      assert ap[..j][..j-1] == ap[..j-1];
    }
  }

  lemma {:induction false} CountNone(ap: seq<Action>, r: nat)
    requires forall i :: 0 <= i < |ap| ==> !ReducesBy(ap[i], r)
    ensures Count(ap, r) == 0
  {
    if ap != [] { CountNone(ap[..|ap|-1], r); }
  }

  lemma {:induction false} CountSome(ap: seq<Action>, r: nat) returns (i: nat)
    requires Count(ap, r) > 0
    ensures i < |ap| && ReducesBy(ap[i], r)
  {
    var n := |ap| - 1;
    if ReducesBy(ap[n], r) { i := n; } else { i := CountSome(ap[..n], r); }
  }

  /** The inner loop: the occurrences of a rule from position i on. */
  method CountFrom(ap: seq<Action>, i: nat, rp: nat, rbest: Option<nat>) returns (n: nat)
    requires i < |ap| && ReducesBy(ap[i], rp) && rbest != Some(rp)
    ensures n == Count(ap, rp) - Count(ap[..i], rp)
  {
    n := 1;
    var j := i + 1;
    assert ap[..i+1][..i] == ap[..i];
    while j < |ap|
      invariant i < j <= |ap|
      invariant n == Count(ap[..j], rp) - Count(ap[..i], rp)
    {
      assert ap[..j+1][..j] == ap[..j];
      if ap[j].typ == REDUCE && Some(ap[j].x) != rbest && ap[j].x == rp { n := n + 1; }
      j := j + 1;
    }
    assert ap[..j] == ap;
  }

  ghost predicate Seen(ap: seq<Action>, i: nat, nbest: nat)
    requires i <= |ap|
  {
    forall k :: 0 <= k < i && ap[k].typ == REDUCE ==> Count(ap, ap[k].x) <= nbest
  }

  /** The search loops of `CompressTables`. */
  method FindBest(ap: seq<Action>) returns (nbest: nat, rbest: Option<nat>)
    ensures rbest.None? ==> nbest == 0
    ensures rbest.Some? ==> nbest == Count(ap, rbest.value) > 0
    ensures forall r :: Count(ap, r) <= nbest
  {
    nbest, rbest := 0, None;
    var i := 0;
    while i < |ap|
      invariant 0 <= i <= |ap|
      invariant rbest.None? ==> nbest == 0
      invariant rbest.Some? ==> nbest == Count(ap, rbest.value) > 0
      invariant Seen(ap, i, nbest)
    {
      if ap[i].typ == REDUCE && Some(ap[i].x) != rbest {
        var rp := ap[i].x;
        var n := CountFrom(ap, i, rp, rbest);
        if k :| 0 <= k < i && ReducesBy(ap[k], rp) {
          assert Count(ap, rp) <= nbest;
        } else {
          CountNone(ap[..i], rp);
        }
        if n > nbest { nbest, rbest := n, Some(rp); }
      }
      i := i + 1;
    }
    forall r ensures Count(ap, r) <= nbest {
      if Count(ap, r) > 0 { var k := CountSome(ap, r); }
    }
  }

  // ------------------------------------------------------------ folding it into a default

  /** The first reduction by rule b, at k, becomes the default; the later ones are dropped. */
  ghost predicate Folded(g: Grammar, ap: seq<Action>, b: nat, k: nat, cur: seq<Action>, n: nat)
    requires n <= |ap|
  {
    && k < n && |cur| == |ap| && ReducesBy(ap[k], b)
    && cur[k] == ap[k].(sp := g.nsymbol)
    && (forall i :: 0 <= i < k ==> !ReducesBy(ap[i], b) && cur[i] == ap[i])
    && (forall i :: k < i < n ==> cur[i] == if ReducesBy(ap[i], b) then ap[i].(typ := NOT_USED) else ap[i])
    && (forall i :: n <= i < |ap| ==> cur[i] == ap[i])
  }

  method Fold(g: Grammar, ap: seq<Action>, b: nat) returns (cur: seq<Action>, ghost k: nat)
    requires Count(ap, b) > 0
    ensures Folded(g, ap, b, k, cur, |ap|)
  {
    ghost var w := CountSome(ap, b);
    var i := 0;
    while !(ap[i].typ == REDUCE && ap[i].x == b)
      invariant 0 <= i <= w
      invariant forall m :: 0 <= m < i ==> !ReducesBy(ap[m], b)
      decreases w - i
    {
      i := i + 1;
    }
    k := i;
    cur := ap[i := ap[i].(sp := g.nsymbol)];
    i := i + 1;
    while i < |ap|
      invariant k < i <= |ap|
      invariant Folded(g, ap, b, k, cur, i)
    {
      if cur[i].typ == REDUCE && cur[i].x == b { cur := cur[i := cur[i].(typ := NOT_USED)]; }
      i := i + 1;
    }
  }

  ghost predicate Undefaulted(g: Grammar, ap: seq<Action>) {
    OneEach(ap) && forall a :: a in ap ==> a.sp < g.nsymbol
  }

  /** The list `after` has default rule b and, besides, exactly the actions of ap that do not reduce by b. */
  ghost predicate HasDefault(g: Grammar, ap: seq<Action>, b: nat, after: seq<Action>) {
    && OneEach(after)
    && forall a :: a in after && Live(a) <==>
         a == Action(g.nsymbol, REDUCE, b) || (a in ap && Live(a) && !ReducesBy(a, b))
  }

  lemma FoldedActions(g: Grammar, ap: seq<Action>, b: nat, k: nat, cur: seq<Action>)
    requires Undefaulted(g, ap) && Folded(g, ap, b, k, cur, |ap|)
    ensures HasDefault(g, ap, b, cur)
  {
    forall a ensures a in cur && Live(a) <==>
                       (a == Action(g.nsymbol, REDUCE, b) || (a in ap && Live(a) && !ReducesBy(a, b)))
    {
      if a in cur && Live(a) {
        var i :| 0 <= i < |cur| && cur[i] == a;
        assert ap[i] in ap;
      }
      if a == Action(g.nsymbol, REDUCE, b) { assert cur[k] == a; }
      if a in ap && Live(a) && !ReducesBy(a, b) {
        var i :| 0 <= i < |ap| && ap[i] == a;
        assert cur[i] == a;
      }
    }
    forall i, j | 0 <= i < j < |cur| && cur[i].sp == cur[j].sp ensures !Live(cur[i]) || !Live(cur[j]) {
      assert ap[i] in ap && ap[j] in ap;
      assert ap[i].sp == ap[j].sp ==> !Live(ap[i]) || !Live(ap[j]);
    }
  }

  // ------------------------------------------------------------ sorting keeps all this

  lemma {:induction false} OnceInMultiset(s: seq<Action>, a: Action)
    requires forall i, j :: 0 <= i < j < |s| ==> s[i] != a || s[j] != a
    ensures multiset(s)[a] <= 1
  {
    if s != [] {
      var n := |s| - 1;
      OnceInMultiset(s[..n], a);
      assert s == s[..n] + [s[n]];
      if s[n] == a { assert a !in s[..n]; }
    }
  }

  lemma SameElements(s: seq<Action>, t: seq<Action>, a: Action)
    requires multiset(s) == multiset(t)
    ensures a in s <==> a in t
  {
    assert a in s <==> a in multiset(s);
    assert a in t <==> a in multiset(t);
  }

  lemma SortedOneEach(s: seq<Action>, t: seq<Action>)
    requires multiset(s) == multiset(t) && OneEach(s)
    ensures OneEach(t)
  {
    hide Live;
    forall i, j | 0 <= i < j < |t| && t[i].sp == t[j].sp && Live(t[i]) ensures !Live(t[j]) {
      SameElements(s, t, t[i]);
      SameElements(s, t, t[j]);
      if t[i] == t[j] {
        Automaton.TwiceInMultiset(t, i, j);
        OnceInMultiset(s, t[i]);
        assert false;
      }
      var m :| 0 <= m < |s| && s[m] == t[i];
      var n :| 0 <= n < |s| && s[n] == t[j];
      assert m < n || n < m;
    }
  }

  // ------------------------------------------------------------ the result

  /** b is the default of `after`: meanings stay, except that syntax errors become reductions by b. */
  ghost predicate DefaultsTo(g: Grammar, ap: seq<Action>, b: nat, after: seq<Action>) {
    && HasDefault(g, ap, b, after)
    && forall x: nat :: x < g.nsymbol ==>
         Meaning(g, after, x) == if Meaning(g, ap, x) == SyntaxError then Reduce(b) else Meaning(g, ap, x)
  }

  /** What compression promises about the list of one state. */
  ghost predicate Compressed(g: Grammar, ap: seq<Action>, after: seq<Action>) {
    if forall r :: Count(ap, r) < 2 then after == ap
    else exists b :: Count(ap, b) >= 2 && MostFrequent(ap, b) && DefaultsTo(g, ap, b, after)
  }

  lemma MeaningByDefault(g: Grammar, ap: seq<Action>, b: nat, after: seq<Action>, x: nat)
    requires Undefaulted(g, ap) && HasDefault(g, ap, b, after) && x < g.nsymbol
    requires forall a :: a in ap && Live(a) ==> a.typ != ERROR
    ensures Meaning(g, after, x) == if Meaning(g, ap, x) == SyntaxError then Reduce(b) else Meaning(g, ap, x)
  {
    LiveOnIs(after, g.nsymbol, Action(g.nsymbol, REDUCE, b));
    NoLiveOn(ap, x);
    NoLiveOn(after, x);
    NoLiveOn(ap, g.nsymbol);
    if LiveOn(ap, x).Some? {
      var a := LiveOn(ap, x).value;
      LiveOnIs(ap, x, a);
      if ReducesBy(a, b) {
        forall a' | a' in after && a'.sp == x ensures !Live(a') {
          if a' in ap && Live(a') { LiveOnIs(ap, x, a'); }
        }
      } else {
        LiveOnIs(after, x, a);
      }
    }
  }

  lemma SortedFoldCompresses(g: Grammar, ap: seq<Action>, b: nat, k: nat, cur: seq<Action>, after: seq<Action>)
    requires Undefaulted(g, ap) && Folded(g, ap, b, k, cur, |ap|) && multiset(cur) == multiset(after)
    requires forall a :: a in ap && Live(a) ==> a.typ != ERROR
    ensures DefaultsTo(g, ap, b, after)
  {
    FoldedActions(g, ap, b, k, cur);
    SortedOneEach(cur, after);
    hide OneEach, Live, ReducesBy, Meaning, Folded;
    forall a ensures a in after <==> a in cur { SameElements(cur, after, a); }
    forall x: nat | x < g.nsymbol
      ensures Meaning(g, after, x) == if Meaning(g, ap, x) == SyntaxError then Reduce(b) else Meaning(g, ap, x)
    {
      MeaningByDefault(g, ap, b, after, x);
    }
  }

  /** The list can be compressed: no default yet, and short enough for `msort`. */
  ghost predicate Compressible(g: Grammar, ap: seq<Action>) {
    && Undefaulted(g, ap) && |ap| < Pow2(MSort.LISTSIZE)
    && forall a :: a in ap && Live(a) ==> a.typ != ERROR
  }

  /** `CompressTables` for one state. */
  method CompressState(g: Grammar, ap: seq<Action>) returns (after: seq<Action>)
    requires Compressible(g, ap)
    ensures Compressed(g, ap, after)
  {
    var nbest, rbest := FindBest(ap);
    if nbest < 2 { return ap; }
    hide Undefaulted, Live, DefaultsTo, Folded;
    var cur, k := Fold(g, ap, rbest.value);
    assert |cur| == |ap| by { FoldedLength(g, ap, rbest.value, k, cur); }
    ActioncmpIsOrder();
    after := MSort.Msort(cur, Actioncmp);
    SortedFoldCompresses(g, ap, rbest.value, k, cur, after);
    assert MostFrequent(ap, rbest.value);
  }

  lemma FoldedLength(g: Grammar, ap: seq<Action>, b: nat, k: nat, cur: seq<Action>)
    requires Folded(g, ap, b, k, cur, |ap|)
    ensures |cur| == |ap|
  {
  }

  /** `CompressTables`: in every state a most frequent reduction, if it occurs at least twice,
      becomes the default, and only lookaheads that were syntax errors change their meaning. */
  method CompressTables(g: Grammar, acts: seq<seq<Action>>) returns (acts': seq<seq<Action>>)
    requires forall q :: 0 <= q < |acts| ==> Compressible(g, acts[q])
    ensures |acts'| == |acts|
    ensures forall q :: 0 <= q < |acts| ==> Compressed(g, acts[q], acts'[q])
  {
    hide Compressible, Compressed;
    acts' := [];
    var i := 0;
    while i < |acts|
      invariant 0 <= i <= |acts| && |acts'| == i
      invariant forall q :: 0 <= q < i ==> Compressed(g, acts[q], acts'[q])
    {
      var after := CompressState(g, acts[i]);
      acts' := acts' + [after];
      i := i + 1;
    }
  }

  // ------------------------------------------------------------ what the later phases rely on

  lemma {:induction false} CountSpread(ap: seq<Action>, r: nat, sp: nat)
    requires OneEach(ap) && forall a :: a in ap && ReducesBy(a, r) ==> a.sp == sp
    ensures Count(ap, r) <= 1
  {
    if ap != [] {
      var n := |ap| - 1;
      if ReducesBy(ap[n], r) {
        forall i | 0 <= i < n ensures !ReducesBy(ap[..n][i], r) {
          assert ap[i] in ap && ap[n] in ap;
        }
        CountNone(ap[..n], r);
      } else {
        assert forall i, j :: 0 <= i < j < n ==> ap[..n][i] == ap[i] && ap[..n][j] == ap[j];
        CountSpread(ap[..n], r, sp);
      }
    }
  }

  /** After compression there is still at most one live action for each symbol, each of them comes
      from the original list, except the default, whose rule occurs there at least twice. */
  lemma CompressedActions(g: Grammar, ap: seq<Action>, after: seq<Action>)
    requires Undefaulted(g, ap) && Compressed(g, ap, after)
    ensures OneEach(after) && forall a :: a in after && Live(a) ==> a.sp <= g.nsymbol
    ensures forall a :: a in after && Live(a) && a.sp < g.nsymbol ==> a in ap
    ensures forall a :: a in after && a.sp == g.nsymbol && Live(a) ==> a.typ == REDUCE && Count(ap, a.x) >= 2
  {
    hide OneEach, Meaning;
  }
}
