/** The generic list merge sort that orders Lemon's configurations and actions:
    `merge` and `msort`.  A null-terminated list is a sequence, a null pointer the
    empty sequence; `cmp` is any comparison function that describes a total preorder. */
module MSort {
  import opened Shared

  const LISTSIZE: nat := 30

  ghost predicate Leq<T>(cmp: (T, T) -> int, a: T, b: T) {
    cmp(a, b) <= 0
  }

  ghost predicate Comparator<T(!new)>(cmp: (T, T) -> int) {
    && (forall a, b :: Leq(cmp, a, b) <==> cmp(b, a) >= 0)
    && (forall a, b, c :: Leq(cmp, a, b) && Leq(cmp, b, c) ==> Leq(cmp, a, c))
  }

  ghost predicate Sorted<T>(s: seq<T>, cmp: (T, T) -> int) {
    forall i, j :: 0 <= i < j < |s| ==> Leq(cmp, s[i], s[j])
  }

  /** The elements of `s` that tie with `x`, in the order in which `s` holds them. */
  ghost function Ties<T>(s: seq<T>, x: T, cmp: (T, T) -> int): seq<T> {
    if s == [] then []
    else (if cmp(s[0], x) == 0 then [s[0]] else []) + Ties(s[1..], x, cmp)
  }

  /** `t` is a rearrangement of `s` that keeps every two tying elements in order. */
  ghost predicate Rearranges<T(!new)>(t: seq<T>, s: seq<T>, cmp: (T, T) -> int) {
    && multiset(t) == multiset(s)
    && forall x :: Ties(t, x, cmp) == Ties(s, x, cmp)
  }

  /** `t` is what a stable sort makes of `s`. */
  ghost predicate StableSort<T(!new)>(s: seq<T>, t: seq<T>, cmp: (T, T) -> int) {
    Sorted(t, cmp) && Rearranges(t, s, cmp)
  }

  lemma {:induction false} TiesAppend<T>(s: seq<T>, t: seq<T>, x: T, cmp: (T, T) -> int)
    ensures Ties(s + t, x, cmp) == Ties(s, x, cmp) + Ties(t, x, cmp)
  {
    if s == [] {
      assert s + t == t;
    } else {
      var st := s + t;
      assert st[0] == s[0] && st[1..] == s[1..] + t;
      TiesAppend(s[1..], t, x, cmp);
      var head := if cmp(s[0], x) == 0 then [s[0]] else [];
      assert Ties(st, x, cmp) == head + Ties(st[1..], x, cmp);
      assert Ties(s, x, cmp) == head + Ties(s[1..], x, cmp);
    }
  }

  lemma RearrangesWithin<T(!new)>(high: seq<T>, t: seq<T>, s: seq<T>, all: seq<T>, cmp: (T, T) -> int)
    requires Rearranges(t, s, cmp) && Rearranges(high + s, all, cmp)
    ensures Rearranges(high + t, all, cmp)
  {
    forall x ensures Ties(high + t, x, cmp) == Ties(all, x, cmp) {
      TiesAppend(high, t, x, cmp);
      TiesAppend(high, s, x, cmp);
    }
  }

  lemma RearrangesMore<T(!new)>(t: seq<T>, s: seq<T>, e: T, cmp: (T, T) -> int)
    requires Rearranges(t, s, cmp)
    ensures Rearranges(t + [e], s + [e], cmp)
  {
    forall x ensures Ties(t + [e], x, cmp) == Ties(s + [e], x, cmp) {
      TiesAppend(t, [e], x, cmp);
      TiesAppend(s, [e], x, cmp);
    }
  }

  lemma {:induction false} NoTies<T>(s: seq<T>, x: T, cmp: (T, T) -> int)
    requires forall y :: y in s ==> cmp(y, x) != 0
    ensures Ties(s, x, cmp) == []
  {
    if s != [] {
      assert s[0] in s;
      NoTies(s[1..], x, cmp);
    }
  }

  /** What merging is: on a tie the element of `b` goes first. */
  ghost function Merged<T>(a: seq<T>, b: seq<T>, cmp: (T, T) -> int): seq<T> {
    if a == [] then b
    else if b == [] then a
    else if cmp(a[0], b[0]) < 0 then [a[0]] + Merged(a[1..], b, cmp)
    else [b[0]] + Merged(a, b[1..], cmp)
  }

  lemma FirstCounts<T>(x: T, s: seq<T>)
    ensures multiset([x] + s) == multiset{x} + multiset(s)
  {
  }

  lemma FirstOff<T>(s: seq<T>)
    requires s != []
    ensures multiset(s) == multiset{s[0]} + multiset(s[1..])
  {
    assert s == [s[0]] + s[1..];
  }

  lemma MergedOne<T>(a: seq<T>, b: seq<T>, cmp: (T, T) -> int)
    ensures a == [] ==> Merged(a, b, cmp) == b
    ensures b == [] ==> Merged(a, b, cmp) == a
    ensures a != [] && b != [] && cmp(a[0], b[0]) < 0 ==> Merged(a, b, cmp) == [a[0]] + Merged(a[1..], b, cmp)
    ensures a != [] && b != [] && cmp(a[0], b[0]) >= 0 ==> Merged(a, b, cmp) == [b[0]] + Merged(a, b[1..], cmp)
  {
  }

  lemma {:induction false} MergedContents<T>(a: seq<T>, b: seq<T>, cmp: (T, T) -> int)
    ensures multiset(Merged(a, b, cmp)) == multiset(a) + multiset(b)
  {
    hide Merged;
    MergedOne(a, b, cmp);
    if a == [] || b == [] {
    } else if cmp(a[0], b[0]) < 0 {
      MergedContents(a[1..], b, cmp);
      FirstOff(a);
      FirstCounts(a[0], Merged(a[1..], b, cmp));
    } else {
      MergedContents(a, b[1..], cmp);
      FirstOff(b);
      FirstCounts(b[0], Merged(a, b[1..], cmp));
    }
  }

  ghost predicate AtMostAll<T>(x: T, s: seq<T>, cmp: (T, T) -> int) {
    forall y :: y in s ==> Leq(cmp, x, y)
  }

  lemma SortedHead<T(!new)>(x: T, s: seq<T>, cmp: (T, T) -> int)
    requires Comparator(cmp) && Sorted(s, cmp)
    requires s != [] ==> Leq(cmp, x, s[0])
    ensures AtMostAll(x, s, cmp)
  {
    forall y | y in s ensures Leq(cmp, x, y) {
      var k :| 0 <= k < |s| && s[k] == y;
      assert k == 0 || Leq(cmp, s[0], s[k]);
    }
  }

  lemma SortedCons<T>(x: T, s: seq<T>, cmp: (T, T) -> int)
    requires Sorted(s, cmp) && AtMostAll(x, s, cmp)
    ensures Sorted([x] + s, cmp)
  {
  }

  lemma {:induction false} MergedAtMost<T>(x: T, a: seq<T>, b: seq<T>, cmp: (T, T) -> int)
    requires AtMostAll(x, a, cmp) && AtMostAll(x, b, cmp)
    ensures AtMostAll(x, Merged(a, b, cmp), cmp)
  {
    MergedContents(a, b, cmp);
    forall y | y in Merged(a, b, cmp) ensures Leq(cmp, x, y) {
      assert y in multiset(Merged(a, b, cmp));
      assert y in a || y in b;
    }
  }

  lemma {:induction false} MergedSorted<T(!new)>(a: seq<T>, b: seq<T>, cmp: (T, T) -> int)
    requires Comparator(cmp) && Sorted(a, cmp) && Sorted(b, cmp)
    ensures Sorted(Merged(a, b, cmp), cmp)
  {
    if a == [] || b == [] {
    } else if cmp(a[0], b[0]) < 0 {
      MergedSorted(a[1..], b, cmp);
      SortedHead(a[0], a[1..], cmp);
      SortedHead(a[0], b, cmp);
      MergedAtMost(a[0], a[1..], b, cmp);
      SortedCons(a[0], Merged(a[1..], b, cmp), cmp);
    } else {
      MergedSorted(a, b[1..], cmp);
      SortedHead(b[0], a, cmp);
      SortedHead(b[0], b[1..], cmp);
      MergedAtMost(b[0], a, b[1..], cmp);
      SortedCons(b[0], Merged(a, b[1..], cmp), cmp);
    }
  }

  /** Merging is stable: all ties of `b` come before all ties of `a`. */
  lemma {:induction false} MergedTies<T(!new)>(a: seq<T>, b: seq<T>, x: T, cmp: (T, T) -> int)
    requires Comparator(cmp) && Sorted(a, cmp) && Sorted(b, cmp)
    ensures Ties(Merged(a, b, cmp), x, cmp) == Ties(b, x, cmp) + Ties(a, x, cmp)
  {
    if a == [] || b == [] {
    } else if cmp(a[0], b[0]) < 0 {
      var rest := Merged(a[1..], b, cmp);
      MergedTies(a[1..], b, x, cmp);
      assert Merged(a, b, cmp)[1..] == rest;
      if cmp(a[0], x) == 0 {
        SortedHead(b[0], b, cmp);
        forall y | y in b ensures cmp(y, x) != 0 {
          assert Leq(cmp, b[0], y) && !Leq(cmp, b[0], a[0]) && Leq(cmp, x, a[0]);
          assert !Leq(cmp, y, x);
        }
        NoTies(b, x, cmp);
      }
    } else {
      MergedTies(a, b[1..], x, cmp);
      assert Merged(a, b, cmp)[1..] == Merged(a, b[1..], cmp);
    }
  }

  lemma MergedIsStable<T(!new)>(a: seq<T>, b: seq<T>, cmp: (T, T) -> int)
    requires Comparator(cmp) && Sorted(a, cmp) && Sorted(b, cmp)
    ensures StableSort(b + a, Merged(a, b, cmp), cmp)
    ensures |Merged(a, b, cmp)| == |a| + |b|
  {
    MergedSorted(a, b, cmp);
    MergedContents(a, b, cmp);
    assert |Merged(a, b, cmp)| == |multiset(Merged(a, b, cmp))|;
    forall x ensures Ties(Merged(a, b, cmp), x, cmp) == Ties(b + a, x, cmp) {
      MergedTies(a, b, x, cmp);
      TiesAppend(b, a, x, cmp);
    }
  }

  lemma MergedStep<T>(head: seq<T>, a: seq<T>, i: nat, b: seq<T>, j: nat, cmp: (T, T) -> int)
    requires i < |a| && j < |b|
    ensures cmp(a[i], b[j]) < 0 ==>
              head + Merged(a[i..], b[j..], cmp) == head + [a[i]] + Merged(a[i+1..], b[j..], cmp)
    ensures cmp(a[i], b[j]) >= 0 ==>
              head + Merged(a[i..], b[j..], cmp) == head + [b[j]] + Merged(a[i..], b[j+1..], cmp)
  {
    assert a[i..][1..] == a[i+1..] && b[j..][1..] == b[j+1..];
  }

  /** When one list is used up, the rest of the other follows. */
  lemma MergedRest<T>(head: seq<T>, a: seq<T>, i: nat, b: seq<T>, j: nat, cmp: (T, T) -> int)
    requires i <= |a| && j <= |b|
    ensures i == |a| ==> head + Merged(a[i..], b[j..], cmp) == head + b[j..]
    ensures j == |b| ==> head + Merged(a[i..], b[j..], cmp) == head + a[i..]
  {
  }

  lemma FromStart<T>(a: seq<T>, b: seq<T>, cmp: (T, T) -> int)
    ensures [] + Merged(a[0..], b[0..], cmp) == Merged(a, b, cmp)
  {
    assert a[0..] == a && b[0..] == b;
  }

  method Merge<T(!new)>(a: seq<T>, b: seq<T>, cmp: (T, T) -> int) returns (head: seq<T>)
    requires Comparator(cmp) && Sorted(a, cmp) && Sorted(b, cmp)
    ensures StableSort(b + a, head, cmp)
    ensures |head| == |a| + |b|
  {
    hide *;
    MergedIsStable(a, b, cmp);
    FromStart(a, b, cmp);
    MergedOne(a, b, cmp);
    if a == [] {
      head := b;
    } else if b == [] {
      head := a;
    } else {
      var i, j := 0, 0;
      head := [];
      while i < |a| && j < |b|
        invariant 0 <= i <= |a| && 0 <= j <= |b|
        invariant head + Merged(a[i..], b[j..], cmp) == Merged(a, b, cmp)
      {
        MergedStep(head, a, i, b, j, cmp);
        if cmp(a[i], b[j]) < 0 {
          head := head + [a[i]];
          i := i + 1;
        } else {
          head := head + [b[j]];
          j := j + 1;
        }
      }
      MergedRest(head, a, i, b, j, cmp);
      if i < |a| {
        head := head + a[i..];
      } else {
        head := head + b[j..];
      }
    }
  }

  // ------------------------------------------------------------------ the slots

  /** The slots of `msort` read from the highest (oldest elements) to the lowest. */
  ghost function Flatten<T>(slots: seq<seq<T>>): seq<T> {
    if slots == [] then [] else Flatten(slots[1..]) + slots[0]
  }

  /** The binary counter: an occupied slot i holds 2^i elements. */
  ghost predicate Counter<T>(slots: seq<seq<T>>, base: nat) {
    forall i :: 0 <= i < |slots| ==> slots[i] == [] || |slots[i]| == Pow2(base + i)
  }

  lemma {:induction false} FlattenAppend<T>(s: seq<seq<T>>, t: seq<seq<T>>)
    ensures Flatten(s + t) == Flatten(t) + Flatten(s)
  {
    if s == [] {
      assert s + t == t;
    } else {
      assert (s + t)[1..] == s[1..] + t;
      FlattenAppend(s[1..], t);
      assert (Flatten(t) + Flatten(s[1..])) + s[0] == Flatten(t) + (Flatten(s[1..]) + s[0]);
    }
  }

  lemma {:induction false} FlattenEmpty<T>(s: seq<seq<T>>)
    requires forall i :: 0 <= i < |s| ==> s[i] == []
    ensures Flatten(s) == []
  {
    if s != [] { FlattenEmpty(s[1..]); }
  }

  /** Replacing slot i of a counter whose lower slots are empty. */
  lemma FlattenAt<T>(s: seq<seq<T>>, i: nat)
    requires i < |s|
    requires forall k :: 0 <= k < i ==> s[k] == []
    ensures Flatten(s) == Flatten(s[i+1..]) + s[i]
  {
    assert s == s[..i] + s[i..];
    FlattenAppend(s[..i], s[i..]);
    FlattenEmpty(s[..i]);
    assert s[i..][1..] == s[i+1..];
  }

  /** A counter holds fewer than 2^|slots| elements, and exactly one less if it is full. */
  lemma {:induction false} CounterSize<T>(s: seq<seq<T>>, base: nat)
    requires Counter(s, base)
    ensures |Flatten(s)| <= Pow2(base + |s|) - Pow2(base)
    ensures (forall i :: 0 <= i < |s| ==> s[i] != []) ==> |Flatten(s)| == Pow2(base + |s|) - Pow2(base)
  {
    if s != [] {
      forall i | 0 <= i < |s[1..]| ensures s[1..][i] == [] || |s[1..][i]| == Pow2(base + 1 + i) {
        assert s[1..][i] == s[i + 1];
      }
      CounterSize(s[1..], base + 1);
      assert base + 1 + |s[1..]| == base + |s|;
      assert |s[0]| == 0 || |s[0]| == Pow2(base + 0);
    }
  }

  /** The slots followed by the newer list `ep` hold exactly `seen`, ties in input order. */
  ghost predicate Holding<T(!new)>(slots: seq<seq<T>>, ep: seq<T>, seen: seq<T>, cmp: (T, T) -> int) {
    Rearranges(Flatten(slots) + ep, seen, cmp)
  }

  ghost predicate Slots<T>(slots: seq<seq<T>>, cmp: (T, T) -> int) {
    && |slots| == LISTSIZE
    && Counter(slots, 0)
    && forall k :: 0 <= k < LISTSIZE ==> Sorted(slots[k], cmp)
  }

  ghost predicate EmptyBelow<T>(slots: seq<seq<T>>, i: nat) {
    i <= |slots| && forall k :: 0 <= k < i ==> slots[k] == []
  }

  /** One carry step: slot i is emptied into the element list in hand. */
  lemma Carry<T(!new)>(slots: seq<seq<T>>, i: nat, newer: seq<T>, ep: seq<T>, seen: seq<T>, cmp: (T, T) -> int)
    requires i < |slots| && EmptyBelow(slots, i) && Holding(slots, newer, seen, cmp)
    requires Rearranges(ep, slots[i] + newer, cmp)
    ensures Holding(slots[i := []], ep, seen, cmp)
  {
    var high := Flatten(slots[i+1..]);
    FlattenAt(slots, i);
    FlattenAt(slots[i := []], i);
    assert slots[i := []][i+1..] == slots[i+1..];
    assert Flatten(slots) + newer == high + (slots[i] + newer);
    assert Flatten(slots[i := []]) == high;
    RearrangesWithin(high, ep, slots[i] + newer, seen, cmp);
  }

  /** Storing the list in hand in the empty slot i. */
  lemma Deposit<T(!new)>(slots: seq<seq<T>>, i: nat, ep: seq<T>, seen: seq<T>, cmp: (T, T) -> int)
    requires i < |slots| && slots[i] == [] && EmptyBelow(slots, i) && Holding(slots, ep, seen, cmp)
    ensures Holding(slots[i := ep], [], seen, cmp)
  {
    FlattenAt(slots, i);
    FlattenAt(slots[i := ep], i);
    assert slots[i := ep][i+1..] == slots[i+1..];
    assert Flatten(slots[i := ep]) + [] == Flatten(slots) + ep;
  }

  lemma NothingHeld<T(!new)>(slots: seq<seq<T>>, list: seq<T>, cmp: (T, T) -> int)
    requires |slots| == LISTSIZE && EmptyBelow(slots, LISTSIZE)
    ensures Slots(slots, cmp) && Holding(slots, [], list[..0], cmp)
    ensures Rearranges([], Flatten(slots[..0]), cmp)
  {
    FlattenEmpty(slots);
  }

  lemma HoldingNext<T(!new)>(slots: seq<seq<T>>, list: seq<T>, p: nat, cmp: (T, T) -> int)
    requires p < |list| && Holding(slots, [], list[..p], cmp)
    ensures Holding(slots, [list[p]], list[..p+1], cmp)
  {
    assert list[..p+1] == list[..p] + [list[p]];
    assert Flatten(slots) + [] == Flatten(slots);
    RearrangesMore(Flatten(slots), list[..p], list[p], cmp);
  }

  /** The last slot is found occupied only by the element that overflows the counter. */
  lemma LastSlotFull<T(!new)>(slots: seq<seq<T>>, ep: seq<T>, seen: seq<T>, cmp: (T, T) -> int)
    requires Slots(slots, cmp) && EmptyBelow(slots, LISTSIZE - 1) && slots[LISTSIZE - 1] != []
    requires |ep| == Pow2(LISTSIZE - 1) && Holding(slots, ep, seen, cmp)
    ensures |seen| == Pow2(LISTSIZE)
  {
    var i := LISTSIZE - 1;
    FlattenAt(slots, i);
    assert slots[i+1..] == [];
    assert |slots[i]| == Pow2(0 + i);
    assert |seen| == |multiset(seen)| == |multiset(Flatten(slots) + ep)| == |Flatten(slots)| + |ep|;
  }

  /** One step of the final merge, which goes from the newest slot to the oldest. */
  lemma Collect<T(!new)>(slots: seq<seq<T>>, i: nat, ep: seq<T>, ep': seq<T>, cmp: (T, T) -> int)
    requires i < |slots| && Rearranges(ep, Flatten(slots[..i]), cmp)
    requires if slots[i] == [] then ep' == ep else Rearranges(ep', slots[i] + ep, cmp)
    ensures Rearranges(ep', Flatten(slots[..i+1]), cmp)
  {
    var low := Flatten(slots[..i]);
    assert slots[..i+1] == slots[..i] + [slots[i]];
    FlattenAppend(slots[..i], [slots[i]]);
    assert [slots[i]][1..] == [] && Flatten([slots[i]]) == slots[i];
    assert Flatten(slots[..i+1]) == slots[i] + low;
    RearrangesWithin(slots[i], ep, low, slots[i] + low, cmp);
    assert slots[i] == [] ==> slots[i] + ep == ep;
  }

  lemma SlotAt<T>(slots: seq<seq<T>>, i: nat, cmp: (T, T) -> int)
    requires Slots(slots, cmp) && i < |slots|
    ensures |slots| == LISTSIZE && Sorted(slots[i], cmp)
    ensures slots[i] == [] || |slots[i]| == Pow2(i)
  {
    assert slots[i] == [] || |slots[i]| == Pow2(0 + i);
  }

  lemma SlotsSet<T>(slots: seq<seq<T>>, i: nat, s: seq<T>, cmp: (T, T) -> int)
    requires Slots(slots, cmp) && i < |slots| && (s == [] || (|s| == Pow2(i) && Sorted(s, cmp)))
    ensures Slots(slots[i := s], cmp)
  {
  }

  lemma EmptyNext<T>(slots: seq<seq<T>>, i: nat)
    requires EmptyBelow(slots, i) && i < |slots|
    ensures EmptyBelow(slots[i := []], i + 1)
  {
  }

  lemma Twice(i: nat)
    ensures Pow2(i + 1) == Pow2(i) + Pow2(i) && Pow2(0) == 1
  {
  }

  lemma OneSorted<T>(slots: seq<seq<T>>, e: T, cmp: (T, T) -> int)
    ensures Sorted([e], cmp) && EmptyBelow(slots, 0)
  {
  }

  /** What the carry loop of `msort` keeps. */
  ghost predicate Carrying<T(!new)>(slots: seq<seq<T>>, i: nat, ep: seq<T>, list: seq<T>, p: nat, cmp: (T, T) -> int)
    requires p < |list|
  {
    && i < LISTSIZE && |ep| == Pow2(i) && Sorted(ep, cmp) && EmptyBelow(slots, i) && Slots(slots, cmp)
    && (p < Pow2(LISTSIZE) ==> Holding(slots, ep, list[..p+1], cmp))
  }

  lemma CarryStart<T(!new)>(slots: seq<seq<T>>, list: seq<T>, p: nat, cmp: (T, T) -> int)
    requires Slots(slots, cmp) && p < |list| && (p < Pow2(LISTSIZE) ==> Holding(slots, [], list[..p], cmp))
    ensures Carrying(slots, 0, [list[p]], list, p, cmp)
  {
    hide Slots, Sorted, Holding, Pow2;
    Twice(0);
    OneSorted(slots, list[p], cmp);
    if p < Pow2(LISTSIZE) { HoldingNext(slots, list, p, cmp); }
  }

  lemma CarrySorted<T(!new)>(slots: seq<seq<T>>, i: nat, ep: seq<T>, list: seq<T>, p: nat, cmp: (T, T) -> int)
    requires p < |list| && Carrying(slots, i, ep, list, p, cmp)
    ensures Sorted(ep, cmp) && i < |slots| == LISTSIZE && Sorted(slots[i], cmp)
  {
  }

  lemma CarryStep<T(!new)>(slots: seq<seq<T>>, i: nat, newer: seq<T>, ep: seq<T>, list: seq<T>, p: nat, cmp: (T, T) -> int)
    requires p < |list| && Carrying(slots, i, newer, list, p, cmp) && i < LISTSIZE - 1
    requires i < |slots| && slots[i] != [] && StableSort(slots[i] + newer, ep, cmp) && |ep| == |newer| + |slots[i]|
    ensures Carrying(slots[i := []], i + 1, ep, list, p, cmp)
  {
    hide Slots, Sorted, Holding, Pow2, EmptyBelow, Rearranges;
    SlotAt(slots, i, cmp);
    SlotsSet(slots, i, [], cmp);
    EmptyNext(slots, i);
    Twice(i);
    if p < Pow2(LISTSIZE) { Carry(slots, i, newer, ep, list[..p+1], cmp); }
  }

  lemma CarryDone<T(!new)>(slots: seq<seq<T>>, i: nat, ep: seq<T>, list: seq<T>, p: nat, cmp: (T, T) -> int)
    requires p < |list| && Carrying(slots, i, ep, list, p, cmp) && i < |slots| && (i < LISTSIZE - 1 ==> slots[i] == [])
    ensures Slots(slots[i := ep], cmp)
    ensures p + 1 < Pow2(LISTSIZE) ==> Holding(slots[i := ep], [], list[..p+1], cmp)
  {
    hide Slots, Sorted, Holding, Pow2;
    SlotsSet(slots, i, ep, cmp);
    if p + 1 < Pow2(LISTSIZE) {
      if slots[i] != [] {
        LastSlotFull(slots, ep, list[..p+1], cmp);
        assert false;
      }
      Deposit(slots, i, ep, list[..p+1], cmp);
    }
  }

  /** Adding one more element to the counter: the body of the main loop of `msort`. */
  method Push<T(!new)>(slot: array<seq<T>>, e: T, cmp: (T, T) -> int, ghost list: seq<T>, ghost p: nat)
    requires Comparator(cmp) && Slots(slot[..], cmp)
    requires p < |list| && list[p] == e
    requires p < Pow2(LISTSIZE) ==> Holding(slot[..], [], list[..p], cmp)
    modifies slot
    ensures Slots(slot[..], cmp)
    ensures p + 1 < Pow2(LISTSIZE) ==> Holding(slot[..], [], list[..p+1], cmp)
  {
    hide *;
    var ep, i := [e], 0;
    CarryStart(slot[..], list, p, cmp);
    CarrySorted(slot[..], 0, ep, list, p, cmp);
    while i < LISTSIZE - 1 && slot[i] != []
      invariant 0 <= i <= LISTSIZE - 1
      invariant Carrying(slot[..], i, ep, list, p, cmp)
    {
      ghost var slots, newer := slot[..], ep;
      CarrySorted(slots, i, ep, list, p, cmp);
      ep := Merge(ep, slot[i], cmp);
      slot[i] := [];
      assert slot[..] == slots[i := []];
      CarryStep(slots, i, newer, ep, list, p, cmp);
      i := i + 1;
    }
    ghost var slots := slot[..];
    slot[i] := ep;
    assert slot[..] == slots[i := ep];
    CarryDone(slots, i, ep, list, p, cmp);
  }

  lemma RearrangesSize<T(!new)>(t: seq<T>, s: seq<T>, cmp: (T, T) -> int)
    requires Rearranges(t, s, cmp)
    ensures |t| == |s|
  {
    assert |multiset(t)| == |multiset(s)|;
  }

  lemma AllHeld<T(!new)>(slots: seq<seq<T>>, ep: seq<T>, list: seq<T>, cmp: (T, T) -> int)
    requires Rearranges(ep, Flatten(slots), cmp) && Holding(slots, [], list, cmp)
    ensures Rearranges(ep, list, cmp)
  {
    assert Flatten(slots) + [] == Flatten(slots);
  }

  lemma SlotsCount<T>(slots: seq<seq<T>>, cmp: (T, T) -> int)
    requires Slots(slots, cmp)
    ensures |Flatten(slots)| < Pow2(LISTSIZE)
  {
    hide Pow2;
    assert LISTSIZE == 0 + |slots|;
    CounterSize(slots, 0);
    Twice(0);
  }

  lemma CollectedAll<T(!new)>(slots: seq<seq<T>>, ep: seq<T>, list: seq<T>, cmp: (T, T) -> int)
    requires Slots(slots, cmp) && Rearranges(ep, Flatten(slots), cmp)
    requires |list| < Pow2(LISTSIZE) ==> Holding(slots, [], list, cmp)
    ensures |list| < Pow2(LISTSIZE) ==> Rearranges(ep, list, cmp)
    ensures |ep| < Pow2(LISTSIZE)
  {
    hide *;
    SlotsCount(slots, cmp);
    RearrangesSize(ep, Flatten(slots), cmp);
    if |list| < Pow2(LISTSIZE) { AllHeld(slots, ep, list, cmp); }
  }

  /** Whatever order the input is in, the result is the stable sort of the input exactly
      when the input has fewer than 2^LISTSIZE elements: longer lists lose elements,
      because the carry out of the last slot overwrites it. */
  method Msort<T(!new)>(list: seq<T>, cmp: (T, T) -> int) returns (ep: seq<T>)
    requires Comparator(cmp)
    ensures |list| < Pow2(LISTSIZE) ==> StableSort(list, ep, cmp)
    ensures |list| >= Pow2(LISTSIZE) ==> |ep| < |list|
  {
    var slot := new seq<T>[LISTSIZE](_ => []);
    NothingHeld(slot[..], list, cmp);
    var p := 0;
    while p < |list|
      invariant 0 <= p <= |list|
      invariant Slots(slot[..], cmp)
      invariant p < Pow2(LISTSIZE) ==> Holding(slot[..], [], list[..p], cmp)
    {
      Push(slot, list[p], cmp, list, p);
      p := p + 1;
    }
    assert list[..p] == list;
    ep := MergeSlots(slot, cmp);
    CollectedAll(slot[..], ep, list, cmp);
  }

  /** The last loop of `msort`. */
  method MergeSlots<T(!new)>(slot: array<seq<T>>, cmp: (T, T) -> int) returns (ep: seq<T>)
    requires Comparator(cmp) && Slots(slot[..], cmp)
    ensures StableSort(Flatten(slot[..]), ep, cmp)
  {
    ep := [];
    var i := 0;
    while i < LISTSIZE
      invariant 0 <= i <= LISTSIZE
      invariant Sorted(ep, cmp) && Rearranges(ep, Flatten(slot[..][..i]), cmp)
    {
      ghost var older := ep;
      if slot[i] != [] {
        ep := Merge(ep, slot[i], cmp);
      }
      Collect(slot[..], i, older, ep, cmp);
      i := i + 1;
    }
    assert slot[..][..LISTSIZE] == slot[..];
  }
}
