/** The `acttab` module of Lemon: many sparse rows of (lookahead, action) pairs are packed
    into one shared array by overlapping them at different offsets. */
module ActTab {

  datatype Entry = Entry(lookahead: int, action: int)

  const UNUSED := Entry(-1, -1)

  /** The slot for lookahead x of the row at offset o carries the lookahead x. */
  ghost predicate Owns(tab: seq<Entry>, o: int, x: nat) {
    0 <= o + x < |tab| && tab[o + x].lookahead == x
  }

  /** The row that a reader of the table sees at offset `o`. */
  ghost function Row(tab: seq<Entry>, o: int): map<nat, int> {
    map x: nat | x < |tab| - o && Owns(tab, o, x) :: tab[o + x].action
  }

  /** The driver's table lookup. */
  function Lookup(tab: seq<Entry>, o: int, x: nat, default: int): int {
    if o + x < 0 || o + x >= |tab| || tab[o + x].lookahead != x then default else tab[o + x].action
  }

  lemma LookupReadsRow(tab: seq<Entry>, o: int, x: nat, default: int)
    ensures Lookup(tab, o, x, default) == if x in Row(tab, o) then Row(tab, o)[x] else default
  {
    assert Owns(tab, o, x) <==> (0 <= o + x < |tab| && tab[o + x].lookahead == x);
  }

  // ------------------------------------------------------------ transaction sets

  /** Lookaheads are nonnegative and no lookahead occurs twice. */
  ghost predicate Transaction(s: seq<Entry>) {
    && (forall i :: 0 <= i < |s| ==> s[i].lookahead >= 0)
    && forall i, j :: 0 <= i < j < |s| ==> s[i].lookahead != s[j].lookahead
  }

  /** A transaction set as a map. */
  ghost function Pairs(s: seq<Entry>): map<nat, int>
    requires Transaction(s)
  {
    if s == [] then map[]
    else var e := s[|s| - 1]; Pairs(s[..|s| - 1])[e.lookahead := e.action]
  }

  ghost predicate HasLookahead(s: seq<Entry>, x: nat) {
    exists i :: 0 <= i < |s| && s[i].lookahead == x
  }

  lemma {:induction false} PairsAt(s: seq<Entry>, i: nat)
    requires Transaction(s) && i < |s|
    ensures s[i].lookahead in Pairs(s) && Pairs(s)[s[i].lookahead] == s[i].action
  {
    var n := |s| - 1;
    if i < n {
      PairsAt(s[..n], i);
      assert s[..n][i] == s[i] && s[i].lookahead != s[n].lookahead;
    }
  }

  lemma {:induction false} PairsOnly(s: seq<Entry>, x: nat)
    requires Transaction(s) && x in Pairs(s)
    ensures HasLookahead(s, x)
  {
    var n := |s| - 1;
    if x != s[n].lookahead {
      PairsOnly(s[..n], x);
      var i :| 0 <= i < n && s[..n][i].lookahead == x;
      assert s[i].lookahead == x;
    }
  }

  lemma {:induction false} PairsSize(s: seq<Entry>)
    requires Transaction(s)
    ensures |Pairs(s)| == |s|
  {
    if s != [] {
      var n := |s| - 1;
      PairsSize(s[..n]);
      if s[n].lookahead in Pairs(s[..n]) {
        PairsOnly(s[..n], s[n].lookahead);
        assert false;
      }
    }
  }

  lemma PairsHolds(s: seq<Entry>)
    requires Transaction(s)
    ensures |Pairs(s)| == |s|
    ensures forall i :: 0 <= i < |s| ==> s[i].lookahead in Pairs(s) && Pairs(s)[s[i].lookahead] == s[i].action
    ensures forall x :: x in Pairs(s) ==> HasLookahead(s, x)
  {
    PairsSize(s);
    forall i | 0 <= i < |s| ensures s[i].lookahead in Pairs(s) && Pairs(s)[s[i].lookahead] == s[i].action {
      PairsAt(s, i);
    }
    forall x | x in Pairs(s) ensures HasLookahead(s, x) { PairsOnly(s, x); }
  }

  /** Entry e of a transaction set is in the table at offset o. */
  ghost predicate InPlace(tab: seq<Entry>, e: Entry, o: int) {
    0 <= o + e.lookahead < |tab| && tab[o + e.lookahead] == e
  }

  ghost predicate AllInPlace(tab: seq<Entry>, s: seq<Entry>, o: int) {
    forall i :: 0 <= i < |s| ==> InPlace(tab, s[i], o)
  }

  /** The slots among the first n whose entries belong to the row at offset o. */
  ghost function Members(tab: seq<Entry>, o: int, n: nat): set<nat>
    requires n <= |tab|
  {
    set j: nat | j < n && tab[j].lookahead >= 0 && tab[j].lookahead == j - o
  }

  ghost predicate Hits(s: set<nat>, o: int, x: nat) {
    o + x in s
  }

  lemma MembersAreKeys(tab: seq<Entry>, o: int)
    ensures |Members(tab, o, |tab|)| == |Row(tab, o)|
  {
    var slots := Members(tab, o, |tab|);
    var keys := Row(tab, o).Keys;
    forall x: nat | x in keys ensures Hits(slots, o, x) { KeyIsMember(tab, o, x); }
    forall j: nat | j in slots ensures Hits(keys, -o, j) { MemberIsKey(tab, o, j); }
    hide *;
    ShiftedSize(slots, keys, o);
  }

  lemma KeyIsMember(tab: seq<Entry>, o: int, x: nat)
    requires x in Row(tab, o)
    ensures Hits(Members(tab, o, |tab|), o, x)
  {
  }

  lemma MemberIsKey(tab: seq<Entry>, o: int, j: nat)
    requires j in Members(tab, o, |tab|)
    ensures Hits(Row(tab, o).Keys, -o, j)
  {
    assert Owns(tab, o, j - o);
  }

  lemma {:induction false} ShiftedSize(slots: set<nat>, keys: set<nat>, o: int)
    requires forall x: nat :: x in keys ==> Hits(slots, o, x)
    requires forall j: nat :: j in slots ==> Hits(keys, -o, j)
    ensures |slots| == |keys|
  {
    if x: nat :| x in keys {
      assert Hits(slots, o, x);
      var j: nat := o + x;
      forall y: nat | y in keys - {x} ensures Hits(slots - {j}, o, y) { assert Hits(slots, o, y); }
      forall i: nat | i in slots - {j} ensures Hits(keys - {x}, -o, i) { assert Hits(keys, -o, i); }
      ShiftedSize(slots - {j}, keys - {x}, o);
    } else {
      NoneHit(slots, keys, o);
    }
  }

  lemma NoneHit(slots: set<nat>, keys: set<nat>, o: int)
    requires forall x: nat :: x !in keys
    requires forall j: nat :: j in slots ==> Hits(keys, -o, j)
    ensures slots == {} && keys == {}
  {
    forall j: nat ensures j !in slots { NeverHits(keys, -o, j); }
  }

  lemma NeverHits(s: set<nat>, o: int, x: nat)
    requires forall y: nat :: y !in s
    ensures !Hits(s, o, x)
  {
  }

  lemma SubmapOfSameSize(a: map<nat, int>, b: map<nat, int>)
    requires |a| == |b|
    requires forall x :: x in a ==> x in b && b[x] == a[x]
    ensures a == b
  {
    assert a.Keys <= b.Keys;
    assert |b.Keys - a.Keys| == |b.Keys| - |a.Keys| && |a.Keys| == |a| && |b.Keys| == |b|;
    assert b.Keys == a.Keys + (b.Keys - a.Keys);
  }

  ghost predicate SameSize(tab: seq<Entry>, s: seq<Entry>, o: int) {
    AllInPlace(tab, s, o) && |Row(tab, o)| == |s|
  }

  /** A set that is in place is the whole row exactly when the row has no more pairs than the set. */
  lemma RowIsSet(tab: seq<Entry>, s: seq<Entry>, o: int)
    requires Transaction(s)
    ensures Row(tab, o) == Pairs(s) <==> SameSize(tab, s, o)
  {
    if Row(tab, o) == Pairs(s) { RowInPlace(tab, s, o); }
    if AllInPlace(tab, s, o) && |Row(tab, o)| == |s| { InPlaceRow(tab, s, o); }
  }

  lemma RowInPlace(tab: seq<Entry>, s: seq<Entry>, o: int)
    requires Transaction(s) && Row(tab, o) == Pairs(s)
    ensures AllInPlace(tab, s, o) && |Row(tab, o)| == |s|
  {
    PairsHolds(s);
    forall i | 0 <= i < |s| ensures InPlace(tab, s[i], o) {
      assert s[i].lookahead in Row(tab, o);
      assert Owns(tab, o, s[i].lookahead);
    }
  }

  lemma InPlaceRow(tab: seq<Entry>, s: seq<Entry>, o: int)
    requires Transaction(s) && AllInPlace(tab, s, o) && |Row(tab, o)| == |s|
    ensures Row(tab, o) == Pairs(s)
  {
    PairsHolds(s);
    var row := Row(tab, o);
    forall x | x in Pairs(s) ensures x in row && row[x] == Pairs(s)[x] {
      assert HasLookahead(s, x);
      var i :| 0 <= i < |s| && s[i].lookahead == x;
      assert InPlace(tab, s[i], o);
      assert Owns(tab, o, x);
    }
    SubmapOfSameSize(Pairs(s), row);
  }

  // ------------------------------------------------------------ where a set may go

  /** The source's test for an insertion at offset o into unused slots: every slot that the set
      needs is unused, and no slot j carries the value j - o.  The second half keeps rows apart;
      it also turns down an offset o whose slot o - 1 is unused, because -1 is j - o there. */
  ghost predicate Fits(tab: seq<Entry>, s: seq<Entry>, o: int) {
    && (forall i :: 0 <= i < |s| ==>
          0 <= o + s[i].lookahead && (o + s[i].lookahead < |tab| ==> tab[o + s[i].lookahead].lookahead < 0))
    && forall j :: 0 <= j < |tab| ==> tab[j].lookahead != j - o
  }

  ghost predicate Takes(tab: seq<Entry>, s: seq<Entry>, o: int)
    requires Transaction(s)
  {
    Fits(tab, s, o) || Row(tab, o) == Pairs(s)
  }

  ghost predicate NoTaker(tab: seq<Entry>, s: seq<Entry>, from: int, to: int)
    requires Transaction(s)
  {
    forall o :: from <= o < to ==> !Takes(tab, s, o)
  }

  /** o is the first offset, from the given one on, that takes the set. */
  ghost predicate FirstTaker(tab: seq<Entry>, s: seq<Entry>, from: int, o: int)
    requires Transaction(s)
  {
    from <= o && Takes(tab, s, o) && NoTaker(tab, s, from, o)
  }

  /** No slot that the set needs is in use, and none belongs to the row at this offset. */
  ghost predicate Room(tab: seq<Entry>, s: seq<Entry>, o: int) {
    && (forall i :: 0 <= i < |s| ==>
          0 <= o + s[i].lookahead && (o + s[i].lookahead < |tab| ==> tab[o + s[i].lookahead].lookahead < 0))
    && Row(tab, o) == map[]
  }

  lemma EmptyRow(tab: seq<Entry>, o: int)
    ensures Row(tab, o) == map[] <==> forall x: nat :: !Owns(tab, o, x)
  {
    forall x: nat ensures x in Row(tab, o) <==> Owns(tab, o, x) {}
    if x: nat :| Owns(tab, o, x) {
      assert x in Row(tab, o);
    } else {
      assert forall x :: x !in Row(tab, o);
    }
  }

  /** Exactly the offsets behind an unused slot are passed over although there is room. */
  lemma PassedOver(tab: seq<Entry>, s: seq<Entry>, o: int)
    requires WellUsed(tab)
    ensures Fits(tab, s, o) <==> Room(tab, s, o) && !(0 < o <= |tab| && tab[o-1] == UNUSED)
  {
    EmptyRow(tab, o);
    hide Row;
    forall j | 0 <= j < |tab| ensures tab[j].lookahead == j - o <==> (j >= o && Owns(tab, o, j - o)) || (j == o - 1 && tab[j] == UNUSED) {}
  }

  ghost predicate WellUsed(tab: seq<Entry>) {
    && (forall k :: 0 <= k < |tab| ==> tab[k].lookahead >= 0 || tab[k] == UNUSED)
    && (|tab| > 0 ==> tab[|tab| - 1].lookahead >= 0)
  }

  lemma AppendFits(tab: seq<Entry>, s: seq<Entry>)
    requires WellUsed(tab) && Transaction(s)
    ensures Takes(tab, s, |tab|)
  {
  }

  lemma NoEntryNoRow(tab: seq<Entry>, s: seq<Entry>, o: int, e: Entry)
    requires Transaction(s) && e in s && !InPlace(tab, e, o)
    ensures Row(tab, o) != Pairs(s)
  {
    RowIsSet(tab, s, o);
    var i: nat :| i < |s| && s[i] == e;
  }

  /** A slot taken by an insertion is unused, or holds the very pair that goes there. */
  ghost predicate SlotFree(tab: seq<Entry>, e: Entry, o: int) {
    0 <= o + e.lookahead && (o + e.lookahead < |tab| ==> tab[o + e.lookahead] in {UNUSED, e})
  }

  lemma TakenSlots(tab: seq<Entry>, s: seq<Entry>, o: int)
    requires WellUsed(tab) && Transaction(s) && Takes(tab, s, o)
    ensures forall e :: e in s ==> SlotFree(tab, e, o)
    ensures Row(tab, o) in {map[], Pairs(s)}
  {
    if Fits(tab, s, o) {
      forall x: nat ensures !Owns(tab, o, x) {
        assert 0 <= o + x < |tab| ==> tab[o + x].lookahead != o + x - o;
      }
      assert Row(tab, o) == map[];
    } else {
      RowIsSet(tab, s, o);
    }
  }

  /** `after` is `before` with the pairs of `s` written at offset o; the gap is unused. */
  ghost predicate Placed(before: seq<Entry>, after: seq<Entry>, s: seq<Entry>, o: int) {
    && |before| <= |after|
    && AllInPlace(after, s, o)
    && (forall k :: |before| <= k < |after| ==> after[k] == UNUSED || (after[k] in s && k == o + after[k].lookahead))
    && (forall k :: 0 <= k < |before| ==> after[k] == before[k] || (after[k] in s && k == o + after[k].lookahead))
  }

  /** Slot k of the table set to e; slots skipped at the end are unused. */
  ghost function WriteAt(tab: seq<Entry>, k: nat, e: Entry): seq<Entry> {
    if k < |tab| then tab[k := e] else tab + seq(k - |tab|, _ => UNUSED) + [e]
  }

  lemma WriteOne(before: seq<Entry>, tab: seq<Entry>, s: seq<Entry>, j: nat, o: int)
    requires j < |s| && Transaction(s) && Placed(before, tab, s[..j], o)
    requires WellUsed(tab) && 0 <= o + s[j].lookahead
    ensures WellUsed(WriteAt(tab, o + s[j].lookahead, s[j]))
    ensures Placed(before, WriteAt(tab, o + s[j].lookahead, s[j]), s[..j+1], o)
  {
    var after, done := WriteAt(tab, o + s[j].lookahead, s[j]), s[..j+1];
    assert done == s[..j] + [s[j]];
    forall i | 0 <= i < |done| ensures InPlace(after, done[i], o) {
      assert i < j ==> InPlace(tab, s[..j][i], o);
    }
  }

  lemma PlacedHas(after: seq<Entry>, s: seq<Entry>, o: int, x: nat)
    requires Transaction(s) && AllInPlace(after, s, o) && x in Pairs(s)
    ensures Owns(after, o, x) && after[o + x].action == Pairs(s)[x]
  {
    PairsOnly(s, x);
    var i :| 0 <= i < |s| && s[i].lookahead == x;
    PairsAt(s, i);
    assert InPlace(after, s[i], o);
  }

  lemma PlacedOnly(before: seq<Entry>, after: seq<Entry>, s: seq<Entry>, o: int, x: nat)
    requires WellUsed(before) && Transaction(s) && Takes(before, s, o) && Placed(before, after, s, o)
    requires Owns(after, o, x)
    ensures x in Pairs(s)
  {
    TakenSlots(before, s, o);
    if after[o + x] in s {
      var i :| 0 <= i < |s| && s[i] == after[o + x];
      PairsAt(s, i);
    } else {
      assert Owns(before, o, x) && x in Row(before, o);
    }
  }

  /** Writing a set at an offset that takes it makes it the row there ... */
  lemma PlacedRow(before: seq<Entry>, after: seq<Entry>, s: seq<Entry>, o: int)
    requires WellUsed(before) && Transaction(s) && Takes(before, s, o) && Placed(before, after, s, o)
    ensures Row(after, o) == Pairs(s)
  {
    forall x: nat | Owns(after, o, x) ensures x in Pairs(s) { PlacedOnly(before, after, s, o, x); }
    forall x | x in Pairs(s) ensures Owns(after, o, x) && after[o + x].action == Pairs(s)[x] {
      PlacedHas(after, s, o, x);
    }
    assert Row(after, o).Keys == Pairs(s).Keys;
  }

  lemma OtherSlot(before: seq<Entry>, after: seq<Entry>, s: seq<Entry>, o: int, o': int, x: nat)
    requires Placed(before, after, s, o) && o' != o
    requires forall e :: e in s ==> SlotFree(before, e, o)
    ensures Owns(after, o', x) <==> Owns(before, o', x)
    ensures Owns(before, o', x) ==> Owns(after, o', x) && after[o' + x] == before[o' + x]
  {
    var k := o' + x;
    if 0 <= k < |after| && after[k] in s && k == o + after[k].lookahead {
      assert SlotFree(before, after[k], o);
    }
  }

  /** ... and disturbs no other row. */
  lemma OtherRow(before: seq<Entry>, after: seq<Entry>, s: seq<Entry>, o: int, o': int)
    requires WellUsed(before) && Transaction(s) && Takes(before, s, o) && Placed(before, after, s, o)
    requires o' != o
    ensures Row(after, o') == Row(before, o')
  {
    TakenSlots(before, s, o);
    hide Placed, Takes, WellUsed, Transaction;
    forall x: nat
      ensures Owns(after, o', x) <==> Owns(before, o', x)
      ensures Owns(before, o', x) ==> Owns(after, o', x) && after[o' + x] == before[o' + x]
    {
      OtherSlot(before, after, s, o, o', x);
    }
    assert Row(after, o').Keys == Row(before, o').Keys;
  }

  /** What an insertion does to the rows. */
  ghost predicate Inserted(before: seq<Entry>, s: seq<Entry>, o: int, after: seq<Entry>)
    requires Transaction(s)
  {
    && Row(after, o) == Pairs(s)
    && (forall o' :: o' != o ==> Row(after, o') == Row(before, o'))
    && Row(before, o) in {map[], Pairs(s)}
  }

  lemma PlacedInserted(before: seq<Entry>, after: seq<Entry>, s: seq<Entry>, o: int)
    requires WellUsed(before) && Transaction(s) && Takes(before, s, o) && Placed(before, after, s, o)
    ensures Inserted(before, s, o, after)
  {
    TakenSlots(before, s, o);
    PlacedRow(before, after, s, o);
    forall o' | o' != o ensures Row(after, o') == Row(before, o') {
      OtherRow(before, after, s, o, o');
    }
  }

  function SlotOf(tab: seq<Entry>, k: nat): Entry {
    if k < |tab| then tab[k] else UNUSED
  }

  /** The slot of any one pair decides which of the two ways of taking the set is possible. */
  lemma TakesByFirstSlot(tab: seq<Entry>, s: seq<Entry>, o: int, e: Entry, b: bool)
    requires Transaction(s) && e in s && 0 <= o + e.lookahead
    requires SlotOf(tab, o + e.lookahead).lookahead < 0 ==> (b <==> Fits(tab, s, o))
    requires SlotOf(tab, o + e.lookahead) == e ==> (b <==> SameSize(tab, s, o))
    requires SlotOf(tab, o + e.lookahead).lookahead >= 0 && SlotOf(tab, o + e.lookahead) != e ==> !b
    ensures b <==> Takes(tab, s, o)
  {
    assert Takes(tab, s, o) <==> Fits(tab, s, o) || Row(tab, o) == Pairs(s);
    RowIsSet(tab, s, o);
    if SlotOf(tab, o + e.lookahead) != e { NoEntryNoRow(tab, s, o, e); }
    if SlotOf(tab, o + e.lookahead).lookahead >= 0 { FirstSlotUsed(tab, s, o, e); }
  }

  lemma FirstSlotUsed(tab: seq<Entry>, s: seq<Entry>, o: int, e: Entry)
    requires e in s && 0 <= o + e.lookahead < |tab| && tab[o + e.lookahead].lookahead >= 0
    ensures !Fits(tab, s, o)
  {
    var i :| 0 <= i < |s| && s[i] == e;
  }

  // ------------------------------------------------------------ the table under construction

  lemma NothingPlaced(tab: seq<Entry>, s: seq<Entry>, o: int)
    ensures Placed(tab, tab, s[..0], o)
  {
  }

  class Acttab {
    var aAction: array<Entry>
    var nAction: nat
    var aLookahead: seq<Entry>
    var mnLookahead: int
    var mnAction: int
    var mxLookahead: int

    ghost predicate Valid()
      reads this, aAction
    {
      && nAction <= aAction.Length
      && WellUsed(aAction[..nAction])
      && forall k :: nAction <= k < aAction.Length ==> aAction[k] == UNUSED
    }

    /** The transaction set being collected, with its extreme lookaheads. */
    ghost predicate Pending()
      reads this
    {
      && (forall e :: e in aLookahead ==> 0 <= mnLookahead <= e.lookahead <= mxLookahead)
      && (aLookahead != [] ==> Entry(mnLookahead, mnAction) in aLookahead)
    }

    ghost function Table(): seq<Entry>
      reads this, aAction
    {
      if nAction <= aAction.Length then aAction[..nAction] else []
    }

    constructor ()
      ensures Valid() && Pending() && Table() == [] && aLookahead == []
      ensures fresh(aAction)
    {
      aAction := new Entry[0];
      nAction, aLookahead := 0, [];
      mnLookahead, mnAction, mxLookahead := 0, 0, 0;
    }

    /** `acttab_action` */
    method Action(lookahead: nat, action: int)
      requires Valid() && Pending()
      modifies `aLookahead, `mnLookahead, `mnAction, `mxLookahead
      ensures Valid() && Pending()
      ensures aLookahead == old(aLookahead) + [Entry(lookahead, action)]
    {
      if aLookahead == [] {
        mxLookahead := lookahead;
        mnLookahead := lookahead;
        mnAction := action;
      } else {
        if mxLookahead < lookahead { mxLookahead := lookahead; }
        if mnLookahead > lookahead {
          mnLookahead := lookahead;
          mnAction := action;
        }
      }
      aLookahead := aLookahead + [Entry(lookahead, action)];
    }

    /** Does the transaction set fit into unused slots when its least lookahead goes to slot i? */
    method FitsAt(i: nat, ghost tab: seq<Entry>, ghost s: seq<Entry>) returns (b: bool)
      requires Valid() && Pending() && aLookahead != []
      requires tab == Table() && s == aLookahead
      requires nAction + mxLookahead < aAction.Length
      requires i < nAction + mnLookahead
      ensures b <==> Fits(tab, s, i - mnLookahead)
    {
      ghost var o := i - mnLookahead;
      var j := 0;
      while j < |aLookahead|
        invariant 0 <= j <= |aLookahead|
        invariant forall m :: 0 <= m < j ==>
                    var k := o + s[m].lookahead;
                    0 <= k && (k < |tab| ==> tab[k].lookahead < 0)
      {
        assert aLookahead[j] in aLookahead;
        var k := aLookahead[j].lookahead - mnLookahead + i;
        if aAction[k].lookahead >= 0 { return false; }
        j := j + 1;
      }
      j := 0;
      while j < nAction
        invariant 0 <= j <= nAction
        invariant forall m :: 0 <= m < j ==> tab[m].lookahead != m - o
      {
        if aAction[j].lookahead == j + mnLookahead - i {
          assert tab[j].lookahead == j - o;
          return false;
        }
        j := j + 1;
      }
      return true;
    }

    /** Is every pair of the transaction set in the table at the offset? */
    method HasAll(i: nat, ghost tab: seq<Entry>, ghost s: seq<Entry>) returns (b: bool)
      requires Valid()
      requires tab == Table() && s == aLookahead
      ensures b <==> AllInPlace(tab, s, i - mnLookahead)
    {
      ghost var o := i - mnLookahead;
      var j := 0;
      while j < |aLookahead|
        invariant 0 <= j <= |aLookahead|
        invariant forall m :: 0 <= m < j ==> InPlace(tab, s[m], o)
      {
        var k := aLookahead[j].lookahead - mnLookahead + i;
        if k < 0 || k >= nAction || aLookahead[j].lookahead != aAction[k].lookahead
           || aLookahead[j].action != aAction[k].action {
          assert !InPlace(tab, aLookahead[j], o);
          return false;
        }
        j := j + 1;
      }
      return true;
    }

    /** How many pairs does the row at the offset have? */
    method Count(i: nat, ghost tab: seq<Entry>) returns (n: nat)
      requires Valid() && tab == Table()
      ensures n == |Row(tab, i - mnLookahead)|
    {
      hide WellUsed;
      ghost var o := i - mnLookahead;
      n := 0;
      var j := 0;
      while j < nAction
        invariant 0 <= j <= nAction
        invariant n == |Members(tab, o, j)|
      {
        assert Members(tab, o, j + 1) ==
               Members(tab, o, j) + if tab[j].lookahead >= 0 && tab[j].lookahead == j - o then {j} else {};
        if aAction[j].lookahead >= 0 && aAction[j].lookahead == j + mnLookahead - i { n := n + 1; }
        j := j + 1;
      }
      MembersAreKeys(tab, o);
    }

    /** Is the row at the offset the transaction set? */
    method SameAt(i: nat, ghost tab: seq<Entry>, ghost s: seq<Entry>) returns (b: bool)
      requires Valid()
      requires tab == Table() && s == aLookahead
      ensures b <==> SameSize(tab, s, i - mnLookahead)
    {
      b := HasAll(i, tab, s);
      if b {
        var n := Count(i, tab);
        b := n == |aLookahead|;
      }
    }

    /** Make room for the worst case. */
    method Grow()
      requires Valid() && Pending() && aLookahead != []
      modifies `aAction
      ensures Valid() && Pending() && Table() == old(Table())
      ensures nAction + mxLookahead + 1 < aAction.Length
      ensures aAction == old(aAction) || fresh(aAction)
    {
      assert aLookahead[0] in aLookahead;
      var n := mxLookahead + 1;
      if nAction + n >= aAction.Length {
        var bigger := new Entry[nAction + n + aAction.Length + 20](_ => UNUSED);
        var k := 0;
        while k < aAction.Length
          invariant 0 <= k <= aAction.Length
          invariant forall m :: 0 <= m < k ==> bigger[m] == aAction[m]
          invariant forall m :: k <= m < bigger.Length ==> bigger[m] == UNUSED
          modifies bigger
        {
          bigger[k] := aAction[k];
          k := k + 1;
        }
        aAction := bigger;
        assert Table() == old(Table());
      }
    }

    /** One round of the search of `acttab_insert`. */
    method TryAt(i: nat, ghost tab: seq<Entry>, ghost s: seq<Entry>) returns (b: bool)
      requires Valid() && Pending() && aLookahead != [] && Transaction(aLookahead)
      requires tab == Table() && s == aLookahead
      requires nAction + mxLookahead + 1 < aAction.Length && i < nAction + mnLookahead
      ensures b <==> Takes(tab, s, i - mnLookahead)
    {
      hide WellUsed, Transaction, Fits, SameSize, Takes;
      var e := aAction[i];
      assert e == SlotOf(tab, i - mnLookahead + mnLookahead);
      if e.lookahead < 0 {
        b := FitsAt(i, tab, s);
      } else if e.lookahead == mnLookahead && e.action == mnAction {
        b := SameAt(i, tab, s);
      } else {
        b := false;
      }
      TakesByFirstSlot(tab, s, i - mnLookahead, Entry(mnLookahead, mnAction), b);
    }

    /** The search of `acttab_insert`: the first slot for the least lookahead whose offset takes the set. */
    method Search(ghost tab: seq<Entry>, ghost s: seq<Entry>) returns (i: nat)
      requires Valid() && Pending() && aLookahead != [] && Transaction(aLookahead)
      requires tab == Table() && s == aLookahead
      requires nAction + mxLookahead + 1 < aAction.Length
      ensures i <= nAction + mnLookahead
      ensures FirstTaker(tab, s, -mnLookahead, i - mnLookahead)
    {
      hide Takes, Transaction, WellUsed;
      i := 0;
      assert aLookahead[0] in aLookahead;
      while i < nAction + mnLookahead
        invariant 0 <= i <= nAction + mnLookahead
        invariant NoTaker(tab, s, -mnLookahead, i - mnLookahead)
      {
        var b := TryAt(i, tab, s);
        if b { return; }
        i := i + 1;
      }
      AppendFits(tab, s);
    }

    /** Write one pair of the transaction set. */
    method PlaceEntry(i: nat, j: nat, ghost before: seq<Entry>)
      requires Valid() && Transaction(aLookahead) && j < |aLookahead|
      requires 0 <= aLookahead[j].lookahead - mnLookahead + i < aAction.Length
      requires Placed(before, Table(), aLookahead[..j], i - mnLookahead)
      modifies `nAction, aAction
      ensures Valid()
      ensures Placed(before, Table(), aLookahead[..j+1], i - mnLookahead)
    {
      hide Placed, Transaction;
      ghost var tab := Table();
      var k := aLookahead[j].lookahead - mnLookahead + i;
      aAction[k] := aLookahead[j];
      if k >= nAction { nAction := k + 1; }
      assert Table() == WriteAt(tab, k, aLookahead[j]);
      WriteOne(before, tab, aLookahead, j, i - mnLookahead);
    }

    /** The slots for the transaction set at the offset are inside the allocation. */
    ghost predicate Reaches(i: nat)
      reads this
    {
      forall j :: 0 <= j < |aLookahead| ==> 0 <= aLookahead[j].lookahead - mnLookahead + i < aAction.Length
    }

    lemma ReachesAt(i: nat, j: nat)
      requires Reaches(i) && j < |aLookahead|
      ensures 0 <= aLookahead[j].lookahead - mnLookahead + i < aAction.Length
    {
    }

    /** Write the transaction set with its least lookahead at slot i. */
    method Place(i: nat)
      requires Valid() && Transaction(aLookahead) && Reaches(i)
      modifies `nAction, aAction
      ensures Valid()
      ensures Placed(old(Table()), Table(), aLookahead, i - mnLookahead)
    {
      hide *;
      forall j: nat | j < |aLookahead| ensures 0 <= aLookahead[j].lookahead - mnLookahead + i < aAction.Length { ReachesAt(i, j); }
      ghost var before := Table();
      NothingPlaced(before, aLookahead, i - mnLookahead);
      var j := 0;
      while j < |aLookahead|
        invariant 0 <= j <= |aLookahead|
        invariant Valid()
        invariant Placed(before, Table(), aLookahead[..j], i - mnLookahead)
      {
        PlaceEntry(i, j, before);
        j := j + 1;
      }
      assert aLookahead[..j] == aLookahead;
    }

    /** `acttab_insert`.  The row at the returned offset becomes the transaction set, every other
        row stays as it was, an offset is shared only by equal sets, and the offset is the first
        that takes the set. */
    method Insert() returns (o: int)
      requires Valid() && Pending() && aLookahead != [] && Transaction(aLookahead)
      modifies this, aAction
      ensures Valid() && Pending() && aLookahead == []
      ensures aAction == old(aAction) || fresh(aAction)
      ensures Inserted(old(Table()), old(aLookahead), o, Table())
      ensures FirstTaker(old(Table()), old(aLookahead), -old(mnLookahead), o)
    {
      hide Row, Pairs, Takes, NoTaker, Placed, WellUsed, Transaction;
      Grow();
      ghost var before, s := Table(), aLookahead;
      var i := Search(before, s);
      o := i - mnLookahead;
      Place(i);
      PlacedInserted(before, Table(), s, o);
      aLookahead := [];
    }
  }

  // ------------------------------------------------------------ an offset that is passed over

  /** A table whose one row is (0, a), (3, b) at offset 0. */
  lemma OnlyRow(tab: seq<Entry>, a: int, b: int)
    requires WellUsed(tab) && forall o :: o != 0 ==> Row(tab, o) == map[]
    requires Row(tab, 0) == map[0 := a, 3 := b]
    ensures tab == [Entry(0, a), UNUSED, UNUSED, Entry(3, b)]
  {
    assert 0 in Row(tab, 0) && 3 in Row(tab, 0);
    assert Owns(tab, 0, 0) && Owns(tab, 0, 3);
    forall k: nat | k < |tab| && tab[k].lookahead >= 0 ensures k in {0, 3} {
      var x: nat := tab[k].lookahead;
      assert Owns(tab, k - x, x);
      assert x in Row(tab, k - x);
    }
  }

  /** The row (0, c), (2, d) has room there at offset 2, behind an unused slot, and goes to offset 4. */
  lemma PassesOverTwo(tab: seq<Entry>, a: int, b: int, s: seq<Entry>, c: int, d: int)
    requires tab == [Entry(0, a), UNUSED, UNUSED, Entry(3, b)] && s == [Entry(0, c), Entry(2, d)]
    ensures Transaction(s) && Room(tab, s, 2) && !Takes(tab, s, 2) && FirstTaker(tab, s, 0, 4)
    ensures forall o :: FirstTaker(tab, s, 0, o) ==> o == 4
  {
    EmptyRow(tab, 2);
    AppendFits(tab, s);
    forall o | 0 <= o < 4 ensures !Takes(tab, s, o) {
      NoEntryNoRow(tab, s, o, s[1]);
      if o == 0 || o == 3 { FirstSlotUsed(tab, s, o, s[0]); }
      if o == 1 { FirstSlotUsed(tab, s, o, s[1]); }
      if o == 2 { assert tab[1].lookahead == 1 - o; }
    }
    hide Takes, Room;
    forall o | FirstTaker(tab, s, 0, o) ensures o == 4 {}
  }

  /** Insert the row (0, a), (x, b). */
  method InsertTwo(t: Acttab, a: int, x: nat, b: int) returns (o: int)
    requires t.Valid() && t.Pending() && t.aLookahead == [] && x > 0
    modifies t, t.aAction
    ensures t.Valid() && t.Pending() && t.aLookahead == [] && (t.aAction == old(t.aAction) || fresh(t.aAction))
    ensures var s := [Entry(0, a), Entry(x, b)];
      Transaction(s) && Inserted(old(t.Table()), s, o, t.Table()) && FirstTaker(old(t.Table()), s, 0, o) && WellUsed(t.Table())
  {
    hide Row, Pairs, Takes, NoTaker, Inserted, FirstTaker;
    t.Action(0, a);
    t.Action(x, b);
    assert t.aLookahead == [Entry(0, a), Entry(x, b)];
    assert t.aLookahead[0] in t.aLookahead;
    o := t.Insert();
  }

  /** Such insertions: the second row is put behind the first although there is room for it at 2. */
  method PassesOver(a: int, b: int, c: int, d: int) returns (first: int, second: int)
    ensures first == 0 && second == 4
  {
    hide *;
    var t := new Acttab();
    first := InsertTwo(t, a, 3, b);
    FirstRow([], [Entry(0, a), Entry(3, b)], first, t.Table(), a, b);
    PassesOverTwo(t.Table(), a, b, [Entry(0, c), Entry(2, d)], c, d);
    second := InsertTwo(t, c, 2, d);
  }

  lemma FirstGoesFirst(s: seq<Entry>, a: int, b: int)
    requires s == [Entry(0, a), Entry(3, b)]
    ensures Transaction(s) && Takes([], s, 0) && Pairs(s) == map[0 := a, 3 := b]
  {
    assert s[..1] == [Entry(0, a)] && s[..1][..0] == [];
    assert Pairs(s[..1]) == map[0 := a];
  }

  lemma FirstRow(before: seq<Entry>, s: seq<Entry>, o: int, tab: seq<Entry>, a: int, b: int)
    requires before == [] && s == [Entry(0, a), Entry(3, b)] && Transaction(s)
    requires FirstTaker(before, s, 0, o) && Inserted(before, s, o, tab) && WellUsed(tab)
    ensures o == 0 && tab == [Entry(0, a), UNUSED, UNUSED, Entry(3, b)]
  {
    FirstGoesFirst(s, a, b);
    forall o' | o' != 0 ensures Row(tab, o') == map[] { assert Row(tab, o') == Row(before, o') == map[]; }
    OnlyRow(tab, a, b);
  }
}
