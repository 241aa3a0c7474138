/** What the operations of a RAID-5 write do to the contents of the disks: whatever they are, if the
    parity of every row was right, it is right again afterwards. */
module Raid5Writes {
  import opened Raid5

  /** The blocks of a row that a part writes, as differences from what was there. */
  ghost function Delta(l: Layout, c: Place -> bv8, data: nat -> bv8, p: Part, coff: nat): nat -> bv8
    requires l.Valid()
  {
    (k: nat) => if p.begin <= l.BlockAt(p.stripe, k, coff) < p.end
         then c(l.PlaceOf(l.BlockAt(p.stripe, k, coff))) ^ data(l.BlockAt(p.stripe, k, coff)) else 0
  }

  /** The new parity of a row: from the old one and the differences, or from the blocks. */
  ghost function NewParity(l: Layout, c: Place -> bv8, data: nat -> bv8, p: Part, coff: nat): bv8
    requires l.Valid() && p.begin <= p.end
  {
    if Subtractive(l, p.begin, p.end) then c(ParityPlace(l, p.stripe, coff)) ^ Xor(Delta(l, c, data, p, coff), l.numDisks - 1)
    else Xor(NewData(l, c, data, p.begin, p.end, p.stripe, coff), l.numDisks - 1)
  }

  ghost function DataFor(l: Layout, data: nat -> bv8, q: Place): bv8
    requires l.Valid()
  {
    if b: nat :| l.PlaceOf(b) == q then data(b) else 0
  }

  /** What a part writes at a place that it writes. */
  ghost function Stored(l: Layout, c: Place -> bv8, data: nat -> bv8, p: Part, q: Place): bv8
    requires l.Valid() && p.begin <= p.end
  {
    if q.disk == l.ParityDisk(p.stripe) then NewParity(l, c, data, p, q.off % l.chunkSize) else DataFor(l, data, q)
  }

  /** The contents after the operations, the values of the writes being v. */
  ghost function Executed(s: seq<Io>, v: Place -> bv8, c: Place -> bv8): Place -> bv8 {
    if s == [] then c
    else
      var x, before := s[|s|-1], Executed(s[..|s|-1], v, c);
      if x.isWrite then (q: Place) => if q == x.place then v(q) else before(q) else before
  }

  lemma {:induction false} ExecutedIs(s: seq<Io>, v: Place -> bv8, c: Place -> bv8, q: Place)
    ensures Executed(s, v, c)(q) == if Io(true, q) in s then v(q) else c(q)
  {
    if s != [] {
      var n := |s| - 1;
      ExecutedIs(s[..n], v, c, q);
      assert s == s[..n] + [s[n]];
    }
  }

  /** The contents c' after a partial write on the contents c. */
  ghost predicate PartExecuted(l: Layout, s: seq<Io>, p: Part, data: nat -> bv8, c: Place -> bv8, c': Place -> bv8)
    requires l.Valid() && p.begin <= p.end
  {
    forall q: Place :: c'(q) == Executed(s, (x: Place) => Stored(l, c, data, p, x), c)(q)
  }

  /** The contents after the partial writes, one after the other. */
  ghost predicate Executes(l: Layout, s: seq<Io>, parts: seq<Part>, data: nat -> bv8, c: Place -> bv8, c': Place -> bv8)
    requires l.Valid()
    decreases |parts|
  {
    if parts == [] then s == [] && forall q: Place :: c'(q) == c(q)
    else exists n: nat, m: Place -> bv8 :: n <= |s| && Executes(l, s[..n], Front(parts), data, c, m)
           && LastExecuted(l, s[n..], Back(parts), data, m, c')
  }

  ghost function Front(parts: seq<Part>): seq<Part>
    requires parts != []
  {
    parts[..|parts|-1]
  }

  ghost function Back(parts: seq<Part>): Part
    requires parts != []
  {
    parts[|parts|-1]
  }

  ghost predicate LastExecuted(l: Layout, s: seq<Io>, p: Part, data: nat -> bv8, c: Place -> bv8, c': Place -> bv8)
    requires l.Valid()
  {
    PartialWrite(l, s, p) && PartExecuted(l, s, p, data, c, c')
  }

  ghost predicate AllParityOK(l: Layout, c: Place -> bv8)
    requires l.Valid()
  {
    forall stripe: nat, coff: nat :: coff < l.chunkSize ==> ParityOK(l, c, stripe, coff)
  }

  // ------------------------------------------------------------ one partial write

  /** Exactly the places that are to be written get new contents. */
  lemma PartWrites(l: Layout, s: seq<Io>, p: Part, data: nat -> bv8, c: Place -> bv8, c': Place -> bv8, q: Place)
    requires l.Valid() && PartialWrite(l, s, p) && PartExecuted(l, s, p, data, c, c')
    ensures c'(q) == if WritesPlace(l, p.stripe, p.begin, p.end, q) then Stored(l, c, data, p, q) else c(q)
  {
    var v := (x: Place) => Stored(l, c, data, p, x);
    assert c'(q) == Executed(s, v, c)(q);
    ExecutedIs(s, v, c, q);
    hide PartExecuted, PartialWrite, WritesPlace, Stored, Executed;
    WritesIn(l, s, p, q);
  }

  lemma WritesIn(l: Layout, s: seq<Io>, p: Part, q: Place)
    requires l.Valid() && PartialWrite(l, s, p)
    ensures Io(true, q) in s <==> WritesPlace(l, p.stripe, p.begin, p.end, q)
  {
    var k: nat :| k <= |s| && ReadsFor(l, s[..k], p) && WritesFor(l, s[k..], p);
    hide *;
    ReadsThenWrites(l, s[..k], s[k..], p, q);
    assert s == s[..k] + s[k..];
  }

  lemma ReadsThenWrites(l: Layout, r: seq<Io>, w: seq<Io>, p: Part, q: Place)
    requires l.Valid() && p.begin <= p.end && ReadsFor(l, r, p) && WritesFor(l, w, p)
    ensures Io(true, q) in r + w <==> WritesPlace(l, p.stripe, p.begin, p.end, q)
  {
    hide NoRepeat, WritesPlace, ReadsPlace, Layout.Valid;
    var x := Io(true, q);
    assert x in r + w <==> x in r || x in w;
  }

  /** Everything that a part writes lies in the rows of its stripe. */
  lemma WrittenInStripe(l: Layout, p: Part, q: Place) returns (k: nat, coff: nat)
    requires l.Valid() && Within(l, p.stripe, p.begin, p.end) && WritesPlace(l, p.stripe, p.begin, p.end, q)
    ensures k < l.numDisks - 1 && coff < l.chunkSize && q.off == l.OffsetAt(p.stripe, coff)
    ensures p.begin <= l.BlockAt(p.stripe, k, coff) < p.end
  {
    var b: nat :| p.begin <= b < p.end && q.off == l.PlaceOf(b).off;
    l.StripeOf(b, p.stripe);
    var s;
    s, k, coff := l.BlockHas(b);
    l.PlaceIs(s, k, coff);
  }

  lemma SameRow(l: Layout, s: nat, coff: nat, s': nat, coff': nat)
    requires l.Valid() && coff < l.chunkSize && coff' < l.chunkSize && l.OffsetAt(s, coff) == l.OffsetAt(s', coff')
    ensures s == s' && coff == coff' && l.OffsetAt(s, coff) % l.chunkSize == coff
  {
    QuotientsEqual(s, coff, s', coff', l.chunkSize);
    DivisionUnique(s, coff, l.chunkSize);
  }

  /** The blocks of the part get their data, and no other block changes. */
  lemma BlockAfter(l: Layout, s: seq<Io>, p: Part, data: nat -> bv8, c: Place -> bv8, c': Place -> bv8, b: nat)
    requires l.Valid() && Within(l, p.stripe, p.begin, p.end) && PartialWrite(l, s, p) && PartExecuted(l, s, p, data, c, c')
    ensures c'(l.PlaceOf(b)) == if p.begin <= b < p.end then data(b) else c(l.PlaceOf(b))
  {
    var q := l.PlaceOf(b);
    PartWrites(l, s, p, data, c, c', q);
    hide PartialWrite, PartExecuted;
    if p.begin <= b < p.end {
      WritesIt(l, p, b);
      BlockNotParity(l, p.stripe, p.begin, p.end, q);
      DataIs(l, data, b);
    } else {
      NotWritten(l, p, b);
    }
  }

  lemma WritesIt(l: Layout, p: Part, b: nat)
    requires l.Valid() && p.begin <= b < p.end
    ensures WritesPlace(l, p.stripe, p.begin, p.end, l.PlaceOf(b)) && WritesBlock(l, p.begin, p.end, l.PlaceOf(b))
  {
  }

  lemma DataIs(l: Layout, data: nat -> bv8, b: nat)
    requires l.Valid()
    ensures DataFor(l, data, l.PlaceOf(b)) == data(b)
  {
    hide Layout.PlaceOf;
    forall b': nat | l.PlaceOf(b') == l.PlaceOf(b) ensures b' == b { l.PlacesDiffer(b', b); }
  }

  lemma NotWritten(l: Layout, p: Part, b: nat)
    requires l.Valid() && Within(l, p.stripe, p.begin, p.end) && !(p.begin <= b < p.end)
    ensures !WritesPlace(l, p.stripe, p.begin, p.end, l.PlaceOf(b))
  {
    var q := l.PlaceOf(b);
    var s, k, coff := l.BlockHas(b);
    l.PlaceIs(s, k, coff);
    if WritesPlace(l, p.stripe, p.begin, p.end, q) {
      var k', coff' := WrittenInStripe(l, p, q);
      SameRow(l, s, coff, p.stripe, coff');
      NotOnIt(l, p, b, q);
      assert false;
    }
  }

  lemma NotOnIt(l: Layout, p: Part, b: nat, q: Place)
    requires l.Valid() && Within(l, p.stripe, p.begin, p.end) && q == l.PlaceOf(b) && l.Split(b).0 == p.stripe && !(p.begin <= b < p.end)
    ensures !WritesPlace(l, p.stripe, p.begin, p.end, q)
  {
    var s, k, coff := l.BlockHas(b);
    l.PlaceIs(s, k, coff);
    forall b': nat | p.begin <= b' < p.end ensures q != l.PlaceOf(b') {
      if q == l.PlaceOf(b') { l.PlacesDiffer(b, b'); }
    }
  }

  /** What is stored as parity is the parity of the new row. */
  lemma NewParityIs(l: Layout, c: Place -> bv8, data: nat -> bv8, p: Part, coff: nat)
    requires l.Valid() && p.begin <= p.end && ParityOK(l, c, p.stripe, coff)
    ensures NewParity(l, c, data, p, coff) == Xor(NewData(l, c, data, p.begin, p.end, p.stripe, coff), l.numDisks - 1)
  {
    if Subtractive(l, p.begin, p.end) {
      var f, h, d := RowData(l, c, p.stripe, coff), NewData(l, c, data, p.begin, p.end, p.stripe, coff), Delta(l, c, data, p, coff);
      forall k: nat | k < l.numDisks - 1 ensures d(k) == f(k) ^ h(k) { XorSelf(f(k)); }
      XorDelta(f, h, d, l.numDisks - 1);
    }
  }

  /** A row after a part is the row with the new data. */
  lemma RowAfter(l: Layout, s: seq<Io>, p: Part, data: nat -> bv8, c: Place -> bv8, c': Place -> bv8, stripe: nat, coff: nat)
    requires l.Valid() && Within(l, p.stripe, p.begin, p.end) && PartialWrite(l, s, p) && PartExecuted(l, s, p, data, c, c')
    ensures Xor(RowData(l, c', stripe, coff), l.numDisks - 1)
            == Xor(NewData(l, c, data, p.begin, p.end, stripe, coff), l.numDisks - 1)
  {
    var f, h := RowData(l, c', stripe, coff), NewData(l, c, data, p.begin, p.end, stripe, coff);
    hide PartialWrite, PartExecuted, Within, Layout.PlaceOf, Layout.BlockAt;
    forall k: nat | k < l.numDisks - 1 ensures f(k) == h(k) { BlockAfter(l, s, p, data, c, c', l.BlockAt(stripe, k, coff)); }
    XorSame(f, h, l.numDisks - 1);
  }

  lemma ParityWritten(l: Layout, p: Part, coff: nat)
    requires l.Valid() && Touched(l, p.begin, p.end, p.stripe, coff) && coff < l.chunkSize
    ensures WritesPlace(l, p.stripe, p.begin, p.end, ParityPlace(l, p.stripe, coff))
    ensures ParityPlace(l, p.stripe, coff).off % l.chunkSize == coff
  {
    var k: nat :| k < l.numDisks - 1 && p.begin <= l.BlockAt(p.stripe, k, coff) < p.end;
    l.PlaceIs(p.stripe, k, coff);
    DivisionUnique(p.stripe, coff, l.chunkSize);
  }

  lemma ParityNotWritten(l: Layout, p: Part, stripe: nat, coff: nat)
    requires l.Valid() && Within(l, p.stripe, p.begin, p.end) && coff < l.chunkSize
    requires stripe != p.stripe || !Touched(l, p.begin, p.end, stripe, coff)
    ensures !WritesPlace(l, p.stripe, p.begin, p.end, ParityPlace(l, stripe, coff))
  {
    var q := ParityPlace(l, stripe, coff);
    hide Within;
    if WritesPlace(l, p.stripe, p.begin, p.end, q) {
      var k, coff' := WrittenInStripe(l, p, q);
      SameRow(l, stripe, coff, p.stripe, coff');
      assert false;
    }
  }

  lemma OtherStripe(l: Layout, p: Part, stripe: nat, k: nat, coff: nat)
    requires l.Valid() && Within(l, p.stripe, p.begin, p.end) && k < l.numDisks - 1 && coff < l.chunkSize
    requires p.begin <= l.BlockAt(stripe, k, coff) < p.end
    ensures stripe == p.stripe
  {
    l.StripeOf(l.BlockAt(stripe, k, coff), p.stripe);
    l.SplitIs(stripe, k, coff);
  }

  /** A partial write on good parity leaves good parity. */
  lemma PartKeepsParity(l: Layout, s: seq<Io>, p: Part, data: nat -> bv8, c: Place -> bv8, c': Place -> bv8, stripe: nat, coff: nat)
    requires l.Valid() && Within(l, p.stripe, p.begin, p.end) && PartialWrite(l, s, p) && PartExecuted(l, s, p, data, c, c')
    requires coff < l.chunkSize && ParityOK(l, c, stripe, coff)
    ensures ParityOK(l, c', stripe, coff)
  {
    RowAfter(l, s, p, data, c, c', stripe, coff);
    PartWrites(l, s, p, data, c, c', ParityPlace(l, stripe, coff));
    hide PartialWrite, PartExecuted;
    if stripe == p.stripe && Touched(l, p.begin, p.end, stripe, coff) {
      ParityWritten(l, p, coff);
      NewParityIs(l, c, data, p, coff);
    } else {
      ParityNotWritten(l, p, stripe, coff);
      var f, h := RowData(l, c, stripe, coff), NewData(l, c, data, p.begin, p.end, stripe, coff);
      forall k: nat | k < l.numDisks - 1 ensures f(k) == h(k) {
        if p.begin <= l.BlockAt(stripe, k, coff) < p.end { OtherStripe(l, p, stripe, k, coff); }
      }
      XorSame(f, h, l.numDisks - 1);
    }
  }

  // ------------------------------------------------------------ what is stored comes from what is read

  /** The values that a part writes depend on nothing but the new data and the places it reads. */
  lemma StoredFromReads(l: Layout, c1: Place -> bv8, c2: Place -> bv8, data: nat -> bv8, p: Part, q: Place)
    requires l.Valid() && Within(l, p.stripe, p.begin, p.end) && WritesPlace(l, p.stripe, p.begin, p.end, q)
    requires forall x :: ReadsPlace(l, p.stripe, p.begin, p.end, x) ==> c1(x) == c2(x)
    ensures Stored(l, c1, data, p, q) == Stored(l, c2, data, p, q)
  {
    if q.disk == l.ParityDisk(p.stripe) {
      var k, coff := WrittenInStripe(l, p, q);
      SameRow(l, p.stripe, coff, p.stripe, coff);
      assert Touched(l, p.begin, p.end, p.stripe, coff);
      if Subtractive(l, p.begin, p.end) {
        ParityIsRead(l, p.stripe, p.begin, p.end, coff);
        DeltaFromReads(l, c1, c2, data, p, coff);
      } else {
        AdditiveParity(l, c1, c2, data, p.stripe, p.begin, p.end, coff);
      }
    }
  }

  lemma DeltaFromReads(l: Layout, c1: Place -> bv8, c2: Place -> bv8, data: nat -> bv8, p: Part, coff: nat)
    requires l.Valid() && p.begin <= p.end && Subtractive(l, p.begin, p.end)
    requires forall x :: ReadsPlace(l, p.stripe, p.begin, p.end, x) ==> c1(x) == c2(x)
    ensures Xor(Delta(l, c1, data, p, coff), l.numDisks - 1) == Xor(Delta(l, c2, data, p, coff), l.numDisks - 1)
  {
    var d1, d2 := Delta(l, c1, data, p, coff), Delta(l, c2, data, p, coff);
    forall k: nat | k < l.numDisks - 1 ensures d1(k) == d2(k) {
      var b := l.BlockAt(p.stripe, k, coff);
      if p.begin <= b < p.end { assert ReadsPlace(l, p.stripe, p.begin, p.end, l.PlaceOf(b)); }
    }
    XorSame(d1, d2, l.numDisks - 1);
  }

  // ------------------------------------------------------------ a whole write

  ghost predicate Data(l: Layout, data: nat -> bv8, from: nat, to: nat, c: Place -> bv8, c': Place -> bv8)
    requires l.Valid()
  {
    forall b: nat :: c'(l.PlaceOf(b)) == if from <= b < to then data(b) else c(l.PlaceOf(b))
  }

  /** The operations of a write of the blocks from `from` to `to`, executed on disks whose parity is right,
      store the data in exactly these blocks and leave the parity of every row right. */
  lemma {:induction false} WriteKeepsParity(l: Layout, s: seq<Io>, parts: seq<Part>, from: nat, to: nat, data: nat -> bv8,
                                            c: Place -> bv8, c': Place -> bv8)
    requires l.Valid() && Tile(l, parts, from, to) && Executes(l, s, parts, data, c, c') && AllParityOK(l, c)
    ensures AllParityOK(l, c') && Data(l, data, from, to, c, c')
    decreases |parts|
  {
    if parts == [] {
      SameContents(l, c, c');
    } else {
      hide AllParityOK, Data, LastExecuted, Within;
      var n: nat, m: Place -> bv8 :| n <= |s| && Executes(l, s[..n], Front(parts), data, c, m)
                                     && LastExecuted(l, s[n..], Back(parts), data, m, c');
      var p := Back(parts);
      TileOrder(l, Front(parts), from, p.begin);
      WriteKeepsParity(l, s[..n], Front(parts), from, p.begin, data, c, m);
      LastPart(l, s[n..], p, from, data, c, m, c');
    }
  }

  lemma SameContents(l: Layout, c: Place -> bv8, c': Place -> bv8)
    requires l.Valid() && AllParityOK(l, c) && forall q: Place :: c'(q) == c(q)
    ensures AllParityOK(l, c')
  {
    forall stripe: nat, coff: nat | coff < l.chunkSize ensures ParityOK(l, c', stripe, coff) {
      assert ParityOK(l, c, stripe, coff);
      hide Layout.PlaceOf, Layout.BlockAt, Xor, ParityPlace;
      var f, h := RowData(l, c, stripe, coff), RowData(l, c', stripe, coff);
      forall k: nat ensures f(k) == h(k) { assert c'(l.PlaceOf(l.BlockAt(stripe, k, coff))) == h(k); }
      XorSame(f, h, l.numDisks - 1);
    }
  }

  lemma LastPart(l: Layout, s: seq<Io>, p: Part, from: nat, data: nat -> bv8, c: Place -> bv8, m: Place -> bv8, c': Place -> bv8)
    requires l.Valid() && Within(l, p.stripe, p.begin, p.end) && LastExecuted(l, s, p, data, m, c') && from <= p.begin
    requires AllParityOK(l, m) && Data(l, data, from, p.begin, c, m)
    ensures AllParityOK(l, c') && Data(l, data, from, p.end, c, c')
  {
    hide ParityOK, PartialWrite, PartExecuted, Layout.PlaceOf;
    forall stripe: nat, coff: nat | coff < l.chunkSize ensures ParityOK(l, c', stripe, coff) {
      PartKeepsParity(l, s, p, data, m, c', stripe, coff);
    }
    forall b: nat ensures c'(l.PlaceOf(b)) == if from <= b < p.end then data(b) else c(l.PlaceOf(b)) {
      BlockAfter(l, s, p, data, m, c', b);
    }
  }

  /** Operations as `EnqueueWrite` makes them can be executed on every contents. */
  lemma {:induction false} CanExecute(l: Layout, s: seq<Io>, parts: seq<Part>, data: nat -> bv8, c: Place -> bv8) returns (c': Place -> bv8)
    requires l.Valid() && Performs(l, s, parts)
    ensures Executes(l, s, parts, data, c, c')
    decreases |parts|
  {
    if parts == [] {
      c' := c;
    } else {
      var n: nat :| n <= |s| && Performs(l, s[..n], parts[..|parts|-1]) && PartialWrite(l, s[n..], parts[|parts|-1]);
      var m := CanExecute(l, s[..n], Front(parts), data, c);
      var p := Back(parts);
      var v := (x: Place) => Stored(l, m, data, p, x);
      c' := Executed(s[n..], v, m);
      assert LastExecuted(l, s[n..], p, data, m, c');
    }
  }
}
