/** The left-symmetric RAID-5 layout and the parity writes of `ostep16-raid.py`. */
module Raid5 {

  // ------------------------------------------------------------ division

  lemma DivisionUnique(q: nat, r: nat, m: nat)
    requires r < m
    ensures (q * m + r) / m == q && (q * m + r) % m == r
  {
    var x := q * m + r;
    assert x == x / m * m + x % m;
    QuotientsEqual(q, r, x / m, x % m, m);
  }

  lemma QuotientsEqual(q: nat, r: nat, q': nat, r': nat, m: nat)
    requires r < m && r' < m && q * m + r == q' * m + r'
    ensures q == q' && r == r'
  {
    if q < q' { NextMultiple(q, q', m); }
    if q' < q { NextMultiple(q', q, m); }
  }

  lemma NextMultiple(a: nat, b: nat, m: nat)
    requires a < b
    ensures a * m + m <= b * m
  {
    var d := b - a - 1;
    assert b * m == (a + 1 + d) * m == a * m + m + d * m;
  }

  lemma Division(x: nat, m: nat)
    requires m > 0
    ensures x == x / m * m + x % m && x % m < m
  {
  }

  lemma Remainder(x: nat, m: nat)
    requires m > 0
    ensures x % m < m
  {
  }

  lemma MinusIs(a: nat, b: nat, d: nat)
    requires a < d && b < d
    ensures (a - b) % d == Minus(a, b, d)
  {
    var x := a - b;
    if a >= b {
      DivisionUnique(0, x, d);
      assert 0 * d + x == x;
    } else {
      NegativeRemainder(x, d);
    }
  }

  lemma NegativeRemainder(x: int, d: nat)
    requires 0 - d < x < 0
    ensures x % d == x + d
  {
    var q, r := x / d, x % d;
    assert x == q * d + r && 0 <= r < d;
    assert q >= 0 ==> q * d >= 0;
    if q <= -2 { TwoLess(q, d); }
    assert q == -1;
  }

  lemma TwoLess(q: int, d: nat)
    requires q <= -2
    ensures q * d <= -2 * d
  {
  }

  /** Python's remainder of a difference: the one number below d that is congruent to it. */
  function Minus(a: nat, b: nat, d: nat): nat
    requires a < d && b < d
  {
    if a >= b then a - b else a + d - b
  }

  // ------------------------------------------------------------ the layout

  datatype Place = Place(disk: nat, off: nat)

  datatype Layout = Layout(numDisks: nat, chunkSize: nat) {
    ghost predicate Valid() {
      numDisks >= 2 && chunkSize >= 1
    }

    /** `blocksInStripe` */
    function BlocksInStripe(): nat
      requires Valid()
    {
      (numDisks - 1) * chunkSize
    }

    /** Stripe, position in the stripe and row of a block. */
    function Split(bnum: nat): (nat, nat, nat)
      requires Valid()
    {
      var cnum := bnum / chunkSize;
      (cnum / (numDisks - 1), cnum % (numDisks - 1), bnum % chunkSize)
    }

    /** `__bmap5` for the layout LS: the disk, the parity disk and the offset of a block. */
    function Map(bnum: nat): (int, int, int)
      requires Valid()
    {
      var (ddsk, disk, coff) := Split(bnum);
      var doff := ddsk * chunkSize + coff;
      var col := ddsk % numDisks;
      var pdsk := (numDisks - 1) - col;
      ((disk - col) % numDisks, pdsk, doff)
    }

    /** The block in position k of row `coff` of a stripe. */
    function BlockAt(stripe: nat, k: nat, coff: nat): nat
      requires Valid()
    {
      (stripe * (numDisks - 1) + k) * chunkSize + coff
    }

    /** The offset of row `coff` of a stripe. */
    function OffsetAt(stripe: nat, coff: nat): nat {
      stripe * chunkSize + coff
    }

    /** The parity disk of a stripe. */
    function ParityDisk(stripe: nat): nat
      requires Valid()
    {
      (numDisks - 1) - stripe % numDisks
    }

    function DataDisk(stripe: nat, k: nat): nat
      requires Valid() && k < numDisks - 1
    {
      Minus(k, stripe % numDisks, numDisks)
    }

    lemma SplitIs(stripe: nat, k: nat, coff: nat)
      requires Valid() && k < numDisks - 1 && coff < chunkSize
      ensures Split(BlockAt(stripe, k, coff)) == (stripe, k, coff)
    {
      DivisionUnique(stripe * (numDisks - 1) + k, coff, chunkSize);
      DivisionUnique(stripe, k, numDisks - 1);
    }

    /** Where a block goes. */
    lemma MapIs(stripe: nat, k: nat, coff: nat)
      requires Valid() && k < numDisks - 1 && coff < chunkSize
      ensures Map(BlockAt(stripe, k, coff)) == (DataDisk(stripe, k), ParityDisk(stripe), OffsetAt(stripe, coff))
    {
      SplitIs(stripe, k, coff);
      hide BlockAt, Split;
      Remainder(stripe, numDisks);
      MinusIs(k, stripe % numDisks, numDisks);
    }

    /** Left-symmetric: consecutive chunks go round the disks, row by row. */
    lemma RoundTheDisks(bnum: nat)
      requires Valid()
      ensures PlaceOf(bnum).disk == (bnum / chunkSize) % numDisks
      ensures PlaceOf(bnum).off / chunkSize == bnum / chunkSize / (numDisks - 1)
      ensures PlaceOf(bnum).off % chunkSize == bnum % chunkSize
    {
      var stripe, k, coff := BlockHas(bnum);
      PlaceIs(stripe, k, coff);
      DivisionUnique(stripe, coff, chunkSize);
      DivisionUnique(stripe * (numDisks - 1) + k, coff, chunkSize);
      DivisionUnique(stripe, k, numDisks - 1);
      Remainder(stripe, numDisks);
      ChunkRound(stripe, k, numDisks);
    }

    /** The parity of the first stripe is on the last disk, and that of each stripe one disk below that
        of the one before, or on the last disk again. */
    lemma ParityGoesDown(stripe: nat)
      requires Valid()
      ensures ParityDisk(0) == numDisks - 1
      ensures ParityDisk(stripe + 1) == if ParityDisk(stripe) == 0 then numDisks - 1 else ParityDisk(stripe) - 1
    {
      Division(stripe, numDisks);
      var q, r := stripe / numDisks, stripe % numDisks;
      if r + 1 < numDisks {
        DivisionUnique(q, r + 1, numDisks);
      } else {
        assert stripe + 1 == (q + 1) * numDisks + 0;
        DivisionUnique(q + 1, 0, numDisks);
      }
      DivisionUnique(0, 0, numDisks);
    }

    /** Every block has such a position. */
    lemma BlockHas(bnum: nat) returns (stripe: nat, k: nat, coff: nat)
      requires Valid()
      ensures k < numDisks - 1 && coff < chunkSize && bnum == BlockAt(stripe, k, coff)
      ensures Split(bnum) == (stripe, k, coff)
    {
      Division(bnum, chunkSize);
      Division(bnum / chunkSize, numDisks - 1);
      stripe, k, coff := bnum / chunkSize / (numDisks - 1), bnum / chunkSize % (numDisks - 1), bnum % chunkSize;
    }

    function PlaceOf(bnum: nat): Place
      requires Valid()
    {
      var (disk, pdsk, doff) := Map(bnum);
      if disk < 0 || doff < 0 then Place(0, 0) else Place(disk, doff)
    }

    lemma OnADisk(bnum: nat)
      requires Valid()
      ensures PlaceOf(bnum).disk < numDisks
    {
      var s, k, c := BlockHas(bnum);
      PlaceIs(s, k, c);
    }

    lemma PlaceIs(stripe: nat, k: nat, coff: nat)
      requires Valid() && k < numDisks - 1 && coff < chunkSize
      ensures PlaceOf(BlockAt(stripe, k, coff)) == Place(DataDisk(stripe, k), OffsetAt(stripe, coff))
    {
      MapIs(stripe, k, coff);
    }

    /** The source's assertion: no block is put on the parity disk of its stripe. */
    lemma NeverOnParity(bnum: nat)
      requires Valid()
      ensures Map(bnum).0 != Map(bnum).1
    {
      var stripe, k, coff := BlockHas(bnum);
      MapIs(stripe, k, coff);
    }

    /** Different blocks have different places. */
    lemma PlacesDiffer(a: nat, b: nat)
      requires Valid() && PlaceOf(a) == PlaceOf(b)
      ensures a == b
    {
      var s, k, c := BlockHas(a);
      var s', k', c' := BlockHas(b);
      PlaceIs(s, k, c);
      PlaceIs(s', k', c');
      QuotientsEqual(s, c, s', c', chunkSize);
    }

    /** Every block lies on the disks, and every place there holds the parity of its stripe, or
        exactly one block. */
    lemma PlaceHolds(p: Place) returns (bnum: nat)
      requires Valid() && p.disk < numDisks
      ensures forall b: nat :: PlaceOf(b).disk < numDisks
      ensures p.disk == ParityDisk(p.off / chunkSize) ==> forall b: nat :: PlaceOf(b) != p
      ensures p.disk != ParityDisk(p.off / chunkSize) ==>
                PlaceOf(bnum) == p && forall b: nat :: PlaceOf(b) == p ==> b == bnum
    {
      var s, c := p.off / chunkSize, p.off % chunkSize;
      Division(p.off, chunkSize);
      bnum := 0;
      forall b: nat ensures PlaceOf(b).disk < numDisks { OnADisk(b); }
      if p.disk == ParityDisk(s) {
        forall b: nat ensures PlaceOf(b) != p { NotParity(b, p); }
      } else {
        var col := s % numDisks;
        var k := if p.disk + col < numDisks then p.disk + col else p.disk + col - numDisks;
        bnum := BlockAt(s, k, c);
        PlaceIs(s, k, c);
        forall b: nat | PlaceOf(b) == p ensures b == bnum { PlacesDiffer(b, bnum); }
      }
    }

    lemma NotParity(b: nat, p: Place)
      requires Valid() && p.disk == ParityDisk(p.off / chunkSize)
      ensures PlaceOf(b) != p
    {
      var s, k, c := BlockHas(b);
      PlaceIs(s, k, c);
      DivisionUnique(s, c, chunkSize);
    }

    // ---------------------------------------------------------- stripes

    /** The blocks of a stripe are those between two multiples of the stripe size. */
    lemma StripeOf(bnum: nat, stripe: nat)
      requires Valid() && stripe * BlocksInStripe() <= bnum < stripe * BlocksInStripe() + BlocksInStripe()
      ensures Split(bnum).0 == stripe
    {
      var s, k, c := BlockHas(bnum);
      var n, m := numDisks - 1, chunkSize;
      assert bnum == s * (n * m) + (k * m + c) by { Regroup(s, n, k, m, c); }
      assert k * m + c < n * m by { NextMultiple(k, n, m); }
      var r := bnum - stripe * (n * m);
      QuotientsEqual(s, k * m + c, stripe, r, n * m);
    }

    lemma BlockInside(stripe: nat, k: nat, coff: nat)
      requires Valid() && k < numDisks - 1 && coff < chunkSize
      ensures stripe * BlocksInStripe() <= BlockAt(stripe, k, coff) < stripe * BlocksInStripe() + BlocksInStripe()
    {
      Regroup(stripe, numDisks - 1, k, chunkSize, coff);
      NextMultiple(k, numDisks - 1, chunkSize);
    }

    /** `pmap5`: the parity disk of a stripe. */
    lemma StripeParity(stripe: nat)
      requires Valid()
      ensures Map(stripe * BlocksInStripe()).1 == ParityDisk(stripe)
    {
      Regroup(stripe, numDisks - 1, 0, chunkSize, 0);
      MapIs(stripe, 0, 0);
    }
  }

  /** The number of the chunk, k chunks into a stripe of n disks, and its disk. */
  lemma ChunkRound(stripe: nat, k: nat, n: nat)
    requires n >= 2 && k < n - 1
    ensures stripe % n < n && (stripe * (n - 1) + k) % n == Minus(k, stripe % n, n)
  {
    Division(stripe, n);
    var q, col := stripe / n, stripe % n;
    NoMore(q, n);
    hide *;
    var m: int := if k >= col then stripe - q else stripe - q - 1;
    var r: int := if k >= col then k - col else k + n - col;
    LessOne(stripe, q, n);
    MinusIsRest(k, col, n, r);
    DivisionUnique(m, r, n);
  }

  lemma MinusIsRest(k: nat, col: nat, n: nat, r: int)
    requires k < n && col < n && r == if k >= col then k - col else k + n - col
    ensures Minus(k, col, n) == r
  {
  }

  lemma LessOne(s: nat, q: nat, n: nat)
    requires n >= 2
    ensures s * (n - 1) == s * n - s && (s - q) * n == s * n - q * n && (s - q - 1) * n == s * n - q * n - n
  {
  }

  lemma NoMore(q: nat, n: nat)
    requires n >= 2
    ensures q <= q * n
  {
  }

  lemma Regroup(s: nat, n: nat, k: nat, m: nat, c: nat)
    ensures (s * n + k) * m + c == s * (n * m) + (k * m + c)
  {
    assert (s * n + k) * m == s * n * m + k * m;
    assert s * n * m == s * (n * m);
  }

  // ------------------------------------------------------------ parity

  ghost function Xor(f: nat -> bv8, n: nat): bv8 {
    if n == 0 then 0 else Xor(f, n - 1) ^ f(n - 1)
  }

  lemma {:induction false} XorSame(f: nat -> bv8, g: nat -> bv8, n: nat)
    requires forall k: nat :: k < n ==> f(k) == g(k)
    ensures Xor(f, n) == Xor(g, n)
  {
    if n > 0 { XorSame(f, g, n - 1); }
  }

  /** A parity can be updated by the differences of what has changed. */
  lemma {:induction false} XorDelta(f: nat -> bv8, g: nat -> bv8, d: nat -> bv8, n: nat)
    requires forall k: nat :: k < n ==> d(k) == f(k) ^ g(k)
    ensures Xor(g, n) == Xor(f, n) ^ Xor(d, n)
  {
    if n > 0 {
      XorDelta(f, g, d, n - 1);
      XorTerms(Xor(f, n - 1), Xor(d, n - 1), f(n - 1), g(n - 1));
    }
  }

  lemma XorTerms(a: bv8, b: bv8, x: bv8, y: bv8)
    ensures (a ^ b) ^ y == (a ^ x) ^ (b ^ (x ^ y))
  {
  }

  /** The contents of the data blocks of a row. */
  ghost function RowData(l: Layout, c: Place -> bv8, stripe: nat, coff: nat): nat -> bv8
    requires l.Valid()
  {
    (k: nat) => c(l.PlaceOf(l.BlockAt(stripe, k, coff)))
  }

  ghost function ParityPlace(l: Layout, stripe: nat, coff: nat): Place
    requires l.Valid()
  {
    Place(l.ParityDisk(stripe), l.OffsetAt(stripe, coff))
  }

  ghost predicate ParityOK(l: Layout, c: Place -> bv8, stripe: nat, coff: nat)
    requires l.Valid()
  {
    c(ParityPlace(l, stripe, coff)) == Xor(RowData(l, c, stripe, coff), l.numDisks - 1)
  }

  /** The same row after the blocks from begin to end have got new data. */
  ghost function NewData(l: Layout, c: Place -> bv8, data: nat -> bv8, begin: nat, end: nat, stripe: nat, coff: nat): nat -> bv8
    requires l.Valid()
  {
    (k: nat) => if begin <= l.BlockAt(stripe, k, coff) < end then data(l.BlockAt(stripe, k, coff))
         else c(l.PlaceOf(l.BlockAt(stripe, k, coff)))
  }

  /** Some block of the row is written. */
  ghost predicate Touched(l: Layout, begin: nat, end: nat, stripe: nat, coff: nat)
    requires l.Valid()
  {
    exists k: nat :: k < l.numDisks - 1 && begin <= l.BlockAt(stripe, k, coff) < end
  }

  /** The blocks from begin to end lie in the stripe. */
  ghost predicate Within(l: Layout, stripe: nat, begin: nat, end: nat)
    requires l.Valid()
  {
    stripe * l.BlocksInStripe() <= begin <= end <= stripe * l.BlocksInStripe() + l.BlocksInStripe()
  }

  /** The source's choice between the two ways of computing a new parity. */
  predicate Subtractive(l: Layout, begin: nat, end: nat)
    requires l.Valid() && begin <= end
  {
    (end - begin) + 1 <= l.BlocksInStripe() - (end - begin)
  }

  ghost predicate WritesBlock(l: Layout, begin: nat, end: nat, p: Place)
    requires l.Valid()
  {
    exists b: nat :: begin <= b < end && p == l.PlaceOf(b)
  }

  ghost predicate TouchesParity(l: Layout, stripe: nat, begin: nat, end: nat, p: Place)
    requires l.Valid()
  {
    p.disk == l.ParityDisk(stripe) && exists b: nat :: begin <= b < end && p.off == l.PlaceOf(b).off
  }

  /** What `doPartialWrite` reads ... */
  ghost predicate ReadsPlace(l: Layout, stripe: nat, begin: nat, end: nat, p: Place)
    requires l.Valid() && begin <= end
  {
    if Subtractive(l, begin, end) then WritesBlock(l, begin, end, p) || TouchesParity(l, stripe, begin, end, p)
    else
      var first := stripe * l.BlocksInStripe();
      WritesBlock(l, first, begin, p) || WritesBlock(l, end, first + l.BlocksInStripe(), p)
  }

  /** ... and what it writes. */
  ghost predicate WritesPlace(l: Layout, stripe: nat, begin: nat, end: nat, p: Place)
    requires l.Valid()
  {
    WritesBlock(l, begin, end, p) || TouchesParity(l, stripe, begin, end, p)
  }

  /** Two contents of the disks that agree on what is read lead to the same new parity in every row
      that is touched: the reads and the new data determine it. */
  lemma ReadsDetermineParity(l: Layout, c1: Place -> bv8, c2: Place -> bv8, data: nat -> bv8,
                             stripe: nat, begin: nat, end: nat, coff: nat)
    requires l.Valid() && Within(l, stripe, begin, end) && coff < l.chunkSize && Touched(l, begin, end, stripe, coff)
    requires ParityOK(l, c1, stripe, coff) && ParityOK(l, c2, stripe, coff)
    requires forall p :: ReadsPlace(l, stripe, begin, end, p) ==> c1(p) == c2(p)
    ensures Xor(NewData(l, c1, data, begin, end, stripe, coff), l.numDisks - 1)
            == Xor(NewData(l, c2, data, begin, end, stripe, coff), l.numDisks - 1)
  {
    if Subtractive(l, begin, end) {
      SubtractiveParity(l, c1, c2, data, stripe, begin, end, coff);
    } else {
      AdditiveParity(l, c1, c2, data, stripe, begin, end, coff);
    }
  }

  lemma AdditiveParity(l: Layout, c1: Place -> bv8, c2: Place -> bv8, data: nat -> bv8,
                       stripe: nat, begin: nat, end: nat, coff: nat)
    requires l.Valid() && Within(l, stripe, begin, end) && coff < l.chunkSize && !Subtractive(l, begin, end)
    requires forall p :: ReadsPlace(l, stripe, begin, end, p) ==> c1(p) == c2(p)
    ensures Xor(NewData(l, c1, data, begin, end, stripe, coff), l.numDisks - 1)
            == Xor(NewData(l, c2, data, begin, end, stripe, coff), l.numDisks - 1)
  {
    var g1, g2 := NewData(l, c1, data, begin, end, stripe, coff), NewData(l, c2, data, begin, end, stripe, coff);
    forall k: nat | k < l.numDisks - 1 ensures g1(k) == g2(k) {
      var b := l.BlockAt(stripe, k, coff);
      l.BlockInside(stripe, k, coff);
      hide Xor, Layout.BlocksInStripe, Layout.PlaceOf, Layout.BlockAt;
      if !(begin <= b < end) { assert ReadsPlace(l, stripe, begin, end, l.PlaceOf(b)); }
    }
    XorSame(g1, g2, l.numDisks - 1);
  }

  /** A block that is not written adds nothing, and one that is was read. */
  lemma SameDelta(l: Layout, c1: Place -> bv8, c2: Place -> bv8, data: nat -> bv8,
                  stripe: nat, begin: nat, end: nat, coff: nat, k: nat)
    requires l.Valid() && begin <= end && coff < l.chunkSize && Subtractive(l, begin, end) && k < l.numDisks - 1
    requires forall p :: ReadsPlace(l, stripe, begin, end, p) ==> c1(p) == c2(p)
    requires Touched(l, begin, end, stripe, coff)
    ensures RowData(l, c1, stripe, coff)(k) ^ NewData(l, c1, data, begin, end, stripe, coff)(k)
            == RowData(l, c2, stripe, coff)(k) ^ NewData(l, c2, data, begin, end, stripe, coff)(k)
  {
    var b := l.BlockAt(stripe, k, coff);
    if begin <= b < end {
      assert ReadsPlace(l, stripe, begin, end, l.PlaceOf(b));
    } else {
      XorSelf(c1(l.PlaceOf(b)));
      XorSelf(c2(l.PlaceOf(b)));
    }
  }

  lemma SubtractiveParity(l: Layout, c1: Place -> bv8, c2: Place -> bv8, data: nat -> bv8,
                          stripe: nat, begin: nat, end: nat, coff: nat)
    requires l.Valid() && begin <= end && coff < l.chunkSize && Subtractive(l, begin, end)
    requires Touched(l, begin, end, stripe, coff)
    requires ParityOK(l, c1, stripe, coff) && ParityOK(l, c2, stripe, coff)
    requires forall p :: ReadsPlace(l, stripe, begin, end, p) ==> c1(p) == c2(p)
    ensures Xor(NewData(l, c1, data, begin, end, stripe, coff), l.numDisks - 1)
            == Xor(NewData(l, c2, data, begin, end, stripe, coff), l.numDisks - 1)
  {
    var n := l.numDisks - 1;
    var f1, f2 := RowData(l, c1, stripe, coff), RowData(l, c2, stripe, coff);
    var g1, g2 := NewData(l, c1, data, begin, end, stripe, coff), NewData(l, c2, data, begin, end, stripe, coff);
    var d1, d2 := (k: nat) => f1(k) ^ g1(k), (k: nat) => f2(k) ^ g2(k);
    XorDelta(f1, g1, d1, n);
    XorDelta(f2, g2, d2, n);
    forall k: nat | k < n ensures d1(k) == d2(k) {
      SameDelta(l, c1, c2, data, stripe, begin, end, coff, k);
    }
    XorSame(d1, d2, n);
    ParityIsRead(l, stripe, begin, end, coff);
  }

  lemma XorSelf(a: bv8)
    ensures a ^ a == 0
  {
  }

  lemma ParityIsRead(l: Layout, stripe: nat, begin: nat, end: nat, coff: nat)
    requires l.Valid() && begin <= end && coff < l.chunkSize && Subtractive(l, begin, end)
    requires Touched(l, begin, end, stripe, coff)
    ensures ReadsPlace(l, stripe, begin, end, ParityPlace(l, stripe, coff))
  {
    var k: nat :| k < l.numDisks - 1 && begin <= l.BlockAt(stripe, k, coff) < end;
    l.PlaceIs(stripe, k, coff);
  }

  // ------------------------------------------------------------ the requests

  datatype Io = Io(isWrite: bool, place: Place)

  /** One call of `doPartialWrite`. */
  datatype Part = Part(stripe: nat, begin: nat, end: nat)

  /** The parts follow each other from `from` to `to`, each inside its own stripe. */
  ghost predicate Tile(l: Layout, parts: seq<Part>, from: nat, to: nat)
    requires l.Valid()
  {
    if parts == [] then from == to
    else
      var p := parts[|parts|-1];
      p.end == to && Within(l, p.stripe, p.begin, p.end) && Tile(l, parts[..|parts|-1], from, p.begin)
  }

  /** Every block of a write is covered by exactly one part, that of its stripe. */
  lemma {:induction false} TileCovers(l: Layout, parts: seq<Part>, from: nat, to: nat, b: nat) returns (i: nat)
    requires l.Valid() && Tile(l, parts, from, to) && from <= b < to
    ensures i < |parts| && parts[i].begin <= b < parts[i].end && parts[i].stripe == l.Split(b).0
    ensures forall j :: 0 <= j < |parts| && parts[j].begin <= b < parts[j].end ==> j == i
  {
    var n := |parts| - 1;
    TileOrder(l, parts[..n], from, parts[n].begin);
    if b >= parts[n].begin {
      i := n;
      l.StripeOf(b, parts[n].stripe);
      forall j | 0 <= j < n ensures !(parts[j].begin <= b < parts[j].end) { assert parts[..n][j] == parts[j]; }
    } else {
      i := TileCovers(l, parts[..n], from, parts[n].begin, b);
      forall j | 0 <= j < |parts| && parts[j].begin <= b < parts[j].end ensures j == i {
        if j < n { assert parts[..n][j] == parts[j]; }
      }
    }
  }

  lemma {:induction false} TileOrder(l: Layout, parts: seq<Part>, from: nat, to: nat)
    requires l.Valid() && Tile(l, parts, from, to)
    ensures from <= to && forall j :: 0 <= j < |parts| ==> from <= parts[j].begin <= parts[j].end <= to
  {
    if parts != [] {
      var n := |parts| - 1;
      TileOrder(l, parts[..n], from, parts[n].begin);
      forall j | 0 <= j < |parts| ensures from <= parts[j].begin <= parts[j].end <= to {
        if j < n { assert parts[..n][j] == parts[j]; }
      }
    }
  }

  ghost predicate NoRepeat(s: seq<Io>) {
    forall i, j :: 0 <= i < j < |s| ==> s[i] != s[j]
  }

  /** The offsets of the blocks from begin to end, each once: the lists `offList`. */
  ghost predicate OffsetsOf(l: Layout, offs: seq<nat>, begin: nat, end: nat)
    requires l.Valid()
  {
    && (forall i, j :: 0 <= i < j < |offs| ==> offs[i] != offs[j])
    && forall o: nat :: o in offs <==> exists b: nat :: begin <= b < end && o == l.PlaceOf(b).off
  }

  /** The operations of one partial write: first everything that is read, then everything written. */
  ghost predicate PartialWrite(l: Layout, s: seq<Io>, p: Part)
    requires l.Valid()
  {
    p.begin <= p.end && exists k: nat :: k <= |s| && ReadsFor(l, s[..k], p) && WritesFor(l, s[k..], p)
  }

  ghost predicate ReadsFor(l: Layout, s: seq<Io>, p: Part)
    requires l.Valid() && p.begin <= p.end
  {
    NoRepeat(s) && forall x :: x in s <==> !x.isWrite && ReadsPlace(l, p.stripe, p.begin, p.end, x.place)
  }

  ghost predicate WritesFor(l: Layout, s: seq<Io>, p: Part)
    requires l.Valid()
  {
    NoRepeat(s) && forall x :: x in s <==> x.isWrite && WritesPlace(l, p.stripe, p.begin, p.end, x.place)
  }

  /** The operations of the partial writes, one after the other. */
  ghost predicate Performs(l: Layout, s: seq<Io>, parts: seq<Part>)
    requires l.Valid()
    decreases |parts|
  {
    if parts == [] then s == []
    else exists n: nat :: n <= |s| && Performs(l, s[..n], parts[..|parts|-1]) && PartialWrite(l, s[n..], parts[|parts|-1])
  }

  lemma OnePartialWrite(l: Layout, r: seq<Io>, w: seq<Io>, p: Part)
    requires l.Valid() && p.begin <= p.end && ReadsFor(l, r, p) && WritesFor(l, w, p)
    ensures PartialWrite(l, r + w, p)
  {
    var s := r + w;
    assert s[..|r|] == r && s[|r|..] == w;
  }

  lemma PerformsMore(l: Layout, s: seq<Io>, parts: seq<Part>, t: seq<Io>, p: Part)
    requires l.Valid() && Performs(l, s, parts) && PartialWrite(l, t, p)
    ensures Performs(l, s + t, parts + [p])
  {
    var u, q := s + t, parts + [p];
    assert u[..|s|] == s && u[|s|..] == t && q[..|q|-1] == parts;
  }

  lemma NothingPerformed(l: Layout)
    requires l.Valid()
    ensures Performs(l, [], [])
  {
  }

  class Raid {
    const layout: Layout
    var ops: seq<Io>

    constructor (layout: Layout)
      ensures this.layout == layout && ops == []
    {
      this.layout := layout;
      ops := [];
    }

    /** `doSingleRead` and `doSingleWrite` */
    method DoSingle(isWrite: bool, p: Place)
      modifies `ops
      ensures ops == old(ops) + [Io(isWrite, p)]
    {
      ops := ops + [Io(isWrite, p)];
    }

    /** A loop over blocks, each read or written at its place. */
    method DoBlocks(isWrite: bool, begin: nat, end: nat) returns (ghost s: seq<Io>)
      requires layout.Valid() && begin <= end
      modifies `ops
      ensures ops == old(ops) + s && NoRepeat(s)
      ensures forall x :: x in s <==> x.isWrite == isWrite && WritesBlock(layout, begin, end, x.place)
    {
      s := [];
      var voff := begin;
      while voff < end
        invariant begin <= voff <= end && ops == old(ops) + s && NoRepeat(s)
        invariant forall x :: x in s <==> x.isWrite == isWrite && WritesBlock(layout, begin, voff, x.place)
      {
        OneMoreBlock(layout, s, isWrite, begin, voff);
        DoSingle(isWrite, layout.PlaceOf(voff));
        s := s + [Io(isWrite, layout.PlaceOf(voff))];
        voff := voff + 1;
      }
    }

    /** The list of the offsets of a range of blocks. */
    method Offsets(begin: nat, end: nat) returns (offList: seq<nat>)
      requires layout.Valid() && begin <= end
      ensures OffsetsOf(layout, offList, begin, end)
    {
      offList := [];
      var voff := begin;
      while voff < end
        invariant begin <= voff <= end && OffsetsOf(layout, offList, begin, voff)
      {
        var off := layout.PlaceOf(voff).off;
        OneMoreOffset(layout, offList, begin, voff);
        if off !in offList { offList := offList + [off]; }
        voff := voff + 1;
      }
    }

    /** A loop over offsets of the parity disk. */
    method DoParity(isWrite: bool, pdisk: nat, offList: seq<nat>) returns (ghost s: seq<Io>)
      requires forall i, j :: 0 <= i < j < |offList| ==> offList[i] != offList[j]
      modifies `ops
      ensures ops == old(ops) + s && NoRepeat(s)
      ensures forall x :: x in s <==> x.isWrite == isWrite && x.place.disk == pdisk && x.place.off in offList
    {
      s := [];
      var i := 0;
      while i < |offList|
        invariant 0 <= i <= |offList| == |s| + |offList| - i && ops == old(ops) + s
        invariant |s| == i && forall k :: 0 <= k < i ==> s[k] == Io(isWrite, Place(pdisk, offList[k]))
      {
        DoSingle(isWrite, Place(pdisk, offList[i]));
        s := s + [Io(isWrite, Place(pdisk, offList[i]))];
        i := i + 1;
      }
      forall x: Io | x.isWrite == isWrite && x.place.disk == pdisk && x.place.off in offList ensures x in s {
        var k :| 0 <= k < |offList| && offList[k] == x.place.off;
        assert s[k] == x;
      }
    }

    /** What the new parity depends on: the first part of `doPartialWrite`. */
    method DoReads(stripe: nat, begin: nat, end: nat, pdisk: nat, offList: seq<nat>) returns (ghost r: seq<Io>)
      requires layout.Valid() && Within(layout, stripe, begin, end) && begin <= end
      requires pdisk == layout.ParityDisk(stripe) && OffsetsOf(layout, offList, begin, end)
      modifies `ops
      ensures ops == old(ops) + r && ReadsFor(layout, r, Part(stripe, begin, end))
    {
      hide Layout.PlaceOf, Layout.Map, Within, WritesBlock;
      var numWrites := end - begin;
      ghost var s1, s2;
      if numWrites + 1 <= layout.BlocksInStripe() - numWrites {
        s1 := DoBlocks(false, begin, end);
        s2 := DoParity(false, pdisk, offList);
      } else {
        var stripeBegin := stripe * layout.BlocksInStripe();
        var stripeEnd := stripeBegin + layout.BlocksInStripe();
        assert stripeBegin <= begin && end <= stripeEnd by { WithinOrder(layout, stripe, begin, end); }
        s1 := DoBlocks(false, stripeBegin, begin);
        s2 := DoBlocks(false, end, stripeEnd);
      }
      r := s1 + s2;
      ReadsAre(layout, stripe, begin, end, offList, s1, s2);
    }

    /** `doPartialWrite`: it reads what the new parity depends on, and then writes the blocks and
        the parity of the rows they are in, every place once. */
    method DoPartialWrite(stripe: nat, begin: nat, end: nat) returns (ghost s: seq<Io>)
      requires layout.Valid() && Within(layout, stripe, begin, end)
      modifies `ops
      ensures ops == old(ops) + s && PartialWrite(layout, s, Part(stripe, begin, end))
    {
      hide Layout.PlaceOf, Layout.Map, Within, WritesBlock;
      assert begin <= end by { WithinOrder(layout, stripe, begin, end); }
      layout.StripeParity(stripe);
      var pdisk := layout.ParityDisk(stripe);
      var offList := Offsets(begin, end);
      ghost var r := DoReads(stripe, begin, end, pdisk, offList);
      ghost var s3 := DoBlocks(true, begin, end);
      ghost var s4 := DoParity(true, pdisk, offList);
      ghost var w := s3 + s4;
      WritesAre(layout, stripe, begin, end, offList, s3, s4);
      s := r + w;
      OnePartialWrite(layout, r, w, Part(stripe, begin, end));
    }

    /** `enqueue45` for a write: the partial writes cover the blocks from addr on, stripe by stripe. */
    method EnqueueWrite(addr: nat, size: nat) returns (ghost ps: seq<Part>, ghost s: seq<Io>)
      requires layout.Valid()
      modifies `ops
      ensures Tile(layout, ps, addr, addr + size)
      ensures ops == old(ops) + s && Performs(layout, s, ps)
    {
      hide *;
      ps, s := [], [];
      NothingPerformed(layout);
      assert layout.BlocksInStripe() > 0 && Tile(layout, [], addr, addr) by { StripePositive(layout); NoParts(layout, addr); }
      var bis := layout.BlocksInStripe();
      // for an empty request at block 0 the source's last stripe is -1
      if addr + size == 0 { return; }
      var initStripe, finalStripe := Quotient(addr, bis), Quotient(addr + size - 1, bis);
      StripeRange(addr, size, bis);
      var left: nat, begin: nat, stripe: nat := size, addr, initStripe;
      while stripe < finalStripe + 1
        invariant begin + left == addr + size && initStripe <= stripe <= finalStripe + 1
        invariant stripe == initStripe ==> begin == addr
        invariant stripe > initStripe ==> begin == if addr + size < Product(stripe, bis) then addr + size else Product(stripe, bis)
        invariant Tile(layout, ps, addr, begin) && ops == old(ops) + s && Performs(layout, s, ps)
      {
        var endOfStripe := Product(stripe, bis) + bis;
        StripeStep(addr, size, bis, stripe, begin, left);
        var end: nat := if left >= bis then begin + bis else begin + left;
        if end >= endOfStripe { end := endOfStripe; }
        assert Within(layout, stripe, begin, end) by { IsWithin(layout, stripe, begin, end); }
        ghost var more := DoPartialWrite(stripe, begin, end);
        MoreTile(layout, ps, addr, stripe, begin, end);
        PerformsMore(layout, s, ps, more, Part(stripe, begin, end));
        s := s + more;
        ps := ps + [Part(stripe, begin, end)];
        NextStripe(stripe, bis);
        left := left - (end - begin);
        begin := end;
        stripe := stripe + 1;
      }
      AllStripes(addr, size, bis);
    }

    /** `enqueue45` for a read: every block is read once. */
    method EnqueueRead(addr: nat, size: nat) returns (ghost s: seq<Io>)
      requires layout.Valid()
      modifies `ops
      ensures ops == old(ops) + s && NoRepeat(s)
      ensures forall x :: x in s <==> !x.isWrite && WritesBlock(layout, addr, addr + size, x.place)
    {
      hide *;
      s := DoBlocks(false, addr, addr + size);
    }
  }

  function Quotient(x: nat, m: nat): nat
    requires m > 0
  {
    x / m
  }

  function Product(a: nat, b: nat): nat {
    a * b
  }

  lemma NoParts(l: Layout, a: nat)
    requires l.Valid()
    ensures Tile(l, [], a, a)
  {
  }

  lemma IsWithin(l: Layout, stripe: nat, begin: nat, end: nat)
    requires l.Valid() && Product(stripe, l.BlocksInStripe()) <= begin <= end
    requires end <= Product(stripe, l.BlocksInStripe()) + l.BlocksInStripe()
    ensures Within(l, stripe, begin, end)
  {
  }

  lemma MoreTile(l: Layout, parts: seq<Part>, from: nat, stripe: nat, begin: nat, end: nat)
    requires l.Valid() && Tile(l, parts, from, begin) && Within(l, stripe, begin, end)
    ensures Tile(l, parts + [Part(stripe, begin, end)], from, end)
  {
    assert (parts + [Part(stripe, begin, end)])[..|parts|] == parts;
  }

  lemma StripeStep(addr: nat, size: nat, bis: nat, stripe: nat, begin: nat, left: nat)
    requires bis > 0 && addr + size > 0 && begin + left == addr + size
    requires Quotient(addr, bis) <= stripe <= Quotient(addr + size - 1, bis)
    requires stripe == Quotient(addr, bis) ==> begin == addr
    requires stripe > Quotient(addr, bis) ==> begin == if addr + size < Product(stripe, bis) then addr + size else Product(stripe, bis)
    ensures Product(stripe, bis) <= begin <= Product(stripe, bis) + bis
  {
    hide Product, Quotient;
    StripeRange(addr, size, bis);
    QuotientRange(addr + size - 1, bis);
    ProductOrder(stripe, Quotient(addr + size - 1, bis), bis);
  }

  lemma QuotientRange(x: nat, bis: nat)
    requires bis > 0
    ensures Product(Quotient(x, bis), bis) <= x < Product(Quotient(x, bis), bis) + bis
  {
    Division(x, bis);
  }

  lemma ProductOrder(a: nat, b: nat, m: nat)
    ensures a <= b ==> Product(a, m) <= Product(b, m)
  {
    if a < b { NextMultiple(a, b, m); }
  }

  lemma AllStripes(addr: nat, size: nat, bis: nat)
    requires bis > 0 && addr + size > 0
    ensures var s := Quotient(addr + size - 1, bis) + 1;
            addr + size <= Product(s, bis) && (s == Quotient(addr, bis) ==> size == 0)
  {
    hide Product, Quotient;
    QuotientRange(addr + size - 1, bis);
    QuotientRange(addr, bis);
    NextStripe(Quotient(addr + size - 1, bis), bis);
  }

  lemma OneMoreBlock(l: Layout, s: seq<Io>, isWrite: bool, begin: nat, voff: nat)
    requires l.Valid() && begin <= voff && NoRepeat(s)
    requires forall x :: x in s <==> x.isWrite == isWrite && WritesBlock(l, begin, voff, x.place)
    ensures NoRepeat(s + [Io(isWrite, l.PlaceOf(voff))])
    ensures forall x :: x in s + [Io(isWrite, l.PlaceOf(voff))] <==> x.isWrite == isWrite && WritesBlock(l, begin, voff + 1, x.place)
  {
    hide Layout.PlaceOf;
    var x := Io(isWrite, l.PlaceOf(voff));
    forall b: nat | begin <= b < voff ensures l.PlaceOf(b) != l.PlaceOf(voff) {
      if l.PlaceOf(b) == l.PlaceOf(voff) { l.PlacesDiffer(b, voff); }
    }
    assert x !in s;
    forall p ensures WritesBlock(l, begin, voff + 1, p) <==> WritesBlock(l, begin, voff, p) || p == l.PlaceOf(voff) {
      if WritesBlock(l, begin, voff, p) {
        var b: nat :| begin <= b < voff && p == l.PlaceOf(b);
      }
      if p == l.PlaceOf(voff) { assert begin <= voff < voff + 1; }
    }
  }

  lemma OneMoreOffset(l: Layout, offs: seq<nat>, begin: nat, voff: nat)
    requires l.Valid() && begin <= voff && OffsetsOf(l, offs, begin, voff)
    ensures OffsetsOf(l, if l.PlaceOf(voff).off in offs then offs else offs + [l.PlaceOf(voff).off], begin, voff + 1)
  {
    hide Layout.PlaceOf;
    var o := l.PlaceOf(voff).off;
    var offs' := if o in offs then offs else offs + [o];
    forall x: nat ensures x in offs' <==> exists b: nat :: begin <= b < voff + 1 && x == l.PlaceOf(b).off {
      if x in offs {
        var b: nat :| begin <= b < voff && x == l.PlaceOf(b).off;
        assert begin <= b < voff + 1;
      }
      if x == o { assert begin <= voff < voff + 1; }
      if b: nat :| begin <= b < voff + 1 && x == l.PlaceOf(b).off {
        assert b < voff || x == o;
      }
    }
  }

  lemma WithinOrder(l: Layout, stripe: nat, begin: nat, end: nat)
    requires l.Valid() && Within(l, stripe, begin, end)
    ensures stripe * l.BlocksInStripe() <= begin <= end <= stripe * l.BlocksInStripe() + l.BlocksInStripe()
  {
  }

  /** Data blocks of a stripe are never on its parity disk, so that nothing is listed twice. */
  lemma BlockNotParity(l: Layout, stripe: nat, begin: nat, end: nat, p: Place)
    requires l.Valid() && Within(l, stripe, begin, end) && WritesBlock(l, begin, end, p)
    ensures p.disk != l.ParityDisk(stripe)
  {
    var b: nat :| begin <= b < end && p == l.PlaceOf(b);
    l.StripeOf(b, stripe);
    var s, k, c := l.BlockHas(b);
    l.PlaceIs(s, k, c);
  }

  lemma Together(s: seq<Io>, t: seq<Io>)
    requires NoRepeat(s) && NoRepeat(t) && forall x :: x in s ==> x !in t
    ensures NoRepeat(s + t)
  {
    forall i, j | 0 <= i < j < |s + t| ensures (s + t)[i] != (s + t)[j] {
      if i < |s| <= j { assert s[i] in s && t[j - |s|] in t; }
    }
  }

  lemma ParityTouched(l: Layout, stripe: nat, begin: nat, end: nat, offs: seq<nat>, p: Place)
    requires l.Valid() && OffsetsOf(l, offs, begin, end)
    ensures TouchesParity(l, stripe, begin, end, p) <==> p.disk == l.ParityDisk(stripe) && p.off in offs
  {
  }

  lemma WritesAre(l: Layout, stripe: nat, begin: nat, end: nat, offs: seq<nat>, s: seq<Io>, t: seq<Io>)
    requires l.Valid() && Within(l, stripe, begin, end) && OffsetsOf(l, offs, begin, end)
    requires NoRepeat(s) && forall x :: x in s <==> x.isWrite && WritesBlock(l, begin, end, x.place)
    requires NoRepeat(t) && forall x :: x in t <==> x.isWrite && x.place.disk == l.ParityDisk(stripe) && x.place.off in offs
    ensures NoRepeat(s + t) && forall x :: x in s + t <==> x.isWrite && WritesPlace(l, stripe, begin, end, x.place)
  {
    hide WritesBlock, TouchesParity, OffsetsOf, Within, Layout.ParityDisk;
    forall x | x in s ensures x !in t { BlockNotParity(l, stripe, begin, end, x.place); }
    Together(s, t);
    forall x ensures x in s + t <==> x.isWrite && WritesPlace(l, stripe, begin, end, x.place) {
      ParityTouched(l, stripe, begin, end, offs, x.place);
    }
  }

  lemma ReadsAre(l: Layout, stripe: nat, begin: nat, end: nat, offs: seq<nat>, s: seq<Io>, t: seq<Io>)
    requires l.Valid() && Within(l, stripe, begin, end) && OffsetsOf(l, offs, begin, end) && begin <= end
    requires NoRepeat(s) && NoRepeat(t)
    requires Subtractive(l, begin, end) ==>
               (forall x :: x in s <==> !x.isWrite && WritesBlock(l, begin, end, x.place))
               && (forall x :: x in t <==> !x.isWrite && x.place.disk == l.ParityDisk(stripe) && x.place.off in offs)
    requires !Subtractive(l, begin, end) ==>
               var first := stripe * l.BlocksInStripe();
               (forall x :: x in s <==> !x.isWrite && WritesBlock(l, first, begin, x.place))
               && (forall x :: x in t <==> !x.isWrite && WritesBlock(l, end, first + l.BlocksInStripe(), x.place))
    ensures NoRepeat(s + t) && forall x :: x in s + t <==> !x.isWrite && ReadsPlace(l, stripe, begin, end, x.place)
  {
    hide WritesBlock, TouchesParity, OffsetsOf, Within, Layout.ParityDisk, Layout.BlocksInStripe;
    forall x | x in s ensures x !in t {
      if Subtractive(l, begin, end) {
        BlockNotParity(l, stripe, begin, end, x.place);
      } else {
        RangesApart(l, stripe * l.BlocksInStripe(), begin, end, stripe * l.BlocksInStripe() + l.BlocksInStripe(), x.place);
      }
    }
    Together(s, t);
    forall x ensures x in s + t <==> !x.isWrite && ReadsPlace(l, stripe, begin, end, x.place) {
      ParityTouched(l, stripe, begin, end, offs, x.place);
    }
  }

  lemma RangesApart(l: Layout, a: nat, b: nat, c: nat, d: nat, p: Place)
    requires l.Valid() && b <= c && WritesBlock(l, a, b, p)
    ensures !WritesBlock(l, c, d, p)
  {
    hide Layout.PlaceOf;
    var x: nat :| a <= x < b && p == l.PlaceOf(x);
    forall y: nat | c <= y < d ensures p != l.PlaceOf(y) {
      if p == l.PlaceOf(y) { l.PlacesDiffer(x, y); }
    }
  }

  lemma StripePositive(l: Layout)
    requires l.Valid()
    ensures l.BlocksInStripe() > 0
  {
    MulPositive(l.numDisks - 1, l.chunkSize);
  }

  lemma MulPositive(a: nat, b: nat)
    requires a > 0 && b > 0
    ensures a * b > 0
  {
  }

  lemma StripeRange(addr: nat, size: nat, bis: nat)
    requires bis > 0 && addr + size > 0
    ensures Product(Quotient(addr, bis), bis) <= addr < Product(Quotient(addr, bis), bis) + bis
    ensures Quotient(addr, bis) <= Quotient(addr + size - 1, bis) + 1
  {
    hide Product, Quotient;
    QuotientRange(addr, bis);
    QuotientRange(addr + size - 1, bis);
    var q := Quotient(addr + size - 1, bis);
    NextStripe(q, bis);
    NextStripe(q + 1, bis);
    ProductOrder(q + 2, Quotient(addr, bis), bis);
  }

  lemma NextStripe(stripe: nat, bis: nat)
    ensures Product(stripe + 1, bis) == Product(stripe, bis) + bis
  {
  }
}
