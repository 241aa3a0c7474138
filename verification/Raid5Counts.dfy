/** How many operations a partial write of `doPartialWrite` takes, and when its choice between the
    two ways of computing the parity is the one with the fewest reads. */
module Raid5Counts {
  import opened Raid5

  /** The number of rows that a run of blocks inside a stripe touches. */
  function Rows(l: Layout, blocks: nat): nat {
    if blocks < l.chunkSize then blocks else l.chunkSize
  }

  /** What subtractive parity reads: the old blocks, and the old parity of their rows. */
  function SubtractiveReads(l: Layout, blocks: nat): nat {
    blocks + Rows(l, blocks)
  }

  /** What additive parity reads: the other blocks of the stripe. */
  function AdditiveReads(l: Layout, blocks: nat): nat
    requires l.Valid() && blocks <= l.BlocksInStripe()
  {
    l.BlocksInStripe() - blocks
  }

  // ------------------------------------------------------------ sequences without repetition

  function Elements<T>(s: seq<T>): set<T> {
    set x | x in s
  }

  lemma {:induction false} DistinctSize(s: seq<Io>)
    requires NoRepeat(s)
    ensures |Elements(s)| == |s|
  {
    if s != [] {
      var pre, x := s[..|s|-1], s[|s|-1];
      DistinctSize(pre);
      assert x !in pre;
      assert Elements(s) == Elements(pre) + {x};
    }
  }

  lemma SameLength(s: seq<Io>, t: seq<Io>)
    requires NoRepeat(s) && NoRepeat(t) && forall x :: x in s <==> x in t
    ensures |s| == |t|
  {
    DistinctSize(s);
    DistinctSize(t);
    assert Elements(s) == Elements(t);
  }

  // ------------------------------------------------------------ blocks and rows

  /** The operations on blocks from begin to end. */
  ghost function OnBlocks(l: Layout, isWrite: bool, begin: nat, end: nat): seq<Io>
    requires l.Valid() && begin <= end
  {
    seq(end - begin, i requires 0 <= i < end - begin => Io(isWrite, l.PlaceOf(begin + i)))
  }

  lemma OnBlocksAre(l: Layout, isWrite: bool, begin: nat, end: nat)
    requires l.Valid() && begin <= end
    ensures NoRepeat(OnBlocks(l, isWrite, begin, end)) && |OnBlocks(l, isWrite, begin, end)| == end - begin
    ensures forall x :: x in OnBlocks(l, isWrite, begin, end) <==> x.isWrite == isWrite && WritesBlock(l, begin, end, x.place)
  {
    hide Layout.PlaceOf;
    var s := OnBlocks(l, isWrite, begin, end);
    forall i, j | 0 <= i < j < |s| ensures s[i] != s[j] {
      if s[i] == s[j] { l.PlacesDiffer(begin + i, begin + j); }
    }
    forall x: Io | x.isWrite == isWrite && WritesBlock(l, begin, end, x.place) ensures x in s {
      var b: nat :| begin <= b < end && x.place == l.PlaceOf(b);
      assert s[b - begin] == x;
    }
  }

  /** The offset of a block is the start of its stripe and its row. */
  lemma OffsetIs(l: Layout, stripe: nat, b: nat)
    requires l.Valid() && stripe * l.BlocksInStripe() <= b < stripe * l.BlocksInStripe() + l.BlocksInStripe()
    ensures l.PlaceOf(b).off == l.OffsetAt(stripe, b % l.chunkSize)
  {
    l.StripeOf(b, stripe);
    var s, k, c := l.BlockHas(b);
    l.PlaceIs(s, k, c);
    l.SplitIs(s, k, c);
  }

  /** The operations on the parity of the rows of the blocks from begin to end: those of the first of
      them are already all. */
  ghost function OnParity(l: Layout, isWrite: bool, stripe: nat, begin: nat, end: nat): seq<Io>
    requires l.Valid() && begin <= end
  {
    seq(Rows(l, end - begin), i requires 0 <= i < Rows(l, end - begin) => Io(isWrite, Place(l.ParityDisk(stripe), l.PlaceOf(begin + i).off)))
  }

  lemma SameRow(a: nat, b: nat, m: nat)
    requires a < b < a + m
    ensures a % m != b % m
  {
    if a % m == b % m {
      assert b - a == (b / m - a / m) * m;
      NotBetween(b / m - a / m, m);
    }
  }

  lemma NotBetween(q: int, m: nat)
    ensures !(0 < q * m < m)
  {
    if q >= 1 { assert q * m >= m; } else { assert q * m <= 0; }
  }

  /** Some block among the first `m` from `begin` on has the remainder of b. */
  lemma FirstOfRow(begin: nat, b: nat, m: nat) returns (a: nat)
    requires m > 0 && begin <= b
    ensures begin <= a <= b && a < begin + m && a % m == b % m
  {
    var d := b - begin;
    a := begin + d % m;
    assert b == a + d / m * m;
    AddMultiple(a, d / m, m);
  }

  lemma AddMultiple(a: nat, q: nat, m: nat)
    requires m > 0
    ensures (a + q * m) % m == a % m
  {
    DivisionUnique(a / m + q, a % m, m);
    assert (a / m + q) * m + a % m == a + q * m;
  }

  lemma OnParityAre(l: Layout, isWrite: bool, stripe: nat, begin: nat, end: nat)
    requires l.Valid() && Within(l, stripe, begin, end) && begin <= end
    ensures NoRepeat(OnParity(l, isWrite, stripe, begin, end)) && |OnParity(l, isWrite, stripe, begin, end)| == Rows(l, end - begin)
    ensures forall x :: x in OnParity(l, isWrite, stripe, begin, end) <==> x.isWrite == isWrite && TouchesParity(l, stripe, begin, end, x.place)
  {
    hide Layout.PlaceOf, Layout.ParityDisk, Layout.BlocksInStripe;
    var s := OnParity(l, isWrite, stripe, begin, end);
    forall i, j | 0 <= i < j < |s| ensures s[i] != s[j] {
      OffsetIs(l, stripe, begin + i);
      OffsetIs(l, stripe, begin + j);
      SameRow(begin + i, begin + j, l.chunkSize);
    }
    forall x | x in s ensures x.isWrite == isWrite && TouchesParity(l, stripe, begin, end, x.place) {
      var i :| 0 <= i < |s| && s[i] == x;
      assert begin <= begin + i < end && x.place.off == l.PlaceOf(begin + i).off;
    }
    forall x: Io | x.isWrite == isWrite && TouchesParity(l, stripe, begin, end, x.place) ensures x in s {
      var b: nat :| begin <= b < end && x.place.off == l.PlaceOf(b).off;
      var a := FirstOfRow(begin, b, l.chunkSize);
      OffsetIs(l, stripe, a);
      OffsetIs(l, stripe, b);
      assert s[a - begin] == x;
    }
  }

  // ------------------------------------------------------------ the counts

  lemma Joined(s: seq<Io>, t: seq<Io>, u: seq<Io>)
    requires NoRepeat(s) && NoRepeat(t) && NoRepeat(u) && (forall x :: x in s ==> x !in t)
    requires forall x :: x in u <==> x in s || x in t
    ensures |u| == |s| + |t|
  {
    Together(s, t);
    SameLength(u, s + t);
  }

  lemma BlocksAndParity(l: Layout, isWrite: bool, u: seq<Io>, stripe: nat, begin: nat, end: nat)
    requires l.Valid() && Within(l, stripe, begin, end) && begin <= end && NoRepeat(u)
    requires forall x :: x in u <==> x.isWrite == isWrite && WritesPlace(l, stripe, begin, end, x.place)
    ensures |u| == end - begin + Rows(l, end - begin)
  {
    var s, t := OnBlocks(l, isWrite, begin, end), OnParity(l, isWrite, stripe, begin, end);
    OnBlocksAre(l, isWrite, begin, end);
    OnParityAre(l, isWrite, stripe, begin, end);
    hide OnBlocks, OnParity, WritesBlock, TouchesParity, Within, Layout.ParityDisk, NoRepeat;
    forall x | x in s ensures x !in t {
      BlockNotParity(l, stripe, begin, end, x.place);
      OnParityDisk(l, stripe, begin, end, x.place);
    }
    Joined(s, t, u);
  }

  lemma OnParityDisk(l: Layout, stripe: nat, begin: nat, end: nat, p: Place)
    requires l.Valid()
    ensures TouchesParity(l, stripe, begin, end, p) ==> p.disk == l.ParityDisk(stripe)
  {
  }

  /** A partial write writes its blocks and one parity block for each row they touch. */
  lemma WritesCount(l: Layout, w: seq<Io>, p: Part)
    requires l.Valid() && Within(l, p.stripe, p.begin, p.end) && p.begin <= p.end && WritesFor(l, w, p)
    ensures |w| == p.end - p.begin + Rows(l, p.end - p.begin)
  {
    BlocksAndParity(l, true, w, p.stripe, p.begin, p.end);
  }

  /** A partial write reads as much as its method takes. */
  lemma ReadsCount(l: Layout, r: seq<Io>, p: Part)
    requires l.Valid() && Within(l, p.stripe, p.begin, p.end) && p.begin <= p.end <= p.begin + l.BlocksInStripe()
    requires ReadsFor(l, r, p)
    ensures |r| == if p.end - p.begin + 1 <= l.BlocksInStripe() - (p.end - p.begin) then SubtractiveReads(l, p.end - p.begin)
                   else AdditiveReads(l, p.end - p.begin)
  {
    hide WritesBlock, TouchesParity, NoRepeat, Layout.BlocksInStripe;
    if Subtractive(l, p.begin, p.end) {
      BlocksAndParity(l, false, r, p.stripe, p.begin, p.end);
    } else {
      var first := p.stripe * l.BlocksInStripe();
      OthersCount(l, r, first, p.begin, p.end, first + l.BlocksInStripe());
    }
  }

  lemma OthersCount(l: Layout, r: seq<Io>, a: nat, b: nat, c: nat, d: nat)
    requires l.Valid() && a <= b <= c <= d && NoRepeat(r)
    requires forall x :: x in r <==> !x.isWrite && (WritesBlock(l, a, b, x.place) || WritesBlock(l, c, d, x.place))
    ensures |r| == b - a + (d - c)
  {
    var s, t := OnBlocks(l, false, a, b), OnBlocks(l, false, c, d);
    OnBlocksAre(l, false, a, b);
    OnBlocksAre(l, false, c, d);
    hide OnBlocks, WritesBlock, NoRepeat;
    forall x | x in s ensures x !in t { RangesApart(l, a, b, c, d, x.place); }
    Joined(s, t, r);
  }

  /** The source counts one parity block, whatever the number of rows.  It reads no more than it has
      to by either method, except in one case: the blocks written and one more are no more than the
      others, but with all the parity blocks of their rows they are. */
  lemma FewestReads(l: Layout, r: seq<Io>, p: Part)
    requires l.Valid() && Within(l, p.stripe, p.begin, p.end) && p.begin <= p.end <= p.begin + l.BlocksInStripe()
    requires ReadsFor(l, r, p)
    ensures var n := p.end - p.begin;
            (|r| <= SubtractiveReads(l, n) && |r| <= AdditiveReads(l, n)) <==>
            !(n + 1 <= AdditiveReads(l, n) < n + Rows(l, n))
  {
    ReadsCount(l, r, p);
  }

  /** With one block to a chunk there is no such case. */
  lemma SmallChunks(l: Layout, r: seq<Io>, p: Part)
    requires l.Valid() && Within(l, p.stripe, p.begin, p.end) && p.begin <= p.end <= p.begin + l.BlocksInStripe()
    requires ReadsFor(l, r, p) && l.chunkSize == 1
    ensures |r| <= SubtractiveReads(l, p.end - p.begin) && |r| <= AdditiveReads(l, p.end - p.begin)
  {
    FewestReads(l, r, p);
  }

  /** Four disks with chunks of four blocks: for the first five blocks of a stripe the source reads
      nine places, where the seven other blocks would do. */
  lemma MoreThanNeeded(r: seq<Io>)
    requires ReadsFor(Layout(4, 4), r, Part(0, 0, 5))
    ensures |r| == 9 && AdditiveReads(Layout(4, 4), 5) == 7
  {
    ReadsCount(Layout(4, 4), r, Part(0, 0, 5));
  }
}
