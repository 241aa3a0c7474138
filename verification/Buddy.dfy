/** The buddy allocator of `buddy_system.c`: a complete binary tree in one array, whose entry for
    a node is the size of the largest free block below it. */
module Buddy {
  import opened Shared

  // ------------------------------------------------------------ powers of two and bits

  predicate PowerOfTwo(n: nat) {
    n == 1 || (n > 1 && n % 2 == 0 && PowerOfTwo(n / 2))
  }

  function BitAnd(x: nat, y: nat): nat {
    if x == 0 || y == 0 then 0 else (if x % 2 == 1 && y % 2 == 1 then 1 else 0) + 2 * BitAnd(x / 2, y / 2)
  }

  function BitOr(x: nat, y: nat): nat
    decreases x + y
  {
    if x == 0 then y else if y == 0 then x
    else (if x % 2 == 1 || y % 2 == 1 then 1 else 0) + 2 * BitOr(x / 2, y / 2)
  }

  /** `IS_POWER_OF_2` */
  predicate IsPowerOf2(x: nat)
    requires x > 0
  {
    BitAnd(x, x - 1) == 0
  }

  lemma {:induction false} AndSelf(x: nat)
    ensures BitAnd(x, x) == x
  {
    if x > 0 { AndSelf(x / 2); }
  }

  lemma {:induction false} IsPowerOf2Exact(x: nat)
    requires x > 0
    ensures IsPowerOf2(x) <==> PowerOfTwo(x)
  {
    if x % 2 == 0 {
      IsPowerOf2Exact(x / 2);
      assert (x - 1) / 2 == x / 2 - 1 && (x - 1) % 2 == 1;
    } else {
      AndSelf(x / 2);
      assert (x - 1) / 2 == x / 2;
    }
  }

  lemma {:induction false} Pow2IsPower(k: nat)
    ensures PowerOfTwo(Pow2(k))
  {
    if k > 0 { Pow2IsPower(k - 1); }
  }

  lemma {:induction false} Pow2Add(a: nat, b: nat)
    ensures Pow2(a + b) == Pow2(a) * Pow2(b)
  {
    if a > 0 { Pow2Add(a - 1, b); }
  }

  /** The position of the highest bit. */
  lemma {:induction false} HighestBit(x: nat) returns (h: nat)
    requires x > 0
    ensures Pow2(h) <= x < 2 * Pow2(h)
  {
    if x == 1 {
      h := 0;
    } else {
      var k := HighestBit(x / 2);
      h := k + 1;
    }
  }

  /** The top w of the k bits of x are ones. */
  ghost predicate TopOnes(x: nat, k: nat, w: nat) {
    x < Pow2(k) && (if w <= k then Pow2(k) - Pow2(k - w) <= x else x == Pow2(k) - 1)
  }

  lemma {:induction false} OrBounds(x: nat, y: nat, k: nat)
    requires x < Pow2(k) && y < Pow2(k)
    ensures BitOr(x, y) < Pow2(k) && BitOr(x, y) >= y && BitOr(x, y) >= x
  {
    if k > 0 { OrBounds(x / 2, y / 2, k - 1); }
  }

  /** Bits above position m are only in x. */
  lemma {:induction false} OrHigh(t: nat, r: nat, y: nat, m: nat)
    requires r < Pow2(m) && y < Pow2(m)
    ensures BitOr(t * Pow2(m) + r, y) == t * Pow2(m) + BitOr(r, y)
    decreases m
  {
    if m == 0 {
      assert t * Pow2(m) == t;
    } else {
      var p := Pow2(m - 1);
      assert t * Pow2(m) == 2 * (t * p);
      assert (2 * (t * p) + r) / 2 == t * p + r / 2 && (2 * (t * p) + r) % 2 == r % 2;
      OrHigh(t, r / 2, y / 2, m - 1);
    }
  }

  lemma Monotone(a: nat, b: nat)
    requires a <= b
    ensures Pow2(a) <= Pow2(b)
    decreases b
  {
    if a < b { Monotone(a, b - 1); }
  }

  lemma MulMonotone(a: nat, b: nat, p: nat)
    requires a <= b
    ensures a * p <= b * p
  {
  }

  function ShiftRight(x: nat, w: nat): nat {
    if w == 0 then x else ShiftRight(x / 2, w - 1)
  }

  /** Shifting by w and or-ing doubles the number of ones at the top. */
  lemma SmearStep(x: nat, k: nat, w: nat)
    requires TopOnes(x, k, w) && w > 0
    ensures TopOnes(BitOr(x, ShiftRight(x, w)), k, 2 * w)
  {
    if w >= k { SmearDone(x, k, w); } else { SmearTop(x, k, w); }
  }

  lemma SmearDone(x: nat, k: nat, w: nat)
    requires TopOnes(x, k, w) && w >= k
    ensures TopOnes(BitOr(x, ShiftRight(x, w)), k, 2 * w)
  {
    Monotone(k, w);
    assert x < Pow2(k);
    assert TopOnes(x, k, 2 * w) by { if w == 0 { assert k == 0 && x == 0; } }
    hide *;
    SmallShift(x, w);
    OrZero(x);
  }

  lemma {:induction false} SmallShift(x: nat, w: nat)
    requires x < Pow2(w)
    ensures ShiftRight(x, w) == 0
  {
    if w > 0 { SmallShift(x / 2, w - 1); }
  }

  lemma OrZero(x: nat)
    ensures BitOr(x, 0) == x
  {
  }

  lemma TopFacts(x: nat, k: nat, w: nat)
    requires TopOnes(x, k, w) && w <= k
    ensures x < Pow2(k) && Pow2(k) - Pow2(k - w) <= x
  {
  }

  lemma TopDone(v: nat, k: nat, w: nat, low: nat)
    requires 0 < w < k && v < Pow2(k)
    requires low == if k - w >= w then Pow2(k - w) - Pow2(k - w - w) else Pow2(k - w) - 1
    requires v >= Pow2(k) - Pow2(k - w) + low
    ensures TopOnes(v, k, 2 * w)
  {
    hide Pow2;
  }

  lemma MinusOne(p: nat, q: nat)
    requires p > 0
    ensures (p - 1) * q == p * q - q && p * q == q * p
  {
  }

  lemma {:induction false} ShiftBound(x: nat, lo: nat, hi: nat, w: nat)
    requires lo * Pow2(w) <= x < hi * Pow2(w)
    ensures lo <= ShiftRight(x, w) < hi
    decreases w
  {
    if w > 0 {
      TwiceProduct(lo, Pow2(w - 1));
      TwiceProduct(hi, Pow2(w - 1));
      ShiftBound(x / 2, lo, hi, w - 1);
    }
  }

  lemma TwiceProduct(a: nat, p: nat)
    ensures a * (2 * p) == 2 * (a * p)
  {
  }

  lemma SmearTop(x: nat, k: nat, w: nat)
    requires w < k && TopOnes(x, k, w) && w > 0
    ensures TopOnes(BitOr(x, ShiftRight(x, w)), k, 2 * w)
  {
    hide *;
    var m := k - w;
    var p, q, y := Pow2(w), Pow2(m), ShiftRight(x, w);
    Pow2Add(w, m);
    TopFacts(x, k, w);
    MinusOne(p, q);
    var t := p - 1;
    var r := x - t * q;
    if m >= w { Monotone(m - w, m); }
    var low := if m >= w then q - Pow2(m - w) else q - 1;
    LowBound(x, k, w, m, low);
    ShiftBound(x, low, q, w);
    OrHigh(t, r, y, m);
    OrBounds(r, y, m);
    TopDone(BitOr(x, y), k, w, low);
  }

  lemma LowBound(x: nat, k: nat, w: nat, m: nat, low: nat)
    requires 0 < w < k && m == k - w && Pow2(k) - Pow2(m) <= x && Pow2(k) == Pow2(w) * Pow2(m)
    requires low == if m >= w then Pow2(m) - Pow2(m - w) else Pow2(m) - 1
    ensures low * Pow2(w) <= x
  {
    hide *;
    var p, q := Pow2(w), Pow2(m);
    if m >= w {
      Pow2Add(m - w, w);
      Monotone(m - w, m);
      ProductOfDifference(q, Pow2(m - w), p);
    } else {
      Monotone(m, w);
      ProductOfDifference(q, 1, p);
    }
  }

  lemma ProductOfDifference(q: nat, r: nat, p: nat)
    requires r <= q
    ensures (q - r) * p == p * q - r * p
  {
  }

  /** `fixsize`: the power of two above size, at most twice size. */
  method Fixsize(size: nat) returns (r: nat)
    requires 0 < size < Pow2(31)
    ensures PowerOfTwo(r) && size < r <= 2 * size
  {
    hide *;
    ghost var h := HighestBit(size);
    ghost var k := h + 1;
    TopBit(size, h);
    var s := size;
    SmearStep(s, k, 1);
    s := BitOr(s, ShiftRight(s, 1));
    SmearStep(s, k, 2);
    s := BitOr(s, ShiftRight(s, 2));
    SmearStep(s, k, 4);
    s := BitOr(s, ShiftRight(s, 4));
    SmearStep(s, k, 8);
    s := BitOr(s, ShiftRight(s, 8));
    SmearStep(s, k, 16);
    s := BitOr(s, ShiftRight(s, 16));
    AllOnes(s, k);
    Pow2IsPower(k);
    r := s + 1;
  }

  lemma TopBit(x: nat, h: nat)
    requires 0 < x < Pow2(31) && Pow2(h) <= x < 2 * Pow2(h)
    ensures h + 1 <= 31 && TopOnes(x, h + 1, 1) && Pow2(h + 1) == 2 * Pow2(h)
  {
    if h >= 31 { Monotone(31, h); }
  }

  lemma AllOnes(x: nat, k: nat)
    requires TopOnes(x, k, 32) && k <= 31
    ensures x + 1 == Pow2(k)
  {
  }

  // ------------------------------------------------------------ the tree

  function Left(i: nat): nat { i * 2 + 1 }

  function Right(i: nat): nat { i * 2 + 2 }

  function Parent(i: nat): nat
    requires i > 0
  {
    (i + 1) / 2 - 1
  }

  /** The size of the block of node i in a tree over n units. */
  function NodeSize(n: nat, i: nat): nat {
    if i == 0 then n else NodeSize(n, Parent(i)) / 2
  }

  /** The first unit of the block of node i. */
  function Start(n: nat, i: nat): nat {
    if i == 0 then 0
    else Start(n, Parent(i)) + if i == Right(Parent(i)) then NodeSize(n, i) else 0
  }

  ghost predicate Node(n: nat, i: nat) {
    i < 2 * n - 1
  }

  lemma {:induction false} NodeFacts(n: nat, i: nat)
    requires PowerOfTwo(n) && Node(n, i)
    ensures PowerOfTwo(NodeSize(n, i))
    ensures (i + 1) * NodeSize(n, i) == Start(n, i) + n
    ensures Start(n, i) + NodeSize(n, i) <= n
    ensures NodeSize(n, i) == 1 <==> i >= n - 1
  {
    if i > 0 {
      var p := Parent(i);
      NodeFacts(n, p);
      var s := NodeSize(n, i);
      assert NodeSize(n, p) == 2 * s && PowerOfTwo(s);
      assert Start(n, i) == Start(n, p) + if i == Right(p) then s else 0;
      ChildOffset(n, p, i, s);
      LeafSize(n, i, s);
    }
  }

  lemma ChildOffset(n: nat, p: nat, i: nat, s: nat)
    requires i == Left(p) || i == Right(p)
    ensures (i + 1) * s == (p + 1) * (2 * s) + if i == Right(p) then s else 0
  {
  }

  lemma LeafSize(n: nat, i: nat, s: nat)
    requires s >= 1 && n <= (i + 1) * s < 2 * n
    ensures s == 1 <==> i + 1 >= n
  {
    if i + 1 >= n && s >= 2 {
      MulMonotone(n, i + 1, s);
      MulMonotone(2, s, n);
    }
  }

  /** Node i is p or lies below it. */
  ghost predicate Below(i: nat, p: nat) {
    i == p || (i > p && Below(Parent(i), p))
  }

  lemma {:induction false} BelowChild(i: nat, p: nat)
    requires Below(i, p)
    ensures i == p || Below(i, Left(p)) || Below(i, Right(p))
  {
    if i != p && Parent(i) != p { BelowChild(Parent(i), p); }
  }

  lemma {:induction false} ChildBelow(i: nat, p: nat)
    ensures Below(i, Left(p)) || Below(i, Right(p)) ==> Below(i, p) && i != p
    ensures !(Below(i, Left(p)) && Below(i, Right(p)))
  {
    if i > 0 { ChildBelow(Parent(i), p); }
    assert Parent(Left(p)) == p && Parent(Right(p)) == p;
  }

  lemma {:induction false} BelowTrans(i: nat, j: nat, k: nat)
    requires Below(i, j) && Below(j, k)
    ensures Below(i, k)
  {
    if i != j { BelowTrans(Parent(i), j, k); }
  }

  /** The ancestors of a node form a chain. */
  lemma {:induction false} Chain(i: nat, j: nat, k: nat)
    requires Below(i, j) && Below(i, k)
    ensures Below(j, k) || Below(k, j)
  {
    if i != j && i != k { Chain(Parent(i), j, k); }
  }

  // ------------------------------------------------------------ live blocks

  ghost predicate AllFree(i: nat, live: set<nat>) {
    forall k :: k in live ==> !Below(k, i)
  }

  /** The blocks in use are nodes, and none lies inside another. */
  ghost predicate Blocks(n: nat, live: set<nat>) {
    && (forall k :: k in live ==> Node(n, k))
    && forall j, k :: j in live && k in live && Below(j, k) ==> j == k
  }

  function Max(a: nat, b: nat): nat {
    if a > b then a else b
  }

  /** The size of the largest free aligned block below node i; a node whose whole block is free or
      lies inside a block in use has its own size, and a block in use has 0. */
  ghost function Longest(n: nat, i: nat, live: set<nat>): nat
    decreases 2 * n + 1 - i
  {
    if i in live then 0
    else if AllFree(i, live) then NodeSize(n, i)
    else if i >= n - 1 then 0
    else Max(Longest(n, Left(i), live), Longest(n, Right(i), live))
  }

  ghost function Tree(n: nat, live: set<nat>): seq<nat>
    requires n > 0
  {
    seq(2 * n - 1, i requires 0 <= i < 2 * n - 1 => Longest(n, i, live))
  }

  lemma FreeChildren(i: nat, live: set<nat>)
    ensures AllFree(i, live) <==> i !in live && AllFree(Left(i), live) && AllFree(Right(i), live)
  {
    if AllFree(i, live) {
      forall k | k in live ensures !Below(k, Left(i)) && !Below(k, Right(i)) { ChildBelow(k, i); }
    }
    if i !in live && AllFree(Left(i), live) && AllFree(Right(i), live) {
      forall k | k in live ensures !Below(k, i) {
        if Below(k, i) { BelowChild(k, i); }
      }
    }
  }

  lemma ChildSize(n: nat, i: nat)
    requires PowerOfTwo(n) && Node(n, i) && i < n - 1
    ensures Node(n, Left(i)) && Node(n, Right(i))
    ensures NodeSize(n, Left(i)) == NodeSize(n, Right(i)) == NodeSize(n, i) / 2
    ensures NodeSize(n, i) == 2 * NodeSize(n, Left(i))
  {
    assert Parent(Left(i)) == i && Parent(Right(i)) == i;
    NodeFacts(n, i);
  }

  /** The largest free block below a node is the node's own block only if all of that is free. */
  lemma {:induction false} LongestBound(n: nat, i: nat, live: set<nat>)
    requires PowerOfTwo(n) && Node(n, i)
    ensures Longest(n, i, live) <= NodeSize(n, i)
    ensures Longest(n, i, live) == NodeSize(n, i) <==> AllFree(i, live)
    decreases 2 * n + 1 - i
  {
    NodeFacts(n, i);
    assert i in live ==> Below(i, i);
    if i !in live && !AllFree(i, live) && i < n - 1 {
      ChildSize(n, i);
      LongestBound(n, Left(i), live);
      LongestBound(n, Right(i), live);
    }
  }

  /** Node j is free and not part of a block in use. */
  ghost predicate Available(j: nat, live: set<nat>) {
    forall k :: k in live ==> !Below(k, j) && !Below(j, k)
  }

  /** Every available block counts for the nodes above it. */
  lemma {:induction false} LongestCovers(n: nat, j: nat, p: nat, live: set<nat>)
    requires PowerOfTwo(n) && Node(n, j) && Available(j, live) && Below(j, p)
    ensures Longest(n, p, live) >= NodeSize(n, j)
    decreases 2 * n + 1 - p
  {
    if j == p {
      assert AllFree(p, live);
    } else {
      BelowNode(j, p);
      BelowChild(j, p);
      var c := if Below(j, Left(p)) then Left(p) else Right(p);
      BelowNode(j, c);
      LongestCovers(n, j, c, live);
      LongestBound(n, c, live);
      ChildSize(n, p);
    }
  }

  lemma {:induction false} BelowNode(i: nat, p: nat)
    requires Below(i, p)
    ensures p <= i
  {
  }

  /** A block that comes or goes matters only to itself and the nodes above it. */
  lemma {:induction false} LongestLocal(n: nat, i: nat, live: set<nat>, j: nat)
    requires !Below(j, i) && j !in live
    ensures Longest(n, i, live + {j}) == Longest(n, i, live)
    decreases 2 * n + 1 - i
  {
    assert i in live + {j} <==> i in live;
    assert AllFree(i, live + {j}) <==> AllFree(i, live);
    if i < n - 1 {
      ChildBelow(j, i);
      LongestLocal(n, Left(i), live, j);
      LongestLocal(n, Right(i), live, j);
    }
  }

  /** The array while the loops climb: the nodes above index still belong to the old blocks. */
  ghost predicate Climbing(a: seq<nat>, n: nat, before: set<nat>, after: set<nat>, index: nat) {
    |a| == 2 * n - 1 && Node(n, index) &&
    forall i: nat :: i < 2 * n - 1 ==> a[i] == Longest(n, i, if Below(index, i) && i != index then before else after)
  }

  lemma ClimbDone(a: seq<nat>, n: nat, before: set<nat>, after: set<nat>)
    requires n > 0 && Climbing(a, n, before, after, 0)
    ensures a == Tree(n, after)
  {
    forall i: nat | i < 2 * n - 1 ensures a[i] == Longest(n, i, after) { assert Below(0, i) ==> i == 0; }
  }

  lemma ClimbStart(a: seq<nat>, n: nat, before: set<nat>, j: nat, live: set<nat>, more: set<nat>, v: nat)
    requires n > 0 && Node(n, j) && j !in live && more == live + {j} && a == Tree(n, before)
    requires before == live || before == more
    requires v == Longest(n, j, if before == live then more else live)
    ensures Climbing(a[j := v], n, before, if before == live then more else live, j)
  {
    var after := if before == live then more else live;
    forall i: nat | i < 2 * n - 1
      ensures a[j := v][i] == Longest(n, i, if Below(j, i) && i != j then before else after)
    {
      if !Below(j, i) { LongestLocal(n, i, live, j); }
    }
  }

  /** One step up: the parent gets its new value from its children. */
  lemma ClimbStep(a: seq<nat>, n: nat, before: set<nat>, after: set<nat>, index: nat, v: nat)
    requires Climbing(a, n, before, after, index) && index > 0
    requires v == Longest(n, Parent(index), after)
    ensures Climbing(a[Parent(index) := v], n, before, after, Parent(index))
  {
    var p := Parent(index);
    var a' := a[p := v];
    forall i: nat | i < 2 * n - 1
      ensures a'[i] == Longest(n, i, if Below(p, i) && i != p then before else after)
    {
      assert i != p && i != index ==> (Below(index, i) <==> Below(p, i));
      assert i == index ==> !Below(p, i) by { if Below(p, index) { BelowNode(p, index); } }
    }
  }

  /** What the array holds for the two children of the parent of index. */
  lemma ClimbChildren(a: seq<nat>, n: nat, before: set<nat>, after: set<nat>, index: nat)
    requires Climbing(a, n, before, after, index) && index > 0
    ensures Parent(index) < n - 1
    ensures a[Left(Parent(index))] == Longest(n, Left(Parent(index)), after)
    ensures a[Right(Parent(index))] == Longest(n, Right(Parent(index)), after)
  {
    var p := Parent(index);
    assert index == Left(p) || index == Right(p);
    forall c | c == Left(p) || c == Right(p) ensures !(Below(index, c) && c != index) {
      if Below(index, c) && c != index { BelowNode(p, c); }
    }
  }

  // ------------------------------------------------------------ addresses

  /** Unit x belongs to the block of node j. */
  ghost predicate Covers(n: nat, j: nat, x: nat) {
    Start(n, j) <= x < Start(n, j) + NodeSize(n, j)
  }

  lemma {:induction false} CoversUp(n: nat, i: nat, j: nat, x: nat)
    requires PowerOfTwo(n) && Node(n, i) && Below(i, j) && Covers(n, i, x)
    ensures Covers(n, j, x)
    decreases i
  {
    if i != j {
      NodeFacts(n, Parent(i));
      NodeFacts(n, i);
      assert NodeSize(n, Parent(i)) == 2 * NodeSize(n, i);
      CoversUp(n, Parent(i), j, x);
    }
  }

  lemma {:induction false} CoversDown(n: nat, j: nat, x: nat)
    requires PowerOfTwo(n) && Node(n, j) && x < n && Covers(n, j, x)
    ensures Below(x + n - 1, j)
    decreases 2 * n - j
  {
    NodeFacts(n, j);
    BelowSelf(j);
    hide Below, PowerOfTwo;
    if j < n - 1 {
      ChildSize(n, j);
      assert Parent(Left(j)) == j && Parent(Right(j)) == j;
      if x < Start(n, j) + NodeSize(n, Left(j)) {
        CoversDown(n, Left(j), x);
      } else {
        CoversDown(n, Right(j), x);
      }
      ChildBelow(x + n - 1, j);
    }
  }

  /** A unit belongs to a block exactly when its leaf is below the node. */
  lemma CoversIsBelow(n: nat, j: nat, x: nat)
    requires PowerOfTwo(n) && Node(n, j) && x < n
    ensures Covers(n, j, x) <==> Below(x + n - 1, j)
  {
    if Covers(n, j, x) { CoversDown(n, j, x); }
    if Below(x + n - 1, j) {
      NodeFacts(n, x + n - 1);
      CoversUp(n, x + n - 1, j, x);
    }
  }

  /** Unit x is in use. */
  ghost predicate Occupied(n: nat, live: set<nat>, x: nat) {
    exists k :: k in live && Covers(n, k, x)
  }

  ghost predicate FreeRange(n: nat, live: set<nat>, o: nat, s: nat) {
    o + s <= n && forall x: nat :: o <= x < o + s ==> !Occupied(n, live, x)
  }

  /** Different blocks in use never share a unit. */
  lemma BlocksDisjoint(n: nat, live: set<nat>, j: nat, k: nat, x: nat)
    requires PowerOfTwo(n) && Blocks(n, live) && j in live && k in live && x < n
    requires Covers(n, j, x) && Covers(n, k, x)
    ensures j == k
  {
    CoversIsBelow(n, j, x);
    CoversIsBelow(n, k, x);
    Chain(x + n - 1, j, k);
  }

  lemma AvailableFree(n: nat, live: set<nat>, j: nat)
    requires PowerOfTwo(n) && Blocks(n, live) && Node(n, j) && Available(j, live)
    ensures FreeRange(n, live, Start(n, j), NodeSize(n, j))
  {
    NodeFacts(n, j);
    forall x: nat, k | Covers(n, j, x) && k in live ensures !Covers(n, k, x) {
      if Covers(n, k, x) {
        CoversIsBelow(n, j, x);
        CoversIsBelow(n, k, x);
        Chain(x + n - 1, j, k);
      }
    }
  }

  lemma OneFree(n: nat, live: set<nat>, j: nat, k: nat)
    requires PowerOfTwo(n) && Node(n, k) && Node(n, j) && k in live
    requires FreeRange(n, live, Start(n, j), NodeSize(n, j))
    ensures !Below(k, j) && !Below(j, k)
  {
    hide PowerOfTwo, Node, Below;
    NodeFacts(n, k);
    NodeFacts(n, j);
    assert 0 < NodeSize(n, k) && 0 < NodeSize(n, j) by { Positive(n, k); Positive(n, j); }
    hide NodeSize, Start;
    var x, y := Start(n, k), Start(n, j);
    assert Covers(n, k, x) ==> Occupied(n, live, x);
    assert Covers(n, k, y) ==> Occupied(n, live, y);
    if Below(k, j) { CoversUp(n, k, j, x); }
    if Below(j, k) { CoversUp(n, j, k, y); }
  }

  lemma Positive(n: nat, i: nat)
    requires PowerOfTwo(n) && Node(n, i)
    ensures NodeSize(n, i) > 0
  {
    NodeFacts(n, i);
  }

  /** A node is available exactly when none of its units is in use. */
  lemma AvailableIsFree(n: nat, live: set<nat>, j: nat)
    requires PowerOfTwo(n) && Blocks(n, live) && Node(n, j)
    ensures Available(j, live) <==> FreeRange(n, live, Start(n, j), NodeSize(n, j))
  {
    if Available(j, live) { AvailableFree(n, live, j); }
    if FreeRange(n, live, Start(n, j), NodeSize(n, j)) {
      forall k | k in live ensures !Below(k, j) && !Below(j, k) { OneFree(n, live, j, k); }
    }
  }

  // ------------------------------------------------------------ aligned blocks are nodes

  lemma {:induction false} SmallerPower(a: nat, b: nat)
    requires PowerOfTwo(a) && PowerOfTwo(b) && a < b
    ensures 2 * a <= b
  {
    if a > 1 { SmallerPower(a / 2, b / 2); }
  }

  function Times(q: nat, s: nat): nat {
    q * s
  }

  /** o is a multiple of s. */
  ghost predicate Aligned(o: nat, s: nat) {
    exists q: nat :: o == Times(q, s)
  }

  lemma {:induction false} PowerDivides(a: nat, b: nat) returns (m: nat)
    requires PowerOfTwo(a) && PowerOfTwo(b) && a <= b
    ensures b == Times(m, a) && m > 0
  {
    if a == 1 {
      m := b;
    } else {
      m := PowerDivides(a / 2, b / 2);
      TwiceTimes(m, a / 2);
    }
  }

  lemma TwiceTimes(m: nat, a: nat)
    ensures Times(m, 2 * a) == 2 * Times(m, a) == Times(2 * m, a)
  {
  }

  lemma TimesOrder(a: nat, b: nat, s: nat)
    ensures a <= b ==> Times(a, s) <= Times(b, s)
    ensures Times(a + 1, s) == Times(a, s) + s
  {
    if a <= b { MulMonotone(a, b, s); }
  }

  /** An aligned range lies in an aligned range of twice the size. */
  lemma DoubleRange(m: nat, q: nat, s: nat) returns (h: nat)
    requires Times(q, s) + s <= Times(m, 2 * s) && s > 0
    ensures Times(h, 2 * s) + 2 * s <= Times(m, 2 * s)
    ensures Times(q, s) == Times(h, 2 * s) || Times(q, s) == Times(h, 2 * s) + s
  {
    h := q / 2;
    TwiceTimes(h, s);
    TimesOrder(2 * h, q, s);
    TimesOrder(m, h, 2 * s);
    TimesOrder(h, h, 2 * s);
    TimesOrder(h + 1, m, 2 * s);
  }

  lemma {:induction false} AlignedNode(n: nat, q: nat, s: nat) returns (j: nat)
    requires PowerOfTwo(n) && PowerOfTwo(s) && Times(q, s) + s <= n
    ensures Node(n, j) && Start(n, j) == Times(q, s) && NodeSize(n, j) == s
    decreases n - s
  {
    if s == n {
      j := 0;
    } else {
      SmallerPower(s, n);
      var m := PowerDivides(2 * s, n);
      var h := DoubleRange(m, q, s);
      var p := AlignedNode(n, h, 2 * s);
      j := ChildAt(n, p, Times(q, s));
    }
  }

  lemma ChildAt(n: nat, p: nat, o: nat) returns (j: nat)
    requires PowerOfTwo(n) && Node(n, p) && NodeSize(n, p) > 1
    requires o == Start(n, p) || o == Start(n, p) + NodeSize(n, p) / 2
    ensures Node(n, j) && Start(n, j) == o && NodeSize(n, j) == NodeSize(n, p) / 2
  {
    NodeFacts(n, p);
    ChildSize(n, p);
    j := if o == Start(n, p) then Left(p) else Right(p);
    assert Parent(j) == p;
  }

  lemma NodeAligned(n: nat, j: nat)
    requires PowerOfTwo(n) && Node(n, j)
    ensures Aligned(Start(n, j), NodeSize(n, j))
  {
    NodeFacts(n, j);
    var s := NodeSize(n, j);
    var m := PowerDivides(s, n);
    AlignedDifference(j + 1, m, s, Start(n, j));
  }

  lemma AlignedDifference(a: nat, m: nat, s: nat, o: nat)
    requires a * s == o + Times(m, s) && s > 0
    ensures Aligned(o, s)
  {
    TimesOrder(a + 1, m, s);
    TimesOrder(a, a, s);
    assert a >= m;
    assert o == Times(a - m, s);
  }

  // ------------------------------------------------------------ the operations

  /** The node sizes in array order: they halve where i + 1 is a power of two. */
  lemma {:induction false} SizeStep(n: nat, i: nat)
    requires i > 0
    ensures NodeSize(n, i) == if PowerOfTwo(i + 1) then NodeSize(n, i - 1) / 2 else NodeSize(n, i - 1)
  {
    if i % 2 == 1 {
      if i > 1 {
        SizeStep(n, Parent(i));
        assert Parent(i) - 1 == Parent(i - 1);
      }
    } else {
      assert Parent(i) == Parent(i - 1);
    }
  }

  /** The size a request is rounded to. */
  ghost predicate Rounded(request: int, s: nat) {
    PowerOfTwo(s) && (if request <= 0 then s == 1 else request <= s < 2 * request)
  }

  /** A free aligned block of size s at o. */
  ghost predicate FreeBlock(n: nat, live: set<nat>, o: nat, s: nat) {
    Aligned(o, s) && FreeRange(n, live, o, s)
  }

  ghost predicate SomeFreeBlock(n: nat, live: set<nat>, s: nat) {
    exists o: nat :: FreeBlock(n, live, o, s)
  }

  lemma RootKnows(n: nat, live: set<nat>, s: nat)
    requires PowerOfTwo(n) && Blocks(n, live) && PowerOfTwo(s) && Longest(n, 0, live) < s
    ensures !SomeFreeBlock(n, live, s)
  {
    hide PowerOfTwo, Longest, Blocks, FreeRange;
    forall o: nat ensures !FreeBlock(n, live, o, s) {
      if FreeBlock(n, live, o, s) {
        var q: nat :| o == Times(q, s);
        assert o + s <= n by { RangeInside(n, live, o, s); }
        var j := AlignedNode(n, q, s);
        AvailableIsFree(n, live, j);
        BelowRoot(j);
        LongestCovers(n, j, 0, live);
      }
    }
  }

  lemma RangeInside(n: nat, live: set<nat>, o: nat, s: nat)
    requires FreeRange(n, live, o, s)
    ensures o + s <= n
  {
  }

  lemma {:induction false} BelowRoot(i: nat)
    ensures Below(i, 0)
  {
    if i > 0 { BelowRoot(Parent(i)); }
  }

  /** What the descent of `buddy2_alloc` keeps: a node with a large enough free block below it,
      outside of all blocks in use. */
  ghost predicate Descending(n: nat, live: set<nat>, index: nat, s: nat) {
    && Node(n, index) && Longest(n, index, live) >= s
    && forall k :: k in live ==> !Below(index, k)
  }

  lemma ChildDescends(n: nat, live: set<nat>, index: nat, c: nat, s: nat)
    requires Descending(n, live, index, s) && s > 0
    requires Node(n, c) && c > 0 && Parent(c) == index && Longest(n, c, live) >= s
    ensures Descending(n, live, c, s)
  {
    assert c !in live && index !in live;
  }

  lemma DescendStep(n: nat, live: set<nat>, index: nat, s: nat)
    requires PowerOfTwo(n) && Blocks(n, live) && Descending(n, live, index, s) && PowerOfTwo(s)
    requires NodeSize(n, index) != s
    ensures NodeSize(n, index) > s && index < n - 1 && PowerOfTwo(NodeSize(n, index))
    ensures Longest(n, Left(index), live) >= s || Longest(n, Right(index), live) >= s
    ensures Longest(n, Left(index), live) >= s ==> Descending(n, live, Left(index), s)
    ensures Longest(n, Right(index), live) >= s ==> Descending(n, live, Right(index), s)
    ensures NodeSize(n, Left(index)) == NodeSize(n, Right(index)) == NodeSize(n, index) / 2
  {
    LongestBound(n, index, live);
    NodeFacts(n, index);
    hide Descending, AllFree, Blocks;
    assert Node(n, index) && Longest(n, index, live) >= s by { DescendsAt(n, live, index, s); }
    ChildSize(n, index);
    FreeChildren(index, live);
    LongestBound(n, Left(index), live);
    LongestBound(n, Right(index), live);
    SmallerPower(s, NodeSize(n, index));
    assert Parent(Left(index)) == index && Parent(Right(index)) == index;
    if Longest(n, Left(index), live) >= s { ChildDescends(n, live, index, Left(index), s); }
    if Longest(n, Right(index), live) >= s { ChildDescends(n, live, index, Right(index), s); }
  }

  /** No free block of size s begins before the block of node index. */
  ghost predicate NoneBefore(n: nat, live: set<nat>, index: nat, s: nat) {
    forall o: nat :: FreeBlock(n, live, o, s) ==> Start(n, index) <= o
  }

  /** A node is at most half as large as one above it. */
  lemma {:induction false} BelowSmaller(n: nat, i: nat, p: nat)
    requires Below(i, p) && i != p
    ensures 2 * NodeSize(n, i) <= NodeSize(n, p)
  {
    if Parent(i) != p { BelowSmaller(n, Parent(i), p); }
  }

  /** Where a node of size s or more has no free block of size s below it, none begins in it. */
  lemma NoBlockIn(n: nat, live: set<nat>, p: nat, o: nat, s: nat)
    requires PowerOfTwo(n) && Blocks(n, live) && Node(n, p) && PowerOfTwo(s) && s > 0
    requires Longest(n, p, live) < s <= NodeSize(n, p) && Covers(n, p, o)
    ensures !FreeBlock(n, live, o, s)
  {
    hide PowerOfTwo, Longest, Blocks, FreeRange, NodeSize, Start;
    if FreeBlock(n, live, o, s) {
      var q: nat :| o == Times(q, s);
      assert o + s <= n by { RangeInside(n, live, o, s); }
      var j := AlignedNode(n, q, s);
      AvailableIsFree(n, live, j);
      CoversIsBelow(n, j, o);
      CoversIsBelow(n, p, o);
      Chain(o + n - 1, j, p);
      if Below(j, p) {
        LongestCovers(n, j, p, live);
      } else {
        BelowSmaller(n, p, j);
      }
      assert false;
    }
  }

  /** To the left if there is a block there, to the right otherwise: the descent stays with the lowest block. */
  lemma StaysLowest(n: nat, live: set<nat>, index: nat, s: nat)
    requires PowerOfTwo(n) && Blocks(n, live) && Descending(n, live, index, s) && PowerOfTwo(s) && s > 0
    requires NoneBefore(n, live, index, s) && NodeSize(n, index) != s
    ensures NoneBefore(n, live, Left(index), s)
    ensures Longest(n, Left(index), live) < s ==> NoneBefore(n, live, Right(index), s)
  {
    DescendStep(n, live, index, s);
    SmallerPower(s, NodeSize(n, index));
    assert Parent(Left(index)) == index && Parent(Right(index)) == index;
    assert Start(n, Left(index)) == Start(n, index) && Start(n, Right(index)) == Start(n, index) + NodeSize(n, Right(index));
    hide Longest, NodeSize, Start, Blocks, PowerOfTwo, FreeBlock, Descending;
    if Longest(n, Left(index), live) < s {
      forall o: nat | FreeBlock(n, live, o, s) ensures Start(n, Right(index)) <= o {
        if o < Start(n, Right(index)) { NoBlockIn(n, live, Left(index), o, s); }
      }
    }
  }

  lemma DescendsAt(n: nat, live: set<nat>, index: nat, s: nat)
    requires Descending(n, live, index, s)
    ensures Node(n, index) && Longest(n, index, live) >= s
  {
  }

  lemma DescendDone(n: nat, live: set<nat>, index: nat, s: nat)
    requires PowerOfTwo(n) && Blocks(n, live) && Descending(n, live, index, s) && NodeSize(n, index) == s
    ensures Available(index, live) && index !in live && Blocks(n, live + {index})
    ensures FreeBlock(n, live, Start(n, index), s)
    ensures (index + 1) * s == Start(n, index) + n && Start(n, index) + s <= n
  {
    LongestBound(n, index, live);
    NodeFacts(n, index);
    NodeAligned(n, index);
    assert Below(index, index);
    AvailableIsFree(n, live, index);
  }

  lemma ParentUsed(n: nat, live: set<nat>, index: nat, p: nat)
    requires index in live && Blocks(n, live) && Below(index, p) && p != index && p < n - 1
    ensures Longest(n, p, live) == Max(Longest(n, Left(p), live), Longest(n, Right(p), live))
  {
    assert p !in live;
  }

  /** The occupant of unit x, or, as long as none has been met, where the climb from x's leaf stands. */
  ghost predicate Seeking(n: nat, live: set<nat>, x: nat, index: nat) {
    x < n && Node(n, index) && Below(x + n - 1, index) && forall k :: k in live && Below(x + n - 1, k) ==> Below(index, k)
  }

  lemma SeekStart(n: nat, live: set<nat>, x: nat)
    requires x < n
    ensures Seeking(n, live, x, x + n - 1)
  {
  }

  lemma SeekNext(n: nat, live: set<nat>, x: nat, index: nat)
    requires Seeking(n, live, x, index) && index !in live && index > 0
    ensures Seeking(n, live, x, Parent(index))
  {
    BelowTrans(x + n - 1, index, Parent(index));
  }

  /** The first node with 0 above a leaf is the block in use that covers it. */
  lemma SeekFound(n: nat, live: set<nat>, x: nat, index: nat)
    requires PowerOfTwo(n) && Blocks(n, live) && Seeking(n, live, x, index)
    ensures Longest(n, index, live) == 0 <==> index in live
    ensures index in live ==> Covers(n, index, x)
    ensures index == 0 && index !in live ==> !Occupied(n, live, x)
  {
    hide *;
    SeekNode(n, live, x, index);
    NodeFacts(n, index);
    CoversIsBelow(n, index, x);
    if index in live {
      UsedIsZero(n, live, index);
    } else if k :| k in live && Below(x + n - 1, k) {
      InsideUsed(n, live, x, index, k);
    } else {
      OutsideUsed(n, live, x, index);
    }
  }

  /** Below a block in use every node has its own size. */
  lemma InsideUsed(n: nat, live: set<nat>, x: nat, index: nat, k: nat)
    requires PowerOfTwo(n) && Blocks(n, live) && Seeking(n, live, x, index) && index !in live
    requires k in live && Below(x + n - 1, k)
    ensures Longest(n, index, live) > 0 && index > 0
  {
    BelowNode(index, k);
    forall m | m in live ensures !Below(m, index) {
      if Below(m, index) {
        BelowTrans(m, index, k);
        BelowNode(m, index);
      }
    }
    assert AllFree(index, live);
    NodeFacts(n, index);
  }

  /** A unit that is not in use is a free block below every node above it. */
  lemma OutsideUsed(n: nat, live: set<nat>, x: nat, index: nat)
    requires PowerOfTwo(n) && Blocks(n, live) && Seeking(n, live, x, index)
    requires forall k :: k in live ==> !Below(x + n - 1, k)
    ensures Longest(n, index, live) > 0 && !Occupied(n, live, x)
  {
    forall k | k in live ensures !Covers(n, k, x) { CoversIsBelow(n, k, x); }
    LeafAvailable(n, live, x);
    LongestCovers(n, x + n - 1, index, live);
    NodeFacts(n, x + n - 1);
  }

  lemma LeafAvailable(n: nat, live: set<nat>, x: nat)
    requires PowerOfTwo(n) && Blocks(n, live) && x < n
    requires forall k :: k in live ==> !Below(x + n - 1, k)
    ensures Available(x + n - 1, live)
  {
    forall k | k in live ensures !Below(k, x + n - 1) {
      if Below(k, x + n - 1) {
        BelowNode(k, x + n - 1);
        LeafOnly(n, k, x + n - 1);
      }
    }
  }

  lemma LeafOnly(n: nat, k: nat, leaf: nat)
    requires Node(n, k) && leaf >= n - 1 && Below(k, leaf)
    ensures k == leaf
  {
    if k != leaf { BelowNode(Parent(k), leaf); }
  }

  /** After a release the entry of a node above is its size if its children are both whole,
      and the larger of the two otherwise. */
  lemma ParentReleased(n: nat, live: set<nat>, p: nat)
    requires PowerOfTwo(n) && Node(n, p) && p < n - 1 && p !in live
    ensures Longest(n, p, live) ==
              if Longest(n, Left(p), live) + Longest(n, Right(p), live) == NodeSize(n, p) then NodeSize(n, p)
              else Max(Longest(n, Left(p), live), Longest(n, Right(p), live))
  {
    ChildSize(n, p);
    FreeChildren(p, live);
    LongestBound(n, Left(p), live);
    LongestBound(n, Right(p), live);
  }

  // ------------------------------------------------------------ small facts for the methods

  lemma RootSize(n: nat)
    ensures NodeSize(n, 0) == n
  {
  }

  lemma RoundedPower(request: int, s: nat)
    requires Rounded(request, s)
    ensures PowerOfTwo(s) && s > 0
  {
  }

  lemma TreeFacts(n: nat, live: set<nat>, a: seq<nat>, i: nat)
    requires n > 0 && a == Tree(n, live) && i < 2 * n - 1
    ensures |a| == 2 * n - 1 && a[i] == Longest(n, i, live)
  {
  }

  lemma NoneBeforeRoot(n: nat, live: set<nat>, s: nat)
    ensures NoneBefore(n, live, 0, s)
  {
  }

  lemma LowestIs(n: nat, live: set<nat>, index: nat, s: nat)
    requires NoneBefore(n, live, index, s)
    ensures forall o: nat :: FreeBlock(n, live, o, s) ==> Start(n, index) <= o
  {
  }

  lemma StartDescent(n: nat, live: set<nat>, s: nat)
    requires n > 0 && Longest(n, 0, live) >= s > 0
    ensures Descending(n, live, 0, s)
  {
    forall k | k in live ensures !Below(0, k) {
      if Below(0, k) { BelowNode(0, k); }
    }
  }

  lemma DescendsTo(n: nat, live: set<nat>, index: nat, s: nat)
    requires Descending(n, live, index, s)
    ensures index < 2 * n - 1
  {
  }

  lemma UsedIsZero(n: nat, live: set<nat>, i: nat)
    requires i in live
    ensures Longest(n, i, live) == 0
  {
  }

  lemma FreeBlockExists(n: nat, live: set<nat>, o: nat, s: nat)
    requires FreeBlock(n, live, o, s)
    ensures SomeFreeBlock(n, live, s)
  {
  }

  lemma BelowSelf(i: nat)
    ensures Below(i, i)
  {
  }

  lemma BelowParent(index: nat, i: nat)
    requires Below(index, i) && i > 0
    ensures Below(index, Parent(i)) && Parent(i) != index
  {
    BelowNode(index, i);
    BelowTrans(index, i, Parent(i));
  }

  lemma DoubleSize(n: nat, i: nat)
    requires PowerOfTwo(n) && Node(n, i) && i > 0
    ensures Node(n, Parent(i)) && NodeSize(n, Parent(i)) == 2 * NodeSize(n, i)
  {
    NodeFacts(n, Parent(i));
  }

  lemma LeafIsOne(n: nat, i: nat)
    requires PowerOfTwo(n) && n - 1 <= i < 2 * n - 1
    ensures NodeSize(n, i) == 1
  {
    NodeFacts(n, i);
  }

  lemma SeekNode(n: nat, live: set<nat>, x: nat, index: nat)
    requires Seeking(n, live, x, index)
    ensures Node(n, index) && index < 2 * n - 1 && x < n && Below(x + n - 1, index)
  {
  }

  lemma ClimbNode(a: seq<nat>, n: nat, before: set<nat>, after: set<nat>, index: nat)
    requires Climbing(a, n, before, after, index)
    ensures Node(n, index) && |a| == 2 * n - 1 && index < 2 * n - 1
  {
  }

  lemma IsNode(n: nat, i: nat)
    requires Node(n, i)
    ensures i < 2 * n - 1
  {
  }

  lemma OneIsPower()
    ensures PowerOfTwo(1)
  {
  }

  ghost predicate Filled(n: nat, a: seq<nat>, i: nat) {
    i <= |a| && forall k: nat :: k < i ==> a[k] == NodeSize(n, k)
  }

  lemma NothingFilled(n: nat, a: seq<nat>)
    ensures Filled(n, a, 0)
  {
  }

  lemma FilledNext(n: nat, a: seq<nat>, i: nat)
    requires i < |a| && Filled(n, a, i)
    ensures Filled(n, a[i := NodeSize(n, i)], i + 1)
  {
  }

  lemma NextSize(n: nat, i: nat)
    ensures NodeSize(n, i) ==
            (if IsPowerOf2(i + 1) then (if i == 0 then n * 2 else NodeSize(n, i - 1)) / 2
             else if i == 0 then n * 2 else NodeSize(n, i - 1))
  {
    IsPowerOf2Exact(i + 1);
    if i > 0 { SizeStep(n, i); }
  }

  lemma NewTree(n: nat, a: seq<nat>)
    requires n > 0 && |a| == 2 * n - 1 && Filled(n, a, 2 * n - 1)
    ensures a == Tree(n, {}) && Blocks(n, {})
  {
  }

  lemma NotAbove(n: nat, before: set<nat>, index: nat, p: nat)
    requires Blocks(n, before) && index in before && Below(index, p) && p != index
    ensures p !in before
  {
  }

  lemma Released(n: nat, live: set<nat>, index: nat)
    requires Blocks(n, live) && index in live
    ensures Blocks(n, live - {index}) && Node(n, index)
    ensures live == live - {index} + {index} && live - {index} != live
  {
  }

  lemma ReleasedIsWhole(n: nat, live: set<nat>, index: nat)
    requires Blocks(n, live) && index in live
    ensures Longest(n, index, live - {index}) == NodeSize(n, index)
  {
    assert AllFree(index, live - {index});
  }

  class Buddy2 {
    const size: nat
    const longest: array<nat>
    ghost var live: set<nat>

    ghost predicate Valid()
      reads this, longest
    {
      && PowerOfTwo(size) && Blocks(size, live)
      && longest.Length == 2 * size - 1 && longest[..] == Tree(size, live)
    }

    lemma ValidFacts()
      requires Valid()
      ensures PowerOfTwo(size) && size > 0 && Blocks(size, live)
      ensures longest.Length == 2 * size - 1 && longest[..] == Tree(size, live)
    {
    }

    constructor (size: nat)
      requires PowerOfTwo(size)
      ensures Valid() && live == {} && this.size == size && fresh(longest)
    {
      this.size := size;
      longest := new nat[2 * size - 1];
      live := {};
      new;
      Fill(longest, size);
    }

    /** The loop of `buddy2_new`. */
    static method Fill(a: array<nat>, n: nat)
      requires PowerOfTwo(n) && a.Length == 2 * n - 1
      modifies a
      ensures a[..] == Tree(n, {}) && Blocks(n, {})
    {
      hide *;
      assert PowerOfTwo(1) by { OneIsPower(); }
      var node_size := n * 2;
      var i := 0;
      assert Filled(n, a[..], 0) by { NothingFilled(n, a[..]); }
      while i < 2 * n - 1
        invariant 0 <= i <= 2 * n - 1
        invariant node_size == if i == 0 then n * 2 else NodeSize(n, i - 1)
        invariant Filled(n, a[..], i)
      {
        ghost var before := a[..];
        NextSize(n, i);
        if IsPowerOf2(i + 1) { node_size := node_size / 2; }
        a[i] := node_size;
        assert a[..] == before[i := node_size];
        FilledNext(n, before, i);
        i := i + 1;
      }
      NewTree(n, a[..]);
    }

    /** `buddy2_new`; twice the size has to fit an int. */
    static method New(size: int) returns (self: Buddy2?)
      requires size < Pow2(30)
      ensures self == null <==> size < 1 || !PowerOfTwo(size)
      ensures self != null ==> fresh(self) && fresh(self.longest) && self.Valid() && self.size == size && self.live == {}
    {
      if size < 1 { return null; }
      IsPowerOf2Exact(size);
      if !IsPowerOf2(size) { return null; }
      self := new Buddy2(size);
    }

    /** The request as `buddy2_alloc` rounds it. */
    method RoundUp(request: int) returns (s: nat)
      requires request < Pow2(31)
      ensures Rounded(request, s)
    {
      if request <= 0 { return 1; }
      IsPowerOf2Exact(request);
      if IsPowerOf2(request) { return request; }
      s := Fixsize(request);
    }

    /** The descent of `buddy2_alloc`. */
    method Descend(s: nat) returns (index: nat)
      requires Valid() && PowerOfTwo(s) && s > 0 && Descending(size, live, 0, s)
      ensures Descending(size, live, index, s) && NodeSize(size, index) == s && NoneBefore(size, live, index, s)
    {
      hide PowerOfTwo, Blocks, Descending, Longest, Node, NodeSize, NoneBefore;
      index := 0;
      NoneBeforeRoot(size, live, s);
      var node_size := size;
      assert node_size == NodeSize(size, index) by { RootSize(size); }
      while node_size != s
        invariant Descending(size, live, index, s) && node_size == NodeSize(size, index) && NoneBefore(size, live, index, s)
        decreases node_size
      {
        DescendStep(size, live, index, s);
        StaysLowest(size, live, index, s);
        assert Left(index) < 2 * size - 1;
        TreeFacts(size, live, longest[..], Left(index));
        if longest[Left(index)] >= s { index := Left(index); } else { index := Right(index); }
        node_size := node_size / 2;
      }
    }

    /** `buddy2_alloc`: the offset of the lowest aligned block of the rounded size that was free before,
        which is now in use, or -1 exactly if there is none. */
    method Alloc(request: int) returns (offset: int, ghost s: nat, ghost j: nat)
      requires Valid() && request < Pow2(31)
      modifies longest, `live
      ensures Valid() && Rounded(request, s)
      ensures offset == -1 <==> !SomeFreeBlock(size, old(live), s)
      ensures offset == -1 ==> live == old(live)
      ensures offset != -1 ==> offset >= 0 && FreeBlock(size, old(live), offset, s)
      ensures offset != -1 ==> forall o: nat :: FreeBlock(size, old(live), o, s) ==> offset <= o
      ensures offset != -1 ==> live == old(live) + {j} && j !in old(live) && Start(size, j) == offset && NodeSize(size, j) == s
    {
      hide *;
      ValidFacts();
      var s' := RoundUp(request);
      s, j := s', 0;
      RoundedPower(request, s);
      TreeFacts(size, live, longest[..], 0);
      if longest[0] < s' {
        RootKnows(size, live, s);
        return -1, s, j;
      }
      StartDescent(size, live, s);
      var index := Descend(s');
      DescendDone(size, live, index, s);
      j := index;
      DescendsTo(size, live, index, s);
      ghost var before, after := live, live + {index};
      TreeFacts(size, live, longest[..], index);
      ClimbStart(longest[..], size, before, index, live, after, 0) by { UsedIsZero(size, after, index); }
      ghost var a0 := longest[..];
      longest[index] := 0;
      assert longest[..] == a0[index := 0];
      live := after;
      offset := (index + 1) * s' - size;
      Raise(index, before);
      FreeBlockExists(size, before, offset, s);
      LowestIs(size, before, index, s);
    }

    /** The climb at the end of `buddy2_alloc`. */
    method Raise(index: nat, ghost before: set<nat>)
      requires PowerOfTwo(size) && Blocks(size, live) && longest.Length == 2 * size - 1
      requires index in live && Climbing(longest[..], size, before, live, index)
      modifies longest
      ensures Valid()
    {
      hide PowerOfTwo, Blocks, Longest, Climbing, Below, Tree;
      var i := index;
      assert Below(index, i) by { BelowSelf(i); }
      while i > 0
        invariant Climbing(longest[..], size, before, live, i) && Below(index, i)
      {
        var p := Parent(i);
        ClimbChildren(longest[..], size, before, live, i);
        BelowParent(index, i);
        ParentUsed(size, live, index, p);
        var v := Max(longest[Left(p)], longest[Right(p)]);
        ClimbStep(longest[..], size, before, live, i, v);
        ghost var a := longest[..];
        longest[p] := v;
        assert longest[..] == a[p := v];
        i := p;
      }
      ClimbDone(longest[..], size, before, live);
    }

    /** The first loop of `buddy2_free`: the block in use that covers the offset, and its size. */
    method Seek(offset: nat) returns (found: bool, index: nat, node_size: nat)
      requires Valid() && offset < size
      ensures found <==> Occupied(size, live, offset)
      ensures found ==> index in live && Covers(size, index, offset) && node_size == NodeSize(size, index)
    {
      hide PowerOfTwo, Blocks, Longest, Covers, Seeking, Tree, NodeSize;
      node_size := 1;
      index := offset + size - 1;
      SeekStart(size, live, offset);
      assert node_size == NodeSize(size, index) by { LeafIsOne(size, index); }
      TreeFacts(size, live, longest[..], index);
      SeekFound(size, live, offset, index);
      while longest[index] != 0
        invariant Seeking(size, live, offset, index) && node_size == NodeSize(size, index) && index < 2 * size - 1
        invariant longest[index] == Longest(size, index, live)
        invariant Longest(size, index, live) == 0 <==> index in live
        invariant index in live ==> Covers(size, index, offset)
        invariant index == 0 && index !in live ==> !Occupied(size, live, offset)
        decreases index
      {
        node_size := node_size * 2;
        if index == 0 { return false, 0, 0; }
        SeekNext(size, live, offset, index);
        DoubleSize(size, index);
        index := Parent(index);
        TreeFacts(size, live, longest[..], index);
        SeekFound(size, live, offset, index);
      }
      found := true;
    }

    /** `buddy2_free`: the block in use that covers the offset is released; an offset that is not
        in use changes nothing. */
    method Free(offset: nat) returns (ghost j: nat)
      requires Valid() && offset < size
      modifies longest, `live
      ensures Valid()
      ensures if Occupied(size, old(live), offset)
              then j in old(live) && Covers(size, j, offset) && live == old(live) - {j}
              else live == old(live)
    {
      hide *;
      ValidFacts();
      var found, index, node_size := Seek(offset);
      j := index;
      if !found { return; }
      ghost var before, after := live, live - {index};
      Released(size, live, index);
      assert index < 2 * size - 1 by { IsNode(size, index); }
      TreeFacts(size, live, longest[..], index);
      ClimbStart(longest[..], size, before, index, after, before, node_size) by { ReleasedIsWhole(size, before, index); }
      ghost var a0 := longest[..];
      longest[index] := node_size;
      assert longest[..] == a0[index := node_size];
      live := after;
      Lower(index, node_size, before);
    }

    /** The climb at the end of `buddy2_free`. */
    method Lower(index: nat, size0: nat, ghost before: set<nat>)
      requires PowerOfTwo(size) && Blocks(size, live) && longest.Length == 2 * size - 1
      requires size0 == NodeSize(size, index) && index in before && Blocks(size, before) && live == before - {index}
      requires Climbing(longest[..], size, before, live, index)
      modifies longest
      ensures Valid()
    {
      hide PowerOfTwo, Blocks, Longest, Climbing, Below, Tree, NodeSize;
      var i: nat, node_size: nat := index, size0;
      assert Below(index, i) by { BelowSelf(i); }
      while i > 0
        invariant Climbing(longest[..], size, before, live, i) && Below(index, i) && node_size == NodeSize(size, i)
      {
        var p := Parent(i);
        ClimbChildren(longest[..], size, before, live, i);
        BelowParent(index, i);
        DoubleSize(size, i) by { ClimbNode(longest[..], size, before, live, i); }
        node_size := node_size * 2;
        NotAbove(size, before, index, p);
        ParentReleased(size, live, p);
        var left_longest, right_longest := longest[Left(p)], longest[Right(p)];
        var v: nat := if left_longest + right_longest == node_size then node_size else Max(left_longest, right_longest);
        ClimbStep(longest[..], size, before, live, i, v);
        ghost var a := longest[..];
        longest[p] := v;
        assert longest[..] == a[p := v];
        i := p;
      }
      ClimbDone(longest[..], size, before, live);
    }

    /** `buddy2_size`: its loop does not stop at the root, whose parent is no node of the tree. The
        walk leaves the tree (None) exactly for an offset that is not in use. */
    method Size(offset: nat) returns (r: Option<nat>)
      requires Valid() && offset < size
      ensures r.None? <==> !Occupied(size, live, offset)
      ensures r.Some? ==> forall k :: k in live && Covers(size, k, offset) ==> r.value == NodeSize(size, k)
    {
      hide PowerOfTwo, Blocks, Longest, Covers, Seeking, Tree, NodeSize, Occupied;
      var node_size: nat, index: int := 1, offset + size - 1;
      ghost var j: nat := index;
      SeekStart(size, live, offset);
      assert node_size == NodeSize(size, j) by { LeafIsOne(size, j); }
      TreeFacts(size, live, longest[..], j);
      SeekFound(size, live, offset, j);
      while index >= 0 && longest[index] != 0
        invariant -1 <= index < 2 * size - 1 && (index >= 0 ==> j == index)
        invariant index == -1 ==> !Occupied(size, live, offset)
        invariant index >= 0 ==> Seeking(size, live, offset, j) && node_size == NodeSize(size, j)
        invariant index >= 0 ==> longest[index] == Longest(size, j, live) && (Longest(size, j, live) == 0 <==> j in live)
        invariant index >= 0 && j in live ==> Covers(size, j, offset)
        invariant index == 0 && j !in live ==> !Occupied(size, live, offset)
      {
        if index > 0 {
          SeekNext(size, live, offset, j);
          DoubleSize(size, j);
          j := Parent(j);
          TreeFacts(size, live, longest[..], j);
          SeekFound(size, live, offset, j);
        }
        node_size := node_size * 2;
        index := (index + 1) / 2 - 1;
      }
      if index < 0 { return None; }
      OneCovers(size, live, j, offset);
      return Some(node_size);
    }

    /** The size of a block is asked by its offset: that is the rounded request it was made for. */
    method AllocThenSize(request: int) returns (offset: int, r: Option<nat>)
      requires Valid() && request < Pow2(31)
      modifies longest, `live
      ensures Valid() && (offset != -1 ==> r.Some? && Rounded(request, r.value))
    {
      hide *;
      ValidFacts();
      r := None;
      ghost var before := live;
      ghost var s, j;
      offset, s, j := Alloc(request);
      ValidFacts();
      if offset != -1 {
        assert offset < size && Covers(size, j, offset) && Occupied(size, live, offset) by {
          JustAllocated(size, before, live, j, offset, request, s);
        }
        r := Size(offset);
      }
    }

    /** In a fresh tree of any size the walk leaves the tree from every offset. */
    static method SizeOfNothing(size: nat, offset: nat) returns (self: Buddy2, r: Option<nat>)
      requires PowerOfTwo(size) && offset < size
      ensures self.Valid() && self.size == size && r == None
    {
      self := new Buddy2(size);
      r := self.Size(offset);
    }

    /** A release right after an allocation restores the whole array. */
    method AllocThenFree(request: int) returns (offset: int)
      requires Valid() && request < Pow2(31)
      modifies longest, `live
      ensures Valid() && longest[..] == old(longest[..]) && live == old(live)
    {
      hide *;
      ValidFacts();
      ghost var before, a := live, longest[..];
      ghost var s, j, k;
      offset, s, j := Alloc(request);
      ValidFacts();
      if offset != -1 {
        assert offset < size && Covers(size, j, offset) && Occupied(size, live, offset) by {
          JustAllocated(size, before, live, j, offset, request, s);
        }
        k := Free(offset);
        SameBlock(size, before, before + {j}, j, k, offset);
        ValidFacts();
      }
    }
  }

  lemma OneCovers(n: nat, live: set<nat>, j: nat, x: nat)
    requires PowerOfTwo(n) && Blocks(n, live) && j in live && x < n && Covers(n, j, x)
    ensures Occupied(n, live, x)
    ensures forall k :: k in live && Covers(n, k, x) ==> NodeSize(n, j) == NodeSize(n, k)
  {
    forall k | k in live && Covers(n, k, x) ensures k == j {
      BlocksDisjoint(n, live, j, k, x);
    }
  }

  lemma JustAllocated(n: nat, before: set<nat>, live: set<nat>, j: nat, offset: nat, request: int, s: nat)
    requires PowerOfTwo(n) && Blocks(n, live) && live == before + {j} && Start(n, j) == offset && NodeSize(n, j) == s
    requires Rounded(request, s)
    ensures offset < n && Covers(n, j, offset) && Occupied(n, live, offset)
  {
    assert Node(n, j);
    NodeFacts(n, j);
  }

  lemma SameBlock(n: nat, before: set<nat>, live: set<nat>, j: nat, k: nat, offset: nat)
    requires PowerOfTwo(n) && Blocks(n, live) && live == before + {j} && j !in before && offset < n
    requires k in live && Covers(n, j, offset) && Covers(n, k, offset)
    ensures k == j && live - {k} == before
  {
    BlocksDisjoint(n, live, j, k, offset);
  }
}
