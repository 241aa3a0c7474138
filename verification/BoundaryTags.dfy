/** The allocator of `version_0.1.cc`: blocks with a header in front tile one heap, and every
    header also holds the size of the block before it. */
module BoundaryTags {

  /** `sizeof(mem_control_block)` */
  const MCB: nat := 12

  datatype Mcb = Mcb(is_available: bool, prior_blocksize: nat, current_blocksize: nat)

  /** A block without its header. */
  datatype Block = Block(free: bool, len: nat)

  /** The bytes handed out for one block. */
  datatype Payload = Payload(start: nat, len: nat)

  // ------------------------------------------------------------ tilings

  /** Headers for exactly these blocks tile h from a to b; the block before has size `prior`. */
  ghost predicate Tiles(h: seq<Mcb>, a: nat, blocks: seq<Block>, prior: nat, b: nat)
    decreases |blocks|
  {
    if blocks == [] then a == b
    else a < |h| && h[a] == Mcb(blocks[0].free, prior, blocks[0].len)
         && Tiles(h, a + MCB + blocks[0].len, blocks[1..], blocks[0].len, b)
  }

  /** Where the blocks end. */
  function End(a: nat, blocks: seq<Block>): nat
    decreases |blocks|
  {
    if blocks == [] then a else End(a + MCB + blocks[0].len, blocks[1..])
  }

  /** The size of the last block. */
  function LastLen(prior: nat, blocks: seq<Block>): nat {
    if blocks == [] then prior else blocks[|blocks|-1].len
  }

  ghost predicate NoTwoFree(blocks: seq<Block>) {
    forall i :: 0 <= i < |blocks| - 1 ==> !(blocks[i].free && blocks[i+1].free)
  }

  /** The payloads of the blocks in use. */
  ghost function Live(a: nat, blocks: seq<Block>): set<Payload>
    decreases |blocks|
  {
    if blocks == [] then {}
    else (if blocks[0].free then {} else {Payload(a + MCB, blocks[0].len)})
         + Live(a + MCB + blocks[0].len, blocks[1..])
  }

  lemma {:induction false} EndAppend(a: nat, p: seq<Block>, q: seq<Block>)
    ensures End(a, p + q) == End(End(a, p), q)
    decreases |p|
  {
    if p == [] {
      assert p + q == q;
    } else {
      assert (p + q)[1..] == p[1..] + q;
      EndAppend(a + MCB + p[0].len, p[1..], q);
    }
  }

  lemma {:induction false} EndBounds(a: nat, p: seq<Block>)
    ensures End(a, p) >= a + MCB * |p|
    decreases |p|
  {
    if p != [] { EndBounds(a + MCB + p[0].len, p[1..]); }
  }

  lemma {:induction false} TilesAppend(h: seq<Mcb>, a: nat, p: seq<Block>, q: seq<Block>, prior: nat, b: nat)
    ensures Tiles(h, a, p + q, prior, b) <==>
            Tiles(h, a, p, prior, End(a, p)) && Tiles(h, End(a, p), q, LastLen(prior, p), b)
    decreases |p|
  {
    if p == [] {
      assert p + q == q;
    } else {
      assert (p + q)[1..] == p[1..] + q;
      TilesAppend(h, a + MCB + p[0].len, p[1..], q, p[0].len, b);
    }
  }

  lemma {:induction false} TilesEnd(h: seq<Mcb>, a: nat, p: seq<Block>, prior: nat, b: nat)
    requires Tiles(h, a, p, prior, b)
    ensures b == End(a, p)
    decreases |p|
  {
    if p != [] { TilesEnd(h, a + MCB + p[0].len, p[1..], p[0].len, b); }
  }

  /** Writing outside a range keeps its tiling. */
  lemma {:induction false} TilesFrame(h: seq<Mcb>, h': seq<Mcb>, a: nat, p: seq<Block>, prior: nat, b: nat)
    requires Tiles(h, a, p, prior, b) && |h'| == |h|
    requires forall i :: a <= i < b && i < |h| ==> h'[i] == h[i]
    ensures Tiles(h', a, p, prior, b)
    decreases |p|
  {
    if p != [] {
      TilesEnd(h, a, p, prior, b);
      EndBounds(a, p);
      TilesFrame(h, h', a + MCB + p[0].len, p[1..], p[0].len, b);
    }
  }

  /** Writing the first header of a tiling. */
  lemma TilesFirst(h: seq<Mcb>, a: nat, p: seq<Block>, prior: nat, b: nat, prior': nat)
    requires Tiles(h, a, p, prior, b) && p != []
    ensures a < |h| && Tiles(h[a := h[a].(prior_blocksize := prior')], a, p, prior', b)
  {
    var h' := h[a := h[a].(prior_blocksize := prior')];
    var c := a + MCB + p[0].len;
    TilesFrame(h, h', c, p[1..], p[0].len, b);
  }

  lemma {:induction false} LiveAppend(a: nat, p: seq<Block>, q: seq<Block>)
    ensures Live(a, p + q) == Live(a, p) + Live(End(a, p), q)
    decreases |p|
  {
    if p == [] {
      assert p + q == q;
    } else {
      assert (p + q)[1..] == p[1..] + q;
      LiveAppend(a + MCB + p[0].len, p[1..], q);
    }
  }

  lemma {:induction false} LiveInside(a: nat, p: seq<Block>, x: Payload)
    requires x in Live(a, p)
    ensures a + MCB <= x.start && x.start + x.len <= End(a, p)
    decreases |p|
  {
    var c := a + MCB + p[0].len;
    EndBounds(c, p[1..]);
    if x in Live(c, p[1..]) { LiveInside(c, p[1..], x); }
  }

  /** Payloads in use never overlap, and each has the room for a header in front of it. */
  lemma {:induction false} LiveDisjoint(a: nat, p: seq<Block>, x: Payload, y: Payload)
    requires x in Live(a, p) && y in Live(a, p) && x != y
    ensures x.start + x.len + MCB <= y.start || y.start + y.len + MCB <= x.start
    decreases |p|
  {
    var c := a + MCB + p[0].len;
    if x in Live(c, p[1..]) { LiveInside(c, p[1..], x); }
    if y in Live(c, p[1..]) { LiveInside(c, p[1..], y); }
    if x in Live(c, p[1..]) && y in Live(c, p[1..]) { LiveDisjoint(c, p[1..], x, y); }
  }

  /** When nothing is in use, the heap is one free block again. */
  lemma NothingLive(blocks: seq<Block>, size: nat)
    requires blocks != [] && NoTwoFree(blocks) && Live(0, blocks) == {} && End(0, blocks) == size
    ensures size >= MCB && blocks == [Block(true, size - MCB)]
  {
    AllFree(0, blocks);
    if |blocks| > 1 { OneInUse(blocks); }
    assert blocks == [blocks[0]] && blocks[1..] == [];
  }

  lemma OneInUse(blocks: seq<Block>)
    requires NoTwoFree(blocks) && |blocks| > 1
    ensures exists i :: 0 <= i < |blocks| && !blocks[i].free
  {
    var i := 0;
    assert !(blocks[i].free && blocks[i+1].free);
  }

  lemma FirstLive(a: nat, blocks: seq<Block>)
    requires blocks != []
    ensures !blocks[0].free ==> Payload(a + MCB, blocks[0].len) in Live(a, blocks)
  {
  }

  lemma {:induction false} AllFree(a: nat, blocks: seq<Block>)
    requires Live(a, blocks) == {}
    ensures forall i :: 0 <= i < |blocks| ==> blocks[i].free
    decreases |blocks|
  {
    if blocks != [] {
      FirstLive(a, blocks);
      AllFree(a + MCB + blocks[0].len, blocks[1..]);
    }
  }

  // ------------------------------------------------------------ what the operations do to the blocks

  /** A block that my_malloc takes for n bytes: it fits exactly, or leaves room for one more header. */
  predicate Usable(b: Block, n: nat) {
    b.free && (b.len == n || b.len >= n + MCB)
  }

  ghost predicate SomeUsable(blocks: seq<Block>, n: nat) {
    exists i :: 0 <= i < |blocks| && Usable(blocks[i], n)
  }

  /** What becomes of a usable block. */
  function Taken(b: Block, n: nat): seq<Block>
    requires Usable(b, n)
  {
    if b.len == n then [Block(false, n)] else [Block(false, n), Block(true, b.len - n - MCB)]
  }

  /** The blocks between two neighbours after the middle one has been freed. */
  function Joined(left: seq<Block>, b: Block, right: seq<Block>): seq<Block> {
    var l := |left| > 0 && left[|left|-1].free;
    var r := |right| > 0 && right[0].free;
    var len := (if l then left[|left|-1].len + MCB else 0) + b.len + if r then MCB + right[0].len else 0;
    (if l then left[..|left|-1] else left) + [Block(true, len)] + (if r then right[1..] else right)
  }

  lemma TakenKeeps(a: nat, b: Block, n: nat)
    requires Usable(b, n)
    ensures End(a, Taken(b, n)) == End(a, [b])
    ensures Live(a, [b]) == {} && Live(a, Taken(b, n)) == {Payload(a + MCB, n)}
  {
    var t := Taken(b, n);
    assert t[1..] == (if b.len == n then [] else [t[1]]);
    assert [b][1..] == [];
    if b.len != n { assert t[1..][1..] == []; }
  }

  lemma TakenNoTwoFree(pre: seq<Block>, b: Block, post: seq<Block>, n: nat)
    requires Usable(b, n) && NoTwoFree(pre + [b] + post)
    ensures NoTwoFree(pre + Taken(b, n) + post)
  {
    var s, t := pre + [b] + post, pre + Taken(b, n) + post;
    forall i | 0 <= i < |t| - 1 ensures !(t[i].free && t[i+1].free) {
      if i + 1 < |pre| {
        assert s[i] == t[i] && s[i+1] == t[i+1];
      } else if i >= |pre| + |Taken(b, n)| - 1 {
        var j := i - |Taken(b, n)| + 1;
        assert s[j+1] == t[i+1] && (j > |pre| ==> s[j] == t[i]) && (j == |pre| ==> s[j] == b);
      }
    }
  }

  lemma Single(a: nat, b: Block)
    ensures End(a, [b]) == a + MCB + b.len
    ensures Live(a, [b]) == if b.free then {} else {Payload(a + MCB, b.len)}
  {
    assert [b][1..] == [];
  }

  /** A free block at the end of the left part, or at the start of the right part, split off. */
  lemma SplitLeft(a: nat, left: seq<Block>)
    requires left != []
    ensures End(a, left) == End(a, left[..|left|-1]) + MCB + left[|left|-1].len
    ensures left[|left|-1].free ==> Live(a, left) == Live(a, left[..|left|-1])
  {
    var l, x := left[..|left|-1], left[|left|-1];
    assert left == l + [x];
    EndAppend(a, l, [x]);
    LiveAppend(a, l, [x]);
    Single(End(a, l), x);
  }

  lemma Three(a: nat, l: seq<Block>, b: Block, r: seq<Block>)
    ensures End(a, l + [b] + r) == End(End(a, l) + MCB + b.len, r)
    ensures Live(a, l + [b] + r) == Live(a, l) + Live(End(a, l), [b]) + Live(End(a, l) + MCB + b.len, r)
  {
    EndAppend(a, l + [b], r);
    EndAppend(a, l, [b]);
    LiveAppend(a, l + [b], r);
    LiveAppend(a, l, [b]);
    Single(End(a, l), b);
  }

  lemma SplitRight(a: nat, right: seq<Block>)
    requires right != []
    ensures End(a, right) == End(a + MCB + right[0].len, right[1..])
    ensures right[0].free ==> Live(a, right) == Live(a + MCB + right[0].len, right[1..])
  {
  }

  /** What is left of the blocks before, and how much of them the joined block takes. */
  lemma LeftPart(a: nat, left: seq<Block>) returns (l0: seq<Block>, extra: nat)
    ensures l0 == if left != [] && left[|left|-1].free then left[..|left|-1] else left
    ensures extra == if left != [] && left[|left|-1].free then left[|left|-1].len + MCB else 0
    ensures End(a, left) == End(a, l0) + extra && Live(a, left) == Live(a, l0)
  {
    l0, extra := left, 0;
    if left != [] && left[|left|-1].free {
      SplitLeft(a, left);
      l0, extra := left[..|left|-1], left[|left|-1].len + MCB;
    }
  }

  lemma RightPart(f: nat, right: seq<Block>) returns (r0: seq<Block>, extra: nat)
    ensures r0 == if right != [] && right[0].free then right[1..] else right
    ensures extra == if right != [] && right[0].free then MCB + right[0].len else 0
    ensures End(f, right) == End(f + extra, r0) && Live(f, right) == Live(f + extra, r0)
  {
    r0, extra := right, 0;
    if right != [] && right[0].free {
      SplitRight(f, right);
      r0, extra := right[1..], MCB + right[0].len;
    }
  }

  lemma JoinedIs(left: seq<Block>, b: Block, right: seq<Block>, l0: seq<Block>, el: nat, r0: seq<Block>, er: nat)
    requires l0 == if left != [] && left[|left|-1].free then left[..|left|-1] else left
    requires el == if left != [] && left[|left|-1].free then left[|left|-1].len + MCB else 0
    requires r0 == if right != [] && right[0].free then right[1..] else right
    requires er == if right != [] && right[0].free then MCB + right[0].len else 0
    ensures Joined(left, b, right) == l0 + [Block(true, el + b.len + er)] + r0
  {
  }

  /** Joining changes neither where the blocks end nor which other blocks are in use. */
  lemma JoinedKeeps(a: nat, left: seq<Block>, b: Block, right: seq<Block>)
    requires !b.free
    ensures End(a, Joined(left, b, right)) == End(a, left + [b] + right)
    ensures Live(a, Joined(left, b, right)) ==
            Live(a, left + [b] + right) - {Payload(End(a, left) + MCB, b.len)}
  {
    hide *;
    var e := End(a, left);
    var f := e + MCB + b.len;
    var l0, el := LeftPart(a, left);
    var r0, er := RightPart(f, right);
    var m := Block(true, el + b.len + er);
    JoinedIs(left, b, right, l0, el, r0, er);
    Three(a, left, b, right);
    Three(a, l0, m, r0);
    assert End(a, l0) + MCB + m.len == f + er;
    Single(e, b);
    Single(End(a, l0), m);
    JoinedGone(a, left, b, right);
    RemoveOne(Live(a, left), Payload(e + MCB, b.len), Live(f, right));
  }

  lemma RemoveOne(s: set<Payload>, x: Payload, t: set<Payload>)
    requires x !in s + t
    ensures s + {x} + t - {x} == s + {} + t
  {
  }

  lemma JoinedGone(a: nat, left: seq<Block>, b: Block, right: seq<Block>)
    ensures Payload(End(a, left) + MCB, b.len) !in Live(a, left) + Live(End(a, left) + MCB + b.len, right)
  {
    var x := Payload(End(a, left) + MCB, b.len);
    if x in Live(a, left) { LiveInside(a, left, x); }
    if x in Live(End(a, left) + MCB + b.len, right) { LiveInside(End(a, left) + MCB + b.len, right, x); }
  }

  lemma JoinedNoTwoFree(left: seq<Block>, b: Block, right: seq<Block>)
    requires NoTwoFree(left + [b] + right)
    ensures NoTwoFree(Joined(left, b, right))
  {
    var s, t := left + [b] + right, Joined(left, b, right);
    var l := |left| > 0 && left[|left|-1].free;
    var r := |right| > 0 && right[0].free;
    var k := if l then |left| - 1 else |left|;
    var shift := (if l then 1 else 0) + if r then 1 else 0;
    forall i | 0 <= i < |t| - 1 ensures !(t[i].free && t[i+1].free) {
      if i + 1 < k {
        assert s[i] == t[i] && s[i+1] == t[i+1];
      } else if i + 1 == k {
        assert t[i] == s[i] && (l ==> s[i+1] == left[k]) && (!l ==> t[i] == left[|left|-1]);
      } else if i == k {
        assert t[i+1] == s[i + 1 + shift] && (r ==> s[i + shift] == right[0]) && (!r ==> t[i+1] == right[0]);
      } else {
        var j := i + shift;
        assert s[j] == t[i] && s[j+1] == t[i+1];
      }
    }
  }

  // ------------------------------------------------------------ serving a request

  ghost predicate ServedAt(before: seq<Block>, n: nat, loc: nat, after: seq<Block>, pre: seq<Block>, b: Block, post: seq<Block>) {
    && before == pre + [b] + post && !SomeUsable(pre, n) && Usable(b, n)
    && loc == End(0, pre) + MCB && after == pre + Taken(b, n) + post
  }

  /** The first usable block is handed out, or there is none. */
  ghost predicate Served(before: seq<Block>, n: nat, loc: nat, after: seq<Block>) {
    if loc == 0 then !SomeUsable(before, n) && after == before
    else exists pre, b, post :: ServedAt(before, n, loc, after, pre, b, post)
  }

  /** Every free block of this size, or with room for a header besides, starts at loc or behind it. */
  ghost predicate LowestFor(before: seq<Block>, n: nat, loc: nat) {
    forall k :: 0 <= k < |before| && before[k].free && (before[k].len == n || before[k].len >= n + MCB) ==>
      0 < loc <= PayloadOf(before, k)
  }

  /** Where the payload of block k starts. */
  function PayloadOf(blocks: seq<Block>, k: nat): nat
    requires k < |blocks|
  {
    End(0, blocks[..k]) + MCB
  }

  lemma ServedLowest(before: seq<Block>, n: nat, loc: nat, after: seq<Block>)
    requires Served(before, n, loc, after)
    ensures LowestFor(before, n, loc)
  {
    forall k | 0 <= k < |before| && before[k].free && (before[k].len == n || before[k].len >= n + MCB)
      ensures 0 < loc <= PayloadOf(before, k)
    {
      assert Usable(before[k], n);
      var pre, b, post :| ServedAt(before, n, loc, after, pre, b, post);
      EndAppend(0, pre, before[|pre|..k]);
      EndBounds(End(0, pre), before[|pre|..k]);
      assert before[..k] == pre + before[|pre|..k];
    }
  }

  lemma ServedHere(pre: seq<Block>, b: Block, post: seq<Block>, n: nat)
    requires !SomeUsable(pre, n) && Usable(b, n)
    ensures var before, loc, after := pre + [b] + post, End(0, pre) + MCB, pre + Taken(b, n) + post;
            && loc > 0 && Served(before, n, loc, after) && SomeUsable(before, n)
            && Payload(loc, n) !in Live(0, before) && Live(0, after) == Live(0, before) + {Payload(loc, n)}
  {
    var before, loc, after := pre + [b] + post, End(0, pre) + MCB, pre + Taken(b, n) + post;
    assert before[|pre|] == b;
    assert ServedAt(before, n, loc, after, pre, b, post);
    assert loc > 0 && Served(before, n, loc, after) && SomeUsable(before, n);
    ServedLive(pre, b, post, n);
  }

  /** A payload right behind the blocks, or a header before them, is none of theirs. */
  lemma NotLive(a: nat, blocks: seq<Block>, x: Payload)
    requires x.start == End(a, blocks) + MCB || x.start < a + MCB
    ensures x !in Live(a, blocks)
  {
    if x in Live(a, blocks) { LiveInside(a, blocks, x); }
  }

  lemma ServedLive(pre: seq<Block>, b: Block, post: seq<Block>, n: nat)
    requires Usable(b, n)
    ensures Payload(End(0, pre) + MCB, n) !in Live(0, pre + [b] + post)
    ensures Live(0, pre + Taken(b, n) + post) == Live(0, pre + [b] + post) + {Payload(End(0, pre) + MCB, n)}
  {
    assert MCB > 0;
    hide *;
    var x := Payload(End(0, pre) + MCB, n);
    var e := End(0, pre) + MCB + b.len;
    Three(0, pre, b, post);
    TakenKeeps(End(0, pre), b, n);
    Single(End(0, pre), b);
    LiveAppend(0, pre + Taken(b, n), post);
    LiveAppend(0, pre, Taken(b, n));
    EndAppend(0, pre, Taken(b, n));
    NotLive(0, pre, x);
    NotLive(e, post, x);
  }

  lemma IsUsable(b: Block, n: nat)
    ensures Usable(b, n) <==> b.free && (b.len == n || b.len >= n + MCB)
  {
  }

  lemma NoneServed(blocks: seq<Block>, n: nat)
    requires !SomeUsable(blocks, n)
    ensures Served(blocks, n, 0, blocks)
  {
  }

  lemma NothingPassed(blocks: seq<Block>, n: nat)
    ensures [] + blocks == blocks && End(0, []) == 0 && !SomeUsable([], n)
  {
  }

  /** What the cursor of `my_malloc` points at. */
  lemma AtCursor(h: seq<Mcb>, pre: seq<Block>, post: seq<Block>, size: nat)
    requires Tiles(h, 0, pre + post, 0, size) && End(0, pre) != size
    ensures post != [] && post == [post[0]] + post[1..] && pre + post == pre + [post[0]] + post[1..]
    ensures End(0, pre) < |h| && h[End(0, pre)] == Mcb(post[0].free, LastLen(0, pre), post[0].len)
  {
    TilesAppend(h, 0, pre, post, 0, size);
  }

  lemma AtEnd(h: seq<Mcb>, pre: seq<Block>, post: seq<Block>, size: nat)
    requires Tiles(h, 0, pre + post, 0, size) && End(0, pre) == size
    ensures post == [] && pre + post == pre
  {
    TilesEnd(h, 0, pre + post, 0, size);
    EndAppend(0, pre, post);
    EndBounds(size, post);
  }

  /** The headers of a block and of its neighbours. */
  lemma Parts(h: seq<Mcb>, pre: seq<Block>, b: Block, post: seq<Block>, size: nat)
    requires Tiles(h, 0, pre + [b] + post, 0, size) && |h| == size
    ensures Tiles(h, 0, pre, 0, End(0, pre))
    ensures End(0, pre) < size && h[End(0, pre)] == Mcb(b.free, LastLen(0, pre), b.len)
    ensures End(0, pre) + MCB + b.len <= size
    ensures Tiles(h, End(0, pre) + MCB + b.len, post, b.len, size)
    ensures post == [] <==> End(0, pre) + MCB + b.len == size
    ensures post != [] ==> End(0, pre) + MCB + b.len < size
    ensures post != [] ==> h[End(0, pre) + MCB + b.len] == Mcb(post[0].free, b.len, post[0].len)
    ensures post != [] ==> End(0, pre) + MCB + b.len + MCB + post[0].len <= size
  {
    var e := End(0, pre) + MCB + b.len;
    TilesAppend(h, 0, pre + [b], post, 0, size);
    TilesAppend(h, 0, pre, [b], 0, End(0, pre + [b]));
    EndAppend(0, pre, [b]);
    Single(End(0, pre), b);
    TilesEnd(h, e, post, b.len, size);
    EndBounds(e, post);
    if post != [] { EndBounds(e + MCB + post[0].len, post[1..]); }
  }

  /** The converse: three parts that fit together. */
  lemma Assemble(h: seq<Mcb>, pre: seq<Block>, mid: seq<Block>, post: seq<Block>, size: nat, c: nat, e: nat)
    requires c == End(0, pre) && e == End(c, mid) && mid != []
    requires Tiles(h, 0, pre, 0, c) && Tiles(h, c, mid, LastLen(0, pre), e) && Tiles(h, e, post, mid[|mid|-1].len, size)
    ensures Tiles(h, 0, pre + mid + post, 0, size)
  {
    EndAppend(0, pre, mid);
    TilesAppend(h, 0, pre, mid, 0, e);
    TilesAppend(h, 0, pre + mid, post, 0, size);
  }

  lemma TakenSome(b: Block, n: nat)
    requires Usable(b, n)
    ensures Taken(b, n) != []
  {
  }

  /** The heap after the writes of `my_malloc`. */
  ghost function TakenHeap(h: seq<Mcb>, c: nat, b: Block, n: nat, size: nat): seq<Mcb>
    requires |h| == size && c + MCB + b.len <= size && Usable(b, n)
  {
    if b.len == n then h[c := h[c].(is_available := false)]
    else
      var rest := b.len - n - MCB;
      var h1 := h[c := h[c].(is_available := false, current_blocksize := n)][c + n + MCB := Mcb(true, n, rest)];
      var e := c + b.len + MCB;
      if e == size then h1 else h1[e := h1[e].(prior_blocksize := rest)]
  }

  /** A larger block is cut in two, and the block behind it told the size of the second one. */
  lemma TakenSplit(h: seq<Mcb>, c: nat, b: Block, post: seq<Block>, n: nat, size: nat)
    requires |h| == size && c + MCB + b.len <= size && Usable(b, n) && b.len != n
    requires Tiles(h, c + MCB + b.len, post, b.len, size)
    ensures var h' := TakenHeap(h, c, b, n, size);
            Tiles(h', c, Taken(b, n), h[c].prior_blocksize, c + MCB + b.len) && Tiles(h', c + MCB + b.len, post, b.len - n - MCB, size)
  {
    var e, rest := c + MCB + b.len, b.len - n - MCB;
    var h' := TakenHeap(h, c, b, n, size);
    if post != [] {
      TilesFirst(h, e, post, b.len, size, rest);
      TilesFrame(h[e := h[e].(prior_blocksize := rest)], h', e, post, rest, size);
    }
    var t := Taken(b, n);
    assert t[1..] == [Block(true, rest)] && t[1..][1..] == [];
    assert Tiles(h', c + MCB + n, t[1..], n, e);
  }

  lemma TakenTiles(h: seq<Mcb>, pre: seq<Block>, b: Block, post: seq<Block>, n: nat, size: nat)
    requires Tiles(h, 0, pre + [b] + post, 0, size) && |h| == size && Usable(b, n)
    ensures End(0, pre) + MCB + b.len <= size
    ensures Tiles(TakenHeap(h, End(0, pre), b, n, size), 0, pre + Taken(b, n) + post, 0, size)
  {
    var c, e := End(0, pre), End(0, pre) + MCB + b.len;
    Parts(h, pre, b, post, size);
    var h' := TakenHeap(h, c, b, n, size);
    TilesFrame(h, h', 0, pre, 0, c);
    TakenKeeps(c, b, n);
    Single(c, b);
    if b.len == n {
      TilesFrame(h, h', e, post, n, size);
      assert [Block(false, n)][1..] == [];
    } else {
      TakenSplit(h, c, b, post, n, size);
    }
    Assemble(h', pre, Taken(b, n), post, size, c, e);
  }

  // ------------------------------------------------------------ releasing a block

  /** The heap while `my_free` works on block m: everything is in place, except that the block
      after m may still hold an old size q of its predecessor. */
  ghost predicate Loose(h: seq<Mcb>, pre: seq<Block>, m: Block, post: seq<Block>, size: nat, q: nat) {
    var c := End(0, pre);
    && |h| == size && Tiles(h, 0, pre, 0, c)
    && c + MCB + m.len <= size && h[c] == Mcb(m.free, LastLen(0, pre), m.len)
    && Tiles(h, c + MCB + m.len, post, q, size)
  }

  lemma LooseFree(h: seq<Mcb>, pre: seq<Block>, b: Block, post: seq<Block>, size: nat)
    requires Tiles(h, 0, pre + [b] + post, 0, size) && |h| == size
    ensures End(0, pre) < |h|
    ensures Loose(h[End(0, pre) := h[End(0, pre)].(is_available := true)], pre, Block(true, b.len), post, size, b.len)
  {
    Parts(h, pre, b, post, size);
    var c := End(0, pre);
    var h' := h[c := h[c].(is_available := true)];
    TilesFrame(h, h', 0, pre, 0, c);
    TilesFrame(h, h', c + MCB + b.len, post, b.len, size);
  }

  /** The block before m, as my_free finds it. */
  lemma LooseBefore(h: seq<Mcb>, pre: seq<Block>, m: Block, post: seq<Block>, size: nat, q: nat)
    requires Loose(h, pre, m, post, size, q)
    ensures End(0, pre) < |h| && h[End(0, pre)] == Mcb(m.free, LastLen(0, pre), m.len)
    ensures End(0, pre) == 0 <==> pre == []
    ensures pre != [] ==>
              var l, x := pre[..|pre|-1], pre[|pre|-1];
              && LastLen(0, pre) == x.len && End(0, pre) == End(0, l) + x.len + MCB
              && h[End(0, l)] == Mcb(x.free, LastLen(0, l), x.len)
  {
    EndBounds(0, pre);
    if pre != [] {
      var l, x := pre[..|pre|-1], pre[|pre|-1];
      assert pre == l + [x];
      TilesAppend(h, 0, l, [x], 0, End(0, pre));
      SplitLeft(0, pre);
    }
  }

  lemma LooseBack(h: seq<Mcb>, pre: seq<Block>, m: Block, post: seq<Block>, size: nat, q: nat)
    requires Loose(h, pre, m, post, size, q) && pre != [] && m.free && pre[|pre|-1].free
    ensures var l, x := pre[..|pre|-1], pre[|pre|-1];
            End(0, l) < |h| &&
            Loose(h[End(0, l) := h[End(0, l)].(current_blocksize := x.len + m.len + MCB)],
                  l, Block(true, x.len + m.len + MCB), post, size, q)
  {
    var l, x := pre[..|pre|-1], pre[|pre|-1];
    LooseBefore(h, pre, m, post, size, q);
    var p, c := End(0, l), End(0, pre);
    var h' := h[p := h[p].(current_blocksize := x.len + m.len + MCB)];
    assert pre == l + [x];
    TilesAppend(h, 0, l, [x], 0, c);
    TilesFrame(h, h', 0, l, 0, p);
    TilesFrame(h, h', c + MCB + m.len, post, q, size);
  }

  /** The block after m, as my_free finds it. */
  lemma LooseAfter(h: seq<Mcb>, pre: seq<Block>, m: Block, post: seq<Block>, size: nat, q: nat)
    requires Loose(h, pre, m, post, size, q)
    ensures var e := End(0, pre) + MCB + m.len;
            (e == size <==> post == []) && (post != [] ==> e < |h| && h[e] == Mcb(post[0].free, q, post[0].len))
  {
    var e := End(0, pre) + MCB + m.len;
    TilesEnd(h, e, post, q, size);
    EndBounds(e, post);
  }

  lemma LooseOn(h: seq<Mcb>, pre: seq<Block>, m: Block, post: seq<Block>, size: nat, q: nat)
    requires Loose(h, pre, m, post, size, q) && post != [] && post[0].free && m.free
    ensures End(0, pre) < |h|
    ensures Loose(h[End(0, pre) := h[End(0, pre)].(current_blocksize := m.len + MCB + post[0].len)],
                  pre, Block(true, m.len + MCB + post[0].len), post[1..], size, post[0].len)
  {
    var c := End(0, pre);
    var e := c + MCB + m.len;
    var h' := h[c := h[c].(current_blocksize := m.len + MCB + post[0].len)];
    TilesFrame(h, h', 0, pre, 0, c);
    TilesEnd(h, e, post, q, size);
    EndBounds(e + MCB + post[0].len, post[1..]);
    TilesFrame(h, h', e + MCB + post[0].len, post[1..], post[0].len, size);
  }

  lemma LooseDone(h: seq<Mcb>, pre: seq<Block>, m: Block, post: seq<Block>, size: nat, q: nat)
    requires Loose(h, pre, m, post, size, q)
    ensures post == [] ==> Tiles(h, 0, pre + [m] + post, 0, size)
    ensures post != [] ==>
              var e := End(0, pre) + MCB + m.len;
              e < |h| && Tiles(h[e := h[e].(prior_blocksize := m.len)], 0, pre + [m] + post, 0, size)
  {
    var c := End(0, pre);
    var e := c + MCB + m.len;
    Single(c, m);
    assert [m][1..] == [];
    if post == [] {
      Assemble(h, pre, [m], post, size, c, e);
    } else {
      TilesFirst(h, e, post, q, size, m.len);
      var h' := h[e := h[e].(prior_blocksize := m.len)];
      TilesFrame(h, h', 0, pre, 0, c);
      Assemble(h', pre, [m], post, size, c, e);
    }
  }

  lemma InUse(a: nat, left: seq<Block>, b: Block, right: seq<Block>)
    requires !b.free
    ensures Payload(End(a, left) + MCB, b.len) in Live(a, left + [b] + right)
  {
    Three(a, left, b, right);
    Single(End(a, left), b);
  }

  // ------------------------------------------------------------ the heap

  class Heap {
    const size: nat
    const heap: array<Mcb>
    var has_initialized: bool
    ghost var blocks: seq<Block>

    ghost predicate Valid()
      reads this, heap
    {
      && size >= MCB && heap.Length == size && NoTwoFree(blocks) && blocks != []
      && if has_initialized then Tiles(heap[..], 0, blocks, 0, size) else blocks == [Block(true, size - MCB)]
    }

    constructor (size: nat)
      requires size >= MCB
      ensures Valid() && !has_initialized && this.size == size && fresh(heap)
    {
      this.size := size;
      heap := new Mcb[size](_ => Mcb(false, 0, 0));
      has_initialized := false;
      blocks := [Block(true, size - MCB)];
    }

    /** `my_malloc_init` */
    method Init()
      requires Valid() && !has_initialized
      modifies heap, `has_initialized
      ensures Valid() && has_initialized
    {
      heap[0] := Mcb(true, 0, size - MCB);
      has_initialized := true;
      ghost var h := heap[..];
      assert h[0] == Mcb(true, 0, size - MCB) && blocks[1..] == [];
    }

    /** `my_malloc`: the first usable block serves the request; the result is NULL exactly if no
        free block has the size or room for one more header besides. */
    method Malloc(numbytes: nat) returns (memory_location: nat)
      requires Valid()
      modifies heap, `has_initialized, `blocks
      ensures Valid() && has_initialized
      ensures Served(old(blocks), numbytes, memory_location, blocks)
      ensures memory_location == 0 <==> !SomeUsable(old(blocks), numbytes)
      ensures LowestFor(old(blocks), numbytes, memory_location)
      ensures memory_location == 0 ==> blocks == old(blocks)
      ensures memory_location != 0 ==>
                && Payload(memory_location, numbytes) !in Live(0, old(blocks))
                && Live(0, blocks) == Live(0, old(blocks)) + {Payload(memory_location, numbytes)}
    {
      hide *;
      if !has_initialized { Init(); }
      var current_location := 0;
      ghost var pre, post := [], blocks;
      NothingPassed(blocks, numbytes);
      while current_location != size
        invariant Valid() && has_initialized && blocks == old(blocks)
        invariant blocks == pre + post && current_location == End(0, pre) && !SomeUsable(pre, numbytes)
        decreases |post|
      {
        ValidParts();
        AtCursor(heap[..], pre, post, size);
        ghost var b := post[0];
        var mcb := heap[current_location];
        assert mcb == heap[..][current_location];
        IsUsable(b, numbytes);
        if mcb.is_available {
          if mcb.current_blocksize == numbytes || mcb.current_blocksize >= numbytes + MCB {
            ServedHere(pre, b, post[1..], numbytes);
            memory_location := Take(current_location, numbytes, pre, b, post[1..]);
            ServedLowest(old(blocks), numbytes, memory_location, blocks);
            return;
          }
        }
        NextBlock(pre, post, numbytes);
        current_location := current_location + mcb.current_blocksize + MCB;
        pre, post := pre + [b], post[1..];
      }
      ValidParts();
      AtEnd(heap[..], pre, post, size);
      assert pre == blocks;
      memory_location := 0;
      assert Served(old(blocks), numbytes, 0, blocks) by { NoneServed(blocks, numbytes); }
      ServedLowest(old(blocks), numbytes, 0, blocks);
    }

    /** The block at the cursor is handed out: the two branches inside the loop of `my_malloc`. */
    method Take(current_location: nat, numbytes: nat, ghost pre: seq<Block>, ghost b: Block, ghost post: seq<Block>)
      returns (memory_location: nat)
      requires Valid() && has_initialized && blocks == pre + [b] + post && Usable(b, numbytes)
      requires current_location == End(0, pre)
      modifies heap, `blocks
      ensures Valid() && has_initialized && memory_location == current_location + MCB
      ensures blocks == pre + Taken(b, numbytes) + post
    {
      hide Tiles, NoTwoFree, Live, End, Taken;
      ghost var h := heap[..];
      Parts(h, pre, b, post, size);
      TakenNoTwoFree(pre, b, post, numbytes);
      TakenTiles(h, pre, b, post, numbytes, size);
      assert heap[current_location] == h[current_location];
      var process_blocksize := heap[current_location].current_blocksize;
      heap[current_location] := heap[current_location].(is_available := false);
      if process_blocksize != numbytes {
        heap[current_location] := heap[current_location].(current_blocksize := numbytes);
        heap[current_location + numbytes + MCB] := Mcb(true, numbytes, process_blocksize - numbytes - MCB);
        var otherbck_location := current_location + process_blocksize + MCB;
        if otherbck_location != size {
          heap[otherbck_location] := heap[otherbck_location].(prior_blocksize := process_blocksize - numbytes - MCB);
        }
      }
      blocks := pre + Taken(b, numbytes) + post;
      assert heap[..] == TakenHeap(h, current_location, b, numbytes, size);
      assert blocks != [] by { TakenSome(b, numbytes); }
      memory_location := current_location + MCB;
    }

    /** `my_free` for block k, whose payload starts at firstbyte: the block is freed and joined
        with the free blocks beside it; what else is in use stays as it was. */
    method Free(firstbyte: nat, ghost k: nat)
      requires Valid() && has_initialized
      requires k < |blocks| && !blocks[k].free && firstbyte == End(0, blocks[..k]) + MCB
      modifies heap, `blocks
      ensures Valid() && has_initialized
      ensures blocks == Joined(old(blocks[..k]), old(blocks[k]), old(blocks[k+1..]))
      ensures Payload(firstbyte, old(blocks[k]).len) in Live(0, old(blocks))
      ensures Live(0, blocks) == Live(0, old(blocks)) - {Payload(firstbyte, old(blocks[k]).len)}
    {
      ghost var left, b, right := blocks[..k], blocks[k], blocks[k+1..];
      assert blocks == left + [b] + right;
      ghost var pre, m, post, q := left, Block(true, b.len), right, b.len;
      hide *;
      ValidParts();
      JoinedNoTwoFree(left, b, right);
      JoinedKeeps(0, left, b, right);
      InUse(0, left, b, right);
      LooseFree(heap[..], left, b, right, size);
      var current_location := firstbyte - MCB;
      ghost var h := heap[..];
      heap[current_location] := heap[current_location].(is_available := true);
      assert heap[..] == h[current_location := h[current_location].(is_available := true)];
      h := heap[..];
      LooseBefore(h, pre, m, post, size, q);
      assert heap[current_location] == h[current_location];
      if current_location != 0 {
        var otherbck_location := current_location - heap[current_location].prior_blocksize - MCB;
        assert heap[otherbck_location] == h[otherbck_location];
        if heap[otherbck_location].is_available {
          LooseBack(h, pre, m, post, size, q);
          heap[otherbck_location] := heap[otherbck_location].(current_blocksize :=
            heap[otherbck_location].current_blocksize + heap[current_location].current_blocksize + MCB);
          current_location := otherbck_location;
          pre, m := pre[..|pre|-1], Block(true, pre[|pre|-1].len + m.len + MCB);
          assert heap[..] == h[current_location := h[current_location].(current_blocksize := m.len)];
        }
      }
      assert BackJoined(left, b, pre, m) by { BackDone(left, b, pre, m); }
      JoinNext(current_location, pre, m, post, q, left, b, right);
    }

    lemma ValidParts()
      requires Valid() && has_initialized
      ensures heap.Length == |heap[..]| == size && NoTwoFree(blocks) && Tiles(heap[..], 0, blocks, 0, size)
    {
    }

    lemma PartsValid()
      requires size >= MCB && heap.Length == size && has_initialized
      requires NoTwoFree(blocks) && blocks != [] && Tiles(heap[..], 0, blocks, 0, size)
      ensures Valid()
    {
    }

    /** The second half of `my_free`: joining with the next block, and telling the one after. */
    method JoinNext(current_location: nat, ghost pre: seq<Block>, ghost m0: Block, ghost post0: seq<Block>, ghost q0: nat,
                    ghost left: seq<Block>, ghost b: Block, ghost right: seq<Block>)
      requires size >= MCB && heap.Length == size && has_initialized
      requires Loose(heap[..], pre, m0, post0, size, q0) && m0.free && current_location == End(0, pre)
      requires BackJoined(left, b, pre, m0) && post0 == right && NoTwoFree(Joined(left, b, right))
      modifies heap, `blocks
      ensures Valid() && has_initialized && blocks == Joined(left, b, right)
    {
      hide *;
      ghost var m, post, q := m0, post0, q0;
      ghost var h := heap[..];
      LooseBefore(h, pre, m, post, size, q);
      LooseAfter(h, pre, m, post, size, q);
      assert heap[current_location] == h[current_location];
      var otherbck_location := current_location + MCB + heap[current_location].current_blocksize;
      if otherbck_location != size {
        assert heap[otherbck_location] == h[otherbck_location];
        if heap[otherbck_location].is_available {
          LooseOn(h, pre, m, post, size, q);
          heap[current_location] := heap[current_location].(current_blocksize :=
            heap[current_location].current_blocksize + MCB + heap[otherbck_location].current_blocksize);
          m, q, post := Block(true, m.len + MCB + post[0].len), post[0].len, post[1..];
          assert heap[..] == h[current_location := h[current_location].(current_blocksize := m.len)];
        }
      }
      IsJoined(left, b, right, pre, m0, m, post);
      h := heap[..];
      LooseBefore(h, pre, m, post, size, q);
      LooseAfter(h, pre, m, post, size, q);
      LooseDone(h, pre, m, post, size, q);
      assert heap[current_location] == h[current_location];
      otherbck_location := current_location + MCB + heap[current_location].current_blocksize;
      if otherbck_location != size {
        heap[otherbck_location] := heap[otherbck_location].(prior_blocksize := heap[current_location].current_blocksize);
        assert heap[..] == h[otherbck_location := h[otherbck_location].(prior_blocksize := m.len)];
      }
      blocks := Joined(left, b, right);
      PartsValid();
    }
  }

  /** The first half of `my_free` has left pre and m of the left part and block b. */
  ghost predicate BackJoined(left: seq<Block>, b: Block, pre: seq<Block>, m: Block) {
    if left != [] && left[|left|-1].free
    then pre == left[..|left|-1] && m == Block(true, left[|left|-1].len + b.len + MCB)
    else pre == left && m == Block(true, b.len)
  }

  lemma BackDone(left: seq<Block>, b: Block, pre: seq<Block>, m: Block)
    requires if left != [] && left[|left|-1].free
             then pre == left[..|left|-1] && m == Block(true, left[|left|-1].len + b.len + MCB)
             else pre == left && m == Block(true, b.len)
    ensures BackJoined(left, b, pre, m)
  {
  }

  lemma IsJoined(left: seq<Block>, b: Block, right: seq<Block>, pre: seq<Block>, m0: Block, m: Block, post: seq<Block>)
    requires BackJoined(left, b, pre, m0)
    requires if right != [] && right[0].free
             then m == Block(true, m0.len + MCB + right[0].len) && post == right[1..]
             else m == m0 && post == right
    ensures pre + [m] + post == Joined(left, b, right) != []
  {
  }

  lemma NextBlock(pre: seq<Block>, post: seq<Block>, n: nat)
    requires post != [] && !SomeUsable(pre, n) && !Usable(post[0], n)
    ensures pre + post == pre + [post[0]] + post[1..] && !SomeUsable(pre + [post[0]], n)
    ensures End(0, pre + [post[0]]) == End(0, pre) + MCB + post[0].len
  {
    EndAppend(0, pre, [post[0]]);
    Single(End(0, pre), post[0]);
  }
}
