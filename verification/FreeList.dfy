/** The storage allocator `kr_malloc_free.c`: a circular list of free blocks, kept in the order of
    their addresses, over memory counted in units of one header. */
module FreeList {
  import opened Shared

  /** `NALLOC` */
  const NALLOC: nat := 1024

  /** `sizeof(Header)` */
  const HEADER: nat := 16

  datatype Header = Header(ptr: nat, size: nat)

  datatype Blk = Blk(addr: nat, size: nat)

  // ------------------------------------------------------------ what the list looks like

  /** The free blocks by increasing address: the empty block `base` comes first, and between two
      neighbours there is always something that is not free. */
  ghost predicate Ordered(base: nat, nodes: seq<Blk>) {
    nodes != [] && nodes[0] == Blk(base, 0) && Spread(nodes) && Sized(nodes[1..])
  }

  ghost predicate Spread(s: seq<Blk>) {
    forall i, j :: 0 <= i < j < |s| ==> Clear(s[i], s[j])
  }

  ghost predicate Clear(a: Blk, b: Blk) {
    a.addr + a.size < b.addr
  }

  ghost predicate Sized(s: seq<Blk>) {
    forall i :: 0 <= i < |s| ==> s[i].size > 0
  }

  ghost predicate AllClear(s: seq<Blk>, b: Blk) {
    forall i :: 0 <= i < |s| ==> Clear(s[i], b)
  }

  ghost predicate ClearOfAll(b: Blk, s: seq<Blk>) {
    forall i :: 0 <= i < |s| ==> Clear(b, s[i])
  }

  /** A block between two spread lists. */
  lemma SpreadThree(s: seq<Blk>, b: Blk, t: seq<Blk>)
    ensures Spread(s + [b] + t) <==>
            Spread(s) && Spread(t) && AllClear(s, b) && ClearOfAll(b, t) && SpreadApart(s, t)
  {
    var r := s + [b] + t;
    if Spread(r) {
      forall i, j | 0 <= i < j < |s| ensures Clear(s[i], s[j]) { assert Clear(r[i], r[j]); }
      forall i, j | 0 <= i < j < |t| ensures Clear(t[i], t[j]) { assert Clear(r[|s| + 1 + i], r[|s| + 1 + j]); }
      forall i | 0 <= i < |s| ensures Clear(s[i], b) { assert Clear(r[i], r[|s|]); }
      forall i | 0 <= i < |t| ensures Clear(b, t[i]) { assert Clear(r[|s|], r[|s| + 1 + i]); }
      forall i, j | 0 <= i < |s| && 0 <= j < |t| ensures Clear(s[i], t[j]) { assert Clear(r[i], r[|s| + 1 + j]); }
    }
  }

  ghost predicate SpreadApart(s: seq<Blk>, t: seq<Blk>) {
    forall i, j :: 0 <= i < |s| && 0 <= j < |t| ==> Clear(s[i], t[j])
  }

  lemma SizedThree(s: seq<Blk>, b: Blk, t: seq<Blk>)
    ensures Sized(s + [b] + t) <==> Sized(s) && b.size > 0 && Sized(t)
  {
    var r := s + [b] + t;
    if Sized(r) {
      forall i | 0 <= i < |s| ensures s[i].size > 0 { assert r[i].size > 0; }
      assert r[|s|].size > 0;
      forall i | 0 <= i < |t| ensures t[i].size > 0 { assert r[|s| + 1 + i].size > 0; }
    }
  }

  lemma FreeThree(s: seq<Blk>, b: Blk, t: seq<Blk>, u: nat)
    ensures Free(s + [b] + t, u) <==> Free(s, u) || Covers(b, u) || Free(t, u)
  {
    var r := s + [b] + t;
    if i :| 0 <= i < |s| && Covers(s[i], u) { assert Covers(r[i], u); }
    if Covers(b, u) { assert Covers(r[|s|], u); }
    if i :| 0 <= i < |t| && Covers(t[i], u) { assert Covers(r[|s| + 1 + i], u); }
    if i :| 0 <= i < |r| && Covers(r[i], u) {
      if i < |s| { assert Covers(s[i], u); } else if i > |s| { assert Covers(t[i - |s| - 1], u); }
    }
  }

  type Memory = map<nat, Header>

  function First(s: seq<Blk>, last: nat): nat {
    if s == [] then last else s[0].addr
  }

  /** The headers in memory lead through exactly these blocks, and from the last one to `last`. */
  ghost predicate Chain(mem: Memory, s: seq<Blk>, last: nat) {
    s == [] || (s[0].addr in mem && mem[s[0].addr] == Header(First(s[1..], last), s[0].size) && Chain(mem, s[1..], last))
  }

  /** The free list is one circle. */
  ghost predicate Circle(mem: Memory, nodes: seq<Blk>) {
    nodes != [] && Chain(mem, nodes, nodes[0].addr)
  }

  lemma {:induction false} ChainAppend(mem: Memory, s: seq<Blk>, t: seq<Blk>, last: nat)
    ensures Chain(mem, s + t, last) <==> Chain(mem, s, First(t, last)) && Chain(mem, t, last)
  {
    if s == [] {
      assert s + t == t;
    } else {
      assert (s + t)[1..] == s[1..] + t;
      ChainAppend(mem, s[1..], t, last);
    }
  }

  lemma ChainThree(mem: Memory, s: seq<Blk>, b: Blk, t: seq<Blk>, last: nat)
    ensures Chain(mem, s + [b] + t, last) <==>
            Chain(mem, s, b.addr) && b.addr in mem && mem[b.addr] == Header(First(t, last), b.size) && Chain(mem, t, last)
  {
    ChainAppend(mem, s + [b], t, last);
    ChainAppend(mem, s, [b], First(t, last));
    assert [b][1..] == [];
  }

  /** Writing other headers keeps a chain. */
  lemma {:induction false} ChainFrame(mem: Memory, mem': Memory, s: seq<Blk>, last: nat)
    requires Chain(mem, s, last)
    requires forall i :: 0 <= i < |s| && s[i].addr in mem ==> s[i].addr in mem' && mem'[s[i].addr] == mem[s[i].addr]
    ensures Chain(mem', s, last)
  {
    if s != [] {
      assert s[0].addr in mem';
      forall i | 0 <= i < |s[1..]| && s[1..][i].addr in mem
        ensures s[1..][i].addr in mem' && mem'[s[1..][i].addr] == mem[s[1..][i].addr]
      {
        assert s[1..][i] == s[i+1];
      }
      ChainFrame(mem, mem', s[1..], last);
    }
  }

  /** The address of the node after node i on the circle. */
  function Next(nodes: seq<Blk>, i: nat): nat
    requires i < |nodes|
  {
    if i + 1 < |nodes| then nodes[i+1].addr else nodes[0].addr
  }

  lemma ChainAt(mem: Memory, nodes: seq<Blk>, i: nat)
    requires Circle(mem, nodes) && i < |nodes|
    ensures nodes[i].addr in mem && mem[nodes[i].addr] == Header(Next(nodes, i), nodes[i].size)
  {
    assert nodes == nodes[..i] + [nodes[i]] + nodes[i+1..];
    ChainThree(mem, nodes[..i], nodes[i], nodes[i+1..], nodes[0].addr);
  }

  ghost predicate Covers(b: Blk, u: nat) {
    b.addr <= u < b.addr + b.size
  }

  ghost predicate Apart(a: Blk, b: Blk) {
    a.addr + a.size <= b.addr || b.addr + b.size <= a.addr
  }

  ghost predicate Free(nodes: seq<Blk>, u: nat) {
    exists i :: 0 <= i < |nodes| && Covers(nodes[i], u)
  }

  ghost predicate InUse(live: set<Blk>, u: nat) {
    exists x :: x in live && Covers(x, u)
  }

  /** The blocks in use are apart from each other and from the free ones, and have their headers. */
  ghost predicate LiveOK(base: nat, brk: nat, mem: Memory, nodes: seq<Blk>, live: set<Blk>) {
    && (forall x :: x in live ==> x.size > 0 && base < x.addr && x.addr + x.size <= brk)
    && (forall x :: x in live ==> x.addr in mem && mem[x.addr].size == x.size)
    && (forall x, y :: x in live && y in live && x != y ==> Apart(x, y))
    && forall x, i :: x in live && 0 <= i < |nodes| ==> Apart(x, nodes[i])
  }

  ghost predicate Inside(nodes: seq<Blk>, brk: nat) {
    forall i :: 0 <= i < |nodes| ==> nodes[i].addr + nodes[i].size <= brk
  }

  /** Every unit obtained from the system is free or in use, and no other unit is. */
  ghost predicate Accounted(nodes: seq<Blk>, live: set<Blk>, arena: set<nat>) {
    forall u: nat :: u in arena <==> Free(nodes, u) || InUse(live, u)
  }

  /** No unit is both free and in use, or in two blocks in use. */
  lemma NeverBoth(base: nat, brk: nat, mem: Memory, nodes: seq<Blk>, live: set<Blk>, u: nat)
    requires LiveOK(base, brk, mem, nodes, live)
    ensures !(Free(nodes, u) && InUse(live, u))
    ensures forall x, y :: x in live && y in live && Covers(x, u) && Covers(y, u) ==> x == y
  {
    forall x, i | x in live && 0 <= i < |nodes| && Covers(x, u) ensures !Covers(nodes[i], u) {
      assert Apart(x, nodes[i]);
    }
    forall x, y | x in live && y in live && Covers(x, u) && Covers(y, u) ensures x == y {
      assert x != y ==> Apart(x, y);
    }
  }

  // ------------------------------------------------------------ inserting a block

  /** Node t is the last one below the block. */
  ghost predicate Before(nodes: seq<Blk>, t: nat, b: Blk) {
    t < |nodes| && nodes[t].addr < b.addr && (t + 1 < |nodes| ==> b.addr < nodes[t+1].addr)
  }

  predicate JoinsUpper(nodes: seq<Blk>, t: nat, b: Blk)
    requires t < |nodes|
  {
    t + 1 < |nodes| && b.addr + b.size == nodes[t+1].addr
  }

  predicate JoinsLower(nodes: seq<Blk>, t: nat, b: Blk)
    requires t < |nodes|
  {
    nodes[t].addr + nodes[t].size == b.addr
  }

  /** The block joined with its neighbours. */
  function Joined(nodes: seq<Blk>, t: nat, b: Blk): Blk
    requires t < |nodes|
  {
    var u := if JoinsUpper(nodes, t, b) then Blk(b.addr, b.size + nodes[t+1].size) else b;
    if JoinsLower(nodes, t, b) then Blk(nodes[t].addr, nodes[t].size + u.size) else u
  }

  function Lower(nodes: seq<Blk>, t: nat, b: Blk): seq<Blk>
    requires t < |nodes|
  {
    if JoinsLower(nodes, t, b) then nodes[..t] else nodes[..t+1]
  }

  function Upper(nodes: seq<Blk>, t: nat, b: Blk): seq<Blk>
    requires t < |nodes|
  {
    if JoinsUpper(nodes, t, b) then nodes[t+2..] else nodes[t+1..]
  }

  /** The nodes after b has been put behind node t and joined with its neighbours. */
  function Inserted(nodes: seq<Blk>, t: nat, b: Blk): seq<Blk>
    requires t < |nodes|
  {
    Lower(nodes, t, b) + [Joined(nodes, t, b)] + Upper(nodes, t, b)
  }

  /** A block that may be inserted: apart from all nodes, behind node t. */
  ghost predicate Insertable(nodes: seq<Blk>, t: nat, b: Blk) {
    Before(nodes, t, b) && b.size > 0 && forall i :: 0 <= i < |nodes| ==> Apart(b, nodes[i])
  }

  lemma InsertableFits(nodes: seq<Blk>, t: nat, b: Blk)
    requires Insertable(nodes, t, b)
    ensures nodes[t].addr + nodes[t].size <= b.addr
    ensures t + 1 < |nodes| ==> b.addr + b.size <= nodes[t+1].addr
  {
    assert Apart(b, nodes[t]);
    assert t + 1 < |nodes| ==> Apart(b, nodes[t+1]);
  }

  lemma ClearBelow(nodes: seq<Blk>, t: nat, b: Blk)
    requires Spread(nodes) && Insertable(nodes, t, b)
    ensures AllClear(Lower(nodes, t, b), Joined(nodes, t, b))
  {
    InsertableFits(nodes, t, b);
    forall i | 0 <= i < t ensures Clear(nodes[i], nodes[t]) { }
  }

  lemma ClearAbove(nodes: seq<Blk>, t: nat, b: Blk)
    requires Spread(nodes) && Insertable(nodes, t, b)
    ensures ClearOfAll(Joined(nodes, t, b), Upper(nodes, t, b))
  {
    InsertableFits(nodes, t, b);
    forall i | t + 2 <= i < |nodes| ensures Clear(nodes[t+1], nodes[i]) { }
  }

  lemma SpreadParts(nodes: seq<Blk>, a: nat, b: nat)
    requires Spread(nodes) && a <= b <= |nodes|
    ensures Spread(nodes[..a]) && Spread(nodes[b..]) && SpreadApart(nodes[..a], nodes[b..])
  {
  }

  lemma InsertedOrdered(base: nat, nodes: seq<Blk>, t: nat, b: Blk)
    requires Ordered(base, nodes) && Insertable(nodes, t, b)
    ensures Ordered(base, Inserted(nodes, t, b))
  {
    var s, m, r := Lower(nodes, t, b), Joined(nodes, t, b), Upper(nodes, t, b);
    ClearBelow(nodes, t, b);
    ClearAbove(nodes, t, b);
    SpreadParts(nodes, |s|, |nodes| - |r|);
    SpreadThree(s, m, r);
    InsertedSized(base, nodes, t, b);
  }

  /** Only the base is empty, and it stays in front, because nothing touches it from above. */
  lemma InsertedSized(base: nat, nodes: seq<Blk>, t: nat, b: Blk)
    requires Ordered(base, nodes) && Insertable(nodes, t, b)
    ensures Inserted(nodes, t, b)[0] == Blk(base, 0) && Sized(Inserted(nodes, t, b)[1..])
  {
    var s, m, r := Lower(nodes, t, b), Joined(nodes, t, b), Upper(nodes, t, b);
    assert t == 0 ==> !JoinsLower(nodes, t, b);
    assert s != [] && s[0] == nodes[0];
    forall i | 0 < i < |nodes| ensures nodes[i].size > 0 { assert nodes[1..][i-1].size > 0; }
    assert Inserted(nodes, t, b)[1..] == s[1..] + [m] + r;
    SizedThree(s[1..], m, r);
  }

  lemma InsertedCovers(nodes: seq<Blk>, t: nat, b: Blk, u: nat)
    requires Insertable(nodes, t, b)
    ensures Free(Inserted(nodes, t, b), u) <==> Free(nodes, u) || Covers(b, u)
  {
    var s, m, r := Lower(nodes, t, b), Joined(nodes, t, b), Upper(nodes, t, b);
    FreeThree(s, m, r, u);
    var pre, post := nodes[..t], nodes[t+1..];
    assert nodes == pre + [nodes[t]] + post;
    FreeThree(pre, nodes[t], post, u);
    if JoinsUpper(nodes, t, b) {
      assert post == [] + [nodes[t+1]] + nodes[t+2..];
      FreeThree([], nodes[t+1], nodes[t+2..], u);
    }
    if !JoinsLower(nodes, t, b) {
      assert nodes[..t+1] == pre + [nodes[t]] + [];
      FreeThree(pre, nodes[t], [], u);
    }
    InsertableFits(nodes, t, b);
    JoinedCovers(nodes, t, b, u);
  }

  lemma JoinedCovers(nodes: seq<Blk>, t: nat, b: Blk, u: nat)
    requires t < |nodes|
    ensures Covers(Joined(nodes, t, b), u) <==>
            Covers(b, u) || (JoinsLower(nodes, t, b) && Covers(nodes[t], u))
            || (JoinsUpper(nodes, t, b) && Covers(nodes[t+1], u))
  {
  }

  // ------------------------------------------------------------ the writes of kr_free

  /** Memory after the two joins of `kr_free`, for a block at bp behind the node at p. */
  ghost function AfterFree(mem: Memory, p: nat, bp: nat): Memory
    requires p in mem && bp in mem && p != bp
    requires bp + mem[bp].size == mem[p].ptr ==> mem[p].ptr in mem
  {
    var next := mem[p].ptr;
    var h := if bp + mem[bp].size == next then Header(mem[next].ptr, mem[bp].size + mem[next].size) else Header(next, mem[bp].size);
    var g := if p + mem[p].size == bp then Header(h.ptr, mem[p].size + h.size) else Header(bp, mem[p].size);
    mem[bp := h][p := g]
  }

  /** Which address a join compares with. */
  lemma NextIsUpper(base: nat, mem: Memory, nodes: seq<Blk>, t: nat, b: Blk)
    requires Ordered(base, nodes) && Circle(mem, nodes) && Insertable(nodes, t, b)
    ensures nodes[t].addr in mem && mem[nodes[t].addr] == Header(Next(nodes, t), nodes[t].size)
    ensures b.addr + b.size == Next(nodes, t) <==> JoinsUpper(nodes, t, b)
    ensures JoinsUpper(nodes, t, b) ==>
              nodes[t+1].addr in mem && mem[nodes[t+1].addr] == Header(Next(nodes, t + 1), nodes[t+1].size)
  {
    ChainAt(mem, nodes, t);
    if t + 1 < |nodes| { ChainAt(mem, nodes, t + 1); }
    assert t > 0 ==> Clear(nodes[0], nodes[t]);
  }

  lemma AfterFreeCircle(base: nat, mem: Memory, nodes: seq<Blk>, t: nat, b: Blk)
    requires Ordered(base, nodes) && Circle(mem, nodes) && Insertable(nodes, t, b)
    requires b.addr in mem && mem[b.addr].size == b.size
    ensures nodes[t].addr in mem && nodes[t].addr != b.addr
    ensures b.addr + b.size == mem[nodes[t].addr].ptr ==> mem[nodes[t].addr].ptr in mem
    ensures Circle(AfterFree(mem, nodes[t].addr, b.addr), Inserted(nodes, t, b))
  {
    NextIsUpper(base, mem, nodes, t, b);
    InsertedOrdered(base, nodes, t, b);
    var p := nodes[t].addr;
    var mem' := AfterFree(mem, p, b.addr);
    var s, m, r := Lower(nodes, t, b), Joined(nodes, t, b), Upper(nodes, t, b);
    assert Inserted(nodes, t, b) == s + [m] + r;
    LowerChain(mem, mem', nodes, t, b);
    UpperChain(mem, mem', nodes, t, b);
    assert mem'[m.addr] == Header(First(r, base), m.size) by { JoinedHeader(base, mem, nodes, t, b); }
    ChainThree(mem', s, m, r, base);
  }

  lemma JoinedHeader(base: nat, mem: Memory, nodes: seq<Blk>, t: nat, b: Blk)
    requires Ordered(base, nodes) && Circle(mem, nodes) && Insertable(nodes, t, b)
    requires b.addr in mem && mem[b.addr].size == b.size
    requires nodes[t].addr in mem && nodes[t].addr != b.addr
    requires b.addr + b.size == mem[nodes[t].addr].ptr ==> mem[nodes[t].addr].ptr in mem
    ensures Joined(nodes, t, b).addr in AfterFree(mem, nodes[t].addr, b.addr)
    ensures AfterFree(mem, nodes[t].addr, b.addr)[Joined(nodes, t, b).addr]
            == Header(First(Upper(nodes, t, b), base), Joined(nodes, t, b).size)
    ensures !JoinsLower(nodes, t, b) ==> AfterFree(mem, nodes[t].addr, b.addr)[nodes[t].addr] == Header(b.addr, nodes[t].size)
  {
    NextIsUpper(base, mem, nodes, t, b);
    assert base == nodes[0].addr;
  }

  lemma LowerChain(mem: Memory, mem': Memory, nodes: seq<Blk>, t: nat, b: Blk)
    requires Spread(nodes) && Circle(mem, nodes) && Insertable(nodes, t, b)
    requires nodes[t].addr in mem' && (!JoinsLower(nodes, t, b) ==> mem'[nodes[t].addr] == Header(b.addr, nodes[t].size))
    requires forall a :: a in mem && a != nodes[t].addr && a != b.addr ==> a in mem' && mem'[a] == mem[a]
    ensures Chain(mem', Lower(nodes, t, b), Joined(nodes, t, b).addr)
  {
    var pre := nodes[..t];
    assert nodes == pre + [nodes[t]] + nodes[t+1..];
    ChainThree(mem, pre, nodes[t], nodes[t+1..], nodes[0].addr);
    forall i | 0 <= i < t ensures pre[i].addr != nodes[t].addr && pre[i].addr != b.addr { assert Clear(nodes[i], nodes[t]); }
    ChainFrame(mem, mem', pre, nodes[t].addr);
    if !JoinsLower(nodes, t, b) {
      assert nodes[..t+1] == pre + [nodes[t]] + [];
      ChainThree(mem', pre, nodes[t], [], b.addr);
    }
  }

  lemma UpperChain(mem: Memory, mem': Memory, nodes: seq<Blk>, t: nat, b: Blk)
    requires Spread(nodes) && Circle(mem, nodes) && Insertable(nodes, t, b)
    requires forall a :: a in mem && a != nodes[t].addr && a != b.addr ==> a in mem' && mem'[a] == mem[a]
    ensures Chain(mem', Upper(nodes, t, b), nodes[0].addr)
  {
    var r := Upper(nodes, t, b);
    var k := |nodes| - |r|;
    assert nodes == nodes[..k] + r;
    ChainAppend(mem, nodes[..k], r, nodes[0].addr);
    InsertableFits(nodes, t, b);
    forall i | 0 <= i < |r| ensures r[i].addr != nodes[t].addr && r[i].addr != b.addr {
      assert r[i] == nodes[k + i];
      assert Clear(nodes[t], nodes[k + i]);
      assert k + i > t + 1 ==> Clear(nodes[t+1], nodes[k + i]);
    }
    ChainFrame(mem, mem', r, nodes[0].addr);
  }

  // ------------------------------------------------------------ taking from a block

  /** Node t loses its last n units, or disappears if it has just n. */
  function Carved(nodes: seq<Blk>, t: nat, n: nat): seq<Blk>
    requires t < |nodes|
  {
    if nodes[t].size <= n then nodes[..t] + nodes[t+1..]
    else nodes[..t] + [Blk(nodes[t].addr, nodes[t].size - n)] + nodes[t+1..]
  }

  lemma CarvedOrdered(base: nat, nodes: seq<Blk>, t: nat, n: nat)
    requires Ordered(base, nodes) && 0 < t < |nodes| && 0 < n <= nodes[t].size
    ensures Ordered(base, Carved(nodes, t, n))
  {
    var pre, b, post := nodes[..t], nodes[t], nodes[t+1..];
    assert nodes == pre + [b] + post;
    SpreadThree(pre, b, post);
    assert nodes[1..] == pre[1..] + [b] + post;
    SizedThree(pre[1..], b, post);
    var c := Carved(nodes, t, n);
    if b.size <= n {
      SpreadTwo(pre, post);
      assert c[1..] == pre[1..] + post;
    } else {
      var m := Blk(b.addr, b.size - n);
      SpreadThree(pre, m, post);
      assert c[1..] == pre[1..] + [m] + post;
      SizedThree(pre[1..], m, post);
    }
  }

  lemma SpreadTwo(s: seq<Blk>, t: seq<Blk>)
    requires Spread(s) && Spread(t) && SpreadApart(s, t)
    ensures Spread(s + t)
  {
  }

  lemma FreeTwo(s: seq<Blk>, t: seq<Blk>, u: nat)
    ensures Free(s + t, u) <==> Free(s, u) || Free(t, u)
  {
    var r := s + t;
    if i :| 0 <= i < |s| && Covers(s[i], u) { assert Covers(r[i], u); }
    if i :| 0 <= i < |t| && Covers(t[i], u) { assert Covers(r[|s| + i], u); }
    if i :| 0 <= i < |r| && Covers(r[i], u) {
      if i < |s| { assert Covers(s[i], u); } else { assert Covers(t[i - |s|], u); }
    }
  }

  /** The block that `kr_malloc` hands out: the tail of node t. */
  function Tail(nodes: seq<Blk>, t: nat, n: nat): Blk
    requires t < |nodes| && n <= nodes[t].size
  {
    Blk(nodes[t].addr + nodes[t].size - n, n)
  }

  lemma CarvedCovers(nodes: seq<Blk>, t: nat, n: nat, u: nat)
    requires Spread(nodes) && t < |nodes| && n <= nodes[t].size
    ensures Free(nodes, u) <==> Free(Carved(nodes, t, n), u) || Covers(Tail(nodes, t, n), u)
    ensures !(Free(Carved(nodes, t, n), u) && Covers(Tail(nodes, t, n), u))
  {
    var pre, b, post := nodes[..t], nodes[t], nodes[t+1..];
    assert nodes == pre + [b] + post;
    FreeThree(pre, b, post, u);
    if b.size <= n {
      FreeTwo(pre, post, u);
    } else {
      FreeThree(pre, Blk(b.addr, b.size - n), post, u);
    }
    forall i | 0 <= i < |nodes| && i != t && Covers(nodes[i], u) ensures !Covers(b, u) {
      assert if i < t then Clear(nodes[i], nodes[t]) else Clear(nodes[t], nodes[i]);
    }
  }

  /** Memory after the writes of `kr_malloc` for node t, whose predecessor is the node at prev. */
  ghost function AfterTake(mem: Memory, prev: nat, p: nat, n: nat): Memory
    requires prev in mem && p in mem && mem[p].size >= n
  {
    var h := mem[p];
    if h.size == n then mem[prev := mem[prev].(ptr := h.ptr)]
    else
      var rest := h.size - n;
      var m := mem[p := h.(size := rest)];
      m[p + rest := Header(if p + rest in m then m[p + rest].ptr else 0, n)]
  }

  lemma AfterTakeCircle(base: nat, mem: Memory, nodes: seq<Blk>, t: nat, n: nat)
    requires Ordered(base, nodes) && Circle(mem, nodes) && 0 < t < |nodes| && 0 < n <= nodes[t].size
    ensures nodes[t-1].addr in mem && nodes[t].addr in mem && mem[nodes[t].addr].size == nodes[t].size
    ensures Circle(AfterTake(mem, nodes[t-1].addr, nodes[t].addr, n), Carved(nodes, t, n))
  {
    ChainAt(mem, nodes, t - 1);
    ChainAt(mem, nodes, t);
    if nodes[t].size == n {
      TakeAll(base, mem, nodes, t, n);
    } else {
      TakeTail(base, mem, nodes, t, n);
    }
  }

  lemma TakeAll(base: nat, mem: Memory, nodes: seq<Blk>, t: nat, n: nat)
    requires Ordered(base, nodes) && Circle(mem, nodes) && 0 < t < |nodes| && nodes[t].size == n > 0
    requires nodes[t-1].addr in mem && nodes[t].addr in mem && mem[nodes[t].addr].size == n
    ensures Circle(AfterTake(mem, nodes[t-1].addr, nodes[t].addr, n), Carved(nodes, t, n))
  {
    var s, a, b, post := nodes[..t-1], nodes[t-1], nodes[t], nodes[t+1..];
    var mem' := AfterTake(mem, a.addr, b.addr, n);
    assert nodes == nodes[..t] + [b] + post && nodes[..t] == s + [a] + [];
    ChainThree(mem, nodes[..t], b, post, base);
    ChainThree(mem, s, a, [], b.addr);
    OnlyOne(nodes, t - 1, a.addr, mem, mem');
    hide Spread, Clear;
    ChainFrame(mem, mem', s, a.addr);
    ChainFrame(mem, mem', post, base);
    ChainThree(mem', s, a, post, base);
    assert Carved(nodes, t, n) == s + [a] + post;
  }

  lemma TakeTail(base: nat, mem: Memory, nodes: seq<Blk>, t: nat, n: nat)
    requires Ordered(base, nodes) && Circle(mem, nodes) && 0 < t < |nodes| && 0 < n < nodes[t].size
    requires nodes[t-1].addr in mem && nodes[t].addr in mem && mem[nodes[t].addr].size == nodes[t].size
    ensures Circle(AfterTake(mem, nodes[t-1].addr, nodes[t].addr, n), Carved(nodes, t, n))
  {
    var pre, b, post := nodes[..t], nodes[t], nodes[t+1..];
    var mem' := AfterTake(mem, nodes[t-1].addr, b.addr, n);
    assert nodes == pre + [b] + post;
    ChainThree(mem, pre, b, post, base);
    CarveApart(nodes, t, b.addr + b.size - n, mem, mem');
    hide Spread, Clear;
    ChainFrame(mem, mem', pre, b.addr);
    ChainFrame(mem, mem', post, base);
    ChainThree(mem', pre, Blk(b.addr, b.size - n), post, base);
  }

  lemma OnlyOne(nodes: seq<Blk>, k: nat, a: nat, mem: Memory, mem': Memory)
    requires Spread(nodes) && k < |nodes| && nodes[k].addr == a
    requires forall x :: x in mem && x != a ==> x in mem' && mem'[x] == mem[x]
    ensures forall i :: 0 <= i < |nodes| && i != k && nodes[i].addr in mem ==>
              nodes[i].addr in mem' && mem'[nodes[i].addr] == mem[nodes[i].addr]
  {
    forall i | 0 <= i < |nodes| && i != k ensures nodes[i].addr != a {
      assert if i < k then Clear(nodes[i], nodes[k]) else Clear(nodes[k], nodes[i]);
    }
  }

  lemma CarveApart(nodes: seq<Blk>, t: nat, c: nat, mem: Memory, mem': Memory)
    requires Spread(nodes) && t < |nodes| && nodes[t].addr < c < nodes[t].addr + nodes[t].size
    requires forall x :: x in mem && x != nodes[t].addr && x != c ==> x in mem' && mem'[x] == mem[x]
    ensures forall i :: 0 <= i < |nodes| && i != t && nodes[i].addr in mem ==>
              nodes[i].addr in mem' && mem'[nodes[i].addr] == mem[nodes[i].addr]
  {
    forall i | 0 <= i < |nodes| && i != t ensures nodes[i].addr != nodes[t].addr && nodes[i].addr != c {
      assert if i < t then Clear(nodes[i], nodes[t]) else Clear(nodes[t], nodes[i]);
    }
  }

  // ------------------------------------------------------------ blocks and units

  lemma ApartByUnits(x: Blk, y: Blk)
    requires x.size > 0 && y.size > 0 && forall u: nat :: !(Covers(x, u) && Covers(y, u))
    ensures Apart(x, y)
  {
    assert !(Covers(x, x.addr) && Covers(y, x.addr));
    assert !(Covers(x, y.addr) && Covers(y, y.addr));
  }

  ghost predicate LiveInside(base: nat, brk: nat, live: set<Blk>) {
    forall x :: x in live ==> x.size > 0 && base < x.addr && x.addr + x.size <= brk
  }

  ghost predicate LiveHeaders(mem: Memory, live: set<Blk>) {
    forall x :: x in live ==> x.addr in mem && mem[x.addr].size == x.size
  }

  ghost predicate LiveApart(live: set<Blk>) {
    forall x, y :: x in live && y in live && x != y ==> Apart(x, y)
  }

  ghost predicate UnitsApart(nodes: seq<Blk>, live: set<Blk>) {
    forall x, u: nat :: x in live && Covers(x, u) ==> !Free(nodes, u)
  }

  /** The part of the invariant about blocks in use, unit by unit. */
  lemma LiveByUnits(base: nat, brk: nat, mem: Memory, nodes: seq<Blk>, live: set<Blk>)
    requires Ordered(base, nodes)
    ensures LiveOK(base, brk, mem, nodes, live) <==>
            LiveInside(base, brk, live) && LiveHeaders(mem, live) && LiveApart(live) && UnitsApart(nodes, live)
  {
    if LiveOK(base, brk, mem, nodes, live) {
      forall x, u: nat | x in live && Covers(x, u) ensures !Free(nodes, u) {
        NeverBoth(base, brk, mem, nodes, live, u);
        assert InUse(live, u);
      }
    }
    if LiveInside(base, brk, live) && LiveHeaders(mem, live) && LiveApart(live) && UnitsApart(nodes, live) {
      forall x, i | x in live && 0 <= i < |nodes| ensures Apart(x, nodes[i]) {
        if i > 0 {
          assert nodes[1..][i-1].size > 0;
          forall u: nat | Covers(x, u) ensures !Covers(nodes[i], u) { assert !Free(nodes, u); }
          ApartByUnits(x, nodes[i]);
        } else {
          assert nodes[0] == Blk(base, 0) && base < x.addr;
        }
      }
    }
  }

  /** A unit of a list is below the break when the list is. */
  lemma FreeInside(nodes: seq<Blk>, brk: nat, u: nat)
    requires Inside(nodes, brk) && Free(nodes, u)
    ensures u < brk
  {
  }

  lemma InsideByUnits(base: nat, nodes: seq<Blk>, brk: nat)
    requires Ordered(base, nodes) && base <= brk && forall u: nat :: Free(nodes, u) ==> u < brk
    ensures Inside(nodes, brk)
  {
    forall i | 0 <= i < |nodes| ensures nodes[i].addr + nodes[i].size <= brk {
      if i > 0 {
        assert nodes[1..][i-1].size > 0;
        var u := nodes[i].addr + nodes[i].size - 1;
        assert Covers(nodes[i], u) && Free(nodes, u);
      }
    }
  }

  /** The invariant of the allocator. */
  ghost predicate StorageOK(base: nat, brk: nat, mem: Memory, nodes: seq<Blk>, live: set<Blk>, arena: set<nat>) {
    && base < brk && Ordered(base, nodes) && Circle(mem, nodes) && Inside(nodes, brk)
    && LiveOK(base, brk, mem, nodes, live) && Accounted(nodes, live, arena)
  }

  ghost predicate OnList(nodes: seq<Blk>, a: nat) {
    exists i: nat :: i < |nodes| && nodes[i].addr == a
  }

  /** A block in use can go back to the list. */
  lemma LiveInsertable(base: nat, brk: nat, mem: Memory, nodes: seq<Blk>, live: set<Blk>, arena: set<nat>, b: Blk)
    returns (t: nat)
    requires StorageOK(base, brk, mem, nodes, live, arena) && b in live
    ensures Insertable(nodes, t, b) && b.addr in mem && mem[b.addr].size == b.size
  {
    assert nodes[0].addr < b.addr;
    t := LastBelow(nodes, b.addr);
    if t + 1 < |nodes| {
      assert Apart(b, nodes[t+1]) && nodes[1..][t].size > 0;
    }
  }

  lemma LastBelow(nodes: seq<Blk>, a: nat) returns (t: nat)
    requires nodes != [] && nodes[0].addr < a
    ensures t < |nodes| && nodes[t].addr < a && (t + 1 < |nodes| ==> a <= nodes[t+1].addr)
  {
    t := 0;
    while t + 1 < |nodes| && nodes[t+1].addr < a
      invariant t < |nodes| && nodes[t].addr < a
    {
      t := t + 1;
    }
  }

  lemma FreeKeeps(base: nat, brk: nat, mem: Memory, nodes: seq<Blk>, live: set<Blk>, arena: set<nat>, t: nat, b: Blk)
    requires StorageOK(base, brk, mem, nodes, live, arena) && b in live && t < |nodes| && Insertable(nodes, t, b)
    requires b.addr in mem && mem[b.addr].size == b.size
    ensures nodes[t].addr in mem && nodes[t].addr != b.addr
    ensures b.addr + b.size == mem[nodes[t].addr].ptr ==> mem[nodes[t].addr].ptr in mem
    ensures StorageOK(base, brk, AfterFree(mem, nodes[t].addr, b.addr), Inserted(nodes, t, b), live - {b}, arena)
  {
    hide Ordered, Circle, Spread, Inserted, Insertable, LiveOK, AfterFree;
    AfterFreeCircle(base, mem, nodes, t, b);
    InsertedOrdered(base, nodes, t, b);
    var mem', nodes', live' := AfterFree(mem, nodes[t].addr, b.addr), Inserted(nodes, t, b), live - {b};
    LiveByUnits(base, brk, mem, nodes, live);
    assert LiveHeaders(mem', live') by { FreeHeaders(base, brk, mem, nodes, live, t, b); }
    forall u: nat ensures Free(nodes', u) <==> Free(nodes, u) || Covers(b, u) { InsertedCovers(nodes, t, b, u); }
    hide Free;
    UnitsAfterFree(brk, nodes, nodes', live, arena, b);
    LiveByUnits(base, brk, mem', nodes', live');
    InsideByUnits(base, nodes', brk);
  }

  lemma UnitsAfterFree(brk: nat, nodes: seq<Blk>, nodes': seq<Blk>, live: set<Blk>, arena: set<nat>, b: Blk)
    requires UnitsApart(nodes, live) && LiveApart(live) && Accounted(nodes, live, arena) && b in live && b.addr + b.size <= brk
    requires Inside(nodes, brk)
    requires forall u: nat :: Free(nodes', u) <==> Free(nodes, u) || Covers(b, u)
    ensures UnitsApart(nodes', live - {b}) && LiveApart(live - {b}) && Accounted(nodes', live - {b}, arena)
    ensures forall u: nat :: Free(nodes', u) ==> u < brk
  {
    hide Free;
    forall x, u: nat | x in live - {b} && Covers(x, u) ensures !Free(nodes', u) { assert Apart(x, b); }
    forall u: nat ensures u in arena <==> Free(nodes', u) || InUse(live - {b}, u) {
      if InUse(live, u) {
        var x :| x in live && Covers(x, u);
        assert x == b || x in live - {b};
      }
      if InUse(live - {b}, u) {
        var x :| x in live - {b} && Covers(x, u);
        assert x in live;
      }
    }
    forall u: nat | Free(nodes', u) ensures u < brk { if Free(nodes, u) { FreeInside(nodes, brk, u); } }
  }

  lemma FreeHeaders(base: nat, brk: nat, mem: Memory, nodes: seq<Blk>, live: set<Blk>, t: nat, b: Blk)
    requires Ordered(base, nodes) && LiveOK(base, brk, mem, nodes, live) && b in live && t < |nodes|
    requires nodes[t].addr in mem && b.addr in mem && nodes[t].addr != b.addr
    requires b.addr + mem[b.addr].size == mem[nodes[t].addr].ptr ==> mem[nodes[t].addr].ptr in mem
    ensures LiveHeaders(AfterFree(mem, nodes[t].addr, b.addr), live - {b})
  {
    forall x | x in live - {b} ensures x.addr != b.addr && x.addr != nodes[t].addr {
      assert Apart(x, b) && Apart(x, nodes[t]);
      assert t > 0 ==> nodes[1..][t-1].size > 0;
    }
  }

  lemma TakeKeeps(base: nat, brk: nat, mem: Memory, nodes: seq<Blk>, live: set<Blk>, arena: set<nat>, t: nat, n: nat)
    requires StorageOK(base, brk, mem, nodes, live, arena) && 0 < t < |nodes| && 0 < n <= nodes[t].size
    ensures nodes[t-1].addr in mem && nodes[t].addr in mem && mem[nodes[t].addr].size == nodes[t].size
    ensures Tail(nodes, t, n) !in live
    ensures StorageOK(base, brk, AfterTake(mem, nodes[t-1].addr, nodes[t].addr, n), Carved(nodes, t, n),
                      live + {Tail(nodes, t, n)}, arena)
  {
    hide Ordered, Circle, Spread, Carved, LiveOK, AfterTake, Tail;
    AfterTakeCircle(base, mem, nodes, t, n);
    CarvedOrdered(base, nodes, t, n);
    var b := Tail(nodes, t, n);
    var mem', nodes', live' := AfterTake(mem, nodes[t-1].addr, nodes[t].addr, n), Carved(nodes, t, n), live + {b};
    LiveByUnits(base, brk, mem, nodes, live);
    TailInside(base, brk, nodes, t, n);
    assert Spread(nodes) by { OrderedSpread(base, nodes); }
    assert LiveHeaders(mem', live') by { TakeHeaders(base, brk, mem, nodes, live, t, n); }
    forall u: nat
      ensures Free(nodes, u) <==> Free(nodes', u) || Covers(b, u)
      ensures !(Free(nodes', u) && Covers(b, u))
    {
      CarvedCovers(nodes, t, n, u);
    }
    hide Free;
    UnitsAfterTake(nodes, nodes', live, arena, b);
    LiveByUnits(base, brk, mem', nodes', live');
    forall u: nat | Free(nodes', u) ensures u < brk { FreeInside(nodes, brk, u); }
    InsideByUnits(base, nodes', brk);
  }

  lemma OrderedSpread(base: nat, nodes: seq<Blk>)
    requires Ordered(base, nodes)
    ensures Spread(nodes) && nodes != []
  {
  }

  lemma TailInside(base: nat, brk: nat, nodes: seq<Blk>, t: nat, n: nat)
    requires Ordered(base, nodes) && Inside(nodes, brk) && 0 < t < |nodes| && 0 < n <= nodes[t].size
    ensures var b := Tail(nodes, t, n); b.size > 0 && base < b.addr && b.addr + b.size <= brk
  {
    assert Clear(nodes[0], nodes[t]);
  }

  lemma UnitsAfterTake(nodes: seq<Blk>, nodes': seq<Blk>, live: set<Blk>, arena: set<nat>, b: Blk)
    requires UnitsApart(nodes, live) && LiveApart(live) && Accounted(nodes, live, arena) && b.size > 0
    requires forall x :: x in live ==> x.size > 0
    requires forall u: nat :: Free(nodes, u) <==> Free(nodes', u) || Covers(b, u)
    requires forall u: nat :: !(Free(nodes', u) && Covers(b, u))
    ensures b !in live
    ensures UnitsApart(nodes', live + {b}) && LiveApart(live + {b}) && Accounted(nodes', live + {b}, arena)
  {
    hide Free;
    forall x | x in live ensures Apart(x, b) && Apart(b, x) {
      forall u: nat | Covers(x, u) ensures !Covers(b, u) { assert !Free(nodes, u); }
      ApartByUnits(x, b);
    }
    forall u: nat ensures u in arena <==> Free(nodes', u) || InUse(live + {b}, u) {
      if InUse(live, u) {
        var x :| x in live && Covers(x, u);
        assert x in live + {b};
      }
      if Covers(b, u) { assert b in live + {b}; }
      if InUse(live + {b}, u) {
        var x :| x in live + {b} && Covers(x, u);
        assert x == b || InUse(live, u);
      }
    }
  }

  lemma TakeHeaders(base: nat, brk: nat, mem: Memory, nodes: seq<Blk>, live: set<Blk>, t: nat, n: nat)
    requires Ordered(base, nodes) && LiveOK(base, brk, mem, nodes, live) && 0 < t < |nodes| && 0 < n <= nodes[t].size
    requires nodes[t-1].addr in mem && nodes[t].addr in mem && mem[nodes[t].addr].size == nodes[t].size
    ensures LiveHeaders(AfterTake(mem, nodes[t-1].addr, nodes[t].addr, n), live + {Tail(nodes, t, n)})
  {
    var b := Tail(nodes, t, n);
    assert Clear(nodes[t-1], nodes[t]);
    forall x | x in live ensures x.addr != nodes[t-1].addr && x.addr != nodes[t].addr && x.addr != b.addr {
      assert Apart(x, nodes[t]) && Apart(x, nodes[t-1]);
      assert t > 1 ==> nodes[1..][t-2].size > 0;
    }
  }

  // ------------------------------------------------------------ the walks

  /** How many steps along the circle lead from node i to node t. */
  function Dist(i: nat, t: nat, k: nat): nat
    requires i < k && t < k
  {
    if i <= t then t - i else k - i + t
  }

  function Succ(i: nat, k: nat): nat
    requires i < k
  {
    if i + 1 < k then i + 1 else 0
  }

  /** The tests of the loop of `kr_free`, at node i: they succeed exactly at the last node below bp. */
  lemma StopsAt(base: nat, mem: Memory, nodes: seq<Blk>, t: nat, b: Blk, i: nat)
    requires Ordered(base, nodes) && Circle(mem, nodes) && Before(nodes, t, b) && i < |nodes|
    ensures nodes[i].addr in mem && mem[nodes[i].addr].ptr == Next(nodes, i)
    ensures (var p, next := nodes[i].addr, Next(nodes, i);
             (b.addr > p && b.addr < next) || (p >= next && (b.addr > p || b.addr < next))) <==> i == t
  {
    ChainAt(mem, nodes, i);
    assert i < t ==> Clear(nodes[i], nodes[t]);
    assert i + 1 < t ==> Clear(nodes[i+1], nodes[t]);
    assert t < i ==> Clear(nodes[t], nodes[i]);
    assert t + 1 < i ==> Clear(nodes[t+1], nodes[i]);
    assert i + 1 < |nodes| ==> Clear(nodes[i], nodes[i+1]);
    assert i > 0 ==> Clear(nodes[0], nodes[i]);
  }

  ghost predicate NoneFits(nodes: seq<Blk>, n: nat) {
    forall i :: 0 <= i < |nodes| ==> nodes[i].size < n
  }

  /** How many steps lead along the list from node f to node i; back to f itself it is the whole way round. */
  function Steps(f: nat, i: nat, k: nat): nat
    requires f < k && i < k
  {
    if f < i then i - f else k - f + i
  }

  /** Node t is the first after the node at this address, on the way around, that has n units. */
  ghost predicate FirstFit(nodes: seq<Blk>, start: nat, t: nat, n: nat) {
    && t < |nodes| && nodes[t].size >= n
    && exists f: nat :: f < |nodes| && nodes[f].addr == start
         && forall i: nat :: i < |nodes| && nodes[i].size >= n ==> Steps(f, t, |nodes|) <= Steps(f, i, |nodes|)
  }

  /** From the list that starts at this address, the first node large enough has lost its last n
      units, block b, or has gone if it had no more, and the list starts at the node before it. */
  ghost predicate Served(before: seq<Blk>, start: Option<nat>, b: Blk, after: seq<Blk>, freep: Option<nat>) {
    exists t: nat :: 0 < t && start.Some? && FirstFit(before, start.value, t, b.size)
      && b.addr + b.size == before[t].addr + before[t].size
      && after == before[..t] + (if b.addr == before[t].addr then [] else [Blk(before[t].addr, b.addr - before[t].addr)]) + before[t+1..]
      && freep == Some(before[t-1].addr)
  }

  /** The list after some block of this many units has come to it. */
  ghost predicate Grown(before: seq<Blk>, nu: nat, after: seq<Blk>, freep: Option<nat>) {
    exists b: Blk :: b.size == nu && PutBack(before, b, after, freep)
  }

  /** Block b has been served from the list, or, if no block of it was large enough, from the list
      grown by at least NALLOC units. */
  ghost predicate FirstServed(before: seq<Blk>, start: Option<nat>, b: Blk, after: seq<Blk>, freep: Option<nat>) {
    if !NoneFits(before, b.size) then Served(before, start, b, after, freep)
    else exists mid: seq<Blk>, from: Option<nat> ::
           Grown(before, if b.size < NALLOC then NALLOC else b.size, mid, from) && Served(mid, from, b, after, freep)
  }

  lemma ServedFirst(before: seq<Blk>, start: Option<nat>, mid: seq<Blk>, from: Option<nat>, b: Blk, after: seq<Blk>, freep: Option<nat>)
    requires if !NoneFits(before, b.size) then mid == before && from == start
             else Grown(before, if b.size < NALLOC then NALLOC else b.size, mid, from)
    requires Served(mid, from, b, after, freep)
    ensures FirstServed(before, start, b, after, freep)
  {
  }

  lemma PutBackGrows(before: seq<Blk>, b: Blk, after: seq<Blk>, freep: Option<nat>)
    requires PutBack(before, b, after, freep)
    ensures Grown(before, b.size, after, freep)
  {
  }

  lemma CarvedServes(nodes: seq<Blk>, start: nat, t: nat, n: nat)
    requires 0 < t < |nodes| && FirstFit(nodes, start, t, n) && n <= nodes[t].size
    ensures Served(nodes, Some(start), Tail(nodes, t, n), Carved(nodes, t, n), Some(nodes[t-1].addr))
  {
    var b := Tail(nodes, t, n);
    assert nodes[..t] + [] + nodes[t+1..] == nodes[..t] + nodes[t+1..];
  }

  /** Block b has been put in its place, and the list starts below it. */
  ghost predicate PutBack(before: seq<Blk>, b: Blk, after: seq<Blk>, freep: Option<nat>) {
    exists t: nat :: t < |before| && Insertable(before, t, b) && after == Inserted(before, t, b) && freep == Some(before[t].addr)
  }

  lemma IsPutBack(before: seq<Blk>, t: nat, b: Blk)
    requires t < |before| && Insertable(before, t, b)
    ensures PutBack(before, b, Inserted(before, t, b), Some(before[t].addr))
  {
  }

  lemma PutBackFits(before: seq<Blk>, b: Blk, after: seq<Blk>, freep: Option<nat>, n: nat)
    requires PutBack(before, b, after, freep) && b.size >= n
    ensures !NoneFits(after, n)
  {
    var t: nat :| t < |before| && Insertable(before, t, b) && after == Inserted(before, t, b) && freep == Some(before[t].addr);
    JoinedFits(before, t, b, n);
  }

  // ------------------------------------------------------------ the allocator

  class Storage {
    const base: nat
    var mem: Memory
    var freep: Option<nat>
    var brk: nat
    ghost var nodes: seq<Blk>
    ghost var live: set<Blk>
    ghost var arena: set<nat>

    ghost predicate Valid()
      reads this
    {
      match freep
      case None => base < brk && nodes == [Blk(base, 0)] && live == {} && arena == {}
      case Some(p) => StorageOK(base, brk, mem, nodes, live, arena) && OnList(nodes, p)
    }

    constructor (base: nat, brk: nat)
      requires base < brk
      ensures Valid() && freep == None && this.base == base
    {
      this.base, this.brk := base, brk;
      mem, freep := map[], None;
      nodes, live, arena := [Blk(base, 0)], {}, {};
    }

    /** `sbrk`: fails, or moves the break up and returns units above it. */
    method Sbrk(nu: nat) returns (cp: Option<nat>)
      modifies `brk
      ensures cp.None? ==> brk == old(brk)
      ensures cp.Some? ==> old(brk) <= cp.value && brk == cp.value + nu
    {
      if * {
        cp := None;
      } else {
        var c: nat :| c >= brk;
        brk := c + nu;
        cp := Some(c);
      }
    }

    /** The loop of `kr_free`: the last free block below bp, at the latest after one round. */
    method FindPlace(bp: nat, ghost t: nat, ghost b: Blk) returns (p: nat)
      requires freep.Some? && OnList(nodes, freep.value) && b.addr == bp
      requires Ordered(base, nodes) && Circle(mem, nodes) && t < |nodes| && Before(nodes, t, b)
      ensures p == nodes[t].addr
    {
      hide *;
      ghost var i: nat := StartNode();
      p := freep.value;
      StopsAt(base, mem, nodes, t, b, i);
      while !(bp > p && bp < mem[p].ptr)
        invariant i < |nodes| && p == nodes[i].addr && p in mem && mem[p].ptr == Next(nodes, i)
        invariant (bp > p && bp < mem[p].ptr) || (p >= mem[p].ptr && (bp > p || bp < mem[p].ptr)) <==> i == t
        decreases Dist(i, t, |nodes|)
      {
        if p >= mem[p].ptr && (bp > p || bp < mem[p].ptr) { break; }
        NextNode(nodes, i, t);
        p := mem[p].ptr;
        i := Succ(i, |nodes|);
        StopsAt(base, mem, nodes, t, b, i);
      }
    }

    /** The two joins of `kr_free`. */
    method JoinNeighbours(bp: nat, p: nat)
      requires p in mem && bp in mem && p != bp
      requires bp + mem[bp].size == mem[p].ptr ==> mem[p].ptr in mem
      modifies `mem
      ensures mem == AfterFree(old(mem), p, bp)
    {
      hide *;
      ghost var mem0 := mem;
      if bp + mem[bp].size == mem[p].ptr {
        mem := mem[bp := mem[bp].(size := mem[bp].size + mem[mem[p].ptr].size)];
        mem := mem[bp := mem[bp].(ptr := mem[mem[p].ptr].ptr)];
      } else {
        mem := mem[bp := mem[bp].(ptr := mem[p].ptr)];
      }
      if p + mem[p].size == bp {
        mem := mem[p := mem[p].(size := mem[p].size + mem[bp].size)];
        mem := mem[p := mem[p].(ptr := mem[bp].ptr)];
      } else {
        mem := mem[p := mem[p].(ptr := bp)];
      }
      FreeWrites(mem0, p, bp, mem);
    }

    /** `kr_free` for the block at bp: it leaves the blocks in use, its units become free, and the
        list is again one circle by increasing address whose blocks do not touch. */
    method Free(bp: nat)
      requires Valid() && freep.Some? && bp in mem && Blk(bp, mem[bp].size) in live
      modifies `mem, `freep, `nodes, `live
      ensures Valid() && freep.Some? && arena == old(arena)
      ensures live == old(live) - {Blk(bp, old(mem)[bp].size)}
      ensures PutBack(old(nodes), Blk(bp, old(mem)[bp].size), nodes, freep)
    {
      ghost var b := Blk(bp, mem[bp].size);
      hide *;
      ValidOK();
      ghost var t := LiveInsertable(base, brk, mem, nodes, live, arena, b);
      assert Before(nodes, t, b) && t < |nodes| by { InsertableIs(nodes, t, b); }
      var p := FindPlace(bp, t, b);
      FreeKeeps(base, brk, mem, nodes, live, arena, t, b);
      JoinNeighbours(bp, p);
      freep := Some(p);
      ghost var nodes0 := nodes;
      nodes, live := Inserted(nodes, t, b), live - {b};
      StaysOnList(nodes0, t, b);
      assert PutBack(nodes0, b, nodes, freep) by { IsPutBack(nodes0, t, b); }
      MakesValid(p);
    }

    /** `morecore`: at least NALLOC units come from the system and go to the free list, so that
        some block on it is large enough. */
    method MoreCore(nunits: nat) returns (up: Option<nat>)
      requires Valid() && freep.Some? && nunits > 0
      modifies this
      ensures Valid() && freep.Some? && live == old(live)
      ensures up.None? ==> nodes == old(nodes) && arena == old(arena) && freep == old(freep)
      ensures up.Some? ==> up == freep && arena > old(arena) && !NoneFits(nodes, nunits)
      ensures up.Some? ==> Grown(old(nodes), if nunits < NALLOC then NALLOC else nunits, nodes, freep)
    {
      hide *;
      var nu := if nunits < NALLOC then NALLOC else nunits;
      ValidOK();
      ghost var brk0 := brk;
      var cp := Sbrk(nu);
      if cp.None? {
        MakesValid(freep.value);
        return None;
      }
      ghost var b := Blk(cp.value, nu);
      NewCore(base, brk0, brk, mem, nodes, live, arena, b);
      ghost var live0, nodes0 := live, nodes;
      mem := mem[cp.value := Header(if cp.value in mem then mem[cp.value].ptr else 0, nu)];
      live, arena := live + {b}, arena + Units(b);
      MakesValid(freep.value);
      Free(cp.value);
      assert live == live0;
      PutBackFits(nodes0, b, nodes, freep, nunits);
      PutBackGrows(nodes0, b, nodes, freep);
      up := freep;
    }

    /** The loop of `kr_malloc` until it has found a block or is back at freep: the first block, on
        the way around, that is large enough, together with its predecessor. */
    method Search(nunits: nat) returns (found: bool, prevp: nat, p: nat, ghost t: nat)
      requires Valid() && freep.Some? && nunits > 0
      ensures found <==> !NoneFits(nodes, nunits)
      ensures found ==> 0 < t < |nodes| && nodes[t].size >= nunits && p == nodes[t].addr && prevp == nodes[t-1].addr
      ensures found ==> FirstFit(nodes, freep.value, t, nunits)
    {
      hide *;
      ValidOK();
      ghost var f: nat := StartNode();
      ghost var i: nat := f;
      t := 0;
      prevp := freep.value;
      ChainAt(mem, nodes, i);
      p := mem[prevp].ptr;
      NextIs(nodes, i);
      NotPassedYet(nodes, f, nunits);
      ghost var j: nat := Succ(i, |nodes|);
      while true
        invariant i < |nodes| && j == Succ(i, |nodes|) && j < |nodes| && prevp == nodes[i].addr && p == nodes[j].addr
        invariant Passed(nodes, f, j, nunits)
        decreases Dist(j, f, |nodes|)
      {
        ChainAt(mem, nodes, j);
        if mem[p].size >= nunits {
          FitsAt(base, nodes, i, j, nunits);
          PassedFirst(nodes, f, j, nunits);
          return true, prevp, p, j;
        }
        if p == freep.value {
          WholeRound(base, nodes, f, j, nunits);
          return false, prevp, p, 0;
        }
        PassOne(base, nodes, f, j, nunits);
        prevp, p := p, mem[p].ptr;
        i, j := j, Succ(j, |nodes|);
      }
    }

    /** The block found is taken, from its end if it is larger than needed. */
    method TakeFrom(nunits: nat, prevp: nat, p: nat, ghost t: nat) returns (a: nat)
      requires Valid() && freep.Some? && nunits > 0
      requires 0 < t < |nodes| && nodes[t].size >= nunits && p == nodes[t].addr && prevp == nodes[t-1].addr
      requires FirstFit(nodes, freep.value, t, nunits)
      modifies this
      ensures Valid() && freep.Some? && arena == old(arena)
      ensures a > 0 && Blk(a - 1, nunits) !in old(live) && live == old(live) + {Blk(a - 1, nunits)}
      ensures Served(old(nodes), old(freep), Blk(a - 1, nunits), nodes, freep)
    {
      hide *;
      ValidOK();
      TakeKeeps(base, brk, mem, nodes, live, arena, t, nunits);
      ghost var mem0, b := mem, Tail(nodes, t, nunits);
      var q := p;
      if mem[p].size == nunits {
        mem := mem[prevp := mem[prevp].(ptr := mem[p].ptr)];
      } else {
        mem := mem[p := mem[p].(size := mem[p].size - nunits)];
        q := p + mem[p].size;
        mem := mem[q := Header(if q in mem then mem[q].ptr else 0, nunits)];
      }
      assert mem == AfterTake(mem0, prevp, p, nunits) by { TakeWrites(mem0, prevp, p, nunits, mem); }
      assert b == Blk(q, nunits) by { TailIs(nodes, t, nunits); }
      ghost var start := freep.value;
      freep := Some(prevp);
      PredecessorStays(nodes, t, nunits);
      CarvedServes(nodes, start, t, nunits);
      nodes, live := Carved(nodes, t, nunits), live + {b};
      MakesValid(prevp);
      a := q + 1;
    }

    /** The loop of `kr_malloc`: the first block large enough, with more units from the system if
        there is none. */
    method Find(nunits: nat) returns (found: bool, prevp: nat, p: nat, ghost t: nat)
      requires Valid() && freep.Some? && nunits > 0
      modifies this
      ensures Valid() && freep.Some? && live == old(live)
      ensures !found ==> nodes == old(nodes) && arena == old(arena) && NoneFits(nodes, nunits)
      ensures found ==> 0 < t < |nodes| && nodes[t].size >= nunits && p == nodes[t].addr && prevp == nodes[t-1].addr
      ensures found ==> FirstFit(nodes, freep.value, t, nunits)
      ensures found ==> if !NoneFits(old(nodes), nunits) then nodes == old(nodes) && freep == old(freep) && arena == old(arena)
                        else Grown(old(nodes), if nunits < NALLOC then NALLOC else nunits, nodes, freep) && arena > old(arena)
    {
      hide *;
      found, prevp, p, t := Search(nunits);
      if !found {
        var up := MoreCore(nunits);
        if up == None { return; }
        found, prevp, p, t := Search(nunits);
      }
    }

    /** `kr_malloc`: the last units, just enough, of the first block large enough, disjoint from
        everything in use, or NULL, and then no free block was large enough and the system gave no
        more. */
    method Malloc(nbytes: nat) returns (r: Option<nat>)
      requires Valid()
      modifies this
      ensures Valid() && freep.Some?
      ensures var nunits := (nbytes + HEADER - 1) / HEADER + 1;
              match r
              case None => live == old(live) && nodes == old(nodes) && arena == old(arena) && NoneFits(nodes, nunits)
              case Some(a) =>
                && a > 0 && Blk(a - 1, nunits) !in old(live) && live == old(live) + {Blk(a - 1, nunits)}
                && (arena == old(arena) || (arena > old(arena) && NoneFits(old(nodes), nunits)))
                && FirstServed(old(nodes), if old(freep) == None then Some(base) else old(freep), Blk(a - 1, nunits), nodes, freep)
    {
      var nunits := (nbytes + HEADER - 1) / HEADER + 1;
      hide *;
      if freep == None { Begin(); }
      r := Serve(nunits);
    }

    /** The rest of `kr_malloc`, once the list exists. */
    method Serve(nunits: nat) returns (r: Option<nat>)
      requires Valid() && freep.Some? && nunits > 0
      modifies this
      ensures Valid() && freep.Some?
      ensures r == None ==> live == old(live) && nodes == old(nodes) && arena == old(arena) && NoneFits(nodes, nunits)
      ensures r.Some? ==>
                && r.value > 0 && Blk(r.value - 1, nunits) !in old(live) && live == old(live) + {Blk(r.value - 1, nunits)}
                && (arena == old(arena) || (arena > old(arena) && NoneFits(old(nodes), nunits)))
                && FirstServed(old(nodes), old(freep), Blk(r.value - 1, nunits), nodes, freep)
    {
      hide *;
      ghost var nodes0, start := nodes, freep;
      var found, prevp, p, t := Find(nunits);
      if !found { return None; }
      ghost var nodes1, start1 := nodes, freep;
      var a := TakeFrom(nunits, prevp, p, t);
      ServedFirst(nodes0, start, nodes1, start1, Blk(a - 1, nunits), nodes, freep);
      r := Some(a);
    }

    /** The first call: the list consists of the empty block base. */
    method Begin()
      requires Valid() && freep == None
      modifies `mem, `freep
      ensures Valid() && freep == Some(base)
    {
      mem := mem[base := Header(base, 0)];
      freep := Some(base);
      assert nodes[1..] == [];
      assert nodes[0].addr == base;
    }

    lemma ValidOK()
      requires Valid() && freep.Some?
      ensures StorageOK(base, brk, mem, nodes, live, arena) && OnList(nodes, freep.value)
      ensures Ordered(base, nodes) && Circle(mem, nodes) && nodes != [] && base < brk && Inside(nodes, brk)
    {
    }

    lemma MakesValid(p: nat)
      requires StorageOK(base, brk, mem, nodes, live, arena) && OnList(nodes, p) && freep == Some(p)
      ensures Valid()
    {
    }

    lemma StartNode() returns (i: nat)
      requires freep.Some? && OnList(nodes, freep.value)
      ensures i < |nodes| && nodes[i].addr == freep.value
    {
      i :| i < |nodes| && nodes[i].addr == freep.value;
    }
  }

  lemma InsertableIs(nodes: seq<Blk>, t: nat, b: Blk)
    requires Insertable(nodes, t, b)
    ensures Before(nodes, t, b) && t < |nodes|
  {
  }

  lemma NextNode(nodes: seq<Blk>, i: nat, t: nat)
    requires i < |nodes| && t < |nodes| && i != t
    ensures Next(nodes, i) == nodes[Succ(i, |nodes|)].addr && Succ(i, |nodes|) < |nodes|
    ensures Dist(Succ(i, |nodes|), t, |nodes|) < Dist(i, t, |nodes|)
  {
  }

  lemma FreeWrites(mem: Memory, p: nat, bp: nat, after: Memory)
    requires p in mem && bp in mem && p != bp
    requires bp + mem[bp].size == mem[p].ptr ==> mem[p].ptr in mem
    requires var next := mem[p].ptr;
             var m := if bp + mem[bp].size == next then
                        var m1 := mem[bp := mem[bp].(size := mem[bp].size + mem[next].size)];
                        m1[bp := m1[bp].(ptr := m1[next].ptr)]
                      else mem[bp := mem[bp].(ptr := next)];
             after == if p + m[p].size == bp then
                        var m1 := m[p := m[p].(size := m[p].size + m[bp].size)];
                        m1[p := m1[p].(ptr := m1[bp].ptr)]
                      else m[p := m[p].(ptr := bp)]
    ensures after == AfterFree(mem, p, bp)
  {
  }

  lemma StaysOnList(nodes: seq<Blk>, t: nat, b: Blk)
    requires Insertable(nodes, t, b)
    ensures t < |nodes| && OnList(Inserted(nodes, t, b), nodes[t].addr)
  {
    assert Inserted(nodes, t, b)[t].addr == nodes[t].addr;
  }

  ghost function Units(b: Blk): set<nat> {
    set u: nat | u < b.addr + b.size && Covers(b, u)
  }

  /** New units above the break, as a block in use. */
  lemma NewCore(base: nat, brk: nat, brk': nat, mem: Memory, nodes: seq<Blk>, live: set<Blk>, arena: set<nat>, b: Blk)
    requires StorageOK(base, brk, mem, nodes, live, arena)
    requires b.size > 0 && brk <= b.addr && brk' == b.addr + b.size
    ensures b !in live && live + {b} - {b} == live && arena + Units(b) > arena
    ensures forall h: Header :: h.size == b.size ==>
              StorageOK(base, brk', mem[b.addr := h], nodes, live + {b}, arena + Units(b))
  {
    assert b !in live;
    assert live + {b} - {b} == live;
    NewUnits(base, brk, mem, nodes, live, arena, b);
    forall h: Header | h.size == b.size
      ensures StorageOK(base, brk', mem[b.addr := h], nodes, live + {b}, arena + Units(b))
    {
      var mem' := mem[b.addr := h];
      CoreCircle(base, brk, mem, mem', nodes, b.addr);
      CoreLive(base, brk, brk', mem, mem', nodes, live, b);
      assert Inside(nodes, brk');
    }
  }

  lemma CoreCircle(base: nat, brk: nat, mem: Memory, mem': Memory, nodes: seq<Blk>, c: nat)
    requires Ordered(base, nodes) && Circle(mem, nodes) && Inside(nodes, brk) && brk <= c && base < brk
    requires forall a :: a in mem && a != c ==> a in mem' && mem'[a] == mem[a]
    ensures Circle(mem', nodes)
  {
    forall i | 0 <= i < |nodes| ensures nodes[i].addr != c {
      assert i > 0 ==> nodes[1..][i-1].size > 0;
    }
    ChainFrame(mem, mem', nodes, nodes[0].addr);
  }

  lemma CoreLive(base: nat, brk: nat, brk': nat, mem: Memory, mem': Memory, nodes: seq<Blk>, live: set<Blk>, b: Blk)
    requires LiveOK(base, brk, mem, nodes, live) && Inside(nodes, brk) && base < brk
    requires b.size > 0 && brk <= b.addr && brk' == b.addr + b.size
    requires b.addr in mem' && mem'[b.addr].size == b.size
    requires forall a :: a in mem && a != b.addr ==> a in mem' && mem'[a] == mem[a]
    ensures LiveOK(base, brk', mem', nodes, live + {b})
  {
    forall x | x in live ensures Apart(x, b) && x.addr != b.addr { }
    forall i | 0 <= i < |nodes| ensures Apart(b, nodes[i]) { }
  }

  lemma NewUnits(base: nat, brk: nat, mem: Memory, nodes: seq<Blk>, live: set<Blk>, arena: set<nat>, b: Blk)
    requires Accounted(nodes, live, arena) && Inside(nodes, brk) && LiveOK(base, brk, mem, nodes, live)
    requires b.size > 0 && brk <= b.addr
    ensures Accounted(nodes, live + {b}, arena + Units(b)) && arena + Units(b) > arena
  {
    hide Free;
    forall u: nat ensures u in arena + Units(b) <==> Free(nodes, u) || InUse(live + {b}, u) {
      if InUse(live, u) {
        var x :| x in live && Covers(x, u);
        assert x in live + {b};
      }
      if Covers(b, u) { assert b in live + {b}; }
      if InUse(live + {b}, u) {
        var x :| x in live + {b} && Covers(x, u);
        assert x == b || InUse(live, u);
      }
    }
    if Free(nodes, b.addr) { FreeInside(nodes, brk, b.addr); }
    assert b.addr in Units(b) && b.addr !in arena;
  }

  lemma JoinedFits(nodes: seq<Blk>, t: nat, b: Blk, n: nat)
    requires Insertable(nodes, t, b) && b.size >= n
    ensures !NoneFits(Inserted(nodes, t, b), n)
  {
    var s := Lower(nodes, t, b);
    assert Inserted(nodes, t, b)[|s|] == Joined(nodes, t, b) && Joined(nodes, t, b).size >= n;
  }

  // ------------------------------------------------------------ facts for the search

  /** The nodes after node f and before node j, on the way around, are too small. */
  ghost predicate Passed(nodes: seq<Blk>, f: nat, j: nat, n: nat)
    requires f < |nodes| && j < |nodes|
  {
    if f < j then forall i :: f < i < j ==> nodes[i].size < n
    else forall i :: 0 <= i < |nodes| && (i < j || f < i) ==> nodes[i].size < n
  }

  lemma NextIs(nodes: seq<Blk>, i: nat)
    requires i < |nodes|
    ensures Succ(i, |nodes|) < |nodes| && Next(nodes, i) == nodes[Succ(i, |nodes|)].addr
  {
  }

  lemma NotPassedYet(nodes: seq<Blk>, f: nat, n: nat)
    requires f < |nodes|
    ensures Succ(f, |nodes|) < |nodes| && Passed(nodes, f, Succ(f, |nodes|), n)
  {
  }

  lemma FitsAt(base: nat, nodes: seq<Blk>, i: nat, j: nat, n: nat)
    requires Ordered(base, nodes) && i < |nodes| && j == Succ(i, |nodes|) && nodes[j].size >= n > 0
    ensures j == i + 1 && !NoneFits(nodes, n)
  {
  }

  lemma PassedFirst(nodes: seq<Blk>, f: nat, j: nat, n: nat)
    requires f < |nodes| && j < |nodes| && Passed(nodes, f, j, n) && nodes[j].size >= n
    ensures FirstFit(nodes, nodes[f].addr, j, n)
  {
    forall i: nat | i < |nodes| && nodes[i].size >= n ensures Steps(f, j, |nodes|) <= Steps(f, i, |nodes|) { }
  }

  lemma WholeRound(base: nat, nodes: seq<Blk>, f: nat, j: nat, n: nat)
    requires Ordered(base, nodes) && f < |nodes| && j < |nodes| && nodes[j].addr == nodes[f].addr
    requires Passed(nodes, f, j, n) && nodes[j].size < n
    ensures NoneFits(nodes, n)
  {
    SameNode(base, nodes, f, j);
  }

  lemma SameNode(base: nat, nodes: seq<Blk>, f: nat, j: nat)
    requires Ordered(base, nodes) && f < |nodes| && j < |nodes|
    ensures nodes[j].addr == nodes[f].addr <==> j == f
  {
    assert f < j ==> Clear(nodes[f], nodes[j]);
    assert j < f ==> Clear(nodes[j], nodes[f]);
  }

  lemma PassOne(base: nat, nodes: seq<Blk>, f: nat, j: nat, n: nat)
    requires Ordered(base, nodes) && f < |nodes| && j < |nodes| && nodes[j].addr != nodes[f].addr
    requires Passed(nodes, f, j, n) && nodes[j].size < n
    ensures Succ(j, |nodes|) < |nodes| && Passed(nodes, f, Succ(j, |nodes|), n)
    ensures Dist(Succ(j, |nodes|), f, |nodes|) < Dist(j, f, |nodes|)
    ensures Next(nodes, j) == nodes[Succ(j, |nodes|)].addr
  {
  }

  lemma TakeWrites(mem: Memory, prev: nat, p: nat, n: nat, after: Memory)
    requires prev in mem && p in mem && mem[p].size >= n
    requires after == if mem[p].size == n then mem[prev := mem[prev].(ptr := mem[p].ptr)]
                      else
                        var m := mem[p := mem[p].(size := mem[p].size - n)];
                        var q := p + m[p].size;
                        m[q := Header(if q in m then m[q].ptr else 0, n)]
    ensures after == AfterTake(mem, prev, p, n)
  {
  }

  lemma TailIs(nodes: seq<Blk>, t: nat, n: nat)
    requires t < |nodes| && n <= nodes[t].size
    ensures Tail(nodes, t, n) == Blk(nodes[t].addr + (nodes[t].size - n), n)
  {
  }

  lemma PredecessorStays(nodes: seq<Blk>, t: nat, n: nat)
    requires 0 < t < |nodes|
    ensures OnList(Carved(nodes, t, n), nodes[t-1].addr)
  {
    assert Carved(nodes, t, n)[t-1] == nodes[t-1];
  }
}
