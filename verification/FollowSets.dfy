/** `FindFollowSets`: the terminals that can follow a configuration are propagated along the
    forward links until nothing changes.  Configurations are numbered in the order in which
    the passes visit them. */
module FollowSets {
  import opened BitSets

  type Links = seq<seq<nat>>

  ghost predicate ValidLinks(fplp: Links) {
    forall c, j :: 0 <= c < |fplp| && 0 <= j < |fplp[c]| ==> fplp[c][j] < |fplp|
  }

  /** There is a path of k links from d to c. */
  ghost predicate Reaches(fplp: Links, d: nat, c: nat, k: nat)
    decreases k
  {
    d < |fplp| && if k == 0 then d == c else exists e: nat :: e in fplp[d] && Reaches(fplp, e, c, k - 1)
  }

  /** t is in the initial set of a configuration that reaches c. */
  ghost predicate Inherited(fplp: Links, init: Sets, c: nat, t: nat) {
    exists d: nat, k: nat :: d < |init| && Reaches(fplp, d, c, k) && t in init[d]
  }

  ghost predicate FollowExact(fplp: Links, init: Sets, fws: Sets) {
    |fws| == |fplp| && forall c: nat, t: nat :: c < |fws| ==> (t in fws[c] <==> Inherited(fplp, init, c, t))
  }

  ghost predicate Covers(fplp: Links, fws: Sets, c: nat)
    requires c < |fplp| == |fws|
  {
    forall j :: 0 <= j < |fplp[c]| && fplp[c][j] < |fws| ==> fws[c] <= fws[fplp[c][j]]
  }

  /** What holds throughout: nothing is lost, nothing is invented, and a complete configuration
      has been passed on to all its successors. */
  ghost predicate Propagating(fplp: Links, init: Sets, fws: Sets, complete: Flags) {
    && ValidLinks(fplp) && |init| == |fws| == |complete| == |fplp|
    && (forall c :: 0 <= c < |fws| ==> init[c] <= fws[c])
    && (forall c: nat, t: nat :: c < |fws| && t in fws[c] ==> Inherited(fplp, init, c, t))
    && (forall c :: 0 <= c < |fws| && complete[c] ==> Covers(fplp, fws, c))
  }

  lemma {:induction false} ReachesOneMore(fplp: Links, d: nat, c: nat, e: nat, k: nat)
    requires ValidLinks(fplp) && Reaches(fplp, d, c, k) && c < |fplp| && e in fplp[c]
    ensures Reaches(fplp, d, e, k + 1)
    decreases k
  {
    if k == 0 {
      var j :| 0 <= j < |fplp[c]| && fplp[c][j] == e;
      assert Reaches(fplp, e, e, 0);
    } else {
      var f: nat :| f in fplp[d] && Reaches(fplp, f, c, k - 1);
      ReachesOneMore(fplp, f, c, e, k - 1);
    }
  }

  lemma InheritedOneMore(fplp: Links, init: Sets, c: nat, e: nat, t: nat)
    requires ValidLinks(fplp) && Inherited(fplp, init, c, t) && c < |fplp| && e in fplp[c]
    ensures Inherited(fplp, init, e, t)
  {
    var d: nat, k: nat :| d < |init| && Reaches(fplp, d, c, k) && t in init[d];
    ReachesOneMore(fplp, d, c, e, k);
  }

  lemma {:induction false} Carried(fplp: Links, fws: Sets, d: nat, c: nat, k: nat)
    requires ValidLinks(fplp) && |fws| == |fplp| && Reaches(fplp, d, c, k)
    requires forall x :: 0 <= x < |fws| ==> Covers(fplp, fws, x)
    ensures c < |fws| && fws[d] <= fws[c]
    decreases k
  {
    if k > 0 {
      var e: nat :| e in fplp[d] && Reaches(fplp, e, c, k - 1);
      var j :| 0 <= j < |fplp[d]| && fplp[d][j] == e;
      assert Covers(fplp, fws, d);
      Carried(fplp, fws, e, c, k - 1);
    }
  }

  ghost predicate AllUpTo(complete: Flags, n: nat) {
    n <= |complete| && forall x :: 0 <= x < n ==> complete[x]
  }

  /** When every configuration is complete, the sets are the least solution. */
  lemma AllComplete(fplp: Links, init: Sets, fws: Sets, complete: Flags)
    requires Propagating(fplp, init, fws, complete)
    requires AllUpTo(complete, |complete|)
    ensures FollowExact(fplp, init, fws)
  {
    forall c: nat, t: nat | c < |fws| ensures t in fws[c] <==> Inherited(fplp, init, c, t) {
      if Inherited(fplp, init, c, t) {
        var d: nat, k: nat :| d < |init| && Reaches(fplp, d, c, k) && t in init[d];
        Carried(fplp, fws, d, c, k);
        assert init[d] <= fws[d];
      }
    }
  }

  lemma PropagateOne(fplp: Links, init: Sets, fws: Sets, complete: Flags, c: nat, e: nat)
    requires Propagating(fplp, init, fws, complete) && c < |fws| && e in fplp[c]
    requires !(fws[c] <= fws[e])
    ensures Propagating(fplp, init, fws[e := fws[e] + fws[c]], complete[e := false])
  {
    var after := fws[e := fws[e] + fws[c]];
    forall x: nat, t: nat | x < |after| && t in after[x] ensures Inherited(fplp, init, x, t) {
      if t !in fws[x] { InheritedOneMore(fplp, init, c, e, t); }
    }
    forall x | 0 <= x < |fws| && complete[e := false][x] ensures Covers(fplp, after, x) {
      assert Covers(fplp, fws, x);
    }
  }

  ghost predicate Bounded(fws: Sets, n: nat) {
    forall x :: 0 <= x < |fws| ==> fws[x] <= Below(n)
  }

  ghost predicate PassedOn(fplp: Links, fws: Sets, c: nat, n: nat)
    requires c < |fplp| && n <= |fplp[c]|
  {
    forall j :: 0 <= j < n && fplp[c][j] < |fws| && c < |fws| ==> fws[c] <= fws[fplp[c][j]]
  }

  lemma LinkPassed(fplp: Links, before: Sets, c: nat, j: nat, n: nat)
    requires ValidLinks(fplp) && |before| == |fplp| && Bounded(before, n)
    requires c < |fplp| && j < |fplp[c]| && PassedOn(fplp, before, c, j)
    ensures before[c] <= before[fplp[c][j]] ==> PassedOn(fplp, before, c, j + 1)
    ensures !(before[c] <= before[fplp[c][j]]) ==>
              var after := before[fplp[c][j] := before[fplp[c][j]] + before[c]];
              Bounded(after, n) && PassedOn(fplp, after, c, j + 1)
  {
  }

  /** One link: `SetUnion` into the successor, which is incomplete again if it grew. */
  method PassLink(fplp: Links, fws: array<set<nat>>, status: array<bool>, c: nat, j: nat,
                  ghost init: Sets, ghost n: nat)
    returns (change: bool)
    requires Propagating(fplp, init, fws[..], status[..]) && Bounded(fws[..], n)
    requires c < |fplp| && j < |fplp[c]| && PassedOn(fplp, fws[..], c, j)
    modifies fws, status
    ensures Propagating(fplp, init, fws[..], status[..]) && Bounded(fws[..], n)
    ensures PassedOn(fplp, fws[..], c, j + 1)
    ensures change ==> Room(fws[..], n) < old(Room(fws[..], n))
    ensures !change ==> fws[..] == old(fws[..]) && status[..] == old(status[..])
  {
    var e := fplp[c][j];
    ghost var before, flags := fws[..], status[..];
    assert |before| == |flags| == |fplp|;
    LinkPassed(fplp, before, c, j, n);
    change := !(fws[c] <= fws[e]);
    if change {
      PropagateOne(fplp, init, before, flags, c, e);
      RoomDrops(before, e, before[c], n);
      hide Propagating, Room, Bounded, PassedOn, ValidLinks;
      fws[e] := fws[e] + fws[c];
      status[e] := false;
      assert fws[..] == before[e := before[e] + before[c]];
      assert status[..] == flags[e := false];
    }
  }

  /** The inner loop, over the links of configuration c, which is complete afterwards. */
  method PassOn(fplp: Links, fws: array<set<nat>>, status: array<bool>, c: nat,
                ghost init: Sets, ghost n: nat)
    returns (progress: bool)
    requires Propagating(fplp, init, fws[..], status[..]) && Bounded(fws[..], n) && c < |fplp|
    modifies fws, status
    ensures Propagating(fplp, init, fws[..], status[..]) && Bounded(fws[..], n)
    ensures progress ==> Room(fws[..], n) < old(Room(fws[..], n))
    ensures !progress ==> fws[..] == old(fws[..]) && status[..] == old(status[..])[c := true]
  {
    assert |status[..]| == |fplp|;
    hide Propagating, Room, Bounded;
    progress := false;
    var j := 0;
    while j < |fplp[c]|
      invariant 0 <= j <= |fplp[c]|
      invariant Propagating(fplp, init, fws[..], status[..]) && Bounded(fws[..], n)
      invariant PassedOn(fplp, fws[..], c, j)
      invariant progress ==> Room(fws[..], n) < old(Room(fws[..], n))
      invariant !progress ==> fws[..] == old(fws[..]) && status[..] == old(status[..])
      modifies fws, status
    {
      var change := PassLink(fplp, fws, status, c, j, init, n);
      if change { progress := true; }
      j := j + 1;
    }
    Completed(fplp, init, fws[..], status[..], c);
    ghost var flags := status[..];
    status[c] := true;
    assert status[..] == flags[c := true];
  }

  lemma Completed(fplp: Links, init: Sets, fws: Sets, complete: Flags, c: nat)
    requires Propagating(fplp, init, fws, complete) && c < |fplp| && PassedOn(fplp, fws, c, |fplp[c]|)
    ensures Propagating(fplp, init, fws, complete[c := true])
  {
    assert Covers(fplp, fws, c);
  }

  lemma AllUpToNext(complete: Flags, c: nat)
    requires c < |complete| && AllUpTo(complete, c)
    ensures AllUpTo(complete[c := true], c + 1)
  {
  }

  /** One pass over all configurations. */
  method Pass(fplp: Links, fws: array<set<nat>>, status: array<bool>, ghost init: Sets, ghost n: nat)
    returns (progress: bool)
    requires Propagating(fplp, init, fws[..], status[..]) && Bounded(fws[..], n)
    modifies fws, status
    ensures Propagating(fplp, init, fws[..], status[..]) && Bounded(fws[..], n)
    ensures progress ==> Room(fws[..], n) < old(Room(fws[..], n))
    ensures !progress ==> fws[..] == old(fws[..]) && AllUpTo(status[..], status.Length)
  {
    assert status.Length == |status[..]| == |fplp|;
    assert AllUpTo(status[..], 0);
    hide Propagating, Room, Bounded, AllUpTo;
    progress := false;
    var c := 0;
    while c < |fplp|
      invariant 0 <= c <= |fplp|
      invariant Propagating(fplp, init, fws[..], status[..]) && Bounded(fws[..], n)
      invariant progress ==> Room(fws[..], n) < old(Room(fws[..], n))
      invariant !progress ==> fws[..] == old(fws[..]) && AllUpTo(status[..], c)
      modifies fws, status
    {
      if !status[c] {
        ghost var flags := status[..];
        var grew := PassOn(fplp, fws, status, c, init, n);
        if grew {
          progress := true;
        } else {
          if !progress { AllUpToNext(flags, c); }
        }
      } else if !progress {
        AllUpToNext(status[..], c);
        assert status[..][c := true] == status[..];
      }
      c := c + 1;
    }
  }

  /** `FindFollowSets`: on return every set is exactly the union of the initial sets of the
      configurations that reach it along the links. */
  method FindFollowSets(fplp: Links, fws: array<set<nat>>, ghost n: nat)
    requires ValidLinks(fplp) && fws.Length == |fplp| && Bounded(fws[..], n)
    modifies fws
    ensures FollowExact(fplp, old(fws[..]), fws[..])
  {
    ghost var init := fws[..];
    var status := new bool[|fplp|](_ => false);
    assert Propagating(fplp, init, fws[..], status[..]) by {
      forall c: nat, t: nat | c < |init| && t in init[c] ensures Inherited(fplp, init, c, t) {
        assert Reaches(fplp, c, c, 0);
      }
    }
    hide Propagating, Bounded, Room;
    var progress := true;
    while progress
      invariant Propagating(fplp, init, fws[..], status[..]) && Bounded(fws[..], n)
      invariant !progress ==> AllUpTo(status[..], status.Length)
      decreases Room(fws[..], n), progress
      modifies fws, status
    {
      progress := Pass(fplp, fws, status, init, n);
    }
    AllComplete(fplp, init, fws[..], status[..]);
  }
}
