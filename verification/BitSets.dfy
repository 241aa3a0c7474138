/** Tables of flags and of sets of terminals, and the measures by which the fixpoint loops
    over them terminate. */
module BitSets {

  type Flags = seq<bool>
  type Sets = seq<set<nat>>

  /** Flags still false. */
  ghost function Unset(lam: Flags): nat {
    if lam == [] then 0 else Unset(lam[..|lam|-1]) + if lam[|lam|-1] then 0 else 1
  }

  lemma {:induction false} UnsetDrops(lam: Flags, s: nat)
    requires s < |lam| && !lam[s]
    ensures Unset(lam[s := true]) == Unset(lam) - 1
  {
    var n := |lam| - 1;
    if s < n {
      UnsetDrops(lam[..n], s);
      assert lam[s := true][..n] == lam[..n][s := true];
    } else {
      assert lam[s := true][..n] == lam[..n];
    }
  }

  /** Bits still unset in sets over the terminals below n. */
  ghost function Room(first: Sets, n: nat): nat {
    if first == [] then 0 else Room(first[..|first|-1], n) + |Below(n) - first[|first|-1]|
  }

  ghost function Below(n: nat): (s: set<nat>)
    ensures forall x: nat :: x in s <==> x < n
  {
    if n == 0 then {} else Below(n - 1) + {n - 1}
  }

  lemma {:induction false} RoomDrops(first: Sets, s: nat, more: set<nat>, n: nat)
    requires s < |first| && more <= Below(n) && !(more <= first[s])
    ensures Room(first[s := first[s] + more], n) < Room(first, n)
  {
    var m := |first| - 1;
    var after := first[s := first[s] + more];
    if s < m {
      RoomDrops(first[..m], s, more, n);
      assert after[..m] == first[..m][s := first[s] + more];
    } else {
      assert after[..m] == first[..m];
      var x :| x in more && x !in first[s];
      assert Below(n) - after[m] <= Below(n) - first[m] - {x};
      SubsetSize(Below(n) - after[m], Below(n) - first[m] - {x});
      assert x in Below(n) - first[m];
    }
  }

  lemma {:induction false} SubsetSize(a: set<nat>, b: set<nat>)
    requires a <= b
    ensures |a| <= |b|
  {
    if x :| x in a {
      SubsetSize(a - {x}, b - {x});
    }
  }
}
