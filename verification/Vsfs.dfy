/** The small inode file system of `ostep13-vsfs.py`. A path is the sequence of its components, `/` the empty one. */
module Vsfs {
  import opened Shared

  type Path = seq<string>

  datatype Kind = Free | Dir | File
  datatype Entry = Entry(name: string, inum: nat)
  datatype Block = Block(ftype: Kind, dirUsed: int, dirList: seq<Entry>, data: string)
  datatype Inode = Inode(ftype: Kind, addr: int, refCnt: int)

  const MAX_USED: int := 32

  /** The whole file system, with the inode that owns each block and the path of each directory. */
  datatype State = State(ibitmap: seq<bool>, inodes: seq<Inode>, dbitmap: seq<bool>, data: seq<Block>,
                         files: seq<Path>, dirs: seq<Path>, names: map<Path, nat>, owner: seq<nat>, home: seq<Path>)

  // ------------------------------------------------------------ the invariant, point by point

  /** The bitmap is in step with the inode, and the inode with its block. */
  ghost predicate InodeAt(s: State, i: nat)
    requires i < |s.inodes| == |s.ibitmap| && |s.data| == |s.owner|
  {
    var n := s.inodes[i];
    && (s.ibitmap[i] <==> n.ftype != Free) && -1 <= n.addr < |s.data|
    && (n.ftype == Free ==> n.addr == -1) && (n.ftype == Dir ==> n.addr >= 0)
    && (n.addr >= 0 ==> s.data[n.addr].ftype == n.ftype && s.owner[n.addr] == i)
  }

  /** The bitmap is in step with the block, which has an owner when it is in use. */
  ghost predicate BlockAt(s: State, b: nat)
    requires b < |s.data| == |s.dbitmap| == |s.owner|
  {
    var d := s.data[b];
    && (s.dbitmap[b] <==> d.ftype != Free) && d.dirUsed == |d.dirList| <= MAX_USED
    && (d.ftype != Dir ==> d.dirList == [])
    && (d.ftype != Free ==> s.owner[b] < |s.inodes| && s.inodes[s.owner[b]].addr == b)
  }

  ghost predicate IsDir(s: State, i: nat) {
    i < |s.inodes| && s.inodes[i].ftype == Dir && 0 <= s.inodes[i].addr < |s.data|
  }

  ghost function ListOf(s: State, i: nat): seq<Entry>
    requires IsDir(s, i)
  {
    s.data[s.inodes[i].addr].dirList
  }

  ghost predicate Unique(l: seq<Entry>) {
    forall a, b :: 0 <= a < b < |l| ==> l[a].name != l[b].name
  }

  /** A directory begins with its own entry and its parent's, and its count is that of its entries. */
  ghost predicate DirAt(s: State, i: nat)
    requires i < |s.inodes|
  {
    s.inodes[i].ftype == Dir ==>
      && IsDir(s, i) && |ListOf(s, i)| >= 2 && Unique(ListOf(s, i)) && s.inodes[i].refCnt == |ListOf(s, i)|
      && ListOf(s, i)[0] == Entry(".", i) && ListOf(s, i)[1].name == ".." && IsDir(s, ListOf(s, i)[1].inum)
  }

  /** How many entries of a list name an inode. */
  ghost function Naming(l: seq<Entry>, i: nat): nat {
    if l == [] then 0 else Naming(l[..|l|-1], i) + if l[|l|-1].inum == i then 1 else 0
  }

  /** How many directory entries name an inode. */
  ghost function Links(data: seq<Block>, i: nat): nat {
    if data == [] then 0 else Links(data[..|data|-1], i) + Naming(data[|data|-1].dirList, i)
  }

  ghost predicate FileAt(s: State, i: nat)
    requires i < |s.inodes|
  {
    s.inodes[i].ftype == File ==> s.inodes[i].refCnt == Links(s.data, i)
  }

  ghost predicate Named(s: State, p: Path) {
    (p in s.dirs || p in s.files) && p in s.names
  }

  function Parent(p: Path): Path {
    if p == [] then [] else p[..|p|-1]
  }

  /** The second entry of a directory is that of the directory above it, the root being above itself. */
  ghost predicate UpAt(s: State, p: Path)
    requires p in s.names && IsDir(s, s.names[p])
  {
    |ListOf(s, s.names[p])| >= 2 && Parent(p) in s.names && ListOf(s, s.names[p])[1].inum == s.names[Parent(p)]
  }

  /** A path has an entry in the directory above it, and the type its list says. */
  ghost predicate PathAt(s: State, p: Path) {
    && p in s.names && s.names[p] < |s.inodes|
    && (p in s.dirs ==> IsDir(s, s.names[p]) && s.names[p] < |s.home| && s.home[s.names[p]] == p && UpAt(s, p))
    && (p in s.files ==> s.inodes[s.names[p]].ftype == File && p != [])
    && (p != [] ==> Parent(p) in s.dirs && Parent(p) in s.names && IsDir(s, s.names[Parent(p)])
                    && Entry(p[|p|-1], s.names[p]) in ListOf(s, s.names[Parent(p)]))
  }

  /** An entry after the first two has a path. */
  ghost predicate EntryAt(s: State, p: Path, k: nat) {
    p in s.dirs && p in s.names && IsDir(s, s.names[p]) && 2 <= k < |ListOf(s, s.names[p])| ==>
      var e := ListOf(s, s.names[p])[k];
      Named(s, p + [e.name]) && s.names[p + [e.name]] == e.inum
  }

  ghost predicate HomeAt(s: State, i: nat)
    requires i < |s.inodes| == |s.home|
  {
    s.inodes[i].ftype == Dir ==> s.home[i] in s.dirs && s.home[i] in s.names && s.names[s.home[i]] == i
  }

  ghost predicate Sizes(s: State) {
    && |s.inodes| == |s.ibitmap| == |s.home| > 0 && |s.data| == |s.dbitmap| == |s.owner|
    && [] in s.dirs && [] in s.names && s.names[[]] == 0 && Distinct(s.files)
  }

  ghost predicate DiskOK(s: State)
    requires Sizes(s)
  {
    && (forall i: nat :: i < |s.inodes| ==> InodeAt(s, i))
    && (forall b: nat :: b < |s.data| ==> BlockAt(s, b))
    && (forall i: nat :: i < |s.inodes| ==> DirAt(s, i))
    && (forall i: nat :: i < |s.inodes| ==> FileAt(s, i))
  }

  ghost predicate NamesOK(s: State)
    requires Sizes(s)
  {
    && (forall p: Path {:trigger PathAt(s, p)} :: p in s.dirs || p in s.files ==> PathAt(s, p))
    && (forall p: Path, k: nat :: EntryAt(s, p, k))
    && (forall i: nat :: i < |s.inodes| ==> HomeAt(s, i))
  }

  ghost predicate OK(s: State) {
    Sizes(s) && DiskOK(s) && NamesOK(s)
  }

  lemma BothOK(s: State)
    requires Sizes(s) && DiskOK(s) && NamesOK(s)
    ensures OK(s)
  {
  }

  lemma SizesOK(s: State)
    requires OK(s)
    ensures Sizes(s)
  {
  }

  lemma PathOK(s: State, p: Path)
    requires OK(s) && (p in s.dirs || p in s.files)
    ensures PathAt(s, p)
  {
  }

  lemma EntryOK(s: State, p: Path, k: nat)
    requires OK(s)
    ensures EntryAt(s, p, k)
  {
  }

  lemma HomeOK(s: State, i: nat)
    requires OK(s) && i < |s.inodes|
    ensures |s.inodes| == |s.home| && HomeAt(s, i)
  {
  }

  lemma InodeOK(s: State, i: nat)
    requires OK(s) && i < |s.inodes|
    ensures Sizes(s) && InodeAt(s, i) && DirAt(s, i) && FileAt(s, i)
  {
  }

  lemma BlockOK(s: State, b: nat)
    requires OK(s) && b < |s.data|
    ensures Sizes(s) && BlockAt(s, b)
  {
  }

  ghost predicate NoOrphan(s: State) {
    forall i: nat :: i < |s.inodes| && s.inodes[i].ftype == File ==> s.inodes[i].refCnt >= 1
  }

  // ------------------------------------------------------------ counting entries

  lemma {:induction false} LinksUpdate(data: seq<Block>, b: nat, d: Block, i: nat)
    requires b < |data|
    ensures Links(data[b := d], i) == Links(data, i) - Naming(data[b].dirList, i) + Naming(d.dirList, i)
  {
    var n := |data| - 1;
    if b < n {
      LinksUpdate(data[..n], b, d, i);
      assert data[b := d][..n] == data[..n][b := d];
    } else {
      assert data[b := d][..n] == data[..n];
    }
  }

  lemma NamingMore(l: seq<Entry>, e: Entry, i: nat)
    ensures Naming(l + [e], i) == Naming(l, i) + if e.inum == i then 1 else 0
  {
    assert (l + [e])[..|l|] == l;
  }

  lemma {:induction false} NamingWithout(l: seq<Entry>, k: nat, i: nat)
    requires k < |l|
    ensures Naming(l[..k] + l[k+1..], i) == Naming(l, i) - if l[k].inum == i then 1 else 0
  {
    var n := |l| - 1;
    if k == n {
      assert l[..k] + l[k+1..] == l[..n];
    } else {
      NamingWithout(l[..n], k, i);
      assert (l[..k] + l[k+1..])[..n-1] == l[..n][..k] + l[..n][k+1..];
    }
  }

  lemma {:induction false} SomeNaming(l: seq<Entry>, i: nat)
    ensures Naming(l, i) > 0 <==> exists k: nat :: k < |l| && l[k].inum == i
  {
    if l != [] {
      var n := |l| - 1;
      SomeNaming(l[..n], i);
      if k: nat :| k < |l| && l[k].inum == i {
        assert k < n ==> l[..n][k].inum == i;
      }
      if k: nat :| k < |l[..n]| && l[..n][k].inum == i {
        assert l[k].inum == i;
      }
    }
  }

  lemma {:induction false} SomeLink(data: seq<Block>, i: nat)
    ensures Links(data, i) > 0 <==> exists b: nat, k: nat :: b < |data| && k < |data[b].dirList| && data[b].dirList[k].inum == i
  {
    if data != [] {
      var n := |data| - 1;
      SomeLink(data[..n], i);
      SomeNaming(data[n].dirList, i);
      if b: nat, k: nat :| b < |data| && k < |data[b].dirList| && data[b].dirList[k].inum == i {
        assert b < n ==> data[..n][b] == data[b];
      }
      if b: nat, k: nat :| b < n && k < |data[..n][b].dirList| && data[..n][b].dirList[k].inum == i {
        assert data[b].dirList[k].inum == i;
      }
      if k: nat :| k < |data[n].dirList| && data[n].dirList[k].inum == i {
        assert data[n].dirList[k].inum == i;
      }
    }
  }

  // ------------------------------------------------------------ adding an entry

  ghost predicate NoName(l: seq<Entry>, n: string) {
    forall k: nat :: k < |l| ==> l[k].name != n
  }

  ghost predicate DirPath(s: State, p: Path) {
    p in s.dirs && p in s.names && IsDir(s, s.names[p])
  }

  /** A new name in the directory `pp` for the file `t`. */
  ghost function AddEntry(s: State, pp: Path, n: string, t: nat): State
    requires DirPath(s, pp) && t < |s.inodes|
  {
    var pi := s.names[pp];
    var pb := s.inodes[pi].addr;
    var d := s.data[pb];
    s.(inodes := s.inodes[t := s.inodes[t].(refCnt := s.inodes[t].refCnt + 1)][pi := s.inodes[pi].(refCnt := s.inodes[pi].refCnt + 1)],
       data := s.data[pb := d.(dirUsed := d.dirUsed + 1, dirList := d.dirList + [Entry(n, t)])],
       files := s.files + [pp + [n]], names := s.names[pp + [n] := t])
  }

  ghost predicate CanAdd(s: State, pp: Path, n: string, t: nat) {
    && OK(s) && DirPath(s, pp) && t < |s.inodes| && s.inodes[t].ftype == File
    && |ListOf(s, s.names[pp])| < MAX_USED && NoName(ListOf(s, s.names[pp]), n)
  }

  lemma PathHasEntry(s: State, p: Path)
    requires OK(s) && (p in s.dirs || p in s.files) && p != []
    ensures DirPath(s, Parent(p)) && p in s.names && Entry(p[|p|-1], s.names[p]) in ListOf(s, s.names[Parent(p)])
    ensures !NoName(ListOf(s, s.names[Parent(p)]), p[|p|-1])
  {
    assert PathAt(s, p);
    var l := ListOf(s, s.names[Parent(p)]);
    var k: nat :| k < |l| && l[k] == Entry(p[|p|-1], s.names[p]);
  }

  lemma FreshPath(s: State, pp: Path, n: string)
    requires OK(s) && DirPath(s, pp) && NoName(ListOf(s, s.names[pp]), n)
    ensures pp + [n] !in s.dirs && pp + [n] !in s.files
  {
    hide OK;
    var p := pp + [n];
    assert Parent(p) == pp;
    if p in s.dirs || p in s.files {
      PathHasEntry(s, p);
    }
  }

  /** Two directories have different blocks. */
  lemma OtherBlock(s: State, i: nat, j: nat)
    requires Sizes(s) && DiskOK(s) && IsDir(s, i) && IsDir(s, j) && i != j
    ensures s.inodes[i].addr != s.inodes[j].addr
  {
    assert InodeAt(s, i) && InodeAt(s, j);
  }

  lemma ListsAfterAdd(s: State, pp: Path, n: string, t: nat)
    requires CanAdd(s, pp, n, t)
    ensures var s' := AddEntry(s, pp, n, t); forall i: nat :: i < |s.inodes| ==>
      && (IsDir(s', i) <==> IsDir(s, i)) && s'.inodes[i].ftype == s.inodes[i].ftype
      && (IsDir(s, i) ==> ListOf(s', i) == if i == s.names[pp] then ListOf(s, i) + [Entry(n, t)] else ListOf(s, i))
  {
    var s' := AddEntry(s, pp, n, t);
    var pi := s.names[pp];
    forall i: nat | i < |s.inodes| ensures
      && (IsDir(s', i) <==> IsDir(s, i)) && s'.inodes[i].ftype == s.inodes[i].ftype
      && (IsDir(s, i) ==> ListOf(s', i) == if i == pi then ListOf(s, i) + [Entry(n, t)] else ListOf(s, i)) {
      if IsDir(s, i) && i != pi { OtherBlock(s, i, pi); }
    }
  }

  lemma AddKeepsDisk(s: State, pp: Path, n: string, t: nat)
    requires CanAdd(s, pp, n, t)
    ensures Sizes(AddEntry(s, pp, n, t)) && DiskOK(AddEntry(s, pp, n, t))
  {
    hide OK;
    SizesOK(s);
    var s' := AddEntry(s, pp, n, t);
    FreshPath(s, pp, n);
    ListsAfterAdd(s, pp, n, t);
    AddedFiles(s, pp, n, t);
    AddedDirs(s, pp, n, t);
    forall i: nat | i < |s'.inodes| ensures InodeAt(s', i) { InodeOK(s, i); }
    InodeOK(s, s.names[pp]);
    forall b: nat | b < |s'.data| ensures BlockAt(s', b) { BlockOK(s, b); }
  }

  lemma AddedFiles(s: State, pp: Path, n: string, t: nat)
    requires CanAdd(s, pp, n, t)
    ensures forall i: nat :: i < |s.inodes| ==> FileAt(AddEntry(s, pp, n, t), i)
  {
    var s' := AddEntry(s, pp, n, t);
    var pb := s.inodes[s.names[pp]].addr;
    forall i: nat | i < |s.inodes| ensures FileAt(s', i) {
      assert FileAt(s, i);
      LinksUpdate(s.data, pb, s'.data[pb], i);
      NamingMore(s.data[pb].dirList, Entry(n, t), i);
    }
  }

  lemma AddedDirs(s: State, pp: Path, n: string, t: nat)
    requires CanAdd(s, pp, n, t)
    ensures forall i: nat :: i < |s.inodes| ==> DirAt(AddEntry(s, pp, n, t), i)
  {
    hide OK;
    SizesOK(s);
    var s' := AddEntry(s, pp, n, t);
    ListsAfterAdd(s, pp, n, t);
    forall i: nat | i < |s.inodes| ensures DirAt(s', i) {
      InodeOK(s, i);
      if s.inodes[i].ftype == Dir { InodeOK(s, ListOf(s, i)[1].inum); }
    }
  }

  lemma AddKeepsNames(s: State, pp: Path, n: string, t: nat)
    requires CanAdd(s, pp, n, t) && Sizes(AddEntry(s, pp, n, t))
    ensures NamesOK(AddEntry(s, pp, n, t))
  {
    hide OK;
    SizesOK(s);
    var s' := AddEntry(s, pp, n, t);
    FreshPath(s, pp, n);
    ListsAfterAdd(s, pp, n, t);
    forall p: Path | p in s'.dirs || p in s'.files ensures PathAt(s', p) { AddedPath(s, pp, n, t, p); }
    forall p: Path, k: nat ensures EntryAt(s', p, k) { AddedEntry(s, pp, n, t, p, k); }
    forall i: nat | i < |s'.inodes| ensures HomeAt(s', i) { HomeOK(s, i); }
  }

  lemma AddedPath(s: State, pp: Path, n: string, t: nat, p: Path)
    requires CanAdd(s, pp, n, t) && (p in s.dirs || p in s.files || p == pp + [n])
    ensures PathAt(AddEntry(s, pp, n, t), p)
  {
    hide OK, PathAt;
    FreshPath(s, pp, n);
    if p == pp + [n] {
      AddedNew(s, pp, n, t);
    } else {
      AddedOld(s, pp, n, t, p);
    }
  }

  lemma AddedNew(s: State, pp: Path, n: string, t: nat)
    requires CanAdd(s, pp, n, t)
    ensures PathAt(AddEntry(s, pp, n, t), pp + [n])
  {
    hide OK, Distinct, Sizes, Unique;
    ListsAfterAdd(s, pp, n, t);
    FreshPath(s, pp, n);
    assert Parent(pp + [n]) == pp;
    PathOK(s, pp);
  }

  lemma AddedOld(s: State, pp: Path, n: string, t: nat, p: Path)
    requires CanAdd(s, pp, n, t) && (p in s.dirs || p in s.files) && p != pp + [n]
    ensures PathAt(AddEntry(s, pp, n, t), p)
  {
    hide OK, Distinct, Unique, Sizes, NoName, AddEntry;
    ListsAfterAdd(s, pp, n, t);
    AddFacts(s, pp, n, t);
    PathOK(s, p);
    PathOK(s, Parent(p));
    NotTheNew(s, pp, n, p);
  }

  lemma AddFacts(s: State, pp: Path, n: string, t: nat)
    requires CanAdd(s, pp, n, t)
    ensures var s' := AddEntry(s, pp, n, t);
      && s'.dirs == s.dirs && s'.files == s.files + [pp + [n]] && s'.names == s.names[pp + [n] := t]
      && s'.home == s.home && |s'.inodes| == |s.inodes|
  {
    hide OK;
  }

  /** An old path and the one above it are not the new one. */
  lemma NotTheNew(s: State, pp: Path, n: string, p: Path)
    requires OK(s) && DirPath(s, pp) && NoName(ListOf(s, s.names[pp]), n) && (p in s.dirs || p in s.files)
    ensures p != pp + [n] && Parent(p) != pp + [n]
  {
    hide OK;
    FreshPath(s, pp, n);
    PathOK(s, p);
  }

  lemma AddedEntry(s: State, pp: Path, n: string, t: nat, p: Path, k: nat)
    requires CanAdd(s, pp, n, t)
    ensures EntryAt(AddEntry(s, pp, n, t), p, k)
  {
    hide OK;
    SizesOK(s);
    FreshPath(s, pp, n);
    ListsAfterAdd(s, pp, n, t);
    PathOK(s, pp);
    EntryOK(s, p, k);
    if p in s.dirs { PathOK(s, p); }
  }

  // ------------------------------------------------------------ removing an entry

  ghost function Without<T>(l: seq<T>, k: nat): seq<T>
    requires k < |l|
  {
    l[..k] + l[k+1..]
  }

  /** The file path `j` of the list loses its entry, the `k`-th of its directory. */
  ghost function RemoveEntry(s: State, j: nat, k: nat): State
    requires CanRemove(s, j, k)
  {
    var p := s.files[j];
    var t := s.names[p];
    var pi := s.names[Parent(p)];
    var pb := s.inodes[pi].addr;
    var d := s.data[pb];
    s.(inodes := s.inodes[t := s.inodes[t].(refCnt := s.inodes[t].refCnt - 1)][pi := s.inodes[pi].(refCnt := s.inodes[pi].refCnt - 1)],
       data := s.data[pb := d.(dirUsed := d.dirUsed - 1, dirList := Without(d.dirList, k))],
       files := Without(s.files, j))
  }

  ghost predicate CanRemove(s: State, j: nat, k: nat) {
    && OK(s) && j < |s.files| && s.files[j] in s.names && s.files[j] != [] && DirPath(s, Parent(s.files[j]))
    && s.names[s.files[j]] < |s.inodes| && s.inodes[s.names[s.files[j]]].ftype == File
    && k < |ListOf(s, s.names[Parent(s.files[j])])|
    && ListOf(s, s.names[Parent(s.files[j])])[k] == Entry(s.files[j][|s.files[j]|-1], s.names[s.files[j]])
  }

  lemma NotADot(s: State, j: nat, k: nat)
    requires CanRemove(s, j, k)
    ensures k >= 2
  {
    hide OK;
    SizesOK(s);
    var pi := s.names[Parent(s.files[j])];
    InodeOK(s, pi);
  }

  lemma ListsAfterRemove(s: State, j: nat, k: nat)
    requires CanRemove(s, j, k)
    ensures var s' := RemoveEntry(s, j, k); var pi := s.names[Parent(s.files[j])]; forall i: nat :: i < |s.inodes| ==>
      && (IsDir(s', i) <==> IsDir(s, i)) && s'.inodes[i].ftype == s.inodes[i].ftype
      && (IsDir(s, i) ==> ListOf(s', i) == if i == pi then Without(ListOf(s, i), k) else ListOf(s, i))
  {
    var s' := RemoveEntry(s, j, k);
    var pi := s.names[Parent(s.files[j])];
    forall i: nat | i < |s.inodes| ensures
      && (IsDir(s', i) <==> IsDir(s, i)) && s'.inodes[i].ftype == s.inodes[i].ftype
      && (IsDir(s, i) ==> ListOf(s', i) == if i == pi then Without(ListOf(s, i), k) else ListOf(s, i)) {
      if IsDir(s, i) && i != pi { OtherBlock(s, i, pi); }
    }
  }

  lemma RemovedFiles(s: State, j: nat, k: nat)
    requires CanRemove(s, j, k)
    ensures forall i: nat :: i < |s.inodes| ==> FileAt(RemoveEntry(s, j, k), i)
  {
    var s' := RemoveEntry(s, j, k);
    var pb := s.inodes[s.names[Parent(s.files[j])]].addr;
    forall i: nat | i < |s.inodes| ensures FileAt(s', i) {
      assert FileAt(s, i);
      LinksUpdate(s.data, pb, s'.data[pb], i);
      NamingWithout(s.data[pb].dirList, k, i);
    }
  }

  lemma RemovedDirs(s: State, j: nat, k: nat)
    requires CanRemove(s, j, k)
    ensures forall i: nat :: i < |s.inodes| ==> DirAt(RemoveEntry(s, j, k), i)
  {
    hide OK;
    SizesOK(s);
    var s' := RemoveEntry(s, j, k);
    NotADot(s, j, k);
    ListsAfterRemove(s, j, k);
    forall i: nat | i < |s.inodes| ensures DirAt(s', i) {
      InodeOK(s, i);
      if s.inodes[i].ftype == Dir { InodeOK(s, ListOf(s, i)[1].inum); }
    }
  }

  lemma DistinctWithout(l: seq<Path>, j: nat)
    requires Distinct(l) && j < |l|
    ensures Distinct(Without(l, j)) && forall q: Path :: q in Without(l, j) <==> q in l && q != l[j]
  {
    var m := Without(l, j);
    forall q: Path | q in l && q != l[j] ensures q in m {
      var i: nat :| i < |l| && l[i] == q;
      assert q == if i < j then m[i] else m[i-1];
    }
    forall q: Path | q in m ensures q in l && q != l[j] {
      var i: nat :| i < |m| && m[i] == q;
      assert q == if i < j then l[i] else l[i+1];
    }
  }

  lemma RemoveKeepsDisk(s: State, j: nat, k: nat)
    requires CanRemove(s, j, k)
    ensures Sizes(RemoveEntry(s, j, k)) && DiskOK(RemoveEntry(s, j, k))
  {
    hide OK;
    SizesOK(s);
    var s' := RemoveEntry(s, j, k);
    DistinctWithout(s.files, j);
    ListsAfterRemove(s, j, k);
    RemovedFiles(s, j, k);
    RemovedDirs(s, j, k);
    forall i: nat | i < |s'.inodes| ensures InodeAt(s', i) { InodeOK(s, i); }
    forall b: nat | b < |s'.data| ensures BlockAt(s', b) { BlockOK(s, b); }
  }

  lemma RemoveKeepsNames(s: State, j: nat, k: nat)
    requires CanRemove(s, j, k) && Sizes(RemoveEntry(s, j, k))
    ensures NamesOK(RemoveEntry(s, j, k))
  {
    hide OK;
    SizesOK(s);
    var s' := RemoveEntry(s, j, k);
    ListsAfterRemove(s, j, k);
    DistinctWithout(s.files, j);
    PathOK(s, s.files[j]);
    forall p: Path | p in s'.dirs || p in s'.files ensures PathAt(s', p) { RemovedPath(s, j, k, p); }
    forall p: Path, i: nat ensures EntryAt(s', p, i) { RemovedEntry(s, j, k, p, i); }
    forall i: nat | i < |s'.inodes| ensures HomeAt(s', i) { HomeOK(s, i); }
  }

  lemma SamePath(p: Path, q: Path)
    requires p != [] && q != [] && Parent(p) == Parent(q) && p[|p|-1] == q[|q|-1]
    ensures p == q
  {
    assert p == Parent(p) + [p[|p|-1]] && q == Parent(q) + [q[|q|-1]];
  }

  lemma StillIn(l: seq<Entry>, k: nat, e: Entry)
    requires k < |l| && e in l && e.name != l[k].name
    ensures e in Without(l, k)
  {
    var i: nat :| i < |l| && l[i] == e;
    assert e == if i < k then Without(l, k)[i] else Without(l, k)[i-1];
  }

  lemma RemovedPath(s: State, j: nat, k: nat, p: Path)
    requires CanRemove(s, j, k) && (p in s.dirs || p in s.files) && p != s.files[j]
    ensures PathAt(RemoveEntry(s, j, k), p)
  {
    hide OK, Distinct, Sizes;
    SizesOK(s);
    SizesFacts(s);
    ListsAfterRemove(s, j, k);
    NotADot(s, j, k);
    FilesLeft(s, j);
    PathOK(s, p);
    PathOK(s, Parent(p));
    if p != [] {
      EntryStays(s, j, k, p);
    }
  }

  /** Every other path keeps its entry. */
  lemma EntryStays(s: State, j: nat, k: nat, p: Path)
    requires CanRemove(s, j, k) && (p in s.dirs || p in s.files) && p != s.files[j] && p != []
    ensures DirPath(s, Parent(p)) && p in s.names
    ensures var l := ListOf(s, s.names[Parent(p)]); var e := Entry(p[|p|-1], s.names[p]);
      if s.names[Parent(p)] == s.names[Parent(s.files[j])] then k < |l| && e in Without(l, k) else e in l
  {
    hide OK, Distinct, Sizes;
    PathOK(s, p);
    PathOK(s, Parent(p));
    PathOK(s, Parent(s.files[j]));
    if Parent(p) == Parent(s.files[j]) {
      if p[|p|-1] == s.files[j][|s.files[j]|-1] { SamePath(p, s.files[j]); }
      StillIn(ListOf(s, s.names[Parent(p)]), k, Entry(p[|p|-1], s.names[p]));
    }
  }

  lemma RemovedEntry(s: State, j: nat, k: nat, p: Path, i: nat)
    requires CanRemove(s, j, k)
    ensures EntryAt(RemoveEntry(s, j, k), p, i)
  {
    hide OK, Distinct, InodeAt, FileAt, Sizes;
    var s' := RemoveEntry(s, j, k);
    SizesOK(s);
    ListsAfterRemove(s, j, k);
    NotADot(s, j, k);
    FilesLeft(s, j);
    var q := s.files[j];
    if p != Parent(q) {
      EntryOK(s, p, i);
      PathOK(s, Parent(q));
      if p in s.dirs { PathOK(s, p); }
      forall n: string ensures p + [n] != q { assert Parent(p + [n]) == p; }
    } else {
      RemovedSibling(s, j, k, i);
    }
  }

  lemma FilesLeft(s: State, j: nat)
    requires OK(s) && j < |s.files|
    ensures Distinct(Without(s.files, j)) && forall q: Path :: q in Without(s.files, j) <==> q in s.files && q != s.files[j]
  {
    DistinctWithout(s.files, j);
  }

  /** The other entries of the directory that loses one. */
  lemma RemovedSibling(s: State, j: nat, k: nat, i: nat)
    requires CanRemove(s, j, k)
    ensures EntryAt(RemoveEntry(s, j, k), Parent(s.files[j]), i)
  {
    hide OK, Distinct, InodeAt, FileAt, Sizes;
    var s' := RemoveEntry(s, j, k);
    var q := s.files[j];
    var p := Parent(q);
    SizesOK(s);
    ListsAfterRemove(s, j, k);
    FilesLeft(s, j);
    InodeOK(s, s.names[p]);
    var l := ListOf(s, s.names[p]);
    if 2 <= i < |l| - 1 {
      var i0 := if i < k then i else i + 1;
      assert Without(l, k)[i] == l[i0] && l[i0].name != l[k].name;
      EntryOK(s, p, i0);
      assert (p + [l[i0].name])[|p|] == l[i0].name && |q| == |p| + 1;
    }
  }

  // ------------------------------------------------------------ an unused inode

  lemma PathHasLink(s: State, p: Path)
    requires OK(s) && p in s.files
    ensures p in s.names && Links(s.data, s.names[p]) > 0
  {
    assert PathAt(s, p);
    PathHasEntry(s, p);
    var l := ListOf(s, s.names[Parent(p)]);
    var k: nat :| k < |l| && l[k] == Entry(p[|p|-1], s.names[p]);
    var b: nat := s.inodes[s.names[Parent(p)]].addr;
    assert s.data[b].dirList[k].inum == s.names[p];
    SomeLink(s.data, s.names[p]);
  }

  /** A file that no entry names gives back its inode and its block. */
  ghost function Reclaim(s: State, t: nat): State
    requires t < |s.inodes| == |s.ibitmap| && |s.data| == |s.dbitmap| && s.inodes[t].addr < |s.data|
  {
    var b := s.inodes[t].addr;
    var u := s.(ibitmap := s.ibitmap[t := false], inodes := s.inodes[t := Inode(Free, -1, 1)]);
    if b < 0 then u else u.(dbitmap := s.dbitmap[b := false], data := s.data[b := s.data[b].(ftype := Free, data := "")])
  }

  ghost predicate CanReclaim(s: State, t: nat) {
    OK(s) && t < |s.inodes| && s.inodes[t].ftype == File && s.inodes[t].refCnt == 0 && s.inodes[t].addr < |s.data|
  }

  lemma LinksSame(data: seq<Block>, b: nat, d: Block, i: nat)
    requires b < |data| && d.dirList == data[b].dirList
    ensures Links(data[b := d], i) == Links(data, i)
  {
    LinksUpdate(data, b, d, i);
  }

  lemma ReclaimKeepsDisk(s: State, t: nat)
    requires CanReclaim(s, t)
    ensures Sizes(Reclaim(s, t)) && DiskOK(Reclaim(s, t))
  {
    var s' := Reclaim(s, t);
    assert InodeAt(s, t);
    forall i: nat | i < |s'.inodes| ensures InodeAt(s', i) && DirAt(s', i) && FileAt(s', i) {
      assert InodeAt(s, i) && DirAt(s, i) && FileAt(s, i);
      if s.inodes[t].addr >= 0 { LinksSame(s.data, s.inodes[t].addr, s'.data[s.inodes[t].addr], i); }
    }
    forall b: nat | b < |s'.data| ensures BlockAt(s', b) { assert BlockAt(s, b); }
  }

  /** The paths are the same, and so are the lists of all directories. */
  ghost predicate SameTree(s: State, s': State) {
    && s'.names == s.names && s'.dirs == s.dirs && s'.files == s.files && s'.home == s.home && |s'.inodes| == |s.inodes|
    && (forall j: nat :: IsDir(s, j) ==> SameList(s, s', j))
    && (forall j: nat :: j < |s.inodes| ==> (s'.inodes[j].ftype == Dir ==> s.inodes[j].ftype == Dir))
  }

  ghost predicate SameList(s: State, s': State, j: nat) {
    IsDir(s, j) && IsDir(s', j) && ListOf(s', j) == ListOf(s, j)
  }

  lemma SamePathAt(s: State, s': State, p: Path)
    requires SameTree(s, s') && PathAt(s, p) && PathAt(s, Parent(p))
    requires p in s.dirs || p in s.files
    requires p in s.files ==> s'.inodes[s.names[p]].ftype == File
    ensures PathAt(s', p)
  {
    assert p in s.dirs ==> SameList(s, s', s.names[p]);
    assert p != [] ==> SameList(s, s', s.names[Parent(p)]);
    if p in s.dirs && p != [] { assert SameList(s, s', s.names[Parent(p)]); }
  }

  lemma SameEntry(s: State, s': State, p: Path, k: nat)
    requires SameTree(s, s') && EntryAt(s, p, k) && (p in s.dirs ==> PathAt(s, p))
    ensures EntryAt(s', p, k)
  {
    if p in s.dirs { assert SameList(s, s', s.names[p]); }
  }

  lemma SameTreeNames(s: State, s': State)
    requires OK(s) && Sizes(s') && SameTree(s, s')
    requires forall p :: p in s.files && p in s.names && s.names[p] < |s.inodes| ==> s'.inodes[s.names[p]].ftype == File
    ensures NamesOK(s')
  {
    hide OK, Sizes, PathAt, EntryAt, SameList, IsDir;
    SizesOK(s);
    RootIn(s);
    forall p: Path | p in s'.dirs || p in s'.files ensures PathAt(s', p) {
      PathOK(s, p);
      PathNamed(s, p);
      PathOK(s, Parent(p));
      SamePathAt(s, s', p);
    }
    forall p: Path, k: nat ensures EntryAt(s', p, k) {
      EntryOK(s, p, k);
      if p in s.dirs { PathOK(s, p); }
      SameEntry(s, s', p, k);
    }
    forall j: nat | j < |s'.inodes| ensures HomeAt(s', j) { HomeOK(s, j); }
  }

  lemma RootIn(s: State)
    requires Sizes(s)
    ensures [] in s.dirs
  {
  }

  lemma PathNamed(s: State, p: Path)
    requires PathAt(s, p) && [] in s.dirs
    ensures p in s.names && s.names[p] < |s.inodes| && Parent(p) in s.dirs
  {
  }

  lemma ReclaimKeepsNames(s: State, t: nat)
    requires CanReclaim(s, t) && Sizes(Reclaim(s, t))
    ensures NamesOK(Reclaim(s, t))
  {
    hide OK, Distinct;
    SizesOK(s);
    var s' := Reclaim(s, t);
    hide Sizes;
    InodeOK(s, t);
    forall i: nat | IsDir(s, i) ensures SameList(s, s', i) { InodeOK(s, i); }
    forall p | p in s.files && p in s.names && s.names[p] < |s.inodes| ensures s'.inodes[s.names[p]].ftype == File {
      PathOK(s, p);
      PathHasLink(s, p);
    }
    SameTreeNames(s, s');
  }

  // ------------------------------------------------------------ a new inode

  /** Every entry of a directory names an inode in use. */
  lemma EntryInUse(s: State, b: nat, k: nat)
    requires OK(s) && b < |s.data| && k < |s.data[b].dirList|
    ensures s.data[b].dirList[k].inum < |s.inodes| && s.inodes[s.data[b].dirList[k].inum].ftype != Free
    ensures s.inodes[s.data[b].dirList[k].inum].ftype == File ==>
              exists p: Path :: p in s.files && p in s.names && s.names[p] == s.data[b].dirList[k].inum
  {
    assert BlockAt(s, b);
    var d := s.owner[b];
    assert InodeAt(s, d) && DirAt(s, d) && HomeAt(s, d);
    if k >= 2 {
      var p := s.home[d];
      assert EntryAt(s, p, k);
      assert PathAt(s, p + [ListOf(s, d)[k].name]);
    }
  }

  lemma NoLinks(s: State, i: nat)
    requires OK(s) && i < |s.inodes| && s.inodes[i].ftype == Free
    ensures Links(s.data, i) == 0
  {
    hide OK;
    SomeLink(s.data, i);
    forall b: nat, k: nat | b < |s.data| && k < |s.data[b].dirList| ensures s.data[b].dirList[k].inum != i {
      EntryInUse(s, b, k);
    }
  }

  ghost function NewFile(s: State, i: nat): State
    requires i < |s.inodes| == |s.ibitmap|
  {
    s.(ibitmap := s.ibitmap[i := true], inodes := s.inodes[i := Inode(File, -1, 0)])
  }

  lemma NewFileKeeps(s: State, i: nat)
    requires OK(s) && i < |s.inodes| && !s.ibitmap[i]
    ensures OK(NewFile(s, i))
    ensures forall p: Path :: p in s.dirs || p in s.files ==> p in s.names && s.names[p] != i
  {
    hide *;
    SizesOK(s);
    SizesFacts(s);
    NewFileDisk(s, i);
    NewFileNames(s, i);
    BothOK(NewFile(s, i));
  }

  lemma NewFileDisk(s: State, i: nat)
    requires OK(s) && i < |s.inodes| == |s.ibitmap| && !s.ibitmap[i]
    ensures Sizes(NewFile(s, i)) && DiskOK(NewFile(s, i))
  {
    hide OK;
    SizesOK(s);
    var s' := NewFile(s, i);
    InodeOK(s, i);
    NoLinks(s, i);
    forall j: nat | j < |s'.inodes| ensures InodeAt(s', j) && DirAt(s', j) && FileAt(s', j) {
      InodeOK(s, j);
    }
    forall b: nat | b < |s'.data| ensures BlockAt(s', b) { BlockOK(s, b); }
  }

  lemma NewFileNames(s: State, i: nat)
    requires OK(s) && i < |s.inodes| == |s.ibitmap| && !s.ibitmap[i] && Sizes(NewFile(s, i))
    ensures NamesOK(NewFile(s, i))
    ensures forall p: Path :: p in s.dirs || p in s.files ==> p in s.names && s.names[p] != i
  {
    hide OK, Sizes, PathAt;
    SizesOK(s);
    SizesFacts(s);
    var s' := NewFile(s, i);
    InodeOK(s, i);
    forall p: Path | p in s.dirs || p in s.files ensures PathAt(s', p) && p in s.names && s.names[p] != i { NewFilePath(s, i, p); }
    forall p: Path, k: nat ensures EntryAt(s', p, k) { EntryOK(s, p, k); }
    forall j: nat | j < |s'.inodes| ensures HomeAt(s', j) { HomeOK(s, j); }
  }

  lemma NewFilePath(s: State, i: nat, p: Path)
    requires OK(s) && i < |s.inodes| == |s.ibitmap| && !s.ibitmap[i] && (p in s.dirs || p in s.files)
    ensures PathAt(NewFile(s, i), p) && p in s.names && s.names[p] != i
  {
    hide OK, Sizes;
    IsFree(s, i);
    PathOK(s, p);
    PathOK(s, Parent(p));
  }

  // ------------------------------------------------------------ a new block

  /** An empty file gets a block. */
  ghost function WriteBlock(s: State, i: nat, b: nat, text: string): State
    requires i < |s.inodes| && b < |s.data| == |s.dbitmap| == |s.owner|
  {
    s.(inodes := s.inodes[i := s.inodes[i].(addr := b)], dbitmap := s.dbitmap[b := true],
       data := s.data[b := s.data[b].(ftype := File, data := text)], owner := s.owner[b := i])
  }

  lemma WriteKeeps(s: State, i: nat, b: nat, text: string)
    requires OK(s) && i < |s.inodes| && s.inodes[i].ftype == File && s.inodes[i].addr == -1
    requires b < |s.data| == |s.dbitmap| == |s.owner| && !s.dbitmap[b]
    ensures OK(WriteBlock(s, i, b, text))
  {
    hide *;
    WriteKeepsDisk(s, i, b, text);
    WriteKeepsNames(s, i, b, text);
    BothOK(WriteBlock(s, i, b, text));
  }

  lemma WriteKeepsDisk(s: State, i: nat, b: nat, text: string)
    requires OK(s) && i < |s.inodes| && s.inodes[i].ftype == File && s.inodes[i].addr == -1
    requires b < |s.data| == |s.dbitmap| == |s.owner| && !s.dbitmap[b]
    ensures Sizes(WriteBlock(s, i, b, text)) && DiskOK(WriteBlock(s, i, b, text))
  {
    hide OK;
    SizesOK(s);
    var s' := WriteBlock(s, i, b, text);
    BlockOK(s, b);
    InodeOK(s, i);
    forall j: nat | j < |s'.inodes| ensures InodeAt(s', j) && DirAt(s', j) && FileAt(s', j) {
      InodeOK(s, j);
      LinksSame(s.data, b, s'.data[b], j);
    }
    forall c: nat | c < |s'.data| ensures BlockAt(s', c) { BlockOK(s, c); }
  }

  lemma WriteKeepsNames(s: State, i: nat, b: nat, text: string)
    requires OK(s) && i < |s.inodes| && s.inodes[i].ftype == File && s.inodes[i].addr == -1
    requires b < |s.data| == |s.dbitmap| == |s.owner| && !s.dbitmap[b] && Sizes(WriteBlock(s, i, b, text))
    ensures NamesOK(WriteBlock(s, i, b, text))
  {
    hide OK, Distinct, Sizes;
    var s' := WriteBlock(s, i, b, text);
    BlockOK(s, b);
    forall j: nat | IsDir(s, j) ensures SameList(s, s', j) { InodeOK(s, j); }
    forall p | p in s.files && p in s.names && s.names[p] < |s.inodes| ensures s'.inodes[s.names[p]].ftype == File {
      PathOK(s, p);
    }
    SameTreeNames(s, s');
  }

  /** The file last named turns into a directory below the one that holds it. */
  ghost function MakeDir(s: State, i: nat, b: nat): State
    requires i < |s.inodes| == |s.home| && b < |s.data| == |s.dbitmap| == |s.owner|
    requires s.files != [] && Parent(s.files[|s.files|-1]) in s.names
  {
    var p := s.files[|s.files|-1];
    s.(inodes := s.inodes[i := Inode(Dir, b, 2)], dbitmap := s.dbitmap[b := true],
       data := s.data[b := s.data[b].(ftype := Dir, dirUsed := 2, dirList := [Entry(".", i), Entry("..", s.names[Parent(p)])])],
       owner := s.owner[b := i], home := s.home[i := p], files := s.files[..|s.files|-1], dirs := s.dirs + [p])
  }

  ghost predicate CanMakeDir(s: State, i: nat, b: nat) {
    && OK(s) && i < |s.inodes| && s.inodes[i].ftype == File && s.inodes[i].addr == -1 && b < |s.data| && !s.dbitmap[b]
    && s.files != [] && Parent(s.files[|s.files|-1]) in s.names && s.files[|s.files|-1] in s.names && s.names[s.files[|s.files|-1]] == i
    && forall p: Path :: p in s.dirs || p in s.files[..|s.files|-1] ==> p in s.names && s.names[p] != i
  }

  lemma MadeSizes(s: State, i: nat, b: nat)
    requires CanMakeDir(s, i, b)
    ensures Sizes(MakeDir(s, i, b)) && |MakeDir(s, i, b).inodes| == |s.inodes| && |MakeDir(s, i, b).data| == |s.data|
  {
    hide OK;
    SizesOK(s);
  }

  lemma MadeInode(s: State, i: nat, b: nat, j: nat)
    requires CanMakeDir(s, i, b) && j < |s.inodes| && Sizes(MakeDir(s, i, b))
    ensures InodeAt(MakeDir(s, i, b), j)
  {
    hide OK, DirAt, FileAt, Distinct;
    InodeOK(s, j);
    BlockOK(s, b);
  }

  lemma MadeFile(s: State, i: nat, b: nat, j: nat)
    requires CanMakeDir(s, i, b) && j < |s.inodes|
    ensures FileAt(MakeDir(s, i, b), j)
  {
    hide OK, DirAt, InodeAt, Distinct;
    MadeLists(s, i, b);
    InodeOK(s, j);
    BlockOK(s, b);
    var p := s.files[|s.files|-1];
    var d := MakeDir(s, i, b).data[b];
    LinksUpdate(s.data, b, d, j);
    if s.inodes[j].ftype == File && j != i {
      TwoNaming(Entry(".", i), Entry("..", s.names[Parent(p)]), j);
    }
  }

  lemma TwoNaming(e: Entry, f: Entry, j: nat)
    requires e.inum != j && f.inum != j
    ensures Naming([e, f], j) == 0
  {
    NamingMore([e], f, j);
    NamingMore([], e, j);
    assert [e] + [f] == [e, f] && [] + [e] == [e];
  }

  lemma MadeBlock(s: State, i: nat, b: nat, c: nat)
    requires CanMakeDir(s, i, b) && c < |s.data| && Sizes(MakeDir(s, i, b))
    ensures BlockAt(MakeDir(s, i, b), c)
  {
    hide OK, DirAt, FileAt, Distinct;
    assert MAX_USED >= 2;
    SizesOK(s);
    BlockOK(s, c);
    if c != b && s.data[c].ftype != Free {
      var o := s.owner[c];
      assert o != i;
    }
  }

  lemma MadeDisk(s: State, i: nat, b: nat)
    requires CanMakeDir(s, i, b)
    ensures Sizes(MakeDir(s, i, b)) && DiskOK(MakeDir(s, i, b))
  {
    hide OK, InodeAt, DirAt, FileAt, BlockAt, Sizes;
    SizesOK(s);
    SizesFacts(s);
    MadeSizes(s, i, b);
    SizesFacts(MakeDir(s, i, b));
    var s' := MakeDir(s, i, b);
    forall j: nat | j < |s'.inodes| ensures InodeAt(s', j) { MadeInode(s, i, b, j); }
    forall j: nat | j < |s'.inodes| ensures DirAt(s', j) { MadeDirAt(s, i, b, j); }
    forall j: nat | j < |s'.inodes| ensures FileAt(s', j) { MadeFile(s, i, b, j); }
    forall c: nat | c < |s'.data| ensures BlockAt(s', c) { MadeBlock(s, i, b, c); }
  }

  lemma MadeLists(s: State, i: nat, b: nat)
    requires CanMakeDir(s, i, b)
    ensures var s' := MakeDir(s, i, b); forall j: nat | IsDir(s, j) :: j != i && IsDir(s', j) && ListOf(s', j) == ListOf(s, j)
    ensures var s' := MakeDir(s, i, b); forall j: nat | IsDir(s', j) :: IsDir(s, j) || j == i
    ensures var s' := MakeDir(s, i, b); IsDir(s', i) && ListOf(s', i) == [Entry(".", i), Entry("..", s.names[Parent(s.files[|s.files|-1])])]
    ensures var p := s.files[|s.files|-1]; Parent(p) in s.dirs && p != [] && IsDir(s, s.names[Parent(p)])
  {
    hide OK;
    SizesOK(s);
    var s' := MakeDir(s, i, b);
    var p := s.files[|s.files|-1];
    PathOK(s, p); BlockOK(s, b);
    forall j: nat | IsDir(s, j) ensures j != i && IsDir(s', j) && ListOf(s', j) == ListOf(s, j) { InodeOK(s, j); }
  }

  lemma MadeDirAt(s: State, i: nat, b: nat, j: nat)
    requires CanMakeDir(s, i, b) && j < |s.inodes|
    ensures DirAt(MakeDir(s, i, b), j)
  {
    hide OK;
    SizesOK(s);
    MadeLists(s, i, b);
    InodeOK(s, j);
  }

  lemma MadeNames(s: State, i: nat, b: nat)
    requires CanMakeDir(s, i, b) && Sizes(MakeDir(s, i, b))
    ensures NamesOK(MakeDir(s, i, b))
  {
    hide OK;
    SizesOK(s);
    var s' := MakeDir(s, i, b);
    forall q: Path | q in s'.dirs || q in s'.files ensures PathAt(s', q) { MadePath(s, i, b, q); }
    forall q: Path, k: nat ensures EntryAt(s', q, k) { MadeEntry(s, i, b, q, k); }
    forall j: nat | j < |s'.inodes| ensures HomeAt(s', j) { HomeOK(s, j); }
  }

  lemma LastFile(files: seq<Path>)
    requires Distinct(files) && files != []
    ensures forall q: Path :: q in files[..|files|-1] <==> q in files && q != files[|files|-1]
  {
    var n := |files| - 1;
    forall q: Path | q in files && q != files[n] ensures q in files[..n] {
      var i: nat :| i < |files| && files[i] == q;
      assert files[..n][i] == q;
    }
  }

  lemma MadePath(s: State, i: nat, b: nat, q: Path)
    requires CanMakeDir(s, i, b) && (q in s.dirs || q in s.files)
    ensures PathAt(MakeDir(s, i, b), q)
  {
    hide OK;
    SizesOK(s);
    var s' := MakeDir(s, i, b);
    var p := s.files[|s.files|-1];
    MadeLists(s, i, b);
    LastFile(s.files);
    PathOK(s, q);
    PathOK(s, Parent(q));
  }

  lemma MadeEntry(s: State, i: nat, b: nat, q: Path, k: nat)
    requires CanMakeDir(s, i, b)
    ensures EntryAt(MakeDir(s, i, b), q, k)
  {
    hide OK;
    SizesOK(s);
    MadeLists(s, i, b);
    LastFile(s.files);
    EntryOK(s, q, k);
  }

  // ------------------------------------------------------------ what the invariant says

  /** The inode that a name stands for in a directory, found by looking at its entries in order. */
  ghost function LookUp(l: seq<Entry>, n: string): int {
    if l == [] then -1 else if l[0].name == n then l[0].inum else LookUp(l[1..], n)
  }

  /** The inode that a path leads to from the root, or -1. */
  ghost function Walk(s: State, p: Path): int {
    if p == [] then 0
    else
      var i := Walk(s, Parent(p));
      if i >= 0 && IsDir(s, i) then LookUp(ListOf(s, i), p[|p|-1]) else -1
  }

  /** No component of the path is the name of the directory itself or of the one above. */
  ghost predicate Plain(p: Path) {
    forall k :: 0 <= k < |p| ==> p[k] != "." && p[k] != ".."
  }

  lemma {:induction false} LookUpFinds(l: seq<Entry>, n: string)
    requires Unique(l)
    ensures if NoName(l, n) then LookUp(l, n) == -1 else LookUp(l, n) >= 0 && Entry(n, LookUp(l, n)) in l
    ensures forall k: nat :: k < |l| && l[k].name == n ==> LookUp(l, n) == l[k].inum
  {
    if l != [] {
      forall a, b | 0 <= a < b < |l[1..]| ensures l[1..][a].name != l[1..][b].name { assert l[a+1].name != l[b+1].name; }
      LookUpFinds(l[1..], n);
      assert forall k: nat :: 0 < k < |l| ==> l[k] == l[1..][k-1];
      if l[0].name != n && !NoName(l[1..], n) {
        var k: nat :| k < |l[1..]| && l[1..][k].name == n;
        assert l[k+1].name == n;
      }
    }
  }

  lemma {:induction false} NamedIsPlain(s: State, p: Path)
    requires OK(s) && (p in s.dirs || p in s.files)
    ensures Plain(p)
    decreases |p|
  {
    hide OK;
    SizesOK(s);
    if p != [] {
      PathOK(s, p); PathOK(s, Parent(p));
      NamedIsPlain(s, Parent(p));
      NotDotted(s, p);
      assert p == Parent(p) + [p[|p|-1]];
    }
  }

  lemma NotDotted(s: State, p: Path)
    requires OK(s) && (p in s.dirs || p in s.files) && p != []
    ensures p[|p|-1] != "." && p[|p|-1] != ".."
  {
    hide OK;
    SizesOK(s);
    PathOK(s, p); PathOK(s, Parent(p)); PathOK(s, Parent(Parent(p)));
    var l := ListOf(s, s.names[Parent(p)]);
    InodeOK(s, s.names[Parent(p)]);
    var k: nat :| k < |l| && l[k] == Entry(p[|p|-1], s.names[p]);
    assert |Parent(p)| < |p|;
  }

  /** Walking from the root agrees with the table of names: a path leads somewhere exactly when it is in a list. */
  lemma {:induction false} WalkAgrees(s: State, p: Path)
    requires OK(s) && Plain(p)
    ensures p in s.dirs || p in s.files <==> Walk(s, p) >= 0
    ensures p in s.dirs || p in s.files ==> p in s.names && Walk(s, p) == s.names[p]
    decreases |p|
  {
    if p != [] {
      assert Plain(Parent(p));
      WalkAgrees(s, Parent(p));
      if p in s.dirs || p in s.files {
        PathHasEntry(s, p);
        assert PathAt(s, p);
        var l := ListOf(s, s.names[Parent(p)]);
        assert DirAt(s, s.names[Parent(p)]);
        LookUpFinds(l, p[|p|-1]);
        var k: nat :| k < |l| && l[k] == Entry(p[|p|-1], s.names[p]);
      } else {
        WalkFails(s, p);
      }
    }
  }

  lemma WalkFails(s: State, p: Path)
    requires OK(s) && Plain(p) && p != [] && p !in s.dirs && p !in s.files
    requires Parent(p) in s.dirs || Parent(p) in s.files <==> Walk(s, Parent(p)) >= 0
    requires Parent(p) in s.dirs || Parent(p) in s.files ==> Parent(p) in s.names && Walk(s, Parent(p)) == s.names[Parent(p)]
    ensures Walk(s, p) == -1
  {
    hide OK;
    SizesOK(s);
    var q := Parent(p);
    if q in s.dirs || q in s.files {
      PathOK(s, q);
      var i := s.names[q];
      if IsDir(s, i) {
        var l := ListOf(s, i);
        InodeOK(s, i);
        assert p == q + [p[|p|-1]];
        forall k: nat | k < |l| ensures l[k].name != p[|p|-1] {
          EntryOK(s, q, k);
        }
        LookUpFinds(l, p[|p|-1]);
      }
    }
  }

  /** Every inode in use can be reached from the root. */
  lemma Reachable(s: State, i: nat)
    requires OK(s) && NoOrphan(s) && i < |s.inodes| && s.inodes[i].ftype != Free
    ensures exists p: Path :: (p in s.dirs || p in s.files) && Plain(p) && Walk(s, p) == i
  {
    if s.inodes[i].ftype == Dir {
      assert HomeAt(s, i);
      NamedIsPlain(s, s.home[i]);
      WalkAgrees(s, s.home[i]);
    } else {
      assert FileAt(s, i);
      SomeLink(s.data, i);
      var b: nat, k: nat :| b < |s.data| && k < |s.data[b].dirList| && s.data[b].dirList[k].inum == i;
      EntryInUse(s, b, k);
      var p: Path :| p in s.files && p in s.names && s.names[p] == i;
      NamedIsPlain(s, p);
      WalkAgrees(s, p);
    }
  }

  /** Each block in use belongs to one inode, the only one that has its address. */
  lemma OneOwner(s: State, b: nat)
    requires OK(s) && b < |s.data|
    ensures s.dbitmap[b] <==> exists i: nat :: i < |s.inodes| && s.inodes[i].addr == b && s.ibitmap[i]
    ensures forall i: nat, j: nat :: i < |s.inodes| && j < |s.inodes| && s.inodes[i].addr == b && s.inodes[j].addr == b ==> i == j
  {
    assert BlockAt(s, b);
    forall i: nat | i < |s.inodes| && s.inodes[i].addr == b ensures i == s.owner[b] && s.dbitmap[b] && s.ibitmap[i] {
      assert InodeAt(s, i);
    }
    if s.dbitmap[b] {
      var i := s.owner[b];
      assert s.inodes[i].addr == b && s.ibitmap[i];
    }
  }

  // ------------------------------------------------------------ the operations

  /** The lowest index that is not set, or -1. */
  ghost predicate FirstClear(bmap: seq<bool>, r: int) {
    -1 <= r < |bmap| && (r >= 0 ==> !bmap[r]) && forall k :: 0 <= k < (if r < 0 then |bmap| else r) ==> bmap[k]
  }

  /** The first entry with a name. */
  ghost predicate FirstNamed(l: seq<Entry>, n: string, k: nat) {
    k < |l| && l[k].name == n && forall i: nat :: i < k ==> l[i].name != n
  }

  /** The paths in the lists and the table of names are as before; all else is as after. */
  ghost function SameNames(s: State, s': State): State {
    s'.(files := s.files, dirs := s.dirs, names := s.names)
  }

  /** The directory is full or has the name. */
  ghost predicate NoRoom(s: State, pp: Path, n: string)
    requires DirPath(s, pp)
  {
    |ListOf(s, s.names[pp])| >= MAX_USED || !NoName(ListOf(s, s.names[pp]), n)
  }

  /** The file has a block already, or no block is free. */
  ghost predicate NoSpace(s: State, p: Path) {
    (p in s.names && s.names[p] < |s.inodes| && s.inodes[s.names[p]].addr != -1) || FirstClear(s.dbitmap, -1)
  }

  /** There is no room for the name, no free inode, or no free block for a directory. */
  ghost predicate Refused(s: State, pp: Path, n: string, isDir: bool)
    requires DirPath(s, pp)
  {
    NoRoom(s, pp, n) || FirstClear(s.ibitmap, -1) || (isDir && FirstClear(s.dbitmap, -1))
  }

  datatype Op =
    | Append(file: nat, text: string)
    | Delete(file: nat)
    | Link(parent: nat, name: string, target: nat)
    | Create(parent: nat, name: string, isDir: bool)

  class FileSystem {
    var ibitmap: seq<bool>
    var inodes: seq<Inode>
    var dbitmap: seq<bool>
    var data: seq<Block>
    var files: seq<Path>
    var dirs: seq<Path>
    var nameToInum: map<Path, nat>
    /** The inode of each block in use, and the path of each directory. */
    ghost var owner: seq<nat>
    ghost var home: seq<Path>

    ghost function Now(): State
      reads this
    {
      State(ibitmap, inodes, dbitmap, data, files, dirs, nameToInum, owner, home)
    }

    ghost predicate Valid()
      reads this
    {
      OK(Now()) && NoOrphan(Now())
    }

    constructor (numInodes: nat, numData: nat)
      requires numInodes > 0 && numData > 0
      ensures Valid() && |inodes| == numInodes && |data| == numData && files == [] && dirs == [[]]
      ensures forall i: nat :: i < numInodes ==> (ibitmap[i] <==> i == 0)
      ensures forall b: nat :: b < numData ==> (dbitmap[b] <==> b == 0)
    {
      var root := Block(Dir, 2, [Entry(".", 0), Entry("..", 0)], "");
      var ib := seq(numInodes, i => false);
      var db := seq(numData, i => false);
      var ns := seq(numInodes, i => Inode(Free, -1, 1));
      var bs := seq(numData, i => Block(Free, 0, [], ""));
      ibitmap := ib[0 := true];
      inodes := ns[0 := Inode(Dir, 0, 2)];
      dbitmap := db[0 := true];
      data := bs[0 := root];
      files, dirs, nameToInum := [], [[]], map[[] := 0];
      owner := seq(numData, i => 0);
      home := seq(numInodes, i => []);
      new;
      FirstState(Now());
    }

    // -------------------------------------------------------- bitmaps

    static method Alloc(bmap: seq<bool>) returns (num: int)
      ensures FirstClear(bmap, num)
    {
      num := 0;
      while num < |bmap|
        invariant 0 <= num <= |bmap|
        invariant forall k :: 0 <= k < num ==> bmap[k]
      {
        if !bmap[num] {
          return;
        }
        num := num + 1;
      }
      num := -1;
    }

    method InodeAlloc() returns (num: int)
      modifies this`ibitmap
      ensures FirstClear(old(ibitmap), num)
      ensures ibitmap == if num >= 0 then old(ibitmap)[num := true] else old(ibitmap)
    {
      num := Alloc(ibitmap);
      if num >= 0 {
        ibitmap := ibitmap[num := true];
      }
    }

    method DataAlloc() returns (num: int)
      modifies this`dbitmap
      ensures FirstClear(old(dbitmap), num)
      ensures dbitmap == if num >= 0 then old(dbitmap)[num := true] else old(dbitmap)
    {
      num := Alloc(dbitmap);
      if num >= 0 {
        dbitmap := dbitmap[num := true];
      }
    }

    method InodeFree(inum: nat)
      requires inum < |inodes| == |ibitmap| && ibitmap[inum]
      modifies this`ibitmap, this`inodes
      ensures ibitmap == old(ibitmap)[inum := false]
      ensures inodes == old(inodes)[inum := Inode(Free, -1, old(inodes)[inum].refCnt)]
    {
      ibitmap := ibitmap[inum := false];
      inodes := inodes[inum := inodes[inum].(ftype := Free)];
      inodes := inodes[inum := inodes[inum].(addr := -1)];
    }

    method DataFree(bnum: nat)
      requires bnum < |data| == |dbitmap| && dbitmap[bnum]
      requires data[bnum].ftype != Free && (data[bnum].ftype == Dir ==> data[bnum].dirUsed == 2)
      modifies this`dbitmap, this`data
      ensures dbitmap == old(dbitmap)[bnum := false]
      ensures var b := old(data)[bnum];
        data == old(data)[bnum := Block(Free, if b.ftype == Dir then 0 else b.dirUsed, b.dirList, "")]
    {
      dbitmap := dbitmap[bnum := false];
      if data[bnum].ftype == Dir {
        data := data[bnum := data[bnum].(dirUsed := 0)];
      }
      data := data[bnum := data[bnum].(data := "")];
      data := data[bnum := data[bnum].(ftype := Free)];
    }

    // -------------------------------------------------------- directory blocks

    method SetType(b: nat, ftype: Kind)
      requires b < |data| && data[b].ftype == Free
      modifies this`data
      ensures data == old(data)[b := old(data)[b].(ftype := ftype)]
    {
      data := data[b := data[b].(ftype := ftype)];
    }

    method AddDirEntry(b: nat, name: string, inum: nat)
      requires b < |data| && data[b].ftype == Dir && data[b].dirUsed < MAX_USED
      modifies this`data
      ensures var d := old(data)[b];
        data == old(data)[b := d.(dirUsed := d.dirUsed + 1, dirList := d.dirList + [Entry(name, inum)])]
    {
      data := data[b := data[b].(dirList := data[b].dirList + [Entry(name, inum)])];
      data := data[b := data[b].(dirUsed := data[b].dirUsed + 1)];
      assert data[b].dirUsed <= MAX_USED;
    }

    method DelDirEntry(b: nat, name: Path) returns (ghost k: nat)
      requires b < |data| && data[b].ftype == Dir && name != [] && !NoName(data[b].dirList, name[|name|-1])
      modifies this`data
      ensures FirstNamed(old(data)[b].dirList, name[|name|-1], k)
      ensures var d := old(data)[b]; data == old(data)[b := d.(dirUsed := d.dirUsed - 1, dirList := Without(d.dirList, k))]
    {
      var dname := name[|name|-1];
      var i: nat := 0;
      while i < |data[b].dirList|
        invariant i <= |data[b].dirList| && data == old(data)
        invariant forall k: nat :: k < i ==> data[b].dirList[k].name != dname
      {
        if data[b].dirList[i].name == dname {
          data := data[b := data[b].(dirList := data[b].dirList[..i] + data[b].dirList[i+1..])];
          data := data[b := data[b].(dirUsed := data[b].dirUsed - 1)];
          return i;
        }
        i := i + 1;
      }
      assert false;
    }

    method DirEntryExists(b: nat, name: string) returns (found: bool)
      requires b < |data| && data[b].ftype == Dir
      ensures found <==> !NoName(data[b].dirList, name)
    {
      var i: nat := 0;
      while i < |data[b].dirList|
        invariant i <= |data[b].dirList|
        invariant forall k: nat :: k < i ==> data[b].dirList[k].name != name
      {
        if name == data[b].dirList[i].name {
          return true;
        }
        i := i + 1;
      }
      return false;
    }

    /** The two checks with which `createLink` and `createFile` begin. */
    method HasRoom(pblock: nat, newfile: string) returns (room: bool)
      requires pblock < |data| && data[pblock].ftype == Dir
      ensures room <==> data[pblock].dirUsed < MAX_USED && NoName(data[pblock].dirList, newfile)
    {
      if MAX_USED - data[pblock].dirUsed <= 0 {
        return false;
      }
      var found := DirEntryExists(pblock, newfile);
      return !found;
    }

    // -------------------------------------------------------- write

    /** A file that has no block yet gets the first free one; it fails when the file has one, or none is free. */
    method WriteFile(tfile: Path, text: string) returns (rc: int)
      requires Valid() && tfile in files
      modifies this`inodes, this`dbitmap, this`data, this`owner
      ensures Valid() && (rc == 0 || rc == -1)
      ensures rc == -1 ==> Now() == old(Now())
      ensures rc == -1 <==> NoSpace(old(Now()), tfile)
      ensures rc == 0 ==> Appended(old(Now()), Now(), tfile, text)
    {
      hide OK;
      FileFacts(Now(), tfile);
      var inum := nameToInum[tfile];
      if inodes[inum].addr != -1 {
        return -1;
      }
      ghost var s := Now();
      var fblock := DataAlloc();
      if fblock == -1 {
        return -1;
      }
      ClearBlock(s, fblock);
      WriteKeeps(s, inum, fblock, text);
      SetType(fblock, File);
      assert data[fblock].ftype == File;
      data := data[fblock := data[fblock].(data := text)];
      inodes := inodes[inum := inodes[inum].(addr := fblock)];
      owner := owner[fblock := inum];
      assert Now() == WriteBlock(s, inum, fblock, text);
      rc := 0;
    }

    // -------------------------------------------------------- link

    /** A new name for a file; it fails when the directory is full or has the name. */
    method CreateLink(target: Path, newfile: string, parent: Path) returns (tinum: int)
      requires OK(Now()) && target in files && parent in dirs
      modifies this`inodes, this`data
      ensures DirPath(old(Now()), parent) && target in nameToInum && nameToInum[target] < |old(inodes)|
      ensures tinum == if NoRoom(old(Now()), parent, newfile) then -1 else nameToInum[target]
      ensures tinum < 0 ==> Now() == old(Now())
      ensures tinum >= 0 ==> CanAdd(old(Now()), parent, newfile, tinum)
      ensures tinum >= 0 ==> Now() == SameNames(old(Now()), AddEntry(old(Now()), parent, newfile, tinum))
    {
      hide OK;
      FileFacts(Now(), target);
      DirFacts(Now(), parent);
      ghost var s := Now();
      var parentInum := nameToInum[parent];
      var pblock := inodes[parentInum].addr;
      var room := HasRoom(pblock, newfile);
      if !room {
        return -1;
      }
      var t := nameToInum[target];
      inodes := inodes[t := inodes[t].(refCnt := inodes[t].refCnt + 1)];
      inodes := inodes[parentInum := inodes[parentInum].(refCnt := inodes[parentInum].refCnt + 1)];
      AddDirEntry(pblock, newfile, t);
      assert Now() == SameNames(s, AddEntry(s, parent, newfile, t));
      return t;
    }

    method DoLink(parent: nat, nfile: string, target: nat) returns (rc: int)
      requires Valid()
      modifies this
      ensures Valid() && (rc == 0 || rc == -1)
      ensures rc == -1 ==> Now() == old(Now())
      ensures old(dirs) != [] && DirPath(old(Now()), old(dirs)[parent % |old(dirs)|])
      ensures rc == -1 <==> old(files) == [] || NoRoom(old(Now()), old(dirs)[parent % |old(dirs)|], nfile)
      ensures rc == 0 ==> old(files) != []
      ensures rc == 0 ==>
        Linked(old(Now()), Now(), old(dirs)[parent % |old(dirs)|], nfile, old(files)[target % |old(files)|])
    {
      hide OK, NoOrphan, NoRoom;
      HasRoot(Now());
      DirFacts(Now(), dirs[parent % |dirs|]);
      if |files| == 0 {
        return -1;
      }
      ghost var s := Now();
      var p := dirs[parent % |dirs|];
      var t := files[target % |files|];
      var fullName := p + [nfile];
      var inum := CreateLink(t, nfile, p);
      if inum >= 0 {
        AddKeeps(s, p, nfile, inum);
        files := files + [fullName];
        nameToInum := nameToInum[fullName := inum];
        assert Now() == AddEntry(s, p, nfile, inum);
        return 0;
      }
      return -1;
    }

    // -------------------------------------------------------- create

    method FillDir(fblock: nat, inum: nat, parentInum: nat)
      requires fblock < |data| && data[fblock].ftype == Free && data[fblock].dirUsed == 0 && data[fblock].dirList == []
      modifies this`data
      ensures var l := [Entry(".", inum), Entry("..", parentInum)];
        data == old(data)[fblock := old(data)[fblock].(ftype := Dir, dirUsed := 2, dirList := l)]
    {
      SetType(fblock, Dir);
      AddDirEntry(fblock, ".", inum);
      assert data[fblock].dirList == [Entry(".", inum)];
      AddDirEntry(fblock, "..", parentInum);
      assert data[fblock].dirList == [Entry(".", inum), Entry("..", parentInum)];
    }

    /** The block of a new directory, or -1 when none is free, and then the inode is given back. */
    method DirBlock(inum: nat, parentInum: nat, ghost s: State) returns (fblock: int)
      requires OK(s) && dbitmap == s.dbitmap && data == s.data && inum < |inodes| == |ibitmap| && ibitmap[inum]
      modifies this`ibitmap, this`inodes, this`dbitmap, this`data
      ensures FirstClear(s.dbitmap, fblock) && |s.data| == |s.dbitmap|
      ensures fblock == -1 ==> dbitmap == s.dbitmap && data == s.data && ibitmap == old(ibitmap)[inum := false]
      ensures fblock == -1 ==> inodes == old(inodes)[inum := Inode(Free, -1, old(inodes)[inum].refCnt)]
      ensures fblock >= 0 ==> ibitmap == old(ibitmap) && inodes == old(inodes) && dbitmap == s.dbitmap[fblock := true]
      ensures fblock >= 0 ==>
        data == s.data[fblock := s.data[fblock].(ftype := Dir, dirUsed := 2, dirList := [Entry(".", inum), Entry("..", parentInum)])]
    {
      hide OK;
      SizesOK(s);
      fblock := DataAlloc();
      if fblock == -1 {
        InodeFree(inum);
      } else {
        ClearBlock(s, fblock);
        FillDir(fblock, inum, parentInum);
      }
    }

    /**
     * A new file or directory in the lowest free inode; it fails when the directory above is full or has the name,
     * when no inode is free, or when no block is free for a new directory. A failure leaves nothing behind.
     */
    method CreateFile(parent: Path, newfile: string, isDir: bool) returns (inum: int)
      requires OK(Now()) && parent in dirs
      modifies this`ibitmap, this`inodes, this`dbitmap, this`data, this`owner, this`home
      ensures DirPath(old(Now()), parent)
      ensures inum == -1 ==> Now() == old(Now())
      ensures inum == -1 <==> Refused(old(Now()), parent, newfile, isDir)
      ensures inum >= -1
      ensures inum >= 0 ==> FirstClear(old(ibitmap), inum) && Created(old(Now()), Now(), parent, newfile, inum, isDir)
    {
      hide OK, Created, NewFile, AddEntry, CanAdd, NoName, NoOrphan, MakeDir, CanMakeDir, Distinct, UpAt, PathAt;
      DirFacts(Now(), parent);
      ghost var s := Now();
      var parentInum := nameToInum[parent];
      var pblock := inodes[parentInum].addr;
      var room := HasRoom(pblock, newfile);
      if !room {
        return -1;
      }
      inum := InodeAlloc();
      if inum == -1 {
        return -1;
      }
      NewFacts(s, parent, newfile, inum);
      var fblock := -1;
      var refCnt := 1;
      if isDir {
        refCnt := 2;
        fblock := DirBlock(inum, parentInum, s);
        if fblock == -1 {
          assert inodes == s.inodes && ibitmap == s.ibitmap;
          return -1;
        }
        ClearBlock(s, fblock);
        owner := owner[fblock := inum];
        home := home[inum := parent + [newfile]];
      }
      inodes := inodes[inum := Inode(if isDir then Dir else File, fblock, refCnt)];
      inodes := inodes[parentInum := inodes[parentInum].(refCnt := inodes[parentInum].refCnt + 1)];
      AddDirEntry(pblock, newfile, inum);
      if isDir {
        NewDirSame(s, Now(), parent, newfile, inum, fblock);
      } else {
        NewFileSame(s, Now(), parent, newfile, inum);
      }
    }

    method DoCreate(parent: nat, nfile: string, isDir: bool) returns (rc: int)
      requires Valid()
      modifies this
      ensures Valid() && (rc == 0 || rc == -1)
      ensures rc == -1 ==> Now() == old(Now())
      ensures old(dirs) != [] && DirPath(old(Now()), old(dirs)[parent % |old(dirs)|])
      ensures rc == -1 <==> Refused(old(Now()), old(dirs)[parent % |old(dirs)|], nfile, isDir)
      ensures rc == 0 ==>
        exists i: nat :: FirstClear(old(ibitmap), i) && Made(old(Now()), Now(), old(dirs)[parent % |old(dirs)|], nfile, i, isDir)
    {
      hide OK, NoOrphan, FirstClear, Refused;
      HasRoot(Now());
      ghost var s := Now();
      var p := dirs[parent % |dirs|];
      var fullName := p + [nfile];
      var inum := CreateFile(p, nfile, isDir);
      if inum >= 0 {
        if isDir {
          dirs := dirs + [fullName];
        } else {
          files := files + [fullName];
        }
        nameToInum := nameToInum[fullName := inum];
        CreatedKeeps(s, Now(), p, nfile, inum, isDir);
        return 0;
      }
      return -1;
    }

    // -------------------------------------------------------- delete

    method DropFile(tfile: Path) returns (ghost j: nat)
      requires tfile in files
      modifies this`files
      ensures j < |old(files)| && old(files)[j] == tfile && files == Without(old(files), j)
    {
      var i: nat := 0;
      while files[i] != tfile
        invariant i < |files| && files == old(files) && tfile !in files[..i]
        decreases |files| - i
      {
        i := i + 1;
        assert files == files[..i] + files[i..];
      }
      j := i;
      files := files[..i] + files[i+1..];
    }

    /** The inode of a file goes when its last name does. The path loses its entry, which is there. */
    method DeleteFile(tfile: Path)
      requires Valid() && tfile in files
      modifies this`ibitmap, this`inodes, this`dbitmap, this`data, this`files
      ensures Valid() && Deleted(old(Now()), Now(), tfile)
    {
      hide OK, NoOrphan;
      ghost var s := Now();
      FileFacts(s, tfile);
      DeleteFacts(s, tfile);
      var inum := nameToInum[tfile];
      if inodes[inum].refCnt == 1 {
        var dblock := inodes[inum].addr;
        if dblock != -1 {
          DataFree(dblock);
        }
        InodeFree(inum);
      } else {
        inodes := inodes[inum := inodes[inum].(refCnt := inodes[inum].refCnt - 1)];
      }
      var pinum := nameToInum[Parent(tfile)];
      var pblock := inodes[pinum].addr;
      inodes := inodes[pinum := inodes[pinum].(refCnt := inodes[pinum].refCnt - 1)];
      ghost var k := DelDirEntry(pblock, tfile);
      ghost var j := DropFile(tfile);
      FirstIsIt(s, j, k);
      if s.inodes[inum].refCnt == 1 {
        assert Now() == Reclaim(RemoveEntry(s, j, k), inum);
      } else {
        assert Now() == RemoveEntry(s, j, k);
      }
      DeletedKeeps(s, Now(), j, k);
    }

    method DoDelete(file: nat) returns (rc: int)
      requires Valid()
      modifies this
      ensures Valid() && rc == if old(files) == [] then -1 else 0
      ensures rc == -1 ==> Now() == old(Now())
      ensures rc == 0 ==> Deleted(old(Now()), Now(), old(files)[file % |old(files)|])
    {
      hide *;
      if |files| == 0 {
        return -1;
      }
      DeleteFile(files[file % |files|]);
      return 0;
    }

    method DoAppend(file: nat, text: string) returns (rc: int)
      requires Valid()
      modifies this
      ensures Valid() && (rc == 0 || rc == -1)
      ensures rc == -1 ==> Now() == old(Now())
      ensures rc == -1 <==> old(files) == [] || NoSpace(old(Now()), old(files)[file % |old(files)|])
      ensures rc == 0 ==> old(files) != [] && Appended(old(Now()), Now(), old(files)[file % |old(files)|], text)
    {
      if |files| == 0 {
        return -1;
      }
      rc := WriteFile(files[file % |files|], text);
    }

    /** After any operations, whether they succeed or fail, the file system is consistent, and no assertion has failed. */
    method Run(ops: seq<Op>)
      requires Valid()
      modifies this
      ensures Valid()
    {
      hide *;
      for n := 0 to |ops|
        invariant Valid()
      {
        var rc;
        match ops[n]
        case Append(file, text) => rc := DoAppend(file, text);
        case Delete(file) => rc := DoDelete(file);
        case Link(parent, name, target) => rc := DoLink(parent, name, target);
        case Create(parent, name, isDir) => rc := DoCreate(parent, name, isDir);
      }
    }
  }

  lemma FirstState(s: State)
    requires |s.inodes| == |s.ibitmap| == |s.home| > 0 && |s.data| == |s.dbitmap| == |s.owner| > 0
    requires forall i: nat :: i < |s.inodes| ==>
               (s.ibitmap[i] <==> i == 0) && s.inodes[i] == if i == 0 then Inode(Dir, 0, 2) else Inode(Free, -1, 1)
    requires forall b: nat :: b < |s.data| ==> (s.dbitmap[b] <==> b == 0) && s.owner[b] == 0
    requires forall b: nat :: b < |s.data| ==>
               s.data[b] == if b == 0 then Block(Dir, 2, [Entry(".", 0), Entry("..", 0)], "") else Block(Free, 0, [], "")
    requires s.files == [] && s.dirs == [[]] && s.names == map[[] := 0] && s.home[0] == []
    ensures OK(s) && NoOrphan(s)
  {
  }

  lemma FileFacts(s: State, p: Path)
    requires OK(s) && p in s.files
    ensures Sizes(s) && p in s.names && s.names[p] < |s.inodes| && s.inodes[s.names[p]].ftype == File
    ensures -1 <= s.inodes[s.names[p]].addr < |s.data|
  {
    assert PathAt(s, p);
    assert InodeAt(s, s.names[p]);
  }

  lemma SizesFacts(s: State)
    requires Sizes(s)
    ensures |s.inodes| == |s.ibitmap| == |s.home| > 0 && |s.data| == |s.dbitmap| == |s.owner|
  {
  }

  lemma ClearBlock(s: State, b: nat)
    requires OK(s) && b < |s.dbitmap| && !s.dbitmap[b]
    ensures |s.data| == |s.dbitmap| && s.data[b].ftype == Free && s.data[b].dirList == [] && s.data[b].dirUsed == 0
  {
    assert BlockAt(s, b);
  }

  lemma DirFacts(s: State, p: Path)
    requires OK(s) && p in s.dirs
    ensures DirPath(s, p) && Sizes(s)
    ensures var d := s.data[s.inodes[s.names[p]].addr]; d.ftype == Dir && d.dirUsed == |d.dirList| <= MAX_USED
  {
    assert PathAt(s, p);
    assert InodeAt(s, s.names[p]);
    assert BlockAt(s, s.inodes[s.names[p]].addr);
  }

  lemma HasRoot(s: State)
    requires OK(s)
    ensures s.dirs != []
  {
  }

  lemma AddKeeps(s: State, pp: Path, n: string, t: nat)
    requires CanAdd(s, pp, n, t)
    ensures OK(AddEntry(s, pp, n, t))
    ensures NoOrphan(s) ==> NoOrphan(AddEntry(s, pp, n, t))
    ensures (forall i: nat :: i < |s.inodes| && i != t && s.inodes[i].ftype == File ==> s.inodes[i].refCnt >= 1) ==> NoOrphan(AddEntry(s, pp, n, t))
  {
    AddKeepsDisk(s, pp, n, t);
    AddKeepsNames(s, pp, n, t);
    assert FileAt(s, t);
  }

  /** A new path for the file that `target` leads to. */
  ghost predicate Linked(s: State, s': State, parent: Path, n: string, target: Path) {
    && target in s.names && CanAdd(s, parent, n, s.names[target])
    && s' == AddEntry(s, parent, n, s.names[target])
  }

  ghost predicate CanCreate(s: State, pp: Path, n: string, i: nat) {
    && OK(s) && DirPath(s, pp) && |ListOf(s, s.names[pp])| < MAX_USED && NoName(ListOf(s, s.names[pp]), n)
    && i < |s.ibitmap| && !s.ibitmap[i]
  }

  lemma NewFacts(s: State, pp: Path, n: string, i: nat)
    requires CanCreate(s, pp, n, i)
    ensures i < |s.inodes| && s.inodes[i].ftype == Free && s.inodes[i].addr == -1 && i != s.names[pp]
    ensures Sizes(s) && OK(NewFile(s, i)) && CanAdd(NewFile(s, i), pp, n, i)
    ensures forall p: Path :: p in s.dirs || p in s.files ==> p in s.names && s.names[p] != i
  {
    hide DiskOK, NamesOK;
    NewFileKeeps(s, i);
    IsFree(s, i);
    assert s.names[pp] != i;
  }

  lemma IsFree(s: State, i: nat)
    requires OK(s) && i < |s.inodes| && !s.ibitmap[i]
    ensures s.inodes[i].ftype == Free && s.inodes[i].addr == -1
  {
    assert InodeAt(s, i);
  }

  /** The disk after a file or a directory has been made, before its path is listed. */
  ghost predicate Created(s: State, s': State, pp: Path, n: string, i: nat, isDir: bool) {
    CanCreate(s, pp, n, i) && i < |s.inodes| && CanAdd(NewFile(s, i), pp, n, i) &&
    if isDir then exists b: nat :: FirstClear(s.dbitmap, b) && CanMakeDir(AddEntry(NewFile(s, i), pp, n, i), i, b)
                    && s' == SameNames(s, MakeDir(AddEntry(NewFile(s, i), pp, n, i), i, b))
    else s' == SameNames(s, AddEntry(NewFile(s, i), pp, n, i))
  }

  /** The state after a file or a directory has been made. */
  ghost predicate Made(s: State, s': State, pp: Path, n: string, i: nat, isDir: bool) {
    CanCreate(s, pp, n, i) && i < |s.inodes| && CanAdd(NewFile(s, i), pp, n, i) &&
    if isDir then exists b: nat :: FirstClear(s.dbitmap, b) && CanMakeDir(AddEntry(NewFile(s, i), pp, n, i), i, b)
                    && s' == MakeDir(AddEntry(NewFile(s, i), pp, n, i), i, b)
    else s' == AddEntry(NewFile(s, i), pp, n, i)
  }

  lemma DirReady(s: State, pp: Path, n: string, i: nat, b: nat)
    requires CanCreate(s, pp, n, i) && b < |s.dbitmap| && !s.dbitmap[b]
    ensures i < |s.inodes| && CanAdd(NewFile(s, i), pp, n, i) && CanMakeDir(AddEntry(NewFile(s, i), pp, n, i), i, b)
  {
    hide DiskOK, NamesOK;
    NewFacts(s, pp, n, i);
    var s1 := NewFile(s, i);
    AddKeeps(s1, pp, n, i);
    FreshPath(s1, pp, n);
    assert Parent(pp + [n]) == pp;
    var s2 := AddEntry(s1, pp, n, i);
    assert s2.files[..|s2.files|-1] == s.files;
  }

  lemma NewDirSame(s: State, s': State, pp: Path, n: string, i: nat, b: nat)
    requires CanCreate(s, pp, n, i) && FirstClear(s.dbitmap, b) && b < |s.data| == |s.dbitmap| == |s.owner|
    requires i < |s.inodes| == |s.ibitmap| == |s.home| && s.data[b].dirList == [] && s.data[b].dirUsed == 0 && s.data[b].ftype == Free
    requires var pi := s.names[pp]; var pb := s.inodes[pi].addr; var d := s.data[pb];
      s' == s.(ibitmap := s.ibitmap[i := true], dbitmap := s.dbitmap[b := true], owner := s.owner[b := i], home := s.home[i := pp + [n]],
               inodes := s.inodes[i := Inode(Dir, b, 2)][pi := s.inodes[pi].(refCnt := s.inodes[pi].refCnt + 1)],
               data := s.data[b := s.data[b].(ftype := Dir, dirUsed := 2, dirList := [Entry(".", i), Entry("..", pi)])]
                             [pb := d.(dirUsed := d.dirUsed + 1, dirList := d.dirList + [Entry(n, i)])])
    ensures Created(s, s', pp, n, i, true)
  {
    hide OK;
    NewFacts(s, pp, n, i);
    DirReady(s, pp, n, i, b);
    assert Parent(pp + [n]) == pp;
    DirFacts(s, pp);
    assert s' == SameNames(s, MakeDir(AddEntry(NewFile(s, i), pp, n, i), i, b));
  }

  lemma NewFileSame(s: State, s': State, pp: Path, n: string, i: nat)
    requires CanCreate(s, pp, n, i) && i < |s.inodes| == |s.ibitmap|
    requires var pi := s.names[pp]; var pb := s.inodes[pi].addr; var d := s.data[pb];
      s' == s.(ibitmap := s.ibitmap[i := true],
               inodes := s.inodes[i := Inode(File, -1, 1)][pi := s.inodes[pi].(refCnt := s.inodes[pi].refCnt + 1)],
               data := s.data[pb := d.(dirUsed := d.dirUsed + 1, dirList := d.dirList + [Entry(n, i)])])
    ensures Created(s, s', pp, n, i, false)
  {
    hide OK;
    NewFacts(s, pp, n, i);
    assert s' == SameNames(s, AddEntry(NewFile(s, i), pp, n, i));
  }

  lemma MakeDirKeeps(s: State, i: nat, b: nat)
    requires CanMakeDir(s, i, b)
    ensures OK(MakeDir(s, i, b)) && (NoOrphan(s) ==> NoOrphan(MakeDir(s, i, b)))
  {
    MadeDisk(s, i, b);
    MadeNames(s, i, b);
  }

  lemma CreatedKeeps(s: State, s': State, pp: Path, n: string, i: nat, isDir: bool)
    requires NoOrphan(s)
    requires if isDir then Created(s, SameNames(s, s'), pp, n, i, true) && s'.dirs == s.dirs + [pp + [n]] && s'.files == s.files
             else Created(s, SameNames(s, s'), pp, n, i, false) && s'.files == s.files + [pp + [n]] && s'.dirs == s.dirs
    requires s'.names == s.names[pp + [n] := i]
    ensures OK(s') && NoOrphan(s') && Made(s, s', pp, n, i, isDir)
  {
    hide OK;
    NewFacts(s, pp, n, i);
    var s1 := NewFile(s, i);
    AddKeeps(s1, pp, n, i);
    var s2 := AddEntry(s1, pp, n, i);
    if isDir {
      var b: nat :| FirstClear(s.dbitmap, b) && CanMakeDir(s2, i, b) && SameNames(s, s') == SameNames(s, MakeDir(s2, i, b));
      MakeDirKeeps(s2, i, b);
      assert s2.files[..|s2.files|-1] == s.files;
      assert s' == MakeDir(s2, i, b);
    } else {
      assert s' == s2;
    }
  }

  /** The path is gone; so are its inode and block when this was the last name of the file. */
  ghost predicate Deleted(s: State, s': State, p: Path) {
    exists j: nat, k: nat :: CanRemove(s, j, k) && s.files[j] == p && s' == AfterDelete(s, j, k)
  }

  ghost function AfterDelete(s: State, j: nat, k: nat): State
    requires CanRemove(s, j, k)
  {
    FileFacts(s, s.files[j]);
    var t := s.names[s.files[j]];
    if s.inodes[t].refCnt == 1 then Reclaim(RemoveEntry(s, j, k), t) else RemoveEntry(s, j, k)
  }

  ghost predicate Appended(s: State, s': State, p: Path, text: string) {
    exists b: nat :: p in s.names && s.names[p] < |s.inodes| && b < |s.data| == |s.dbitmap| == |s.owner| && FirstClear(s.dbitmap, b)
      && s' == WriteBlock(s, s.names[p], b, text)
  }

  lemma DeleteFacts(s: State, p: Path)
    requires OK(s) && p in s.files
    ensures p != [] && DirPath(s, Parent(p)) && p in s.names && s.names[p] != s.names[Parent(p)] && s.names[p] < |s.inodes| == |s.ibitmap|
    ensures var d := s.data[s.inodes[s.names[Parent(p)]].addr]; d.ftype == Dir && !NoName(d.dirList, p[|p|-1])
    ensures s.ibitmap[s.names[p]] && s.inodes[s.names[p]].ftype == File
    ensures -1 <= s.inodes[s.names[p]].addr < |s.data| == |s.dbitmap|
    ensures var b := s.inodes[s.names[p]].addr;
      b >= 0 ==> s.dbitmap[b] && s.data[b].ftype == File && b != s.inodes[s.names[Parent(p)]].addr
  {
    FileFacts(s, p);
    assert PathAt(s, p);
    PathHasEntry(s, p);
    DirFacts(s, Parent(p));
    assert InodeAt(s, s.names[p]);
    var b := s.inodes[s.names[p]].addr;
    if b >= 0 { assert BlockAt(s, b); }
  }

  lemma FirstIsIt(s: State, j: nat, k: nat)
    requires OK(s) && j < |s.files| && s.files[j] != [] && DirPath(s, Parent(s.files[j]))
    requires FirstNamed(ListOf(s, s.names[Parent(s.files[j])]), s.files[j][|s.files[j]|-1], k)
    ensures CanRemove(s, j, k)
  {
    var p := s.files[j];
    var l := ListOf(s, s.names[Parent(p)]);
    assert PathAt(s, p);
    assert DirAt(s, s.names[Parent(p)]);
    var i: nat :| i < |l| && l[i] == Entry(p[|p|-1], s.names[p]);
  }

  lemma DeletedKeeps(s: State, s': State, j: nat, k: nat)
    requires CanRemove(s, j, k) && NoOrphan(s) && s' == AfterDelete(s, j, k)
    ensures OK(s') && NoOrphan(s') && Deleted(s, s', s.files[j])
  {
    hide OK, DiskOK, NamesOK;
    var s1 := RemoveEntry(s, j, k);
    var t := s.names[s.files[j]];
    var pi := s.names[Parent(s.files[j])];
    Removed(s, j, k);
    FileFacts(s, s.files[j]);
    if s.inodes[t].refCnt == 1 {
      Reclaimed(s1, t);
    }
  }

  lemma Removed(s: State, j: nat, k: nat)
    requires CanRemove(s, j, k)
    ensures OK(RemoveEntry(s, j, k))
  {
    hide DiskOK, NamesOK;
    RemoveKeepsDisk(s, j, k);
    RemoveKeepsNames(s, j, k);
  }

  lemma Reclaimed(s: State, t: nat)
    requires CanReclaim(s, t)
    ensures OK(s) && |s.inodes| == |s.ibitmap| && |s.data| == |s.dbitmap| && OK(Reclaim(s, t))
  {
    hide DiskOK, NamesOK;
    ReclaimKeepsDisk(s, t);
    ReclaimKeepsNames(s, t);
  }

  // ------------------------------------------------------------ what the operations do to the paths

  /** Deleting a path cuts it off from the root and leaves every other path as it was. */
  lemma DeleteWalks(s: State, s': State, p: Path, q: Path)
    requires OK(s) && OK(s') && p in s.files && Deleted(s, s', p) && Plain(q)
    ensures Walk(s', q) == if q == p then -1 else Walk(s, q)
  {
    hide OK, Walk;
    SizesOK(s);
    var j: nat, k: nat :| CanRemove(s, j, k) && s.files[j] == p && s' == AfterDelete(s, j, k);
    DistinctWithout(s.files, j);
    PathOK(s, p);
    WalkRange(s, q);
    WalkRange(s', q);
    WalkAgrees(s, q);
    WalkAgrees(s', q);
  }

  /** A link makes a new path to the file of an old one and leaves every other path as it was. */
  lemma LinkWalks(s: State, s': State, pp: Path, n: string, target: Path, q: Path)
    requires OK(s) && OK(s') && pp in s.dirs && target in s.files && Linked(s, s', pp, n, target) && Plain(q)
    ensures Walk(s', q) == Walk(s, if q == pp + [n] then target else q)
  {
    hide OK, Walk, CanAdd;
    NamedIsPlain(s, target);
    AddWalks(s, s', pp, n, s.names[target], q);
    WalkAgrees(s, target);
  }

  lemma AddWalks(s: State, s': State, pp: Path, n: string, t: nat, q: Path)
    requires OK(s) && OK(s') && CanAdd(s, pp, n, t) && s' == AddEntry(s, pp, n, t) && Plain(q)
    ensures Walk(s', q) == if q == pp + [n] then t else Walk(s, q)
  {
    hide OK, Walk;
    FreshPath(s, pp, n);
    WalkRange(s, q);
    WalkRange(s', q);
    WalkAgrees(s, q);
    WalkAgrees(s', q);
  }

  lemma {:induction false} WalkRange(s: State, q: Path)
    ensures Walk(s, q) >= -1
  {
    if q != [] {
      WalkRange(s, Parent(q));
      var i := Walk(s, Parent(q));
      if i >= 0 && IsDir(s, i) { LookUpRange(ListOf(s, i), q[|q|-1]); }
    }
  }

  lemma {:induction false} LookUpRange(l: seq<Entry>, n: string)
    ensures LookUp(l, n) >= -1
  {
    if l != [] { LookUpRange(l[1..], n); }
  }

  /** A new file or directory makes one new path, to an inode that no path led to. */
  lemma MadeWalks(s: State, s': State, pp: Path, n: string, i: nat, isDir: bool, q: Path)
    requires OK(s) && OK(s') && pp in s.dirs && Made(s, s', pp, n, i, isDir) && Plain(q)
    ensures Walk(s', q) == if q == pp + [n] then i else Walk(s, q)
    ensures Walk(s, q) != i
  {
    hide OK, Walk, CanAdd, CanMakeDir;
    NewFacts(s, pp, n, i);
    var s1 := NewFile(s, i);
    FreshPath(s1, pp, n);
    WalkRange(s, q);
    WalkRange(s', q);
    WalkAgrees(s, q);
    WalkAgrees(s', q);
    if isDir {
      assert (s.files + [pp + [n]])[..|s.files|] == s.files;
    }
  }

  // ------------------------------------------------------------ what the operations do to the contents

  /** What is stored for an inode: the data of its block, or nothing. */
  ghost function Stored(s: State, i: int): Option<string> {
    if 0 <= i < |s.inodes| && s.inodes[i].ftype == File && 0 <= s.inodes[i].addr < |s.data|
    then Some(s.data[s.inodes[i].addr].data) else None
  }

  /** What a path leads to: the text of a file that has been written, and nothing otherwise. */
  ghost function Content(s: State, p: Path): Option<string> {
    Stored(s, Walk(s, p))
  }

  /** A free block is no inode's. */
  lemma FreeBlockIsNobodys(s: State, b: nat, j: nat)
    requires OK(s) && b < |s.data| == |s.dbitmap| && !s.dbitmap[b] && j < |s.inodes|
    ensures s.inodes[j].addr != b
  {
    hide OK;
    BlockOK(s, b);
    InodeOK(s, j);
  }

  /** A write changes no path, and gives its text to every path that leads to the file, and to no other. */
  lemma AppendWrites(s: State, s': State, p: Path, text: string, q: Path)
    requires OK(s) && OK(s') && p in s.files && Appended(s, s', p, text) && Plain(q)
    ensures Walk(s', q) == Walk(s, q)
    ensures Content(s', q) == if Walk(s, q) == Walk(s, p) then Some(text) else Content(s, q)
  {
    hide OK, Walk;
    NamedIsPlain(s, p);
    WalkAgrees(s, p);
    FileFacts(s, p);
    WalkRange(s, q);
    WalkRange(s', q);
    WalkAgrees(s, q);
    WalkAgrees(s', q);
    var b: nat :| b < |s.data| == |s.dbitmap| == |s.owner| && FirstClear(s.dbitmap, b) && s' == WriteBlock(s, s.names[p], b, text);
    var i := Walk(s, q);
    if 0 <= i < |s.inodes| { FreeBlockIsNobodys(s, b, i); }
  }

  /** Deleting a path leaves what every other path leads to as it was. */
  lemma DeleteKeepsContents(s: State, s': State, p: Path, q: Path)
    requires OK(s) && OK(s') && p in s.files && Deleted(s, s', p) && Plain(q)
    ensures Content(s', q) == if q == p then None else Content(s, q)
  {
    hide OK, Walk;
    DeleteWalks(s, s', p, q);
    if q != p {
      WalkRange(s, q);
      WalkAgrees(s', q);
      var j: nat, k: nat :| CanRemove(s, j, k) && s.files[j] == p && s' == AfterDelete(s, j, k);
      var i := Walk(s, q);
      if i >= 0 {
        PathOK(s', q);
        StillStored(s, j, k, i);
      }
    }
  }

  /** An inode that is in use after a deletion has what it had. */
  lemma StillStored(s: State, j: nat, k: nat, i: nat)
    requires CanRemove(s, j, k) && i < |s.inodes| && AfterDelete(s, j, k).inodes[i].ftype != Free
    ensures Stored(AfterDelete(s, j, k), i) == Stored(s, i)
  {
    hide OK;
    SizesOK(s);
    var t := s.names[s.files[j]];
    var pi := s.names[Parent(s.files[j])];
    InodeOK(s, i);
    InodeOK(s, t);
    InodeOK(s, pi);
  }

  /** An entry more changes nothing that is stored. */
  lemma AddStores(s: State, pp: Path, n: string, t: nat, i: int)
    requires CanAdd(s, pp, n, t)
    ensures Stored(AddEntry(s, pp, n, t), i) == Stored(s, i)
  {
    hide OK;
    SizesOK(s);
  }

  /** A link has what its target has, and every other path what it had. */
  lemma LinkContents(s: State, s': State, pp: Path, n: string, target: Path, q: Path)
    requires OK(s) && OK(s') && pp in s.dirs && target in s.files && Linked(s, s', pp, n, target) && Plain(q)
    ensures Content(s', q) == Content(s, if q == pp + [n] then target else q)
  {
    hide OK, Walk, Stored;
    LinkWalks(s, s', pp, n, target, q);
    AddStores(s, pp, n, s.names[target], Walk(s', q));
  }

  /** A new file has nothing, and every other path what it had. */
  lemma MadeContents(s: State, s': State, pp: Path, n: string, i: nat, isDir: bool, q: Path)
    requires OK(s) && OK(s') && pp in s.dirs && Made(s, s', pp, n, i, isDir) && Plain(q)
    ensures Content(s', q) == if q == pp + [n] then None else Content(s, q)
  {
    hide OK, Walk, Stored;
    MadeWalks(s, s', pp, n, i, isDir, q);
    NewFacts(s, pp, n, i);
    var s1 := NewFile(s, i);
    var s2 := AddEntry(s1, pp, n, i);
    NewStores(s, i, Walk(s', q));
    AddStores(s1, pp, n, i, Walk(s', q));
    if isDir {
      var b: nat :| FirstClear(s.dbitmap, b) && CanMakeDir(s2, i, b) && s' == MakeDir(s2, i, b);
      DirStores(s2, i, b, Walk(s', q));
    }
  }

  lemma NewStores(s: State, i: nat, j: int)
    requires i < |s.inodes| == |s.ibitmap|
    ensures Stored(NewFile(s, i), j) == if j == i then None else Stored(s, j)
  {
  }

  lemma DirStores(s: State, i: nat, b: nat, j: int)
    requires CanMakeDir(s, i, b)
    ensures Stored(MakeDir(s, i, b), j) == if j == i then None else Stored(s, j)
  {
    hide OK;
    SizesOK(s);
    if 0 <= j < |s.inodes| { FreeBlockIsNobodys(s, b, j); }
  }
}
