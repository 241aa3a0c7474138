/** The protocol of `ostep14-afs.py`: clients cache whole files, and the server remembers which
    client caches what, in order to call it back when another client stores the file. */
module Afs {
  import opened Shared

  datatype File = File(name: nat)

  datatype Client = Client(cid: nat)

  datatype Entry = Entry(data: int, dirty: bool, refcnt: nat, valid: bool)

  type Cache = map<File, Entry>

  datatype Action = Open(fname: File) | Read(fname: File) | Write(fname: File, value: int) | Close(fname: File)

  type Steps = seq<(Client, Action)>

  /** The server's files, what it lists for each client, and what each client caches. */
  datatype State = State(contents: map<File, int>, listed: map<Client, set<File>>, caches: map<Client, Cache>)

  // ------------------------------------------------------------ the invariant

  ghost predicate IsOpen(s: State, c: Client, f: File) {
    c in s.caches && f in s.caches[c] && s.caches[c][f].refcnt > 0
  }

  /** If the server lists file f for client c, then c holds a valid copy, which is the server's
      version unless c has changed it. */
  ghost predicate Promise(s: State, c: Client, f: File) {
    c in s.listed && f in s.listed[c] ==>
      && f in s.contents && c in s.caches && f in s.caches[c] && s.caches[c][f].valid
      && (!s.caches[c][f].dirty ==> s.caches[c][f].data == s.contents[f])
  }

  /** What a client's copy looks like: no file is open twice, and only open files are dirty. */
  ghost predicate CopyOK(s: State, c: Client, f: File) {
    c in s.caches && f in s.caches[c] ==>
      f in s.contents && s.caches[c][f].refcnt <= 1 && (s.caches[c][f].dirty ==> s.caches[c][f].refcnt == 1)
  }

  ghost predicate StateOK(s: State) {
    && (forall c :: c in s.listed <==> c in s.caches)
    && (forall c, f :: Promise(s, c, f))
    && (forall c, f :: CopyOK(s, c, f))
  }

  /** Client c has a valid copy of f. */
  ghost predicate HasValid(s: State, c: Client, f: File) {
    c in s.caches && f in s.caches[c] && s.caches[c][f].valid
  }

  ghost predicate Lists(s: State, c: Client, f: File) {
    c in s.listed && f in s.listed[c]
  }

  // ------------------------------------------------------------ what the actions do

  function SetEntry(caches: map<Client, Cache>, c: Client, f: File, e: Entry): map<Client, Cache>
    requires c in caches
  {
    caches[c := caches[c][f := e]]
  }

  lemma SetTwice(caches: map<Client, Cache>, c: Client, f: File, e: Entry, e': Entry)
    requires c in caches
    ensures SetEntry(SetEntry(caches, c, f, e), c, f, e') == SetEntry(caches, c, f, e')
  {
    assert caches[c][f := e][f := e'] == caches[c][f := e'];
  }

  ghost function Opened(s: State, c: Client, f: File): State
    requires c in s.caches && c in s.listed && f in s.contents
  {
    if HasValid(s, c, f) then
      var e := s.caches[c][f];
      s.(caches := SetEntry(s.caches, c, f, e.(dirty := false, refcnt := e.refcnt + 1)))
    else
      s.(listed := s.listed[c := s.listed[c] + {f}], caches := SetEntry(s.caches, c, f, Entry(s.contents[f], false, 1, true)))
  }

  ghost function Wrote(s: State, c: Client, f: File, v: int): State
    requires IsOpen(s, c, f)
  {
    s.(caches := SetEntry(s.caches, c, f, s.caches[c][f].(data := v, dirty := true)))
  }

  /** Client d is called back for file f if it is listed and did not store the file itself. */
  ghost function ListAfter(s: State, c: Client, f: File, d: Client): set<File>
    requires d in s.listed
  {
    if d != c && Lists(s, d, f) then s.listed[d] - {f} else s.listed[d]
  }

  ghost function CacheAfter(s: State, c: Client, f: File, d: Client): Cache
    requires d in s.caches
  {
    if d != c && Lists(s, d, f) && f in s.caches[d] then s.caches[d][f := s.caches[d][f].(valid := false)] else s.caches[d]
  }

  /** The server gets a value from client c and calls all others back. */
  ghost function Stored(s: State, c: Client, f: File, v: int): State {
    State(s.contents[f := v], map d | d in s.listed :: ListAfter(s, c, f, d), map d | d in s.caches :: CacheAfter(s, c, f, d))
  }

  ghost function Closed(s: State, c: Client, f: File): State
    requires IsOpen(s, c, f)
  {
    var e := s.caches[c][f];
    if e.dirty then
      var t := Stored(s, c, f, e.data);
      t.(caches := SetEntry(t.caches, c, f, e.(dirty := false, valid := true, refcnt := e.refcnt - 1)))
    else if !e.valid && e.refcnt == 1 then s.(caches := s.caches[c := s.caches[c] - {f}])
    else s.(caches := SetEntry(s.caches, c, f, e.(refcnt := e.refcnt - 1)))
  }

  /** A client opens a file at most once at a time, and uses only what it has open. */
  ghost predicate Allowed(s: State, c: Client, a: Action) {
    c in s.caches && c in s.listed && a.fname in s.contents && (a.Open? <==> !IsOpen(s, c, a.fname))
  }

  ghost function Next(s: State, c: Client, a: Action): State
    requires Allowed(s, c, a)
  {
    match a
    case Open(f) => Opened(s, c, f)
    case Read(f) => s
    case Write(f, v) => Wrote(s, c, f, v)
    case Close(f) => Closed(s, c, f)
  }

  // ------------------------------------------------------------ the promises are kept

  lemma OpenKeeps(s: State, c: Client, f: File)
    requires StateOK(s) && c in s.caches && f in s.contents && !IsOpen(s, c, f)
    ensures c in s.listed && StateOK(Opened(s, c, f))
  {
    var t := Opened(s, c, f);
    forall d, g ensures Promise(t, d, g) && CopyOK(t, d, g) {
      assert Promise(s, d, g) && CopyOK(s, d, g) && CopyOK(s, c, f);
    }
  }

  lemma WriteKeeps(s: State, c: Client, f: File, v: int)
    requires StateOK(s) && IsOpen(s, c, f)
    ensures StateOK(Wrote(s, c, f, v))
  {
    var t := Wrote(s, c, f, v);
    forall d, g ensures Promise(t, d, g) && CopyOK(t, d, g) {
      assert Promise(s, d, g) && CopyOK(s, d, g);
    }
  }

  /** Storing a changed file, or dropping the reference to an unchanged one, keeps the promises. */
  lemma CloseKeeps(s: State, c: Client, f: File)
    requires StateOK(s) && IsOpen(s, c, f)
    ensures StateOK(Closed(s, c, f)) && !IsOpen(Closed(s, c, f), c, f)
  {
    var t := Closed(s, c, f);
    assert CopyOK(s, c, f);
    forall d, g ensures Promise(t, d, g) && CopyOK(t, d, g) {
      assert Promise(s, d, g) && CopyOK(s, d, g) && Promise(s, c, g);
    }
  }

  lemma NextKeeps(s: State, c: Client, a: Action)
    requires StateOK(s) && Allowed(s, c, a)
    ensures StateOK(Next(s, c, a)) && Next(s, c, a).contents.Keys == s.contents.Keys
    ensures forall d, g :: IsOpen(Next(s, c, a), d, g) <==>
              if d == c && g == a.fname then !a.Close? else IsOpen(s, d, g)
  {
    match a
    case Open(f) => OpenKeeps(s, c, f);
    case Read(f) =>
    case Write(f, v) => WriteKeeps(s, c, f, v);
    case Close(f) =>
      CloseKeeps(s, c, f);
      assert CopyOK(s, c, f);
  }

  /** Nothing that is done elsewhere changes the data of a copy, or whether it is dirty or open. */
  lemma DataStays(s: State, d: Client, a: Action, c: Client, f: File)
    requires StateOK(s) && Allowed(s, d, a) && (d != c || a.fname != f)
    requires c in s.caches && f in s.caches[c]
    ensures var t := Next(s, d, a);
            && c in t.caches && f in t.caches[c]
            && t.caches[c][f] == s.caches[c][f].(valid := t.caches[c][f].valid)
  {
    assert CopyOK(s, d, a.fname);
  }

  lemma NoneAppears(s: State, d: Client, a: Action, c: Client, f: File)
    requires StateOK(s) && Allowed(s, d, a) && (d != c || a.fname != f)
    requires c !in s.caches || f !in s.caches[c]
    ensures c !in Next(s, d, a).caches || f !in Next(s, d, a).caches[c]
  {
    assert CopyOK(s, d, a.fname);
  }

  // ------------------------------------------------------------ schedules

  /** The state after the first i steps. */
  ghost function At(s: State, steps: Steps, i: nat): State
    requires i <= |steps|
  {
    if i == 0 then s
    else
      var t := At(s, steps, i - 1);
      var (c, a) := steps[i-1];
      if Allowed(t, c, a) then Next(t, c, a) else t
  }

  ghost predicate StepAllowed(s: State, steps: Steps, i: nat)
    requires i < |steps|
  {
    Allowed(At(s, steps, i), steps[i].0, steps[i].1)
  }

  /** A schedule in which every client opens a file at most once at a time. */
  ghost predicate Legal(s: State, steps: Steps) {
    forall i: nat :: i < |steps| ==> StepAllowed(s, steps, i)
  }

  lemma {:induction false} RunKeeps(s: State, steps: Steps, i: nat)
    requires StateOK(s) && Legal(s, steps) && i <= |steps|
    ensures StateOK(At(s, steps, i)) && At(s, steps, i).contents.Keys == s.contents.Keys
    ensures i < |steps| ==> Allowed(At(s, steps, i), steps[i].0, steps[i].1)
  {
    if i < |steps| { assert StepAllowed(s, steps, i); }
    if i > 0 {
      RunKeeps(s, steps, i - 1);
      NextKeeps(At(s, steps, i - 1), steps[i-1].0, steps[i-1].1);
    }
  }

  // ------------------------------------------------------------ what the server has

  /** What client c has written to f and not yet stored. */
  ghost function DirtyData(s: State, c: Client, f: File): Option<int> {
    if c in s.caches && f in s.caches[c] && s.caches[c][f].dirty then Some(s.caches[c][f].data) else None
  }

  /** The same, read off the schedule: the last write of c to f that no open or close of c has followed. */
  ghost function Unsaved(s: State, steps: Steps, i: nat, c: Client, f: File): Option<int>
    requires i <= |steps|
  {
    if i == 0 then DirtyData(s, c, f)
    else
      var (d, a) := steps[i-1];
      if d != c || a.fname != f || a.Read? then Unsaved(s, steps, i - 1, c, f)
      else if a.Write? then Some(a.value)
      else None
  }

  /** The value of the last close that had something to store. */
  ghost function ServerValue(s: State, steps: Steps, i: nat, f: File): int
    requires i <= |steps| && f in s.contents
  {
    if i == 0 then s.contents[f]
    else
      var (d, a) := steps[i-1];
      if a == Close(f) && Unsaved(s, steps, i - 1, d, f).Some? then Unsaved(s, steps, i - 1, d, f).value
      else ServerValue(s, steps, i - 1, f)
  }

  lemma NextDirty(s: State, d: Client, a: Action, c: Client, f: File)
    requires StateOK(s) && Allowed(s, d, a)
    ensures DirtyData(Next(s, d, a), c, f) ==
            if d != c || a.fname != f || a.Read? then DirtyData(s, c, f) else if a.Write? then Some(a.value) else None
  {
    assert CopyOK(s, d, a.fname);
    if d != c || a.fname != f {
      if c in s.caches && f in s.caches[c] {
        DataStays(s, d, a, c, f);
      } else {
        NoneAppears(s, d, a, c, f);
      }
    }
  }

  lemma NextContents(s: State, d: Client, a: Action, f: File)
    requires StateOK(s) && Allowed(s, d, a) && f in s.contents
    ensures f in Next(s, d, a).contents
    ensures Next(s, d, a).contents[f] ==
            if a == Close(f) && DirtyData(s, d, f).Some? then DirtyData(s, d, f).value else s.contents[f]
  {
  }

  /** Whatever the call-backs did meanwhile, each client has the unsaved writes that its own
      steps say, and the server has the values of the last closes that stored something. */
  lemma {:induction false} RunStores(s: State, steps: Steps, i: nat, f: File)
    requires StateOK(s) && Legal(s, steps) && i <= |steps| && f in s.contents
    ensures forall c :: DirtyData(At(s, steps, i), c, f) == Unsaved(s, steps, i, c, f)
    ensures f in At(s, steps, i).contents && At(s, steps, i).contents[f] == ServerValue(s, steps, i, f)
  {
    if i > 0 {
      var t := At(s, steps, i - 1);
      var (d, a) := steps[i-1];
      RunStores(s, steps, i - 1, f);
      RunKeeps(s, steps, i - 1);
      NextContents(t, d, a, f);
      forall c ensures DirtyData(At(s, steps, i), c, f) == Unsaved(s, steps, i, c, f) {
        NextDirty(t, d, a, c, f);
      }
    }
  }

  // ------------------------------------------------------------ old versions

  /** An open by client c would now read something else than the server has. */
  ghost predicate WouldBeStale(s: State, c: Client, f: File) {
    c in s.caches && c in s.listed && f in s.contents && !IsOpen(s, c, f) &&
    Opened(s, c, f).caches[c][f].data != s.contents[f]
  }

  /** Every valid copy of a client is listed. */
  ghost predicate ValidListed(s: State) {
    forall c, f :: HasValid(s, c, f) ==> Lists(s, c, f)
  }

  /** A close that stores a file although the client has been called back for it. */
  ghost predicate LateStore(s: State, c: Client, a: Action) {
    a.Close? && IsOpen(s, c, a.fname) && s.caches[c][a.fname].dirty && !s.caches[c][a.fname].valid
  }

  /** A client that opens a file sees the server's version, unless it has a valid copy that the
      server does not list. */
  lemma OpenSeesServer(s: State, c: Client, f: File)
    requires StateOK(s) && (Lists(s, c, f) || !HasValid(s, c, f))
    ensures !WouldBeStale(s, c, f)
  {
    assert Promise(s, c, f) && CopyOK(s, c, f);
  }

  /** Of all steps, only a late store makes a valid copy that is not listed, and it always does. */
  lemma OnlyLateStores(s: State, c: Client, a: Action)
    requires StateOK(s) && ValidListed(s) && Allowed(s, c, a)
    ensures ValidListed(Next(s, c, a)) <==> !LateStore(s, c, a)
    ensures IsOpen(s, c, a.fname) ==> (s.caches[c][a.fname].valid <==> Lists(s, c, a.fname))
  {
    var t := Next(s, c, a);
    assert CopyOK(s, c, a.fname) && Promise(s, c, a.fname);
    if LateStore(s, c, a) {
      assert HasValid(t, c, a.fname) && !Lists(t, c, a.fname);
    } else {
      forall d, g | HasValid(t, d, g) ensures Lists(t, d, g) {
        assert HasValid(s, d, g) ==> Lists(s, d, g);
      }
    }
  }

  ghost predicate LateAt(s: State, steps: Steps, i: nat)
    requires i < |steps|
  {
    LateStore(At(s, steps, i), steps[i].0, steps[i].1)
  }

  /** No store came late in the first i steps. */
  ghost predicate Punctual(s: State, steps: Steps, i: nat)
    requires i <= |steps|
  {
    forall k: nat :: k < i ==> !LateAt(s, steps, k)
  }

  /** Without late stores, no open ever reads an old version. */
  lemma {:induction false} NeverStale(s: State, steps: Steps, i: nat)
    requires StateOK(s) && ValidListed(s) && Legal(s, steps) && i <= |steps|
    requires Punctual(s, steps, i)
    ensures ValidListed(At(s, steps, i))
    ensures forall c, f :: !WouldBeStale(At(s, steps, i), c, f)
  {
    RunKeeps(s, steps, i);
    if i > 0 {
      NeverStale(s, steps, i - 1);
      RunKeeps(s, steps, i - 1);
      assert !LateAt(s, steps, i - 1);
      OnlyLateStores(At(s, steps, i - 1), steps[i-1].0, steps[i-1].1);
    }
    forall c, f ensures !WouldBeStale(At(s, steps, i), c, f) {
      OpenSeesServer(At(s, steps, i), c, f);
    }
  }

  /** Client c does nothing with f. */
  ghost predicate Untouched(steps: Steps, c: Client, f: File) {
    forall i :: 0 <= i < |steps| && steps[i].0 == c ==> steps[i].1.fname != f
  }

  lemma SafeStays(s: State, d: Client, a: Action, c: Client, f: File)
    requires StateOK(s) && Allowed(s, d, a) && (d != c || a.fname != f)
    requires Lists(s, c, f) || !HasValid(s, c, f)
    ensures Lists(Next(s, d, a), c, f) || !HasValid(Next(s, d, a), c, f)
  {
    assert CopyOK(s, d, a.fname) && Promise(s, c, f);
  }

  lemma {:induction false} SafeForever(s: State, steps: Steps, i: nat, c: Client, f: File)
    requires StateOK(s) && Legal(s, steps) && i <= |steps| && Untouched(steps, c, f)
    requires Lists(s, c, f) || !HasValid(s, c, f)
    ensures Lists(At(s, steps, i), c, f) || !HasValid(At(s, steps, i), c, f)
  {
    if i > 0 {
      SafeForever(s, steps, i - 1, c, f);
      RunKeeps(s, steps, i - 1);
      SafeStays(At(s, steps, i - 1), steps[i-1].0, steps[i-1].1, c, f);
    }
  }

  /** The steps by which another client makes an unlisted valid copy of f an old version. */
  ghost function Overwrite(s: State, b: Client, f: File, v: int): Steps {
    (if IsOpen(s, b, f) then [] else [(b, Open(f))]) + [(b, Write(f, v)), (b, Close(f))]
  }

  lemma OverwriteOpen(s: State, b: Client, c: Client, f: File, v: int)
    requires StateOK(s) && IsOpen(s, b, f) && b != c && HasValid(s, c, f) && !Lists(s, c, f) && !IsOpen(s, c, f)
    requires v != s.caches[c][f].data
    ensures WouldBeStale(Closed(Wrote(s, b, f, v), b, f), c, f)
  {
    var t := Wrote(s, b, f, v);
    WriteKeeps(s, b, f, v);
    CloseKeeps(t, b, f);
    assert CopyOK(s, b, f);
    assert t.caches[c] == s.caches[c] && !Lists(t, c, f);
    assert Closed(t, b, f).caches[c] == s.caches[c];
  }

  lemma OverwriteAllowed(s: State, b: Client, f: File, v: int)
    requires StateOK(s) && b in s.caches && f in s.contents
    ensures Legal(s, Overwrite(s, b, f, v))
    ensures var u := if IsOpen(s, b, f) then s else Next(s, b, Open(f));
            IsOpen(u, b, f) && At(s, Overwrite(s, b, f, v), |Overwrite(s, b, f, v)|) == Closed(Wrote(u, b, f, v), b, f)
  {
    var steps := Overwrite(s, b, f, v);
    var n: nat := |steps| - 2;
    var u := if IsOpen(s, b, f) then s else Next(s, b, Open(f));
    if !IsOpen(s, b, f) {
      NextKeeps(s, b, Open(f));
      assert At(s, steps, 0) == s && StepAllowed(s, steps, 0);
    }
    assert CopyOK(s, b, f);
    assert At(s, steps, n) == u && IsOpen(u, b, f);
    var t := Wrote(u, b, f, v);
    assert StepAllowed(s, steps, n) && At(s, steps, n + 1) == t;
    assert StepAllowed(s, steps, n + 1) && At(s, steps, n + 2) == Closed(t, b, f);
    forall i: nat | i < |steps| ensures StepAllowed(s, steps, i) {
      assert i == n || i == n + 1 || (i == 0 && n == 1);
    }
  }

  /** What client b opens or writes does not concern client c. */
  lemma OthersKeep(s: State, b: Client, a: Action, c: Client, f: File)
    requires StateOK(s) && Allowed(s, b, a) && !a.Close? && b != c && c in s.caches
    ensures c in s.listed && c in Next(s, b, a).listed && Next(s, b, a).listed[c] == s.listed[c]
    ensures c in Next(s, b, a).caches && Next(s, b, a).caches[c] == s.caches[c]
    ensures Lists(Next(s, b, a), c, f) == Lists(s, c, f) && HasValid(Next(s, b, a), c, f) == HasValid(s, c, f)
  {
  }

  lemma OverwriteMakesStale(s: State, b: Client, c: Client, f: File)
    requires StateOK(s) && b in s.caches && b != c && f in s.contents && !IsOpen(s, c, f)
    requires HasValid(s, c, f) && !Lists(s, c, f)
    ensures var steps := Overwrite(s, b, f, s.caches[c][f].data + 1);
            Legal(s, steps) && Untouched(steps, c, f) && WouldBeStale(At(s, steps, |steps|), c, f)
  {
    hide StateOK, Stored, Next, At, Legal, Closed, Wrote, Opened, WouldBeStale;
    var v := s.caches[c][f].data + 1;
    OverwriteAllowed(s, b, f, v);
    var u := s;
    if !IsOpen(s, b, f) {
      KnownClient(s, b);
      u := Next(s, b, Open(f));
      NextKeeps(s, b, Open(f));
      OthersKeep(s, b, Open(f), c, f);
    }
    OverwriteOpen(u, b, c, f, v);
  }

  lemma KnownClient(s: State, c: Client)
    requires StateOK(s) && c in s.caches
    ensures c in s.listed
  {
  }

  ghost predicate StaleAfter(s: State, steps: Steps, c: Client, f: File) {
    Legal(s, steps) && Untouched(steps, c, f) && WouldBeStale(At(s, steps, |steps|), c, f)
  }

  /** Whatever the others do until client c opens f next, it sees the server's version: if and only
      if c is now listed for f or has no valid copy. */
  lemma FreshForever(s: State, b: Client, c: Client, f: File)
    requires StateOK(s) && b in s.caches && c in s.caches && b != c && f in s.contents && !IsOpen(s, c, f)
    ensures (forall steps :: !StaleAfter(s, steps, c, f)) <==> Lists(s, c, f) || !HasValid(s, c, f)
  {
    if Lists(s, c, f) || !HasValid(s, c, f) {
      forall steps ensures !StaleAfter(s, steps, c, f) {
        if Legal(s, steps) && Untouched(steps, c, f) {
          RunKeeps(s, steps, |steps|);
          SafeForever(s, steps, |steps|, c, f);
          OpenSeesServer(At(s, steps, |steps|), c, f);
        }
      }
    } else {
      OverwriteMakesStale(s, b, c, f);
      assert StaleAfter(s, Overwrite(s, b, f, s.caches[c][f].data + 1), c, f);
    }
  }

  // ------------------------------------------------------------ what the clients read

  ghost function OpenData(s: State, c: Client, f: File): Option<int> {
    if IsOpen(s, c, f) then Some(s.caches[c][f].data) else None
  }

  /** What client c should see in f, by the schedule alone: its own last write since it opened the
      file, or else what the server had when it did. */
  ghost function Session(s: State, steps: Steps, i: nat, c: Client, f: File): Option<int>
    requires i <= |steps| && f in s.contents
  {
    if i == 0 then OpenData(s, c, f)
    else
      var (d, a) := steps[i-1];
      if d != c || a.fname != f then Session(s, steps, i - 1, c, f)
      else match a
        case Open(_) => Some(ServerValue(s, steps, i - 1, f))
        case Read(_) => Session(s, steps, i - 1, c, f)
        case Write(_, v) => Some(v)
        case Close(_) => None
  }

  lemma NextOpenData(s: State, d: Client, a: Action, c: Client, f: File)
    requires StateOK(s) && Allowed(s, d, a) && f in s.contents && !WouldBeStale(s, c, f)
    ensures OpenData(Next(s, d, a), c, f) ==
            if d != c || a.fname != f || a.Read? then OpenData(s, c, f)
            else if a.Open? then Some(s.contents[f]) else if a.Write? then Some(a.value) else None
  {
    assert CopyOK(s, d, a.fname);
    if d != c || a.fname != f {
      if c in s.caches && f in s.caches[c] {
        DataStays(s, d, a, c, f);
      } else {
        NoneAppears(s, d, a, c, f);
      }
    }
  }

  /** Without late stores, every client reads what its session says. */
  lemma {:induction false} ReadsAreSessions(s: State, steps: Steps, i: nat, c: Client, f: File)
    requires StateOK(s) && ValidListed(s) && Legal(s, steps) && i <= |steps| && f in s.contents
    requires Punctual(s, steps, i)
    ensures OpenData(At(s, steps, i), c, f) == Session(s, steps, i, c, f)
  {
    if i > 0 {
      ReadsAreSessions(s, steps, i - 1, c, f);
      RunKeeps(s, steps, i - 1);
      RunStores(s, steps, i - 1, f);
      NeverStale(s, steps, i - 1);
      NextOpenData(At(s, steps, i - 1), steps[i-1].0, steps[i-1].1, c, f);
    }
  }

  // ------------------------------------------------------------ the code

  ghost predicate PartlyAt(s: State, c: Client, f: File, done: set<Client>, listed: map<Client, set<File>>, caches: map<Client, Cache>, d: Client) {
    && d in s.listed && d in listed && listed[d] == (if d in done then ListAfter(s, c, f, d) else s.listed[d])
    && d in s.caches && d in caches && caches[d] == (if d in done then CacheAfter(s, c, f, d) else s.caches[d])
  }

  /** The call-backs for a store of c have been made to the clients in `done`. */
  ghost predicate Partly(s: State, c: Client, f: File, done: set<Client>, listed: map<Client, set<File>>, caches: map<Client, Cache>) {
    && listed.Keys == s.listed.Keys && caches.Keys == s.caches.Keys
    && (forall d :: d in s.caches ==> PartlyAt(s, c, f, done, listed, caches, d))
  }

  /** What the loop of `server.put` does about client d. */
  ghost predicate CalledBack(listed: map<Client, set<File>>, caches: map<Client, Cache>,
                             listed': map<Client, set<File>>, caches': map<Client, Cache>, c: Client, f: File, d: Client)
    requires d in listed && d in caches
  {
    if f in listed[d] && d != c then
      && f in caches[d] && listed' == listed[d := listed[d] - {f}]
      && caches' == SetEntry(caches, d, f, caches[d][f].(valid := false))
    else listed' == listed && caches' == caches
  }

  lemma PartlyNextAt(s: State, c: Client, f: File, done: set<Client>, listed: map<Client, set<File>>, caches: map<Client, Cache>,
                     listed': map<Client, set<File>>, caches': map<Client, Cache>, d: Client, x: Client)
    requires Promise(s, d, f) && PartlyAt(s, c, f, done, listed, caches, d) && PartlyAt(s, c, f, done, listed, caches, x)
    requires CalledBack(listed, caches, listed', caches', c, f, d)
    ensures PartlyAt(s, c, f, done + {d}, listed', caches', x)
  {
  }

  lemma PartlyNext(s: State, c: Client, f: File, done: set<Client>, listed: map<Client, set<File>>, caches: map<Client, Cache>,
                   listed': map<Client, set<File>>, caches': map<Client, Cache>, d: Client)
    requires StateOK(s) && Partly(s, c, f, done, listed, caches) && d in s.caches && d in listed && d in caches
    requires CalledBack(listed, caches, listed', caches', c, f, d)
    ensures Partly(s, c, f, done + {d}, listed', caches')
  {
    assert Promise(s, d, f);
    assert listed'.Keys == listed.Keys && caches'.Keys == caches.Keys;
    hide StateOK, Promise, PartlyAt, CalledBack;
    forall x | x in s.caches ensures PartlyAt(s, c, f, done + {d}, listed', caches', x) {
      PartlyNextAt(s, c, f, done, listed, caches, listed', caches', d, x);
    }
  }

  /** A listed file is in the client's cache, so that calling back never aborts. */
  lemma ReadyToCall(s: State, c: Client, f: File, done: set<Client>, listed: map<Client, set<File>>, caches: map<Client, Cache>, d: Client)
    requires StateOK(s) && Partly(s, c, f, done, listed, caches) && d in s.caches
    ensures d in listed && d in caches && (f in listed[d] && d != c ==> f in caches[d])
  {
    assert Promise(s, d, f);
  }

  lemma PartlyAll(s: State, c: Client, f: File, v: int, done: set<Client>, listed: map<Client, set<File>>, caches: map<Client, Cache>)
    requires StateOK(s) && Partly(s, c, f, done, listed, caches)
    requires forall d :: d in s.caches ==> d in done
    ensures State(s.contents[f := v], listed, caches) == Stored(s, c, f, v)
  {
    var t := Stored(s, c, f, v);
    assert listed == t.listed && caches == t.caches;
  }

  /** The close of a changed file, assignment by assignment. */
  lemma PutThenDrop(s: State, c: Client, f: File, u: State)
    requires StateOK(s) && IsOpen(s, c, f) && s.caches[c][f].dirty
    requires c in u.caches && f in u.caches[c] && u.caches[c][f] == s.caches[c][f].(dirty := false, valid := true)
    requires u == Stored(s, c, f, s.caches[c][f].data).(caches := u.caches)
    requires u.caches == SetEntry(Stored(s, c, f, s.caches[c][f].data).caches, c, f, u.caches[c][f])
    ensures u.caches[c][f].refcnt == 1
    ensures u.(caches := SetEntry(u.caches, c, f, u.caches[c][f].(refcnt := 0))) == Closed(s, c, f)
  {
    assert CopyOK(s, c, f);
    var t := Stored(s, c, f, s.caches[c][f].data);
    SetTwice(t.caches, c, f, u.caches[c][f], u.caches[c][f].(refcnt := 0));
  }

  lemma Dropped(caches: map<Client, Cache>, c: Client, f: File, e: Entry)
    requires c in caches
    ensures SetEntry(caches, c, f, e)[c := SetEntry(caches, c, f, e)[c] - {f}] == caches[c := caches[c] - {f}]
  {
    assert caches[c][f := e] - {f} == caches[c] - {f};
  }

  class System {
    const clients: seq<Client>
    var contents: map<File, int>
    var listed: map<Client, set<File>>
    var caches: map<Client, Cache>

    ghost function Now(): State
      reads this
    {
      State(contents, listed, caches)
    }

    ghost predicate Valid()
      reads this
    {
      StateOK(Now()) && forall c :: c in clients <==> c in caches
    }

    constructor (clients: seq<Client>, contents: map<File, int>)
      ensures Valid() && ValidListed(Now()) && this.clients == clients && this.contents == contents
      ensures forall c :: c in clients ==> caches[c] == map[]
    {
      this.clients, this.contents := clients, contents;
      listed := map c | c in clients :: {};
      caches := map c | c in clients :: map[];
    }

    /** `server.get` */
    method Get(c: Client, f: File) returns (data: int)
      requires c in listed && f in contents
      modifies `listed
      ensures data == contents[f] && listed == old(listed)[c := old(listed)[c] + {f}]
    {
      if f !in listed[c] {
        listed := listed[c := listed[c] + {f}];
      } else {
        assert listed[c] + {f} == listed[c];
        assert listed[c := listed[c]] == listed;
      }
      return contents[f];
    }

    /** `cache.invalidate`; its abort for a file that is not in the cache never happens. */
    method Invalidate(c: Client, f: File)
      requires c in caches && f in caches[c]
      modifies `caches
      ensures caches == SetEntry(old(caches), c, f, old(caches)[c][f].(valid := false))
    {
      caches := SetEntry(caches, c, f, caches[c][f].(valid := false));
    }

    /** The body of the loop of `server.put`. */
    method CallBack(d: Client, c: Client, f: File)
      requires d in listed && d in caches && (f in listed[d] && d != c ==> f in caches[d])
      modifies `listed, `caches
      ensures CalledBack(old(listed), old(caches), listed, caches, c, f, d)
    {
      if f in listed[d] && d != c {
        Invalidate(d, f);
        listed := listed[d := listed[d] - {f}];
      }
    }

    /** `server.put`: every other client that is listed for the file is called back. */
    method Put(c: Client, f: File, value: int)
      requires Valid() && c in clients && f in contents
      modifies `contents, `listed, `caches
      ensures Now() == Stored(old(Now()), c, f, value)
    {
      ghost var s, done := Now(), {};
      contents := contents[f := value];
      assert Partly(s, c, f, done, listed, caches);
      hide Partly, CalledBack, StateOK, Stored;
      for i := 0 to |clients|
        invariant contents == s.contents[f := value]
        invariant Partly(s, c, f, done, listed, caches)
        invariant forall k :: 0 <= k < i ==> clients[k] in done
      {
        var d := clients[i];
        ghost var listed0, caches0 := listed, caches;
        assert d in clients;
        ReadyToCall(s, c, f, done, listed, caches, d);
        CallBack(d, c, f);
        PartlyNext(s, c, f, done, listed0, caches0, listed, caches, d);
        done := done + {d};
      }
      PartlyAll(s, c, f, value, done, listed, caches);
    }

    /** `client.getfile` */
    method GetFile(c: Client, f: File)
      requires Valid() && c in clients && f in contents && !IsOpen(Now(), c, f)
      modifies `listed, `caches
      ensures c in old(listed) && c in old(caches)
      ensures Valid() && Now() == Opened(old(Now()), c, f)
    {
      ghost var caches0 := caches;
      OpenKeeps(Now(), c, f);
      hide StateOK;
      ghost var e: Entry;
      if f in caches[c] && caches[c][f].valid {
        e := caches[c][f].(dirty := false);
        caches := SetEntry(caches, c, f, caches[c][f].(dirty := false));
      } else {
        var data := Get(c, f);
        e := Entry(data, false, 0, true);
        caches := SetEntry(caches, c, f, Entry(data, false, 0, true));
      }
      SetTwice(caches0, c, f, e, e.(refcnt := e.refcnt + 1));
      caches := SetEntry(caches, c, f, caches[c][f].(refcnt := caches[c][f].refcnt + 1));
    }

    /** `MICRO_WRITE`: only the client's own copy changes. */
    method WriteFile(c: Client, f: File, v: int)
      requires Valid() && c in clients && IsOpen(Now(), c, f)
      modifies `caches
      ensures Valid() && Now() == Wrote(old(Now()), c, f, v)
    {
      WriteKeeps(Now(), c, f, v);
      hide StateOK;
      caches := SetEntry(caches, c, f, caches[c][f].(data := v, dirty := true));
    }

    /** `client.putfile` */
    method PutFile(c: Client, f: File, value: int)
      requires Valid() && c in clients && IsOpen(Now(), c, f) && f in contents
      modifies `contents, `listed, `caches
      ensures var s := Stored(old(Now()), c, f, value);
              && c in s.caches && f in s.caches[c]
              && Now() == s.(caches := SetEntry(s.caches, c, f, s.caches[c][f].(dirty := false, valid := true)))
    {
      hide StateOK;
      Put(c, f, value);
      ghost var caches1, e := caches, caches[c][f];
      SetTwice(caches1, c, f, e.(dirty := false), e.(dirty := false, valid := true));
      caches := SetEntry(caches, c, f, caches[c][f].(dirty := false));
      caches := SetEntry(caches, c, f, caches[c][f].(valid := true));
    }

    /** `MICRO_CLOSE`: a changed file is stored on the server, which calls the other clients back. */
    method CloseFile(c: Client, f: File)
      requires Valid() && c in clients && IsOpen(Now(), c, f)
      modifies `contents, `listed, `caches
      ensures Valid() && Now() == Closed(old(Now()), c, f)
    {
      ghost var s := Now();
      assert f in contents && caches[c][f].refcnt == 1 by { assert CopyOK(s, c, f); }
      CloseKeeps(s, c, f);
      if caches[c][f].dirty {
        PutFile(c, f, caches[c][f].data);
        PutThenDrop(s, c, f, Now());
      }
      hide StateOK, Stored;
      ghost var caches1 := caches;
      caches := SetEntry(caches, c, f, caches[c][f].(refcnt := caches[c][f].refcnt - 1));
      if caches[c][f].valid == false && caches[c][f].refcnt == 0 {
        Dropped(caches1, c, f, caches[c][f]);
        caches := caches[c := caches[c] - {f}];
      }
    }

    /** One action of a client, as `client.step` does it. */
    method Step(c: Client, a: Action) returns (read: Option<int>)
      requires Valid() && Allowed(Now(), c, a)
      modifies this
      ensures Valid() && Now() == Next(old(Now()), c, a)
      ensures read == if a.Read? then OpenData(old(Now()), c, a.fname) else None
    {
      read := None;
      match a {
        case Open(f) => GetFile(c, f);
        case Read(f) => read := Some(caches[c][f].data);
        case Write(f, v) => WriteFile(c, f, v);
        case Close(f) => CloseFile(c, f);
      }
    }
  }

  ghost predicate ReadsSession(s: State, steps: Steps, i: nat, got: Option<int>)
    requires i < |steps|
  {
    steps[i].1.fname in s.contents && got == Session(s, steps, i, steps[i].0, steps[i].1.fname)
  }

  /** Every legal schedule runs without an abort and keeps the promises throughout. The server ends
      with the values of the last closes that stored something, and as long as no store comes late,
      every read gets what its session says. */
  method Run(s: System, steps: Steps) returns (got: seq<Option<int>>)
    requires s.Valid() && Legal(s.Now(), steps)
    modifies s
    ensures s.Valid() && s.Now() == At(old(s.Now()), steps, |steps|)
    ensures s.contents.Keys == old(s.contents).Keys
    ensures forall f :: f in s.contents ==> s.contents[f] == ServerValue(old(s.Now()), steps, |steps|, f)
    ensures |got| == |steps|
    ensures ValidListed(old(s.Now())) ==>
              forall i: nat :: i < |steps| && steps[i].1.Read? && Punctual(old(s.Now()), steps, i) ==>
                ReadsSession(old(s.Now()), steps, i, got[i])
  {
    ghost var s0 := s.Now();
    got := [];
    hide StateOK, ServerValue, ValidListed, Punctual, ReadsSession, Next;
    for i := 0 to |steps|
      invariant s.Valid() && s.Now() == At(s0, steps, i) && |got| == i
      invariant ValidListed(s0) ==>
                  forall k: nat :: k < i && steps[k].1.Read? && Punctual(s0, steps, k) ==> ReadsSession(s0, steps, k, got[k])
    {
      RunKeeps(s0, steps, i);
      var read := s.Step(steps[i].0, steps[i].1);
      got := got + [read];
      if ValidListed(s0) && steps[i].1.Read? && Punctual(s0, steps, i) {
        ReadIsSession(s0, steps, i, read);
      }
    }
    RunKeeps(s0, steps, |steps|);
    forall f | f in s.contents ensures s.contents[f] == ServerValue(s0, steps, |steps|, f) {
      RunStores(s0, steps, |steps|, f);
    }
  }

  lemma ReadIsSession(s: State, steps: Steps, i: nat, got: Option<int>)
    requires StateOK(s) && ValidListed(s) && Legal(s, steps) && i < |steps| && Punctual(s, steps, i) && steps[i].1.Read?
    requires got == OpenData(At(s, steps, i), steps[i].0, steps[i].1.fname)
    ensures ReadsSession(s, steps, i, got)
  {
    RunKeeps(s, steps, i);
    ReadsAreSessions(s, steps, i, steps[i].0, steps[i].1.fname);
  }

  /** A client that stores a file late ends with a valid copy that is not listed. */
  lemma LateStoreUnlists(s: State, c: Client, f: File)
    requires StateOK(s) && LateStore(s, c, Close(f))
    ensures var t := Closed(s, c, f); HasValid(t, c, f) && !Lists(t, c, f) && !IsOpen(t, c, f)
  {
    assert Promise(s, c, f) && CopyOK(s, c, f);
  }

  lemma SafeOpenLists(s: State, c: Client, f: File)
    requires StateOK(s) && Allowed(s, c, Open(f)) && (Lists(s, c, f) || !HasValid(s, c, f))
    ensures Lists(Next(s, c, Open(f)), c, f)
  {
  }

  lemma WriteKeepsLists(s: State, c: Client, f: File, v: int)
    requires Allowed(s, c, Write(f, v)) && Lists(s, c, f)
    ensures Lists(Next(s, c, Write(f, v)), c, f)
  {
  }

  lemma CallsBack(s: State, b: Client, c: Client, f: File)
    requires StateOK(s) && b != c && IsOpen(s, b, f) && DirtyData(s, b, f).Some?
    requires IsOpen(s, c, f) && DirtyData(s, c, f).Some? && Lists(s, c, f)
    ensures Allowed(s, b, Close(f)) && LateStore(Next(s, b, Close(f)), c, Close(f))
  {
    assert CopyOK(s, b, f);
  }

  /** How a late store comes about: client c is called back while it has a changed file open. */
  method CalledBackOpen(s: System, b: Client, c: Client, f: File)
    requires s.Valid() && b in s.clients && c in s.clients && b != c && f in s.contents
    requires !IsOpen(s.Now(), b, f) && !IsOpen(s.Now(), c, f) && (Lists(s.Now(), c, f) || !HasValid(s.Now(), c, f))
    modifies s
    ensures s.Valid() && LateStore(s.Now(), c, Close(f)) && !IsOpen(s.Now(), b, f) && s.contents.Keys == old(s.contents).Keys
  {
    KnownClient(s.Now(), b);
    KnownClient(s.Now(), c);
    hide StateOK, Next, Closed, Wrote, Opened, DirtyData, Lists, HasValid, IsOpen, LateStore;
    SafeOpenLists(s.Now(), c, f);
    NextKeeps(s.Now(), c, Open(f));
    var _ := s.Step(c, Open(f));
    WriteKeepsLists(s.Now(), c, f, 2);
    NextDirty(s.Now(), c, Write(f, 2), c, f);
    NextKeeps(s.Now(), c, Write(f, 2));
    var _ := s.Step(c, Write(f, 2));
    OthersKeep(s.Now(), b, Open(f), c, f);
    NextDirty(s.Now(), b, Open(f), c, f);
    NextKeeps(s.Now(), b, Open(f));
    var _ := s.Step(b, Open(f));
    OthersKeep(s.Now(), b, Write(f, 1), c, f);
    NextDirty(s.Now(), b, Write(f, 1), c, f);
    NextDirty(s.Now(), b, Write(f, 1), b, f);
    NextKeeps(s.Now(), b, Write(f, 1));
    var _ := s.Step(b, Write(f, 1));
    CallsBack(s.Now(), b, c, f);
    NextKeeps(s.Now(), b, Close(f));
    var _ := s.Step(b, Close(f));
  }

  /** Such a copy is not called back, and an old version of the file is opened. */
  method OpenOld(s: System, b: Client, c: Client, f: File)
    requires s.Valid() && b in s.clients && b != c && f in s.contents && !IsOpen(s.Now(), b, f)
    requires HasValid(s.Now(), c, f) && !Lists(s.Now(), c, f) && !IsOpen(s.Now(), c, f)
    modifies s
    ensures s.Valid() && IsOpen(s.Now(), c, f) && f in s.contents && s.caches[c][f].data != s.contents[f]
  {
    assert c in s.clients;
    ghost var caches0 := s.caches;
    var v := s.caches[c][f].data + 1;
    s.GetFile(b, f);
    assert s.caches[c] == caches0[c] && !Lists(s.Now(), c, f);
    OverwriteOpen(s.Now(), b, c, f, v);
    hide StateOK, Stored;
    s.WriteFile(b, f, v);
    s.CloseFile(b, f);
    s.GetFile(c, f);
  }

  /** A run of the code from the start that ends in a client reading an old version. */
  method StaleOpen() returns (s: System, c: Client, f: File)
    ensures fresh(s) && s.Valid() && IsOpen(s.Now(), c, f) && f in s.contents
    ensures s.caches[c][f].data != s.contents[f]
  {
    var b := Client(1);
    c, f := Client(0), File(0);
    s := new System([c, b], map[f := 0]);
    assert c in s.clients && b in s.clients;
    CalledBackOpen(s, b, c, f);
    hide StateOK, Stored;
    LateStoreUnlists(s.Now(), c, f);
    NextKeeps(s.Now(), c, Close(f));
    var _ := s.Step(c, Close(f));
    OpenOld(s, b, c, f);
  }
}
