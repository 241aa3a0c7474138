/** The hashed timing wheel of `TimerManager.cpp`.  Timers are records in a store, keyed by their
    addresses; the wheel has a doubly linked list of timers in each slot. */
module Timers {
  import opened Shared

  datatype TimerType = TIMER_ONCE | TIMER_PERIOD

  datatype Timer = Timer(timeout: int, timertype: TimerType, rotation: nat, timeslot: nat,
                         prev: Option<nat>, next: Option<nat>)

  type Store = map<nat, Timer>

  const SLOTINTERVAL: nat := 1
  const SLOTNUM: nat := 1024

  // ------------------------------------------------------------ lists

  function PrevIn(s: seq<nat>, k: nat): Option<nat>
    requires k < |s|
  {
    if k == 0 then None else Some(s[k-1])
  }

  function NextIn(s: seq<nat>, k: nat): Option<nat>
    requires k < |s|
  {
    if k + 1 < |s| then Some(s[k+1]) else None
  }

  function Head(s: seq<nat>): Option<nat> {
    if s == [] then None else Some(s[0])
  }

  /** Timer k of the list of slot i has the right links. */
  ghost predicate LinkedAt(mem: Store, s: seq<nat>, i: nat, k: nat)
    requires k < |s|
  {
    s[k] in mem && mem[s[k]].prev == PrevIn(s, k) && mem[s[k]].next == NextIn(s, k) && mem[s[k]].timeslot == i
  }

  /** The timers s, in this order, are the doubly linked list of slot i. */
  ghost predicate Linked(mem: Store, s: seq<nat>, i: nat) {
    Distinct(s) && forall k: nat :: k < |s| ==> LinkedAt(mem, s, i, k)
  }

  ghost predicate InWheel(slots: seq<seq<nat>>, t: nat) {
    exists i: nat :: i < |slots| && t in slots[i]
  }

  /** The heads and links represent these slot lists, and a timer in no list has no links. */
  ghost predicate WheelOK(mem: Store, heads: seq<Option<nat>>, slots: seq<seq<nat>>) {
    && |heads| == |slots| == SLOTNUM
    && (forall i: nat :: i < SLOTNUM ==> heads[i] == Head(slots[i]) && Linked(mem, slots[i], i))
    && forall t :: t in mem && !InWheel(slots, t) ==> mem[t].prev == None && mem[t].next == None
  }

  lemma WheelAt(mem: Store, heads: seq<Option<nat>>, slots: seq<seq<nat>>, i: nat)
    requires WheelOK(mem, heads, slots) && i < SLOTNUM
    ensures |heads| == |slots| == SLOTNUM && heads[i] == Head(slots[i]) && Linked(mem, slots[i], i)
  {
  }

  /** A timer in the wheel is in the list of its own slot. */
  lemma OwnSlot(mem: Store, heads: seq<Option<nat>>, slots: seq<seq<nat>>, t: nat)
    requires WheelOK(mem, heads, slots)
    ensures InWheel(slots, t) ==> t in mem && mem[t].timeslot < SLOTNUM && t in slots[mem[t].timeslot]
    ensures forall i: nat :: i < SLOTNUM && t in slots[i] ==> InWheel(slots, t) && t in mem && mem[t].timeslot == i
  {
    forall i: nat | i < SLOTNUM && t in slots[i] ensures InWheel(slots, t) && t in mem && mem[t].timeslot == i {
      var k: nat :| k < |slots[i]| && slots[i][k] == t;
      assert LinkedAt(mem, slots[i], i, k);
    }
  }

  // ------------------------------------------------------------ taking out and putting in

  /** The list without its element k. */
  function Cut(s: seq<nat>, k: nat): seq<nat>
    requires k < |s|
  {
    s[..k] + s[k+1..]
  }

  /** The store after t has been unlinked. */
  function Unlinked(mem: Store, t: nat): Store
    requires t in mem
    requires mem[t].prev.Some? ==> mem[t].prev.value in mem
    requires mem[t].next.Some? ==> mem[t].next.value in mem
  {
    var p, n := mem[t].prev, mem[t].next;
    var m := if p.Some? then mem[p.value := mem[p.value].(next := n)] else mem;
    var m' := if n.Some? then m[n.value := m[n.value].(prev := p)] else m;
    m'[t := m'[t].(prev := None, next := None)]
  }

  lemma UnlinkedList(mem: Store, s: seq<nat>, i: nat, k: nat)
    requires Linked(mem, s, i) && k < |s|
    ensures s[k] in mem && (mem[s[k]].prev.Some? ==> mem[s[k]].prev.value in mem)
                        && (mem[s[k]].next.Some? ==> mem[s[k]].next.value in mem)
    ensures Linked(Unlinked(mem, s[k]), Cut(s, k), i)
  {
    assert LinkedAt(mem, s, i, k);
    if k > 0 { assert LinkedAt(mem, s, i, k - 1); }
    if k + 1 < |s| { assert LinkedAt(mem, s, i, k + 1); }
    var mem', c := Unlinked(mem, s[k]), Cut(s, k);
    forall m: nat | m < |c| ensures LinkedAt(mem', c, i, m) {
      var o := if m < k then m else m + 1;
      assert LinkedAt(mem, s, i, o);
      assert c[m] == s[o];
    }
  }

  /** Timers outside the list keep their records. */
  lemma UnlinkedOthers(mem: Store, s: seq<nat>, i: nat, k: nat, x: nat)
    requires Linked(mem, s, i) && k < |s| && x !in s && x in mem
    requires s[k] in mem && (mem[s[k]].prev.Some? ==> mem[s[k]].prev.value in mem)
                         && (mem[s[k]].next.Some? ==> mem[s[k]].next.value in mem)
    ensures x in Unlinked(mem, s[k]) && Unlinked(mem, s[k])[x] == mem[x]
  {
    assert LinkedAt(mem, s, i, k);
  }

  /** The store after t has been put in front of a list. */
  function Pushed(mem: Store, t: nat, head: Option<nat>): Store
    requires t in mem && (head.Some? ==> head.value in mem)
  {
    if head.Some? then
      var m := mem[t := mem[t].(next := head)];
      m[head.value := m[head.value].(prev := Some(t))]
    else mem
  }

  lemma PushedList(mem: Store, s: seq<nat>, i: nat, t: nat)
    requires Linked(mem, s, i) && t in mem && t !in s
    requires mem[t].timeslot == i && mem[t].prev == None && mem[t].next == None
    ensures Head(s).Some? ==> Head(s).value in mem
    ensures Linked(Pushed(mem, t, Head(s)), [t] + s, i)
  {
    if s != [] { assert LinkedAt(mem, s, i, 0); }
    var mem', c := Pushed(mem, t, Head(s)), [t] + s;
    forall m: nat | m < |c| ensures LinkedAt(mem', c, i, m) {
      if m > 0 { assert LinkedAt(mem, s, i, m - 1); }
    }
  }

  lemma SameList(mem: Store, mem': Store, s: seq<nat>, i: nat)
    requires Linked(mem, s, i) && forall x :: x in s && x in mem ==> x in mem' && mem'[x] == mem[x]
    ensures Linked(mem', s, i)
  {
    forall k: nat | k < |s| ensures LinkedAt(mem', s, i, k) {
      assert LinkedAt(mem, s, i, k);
      assert s[k] in s;
    }
  }

  /** The data of a timer, without its links. */
  ghost predicate SameData(a: Timer, b: Timer) {
    a.timeout == b.timeout && a.timertype == b.timertype && a.rotation == b.rotation && a.timeslot == b.timeslot
  }

  ghost predicate SameDataIn(mem: Store, mem': Store) {
    mem'.Keys == mem.Keys && forall x :: x in mem ==> SameData(mem[x], mem'[x])
  }

  lemma RemoveKeeps(mem: Store, heads: seq<Option<nat>>, slots: seq<seq<nat>>, i: nat, k: nat)
    requires WheelOK(mem, heads, slots) && i < SLOTNUM && |slots| == SLOTNUM && k < |slots[i]|
    ensures slots[i][k] in mem && (mem[slots[i][k]].prev.Some? ==> mem[slots[i][k]].prev.value in mem)
                               && (mem[slots[i][k]].next.Some? ==> mem[slots[i][k]].next.value in mem)
    ensures WheelOK(Unlinked(mem, slots[i][k]), heads[i := Head(Cut(slots[i], k))], slots[i := Cut(slots[i], k)])
    ensures SameDataIn(mem, Unlinked(mem, slots[i][k]))
    ensures forall x :: InWheel(slots[i := Cut(slots[i], k)], x) <==> InWheel(slots, x) && x != slots[i][k]
  {
    hide *;
    WheelAt(mem, heads, slots, i);
    var s, t := slots[i], slots[i][k];
    UnlinkedList(mem, s, i, k);
    var mem', slots' := Unlinked(mem, t), slots[i := Cut(s, k)];
    UnlinkedData(mem, t);
    forall j: nat | j < SLOTNUM && j != i ensures Linked(mem', slots[j], j) {
      WheelAt(mem, heads, slots, j);
      forall x | x in slots[j] && x in mem ensures x in mem' && mem'[x] == mem[x] {
        OwnSlot(mem, heads, slots, x);
        UnlinkedOthers(mem, s, i, k, x);
      }
      SameList(mem, mem', slots[j], j);
    }
    forall x ensures InWheel(slots', x) <==> InWheel(slots, x) && x != t {
      CutWheel(mem, heads, slots, i, k, x);
    }
    forall x | x in mem' && !InWheel(slots', x) ensures mem'[x].prev == None && mem'[x].next == None {
      if x != t {
        OwnSlot(mem, heads, slots, x);
        UnlinkedOthers(mem, s, i, k, x);
        NotLinked(mem, heads, slots, x);
      }
    }
    MakeWheel(mem', heads[i := Head(Cut(s, k))], slots', mem, heads, slots, i);
  }

  lemma UnlinkedData(mem: Store, t: nat)
    requires t in mem
    requires mem[t].prev.Some? ==> mem[t].prev.value in mem
    requires mem[t].next.Some? ==> mem[t].next.value in mem
    ensures SameDataIn(mem, Unlinked(mem, t)) && Unlinked(mem, t).Keys == mem.Keys
    ensures Unlinked(mem, t)[t].prev == None && Unlinked(mem, t)[t].next == None
  {
  }

  lemma NotLinked(mem: Store, heads: seq<Option<nat>>, slots: seq<seq<nat>>, x: nat)
    requires WheelOK(mem, heads, slots) && x in mem && !InWheel(slots, x)
    ensures mem[x].prev == None && mem[x].next == None
  {
  }

  lemma CutWheel(mem: Store, heads: seq<Option<nat>>, slots: seq<seq<nat>>, i: nat, k: nat, x: nat)
    requires WheelOK(mem, heads, slots) && i < SLOTNUM && |slots| == SLOTNUM && k < |slots[i]|
    ensures InWheel(slots[i := Cut(slots[i], k)], x) <==> InWheel(slots, x) && x != slots[i][k]
  {
    var s, c := slots[i], Cut(slots[i], k);
    WheelAt(mem, heads, slots, i);
    CutMember(s, k, x);
    OwnSlot(mem, heads, slots, x);
    OwnSlot(mem, heads, slots, s[k]);
    assert s[k] in s;
    hide Cut, Linked, WheelOK;
    var slots' := slots[i := c];
    if InWheel(slots', x) {
      var j: nat :| j < |slots'| && x in slots'[j];
      assert j == i ==> x in slots[i];
    }
    if InWheel(slots, x) && x != s[k] {
      var j: nat :| j < |slots| && x in slots[j];
      assert x in slots'[j];
    }
  }

  lemma CutMember(s: seq<nat>, k: nat, x: nat)
    requires Distinct(s) && k < |s|
    ensures x in Cut(s, k) <==> x in s && x != s[k]
  {
    if x in s && x != s[k] {
      var m: nat :| m < |s| && s[m] == x;
      assert Cut(s, k)[if m < k then m else m - 1] == x;
    }
  }

  lemma MakeWheel(mem': Store, heads': seq<Option<nat>>, slots': seq<seq<nat>>,
                  mem: Store, heads: seq<Option<nat>>, slots: seq<seq<nat>>, i: nat)
    requires WheelOK(mem, heads, slots) && i < SLOTNUM && |heads'| == |slots'| == |heads| == |slots|
    requires forall j: nat :: j < SLOTNUM && j != i ==> slots'[j] == slots[j] && heads'[j] == heads[j] && Linked(mem', slots[j], j)
    requires heads'[i] == Head(slots'[i]) && Linked(mem', slots'[i], i)
    requires forall x :: x in mem' && !InWheel(slots', x) ==> mem'[x].prev == None && mem'[x].next == None
    ensures WheelOK(mem', heads', slots')
  {
  }

  lemma AddKeeps(mem: Store, heads: seq<Option<nat>>, slots: seq<seq<nat>>, t: nat)
    requires WheelOK(mem, heads, slots) && t in mem && !InWheel(slots, t) && mem[t].timeslot < SLOTNUM
    ensures |heads| == |slots| == SLOTNUM
    ensures heads[mem[t].timeslot].Some? ==> heads[mem[t].timeslot].value in mem
    ensures var i := mem[t].timeslot;
            WheelOK(Pushed(mem, t, heads[i]), heads[i := Some(t)], slots[i := [t] + slots[i]])
    ensures SameDataIn(mem, Pushed(mem, t, heads[mem[t].timeslot]))
    ensures forall x :: InWheel(slots[mem[t].timeslot := [t] + slots[mem[t].timeslot]], x) <==> InWheel(slots, x) || x == t
  {
    hide *;
    var i := mem[t].timeslot;
    WheelAt(mem, heads, slots, i);
    var s := slots[i];
    OwnSlot(mem, heads, slots, t);
    NotLinked(mem, heads, slots, t);
    assert t !in s;
    PushedList(mem, s, i, t);
    var mem', slots' := Pushed(mem, t, Head(s)), slots[i := [t] + s];
    PushedData(mem, t, Head(s));
    forall j: nat | j < SLOTNUM && j != i ensures Linked(mem', slots[j], j) {
      WheelAt(mem, heads, slots, j);
      forall x | x in slots[j] && x in mem ensures x in mem' && mem'[x] == mem[x] {
        OwnSlot(mem, heads, slots, x);
        PushedOthers(mem, t, s, x);
      }
      SameList(mem, mem', slots[j], j);
    }
    forall x ensures InWheel(slots', x) <==> InWheel(slots, x) || x == t { PushWheel(slots, i, t, x); }
    forall x | x in mem' && !InWheel(slots', x) ensures mem'[x].prev == None && mem'[x].next == None {
      OwnSlot(mem, heads, slots, x);
      PushedOthers(mem, t, s, x);
      NotLinked(mem, heads, slots, x);
    }
    assert Head([t] + s) == Some(t) by { HeadOf(t, s); }
    MakeWheel(mem', heads[i := Some(t)], slots', mem, heads, slots, i);
  }

  lemma HeadOf(t: nat, s: seq<nat>)
    ensures Head([t] + s) == Some(t)
  {
  }

  lemma PushedData(mem: Store, t: nat, head: Option<nat>)
    requires t in mem && (head.Some? ==> head.value in mem)
    ensures SameDataIn(mem, Pushed(mem, t, head)) && Pushed(mem, t, head).Keys == mem.Keys
  {
  }

  lemma PushedOthers(mem: Store, t: nat, s: seq<nat>, x: nat)
    requires t in mem && (Head(s).Some? ==> Head(s).value in mem) && x in mem && x != t && x !in s
    ensures x in Pushed(mem, t, Head(s)) && Pushed(mem, t, Head(s))[x] == mem[x]
  {
  }

  lemma PushWheel(slots: seq<seq<nat>>, i: nat, t: nat, x: nat)
    requires i < |slots|
    ensures InWheel(slots[i := [t] + slots[i]], x) <==> InWheel(slots, x) || x == t
  {
    var slots' := slots[i := [t] + slots[i]];
    if InWheel(slots, x) {
      var j: nat :| j < |slots| && x in slots[j];
      assert x in slots'[j];
    }
    assert t in slots'[i];
  }

  // ------------------------------------------------------------ countdowns

  /** `CalculateTimer`: how many ticks a timeout takes. */
  function Ticks(timeout: int): nat {
    if timeout < SLOTINTERVAL then 1 else timeout / SLOTINTERVAL
  }

  /** How many more calls of CheckTimer pass before the one that fires the timer. */
  function Rem(t: Timer, currentslot: nat): nat {
    t.rotation * SLOTNUM + (t.timeslot + SLOTNUM - currentslot) % SLOTNUM
  }

  lemma RemOfTicks(tick: nat, cur: nat)
    requires cur < SLOTNUM
    ensures tick / SLOTNUM * SLOTNUM + ((cur + tick) % SLOTNUM + SLOTNUM - cur) % SLOTNUM == tick
  {
    assert tick == tick / SLOTNUM * SLOTNUM + tick % SLOTNUM;
  }

  /** One call later: a timer in another slot, or with a rotation less, is one tick closer. */
  lemma RemNext(rotation: nat, slot: nat, cur: nat)
    requires cur < SLOTNUM && slot < SLOTNUM && (slot == cur ==> rotation > 0)
    ensures rotation * SLOTNUM + (slot + SLOTNUM - cur) % SLOTNUM > 0
    ensures (if slot == cur then rotation - 1 else rotation) * SLOTNUM
            + (slot + SLOTNUM - (cur + 1) % SLOTNUM) % SLOTNUM
            == rotation * SLOTNUM + (slot + SLOTNUM - cur) % SLOTNUM - 1
  {
  }

  // ------------------------------------------------------------ one call of CheckTimer

  /** What the call has done to a timer of the current slot. */
  ghost predicate After(a: Timer, b: Timer, inWheel: bool, cur: nat) {
    && b.timeout == a.timeout && b.timertype == a.timertype
    && if a.rotation > 0 then inWheel && b.timeslot == cur && b.rotation == a.rotation - 1
       else if a.timertype == TIMER_ONCE then !inWheel
       else
         var tick := Ticks(a.timeout);
         && inWheel && b.timeslot == (cur + tick) % SLOTNUM
         && b.rotation == if b.timeslot == cur && tick / SLOTNUM > 0 then tick / SLOTNUM - 1 else tick / SLOTNUM
  }

  /** The timers done have been treated, the others are as they were. */
  ghost predicate Progress(mem0: Store, slots0: seq<seq<nat>>, cur: nat, done: seq<nat>, mem: Store, slots: seq<seq<nat>>) {
    && mem.Keys == mem0.Keys
    && (forall x :: x in mem0 && x !in done ==> SameData(mem0[x], mem[x]) && (InWheel(slots, x) <==> InWheel(slots0, x)))
    && forall x :: x in done ==> x in mem0 && After(mem0[x], mem[x], InWheel(slots, x), cur)
  }

  lemma ProgressStep(mem0: Store, slots0: seq<seq<nat>>, cur: nat, done: seq<nat>, t: nat,
                     mem: Store, slots: seq<seq<nat>>, mem': Store, slots': seq<seq<nat>>)
    requires Progress(mem0, slots0, cur, done, mem, slots) && t in mem0 && t !in done && mem'.Keys == mem.Keys
    requires forall x :: x in mem && x != t ==> SameData(mem[x], mem'[x]) && (InWheel(slots', x) <==> InWheel(slots, x))
    requires After(mem[t], mem'[t], InWheel(slots', t), cur)
    ensures Progress(mem0, slots0, cur, done + [t], mem', slots')
  {
    hide InWheel, Ticks;
    assert SameData(mem0[t], mem[t]);
    forall x | x in done + [t] ensures x in mem0 && After(mem0[x], mem'[x], InWheel(slots', x), cur) {
      if x != t { assert x in done; }
    }
  }

  /** What CheckTimer promises for a timer of the wheel: it fires exactly when its countdown is 0; a
      one-shot is gone then, a periodic timer starts its next countdown with this very call, and
      every other countdown is one lower. */
  ghost predicate Ticked(a: Timer, b: Timer, inWheel: bool, fired: bool, cur: nat, cur': nat) {
    && (fired <==> Rem(a, cur) == 0)
    && (inWheel <==> !(fired && a.timertype == TIMER_ONCE))
    && (inWheel ==> Rem(b, cur') == if fired then Ticks(a.timeout) - 1 else Rem(a, cur) - 1)
    && b.timeout == a.timeout && b.timertype == a.timertype
  }

  lemma AfterTicked(a: Timer, b: Timer, inWheel: bool, cur: nat)
    requires cur < SLOTNUM && a.timeslot == cur && After(a, b, inWheel, cur)
    ensures Ticked(a, b, inWheel, a.rotation == 0, cur, (cur + 1) % SLOTNUM)
  {
    if a.rotation > 0 {
      RemNext(a.rotation, cur, cur);
    } else if a.timertype == TIMER_PERIOD {
      var tick := Ticks(a.timeout);
      RemOfTicks(tick, cur);
      if (cur + tick) % SLOTNUM == cur { SameSlot(tick, cur); }
      RemNext(tick / SLOTNUM, (cur + tick) % SLOTNUM, cur);
    }
  }

  /** A periodic timer comes back to the current slot only for a multiple of the number of slots. */
  lemma SameSlot(tick: nat, cur: nat)
    requires cur < SLOTNUM && tick > 0 && (cur + tick) % SLOTNUM == cur
    ensures tick / SLOTNUM > 0
  {
  }

  lemma OthersTicked(a: Timer, b: Timer, cur: nat)
    requires cur < SLOTNUM && a.timeslot < SLOTNUM && a.timeslot != cur && SameData(a, b)
    ensures Ticked(a, b, true, false, cur, (cur + 1) % SLOTNUM)
  {
    RemNext(a.rotation, a.timeslot, cur);
  }

  ghost predicate InRange(mem: Store) {
    forall t :: t in mem ==> mem[t].timeslot < SLOTNUM
  }

  lemma RangeStays(mem: Store, mem': Store)
    requires InRange(mem) && SameDataIn(mem, mem')
    ensures InRange(mem')
  {
  }

  lemma RangeAt(mem: Store, t: nat)
    requires InRange(mem)
    ensures t in mem ==> mem[t].timeslot < SLOTNUM
    ensures forall r: Timer :: r.timeslot < SLOTNUM ==> InRange(mem[t := r])
  {
  }

  class TimerManager {
    var currentslot: nat
    var timewheel: seq<Option<nat>>
    var timers: Store
    ghost var slots: seq<seq<nat>>

    ghost predicate Valid()
      reads this
    {
      currentslot < SLOTNUM && WheelOK(timers, timewheel, slots) && InRange(timers)
    }

    constructor ()
      ensures Valid() && timers == map[] && forall t :: !InWheel(slots, t)
    {
      currentslot := 0;
      timewheel := seq(SLOTNUM, _ => None);
      timers := map[];
      slots := seq(SLOTNUM, _ => []);
    }

    lemma ValidFacts()
      requires Valid()
      ensures currentslot < SLOTNUM && WheelOK(timers, timewheel, slots) && |slots| == |timewheel| == SLOTNUM
      ensures InRange(timers)
    {
    }

    lemma MakesValid()
      requires currentslot < SLOTNUM && WheelOK(timers, timewheel, slots) && InRange(timers)
      ensures Valid()
    {
    }

    /** A timer that is not in the wheel. */
    method NewTimer(t: nat, timeout: int, timertype: TimerType)
      requires Valid() && t !in timers
      modifies `timers
      ensures Valid() && timers == old(timers)[t := Timer(timeout, timertype, 0, 0, None, None)] && !InWheel(slots, t)
    {
      hide *;
      ValidFacts();
      ghost var mem := timers;
      RangeAt(mem, t);
      timers := timers[t := Timer(timeout, timertype, 0, 0, None, None)];
      NewKeeps(mem, timewheel, slots, t, timers[t]);
      MakesValid();
    }

    /** `CalculateTimer` */
    method CalculateTimer(t: nat)
      requires Valid() && t in timers && !InWheel(slots, t)
      modifies `timers
      ensures Valid()
      ensures timers == old(timers)[t := old(timers)[t].(rotation := Ticks(old(timers)[t].timeout) / SLOTNUM,
                                                         timeslot := (currentslot + Ticks(old(timers)[t].timeout)) % SLOTNUM)]
    {
      var tick := 0;
      var timeout := timers[t].timeout;
      if timeout < SLOTINTERVAL { tick := 1; } else { tick := timeout / SLOTINTERVAL; }
      ghost var mem := timers;
      hide *;
      ValidFacts();
      RangeAt(mem, t);
      timers := timers[t := timers[t].(rotation := tick / SLOTNUM, timeslot := (currentslot + tick) % SLOTNUM)];
      DetachedKeeps(mem, timewheel, slots, t, timers[t]);
      MakesValid();
      assert tick == Ticks(timeout) by { TicksIs(timeout, tick); }
    }

    /** `AddTimerToTimeWheel` */
    method AddTimerToTimeWheel(t: nat)
      requires Valid() && t in timers && !InWheel(slots, t)
      modifies `timers, `timewheel, `slots
      ensures Valid() && SameDataIn(old(timers), timers)
      ensures var i := old(timers)[t].timeslot;
              i < |old(slots)| && slots == old(slots)[i := [t] + old(slots)[i]]
      ensures forall x :: InWheel(slots, x) <==> InWheel(old(slots), x) || x == t
    {
      hide *;
      ValidFacts();
      RangeAt(timers, t);
      AddKeeps(timers, timewheel, slots, t);
      ghost var mem, head := timers, timewheel[timers[t].timeslot];
      var timeslot := timers[t].timeslot;
      if timewheel[timeslot].Some? {
        timers := timers[t := timers[t].(next := timewheel[timeslot])];
        timers := timers[timewheel[timeslot].value := timers[timewheel[timeslot].value].(prev := Some(t))];
        timewheel := timewheel[timeslot := Some(t)];
      } else {
        timewheel := timewheel[timeslot := Some(t)];
      }
      assert timers == Pushed(mem, t, head) by { PushWrites(mem, t, head, timers); }
      slots := slots[timeslot := [t] + slots[timeslot]];
      RangeStays(mem, timers);
      MakesValid();
    }

    /** `RemoveTimerFromTimeWheel`; k is the place of the timer in its list. */
    method RemoveTimerFromTimeWheel(t: nat, ghost k: nat)
      requires Valid() && t in timers
      requires InWheel(slots, t) ==>
                 timers[t].timeslot < |slots| && k < |slots[timers[t].timeslot]| && slots[timers[t].timeslot][k] == t
      modifies `timers, `timewheel, `slots
      ensures Valid() && SameDataIn(old(timers), timers)
      ensures InWheel(old(slots), t) ==>
                var i := old(timers)[t].timeslot;
                i < |old(slots)| && k < |old(slots)[i]| && slots == old(slots)[i := Cut(old(slots)[i], k)]
      ensures forall x :: InWheel(slots, x) <==> InWheel(old(slots), x) && x != t
    {
      hide *;
      ValidFacts();
      ghost var mem, heads, i := timers, timewheel, timers[t].timeslot;
      RangeAt(mem, t);
      var timeslot := timers[t].timeslot;
      if InWheel(slots, t) {
        RemoveKeeps(mem, heads, slots, i, k);
        FrontOrNot(mem, heads, slots, i, k);
      } else {
        NotLinked(mem, heads, slots, t);
        NotHead(mem, heads, slots, t);
        SameSelf(mem);
      }
      if Some(t) == timewheel[timeslot] {
        timewheel := timewheel[timeslot := timers[t].next];
        if timers[t].next.Some? {
          timers := timers[timers[t].next.value := timers[timers[t].next.value].(prev := None)];
        }
        timers := timers[t := timers[t].(prev := None, next := None)];
      } else {
        if timers[t].prev == None { return; }
        timers := timers[timers[t].prev.value := timers[timers[t].prev.value].(next := timers[t].next)];
        if timers[t].next.Some? {
          timers := timers[timers[t].next.value := timers[timers[t].next.value].(prev := timers[t].prev)];
        }
        timers := timers[t := timers[t].(prev := None, next := None)];
      }
      assert timers == Unlinked(mem, t) by { UnlinkWrites(mem, t, timers); }
      slots := slots[i := Cut(slots[i], k)];
      assert timewheel == heads[i := Head(slots[i])];
      RangeStays(mem, timers);
      MakesValid();
    }

    /** `AddTimer`: the timer will fire after as many ticks as its timeout takes, before the timers
        that are already in the list of its slot. */
    method AddTimer(t: nat)
      requires Valid() && t in timers && !InWheel(slots, t)
      modifies this
      ensures Valid() && currentslot == old(currentslot)
      ensures forall x :: InWheel(slots, x) <==> InWheel(old(slots), x) || x == t
      ensures OnlyChanges(old(timers), timers, t)
      ensures t in timers && SameKind(old(timers)[t], timers[t]) && Rem(timers[t], currentslot) == Ticks(timers[t].timeout)
      ensures var i := timers[t].timeslot; i < |old(slots)| && slots == old(slots)[i := [t] + old(slots)[i]]
    {
      hide *;
      ghost var mem := timers;
      ValidFacts();
      CalculateTimer(t);
      RemOfTicks(Ticks(timers[t].timeout), currentslot);
      ghost var mem1 := timers;
      AddTimerToTimeWheel(t);
      Calculated(mem, mem1, timers, t, currentslot);
    }

    /** `RemoveTimer`; removing a timer that is not in the wheel changes nothing but its links. */
    method RemoveTimer(t: nat)
      requires Valid() && t in timers
      modifies this
      ensures Valid() && currentslot == old(currentslot)
      ensures forall x :: InWheel(slots, x) <==> InWheel(old(slots), x) && x != t
      ensures SameDataIn(old(timers), timers)
    {
      hide *;
      ValidFacts();
      ghost var k := Place(timers, timewheel, slots, t);
      RemoveTimerFromTimeWheel(t, k);
    }

    /** `AdjustTimer`: whether or not it was in the wheel, the timer starts a new countdown. */
    method AdjustTimer(t: nat)
      requires Valid() && t in timers
      modifies this
      ensures Valid() && currentslot == old(currentslot)
      ensures forall x :: InWheel(slots, x) <==> InWheel(old(slots), x) || x == t
      ensures OnlyChanges(old(timers), timers, t)
      ensures t in timers && SameKind(old(timers)[t], timers[t]) && Rem(timers[t], currentslot) == Ticks(timers[t].timeout)
    {
      hide *;
      ghost var mem := timers;
      RemoveTimer(t);
      ghost var mem1 := timers;
      SameKeys(mem, mem1);
      AddTimer(t);
      ChangesCompose(mem, mem1, timers, t);
      SameKindTwice(mem[t], mem1[t], timers[t]);
    }

    /** `Timer::Adjust`: a timer gets another timeout and another kind, and starts a new countdown. */
    method Adjust(t: nat, timeout: int, timertype: TimerType)
      requires Valid() && t in timers
      modifies this
      ensures Valid() && currentslot == old(currentslot)
      ensures forall x :: InWheel(slots, x) <==> InWheel(old(slots), x) || x == t
      ensures OnlyChanges(old(timers), timers, t)
      ensures t in timers && timers[t].timeout == timeout && timers[t].timertype == timertype
      ensures Rem(timers[t], currentslot) == Ticks(timeout)
    {
      hide *;
      ValidFacts();
      ghost var mem := timers;
      DataKeeps(mem, timewheel, slots, t, timers[t].(timeout := timeout, timertype := timertype));
      timers := timers[t := timers[t].(timeout := timeout, timertype := timertype)];
      MakesValid();
      ghost var mem1 := timers;
      AdjustTimer(t);
      Adjusted(mem, mem1, timers, t);
    }

    lemma Adjusted(mem: Store, mem1: Store, mem2: Store, t: nat)
      requires t in mem && t in mem1 && mem1 == mem[t := mem1[t]] && OnlyChanges(mem1, mem2, t) && t in mem2 && SameKind(mem1[t], mem2[t])
      ensures OnlyChanges(mem, mem2, t) && mem2[t].timeout == mem1[t].timeout && mem2[t].timertype == mem1[t].timertype
    {
    }

    /** `AdjustTimerToWheel` for the timer at place k of the current slot. */
    method Readjust(t: nat, ghost k: nat)
      requires Valid() && t in timers && timers[t].timeslot == currentslot
      requires currentslot < |slots| && k < |slots[currentslot]| && slots[currentslot][k] == t
      modifies `timers, `timewheel, `slots
      ensures Valid() && t in timers && OnlyChanges(old(timers), timers, t) && |slots| == SLOTNUM
      ensures forall x :: InWheel(slots, x) <==> InWheel(old(slots), x)
      ensures timers[t].timeout == old(timers)[t].timeout && timers[t].timertype == old(timers)[t].timertype
      ensures timers[t].timeslot == (currentslot + Ticks(timers[t].timeout)) % SLOTNUM
      ensures timers[t].rotation == Ticks(timers[t].timeout) / SLOTNUM
      ensures slots[currentslot] ==
                (if timers[t].timeslot == currentslot then [t] else []) + Cut(old(slots)[currentslot], k)
    {
      hide *;
      ValidFacts();
      OwnSlot(timers, timewheel, slots, t);
      ghost var mem, s, cur := timers, slots[currentslot], currentslot;
      RemoveTimerFromTimeWheel(t, k);
      ValidFacts();
      ghost var mem1 := timers;
      SameKeys(mem, mem1);
      CalculateTimer(t);
      ghost var mem2 := timers;
      AddTimerToTimeWheel(t);
      ValidFacts();
      ChangesThree(mem, mem1, mem2, timers, t);
    }

    /** One round of the loop of `CheckTimer`. */
    method CheckOne(t: nat, ghost k: nat) returns (fired: bool)
      requires Valid() && t in timers && timers[t].timeslot == currentslot
      requires currentslot < |slots| && k < |slots[currentslot]| && slots[currentslot][k] == t
      modifies `timers, `timewheel, `slots
      ensures Valid() && t in timers && OnlyChanges(old(timers), timers, t)
      ensures forall x :: x != t ==> (InWheel(slots, x) <==> InWheel(old(slots), x))
      ensures After(old(timers)[t], timers[t], InWheel(slots, t), currentslot)
      ensures fired <==> old(timers)[t].rotation == 0
      ensures |slots| == SLOTNUM
      ensures EndsWith(slots[currentslot], old(slots)[currentslot][k+1..])
    {
      hide *;
      ValidFacts();
      OwnSlot(timers, timewheel, slots, t);
      ghost var mem, s := timers, slots[currentslot];
      if timers[t].rotation > 0 {
        timers := timers[t := timers[t].(rotation := timers[t].rotation - 1)];
        DataKeeps(mem, timewheel, slots, t, timers[t]);
        MakesValid();
        TailOf(s[..k+1], s[k+1..]);
        assert s == s[..k+1] + s[k+1..];
        KeptOne(mem, timers, t, currentslot);
        return false;
      }
      if timers[t].timertype == TIMER_ONCE {
        RemoveTimerFromTimeWheel(t, k);
        ValidFacts();
        CutIs(s, k);
        TailOf(s[..k], s[k+1..]);
        FiredOnce(mem, timers, t, currentslot);
      } else {
        Readjust(t, k);
        ValidFacts();
        ghost var mem1 := timers;
        FrontCut(s, k, t, timers[t].timeslot == currentslot, slots[currentslot]);
        if currentslot == timers[t].timeslot && timers[t].rotation > 0 {
          timers := timers[t := timers[t].(rotation := timers[t].rotation - 1)];
          DataKeeps(mem1, timewheel, slots, t, timers[t]);
          MakesValid();
        }
        FiredAgain(mem, mem1, timers, t, currentslot);
      }
      return true;
    }

    /** `CheckTimer`; the result lists the timers whose callbacks ran, in order.  Every timer whose
        countdown is 0 fires, once, and no other; every other countdown goes down by one, one-shots
        that fired are gone, and a periodic timer that fired will fire again exactly its number of
        ticks after this call. */
    method CheckTimer() returns (fired: seq<nat>)
      requires Valid()
      modifies this
      ensures Valid() && currentslot == (old(currentslot) + 1) % SLOTNUM && timers.Keys == old(timers).Keys
      ensures Distinct(fired) && forall x :: x in fired ==> InWheel(old(slots), x)
      ensures old(currentslot) < |old(slots)| && fired == Due(old(timers), old(slots)[old(currentslot)])
      ensures forall x :: x in old(timers) && InWheel(old(slots), x) ==>
                Ticked(old(timers)[x], timers[x], InWheel(slots, x), x in fired, old(currentslot), currentslot)
      ensures forall x :: x in old(timers) && !InWheel(old(slots), x) ==> !InWheel(slots, x) && SameData(old(timers)[x], timers[x])
      ensures forall x :: InWheel(slots, x) ==> InWheel(old(slots), x)
    {
      hide *;
      ValidFacts();
      ghost var mem0, slots0, cur, s := timers, slots, currentslot, slots[currentslot];
      ghost var heads0 := timewheel;
      WheelAt(timers, timewheel, slots, cur);
      ghost var k: nat := 0;
      fired := [];
      var ptimer := timewheel[currentslot];
      NothingDone(mem0, slots0, cur, s);
      HeadIs(s);
      while ptimer.Some?
        invariant Valid() && currentslot == cur && |slots| == SLOTNUM && cur < SLOTNUM
        invariant k <= |s| && ptimer == (if k < |s| then Some(s[k]) else None)
        invariant EndsWith(slots[cur], s[k..])
        invariant Progress(mem0, slots0, cur, s[..k], timers, slots)
        invariant FiredOf(mem0, s[..k], fired)
        decreases |s| - k
      {
        var t := ptimer.value;
        ValidFacts();
        ghost var mem, slots1 := timers, slots;
        ghost var m: nat := AtTail(timers, timewheel, slots, cur, s, k);
        var next := timers[t].next;
        assert slots[cur][m..] == s[k..];
        TodoData(mem0, heads0, slots0, cur, s, k, mem, slots1);
        var b := CheckOne(t, m);
        ProgressOne(mem0, slots0, cur, s, k, mem, slots1, timers, slots);
        FiredNext(mem0, s, k, fired);
        TailNext(s, k, slots1[cur], m);
        if b { fired := fired + [t]; }
        ptimer := next;
        k := k + 1;
      }
      assert s[..k] == s;
      ValidFacts();
      WheelKnown(timers, timewheel, slots);
      AllTicked(mem0, heads0, slots0, cur, timers, slots, fired);
      currentslot := (currentslot + 1) % SLOTNUM;
      MakesValid();
    }
  }

  lemma NewKeeps(mem: Store, heads: seq<Option<nat>>, slots: seq<seq<nat>>, t: nat, r: Timer)
    requires WheelOK(mem, heads, slots) && t !in mem && r.prev == None && r.next == None
    ensures !InWheel(slots, t) && WheelOK(mem[t := r], heads, slots)
  {
    OwnSlot(mem, heads, slots, t);
    DetachedLists(mem, heads, slots, t, r);
  }

  lemma DetachedLists(mem: Store, heads: seq<Option<nat>>, slots: seq<seq<nat>>, t: nat, r: Timer)
    requires WheelOK(mem, heads, slots) && !InWheel(slots, t)
    ensures forall i: nat :: i < SLOTNUM ==> Linked(mem[t := r], slots[i], i)
  {
    forall i: nat | i < SLOTNUM ensures Linked(mem[t := r], slots[i], i) {
      SameList(mem, mem[t := r], slots[i], i);
    }
  }

  /** The data of a timer outside the wheel may change. */
  lemma DetachedKeeps(mem: Store, heads: seq<Option<nat>>, slots: seq<seq<nat>>, t: nat, r: Timer)
    requires WheelOK(mem, heads, slots) && t in mem && !InWheel(slots, t) && r.prev == mem[t].prev && r.next == mem[t].next
    ensures WheelOK(mem[t := r], heads, slots)
  {
    DetachedLists(mem, heads, slots, t, r);
  }

  lemma TicksIs(timeout: int, tick: int)
    requires tick == if timeout < SLOTINTERVAL then 1 else timeout / SLOTINTERVAL
    ensures tick == Ticks(timeout)
  {
  }

  lemma PushWrites(mem: Store, t: nat, head: Option<nat>, after: Store)
    requires t in mem && (head.Some? ==> head.value in mem)
    requires after == if head.Some? then
                        var m := mem[t := mem[t].(next := head)];
                        m[head.value := m[head.value].(prev := Some(t))]
                      else mem
    ensures after == Pushed(mem, t, head)
  {
  }

  /** The two branches of RemoveTimerFromTimeWheel do the same to the store. */
  lemma UnlinkWrites(mem: Store, t: nat, after: Store)
    requires t in mem
    requires mem[t].prev.Some? ==> mem[t].prev.value in mem && mem[t].prev.value != t
    requires mem[t].next.Some? ==> mem[t].next.value in mem && mem[t].next.value != t
    requires var m := if mem[t].prev.Some? then mem[mem[t].prev.value := mem[mem[t].prev.value].(next := mem[t].next)] else mem;
             var m' := if mem[t].next.Some? then m[mem[t].next.value := m[mem[t].next.value].(prev := mem[t].prev)] else m;
             after == m'[t := m'[t].(prev := None, next := None)]
    ensures after == Unlinked(mem, t)
  {
  }

  lemma FrontOrNot(mem: Store, heads: seq<Option<nat>>, slots: seq<seq<nat>>, i: nat, k: nat)
    requires WheelOK(mem, heads, slots) && i < SLOTNUM && |slots| == |heads| == SLOTNUM && k < |slots[i]|
    ensures slots[i][k] in mem
    ensures heads[i] == Some(slots[i][k]) <==> k == 0
    ensures mem[slots[i][k]].prev == None <==> k == 0
    ensures mem[slots[i][k]].prev.Some? ==> mem[slots[i][k]].prev.value in mem && mem[slots[i][k]].prev.value != slots[i][k]
    ensures mem[slots[i][k]].next.Some? ==> mem[slots[i][k]].next.value in mem && mem[slots[i][k]].next.value != slots[i][k]
    ensures Head(Cut(slots[i], k)) == if k == 0 then mem[slots[i][k]].next else heads[i]
  {
    assert LinkedAt(mem, slots[i], i, k);
    if k > 0 { assert LinkedAt(mem, slots[i], i, k - 1); }
    if k + 1 < |slots[i]| { assert LinkedAt(mem, slots[i], i, k + 1); }
  }

  lemma NotHead(mem: Store, heads: seq<Option<nat>>, slots: seq<seq<nat>>, t: nat)
    requires WheelOK(mem, heads, slots) && !InWheel(slots, t)
    ensures forall i: nat :: i < SLOTNUM ==> heads[i] != Some(t)
  {
    forall i: nat | i < SLOTNUM ensures heads[i] != Some(t) {
      assert t !in slots[i];
    }
  }

  lemma SameSelf(mem: Store)
    ensures SameDataIn(mem, mem)
  {
  }

  ghost predicate SameKind(a: Timer, b: Timer) {
    b.timeout == a.timeout && b.timertype == a.timertype
  }

  lemma SameKindTwice(a: Timer, b: Timer, c: Timer)
    requires SameKind(a, b) && SameKind(b, c)
    ensures SameKind(a, c)
  {
  }

  /** All timers but t keep their data. */
  ghost predicate OnlyChanges(mem: Store, mem': Store, t: nat) {
    mem'.Keys == mem.Keys && forall x :: x in mem && x != t ==> SameData(mem[x], mem'[x])
  }

  lemma Calculated(mem: Store, mem1: Store, mem2: Store, t: nat, cur: nat)
    requires t in mem && cur < SLOTNUM
    requires mem1 == mem[t := mem[t].(rotation := Ticks(mem[t].timeout) / SLOTNUM, timeslot := (cur + Ticks(mem[t].timeout)) % SLOTNUM)]
    requires SameDataIn(mem1, mem2)
    ensures t in mem2 && OnlyChanges(mem, mem2, t) && SameKind(mem[t], mem2[t])
    ensures t in mem1 && mem2[t].timeslot == mem1[t].timeslot
    ensures Rem(mem2[t], cur) == Ticks(mem2[t].timeout)
  {
    RemOfTicks(Ticks(mem[t].timeout), cur);
  }

  lemma Place(mem: Store, heads: seq<Option<nat>>, slots: seq<seq<nat>>, t: nat) returns (k: nat)
    requires WheelOK(mem, heads, slots) && t in mem
    ensures InWheel(slots, t) ==>
              mem[t].timeslot < |slots| && k < |slots[mem[t].timeslot]| && slots[mem[t].timeslot][k] == t
  {
    OwnSlot(mem, heads, slots, t);
    k := 0;
    if InWheel(slots, t) {
      var i: nat :| i < |slots[mem[t].timeslot]| && slots[mem[t].timeslot][i] == t;
      k := i;
    }
  }

  lemma SameKeys(mem: Store, mem': Store)
    requires SameDataIn(mem, mem')
    ensures mem'.Keys == mem.Keys && forall x :: x in mem ==> SameKind(mem[x], mem'[x])
  {
  }

  lemma ChangesCompose(mem: Store, mem1: Store, mem2: Store, t: nat)
    requires SameDataIn(mem, mem1) && OnlyChanges(mem1, mem2, t)
    ensures OnlyChanges(mem, mem2, t)
  {
  }

  lemma ChangesThree(mem: Store, mem1: Store, mem2: Store, mem3: Store, t: nat)
    requires SameDataIn(mem, mem1) && t in mem && SameDataIn(mem2, mem3)
    requires mem2.Keys == mem1.Keys && forall x :: x in mem1 && x != t ==> mem2[x] == mem1[x]
    ensures OnlyChanges(mem, mem3, t) && t in mem3 && t in mem2 && SameData(mem2[t], mem3[t])
    ensures t in mem1 && SameData(mem[t], mem1[t])
  {
  }

  /** The data of any timer may change, as long as its slot stays. */
  lemma DataKeeps(mem: Store, heads: seq<Option<nat>>, slots: seq<seq<nat>>, t: nat, r: Timer)
    requires WheelOK(mem, heads, slots) && InRange(mem) && t in mem
    requires r.prev == mem[t].prev && r.next == mem[t].next && r.timeslot == mem[t].timeslot
    ensures WheelOK(mem[t := r], heads, slots) && InRange(mem[t := r])
  {
    forall i: nat | i < SLOTNUM ensures Linked(mem[t := r], slots[i], i) {
      var s, mem' := slots[i], mem[t := r];
      forall k: nat | k < |s| ensures LinkedAt(mem', s, i, k) { assert LinkedAt(mem, s, i, k); }
    }
  }

  lemma CutIs(s: seq<nat>, k: nat)
    requires k < |s|
    ensures Cut(s, k) == s[..k] + s[k+1..]
  {
  }

  ghost predicate EndsWith(s: seq<nat>, tail: seq<nat>) {
    |tail| <= |s| && s[|s|-|tail|..] == tail
  }

  lemma TailOf(f: seq<nat>, tail: seq<nat>)
    ensures EndsWith(f + tail, tail)
  {
  }

  lemma FrontCut(s: seq<nat>, k: nat, t: nat, same: bool, after: seq<nat>)
    requires k < |s| && after == (if same then [t] else []) + Cut(s, k)
    ensures EndsWith(after, s[k+1..])
  {
    TailOf((if same then [t] else []) + s[..k], s[k+1..]);
    assert after == (if same then [t] else []) + s[..k] + s[k+1..];
  }

  lemma KeptOne(mem: Store, mem': Store, t: nat, cur: nat)
    requires t in mem && mem[t].timeslot == cur && mem[t].rotation > 0
    requires mem' == mem[t := mem[t].(rotation := mem[t].rotation - 1)]
    ensures OnlyChanges(mem, mem', t) && After(mem[t], mem'[t], true, cur)
  {
  }

  lemma FiredOnce(mem: Store, mem': Store, t: nat, cur: nat)
    requires t in mem && mem[t].rotation == 0 && mem[t].timertype == TIMER_ONCE && SameDataIn(mem, mem')
    ensures t in mem' && OnlyChanges(mem, mem', t) && After(mem[t], mem'[t], false, cur)
  {
  }

  lemma FiredAgain(mem: Store, mem1: Store, mem2: Store, t: nat, cur: nat)
    requires t in mem && mem[t].rotation == 0 && mem[t].timertype == TIMER_PERIOD
    requires t in mem1 && OnlyChanges(mem, mem1, t)
    requires mem1[t].timeout == mem[t].timeout && mem1[t].timertype == mem[t].timertype
    requires mem1[t].timeslot == (cur + Ticks(mem[t].timeout)) % SLOTNUM && mem1[t].rotation == Ticks(mem[t].timeout) / SLOTNUM
    requires mem2 == if mem1[t].timeslot == cur && mem1[t].rotation > 0
                     then mem1[t := mem1[t].(rotation := mem1[t].rotation - 1)] else mem1
    ensures t in mem2 && OnlyChanges(mem, mem2, t) && After(mem[t], mem2[t], true, cur)
  {
  }

  // ------------------------------------------------------------ facts for CheckTimer

  /** The timers of `done` that had no rotation left, in order. */
  ghost predicate FiredOf(mem0: Store, done: seq<nat>, fired: seq<nat>) {
    && Distinct(fired) && fired == Due(mem0, done)
    && forall x :: x in fired <==> x in done && x in mem0 && mem0[x].rotation == 0
  }

  /** Those timers of a list that are due, in the order of the list. */
  function Due(mem: Store, s: seq<nat>): seq<nat> {
    if s == [] then []
    else
      var t := s[|s|-1];
      Due(mem, s[..|s|-1]) + if t in mem && mem[t].rotation == 0 then [t] else []
  }

  /** Of two due timers, the one that comes first in the list comes first. */
  lemma {:induction false} DueInOrder(mem: Store, s: seq<nat>, i: nat, j: nat) returns (a: nat, b: nat)
    requires i < j < |Due(mem, s)|
    ensures a < b < |s| && s[a] == Due(mem, s)[i] && s[b] == Due(mem, s)[j]
  {
    var pre := s[..|s|-1];
    if j < |Due(mem, pre)| {
      a, b := DueInOrder(mem, pre, i, j);
    } else {
      b := |s| - 1;
      a := DueListed(mem, pre, i);
    }
  }

  lemma {:induction false} DueListed(mem: Store, s: seq<nat>, i: nat) returns (a: nat)
    requires i < |Due(mem, s)|
    ensures a < |s| && s[a] == Due(mem, s)[i]
  {
    a := |s| - 1;
    if i < |Due(mem, s[..|s|-1])| { a := DueListed(mem, s[..|s|-1], i); }
  }

  /** A timer added to a list is served before all others of that list. */
  lemma {:induction false} LastAddedFirst(mem: Store, s: seq<nat>, t: nat)
    ensures Due(mem, [t] + s) == (if t in mem && mem[t].rotation == 0 then [t] else []) + Due(mem, s)
  {
    if s == [] {
      assert [t] + s == [t] && [t][..0] == [];
    } else {
      assert ([t] + s)[..|s|] == [t] + s[..|s|-1];
      LastAddedFirst(mem, s[..|s|-1], t);
    }
  }

  lemma NothingDone(mem0: Store, slots0: seq<seq<nat>>, cur: nat, s: seq<nat>)
    ensures s[..0] == [] && s[0..] == s && EndsWith(s, s[0..])
    ensures Progress(mem0, slots0, cur, s[..0], mem0, slots0) && FiredOf(mem0, s[..0], [])
  {
  }

  lemma HeadIs(s: seq<nat>)
    ensures Head(s) == if 0 < |s| then Some(s[0]) else None
  {
  }

  /** The timers still to be treated are linked as before. */
  lemma AtTail(mem: Store, heads: seq<Option<nat>>, slots: seq<seq<nat>>, cur: nat, s: seq<nat>, k: nat) returns (m: nat)
    requires WheelOK(mem, heads, slots) && cur < SLOTNUM && |slots| == SLOTNUM && k < |s| && EndsWith(slots[cur], s[k..])
    ensures m < |slots[cur]| && slots[cur][m] == s[k] && slots[cur][m..] == s[k..] && slots[cur][m+1..] == s[k+1..]
    ensures s[k] in mem && mem[s[k]].timeslot == cur
    ensures mem[s[k]].next == if k + 1 < |s| then Some(s[k+1]) else None
  {
    var l := slots[cur];
    m := |l| - |s[k..]|;
    assert l[m..] == s[k..];
    assert l[m] == l[m..][0] && s[k] == s[k..][0];
    assert l[m+1..] == l[m..][1..] && s[k+1..] == s[k..][1..];
    if k + 1 < |s| { assert l[m+1] == l[m..][1] && s[k+1] == s[k..][1]; }
    assert LinkedAt(mem, l, cur, m);
  }

  lemma TailNext(s: seq<nat>, k: nat, l: seq<nat>, m: nat)
    requires k < |s| && m < |l| && l[m..] == s[k..]
    ensures l[m+1..] == s[k+1..]
  {
    assert l[m+1..] == l[m..][1..] && s[k+1..] == s[k..][1..];
  }

  lemma TodoData(mem0: Store, heads0: seq<Option<nat>>, slots0: seq<seq<nat>>, cur: nat, s: seq<nat>, k: nat,
                 mem: Store, slots: seq<seq<nat>>)
    requires WheelOK(mem0, heads0, slots0) && cur < SLOTNUM && |slots0| == SLOTNUM && slots0[cur] == s && k < |s|
    requires Progress(mem0, slots0, cur, s[..k], mem, slots)
    ensures s[k] in mem0 && s[k] !in s[..k] && s[k] in mem && SameData(mem0[s[k]], mem[s[k]])
  {
    assert Linked(mem0, s, cur);
    assert LinkedAt(mem0, s, cur, k);
    NotEarlier(s, k);
  }

  lemma NotEarlier(s: seq<nat>, k: nat)
    requires Distinct(s) && k < |s|
    ensures s[k] !in s[..k]
  {
  }

  lemma ProgressOne(mem0: Store, slots0: seq<seq<nat>>, cur: nat, s: seq<nat>, k: nat,
                    mem: Store, slots: seq<seq<nat>>, mem': Store, slots': seq<seq<nat>>)
    requires k < |s| && Progress(mem0, slots0, cur, s[..k], mem, slots)
    requires s[k] in mem0 && s[k] !in s[..k] && s[k] in mem && s[k] in mem'
    requires OnlyChanges(mem, mem', s[k])
    requires forall x :: x != s[k] ==> (InWheel(slots', x) <==> InWheel(slots, x))
    requires After(mem[s[k]], mem'[s[k]], InWheel(slots', s[k]), cur)
    ensures Progress(mem0, slots0, cur, s[..k+1], mem', slots')
  {
    ProgressStep(mem0, slots0, cur, s[..k], s[k], mem, slots, mem', slots');
    assert s[..k+1] == s[..k] + [s[k]];
  }

  lemma FiredNext(mem0: Store, s: seq<nat>, k: nat, fired: seq<nat>)
    requires k < |s| && FiredOf(mem0, s[..k], fired) && s[k] in mem0 && s[k] !in s[..k]
    ensures FiredOf(mem0, s[..k+1], if mem0[s[k]].rotation == 0 then fired + [s[k]] else fired)
  {
    assert s[..k+1] == s[..k] + [s[k]];
  }

  lemma WheelKnown(mem: Store, heads: seq<Option<nat>>, slots: seq<seq<nat>>)
    requires WheelOK(mem, heads, slots)
    ensures forall x :: InWheel(slots, x) ==> x in mem
  {
    forall x | InWheel(slots, x) ensures x in mem { OwnSlot(mem, heads, slots, x); }
  }

  lemma AllTicked(mem0: Store, heads0: seq<Option<nat>>, slots0: seq<seq<nat>>, cur: nat, mem: Store, slots: seq<seq<nat>>, fired: seq<nat>)
    requires WheelOK(mem0, heads0, slots0) && cur < SLOTNUM && |slots0| == SLOTNUM
    requires Progress(mem0, slots0, cur, slots0[cur], mem, slots) && FiredOf(mem0, slots0[cur], fired)
    requires forall x :: InWheel(slots, x) ==> x in mem
    ensures mem.Keys == mem0.Keys && Distinct(fired) && forall x :: x in fired ==> InWheel(slots0, x)
    ensures fired == Due(mem0, slots0[cur])
    ensures forall x :: x in mem0 && InWheel(slots0, x) ==>
              Ticked(mem0[x], mem[x], InWheel(slots, x), x in fired, cur, (cur + 1) % SLOTNUM)
    ensures forall x :: InWheel(slots, x) ==> InWheel(slots0, x)
    ensures forall x :: x in mem0 && !InWheel(slots0, x) ==> !InWheel(slots, x) && SameData(mem0[x], mem[x])
  {
    hide After, Ticked, WheelOK, SameData;
    forall x | x in fired ensures InWheel(slots0, x) { }
    forall x | x in mem0 && InWheel(slots0, x)
      ensures Ticked(mem0[x], mem[x], InWheel(slots, x), x in fired, cur, (cur + 1) % SLOTNUM)
    {
      OwnSlot(mem0, heads0, slots0, x);
      if x in slots0[cur] {
        AfterTicked(mem0[x], mem[x], InWheel(slots, x), cur);
      } else {
        OthersTicked(mem0[x], mem[x], cur);
        NotFired(mem0[x], cur);
      }
    }
    forall x | InWheel(slots, x) ensures InWheel(slots0, x) {
      if x in slots0[cur] { assert InWheel(slots0, x); }
    }
  }

  lemma NotFired(a: Timer, cur: nat)
    requires cur < SLOTNUM && a.timeslot < SLOTNUM && a.timeslot != cur
    ensures Rem(a, cur) != 0
  {
  }

  // ------------------------------------------------------------ over many calls

  /** A timer r calls before it fires first fires in call i: once, or every so many ticks. */
  ghost predicate FiresIn(a: Timer, r: nat, i: nat) {
    if a.timertype == TIMER_ONCE then i == r else i >= r && (i - r) % Ticks(a.timeout) == 0
  }

  /** The countdown i calls after it was r. */
  ghost function Countdown(ticks: nat, r: nat, i: nat): nat
    requires ticks > 0
  {
    if i <= r then r - i else ticks - 1 - (i - r - 1) % ticks
  }

  lemma CountdownNext(ticks: nat, r: nat, i: nat)
    requires ticks > 0
    ensures Countdown(ticks, r, i + 1) == if Countdown(ticks, r, i) == 0 then ticks - 1 else Countdown(ticks, r, i) - 1
    ensures Countdown(ticks, r, i) == 0 <==> i >= r && (i - r) % ticks == 0
  {
    if i > r {
      NextRest(i - r - 1, ticks);
    } else if i == r {
      assert 0 % ticks == 0;
    }
  }

  lemma NextRest(x: nat, ticks: nat)
    requires ticks > 0
    ensures (x + 1) % ticks == if x % ticks == ticks - 1 then 0 else x % ticks + 1
  {
    var q, d := x / ticks, x % ticks;
    assert x == q * ticks + d;
    if d == ticks - 1 {
      assert x + 1 == (q + 1) * ticks;
      RestOf(q + 1, 0, ticks);
    } else {
      RestOf(q, d + 1, ticks);
    }
  }

  lemma RestOf(q: nat, d: nat, ticks: nat)
    requires d < ticks
    ensures (q * ticks + d) % ticks == d
  {
    var x := q * ticks + d;
    var p, e := x / ticks, x % ticks;
    assert p * ticks + e == x;
    assert (p - q) * ticks == d - e;
    if p > q {
      LargeProduct(p - q, ticks);
    } else if p < q {
      assert (q - p) * ticks == e - d;
      LargeProduct(q - p, ticks);
    }
  }

  lemma LargeProduct(k: nat, ticks: nat)
    requires k > 0
    ensures k * ticks >= ticks
  {
  }

  /** Timer b is timer a of the wheel, i calls later. */
  ghost predicate Counting(a: Timer, r: nat, i: nat, b: Timer, inWheel: bool, cur: nat) {
    && b.timeout == a.timeout && b.timertype == a.timertype
    && (inWheel <==> !(a.timertype == TIMER_ONCE && i > r))
    && (inWheel ==> Rem(b, cur) == Countdown(Ticks(a.timeout), r, i))
  }

  lemma CountingStep(a: Timer, r: nat, i: nat, b: Timer, inWheel: bool, cur: nat,
                     b': Timer, inWheel': bool, cur': nat, fired: bool)
    requires Counting(a, r, i, b, inWheel, cur)
    requires if inWheel then Ticked(b, b', inWheel', fired, cur, cur')
             else !fired && !inWheel' && b'.timeout == b.timeout && b'.timertype == b.timertype
    ensures fired <==> FiresIn(a, r, i)
    ensures Counting(a, r, i + 1, b', inWheel', cur')
  {
    CountdownNext(Ticks(a.timeout), r, i);
    hide Rem, Ticks;
  }

  /** What one timer of the wheel goes through in |fired| calls: its states before each call and
      after the last one, whether it is in the wheel, and whether each call fired it. */
  ghost predicate Watched(ts: seq<Timer>, inWheel: seq<bool>, cs: seq<nat>, fired: seq<bool>) {
    |ts| == |inWheel| == |cs| == |fired| + 1 && inWheel[0] &&
    forall i: nat, j: nat :: i < |fired| && j == i + 1 ==>
      if inWheel[i] then Ticked(ts[i], ts[j], inWheel[j], fired[i], cs[i], cs[j])
      else !fired[i] && !inWheel[j] && ts[j].timeout == ts[i].timeout && ts[j].timertype == ts[i].timertype
  }

  lemma {:induction false} StillCounting(ts: seq<Timer>, inWheel: seq<bool>, cs: seq<nat>, fired: seq<bool>, i: nat)
    requires Watched(ts, inWheel, cs, fired) && i <= |fired|
    ensures Counting(ts[0], Rem(ts[0], cs[0]), i, ts[i], inWheel[i], cs[i])
  {
    hide Rem, Ticks, Ticked;
    if i > 0 {
      var r, n: nat := Rem(ts[0], cs[0]), i - 1;
      StillCounting(ts, inWheel, cs, fired, n);
      CountingStep(ts[0], r, n, ts[n], inWheel[n], cs[n], ts[i], inWheel[i], cs[i], fired[n]);
    }
  }

  /** It fires in exactly the calls that its countdown tells, and a one-shot that has fired is out
      of the wheel. */
  lemma FiresOnTime(ts: seq<Timer>, inWheel: seq<bool>, cs: seq<nat>, fired: seq<bool>, i: nat)
    requires Watched(ts, inWheel, cs, fired) && i < |fired|
    ensures fired[i] <==> FiresIn(ts[0], Rem(ts[0], cs[0]), i)
    ensures inWheel[i+1] <==> !(ts[0].timertype == TIMER_ONCE && i >= Rem(ts[0], cs[0]))
  {
    hide Rem, Ticks, Ticked;
    var r, j: nat := Rem(ts[0], cs[0]), i + 1;
    StillCounting(ts, inWheel, cs, fired, i);
    CountingStep(ts[0], r, i, ts[i], inWheel[i], cs[i], ts[j], inWheel[j], cs[j], fired[i]);
  }

  /** A periodic timer that fires in one call fires again after exactly its number of ticks, and
      not before. */
  lemma PeriodicAgain(ts: seq<Timer>, inWheel: seq<bool>, cs: seq<nat>, fired: seq<bool>, i: nat, k: nat)
    requires Watched(ts, inWheel, cs, fired) && ts[0].timertype == TIMER_PERIOD && i < k < |fired| && fired[i]
    requires k <= i + Ticks(ts[0].timeout)
    ensures fired[k] <==> k == i + Ticks(ts[0].timeout)
  {
    hide Rem, Ticked;
    FiresOnTime(ts, inWheel, cs, fired, i);
    FiresOnTime(ts, inWheel, cs, fired, k);
    var r, ticks := Rem(ts[0], cs[0]), Ticks(ts[0].timeout);
    var q := (i - r) / ticks;
    assert i - r == q * ticks;
    if k < i + ticks {
      assert k - r == q * ticks + (k - i);
      RestOf(q, k - i, ticks);
    } else {
      assert k - r == (q + 1) * ticks;
      RestOf(q + 1, 0, ticks);
    }
  }

  /** Timer x after i calls, with nothing said about timers outside the wheel but that they stay there. */
  ghost predicate CountsFrom(mem0: Store, slots0: seq<seq<nat>>, cur0: nat, i: nat, mem: Store, slots: seq<seq<nat>>, cur: nat, x: nat) {
    x in mem && if x in mem0 && InWheel(slots0, x) then Counting(mem0[x], Rem(mem0[x], cur0), i, mem[x], InWheel(slots, x), cur)
                else !InWheel(slots, x)
  }

  ghost predicate FiresFrom(mem0: Store, slots0: seq<seq<nat>>, cur0: nat, i: nat, fired: seq<nat>, x: nat) {
    x in fired <==> x in mem0 && InWheel(slots0, x) && FiresIn(mem0[x], Rem(mem0[x], cur0), i)
  }

  lemma CallCounts(mem0: Store, slots0: seq<seq<nat>>, cur0: nat, i: nat, mem: Store, slots: seq<seq<nat>>, cur: nat,
                   mem': Store, slots': seq<seq<nat>>, cur': nat, fired: seq<nat>, x: nat)
    requires CountsFrom(mem0, slots0, cur0, i, mem, slots, cur, x) && x in mem'
    requires if InWheel(slots, x) then Ticked(mem[x], mem'[x], InWheel(slots', x), x in fired, cur, cur')
             else x !in fired && !InWheel(slots', x) && SameData(mem[x], mem'[x])
    ensures CountsFrom(mem0, slots0, cur0, i + 1, mem', slots', cur', x)
    ensures FiresFrom(mem0, slots0, cur0, i, fired, x)
  {
    hide InWheel, Ticked, FiresIn, Rem;
    if x in mem0 && InWheel(slots0, x) {
      CountingStep(mem0[x], Rem(mem0[x], cur0), i, mem[x], InWheel(slots, x), cur, mem'[x], InWheel(slots', x), cur', x in fired);
    }
  }

  ghost predicate AllCount(mem0: Store, slots0: seq<seq<nat>>, cur0: nat, i: nat, mem: Store, slots: seq<seq<nat>>, cur: nat) {
    mem.Keys == mem0.Keys && forall x :: x in mem0 ==> CountsFrom(mem0, slots0, cur0, i, mem, slots, cur, x)
  }

  ghost predicate AllFire(mem0: Store, slots0: seq<seq<nat>>, cur0: nat, i: nat, fired: seq<nat>) {
    forall x :: FiresFrom(mem0, slots0, cur0, i, fired, x)
  }

  lemma AllCallCount(mem0: Store, slots0: seq<seq<nat>>, cur0: nat, i: nat, mem: Store, slots: seq<seq<nat>>, cur: nat,
                     mem': Store, slots': seq<seq<nat>>, cur': nat, fired: seq<nat>)
    requires AllCount(mem0, slots0, cur0, i, mem, slots, cur) && mem'.Keys == mem.Keys
    requires forall x :: x in mem && InWheel(slots, x) ==> Ticked(mem[x], mem'[x], InWheel(slots', x), x in fired, cur, cur')
    requires forall x :: x in mem && !InWheel(slots, x) ==> !InWheel(slots', x) && SameData(mem[x], mem'[x])
    requires forall x :: x in fired ==> InWheel(slots, x)
    requires forall x :: InWheel(slots, x) ==> x in mem
    ensures AllCount(mem0, slots0, cur0, i + 1, mem', slots', cur') && AllFire(mem0, slots0, cur0, i, fired)
  {
    hide InWheel, Ticked, CountsFrom, FiresFrom, SameData;
    forall x ensures FiresFrom(mem0, slots0, cur0, i, fired, x) {
      if x in mem0 {
        CallCounts(mem0, slots0, cur0, i, mem, slots, cur, mem', slots', cur', fired, x);
      } else {
        UnknownNever(mem0, slots0, cur0, i, fired, x);
      }
    }
    forall x | x in mem0 ensures CountsFrom(mem0, slots0, cur0, i + 1, mem', slots', cur', x) {
      CallCounts(mem0, slots0, cur0, i, mem, slots, cur, mem', slots', cur', fired, x);
    }
  }

  /** n calls: the timers of the wheel fire in exactly the calls that their countdowns tell, and
      exactly the one-shots that have fired are gone. */
  method CheckTimers(m: TimerManager, n: nat) returns (fired: seq<seq<nat>>)
    requires m.Valid()
    modifies m
    ensures m.Valid() && |fired| == n
    ensures forall i: nat :: i < n ==> AllFire(old(m.timers), old(m.slots), old(m.currentslot), i, fired[i])
    ensures AllCount(old(m.timers), old(m.slots), old(m.currentslot), n, m.timers, m.slots, m.currentslot)
  {
    ghost var mem0, slots0, cur0 := m.timers, m.slots, m.currentslot;
    hide *;
    fired := [];
    CountsNow(mem0, slots0, cur0);
    for k := 0 to n
      invariant m.Valid() && |fired| == k
      invariant forall i: nat :: i < k ==> AllFire(mem0, slots0, cur0, i, fired[i])
      invariant AllCount(mem0, slots0, cur0, k, m.timers, m.slots, m.currentslot)
    {
      ghost var mem, slots, cur := m.timers, m.slots, m.currentslot;
      m.ValidFacts();
      WheelKnown(m.timers, m.timewheel, m.slots);
      var f := m.CheckTimer();
      AllCallCount(mem0, slots0, cur0, k, mem, slots, cur, m.timers, m.slots, m.currentslot, f);
      fired := fired + [f];
    }
  }

  /** A timer added with timeout n, or with n == 1 if its timeout is below 1: n calls pass, the next
      one fires it; and while a one-shot never fires again, a periodic timer fires in every n-th
      call from there on. */
  method AddAndCheck(m: TimerManager, t: nat, calls: nat) returns (fired: seq<seq<nat>>)
    requires m.Valid() && t in m.timers && !InWheel(m.slots, t)
    modifies m
    ensures m.Valid() && |fired| == calls
    ensures var timer := old(m.timers)[t];
            var n := if timer.timeout < 1 then 1 else timer.timeout;
            forall i: nat :: i < calls ==>
              (t in fired[i] <==> if timer.timertype == TIMER_ONCE then i == n else i > 0 && i % n == 0)
  {
    ghost var timer := m.timers[t];
    m.AddTimer(t);
    ghost var mem0, slots0, cur0 := m.timers, m.slots, m.currentslot;
    fired := CheckTimers(m, calls);
    hide *;
    forall i: nat | i < calls
      ensures t in fired[i] <==>
                var n := if timer.timeout < 1 then 1 else timer.timeout;
                if timer.timertype == TIMER_ONCE then i == n else i > 0 && i % n == 0
    {
      FiresAt(mem0, slots0, cur0, i, fired[i], t);
    }
  }

  lemma FiresAt(mem0: Store, slots0: seq<seq<nat>>, cur0: nat, i: nat, fired: seq<nat>, t: nat)
    requires t in mem0 && InWheel(slots0, t) && Rem(mem0[t], cur0) == Ticks(mem0[t].timeout)
    requires AllFire(mem0, slots0, cur0, i, fired)
    ensures t in fired <==>
              var n := if mem0[t].timeout < 1 then 1 else mem0[t].timeout;
              if mem0[t].timertype == TIMER_ONCE then i == n else i > 0 && i % n == 0
  {
    hide InWheel, Rem;
    assert FiresFrom(mem0, slots0, cur0, i, fired, t);
    var n := Ticks(mem0[t].timeout);
    if i >= n { OnePeriodLess(i, n); }
  }

  lemma OnePeriodLess(i: nat, n: nat)
    requires 0 < n <= i
    ensures (i - n) % n == i % n
  {
    assert i % n == i - i / n * n;
    assert i - n == (i / n - 1) * n + i % n;
    RestOf(i / n - 1, i % n, n);
  }

  lemma UnknownNever(mem0: Store, slots0: seq<seq<nat>>, cur0: nat, i: nat, fired: seq<nat>, x: nat)
    requires x !in mem0 && x !in fired
    ensures FiresFrom(mem0, slots0, cur0, i, fired, x)
  {
  }

  lemma CountsNow(mem: Store, slots: seq<seq<nat>>, cur: nat)
    ensures AllCount(mem, slots, cur, 0, mem, slots, cur)
  {
    hide InWheel, Rem;
  }
}
