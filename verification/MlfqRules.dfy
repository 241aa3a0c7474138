/** The rules of the multi-level feedback queue, as its rounds obey them. */
module MlfqRules {
  import opened Shared
  import opened Mlfq

  ghost predicate Precedes(s: seq<nat>, x: nat, y: nat) {
    exists i: nat, k: nat :: i < k < |s| && s[i] == x && s[k] == y
  }

  lemma InFront(s: seq<nat>, t: seq<nat>, x: nat, y: nat)
    ensures x in s && y in t ==> Precedes(s + t, x, y)
    ensures Precedes(s, x, y) || Precedes(t, x, y) ==> Precedes(s + t, x, y)
  {
    var u := s + t;
    if x in s && y in t {
      var i: nat :| i < |s| && s[i] == x;
      var k: nat :| k < |t| && t[k] == y;
      assert u[i] == x && u[|s| + k] == y;
    }
    if Precedes(s, x, y) {
      var i: nat, k: nat :| i < k < |s| && s[i] == x && s[k] == y;
      assert u[i] == x && u[k] == y;
    }
    if Precedes(t, x, y) {
      var i: nat, k: nat :| i < k < |t| && t[i] == x && t[k] == y;
      assert u[|s| + i] == x && u[|s| + k] == y;
    }
  }

  // ------------------------------------------------------------ the boost

  lemma {:induction false} FlatHas(queue: Queues, k: nat, x: nat)
    requires k <= |queue|
    ensures x in Flat(queue, k) <==> exists q: nat :: q < k && x in queue[q]
  {
    if k > 0 {
      FlatHas(queue, k - 1, x);
      if x in queue[k-1] { assert k - 1 < k; }
    }
  }

  lemma {:induction false} FlatOrder(queue: Queues, k: nat, q: nat, r: nat, x: nat, y: nat)
    requires q <= r < k <= |queue|
    ensures q < r && x in queue[q] && y in queue[r] ==> Precedes(Flat(queue, k), x, y)
    ensures q == r && Precedes(queue[q], x, y) ==> Precedes(Flat(queue, k), x, y)
  {
    var n: nat := k - 1;
    hide Precedes;
    InFront(Flat(queue, n), queue[n], x, y);
    if r < n {
      FlatOrder(queue, n, q, r, x, y);
    } else if q < r && x in queue[q] {
      FlatHas(queue, n, x);
    }
  }

  /** Every `boost` ticks all queued jobs are in the highest queue: those that were there in front, behind them
      those of the lower queues from the lowest up, each queue in its order. */
  lemma BoostRule(p: Options, s: Snapshot)
    requires |s.queue| == |p.quantum| > 0 && BoostTime(p, s.time)
    ensures var a, hi := Raised(p, s), |p.quantum| - 1;
      && |a.queue| == |s.queue| && s.queue[hi] <= a.queue[hi]
      && (forall q: nat :: q < hi ==> a.queue[q] == [])
      && (forall x: nat :: x in a.queue[hi] <==> exists q: nat :: q <= hi && x in s.queue[q])
      && (forall q: nat, r: nat, x: nat, y: nat :: q < r < hi && x in s.queue[q] && y in s.queue[r] ==> Precedes(a.queue[hi], x, y))
      && (forall q: nat, x: nat, y: nat :: q <= hi && Precedes(s.queue[q], x, y) ==> Precedes(a.queue[hi], x, y))
  {
    var a, hi: nat := Raised(p, s), |p.quantum| - 1;
    hide Flat, Boosted;
    assert a.queue[hi] == s.queue[hi] + Flat(s.queue, hi);
    hide Precedes;
    forall x: nat ensures x in a.queue[hi] <==> exists q: nat :: q <= hi && x in s.queue[q] {
      FlatHas(s.queue, hi, x);
      if q: nat :| q <= hi && x in s.queue[q] { assert q < hi ==> x in Flat(s.queue, hi); }
    }
    forall q: nat, r: nat, x: nat, y: nat | q < r < hi && x in s.queue[q] && y in s.queue[r] ensures Precedes(a.queue[hi], x, y) {
      FlatOrder(s.queue, hi, q, r, x, y);
      InFront(s.queue[hi], Flat(s.queue, hi), x, y);
    }
    forall q: nat, x: nat, y: nat | q <= hi && Precedes(s.queue[q], x, y) ensures Precedes(a.queue[hi], x, y) {
      if q < hi { FlatOrder(s.queue, hi, q, q, x, y); }
      InFront(s.queue[hi], Flat(s.queue, hi), x, y);
    }
  }

  /** ... and every unfinished job, queued or not, has the highest priority and its whole quantum. */
  lemma BoostJobs(p: Options, s: Snapshot, j: nat)
    requires |s.queue| == |p.quantum| > 0 && j < |s.job|
    ensures |Raised(p, s).job| == |s.job|
    ensures var hi, b, c := |p.quantum| - 1, s.job[j], Raised(p, s).job[j];
      && c.timeLeft == b.timeLeft && c.startTime == b.startTime && c.runTime == b.runTime && c.ioFreq == b.ioFreq && c.doingIO == b.doingIO
      && if BoostTime(p, s.time) && b.timeLeft > 0 then c.currPri == hi && c.ticksLeft == p.quantum[hi]
         else c.currPri == b.currPri && c.ticksLeft == b.ticksLeft
    ensures !BoostTime(p, s.time) ==> Raised(p, s) == s
  {
  }

  // ------------------------------------------------------------ arrivals

  lemma {:induction false} OfHas(job: seq<Job>, list: seq<nat>, q: nat, front: bool, x: nat)
    ensures x in Of(job, list, q, front) <==> x in list && x < |job| && job[x].currPri == q
  {
    if list != [] {
      var n := |list| - 1;
      OfHas(job, list[..n], q, front, x);
      assert list == list[..n] + [list[n]];
    }
  }

  lemma {:induction false} OfOrder(job: seq<Job>, list: seq<nat>, q: nat, front: bool, x: nat, y: nat)
    requires Precedes(list, x, y) && x < |job| && y < |job| && job[x].currPri == q && job[y].currPri == q
    ensures if front then Precedes(Of(job, list, q, front), y, x) else Precedes(Of(job, list, q, front), x, y)
  {
    var n := |list| - 1;
    var before, rest := list[..n], Of(job, list[..n], q, front);
    var one := if list[n] < |job| && job[list[n]].currPri == q then [list[n]] else [];
    var i: nat, k: nat :| i < k < |list| && list[i] == x && list[k] == y;
    assert before[i] == x;
    OfHas(job, before, q, front, x);
    if k < n {
      assert before[k] == y;
      OfOrder(job, before, q, front, x, y);
    } else {
      assert one == [y] && y in one;
    }
    hide Precedes, Of;
    InFront(one, rest, y, x);
    InFront(rest, one, x, y);
  }

  /** The jobs whose event is now join the queue of their priority, behind those that are there and in the order of
      their events, or, with `iobump`, in front of them and in the reverse order; the others stay as they were. */
  lemma ArrivalRule(p: Options, a: Snapshot, q: nat)
    requires q < |a.queue|
    ensures |Arrived(p, a).queue| == |a.queue| && |Arrived(p, a).queue[q]| >= |a.queue[q]|
    ensures var now, was := Arrived(p, a).queue[q], a.queue[q];
      var fresh_ := if p.iobump then now[..|now|-|was|] else now[|was|..];
      && now == (if p.iobump then fresh_ + was else was + fresh_)
      && (forall x: nat :: x in fresh_ <==> x in DueNow(a) && x < |a.job| && a.job[x].currPri == q)
      && forall x: nat, y: nat :: Precedes(DueNow(a), x, y) && x in fresh_ && y in fresh_ ==>
           if p.iobump then Precedes(fresh_, y, x) else Precedes(fresh_, x, y)
  {
    var b, due := Arrived(p, a), DueNow(a);
    var of := Of(a.job, due, q, p.iobump);
    hide Of, Precedes, DueNow, Ready;
    assert b.queue[q] == if p.iobump then of + a.queue[q] else a.queue[q] + of;
    var n := |b.queue[q]| - |a.queue[q]|;
    assert of == if p.iobump then b.queue[q][..n] else b.queue[q][|a.queue[q]|..];
    forall x: nat ensures x in of <==> x in due && x < |a.job| && a.job[x].currPri == q { OfHas(a.job, due, q, p.iobump, x); }
    forall x: nat, y: nat | Precedes(due, x, y) && x in of && y in of
      ensures if p.iobump then Precedes(of, y, x) else Precedes(of, x, y)
    {
      OfOrder(a.job, due, q, p.iobump, x, y);
    }
  }

  lemma ArrivalJobs(p: Options, a: Snapshot, j: nat)
    requires j < |a.job|
    ensures |Arrived(p, a).job| == |a.job| && Arrived(p, a).ioDone == a.ioDone && Arrived(p, a).time == a.time
    ensures Arrived(p, a).job[j] == if j in DueNow(a) then a.job[j].(doingIO := false) else a.job[j]
  {
  }

  // ------------------------------------------------------------ the choice

  lemma {:induction false} TopRule(queue: Queues)
    ensures Top(queue) == -1 <==> forall q: nat :: q < |queue| ==> queue[q] == []
    ensures Top(queue) >= 0 ==> queue[Top(queue)] != [] && forall q: nat :: Top(queue) < q < |queue| ==> queue[q] == []
  {
    if queue != [] && queue[|queue|-1] == [] {
      var front := queue[..|queue|-1];
      TopRule(front);
      assert forall q: nat :: q < |front| ==> front[q] == queue[q];
    }
  }

  /** A round is idle exactly if no job is queued, and otherwise runs the job at the head of the highest queue that
      has one. */
  lemma ChoiceRule(p: Options, s: Snapshot)
    ensures var a := Prepared(p, s).queue;
      && (Chosen(p, s) == -1 <==> forall q: nat :: q < |a| ==> a[q] == [])
      && (Chosen(p, s) != -1 ==> exists q: nat :: q < |a| && a[q] != [] && Chosen(p, s) == a[q][0]
                                                  && forall r: nat :: q < r < |a| ==> a[r] == [])
  {
    var a := Prepared(p, s).queue;
    hide Prepared, Top;
    TopRule(a);
  }

  // ------------------------------------------------------------ the tick

  /** Job j of queue q runs in this round, in the state a. */
  ghost predicate RunsIn(p: Options, s: Snapshot, a: Snapshot, q: nat, j: nat) {
    && a == Prepared(p, s) && Works(p, s) && Chosen(p, s) == j && q == Top(a.queue)
    && j < |a.job| && q < |a.queue| == |p.quantum| && a.job[j].currPri == q && a.job[j].timeLeft > 0
    && a.queue[q] != [] && a.queue[q][0] == j
  }

  /** It issues I/O after every `ioFreq` ticks, unless it has finished. */
  ghost predicate Issues(b: Job) {
    b.timeLeft > 1 && b.ioFreq > 0 && (b.runTime - b.timeLeft + 1) % b.ioFreq == 0
  }

  /** The job that runs gets one tick; the others are as they were. */
  lemma TickJobs(p: Options, s: Snapshot, a: Snapshot, q: nat, j: nat)
    requires RunsIn(p, s, a, q, j)
    ensures |Next(p, s).job| == |a.job| && Next(p, s).time == a.time + 1
    ensures forall i: nat :: i < |a.job| && i != j ==> Next(p, s).job[i] == a.job[i]
    ensures var b, c := a.job[j], Next(p, s).job[j];
      && c.timeLeft == b.timeLeft - 1 && c.startTime == b.startTime && c.runTime == b.runTime && c.ioFreq == b.ioFreq
      && (c.doingIO <==> b.doingIO || Issues(b))
  {
  }

  /** A job whose ticks are used up goes down one level, if there is one, with the whole quantum of that level; a job
      that issues I/O keeps its level and, with `stay`, starts its quantum anew. */
  lemma TickLevel(p: Options, s: Snapshot, a: Snapshot, q: nat, j: nat)
    requires RunsIn(p, s, a, q, j)
    ensures |Next(p, s).job| == |a.job|
    ensures var b, c := a.job[j], Next(p, s).job[j];
      if b.timeLeft > 1 && b.ticksLeft == 1 then
        c.currPri == (if q == 0 then 0 else q - 1) && c.ticksLeft == p.quantum[c.currPri]
      else
        c.currPri == q && c.ticksLeft == if Issues(b) && p.stay then p.quantum[q] else b.ticksLeft - 1
  {
  }

  /** A job that finishes or issues I/O leaves its queue, in the second case until `ioTime` ticks after this one; a job
      whose ticks are used up goes to the end of the queue below; any other stays at the head. */
  lemma TickQueues(p: Options, s: Snapshot, a: Snapshot, q: nat, j: nat)
    requires RunsIn(p, s, a, q, j)
    ensures var b, n, rest, t, low := a.job[j], Next(p, s), a.queue[q][1..], a.time + 1 + p.ioTime, if q == 0 then 0 else q - 1;
      && n.queue == (if b.timeLeft == 1 || Issues(b) then a.queue[q := rest]
                     else if b.ticksLeft == 1 then
                       if low == q then a.queue[q := rest + [j]] else a.queue[q := rest][low := a.queue[low] + [j]]
                     else a.queue)
      && n.ioDone == if Issues(b) then a.ioDone[t := (if t in a.ioDone then a.ioDone[t] else []) + [j]] else a.ioDone
  {
  }

  lemma RunsSo(p: Options, s: Snapshot)
    requires Works(p, s) && Chosen(p, s) != -1
    ensures Chosen(p, s) >= 0 && Top(Prepared(p, s).queue) >= 0
    ensures RunsIn(p, s, Prepared(p, s), Top(Prepared(p, s).queue), Chosen(p, s))
  {
    hide Prepared;
    TopRule(Prepared(p, s).queue);
  }

  lemma IdleSo(p: Options, s: Snapshot)
    requires Chosen(p, s) == -1
    ensures Next(p, s) == Prepared(p, s).(time := Prepared(p, s).time + 1)
  {
  }

  // ------------------------------------------------------------ whole runs

  /** What ran in round t is what that round chose. */
  lemma {:induction false} ScheduleAt(p: Options, s: Snapshot, n: nat, t: nat)
    requires t < n
    ensures Schedule(p, s, n)[t] == Chosen(p, Rounds(p, s, t))
  {
    hide *;
    var m: nat := n - 1;
    OneMoreRound(p, s, m);
    if t < m { ScheduleAt(p, s, m, t); }
  }

  lemma {:induction false} TimeAt(p: Options, s: Snapshot, n: nat)
    ensures Rounds(p, s, n).time == s.time + n && |Rounds(p, s, n).job| == |s.job|
  {
    hide *;
    if n > 0 {
      var m: nat := n - 1;
      TimeAt(p, s, m);
      NextTime(p, Rounds(p, s, m));
      OneMoreRound(p, s, m);
    } else {
      NoRounds(p, s);
    }
  }

  lemma NextTime(p: Options, s: Snapshot)
    ensures Next(p, s).time == s.time + 1 && |Next(p, s).job| == |s.job|
    ensures Prepared(p, s).time == s.time && |Prepared(p, s).job| == |s.job|
  {
  }

  /** Job j runs in round t at level q. */
  ghost predicate RunsAt(p: Options, s: Snapshot, t: nat, j: nat, q: nat) {
    Chosen(p, Rounds(p, s, t)) == j && Top(Prepared(p, Rounds(p, s, t)).queue) == q
  }

  /** How many of the rounds from `from` on, up to t, job j has run at level q. */
  ghost function Used(p: Options, s: Snapshot, from: nat, t: nat, j: nat, q: nat): nat {
    if t <= from then 0 else Used(p, s, from, t - 1, j, q) + if RunsAt(p, s, t - 1, j, q) then 1 else 0
  }

  /** The job has not used more of its quantum than there is. */
  ghost predicate HasQuantum(p: Options, b: Job) {
    b.currPri < |p.quantum| && 0 <= b.ticksLeft <= p.quantum[b.currPri] && (b.timeLeft > 0 ==> b.ticksLeft >= 1)
  }

  /** The accounts of job j: at its level the ticks used and those left make up the quantum at most, below it none is used. */
  ghost predicate Accounts(p: Options, s: Snapshot, from: nat, t: nat, j: nat, b: Job) {
    && HasQuantum(p, b)
    && (b.currPri > 0 ==> Used(p, s, from, t, j, b.currPri) + b.ticksLeft <= p.quantum[b.currPri])
    && (forall q: nat :: q < b.currPri ==> Used(p, s, from, t, j, q) == 0)
    && forall q: nat :: b.currPri < q < |p.quantum| ==> Used(p, s, from, t, j, q) <= p.quantum[q]
  }

  lemma UsedMore(p: Options, s: Snapshot, from: nat, t: nat, j: nat, q: nat)
    requires from <= t
    ensures Used(p, s, from, t + 1, j, q) == Used(p, s, from, t, j, q) + if RunsAt(p, s, t, j, q) then 1 else 0
  {
  }

  /** Outside of boosts a round prepares a job without changing its accounts. */
  lemma PreparedJob(p: Options, s: Snapshot, j: nat)
    requires j < |s.job| && p.quantum != []
    ensures |Prepared(p, s).job| == |s.job|
    ensures var b, c := s.job[j], Prepared(p, s).job[j];
      && c.timeLeft == b.timeLeft
      && (!BoostTime(p, s.time) || b.timeLeft <= 0 || |s.queue| != |p.quantum| ==> c.currPri == b.currPri && c.ticksLeft == b.ticksLeft)
      && (BoostTime(p, s.time) && b.timeLeft > 0 && |s.queue| == |p.quantum| ==>
            c.currPri == |p.quantum| - 1 && c.ticksLeft == p.quantum[|p.quantum|-1])
  {
  }

  lemma SameAccounts(p: Options, s: Snapshot, from: nat, t: nat, j: nat, b: Job, c: Job)
    requires Accounts(p, s, from, t, j, b) && c.timeLeft == b.timeLeft && c.currPri == b.currPri && c.ticksLeft == b.ticksLeft
    ensures Accounts(p, s, from, t, j, c)
  {
    hide Used;
  }

  /** Without `stay` a tick keeps the accounts. */
  lemma TickAccounts(p: Options, s: Snapshot, from: nat, t: nat, j: nat)
    requires from <= t && !p.stay && Positive(p.quantum) && Works(p, Rounds(p, s, t))
    requires j < |Prepared(p, Rounds(p, s, t)).job| && Accounts(p, s, from, t, j, Prepared(p, Rounds(p, s, t)).job[j])
    ensures j < |Rounds(p, s, t + 1).job| && Accounts(p, s, from, t + 1, j, Rounds(p, s, t + 1).job[j])
  {
    hide Used, Prepared, Rounds, Works, Next;
    var r := Rounds(p, s, t);
    var a := Prepared(p, r);
    var b := a.job[j];
    OneMoreRound(p, s, t);
    NextTime(p, r);
    var t1: nat, d := t + 1, Rounds(p, s, t + 1).job[j];
    forall q: nat ensures Used(p, s, from, t1, j, q) == Used(p, s, from, t, j, q) + if RunsAt(p, s, t, j, q) then 1 else 0 {
      UsedMore(p, s, from, t, j, q);
    }
    if Chosen(p, r) == -1 {
      IdleSo(p, r);
      assert d == b;
    } else {
      RunsSo(p, r);
      var q: nat, i: nat := Top(a.queue), Chosen(p, r);
      TickJobs(p, r, a, q, i);
      if i == j { TickLevel(p, r, a, q, i); } else { assert d == b; }
    }
    assert Accounts(p, s, from, t1, j, d);
  }

  /** Between two boosts, and without `stay`, no job runs for more than its quantum at any level but the lowest,
      however often it gives up the processor. */
  lemma {:induction false} Allotment(p: Options, s: Snapshot, from: nat, t: nat, j: nat)
    requires from < t && !p.stay && p.quantum != [] && Positive(p.quantum) && j < |s.job|
    requires forall u: nat :: from <= u < t ==> Works(p, Rounds(p, s, u))
    requires forall u: nat :: from < u < t ==> !BoostTime(p, Rounds(p, s, u).time)
    requires BeginsWith(p, Prepared(p, Rounds(p, s, from)), j)
    ensures j < |Rounds(p, s, t).job| && Accounts(p, s, from, t, j, Rounds(p, s, t).job[j])
    ensures forall q: nat :: 0 < q < |p.quantum| ==> Used(p, s, from, t, j, q) <= p.quantum[q]
  {
    hide Used, Prepared, Rounds, Works;
    var n: nat := t - 1;
    TimeAt(p, s, n);
    PreparedJob(p, Rounds(p, s, n), j);
    if n == from {
      NothingUsed(p, s, from, j);
    } else {
      assert !BoostTime(p, Rounds(p, s, n).time);
      Allotment(p, s, from, n, j);
      SameAccounts(p, s, from, n, j, Rounds(p, s, n).job[j], Prepared(p, Rounds(p, s, n)).job[j]);
    }
    TickAccounts(p, s, from, n, j);
  }

  ghost predicate BeginsWith(p: Options, a: Snapshot, j: nat) {
    j < |a.job| && HasQuantum(p, a.job[j])
  }

  lemma NothingUsed(p: Options, s: Snapshot, from: nat, j: nat)
    ensures forall q: nat :: Used(p, s, from, from, j, q) == 0
  {
  }

  // ------------------------------------------------------------ a run with a boost

  /** Two queues of quantum 1 and a boost every 3 ticks. */
  ghost function TwoQueues(ioTime: nat, stay: bool, iobump: bool): Options {
    Options([1, 1], 3, ioTime, stay, iobump)
  }

  /** A job without I/O. */
  ghost function Plain(pri: nat, ticks: int, start: nat, run: nat, left: int): Job {
    Job(pri, ticks, start, run, left, 0, false)
  }

  ghost function Pair(q0: seq<nat>, q1: seq<nat>, a: Job, b: Job, time: nat): Snapshot {
    Snapshot([q0, q1], [a, b], map[0 := [0], 3 := [1]], time)
  }

  /** The round at time t, once it is known what the boost and the arrivals make of the queues. */
  lemma RoundIs(p: Options, s: Snapshot, a: Snapshot, q: nat, n: Snapshot)
    requires Prepared(p, s) == a && |a.queue| == |p.quantum| == 2 && q < 2 && a.queue[q] != [] && (q == 0 ==> a.queue[1] == [])
    requires a.queue[q][0] < |a.job| && a.job[a.queue[q][0]].currPri == q
    requires var b := a.job[a.queue[q][0]];
      n == Snapshot(QueuesAfter(a.queue, q, b), a.job[a.queue[q][0] := Ran(b, p.quantum, p.stay)],
                    EventsAfter(a.ioDone, b, a.queue[q][0], a.time + 1 + p.ioTime), a.time + 1)
    ensures Next(p, s) == n && Chosen(p, s) == a.queue[q][0]
  {
    hide Prepared, QueuesAfter, Ran, EventsAfter, Top;
    TopIs(a.queue, q);
  }

  lemma OfNone(job: seq<Job>, q: nat, front: bool)
    ensures Of(job, [], q, front) == []
  {
  }

  lemma OfOne(job: seq<Job>, j: nat, q: nat, front: bool)
    requires j < |job|
    ensures Of(job, [j], q, front) == if job[j].currPri == q then [j] else []
  {
    assert [j][..0] == [];
    OfNone(job, q, front);
  }

  /** Without boost and events nothing changes before the choice. */
  lemma Quiet(p: Options, s: Snapshot)
    requires |s.queue| == |p.quantum| == 2 && !BoostTime(p, s.time) && s.time !in s.ioDone
    ensures Prepared(p, s) == s
  {
    assert DueNow(s) == [];
    var b := Arrived(p, s);
    forall q: nat | q < 2 ensures b.queue[q] == s.queue[q] {
      OfNone(s.job, q, p.iobump);
      assert s.queue[q] + [] == s.queue[q] && [] + s.queue[q] == s.queue[q];
    }
    assert b.queue == s.queue;
    assert b.job == s.job;
  }

  /** One job comes in, into the highest of two queues. */
  lemma Comes(p: Options, r: Snapshot, a: Snapshot, j: nat, high: seq<nat>)
    requires |r.queue| == 2 && j < |r.job| && r.job[j].currPri == 1 && !r.job[j].doingIO && DueNow(r) == [j]
    requires high == if p.iobump then [j] + r.queue[1] else r.queue[1] + [j]
    requires a == r.(queue := [r.queue[0], high])
    ensures Arrived(p, r) == a
  {
    var b := Arrived(p, r);
    OfOne(r.job, j, 0, p.iobump);
    OfOne(r.job, j, 1, p.iobump);
    assert r.queue[0] + [] == r.queue[0] && [] + r.queue[0] == r.queue[0];
    assert b.queue == a.queue;
    assert b.job == a.job;
  }

  /** In a queue of its own, a job without I/O whose quantum of 1 is used up goes to the lower queue. */
  lemma GoesDown(p: Options, s: Snapshot, a: Snapshot, j: nat, n: Snapshot)
    requires p.quantum == [1, 1] && Prepared(p, s) == a && a.queue in {[[j], []], [[], [j]]} && j < |a.job|
    requires var b := a.job[j];
      && b.currPri == (if a.queue[1] == [] then 0 else 1) && b.timeLeft > 1 && b.ticksLeft == 1 && b.ioFreq == 0 && !b.doingIO
      && n == Snapshot([[j], []], a.job[j := b.(timeLeft := b.timeLeft - 1, currPri := 0)], a.ioDone, a.time + 1)
    ensures Next(p, s) == n && Chosen(p, s) == j
  {
    var q: nat := if a.queue[1] == [] then 0 else 1;
    hide Prepared;
    assert [j][1..] == [] && [] + [j] == [j];
    assert QueuesAfter(a.queue, q, a.job[j]) == n.queue;
    assert Ran(a.job[j], p.quantum, p.stay) == n.job[j];
    RoundIs(p, s, a, q, n);
  }

  /** A job at the head of the higher queue finishes. */
  lemma Finishes(p: Options, s: Snapshot, a: Snapshot, j: nat, rest: seq<nat>, n: Snapshot)
    requires p.quantum == [1, 1] && Prepared(p, s) == a && j < |a.job|
    requires a.queue == (if a.job[j].currPri == 1 then [[], [j] + rest] else [[j] + rest, []])
    requires var b := a.job[j];
      && b.currPri < 2 && b.timeLeft == 1 && b.ioFreq == 0 && !b.doingIO
      && n == Snapshot(if b.currPri == 1 then [[], rest] else [rest, []], a.job[j := b.(timeLeft := 0, ticksLeft := b.ticksLeft - 1)],
                       a.ioDone, a.time + 1)
    ensures Next(p, s) == n && Chosen(p, s) == j
  {
    var q: nat := a.job[j].currPri;
    hide Prepared;
    assert ([j] + rest)[1..] == rest;
    assert QueuesAfter(a.queue, q, a.job[j]) == n.queue;
    assert Ran(a.job[j], p.quantum, p.stay) == n.job[j];
    RoundIs(p, s, a, q, n);
  }

  /** Jobs A (start 0, 4 ticks) and C (start 3, 2 ticks): A is lowered after its first tick ... */
  lemma FirstRounds(p: Options, s: Snapshot)
    requires p == TwoQueues(p.ioTime, p.stay, false)
    requires s == Pair([], [], Plain(1, 1, 0, 4, 4), Plain(1, 1, 3, 2, 2), 0)
    ensures Rounds(p, s, 3) == Pair([0], [], Plain(0, 1, 0, 4, 1), Plain(1, 1, 3, 2, 2), 3) && Schedule(p, s, 3) == [0, 0, 0]
    ensures Waits(p, s, 0) && Waits(p, s, 1) && Waits(p, s, 2) && Waits(p, s, 3)
  {
    var c := Plain(1, 1, 3, 2, 2);
    var s1, s2, s3 := Pair([0], [], Plain(0, 1, 0, 4, 3), c, 1), Pair([0], [], Plain(0, 1, 0, 4, 2), c, 2), Pair([0], [], Plain(0, 1, 0, 4, 1), c, 3);
    var a := Pair([], [0], Plain(1, 1, 0, 4, 4), c, 0);
    assert [] + [0] == [0];
    assert Prepared(p, s) == a by { Comes(p, s, a, 0, [0]); }
    Quiet(p, s1);
    Quiet(p, s2);
    hide Prepared, Next, Chosen, Rounds, Schedule, TwoQueues;
    assert p.quantum == [1, 1];
    GoesDown(p, s, a, 0, s1);
    GoesDown(p, s1, s1, 0, s2);
    GoesDown(p, s2, s2, 0, s3);
    ThreeRounds(p, s, s1, s2, s3, 0, 0, 0);
  }

  lemma ThreeRounds(p: Options, s: Snapshot, s1: Snapshot, s2: Snapshot, s3: Snapshot, x: int, y: int, z: int)
    requires Next(p, s) == s1 && Next(p, s1) == s2 && Next(p, s2) == s3
    requires Chosen(p, s) == x && Chosen(p, s1) == y && Chosen(p, s2) == z
    ensures Rounds(p, s, 0) == s && Rounds(p, s, 1) == s1 && Rounds(p, s, 2) == s2 && Rounds(p, s, 3) == s3
    ensures Schedule(p, s, 3) == [x, y, z]
  {
    hide *;
    NoRounds(p, s);
    OneMoreRound(p, s, 0);
    OneMoreRound(p, s, 1);
    OneMoreRound(p, s, 2);
    assert [] + [x] + [y] + [z] == [x, y, z];
  }

  /** Job C has not finished after k rounds. */
  ghost predicate Waits(p: Options, s: Snapshot, k: nat) {
    |Rounds(p, s, k).job| == 2 && Rounds(p, s, k).job[1].timeLeft > 0
  }

  lemma BoostAtThree(p: Options, r: Snapshot)
    requires p == TwoQueues(p.ioTime, p.stay, false)
    requires r == Pair([0], [], Plain(0, 1, 0, 4, 1), Plain(1, 1, 3, 2, 2), 3)
    ensures Prepared(p, r) == Pair([], [0, 1], Plain(1, 1, 0, 4, 1), Plain(1, 1, 3, 2, 2), 3)
  {
    var b := Pair([], [0], Plain(1, 1, 0, 4, 1), Plain(1, 1, 3, 2, 2), 3);
    var f := Raised(p, r);
    assert Flat(r.queue, 1) == [0] by { assert Flat(r.queue, 0) == []; }
    assert f.queue == b.queue;
    assert f.job == b.job;
    assert [0] + [1] == [0, 1];
    Comes(p, b, Pair([], [0, 1], Plain(1, 1, 0, 4, 1), Plain(1, 1, 3, 2, 2), 3), 1, [0, 1]);
  }

  /** ... the boost at time 3 brings A back in front of C, and A finishes first. */
  lemma LastRounds(p: Options, r: Snapshot)
    requires p == TwoQueues(p.ioTime, p.stay, false)
    requires r == Pair([0], [], Plain(0, 1, 0, 4, 1), Plain(1, 1, 3, 2, 2), 3)
    ensures Rounds(p, r, 3).job == [Plain(1, 0, 0, 4, 0), Plain(0, 0, 3, 2, 0)] && Schedule(p, r, 3) == [0, 1, 1]
    ensures Waits(p, r, 1) && Waits(p, r, 2)
  {
    var a, s1 := Pair([], [0, 1], Plain(1, 1, 0, 4, 1), Plain(1, 1, 3, 2, 2), 3), Pair([], [1], Plain(1, 0, 0, 4, 0), Plain(1, 1, 3, 2, 2), 4);
    var s2, s3 := Pair([1], [], Plain(1, 0, 0, 4, 0), Plain(0, 1, 3, 2, 1), 5), Pair([], [], Plain(1, 0, 0, 4, 0), Plain(0, 0, 3, 2, 0), 6);
    BoostAtThree(p, r);
    Quiet(p, s1);
    Quiet(p, s2);
    hide Prepared, Next, Chosen, Rounds, Schedule, TwoQueues;
    assert p.quantum == [1, 1] && [0] + [1] == [0, 1] && [1] + [] == [1];
    Finishes(p, r, a, 0, [1], s1);
    GoesDown(p, s1, s1, 1, s2);
    Finishes(p, s2, s2, 1, [], s3);
    ThreeRounds(p, r, s1, s2, s3, 0, 1, 1);
  }

  lemma {:induction false} RoundsAdd(p: Options, s: Snapshot, m: nat, n: nat)
    ensures Rounds(p, s, m + n) == Rounds(p, Rounds(p, s, m), n)
    ensures Schedule(p, s, m + n) == Schedule(p, s, m) + Schedule(p, Rounds(p, s, m), n)
  {
    hide *;
    var r := Rounds(p, s, m);
    if n == 0 {
      NoRounds(p, r);
    } else {
      var k: nat := n - 1;
      RoundsAdd(p, s, m, k);
      OneMoreRound(p, s, m + k);
      OneMoreRound(p, r, k);
    }
  }

  lemma SixRounds(p: Options, s: Snapshot)
    requires p == TwoQueues(p.ioTime, p.stay, false)
    requires s == Pair([], [], Plain(1, 1, 0, 4, 4), Plain(1, 1, 3, 2, 2), 0)
    ensures AllFinished(Rounds(p, s, 6).job) && Schedule(p, s, 6) == [0, 0, 0, 0, 1, 1]
    ensures forall k: nat :: k < 6 ==> !AllFinished(Rounds(p, s, k).job)
  {
    hide *;
    FirstRounds(p, s);
    LastRounds(p, Rounds(p, s, 3));
    Join(p, s, 3, 3, [0, 0, 0], [0, 1, 1]);
    BothDone(Rounds(p, s, 6).job, Plain(1, 0, 0, 4, 0), Plain(0, 0, 3, 2, 0));
    assert [0, 0, 0] + [0, 1, 1] == [0, 0, 0, 0, 1, 1];
    WaitsLater(p, s, 3, 1);
    WaitsLater(p, s, 3, 2);
    forall k: nat | k < 6 ensures !AllFinished(Rounds(p, s, k).job) {
      WaitsStill(p, s, k);
    }
  }

  lemma Join(p: Options, s: Snapshot, m: nat, n: nat, a: seq<int>, b: seq<int>)
    requires Schedule(p, s, m) == a && Schedule(p, Rounds(p, s, m), n) == b
    ensures Schedule(p, s, m + n) == a + b && Rounds(p, s, m + n) == Rounds(p, Rounds(p, s, m), n)
  {
    hide *;
    RoundsAdd(p, s, m, n);
  }

  lemma WaitsLater(p: Options, s: Snapshot, m: nat, k: nat)
    requires Waits(p, Rounds(p, s, m), k)
    ensures Waits(p, s, m + k)
  {
    RoundsAdd(p, s, m, k);
  }

  lemma WaitsStill(p: Options, s: Snapshot, k: nat)
    ensures Waits(p, s, k) ==> !AllFinished(Rounds(p, s, k).job)
  {
  }

  lemma BothDone(job: seq<Job>, a: Job, c: Job)
    requires job == [a, c] && a == Plain(1, 0, 0, 4, 0) && c == Plain(0, 0, 3, 2, 0)
    ensures AllFinished(job)
  {
  }

  lemma BothStart(events: Events)
    requires StartEvents([(0, 4, 0), (3, 2, 0)], events)
    ensures events == map[0 := [0], 3 := [1]]
  {
    var l: seq<(nat, nat, int)> := [(0, 4, 0), (3, 2, 0)];
    assert l[..1] == [(0, 4, 0)] && l[..1][..0] == [];
    forall t: nat ensures Starting(l, t) == if t == 0 then [0] else if t == 3 then [1] else [] {
      assert Starting(l[..1][..0], t) == [];
      assert Starting(l[..1], t) == if t == 0 then [0] else [];
    }
    forall t: nat ensures t in events <==> t == 0 || t == 3 {}
  }

  /** What the constructor makes of these two jobs. */
  lemma BothGiven(list: seq<(nat, nat, int)>, p: Options, s: Snapshot, ioTime: nat, stay: bool)
    requires list == [(0, 4, 0), (3, 2, 0)] && p == Options([1, 1], 3, ioTime, stay, false)
    requires s.queue == seq(2, q => []) && s.time == 0 && StartEvents(list, s.ioDone) && |s.job| == |list|
    requires forall j :: 0 <= j < |list| ==> s.job[j] == FirstJob(list[j], p.quantum)
    ensures p == TwoQueues(ioTime, stay, false) && s == Pair([], [], Plain(1, 1, 0, 4, 4), Plain(1, 1, 3, 2, 2), 0)
    ensures AllNeedTime(s.job)
  {
    BothStart(s.ioDone);
    assert s.queue == [[], []];
    assert s.job == [Plain(1, 1, 0, 4, 4), Plain(1, 1, 3, 2, 2)];
  }

  /** The whole simulation of these two jobs: without the boost C would come in before A has finished. */
  method BoostRun(ioTime: nat, stay: bool) returns (ok: bool, endTime: nat, ghost trace: seq<int>)
    ensures ok && endTime == 6 && trace == [0, 0, 0, 0, 1, 1]
  {
    hide *;
    var m := new Scheduler([(0, 4, 0), (3, 2, 0)], [1, 1], 3, ioTime, stay, false);
    m.NowIs();
    m.GivenIs();
    ghost var p, s := m.Given(), m.Now();
    BothGiven([(0, 4, 0), (3, 2, 0)], p, s, ioTime, stay);
    SixRoundsOf(p, s, ioTime, stay);
    ok := m.Run();
    m.NowIs();
    endTime, trace := m.currTime, m.trace;
    assert [] + Schedule(p, s, 6) == Schedule(p, s, 6);
  }

  lemma SixRoundsOf(p: Options, s: Snapshot, ioTime: nat, stay: bool)
    requires p == TwoQueues(ioTime, stay, false)
    requires s == Pair([], [], Plain(1, 1, 0, 4, 4), Plain(1, 1, 3, 2, 2), 0)
    ensures AllFinished(Rounds(p, s, 6).job) && Schedule(p, s, 6) == [0, 0, 0, 0, 1, 1]
    ensures forall k: nat :: k < 6 ==> !AllFinished(Rounds(p, s, k).job)
  {
    assert p.ioTime == ioTime && p.stay == stay;
    hide *;
    SixRounds(p, s);
  }
}
