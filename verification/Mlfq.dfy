/** The multi-level feedback queue of `ostep9-mlfq.py`. */
module Mlfq {
  import opened Shared

  datatype Job = Job(currPri: nat, ticksLeft: int, startTime: nat, runTime: nat, timeLeft: int, ioFreq: int, doingIO: bool)

  /** Where a job is: in the queue of its priority, waiting for an event, or finished. */
  datatype Where = Queued | Pending(time: nat) | Done

  type Queues = seq<seq<nat>>
  type Events = map<nat, seq<nat>>

  /** The queue of a priority holds queued jobs of that priority, each once. */
  ghost predicate QueueAt(queue: Queues, job: seq<Job>, wh: seq<Where>, q: nat)
    requires q < |queue| && |job| == |wh|
  {
    Distinct(queue[q]) && forall j: nat :: j in queue[q] ==> j < |job| && wh[j] == Queued && job[j].currPri == q
  }

  ghost predicate InOne(queue: Queues, job: seq<Job>, wh: seq<Where>, j: nat)
    requires j < |job| == |wh|
  {
    wh[j] == Queued ==> job[j].currPri < |queue| && j in queue[job[j].currPri]
  }

  /** The queue of each priority holds exactly the queued jobs of that priority, each once. */
  ghost predicate QueuesOK(queue: Queues, job: seq<Job>, wh: seq<Where>) {
    && |job| == |wh|
    && (forall q: nat :: q < |queue| ==> QueueAt(queue, job, wh, q))
    && forall j: nat :: j < |job| ==> InOne(queue, job, wh, j)
  }

  ghost predicate EventAt(ioDone: Events, wh: seq<Where>, t: nat)
    requires t in ioDone
  {
    Distinct(ioDone[t]) && forall j: nat :: j in ioDone[t] ==> j < |wh| && wh[j] == Pending(t)
  }

  /** The events from now on are exactly those of the jobs that wait, one for each. */
  ghost predicate EventsOK(ioDone: Events, wh: seq<Where>, now: nat) {
    && (forall t: nat :: t in ioDone && t >= now ==> EventAt(ioDone, wh, t))
    && forall j: nat :: j < |wh| && wh[j].Pending? ==> wh[j].time >= now && wh[j].time in ioDone && j in ioDone[wh[j].time]
  }

  ghost predicate Positive(quantum: seq<int>) {
    forall q: nat :: q < |quantum| ==> quantum[q] >= 1
  }

  /** A job that has not finished has time left, unless it was given none, in which case it has never run. */
  ghost predicate JobOK(quantum: seq<int>, b: Job, w: Where) {
    && b.currPri < |quantum| && 0 <= b.timeLeft <= b.runTime
    && (w == Done ==> b.timeLeft == 0 < b.runTime)
    && (w != Done ==> b.timeLeft > 0 || (b.runTime == 0 && b.currPri == |quantum| - 1))
    && (w != Done ==> b.ticksLeft <= quantum[b.currPri] && (Positive(quantum) ==> b.ticksLeft >= 1))
    && (w == Queued ==> !b.doingIO)
  }

  ghost predicate JobsOK(quantum: seq<int>, job: seq<Job>, wh: seq<Where>) {
    |job| == |wh| && forall j: nat :: j < |job| ==> JobOK(quantum, job[j], wh[j])
  }

  // ------------------------------------------------------------ totals

  ghost function TotalLeft(job: seq<Job>): int {
    if job == [] then 0 else TotalLeft(job[..|job|-1]) + job[|job|-1].timeLeft
  }

  ghost function TotalRun(job: seq<Job>): int {
    if job == [] then 0 else TotalRun(job[..|job|-1]) + job[|job|-1].runTime
  }

  ghost function Finished(wh: seq<Where>): nat {
    if wh == [] then 0 else Finished(wh[..|wh|-1]) + if wh[|wh|-1] == Done then 1 else 0
  }

  lemma {:induction false} TotalsUpdate(job: seq<Job>, j: nat, b: Job)
    requires j < |job| && b.runTime == job[j].runTime
    ensures TotalLeft(job[j := b]) == TotalLeft(job) - job[j].timeLeft + b.timeLeft
    ensures TotalRun(job[j := b]) == TotalRun(job)
  {
    var n := |job| - 1;
    if j < n {
      TotalsUpdate(job[..n], j, b);
      assert job[j := b][..n] == job[..n][j := b];
    } else {
      assert job[j := b][..n] == job[..n];
    }
  }

  lemma {:induction false} SameTotals(job: seq<Job>, job': seq<Job>)
    requires |job| == |job'|
    requires forall j: nat :: j < |job| ==> job'[j].timeLeft == job[j].timeLeft && job'[j].runTime == job[j].runTime
    ensures TotalLeft(job') == TotalLeft(job) && TotalRun(job') == TotalRun(job)
  {
    if job != [] {
      SameTotals(job[..|job|-1], job'[..|job|-1]);
    }
  }

  lemma {:induction false} FinishedUpdate(wh: seq<Where>, j: nat, w: Where)
    requires j < |wh|
    ensures Finished(wh[j := w]) == Finished(wh) - (if wh[j] == Done then 1 else 0) + if w == Done then 1 else 0
  {
    var n := |wh| - 1;
    if j < n {
      FinishedUpdate(wh[..n], j, w);
      assert wh[j := w][..n] == wh[..n][j := w];
    } else {
      assert wh[j := w][..n] == wh[..n];
    }
  }

  lemma {:induction false} TotalNonnegative(quantum: seq<int>, job: seq<Job>, wh: seq<Where>)
    requires JobsOK(quantum, job, wh)
    ensures TotalLeft(job) >= 0
    ensures Finished(wh) <= |wh|
    ensures Finished(wh) == |wh| ==> TotalLeft(job) == 0 && forall j: nat :: j < |wh| ==> wh[j] == Done
    ensures Finished(wh) < |wh| ==> exists j: nat :: j < |wh| && wh[j] != Done
  {
    if job != [] {
      var n := |job| - 1;
      assert JobOK(quantum, job[n], wh[n]);
      forall j: nat | j < n ensures JobOK(quantum, job[..n][j], wh[..n][j]) { assert JobOK(quantum, job[j], wh[j]); }
      TotalNonnegative(quantum, job[..n], wh[..n]);
      if Finished(wh) < |wh| {
        if wh[n] == Done {
          var j: nat :| j < n && wh[..n][j] != Done;
          assert wh[j] != Done;
        }
      } else {
        forall j: nat | j < |wh| ensures wh[j] == Done { assert j < n ==> wh[..n][j] == Done; }
      }
    }
  }

  // ------------------------------------------------------------ moving one job

  /** A queued job leaves its queue from the front. */
  lemma LeaveFront(queue: Queues, job: seq<Job>, wh: seq<Where>, q: nat, b: Job, w: Where)
    requires QueuesOK(queue, job, wh) && q < |queue| && queue[q] != [] && w != Queued
    ensures queue[q][0] < |job| == |wh| && wh[queue[q][0]] == Queued && job[queue[q][0]].currPri == q
    ensures QueuesOK(queue[q := queue[q][1..]], job[queue[q][0] := b], wh[queue[q][0] := w])
  {
    var j := queue[q][0];
    assert j in queue[q] && QueueAt(queue, job, wh, q);
    var queue', job', wh' := queue[q := queue[q][1..]], job[j := b], wh[j := w];
    TailWithout(queue[q]);
    forall p: nat | p < |queue'| ensures QueueAt(queue', job', wh', p) {
      assert QueueAt(queue, job, wh, p);
      if p == q {
        assert queue'[p] == queue[q][1..];
      } else {
        assert queue'[p] == queue[p];
        assert j !in queue[p];
      }
    }
    forall i: nat | i < |job'| ensures InOne(queue', job', wh', i) { assert InOne(queue, job, wh, i); }
  }

  lemma TailWithout(s: seq<nat>)
    requires Distinct(s)
    ensures s != [] ==> Distinct(s[1..]) && s[0] !in s[1..] && forall x: nat :: x in s <==> x == s[0] || x in s[1..]
  {
    if s != [] {
      assert s == [s[0]] + s[1..];
      forall a, b | 0 <= a < b < |s[1..]| ensures s[1..][a] != s[1..][b] { assert s[a+1] != s[b+1]; }
    }
  }

  /** A job that is in no queue enters one, at either end. */
  lemma Enter(queue: Queues, job: seq<Job>, wh: seq<Where>, j: nat, b: Job, s: seq<nat>)
    requires QueuesOK(queue, job, wh) && j < |job| && wh[j] != Queued && b.currPri < |queue|
    requires s == queue[b.currPri] + [j] || s == [j] + queue[b.currPri]
    ensures QueuesOK(queue[b.currPri := s], job[j := b], wh[j := Queued])
  {
    var q := b.currPri;
    var queue', job', wh' := queue[q := s], job[j := b], wh[j := Queued];
    forall p: nat | p < |queue'| ensures QueueAt(queue', job', wh', p) {
      assert QueueAt(queue, job, wh, p);
      assert j !in queue[p];
      if p == q {
        forall i: nat | i in s ensures i == j || i in queue[p] {}
      }
    }
    forall i: nat | i < |job'| ensures InOne(queue', job', wh', i) { assert InOne(queue, job, wh, i); }
  }

  /** A job that waits for an event is entered in the table of events. */
  lemma NewEvent(ioDone: Events, wh: seq<Where>, now: nat, j: nat, t: nat)
    requires EventsOK(ioDone, wh, now) && j < |wh| && !wh[j].Pending? && t >= now
    ensures EventsOK(ioDone[t := (if t in ioDone then ioDone[t] else []) + [j]], wh[j := Pending(t)], now)
  {
    var s := if t in ioDone then ioDone[t] else [];
    var ioDone', wh' := ioDone[t := s + [j]], wh[j := Pending(t)];
    assert t in ioDone ==> EventAt(ioDone, wh, t);
    forall u: nat | u in ioDone' && u >= now ensures EventAt(ioDone', wh', u) {
      assert u != t ==> EventAt(ioDone, wh, u);
    }
  }

  lemma OtherPlace(ioDone: Events, wh: seq<Where>, now: nat, j: nat, w: Where)
    requires EventsOK(ioDone, wh, now) && j < |wh| && !wh[j].Pending? && !w.Pending?
    ensures EventsOK(ioDone, wh[j := w], now)
  {
    forall u: nat | u in ioDone && u >= now ensures EventAt(ioDone, wh[j := w], u) { assert EventAt(ioDone, wh, u); }
  }

  lemma Later(ioDone: Events, wh: seq<Where>, now: nat)
    requires EventsOK(ioDone, wh, now) && (now in ioDone ==> ioDone[now] == [])
    ensures EventsOK(ioDone, wh, now + 1)
  {
  }

  lemma JobUpdate(quantum: seq<int>, job: seq<Job>, wh: seq<Where>, j: nat, b: Job, w: Where)
    requires JobsOK(quantum, job, wh) && j < |job| && JobOK(quantum, b, w)
    ensures JobsOK(quantum, job[j := b], wh[j := w])
  {
  }

  // ------------------------------------------------------------ a boost

  /** The first `k` queues, one after the other. */
  ghost function Flat(queue: Queues, k: nat): seq<nat>
    requires k <= |queue|
  {
    if k == 0 then [] else Flat(queue, k - 1) + queue[k-1]
  }

  ghost function Boosted(b: Job, quantum: seq<int>): Job
    requires quantum != []
  {
    if b.timeLeft > 0 then b.(currPri := |quantum| - 1, ticksLeft := quantum[|quantum|-1]) else b
  }

  lemma {:induction false} FlatHolds(queue: Queues, job: seq<Job>, wh: seq<Where>, k: nat)
    requires QueuesOK(queue, job, wh) && k <= |queue|
    ensures Distinct(Flat(queue, k))
    ensures forall j: nat :: j in Flat(queue, k) <==> j < |job| && wh[j] == Queued && job[j].currPri < k
  {
    if k > 0 {
      FlatHolds(queue, job, wh, k - 1);
      assert QueueAt(queue, job, wh, k - 1);
      forall j: nat | j < |job| && wh[j] == Queued && job[j].currPri < k ensures j in Flat(queue, k) {
        assert InOne(queue, job, wh, j);
      }
      forall a, b | 0 <= a < |Flat(queue, k - 1)| <= b < |Flat(queue, k)| ensures Flat(queue, k)[a] != Flat(queue, k)[b] {
        var x, y := Flat(queue, k)[a], Flat(queue, k)[b];
        assert x in Flat(queue, k - 1) && y in queue[k-1];
      }
    }
  }

  /** A boost moves every queued job to the highest queue, and the invariants stand. */
  lemma BoostKeeps(queue: Queues, queue': Queues, job: seq<Job>, job': seq<Job>, wh: seq<Where>, quantum: seq<int>)
    requires QueuesOK(queue, job, wh) && JobsOK(quantum, job, wh) && |queue| == |queue'| == |quantum| > 0
    requires var hi := |queue| - 1; queue'[hi] == queue[hi] + Flat(queue, hi) && forall q: nat :: q < hi ==> queue'[q] == []
    requires |job'| == |job| && forall j: nat :: j < |job| ==> job'[j] == Boosted(job[j], quantum)
    ensures QueuesOK(queue', job', wh) && JobsOK(quantum, job', wh)
  {
    var hi := |queue| - 1;
    FlatHolds(queue, job, wh, hi);
    assert QueueAt(queue, job, wh, hi);
    forall j: nat | j < |job| ensures JobOK(quantum, job'[j], wh[j]) && (wh[j] == Queued ==> job'[j].currPri == hi) {
      assert JobOK(quantum, job[j], wh[j]);
    }
    forall q: nat | q < |queue'| ensures QueueAt(queue', job', wh, q) {
      if q == hi {
        forall j: nat | j in queue'[hi] ensures j < |job| && wh[j] == Queued { assert j in queue[hi] || j in Flat(queue, hi); }
        forall a, b | 0 <= a < |queue[hi]| <= b < |queue'[hi]| ensures queue'[hi][a] != queue'[hi][b] {
          assert queue'[hi][a] in queue[hi] && queue'[hi][b] in Flat(queue, hi);
        }
      }
    }
    forall j: nat | j < |job'| ensures InOne(queue', job', wh, j) { assert InOne(queue, job, wh, j); }
  }

  // ------------------------------------------------------------ arrivals

  /** The jobs of a list whose priority is `q`, in the order of the list or in its reverse. */
  ghost function Of(job: seq<Job>, list: seq<nat>, q: nat, front: bool): seq<nat> {
    if list == [] then []
    else
      var n := |list| - 1;
      var one := if list[n] < |job| && job[list[n]].currPri == q then [list[n]] else [];
      if front then one + Of(job, list[..n], q, front) else Of(job, list[..n], q, front) + one
  }

  ghost function Ready(job: seq<Job>, list: seq<nat>): seq<Job> {
    seq(|job|, (j: nat) requires j < |job| => if j in list then job[j].(doingIO := false) else job[j])
  }

  ghost function Awake(wh: seq<Where>, list: seq<nat>): seq<Where> {
    seq(|wh|, (j: nat) requires j < |wh| => if j in list then Queued else wh[j])
  }

  // ------------------------------------------------------------ one tick

  ghost predicate IssuesIO(b: Job) {
    var left := b.timeLeft - 1;
    left != 0 && b.ioFreq > 0 && (b.runTime - left) % b.ioFreq == 0
  }

  /** A job is moved down when its ticks run out before its time does. */
  ghost predicate Lowered(b: Job) {
    b.timeLeft != 1 && b.ticksLeft == 1
  }

  ghost function Below(q: nat): nat {
    if q > 0 then q - 1 else q
  }

  /** The job after it has run for one tick. */
  ghost function Ran(b: Job, quantum: seq<int>, stay: bool): Job
    requires b.currPri < |quantum|
  {
    b.(timeLeft := b.timeLeft - 1,
       currPri := if Lowered(b) then Below(b.currPri) else b.currPri,
       ticksLeft := if Lowered(b) then quantum[Below(b.currPri)]
                    else if IssuesIO(b) && stay then quantum[b.currPri] else b.ticksLeft - 1,
       doingIO := b.doingIO || IssuesIO(b))
  }

  /** The queues after the job at the front of queue `q` has run for one tick. */
  ghost function QueuesAfter(queue: Queues, q: nat, b: Job): Queues
    requires q < |queue| && queue[q] != []
  {
    var j := queue[q][0];
    var popped := queue[q := queue[q][1..]];
    if b.timeLeft == 1 || IssuesIO(b) then popped
    else if Lowered(b) then popped[Below(q) := popped[Below(q)] + [j]]
    else queue
  }

  ghost function PlaceAfter(b: Job, t: nat): Where {
    if b.timeLeft == 1 then Done else if IssuesIO(b) then Pending(t) else Queued
  }

  ghost function Count(trace: seq<int>, j: int): nat {
    if trace == [] then 0 else Count(trace[..|trace|-1], j) + if trace[|trace|-1] == j then 1 else 0
  }

  ghost predicate TraceOK(trace: seq<int>, job: seq<Job>) {
    && (forall j: nat :: j < |job| ==> Count(trace, j) == job[j].runTime - job[j].timeLeft)
    && Count(trace, -1) == |trace| - (TotalRun(job) - TotalLeft(job))
  }

  lemma Idle(trace: seq<int>, job: seq<Job>)
    requires TraceOK(trace, job)
    ensures TraceOK(trace + [-1], job)
  {
    assert (trace + [-1])[..|trace|] == trace;
  }

  lemma Ticked(trace: seq<int>, job: seq<Job>, j: nat, b: Job)
    requires TraceOK(trace, job) && j < |job| && b.runTime == job[j].runTime && b.timeLeft == job[j].timeLeft - 1
    ensures TraceOK(trace + [j as int], job[j := b])
  {
    var t := trace + [j as int];
    assert t[..|trace|] == trace;
    TotalsUpdate(job, j, b);
    forall i: nat | i < |job| ensures Count(t, i) == job[j := b][i].runTime - job[j := b][i].timeLeft {}
  }

  /** What one tick does to the job that runs, and to the queues. */
  lemma TickKeeps(queue: Queues, job: seq<Job>, wh: seq<Where>, quantum: seq<int>, stay: bool, q: nat, t: nat)
    requires QueuesOK(queue, job, wh) && JobsOK(quantum, job, wh) && |queue| == |quantum|
    requires q < |queue| && queue[q] != [] && queue[q][0] < |job| && job[queue[q][0]].timeLeft > 0
    ensures job[queue[q][0]].currPri == q
    ensures var j := queue[q][0]; var b := job[j]; var c := Ran(b, quantum, stay);
      && QueuesOK(QueuesAfter(queue, q, b), job[j := c], wh[j := PlaceAfter(b, t)])
      && JobsOK(quantum, job[j := c], wh[j := PlaceAfter(b, t)])
  {
    var j := queue[q][0];
    assert j in queue[q] && QueueAt(queue, job, wh, q) && JobOK(quantum, job[j], wh[j]);
    var b := job[j];
    var c := Ran(b, quantum, stay);
    assert JobOK(quantum, c, PlaceAfter(b, t)) by { assert Positive(quantum) ==> quantum[Below(q)] >= 1 && quantum[q] >= 1; }
    JobUpdate(quantum, job, wh, j, c, PlaceAfter(b, t));
    if b.timeLeft == 1 || IssuesIO(b) {
      LeaveFront(queue, job, wh, q, c, PlaceAfter(b, t));
    } else if Lowered(b) {
      LeaveFront(queue, job, wh, q, b, Done);
      var popped := queue[q := queue[q][1..]];
      Enter(popped, job[j := b], wh[j := Done], j, c, popped[Below(q)] + [j]);
      assert job[j := b][j := c] == job[j := c] && wh[j := Done][j := Queued] == wh[j := Queued];
    } else {
      SamePlace(queue, job, wh, j, c);
    }
  }

  lemma SamePlace(queue: Queues, job: seq<Job>, wh: seq<Where>, j: nat, c: Job)
    requires QueuesOK(queue, job, wh) && j < |job| && c.currPri == job[j].currPri && wh[j] == Queued
    ensures QueuesOK(queue, job[j := c], wh[j := Queued])
  {
    assert wh[j := Queued] == wh;
    var job' := job[j := c];
    forall q: nat | q < |queue| ensures QueueAt(queue, job', wh, q) { assert QueueAt(queue, job, wh, q); }
    forall i: nat | i < |job| ensures InOne(queue, job', wh, i) { assert InOne(queue, job, wh, i); }
  }

  lemma Wake(evs: Events, wh: seq<Where>, now: nat)
    requires EventsOK(evs, wh, now) && now in evs && evs[now] != []
    ensures evs[now][0] < |wh| && wh[evs[now][0]] == Pending(now)
    ensures EventsOK(evs[now := evs[now][1..]], wh[evs[now][0] := Queued], now)
  {
    var s := evs[now];
    var j := s[0];
    assert EventAt(evs, wh, now) && j in s;
    TailWithout(s);
    var evs', wh' := evs[now := s[1..]], wh[j := Queued];
    forall t: nat | t in evs' && t >= now ensures EventAt(evs', wh', t) { assert EventAt(evs, wh, t); }
  }

  /** A job comes in at the time of its event. */
  lemma WakeKeeps(queue: Queues, job: seq<Job>, wh: seq<Where>, quantum: seq<int>, j: nat, s: seq<nat>)
    requires QueuesOK(queue, job, wh) && JobsOK(quantum, job, wh) && |queue| == |quantum| && j < |job| && wh[j].Pending?
    requires job[j].currPri < |queue| ==> s == queue[job[j].currPri] + [j] || s == [j] + queue[job[j].currPri]
    ensures job[j].currPri < |queue|
    ensures QueuesOK(queue[job[j].currPri := s], job[j := job[j].(doingIO := false)], wh[j := Queued])
    ensures JobsOK(quantum, job[j := job[j].(doingIO := false)], wh[j := Queued])
  {
    var b := job[j].(doingIO := false);
    assert JobOK(quantum, job[j], wh[j]);
    assert JobOK(quantum, b, Queued);
    JobUpdate(quantum, job, wh, j, b, Queued);
    Enter(queue, job, wh, j, b, s);
  }

  // ------------------------------------------------------------ one round

  /** The options of the simulator. */
  datatype Options = Options(quantum: seq<int>, boost: int, ioTime: nat, stay: bool, iobump: bool)

  /** The state of the simulator between two rounds. */
  datatype Snapshot = Snapshot(queue: Queues, job: seq<Job>, ioDone: Events, time: nat)

  ghost predicate BoostTime(p: Options, t: nat) {
    p.boost > 0 && t != 0 && t % p.boost == 0
  }

  /** The state after the boost that is due, if one is. */
  ghost function Raised(p: Options, s: Snapshot): Snapshot {
    if p.quantum != [] && |s.queue| == |p.quantum| && BoostTime(p, s.time) then
      var hi := |p.quantum| - 1;
      s.(queue := seq(|s.queue|, (q: nat) requires q < |s.queue| => if q == hi then s.queue[hi] + Flat(s.queue, hi) else []),
         job := seq(|s.job|, (j: nat) requires j < |s.job| => Boosted(s.job[j], p.quantum)))
    else s
  }

  ghost function DueNow(s: Snapshot): seq<nat> {
    if s.time in s.ioDone then s.ioDone[s.time] else []
  }

  /** The state after the jobs whose event is now have come in. */
  ghost function Arrived(p: Options, s: Snapshot): Snapshot {
    s.(queue := seq(|s.queue|, (q: nat) requires q < |s.queue| =>
                      if p.iobump then Of(s.job, DueNow(s), q, true) + s.queue[q] else s.queue[q] + Of(s.job, DueNow(s), q, false)),
       job := Ready(s.job, DueNow(s)))
  }

  /** The highest queue that is not empty, or -1. */
  ghost function Top(queue: Queues): (q: int)
    ensures -1 <= q < |queue|
  {
    if queue == [] then -1
    else if queue[|queue|-1] != [] then |queue| - 1
    else Top(queue[..|queue|-1])
  }

  /** The state in which a round looks for a job to run. */
  ghost function Prepared(p: Options, s: Snapshot): Snapshot {
    Arrived(p, Raised(p, s))
  }

  /** The job that a round runs, or -1. */
  ghost function Chosen(p: Options, s: Snapshot): int {
    var a := Prepared(p, s);
    var q := Top(a.queue);
    if q >= 0 && a.queue[q] != [] then a.queue[q][0] else -1
  }

  /** The state after a round. */
  ghost function Next(p: Options, s: Snapshot): Snapshot {
    var a := Prepared(p, s);
    var q, j := Top(a.queue), Chosen(p, s);
    if 0 <= j < |a.job| && a.job[j].currPri == q < |p.quantum| && a.queue[q] != [] then
      var b := a.job[j];
      Snapshot(QueuesAfter(a.queue, q, b), a.job[j := Ran(b, p.quantum, p.stay)],
               EventsAfter(a.ioDone, b, j, a.time + 1 + p.ioTime), a.time + 1)
    else a.(time := a.time + 1)
  }

  /** The round is idle, or the job it runs is queued by its priority and has time left. */
  ghost predicate Works(p: Options, s: Snapshot) {
    var a, j := Prepared(p, s), Chosen(p, s);
    Chosen(p, s) == -1 || (0 <= j < |a.job| && |a.queue| == |p.quantum| && a.job[j].currPri == Top(a.queue) && a.job[j].timeLeft > 0)
  }

  /** The state after n rounds. */
  ghost function Rounds(p: Options, s: Snapshot, n: nat): Snapshot {
    if n == 0 then s else Next(p, Rounds(p, s, n - 1))
  }

  /** What runs in the first n rounds. */
  ghost function Schedule(p: Options, s: Snapshot, n: nat): (t: seq<int>)
    ensures |t| == n
  {
    if n == 0 then [] else Schedule(p, s, n - 1) + [Chosen(p, Rounds(p, s, n - 1))]
  }

  lemma {:induction false} TopIs(queue: Queues, q: int)
    requires -1 <= q < |queue| && (q >= 0 ==> queue[q] != []) && forall p: nat :: q < p < |queue| ==> queue[p] == []
    ensures Top(queue) == q
  {
    if queue != [] && queue[|queue|-1] == [] { TopIs(queue[..|queue|-1], q); }
  }

  ghost predicate StartsOK(job: seq<Job>, wh: seq<Where>, now: nat, trace: seq<int>) {
    && |job| == |wh| && |trace| == now
    && (forall j: nat :: j < |job| ==> if wh[j].Pending? then wh[j].time >= job[j].startTime else now >= job[j].startTime)
    && forall t: nat :: t < now && trace[t] >= 0 ==> trace[t] < |job| && t >= job[trace[t]].startTime
  }

  /** A job as it is read: start time, run time and I/O frequency. */
  ghost function FirstJob(e: (nat, nat, int), quantum: seq<int>): Job
    requires quantum != []
  {
    var hi := |quantum| - 1;
    Job(hi, quantum[hi], e.0, e.1, e.1, e.2, false)
  }

  /** The jobs that start at time t, in the order in which they are given. */
  ghost function Starting(list: seq<(nat, nat, int)>, t: nat): seq<nat> {
    if list == [] then []
    else
      var n := |list| - 1;
      Starting(list[..n], t) + if list[n].0 == t then [n] else []
  }

  ghost predicate StartEvents(list: seq<(nat, nat, int)>, events: Events) {
    forall t: nat :: (t in events <==> Starting(list, t) != []) && (t in events ==> events[t] == Starting(list, t))
  }

  lemma StartsOne(list: seq<(nat, nat, int)>, cnt: nat, events: Events)
    requires cnt < |list| && StartEvents(list[..cnt], events)
    ensures var t := list[cnt].0; StartEvents(list[..cnt+1], events[t := (if t in events then events[t] else []) + [cnt]])
  {
    assert list[..cnt+1][..cnt] == list[..cnt];
  }

  /** All jobs start in the highest queue, each at the event of its start time. */
  method ReadJobs(list: seq<(nat, nat, int)>, quantum: seq<int>) returns (jobs: seq<Job>, events: Events, ghost places: seq<Where>)
    requires quantum != []
    ensures |jobs| == |places| == |list|
    ensures forall j :: 0 <= j < |list| ==> jobs[j] == FirstJob(list[j], quantum) && places[j] == Pending(list[j].0)
    ensures EventsOK(events, places, 0) && TraceOK([], jobs) && Finished(places) == 0
    ensures StartEvents(list, events)
  {
    hide EventsOK, Starting;
    var hi := |quantum| - 1;
    jobs, events, places := [], map[], [];
    assert EventsOK(events, places, 0) && StartEvents(list[..0], events) by { NoEvents(); }
    hide StartEvents;
    var cnt: nat := 0;
    while cnt < |list|
      invariant cnt <= |list| && |jobs| == |places| == cnt
      invariant forall j :: 0 <= j < cnt ==> jobs[j] == FirstJob(list[j], quantum) && places[j] == Pending(list[j].0)
      invariant EventsOK(events, places, 0) && StartEvents(list[..cnt], events)
      invariant TraceOK([], jobs) && Finished(places) == 0
    {
      var (startTime, runTime, ioFreq) := list[cnt];
      var j := Job(hi, quantum[hi], startTime, runTime, runTime, ioFreq, false);
      OneMore(events, places, jobs, j);
      StartsOne(list, cnt, events);
      ghost var after := events[startTime := (if startTime in events then events[startTime] else []) + [cnt]];
      if startTime !in events {
        events := events[startTime := []];
      }
      events := events[startTime := events[startTime] + [cnt]];
      assert events == after;
      jobs := jobs + [j];
      places := places + [Pending(startTime)];
      cnt := cnt + 1;
    }
    assert list[..cnt] == list;
  }

  lemma NoEvents()
    ensures EventsOK(map[], [], 0) && StartEvents([], map[])
  {
  }

  lemma FirstOK(list: seq<(nat, nat, int)>, queue: Queues, job: seq<Job>, wh: seq<Where>, quantum: seq<int>)
    requires |job| == |wh| == |list| && |queue| == |quantum| > 0
    requires forall q: nat :: q < |queue| ==> queue[q] == []
    requires forall j :: 0 <= j < |list| ==> job[j] == FirstJob(list[j], quantum) && wh[j] == Pending(list[j].0)
    ensures QueuesOK(queue, job, wh) && JobsOK(quantum, job, wh) && StartsOK(job, wh, 0, [])
  {
  }

  class Scheduler {
    const quantum: seq<int>
    const boost: int
    const ioTime: nat
    const stay: bool
    const iobump: bool
    var queue: Queues
    var job: seq<Job>
    var ioDone: Events
    var currTime: nat
    var finishedJobs: nat
    /** Where each job is, and which job ran in each tick, -1 for none. */
    ghost var wh: seq<Where>
    ghost var trace: seq<int>

    ghost predicate Valid()
      reads this
    {
      && |queue| == |quantum| > 0
      && QueuesOK(queue, job, wh) && JobsOK(quantum, job, wh)
      && finishedJobs == Finished(wh)
      && TraceOK(trace, job) && StartsOK(job, wh, currTime, trace)
    }

    ghost function Now(): Snapshot
      reads this
    {
      Snapshot(queue, job, ioDone, currTime)
    }

    lemma NowIs()
      ensures Now() == Snapshot(queue, job, ioDone, currTime)
    {
    }

    ghost function Given(): Options {
      Options(quantum, boost, ioTime, stay, iobump)
    }

    lemma GivenIs()
      ensures Given() == Options(quantum, boost, ioTime, stay, iobump)
    {
    }

    constructor (list: seq<(nat, nat, int)>, quantum: seq<int>, boost: int, ioTime: nat, stay: bool, iobump: bool)
      requires quantum != []
      ensures Valid() && EventsOK(ioDone, wh, currTime) && finishedJobs == 0 && currTime == 0
      ensures |job| == |list|
      ensures forall j :: 0 <= j < |list| ==> job[j] == FirstJob(list[j], quantum) && wh[j] == Pending(list[j].0)
      ensures StartEvents(list, ioDone) && queue == seq(|quantum|, q => []) && trace == []
      ensures this.quantum == quantum && this.boost == boost && this.ioTime == ioTime && this.stay == stay && this.iobump == iobump
    {
      hide *;
      this.quantum, this.boost, this.ioTime, this.stay, this.iobump := quantum, boost, ioTime, stay, iobump;
      var jobs, events;
      ghost var places;
      jobs, events, places := ReadJobs(list, quantum);
      this.queue := seq(|quantum|, q => []);
      this.job, this.ioDone, this.currTime, this.finishedJobs, this.wh, this.trace := jobs, events, 0, 0, places, [];
      new;
      FirstOK(list, queue, job, wh, quantum);
      MeansValid();
    }

    /** Every `boost` ticks, the jobs of queue 0, 1, ... line up in this order behind those of the highest queue, all
        with a new quantum. */
    method Boost()
      requires Valid() && EventsOK(ioDone, wh, currTime)
      modifies this`queue, this`job
      ensures Valid() && EventsOK(ioDone, wh, currTime)
      ensures var hi := |quantum| - 1; if boost > 0 && currTime != 0 && currTime % boost == 0
              then queue[hi] == old(queue[hi]) + Flat(old(queue), hi) && forall q: nat :: q < hi ==> queue[q] == []
              else queue == old(queue)
      ensures |job| == |old(job)|
      ensures forall j: nat :: j < |job| ==>
                job[j] == if boost > 0 && currTime != 0 && currTime % boost == 0 then Boosted(old(job)[j], quantum) else old(job)[j]
    {
      hide *;
      if boost > 0 && currTime != 0 && currTime % boost == 0 {
        ValidMeans();
        EmptyLower();
        RaiseAll();
        BoostKeeps(old(queue), queue, old(job), job, wh, quantum);
        BoostedTrace(old(job), job, wh, quantum, trace, currTime);
        MeansValid();
      }
    }

    method EmptyLower()
      requires |queue| == |quantum| > 0 && QueuesOK(queue, job, wh) && JobsOK(quantum, job, wh)
      modifies this`queue
      ensures |queue| == |old(queue)|
      ensures var hi := |quantum| - 1;
        queue[hi] == old(queue[hi]) + Flat(old(queue), hi) && forall q: nat :: q < hi ==> queue[q] == []
    {
      hide *;
      var hi := |quantum| - 1;
      FlatZero(queue);
      NoneDoingIO(queue, job, wh, quantum);
      var q: nat := 0;
      while q < hi
        invariant 0 <= q <= hi && |queue| == |quantum|
        invariant queue[hi] == old(queue[hi]) + Flat(old(queue), q)
        invariant forall p: nat :: p < hi ==> queue[p] == if p < q then [] else old(queue)[p]
      {
        MoveUp(q);
        FlatNext(old(queue), q);
        q := q + 1;
      }
    }

    method MoveUp(q: nat)
      requires q < |quantum| - 1 && |queue| == |quantum|
      requires forall k :: 0 <= k < |queue[q]| ==> queue[q][k] < |job| && !job[queue[q][k]].doingIO
      modifies this`queue
      ensures var hi := |quantum| - 1; queue == old(queue)[hi := old(queue)[hi] + old(queue)[q]][q := []]
    {
      var hi := |quantum| - 1;
      ghost var queue0 := queue;
      var k := 0;
      while k < |queue[q]|
        invariant |queue| == |quantum| && queue[q] == queue0[q] && 0 <= k <= |queue[q]|
        invariant queue[hi] == queue0[hi] + queue0[q][..k]
        invariant forall p: nat :: p < hi ==> queue[p] == queue0[p]
      {
        if !job[queue[q][k]].doingIO {
          queue := queue[hi := queue[hi] + [queue[q][k]]];
        }
        k := k + 1;
      }
      assert queue0[q][..|queue0[q]|] == queue0[q];
      queue := queue[q := []];
    }

    method RaiseAll()
      requires quantum != []
      modifies this`job
      ensures |job| == |old(job)| && forall j: nat :: j < |job| ==> job[j] == Boosted(old(job)[j], quantum)
    {
      var hi := |quantum| - 1;
      var j: nat := 0;
      while j < |job|
        invariant j <= |job| == |old(job)|
        invariant forall i: nat :: i < |job| ==> job[i] == if i < j then Boosted(old(job)[i], quantum) else old(job)[i]
      {
        if job[j].timeLeft > 0 {
          job := job[j := job[j].(currPri := hi, ticksLeft := quantum[hi])];
        }
        j := j + 1;
      }
    }

    /** The job at the head of the rest of the list joins its queue. */
    method Arrive(j: nat, ghost rest: seq<nat>)
      requires Valid() && EventsOK(ioDone[currTime := rest], wh, currTime) && rest != [] && rest[0] == j
      modifies this`queue, this`job, this`wh
      ensures Valid() && EventsOK(ioDone[currTime := rest[1..]], wh, currTime)
      ensures j < |old(job)| && old(job)[j].currPri < |old(queue)|
      ensures var q := old(job)[j].currPri;
        queue == old(queue)[q := if iobump then [j] + old(queue)[q] else old(queue)[q] + [j]]
      ensures job == old(job)[j := old(job)[j].(doingIO := false)] && wh == old(wh)[j := Queued]
    {
      hide *;
      ghost var evs := ioDone[currTime := rest];
      assert evs[currTime := rest[1..]] == ioDone[currTime := rest[1..]];
      ValidMeans();
      Wake(evs, wh, currTime);
      InJobs(queue, job, wh, quantum, j);
      var q := job[j].currPri;
      var s := if iobump then [j] + queue[q] else queue[q] + [j];
      WakeKeeps(queue, job, wh, quantum, j, s);
      FinishedUpdate(wh, j, Queued);
      Woken(trace, job, wh, j, currTime);
      queue := queue[q := s];
      job := job[j := job[j].(doingIO := false)];
      wh := wh[j := Queued];
      MeansValid();
    }

    lemma ValidMeans()
      requires Valid()
      ensures |queue| == |quantum| > 0 && |job| == |wh|
      ensures QueuesOK(queue, job, wh) && JobsOK(quantum, job, wh)
      ensures finishedJobs == Finished(wh)
      ensures TraceOK(trace, job) && StartsOK(job, wh, currTime, trace)
    {
    }

    lemma MeansValid()
      requires |queue| == |quantum| > 0
      requires QueuesOK(queue, job, wh) && JobsOK(quantum, job, wh)
      requires finishedJobs == Finished(wh)
      requires TraceOK(trace, job) && StartsOK(job, wh, currTime, trace)
      ensures Valid()
    {
    }

    /** The jobs whose event is now join the queues of their priorities, at the end or, with `iobump`, at the front. */
    method Arrivals()
      requires Valid() && EventsOK(ioDone, wh, currTime)
      modifies this`queue, this`job, this`wh
      ensures Valid() && EventsOK(ioDone, wh, currTime + 1)
      ensures var list := if currTime in ioDone then ioDone[currTime] else [];
        && (forall k :: 0 <= k < |list| ==> list[k] < |old(job)|)
        && job == Ready(old(job), list) && wh == Awake(old(wh), list) && |queue| == |old(queue)|
        && forall q: nat :: q < |queue| ==>
             queue[q] == if iobump then Of(old(job), list, q, true) + old(queue)[q] else old(queue)[q] + Of(old(job), list, q, false)
    {
      hide *;
      ValidMeans();
      if currTime in ioDone {
        var list := ioDone[currTime];
        ghost var job0, queue0, wh0 := job, queue, wh;
        Listed(ioDone, wh, currTime);
        assert ioDone[currTime := list[0..]] == ioDone;
        NoneAwake(job, queue, wh, list);
        var k: nat := 0;
        while k < |list|
          invariant k <= |list| && |job| == |job0|
          invariant Valid() && EventsOK(ioDone[currTime := list[k..]], wh, currTime)
          invariant Joined(queue0, job0, wh0, queue, job, wh, list, k, iobump)
        {
          assert list[k..][0] == list[k] && list[k..][1..] == list[k+1..];
          ghost var queue1, job1, wh1 := queue, job, wh;
          ValidMeans();
          Arrive(list[k], list[k..]);
          JoinOne(queue0, job0, wh0, queue1, job1, wh1, queue, job, wh, list, k, iobump);
          k := k + 1;
        }
        AllJoined(queue0, job0, wh0, queue, job, wh, list, iobump);
        Emptied(ioDone, wh, currTime);
      } else {
        NoneAwake(job, queue, wh, []);
        AllJoined(queue, job, wh, queue, job, wh, [], iobump);
        Later(ioDone, wh, currTime);
      }
    }

    /** The highest queue that is not empty, or -1. */
    method FindQueue() returns (q: int)
      requires queue != []
      ensures -1 <= q < |queue|
      ensures q >= 0 ==> queue[q] != []
      ensures forall p: nat :: q < p < |queue| ==> queue[p] == []
    {
      q := |queue| - 1;
      while q > 0
        invariant 0 <= q < |queue|
        invariant forall p: nat :: q < p < |queue| ==> queue[p] == []
      {
        if |queue[q]| > 0 {
          return;
        }
        q := q - 1;
      }
      if |queue[0]| > 0 {
        return 0;
      }
      return -1;
    }

    /** A job moves down one queue, unless it is in the lowest, and gets a new quantum; one that waits for I/O enters no queue. */
    method LowerQueue(currJob: nat, currQueue: nat, issuedIO: bool)
      requires currJob < |job| && currQueue < |queue| == |quantum| && job[currJob].currPri == currQueue
      modifies this`queue, this`job
      ensures job == old(job)[currJob := old(job)[currJob].(currPri := Below(currQueue), ticksLeft := quantum[Below(currQueue)])]
      ensures queue == if issuedIO then old(queue) else old(queue)[Below(currQueue) := old(queue)[Below(currQueue)] + [currJob]]
    {
      if currQueue > 0 {
        job := job[currJob := job[currJob].(currPri := currQueue - 1)];
        if !issuedIO {
          queue := queue[currQueue - 1 := queue[currQueue - 1] + [currJob]];
        }
        job := job[currJob := job[currJob].(ticksLeft := quantum[currQueue - 1])];
      } else {
        if !issuedIO {
          queue := queue[currQueue := queue[currQueue] + [currJob]];
        }
        job := job[currJob := job[currJob].(ticksLeft := quantum[currQueue])];
      }
    }

    /** The job leaves its queue and waits for its I/O, which takes `ioTime` ticks. */
    method StartIO(currJob: nat, currQueue: nat)
      requires currJob < |job| && currQueue < |queue| == |quantum| && queue[currQueue] != []
      modifies this`queue, this`job, this`ioDone
      ensures queue == old(queue)[currQueue := old(queue)[currQueue][1..]]
      ensures var b := old(job)[currJob];
        job == old(job)[currJob := b.(doingIO := true, ticksLeft := if stay then quantum[currQueue] else b.ticksLeft)]
      ensures var t := currTime + ioTime;
        ioDone == old(ioDone)[t := (if t in old(ioDone) then old(ioDone)[t] else []) + [currJob]]
    {
      queue := queue[currQueue := queue[currQueue][1..]];
      job := job[currJob := job[currJob].(doingIO := true)];
      if stay {
        job := job[currJob := job[currJob].(ticksLeft := quantum[currQueue])];
      }
      var futureTime := currTime + ioTime;
      if futureTime !in ioDone {
        ioDone := ioDone[futureTime := []];
      }
      ioDone := ioDone[futureTime := ioDone[futureTime] + [currJob]];
    }

    /** A job that has run and has time left may have to wait for I/O, or to move down a queue. */
    method Reschedule(currJob: nat, currQueue: nat, ghost b: Job)
      requires currQueue < |queue| == |quantum| && queue[currQueue] != [] && queue[currQueue][0] == currJob < |job|
      requires b.currPri == currQueue && b.timeLeft > 1 && job[currJob] == b.(timeLeft := b.timeLeft - 1, ticksLeft := b.ticksLeft - 1)
      modifies this`queue, this`job, this`ioDone
      ensures job == old(job)[currJob := Ran(b, quantum, stay)]
      ensures queue == QueuesAfter(old(queue), currQueue, b)
      ensures ioDone == EventsAfter(old(ioDone), b, currJob, currTime + ioTime)
    {
      var runTime, ioFreq, ticksLeft, timeLeft := job[currJob].runTime, job[currJob].ioFreq, job[currJob].ticksLeft, job[currJob].timeLeft;
      var issuedIO := false;
      if ioFreq > 0 && (runTime - timeLeft) % ioFreq == 0 {
        issuedIO := true;
        StartIO(currJob, currQueue);
      }
      if ticksLeft == 0 {
        if !issuedIO {
          queue := queue[currQueue := queue[currQueue][1..]];
        }
        LowerQueue(currJob, currQueue, issuedIO);
      }
    }

    /**
     * The job at the front of the queue runs for one tick. Its priority is that of the queue, so the first abort
     * does not happen; the second does exactly when the job has no time left, and then it was given none.
     */
    method RunOne(currQueue: nat) returns (ok: bool)
      requires Valid() && EventsOK(ioDone, wh, currTime + 1) && currQueue < |queue| && queue[currQueue] != []
      modifies this
      ensures old(queue)[currQueue][0] < |old(job)| == |old(wh)| && |job| == |old(job)|
      ensures var b := old(job)[old(queue)[currQueue][0]];
        && b.currPri == currQueue < |quantum|
        && (ok <==> b.timeLeft > 0) && (!ok ==> b.runTime == 0)
        && (ok ==>
              && Valid() && EventsOK(ioDone, wh, currTime) && currTime == old(currTime) + 1
              && trace == old(trace) + [old(queue)[currQueue][0] as int]
              && job == old(job)[old(queue)[currQueue][0] := Ran(b, quantum, stay)]
              && queue == QueuesAfter(old(queue), currQueue, b)
              && wh == old(wh)[old(queue)[currQueue][0] := PlaceAfter(b, currTime + ioTime)]
              && ioDone == EventsAfter(old(ioDone), b, old(queue)[currQueue][0], currTime + ioTime)
              && finishedJobs == old(finishedJobs) + if b.timeLeft == 1 then 1 else 0)
    {
      hide Valid, QueuesOK, JobsOK, EventsOK, TraceOK, StartsOK, Finished;
      ValidMeans();
      Front(queue, job, wh, quantum, currQueue);
      ghost var now := currTime;
      var currJob := queue[currQueue][0];
      ghost var b := job[currJob];
      assert job[currJob].currPri == currQueue;
      job := job[currJob := job[currJob].(timeLeft := job[currJob].timeLeft - 1, ticksLeft := job[currJob].ticksLeft - 1)];
      var timeLeft := job[currJob].timeLeft;
      if timeLeft < 0 {
        return false;
      }
      ok := true;
      currTime := currTime + 1;
      trace := trace + [currJob as int];
      if timeLeft == 0 {
        finishedJobs := finishedJobs + 1;
        queue := queue[currQueue := queue[currQueue][1..]];
      } else {
        Reschedule(currJob, currQueue, b);
      }
      wh := wh[currJob := PlaceAfter(b, currTime + ioTime)];
      assert job == old(job)[currJob := Ran(b, quantum, stay)];
      RunKeeps(old(queue), old(job), old(wh), old(ioDone), old(trace), quantum, stay, currQueue, now, ioTime);
      MeansValid();
    }

    method Prepare(ghost job0: seq<Job>, ghost last: nat)
      requires Valid() && EventsOK(ioDone, wh, currTime) && Needs(job0, job) && Before(wh, last)
      modifies this`queue, this`job, this`wh
      ensures Valid() && EventsOK(ioDone, wh, currTime + 1) && Needs(job0, job) && Before(wh, last)
      ensures TotalLeft(job) == old(TotalLeft(job)) && |job| == |old(job)|
      ensures Now() == Prepared(Given(), old(Now()))
    {
      hide *;
      ValidMeans();
      NowIs();
      ghost var s := Now();
      Boost();
      ValidMeans();
      NowIs();
      IsRaised(s, Now());
      AfterBoost(job0, old(job), job, quantum);
      ghost var s1, job2, wh2, list := Now(), job, wh, if currTime in ioDone then ioDone[currTime] else [];
      Arrivals();
      NowIs();
      IsArrived(s1, Now());
      PreparedIs(Given(), s);
      AfterArrivals(job0, job2, job, wh2, wh, list, last);
    }

    lemma IsRaised(s: Snapshot, s': Snapshot)
      requires |s.queue| == |s'.queue| == |quantum| > 0 && |s'.job| == |s.job| && s'.ioDone == s.ioDone && s'.time == s.time
      requires var hi := |quantum| - 1; if boost > 0 && s.time != 0 && s.time % boost == 0
              then s'.queue[hi] == s.queue[hi] + Flat(s.queue, hi) && forall q: nat :: q < hi ==> s'.queue[q] == []
              else s'.queue == s.queue
      requires forall j: nat :: j < |s.job| ==>
                s'.job[j] == if boost > 0 && s.time != 0 && s.time % boost == 0 then Boosted(s.job[j], quantum) else s.job[j]
      ensures s' == Raised(Given(), s)
    {
      hide Flat, Boosted;
      assert s'.queue == Raised(Given(), s).queue;
      assert s'.job == Raised(Given(), s).job;
    }

    lemma IsArrived(s: Snapshot, s': Snapshot)
      requires var list := if s.time in s.ioDone then s.ioDone[s.time] else [];
        && s'.job == Ready(s.job, list) && |s'.queue| == |s.queue| && s'.ioDone == s.ioDone && s'.time == s.time
        && forall q: nat :: q < |s.queue| ==>
             s'.queue[q] == if iobump then Of(s.job, list, q, true) + s.queue[q] else s.queue[q] + Of(s.job, list, q, false)
      ensures s' == Arrived(Given(), s)
    {
      hide Of, Ready;
      assert s'.queue == Arrived(Given(), s).queue;
    }

    method RunFront(currQueue: nat, ghost job0: seq<Job>, ghost last: nat, ghost s: Snapshot) returns (ok: bool)
      requires Prepared(Given(), s) == Now() && Top(queue) == currQueue
      requires Valid() && EventsOK(ioDone, wh, currTime + 1) && Needs(job0, job) && Before(wh, last)
      requires currQueue < |queue| && queue[currQueue] != []
      modifies this
      ensures !ok ==> !AllNeedTime(job0)
      ensures ok ==> Valid() && EventsOK(ioDone, wh, currTime) && Needs(job0, job) && Before(wh, Max(last, currTime + ioTime))
      ensures ok ==> currTime == old(currTime) + 1 && TotalLeft(job) == old(TotalLeft(job)) - 1
      ensures ok ==> Now() == Next(Given(), s) && trace == old(trace) + [Chosen(Given(), s)] && Works(Given(), s)
    {
      hide *;
      NowIs();
      ValidMeans();
      ghost var a := Now();
      ghost var j := queue[currQueue][0];
      ok := RunOne(currQueue);
      if ok {
        NowIs();
        IsNext(s, a, currQueue, Now());
        AfterRun(job0, old(job), job, old(wh), wh, j, quantum, stay, currTime + ioTime, last);
      } else {
        NeedsNothing(job0, old(job), j);
      }
    }

    lemma IsNext(s: Snapshot, a: Snapshot, q: nat, s': Snapshot)
      requires Prepared(Given(), s) == a && Top(a.queue) == q < |a.queue| && q < |quantum| && a.queue[q] != []
      requires a.queue[q][0] < |a.job| && a.job[a.queue[q][0]].currPri == q
      requires var j := a.queue[q][0]; var b := a.job[j];
        && s'.job == a.job[j := Ran(b, quantum, stay)] && s'.queue == QueuesAfter(a.queue, q, b)
        && s'.time == a.time + 1 && s'.ioDone == EventsAfter(a.ioDone, b, j, s'.time + ioTime)
      requires |a.queue| == |quantum| && a.job[a.queue[q][0]].timeLeft > 0
      ensures Works(Given(), s)
      ensures s' == Next(Given(), s) && a.queue[q][0] == Chosen(Given(), s)
    {
      hide Prepared, Top, Ran, QueuesAfter, EventsAfter;
    }

    lemma IsIdle(s: Snapshot, a: Snapshot, s': Snapshot)
      requires Prepared(Given(), s) == a && Top(a.queue) == -1 && s' == a.(time := a.time + 1)
      ensures s' == Next(Given(), s) && Chosen(Given(), s) == -1 && Works(Given(), s)
    {
      hide Prepared, Top;
    }

    /** One round of the main loop: a boost, arrivals, and then one tick, idle or of a job of the highest priority. */
    method Step(ghost job0: seq<Job>, ghost last: nat) returns (ok: bool, ghost later: nat)
      requires Valid() && EventsOK(ioDone, wh, currTime) && Needs(job0, job) && Before(wh, last) && finishedJobs < |job|
      modifies this
      ensures !ok ==> !AllNeedTime(job0)
      ensures ok ==> Valid() && EventsOK(ioDone, wh, currTime) && Needs(job0, job) && Before(wh, later)
      ensures ok ==> currTime == old(currTime) + 1
      ensures ok ==> if TotalLeft(job) == old(TotalLeft(job)) then last == later > old(currTime)
                     else TotalLeft(job) == old(TotalLeft(job)) - 1
      ensures ok ==> Now() == Next(Given(), old(Now())) && trace == old(trace) + [Chosen(Given(), old(Now()))]
      ensures ok ==> Works(Given(), old(Now()))
    {
      hide *;
      ghost var s := Now();
      Prepare(job0, last);
      ValidMeans();
      NowIs();
      ghost var a := Now();
      var currQueue := FindQueue();
      TopIs(queue, currQueue);
      if currQueue == -1 {
        NextEvent(queue, job, wh, quantum, ioDone, currTime, last);
        NowIdle(trace, job, wh, currTime);
        trace := trace + [-1];
        currTime := currTime + 1;
        NowIs();
        IsIdle(s, a, Now());
        MeansValid();
        ok, later := true, last;
      } else {
        ok := RunFront(currQueue, job0, last, s);
        later := Max(last, currTime + ioTime);
      }
    }

    /**
     * The whole simulation. It ends; it does so without an abort exactly when every job was given some time to run,
     * and then every job has run for exactly that time, in no tick before its start.
     */
    method Run() returns (ok: bool)
      requires Valid() && EventsOK(ioDone, wh, currTime)
      modifies this
      ensures ok <==> AllNeedTime(old(job))
      ensures ok ==> Valid() && Served(old(job), trace, currTime) && finishedJobs == |old(job)| && AllFinished(job)
      ensures ok ==> currTime >= old(currTime) && Now() == Rounds(Given(), old(Now()), currTime - old(currTime))
      ensures ok ==> currTime >= old(currTime) && trace == old(trace) + Schedule(Given(), old(Now()), currTime - old(currTime))
      ensures ok ==> forall n: nat :: n < currTime - old(currTime) ==>
                !AllFinished(Rounds(Given(), old(Now()), n).job) && Works(Given(), Rounds(Given(), old(Now()), n))
    {
      hide *;
      ghost var job0, s, trace0, start := job, Now(), trace, currTime;
      ghost var n: nat := 0;
      NoRounds(Given(), s);
      assert trace == trace0 + [];
      SameNeeds(job);
      ghost var last: nat := LastEvent(ioDone, wh);
      ok := true;
      while finishedJobs < |job|
        invariant Valid() && EventsOK(ioDone, wh, currTime) && Needs(job0, job) && Before(wh, last)
        invariant currTime == start + n && Now() == Rounds(Given(), s, n) && trace == trace0 + Schedule(Given(), s, n)
        invariant forall m: nat :: m < n ==> Works(Given(), Rounds(Given(), s, m))
        invariant AllNeedTime(job0) ==> forall m: nat :: m < n ==> !AllFinished(Rounds(Given(), s, m).job)
        decreases TotalLeft(job), last - currTime
      {
        ValidMeans();
        TotalNonnegative(quantum, job, wh);
        SomeUnfinished(quantum, job, wh, job0);
        NowIs();
        ok, last := Step(job0, last);
        if !ok {
          return;
        }
        OneMoreRound(Given(), s, n);
        assert trace == trace0 + Schedule(Given(), s, n + 1);
        n := n + 1;
      }
      ValidMeans();
      AllDone(quantum, job, wh, trace, currTime, job0);
      ok := true;
    }
  }

  lemma OneMore(events: Events, wh: seq<Where>, job: seq<Job>, b: Job)
    requires EventsOK(events, wh, 0) && TraceOK([], job) && Finished(wh) == 0
    requires b.timeLeft == b.runTime
    ensures var t := b.startTime;
      EventsOK(events[t := (if t in events then events[t] else []) + [|wh|]], wh + [Pending(t)], 0)
    ensures TraceOK([], job + [b]) && Finished(wh + [Pending(b.startTime)]) == 0
  {
    hide EventsOK;
    FirstEvent(events, wh, b.startTime);
    assert (wh + [Pending(b.startTime)])[..|wh|] == wh && (job + [b])[..|job|] == job;
  }

  lemma FirstEvent(events: Events, wh: seq<Where>, t: nat)
    requires EventsOK(events, wh, 0)
    ensures EventsOK(events[t := (if t in events then events[t] else []) + [|wh|]], wh + [Pending(t)], 0)
  {
    var s := if t in events then events[t] else [];
    var events', wh' := events[t := s + [|wh|]], wh + [Pending(t)];
    assert t in events ==> EventAt(events, wh, t);
    Appended(s, |wh|);
    forall u: nat | u in events' && u >= 0 ensures EventAt(events', wh', u) {
      hide Distinct;
      if u in events { assert EventAt(events, wh, u); }

    }
  }

  lemma Appended(s: seq<nat>, n: nat)
    requires Distinct(s) && n !in s
    ensures Distinct(s + [n])
  {
  }

  lemma BoostedTrace(job: seq<Job>, job': seq<Job>, wh: seq<Where>, quantum: seq<int>, trace: seq<int>, now: nat)
    requires quantum != [] && |job| == |job'| && forall j: nat :: j < |job| ==> job'[j] == Boosted(job[j], quantum)
    requires TraceOK(trace, job) && StartsOK(job, wh, now, trace)
    ensures TraceOK(trace, job') && StartsOK(job', wh, now, trace)
  {
    SameTotals(job, job');
  }

  lemma FlatZero(queue: Queues)
    ensures Flat(queue, 0) == []
  {
  }

  lemma FlatNext(queue: Queues, q: nat)
    requires q < |queue|
    ensures Flat(queue, q + 1) == Flat(queue, q) + queue[q]
  {
  }

  lemma NoneDoingIO(queue: Queues, job: seq<Job>, wh: seq<Where>, quantum: seq<int>)
    requires QueuesOK(queue, job, wh) && JobsOK(quantum, job, wh)
    ensures forall q: nat, k: nat :: q < |queue| && k < |queue[q]| ==> queue[q][k] < |job| && !job[queue[q][k]].doingIO
  {
    forall q: nat, k: nat | q < |queue| && k < |queue[q]| ensures queue[q][k] < |job| && !job[queue[q][k]].doingIO {
      var j := queue[q][k];
      assert j in queue[q] && QueueAt(queue, job, wh, q);
      assert JobOK(quantum, job[j], wh[j]);
    }
  }

  lemma Listed(evs: Events, wh: seq<Where>, now: nat)
    requires EventsOK(evs, wh, now) && now in evs
    ensures forall k: nat :: k < |evs[now]| ==> evs[now][k] < |wh|
  {
    assert EventAt(evs, wh, now);
    assert forall k: nat :: k < |evs[now]| ==> evs[now][k] in evs[now];
  }

  /** The first `k` jobs of a list have joined their queues. */
  ghost predicate Joined(queue0: Queues, job0: seq<Job>, wh0: seq<Where>, queue: Queues, job: seq<Job>, wh: seq<Where>,
                         list: seq<nat>, k: nat, front: bool)
    requires k <= |list| && forall i: nat :: i < |list| ==> list[i] < |job0|
  {
    && job == Ready(job0, list[..k]) && wh == Awake(wh0, list[..k]) && |queue| == |queue0|
    && forall q: nat :: q < |queue| ==>
         queue[q] == if front then Of(job0, list[..k], q, true) + queue0[q] else queue0[q] + Of(job0, list[..k], q, false)
  }

  lemma NoneAwake(job: seq<Job>, queue: Queues, wh: seq<Where>, list: seq<nat>)
    requires forall i: nat :: i < |list| ==> list[i] < |job|
    ensures forall front :: Joined(queue, job, wh, queue, job, wh, list, 0, front)
  {
    assert list[..0] == [];
  }

  lemma JoinOne(queue0: Queues, job0: seq<Job>, wh0: seq<Where>, queue1: Queues, job1: seq<Job>, wh1: seq<Where>,
                queue: Queues, job: seq<Job>, wh: seq<Where>, list: seq<nat>, k: nat, front: bool)
    requires k < |list| && forall i: nat :: i < |list| ==> list[i] < |job0|
    requires Joined(queue0, job0, wh0, queue1, job1, wh1, list, k, front)
    requires var j := list[k]; j < |job1| == |wh1| && job1[j].currPri < |queue1|
    requires var j := list[k]; var q := job1[j].currPri;
      queue == queue1[q := if front then [j] + queue1[q] else queue1[q] + [j]]
    requires var j := list[k]; job == job1[j := job1[j].(doingIO := false)] && wh == wh1[j := Queued]
    ensures Joined(queue0, job0, wh0, queue, job, wh, list, k + 1, front)
  {
    hide *;
    JoinedMeans(queue0, job0, wh0, queue1, job1, wh1, list, k, front);
    ReadyNext(job0, wh0, list, k);
    forall q: nat | q < |queue| ensures
      queue[q] == if front then Of(job0, list[..k+1], q, true) + queue0[q] else queue0[q] + Of(job0, list[..k+1], q, false) {
      OfNext(job0, list, k, q, front);
    }
    MeansJoined(queue0, job0, wh0, queue, job, wh, list, k + 1, front);
  }

  lemma JoinedMeans(queue0: Queues, job0: seq<Job>, wh0: seq<Where>, queue: Queues, job: seq<Job>, wh: seq<Where>,
                    list: seq<nat>, k: nat, front: bool)
    requires k <= |list| && forall i: nat :: i < |list| ==> list[i] < |job0|
    requires Joined(queue0, job0, wh0, queue, job, wh, list, k, front)
    ensures job == Ready(job0, list[..k]) && wh == Awake(wh0, list[..k]) && |queue| == |queue0|
    ensures |job| == |job0| && |wh| == |wh0| && forall j: nat :: j < |job| ==> job[j].currPri == job0[j].currPri
    ensures forall q: nat :: q < |queue| ==>
         queue[q] == if front then Of(job0, list[..k], q, true) + queue0[q] else queue0[q] + Of(job0, list[..k], q, false)
  {
  }

  lemma MeansJoined(queue0: Queues, job0: seq<Job>, wh0: seq<Where>, queue: Queues, job: seq<Job>, wh: seq<Where>,
                    list: seq<nat>, k: nat, front: bool)
    requires k <= |list| && forall i: nat :: i < |list| ==> list[i] < |job0|
    requires job == Ready(job0, list[..k]) && wh == Awake(wh0, list[..k]) && |queue| == |queue0|
    requires forall q: nat :: q < |queue| ==>
         queue[q] == if front then Of(job0, list[..k], q, true) + queue0[q] else queue0[q] + Of(job0, list[..k], q, false)
    ensures Joined(queue0, job0, wh0, queue, job, wh, list, k, front)
  {
  }

  lemma ReadyNext(job: seq<Job>, wh: seq<Where>, list: seq<nat>, k: nat)
    requires k < |list| && list[k] < |job| == |wh|
    ensures |Ready(job, list[..k])| == |job| && |Awake(wh, list[..k])| == |wh|
    ensures var j := list[k]; var b := Ready(job, list[..k]);
      Ready(job, list[..k+1]) == b[j := b[j].(doingIO := false)] && Awake(wh, list[..k+1]) == Awake(wh, list[..k])[j := Queued]
  {
    var p := list[..k];
    assert list[..k+1] == p + [list[k]];
  }

  lemma OfNext(job: seq<Job>, list: seq<nat>, k: nat, q: nat, front: bool)
    requires k < |list| && forall i: nat :: i < |list| ==> list[i] < |job|
    ensures var one := if job[list[k]].currPri == q then [list[k]] else [];
      Of(job, list[..k+1], q, front) == if front then one + Of(job, list[..k], q, front) else Of(job, list[..k], q, front) + one
  {
    assert list[..k+1][..k] == list[..k];
  }

  lemma AllJoined(queue0: Queues, job0: seq<Job>, wh0: seq<Where>, queue: Queues, job: seq<Job>, wh: seq<Where>,
                  list: seq<nat>, front: bool)
    requires forall i: nat :: i < |list| ==> list[i] < |job0|
    requires Joined(queue0, job0, wh0, queue, job, wh, list, |list|, front)
    ensures job == Ready(job0, list) && wh == Awake(wh0, list) && |queue| == |queue0|
    ensures forall q: nat :: q < |queue| ==>
         queue[q] == if front then Of(job0, list, q, true) + queue0[q] else queue0[q] + Of(job0, list, q, false)
  {
    assert list[..|list|] == list;
  }

  lemma Emptied(ioDone: Events, wh: seq<Where>, now: nat)
    requires now in ioDone && EventsOK(ioDone[now := ioDone[now][|ioDone[now]|..]], wh, now)
    ensures EventsOK(ioDone, wh, now + 1)
  {
    var evs := ioDone[now := ioDone[now][|ioDone[now]|..]];
    assert evs[now] == [];
    forall t: nat | t in ioDone && t >= now + 1 ensures EventAt(ioDone, wh, t) { assert EventAt(evs, wh, t); }
  }

  lemma InJobs(queue: Queues, job: seq<Job>, wh: seq<Where>, quantum: seq<int>, j: nat)
    requires QueuesOK(queue, job, wh) && JobsOK(quantum, job, wh) && |queue| == |quantum| && j < |wh|
    ensures j < |job| && job[j].currPri < |queue|
  {
    assert JobOK(quantum, job[j], wh[j]);
  }

  lemma Woken(trace: seq<int>, job: seq<Job>, wh: seq<Where>, j: nat, now: nat)
    requires TraceOK(trace, job) && StartsOK(job, wh, now, trace) && j < |job| && wh[j] == Pending(now)
    ensures var job' := job[j := job[j].(doingIO := false)];
      TraceOK(trace, job') && StartsOK(job', wh[j := Queued], now, trace)
  {
    TotalsUpdate(job, j, job[j].(doingIO := false));
  }

  ghost function EventsAfter(ioDone: Events, b: Job, j: nat, t: nat): Events {
    if b.timeLeft != 1 && IssuesIO(b) then ioDone[t := (if t in ioDone then ioDone[t] else []) + [j]] else ioDone
  }

  lemma Front(queue: Queues, job: seq<Job>, wh: seq<Where>, quantum: seq<int>, q: nat)
    requires QueuesOK(queue, job, wh) && JobsOK(quantum, job, wh) && |queue| == |quantum| && q < |queue| && queue[q] != []
    ensures queue[q][0] < |job| == |wh|
    ensures var b := job[queue[q][0]]; b.currPri == q && 0 <= b.timeLeft && (b.timeLeft == 0 ==> b.runTime == 0)
  {
    var j := queue[q][0];
    assert j in queue[q] && QueueAt(queue, job, wh, q);
    assert JobOK(quantum, job[j], wh[j]);
  }

  lemma RunKeeps(queue: Queues, job: seq<Job>, wh: seq<Where>, ioDone: Events, trace: seq<int>, quantum: seq<int>, stay: bool,
                 q: nat, now: nat, ioTime: nat)
    requires QueuesOK(queue, job, wh) && JobsOK(quantum, job, wh) && |queue| == |quantum| && q < |queue| && queue[q] != []
    requires TraceOK(trace, job) && StartsOK(job, wh, now, trace) && EventsOK(ioDone, wh, now + 1)
    requires queue[q][0] < |job| && job[queue[q][0]].currPri == q && job[queue[q][0]].timeLeft > 0
    ensures var j := queue[q][0]; var b := job[j]; var t := now + 1 + ioTime;
      var job' := job[j := Ran(b, quantum, stay)]; var wh' := wh[j := PlaceAfter(b, t)];
      && QueuesOK(QueuesAfter(queue, q, b), job', wh') && JobsOK(quantum, job', wh')
      && Finished(wh') == Finished(wh) + (if b.timeLeft == 1 then 1 else 0)
      && TraceOK(trace + [j as int], job') && StartsOK(job', wh', now + 1, trace + [j as int])
      && EventsOK(EventsAfter(ioDone, b, j, t), wh', now + 1)
  {
    hide QueuesOK, JobsOK, EventsOK, TraceOK, StartsOK, Finished, QueuesAfter;
    var j := queue[q][0];
    var b := job[j];
    var t := now + 1 + ioTime;
    WasQueued(queue, job, wh, q);
    TickKeeps(queue, job, wh, quantum, stay, q, t);
    FinishedUpdate(wh, j, PlaceAfter(b, t));
    Ticked(trace, job, j, Ran(b, quantum, stay));
    StartsNext(trace, job, wh, now, j, Ran(b, quantum, stay), PlaceAfter(b, t));
    if b.timeLeft != 1 && IssuesIO(b) {
      NewEvent(ioDone, wh, now + 1, j, t);
    } else {
      OtherPlace(ioDone, wh, now + 1, j, PlaceAfter(b, t));
    }
  }

  lemma WasQueued(queue: Queues, job: seq<Job>, wh: seq<Where>, q: nat)
    requires QueuesOK(queue, job, wh) && q < |queue| && queue[q] != []
    ensures queue[q][0] < |wh| == |job| && wh[queue[q][0]] == Queued
  {
    assert queue[q][0] in queue[q] && QueueAt(queue, job, wh, q);
  }

  lemma StartsNext(trace: seq<int>, job: seq<Job>, wh: seq<Where>, now: nat, j: nat, c: Job, w: Where)
    requires StartsOK(job, wh, now, trace) && j < |job| && wh[j] == Queued && c.startTime == job[j].startTime
    requires w.Pending? ==> w.time > now
    ensures StartsOK(job[j := c], wh[j := w], now + 1, trace + [j as int])
  {
  }

  // ------------------------------------------------------------ the whole run

  /** No step changes what a job was given. */
  ghost predicate Needs(job0: seq<Job>, job: seq<Job>) {
    |job0| == |job| && forall j: nat :: j < |job| ==> job[j].runTime == job0[j].runTime && job[j].startTime == job0[j].startTime
  }

  /** No job waits for an event later than `last`. */
  ghost predicate Before(wh: seq<Where>, last: nat) {
    forall j: nat :: j < |wh| && wh[j].Pending? ==> wh[j].time <= last
  }

  ghost function LastEvent(ioDone: Events, wh: seq<Where>): (last: nat)
    ensures Before(wh, last)
  {
    if wh == [] then 0
    else
      var n := |wh| - 1;
      var r := LastEvent(ioDone, wh[..n]);
      assert forall j: nat :: j < n ==> wh[j] == wh[..n][j];
      if wh[n].Pending? && wh[n].time > r then wh[n].time else r
  }

  lemma SameNeeds(job: seq<Job>)
    ensures Needs(job, job)
  {
  }

  lemma AfterBoost(job0: seq<Job>, job: seq<Job>, job': seq<Job>, quantum: seq<int>)
    requires Needs(job0, job) && quantum != [] && |job| == |job'|
    requires forall j: nat :: j < |job| ==> job'[j] == Boosted(job[j], quantum) || job'[j] == job[j]
    ensures Needs(job0, job') && TotalLeft(job') == TotalLeft(job)
  {
    SameTotals(job, job');
  }

  lemma AfterArrivals(job0: seq<Job>, job: seq<Job>, job': seq<Job>, wh: seq<Where>, wh': seq<Where>, list: seq<nat>, last: nat)
    requires Needs(job0, job) && job' == Ready(job, list) && wh' == Awake(wh, list) && Before(wh, last)
    ensures Needs(job0, job') && TotalLeft(job') == TotalLeft(job) && Before(wh', last)
  {
    SameTotals(job, job');
  }

  ghost function Max(a: nat, b: nat): nat {
    if a > b then a else b
  }

  lemma AfterRun(job0: seq<Job>, job: seq<Job>, job': seq<Job>, wh: seq<Where>, wh': seq<Where>, j: nat, quantum: seq<int>,
                 stay: bool, t: nat, last: nat)
    requires Needs(job0, job) && j < |job| == |wh| && job[j].currPri < |quantum| && Before(wh, last)
    requires job' == job[j := Ran(job[j], quantum, stay)] && wh' == wh[j := PlaceAfter(job[j], t)]
    ensures Needs(job0, job') && TotalLeft(job') == TotalLeft(job) - 1 && Before(wh', Max(last, t))
  {
    TotalsUpdate(job, j, Ran(job[j], quantum, stay));
  }

  ghost predicate AllNeedTime(job: seq<Job>) {
    forall i: nat :: i < |job| ==> job[i].runTime >= 1
  }

  ghost predicate AllFinished(job: seq<Job>) {
    forall j: nat :: j < |job| ==> job[j].timeLeft == 0
  }

  lemma SomeUnfinished(quantum: seq<int>, job: seq<Job>, wh: seq<Where>, job0: seq<Job>)
    requires JobsOK(quantum, job, wh) && Needs(job0, job) && Finished(wh) < |wh|
    ensures AllNeedTime(job0) ==> !AllFinished(job)
  {
    TotalNonnegative(quantum, job, wh);
    var j: nat :| j < |wh| && wh[j] != Done;
    assert JobOK(quantum, job[j], wh[j]);
  }

  lemma PreparedIs(p: Options, s: Snapshot)
    ensures Prepared(p, s) == Arrived(p, Raised(p, s))
  {
  }

  lemma NoRounds(p: Options, s: Snapshot)
    ensures Rounds(p, s, 0) == s && Schedule(p, s, 0) == []
  {
  }

  lemma OneMoreRound(p: Options, s: Snapshot, n: nat)
    ensures Rounds(p, s, n + 1) == Next(p, Rounds(p, s, n))
    ensures Schedule(p, s, n + 1) == Schedule(p, s, n) + [Chosen(p, Rounds(p, s, n))]
  {
  }

  /** Every job ran in as many ticks as it asked for, none before its start, and the other ticks were idle. */
  ghost predicate Served(job: seq<Job>, trace: seq<int>, now: nat) {
    && |trace| == now && Count(trace, -1) + TotalRun(job) == now
    && (forall j: nat :: j < |job| ==> Count(trace, j) == job[j].runTime)
    && forall t: nat :: t < now && trace[t] >= 0 ==> trace[t] < |job| && t >= job[trace[t]].startTime
  }

  lemma NeedsNothing(job0: seq<Job>, job: seq<Job>, j: nat)
    requires Needs(job0, job) && j < |job| && job[j].runTime == 0
    ensures !AllNeedTime(job0)
  {
    assert job0[j].runTime == 0;
  }

  /** When no job can run and some have not finished, an event is still to come. */
  lemma NextEvent(queue: Queues, job: seq<Job>, wh: seq<Where>, quantum: seq<int>, ioDone: Events, now: nat, last: nat)
    requires QueuesOK(queue, job, wh) && JobsOK(quantum, job, wh) && |queue| == |quantum|
    requires EventsOK(ioDone, wh, now + 1) && Before(wh, last) && Finished(wh) < |wh|
    requires forall q: nat :: q < |queue| ==> queue[q] == []
    ensures now < last
  {
    TotalNonnegative(quantum, job, wh);
    var j: nat :| j < |wh| && wh[j] != Done;
    assert InOne(queue, job, wh, j);
  }

  lemma NowIdle(trace: seq<int>, job: seq<Job>, wh: seq<Where>, now: nat)
    requires TraceOK(trace, job) && StartsOK(job, wh, now, trace)
    ensures TraceOK(trace + [-1], job) && StartsOK(job, wh, now + 1, trace + [-1])
  {
    Idle(trace, job);
  }

  lemma AllDone(quantum: seq<int>, job: seq<Job>, wh: seq<Where>, trace: seq<int>, now: nat, job0: seq<Job>)
    requires JobsOK(quantum, job, wh) && Finished(wh) >= |job| && TraceOK(trace, job) && StartsOK(job, wh, now, trace) && Needs(job0, job)
    ensures Finished(wh) == |job0| && AllNeedTime(job0) && Served(job0, trace, now) && AllFinished(job)
  {
    TotalNonnegative(quantum, job, wh);
    forall j: nat | j < |job| ensures Count(trace, j) == job0[j].runTime >= 1 { assert JobOK(quantum, job[j], wh[j]); }
    SameNeedsTotals(job0, job);
  }

  lemma {:induction false} SameNeedsTotals(job0: seq<Job>, job: seq<Job>)
    requires Needs(job0, job)
    ensures TotalRun(job) == TotalRun(job0)
  {
    if job != [] {
      SameNeedsTotals(job0[..|job|-1], job[..|job|-1]);
    }
  }
}
