/** The page replacement simulator `ostep6-paging-policy.py`, why no policy beats OPT, and why none is
    worse than UNOPT. */
module Paging {
  import opened Shared

  type Page = nat

  datatype Policy = FIFO | LRU | MRU | RAND | CLOCK | OPT | UNOPT

  // ------------------------------------------------------------ demand paging in general

  /** How many accesses away the next access to p is; the length of the trace if there is none. */
  function NextUse(trace: seq<Page>, p: Page): (d: nat)
    ensures d <= |trace|
  {
    if trace == [] || trace[0] == p then 0 else 1 + NextUse(trace[1..], p)
  }

  lemma NextUseOrder(trace: seq<Page>, x: Page, y: Page)
    requires trace != [] && trace[0] != x && trace[0] != y
    ensures NextUse(trace, x) <= NextUse(trace, y) <==> NextUse(trace[1..], x) <= NextUse(trace[1..], y)
  {
  }

  ghost predicate Furthest(resident: set<Page>, trace: seq<Page>, v: Page) {
    v in resident && forall u :: u in resident ==> NextUse(trace, u) <= NextUse(trace, v)
  }

  ghost predicate Nearest(resident: set<Page>, trace: seq<Page>, v: Page) {
    v in resident && forall u :: u in resident ==> NextUse(trace, v) <= NextUse(trace, u)
  }

  /** What a policy is known to evict: any page, one needed furthest in the future, or one needed soonest. */
  datatype Choice = ANY | FURTHEST | NEAREST

  function ChoiceOf(policy: Policy): Choice {
    match policy
    case OPT => FURTHEST
    case UNOPT => NEAREST
    case _ => ANY
  }

  /** A page that may be evicted before the rest of the trace. */
  ghost predicate Victim(choice: Choice, resident: set<Page>, rest: seq<Page>, v: Page) {
    v in resident && (choice == FURTHEST ==> Furthest(resident, rest, v)) && (choice == NEAREST ==> Nearest(resident, rest, v))
  }

  function Replace(resident: set<Page>, v: Page, n: Page): set<Page> {
    resident - {v} + {n}
  }

  /** Some demand policy that makes this choice and has these pages resident has exactly
      `misses` misses on the trace: it loads a page only when it is missing, and then evicts one
      resident page if the cache is full. */
  ghost predicate Run(choice: Choice, resident: set<Page>, cachesize: nat, trace: seq<Page>, misses: nat)
    decreases |trace|
  {
    if trace == [] then misses == 0
    else if trace[0] in resident then Run(choice, resident, cachesize, trace[1..], misses)
    else if misses == 0 then false
    else if |resident| < cachesize then Run(choice, resident + {trace[0]}, cachesize, trace[1..], misses - 1)
    else exists v: Page :: Victim(choice, resident, trace[1..], v)
                           && Run(choice, Replace(resident, v, trace[0]), cachesize, trace[1..], misses - 1)
  }

  // ------------------------------------------------------------ the exchange argument

  lemma ReplaceSize(s: set<Page>, v: Page, n: Page)
    requires v in s && n !in s
    ensures |Replace(s, v, n)| == |s|
  {
    assert |s - {v}| == |s| - 1;
  }

  lemma ReplaceInOther(c: set<Page>, y: Page, v: Page, n: Page)
    requires y != v
    ensures Replace(Plus(c, y), v, n) == Plus(Replace(c, v, n), y)
  {
  }

  lemma ReplaceItself(c: set<Page>, y: Page, n: Page)
    requires y !in c
    ensures Replace(Plus(c, y), y, n) == Plus(c, n)
  {
  }

  lemma ReplaceBack(c: set<Page>, v: Page, n: Page)
    requires v in c
    ensures Plus(Replace(c, v, n), v) == Plus(c, n)
  {
  }

  function Plus(c: set<Page>, p: Page): set<Page> {
    c + {p}
  }

  lemma RunHit(choice: Choice, resident: set<Page>, cachesize: nat, trace: seq<Page>, misses: nat)
    requires trace != [] && trace[0] in resident && Run(choice, resident, cachesize, trace[1..], misses)
    ensures Run(choice, resident, cachesize, trace, misses)
  {
  }

  lemma RunMiss(choice: Choice, resident: set<Page>, cachesize: nat, trace: seq<Page>, v: Page, misses: nat)
    requires trace != [] && trace[0] !in resident && |resident| >= cachesize && Victim(choice, resident, trace[1..], v)
    requires Run(choice, Replace(resident, v, trace[0]), cachesize, trace[1..], misses)
    ensures Run(choice, resident, cachesize, trace, misses + 1)
  {
  }

  /** A full cache that holds y, or x in its place. */
  ghost predicate Exchange(c: set<Page>, x: Page, y: Page, cachesize: nat) {
    x !in c && y !in c && x != y && |c| + 1 == cachesize
  }

  lemma ExchangeFull(c: set<Page>, x: Page, y: Page, cachesize: nat)
    requires Exchange(c, x, y, cachesize)
    ensures |Plus(c, x)| == |Plus(c, y)| == cachesize
  {
  }

  lemma ExchangeMoves(c: set<Page>, x: Page, y: Page, cachesize: nat, v: Page, n: Page)
    requires Exchange(c, x, y, cachesize) && v in c && n !in c
    ensures n != x && n != y ==> Exchange(Replace(c, v, n), x, y, cachesize)
    ensures n == x ==> Exchange(Replace(c, v, n), v, y, cachesize)
  {
    ReplaceSize(c, v, n);
  }

  /** Whatever a policy achieves with y resident, some policy achieves with x resident instead at
      the cost of at most one more miss, and of none if x is needed no later than y. */
  lemma {:induction false} ExchangeCost(c: set<Page>, x: Page, y: Page, cachesize: nat, trace: seq<Page>, misses: nat)
    returns (misses': nat)
    requires Exchange(c, x, y, cachesize) && Run(ANY, Plus(c, y), cachesize, trace, misses)
    ensures Run(ANY, Plus(c, x), cachesize, trace, misses') && misses' <= misses + 1
    ensures NextUse(trace, x) <= NextUse(trace, y) ==> misses' <= misses
    decreases |trace|
  {
    misses' := 0;
    if trace != [] {
      var n, rest := trace[0], trace[1..];
      ExchangeFull(c, x, y, cachesize);
      if n in c {
        misses' := ExchangeCost(c, x, y, cachesize, rest, misses);
      } else if n == y {
        misses' := misses + 1;
        ReplaceItself(c, x, n);
        assert Victim(ANY, Plus(c, x), rest, x);
      } else {
        var v: Page :| Victim(ANY, Plus(c, y), rest, v) && Run(ANY, Replace(Plus(c, y), v, n), cachesize, rest, misses - 1);
        misses' := ExchangeOnMiss(c, x, y, cachesize, trace, misses, v);
      }
    }
  }

  /** The first cache evicts y: the other one can evict x, or has nothing to do. */
  lemma ExchangeEvictsY(c: set<Page>, x: Page, y: Page, cachesize: nat, trace: seq<Page>, misses: nat) returns (misses': nat)
    requires Exchange(c, x, y, cachesize) && trace != [] && trace[0] !in Plus(c, y) && misses > 0
    requires Run(ANY, Replace(Plus(c, y), y, trace[0]), cachesize, trace[1..], misses - 1)
    ensures Run(ANY, Plus(c, x), cachesize, trace, misses') && misses' <= misses
  {
    var n := trace[0];
    ExchangeFull(c, x, y, cachesize);
    ReplaceItself(c, y, n);
    ReplaceItself(c, x, n);
    assert x in Plus(c, x) && (n != x ==> n !in Plus(c, x));
    hide Run, Replace, Plus, Exchange;
    if n == x {
      misses' := misses - 1;
      RunHit(ANY, Plus(c, x), cachesize, trace, misses - 1);
    } else {
      misses' := misses;
      RunMiss(ANY, Plus(c, x), cachesize, trace, x, misses - 1);
    }
  }

  lemma ExchangeFacts(c: set<Page>, x: Page, y: Page, cachesize: nat, v: Page, n: Page)
    requires Exchange(c, x, y, cachesize) && v in Plus(c, y) && n !in Plus(c, y)
    ensures x in Plus(c, x) && n !in c && n != y && (n != x ==> n !in Plus(c, x))
    ensures v != y ==> v in c && v != x && v in Plus(c, x)
    ensures x in Plus(c, n) <==> x == n
  {
  }

  lemma IsVictim(resident: set<Page>, rest: seq<Page>, v: Page)
    requires v in resident
    ensures Victim(ANY, resident, rest, v)
  {
  }

  lemma {:induction false} ExchangeOnMiss(c: set<Page>, x: Page, y: Page, cachesize: nat, trace: seq<Page>, misses: nat, v: Page)
    returns (misses': nat)
    requires Exchange(c, x, y, cachesize) && trace != [] && trace[0] !in Plus(c, y) && misses > 0
    requires v in Plus(c, y) && Run(ANY, Replace(Plus(c, y), v, trace[0]), cachesize, trace[1..], misses - 1)
    ensures Run(ANY, Plus(c, x), cachesize, trace, misses') && misses' <= misses + 1
    ensures NextUse(trace, x) <= NextUse(trace, y) ==> misses' <= misses
    decreases |trace|, 0
  {
    hide *;
    var n, rest := trace[0], trace[1..];
    ExchangeFacts(c, x, y, cachesize, v, n);
    ExchangeFull(c, x, y, cachesize);
    if v == y {
      misses' := ExchangeEvictsY(c, x, y, cachesize, trace, misses);
    } else {
      ExchangeMoves(c, x, y, cachesize, v, n);
      ReplaceInOther(c, y, v, n);
      var c' := Replace(c, v, n);
      if n == x {
        misses' := ExchangeCost(c', v, y, cachesize, rest, misses - 1);
        ReplaceBack(c, v, n);
        RunHit(ANY, Plus(c, x), cachesize, trace, misses');
      } else {
        NextUseOrder(trace, x, y);
        var m := ExchangeCost(c', x, y, cachesize, rest, misses - 1);
        misses' := m + 1;
        ReplaceInOther(c, x, v, n);
        IsVictim(Plus(c, x), rest, v);
        RunMiss(ANY, Plus(c, x), cachesize, trace, v, m);
      }
    }
  }

  lemma VictimOrder(resident: set<Page>, rest: seq<Page>, v: Page, u: Page)
    requires Victim(FURTHEST, resident, rest, v) && Victim(ANY, resident, rest, u)
    ensures u in resident && v in resident && NextUse(rest, u) <= NextUse(rest, v)
  {
  }

  /** Two caches that evicted different pages differ in just these. */
  lemma TwoVictims(resident: set<Page>, u: Page, v: Page, n: Page) returns (c: set<Page>)
    requires u in resident && v in resident && u != v && n !in resident
    ensures Replace(resident, u, n) == Plus(c, v) && Replace(resident, v, n) == Plus(c, u)
    ensures Exchange(c, u, v, |resident|)
  {
    c := Replace(resident - {u}, v, n);
    ReplaceSize(resident - {u}, v, n);
    assert |resident - {u}| + 1 == |resident|;
    forall x: Page ensures x in Replace(resident, u, n) <==> x in Plus(c, v) {}
    forall x: Page ensures x in Replace(resident, v, n) <==> x in Plus(c, u) {}
  }

  /** Belady's theorem: from equal contents, evicting the page needed furthest in the future never
      leads to more misses than any demand policy has. */
  lemma {:induction false} OptIsOptimal(resident: set<Page>, cachesize: nat, trace: seq<Page>, best: nat, misses: nat)
    requires |resident| <= cachesize
    requires Run(FURTHEST, resident, cachesize, trace, best) && Run(ANY, resident, cachesize, trace, misses)
    ensures best <= misses
    decreases |trace|
  {
    if trace != [] {
      var n, rest := trace[0], trace[1..];
      if n in resident {
        OptIsOptimal(resident, cachesize, rest, best, misses);
      } else if |resident| < cachesize {
        OptIsOptimal(resident + {n}, cachesize, rest, best - 1, misses - 1);
      } else {
        var v: Page :| Victim(FURTHEST, resident, rest, v) && Run(FURTHEST, Replace(resident, v, n), cachesize, rest, best - 1);
        var u: Page :| Victim(ANY, resident, rest, u) && Run(ANY, Replace(resident, u, n), cachesize, rest, misses - 1);
        OptAgainst(resident, cachesize, trace, best, misses, v, u);
      }
    }
  }

  lemma {:induction false} OptAgainst(resident: set<Page>, cachesize: nat, trace: seq<Page>, best: nat, misses: nat, v: Page, u: Page)
    requires trace != [] && trace[0] !in resident && |resident| == cachesize && best > 0 && misses > 0
    requires Victim(FURTHEST, resident, trace[1..], v) && Victim(ANY, resident, trace[1..], u)
    requires Run(FURTHEST, Replace(resident, v, trace[0]), cachesize, trace[1..], best - 1)
    requires Run(ANY, Replace(resident, u, trace[0]), cachesize, trace[1..], misses - 1)
    ensures best <= misses
    decreases |trace|, 0
  {
    hide *;
    var n, rest := trace[0], trace[1..];
    var m := misses - 1;
    VictimOrder(resident, rest, v, u);
    ReplaceSize(resident, v, n);
    if u != v {
      var c := TwoVictims(resident, u, v, n);
      m := ExchangeCost(c, u, v, cachesize, rest, misses - 1);
    }
    OptIsOptimal(Replace(resident, v, n), cachesize, rest, best - 1, m);
  }

  // ------------------------------------------------------------ the other way round

  /** A policy with some choice is a demand policy. */
  lemma {:induction false} RunIsDemand(choice: Choice, resident: set<Page>, cachesize: nat, trace: seq<Page>, misses: nat)
    requires Run(choice, resident, cachesize, trace, misses)
    ensures Run(ANY, resident, cachesize, trace, misses)
    decreases |trace|
  {
    if trace != [] {
      var n, rest := trace[0], trace[1..];
      if n in resident {
        RunIsDemand(choice, resident, cachesize, rest, misses);
      } else if |resident| < cachesize {
        RunIsDemand(choice, resident + {n}, cachesize, rest, misses - 1);
      } else {
        var v: Page :| Victim(choice, resident, rest, v) && Run(choice, Replace(resident, v, n), cachesize, rest, misses - 1);
        RunIsDemand(choice, Replace(resident, v, n), cachesize, rest, misses - 1);
        assert Victim(ANY, resident, rest, v);
      }
    }
  }

  /** Whatever misses a policy has with x resident, some policy has as many with y resident instead, if x
      is needed no later than y. */
  lemma {:induction false} ExchangeGain(c: set<Page>, x: Page, y: Page, cachesize: nat, trace: seq<Page>, misses: nat)
    returns (misses': nat)
    requires Exchange(c, x, y, cachesize) && Run(ANY, Plus(c, x), cachesize, trace, misses)
    requires NextUse(trace, x) <= NextUse(trace, y)
    ensures Run(ANY, Plus(c, y), cachesize, trace, misses') && misses' >= misses
    decreases |trace|
  {
    misses' := 0;
    if trace != [] {
      var n, rest := trace[0], trace[1..];
      ExchangeFull(c, x, y, cachesize);
      if n in c {
        misses' := ExchangeGain(c, x, y, cachesize, rest, misses);
      } else if n == x {
        misses' := misses + 1;
        ReplaceItself(c, y, n);
        assert Victim(ANY, Plus(c, y), rest, y);
      } else {
        var v: Page :| Victim(ANY, Plus(c, x), rest, v) && Run(ANY, Replace(Plus(c, x), v, n), cachesize, rest, misses - 1);
        misses' := GainOnMiss(c, x, y, cachesize, trace, misses, v);
      }
    }
  }

  lemma {:induction false} GainOnMiss(c: set<Page>, x: Page, y: Page, cachesize: nat, trace: seq<Page>, misses: nat, v: Page)
    returns (misses': nat)
    requires Exchange(c, x, y, cachesize) && trace != [] && trace[0] !in Plus(c, x) && trace[0] != y && misses > 0
    requires v in Plus(c, x) && Run(ANY, Replace(Plus(c, x), v, trace[0]), cachesize, trace[1..], misses - 1)
    requires NextUse(trace, x) <= NextUse(trace, y)
    ensures Run(ANY, Plus(c, y), cachesize, trace, misses') && misses' >= misses
    decreases |trace|, 0
  {
    hide *;
    var n, rest := trace[0], trace[1..];
    ExchangeBack(c, x, y, cachesize);
    ExchangeFacts(c, y, x, cachesize, v, n);
    ExchangeFull(c, x, y, cachesize);
    if v == x {
      misses' := misses;
      ReplaceItself(c, x, n);
      ReplaceItself(c, y, n);
      IsVictim(Plus(c, y), rest, y);
      RunMiss(ANY, Plus(c, y), cachesize, trace, y, misses - 1);
    } else {
      ExchangeMoves(c, x, y, cachesize, v, n);
      ReplaceInOther(c, x, v, n);
      ReplaceInOther(c, y, v, n);
      NextUseOrder(trace, x, y);
      var m := ExchangeGain(Replace(c, v, n), x, y, cachesize, rest, misses - 1);
      misses' := m + 1;
      IsVictim(Plus(c, y), rest, v);
      RunMiss(ANY, Plus(c, y), cachesize, trace, v, m);
    }
  }

  lemma ExchangeBack(c: set<Page>, x: Page, y: Page, cachesize: nat)
    requires Exchange(c, x, y, cachesize)
    ensures Exchange(c, y, x, cachesize)
  {
  }

  lemma NearestOrder(resident: set<Page>, rest: seq<Page>, v: Page, u: Page)
    requires Victim(NEAREST, resident, rest, v) && Victim(ANY, resident, rest, u)
    ensures u in resident && v in resident && NextUse(rest, v) <= NextUse(rest, u)
  {
  }

  /** Evicting the page needed soonest never leads to fewer misses than any demand policy has. */
  lemma {:induction false} UnoptIsWorst(resident: set<Page>, cachesize: nat, trace: seq<Page>, worst: nat, misses: nat)
    requires |resident| <= cachesize
    requires Run(NEAREST, resident, cachesize, trace, worst) && Run(ANY, resident, cachesize, trace, misses)
    ensures misses <= worst
    decreases |trace|
  {
    if trace != [] {
      var n, rest := trace[0], trace[1..];
      if n in resident {
        UnoptIsWorst(resident, cachesize, rest, worst, misses);
      } else if |resident| < cachesize {
        UnoptIsWorst(resident + {n}, cachesize, rest, worst - 1, misses - 1);
      } else {
        var v: Page :| Victim(NEAREST, resident, rest, v) && Run(NEAREST, Replace(resident, v, n), cachesize, rest, worst - 1);
        var u: Page :| Victim(ANY, resident, rest, u) && Run(ANY, Replace(resident, u, n), cachesize, rest, misses - 1);
        UnoptAgainst(resident, cachesize, trace, worst, misses, v, u);
      }
    }
  }

  lemma {:induction false} UnoptAgainst(resident: set<Page>, cachesize: nat, trace: seq<Page>, worst: nat, misses: nat, v: Page, u: Page)
    requires trace != [] && trace[0] !in resident && |resident| == cachesize && worst > 0 && misses > 0
    requires Victim(NEAREST, resident, trace[1..], v) && Victim(ANY, resident, trace[1..], u)
    requires Run(NEAREST, Replace(resident, v, trace[0]), cachesize, trace[1..], worst - 1)
    requires Run(ANY, Replace(resident, u, trace[0]), cachesize, trace[1..], misses - 1)
    ensures misses <= worst
    decreases |trace|, 0
  {
    hide *;
    var n, rest := trace[0], trace[1..];
    var m := misses - 1;
    NearestOrder(resident, rest, v, u);
    ReplaceSize(resident, v, n);
    if u != v {
      var c := TwoVictims(resident, u, v, n);
      ExchangeBack(c, u, v, cachesize);
      m := ExchangeGain(c, v, u, cachesize, rest, misses - 1);
    }
    UnoptIsWorst(Replace(resident, v, n), cachesize, rest, worst - 1, m);
  }

  // ------------------------------------------------------------ LRU and recency

  function Without(s: seq<Page>, p: Page): seq<Page> {
    if s == [] then [] else if s[0] == p then Without(s[1..], p) else [s[0]] + Without(s[1..], p)
  }

  /** The pages of a trace, the least recently accessed first. */
  ghost function Recency(trace: seq<Page>): seq<Page> {
    if trace == [] then []
    else Without(Recency(trace[..|trace|-1]), trace[|trace|-1]) + [trace[|trace|-1]]
  }

  ghost function Last(s: seq<Page>, n: nat): seq<Page> {
    if |s| <= n then s else s[|s|-n..]
  }

  /** The accesses whose page is not among the `cachesize` most recently accessed ones. */
  ghost function LruMisses(trace: seq<Page>, cachesize: nat): nat {
    if trace == [] then 0
    else
      var front, n := trace[..|trace|-1], trace[|trace|-1];
      LruMisses(front, cachesize) + if n in Last(Recency(front), cachesize) then 0 else 1
  }

  /** LRU has no anomaly: a larger cache never has more misses. */
  lemma {:induction false} LruHasNoAnomaly(trace: seq<Page>, small: nat, large: nat)
    requires small <= large
    ensures LruMisses(trace, large) <= LruMisses(trace, small)
  {
    if trace != [] {
      var front, n := trace[..|trace|-1], trace[|trace|-1];
      LruHasNoAnomaly(front, small, large);
      hide Recency, Last;
      if n in Last(Recency(front), small) { LastGrows(Recency(front), small, large, n); }
    }
  }

  lemma LastGrows(s: seq<Page>, small: nat, large: nat, p: Page)
    requires small <= large && p in Last(s, small)
    ensures p in Last(s, large)
  {
    var i :| 0 <= i < |Last(s, small)| && Last(s, small)[i] == p;
    assert Last(s, large)[|Last(s, large)| - |Last(s, small)| + i] == p;
  }

  lemma {:induction false} WithoutIs(s: seq<Page>, p: Page)
    requires Distinct(s)
    ensures Distinct(Without(s, p))
    ensures forall q :: q in Without(s, p) <==> q in s && q != p
    ensures |Without(s, p)| == if p in s then |s| - 1 else |s|
    ensures p !in s ==> Without(s, p) == s
  {
    if s != [] {
      WithoutIs(s[1..], p);
      assert s == [s[0]] + s[1..];
      assert forall q :: q in s <==> q == s[0] || q in s[1..];
      assert s[0] !in s[1..];
    }
  }

  lemma {:induction false} WithoutAppend(s: seq<Page>, t: seq<Page>, p: Page)
    ensures Without(s + t, p) == Without(s, p) + Without(t, p)
  {
    if s == [] {
      assert s + t == t;
    } else {
      var st := s + t;
      assert st[0] == s[0] && st[1..] == s[1..] + t;
      WithoutAppend(s[1..], t, p);
    }
  }

  lemma {:induction false} RecencyDistinct(trace: seq<Page>)
    ensures Distinct(Recency(trace))
  {
    if trace != [] {
      var front, n := trace[..|trace|-1], trace[|trace|-1];
      RecencyDistinct(front);
      WithoutIs(Recency(front), n);
    }
  }

  /** The list of an LRU cache after an access to n. */
  function LruNext(memory: seq<Page>, n: Page, cachesize: nat): seq<Page> {
    if n in memory then Without(memory, n) + [n]
    else if |memory| < cachesize || memory == [] then memory + [n]
    else memory[1..] + [n]
  }

  /** An LRU cache holds the most recently accessed pages. */
  lemma LruIsRecency(trace: seq<Page>, n: Page, cachesize: nat)
    requires cachesize > 0
    ensures LruNext(Last(Recency(trace), cachesize), n, cachesize) == Last(Recency(trace + [n]), cachesize)
  {
    assert (trace + [n])[..|trace|] == trace;
    RecencyDistinct(trace);
    LastIsLru(Recency(trace), n, cachesize);
  }

  lemma LastIsLru(r: seq<Page>, n: Page, cachesize: nat)
    requires cachesize > 0 && Distinct(r)
    ensures LruNext(Last(r, cachesize), n, cachesize) == Last(Without(r, n) + [n], cachesize)
  {
    var last := Last(r, cachesize);
    var old_ := r[..|r|-|last|];
    assert r == old_ + last;
    SplitDistinct(old_, last);
    WithoutAppend(old_, last, n);
    hide *;
    if n in last {
      LruHit(old_, last, n, cachesize);
    } else {
      LruMiss(old_, last, n, cachesize);
    }
  }

  lemma SplitDistinct(s: seq<Page>, t: seq<Page>)
    requires Distinct(s + t)
    ensures Distinct(s) && Distinct(t) && forall p :: p in t ==> p !in s
  {
    forall i, j | 0 <= i < j < |s| ensures s[i] != s[j] { assert (s + t)[i] == s[i] && (s + t)[j] == s[j]; }
    forall i, j | 0 <= i < j < |t| ensures t[i] != t[j] {
      assert (s + t)[|s| + i] == t[i] && (s + t)[|s| + j] == t[j];
    }
    forall p | p in t ensures p !in s {
      var j :| 0 <= j < |t| && t[j] == p;
      assert (s + t)[|s| + j] == p;
      forall i | 0 <= i < |s| ensures s[i] != p { assert (s + t)[i] == s[i]; }
    }
  }

  lemma LruHit(old_: seq<Page>, last: seq<Page>, n: Page, cachesize: nat)
    requires Distinct(old_) && Distinct(last) && n in last && n !in old_
    requires |last| <= cachesize && (|last| < cachesize ==> old_ == [])
    ensures LruNext(last, n, cachesize) == Last(Without(old_, n) + Without(last, n) + [n], cachesize)
  {
    WithoutIs(old_, n);
    WithoutIs(last, n);
    hide Without, Last, Distinct;
    var s := Without(last, n) + [n];
    assert old_ + Without(last, n) + [n] == old_ + s;
    LastOfAppend(old_, s, cachesize);
  }

  lemma LruMiss(old_: seq<Page>, last: seq<Page>, n: Page, cachesize: nat)
    requires Distinct(old_) && Distinct(last) && n !in last && cachesize > 0
    requires |last| <= cachesize && (|last| < cachesize ==> old_ == [])
    ensures LruNext(last, n, cachesize) == Last(Without(old_, n) + Without(last, n) + [n], cachesize)
  {
    hide *;
    WithoutIs(last, n);
    NothingWithout(n);
    NextOnMiss(last, n, cachesize);
    var s := Without(old_, n);
    if |last| < cachesize {
      assert s + last + [n] == [] + (last + [n]);
      LastOfAppend([], last + [n], cachesize);
    } else {
      Regroup(s, last, n);
      LastOfAppend(s + last[..1], last[1..] + [n], cachesize);
    }
  }

  lemma NothingWithout(n: Page)
    ensures Without([], n) == []
  {
  }

  lemma NextOnMiss(memory: seq<Page>, n: Page, cachesize: nat)
    requires n !in memory && cachesize > 0
    ensures LruNext(memory, n, cachesize) == if |memory| < cachesize then memory + [n] else if memory == [] then [n] else memory[1..] + [n]
  {
  }

  lemma Regroup(s: seq<Page>, t: seq<Page>, n: Page)
    requires t != []
    ensures s + t + [n] == (s + t[..1]) + (t[1..] + [n])
  {
    var a, b := t[..1], t[1..];
    assert t == a + b;
  }

  lemma LastOfAppend(s: seq<Page>, t: seq<Page>, n: nat)
    requires |t| == n || (|t| <= n && s == [])
    ensures Last(s + t, n) == t
  {
  }

  // ------------------------------------------------------------ the simulator

  ghost function Pages(memory: seq<Page>): set<Page> {
    set p | p in memory
  }

  lemma {:induction false} PagesSize(memory: seq<Page>)
    requires Distinct(memory)
    ensures |Pages(memory)| == |memory|
  {
    if memory != [] {
      var n := |memory| - 1;
      PagesSize(memory[..n]);
      assert memory == memory[..n] + [memory[n]];
      forall p: Page | p in Pages(memory) ensures p in Pages(memory[..n]) + {memory[n]} { }
      assert Pages(memory) == Pages(memory[..n]) + {memory[n]};
      assert memory[n] !in memory[..n];
    }
  }

  /** One access of a demand policy to page n, with the trace `rest` still to come. */
  ghost predicate Step(choice: Choice, before: set<Page>, cachesize: nat, n: Page, rest: seq<Page>, after: set<Page>, missed: bool) {
    if n in before then after == before && !missed
    else missed &&
         (if |before| < cachesize then after == before + {n}
          else exists v: Page :: Victim(choice, before, rest, v) && after == Replace(before, v, n))
  }

  lemma StepRun(choice: Choice, before: set<Page>, cachesize: nat, trace: seq<Page>, after: set<Page>, missed: bool, misses: nat)
    requires trace != [] && Step(choice, before, cachesize, trace[0], trace[1..], after, missed)
    requires Run(choice, after, cachesize, trace[1..], misses)
    ensures Run(choice, before, cachesize, trace, misses + if missed then 1 else 0)
  {
  }

  /** Whatever happens from here on, the whole run is one of the policy. */
  ghost predicate Continues(choice: Choice, cachesize: nat, trace: seq<Page>, i: nat, resident: set<Page>, miss: nat)
    requires i <= |trace|
  {
    forall m: nat :: Run(choice, resident, cachesize, trace[i..], m) ==> Run(choice, {}, cachesize, trace, miss + m)
  }

  lemma ContinuesNext(choice: Choice, cachesize: nat, trace: seq<Page>, i: nat, before: set<Page>, after: set<Page>, missed: bool, miss: nat)
    requires i < |trace| && Continues(choice, cachesize, trace, i, before, miss)
    requires Step(choice, before, cachesize, trace[i], trace[i+1..], after, missed)
    ensures Continues(choice, cachesize, trace, i + 1, after, miss + if missed then 1 else 0)
  {
    hide Step, Run;
    var rest := trace[i+1..];
    assert trace[i..][1..] == rest;
    forall m: nat | Run(choice, after, cachesize, rest, m)
      ensures Run(choice, {}, cachesize, trace, miss + (if missed then 1 else 0) + m)
    {
      StepRun(choice, before, cachesize, trace[i..], after, missed, m);
    }
  }

  /** The search for the next reference of a page in the rest of the trace. */
  method WhenReferenced(addrList: seq<Page>, addrIndex: nat, page: Page) returns (whenReferenced: nat)
    requires addrIndex < |addrList|
    ensures whenReferenced == addrIndex + 1 + NextUse(addrList[addrIndex+1..], page)
  {
    whenReferenced := |addrList|;
    var futureIdx := addrIndex + 1;
    while futureIdx < |addrList|
      invariant addrIndex + 1 <= futureIdx <= |addrList|
      invariant whenReferenced == |addrList|
      invariant NextUse(addrList[addrIndex+1..], page) == futureIdx - addrIndex - 1 + NextUse(addrList[futureIdx..], page)
    {
      assert addrList[futureIdx..][1..] == addrList[futureIdx+1..];
      if page == addrList[futureIdx] {
        whenReferenced := futureIdx;
        break;
      }
      futureIdx := futureIdx + 1;
    }
  }

  /** The choice of OPT: the last of the resident pages whose next reference is furthest. */
  method OptVictim(memory: seq<Page>, addrList: seq<Page>, addrIndex: nat) returns (replaceIdx: nat)
    requires memory != [] && addrIndex < |addrList|
    ensures replaceIdx < |memory|
    ensures forall k :: 0 <= k < |memory| ==>
              NextUse(addrList[addrIndex+1..], memory[k]) <= NextUse(addrList[addrIndex+1..], memory[replaceIdx])
    ensures forall k :: replaceIdx < k < |memory| ==>
              NextUse(addrList[addrIndex+1..], memory[k]) < NextUse(addrList[addrIndex+1..], memory[replaceIdx])
  {
    var maxReplace: int := -1;
    replaceIdx := 0;
    var pageIndex := 0;
    while pageIndex < |memory|
      invariant 0 <= pageIndex <= |memory| && replaceIdx < |memory|
      invariant pageIndex > 0 ==> maxReplace == addrIndex + 1 + NextUse(addrList[addrIndex+1..], memory[replaceIdx])
      invariant pageIndex == 0 ==> maxReplace == -1
      invariant forall k :: 0 <= k < pageIndex ==> addrIndex + 1 + NextUse(addrList[addrIndex+1..], memory[k]) <= maxReplace
      invariant forall k :: replaceIdx < k < pageIndex ==> addrIndex + 1 + NextUse(addrList[addrIndex+1..], memory[k]) < maxReplace
    {
      var whenReferenced := WhenReferenced(addrList, addrIndex, memory[pageIndex]);
      if whenReferenced >= maxReplace {
        replaceIdx, maxReplace := pageIndex, whenReferenced;
      }
      pageIndex := pageIndex + 1;
    }
  }

  /** The choice of UNOPT: the first of the resident pages whose next reference is nearest. */
  method UnoptVictim(memory: seq<Page>, addrList: seq<Page>, addrIndex: nat) returns (replaceIdx: nat)
    requires memory != [] && addrIndex < |addrList|
    ensures replaceIdx < |memory|
    ensures forall k :: 0 <= k < |memory| ==>
              NextUse(addrList[addrIndex+1..], memory[k]) >= NextUse(addrList[addrIndex+1..], memory[replaceIdx])
    ensures forall k :: 0 <= k < replaceIdx ==>
              NextUse(addrList[addrIndex+1..], memory[k]) > NextUse(addrList[addrIndex+1..], memory[replaceIdx])
  {
    var minReplace := |addrList| + 1;
    replaceIdx := 0;
    var pageIndex := 0;
    while pageIndex < |memory|
      invariant 0 <= pageIndex <= |memory| && replaceIdx < |memory|
      invariant pageIndex > 0 ==> minReplace == addrIndex + 1 + NextUse(addrList[addrIndex+1..], memory[replaceIdx])
      invariant pageIndex == 0 ==> minReplace == |addrList| + 1
      invariant forall k :: 0 <= k < pageIndex ==> addrIndex + 1 + NextUse(addrList[addrIndex+1..], memory[k]) >= minReplace
      invariant forall k :: 0 <= k < replaceIdx ==> addrIndex + 1 + NextUse(addrList[addrIndex+1..], memory[k]) > minReplace
    {
      var whenReferenced := WhenReferenced(addrList, addrIndex, memory[pageIndex]);
      if whenReferenced < minReplace {
        replaceIdx, minReplace := pageIndex, whenReferenced;
      }
      pageIndex := pageIndex + 1;
    }
  }

  ghost predicate Referenced(memory: seq<Page>, ref: map<Page, int>) {
    forall k :: 0 <= k < |memory| ==> memory[k] in ref
  }

  /** The reference counts that the clock can still use up. */
  ghost function Charge(memory: seq<Page>, ref: map<Page, int>): nat
    requires Referenced(memory, ref)
  {
    if memory == [] then 0
    else
      var n := |memory| - 1;
      Charge(memory[..n], ref) + if ref[memory[n]] > 0 then ref[memory[n]] else 0
  }

  lemma {:induction false} ChargeDrops(memory: seq<Page>, ref: map<Page, int>, p: Page)
    requires Referenced(memory, ref) && p in ref && ref[p] >= 1
    ensures Charge(memory, ref[p := ref[p] - 1]) <= Charge(memory, ref)
    ensures p in memory ==> Charge(memory, ref[p := ref[p] - 1]) < Charge(memory, ref)
  {
    if memory != [] {
      var n := |memory| - 1;
      ChargeDrops(memory[..n], ref, p);
      assert memory == memory[..n] + [memory[n]];
    }
  }

  /** What the clock can leave: resident pages have lost references, down to 0, and the page at idx has none. */
  ghost predicate Turned(memory: seq<Page>, ref: map<Page, int>, idx: nat, ref': map<Page, int>) {
    && ref'.Keys == ref.Keys && idx < |memory| && memory[idx] in ref' && ref'[memory[idx]] < 1
    && forall p :: p in ref ==> ref'[p] == ref[p] || (p in memory && 0 <= ref'[p] < ref[p])
  }

  /** The clock: pages at random places lose a reference until one has none left; the counts
      bound the number of rounds, whatever the random choices are. */
  method ClockVictim(memory: seq<Page>, ref: map<Page, int>) returns (replaceIdx: nat, ref': map<Page, int>)
    requires memory != [] && Referenced(memory, ref)
    ensures Turned(memory, ref, replaceIdx, ref') && Referenced(memory, ref')
  {
    ref' := ref;
    replaceIdx :| replaceIdx < |memory|;
    while ref'[memory[replaceIdx]] >= 1
      invariant replaceIdx < |memory| && Referenced(memory, ref') && ref'.Keys == ref.Keys
      invariant forall p :: p in ref ==> ref'[p] == ref[p] || (p in memory && 0 <= ref'[p] < ref[p])
      decreases Charge(memory, ref')
    {
      var page := memory[replaceIdx];
      ChargeDrops(memory, ref', page);
      ref' := ref'[page := ref'[page] - 1];
      replaceIdx :| replaceIdx < |memory|;
    }
  }

  ghost predicate LastFurthest(memory: seq<Page>, rest: seq<Page>, i: nat)
    requires i < |memory|
  {
    && (forall k :: 0 <= k < |memory| ==> NextUse(rest, memory[k]) <= NextUse(rest, memory[i]))
    && forall k :: i < k < |memory| ==> NextUse(rest, memory[k]) < NextUse(rest, memory[i])
  }

  ghost predicate FirstNearest(memory: seq<Page>, rest: seq<Page>, i: nat)
    requires i < |memory|
  {
    && (forall k :: 0 <= k < |memory| ==> NextUse(rest, memory[k]) >= NextUse(rest, memory[i]))
    && forall k :: 0 <= k < i ==> NextUse(rest, memory[k]) > NextUse(rest, memory[i])
  }

  /** Which place each policy empties. */
  ghost predicate Picks(policy: Policy, memory: seq<Page>, rest: seq<Page>, i: nat)
    requires i < |memory|
  {
    && (policy == FIFO || policy == LRU ==> i == 0)
    && (policy == MRU ==> i == |memory| - 1)
    && (policy == OPT ==> LastFurthest(memory, rest, i))
    && (policy == UNOPT ==> FirstNearest(memory, rest, i))
  }

  /** The choice of the page at place i, with the reference counts before and after it. */
  ghost predicate Chooses(policy: Policy, memory: seq<Page>, ref: map<Page, int>, rest: seq<Page>, i: nat, ref': map<Page, int>) {
    i < |memory| && Picks(policy, memory, rest, i) && if policy == CLOCK then Turned(memory, ref, i, ref') else ref' == ref
  }

  /** A page that was missing is put behind the others; a full memory first loses one by the policy, and
      the clock forgets its references. */
  ghost predicate Loaded(policy: Policy, memory: seq<Page>, ref: map<Page, int>, n: Page, rest: seq<Page>, cachesize: nat,
                         memory': seq<Page>, ref': map<Page, int>)
  {
    if |memory| < cachesize then memory' == memory + [n] && ref' == ref
    else exists i: nat, turned: map<Page, int> :: Chooses(policy, memory, ref, rest, i, turned)
           && memory' == memory[..i] + memory[i+1..] + [n] && ref' == if policy == CLOCK then turned - {memory[i]} else turned
  }

  lemma LoadedFull(policy: Policy, memory: seq<Page>, ref: map<Page, int>, n: Page, rest: seq<Page>, cachesize: nat, i: nat, turned: map<Page, int>)
    requires |memory| == cachesize && i < |memory| && Chooses(policy, memory, ref, rest, i, turned)
    ensures Loaded(policy, memory, ref, n, rest, cachesize, memory[..i] + memory[i+1..] + [n],
                   if policy == CLOCK then turned - {memory[i]} else turned)
  {
    hide Chooses;
  }

  lemma LoadedFree(policy: Policy, memory: seq<Page>, ref: map<Page, int>, n: Page, rest: seq<Page>, cachesize: nat)
    requires |memory| < cachesize
    ensures Loaded(policy, memory, ref, n, rest, cachesize, memory + [n], ref)
  {
  }

  /** The reference count of an accessed page. */
  function Counted(ref: map<Page, int>, n: Page, clockbits: int): map<Page, int> {
    ref[n := if n !in ref then 1 else if ref[n] + 1 > clockbits then clockbits else ref[n] + 1]
  }

  /** A hit moves the page to the back for the policies by recency. */
  function Touched(policy: Policy, memory: seq<Page>, n: Page): seq<Page> {
    if policy == LRU || policy == MRU then Without(memory, n) + [n] else memory
  }

  /** The simulator, from this memory and these counts on, has exactly `misses` misses on the trace. */
  ghost predicate Simulates(policy: Policy, memory: seq<Page>, ref: map<Page, int>, cachesize: nat, clockbits: int, trace: seq<Page>, misses: nat)
    decreases |trace|
  {
    if trace == [] then misses == 0
    else if trace[0] in memory then
      Simulates(policy, Touched(policy, memory, trace[0]), Counted(ref, trace[0], clockbits), cachesize, clockbits, trace[1..], misses)
    else if misses == 0 then false
    else exists memory': seq<Page>, ref': map<Page, int> :: Loaded(policy, memory, ref, trace[0], trace[1..], cachesize, memory', ref')
           && Simulates(policy, memory', Counted(ref', trace[0], clockbits), cachesize, clockbits, trace[1..], misses - 1)
  }

  /** One access of the simulator. */
  ghost predicate Accessed(policy: Policy, memory: seq<Page>, ref: map<Page, int>, n: Page, rest: seq<Page>, cachesize: nat, clockbits: int,
                           memory': seq<Page>, ref': map<Page, int>, hit: bool)
  {
    if n in memory then hit && memory' == Touched(policy, memory, n) && ref' == Counted(ref, n, clockbits)
    else !hit && exists r: map<Page, int> :: Loaded(policy, memory, ref, n, rest, cachesize, memory', r) && ref' == Counted(r, n, clockbits)
  }

  lemma AccessedSimulates(policy: Policy, memory: seq<Page>, ref: map<Page, int>, cachesize: nat, clockbits: int, trace: seq<Page>,
                          memory': seq<Page>, ref': map<Page, int>, hit: bool, misses: nat)
    requires trace != [] && Accessed(policy, memory, ref, trace[0], trace[1..], cachesize, clockbits, memory', ref', hit)
    requires Simulates(policy, memory', ref', cachesize, clockbits, trace[1..], misses)
    ensures Simulates(policy, memory, ref, cachesize, clockbits, trace, misses + if hit then 0 else 1)
  {
    hide Loaded, Counted, Touched;
  }

  /** Whatever the simulator does from here on, it does after what it has done. */
  ghost predicate GoesOn(policy: Policy, cachesize: nat, clockbits: int, trace: seq<Page>, i: nat, memory: seq<Page>, ref: map<Page, int>, miss: nat)
    requires i <= |trace|
  {
    forall m: nat :: Simulates(policy, memory, ref, cachesize, clockbits, trace[i..], m) ==>
      Simulates(policy, [], map[], cachesize, clockbits, trace, miss + m)
  }

  lemma GoesOnNext(policy: Policy, cachesize: nat, clockbits: int, trace: seq<Page>, i: nat, memory: seq<Page>, ref: map<Page, int>, miss: nat,
                   memory': seq<Page>, ref': map<Page, int>, hit: bool)
    requires i < |trace| && GoesOn(policy, cachesize, clockbits, trace, i, memory, ref, miss)
    requires Accessed(policy, memory, ref, trace[i], trace[i+1..], cachesize, clockbits, memory', ref', hit)
    ensures GoesOn(policy, cachesize, clockbits, trace, i + 1, memory', ref', miss + if hit then 0 else 1)
  {
    hide Accessed, Simulates;
    var rest := trace[i+1..];
    assert trace[i..][1..] == rest;
    forall m: nat | Simulates(policy, memory', ref', cachesize, clockbits, rest, m)
      ensures Simulates(policy, [], map[], cachesize, clockbits, trace, miss + (if hit then 0 else 1) + m)
    {
      AccessedSimulates(policy, memory, ref, cachesize, clockbits, trace[i..], memory', ref', hit, m);
    }
  }

  /** The page that goes, by its place in memory. */
  method ChooseVictim(policy: Policy, memory: seq<Page>, addrList: seq<Page>, addrIndex: nat, ref: map<Page, int>)
    returns (idx: nat, ref': map<Page, int>)
    requires memory != [] && addrIndex < |addrList| && Referenced(memory, ref)
    ensures idx < |memory| && Referenced(memory, ref')
    ensures policy == FIFO || policy == LRU ==> idx == 0
    ensures policy == MRU ==> idx == |memory| - 1
    ensures Victim(ChoiceOf(policy), Pages(memory), addrList[addrIndex+1..], memory[idx])
    ensures Chooses(policy, memory, ref, addrList[addrIndex+1..], idx, ref')
  {
    ref' := ref;
    match policy
    case FIFO => idx := 0;
    case LRU => idx := 0;
    case MRU => idx := |memory| - 1;
    case RAND => idx :| idx < |memory|;
    case CLOCK => idx, ref' := ClockVictim(memory, ref);
    case OPT => idx := OptVictim(memory, addrList, addrIndex);
    case UNOPT => idx := UnoptVictim(memory, addrList, addrIndex);
  }

  lemma PopPages(memory: seq<Page>, idx: nat, n: Page)
    requires idx < |memory| && Distinct(memory) && n !in memory
    ensures Pages(memory[..idx] + memory[idx+1..] + [n]) == Replace(Pages(memory), memory[idx], n)
    ensures Distinct(memory[..idx] + memory[idx+1..] + [n])
  {
    var after := memory[..idx] + memory[idx+1..] + [n];
    forall p: Page ensures p in after <==> (p in memory && p != memory[idx]) || p == n {
      assert memory == memory[..idx] + [memory[idx]] + memory[idx+1..];
    }
  }

  lemma SamePages(s: seq<Page>, t: seq<Page>)
    requires forall p :: p in s <==> p in t
    ensures Pages(s) == Pages(t)
  {
    forall p: Page ensures p in Pages(s) <==> p in Pages(t) { }
  }

  lemma AppendPages(s: seq<Page>, n: Page)
    ensures Pages(s + [n]) == Pages(s) + {n}
  {
    forall p: Page ensures p in Pages(s + [n]) <==> p in Pages(s) + {n} { }
  }

  /** A miss: n is loaded, into the place of a victim if the cache is full. */
  method Load(policy: Policy, addrList: seq<Page>, addrIndex: nat, memory: seq<Page>, ref: map<Page, int>, cachesize: nat)
    returns (memory': seq<Page>, ref': map<Page, int>)
    requires addrIndex < |addrList| && cachesize > 0 && addrList[addrIndex] !in memory
    requires Distinct(memory) && |memory| <= cachesize && Referenced(memory, ref)
    ensures memory' != [] && memory'[|memory'|-1] == addrList[addrIndex]
    ensures Distinct(memory') && |memory'| <= cachesize && Referenced(memory'[..|memory'|-1], ref')
    ensures Step(ChoiceOf(policy), Pages(memory), cachesize, addrList[addrIndex], addrList[addrIndex+1..], Pages(memory'), true)
    ensures policy == LRU ==> memory' == LruNext(memory, addrList[addrIndex], cachesize)
    ensures Loaded(policy, memory, ref, addrList[addrIndex], addrList[addrIndex+1..], cachesize, memory', ref')
  {
    hide Furthest, Distinct, Run, Pages, Replace, Chooses, Loaded;
    var n := addrList[addrIndex];
    ref' := ref;
    PagesSize(memory);
    InPages(memory, n);
    if |memory| == cachesize {
      var idx;
      idx, ref' := ChooseVictim(policy, memory, addrList, addrIndex, ref);
      var victim := memory[idx];
      PopPages(memory, idx, n);
      LoadedFull(policy, memory, ref, n, addrList[addrIndex+1..], cachesize, idx, ref');
      InPages(memory, victim);
      assert Victim(ChoiceOf(policy), Pages(memory), addrList[addrIndex+1..], victim);
      memory' := memory[..idx] + memory[idx+1..];
      if policy == CLOCK {
        VictimGone(memory, idx);
        ref' := ref' - {victim};
      }
    } else {
      AppendPages(memory, n);
      AppendDistinct(memory, n);
      LoadedFree(policy, memory, ref, n, addrList[addrIndex+1..], cachesize);
      memory' := memory;
    }
    memory' := memory' + [n];
  }

  lemma InPages(memory: seq<Page>, p: Page)
    ensures p in Pages(memory) <==> p in memory
  {
  }

  lemma AppendDistinct(memory: seq<Page>, n: Page)
    requires Distinct(memory) && n !in memory
    ensures Distinct(memory + [n])
  {
  }

  lemma VictimGone(memory: seq<Page>, idx: nat)
    requires Distinct(memory) && idx < |memory|
    ensures memory[idx] !in memory[..idx] + memory[idx+1..]
  {
  }

  /** One round of the simulator's loop. */
  method Access(policy: Policy, addrList: seq<Page>, addrIndex: nat, memory: seq<Page>, ref: map<Page, int>,
                cachesize: nat, clockbits: int)
    returns (memory': seq<Page>, ref': map<Page, int>, hit: bool)
    requires addrIndex < |addrList| && cachesize > 0
    requires Distinct(memory) && |memory| <= cachesize && Referenced(memory, ref)
    ensures Distinct(memory') && |memory'| <= cachesize && Referenced(memory', ref')
    ensures Step(ChoiceOf(policy), Pages(memory), cachesize, addrList[addrIndex], addrList[addrIndex+1..], Pages(memory'), !hit)
    ensures hit <==> addrList[addrIndex] in memory
    ensures policy == LRU ==> memory' == LruNext(memory, addrList[addrIndex], cachesize)
    ensures Accessed(policy, memory, ref, addrList[addrIndex], addrList[addrIndex+1..], cachesize, clockbits, memory', ref', hit)
  {
    hide *;
    var n := addrList[addrIndex];
    memory', ref', hit := memory, ref, n in memory;
    if hit {
      Hit(policy, memory, ref, n, addrList[addrIndex+1..], cachesize, clockbits);
      if policy == LRU || policy == MRU { memory' := Without(memory, n) + [n]; }
    } else {
      memory', ref' := Load(policy, addrList, addrIndex, memory, ref, cachesize);
      Miss(policy, memory, ref, n, addrList[addrIndex+1..], cachesize, clockbits, memory', ref');
    }
    if n !in ref' {
      ref' := ref'[n := 1];
    } else {
      ref' := ref'[n := if ref'[n] + 1 > clockbits then clockbits else ref'[n] + 1];
    }
  }

  lemma Hit(policy: Policy, memory: seq<Page>, ref: map<Page, int>, n: Page, rest: seq<Page>, cachesize: nat, clockbits: int)
    requires n in memory && Distinct(memory) && |memory| <= cachesize && Referenced(memory, ref)
    ensures Touched(policy, memory, n) == if policy == LRU || policy == MRU then Without(memory, n) + [n] else memory
    ensures Counted(ref, n, clockbits) == ref[n := if n !in ref then 1 else if ref[n] + 1 > clockbits then clockbits else ref[n] + 1]
    ensures Accessed(policy, memory, ref, n, rest, cachesize, clockbits, Touched(policy, memory, n), Counted(ref, n, clockbits), true)
    ensures var memory' := Touched(policy, memory, n);
      && Distinct(memory') && |memory'| <= cachesize && Referenced(memory', Counted(ref, n, clockbits))
      && Step(ChoiceOf(policy), Pages(memory), cachesize, n, rest, Pages(memory'), false)
      && (policy == LRU ==> memory' == LruNext(memory, n, cachesize))
  {
    hide Distinct, Without, Loaded;
    InPages(memory, n);
    if policy == LRU || policy == MRU { MovedToBack(memory, n); }
    var memory' := Touched(policy, memory, n);
    forall k | 0 <= k < |memory'| ensures memory'[k] in Counted(ref, n, clockbits) { assert memory'[k] in memory; }
  }

  lemma Miss(policy: Policy, memory: seq<Page>, ref: map<Page, int>, n: Page, rest: seq<Page>, cachesize: nat, clockbits: int,
             memory': seq<Page>, ref': map<Page, int>)
    requires n !in memory && Loaded(policy, memory, ref, n, rest, cachesize, memory', ref')
    requires memory' != [] && memory'[|memory'|-1] == n && Referenced(memory'[..|memory'|-1], ref')
    ensures Counted(ref', n, clockbits) == ref'[n := if n !in ref' then 1 else if ref'[n] + 1 > clockbits then clockbits else ref'[n] + 1]
    ensures Accessed(policy, memory, ref, n, rest, cachesize, clockbits, memory', Counted(ref', n, clockbits), false)
    ensures Referenced(memory', Counted(ref', n, clockbits))
  {
    hide Loaded;
    forall k | 0 <= k < |memory'| ensures memory'[k] in Counted(ref', n, clockbits) {
      if k < |memory'| - 1 { assert memory'[..|memory'|-1][k] in ref'; }
    }
  }

  lemma MovedToBack(memory: seq<Page>, n: Page)
    requires Distinct(memory) && n in memory
    ensures Distinct(Without(memory, n) + [n]) && Pages(Without(memory, n) + [n]) == Pages(memory)
    ensures |Without(memory, n) + [n]| == |memory|
    ensures forall p :: p in Without(memory, n) + [n] <==> p in memory
  {
    WithoutIs(memory, n);
    SamePages(memory, Without(memory, n) + [n]);
  }

  /** The simulator: every policy is a demand policy, LRU misses exactly the pages that are not
      recent enough, FIFO those that are not among the last ones loaded, MRU those that it has lost
      to later ones, OPT has the fewest misses of all demand policies, and UNOPT the most. */
  method Simulate(policy: Policy, addrList: seq<Page>, cachesize: nat, clockbits: int) returns (hits: nat, miss: nat)
    requires cachesize > 0
    ensures hits + miss == |addrList|
    ensures Run(ChoiceOf(policy), {}, cachesize, addrList, miss)
    ensures policy == LRU ==> miss == LruMisses(addrList, cachesize)
    ensures policy == FIFO ==> miss == |FifoLoads(addrList, cachesize)|
    ensures policy == MRU ==> miss == MruMisses(addrList, cachesize)
    ensures Simulates(policy, [], map[], cachesize, clockbits, addrList, miss)
    ensures Run(ANY, {}, cachesize, addrList, miss)
    ensures policy == OPT ==> forall m: nat :: Run(ANY, {}, cachesize, addrList, m) ==> miss <= m
    ensures policy == UNOPT ==> forall m: nat :: Run(ANY, {}, cachesize, addrList, m) ==> m <= miss
  {
    hide *;
    hits, miss := 0, 0;
    var memory: seq<Page>, ref: map<Page, int> := [], map[];
    Empty(ChoiceOf(policy), cachesize, addrList);
    GoesOnFirst(policy, cachesize, clockbits, addrList);
    assert addrList[..0] == [];
    var addrIndex := 0;
    while addrIndex < |addrList|
      invariant 0 <= addrIndex <= |addrList| && hits + miss == addrIndex
      invariant Distinct(memory) && |memory| <= cachesize && Referenced(memory, ref)
      invariant Continues(ChoiceOf(policy), cachesize, addrList, addrIndex, Pages(memory), miss)
      invariant GoesOn(policy, cachesize, clockbits, addrList, addrIndex, memory, ref, miss)
      invariant policy == LRU ==> memory == Last(Recency(addrList[..addrIndex]), cachesize)
      invariant policy == LRU ==> miss == LruMisses(addrList[..addrIndex], cachesize)
    {
      ghost var before, ref0, trace := memory, ref, addrList[..addrIndex];
      var hit;
      memory, ref, hit := Access(policy, addrList, addrIndex, memory, ref, cachesize, clockbits);
      ContinuesNext(ChoiceOf(policy), cachesize, addrList, addrIndex, Pages(before), Pages(memory), !hit, miss);
      GoesOnNext(policy, cachesize, clockbits, addrList, addrIndex, before, ref0, miss, memory, ref, hit);
      if policy == LRU {
        LruIsRecency(trace, addrList[addrIndex], cachesize);
        LruMissesNext(trace, addrList[addrIndex], cachesize);
        assert addrList[..addrIndex+1] == trace + [addrList[addrIndex]];
      }
      if hit { hits := hits + 1; } else { miss := miss + 1; }
      addrIndex := addrIndex + 1;
    }
    assert addrList[..addrIndex] == addrList;
    RunAtEnd(ChoiceOf(policy), cachesize, addrList, Pages(memory), miss);
    GoesOnLast(policy, cachesize, clockbits, addrList, memory, ref, miss);
    RunIsDemand(ChoiceOf(policy), {}, cachesize, addrList, miss);
    Choices();
    if policy == FIFO { FifoFromEmpty(cachesize, clockbits, addrList, miss); }
    if policy == MRU { MruFromEmpty(cachesize, clockbits, addrList, miss); }
    if policy == OPT { OptIsBest(cachesize, addrList, miss); }
    if policy == UNOPT { UnoptIsMost(cachesize, addrList, miss); }
  }

  // ------------------------------------------------------------ FIFO and MRU

  /** The pages loaded on a trace, in this order, if a page is loaded when it is not among the
      `cachesize` last ones loaded. */
  ghost function FifoLoads(trace: seq<Page>, cachesize: nat): seq<Page> {
    if trace == [] then []
    else
      var loads, n := FifoLoads(trace[..|trace|-1], cachesize), trace[|trace|-1];
      if n in Last(loads, cachesize) then loads else loads + [n]
  }

  lemma FifoNext(trace: seq<Page>, n: Page, cachesize: nat)
    ensures FifoLoads(trace + [n], cachesize) ==
            if n in Last(FifoLoads(trace, cachesize), cachesize) then FifoLoads(trace, cachesize) else FifoLoads(trace, cachesize) + [n]
  {
    assert (trace + [n])[..|trace|] == trace;
  }

  /** A FIFO cache with these loads behind it goes on to load what is not among the last ones. */
  lemma {:induction false} FifoIs(done: seq<Page>, memory: seq<Page>, ref: map<Page, int>,
                                  cachesize: nat, clockbits: int, rest: seq<Page>, misses: nat)
    requires cachesize > 0 && memory == Last(FifoLoads(done, cachesize), cachesize)
    requires Simulates(FIFO, memory, ref, cachesize, clockbits, rest, misses)
    ensures |FifoLoads(done + rest, cachesize)| == |FifoLoads(done, cachesize)| + misses
    decreases |rest|
  {
    if rest == [] {
      assert done + rest == done;
    } else {
      var n, loads := rest[0], FifoLoads(done, cachesize);
      assert done + [n] + rest[1..] == done + rest;
      FifoNext(done, n, cachesize);
      hide FifoLoads, Counted;
      if n in memory {
        assert Touched(FIFO, memory, n) == memory;
        FifoIs(done + [n], memory, Counted(ref, n, clockbits), cachesize, clockbits, rest[1..], misses);
      } else {
        var memory', ref' :| Loaded(FIFO, memory, ref, n, rest[1..], cachesize, memory', ref')
                             && Simulates(FIFO, memory', Counted(ref', n, clockbits), cachesize, clockbits, rest[1..], misses - 1);
        FifoLoaded(loads, memory, ref, n, rest[1..], cachesize, memory', ref');
        FifoIs(done + [n], memory', Counted(ref', n, clockbits), cachesize, clockbits, rest[1..], misses - 1);
      }
    }
  }

  lemma FifoLoaded(loads: seq<Page>, memory: seq<Page>, ref: map<Page, int>, n: Page, rest: seq<Page>, cachesize: nat,
                   memory': seq<Page>, ref': map<Page, int>)
    requires cachesize > 0 && memory == Last(loads, cachesize) && Loaded(FIFO, memory, ref, n, rest, cachesize, memory', ref')
    ensures memory' == Last(loads + [n], cachesize)
  {
    if |memory| == cachesize {
      assert memory[..0] + memory[1..] + [n] == Last(loads + [n], cachesize);
    }
  }

  lemma FifoFromEmpty(cachesize: nat, clockbits: int, trace: seq<Page>, misses: nat)
    requires cachesize > 0 && Simulates(FIFO, [], map[], cachesize, clockbits, trace, misses)
    ensures misses == |FifoLoads(trace, cachesize)|
  {
    hide Simulates;
    assert [] + trace == trace;
    FifoIs([], [], map[], cachesize, clockbits, trace, misses);
  }

  /** The pages in a cache that, when it is full, gives up the page of the access before. */
  ghost function MruResident(trace: seq<Page>, cachesize: nat): set<Page> {
    if trace == [] then {}
    else
      var front, n := trace[..|trace|-1], trace[|trace|-1];
      var resident := MruResident(front, cachesize);
      if n in resident then resident
      else if |resident| < cachesize || front == [] then resident + {n}
      else resident - {front[|front|-1]} + {n}
  }

  ghost function MruMisses(trace: seq<Page>, cachesize: nat): nat {
    if trace == [] then 0
    else
      var front, n := trace[..|trace|-1], trace[|trace|-1];
      MruMisses(front, cachesize) + if n in MruResident(front, cachesize) then 0 else 1
  }

  lemma MruNext(trace: seq<Page>, n: Page, cachesize: nat)
    ensures var resident := MruResident(trace, cachesize);
            && MruMisses(trace + [n], cachesize) == MruMisses(trace, cachesize) + (if n in resident then 0 else 1)
            && MruResident(trace + [n], cachesize) ==
               if n in resident then resident
               else if |resident| < cachesize || trace == [] then resident + {n}
               else resident - {trace[|trace|-1]} + {n}
  {
    assert (trace + [n])[..|trace|] == trace;
  }

  /** The list of an MRU cache: its pages, the one accessed last at the end. */
  ghost predicate MruMemory(done: seq<Page>, memory: seq<Page>, cachesize: nat) {
    && Distinct(memory) && Pages(memory) == MruResident(done, cachesize) && |memory| <= cachesize
    && if done == [] then memory == [] else memory != [] && memory[|memory|-1] == done[|done|-1]
  }

  lemma MruHit(done: seq<Page>, memory: seq<Page>, n: Page, cachesize: nat)
    requires MruMemory(done, memory, cachesize) && n in memory
    ensures MruMemory(done + [n], Touched(MRU, memory, n), cachesize)
  {
    MruNext(done, n, cachesize);
    MovedToBack(memory, n);
    InPages(memory, n);
    hide MruResident, Pages, Distinct, Without;
  }

  /** A full MRU cache loses the page at the end. */
  lemma MruEvicts(memory: seq<Page>, ref: map<Page, int>, n: Page, rest: seq<Page>, cachesize: nat, memory': seq<Page>, ref': map<Page, int>)
    requires 0 < |memory| == cachesize && Loaded(MRU, memory, ref, n, rest, cachesize, memory', ref')
    ensures memory' == memory[..|memory|-1] + memory[|memory|..] + [n]
  {
  }

  lemma MruLoaded(done: seq<Page>, memory: seq<Page>, ref: map<Page, int>, n: Page, rest: seq<Page>, cachesize: nat,
                  memory': seq<Page>, ref': map<Page, int>)
    requires cachesize > 0 && MruMemory(done, memory, cachesize) && n !in memory
    requires Loaded(MRU, memory, ref, n, rest, cachesize, memory', ref')
    ensures MruMemory(done + [n], memory', cachesize)
  {
    assert |Pages(memory)| == |memory| by { PagesSize(memory); }
    if |memory| < cachesize {
      assert memory' == memory + [n];
      AppendPages(memory, n);
      AppendDistinct(memory, n);
      MruHas(done, memory, n, cachesize, memory');
    } else {
      MruEvicts(memory, ref, n, rest, cachesize, memory', ref');
      PopPages(memory, |memory| - 1, n);
      MruHas(done, memory, n, cachesize, memory');
    }
  }

  lemma MruHas(done: seq<Page>, memory: seq<Page>, n: Page, cachesize: nat, memory': seq<Page>)
    requires MruMemory(done, memory, cachesize) && n !in memory && |Pages(memory)| == |memory|
    requires Distinct(memory') && 0 < |memory'| <= cachesize && memory'[|memory'|-1] == n
    requires Pages(memory') == if |memory| < cachesize then Pages(memory) + {n} else Replace(Pages(memory), memory[|memory|-1], n)
    ensures MruMemory(done + [n], memory', cachesize)
  {
    MruNext(done, n, cachesize);
    InPages(memory, n);
    hide MruResident, Pages, Distinct;
  }

  lemma MruMissesNext(done: seq<Page>, memory: seq<Page>, n: Page, cachesize: nat)
    requires MruMemory(done, memory, cachesize)
    ensures MruMisses(done + [n], cachesize) == MruMisses(done, cachesize) + if n in memory then 0 else 1
  {
    MruNext(done, n, cachesize);
    InPages(memory, n);
  }

  lemma {:induction false} MruIs(done: seq<Page>, memory: seq<Page>, ref: map<Page, int>,
                                 cachesize: nat, clockbits: int, rest: seq<Page>, misses: nat)
    requires cachesize > 0 && MruMemory(done, memory, cachesize)
    requires Simulates(MRU, memory, ref, cachesize, clockbits, rest, misses)
    ensures MruMisses(done + rest, cachesize) == MruMisses(done, cachesize) + misses
    decreases |rest|
  {
    hide MruMisses, MruResident, MruMemory, Counted, Touched, Loaded, Distinct, Pages;
    if rest == [] {
      assert done + rest == done;
    } else {
      var n := rest[0];
      assert done + [n] + rest[1..] == done + rest;
      MruMissesNext(done, memory, n, cachesize);
      if n in memory {
        MruHit(done, memory, n, cachesize);
        MruIs(done + [n], Touched(MRU, memory, n), Counted(ref, n, clockbits), cachesize, clockbits, rest[1..], misses);
      } else {
        var memory', ref' :| Loaded(MRU, memory, ref, n, rest[1..], cachesize, memory', ref')
                             && Simulates(MRU, memory', Counted(ref', n, clockbits), cachesize, clockbits, rest[1..], misses - 1);
        MruLoaded(done, memory, ref, n, rest[1..], cachesize, memory', ref');
        MruIs(done + [n], memory', Counted(ref', n, clockbits), cachesize, clockbits, rest[1..], misses - 1);
      }
    }
  }

  lemma MruFromEmpty(cachesize: nat, clockbits: int, trace: seq<Page>, misses: nat)
    requires cachesize > 0 && Simulates(MRU, [], map[], cachesize, clockbits, trace, misses)
    ensures misses == MruMisses(trace, cachesize)
  {
    hide Simulates;
    assert [] + trace == trace;
    assert Pages([]) == {};
    MruIs([], [], map[], cachesize, clockbits, trace, misses);
  }

  lemma OneHit(trace: seq<Page>, n: Page, cachesize: nat, loads: seq<Page>, k: nat, trace': seq<Page>)
    requires FifoLoads(trace, cachesize) == loads && trace' == trace + [n]
    requires k < |loads| <= k + cachesize && loads[k] == n
    ensures FifoLoads(trace', cachesize) == loads
  {
    hide FifoLoads, Last;
    FifoNext(trace, n, cachesize);
    InLast(loads, n, cachesize, k);
  }

  lemma InLast(loads: seq<Page>, n: Page, cachesize: nat, k: nat)
    requires k < |loads| <= k + cachesize && loads[k] == n
    ensures n in Last(loads, cachesize)
  {
    var last := Last(loads, cachesize);
    assert last[k - (|loads| - |last|)] == n;
  }

  lemma NotInLast(loads: seq<Page>, n: Page, cachesize: nat)
    requires forall k :: 0 <= k < |loads| <= k + cachesize ==> loads[k] != n
    ensures n !in Last(loads, cachesize)
  {
    var last := Last(loads, cachesize);
    forall k | 0 <= k < |last| ensures last[k] != n { assert last[k] == loads[k + (|loads| - |last|)]; }
  }

  lemma OneLoad(trace: seq<Page>, n: Page, cachesize: nat, loads: seq<Page>, trace': seq<Page>, loads': seq<Page>)
    requires FifoLoads(trace, cachesize) == loads && trace' == trace + [n] && loads' == loads + [n]
    requires forall k :: 0 <= k < |loads| <= k + cachesize ==> loads[k] != n
    ensures FifoLoads(trace', cachesize) == loads'
  {
    hide FifoLoads, Last;
    FifoNext(trace, n, cachesize);
    NotInLast(loads, n, cachesize);
  }

  /** FIFO has the anomaly that LRU has not: on this trace four pages of memory lead to ten misses,
      and three to nine. */
  lemma BeladysAnomaly(clockbits: int, three: nat, four: nat)
    requires Simulates(FIFO, [], map[], 3, clockbits, [1, 2, 3, 4, 1, 2, 5, 1, 2, 3, 4, 5], three)
    requires Simulates(FIFO, [], map[], 4, clockbits, [1, 2, 3, 4, 1, 2, 5, 1, 2, 3, 4, 5], four)
    ensures three == 9 && four == 10
  {
    hide Simulates;
    var trace := [1, 2, 3, 4, 1, 2, 5, 1, 2, 3, 4, 5];
    FifoFromEmpty(3, clockbits, trace, three);
    FifoFromEmpty(4, clockbits, trace, four);
    WithThree();
    WithFour();
  }

  lemma WithThree()
    ensures |FifoLoads([1, 2, 3, 4, 1, 2, 5, 1, 2, 3, 4, 5], 3)| == 9
  {
    hide FifoLoads;
    Nothing(3);
    OneLoad([], 1, 3, [], [1], [1]);
    OneLoad([1], 2, 3, [1], [1, 2], [1, 2]);
    OneLoad([1, 2], 3, 3, [1, 2], [1, 2, 3], [1, 2, 3]);
    OneLoad([1, 2, 3], 4, 3, [1, 2, 3], [1, 2, 3, 4], [1, 2, 3, 4]);
    OneLoad([1, 2, 3, 4], 1, 3, [1, 2, 3, 4], [1, 2, 3, 4, 1], [1, 2, 3, 4, 1]);
    OneLoad([1, 2, 3, 4, 1], 2, 3, [1, 2, 3, 4, 1], [1, 2, 3, 4, 1, 2], [1, 2, 3, 4, 1, 2]);
    OneLoad([1, 2, 3, 4, 1, 2], 5, 3, [1, 2, 3, 4, 1, 2], [1, 2, 3, 4, 1, 2, 5], [1, 2, 3, 4, 1, 2, 5]);
    OneHit([1, 2, 3, 4, 1, 2, 5], 1, 3, [1, 2, 3, 4, 1, 2, 5], 4, [1, 2, 3, 4, 1, 2, 5, 1]);
    OneHit([1, 2, 3, 4, 1, 2, 5, 1], 2, 3, [1, 2, 3, 4, 1, 2, 5], 5, [1, 2, 3, 4, 1, 2, 5, 1, 2]);
    OneLoad([1, 2, 3, 4, 1, 2, 5, 1, 2], 3, 3, [1, 2, 3, 4, 1, 2, 5], [1, 2, 3, 4, 1, 2, 5, 1, 2, 3], [1, 2, 3, 4, 1, 2, 5, 3]);
    OneLoad([1, 2, 3, 4, 1, 2, 5, 1, 2, 3], 4, 3, [1, 2, 3, 4, 1, 2, 5, 3], [1, 2, 3, 4, 1, 2, 5, 1, 2, 3, 4], [1, 2, 3, 4, 1, 2, 5, 3, 4]);
    OneHit([1, 2, 3, 4, 1, 2, 5, 1, 2, 3, 4], 5, 3, [1, 2, 3, 4, 1, 2, 5, 3, 4], 6, [1, 2, 3, 4, 1, 2, 5, 1, 2, 3, 4, 5]);
  }

  lemma WithFour()
    ensures |FifoLoads([1, 2, 3, 4, 1, 2, 5, 1, 2, 3, 4, 5], 4)| == 10
  {
    hide FifoLoads;
    Nothing(4);
    OneLoad([], 1, 4, [], [1], [1]);
    OneLoad([1], 2, 4, [1], [1, 2], [1, 2]);
    OneLoad([1, 2], 3, 4, [1, 2], [1, 2, 3], [1, 2, 3]);
    OneLoad([1, 2, 3], 4, 4, [1, 2, 3], [1, 2, 3, 4], [1, 2, 3, 4]);
    OneHit([1, 2, 3, 4], 1, 4, [1, 2, 3, 4], 0, [1, 2, 3, 4, 1]);
    OneHit([1, 2, 3, 4, 1], 2, 4, [1, 2, 3, 4], 1, [1, 2, 3, 4, 1, 2]);
    OneLoad([1, 2, 3, 4, 1, 2], 5, 4, [1, 2, 3, 4], [1, 2, 3, 4, 1, 2, 5], [1, 2, 3, 4, 5]);
    OneLoad([1, 2, 3, 4, 1, 2, 5], 1, 4, [1, 2, 3, 4, 5], [1, 2, 3, 4, 1, 2, 5, 1], [1, 2, 3, 4, 5, 1]);
    OneLoad([1, 2, 3, 4, 1, 2, 5, 1], 2, 4, [1, 2, 3, 4, 5, 1], [1, 2, 3, 4, 1, 2, 5, 1, 2], [1, 2, 3, 4, 5, 1, 2]);
    OneLoad([1, 2, 3, 4, 1, 2, 5, 1, 2], 3, 4, [1, 2, 3, 4, 5, 1, 2], [1, 2, 3, 4, 1, 2, 5, 1, 2, 3], [1, 2, 3, 4, 5, 1, 2, 3]);
    OneLoad([1, 2, 3, 4, 1, 2, 5, 1, 2, 3], 4, 4, [1, 2, 3, 4, 5, 1, 2, 3], [1, 2, 3, 4, 1, 2, 5, 1, 2, 3, 4], [1, 2, 3, 4, 5, 1, 2, 3, 4]);
    OneLoad([1, 2, 3, 4, 1, 2, 5, 1, 2, 3, 4], 5, 4, [1, 2, 3, 4, 5, 1, 2, 3, 4], [1, 2, 3, 4, 1, 2, 5, 1, 2, 3, 4, 5], [1, 2, 3, 4, 5, 1, 2, 3, 4, 5]);
  }

  lemma Nothing(cachesize: nat)
    ensures FifoLoads([], cachesize) == []
  {
  }

  lemma GoesOnFirst(policy: Policy, cachesize: nat, clockbits: int, trace: seq<Page>)
    ensures GoesOn(policy, cachesize, clockbits, trace, 0, [], map[], 0)
  {
    assert trace[0..] == trace;
  }

  lemma GoesOnLast(policy: Policy, cachesize: nat, clockbits: int, trace: seq<Page>, memory: seq<Page>, ref: map<Page, int>, miss: nat)
    requires GoesOn(policy, cachesize, clockbits, trace, |trace|, memory, ref, miss)
    ensures Simulates(policy, [], map[], cachesize, clockbits, trace, miss)
  {
    assert Simulates(policy, memory, ref, cachesize, clockbits, trace[|trace|..], 0);
  }

  lemma Choices()
    ensures ChoiceOf(OPT) == FURTHEST && ChoiceOf(UNOPT) == NEAREST
  {
  }

  lemma UnoptIsMost(cachesize: nat, trace: seq<Page>, miss: nat)
    requires Run(NEAREST, {}, cachesize, trace, miss)
    ensures forall m: nat :: Run(ANY, {}, cachesize, trace, m) ==> m <= miss
  {
    forall m: nat | Run(ANY, {}, cachesize, trace, m) ensures m <= miss {
      UnoptIsWorst({}, cachesize, trace, miss, m);
    }
  }

  lemma Empty(choice: Choice, cachesize: nat, trace: seq<Page>)
    ensures Distinct<Page>([]) && Referenced([], map[]) && Last(Recency([]), cachesize) == [] && LruMisses([], cachesize) == 0
    ensures Continues(choice, cachesize, trace, 0, Pages([]), 0)
  {
    assert trace[0..] == trace;
    assert Pages([]) == {};
  }

  lemma LruMissesNext(trace: seq<Page>, n: Page, cachesize: nat)
    ensures LruMisses(trace + [n], cachesize) ==
            LruMisses(trace, cachesize) + if n in Last(Recency(trace), cachesize) then 0 else 1
  {
    assert (trace + [n])[..|trace|] == trace;
  }

  lemma OptIsBest(cachesize: nat, trace: seq<Page>, miss: nat)
    requires Run(FURTHEST, {}, cachesize, trace, miss)
    ensures forall m: nat :: Run(ANY, {}, cachesize, trace, m) ==> miss <= m
  {
    forall m: nat | Run(ANY, {}, cachesize, trace, m) ensures miss <= m {
      OptIsOptimal({}, cachesize, trace, miss, m);
    }
  }

  lemma RunAtEnd(choice: Choice, cachesize: nat, trace: seq<Page>, resident: set<Page>, miss: nat)
    requires Continues(choice, cachesize, trace, |trace|, resident, miss)
    ensures Run(choice, {}, cachesize, trace, miss)
  {
    assert Run(choice, resident, cachesize, trace[|trace|..], 0);
  }
}
