/**
 stats_record by any number of threads at once: one step is one atomic add, one load or one compare-and-swap. The
 histogram's own counters are all that the threads share.
*/
module StatsThreads {
  import opened Stats

  /** Where a thread stands in stats_record(n); `least` and `most` are its local copies of min and max. */
  datatype Pc =
    | Idle
    | AddData(n: nat)
    | AddCount(n: nat)
    | LoadMin(n: nat)
    | LoadMax(n: nat, least: nat)
    | LowerMin(n: nat, least: nat, most: nat)
    | RaiseMax(n: nat, most: nat)

  /** The shared histogram, the threads, and the values of all accepted calls so far. */
  datatype System = System(data: seq<nat>, count: nat, min: nat, max: nat, threads: seq<Pc>, accepted: multiset<nat>)

  /** One step of thread t; an idle thread calls stats_record(n), the others do not use n. */
  function Step(s: System, t: nat, n: nat): System
    requires t < |s.threads|
  {
    match s.threads[t]
    case Idle =>
      if n >= |s.data| then s else s.(threads := s.threads[t := AddData(n)], accepted := s.accepted + multiset{n})
    case AddData(k) =>
      if k < |s.data| then s.(data := s.data[k := s.data[k] + 1], threads := s.threads[t := AddCount(k)]) else s
    case AddCount(k) => s.(count := s.count + 1, threads := s.threads[t := LoadMin(k)])
    case LoadMin(k) => s.(threads := s.threads[t := LoadMax(k, s.min)])
    case LoadMax(k, least) => s.(threads := s.threads[t := LowerMin(k, least, s.max)])
    case LowerMin(k, least, most) =>
      if k < least then s.(min := if s.min == least then k else s.min,
          threads := s.threads[t := LowerMin(k, s.min, most)])
      else s.(threads := s.threads[t := RaiseMax(k, most)])
    case RaiseMax(k, most) =>
      if k > most then s.(max := if s.max == most then k else s.max, threads := s.threads[t := RaiseMax(k, s.max)])
      else s.(threads := s.threads[t := Idle])
  }

  /** A schedule says which thread moves next, and with which value if it is idle. */
  datatype Move = Move(thread: nat, n: nat)

  predicate Fits(schedule: seq<Move>, k: nat) { forall i :: 0 <= i < |schedule| ==> schedule[i].thread < k }

  function Run(s: System, schedule: seq<Move>): (r: System)
    requires Fits(schedule, |s.threads|)
    ensures |r.threads| == |s.threads|
    decreases |schedule|
  {
    if schedule == [] then s
    else
      var m := schedule[|schedule| - 1];
      Step(Run(s, schedule[..|schedule| - 1]), m.thread, m.n)
  }

  /** An empty histogram and k idle threads. */
  function Start(limit: nat, k: nat): System {
    System(Repeat(0, limit), 0, NO_MIN, 0, seq(k, _ => Idle), multiset{})
  }

  // ---------- the invariant ----------

  /** The threads between their two adds. */
  function Between(threads: seq<Pc>): nat {
    if threads == [] then 0
    else Between(threads[..|threads| - 1]) + (if threads[|threads| - 1].AddCount? then 1 else 0)
  }

  /** The threads that have not added their v yet. */
  function Starting(threads: seq<Pc>, v: nat): nat {
    if threads == [] then 0
    else Starting(threads[..|threads| - 1], v) + (if threads[|threads| - 1] == AddData(v) then 1 else 0)
  }

  /** A thread that has added v and is still to see to it that min is at most v. */
  predicate OwesMin(pc: Pc, v: nat) { (pc.AddCount? || pc.LoadMin? || pc.LoadMax? || pc.LowerMin?) && pc.n == v }

  predicate OwesMax(pc: Pc, v: nat) { OwesMin(pc, v) || (pc.RaiseMax? && pc.n == v) }

  /** The local copies are values that min and max once had, and the value being recorded is within range. */
  predicate ThreadInv(s: System, pc: Pc) {
    && (!pc.Idle? ==> pc.n < |s.data|)
    && (!pc.Idle? && !pc.AddData? ==> s.data[pc.n] > 0)
    && (pc.LoadMax? || pc.LowerMin? ==> s.min <= pc.least)
    && (pc.LowerMin? || pc.RaiseMax? ==> pc.most <= s.max)
  }

  ghost predicate Covered(s: System, v: nat) {
    && (s.min <= v || exists t :: 0 <= t < |s.threads| && OwesMin(s.threads[t], v))
    && (s.max >= v || exists t :: 0 <= t < |s.threads| && OwesMax(s.threads[t], v))
  }

  ghost predicate Inv(s: System) {
    && |s.data| <= NO_MIN
    && (forall t :: 0 <= t < |s.threads| ==> ThreadInv(s, s.threads[t]))
    && Sum(s.data) == s.count + Between(s.threads)
    && (forall v: nat :: s.accepted[v] == (if v < |s.data| then s.data[v] else 0) + Starting(s.threads, v))
    && (s.min == NO_MIN || (s.min < |s.data| && s.data[s.min] > 0))
    && (s.max == 0 || (s.max < |s.data| && s.data[s.max] > 0))
    && forall v :: 0 <= v < |s.data| && s.data[v] > 0 ==> Covered(s, v)
  }

  lemma {:induction false} Counts(threads: seq<Pc>, t: nat, pc: Pc, v: nat)
    requires t < |threads|
    ensures Between(threads[t := pc]) + (if threads[t].AddCount? then 1 else 0) ==
        Between(threads) + (if pc.AddCount? then 1 else 0)
    ensures Starting(threads[t := pc], v) + (if threads[t] == AddData(v) then 1 else 0)
         == Starting(threads, v) + (if pc == AddData(v) then 1 else 0)
    decreases |threads|
  {
    var init := threads[..|threads| - 1];
    if t < |init| {
      Counts(init, t, pc, v);
      assert threads[t := pc][..|threads| - 1] == init[t := pc];
    } else {
      assert threads[t := pc][..|threads| - 1] == init;
    }
  }

  /** min only falls and max only rises, each to a value that was recorded; recorded values stay. */
  lemma StepMoves(s: System, t: nat, n: nat)
    requires Inv(s) && t < |s.threads|
    ensures var r := Step(s, t, n);
      && |r.data| == |s.data| && (forall v :: 0 <= v < |s.data| ==> r.data[v] >= s.data[v]) && r.count >= s.count
      && r.min <= s.min && r.max >= s.max && s.accepted <= r.accepted
      && (r.min < s.min ==> r.min < |s.data| && s.data[r.min] > 0)
      && (r.max > s.max ==> r.max < |s.data| && s.data[r.max] > 0)
  {
    hide Covered, Sum;
    assert ThreadInv(s, s.threads[t]);
  }

  lemma ThreadsKept(s: System, t: nat, n: nat)
    requires Inv(s) && t < |s.threads|
    ensures var r := Step(s, t, n); forall u :: 0 <= u < |r.threads| ==> ThreadInv(r, r.threads[u])
  {
    hide Covered, Sum;
    StepMoves(s, t, n);
    assert ThreadInv(s, s.threads[t]);
    SameThreads(s, t, n);
    OwnInv(s, t, n);
    hide Step;
    var r := Step(s, t, n);
    forall u | 0 <= u < |r.threads| && u != t ensures ThreadInv(r, r.threads[u]) {
      assert ThreadInv(s, s.threads[u]);
      OtherInv(s, r, s.threads[u]);
    }
  }

  lemma OwnInv(s: System, t: nat, n: nat)
    requires t < |s.threads| && ThreadInv(s, s.threads[t])
    ensures ThreadInv(Step(s, t, n), Step(s, t, n).threads[t])
  {
  }

  lemma OtherInv(s: System, r: System, pc: Pc)
    requires ThreadInv(s, pc) && |r.data| == |s.data| && r.min <= s.min && r.max >= s.max
    requires forall v :: 0 <= v < |s.data| ==> r.data[v] >= s.data[v]
    ensures ThreadInv(r, pc)
  {
  }

  lemma TotalKept(s: System, t: nat, n: nat)
    requires t < |s.threads| && ThreadInv(s, s.threads[t]) && Sum(s.data) == s.count + Between(s.threads)
    ensures var r := Step(s, t, n); Sum(r.data) == r.count + Between(r.threads)
  {
    hide Sum, Between, Starting;
    var r := Step(s, t, n);
    assert r.threads == s.threads[t := r.threads[t]];
    Counts(s.threads, t, r.threads[t], 0);
    if s.threads[t].AddData? { SumAdd(s.data, s.threads[t].n, 1); }
  }

  lemma CellKept(s: System, t: nat, n: nat, v: nat)
    requires t < |s.threads| && ThreadInv(s, s.threads[t])
    requires s.accepted[v] == (if v < |s.data| then s.data[v] else 0) + Starting(s.threads, v)
    ensures var r := Step(s, t, n); r.accepted[v] == (if v < |r.data| then r.data[v] else 0) + Starting(r.threads, v)
  {
    hide Sum, Between, Starting;
    var r := Step(s, t, n);
    assert r.threads == s.threads[t := r.threads[t]];
    Counts(s.threads, t, r.threads[t], v);
  }

  lemma MinStaysOwed(s: System, t: nat, n: nat, v: nat, u: nat)
    requires t < |s.threads| && u < |s.threads| && ThreadInv(s, s.threads[t]) && OwesMin(s.threads[u], v)
    ensures var r := Step(s, t, n); r.min <= v || OwesMin(r.threads[u], v)
  {
  }

  lemma MaxStaysOwed(s: System, t: nat, n: nat, v: nat, u: nat)
    requires t < |s.threads| && u < |s.threads| && ThreadInv(s, s.threads[t]) && OwesMax(s.threads[u], v)
    ensures var r := Step(s, t, n); r.max >= v || OwesMax(r.threads[u], v)
  {
  }

  lemma NewSampleOwed(s: System, t: nat, n: nat, v: nat)
    requires t < |s.threads| && ThreadInv(s, s.threads[t]) && v < |s.data| && s.data[v] == 0
    requires Step(s, t, n).data[v] > 0
    ensures var r := Step(s, t, n); OwesMin(r.threads[t], v) && OwesMax(r.threads[t], v)
  {
  }

  lemma CoverKept(s: System, t: nat, n: nat, v: nat)
    requires Inv(s) && t < |s.threads| && v < |s.data| && Step(s, t, n).data[v] > 0
    ensures Covered(Step(s, t, n), v)
  {
    StepMoves(s, t, n);
    hide Sum, Between, Starting, Step, OwesMin, OwesMax;
    var r := Step(s, t, n);
    assert |r.threads| == |s.threads| by { SameThreads(s, t, n); }
    assert ThreadInv(s, s.threads[t]);
    if s.data[v] == 0 {
      NewSampleOwed(s, t, n, v);
    } else {
      assert Covered(s, v);
      if s.min > v {
        var u :| 0 <= u < |s.threads| && OwesMin(s.threads[u], v);
        MinStaysOwed(s, t, n, v, u);
      }
      if s.max < v {
        var u :| 0 <= u < |s.threads| && OwesMax(s.threads[u], v);
        MaxStaysOwed(s, t, n, v, u);
      }
    }
  }

  lemma SameThreads(s: System, t: nat, n: nat)
    requires t < |s.threads|
    ensures |Step(s, t, n).threads| == |s.threads|
    ensures forall u :: 0 <= u < |s.threads| && u != t ==> Step(s, t, n).threads[u] == s.threads[u]
  {
  }

  lemma LimitsKept(s: System, t: nat, n: nat)
    requires Inv(s) && t < |s.threads|
    ensures var r := Step(s, t, n);
      && (r.min == NO_MIN || (r.min < |r.data| && r.data[r.min] > 0))
      && (r.max == 0 || (r.max < |r.data| && r.data[r.max] > 0))
  {
    hide Covered, Sum, Between, Starting, Step, ThreadInv;
    StepMoves(s, t, n);
  }

  lemma StepKeeps(s: System, t: nat, n: nat)
    requires Inv(s) && t < |s.threads|
    ensures Inv(Step(s, t, n))
  {
    hide Covered, Sum, ThreadInv, Between, Starting, Step;
    ThreadsKept(s, t, n);
    TotalKept(s, t, n);
    StepMoves(s, t, n);
    LimitsKept(s, t, n);
    var r := Step(s, t, n);
    forall v: nat ensures r.accepted[v] == (if v < |r.data| then r.data[v] else 0) + Starting(r.threads, v) {
      CellKept(s, t, n, v);
    }
    forall v | 0 <= v < |r.data| && r.data[v] > 0 ensures Covered(r, v) {
      CoverKept(s, t, n, v);
    }
  }

  lemma {:induction false} StartCounts(k: nat, v: nat)
    ensures Between(seq(k, _ => Idle)) == 0 && Starting(seq(k, _ => Idle), v) == 0
    decreases k
  {
    if k > 0 {
      StartCounts(k - 1, v);
      assert seq(k, _ => Idle)[..k - 1] == seq(k - 1, _ => Idle);
    }
  }

  lemma StartKeeps(limit: nat, k: nat)
    requires limit <= NO_MIN
    ensures Inv(Start(limit, k))
  {
    var s := Start(limit, k);
    SumZero(s.data);
    StartCounts(k, 0);
    forall v: nat ensures s.accepted[v] == (if v < |s.data| then s.data[v] else 0) + Starting(s.threads, v) {
      StartCounts(k, v);
    }
  }

  // ---------- whole runs ----------

  /**
   In every state that any threads reach, the difference between the data and the count is the threads between their
   adds.
  */
  lemma {:induction false} RunKeeps(limit: nat, k: nat, schedule: seq<Move>)
    requires limit <= NO_MIN && Fits(schedule, k)
    ensures Inv(Run(Start(limit, k), schedule)) && |Run(Start(limit, k), schedule).data| == limit
    decreases |schedule|
  {
    hide Inv, Step;
    if schedule == [] {
      StartKeeps(limit, k);
    } else {
      var init, m := schedule[..|schedule| - 1], schedule[|schedule| - 1];
      RunKeeps(limit, k, init);
      StepKeeps(Run(Start(limit, k), init), m.thread, m.n);
      StepMoves(Run(Start(limit, k), init), m.thread, m.n);
    }
  }

  predicate Quiet(s: System) { forall t :: 0 <= t < |s.threads| ==> s.threads[t].Idle? }

  lemma {:induction false} QuietCounts(threads: seq<Pc>, v: nat)
    requires forall t :: 0 <= t < |threads| ==> threads[t].Idle?
    ensures Between(threads) == 0 && Starting(threads, v) == 0
    decreases |threads|
  {
    if threads != [] { QuietCounts(threads[..|threads| - 1], v); }
  }

  /**
   When every call has returned, nothing was lost: each value has been counted as often as it was passed to an accepted
   call, the total is right, and min and max are exact.
  */
  lemma QuietIsExact(s: System)
    requires Inv(s) && Quiet(s)
    ensures Exact(s.data, s.count, s.min, s.max)
    ensures forall v: nat :: s.accepted[v] == if v < |s.data| then s.data[v] else 0
  {
    hide Sum;
    QuietCounts(s.threads, 0);
    forall v: nat ensures s.accepted[v] == if v < |s.data| then s.data[v] else 0 {
      QuietCounts(s.threads, v);
    }
    forall v | 0 <= v < |s.data| && s.data[v] > 0 ensures s.min <= v <= s.max {
      assert Covered(s, v);
    }
    if s.count == 0 {
      NothingRecorded(s.data);
    } else if s.min == NO_MIN || (s.max == 0 && s.data[0] == 0) {
      forall v | 0 <= v < |s.data| ensures s.data[v] == 0 {
      }
      SumZero(s.data);
    }
  }

  /** However any number of threads interleave their calls: once all have returned, the histogram is exact. */
  lemma RecordedExactly(limit: nat, k: nat, schedule: seq<Move>)
    requires limit <= NO_MIN && Fits(schedule, k) && Quiet(Run(Start(limit, k), schedule))
    ensures var r := Run(Start(limit, k), schedule);
      && |r.data| == limit && Exact(r.data, r.count, r.min, r.max) && r.count == Sum(r.data)
      && forall v: nat :: v < limit ==> r.data[v] == r.accepted[v]
  {
    hide Run, Inv, Quiet;
    RunKeeps(limit, k, schedule);
    QuietIsExact(Run(Start(limit, k), schedule));
  }

  // ---------- every call returns ----------

  /**
   What the compare-and-swap loop on min can still cost: a failed swap brings the copy closer, a successful one makes
   the next fail.
  */
  function MinCost(n: nat, least: nat, min: nat): nat {
    if n < least then 2 * (least - n) + (if min == least then 1 else 0) else 0
  }

  function MaxCost(n: nat, most: nat, max: nat): nat {
    if n > most then 2 * (n - most) + (if max == most then 1 else 0) else 0
  }

  /** A bound on the steps that a thread still takes before its call returns. */
  function Work(s: System, pc: Pc): nat {
    match pc
    case Idle => 0
    case AddData(n) => 6 + MinCost(n, s.min, s.min) + MaxCost(n, s.max, s.max)
    case AddCount(n) => 5 + MinCost(n, s.min, s.min) + MaxCost(n, s.max, s.max)
    case LoadMin(n) => 4 + MinCost(n, s.min, s.min) + MaxCost(n, s.max, s.max)
    case LoadMax(n, least) => 3 + MinCost(n, least, s.min) + MaxCost(n, s.max, s.max)
    case LowerMin(n, least, most) => 2 + MinCost(n, least, s.min) + MaxCost(n, most, s.max)
    case RaiseMax(n, most) => 1 + MaxCost(n, most, s.max)
  }

  lemma OwnStep(s: System, t: nat, n: nat)
    requires t < |s.threads| && ThreadInv(s, s.threads[t]) && !s.threads[t].Idle?
    ensures Work(Step(s, t, n), Step(s, t, n).threads[t]) < Work(s, s.threads[t])
  {
  }

  lemma OtherStep(s: System, r: System, pc: Pc)
    requires ThreadInv(s, pc) && r.min <= s.min && r.max >= s.max
    ensures Work(r, pc) <= Work(s, pc)
  {
  }

  /** A thread inside a call gets closer to its end with every step of its own, and no step of another sets it back. */
  lemma WorkFalls(s: System, t: nat, n: nat, u: nat)
    requires Inv(s) && t < |s.threads| && u < |s.threads| && !s.threads[u].Idle?
    ensures |Step(s, t, n).threads| == |s.threads|
    ensures var r := Step(s, t, n);
      if t == u then Work(r, r.threads[u]) < Work(s, s.threads[u]) else Work(r, r.threads[u]) <= Work(s, s.threads[u])
  {
    hide Covered, Sum, Between, Starting, Work, Step, ThreadInv;
    StepMoves(s, t, n);
    SameThreads(s, t, n);
    assert ThreadInv(s, s.threads[u]);
    if t == u { OwnStep(s, t, n); } else { OtherStep(s, Step(s, t, n), s.threads[u]); }
  }

  function Turns(schedule: seq<Move>, t: nat): nat {
    if schedule == [] then 0
    else Turns(schedule[..|schedule| - 1], t) + (if schedule[|schedule| - 1].thread == t then 1 else 0)
  }

  /**
   No call waits for another thread: one that has had as many turns as its bound has returned on the way, however the
   other threads were interleaved with it.
  */
  lemma {:induction false} CallReturns(s: System, schedule: seq<Move>, t: nat)
    requires Inv(s) && Fits(schedule, |s.threads|) && t < |s.threads|
    requires Turns(schedule, t) >= Work(s, s.threads[t])
    ensures exists k :: 0 <= k <= |schedule| && Run(s, schedule[..k]).threads[t].Idle?
  {
    if k :| 0 <= k <= |schedule| && Run(s, schedule[..k]).threads[t].Idle? {
    } else {
      StillRunning(s, schedule, t);
    }
  }

  lemma {:induction false} StillRunning(s: System, schedule: seq<Move>, t: nat)
    requires Inv(s) && Fits(schedule, |s.threads|) && t < |s.threads|
    requires forall k :: 0 <= k <= |schedule| ==> !Run(s, schedule[..k]).threads[t].Idle?
    ensures var r := Run(s, schedule);
      Inv(r) && !r.threads[t].Idle? && Work(r, r.threads[t]) + Turns(schedule, t) <= Work(s, s.threads[t])
        && Work(r, r.threads[t]) > 0
    decreases |schedule|
  {
    hide Inv, Step, MinCost, MaxCost;
    assert schedule[..|schedule|] == schedule;
    if schedule != [] {
      var init, m := schedule[..|schedule| - 1], schedule[|schedule| - 1];
      forall k | 0 <= k <= |init| ensures !Run(s, init[..k]).threads[t].Idle? {
        assert init[..k] == schedule[..k];
      }
      StillRunning(s, init, t);
      StepKeeps(Run(s, init), m.thread, m.n);
      WorkFalls(Run(s, init), m.thread, m.n, t);
    }
  }
}
