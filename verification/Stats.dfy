/** The histogram of wrk (stats.c): its readers against the sorted samples, and the in-place correction. */
module Stats {

  /** UINT64_MAX, the minimum of a histogram without samples. */
  const NO_MIN: nat := 0xFFFF_FFFF_FFFF_FFFF

  function Sum(data: seq<nat>): nat {
    if data == [] then 0 else Sum(data[..|data| - 1]) + data[|data| - 1]
  }

  /** The total is right, and min and max are the least and the greatest sample. */
  predicate Exact(data: seq<nat>, count: nat, min: nat, max: nat) {
    && count == Sum(data)
    && if count == 0 then min == NO_MIN && max == 0
       else min < |data| && max < |data| && data[min] > 0 && data[max] > 0
            && forall v :: 0 <= v < |data| && data[v] > 0 ==> min <= v <= max
  }

  // ---------- the samples ----------

  predicate Ordered(s: seq<nat>) { forall i, j :: 0 <= i < j < |s| ==> s[i] <= s[j] }

  /** s lists the samples of a histogram in ascending order. */
  ghost predicate ListsSamples(s: seq<nat>, data: seq<nat>) {
    Ordered(s) && forall v: nat :: multiset(s)[v] == if v < |data| then data[v] else 0
  }

  function Repeat(v: nat, k: nat): seq<nat> { seq(k, _ => v) }

  function Expand(data: seq<nat>): seq<nat> {
    if data == [] then [] else Expand(data[..|data| - 1]) + Repeat(|data| - 1, data[|data| - 1])
  }

  lemma {:induction false} RepeatCount(v: nat, k: nat, w: nat)
    ensures multiset(Repeat(v, k))[w] == if v == w then k else 0
    decreases k
  {
    if k > 0 {
      RepeatCount(v, k - 1, w);
      assert Repeat(v, k) == Repeat(v, k - 1) + [v];
    }
  }

  lemma {:induction false} ExpandLength(data: seq<nat>)
    ensures |Expand(data)| == Sum(data)
    decreases |data|
  {
    if data != [] { ExpandLength(data[..|data| - 1]); }
  }

  lemma {:induction false} ExpandBound(data: seq<nat>)
    ensures forall i :: 0 <= i < |Expand(data)| ==> Expand(data)[i] < |data|
    decreases |data|
  {
    if data != [] { ExpandBound(data[..|data| - 1]); }
  }

  lemma {:induction false} ExpandOrdered(data: seq<nat>)
    ensures Ordered(Expand(data))
    decreases |data|
  {
    if data != [] {
      var init := data[..|data| - 1];
      ExpandBound(init);
      ExpandOrdered(init);
    }
  }

  lemma CountConcat(a: seq<nat>, b: seq<nat>, v: nat)
    ensures multiset(a + b)[v] == multiset(a)[v] + multiset(b)[v]
  {
  }

  lemma ExpandLast(data: seq<nat>)
    requires data != []
    ensures var n := |data| - 1; Expand(data) == Expand(data[..n]) + Repeat(n, data[n])
  {
  }

  lemma {:induction false} ExpandCounts(data: seq<nat>, v: nat)
    ensures multiset(Expand(data))[v] == if v < |data| then data[v] else 0
    decreases |data|
  {
    hide Repeat, Expand;
    if data == [] {
      ExpandNothing();
    } else {
      var n := |data| - 1;
      ExpandCounts(data[..n], v);
      RepeatCount(n, data[n], v);
      ExpandLast(data);
      CountConcat(Expand(data[..n]), Repeat(n, data[n]), v);
    }
  }

  lemma ExpandNothing()
    ensures Expand([]) == []
  {
  }

  lemma ExpandLists(data: seq<nat>)
    ensures ListsSamples(Expand(data), data) && |Expand(data)| == Sum(data)
    ensures forall i :: 0 <= i < |Expand(data)| ==> Expand(data)[i] < |data|
  {
    hide Ordered, Expand;
    ExpandLength(data);
    ExpandBound(data);
    ExpandOrdered(data);
    forall v: nat ensures multiset(Expand(data))[v] == if v < |data| then data[v] else 0 { ExpandCounts(data, v); }
  }

  lemma LastIsGreatest(a: seq<nat>, v: nat)
    requires Ordered(a) && a != [] && v in multiset(a)
    ensures v <= a[|a| - 1]
  {
    assert v in a;
    var i :| 0 <= i < |a| && a[i] == v;
  }

  /** A list in ascending order is determined by its multiset. */
  lemma {:induction false} OrderedUnique(a: seq<nat>, b: seq<nat>)
    requires Ordered(a) && Ordered(b) && multiset(a) == multiset(b)
    ensures a == b
    decreases |a|
  {
    hide Ordered;
    assert |a| == |multiset(a)| == |multiset(b)| == |b|;
    if a != [] {
      SameLast(a, b);
      RestOf(a);
      RestOf(b);
      OrderedUnique(a[..|a| - 1], b[..|b| - 1]);
    }
  }

  lemma SameLast(a: seq<nat>, b: seq<nat>)
    requires Ordered(a) && Ordered(b) && multiset(a) == multiset(b) && a != [] && b != []
    ensures a[|a| - 1] == b[|b| - 1]
  {
    assert a[|a| - 1] in multiset(a) && b[|b| - 1] in multiset(b);
    LastIsGreatest(a, b[|b| - 1]);
    LastIsGreatest(b, a[|a| - 1]);
  }

  lemma RestOf(a: seq<nat>)
    requires Ordered(a) && a != []
    ensures Ordered(a[..|a| - 1]) && multiset(a[..|a| - 1]) == multiset(a) - multiset{a[|a| - 1]}
    ensures a == a[..|a| - 1] + [a[|a| - 1]]
  {
    assert a == a[..|a| - 1] + [a[|a| - 1]];
  }

  lemma SamplesAreUnique(s: seq<nat>, data: seq<nat>)
    requires ListsSamples(s, data)
    ensures s == Expand(data)
  {
    ExpandLists(data);
    assert forall v: nat :: multiset(s)[v] == multiset(Expand(data))[v];
    OrderedUnique(s, Expand(data));
  }

  lemma OnlyExpand(data: seq<nat>)
    ensures forall s :: ListsSamples(s, data) ==> s == Expand(data)
  {
    hide ListsSamples, Expand;
    forall s | ListsSamples(s, data) ensures s == Expand(data) { SamplesAreUnique(s, data); }
  }

  lemma SumStep(data: seq<nat>, i: nat)
    requires i < |data|
    ensures Sum(data[..i + 1]) == Sum(data[..i]) + data[i]
    ensures Expand(data[..i + 1]) == Expand(data[..i]) + Repeat(i, data[i])
    ensures Distinct(data[..i + 1]) == Distinct(data[..i]) + (if data[i] > 0 then [i] else [])
  {
    assert data[..i + 1][..i] == data[..i];
  }

  lemma {:induction false} ExpandPrefix(data: seq<nat>, i: nat)
    requires i <= |data|
    ensures Expand(data[..i]) <= Expand(data) && Sum(data[..i]) <= Sum(data) && Distinct(data[..i]) <= Distinct(data)
    decreases |data| - i
  {
    if i == |data| {
      assert data[..i] == data;
    } else {
      SumStep(data, i);
      ExpandPrefix(data, i + 1);
    }
  }

  /** The sample with index k is the value at which the running total passes k. */
  lemma SampleAt(data: seq<nat>, i: nat, k: nat)
    requires i < |data| && Sum(data[..i]) <= k < Sum(data[..i + 1])
    ensures k < Sum(data) && k < |Expand(data)| && Expand(data)[k] == i
  {
    SumStep(data, i);
    ExpandPrefix(data, i + 1);
    ExpandLists(data[..i]);
    ExpandLists(data[..i + 1]);
    ExpandLists(data);
    assert Expand(data)[k] == Expand(data[..i + 1])[k];
  }

  /** Nothing lies below the minimum or above the maximum. */
  lemma {:induction false} EmptyEnds(data: seq<nat>, i: nat, j: nat)
    requires i <= j <= |data| && forall v :: i <= v < j ==> data[v] == 0
    ensures Sum(data[..i]) == Sum(data[..j]) && Distinct(data[..i]) == Distinct(data[..j])
    decreases j - i
  {
    if i < j {
      EmptyEnds(data, i, j - 1);
      SumStep(data, j - 1);
    }
  }

  /** What the loops over min..max leave out. */
  lemma Ends(data: seq<nat>, count: nat, min: nat, max: nat)
    requires Exact(data, count, min, max) && count > 0
    ensures Sum(data[..min]) == 0 && Distinct(data[..min]) == []
    ensures Sum(data[..max + 1]) == Sum(data) && Distinct(data[..max + 1]) == Distinct(data)
  {
    EmptyEnds(data, 0, min);
    EmptyEnds(data, max + 1, |data|);
    assert data[..|data|] == data && data[..0] == [];
  }

  /** The range min..max is empty for a histogram without samples only. */
  lemma RangeOf(data: seq<nat>, count: nat, min: nat, max: nat)
    requires Exact(data, count, min, max)
    ensures count == Sum(data) && (count > 0 <==> min <= max) && (count > 0 ==> max < |data|)
  {
    hide Sum;
    if count > 0 { assert data[max] > 0; }
  }

  // ---------- percentiles ----------

  /** C's round() for non-negative arguments. */
  function Round(x: real): int { (x + 0.5).Floor }

  /** The index of the p-th percentile among n samples. */
  function Index(p: real, n: nat): int { (p * n as real / 100.0).Floor }

  /** The rank that stats_percentile looks for. */
  function Rank(p: real, n: nat): int { Round((p / 100.0) * n as real + 0.5) }

  lemma RankIs(p: real, n: nat)
    requires p >= 0.0
    ensures Rank(p, n) == Index(p, n) + 1 && Index(p, n) >= 0
    ensures p < 100.0 && n > 0 ==> Index(p, n) < n
  {
    assert (p / 100.0) * n as real == p * n as real / 100.0;
    if p < 100.0 && n > 0 {
      assert p * n as real < 100.0 * n as real;
    }
  }

  /** Percentiles rise with p. */
  lemma PercentileMonotone(s: seq<nat>, p: real, q: real)
    requires Ordered(s) && s != [] && 0.0 <= p <= q < 100.0
    ensures 0 <= Index(p, |s|) <= Index(q, |s|) < |s|
    ensures s[Index(p, |s|)] <= s[Index(q, |s|)]
  {
    RankIs(p, |s|);
    RankIs(q, |s|);
    assert p * |s| as real <= q * |s| as real;
  }

  // ---------- distinct values ----------

  function Distinct(data: seq<nat>): seq<nat> {
    if data == [] then []
    else Distinct(data[..|data| - 1]) + (if data[|data| - 1] > 0 then [|data| - 1] else [])
  }

  /** Every recorded value once, in ascending order. */
  lemma {:induction false} DistinctAscends(data: seq<nat>)
    ensures forall i, j :: 0 <= i < j < |Distinct(data)| ==> Distinct(data)[i] < Distinct(data)[j]
    ensures forall v: nat :: v in Distinct(data) <==> v < |data| && data[v] > 0
    decreases |data|
  {
    if data != [] {
      var init := data[..|data| - 1];
      DistinctAscends(init);
      forall i | 0 <= i < |Distinct(init)| ensures Distinct(init)[i] < |init| {
        assert Distinct(init)[i] in Distinct(init);
      }
      forall v: nat ensures v in Distinct(data) <==> v < |data| && data[v] > 0 {
        assert v < |init| ==> init[v] == data[v];
      }
    }
  }

  /** Where the loop over min..max begins and what it covers. */
  lemma ScanBegins(data: seq<nat>, count: nat, min: nat, max: nat)
    requires Exact(data, count, min, max)
    ensures count > 0 ==>
        min <= max < |data| && Distinct(data[..min]) == [] && Distinct(data[..max + 1]) == Distinct(data)
    ensures count == 0 ==> min > max && Distinct(data) == []
  {
    hide Expand;
    if count > 0 {
      Ends(data, count, min, max);
    } else {
      NothingRecorded(data);
      EmptyEnds(data, 0, |data|);
      assert data[..|data|] == data && data[..0] == [];
    }
  }

  /** One more cell. */
  lemma ScanStep(data: seq<nat>, i: nat)
    requires i < |data|
    ensures var n := |Distinct(data[..i])|;
      && |Distinct(data[..i + 1])| == n + (if data[i] != 0 then 1 else 0)
      && (data[i] != 0 ==> n < |Distinct(data)| && Distinct(data)[n] == i)
  {
    hide Sum, Expand;
    SumStep(data, i);
    ExpandPrefix(data, i + 1);
    if data[i] != 0 { assert Distinct(data)[|Distinct(data[..i])|] == Distinct(data[..i + 1])[|Distinct(data[..i])|]; }
  }

  // ---------- recording ----------

  lemma {:induction false} SumAdd(data: seq<nat>, n: nat, c: nat)
    requires n < |data|
    ensures Sum(data[n := data[n] + c]) == Sum(data) + c
    decreases |data|
  {
    var init := data[..|data| - 1];
    if n < |init| {
      SumAdd(init, n, c);
      assert data[n := data[n] + c][..|data| - 1] == init[n := init[n] + c];
    } else {
      assert data[n := data[n] + c][..|data| - 1] == init;
    }
  }

  lemma SumPositive(data: seq<nat>, n: nat)
    requires n < |data| && data[n] > 0
    ensures Sum(data) > 0
  {
    SumStep(data, n);
    ExpandPrefix(data, n + 1);
  }

  lemma {:induction false} SumZero(data: seq<nat>)
    requires forall v :: 0 <= v < |data| ==> data[v] == 0
    ensures Sum(data) == 0
    decreases |data|
  {
    if data != [] { SumZero(data[..|data| - 1]); }
  }

  lemma NothingRecorded(data: seq<nat>)
    requires Sum(data) == 0
    ensures forall v :: 0 <= v < |data| ==> data[v] == 0
  {
    forall v | 0 <= v < |data| ensures data[v] == 0 {
      if data[v] > 0 { SumPositive(data, v); }
    }
  }

  /** One more sample. */
  lemma RecordKeepsExact(data: seq<nat>, count: nat, min: nat, max: nat, n: nat)
    requires Exact(data, count, min, max) && n < |data| <= NO_MIN
    ensures Exact(data[n := data[n] + 1], count + 1, if n < min then n else min, if n > max then n else max)
  {
    SumAdd(data, n, 1);
    if count == 0 { NothingRecorded(data); }
  }

  // ---------- the correction ----------

  /** The sum of data[m + e], data[m + 2 * e], … below the bound. */
  function Tail(data: seq<nat>, e: nat, m: nat, bound: nat): nat
    requires e > 0 && bound <= |data|
    decreases bound - m
  {
    if m + e >= bound then 0 else data[m + e] + Tail(data, e, m + e, bound)
  }

  /** n is m plus a positive multiple of e. */
  predicate Reaches(e: nat, m: nat, n: nat)
    requires e > 0
    decreases n - m
  {
    m + e == n || (m + e < n && Reaches(e, m + e, n))
  }

  lemma {:induction false} TailStep(data: seq<nat>, e: nat, m: nat, n: nat)
    requires e > 0 && n < |data|
    ensures Tail(data, e, m, n + 1) == Tail(data, e, m, n) + (if Reaches(e, m, n) then data[n] else 0)
    decreases n - m
  {
    if m + e < n { TailStep(data, e, m + e, n); }
  }

  /** Between m - e and m no value reaches n. */
  lemma {:induction false} ReachGap(e: nat, j: nat, m: nat, n: nat)
    requires e > 0 && Reaches(e, j, n) && Reaches(e, m, n) && j < m
    ensures j + e <= m
    decreases n - j + n - m
  {
    if j + e > m && j + e != n {
      ReachGap(e, m, j + e, n);
    }
  }

  /** The closed form of stats_correct. */
  function Corrected(data: seq<nat>, e: nat, max: nat): seq<nat>
    requires e > 0 && max < |data|
  {
    seq(|data|, m requires 0 <= m < |data| => data[m] + (if m > e then Tail(data, e, m, max + 1) else 0))
  }

  /** Cells above e hold their tails up to n, and those above m already up to n + 1. */
  predicate Level(now: seq<nat>, was: seq<nat>, e: nat, n: nat, m: nat)
    requires e > 0 && n < |was|
  {
    && |now| == |was|
    && forall j :: 0 <= j < |now| ==>
        now[j] == was[j] + (if j > e then Tail(was, e, j, if j > m then n + 1 else n) else 0)
  }

  lemma LevelFirst(now: seq<nat>, was: seq<nat>, e: nat, n: nat, m: nat)
    requires 0 < e <= n < |was| && m >= n && Level(now, was, e, n, m)
    ensures Level(now, was, e, n, n - e) && |now| == |was| && now[n] == was[n]
  {
    hide Reaches;
    assert Tail(was, e, n, n) == 0;
    forall j | 0 <= j < |was| && n - e < j ensures Tail(was, e, j, n + 1) == Tail(was, e, j, n) {
    }
  }

  lemma LevelDown(now: seq<nat>, was: seq<nat>, e: nat, n: nat, m: nat)
    requires 0 < e < m < n < |was| && Reaches(e, m, n) && Level(now, was, e, n, m)
    ensures Level(now[m := now[m] + was[n]], was, e, n, m - e) && (m - e > 0 ==> Reaches(e, m - e, n))
  {
    hide Tail;
    forall j | m - e < j <= m
      ensures Tail(was, e, j, n + 1) == Tail(was, e, j, n) + (if j == m then was[n] else 0)
    {
      TailStep(was, e, j, n);
      if j < m && Reaches(e, j, n) { ReachGap(e, j, m, n); }
    }
  }

  lemma LevelLast(now: seq<nat>, was: seq<nat>, e: nat, n: nat, m: nat)
    requires 0 < e && n < |was| && Level(now, was, e, n, m) && (m <= e || was[n] == 0)
    ensures Level(now, was, e, n, 0)
  {
    hide Tail, Reaches;
    forall j | e < j < |was| ensures m < j || Tail(was, e, j, n + 1) == Tail(was, e, j, n) {
      TailStep(was, e, j, n);
    }
  }

  lemma NoTails(was: seq<nat>, e: nat, n: nat)
    requires e > 0 && n <= 2 * e && n < |was|
    ensures Level(was, was, e, n, |was|)
  {
    forall j | e < j < |was| ensures Tail(was, e, j, n) == 0 {
    }
  }

  class Histogram {
    const limit: nat
    const data: array<nat>
    var count: nat
    var min: nat
    var max: nat

    ghost predicate Valid()
      reads this, data
    {
      data.Length == limit <= NO_MIN && Exact(data[..], count, min, max)
    }

    /** stats_alloc */
    constructor (max: nat)
      requires max < NO_MIN
      ensures Valid() && limit == max + 1 && fresh(data) && count == 0
      ensures forall v :: 0 <= v < limit ==> data[v] == 0
    {
      limit := max + 1;
      data := new nat[max + 1](_ => 0);
      count := 0;
      min := NO_MIN;
      this.max := 0;
      new;
      SumZero(data[..]);
    }

    /** __sync_val_compare_and_swap on min */
    method SwapMin(expected: nat, n: nat) returns (seen: nat)
      modifies this`min
      ensures seen == old(min) && min == if old(min) == expected then n else old(min)
    {
      seen := min;
      if min == expected {
        min := n;
      }
    }

    /** __sync_val_compare_and_swap on max */
    method SwapMax(expected: nat, n: nat) returns (seen: nat)
      modifies this`max
      ensures seen == old(max) && max == if old(max) == expected then n else old(max)
    {
      seen := max;
      if max == expected {
        max := n;
      }
    }

    /** stats_record, undisturbed by other threads. */
    method Record(n: nat) returns (ok: bool)
      requires Valid()
      modifies this, data
      ensures Valid() && ok == (n < limit)
      ensures data[..] == if ok then old(data[..])[n := old(data[..])[n] + 1] else old(data[..])
      ensures count == old(count) + (if ok then 1 else 0)
    {
      if n >= limit {
        return false;
      }
      RecordKeepsExact(data[..], count, min, max, n);
      ghost var before := data[..];
      data[n] := data[n] + 1;
      ghost var after := before[n := before[n] + 1];
      assert data[..] == after;
      count := count + 1;
      var lo, hi := min, max;
      while n < lo
        modifies this`min
        invariant if n < old(min) then lo == min == old(min) || (min == n && (lo == n || lo == old(min)))
            else lo == min == old(min)
        decreases lo, if min == lo then 1 else 0
      {
        lo := SwapMin(lo, n);
      }
      while n > hi
        modifies this`max
        invariant if n > old(max) then hi == max == old(max) || (max == n && (hi == n || hi == old(max)))
            else hi == max == old(max)
        decreases n - hi, if max == hi then 1 else 0
      {
        hi := SwapMax(hi, n);
      }
      assert data[..] == after;
      return true;
    }

    /** stats_percentile: the sorted samples at index floor(p * count / 100), or 0 when there is no such sample. */
    method Percentile(p: real) returns (v: nat)
      requires Valid() && p >= 0.0
      ensures Index(p, count) < count ==>
          forall s :: ListsSamples(s, data[..]) ==> |s| == count && v == s[Index(p, count)]
      ensures Index(p, count) >= count ==> v == 0
      ensures p < 100.0 && count > 0 ==> Index(p, count) < count
    {
      hide Rank, Index, Sum, Expand, ListsSamples, Exact, Distinct;
      ghost var d := data[..];
      RangeOf(d, count, min, max);
      RankIs(p, count);
      OnlyExpand(d);
      ExpandLists(d);
      var rank := Rank(p, count);
      var total := 0;
      var i := min;
      if count > 0 { Ends(d, count, min, max); }
      while i <= max
        invariant count > 0 ==> min <= i <= max + 1 && total == Sum(d[..i]) < rank
        invariant count == 0 ==> i == min
        decreases max + 1 - i
      {
        SumStep(d, i);
        assert data[i] == d[i];
        total := total + data[i];
        if total >= rank {
          SampleAt(d, i, rank - 1);
          return i;
        }
        i := i + 1;
      }
      return 0;
    }

    /** stats_popcount: how many different values were recorded. */
    method PopCount() returns (n: nat)
      requires Valid()
      ensures n == |Distinct(data[..])|
    {
      hide Distinct, Sum, Expand, Exact;
      ghost var d := data[..];
      n := 0;
      var i := min;
      ScanBegins(d, count, min, max);
      while i <= max
        invariant count > 0 ==> min <= i <= max + 1 && n == |Distinct(d[..i])|
        invariant count == 0 ==> i == min && n == 0
        decreases max + 1 - i
      {
        ScanStep(d, i);
        if data[i] != 0 {
          n := n + 1;
        }
        i := i + 1;
      }
    }

    /** stats_value_at: the recorded value with this index, and how often it was recorded. */
    method ValueAt(index: nat) returns (v: nat, n: nat)
      requires Valid()
      ensures index < |Distinct(data[..])| ==> v == Distinct(data[..])[index] && v < limit && n == data[v]
      ensures index >= |Distinct(data[..])| ==> v == 0 && n == |Distinct(data[..])|
    {
      hide Distinct, Sum, Expand, Exact;
      ghost var d := data[..];
      n := 0;
      var i := min;
      ScanBegins(d, count, min, max);
      while i <= max
        invariant count > 0 ==> min <= i <= max + 1 && n == |Distinct(d[..i])| <= index
        invariant count == 0 ==> i == min && n == 0
        decreases max + 1 - i
      {
        ScanStep(d, i);
        if data[i] != 0 {
          n := n + 1;
          if n - 1 == index {
            return i, data[i];
          }
        }
        i := i + 1;
      }
      return 0, n;
    }

    /** The inner loop of stats_correct for cell n. */
    method Spread(e: nat, n: nat, ghost was: seq<nat>)
      requires 0 < e && 2 * e <= n < |was| && Level(data[..], was, e, n, |was|) && count == Sum(data[..])
      modifies this`count, data
      ensures Level(data[..], was, e, n, 0) && count == Sum(data[..])
    {
      hide Level, Reaches, Tail;
      LevelFirst(data[..], was, e, n, |was|);
      var c := data[n];
      var m := n - e;
      assert Reaches(e, m, n) by { ReachesNext(e, m); }
      while c != 0 && m > e
        invariant 0 <= m < n && (m > 0 ==> Reaches(e, m, n)) && Level(data[..], was, e, n, m)
        invariant count == Sum(data[..]) && |was| == data.Length
      {
        ghost var before := data[..];
        LevelDown(before, was, e, n, m);
        SumAdd(before, m, c);
        data[m] := data[m] + c;
        assert data[..] == before[m := before[m] + c];
        count := count + c;
        m := m - e;
      }
      LevelLast(data[..], was, e, n, m);
    }

    /** stats_correct: every cell m above e becomes the sum of the cells m, m + e, m + 2 * e, … up to max. */
    method Correct(e: nat)
      requires e > 0 && max < data.Length && count == Sum(data[..])
      modifies this`count, data
      ensures data[..] == Corrected(old(data[..]), e, max) && count == Sum(data[..])
    {
      hide Level, Tail, Sum;
      ghost var was := data[..];
      ghost var top := max;
      var n := 2 * e;
      if n <= max { NoTails(was, e, n); }
      while n <= max
        modifies this`count, data
        invariant |was| == data.Length && count == Sum(data[..]) && n >= 2 * e
        invariant if n <= max then Level(data[..], was, e, n, |was|)
                  else if n == max + 1 && n > 2 * e then Level(data[..], was, e, max, 0)
                  else n == 2 * e && data[..] == was
      {
        Spread(e, n, was);
        LevelNext(data[..], was, e, n);
        n := n + 1;
      }
      IsCorrected(data[..], was, e, max);
    }
  }

  lemma ReachesNext(e: nat, m: nat)
    requires e > 0
    ensures Reaches(e, m, m + e)
  {
  }

  lemma LevelNext(now: seq<nat>, was: seq<nat>, e: nat, n: nat)
    requires 0 < e && n < |was| && Level(now, was, e, n, 0)
    ensures n + 1 < |was| ==> Level(now, was, e, n + 1, |was|)
  {
  }

  lemma IsCorrected(now: seq<nat>, was: seq<nat>, e: nat, max: nat)
    requires e > 0 && max < |was| && (Level(now, was, e, max, 0) || (max < 2 * e && now == was))
    ensures now == Corrected(was, e, max)
  {
    forall m | 0 <= m < |was| ensures m < |now| && now[m] == Corrected(was, e, max)[m] {
    }
  }
}
