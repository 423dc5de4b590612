// The sliding window of load snapshots and the figures derived from it.
module LoadMonitor {

  datatype Snapshot = Snapshot(timestamp: int, cpu: real, memory: real, goroutines: nat, load: real)

  const MAX_HISTORY: nat := 1000

  function CpuUsage(goroutines: nat, memory: real): real {
    var usage := goroutines as real / 1000.0 * 20.0 + memory * 0.3;
    if usage > 100.0 then 100.0 else usage
  }

  function SystemLoad(goroutines: nat, cpu: real, memory: real): real {
    var share := goroutines as real / 1000.0 * 100.0;
    var capped := if share > 100.0 then 100.0 else share;
    var load := cpu * 0.4 + memory * 0.4 + capped * 0.2;
    if load > 100.0 then 100.0 else load
  }

  // One measurement, from the allocated and the reserved memory.
  function Measured(now: int, alloc: nat, sys: nat, goroutines: nat): Snapshot
    requires sys > 0
  {
    var memory := alloc as real / sys as real * 100.0;
    var cpu := CpuUsage(goroutines, memory);
    Snapshot(now, cpu, memory, goroutines, SystemLoad(goroutines, cpu, memory))
  }

  lemma MeasuredInRange(now: int, alloc: nat, sys: nat, goroutines: nat)
    requires alloc <= sys && sys > 0
    ensures var s := Measured(now, alloc, sys, goroutines);
            0.0 <= s.cpu <= 100.0 && 0.0 <= s.memory <= 100.0 && 0.0 <= s.load <= 100.0
  {
    var ratio := alloc as real / sys as real;
    assert ratio * sys as real == alloc as real;
    assert 0.0 <= ratio <= 1.0;
    assert goroutines as real / 1000.0 >= 0.0;
  }

  // A hundred times the memory share, and the two weighted sums, neither above 100.
  lemma MeasuredExactly(now: int, alloc: nat, sys: nat, goroutines: nat)
    requires sys > 0
    ensures var s := Measured(now, alloc, sys, goroutines);
            var g := goroutines as real / 10.0;
            && s.timestamp == now && s.goroutines == goroutines
            && s.memory * sys as real == 100.0 * alloc as real
            && s.cpu == Least(100.0, 0.2 * g + 0.3 * s.memory)
            && s.load == Least(100.0, 0.4 * s.cpu + 0.4 * s.memory + 0.2 * Least(100.0, g))
  {
    var ratio := alloc as real / sys as real;
    assert ratio * sys as real == alloc as real;
    assert ratio * 100.0 * sys as real == ratio * sys as real * 100.0;
  }

  function Least(a: real, b: real): real {
    if a <= b then a else b
  }

  // ----- The window -----

  function LastOf(taken: seq<Snapshot>, n: nat): seq<Snapshot> {
    if |taken| <= n then taken else taken[|taken| - n..]
  }

  ghost predicate Chronological(s: seq<Snapshot>) {
    forall i, j :: 0 <= i < j < |s| ==> s[i].timestamp <= s[j].timestamp
  }

  function After(s: seq<Snapshot>, cutoff: int): seq<Snapshot> {
    if s == [] then []
    else
      var n := |s| - 1;
      After(s[..n], cutoff) + if s[n].timestamp > cutoff then [s[n]] else []
  }

  lemma {:induction false} AllTooOld(s: seq<Snapshot>, cutoff: int)
    requires forall i :: 0 <= i < |s| ==> s[i].timestamp <= cutoff
    ensures After(s, cutoff) == []
  {
    if s != [] {
      AllTooOld(s[..|s| - 1], cutoff);
    }
  }

  // The snapshots after the moment are those from index k on.
  ghost predicate CutsAt(s: seq<Snapshot>, cutoff: int, k: nat) {
    k <= |s| && forall i :: 0 <= i < |s| ==> (s[i].timestamp > cutoff <==> i >= k)
  }

  lemma {:induction false} ChronologicalHasCut(s: seq<Snapshot>, cutoff: int) returns (k: nat)
    requires Chronological(s)
    ensures CutsAt(s, cutoff, k)
  {
    var n := |s| - 1;
    if s == [] || s[n].timestamp <= cutoff {
      k := |s|;
    } else {
      k := ChronologicalHasCut(s[..n], cutoff);
      assert forall i :: 0 <= i < n ==> s[..n][i] == s[i];
    }
  }

  lemma {:induction false} SuffixAtCut(s: seq<Snapshot>, cutoff: int, k: nat)
    requires CutsAt(s, cutoff, k)
    ensures After(s, cutoff) == s[k..]
  {
    if k == |s| {
      AllTooOld(s, cutoff);
    } else {
      var n := |s| - 1;
      SuffixAtCut(s[..n], cutoff, k);
      assert s[k..] == s[..n][k..] + [s[n]];
    }
  }

  // Of a chronological history, the snapshots after a moment are a suffix.
  lemma RecentIsSuffix(s: seq<Snapshot>, cutoff: int)
    requires Chronological(s)
    ensures exists k: nat :: CutsAt(s, cutoff, k) && After(s, cutoff) == s[k..]
  {
    var k := ChronologicalHasCut(s, cutoff);
    SuffixAtCut(s, cutoff, k);
  }

  // ----- Statistics -----

  datatype Stats = Stats(average: real, max: real, min: real)

  ghost predicate Bounds(lo: real, hi: real, values: seq<real>) {
    && (forall v :: v in values ==> lo <= v <= hi)
    && lo in values && hi in values
  }

  function Sum(values: seq<real>): real {
    if values == [] then 0.0 else Sum(values[..|values| - 1]) + values[|values| - 1]
  }

  lemma {:induction false} SumBetween(values: seq<real>, lo: real, hi: real)
    requires forall i :: 0 <= i < |values| ==> lo <= values[i] <= hi
    ensures lo * |values| as real <= Sum(values) <= hi * |values| as real
  {
    if values != [] {
      var n := |values| - 1;
      SumBetween(values[..n], lo, hi);
      OneMore(lo, n);
      OneMore(hi, n);
    }
  }

  lemma OneMore(x: real, n: nat)
    ensures x * (n + 1) as real == x * n as real + x
  {
    assert (n + 1) as real == n as real + 1.0;
  }

  method Statistics(values: seq<real>) returns (s: Stats)
    requires values != []
    ensures Bounds(s.min, s.max, values)
    ensures s.average * |values| as real == Sum(values)
    ensures s.min <= s.average <= s.max
  {
    var total, max, min := Accumulate(values);
    var count := |values| as real;
    forall j | 0 <= j < |values| ensures min <= values[j] <= max {
      assert values[j] in values;
    }
    SumBetween(values, min, max);
    Between(min, total, max, count);
    s := Stats(total / count, max, min);
  }

  method Accumulate(values: seq<real>) returns (total: real, max: real, min: real)
    requires values != []
    ensures total == Sum(values) && Bounds(min, max, values)
  {
    total, max, min := 0.0, 0.0, 0.0;
    for i := 0 to |values|
      invariant total == Sum(values[..i])
      invariant i > 0 ==> Bounds(min, max, values[..i])
    {
      var v := values[i];
      OneMoreValue(values, i, min, max);
      total := total + v;
      if i == 0 {
        max, min := v, v;
      } else {
        if v > max {
          max := v;
        }
        if v < min {
          min := v;
        }
      }
    }
    assert values[..|values|] == values;
  }

  lemma OneMoreValue(values: seq<real>, i: nat, lo: real, hi: real)
    requires i < |values| && (i > 0 ==> Bounds(lo, hi, values[..i]))
    ensures Sum(values[..i + 1]) == Sum(values[..i]) + values[i]
    ensures var v := values[i];
            if i == 0 then Bounds(v, v, values[..1])
            else Bounds(if v < lo then v else lo, if v > hi then v else hi, values[..i + 1])
  {
    var m := values[..i + 1];
    assert m == values[..i] + [values[i]] && m[..i] == values[..i];
  }

  lemma Between(lo: real, total: real, hi: real, count: real)
    requires count > 0.0 && lo * count <= total <= hi * count
    ensures lo <= total / count <= hi && total / count * count == total
  {
    var q := total / count;
    assert q * count == total;
    assert (q - lo) * count >= 0.0 && (hi - q) * count >= 0.0;
  }

  // ----- Recommended concurrency -----

  function Recommended(load: real, maxConcurrency: int): int {
    var factor := (100.0 - load) / 100.0;
    var atLeastTenth := if factor < 0.1 then 0.1 else factor;
    var recommended := (maxConcurrency as real * atLeastTenth).Floor;
    if recommended < 1 then 1 else recommended
  }

  // The recommendation lies between one and the limit, and a higher load never
  // raises it.
  lemma RecommendedInRange(a: real, b: real, maxConcurrency: int)
    requires maxConcurrency >= 1 && 0.0 <= a <= b
    ensures 1 <= Recommended(b, maxConcurrency) <= Recommended(a, maxConcurrency) <= maxConcurrency
  {
    var fa, fb := (100.0 - a) / 100.0, (100.0 - b) / 100.0;
    var ta, tb := if fa < 0.1 then 0.1 else fa, if fb < 0.1 then 0.1 else fb;
    Scaled(maxConcurrency, tb, ta);
    Scaled(maxConcurrency, ta, 1.0);
  }

  // The recommendation is the largest number of tasks that the free share of the
  // load allows, counting at least a tenth as free, and never less than one.
  lemma RecommendedExactly(load: real, maxConcurrency: int)
    requires maxConcurrency >= 1
    ensures var r := Recommended(load, maxConcurrency);
            var free := if load >= 90.0 then 10.0 else 100.0 - load;
            && r >= 1 && maxConcurrency as real * free < 100.0 * (r + 1) as real
            && (r > 1 ==> 100.0 * r as real <= maxConcurrency as real * free)
  {
    var factor := (100.0 - load) / 100.0;
    var share := if factor < 0.1 then 0.1 else factor;
    var free := if load >= 90.0 then 10.0 else 100.0 - load;
    assert share * 100.0 == free;
    assert maxConcurrency as real * free == maxConcurrency as real * share * 100.0;
  }

  lemma Scaled(m: int, x: real, y: real)
    requires m >= 0 && x <= y
    ensures (m as real * x).Floor <= (m as real * y).Floor
  {
    assert m as real * (y - x) >= 0.0;
  }

  // ----- The monitor -----

  class SystemLoadMonitor {
    const maxHistorySize: nat
    var loadHistory: seq<Snapshot>
    // Every snapshot ever taken.
    ghost var taken: seq<Snapshot>

    ghost predicate Valid()
      reads this
    {
      loadHistory == LastOf(taken, maxHistorySize)
    }

    constructor ()
      ensures Valid() && taken == [] && maxHistorySize == MAX_HISTORY
    {
      maxHistorySize, loadHistory, taken := MAX_HISTORY, [], [];
    }

    // The history is always the last snapshots of the run, up to the limit.
    method AddToHistory(snapshot: Snapshot)
      requires Valid()
      modifies this
      ensures Valid() && taken == old(taken) + [snapshot]
      ensures |loadHistory| == if |taken| <= maxHistorySize then |taken| else maxHistorySize
      ensures forall i :: 0 <= i < |loadHistory| ==> loadHistory[i] == taken[|taken| - |loadHistory| + i]
    {
      loadHistory := loadHistory + [snapshot];
      if |loadHistory| > maxHistorySize {
        loadHistory := loadHistory[1..];
      }
      taken := taken + [snapshot];
    }

    method GetLoadHistory(cutoff: int) returns (result: seq<Snapshot>)
      ensures result == After(loadHistory, cutoff)
    {
      result := [];
      for i := 0 to |loadHistory|
        invariant result == After(loadHistory[..i], cutoff)
      {
        assert loadHistory[..i + 1][..i] == loadHistory[..i];
        if loadHistory[i].timestamp > cutoff {
          result := result + [loadHistory[i]];
        }
      }
      assert loadHistory[..|loadHistory|] == loadHistory;
    }
  }

}
