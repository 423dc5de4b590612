// The worker channels of the task queue manager and the two rules by which a
// dispatched task chooses one.
module Workers {
  import opened TaskOrder
  import opened HostLoads

  // Each worker reads from a channel that holds at most this many tasks.
  const CHANNEL_CAPACITY: nat := 10

  type Channels = seq<seq<QueuedTask>>

  datatype Strategy = LeastConnections | ResourceBased

  // w is the first of the channels that hold the fewest tasks.
  ghost predicate IsLeastBusy(chans: Channels, w: nat) {
    && w < |chans|
    && (forall i :: 0 <= i < |chans| ==> |chans[w]| <= |chans[i]|)
    && (forall i :: 0 <= i < w ==> |chans[w]| < |chans[i]|)
  }

  ghost function LeastBusy(chans: Channels): (w: nat)
    requires |chans| > 0
    ensures IsLeastBusy(chans, w)
  {
    var n := |chans| - 1;
    if n == 0 then 0
    else
      var m := LeastBusy(chans[..n]);
      if |chans[n]| < |chans[m]| then n else m
  }

  // Sum of the two usage percentages over the listed hosts that have an entry.
  ghost function UsageSum(hosts: seq<string>, loads: LoadTable): real {
    if hosts == [] then 0.0
    else
      var n := |hosts| - 1;
      UsageSum(hosts[..n], loads)
      + (if hosts[n] in loads then loads[hosts[n]].cpu + loads[hosts[n]].mem else 0.0)
  }

  ghost function KnownHosts(hosts: seq<string>, loads: LoadTable): nat {
    if hosts == [] then 0
    else
      var n := |hosts| - 1;
      KnownHosts(hosts[..n], loads) + (if hosts[n] in loads then 1 else 0)
  }

  ghost function AverageUsage(hosts: seq<string>, loads: LoadTable): real {
    var n := KnownHosts(hosts, loads);
    if n > 0 then UsageSum(hosts, loads) / n as real else 0.0
  }

  // No worker scores this much or more in the resource-based choice.
  const WORST_SCORE := 1000000.0

  function Score(c: seq<QueuedTask>, average: real): real {
    |c| as real * 10.0 + average
  }

  // The first worker with the lowest score below WORST_SCORE, else worker 0.
  ghost function ResourcePick(chans: Channels, average: real): (w: nat)
    requires |chans| > 0
    ensures w < |chans|
  {
    var w := LeastBusy(chans);
    if Score(chans[w], average) < WORST_SCORE then w else 0
  }

  // A loop over the channels that keeps the first strictly best score computes
  // ResourcePick: the average does not depend on the worker.
  lemma FirstBestScore(chans: Channels, average: real, w: nat)
    requires IsLeastBusy(chans, w)
    ensures forall i :: 0 <= i < |chans| ==> Score(chans[w], average) <= Score(chans[i], average)
    ensures forall i :: 0 <= i < w ==> Score(chans[w], average) < Score(chans[i], average)
  {}

  lemma LeastBusyIsUnique(chans: Channels, v: nat, w: nat)
    requires IsLeastBusy(chans, v) && IsLeastBusy(chans, w)
    ensures v == w
  {
    assert |chans[v]| == |chans[w]|;
  }

  ghost function SelectWorker(strategy: Strategy, chans: Channels, hosts: seq<string>, loads: LoadTable): (w: nat)
    requires |chans| > 0
    ensures w < |chans|
  {
    match strategy
    case LeastConnections => LeastBusy(chans)
    case ResourceBased => ResourcePick(chans, AverageUsage(hosts, loads))
  }

  // Hosts that do not refuse keep both usage percentages at 80 or below.
  lemma {:induction false} UsageOfAdmitted(hosts: seq<string>, loads: LoadTable)
    requires forall h :: h in hosts && h in loads ==> loads[h].cpu <= 80.0 && loads[h].mem <= 80.0
    ensures UsageSum(hosts, loads) <= 160.0 * KnownHosts(hosts, loads) as real
  {
    if hosts != [] {
      UsageOfAdmitted(hosts[..|hosts| - 1], loads);
    }
  }

  lemma QuotientBound(total: real, n: nat)
    requires n > 0 && total <= 160.0 * n as real
    ensures total / n as real <= 160.0
  {}

  // Whatever the strategy, an admitted task goes to the first least busy
  // worker: the host-load term of the resource score is the same for all.
  lemma StrategiesAgree(strategy: Strategy, chans: Channels, hosts: seq<string>, loads: LoadTable)
    requires |chans| > 0
    requires forall c :: c in chans ==> |c| <= CHANNEL_CAPACITY
    requires forall h :: h in hosts && h in loads ==> loads[h].cpu <= 80.0 && loads[h].mem <= 80.0
    ensures SelectWorker(strategy, chans, hosts, loads) == LeastBusy(chans)
  {
    UsageOfAdmitted(hosts, loads);
    var n := KnownHosts(hosts, loads);
    if n > 0 { QuotientBound(UsageSum(hosts, loads), n); }
    var w := LeastBusy(chans);
    assert chans[w] in chans;
  }

  // All tasks waiting in the channels, and how many more the channels can take.
  ghost function Waiting(chans: Channels): multiset<QueuedTask> {
    if chans == [] then multiset{}
    else Waiting(chans[..|chans| - 1]) + multiset(chans[|chans| - 1])
  }

  ghost function FreeSlots(chans: Channels): int {
    CHANNEL_CAPACITY * |chans| - |Waiting(chans)|
  }

  lemma {:induction false} WaitingUpdate(chans: Channels, w: nat, c: seq<QueuedTask>)
    requires w < |chans|
    ensures Waiting(chans[w := c]) + multiset(chans[w]) == Waiting(chans) + multiset(c)
  {
    var n := |chans| - 1;
    var d := chans[w := c];
    if w == n {
      assert d[..n] == chans[..n];
    } else {
      var p, x := chans[..n], multiset(chans[n]);
      assert d[..n] == p[w := c] && d[n] == chans[n] && p[w] == chans[w];
      WaitingUpdate(p, w, c);
      assert Waiting(d) + multiset(chans[w]) == (Waiting(p[w := c]) + multiset(p[w])) + x;
      assert Waiting(chans) + multiset(c) == (Waiting(p) + multiset(c)) + x;
    }
  }

  lemma {:induction false} WaitingAtLeast(chans: Channels, m: nat)
    requires forall i :: 0 <= i < |chans| ==> |chans[i]| >= m
    ensures |Waiting(chans)| >= m * |chans|
  {
    if chans != [] {
      var n := |chans| - 1;
      assert forall i :: 0 <= i < n ==> chans[..n][i] == chans[i];
      WaitingAtLeast(chans[..n], m);
      assert |chans[n]| >= m;
      assert m * |chans| == m * n + m;
    }
  }

  lemma {:induction false} WaitingAtMost(chans: Channels, m: nat)
    requires forall i :: 0 <= i < |chans| ==> |chans[i]| <= m
    ensures |Waiting(chans)| <= m * |chans|
  {
    if chans != [] {
      var n := |chans| - 1;
      assert forall i :: 0 <= i < n ==> chans[..n][i] == chans[i];
      WaitingAtMost(chans[..n], m);
      assert |chans[n]| <= m;
      assert m * |chans| == m * n + m;
    }
  }

  // Pigeonhole: the least busy channel is full exactly when no slot is free.
  lemma LeastBusyFull(chans: Channels)
    requires |chans| > 0
    requires forall i :: 0 <= i < |chans| ==> |chans[i]| <= CHANNEL_CAPACITY
    ensures |chans[LeastBusy(chans)]| == CHANNEL_CAPACITY <==> FreeSlots(chans) == 0
    ensures FreeSlots(chans) >= 0
  {
    var w := LeastBusy(chans);
    WaitingAtMost(chans, CHANNEL_CAPACITY);
    if |chans[w]| == CHANNEL_CAPACITY {
      WaitingAtLeast(chans, CHANNEL_CAPACITY);
    } else {
      WaitingAtMost(chans[w := []], CHANNEL_CAPACITY);
      WaitingUpdate(chans, w, []);
      LessThanFull(chans, w);
    }
  }

  lemma LessThanFull(chans: Channels, w: nat)
    requires w < |chans| && |chans[w]| < CHANNEL_CAPACITY
    requires forall i :: 0 <= i < |chans| ==> |chans[i]| <= CHANNEL_CAPACITY
    ensures |Waiting(chans)| < CHANNEL_CAPACITY * |chans|
  {
    var t: QueuedTask := QueuedTask("", 0, 0, [], 0, 0);
    WaitingUpdate(chans, w, chans[w] + [t]);
    WaitingAtMost(chans[w := chans[w] + [t]], CHANNEL_CAPACITY);
  }

}
