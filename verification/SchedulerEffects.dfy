// What each step of the task queue manager does to its fields, said without the
// functions that define the steps.
module SchedulerEffects {
  import opened Common
  import opened TaskOrder
  import opened HostLoads
  import opened Workers
  import opened SchedulerModel
  import opened GreedyDispatch

  // ----- Entering the queue -----

  // When an enqueue is refused, in the order of the checks.
  lemma EnqueueRefusals(s: State, id: string)
    ensures var r := EnqueueOutcome(s, id);
            && (r == QueueFull <==> |s.queue| >= s.cfg.capacity)
            && (r == AlreadyRunning <==> |s.queue| < s.cfg.capacity && id in s.running)
            && (r == AlreadyQueued <==> |s.queue| < s.cfg.capacity && id !in s.running
                                        && exists i :: 0 <= i < |s.queue| && s.queue[i].id == id)
            && (r == Accepted <==> |s.queue| < s.cfg.capacity && id !in s.running
                                   && forall i :: 0 <= i < |s.queue| ==> s.queue[i].id != id)
  {}

  // The tasks before index k have at least the priority, those from k on less.
  ghost predicate CutByPriority(q: seq<QueuedTask>, priority: int, k: nat) {
    && k <= |q|
    && (forall i :: 0 <= i < k ==> q[i].priority >= priority)
    && (forall i :: k <= i < |q| ==> q[i].priority < priority)
  }

  // q is p with t put in at index k.
  ghost predicate PutIn(p: seq<QueuedTask>, t: QueuedTask, k: nat, q: seq<QueuedTask>) {
    k <= |p| && q == p[..k] + [t] + p[k..]
  }

  lemma InsertedAfterEqual(q: seq<QueuedTask>, t: QueuedTask) returns (k: nat)
    requires Sorted(q) && forall i :: 0 <= i < |q| ==> q[i].createdAt <= t.createdAt
    ensures CutByPriority(q, t.priority, k) && PutIn(q, t, k, Insert(q, t))
  {
    k := InsertSplits(q, t);
    forall i | k <= i < |q| ensures q[i].priority < t.priority {
      if i > k { assert !Before(q[i], q[k]); }
    }
  }

  // A task accepted at a time not before that of any queued task comes to stand
  // behind all tasks of at least its priority and before the others. So its
  // position is one more than the number of the former.
  lemma AcceptedTaskStands(s: State, id: string, priority: int, hosts: seq<string>, now: int) returns (k: nat)
    requires Sorted(s.queue) && forall i :: 0 <= i < |s.queue| ==> s.queue[i].createdAt <= now
    requires |s.queue| < s.cfg.capacity && id !in s.running
    requires forall i :: 0 <= i < |s.queue| ==> s.queue[i].id != id
    ensures var n := Enqueue(s, id, priority, hosts, now);
            && CutByPriority(s.queue, priority, k)
            && |n.queue| == |s.queue| + 1 && PutIn(s.queue, n.queue[k], k, n.queue)
            && n.queue[k].id == id && n.queue[k].priority == priority && n.queue[k].hosts == hosts
            && n.queue[k].createdAt == now && n.queue[k].retries == 0 && n.queue[k].maxRetries == 3
            && n == s.(queue := n.queue)
            && HasId(n.queue, id) && FirstIndex(n.queue, id) + 1 == k + 1
  {
    var t := NewTask(id, priority, hosts, now);
    k := InsertedAfterEqual(s.queue, t);
    var n := Enqueue(s, id, priority, hosts, now);
    assert n.queue[k] == t;
    forall i | 0 <= i < |n.queue| && i != k ensures n.queue[i].id != id {
      assert n.queue[i] == s.queue[if i < k then i else i - 1];
    }
  }

  // A retry that wakes up stands before the first task of lower priority, or of
  // its priority and created later; the others keep their order.
  lemma WokenTaskStands(s: State, k: nat) returns (p: nat)
    requires k < |s.sleeping|
    ensures var t, n := s.sleeping[k], Wake(s, k);
            && PutIn(s.queue, t, p, n.queue)
            && (forall i :: 0 <= i < p ==>
                  var q := s.queue[i];
                  q.priority > t.priority || (q.priority == t.priority && q.createdAt <= t.createdAt))
            && (p < |s.queue| ==>
                  var q := s.queue[p];
                  q.priority < t.priority || (q.priority == t.priority && q.createdAt > t.createdAt))
            && n == s.(queue := n.queue, sleeping := s.sleeping[..k] + s.sleeping[k + 1..])
  {
    p := InsertSplits(s.queue, s.sleeping[k]);
  }

  // ----- Host entries -----

  // The columns of the host's entry, or those of a new one.
  ghost predicate EntryBut(loads: LoadTable, h: string, perHost: int, e: HostLoad) {
    if h in loads then
      && e.limit == loads[h].limit && e.available == loads[h].available
      && e.cpu == loads[h].cpu && e.mem == loads[h].mem
    else
      e.limit == perHost && e.available && e.cpu == 0.0 && e.mem == 0.0
  }

  // Charging adds the occurrences to the counter of every listed host and stamps
  // it; releasing takes them away, down to zero.
  lemma ChargeColumns(loads: LoadTable, hosts: seq<string>, perHost: int, now: int)
    ensures var c, r := Charged(loads, hosts, perHost, now), Released(loads, hosts, perHost, now);
            && c.Keys == r.Keys == loads.Keys + (set h | h in hosts)
            && (forall h :: h in loads && h !in hosts ==> c[h] == loads[h] == r[h])
            && (forall h :: h in hosts ==>
                  var had := if h in loads then loads[h].running else 0;
                  && EntryBut(loads, h, perHost, c[h]) && EntryBut(loads, h, perHost, r[h])
                  && c[h].updatedAt == r[h].updatedAt == now
                  && c[h].running == had + multiset(hosts)[h]
                  && r[h].running == (if had < multiset(hosts)[h] then 0 else had - multiset(hosts)[h]))
  {}

  // A host entry that admits no task.
  ghost predicate AdmitsNone(l: HostLoad) {
    !l.available || l.running >= l.limit || l.cpu > 80.0 || l.mem > 80.0
  }

  // Admission fails exactly if some listed host has an entry that admits none, or
  // one without an entry is listed twice under a limit of none.
  lemma AdmissionMeans(hosts: seq<string>, loads: LoadTable, perHost: int)
    ensures !CanExecute(hosts, loads, perHost) <==>
            || (exists k :: 0 <= k < |hosts| && hosts[k] in loads && AdmitsNone(loads[hosts[k]]))
            || (perHost <= 0 && exists j, k :: 0 <= j < k < |hosts| && hosts[j] == hosts[k] && hosts[k] !in loads)
  {
    forall k | 0 <= k < |hosts| && hosts[k] in loads ensures AdmitsNone(loads[hosts[k]]) == Refuses(loads[hosts[k]]) {}
  }

  // The hosts that get an entry from an admission: all listed ones if it succeeds,
  // else those before the first that is refused. Their entries are new ones.
  lemma AdmissionColumns(hosts: seq<string>, loads: LoadTable, perHost: int, now: int) returns (k: nat)
    ensures k <= |hosts| && CanExecute(hosts[..k], loads, perHost)
    ensures k < |hosts| ==> !CanExecute(hosts[..k + 1], loads, perHost)
    ensures CanExecute(hosts, loads, perHost) <==> k == |hosts|
    ensures var d := Touched(hosts, loads, perHost, now);
            && (forall h :: h in d <==> h in loads || h in hosts[..k])
            && (forall h :: h in loads ==> d[h] == loads[h])
            && (forall h :: h in d && h !in loads ==>
                  EntryBut(loads, h, perHost, d[h]) && d[h].running == 0 && d[h].updatedAt == now)
  {
    k := Scanned(hosts, loads, perHost);
    ScanReachesEnd(hosts, loads, perHost);
  }

  // A load report: usage, availability and time of one host; the rest stays.
  lemma ReportColumns(s: State, h: string, cpu: real, mem: real, available: bool, now: int)
    ensures var n := ReportHost(s, h, cpu, mem, available, now);
            && n == s.(loads := n.loads)
            && n.loads.Keys == s.loads.Keys + {h}
            && (forall x :: x in s.loads && x != h ==> n.loads[x] == s.loads[x])
            && var e := n.loads[h];
               && e.cpu == cpu && e.mem == mem && e.available == available && e.updatedAt == now
               && e.running == (if h in s.loads then s.loads[h].running else 0)
               && e.limit == (if h in s.loads then s.loads[h].limit else s.cfg.perHost)
  {}

  // The refresh: available exactly if updated within five minutes.
  lemma RefreshColumns(s: State, now: int)
    ensures var n := RefreshHosts(s, now);
            && n == s.(loads := n.loads) && n.loads.Keys == s.loads.Keys
            && forall h :: h in s.loads ==>
                 && n.loads[h].available == (now - s.loads[h].updatedAt <= 5 * 60 * 1_000_000_000)
                 && n.loads[h].running == s.loads[h].running && n.loads[h].limit == s.loads[h].limit
                 && n.loads[h].cpu == s.loads[h].cpu && n.loads[h].mem == s.loads[h].mem
                 && n.loads[h].updatedAt == s.loads[h].updatedAt
  {}

  // ----- Load and cap -----

  // The percentage of the cap that is used.
  function LoadPercent(running: nat, cap: int): real
    requires cap > 0
  {
    running as real / cap as real * 100.0
  }

  lemma PercentBelow(running: nat, cap: int, pct: real)
    requires cap > 0
    ensures LoadBelow(running, cap, pct) <==> LoadPercent(running, cap) < pct
    ensures LoadAbove(running, cap, pct) <==> LoadPercent(running, cap) > pct
  {
    var q := running as real / cap as real;
    assert q * cap as real == running as real;
    if LoadPercent(running, cap) < pct {
      Scale(LoadPercent(running, cap), pct, cap as real);
    } else if LoadPercent(running, cap) > pct {
      Scale(pct, LoadPercent(running, cap), cap as real);
    }
    assert LoadPercent(running, cap) * cap as real == running as real * 100.0;
  }

  lemma Scale(a: real, b: real, c: real)
    requires a < b && c > 0.0
    ensures a * c < b * c
  {
    assert (b - a) * c > 0.0;
  }

  // What one adjustment does to a cap in its range.
  lemma AdjustedExactly(cap: int, running: nat, queued: nat)
    requires 5 <= cap <= 100
    ensures var load, n := LoadPercent(running, cap), AdjustedCap(cap, running, queued);
            && (n > cap <==> load < 50.0 && queued > 10 && running < cap && cap < 100)
            && (n > cap ==> n == if cap + 2 <= 100 then cap + 2 else 100)
            && (n < cap <==> load > 80.0 && cap > 5)
            && (n < cap ==> n == if cap - 2 >= 5 then cap - 2 else 5)
  {
    PercentBelow(running, cap, 50.0);
    PercentBelow(running, cap, 80.0);
  }

  // When a cap in its range stays where it is.
  lemma SettledMeans(cap: int, running: nat, queued: nat)
    requires 5 <= cap <= 100
    ensures AdjustedCap(cap, running, queued) == cap <==>
            && (LoadPercent(running, cap) <= 80.0 || cap == 5)
            && (LoadPercent(running, cap) >= 50.0 || queued <= 10 || running >= cap || cap == 100)
  {
    AdjustedExactly(cap, running, queued);
  }

  // ----- The queue pass -----

  // No task is looked at while the cap is reached, or while the throttle finds
  // the load too high.
  lemma PassStartsExactly(s: State, now: int)
    requires |s.chans| > 0
    ensures var held := |s.running| >= s.maxConcurrent
                        || (s.cfg.adaptive && LoadPercent(|s.running|, s.maxConcurrent) > s.cfg.threshold);
            ProcessQueue(s, now) == if held then ScanResult(s, false, false) else Scan(s, 0, now)
  {
    if |s.running| < s.maxConcurrent {
      PercentBelow(|s.running|, s.maxConcurrent, s.cfg.threshold);
    }
  }

  // An admitted task leaves the queue, is marked as running, charged to its hosts,
  // and joins the channel.
  lemma SendColumns(s: State, i: nat, now: int, w: nat)
    requires i < |s.queue| && w < |s.chans| && CanExecute(s.queue[i].hosts, s.loads, s.cfg.perHost)
    ensures var t, n := s.queue[i], Send(Dispatch(s, i, now), s.queue[i], w);
            && n.queue == s.queue[..i] + s.queue[i + 1..]
            && n.running == s.running[t.id := t]
            && n.chans == s.chans[w := s.chans[w] + [t]]
            && n == s.(queue := n.queue, running := n.running, chans := n.chans, loads := n.loads)
            && (forall h :: Charges(n.loads, h) == Charges(s.loads, h) + multiset(t.hosts)[h])
  {
    var t := s.queue[i];
    TouchedIsSame(t.hosts, s.loads, s.cfg.perHost, now);
    ChargedCharges(Touched(t.hosts, s.loads, s.cfg.perHost, now), t.hosts, s.cfg.perHost, now);
  }

  // A task put back stands first, unmarked, and no host is charged for it.
  lemma PutBackColumns(s: State, i: nat, now: int)
    requires i < |s.queue| && NonNegative(s.loads)
    ensures var t, n := s.queue[i], PutBack(Dispatch(s, i, now), s.queue[i], now);
            && n.queue == [t] + s.queue[..i] + s.queue[i + 1..]
            && n.running == s.running - {t.id}
            && n == s.(queue := n.queue, running := n.running, loads := n.loads)
            && (forall h :: Charges(n.loads, h) == Charges(s.loads, h))
  {
    var t := s.queue[i];
    PutBackLoads(t.hosts, s.loads, s.cfg.perHost, now);
    assert s.running[t.id := t] - {t.id} == s.running - {t.id};
  }

  // ----- Workers -----

  // The least busy worker is the first with the shortest channel; a resource-based
  // choice also falls to it, unless every score reaches a million.
  lemma ChoiceMeans(strategy: Strategy, chans: Channels, hosts: seq<string>, loads: LoadTable, w: nat)
    requires |chans| > 0 && w == SelectWorker(strategy, chans, hosts, loads)
    ensures strategy == LeastConnections
            || (exists i :: 0 <= i < |chans| && |chans[i]| as real * 10.0 + AverageUsage(hosts, loads) < 1000000.0)
            ==> (forall i :: 0 <= i < |chans| ==> |chans[w]| <= |chans[i]|)
                && (forall i :: 0 <= i < w ==> |chans[w]| < |chans[i]|)
    ensures strategy == ResourceBased
            && (forall i :: 0 <= i < |chans| ==> |chans[i]| as real * 10.0 + AverageUsage(hosts, loads) >= 1000000.0)
            ==> w == 0
  {}

  // If all known hosts of the list are used alike, the average is that use, CPU
  // and memory together; without a known host it is zero.
  lemma AverageOfAlike(hosts: seq<string>, loads: LoadTable, cpu: real, mem: real)
    requires forall h :: h in hosts && h in loads ==> loads[h].cpu == cpu && loads[h].mem == mem
    ensures AverageUsage(hosts, loads) == if exists h :: h in hosts && h in loads then cpu + mem else 0.0
  {
    SumOfAlike(hosts, loads, cpu, mem);
    var n := KnownHosts(hosts, loads);
    if n > 0 {
      Quotient(cpu + mem, n as real, UsageSum(hosts, loads));
    }
  }

  lemma Quotient(a: real, n: real, total: real)
    requires n > 0.0 && total == a * n
    ensures total / n == a
  {}

  lemma {:induction false} SumOfAlike(hosts: seq<string>, loads: LoadTable, cpu: real, mem: real)
    requires forall h :: h in hosts && h in loads ==> loads[h].cpu == cpu && loads[h].mem == mem
    ensures UsageSum(hosts, loads) == (cpu + mem) * KnownHosts(hosts, loads) as real
    ensures KnownHosts(hosts, loads) > 0 <==> exists h :: h in hosts && h in loads
  {
    if hosts != [] {
      var n := |hosts| - 1;
      SumOfAlike(hosts[..n], loads, cpu, mem);
      assert hosts == hosts[..n] + [hosts[n]];
      assert hosts[n] in hosts;
      OneMoreTimes(cpu + mem, KnownHosts(hosts[..n], loads));
    }
  }

  lemma OneMoreTimes(a: real, n: nat)
    ensures a * (n + 1) as real == a * n as real + a
  {
    assert (n + 1) as real == n as real + 1.0;
  }

  // A worker receives the oldest task of its channel.
  lemma TakeColumns(s: State, w: nat)
    requires CanTake(s, w)
    ensures var n := Take(s, w);
            && n == s.(chans := n.chans, executing := n.executing)
            && s.executing[w] == None && n.executing == s.executing[w := n.executing[w]]
            && n.chans == s.chans[w := n.chans[w]]
            && n.executing[w].Some? && s.chans[w] == [n.executing[w].value] + n.chans[w]
  {}

  // The end of an execution: the worker is idle, the ID unmarked, the hosts
  // released, and the task sleeps, with one more try counted, exactly if StartTask
  // failed and tries are left.
  lemma FinishColumns(s: State, w: nat, ok: bool, now: int)
    requires CanFinish(s, w) && NonNegative(s.loads)
    ensures var t, n := s.executing[w].value, Finish(s, w, ok, now);
            && n.executing == s.executing[w := None]
            && n.running == s.running - {t.id}
            && n == s.(executing := n.executing, running := n.running, loads := n.loads, sleeping := n.sleeping)
            && n.sleeping == (if !ok && t.retries < t.maxRetries then s.sleeping + [t.(retries := t.retries + 1)]
                              else s.sleeping)
            && (forall h :: Charges(n.loads, h)
                            == (if Charges(s.loads, h) < multiset(t.hosts)[h] then 0
                                else Charges(s.loads, h) - multiset(t.hosts)[h]))
  {
    ReleasedCharges(s.loads, s.executing[w].value.hosts, s.cfg.perHost, now);
  }

  ghost predicate FirstAt(q: seq<QueuedTask>, id: string, k: nat) {
    k < |q| && q[k].id == id && forall j :: 0 <= j < k ==> q[j].id != id
  }

  // Cancelling: the first queued task with the ID goes; without one, a running
  // task's mark and charges go; otherwise nothing changes.
  lemma CancelColumns(s: State, id: string, now: int)
    requires NonNegative(s.loads)
    ensures var n := Cancel(s, id, now);
            && (forall k: nat :: FirstAt(s.queue, id, k) ==> n == s.(queue := s.queue[..k] + s.queue[k + 1..]))
            && ((forall k :: 0 <= k < |s.queue| ==> s.queue[k].id != id) ==>
                  if id in s.running then
                    && n == s.(running := s.running - {id}, loads := n.loads)
                    && (forall h :: Charges(n.loads, h)
                          == (if Charges(s.loads, h) < multiset(s.running[id].hosts)[h] then 0
                              else Charges(s.loads, h) - multiset(s.running[id].hosts)[h]))
                  else n == s)
  {
    if id in s.running {
      ReleasedCharges(s.loads, s.running[id].hosts, s.cfg.perHost, now);
    }
  }

}
