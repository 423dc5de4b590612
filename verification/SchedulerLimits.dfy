// The two limits of the scheduler over whole runs: the adaptive cap on running
// tasks and the per-host limit.
module SchedulerLimits {
  import opened TaskOrder
  import opened HostLoads
  import opened Workers
  import opened SchedulerModel
  import opened SchedulerEffects
  import opened GreedyDispatch
  import opened SchedulerInvariants
  import opened SchedulerSteps
  import opened SchedulerRuns

  // ----- The adaptive cap -----

  // The cap after n adjustments with the same numbers of running and queued tasks.
  ghost function CapAfter(cap: int, running: nat, queued: nat, n: nat): int
    decreases n
  {
    if n == 0 then cap else CapAfter(AdjustedCap(cap, running, queued), running, queued, n - 1)
  }

  ghost predicate Between(a: int, b: int, up: bool) {
    if up then a <= b else a >= b
  }

  // An adjustment never undoes the one before it.
  lemma NeverReverses(cap: int, running: nat, queued: nat)
    ensures var a := AdjustedCap(cap, running, queued);
            var b := AdjustedCap(a, running, queued);
            (a > cap ==> b >= a) && (a < cap ==> b <= a)
  {}

  // How far the cap can still move before it must stand still.
  ghost function Distance(cap: int, up: bool): nat {
    if up then (if cap < 100 then 100 - cap else 0) else (if cap > 5 then cap - 5 else 0)
  }

  lemma {:induction false} CapSettlesOneWay(cap: int, running: nat, queued: nat, up: bool) returns (n: nat)
    requires Between(cap, AdjustedCap(cap, running, queued), up)
    ensures n <= Distance(cap, up)
    ensures AdjustedCap(CapAfter(cap, running, queued, n), running, queued) == CapAfter(cap, running, queued, n)
    ensures forall k: nat :: k < n ==>
              Between(CapAfter(cap, running, queued, k), CapAfter(cap, running, queued, k + 1), up)
              && CapAfter(cap, running, queued, k) != CapAfter(cap, running, queued, k + 1)
    decreases Distance(cap, up)
  {
    var a := AdjustedCap(cap, running, queued);
    if a == cap {
      n := 0;
    } else {
      NeverReverses(cap, running, queued);
      var m := CapSettlesOneWay(a, running, queued, up);
      n := m + 1;
      forall k: nat | k < n
        ensures Between(CapAfter(cap, running, queued, k), CapAfter(cap, running, queued, k + 1), up)
        ensures CapAfter(cap, running, queued, k) != CapAfter(cap, running, queued, k + 1)
      {
        if k > 0 {
          assert CapAfter(cap, running, queued, k) == CapAfter(a, running, queued, k - 1);
          assert CapAfter(cap, running, queued, k + 1) == CapAfter(a, running, queued, k - 1 + 1);
        }
      }
    }
  }

  // With the numbers unchanged, repeated adjustment moves the cap strictly in one
  // direction until it reaches a value that further adjustment leaves alone. From
  // a start in 5..100 that is one with a load of at most 80 percent, or 5; and
  // with a load of at least 50 percent, or with at most ten tasks queued, or with
  // no room below it, or 100.
  lemma CapSettles(cap: int, running: nat, queued: nat) returns (n: nat, up: bool)
    ensures AdjustedCap(CapAfter(cap, running, queued, n), running, queued) == CapAfter(cap, running, queued, n)
    ensures forall k: nat :: k < n ==>
              Between(CapAfter(cap, running, queued, k), CapAfter(cap, running, queued, k + 1), up)
              && CapAfter(cap, running, queued, k) != CapAfter(cap, running, queued, k + 1)
    ensures 5 <= cap <= 100 ==>
              var c := CapAfter(cap, running, queued, n);
              && 5 <= c <= 100
              && (LoadPercent(running, c) <= 80.0 || c == 5)
              && (LoadPercent(running, c) >= 50.0 || queued <= 10 || running >= c || c == 100)
  {
    up := AdjustedCap(cap, running, queued) >= cap;
    n := CapSettlesOneWay(cap, running, queued, up);
    if 5 <= cap <= 100 {
      CapAfterInRange(cap, running, queued, n);
      SettledMeans(CapAfter(cap, running, queued, n), running, queued);
    }
  }

  lemma {:induction false} CapAfterInRange(cap: int, running: nat, queued: nat, n: nat)
    requires 5 <= cap <= 100
    ensures 5 <= CapAfter(cap, running, queued, n) <= 100
    decreases n
  {
    if n > 0 {
      AdjustedCapInRange(cap, running, queued);
      CapAfterInRange(AdjustedCap(cap, running, queued), running, queued, n - 1);
    }
  }

  lemma AdjustedCapInRange(cap: int, running: nat, queued: nat)
    requires 5 <= cap <= 100
    ensures 5 <= AdjustedCap(cap, running, queued) <= 100
  {}

  lemma {:induction false} RunKeepsCapRange(w: World, es: seq<Event>, mode: Mode)
    requires IsRun(w, es, mode) && 5 <= w.s.maxConcurrent <= 100
    ensures 5 <= After(w, es, mode).s.maxConcurrent <= 100
    decreases |es|
  {
    if es != [] {
      AdjustedCapInRange(w.s.maxConcurrent, |w.s.running|, |w.s.queue|);
      RunKeepsCapRange(Next(w, es[0]), es[1..], mode);
    }
  }

  // Starting between 5 and 100, the cap stays there in every run whatsoever, and
  // never more than 100 tasks are marked as running.
  lemma CapStaysInRangeInEveryRun(cfg: Config, maxConcurrent: int, workerCount: nat, es: seq<Event>)
    requires workerCount > 0 && 5 <= maxConcurrent <= 100
    requires IsRun(Start(cfg, maxConcurrent, workerCount), es, AnyRun)
    ensures var s := After(Start(cfg, maxConcurrent, workerCount), es, AnyRun).s;
            5 <= s.maxConcurrent <= 100 && |s.running| <= 100
  {
    var w := Start(cfg, maxConcurrent, workerCount);
    StartIsGood(cfg, maxConcurrent, workerCount, AnyRun);
    RunKeepsCapRange(w, es, AnyRun);
    RunKeepsGood(w, es, HighestCap(cfg, maxConcurrent), AnyRun);
  }

  // ----- The per-host limit -----

  ghost predicate NoRepeats(hosts: seq<string>) {
    forall h :: multiset(hosts)[h] <= 1
  }

  ghost predicate NoneRepeats(tasks: multiset<QueuedTask>) {
    forall t :: t in tasks ==> NoRepeats(t.hosts)
  }

  ghost predicate WithinLimits(loads: LoadTable, perHost: int) {
    forall h :: h in loads ==> loads[h].running <= loads[h].limit == perHost
  }

  // No host list repeats a host, and no host runs more tasks than its limit.
  ghost predicate Limited(s: State) {
    && NoneRepeats(Idle(s))
    && NoneRepeats(Busy(s.executing))
    && WithinLimits(s.loads, s.cfg.perHost)
  }

  lemma TouchedLimits(hosts: seq<string>, loads: LoadTable, perHost: int, now: int)
    requires perHost >= 1 && WithinLimits(loads, perHost)
    ensures WithinLimits(Touched(hosts, loads, perHost, now), perHost)
  {}

  lemma AdmittedHost(hosts: seq<string>, loads: LoadTable, perHost: int, h: string)
    requires CanExecute(hosts, loads, perHost) && h in hosts && h in loads
    ensures !Refuses(loads[h])
  {
    var k :| 0 <= k < |hosts| && hosts[k] == h;
  }

  lemma ChargedEntry(hosts: seq<string>, loads: LoadTable, perHost: int, now: int, h: string)
    requires h in hosts && (h in loads ==> loads[h].limit == perHost)
    ensures var c := Charged(Touched(hosts, loads, perHost, now), hosts, perHost, now);
            h in c && c[h].running == Charges(loads, h) + multiset(hosts)[h] && c[h].limit == perHost
  {}

  // Admission checks the limit once per host and charging adds once per
  // occurrence. For every admitted list, all hosts stay within the limit exactly
  // if each has room for all of its occurrences in the list.
  lemma ChargedLimitsExactly(hosts: seq<string>, loads: LoadTable, perHost: int, now: int)
    requires WithinLimits(loads, perHost) && CanExecute(hosts, loads, perHost)
    ensures WithinLimits(Charged(Touched(hosts, loads, perHost, now), hosts, perHost, now), perHost) <==>
            forall h :: h in hosts ==> Charges(loads, h) + multiset(hosts)[h] <= perHost
  {
    var c := Charged(Touched(hosts, loads, perHost, now), hosts, perHost, now);
    forall h | h in hosts
      ensures h in c && c[h].running == Charges(loads, h) + multiset(hosts)[h] && c[h].limit == perHost
    {
      ChargedEntry(hosts, loads, perHost, now, h);
    }
    forall h | h in c && h !in hosts ensures c[h].running <= c[h].limit == perHost {
      assert h in loads && c[h] == loads[h];
    }
  }

  // A list without repeats cannot overshoot.
  lemma ChargedLimits(hosts: seq<string>, loads: LoadTable, perHost: int, now: int)
    requires perHost >= 1 && WithinLimits(loads, perHost)
    requires CanExecute(hosts, loads, perHost) && NoRepeats(hosts)
    ensures WithinLimits(Charged(Touched(hosts, loads, perHost, now), hosts, perHost, now), perHost)
  {
    forall h | h in hosts ensures Charges(loads, h) + multiset(hosts)[h] <= perHost {
      if h in loads { AdmittedHost(hosts, loads, perHost, h); }
    }
    ChargedLimitsExactly(hosts, loads, perHost, now);
  }

  // With repeats it can: n + 1 occurrences of a fresh host pass a limit of n.
  lemma RepeatsOvershoot(h: string, n: nat, now: int)
    requires n >= 1
    ensures var hosts := seq(n + 1, _ => h);
            && CanExecute(hosts, map[], n)
            && !WithinLimits(Charged(Touched(hosts, map[], n, now), hosts, n, now), n)
  {
    var hosts := seq(n + 1, _ => h);
    RepeatCount(h, n + 1);
    assert hosts[0] in hosts;
    ChargedLimitsExactly(hosts, map[], n, now);
  }

  lemma {:induction false} RepeatCount(h: string, n: nat)
    ensures multiset(seq(n, _ => h))[h] == n
  {
    if n > 0 {
      var s, r := seq(n, _ => h), seq(n - 1, _ => h);
      RepeatCount(h, n - 1);
      assert s == r + [h];
    }
  }

  lemma ReleasedLimits(hosts: seq<string>, loads: LoadTable, perHost: int, now: int)
    requires perHost >= 1 && WithinLimits(loads, perHost)
    ensures WithinLimits(Released(loads, hosts, perHost, now), perHost)
  {}

  lemma SendLimits(s: State, i: nat, now: int) returns (n: State)
    requires s.cfg.perHost >= 1 && Limited(s) && ExecutableAt(s, i) && |s.chans| > 0
    ensures n == Send(Dispatch(s, i, now), s.queue[i], LeastBusy(s.chans)) && Limited(n)
  {
    var t := s.queue[i];
    n := Send(Dispatch(s, i, now), t, LeastBusy(s.chans));
    assert t in Idle(s);
    ChargedLimits(t.hosts, s.loads, s.cfg.perHost, now);
    DispatchMoves(s, i, now, LeastBusy(s.chans));
  }

  lemma SkipLimits(s: State, i: nat, now: int) returns (n: State)
    requires s.cfg.perHost >= 1 && Limited(s) && i < |s.queue|
    ensures n == SkipAt(s, i, now) && Limited(n)
  {
    n := SkipAt(s, i, now);
    TouchedLimits(s.queue[i].hosts, s.loads, s.cfg.perHost, now);
  }

  lemma PutBackLimits(s: State, i: nat, now: int) returns (n: State)
    requires s.cfg.perHost >= 1 && Limited(s) && ExecutableAt(s, i)
    ensures n == PutBack(Dispatch(s, i, now), s.queue[i], now)
    ensures WithinLimits(n.loads, s.cfg.perHost)
  {
    var t := s.queue[i];
    n := PutBack(Dispatch(s, i, now), t, now);
    assert t in Idle(s);
    ChargedLimits(t.hosts, s.loads, s.cfg.perHost, now);
    ReleasedLimits(t.hosts, Dispatch(s, i, now).loads, s.cfg.perHost, now);
  }

  ghost predicate LimitedState(s: State, cap: nat) {
    Loose(s, cap) && s.cfg.perHost >= 1 && Limited(s)
  }

  // One iteration of the scan: it ends in n, or goes on from n at index j.
  lemma LimitsStep(s: State, i: nat, now: int, cap: nat) returns (n: State, j: nat, ends: bool)
    requires LimitedState(s, cap) && i < |s.queue| && |s.running| < s.maxConcurrent
    ensures LimitedState(n, cap) && j <= |n.queue|
    ensures Scan(s, i, now).state == if ends then n else Scan(n, j, now).state
    ensures !ends ==> |n.queue| - j < |s.queue| - i
                      || (|n.queue| - j == |s.queue| - i && ExecutableAt(s, i) && !ExecutableAt(n, j))
  {
    LeastBusyFull(s.chans);
    if !ExecutableAt(s, i) {
      n := SkipLimits(s, i, now);
      j, ends := i + 1, false;
      SkipFollows(s, i, now, cap, AnyRun);
      ScanSkips(s, i, now);
    } else if FreeSlots(s.chans) > 0 {
      n := SendLimits(s, i, now);
      j, ends := i, false;
      SendFollows(s, i, now, cap, AnyRun);
      ScanOnSend(s, i, now);
    } else {
      n := PutBackLimits(s, i, now);
      j, ends := i, ExecutableAt(n, i);
      var b := PutBackFollows(s, i, now, cap, AnyRun);
      DispatchTarget(s, i, now);
      ScanPutsBack(s, i, now);
    }
  }

  lemma {:induction false} ScanLimits(s: State, i: nat, now: int, cap: nat) returns (r: State)
    requires LimitedState(s, cap) && i <= |s.queue|
    ensures r == Scan(s, i, now).state && Limited(r)
    decreases |s.queue| - i, ExecutableAt(s, i)
  {
    if i >= |s.queue| || |s.running| >= s.maxConcurrent {
      r := s;
    } else {
      var n, j, ends := LimitsStep(s, i, now, cap);
      if ends {
        r := n;
      } else {
        r := ScanLimits(n, j, now, cap);
      }
    }
  }

  lemma PassLimits(s: State, now: int, cap: nat)
    requires LimitedState(s, cap)
    ensures Limited(ProcessQueue(s, now).state) && Limited(Scan(s, 0, now).state)
  {
    var n := ScanLimits(s, 0, now, cap);
  }

  lemma FinishLimits(w: World, i: nat, ok: bool, now: int)
    requires w.s.cfg.perHost >= 1 && Limited(w.s) && CanFinish(w.s, i)
    ensures Limited(Conclude(w, i, ok, now).s)
  {
    var s := w.s;
    var n, t := Finish(s, i, ok, now), s.executing[i].value;
    FinishBags(s, i, ok, now);
    assert t in Busy(s.executing);
    ReleasedLimits(t.hosts, s.loads, s.cfg.perHost, now);
    forall u | u in Busy(n.executing) ensures u in Busy(s.executing) {
      assert u in Busy(n.executing) + multiset{t};
    }
    forall u | u in Idle(n) ensures NoRepeats(u.hosts) {
      assert u in Idle(s) || u == Retried(t);
    }
  }

  lemma TakeLimits(w: World, i: nat)
    requires Limited(w.s) && CanTake(w.s, i)
    ensures Limited(CallStart(w, i).s)
  {
    var s := w.s;
    var t := s.chans[i][0];
    TakeBags(s, i);
    assert t in Idle(s);
    forall u | u in Idle(Take(s, i)) ensures u in Idle(s) {}
  }

  lemma EnqueueLimits(w: World, id: string, priority: int, hosts: seq<string>, now: int)
    requires Limited(w.s) && NoRepeats(hosts)
    ensures Limited(Accept(w, id, priority, hosts, now).s)
  {
    if EnqueueOutcome(w.s, id) == Accepted {
      EnqueueIdle(w.s, id, priority, hosts, now);
    }
  }

  lemma CancelLimits(w: World, id: string, now: int)
    requires Limited(w.s) && w.s.cfg.perHost >= 1
    ensures Limited(Withdraw(w, id, now).s)
  {
    var s := w.s;
    if HasId(s.queue, id) {
      CancelBags(s, id, now);
      forall u | u in Idle(Cancel(s, id, now)) ensures u in Idle(s) {}
    } else if id in s.running {
      ReleasedLimits(s.running[id].hosts, s.loads, s.cfg.perHost, now);
    }
  }

  lemma WakeLimits(s: State, k: nat)
    requires Limited(s) && k < |s.sleeping|
    ensures Limited(Wake(s, k))
  {
    WakeMoves(s, k);
  }

  lemma AdjustLimits(s: State)
    requires Limited(s)
    ensures Limited(Adjust(s))
  {}

  lemma ReportLimits(s: State, h: string, cpu: real, mem: real, available: bool, now: int)
    requires Limited(s) && s.cfg.perHost >= 1
    ensures Limited(ReportHost(s, h, cpu, mem, available, now))
  {}

  lemma RefreshLimits(s: State, now: int)
    requires Limited(s)
    ensures Limited(RefreshHosts(s, now))
  {}

  // Every list that is enqueued names each host at most once.
  ghost predicate DistinctHosts(es: seq<Event>) {
    forall i :: 0 <= i < |es| && es[i].EnqueueTask? ==> NoRepeats(es[i].hosts)
  }

  lemma DistinctTail(es: seq<Event>)
    requires es != [] && DistinctHosts(es)
    ensures DistinctHosts(es[1..])
  {
    assert forall i :: 0 <= i < |es[1..]| ==> es[1..][i] == es[i + 1];
  }

  // The steps that leave the worker goroutines alone.
  lemma QueueStepKeepsLimits(w: World, e: Event, cap: nat)
    requires LimitedState(w.s, cap) && Enabled(w.s, e)
    requires e.EnqueueTask? ==> NoRepeats(e.hosts)
    requires !e.Receive? && !e.Finished?
    ensures Limited(Next(w, e).s)
  {
    match e
    case EnqueueTask(id, priority, hosts, now) => EnqueueLimits(w, id, priority, hosts, now);
    case ProcessTick(now) => PassLimits(w.s, now, cap);
    case PassGoesOn(now) => PassLimits(w.s, now, cap);
    case RetryWakes(k) => WakeLimits(w.s, k);
    case CancelTask(id, now) => CancelLimits(w, id, now);
    case AdjustTick => AdjustLimits(w.s);
    case HostReport(h, cpu, mem, available, now) => ReportLimits(w.s, h, cpu, mem, available, now);
    case RefreshTick(now) => RefreshLimits(w.s, now);
  }

  lemma StepKeepsLimits(w: World, e: Event, cap: nat)
    requires LimitedState(w.s, cap) && Enabled(w.s, e)
    requires e.EnqueueTask? ==> NoRepeats(e.hosts)
    ensures Limited(Next(w, e).s)
  {
    match e
    case Receive(i) => TakeLimits(w, i);
    case Finished(i, ok, now) => FinishLimits(w, i, ok, now);
    case _ => QueueStepKeepsLimits(w, e, cap);
  }

  ghost predicate LimitedRun(w: World, es: seq<Event>, cap: nat, mode: Mode) {
    Good(w, cap, mode) && IsRun(w, es, mode) && w.s.cfg.perHost >= 1 && Limited(w.s) && DistinctHosts(es)
  }

  // The run that is left after its first step.
  lemma LimitedStep(w: World, es: seq<Event>, cap: nat, mode: Mode) returns (n: World)
    requires es != [] && LimitedRun(w, es, cap, mode)
    ensures LimitedRun(n, es[1..], cap, mode) && After(w, es, mode) == After(n, es[1..], mode)
  {
    n := Next(w, es[0]);
    StepKeepsLimits(w, es[0], cap);
    StepKeepsGood(w, es[0], cap, mode);
    DistinctTail(es);
  }

  lemma {:induction false} RunKeepsLimits(w: World, es: seq<Event>, cap: nat, mode: Mode)
    requires LimitedRun(w, es, cap, mode)
    ensures Limited(After(w, es, mode).s)
    decreases |es|
  {
    if es != [] {
      var n := LimitedStep(w, es, cap, mode);
      RunKeepsLimits(n, es[1..], cap, mode);
    }
  }

  lemma StartIsLimited(cfg: Config, maxConcurrent: int, workerCount: nat)
    ensures Limited(InitialState(cfg, maxConcurrent, workerCount))
  {
    var s := InitialState(cfg, maxConcurrent, workerCount);
    WaitingEmpty(s.chans);
    BusyEmpty(s.executing);
  }

  // When host lists have no repeats and the limit admits anything at all, no
  // host's counter ever passes its limit, whatever is cancelled or enqueued
  // again. In orderly runs the counter is the number of the host's occurrences
  // among the running tasks, and so that number keeps the limit too.
  lemma HostLimitHoldsInEveryRun(cfg: Config, maxConcurrent: int, workerCount: nat, es: seq<Event>, mode: Mode)
    requires workerCount > 0 && cfg.perHost >= 1 && DistinctHosts(es)
    requires IsRun(Start(cfg, maxConcurrent, workerCount), es, mode)
    ensures var s := After(Start(cfg, maxConcurrent, workerCount), es, mode).s;
            && (forall h :: h in s.loads ==> 0 <= s.loads[h].running <= s.loads[h].limit == s.cfg.perHost)
            && (mode.OrderlyRun? ==> forall h :: HostBag(s.running)[h] <= s.cfg.perHost)
  {
    var w, cap := Start(cfg, maxConcurrent, workerCount), HighestCap(cfg, maxConcurrent);
    StartIsGood(cfg, maxConcurrent, workerCount, mode);
    StartIsLimited(cfg, maxConcurrent, workerCount);
    LimitAfter(w, es, cap, mode);
  }

  lemma LimitAfter(w: World, es: seq<Event>, cap: nat, mode: Mode)
    requires LimitedRun(w, es, cap, mode)
    ensures var s := After(w, es, mode).s;
            && (forall h :: h in s.loads ==> 0 <= s.loads[h].running <= s.loads[h].limit == s.cfg.perHost)
            && (mode.OrderlyRun? ==> forall h :: HostBag(s.running)[h] <= s.cfg.perHost)
  {
    RunKeepsLimits(w, es, cap, mode);
    RunKeepsGood(w, es, cap, mode);
    RunKeepsConfig(w, es, mode);
    LimitOnTasks(After(w, es, mode).s, cap, mode);
  }

  lemma {:induction false} RunKeepsConfig(w: World, es: seq<Event>, mode: Mode)
    requires IsRun(w, es, mode)
    ensures After(w, es, mode).s.cfg == w.s.cfg
    decreases |es|
  {
    if es != [] {
      RunKeepsConfig(Next(w, es[0]), es[1..], mode);
    }
  }

  lemma LimitOnTasks(s: State, cap: nat, mode: Mode)
    requires Holds(s, cap, mode) && WithinLimits(s.loads, s.cfg.perHost) && s.cfg.perHost >= 1
    ensures forall h :: h in s.loads ==> 0 <= s.loads[h].running <= s.loads[h].limit == s.cfg.perHost
    ensures mode.OrderlyRun? ==> forall h :: HostBag(s.running)[h] <= s.cfg.perHost
  {
    if mode.OrderlyRun? {
      forall h ensures HostBag(s.running)[h] <= s.cfg.perHost {
        assert Charges(s.loads, h) == HostBag(s.running)[h];
      }
    }
  }

}
