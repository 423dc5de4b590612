// Runs that fill the queue with whatever is wanted, and what the next pass makes
// of it: exactly when some run reaches a pass that spins, and exactly when some
// run reaches a queue out of order.
module SpinningRuns {
  import opened Common
  import opened TaskOrder
  import opened HostLoads
  import opened Workers
  import opened SchedulerModel
  import opened GreedyDispatch
  import opened SchedulerInvariants
  import opened SchedulerSteps
  import opened SchedulerRuns
  import opened FillingPass

  // ----- Worlds that orderly runs reach -----

  ghost predicate Reached(cfg: Config, maxConcurrent: int, workerCount: nat, w: World) {
    exists es :: Leads(Start(cfg, maxConcurrent, workerCount), es, w, OrderlyRun)
  }

  lemma StartIsReached(cfg: Config, maxConcurrent: int, workerCount: nat)
    ensures Reached(cfg, maxConcurrent, workerCount, Start(cfg, maxConcurrent, workerCount))
  {
    var w := Start(cfg, maxConcurrent, workerCount);
    assert Leads(w, [], w, OrderlyRun);
  }

  lemma StepOn(cfg: Config, maxConcurrent: int, workerCount: nat, w: World, e: Event) returns (n: World)
    requires Reached(cfg, maxConcurrent, workerCount, w) && Possible(w, e, OrderlyRun)
    ensures n == Next(w, e) && Reached(cfg, maxConcurrent, workerCount, n)
  {
    n := Next(w, e);
    ReachedNext(cfg, maxConcurrent, workerCount, w, e, n);
  }

  lemma ReachedNext(cfg: Config, maxConcurrent: int, workerCount: nat, w: World, e: Event, n: World)
    requires Reached(cfg, maxConcurrent, workerCount, w) && StepTo(w, e, n, OrderlyRun)
    ensures Reached(cfg, maxConcurrent, workerCount, n)
  {
    var es :| Leads(Start(cfg, maxConcurrent, workerCount), es, w, OrderlyRun);
    LeadsSnoc(Start(cfg, maxConcurrent, workerCount), es, w, e, n, OrderlyRun);
  }

  // The same for worlds in which all tasks have been accepted at time 0.
  ghost predicate Got(cfg: Config, maxConcurrent: int, workerCount: nat, w: World) {
    Reached(cfg, maxConcurrent, workerCount, w) && AtZero(w.log)
  }

  ghost predicate AtZero(log: seq<Acceptance>) {
    forall i :: 0 <= i < |log| ==> log[i].now == 0
  }

  lemma GoOn(cfg: Config, maxConcurrent: int, workerCount: nat, w: World, e: Event) returns (n: World)
    requires Got(cfg, maxConcurrent, workerCount, w) && Possible(w, e, OrderlyRun) && (e.EnqueueTask? ==> e.now == 0)
    ensures n == Next(w, e) && Got(cfg, maxConcurrent, workerCount, n)
    ensures !e.EnqueueTask? ==> n.log == w.log
  {
    n := StepOn(cfg, maxConcurrent, workerCount, w, e);
    NextLog(w, e);
  }

  lemma NextLog(w: World, e: Event)
    requires Enabled(w.s, e)
    ensures Next(w, e).log == if e.EnqueueTask? && EnqueueOutcome(w.s, e.id) == Accepted
                              then w.log + [Acceptance(e.id, e.priority, e.hosts, e.now)] else w.log
  {}

  // ----- Putting tasks to sleep, one after another -----

  // Different for different numbers.
  ghost function Name(k: nat): (id: string)
    ensures |id| == k
  {
    seq(k, _ => 'x')
  }

  // A task that no host is asked for, after one failed attempt.
  ghost function Sleeper(k: nat, low: int): QueuedTask {
    Retried(FirstTry(k, low))
  }

  // The first one may have another priority than the rest.
  ghost function FirstTry(k: nat, low: int): QueuedTask {
    NewTask(Name(k), if k == 0 then low else 2, [], 0)
  }

  // Nothing runs, and the workers are idle.
  ghost predicate Idling(s: State) {
    && s.running == map[] && |s.executing| == |s.chans| > 0
    && (forall i :: 0 <= i < |s.chans| ==> s.chans[i] == [] && s.executing[i].None?)
  }

  lemma IdlingSlots(s: State)
    requires Idling(s)
    ensures FreeSlots(s.chans) == CHANNEL_CAPACITY * |s.chans|
  {
    WaitingEmpty(s.chans);
  }

  ghost predicate Asleep(s: State, k: nat, low: int) {
    && Idling(s) && s.queue == [] && s.loads == map[]
    && |s.sleeping| == k && forall i :: 0 <= i < k ==> s.sleeping[i] == Sleeper(i, low)
  }

  lemma NotAsleep(s: State, k: nat, low: int, n: nat)
    requires Asleep(s, k, low) && n >= k
    ensures Name(n) !in Ids(s.sleeping)
  {
    IdsAre(s.sleeping, Name(n));
    forall i | 0 <= i < |s.sleeping| ensures s.sleeping[i].id != Name(n) {
      assert s.sleeping[i] == Sleeper(i, low) && |s.sleeping[i].id| == i;
    }
  }

  // The four steps of an attempt that fails.
  lemma EnqueueFirst(w: World, k: nat, low: int) returns (t: QueuedTask, e: Event)
    requires Asleep(w.s, k, low) && !w.spinning && w.s.cfg.capacity >= 1
    ensures t == FirstTry(k, low) && e == EnqueueTask(t.id, t.priority, [], 0) && Possible(w, e, OrderlyRun)
    ensures var n := Next(w, e); n.s == w.s.(queue := [t]) && !n.spinning
  {
    t := FirstTry(k, low);
    e := EnqueueTask(t.id, t.priority, [], 0);
    NotAsleep(w.s, k, low, k);
  }

  lemma TickFirst(w: World, t: QueuedTask, v: nat)
    requires Idling(w.s) && NonNegative(w.s.loads) && w.s.queue == [t] && t.hosts == [] && !w.spinning
    requires CanDispatch(w.s.cfg, w.s.maxConcurrent) && v == LeastBusy(w.s.chans)
    ensures Possible(w, ProcessTick(0), OrderlyRun)
    ensures var n := Next(w, ProcessTick(0));
            n.s == w.s.(queue := [], running := map[t.id := t], chans := w.s.chans[v := [t]]) && !n.spinning
  {
    IdlingSlots(w.s);
    IdleIsNotThrottled(w.s);
    HostlessLoads(w.s.loads, w.s.cfg.perHost, 0);
    SendAlone(w.s, t, 0);
    assert w.s.chans[v] + [t] == [t];
  }

  lemma ReceiveFirst(w: World, s: State, t: QueuedTask, v: nat)
    requires Idling(s) && v < |s.chans| && w.s == s.(queue := [], running := map[t.id := t], chans := s.chans[v := [t]])
    requires !w.spinning
    ensures Possible(w, Receive(v), OrderlyRun)
    ensures var n := Next(w, Receive(v));
            && !n.spinning
            && n.s == s.(queue := [], running := map[t.id := t], executing := s.executing[v := Some(t)])
  {
    assert w.s.chans[v][1..] == [];
    assert w.s.chans[v := []] == s.chans;
  }

  lemma FailFirst(w: World, s: State, t: QueuedTask, v: nat)
    requires Idling(s) && v < |s.chans| && t.hosts == [] && t.retries < t.maxRetries && !w.spinning
    requires w.s == s.(queue := [], running := map[t.id := t], executing := s.executing[v := Some(t)])
    ensures Possible(w, Finished(v, false, 0), OrderlyRun)
    ensures var n := Next(w, Finished(v, false, 0));
            n.s == s.(queue := [], sleeping := s.sleeping + [Retried(t)]) && !n.spinning
  {
    HostlessLoads(s.loads, s.cfg.perHost, 0);
    assert map[t.id := t] - {t.id} == map[];
    assert w.s.executing[v := None] == s.executing;
  }

  lemma OneMoreAsleep(cfg: Config, maxConcurrent: int, workerCount: nat, w: World, k: nat, low: int)
    returns (n: World)
    requires Got(cfg, maxConcurrent, workerCount, w) && CanDispatch(w.s.cfg, w.s.maxConcurrent)
    requires Asleep(w.s, k, low) && !w.spinning
    ensures Got(cfg, maxConcurrent, workerCount, n)
    ensures n.s == w.s.(sleeping := w.s.sleeping + [Sleeper(k, low)]) && !n.spinning
  {
    var t, e := EnqueueFirst(w, k, low);
    var v := LeastBusy(w.s.chans);
    n := GoOn(cfg, maxConcurrent, workerCount, w, e);
    TickFirst(n, t, v);
    n := GoOn(cfg, maxConcurrent, workerCount, n, ProcessTick(0));
    ReceiveFirst(n, w.s, t, v);
    n := GoOn(cfg, maxConcurrent, workerCount, n, Receive(v));
    FailFirst(n, w.s, t, v);
    n := GoOn(cfg, maxConcurrent, workerCount, n, Finished(v, false, 0));
  }

  lemma {:induction false} ManyAsleep(cfg: Config, maxConcurrent: int, workerCount: nat, k: nat, low: int)
    returns (w: World)
    requires CanDispatch(cfg, maxConcurrent) && workerCount > 0
    ensures Got(cfg, maxConcurrent, workerCount, w) && w.s.cfg == cfg && w.s.maxConcurrent == maxConcurrent
    ensures Asleep(w.s, k, low) && !w.spinning && |w.s.chans| == workerCount
  {
    if k == 0 {
      w := Start(cfg, maxConcurrent, workerCount);
      StartIsReached(cfg, maxConcurrent, workerCount);
    } else {
      var p := ManyAsleep(cfg, maxConcurrent, workerCount, k - 1, low);
      w := OneMoreAsleep(cfg, maxConcurrent, workerCount, p, k - 1, low);
    }
  }

  // ----- Waking them up around a task of one's choice -----

  // f are tasks of high priority without hosts; behind them stand u and t, the
  // latter without hosts.
  ghost predicate Lined(s: State, f: seq<QueuedTask>, u: QueuedTask, t: QueuedTask) {
    && Idling(s) && s.queue == f + [u, t]
    && (forall i :: 0 <= i < |f| ==> f[i].priority == 2 && f[i].createdAt == 0 && f[i].hosts == [])
    && u.priority < 2 && t.priority < 2 && t.hosts == []
  }

  ghost predicate AllUrgent(q: seq<QueuedTask>) {
    forall i :: 0 <= i < |q| ==> q[i].priority == 2 && q[i].createdAt == 0 && q[i].hosts == []
  }

  ghost function Middle(k: nat, hosts: seq<string>): QueuedTask {
    NewTask(Name(k), 1, hosts, 0)
  }

  lemma EnqueueMiddle(w: World, k: nat, low: int, hosts: seq<string>) returns (u: QueuedTask, e: Event)
    requires Asleep(w.s, k, low) && !w.spinning && w.s.cfg.capacity >= 1
    ensures u == Middle(k, hosts) && e == EnqueueTask(u.id, 1, hosts, 0) && Possible(w, e, OrderlyRun)
    ensures var n := Next(w, e); n.s == w.s.(queue := [u]) && !n.spinning
  {
    u := Middle(k, hosts);
    e := EnqueueTask(u.id, 1, hosts, 0);
    NotAsleep(w.s, k, low, k);
  }

  // The host is reported to be unavailable.
  lemma ReportAway(w: World, h: string) returns (e: Event)
    requires |w.s.chans| > 0 && !w.spinning && w.s.loads == map[]
    ensures e == HostReport(h, 0.0, 0.0, false, 0) && Possible(w, e, OrderlyRun)
    ensures var n := Next(w, e);
            && n.s == w.s.(loads := n.s.loads) && !n.spinning
            && h in n.s.loads && !n.s.loads[h].available && NonNegative(n.s.loads)
  {
    e := HostReport(h, 0.0, 0.0, false, 0);
  }

  lemma WakeLow(w: World, u: QueuedTask, k: nat)
    requires k > 0 && w.s.queue == [u] && u.priority == 1 && Idling(w.s) && !w.spinning
    requires |w.s.sleeping| == k && w.s.sleeping[0] == Sleeper(0, 0)
    ensures Possible(w, RetryWakes(0), OrderlyRun)
    ensures var n := Next(w, RetryWakes(0));
            n.s == w.s.(queue := [u, Sleeper(0, 0)], sleeping := w.s.sleeping[1..]) && !n.spinning
  {
    InsertAt([u], Sleeper(0, 0), 1);
    assert [u][..1] + [Sleeper(0, 0)] + [u][1..] == [u, Sleeper(0, 0)];
  }

  lemma WakeUrgent(w: World, f: seq<QueuedTask>, u: QueuedTask, t: QueuedTask) returns (g: seq<QueuedTask>)
    requires Lined(w.s, f, u, t) && w.s.sleeping != [] && AllUrgent(w.s.sleeping) && !w.spinning
    ensures Possible(w, RetryWakes(0), OrderlyRun) && g == f + [w.s.sleeping[0]]
    ensures var n := Next(w, RetryWakes(0));
            n.s == w.s.(queue := g + [u, t], sleeping := w.s.sleeping[1..]) && !n.spinning && Lined(n.s, g, u, t)
  {
    var x := w.s.sleeping[0];
    g := f + [x];
    InsertAt(w.s.queue, x, |f|);
    assert w.s.queue[..|f|] + [x] + w.s.queue[|f|..] == g + [u, t];
    assert Without(w.s.sleeping, 0) == w.s.sleeping[1..];
  }

  lemma {:induction false} WakeAll(cfg: Config, maxConcurrent: int, workerCount: nat, w: World, f: seq<QueuedTask>,
                                   u: QueuedTask, t: QueuedTask) returns (n: World, g: seq<QueuedTask>)
    requires Got(cfg, maxConcurrent, workerCount, w) && !w.spinning
    requires Lined(w.s, f, u, t) && AllUrgent(w.s.sleeping)
    ensures Got(cfg, maxConcurrent, workerCount, n) && !n.spinning
    ensures Lined(n.s, g, u, t) && |g| == |f| + |w.s.sleeping|
    ensures n.s == w.s.(queue := n.s.queue, sleeping := []) && n.log == w.log
    decreases |w.s.sleeping|
  {
    if w.s.sleeping == [] {
      n, g := w, f;
    } else {
      var x := WakeUrgent(w, f, u, t);
      var m := GoOn(cfg, maxConcurrent, workerCount, w, RetryWakes(0));
      n, g := WakeAll(cfg, maxConcurrent, workerCount, m, x, u, t);
    }
  }

  // ----- Raising the cap -----

  lemma RaisedCap(cap: int, queued: nat)
    requires 1 <= cap < 100 && queued > 10
    ensures AdjustedCap(cap, 0, queued) == if cap + 2 < 100 then cap + 2 else 100
  {}

  lemma RaiseOnce(w: World)
    requires w.s.cfg.adaptive && !w.spinning && w.s.running == map[]
    requires 1 <= w.s.maxConcurrent < 100 && |w.s.queue| > 10
    ensures Possible(w, AdjustTick, OrderlyRun)
    ensures var n := Next(w, AdjustTick);
            && n.s == w.s.(maxConcurrent := n.s.maxConcurrent) && !n.spinning
            && w.s.maxConcurrent < n.s.maxConcurrent <= 100
  {
    RaisedCap(w.s.maxConcurrent, |w.s.queue|);
  }

  lemma {:induction false} RaiseAll(cfg: Config, maxConcurrent: int, workerCount: nat, w: World) returns (n: World)
    requires Got(cfg, maxConcurrent, workerCount, w) && !w.spinning
    requires w.s.cfg.adaptive && w.s.running == map[] && 1 <= w.s.maxConcurrent <= 100 && |w.s.queue| > 10
    ensures Got(cfg, maxConcurrent, workerCount, n) && !n.spinning
    ensures n.s == w.s.(maxConcurrent := 100) && n.log == w.log
    decreases 100 - w.s.maxConcurrent
  {
    if w.s.maxConcurrent == 100 {
      n := w;
    } else {
      RaiseOnce(w);
      var m := GoOn(cfg, maxConcurrent, workerCount, w, AdjustTick);
      n := RaiseAll(cfg, maxConcurrent, workerCount, m);
    }
  }

  lemma Raise(cfg: Config, maxConcurrent: int, workerCount: nat, w: World) returns (n: World)
    requires Got(cfg, maxConcurrent, workerCount, w) && !w.spinning
    requires w.s.cfg == cfg && w.s.running == map[] && w.s.maxConcurrent == maxConcurrent >= 1 && |w.s.queue| > 10
    ensures Got(cfg, maxConcurrent, workerCount, n) && !n.spinning
    ensures n.s == w.s.(maxConcurrent := HighestCap(cfg, maxConcurrent)) && n.log == w.log
  {
    if cfg.adaptive && maxConcurrent < 100 {
      n := RaiseAll(cfg, maxConcurrent, workerCount, w);
    } else {
      n := w;
    }
  }

  // ----- A queue as long as wanted, ready for a pass under the highest cap -----

  lemma MiddleLined(cfg: Config, maxConcurrent: int, workerCount: nat, k: nat, low: int, h: string, hosts: seq<string>)
    returns (w: World, u: QueuedTask)
    requires CanDispatch(cfg, maxConcurrent) && workerCount > 0
    ensures Got(cfg, maxConcurrent, workerCount, w) && !w.spinning
    ensures Idling(w.s) && w.s.queue == [u] && u.priority == 1 && u.hosts == hosts
    ensures |w.s.sleeping| == k && forall i :: 0 <= i < k ==> w.s.sleeping[i] == Sleeper(i, low)
    ensures w.s.cfg == cfg && w.s.maxConcurrent == maxConcurrent && |w.s.chans| == workerCount
    ensures h in w.s.loads && !w.s.loads[h].available && NonNegative(w.s.loads)
  {
    w := ManyAsleep(cfg, maxConcurrent, workerCount, k, low);
    var e;
    u, e := EnqueueMiddle(w, k, low, hosts);
    w := GoOn(cfg, maxConcurrent, workerCount, w, e);
    e := ReportAway(w, h);
    w := GoOn(cfg, maxConcurrent, workerCount, w, e);
  }

  lemma Lining(cfg: Config, maxConcurrent: int, workerCount: nat, k: nat, h: string, hosts: seq<string>)
    returns (w: World, u: QueuedTask, t: QueuedTask)
    requires CanDispatch(cfg, maxConcurrent) && workerCount > 0
    ensures Got(cfg, maxConcurrent, workerCount, w) && !w.spinning
    ensures Lined(w.s, [], u, t) && u.hosts == hosts && Before(u, t) && |w.s.sleeping| == k && AllUrgent(w.s.sleeping)
    ensures w.s.cfg == cfg && w.s.maxConcurrent == maxConcurrent && |w.s.chans| == workerCount
    ensures h in w.s.loads && !w.s.loads[h].available && NonNegative(w.s.loads)
  {
    w, u := MiddleLined(cfg, maxConcurrent, workerCount, k + 1, 0, h, hosts);
    t := Sleeper(0, 0);
    WakeLow(w, u, k + 1);
    w := GoOn(cfg, maxConcurrent, workerCount, w, RetryWakes(0));
    assert [] + [u, t] == [u, t];
  }

  ghost predicate Ready(cfg: Config, maxConcurrent: int, workerCount: nat, s: State, h: string) {
    && s.cfg == cfg && s.maxConcurrent == HighestCap(cfg, maxConcurrent) && |s.chans| == workerCount
    && WellFormed(s) && Apart(s.queue, s.running) && !Throttled(s)
    && h in s.loads && !s.loads[h].available
  }

  lemma IsReady(cfg: Config, maxConcurrent: int, workerCount: nat, w: World, h: string)
    requires CanDispatch(cfg, maxConcurrent) && workerCount > 0 && Got(cfg, maxConcurrent, workerCount, w)
    requires w.s.cfg == cfg && w.s.maxConcurrent == HighestCap(cfg, maxConcurrent) && |w.s.chans| == workerCount
    requires w.s.running == map[] && h in w.s.loads && !w.s.loads[h].available
    ensures Ready(cfg, maxConcurrent, workerCount, w.s, h)
  {
    ReachedIsGood(cfg, maxConcurrent, workerCount, w);
    PlacedIsApart(w.s);
    IdleIsNotThrottled(w.s);
  }

  lemma ReachedIsGood(cfg: Config, maxConcurrent: int, workerCount: nat, w: World)
    requires workerCount > 0 && Reached(cfg, maxConcurrent, workerCount, w)
    ensures Good(w, HighestCap(cfg, maxConcurrent), OrderlyRun)
  {
    var es :| Leads(Start(cfg, maxConcurrent, workerCount), es, w, OrderlyRun);
    StartIsGood(cfg, maxConcurrent, workerCount, OrderlyRun);
    RunKeepsGood(Start(cfg, maxConcurrent, workerCount), es, HighestCap(cfg, maxConcurrent), OrderlyRun);
  }

  lemma LinedUp(cfg: Config, maxConcurrent: int, workerCount: nat, k: nat, h: string, hosts: seq<string>)
    returns (w: World, f: seq<QueuedTask>, u: QueuedTask, t: QueuedTask)
    requires CanDispatch(cfg, maxConcurrent) && workerCount > 0 && k >= 9
    ensures Got(cfg, maxConcurrent, workerCount, w) && !w.spinning
    ensures Lined(w.s, f, u, t) && |f| == k && u.hosts == hosts && Before(u, t)
    ensures Ready(cfg, maxConcurrent, workerCount, w.s, h)
  {
    w, u, t := Lining(cfg, maxConcurrent, workerCount, k, h, hosts);
    w, f := WakeAll(cfg, maxConcurrent, workerCount, w, [], u, t);
    w := Raise(cfg, maxConcurrent, workerCount, w);
    IsReady(cfg, maxConcurrent, workerCount, w, h);
  }

  // ----- Runs to a spinning pass and to a broken order -----

  ghost predicate SpinsSometime(cfg: Config, maxConcurrent: int, workerCount: nat) {
    exists w :: Reached(cfg, maxConcurrent, workerCount, w) && w.spinning
  }

  ghost predicate BreaksOrderSometime(cfg: Config, maxConcurrent: int, workerCount: nat) {
    exists w :: Reached(cfg, maxConcurrent, workerCount, w) && !Sorted(w.s.queue)
  }

  // The manager dispatches, and its cap can pass the number of channel slots.
  ghost predicate CapPasses(cfg: Config, maxConcurrent: int, slots: nat) {
    CanDispatch(cfg, maxConcurrent) && HighestCap(cfg, maxConcurrent) > slots
  }

  lemma LinedHostless(s: State, f: seq<QueuedTask>, u: QueuedTask, t: QueuedTask)
    requires Lined(s, f, u, t)
    ensures Hostless(s.queue, |f|) && s.queue[|f|..] == [u, t]
    ensures u.hosts == [] ==> Hostless(s.queue, |f| + 2)
  {}

  lemma LinedCanFill(cfg: Config, maxConcurrent: int, workerCount: nat, s: State, h: string,
                     f: seq<QueuedTask>, u: QueuedTask, t: QueuedTask)
    requires Ready(cfg, maxConcurrent, workerCount, s, h) && Lined(s, f, u, t)
    requires CHANNEL_CAPACITY * workerCount <= |f| && CHANNEL_CAPACITY * workerCount < HighestCap(cfg, maxConcurrent)
    ensures CanFill(s, CHANNEL_CAPACITY * workerCount) && |s.running| == 0
    ensures ProcessQueue(s, 0) == Scan(s, 0, 0)
  {
    IdlingSlots(s);
    LinedHostless(s, f, u, t);
  }

  lemma TickOn(cfg: Config, maxConcurrent: int, workerCount: nat, w: World) returns (n: World)
    requires Got(cfg, maxConcurrent, workerCount, w) && !w.spinning
    requires |w.s.chans| > 0 && ProcessQueue(w.s, 0) == Scan(w.s, 0, 0)
    ensures Got(cfg, maxConcurrent, workerCount, n) && n == Passed(w, Scan(w.s, 0, 0))
  {
    n := GoOn(cfg, maxConcurrent, workerCount, w, ProcessTick(0));
  }

  // A run to a pass that jams with k of its k + 2 tasks still to come.
  lemma JammingRun(cfg: Config, maxConcurrent: int, workerCount: nat, k: nat) returns (w: World)
    requires workerCount > 0 && CapPasses(cfg, maxConcurrent, CHANNEL_CAPACITY * workerCount)
    ensures Got(cfg, maxConcurrent, workerCount, w) && w.spinning && Jammed(w.s)
    ensures |w.s.chans| == |w.s.executing| == workerCount
    ensures forall i :: 0 <= i < workerCount ==> w.s.executing[i].None?
    ensures w.s.cfg == cfg && w.s.maxConcurrent == HighestCap(cfg, maxConcurrent)
    ensures |w.s.running| == CHANNEL_CAPACITY * workerCount
    ensures |w.s.queue| == k + 2 && Hostless(w.s.queue, k + 2)
  {
    var slots := CHANNEL_CAPACITY * workerCount;
    var m, f, u, t := LinedUp(cfg, maxConcurrent, workerCount, slots + k, "", []);
    LinedCanFill(cfg, maxConcurrent, workerCount, m.s, "", f, u, t);
    LinedHostless(m.s, f, u, t);
    var r := FillsAndJams(m.s, slots, 0);
    w := TickOn(cfg, maxConcurrent, workerCount, m);
  }

  lemma AwayRefuses(h: string, loads: LoadTable, perHost: int)
    requires h in loads && !loads[h].available
    ensures !CanExecute([h], loads, perHost)
  {
    assert [h][0] == h;
  }

  lemma LinedSwaps(cfg: Config, maxConcurrent: int, workerCount: nat, s: State, h: string,
                   f: seq<QueuedTask>, u: QueuedTask, t: QueuedTask)
    requires Ready(cfg, maxConcurrent, workerCount, s, h) && Lined(s, f, u, t) && u.hosts == [h]
    requires |f| == CHANNEL_CAPACITY * workerCount < HighestCap(cfg, maxConcurrent)
    ensures ProcessQueue(s, 0) == Scan(s, 0, 0)
    ensures Scan(s, 0, 0).state.queue == [t, u] && !Scan(s, 0, 0).stuck
  {
    LinedCanFill(cfg, maxConcurrent, workerCount, s, h, f, u, t);
    LinedHostless(s, f, u, t);
    AwayRefuses(h, s.loads, s.cfg.perHost);
    FillsAndSwaps(s, |f|, u, t, 0);
  }

  lemma WrongWayRound(u: QueuedTask, t: QueuedTask)
    requires Before(u, t)
    ensures !Sorted([t, u])
  {
    assert [t, u][0] == t && [t, u][1] == u;
  }

  lemma SwappingRun(cfg: Config, maxConcurrent: int, workerCount: nat) returns (w: World)
    requires workerCount > 0 && CapPasses(cfg, maxConcurrent, CHANNEL_CAPACITY * workerCount)
    ensures Got(cfg, maxConcurrent, workerCount, w) && !w.spinning && !Sorted(w.s.queue)
  {
    var slots, h := CHANNEL_CAPACITY * workerCount, "";
    var m, f, u, t := LinedUp(cfg, maxConcurrent, workerCount, slots, h, [h]);
    LinedSwaps(cfg, maxConcurrent, workerCount, m.s, h, f, u, t);
    w := TickOn(cfg, maxConcurrent, workerCount, m);
    WrongWayRound(u, t);
  }

  // ----- Managers that never dispatch -----

  ghost predicate Empty(s: State) {
    s.queue == [] && s.sleeping == [] && Idling(s)
  }

  // No pass ever starts, or there is nothing to pass over.
  ghost predicate Dormant(w: World) {
    && !w.spinning && Sorted(w.s.queue) && |w.s.chans| > 0
    && (|| (w.s.cfg.capacity < 1 && Empty(w.s))
        || w.s.maxConcurrent < 1
        || (w.s.cfg.adaptive && w.s.cfg.threshold < 0.0))
  }

  lemma NeverStarts(s: State, now: int)
    requires |s.chans| > 0
    requires s.maxConcurrent < 1 || (s.cfg.adaptive && s.cfg.threshold < 0.0)
    ensures ProcessQueue(s, now) == ScanResult(s, false, false)
  {
    if s.maxConcurrent >= 1 {
      AlwaysAbove(|s.running|, s.maxConcurrent, s.cfg.threshold);
    }
  }

  lemma AlwaysAbove(running: nat, cap: int, pct: real)
    requires cap >= 1 && pct < 0.0
    ensures LoadAbove(running, cap, pct)
  {
    ProductNegative(pct, cap as real);
  }

  lemma ProductNegative(a: real, b: real)
    requires a < 0.0 && b > 0.0
    ensures a * b < 0.0
  {}

  lemma TickKeepsDormant(w: World, now: int)
    requires Dormant(w)
    ensures Dormant(Passed(w, ProcessQueue(w.s, now)))
  {
    if !(w.s.cfg.capacity < 1 && Empty(w.s)) {
      NeverStarts(w.s, now);
    }
  }

  lemma AdjustKeepsDormant(w: World)
    requires Dormant(w)
    ensures Dormant(w.(s := Adjust(w.s)))
  {}

  lemma StepKeepsEmpty(w: World, e: Event)
    requires Empty(w.s) && w.s.cfg.capacity < 1 && Enabled(w.s, e) && !e.ProcessTick? && !e.PassGoesOn?
    ensures Empty(Next(w, e).s)
  {}

  lemma StepKeepsDormant(w: World, e: Event)
    requires Dormant(w) && Possible(w, e, OrderlyRun)
    ensures Dormant(Next(w, e))
  {
    match e
    case ProcessTick(now) => TickKeepsDormant(w, now);
    case AdjustTick => AdjustKeepsDormant(w);
    case _ =>
      StepKeepsOrder(w, e);
      if Empty(w.s) && w.s.cfg.capacity < 1 { StepKeepsEmpty(w, e); }
  }

  lemma {:induction false} RunKeepsDormant(w: World, es: seq<Event>)
    requires Dormant(w) && IsRun(w, es, OrderlyRun)
    ensures Dormant(After(w, es, OrderlyRun))
    decreases |es|
  {
    if es != [] {
      StepKeepsDormant(w, es[0]);
      RunKeepsDormant(Next(w, es[0]), es[1..]);
    }
  }

  lemma TamePasses(cfg: Config, maxConcurrent: int, workerCount: nat, w: World)
    requires workerCount > 0 && Reached(cfg, maxConcurrent, workerCount, w)
    requires !CapPasses(cfg, maxConcurrent, CHANNEL_CAPACITY * workerCount)
    ensures !w.spinning && Sorted(w.s.queue)
  {
    var es :| Leads(Start(cfg, maxConcurrent, workerCount), es, w, OrderlyRun);
    if CanDispatch(cfg, maxConcurrent) {
      QueuePassIsCleanInEveryRun(cfg, maxConcurrent, workerCount, es, 0);
    } else {
      RunKeepsDormant(Start(cfg, maxConcurrent, workerCount), es);
    }
  }

  // Some orderly run reaches a pass that spins exactly if the manager dispatches
  // at all and its cap can pass the number of channel slots.
  lemma SpinIsReachableExactly(cfg: Config, maxConcurrent: int, workerCount: nat)
    requires workerCount > 0
    ensures SpinsSometime(cfg, maxConcurrent, workerCount) <==>
            CanDispatch(cfg, maxConcurrent) && HighestCap(cfg, maxConcurrent) > CHANNEL_CAPACITY * workerCount
  {
    if CapPasses(cfg, maxConcurrent, CHANNEL_CAPACITY * workerCount) {
      var w := JammingRun(cfg, maxConcurrent, workerCount, 0);
    } else {
      forall w | Reached(cfg, maxConcurrent, workerCount, w) ensures !w.spinning {
        TamePasses(cfg, maxConcurrent, workerCount, w);
      }
    }
  }

  // So does some orderly run reach a queue that is out of order.
  lemma BrokenOrderIsReachableExactly(cfg: Config, maxConcurrent: int, workerCount: nat)
    requires workerCount > 0
    ensures BreaksOrderSometime(cfg, maxConcurrent, workerCount) <==>
            CanDispatch(cfg, maxConcurrent) && HighestCap(cfg, maxConcurrent) > CHANNEL_CAPACITY * workerCount
  {
    if CapPasses(cfg, maxConcurrent, CHANNEL_CAPACITY * workerCount) {
      var w := SwappingRun(cfg, maxConcurrent, workerCount);
    } else {
      forall w | Reached(cfg, maxConcurrent, workerCount, w) ensures Sorted(w.s.queue) {
        TamePasses(cfg, maxConcurrent, workerCount, w);
      }
    }
  }

}
