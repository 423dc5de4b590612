// A pass that spins holds the lock that every worker needs to finish its task.
// Once all workers wait for it, no step can ever be taken again.
module Deadlock {
  import opened Common
  import opened TaskOrder
  import opened Workers
  import opened SchedulerModel
  import opened SchedulerInvariants
  import opened SchedulerSteps
  import opened SchedulerRuns
  import opened FillingPass
  import opened SpinningRuns

  ghost predicate AllBusy(s: State) {
    |s.executing| == |s.chans| && forall i :: 0 <= i < |s.executing| ==> s.executing[i].Some?
  }

  ghost predicate Deadlocked(w: World) {
    w.spinning && Jammed(w.s) && AllBusy(w.s)
  }

  // ----- There is no way out -----

  lemma OnlyAnotherRound(w: World, e: Event, mode: Mode) returns (n: World)
    requires Deadlocked(w) && Possible(w, e, mode)
    ensures n == Next(w, e) && Deadlocked(n) && n == w.(s := w.s.(loads := n.s.loads))
  {
    JamStays(w.s, e.now);
    n := Next(w, e);
  }

  // In every continuation whatsoever the pass spins on: no task is accepted,
  // started, finished or cancelled any more, and only time stamps of hosts change.
  lemma {:induction false} DeadlockIsForever(w: World, es: seq<Event>, mode: Mode)
    requires Deadlocked(w) && IsRun(w, es, mode)
    ensures var n := After(w, es, mode);
            Deadlocked(n) && n == w.(s := w.s.(loads := n.s.loads))
    decreases |es|
  {
    if es != [] {
      var n := OnlyAnotherRound(w, es[0], mode);
      DeadlockIsForever(n, es[1..], mode);
    }
  }

  // ----- A run into it -----

  lemma AllFull(chans: Channels)
    requires |chans| > 0 && FreeSlots(chans) == 0
    requires forall i :: 0 <= i < |chans| ==> |chans[i]| <= CHANNEL_CAPACITY
    ensures forall i :: 0 <= i < |chans| ==> |chans[i]| == CHANNEL_CAPACITY
  {
    LeastBusyFull(chans);
  }

  // The workers from i on are idle, with tasks in their channels; those before
  // are busy.
  ghost predicate BusyBefore(s: State, i: nat) {
    && i <= |s.chans| == |s.executing|
    && (forall j :: 0 <= j < i ==> s.executing[j].Some?)
    && (forall j :: i <= j < |s.chans| ==> s.executing[j].None? && s.chans[j] != [])
  }

  lemma Taken(s: State, i: nat)
    requires BusyBefore(s, i) && i < |s.chans|
    ensures CanTake(s, i) && BusyBefore(Take(s, i), i + 1)
    ensures |Take(s, i).chans| == |s.chans|
  {}

  lemma TakenSlots(s: State, i: nat)
    requires CanTake(s, i)
    ensures FreeSlots(Take(s, i).chans) == FreeSlots(s.chans) + 1
  {
    TakeBags(s, i);
  }

  lemma TakeNext(w: World, i: nat)
    requires BusyBefore(w.s, i) && i < |w.s.chans|
    ensures Possible(w, Receive(i), OrderlyRun)
    ensures var n := Next(w, Receive(i)); n.spinning == w.spinning && n.s == Take(w.s, i)
  {
    Taken(w.s, i);
  }

  lemma {:induction false} AllTake(cfg: Config, maxConcurrent: int, workerCount: nat, w: World, i: nat)
    returns (n: World)
    requires Reached(cfg, maxConcurrent, workerCount, w) && w.spinning
    requires BusyBefore(w.s, i)
    ensures Reached(cfg, maxConcurrent, workerCount, n) && n.spinning && AllBusy(n.s)
    ensures n.s == w.s.(chans := n.s.chans, executing := n.s.executing)
    ensures |n.s.chans| == |w.s.chans| && FreeSlots(n.s.chans) == FreeSlots(w.s.chans) + (|w.s.chans| - i)
    decreases |w.s.chans| - i
  {
    if i == |w.s.chans| {
      n := w;
    } else {
      TakeNext(w, i);
      Taken(w.s, i);
      TakenSlots(w.s, i);
      var m := StepOn(cfg, maxConcurrent, workerCount, w, Receive(i));
      n := AllTake(cfg, maxConcurrent, workerCount, m, i + 1);
    }
  }

  // The pass goes on, fills the channels once more, and jams again.
  lemma JamsAgain(cfg: Config, maxConcurrent: int, workerCount: nat, w: World, k: nat) returns (n: World)
    requires workerCount > 0 && Reached(cfg, maxConcurrent, workerCount, w) && w.spinning && AllBusy(w.s)
    requires FreeSlots(w.s.chans) == k && Hostless(w.s.queue, k + 1) && |w.s.running| + k < w.s.maxConcurrent
    ensures Reached(cfg, maxConcurrent, workerCount, n) && Deadlocked(n)
  {
    ReachedIsGood(cfg, maxConcurrent, workerCount, w);
    PlacedIsApart(w.s);
    var r := FillsAndJams(w.s, k, 0);
    n := StepOn(cfg, maxConcurrent, workerCount, w, PassGoesOn(0));
  }

  lemma DeadlockingRun(cfg: Config, maxConcurrent: int, workerCount: nat) returns (w: World)
    requires workerCount > 0 && CapPasses(cfg, maxConcurrent, (CHANNEL_CAPACITY + 1) * workerCount)
    ensures Reached(cfg, maxConcurrent, workerCount, w) && Deadlocked(w)
  {
    w := JammingRun(cfg, maxConcurrent, workerCount, workerCount);
    AllFull(w.s.chans);
    w := AllTake(cfg, maxConcurrent, workerCount, w, 0);
    w := JamsAgain(cfg, maxConcurrent, workerCount, w, workerCount);
  }

  // ----- When it cannot happen -----

  lemma {:induction false} BusyFull(executing: seq<Option<QueuedTask>>)
    requires forall i :: 0 <= i < |executing| ==> executing[i].Some?
    ensures |Busy(executing)| == |executing|
  {
    if executing != [] {
      var n := |executing| - 1;
      BusyFull(executing[..n]);
      BusyLast(executing, n);
    }
  }

  lemma PassKeepsWorkers(s: State, now: int, cap: nat)
    requires Holds(s, cap, OrderlyRun)
    ensures |ProcessQueue(s, now).state.chans| == |Scan(s, 0, now).state.chans| == |s.chans|
  {
    var r := ScanFollows(s, 0, now, cap, OrderlyRun);
  }

  lemma StepKeepsWorkers(w: World, e: Event, cap: nat)
    requires Holds(w.s, cap, OrderlyRun) && Enabled(w.s, e)
    ensures |Next(w, e).s.chans| == |w.s.chans|
  {
    match e
    case ProcessTick(now) => PassKeepsWorkers(w.s, now, cap);
    case PassGoesOn(now) => PassKeepsWorkers(w.s, now, cap);
    case _ => OtherStepKeepsWorkers(w, e);
  }

  lemma OtherStepKeepsWorkers(w: World, e: Event)
    requires Enabled(w.s, e) && !e.ProcessTick? && !e.PassGoesOn?
    ensures |Next(w, e).s.chans| == |w.s.chans|
  {}

  lemma {:induction false} RunKeepsWorkers(w: World, es: seq<Event>, cap: nat)
    requires Good(w, cap, OrderlyRun) && IsRun(w, es, OrderlyRun)
    ensures |After(w, es, OrderlyRun).s.chans| == |w.s.chans|
    decreases |es|
  {
    if es != [] {
      StepKeepsWorkers(w, es[0], cap);
      StepKeepsGood(w, es[0], cap, OrderlyRun);
      RunKeepsWorkers(Next(w, es[0]), es[1..], cap);
    }
  }

  lemma ReachedWorkers(cfg: Config, maxConcurrent: int, workerCount: nat, w: World)
    requires workerCount > 0 && Reached(cfg, maxConcurrent, workerCount, w)
    ensures |w.s.chans| == workerCount
  {
    var es :| Leads(Start(cfg, maxConcurrent, workerCount), es, w, OrderlyRun);
    StartIsGood(cfg, maxConcurrent, workerCount, OrderlyRun);
    RunKeepsWorkers(Start(cfg, maxConcurrent, workerCount), es, HighestCap(cfg, maxConcurrent));
  }

  // All workers and all channels are full of running tasks.
  lemma DeadlockIsFull(s: State, cap: nat)
    requires Core(s, cap) && Jammed(s) && AllBusy(s)
    ensures (CHANNEL_CAPACITY + 1) * |s.chans| == |s.running| < cap
  {
    ValuesCount(s.running);
    BusyFull(s.executing);
    assert |InFlight(s)| == |Waiting(s.chans)| + |Busy(s.executing)|;
  }

  ghost predicate DeadlocksSometime(cfg: Config, maxConcurrent: int, workerCount: nat) {
    exists w :: Reached(cfg, maxConcurrent, workerCount, w) && Deadlocked(w)
  }

  lemma DeadlockNeeds(cfg: Config, maxConcurrent: int, workerCount: nat, w: World)
    requires workerCount > 0 && Reached(cfg, maxConcurrent, workerCount, w) && Deadlocked(w)
    ensures CapPasses(cfg, maxConcurrent, (CHANNEL_CAPACITY + 1) * workerCount)
  {
    ReachedIsGood(cfg, maxConcurrent, workerCount, w);
    ReachedWorkers(cfg, maxConcurrent, workerCount, w);
    DeadlockIsFull(w.s, HighestCap(cfg, maxConcurrent));
    SpinIsReachableExactly(cfg, maxConcurrent, workerCount);
  }

  // Some orderly run ends in a deadlock exactly if the manager dispatches at all
  // and its cap can pass what the channels and the workers hold together.
  lemma DeadlockIsReachableExactly(cfg: Config, maxConcurrent: int, workerCount: nat)
    requires workerCount > 0
    ensures DeadlocksSometime(cfg, maxConcurrent, workerCount) <==>
            CanDispatch(cfg, maxConcurrent) && HighestCap(cfg, maxConcurrent) > (CHANNEL_CAPACITY + 1) * workerCount
  {
    if CapPasses(cfg, maxConcurrent, (CHANNEL_CAPACITY + 1) * workerCount) {
      var w := DeadlockingRun(cfg, maxConcurrent, workerCount);
    }
    if w :| Reached(cfg, maxConcurrent, workerCount, w) && Deadlocked(w) {
      DeadlockNeeds(cfg, maxConcurrent, workerCount, w);
    }
  }

  lemma RoundSpins(w: World, e: Event)
    requires Enabled(w.s, e) && HasLock(w, e) && (e.ProcessTick? || e.PassGoesOn?) && Next(w, e).spinning
    ensures Scan(w.s, 0, e.now).stuck && Next(w, e).s == Scan(w.s, 0, e.now).state
  {}

  lemma RoundJams(cfg: Config, maxConcurrent: int, workerCount: nat, w: World, e: Event) returns (n: World)
    requires workerCount > 0 && Reached(cfg, maxConcurrent, workerCount, w) && Possible(w, e, OrderlyRun)
    requires (e.ProcessTick? || e.PassGoesOn?) && Next(w, e).spinning
    ensures n == Next(w, e) && Reached(cfg, maxConcurrent, workerCount, n) && Jammed(n.s)
  {
    ReachedIsWellFormed(cfg, maxConcurrent, workerCount, w);
    RoundSpins(w, e);
    SpinJams(w.s, e.now);
    n := StepOn(cfg, maxConcurrent, workerCount, w, e);
  }

  lemma ReachedIsWellFormed(cfg: Config, maxConcurrent: int, workerCount: nat, w: World)
    requires workerCount > 0 && Reached(cfg, maxConcurrent, workerCount, w)
    ensures WellFormed(w.s)
  {
    ReachedIsGood(cfg, maxConcurrent, workerCount, w);
  }

  lemma JamIsRelieved(cfg: Config, maxConcurrent: int, workerCount: nat, n: World) returns (i: nat)
    requires workerCount > 0 && HighestCap(cfg, maxConcurrent) <= (CHANNEL_CAPACITY + 1) * workerCount
    requires Reached(cfg, maxConcurrent, workerCount, n) && n.spinning && Jammed(n.s)
    ensures Possible(n, Receive(i), OrderlyRun)
  {
    if AllBusy(n.s) {
      DeadlockNeeds(cfg, maxConcurrent, workerCount, n);
      assert false;
    }
    AllFull(n.s.chans);
    i :| 0 <= i < |n.s.executing| && n.s.executing[i].None?;
  }

  // Below that, whenever a round of a pass ends in a spin, some idle worker can
  // take a task, and the pass can go on.
  lemma JamsAreRelieved(cfg: Config, maxConcurrent: int, workerCount: nat, w: World, e: Event) returns (i: nat)
    requires workerCount > 0 && HighestCap(cfg, maxConcurrent) <= (CHANNEL_CAPACITY + 1) * workerCount
    requires Reached(cfg, maxConcurrent, workerCount, w) && Possible(w, e, OrderlyRun)
    requires (e.ProcessTick? || e.PassGoesOn?) && Next(w, e).spinning
    ensures Possible(Next(w, e), Receive(i), OrderlyRun)
  {
    var n := RoundJams(cfg, maxConcurrent, workerCount, w, e);
    i := JamIsRelieved(cfg, maxConcurrent, workerCount, n);
  }

  // The configuration the server ships with: no orderly run makes a pass spin or
  // breaks the order of the queue. With one worker fewer, some do either, and
  // some end in a deadlock.
  lemma ShippedConfiguration(strategy: Strategy)
    ensures var cfg := Config(5, 1000, strategy, true, 80.0);
            && !SpinsSometime(cfg, 20, 10) && !BreaksOrderSometime(cfg, 20, 10)
            && SpinsSometime(cfg, 20, 9) && BreaksOrderSometime(cfg, 20, 9) && DeadlocksSometime(cfg, 20, 9)
  {
    var cfg := Config(5, 1000, strategy, true, 80.0);
    SpinIsReachableExactly(cfg, 20, 10);
    BrokenOrderIsReachableExactly(cfg, 20, 10);
    SpinIsReachableExactly(cfg, 20, 9);
    BrokenOrderIsReachableExactly(cfg, 20, 9);
    DeadlockIsReachableExactly(cfg, 20, 9);
  }

}
