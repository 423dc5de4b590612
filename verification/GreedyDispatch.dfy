// What one pass of the queue processor achieves, stated without indices,
// splicing or channels, and when the index scan achieves it.
module GreedyDispatch {
  import opened TaskOrder
  import opened HostLoads
  import opened Workers
  import opened SchedulerModel

  // The outcome of offering the queued tasks, front to back, to the cap and to
  // the per-host limits.
  datatype Picks = Picks(
    picked: seq<QueuedTask>,
    rest: seq<QueuedTask>,
    running: map<string, QueuedTask>,
    loads: LoadTable)

  ghost function Greedy(q: seq<QueuedTask>, running: map<string, QueuedTask>, loads: LoadTable,
                        cap: int, perHost: int, now: int): Picks
  {
    if q == [] || |running| >= cap then Picks([], q, running, loads)
    else
      var t := q[0];
      var touched := Touched(t.hosts, loads, perHost, now);
      if CanExecute(t.hosts, loads, perHost) then
        var g := Greedy(q[1..], running[t.id := t], Charged(touched, t.hosts, perHost, now), cap, perHost, now);
        g.(picked := [t] + g.picked)
      else
        var g := Greedy(q[1..], running, touched, cap, perHost, now);
        g.(rest := [t] + g.rest)
  }

  ghost function GreedyFrom(s: State, i: nat, now: int): Picks
    requires i <= |s.queue|
  {
    Greedy(s.queue[i..], s.running, s.loads, s.maxConcurrent, s.cfg.perHost, now)
  }

  // Hand the picked tasks, in order, to the least busy worker each time.
  ghost function Deliver(chans: Channels, picked: seq<QueuedTask>): Channels
    requires |chans| > 0
    decreases |picked|
  {
    if picked == [] then chans
    else
      var w := LeastBusy(chans);
      Deliver(chans[w := chans[w] + [picked[0]]], picked[1..])
  }

  // ----- The index scan against the greedy pass -----

  lemma DispatchUsage(s: State, i: nat, now: int)
    requires ExecutableAt(s, i)
    ensures var d := Dispatch(s, i, now);
            forall h :: h in s.queue[i].hosts && h in d.loads ==> d.loads[h].cpu <= 80.0 && d.loads[h].mem <= 80.0
  {
    var t := s.queue[i];
    var touched := Touched(t.hosts, s.loads, s.cfg.perHost, now);
    forall h | h in t.hosts ensures h in s.loads ==> !Refuses(s.loads[h]) {
      var k :| 0 <= k < |t.hosts| && t.hosts[k] == h;
    }
  }

  // Every strategy sends an admitted task to the least busy worker, and that
  // worker's channel is full exactly when no channel has a free slot.
  lemma DispatchTarget(s: State, i: nat, now: int)
    requires WellFormed(s) && ExecutableAt(s, i)
    ensures var d := Dispatch(s, i, now);
            && SelectWorker(s.cfg.strategy, d.chans, s.queue[i].hosts, d.loads) == LeastBusy(s.chans)
            && (|s.chans[LeastBusy(s.chans)]| < CHANNEL_CAPACITY <==> FreeSlots(s.chans) > 0)
            && FreeSlots(s.chans) >= 0
            && NonNegative(d.loads)
  {
    var t := s.queue[i];
    DispatchUsage(s, i, now);
    StrategiesAgree(s.cfg.strategy, s.chans, t.hosts, Dispatch(s, i, now).loads);
    LeastBusyFull(s.chans);
    TouchedIsSame(t.hosts, s.loads, s.cfg.perHost, now);
    ChargedCharges(Touched(t.hosts, s.loads, s.cfg.perHost, now), t.hosts, s.cfg.perHost, now);
  }

  lemma SendSlots(s: State, t: QueuedTask, w: nat)
    requires WellFormed(s) && w < |s.chans| && |s.chans[w]| < CHANNEL_CAPACITY
    ensures WellFormed(Send(s, t, w))
    ensures FreeSlots(Send(s, t, w).chans) == FreeSlots(s.chans) - 1
  {
    WaitingUpdate(s.chans, w, s.chans[w] + [t]);
    assert |Waiting(s.chans[w := s.chans[w] + [t]]) + multiset(s.chans[w])|
           == |Waiting(s.chans) + multiset(s.chans[w] + [t])|;
  }

  // The index scan from i does the greedy pass over what is left when the
  // channels have room for its picks, and meets a full channel otherwise.
  ghost predicate Agrees(s: State, i: nat, now: int)
    requires |s.chans| > 0 && i <= |s.queue|
  {
    var g := GreedyFrom(s, i, now);
    var r := Scan(s, i, now);
    if |g.picked| <= FreeSlots(s.chans) then
      r == ScanResult(AfterPicks(s, s.queue[..i], g), false, false)
    else
      r.overflow
  }

  ghost function AfterPicks(s: State, skipped: seq<QueuedTask>, g: Picks): State
    requires |s.chans| > 0
  {
    s.(queue := skipped + g.rest, running := g.running, loads := g.loads, chans := Deliver(s.chans, g.picked))
  }

  lemma AgreesAtEnd(s: State, i: nat, now: int)
    requires WellFormed(s) && i <= |s.queue|
    requires i == |s.queue| || |s.running| >= s.maxConcurrent
    ensures Agrees(s, i, now)
  {
    assert s.queue[..i] + s.queue[i..] == s.queue;
    LeastBusyFull(s.chans);
  }

  lemma GreedyOnSkip(s: State, i: nat, now: int)
    requires i < |s.queue| && |s.running| < s.maxConcurrent && !ExecutableAt(s, i)
    ensures var g' := GreedyFrom(SkipAt(s, i, now), i + 1, now);
            GreedyFrom(s, i, now) == g'.(rest := [s.queue[i]] + g'.rest)
  {
    assert s.queue[i..][1..] == s.queue[i + 1..];
    assert s.queue[i..][0] == s.queue[i];
  }

  lemma PicksAfterSkip(s: State, i: nat, now: int, g: Picks, g': Picks)
    requires |s.chans| > 0 && i < |s.queue|
    requires g == g'.(rest := [s.queue[i]] + g'.rest)
    ensures AfterPicks(s, s.queue[..i], g) == AfterPicks(SkipAt(s, i, now), s.queue[..i + 1], g')
  {
    assert s.queue[..i] + g.rest == s.queue[..i + 1] + g'.rest;
  }

  lemma AgreesOnSkip(s: State, i: nat, now: int) returns (n: State)
    requires WellFormed(s) && i < |s.queue| && |s.running| < s.maxConcurrent && !ExecutableAt(s, i)
    ensures WellFormed(n) && |n.queue| == |s.queue|
    ensures Agrees(n, i + 1, now) ==> Agrees(s, i, now)
  {
    n := SkipAt(s, i, now);
    TouchedIsSame(s.queue[i].hosts, s.loads, s.cfg.perHost, now);
    GreedyOnSkip(s, i, now);
    ScanSkips(s, i, now);
    PicksAfterSkip(s, i, now, GreedyFrom(s, i, now), GreedyFrom(n, i + 1, now));
  }

  lemma AgreesOnSend(s: State, i: nat, now: int) returns (n: State)
    requires WellFormed(s) && |s.running| < s.maxConcurrent && ExecutableAt(s, i)
    requires FreeSlots(s.chans) > 0
    ensures WellFormed(n) && |n.queue| == |s.queue| - 1
    ensures Agrees(n, i, now) ==> Agrees(s, i, now)
  {
    var t := s.queue[i];
    var w := LeastBusy(s.chans);
    DispatchTarget(s, i, now);
    SendSlots(Dispatch(s, i, now), t, w);
    n := Send(Dispatch(s, i, now), t, w);
    var g, g' := GreedyFrom(s, i, now), GreedyFrom(n, i, now);
    assert s.queue[i..][1..] == s.queue[i + 1..] == n.queue[i..];
    assert g == g'.(picked := [t] + g'.picked);
    assert g.picked[1..] == g'.picked;
    assert n.queue[..i] == s.queue[..i];
    assert Scan(s, i, now) == Scan(n, i, now);
  }

  lemma AgreesWhenFull(s: State, i: nat, now: int)
    requires WellFormed(s) && |s.running| < s.maxConcurrent && ExecutableAt(s, i)
    requires FreeSlots(s.chans) <= 0
    ensures Agrees(s, i, now)
  {
    DispatchTarget(s, i, now);
    ScanPutsBack(s, i, now);
    assert s.queue[i..][0] == s.queue[i];
  }

  // The main refinement: the index scan with its splicing and stepping back
  // against the greedy pass.
  lemma {:induction false} ScanIsGreedy(s: State, i: nat, now: int)
    requires WellFormed(s) && i <= |s.queue|
    ensures Agrees(s, i, now)
    decreases |s.queue| - i
  {
    if i == |s.queue| || |s.running| >= s.maxConcurrent {
      AgreesAtEnd(s, i, now);
    } else if !ExecutableAt(s, i) {
      var n := AgreesOnSkip(s, i, now);
      ScanIsGreedy(n, i + 1, now);
    } else if FreeSlots(s.chans) > 0 {
      var n := AgreesOnSend(s, i, now);
      ScanIsGreedy(n, i, now);
    } else {
      AgreesWhenFull(s, i, now);
    }
  }

  // A full channel is met exactly when the greedy pass picks more tasks than
  // the channels have free slots.
  lemma OverflowExactly(s: State, now: int)
    requires WellFormed(s)
    ensures Scan(s, 0, now).overflow <==> |GreedyFrom(s, 0, now).picked| > FreeSlots(s.chans)
  {
    ScanIsGreedy(s, 0, now);
  }

  // ----- What the greedy pass achieves -----

  // q is an interleaving of a and b: a permutation that keeps the order of each.
  ghost predicate Interleaves(q: seq<QueuedTask>, a: seq<QueuedTask>, b: seq<QueuedTask>) {
    if q == [] then a == [] && b == []
    else
      || (a != [] && a[0] == q[0] && Interleaves(q[1..], a[1..], b))
      || (b != [] && b[0] == q[0] && Interleaves(q[1..], a, b[1..]))
  }

  lemma {:induction false} InterleavingIsPermutation(q: seq<QueuedTask>, a: seq<QueuedTask>, b: seq<QueuedTask>)
    requires Interleaves(q, a, b)
    ensures multiset(q) == multiset(a) + multiset(b)
  {
    if q != [] {
      assert q == [q[0]] + q[1..];
      if a != [] && a[0] == q[0] && Interleaves(q[1..], a[1..], b) {
        InterleavingIsPermutation(q[1..], a[1..], b);
        assert a == [a[0]] + a[1..];
      } else {
        InterleavingIsPermutation(q[1..], a, b[1..]);
        assert b == [b[0]] + b[1..];
      }
    }
  }

  lemma {:induction false} InterleavesLeft(q: seq<QueuedTask>)
    ensures Interleaves(q, [], q)
  {
    if q != [] { InterleavesLeft(q[1..]); }
  }

  lemma StepLoads(hosts: seq<string>, loads: LoadTable, perHost: int, now: int)
    ensures var touched := Touched(hosts, loads, perHost, now);
            && Heavier(loads, touched, perHost)
            && Heavier(loads, Charged(touched, hosts, perHost, now), perHost)
  {
    var touched := Touched(hosts, loads, perHost, now);
    TouchedIsSame(hosts, loads, perHost, now);
    ChargedCharges(touched, hosts, perHost, now);
    HeavierTrans(loads, touched, Charged(touched, hosts, perHost, now), perHost);
  }

  // Loads only grow during the pass.
  lemma {:induction false} GreedyGrows(q: seq<QueuedTask>, running: map<string, QueuedTask>, loads: LoadTable,
                                       cap: int, perHost: int, now: int)
    ensures Heavier(loads, Greedy(q, running, loads, cap, perHost, now).loads, perHost)
  {
    if q != [] && |running| < cap {
      var t := q[0];
      var touched := Touched(t.hosts, loads, perHost, now);
      StepLoads(t.hosts, loads, perHost, now);
      if CanExecute(t.hosts, loads, perHost) {
        var charged := Charged(touched, t.hosts, perHost, now);
        GreedyGrows(q[1..], running[t.id := t], charged, cap, perHost, now);
        HeavierTrans(loads, charged, Greedy(q, running, loads, cap, perHost, now).loads, perHost);
      } else {
        GreedyGrows(q[1..], running, touched, cap, perHost, now);
        HeavierTrans(loads, touched, Greedy(q, running, loads, cap, perHost, now).loads, perHost);
      }
    }
  }

  ghost predicate NoneFits(q: seq<QueuedTask>, loads: LoadTable, perHost: int) {
    forall i :: 0 <= i < |q| ==> !CanExecute(q[i].hosts, loads, perHost)
  }

  // Dispatched and remaining tasks are the old queue, the order of both kept.
  lemma GreedySplits(q: seq<QueuedTask>, running: map<string, QueuedTask>, loads: LoadTable,
                     cap: int, perHost: int, now: int)
    ensures var g := Greedy(q, running, loads, cap, perHost, now);
            Interleaves(q, g.picked, g.rest) && multiset(q) == multiset(g.picked) + multiset(g.rest)
  {
    var g := Greedy(q, running, loads, cap, perHost, now);
    GreedyInterleaves(q, running, loads, cap, perHost, now);
    InterleavingIsPermutation(q, g.picked, g.rest);
  }

  lemma {:induction false} GreedyInterleaves(q: seq<QueuedTask>, running: map<string, QueuedTask>, loads: LoadTable,
                                             cap: int, perHost: int, now: int)
    ensures var g := Greedy(q, running, loads, cap, perHost, now);
            Interleaves(q, g.picked, g.rest)
  {
    var g := Greedy(q, running, loads, cap, perHost, now);
    if q == [] || |running| >= cap {
      InterleavesLeft(q);
    } else {
      var t := q[0];
      var touched := Touched(t.hosts, loads, perHost, now);
      if CanExecute(t.hosts, loads, perHost) {
        var charged := Charged(touched, t.hosts, perHost, now);
        GreedyInterleaves(q[1..], running[t.id := t], charged, cap, perHost, now);
        assert g.picked[1..] == Greedy(q[1..], running[t.id := t], charged, cap, perHost, now).picked;
      } else {
        GreedyInterleaves(q[1..], running, touched, cap, perHost, now);
        assert g.rest[1..] == Greedy(q[1..], running, touched, cap, perHost, now).rest;
      }
    }
  }

  // Nothing dispatchable is left behind: either the cap is reached or no
  // remaining task can execute under the final host loads.
  lemma {:induction false} GreedyIsMaximal(q: seq<QueuedTask>, running: map<string, QueuedTask>, loads: LoadTable,
                                           cap: int, perHost: int, now: int)
    ensures var g := Greedy(q, running, loads, cap, perHost, now);
            |g.running| >= cap || NoneFits(g.rest, g.loads, perHost)
  {
    if q != [] && |running| < cap {
      var t := q[0];
      var touched := Touched(t.hosts, loads, perHost, now);
      if CanExecute(t.hosts, loads, perHost) {
        GreedyIsMaximal(q[1..], running[t.id := t], Charged(touched, t.hosts, perHost, now), cap, perHost, now);
      } else {
        GreedyIsMaximal(q[1..], running, touched, cap, perHost, now);
        GreedyGrows(q, running, loads, cap, perHost, now);
        RefusalIsStable(t.hosts, loads, Greedy(q, running, loads, cap, perHost, now).loads, perHost);
      }
    }
  }

  // ----- When the loop never ends by itself -----

  // With f free slots: the first f queued tasks all go out, and the next one
  // would go out too, again and again.
  ghost predicate Spins(q: seq<QueuedTask>, f: nat, running: map<string, QueuedTask>, loads: LoadTable,
                        cap: int, perHost: int, now: int)
  {
    f < |q| &&
    var g := Greedy(q[..f], running, loads, cap, perHost, now);
    && g.rest == []
    && |g.running| < cap
    && CanExecute(q[f].hosts, g.loads, perHost)
    && (perHost > 0 || forall h :: h in q[f].hosts ==> h in g.loads)
  }

  ghost predicate WouldSpin(s: State, now: int)
    requires FreeSlots(s.chans) >= 0
  {
    Spins(s.queue, FreeSlots(s.chans), s.running, s.loads, s.maxConcurrent, s.cfg.perHost, now)
  }

  lemma SameLoadsAdmit(hosts: seq<string>, loads: LoadTable, back: LoadTable, perHost: int)
    requires CanExecute(hosts, loads, perHost)
    requires SameLoads(loads, back, perHost)
    requires forall h :: h in hosts ==> h in back
    ensures CanExecute(hosts, back, perHost) <==> perHost > 0 || forall h :: h in hosts ==> h in loads
  {
    if h :| h in hosts && h !in loads {
      var k :| 0 <= k < |hosts| && hosts[k] == h;
      assert back[h].running == 0 && back[h].limit == perHost;
    }
  }

  // Putting a task back leaves a table under which it can execute again,
  // unless its own first-time hosts got entries that admit nothing.
  lemma PutBackLoads(hosts: seq<string>, loads: LoadTable, perHost: int, now: int)
    requires NonNegative(loads)
    ensures var charged := Charged(Touched(hosts, loads, perHost, now), hosts, perHost, now);
            var back := Released(charged, hosts, perHost, now);
            && SameLoads(loads, back, perHost)
            && Heavier(loads, back, perHost)
            && NonNegative(back)
            && forall h :: h in hosts ==> h in back
  {
    var touched := Touched(hosts, loads, perHost, now);
    TouchedIsSame(hosts, loads, perHost, now);
    ReleaseUndoesCharge(touched, hosts, perHost, now, now);
    var back := Released(Charged(touched, hosts, perHost, now), hosts, perHost, now);
    SameLoadsTrans(loads, touched, back, perHost);
  }

  lemma SameLoadsTrans(a: LoadTable, b: LoadTable, c: LoadTable, perHost: int)
    requires SameLoads(a, b, perHost) && SameLoads(b, c, perHost)
    ensures SameLoads(a, c, perHost) && Heavier(a, c, perHost)
  {}

  // What stays refused at each of the three ways the scan can go on.
  lemma StillRefused(s: State, i: nat, now: int, hosts: seq<string>)
    requires WellFormed(s) && i < |s.queue|
    requires !CanExecute(hosts, s.loads, s.cfg.perHost)
    ensures NonNegative(SkipAt(s, i, now).loads)
    ensures !CanExecute(hosts, SkipAt(s, i, now).loads, s.cfg.perHost)
    ensures !CanExecute(hosts, Dispatch(s, i, now).loads, s.cfg.perHost)
    ensures var b := PutBack(Dispatch(s, i, now), s.queue[i], now);
            NonNegative(b.loads) && !CanExecute(hosts, b.loads, s.cfg.perHost)
  {
    var t := s.queue[i];
    StepLoads(t.hosts, s.loads, s.cfg.perHost, now);
    TouchedIsSame(t.hosts, s.loads, s.cfg.perHost, now);
    PutBackLoads(t.hosts, s.loads, s.cfg.perHost, now);
    RefusalIsStable(hosts, s.loads, SkipAt(s, i, now).loads, s.cfg.perHost);
    RefusalIsStable(hosts, s.loads, Dispatch(s, i, now).loads, s.cfg.perHost);
    RefusalIsStable(hosts, s.loads, PutBack(Dispatch(s, i, now), t, now).loads, s.cfg.perHost);
  }

  lemma ScanOnSend(s: State, i: nat, now: int)
    requires WellFormed(s) && |s.running| < s.maxConcurrent && ExecutableAt(s, i) && FreeSlots(s.chans) > 0
    ensures var d := Send(Dispatch(s, i, now), s.queue[i], LeastBusy(s.chans));
            WellFormed(d) && |d.queue| == |s.queue| - 1 && Scan(s, i, now) == Scan(d, i, now)
  {
    DispatchTarget(s, i, now);
    SendSlots(Dispatch(s, i, now), s.queue[i], LeastBusy(s.chans));
  }

  lemma ScanOnPutBack(s: State, i: nat, now: int)
    requires WellFormed(s) && |s.running| < s.maxConcurrent && ExecutableAt(s, i) && FreeSlots(s.chans) == 0
    ensures var b := PutBack(Dispatch(s, i, now), s.queue[i], now);
            && WellFormed(b) && |b.queue| == |s.queue|
            && Scan(s, i, now).overflow
            && Scan(s, i, now).stuck == (ExecutableAt(b, i) || Scan(b, i, now).stuck)
  {
    DispatchTarget(s, i, now);
    PutBackLoads(s.queue[i].hosts, s.loads, s.cfg.perHost, now);
  }

  // Under adaptive throttling a pass does not start while the load is high.
  ghost predicate Throttled(s: State) {
    s.cfg.adaptive && LoadAbove(|s.running|, s.maxConcurrent, s.cfg.threshold)
  }

  lemma IdleIsNotThrottled(s: State)
    requires s.running == map[] && s.maxConcurrent >= 1 && (s.cfg.adaptive ==> s.cfg.threshold >= 0.0)
    ensures !Throttled(s)
  {
    if s.cfg.adaptive {
      ProductNotNegative(s.cfg.threshold, s.maxConcurrent as real);
    }
  }

  lemma ProductNotNegative(a: real, b: real)
    requires a >= 0.0 && b >= 0.0
    ensures a * b >= 0.0
  {}

  // A pass over a queue of one task that can be executed sends it.
  lemma SendAlone(s: State, t: QueuedTask, now: int)
    requires WellFormed(s) && s.queue == [t] && s.running == map[] && s.maxConcurrent >= 1 && !Throttled(s)
    requires CanExecute(t.hosts, s.loads, s.cfg.perHost) && FreeSlots(s.chans) > 0
    ensures ProcessQueue(s, now) == ScanResult(Send(Dispatch(s, 0, now), t, LeastBusy(s.chans)), false, false)
    ensures ProcessQueue(s, now).state.queue == []
  {
    ScanOnSend(s, 0, now);
  }

  // Past the first position the loop always moves on: the task that slides
  // under the index is one that was refused before and still is.
  lemma {:induction false} NeverStuckLater(s: State, i: nat, now: int)
    requires WellFormed(s) && 0 < i <= |s.queue|
    requires !CanExecute(s.queue[i - 1].hosts, s.loads, s.cfg.perHost)
    ensures !Scan(s, i, now).stuck
    decreases |s.queue| - i
  {
    if i < |s.queue| && |s.running| < s.maxConcurrent {
      StillRefused(s, i, now, s.queue[i - 1].hosts);
      if !ExecutableAt(s, i) {
        NeverStuckOnSkip(s, i, now);
      } else if FreeSlots(s.chans) > 0 {
        ScanOnSend(s, i, now);
        NeverStuckLater(Send(Dispatch(s, i, now), s.queue[i], LeastBusy(s.chans)), i, now);
      } else {
        LeastBusyFull(s.chans);
        ScanOnPutBack(s, i, now);
        var b := PutBack(Dispatch(s, i, now), s.queue[i], now);
        assert b.queue[i] == s.queue[i - 1];
        if |b.running| < b.maxConcurrent { NeverStuckOnSkip(b, i, now); }
      }
    }
  }

  lemma {:induction false} NeverStuckOnSkip(s: State, i: nat, now: int)
    requires WellFormed(s) && i < |s.queue| && |s.running| < s.maxConcurrent && !ExecutableAt(s, i)
    ensures !Scan(s, i, now).stuck
    decreases |s.queue| - i, 0
  {
    ScanSkips(s, i, now);
    StillRefused(s, i, now, s.queue[i].hosts);
    NeverStuckLater(SkipAt(s, i, now), i + 1, now);
  }

  lemma SpinsNext(q: seq<QueuedTask>, f: nat, running: map<string, QueuedTask>, loads: LoadTable,
                  cap: int, perHost: int, now: int)
    requires q != [] && f > 0 && |running| < cap && CanExecute(q[0].hosts, loads, perHost)
    ensures var t := q[0];
            var charged := Charged(Touched(t.hosts, loads, perHost, now), t.hosts, perHost, now);
            Spins(q, f, running, loads, cap, perHost, now)
            <==> Spins(q[1..], f - 1, running[t.id := t], charged, cap, perHost, now)
  {
    if f < |q| {
      assert q[..f][1..] == q[1..][..f - 1];
      assert q[1..][f - 1] == q[f];
    }
  }

  lemma AfterSend(s: State, now: int) returns (d: State)
    requires WellFormed(s) && s.queue != [] && |s.running| < s.maxConcurrent
    requires ExecutableAt(s, 0) && FreeSlots(s.chans) > 0
    ensures d == Send(Dispatch(s, 0, now), s.queue[0], LeastBusy(s.chans))
    ensures FreeSlots(d.chans) == FreeSlots(s.chans) - 1 && d.queue == s.queue[1..]
    ensures d.running == s.running[s.queue[0].id := s.queue[0]] && d.cfg == s.cfg && d.maxConcurrent == s.maxConcurrent
    ensures var hosts := s.queue[0].hosts;
            d.loads == Charged(Touched(hosts, s.loads, s.cfg.perHost, now), hosts, s.cfg.perHost, now)
  {
    DispatchTarget(s, 0, now);
    SendSlots(Dispatch(s, 0, now), s.queue[0], LeastBusy(s.chans));
    d := Send(Dispatch(s, 0, now), s.queue[0], LeastBusy(s.chans));
  }

  lemma SpinAfterSend(s: State, now: int)
    requires WellFormed(s) && s.queue != [] && |s.running| < s.maxConcurrent
    requires ExecutableAt(s, 0) && FreeSlots(s.chans) > 0
    ensures var d := Send(Dispatch(s, 0, now), s.queue[0], LeastBusy(s.chans));
            FreeSlots(d.chans) == FreeSlots(s.chans) - 1 && (WouldSpin(d, now) <==> WouldSpin(s, now))
  {
    var d := AfterSend(s, now);
    SpinsNext(s.queue, FreeSlots(s.chans), s.running, s.loads, s.maxConcurrent, s.cfg.perHost, now);
  }

  // Whether the task at the front would admit itself again after it has been
  // put back.
  ghost predicate AdmitsAgain(s: State)
    requires s.queue != []
  {
    s.cfg.perHost > 0 || forall h :: h in s.queue[0].hosts ==> h in s.loads
  }

  lemma PutBackAdmits(s: State, now: int) returns (b: State)
    requires WellFormed(s) && ExecutableAt(s, 0)
    ensures b == PutBack(Dispatch(s, 0, now), s.queue[0], now)
    ensures b.queue == s.queue && (ExecutableAt(b, 0) <==> AdmitsAgain(s))
  {
    var t := s.queue[0];
    b := PutBack(Dispatch(s, 0, now), t, now);
    PutBackLoads(t.hosts, s.loads, s.cfg.perHost, now);
    SameLoadsAdmit(t.hosts, s.loads, b.loads, s.cfg.perHost);
  }

  lemma StuckWhenFull(s: State, now: int)
    requires WellFormed(s) && s.queue != [] && |s.running| < s.maxConcurrent
    requires ExecutableAt(s, 0) && FreeSlots(s.chans) == 0
    ensures Scan(s, 0, now).stuck <==> AdmitsAgain(s)
  {
    var b := PutBackAdmits(s, now);
    ScanOnPutBack(s, 0, now);
    if !ExecutableAt(b, 0) && |b.running| < b.maxConcurrent { NeverStuckOnSkip(b, 0, now); }
  }

  lemma SpinWhenFull(s: State, now: int)
    requires WellFormed(s) && s.queue != [] && |s.running| < s.maxConcurrent
    requires ExecutableAt(s, 0) && FreeSlots(s.chans) == 0
    ensures Scan(s, 0, now).stuck <==> WouldSpin(s, now)
  {
    StuckWhenFull(s, now);
    assert s.queue[..0] == [];
  }

  // The pass spins without end exactly when, after the free channel slots have
  // been filled from the front of the queue with no task refused on the way,
  // one more task can be dispatched.
  lemma {:induction false} SpinExactly(s: State, now: int)
    requires WellFormed(s)
    ensures FreeSlots(s.chans) >= 0
    ensures Scan(s, 0, now).stuck <==> WouldSpin(s, now)
    decreases |s.queue|
  {
    LeastBusyFull(s.chans);
    if s.queue == [] || |s.running| >= s.maxConcurrent {
      SpinNotAtEnd(s, now);
    } else if !ExecutableAt(s, 0) {
      NeverStuckOnSkip(s, 0, now);
      SpinNotOnSkip(s, now);
    } else if FreeSlots(s.chans) > 0 {
      ScanOnSend(s, 0, now);
      SpinAfterSend(s, now);
      SpinExactly(Send(Dispatch(s, 0, now), s.queue[0], LeastBusy(s.chans)), now);
    } else {
      SpinWhenFull(s, now);
    }
  }

  lemma SpinNotAtEnd(s: State, now: int)
    requires FreeSlots(s.chans) >= 0
    requires s.queue == [] || |s.running| >= s.maxConcurrent
    ensures !WouldSpin(s, now)
  {}

  lemma SpinNotOnSkip(s: State, now: int)
    requires FreeSlots(s.chans) >= 0 && s.queue != [] && !ExecutableAt(s, 0)
    ensures !WouldSpin(s, now)
  {
    var f := FreeSlots(s.chans);
    if 0 < f < |s.queue| {
      assert s.queue[..f][0] == s.queue[0];
    }
  }

}
