// Whether tasks of equal priority wait in the order in which they were accepted.
module FifoRuns {
  import opened Common
  import opened TaskOrder
  import opened HostLoads
  import opened Workers
  import opened SchedulerModel
  import opened SchedulerEffects
  import opened GreedyDispatch
  import opened SchedulerInvariants
  import opened SchedulerSteps
  import opened SchedulerRuns
  import opened SchedulerAnyRun
  import opened FillingPass
  import opened SpinningRuns

  // The last acceptance of the ID is the one at k.
  ghost predicate LastEntry(log: seq<Acceptance>, id: string, k: nat) {
    k < |log| && log[k].id == id && forall j :: k < j < |log| ==> log[j].id != id
  }

  ghost predicate FirstAttempt(t: QueuedTask) {
    t.retries == 0
  }

  // A task that has not been tried yet is what its ID's last acceptance asked for.
  ghost predicate AsAccepted(t: QueuedTask, log: seq<Acceptance>) {
    FirstAttempt(t) ==> exists k: nat :: LastEntry(log, t.id, k) && AskedFor(t, log[k])
  }

  ghost predicate AskedFor(t: QueuedTask, a: Acceptance) {
    t.id == a.id && t.priority == a.priority && t.hosts == a.hosts && t.createdAt == a.now
  }

  ghost predicate AcceptedBefore(log: seq<Acceptance>, a: string, b: string) {
    exists k: nat, l: nat :: k < l && LastEntry(log, a, k) && LastEntry(log, b, l)
  }

  ghost predicate Rivals(t: QueuedTask, u: QueuedTask) {
    FirstAttempt(t) && FirstAttempt(u) && t.priority == u.priority
  }

  // Tasks of equal priority that have not been tried yet wait in the order in
  // which they were accepted.
  ghost predicate FirstComeFirstServed(q: seq<QueuedTask>, log: seq<Acceptance>) {
    forall i, j :: 0 <= i < j < |q| && Rivals(q[i], q[j]) ==> AcceptedBefore(log, q[i].id, q[j].id)
  }

  ghost predicate AllAsAccepted(q: seq<QueuedTask>, log: seq<Acceptance>) {
    forall i :: 0 <= i < |q| ==> AsAccepted(q[i], log)
  }

  ghost predicate Fifo(q: seq<QueuedTask>, log: seq<Acceptance>) {
    AllAsAccepted(q, log) && FirstComeFirstServed(q, log)
  }

  // ----- Steps that only take from the queue -----

  lemma FifoTail(q: seq<QueuedTask>, log: seq<Acceptance>)
    requires q != [] && Fifo(q, log)
    ensures Fifo(q[1..], log) && AsAccepted(q[0], log)
    ensures forall u :: u in q[1..] && Rivals(q[0], u) ==> AcceptedBefore(log, q[0].id, u.id)
  {
    forall i, j | 0 <= i < j < |q[1..]| && Rivals(q[1..][i], q[1..][j])
      ensures AcceptedBefore(log, q[1..][i].id, q[1..][j].id)
    {
      assert q[i + 1] == q[1..][i] && q[j + 1] == q[1..][j];
    }
    forall u | u in q[1..] && Rivals(q[0], u) ensures AcceptedBefore(log, q[0].id, u.id) {
      var j :| 0 <= j < |q[1..]| && q[1..][j] == u;
      assert q[j + 1] == u;
    }
  }

  lemma FifoCons(t: QueuedTask, q: seq<QueuedTask>, log: seq<Acceptance>)
    requires Fifo(q, log) && AsAccepted(t, log)
    requires forall u :: u in q && Rivals(t, u) ==> AcceptedBefore(log, t.id, u.id)
    ensures Fifo([t] + q, log)
  {
    var r := [t] + q;
    forall i, j | 0 <= i < j < |r| && Rivals(r[i], r[j]) ensures AcceptedBefore(log, r[i].id, r[j].id) {
      assert r[j] == q[j - 1];
      if i > 0 { assert r[i] == q[i - 1]; }
    }
  }

  lemma {:induction false} FifoOfRest(q: seq<QueuedTask>, a: seq<QueuedTask>, b: seq<QueuedTask>, log: seq<Acceptance>)
    requires Interleaves(q, a, b) && Fifo(q, log)
    ensures Fifo(b, log) && forall x :: x in b ==> x in q
  {
    if q != [] {
      FifoTail(q, log);
      if a != [] && a[0] == q[0] && Interleaves(q[1..], a[1..], b) {
        FifoOfRest(q[1..], a[1..], b, log);
      } else {
        FifoOfRest(q[1..], a, b[1..], log);
        FifoCons(b[0], b[1..], log);
        assert b == [b[0]] + b[1..];
      }
    }
  }

  lemma FifoWithout(q: seq<QueuedTask>, i: nat, log: seq<Acceptance>)
    requires Fifo(q, log) && i < |q|
    ensures Fifo(Without(q, i), log)
  {
    var r := Without(q, i);
    assert forall j :: 0 <= j < |r| ==> r[j] == q[if j < i then j else j + 1];
  }

  // ----- Steps that put into the queue -----

  // A retry does not come between two rivals.
  lemma FifoWithRetry(q: seq<QueuedTask>, t: QueuedTask, log: seq<Acceptance>)
    requires Fifo(q, log) && !FirstAttempt(t)
    ensures Fifo(Insert(q, t), log)
  {
    var k := InsertSplits(q, t);
    var r := Insert(q, t);
    assert forall j :: 0 <= j < |r| ==> r[j] == if j < k then q[j] else if j == k then t else q[j - 1];
  }

  lemma LogGrows(log: seq<Acceptance>, e: Acceptance, id: string, k: nat)
    requires LastEntry(log, id, k) && e.id != id
    ensures LastEntry(log + [e], id, k) && (log + [e])[k] == log[k]
  {}

  lemma OthersInLog(q: seq<QueuedTask>, log: seq<Acceptance>, e: Acceptance)
    requires Fifo(q, log) && forall i :: 0 <= i < |q| ==> q[i].id != e.id
    ensures Fifo(q, log + [e])
  {
    forall i | 0 <= i < |q| && FirstAttempt(q[i]) ensures AsAccepted(q[i], log + [e]) {
      assert AsAccepted(q[i], log);
      var k: nat :| LastEntry(log, q[i].id, k) && AskedFor(q[i], log[k]);
      LogGrows(log, e, q[i].id, k);
    }
    forall i, j | 0 <= i < j < |q| && Rivals(q[i], q[j]) ensures AcceptedBefore(log + [e], q[i].id, q[j].id) {
      var k: nat, l: nat :| k < l && LastEntry(log, q[i].id, k) && LastEntry(log, q[j].id, l);
      LogGrows(log, e, q[i].id, k);
      LogGrows(log, e, q[j].id, l);
    }
  }

  lemma NewestInLog(t: QueuedTask, log: seq<Acceptance>, e: Acceptance)
    requires AskedFor(t, e)
    ensures LastEntry(log + [e], t.id, |log|) && AsAccepted(t, log + [e])
  {
    assert (log + [e])[|log|] == e;
  }

  // A newly accepted task comes to stand behind all of its rivals.
  lemma FifoWithNew(q: seq<QueuedTask>, t: QueuedTask, log: seq<Acceptance>, e: Acceptance)
    requires Fifo(q, log) && Sorted(q) && AskedFor(t, e)
    requires forall i :: 0 <= i < |q| ==> q[i].id != t.id && q[i].createdAt <= t.createdAt
    ensures Fifo(Insert(q, t), log + [e])
  {
    var k := InsertedAfterEqual(q, t);
    OthersInLog(q, log, e);
    NewestInLog(t, log, e);
    FifoPutIn(q, t, k, log + [e]);
  }

  lemma FifoPutIn(q: seq<QueuedTask>, t: QueuedTask, k: nat, log: seq<Acceptance>)
    requires Fifo(q, log) && AsAccepted(t, log) && CutByPriority(q, t.priority, k)
    requires log != [] && LastEntry(log, t.id, |log| - 1) && forall i :: 0 <= i < |q| ==> q[i].id != t.id
    ensures Fifo(q[..k] + [t] + q[k..], log)
  {
    var r := q[..k] + [t] + q[k..];
    forall j | 0 <= j < |r| ensures r[j] == (if j < k then q[j] else if j == k then t else q[j - 1]) {}
    forall i, j | 0 <= i < j < |r| && Rivals(r[i], r[j]) ensures AcceptedBefore(log, r[i].id, r[j].id) {
      if j == k {
        assert AsAccepted(q[i], log);
        var l: nat :| LastEntry(log, q[i].id, l) && AskedFor(q[i], log[l]);
        assert l < |log| - 1 && AcceptedBefore(log, q[i].id, t.id);
      }
    }
  }

  // ----- Runs -----

  // Acceptance times do not go back.
  ghost predicate InTime(log: seq<Acceptance>) {
    forall i, j :: 0 <= i < j < |log| ==> log[i].now <= log[j].now
  }

  // No task was created after the last acceptance.
  ghost predicate NoneLater(tasks: multiset<QueuedTask>, log: seq<Acceptance>) {
    forall t :: t in tasks ==> log != [] && t.createdAt <= log[|log| - 1].now
  }

  ghost predicate Waits(w: World, cap: nat) {
    && Good(w, cap, OrderlyRun) && Capped(w.s)
    && Fifo(w.s.queue, w.log) && NoneLater(Tasks(w.s), w.log)
  }

  lemma QueuedIsTask(s: State, i: nat)
    requires i < |s.queue|
    ensures s.queue[i] in Tasks(s)
  {
    assert s.queue[i] in multiset(s.queue);
    assert Tasks(s)[s.queue[i]] >= multiset(s.queue)[s.queue[i]];
  }

  lemma AcceptKeepsFifo(w: World, id: string, priority: int, hosts: seq<string>, now: int)
    requires Fifo(w.s.queue, w.log) && NoneLater(Tasks(w.s), w.log) && Sorted(w.s.queue)
    requires EnqueueOutcome(w.s, id) == Accepted && InTime(w.log + [Acceptance(id, priority, hosts, now)])
    ensures var n := Accept(w, id, priority, hosts, now); Fifo(n.s.queue, n.log) && NoneLater(Tasks(n.s), n.log)
  {
    var t, e := NewTask(id, priority, hosts, now), Acceptance(id, priority, hosts, now);
    if w.log != [] {
      var log := w.log + [e];
      assert log[|w.log| - 1].now <= log[|w.log|].now;
    }
    forall i | 0 <= i < |w.s.queue| ensures w.s.queue[i].createdAt <= now {
      QueuedIsTask(w.s, i);
    }
    FifoWithNew(w.s.queue, t, w.log, e);
    EnqueueIdle(w.s, id, priority, hosts, now);
    BagSwap(Idle(w.s), multiset{t}, Busy(w.s.executing));
  }

  lemma FinishKeepsTimes(s: State, i: nat, ok: bool, now: int, log: seq<Acceptance>)
    requires CanFinish(s, i) && NoneLater(Tasks(s), log)
    ensures NoneLater(Tasks(Finish(s, i, ok, now)), log)
  {
    var n, t := Finish(s, i, ok, now), s.executing[i].value;
    FinishBags(s, i, ok, now);
    assert t in Tasks(s);
    forall u | u in Tasks(n) ensures log != [] && u.createdAt <= log[|log| - 1].now {
      assert u in Idle(s) || u in Busy(s.executing) || u == Retried(t);
    }
  }

  lemma CancelKeepsTimes(s: State, id: string, now: int, log: seq<Acceptance>)
    requires NoneLater(Tasks(s), log)
    ensures NoneLater(Tasks(Cancel(s, id, now)), log)
  {
    if HasId(s.queue, id) {
      CancelBags(s, id, now);
      forall u | u in Tasks(Cancel(s, id, now)) ensures u in Tasks(s) {}
    } else {
      assert Tasks(Cancel(s, id, now)) == Tasks(s);
    }
  }

  // What is asked of a pass: it only takes tasks from the queue.
  ghost predicate OnlyTakes(s: State, n: State) {
    exists a :: Interleaves(s.queue, a, n.queue)
  }

  lemma TickKeepsFifo(w: World, now: int, cap: nat)
    requires Waits(w, cap) && OnlyTakes(w.s, ProcessQueue(w.s, now).state)
    ensures var n := Passed(w, ProcessQueue(w.s, now)); Fifo(n.s.queue, n.log) && NoneLater(Tasks(n.s), n.log)
  {
    var n := ProcessQueue(w.s, now).state;
    var a :| Interleaves(w.s.queue, a, n.queue);
    FifoOfRest(w.s.queue, a, n.queue, w.log);
    var r := ScanFollows(w.s, 0, now, cap, OrderlyRun);
    assert Tasks(n) == Tasks(w.s);
  }

  lemma WakeKeepsFifo(w: World, k: nat)
    requires Fifo(w.s.queue, w.log) && NoneLater(Tasks(w.s), w.log) && Capped(w.s) && k < |w.s.sleeping|
    ensures var n := Wake(w.s, k); Fifo(n.queue, w.log) && NoneLater(Tasks(n), w.log)
  {
    assert w.s.sleeping[k] in w.s.sleeping;
    FifoWithRetry(w.s.queue, w.s.sleeping[k], w.log);
    WakeMoves(w.s, k);
  }

  lemma CancelKeepsFifo(w: World, id: string, now: int)
    requires Fifo(w.s.queue, w.log) && NoneLater(Tasks(w.s), w.log)
    ensures var n := Withdraw(w, id, now); Fifo(n.s.queue, n.log) && NoneLater(Tasks(n.s), n.log)
  {
    CancelKeepsTimes(w.s, id, now, w.log);
    if HasId(w.s.queue, id) { FifoWithout(w.s.queue, FirstIndex(w.s.queue, id), w.log); }
  }

  lemma SameTasksFifo(w: World, n: World)
    requires Fifo(w.s.queue, w.log) && NoneLater(Tasks(w.s), w.log)
    requires n.s.queue == w.s.queue && n.log == w.log && Tasks(n.s) == Tasks(w.s)
    ensures Fifo(n.s.queue, n.log) && NoneLater(Tasks(n.s), n.log)
  {}

  lemma StepKeepsFifo(w: World, e: Event, cap: nat)
    requires Waits(w, cap) && Sorted(w.s.queue) && Enabled(w.s, e) && !e.PassGoesOn?
    requires e.ProcessTick? ==> OnlyTakes(w.s, ProcessQueue(w.s, e.now).state)
    requires InTime(Next(w, e).log)
    ensures var n := Next(w, e); Fifo(n.s.queue, n.log) && NoneLater(Tasks(n.s), n.log)
  {
    match e
    case EnqueueTask(id, priority, hosts, now) =>
      if EnqueueOutcome(w.s, id) == Accepted { AcceptKeepsFifo(w, id, priority, hosts, now); }
    case ProcessTick(now) => TickKeepsFifo(w, now, cap);
    case Receive(i) => TakeKeepsFifo(w, i);
    case Finished(i, ok, now) => FinishKeepsTimes(w.s, i, ok, now, w.log);
    case RetryWakes(k) => WakeKeepsFifo(w, k);
    case CancelTask(id, now) => CancelKeepsFifo(w, id, now);
    case AdjustTick => TableStepKeepsFifo(w, e);
    case HostReport(_, _, _, _, _) => TableStepKeepsFifo(w, e);
    case RefreshTick(_) => TableStepKeepsFifo(w, e);
  }

  lemma TableStepKeepsFifo(w: World, e: Event)
    requires Fifo(w.s.queue, w.log) && NoneLater(Tasks(w.s), w.log)
    requires Enabled(w.s, e) && (e.AdjustTick? || e.HostReport? || e.RefreshTick?)
    ensures var n := Next(w, e); Fifo(n.s.queue, n.log) && NoneLater(Tasks(n.s), n.log)
  {
    SameTasksFifo(w, Next(w, e));
  }

  lemma TakeKeepsFifo(w: World, i: nat)
    requires Fifo(w.s.queue, w.log) && NoneLater(Tasks(w.s), w.log) && CanTake(w.s, i)
    ensures var n := CallStart(w, i); Fifo(n.s.queue, n.log) && NoneLater(Tasks(n.s), n.log)
  {
    TakeFresh(w.s, i);
    SameTasksFifo(w, CallStart(w, i));
  }

  // Either no pass ever starts, or the channels hold the cap.
  ghost predicate Tame(w: World, cap: nat) {
    !w.spinning && (Dormant(w) || Roomy(w.s, cap))
  }

  lemma TameTicks(w: World, now: int, cap: nat)
    requires Tame(w, cap) && Good(w, cap, OrderlyRun)
    ensures OnlyTakes(w.s, ProcessQueue(w.s, now).state)
  {
    InterleavesLeft(w.s.queue);
    if !Roomy(w.s, cap) && !(w.s.cfg.capacity < 1 && Empty(w.s)) {
      NeverStarts(w.s, now);
    }
    if ProcessQueue(w.s, now).state == w.s {
      assert Interleaves(w.s.queue, [], ProcessQueue(w.s, now).state.queue);
    } else {
      RoomyTicks(w.s, now, cap);
    }
  }

  lemma RoomyTicks(s: State, now: int, cap: nat)
    requires Roomy(s, cap) && ProcessQueue(s, now).state != s
    ensures OnlyTakes(s, ProcessQueue(s, now).state)
  {
    var g := GreedyFrom(s, 0, now);
    CleanPassIsGreedy(s, now, cap);
    assert s.queue[0..] == s.queue;
    GreedySplits(s.queue, s.running, s.loads, s.maxConcurrent, s.cfg.perHost, now);
    assert [] + g.rest == g.rest;
    assert Interleaves(s.queue, g.picked, ProcessQueue(s, now).state.queue);
  }

  lemma TameStep(w: World, e: Event, cap: nat)
    requires Tame(w, cap) && Good(w, cap, OrderlyRun) && Possible(w, e, OrderlyRun)
    ensures Tame(Next(w, e), cap) && Good(Next(w, e), cap, OrderlyRun)
  {
    StepKeepsGood(w, e, cap, OrderlyRun);
    if Dormant(w) {
      StepKeepsDormant(w, e);
    } else {
      StepKeepsRoomy(w, e, cap);
    }
  }

  lemma {:induction false} RunExtendsLog(w: World, es: seq<Event>)
    requires IsRun(w, es, OrderlyRun)
    ensures w.log <= After(w, es, OrderlyRun).log
    decreases |es|
  {
    if es != [] {
      NextLog(w, es[0]);
      RunExtendsLog(Next(w, es[0]), es[1..]);
    }
  }

  lemma TameFifoStep(w: World, e: Event, cap: nat)
    requires Waits(w, cap) && Tame(w, cap) && Possible(w, e, OrderlyRun) && InTime(Next(w, e).log)
    ensures Waits(Next(w, e), cap) && Tame(Next(w, e), cap)
  {
    TameStep(w, e, cap);
    StepKeepsCapped(w, e, cap);
    TameStepIsFifo(w, e, cap);
  }

  lemma TameStepIsFifo(w: World, e: Event, cap: nat)
    requires Waits(w, cap) && Tame(w, cap) && Possible(w, e, OrderlyRun) && InTime(Next(w, e).log)
    ensures var n := Next(w, e); Fifo(n.s.queue, n.log) && NoneLater(Tasks(n.s), n.log)
  {
    if e.ProcessTick? { TameTicks(w, e.now, cap); }
    StepKeepsFifo(w, e, cap);
  }

  lemma {:induction false} TameRunIsFifo(w: World, es: seq<Event>, cap: nat)
    requires Waits(w, cap) && Tame(w, cap) && IsRun(w, es, OrderlyRun) && InTime(After(w, es, OrderlyRun).log)
    ensures Fifo(After(w, es, OrderlyRun).s.queue, After(w, es, OrderlyRun).log)
    decreases |es|
  {
    if es != [] {
      RunExtendsLog(Next(w, es[0]), es[1..]);
      TameFifoStep(w, es[0], cap);
      TameRunIsFifo(Next(w, es[0]), es[1..], cap);
    }
  }

  lemma StartWaits(cfg: Config, maxConcurrent: int, workerCount: nat)
    requires workerCount > 0
    ensures Waits(Start(cfg, maxConcurrent, workerCount), HighestCap(cfg, maxConcurrent))
  {
    var w := Start(cfg, maxConcurrent, workerCount);
    StartIsGood(cfg, maxConcurrent, workerCount, OrderlyRun);
    StartBooks(cfg, maxConcurrent, workerCount, "");
    WaitingEmpty(w.s.chans);
    BusyEmpty(w.s.executing);
    assert Tasks(w.s) == multiset{};
  }

  // ----- One first attempt at most -----

  lemma {:induction false} RunKeepsCapped(w: World, es: seq<Event>, cap: nat)
    requires Good(w, cap, OrderlyRun) && Capped(w.s) && IsRun(w, es, OrderlyRun)
    ensures Capped(After(w, es, OrderlyRun).s) && After(w, es, OrderlyRun).s.cfg == w.s.cfg
    decreases |es|
  {
    if es != [] {
      StepKeepsGood(w, es[0], cap, OrderlyRun);
      StepKeepsCapped(w, es[0], cap);
      RunKeepsCapped(Next(w, es[0]), es[1..], cap);
    }
  }

  lemma TwoFirstAttempts(q: seq<QueuedTask>, i: nat, j: nat)
    requires i < j < |q| && FirstAttempt(q[i]) && FirstAttempt(q[j])
    ensures Weight(multiset(q), First()) >= 2
  {
    var a := Without(q, j);
    WithoutKeepsOrder(q, j);
    assert a[i] == q[i];
    WithoutKeepsOrder(a, i);
    var b := multiset(Without(a, i));
    WeightWith(b, q[i], First());
    WeightWith(b + multiset{q[i]}, q[j], First());
  }

  // ----- Exactly when rivals wait in turn -----

  lemma FairRuns(cfg: Config, maxConcurrent: int, workerCount: nat, w: World)
    requires workerCount > 0 && Reached(cfg, maxConcurrent, workerCount, w) && InTime(w.log)
    requires !CapPasses(cfg, maxConcurrent, CHANNEL_CAPACITY * workerCount) || cfg.capacity < 2
    ensures FirstComeFirstServed(w.s.queue, w.log)
  {
    var w0, cap := Start(cfg, maxConcurrent, workerCount), HighestCap(cfg, maxConcurrent);
    var es :| Leads(w0, es, w, OrderlyRun);
    StartWaits(cfg, maxConcurrent, workerCount);
    if cfg.capacity < 2 {
      RunKeepsCapped(w0, es, cap);
      NoRivals(w.s);
    } else {
      TameRunIsFifo(w0, es, cap);
    }
  }

  lemma NoRivals(s: State)
    requires Capped(s) && s.cfg.capacity < 2
    ensures forall i, j :: 0 <= i < j < |s.queue| ==> !Rivals(s.queue[i], s.queue[j])
  {
    forall i, j | 0 <= i < j < |s.queue| ensures !Rivals(s.queue[i], s.queue[j]) {
      if Rivals(s.queue[i], s.queue[j]) { TwoFirstAttempts(s.queue, i, j); }
    }
  }

  // Two rivals accepted one after the other: u, on an unavailable host, and t.
  lemma EnqueueRival(w: World, u: QueuedTask, id: string) returns (t: QueuedTask, e: Event)
    requires w.s.queue == [u] && u.priority == 1 && u.createdAt == 0 && u.id != id && Idling(w.s) && !w.spinning
    requires w.s.cfg.capacity >= 2 && id !in Ids(w.s.sleeping)
    ensures t.id == id && t.priority == 1 && t.hosts == [] && FirstAttempt(t)
    ensures e == EnqueueTask(id, 1, [], 0) && Possible(w, e, OrderlyRun) && EnqueueOutcome(w.s, id) == Accepted
    ensures var n := Next(w, e); n.s == w.s.(queue := [u, t]) && !n.spinning
  {
    t := NewTask(id, 1, [], 0);
    e := EnqueueTask(id, 1, [], 0);
    InsertAt([u], t, 1);
    assert [u][..1] + [t] + [u][1..] == [u, t];
  }

  // The log ends with the two, the first before the second.
  ghost predicate EndsWith(log: seq<Acceptance>, a: string, b: string) {
    |log| >= 2 && a != b && log[|log| - 2].id == a && log[|log| - 1].id == b
  }

  lemma RivalsLined(cfg: Config, maxConcurrent: int, workerCount: nat, k: nat, h: string)
    returns (w: World, u: QueuedTask, t: QueuedTask)
    requires CanDispatch(cfg, maxConcurrent) && cfg.capacity >= 2 && workerCount > 0
    ensures Got(cfg, maxConcurrent, workerCount, w) && !w.spinning
    ensures Lined(w.s, [], u, t) && Rivals(u, t) && u.hosts == [h] && EndsWith(w.log, u.id, t.id)
    ensures |w.s.sleeping| == k && AllUrgent(w.s.sleeping)
    ensures w.s.cfg == cfg && w.s.maxConcurrent == maxConcurrent && |w.s.chans| == workerCount
    ensures h in w.s.loads && !w.s.loads[h].available
  {
    w := ManyAsleep(cfg, maxConcurrent, workerCount, k, 2);
    w, u, t := RivalsEnqueued(cfg, maxConcurrent, workerCount, w, k, h);
    var e := ReportAway(w, h);
    w := GoOn(cfg, maxConcurrent, workerCount, w, e);
    assert [] + [u, t] == [u, t];
  }

  lemma RivalsEnqueued(cfg: Config, maxConcurrent: int, workerCount: nat, w: World, k: nat, h: string)
    returns (n: World, u: QueuedTask, t: QueuedTask)
    requires Got(cfg, maxConcurrent, workerCount, w) && !w.spinning && w.s.cfg.capacity >= 2
    requires Asleep(w.s, k, 2)
    ensures Got(cfg, maxConcurrent, workerCount, n) && !n.spinning
    ensures n.s == w.s.(queue := [u, t]) && EndsWith(n.log, u.id, t.id)
    ensures Rivals(u, t) && u.priority == 1 && u.hosts == [h] && t.hosts == []
  {
    NotAsleep(w.s, k, 2, k + 1);
    var e;
    u, e := EnqueueMiddle(w, k, 2, [h]);
    NextLog(w, e);
    n := GoOn(cfg, maxConcurrent, workerCount, w, e);
    t, e := EnqueueRival(n, u, Name(k + 1));
    NextLog(n, e);
    n := GoOn(cfg, maxConcurrent, workerCount, n, e);
  }

  lemma RivalsReady(cfg: Config, maxConcurrent: int, workerCount: nat, k: nat, h: string)
    returns (w: World, f: seq<QueuedTask>, u: QueuedTask, t: QueuedTask)
    requires CanDispatch(cfg, maxConcurrent) && cfg.capacity >= 2 && workerCount > 0 && k >= 9
    ensures Got(cfg, maxConcurrent, workerCount, w) && !w.spinning
    ensures Lined(w.s, f, u, t) && |f| == k && Rivals(u, t) && u.hosts == [h] && EndsWith(w.log, u.id, t.id)
    ensures Ready(cfg, maxConcurrent, workerCount, w.s, h)
  {
    w, u, t := RivalsLined(cfg, maxConcurrent, workerCount, k, h);
    w, f := WakeAll(cfg, maxConcurrent, workerCount, w, [], u, t);
    w := Raise(cfg, maxConcurrent, workerCount, w);
    IsReady(cfg, maxConcurrent, workerCount, w, h);
  }

  lemma OvertakenRivals(log: seq<Acceptance>, u: QueuedTask, t: QueuedTask)
    requires EndsWith(log, u.id, t.id) && Rivals(u, t)
    ensures !FirstComeFirstServed([t, u], log)
  {
    var q := [t, u];
    assert q[0] == t && q[1] == u && Rivals(q[0], q[1]);
    forall k: nat | LastEntry(log, t.id, k) ensures k == |log| - 1 {}
    assert !AcceptedBefore(log, t.id, u.id);
  }

  lemma UnfairRun(cfg: Config, maxConcurrent: int, workerCount: nat) returns (w: World)
    requires workerCount > 0 && CapPasses(cfg, maxConcurrent, CHANNEL_CAPACITY * workerCount) && cfg.capacity >= 2
    ensures Reached(cfg, maxConcurrent, workerCount, w) && InTime(w.log)
    ensures !FirstComeFirstServed(w.s.queue, w.log)
  {
    var slots, h := CHANNEL_CAPACITY * workerCount, "";
    var m, f, u, t := RivalsReady(cfg, maxConcurrent, workerCount, slots, h);
    LinedSwaps(cfg, maxConcurrent, workerCount, m.s, h, f, u, t);
    w := TickOn(cfg, maxConcurrent, workerCount, m);
    OvertakenRivals(w.log, u, t);
  }

  ghost predicate FairInEveryRun(cfg: Config, maxConcurrent: int, workerCount: nat) {
    forall w :: Reached(cfg, maxConcurrent, workerCount, w) && InTime(w.log) ==>
      FirstComeFirstServed(w.s.queue, w.log)
  }

  // In every orderly run whose acceptance times do not go back, tasks of equal
  // priority that have not been tried yet wait in the order in which they were
  // accepted, exactly unless the manager dispatches, its cap can pass the number
  // of channel slots, and its queue holds two tasks.
  lemma FairInEveryRunExactly(cfg: Config, maxConcurrent: int, workerCount: nat)
    requires workerCount > 0
    ensures FairInEveryRun(cfg, maxConcurrent, workerCount) <==>
            !(CanDispatch(cfg, maxConcurrent) && cfg.capacity >= 2
              && HighestCap(cfg, maxConcurrent) > CHANNEL_CAPACITY * workerCount)
  {
    if CapPasses(cfg, maxConcurrent, CHANNEL_CAPACITY * workerCount) && cfg.capacity >= 2 {
      var w := UnfairRun(cfg, maxConcurrent, workerCount);
    } else {
      forall w | Reached(cfg, maxConcurrent, workerCount, w) && InTime(w.log)
        ensures FirstComeFirstServed(w.s.queue, w.log)
      {
        FairRuns(cfg, maxConcurrent, workerCount, w);
      }
    }
  }

}
