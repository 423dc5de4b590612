// What holds in every run whatsoever: tasks may be cancelled while they wait in
// a channel or are executed, and live IDs may be enqueued again.
module SchedulerAnyRun {
  import opened TaskOrder
  import opened HostLoads
  import opened Workers
  import opened SchedulerModel
  import opened GreedyDispatch
  import opened SchedulerInvariants
  import opened SchedulerSteps
  import opened SchedulerRuns

  // ----- Weighing bags of tasks -----

  ghost function Weight(tasks: multiset<QueuedTask>, f: QueuedTask -> nat): nat
    decreases |tasks|
  {
    if |tasks| == 0 then 0
    else
      var t :| t in tasks;
      f(t) + Weight(tasks - multiset{t}, f)
  }

  lemma TwoOut<T>(b: multiset<T>, t: T, u: T)
    requires t in b && u in b && t != u
    ensures t in b - multiset{u} && u in b - multiset{t}
    ensures b - multiset{u} - multiset{t} == b - multiset{t} - multiset{u}
    ensures |b - multiset{u}| < |b| && |b - multiset{t}| < |b|
  {}

  lemma {:induction false} WeightWithout(tasks: multiset<QueuedTask>, t: QueuedTask, f: QueuedTask -> nat)
    requires t in tasks
    ensures Weight(tasks, f) == f(t) + Weight(tasks - multiset{t}, f)
    decreases |tasks|
  {
    var u :| u in tasks && Weight(tasks, f) == f(u) + Weight(tasks - multiset{u}, f);
    if u != t {
      TwoOut(tasks, t, u);
      WeightWithout(tasks - multiset{u}, t, f);
      WeightWithout(tasks - multiset{t}, u, f);
    }
  }

  lemma WeightWith(tasks: multiset<QueuedTask>, t: QueuedTask, f: QueuedTask -> nat)
    ensures Weight(tasks + multiset{t}, f) == Weight(tasks, f) + f(t)
  {
    WeightWithout(tasks + multiset{t}, t, f);
    assert tasks + multiset{t} - multiset{t} == tasks;
  }

  lemma {:induction false} WeightSum(a: multiset<QueuedTask>, b: multiset<QueuedTask>, f: QueuedTask -> nat)
    ensures Weight(a + b, f) == Weight(a, f) + Weight(b, f)
    decreases |b|
  {
    if |b| == 0 {
      assert a + b == a;
    } else {
      var t :| t in b;
      WeightSum(a, b - multiset{t}, f);
      WeightWith(a + (b - multiset{t}), t, f);
      WeightWithout(b, t, f);
      assert a + (b - multiset{t}) + multiset{t} == a + b;
    }
  }

  lemma WeightGrows(a: multiset<QueuedTask>, b: multiset<QueuedTask>, f: QueuedTask -> nat)
    requires a <= b
    ensures Weight(a, f) <= Weight(b, f)
  {
    WeightSum(a, b - a, f);
    assert a + (b - a) == b;
  }

  lemma {:induction false} WeightAtMost(tasks: multiset<QueuedTask>, f: QueuedTask -> nat)
    requires forall t :: f(t) <= 1
    ensures Weight(tasks, f) <= |tasks|
    decreases |tasks|
  {
    if |tasks| > 0 {
      var t :| t in tasks;
      WeightWithout(tasks, t, f);
      WeightAtMost(tasks - multiset{t}, f);
    }
  }

  // Counts the tasks with the ID.
  ghost function Named(id: string): QueuedTask -> nat {
    (t: QueuedTask) => if t.id == id then 1 else 0
  }

  // How many more StartTask calls the retry counters of the ID's tasks allow,
  // for tasks that wait, and for tasks for which it has just been called.
  ghost function CallsLeft(id: string): QueuedTask -> nat {
    (t: QueuedTask) => if t.id == id && t.retries <= MAX_RETRIES then 1 + MAX_RETRIES - t.retries else 0
  }

  ghost function RetriesLeft(id: string): QueuedTask -> nat {
    (t: QueuedTask) => if t.id == id && t.retries <= MAX_RETRIES then MAX_RETRIES - t.retries else 0
  }

  // Counts the tasks that have not been tried yet.
  ghost function First(): QueuedTask -> nat {
    (t: QueuedTask) => if t.retries == 0 then 1 else 0
  }

  // ----- Every accepted task is kept until it is done -----

  ghost function Live(s: State, id: string): nat {
    Weight(Idle(s), Named(id)) + Weight(Busy(s.executing), Named(id))
  }

  ghost function MayCall(s: State, id: string): nat {
    Weight(Idle(s), CallsLeft(id)) + Weight(Busy(s.executing), RetriesLeft(id))
  }

  ghost predicate Bounded(s: State) {
    && (forall t :: t in Idle(s) ==> t.retries <= t.maxRetries == MAX_RETRIES)
    && (forall t :: t in Busy(s.executing) ==> t.retries <= t.maxRetries == MAX_RETRIES)
  }

  // Accepted tasks with the ID are live, at the end of their executions, or were
  // cancelled in the queue; StartTask calls made and still possible for them are
  // at most 1 + MaxRetries for each.
  ghost predicate Booked(w: World, id: string) {
    && w.accepted[id] == Live(w.s, id) + w.finished[id] + w.cancelled[id]
    && w.calls[id] + MayCall(w.s, id) <= (1 + MAX_RETRIES) * w.accepted[id]
  }

  ghost predicate Books(w: World, id: string) {
    Bounded(w.s) && Booked(w, id)
  }

  lemma AcceptBooks(w: World, id: string, priority: int, hosts: seq<string>, now: int, x: string)
    requires Books(w, x) && EnqueueOutcome(w.s, id) == Accepted
    ensures Books(Accept(w, id, priority, hosts, now), x)
  {
    var t := NewTask(id, priority, hosts, now);
    EnqueueIdle(w.s, id, priority, hosts, now);
    WeightWith(Idle(w.s), t, Named(x));
    WeightWith(Idle(w.s), t, CallsLeft(x));
  }

  lemma ReceiveBooks(w: World, i: nat, x: string)
    requires Books(w, x) && CanTake(w.s, i)
    ensures Books(CallStart(w, i), x)
  {
    var n, t := Take(w.s, i), w.s.chans[i][0];
    TakeBags(w.s, i);
    assert t in Idle(w.s);
    WeightWith(Idle(n), t, Named(x));
    WeightWith(Idle(n), t, CallsLeft(x));
    WeightWith(Busy(w.s.executing), t, Named(x));
    WeightWith(Busy(w.s.executing), t, RetriesLeft(x));
    TakeBounded(w.s, i);
  }

  lemma TakeBounded(s: State, i: nat)
    requires Bounded(s) && CanTake(s, i)
    ensures Bounded(Take(s, i))
  {
    var n, t := Take(s, i), s.chans[i][0];
    TakeBags(s, i);
    assert t in Idle(s);
    forall u | u in Idle(n) ensures u in Idle(s) {}
  }

  lemma FinishBounded(s: State, w: nat, ok: bool, now: int)
    requires Bounded(s) && CanFinish(s, w)
    ensures Bounded(Finish(s, w, ok, now))
    ensures var t := s.executing[w].value; t.retries <= t.maxRetries == MAX_RETRIES
  {
    var n, t := Finish(s, w, ok, now), s.executing[w].value;
    FinishBags(s, w, ok, now);
    assert t in Busy(s.executing);
    forall u | u in Busy(n.executing) ensures u in Busy(s.executing) {
      assert u in Busy(n.executing) + multiset{t};
    }
    forall u | u in Idle(n) ensures u.retries <= u.maxRetries == MAX_RETRIES {
      assert u in Idle(s) || u == Retried(t);
    }
  }

  // One execution ends: what the two sums lose and gain.
  lemma ConcludeSums(w: World, i: nat, ok: bool, now: int, x: string)
    requires Bounded(w.s) && CanFinish(w.s, i)
    ensures var n, t := Finish(w.s, i, ok, now), w.s.executing[i].value;
            && Live(w.s, x) == Live(n, x) + (if t.id == x && !WillRetry(w.s, i, ok) then 1 else 0)
            && MayCall(n, x) <= MayCall(w.s, x)
  {
    var n, t := Finish(w.s, i, ok, now), w.s.executing[i].value;
    FinishBags(w.s, i, ok, now);
    FinishBounded(w.s, i, ok, now);
    WeightWith(Busy(n.executing), t, Named(x));
    WeightWith(Busy(n.executing), t, RetriesLeft(x));
    if WillRetry(w.s, i, ok) {
      WeightWith(Idle(w.s), Retried(t), Named(x));
      WeightWith(Idle(w.s), Retried(t), CallsLeft(x));
    }
  }

  lemma ConcludeBooks(w: World, i: nat, ok: bool, now: int, x: string)
    requires Books(w, x) && CanFinish(w.s, i)
    ensures Books(Conclude(w, i, ok, now), x)
  {
    ConcludeSums(w, i, ok, now, x);
    FinishBounded(w.s, i, ok, now);
  }

  // One task is cancelled in the queue.
  lemma CancelSums(s: State, id: string, now: int, x: string)
    requires Bounded(s) && HasId(s.queue, id)
    ensures var n := Cancel(s, id, now);
            && Bounded(n)
            && Live(s, x) == Live(n, x) + (if id == x then 1 else 0)
            && MayCall(n, x) <= MayCall(s, x)
  {
    var n, t := Cancel(s, id, now), s.queue[FirstIndex(s.queue, id)];
    CancelBags(s, id, now);
    WeightWith(Idle(n), t, Named(x));
    WeightWith(Idle(n), t, CallsLeft(x));
    forall u | u in Idle(n) ensures u in Idle(s) {}
  }

  lemma SameSums(s: State, n: State, x: string)
    requires Bounded(s) && Idle(n) == Idle(s) && n.executing == s.executing
    ensures Bounded(n) && Live(n, x) == Live(s, x) && MayCall(n, x) == MayCall(s, x)
  {}

  lemma WithdrawBooks(w: World, id: string, now: int, x: string)
    requires Books(w, x)
    ensures Books(Withdraw(w, id, now), x)
  {
    if HasId(w.s.queue, id) {
      CancelSums(w.s, id, now, x);
    } else {
      SameSums(w.s, Cancel(w.s, id, now), x);
    }
  }

  lemma SameBagsBooks(w: World, n: World, x: string)
    requires Books(w, x) && n == w.(s := n.s, spinning := n.spinning)
    requires Idle(n.s) == Idle(w.s) && n.s.executing == w.s.executing
    ensures Books(n, x)
  {
    SameSums(w.s, n.s, x);
  }

  lemma StepKeepsBooks(w: World, e: Event, cap: nat, x: string)
    requires Books(w, x) && Loose(w.s, cap) && Enabled(w.s, e)
    ensures Books(Next(w, e), x)
  {
    match e
    case EnqueueTask(id, priority, hosts, now) =>
      if EnqueueOutcome(w.s, id) == Accepted { AcceptBooks(w, id, priority, hosts, now, x); }
    case ProcessTick(now) =>
      var n := ScanFollows(w.s, 0, now, cap, AnyRun);
      SameBagsBooks(w, Next(w, e), x);
    case PassGoesOn(now) =>
      var n := ScanFollows(w.s, 0, now, cap, AnyRun);
      SameBagsBooks(w, Next(w, e), x);
    case Receive(i) => ReceiveBooks(w, i, x);
    case Finished(i, ok, now) => ConcludeBooks(w, i, ok, now, x);
    case RetryWakes(k) =>
      WakeMoves(w.s, k);
      SameBagsBooks(w, Next(w, e), x);
    case CancelTask(id, now) => WithdrawBooks(w, id, now, x);
    case _ => SameBagsBooks(w, Next(w, e), x);
  }

  // ----- How long the queue gets -----

  // Retries apart, the queue keeps its capacity.
  ghost predicate Capped(s: State) {
    && Weight(multiset(s.queue), First()) <= (if s.cfg.capacity > 0 then s.cfg.capacity else 0)
    && forall t :: t in s.sleeping ==> t.retries > 0
  }

  // A wake-up leaves the queue over its capacity exactly if it was full before.
  lemma WakeOverflowsExactly(s: State, k: nat)
    requires k < |s.sleeping|
    ensures |Wake(s, k).queue| > s.cfg.capacity <==> |s.queue| >= s.cfg.capacity
  {
    var a, b := InsertCut(s.queue, s.sleeping[k]);
  }

  lemma EnqueueCapped(s: State, id: string, priority: int, hosts: seq<string>, now: int)
    requires Capped(s)
    ensures Capped(Enqueue(s, id, priority, hosts, now))
  {
    if EnqueueOutcome(s, id) == Accepted {
      var t := NewTask(id, priority, hosts, now);
      InsertBag(s.queue, t);
      WeightWith(multiset(s.queue), t, First());
      WeightAtMost(multiset(s.queue), First());
    }
  }

  lemma WakeCapped(s: State, k: nat)
    requires Capped(s) && k < |s.sleeping|
    ensures Capped(Wake(s, k))
  {
    InsertBag(s.queue, s.sleeping[k]);
    WeightWith(multiset(s.queue), s.sleeping[k], First());
    forall t | t in Without(s.sleeping, k) ensures t in s.sleeping {}
  }

  lemma CancelCapped(s: State, id: string, now: int)
    requires Capped(s)
    ensures Capped(Cancel(s, id, now))
  {
    if HasId(s.queue, id) {
      var k := FirstIndex(s.queue, id);
      WithoutKeepsOrder(s.queue, k);
      WeightGrows(multiset(Without(s.queue, k)), multiset(s.queue), First());
    }
  }

  lemma FinishCapped(s: State, w: nat, ok: bool, now: int)
    requires Capped(s) && CanFinish(s, w)
    ensures Capped(Finish(s, w, ok, now))
  {}

  lemma StepKeepsCapped(w: World, e: Event, cap: nat)
    requires Capped(w.s) && Loose(w.s, cap) && Enabled(w.s, e)
    ensures Capped(Next(w, e).s)
  {
    match e
    case EnqueueTask(id, priority, hosts, now) => EnqueueCapped(w.s, id, priority, hosts, now);
    case ProcessTick(now) => PassCapped(w.s, now, cap);
    case PassGoesOn(now) => PassCapped(w.s, now, cap);
    case RetryWakes(k) => WakeCapped(w.s, k);
    case CancelTask(id, now) => CancelCapped(w.s, id, now);
    case Finished(i, ok, now) => FinishCapped(w.s, i, ok, now);
    case _ =>
  }

  lemma PassCapped(s: State, now: int, cap: nat)
    requires Capped(s) && Loose(s, cap)
    ensures Capped(Scan(s, 0, now).state) && Capped(ProcessQueue(s, now).state)
  {
    var n := ScanFollows(s, 0, now, cap, AnyRun);
    WeightGrows(multiset(n.queue), multiset(s.queue), First());
  }

  // ----- The theorems over every run -----

  lemma {:induction false} RunKeepsBooks(w: World, es: seq<Event>, cap: nat, x: string)
    requires Good(w, cap, AnyRun) && Books(w, x) && Capped(w.s) && IsRun(w, es, AnyRun)
    ensures var n := After(w, es, AnyRun); Books(n, x) && Capped(n.s) && Loose(n.s, cap)
    decreases |es|
  {
    if es != [] {
      StepKeepsGood(w, es[0], cap, AnyRun);
      StepKeepsBooks(w, es[0], cap, x);
      StepKeepsCapped(w, es[0], cap);
      RunKeepsBooks(Next(w, es[0]), es[1..], cap, x);
    }
  }

  lemma StartBooks(cfg: Config, maxConcurrent: int, workerCount: nat, x: string)
    ensures var w := Start(cfg, maxConcurrent, workerCount); Books(w, x) && Capped(w.s)
  {
    var w := Start(cfg, maxConcurrent, workerCount);
    WaitingEmpty(w.s.chans);
    BusyEmpty(w.s.executing);
    assert Idle(w.s) == multiset{};
  }

  // In every run, whatever is cancelled and whatever is enqueued again: every
  // accepted task is still queued, asleep, in a channel or with a worker, or has
  // come to the end of its last execution, or was cancelled in the queue; so a
  // task that is cancelled in flight is executed all the same. StartTask is
  // called at most 1 + MaxRetries times for each acceptance of an ID. Tasks
  // marked as running are in flight, and there are never more of them than the
  // highest cap. Retries apart, the queue keeps its capacity.
  lemma TasksAreKeptInEveryRun(cfg: Config, maxConcurrent: int, workerCount: nat, es: seq<Event>, id: string)
    requires workerCount > 0 && IsRun(Start(cfg, maxConcurrent, workerCount), es, AnyRun)
    ensures var w := After(Start(cfg, maxConcurrent, workerCount), es, AnyRun);
            && w.accepted[id] == Weight(Idle(w.s), Named(id)) + Weight(Busy(w.s.executing), Named(id))
                                 + w.finished[id] + w.cancelled[id]
            && w.calls[id] <= (1 + MAX_RETRIES) * w.accepted[id]
            && multiset(w.s.running.Values) <= Waiting(w.s.chans) + Busy(w.s.executing)
            && |w.s.running| <= HighestCap(cfg, maxConcurrent)
            && Weight(multiset(w.s.queue), First()) <= (if w.s.cfg.capacity > 0 then w.s.cfg.capacity else 0)
  {
    var w, cap := Start(cfg, maxConcurrent, workerCount), HighestCap(cfg, maxConcurrent);
    StartIsGood(cfg, maxConcurrent, workerCount, AnyRun);
    StartBooks(cfg, maxConcurrent, workerCount, id);
    RunKeepsBooks(w, es, cap, id);
  }

  // In every run in which no live ID is accepted again, whatever is cancelled: no
  // two live tasks share an ID, and no host is charged more than its running
  // tasks account for. Cancelling in flight can only make a host look freer.
  lemma HostsAreNeverOverchargedInEveryRun(cfg: Config, maxConcurrent: int, workerCount: nat, es: seq<Event>)
    requires workerCount > 0 && IsRun(Start(cfg, maxConcurrent, workerCount), es, FreshRun)
    ensures var s := After(Start(cfg, maxConcurrent, workerCount), es, FreshRun).s;
            && (forall h :: Charges(s.loads, h) <= HostBag(s.running)[h])
            && (forall t, u :: t in Idle(s) + Busy(s.executing) && u in Idle(s) + Busy(s.executing) && t.id == u.id
                  ==> t == u)
  {
    StartIsGood(cfg, maxConcurrent, workerCount, FreshRun);
    RunKeepsGood(Start(cfg, maxConcurrent, workerCount), es, HighestCap(cfg, maxConcurrent), FreshRun);
    assert Undercharged(After(Start(cfg, maxConcurrent, workerCount), es, FreshRun).s);
  }

}
