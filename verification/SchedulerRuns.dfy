// Whole runs of the scheduler: every interleaving of its locked steps.
module SchedulerRuns {
  import opened Common
  import opened TaskOrder
  import opened HostLoads
  import opened Workers
  import opened SchedulerModel
  import opened GreedyDispatch
  import opened SchedulerInvariants
  import opened SchedulerSteps

  datatype Event =
    | EnqueueTask(id: string, priority: int, hosts: seq<string>, now: int)
    | ProcessTick(now: int)
    | PassGoesOn(now: int)
    | Receive(w: nat)
    | Finished(w: nat, ok: bool, now: int)
    | RetryWakes(k: nat)
    | CancelTask(id: string, now: int)
    | AdjustTick
    | HostReport(host: string, cpu: real, mem: real, available: bool, now: int)
    | RefreshTick(now: int)

  // One accepted request.
  datatype Acceptance = Acceptance(id: string, priority: int, hosts: seq<string>, now: int)

  // The manager's state with a log of what became of every accepted task:
  // accepted IDs, IDs whose execution ended without another retry, and IDs
  // cancelled in the queue, each with multiplicity; how often StartTask has been
  // called for an ID since it was last accepted, and how often ever. While a pass
  // of the queue spins, it holds the lock. The log lists the accepted requests.
  datatype World = World(
    s: State,
    accepted: multiset<string>,
    finished: multiset<string>,
    cancelled: multiset<string>,
    starts: map<string, nat>,
    calls: multiset<string>,
    spinning: bool,
    log: seq<Acceptance>)

  ghost function Start(cfg: Config, maxConcurrent: int, workerCount: nat): World {
    World(InitialState(cfg, maxConcurrent, workerCount),
          multiset{}, multiset{}, multiset{}, map[], multiset{}, false, [])
  }

  // What can happen next, the lock aside. The throttler only runs under adaptive
  // throttling.
  ghost predicate Enabled(s: State, e: Event) {
    match e
    case Receive(i) => CanTake(s, i)
    case Finished(i, _, _) => CanFinish(s, i)
    case RetryWakes(k) => k < |s.sleeping|
    case AdjustTick => s.cfg.adaptive
    case _ => |s.chans| > 0
  }

  // Every step but a worker's receipt needs the lock. A spinning pass keeps it, and
  // goes round again until it can move on.
  ghost predicate HasLock(w: World, e: Event) {
    if w.spinning then e.Receive? || e.PassGoesOn? else !e.PassGoesOn?
  }

  // What is asked of the callers. In a fresh run no ID is accepted again while a
  // task with it is queued, asleep, in a channel or with a worker. In an orderly
  // run no ID is accepted again while it sleeps, and only queued tasks are
  // cancelled.
  ghost predicate Considerate(s: State, e: Event, mode: Mode) {
    match mode
    case AnyRun => true
    case FreshRun => e.EnqueueTask? && EnqueueOutcome(s, e.id) == Accepted ==> Unused(s, e.id)
    case OrderlyRun =>
      && (e.EnqueueTask? && EnqueueOutcome(s, e.id) == Accepted ==> e.id !in Ids(s.sleeping))
      && (e.CancelTask? ==> e.id !in s.running)
  }

  ghost predicate Possible(w: World, e: Event, mode: Mode) {
    Enabled(w.s, e) && HasLock(w, e) && Considerate(w.s, e, mode)
  }

  function StartsOf(starts: map<string, nat>, id: string): nat {
    if id in starts then starts[id] else 0
  }

  ghost function Accept(w: World, id: string, priority: int, hosts: seq<string>, now: int): (n: World)
    ensures n.s.cfg == w.s.cfg && n.s.maxConcurrent == w.s.maxConcurrent
  {
    if EnqueueOutcome(w.s, id) == Accepted
    then w.(s := Enqueue(w.s, id, priority, hosts, now),
            accepted := w.accepted + multiset{id}, starts := w.starts[id := 0],
            log := w.log + [Acceptance(id, priority, hosts, now)])
    else w
  }

  // A worker receives a task and calls StartTask for it.
  ghost function CallStart(w: World, i: nat): (n: World)
    requires CanTake(w.s, i)
    ensures n.s.cfg == w.s.cfg && n.s.maxConcurrent == w.s.maxConcurrent
  {
    var id := w.s.chans[i][0].id;
    w.(s := Take(w.s, i), starts := w.starts[id := StartsOf(w.starts, id) + 1], calls := w.calls + multiset{id})
  }

  ghost predicate WillRetry(s: State, i: nat, ok: bool)
    requires CanFinish(s, i)
  {
    !ok && s.executing[i].value.retries < s.executing[i].value.maxRetries
  }

  ghost function Conclude(w: World, i: nat, ok: bool, now: int): (n: World)
    requires CanFinish(w.s, i)
    ensures n.s.cfg == w.s.cfg && n.s.maxConcurrent == w.s.maxConcurrent
  {
    w.(s := Finish(w.s, i, ok, now),
       finished := if WillRetry(w.s, i, ok) then w.finished else w.finished + multiset{w.s.executing[i].value.id})
  }

  ghost function Withdraw(w: World, id: string, now: int): (n: World)
    ensures n.s.cfg == w.s.cfg && n.s.maxConcurrent == w.s.maxConcurrent
  {
    w.(s := Cancel(w.s, id, now),
       cancelled := if HasId(w.s.queue, id) then w.cancelled + multiset{id} else w.cancelled)
  }

  ghost function Passed(w: World, r: ScanResult): World {
    w.(s := r.state, spinning := r.stuck)
  }

  ghost function Next(w: World, e: Event): (n: World)
    requires Enabled(w.s, e)
    ensures n.s.cfg == w.s.cfg
    ensures n.s.maxConcurrent == if e.AdjustTick? then AdjustedCap(w.s.maxConcurrent, |w.s.running|, |w.s.queue|)
                                 else w.s.maxConcurrent
  {
    match e
    case EnqueueTask(id, priority, hosts, now) => Accept(w, id, priority, hosts, now)
    case ProcessTick(now) => Passed(w, ProcessQueue(w.s, now))
    case PassGoesOn(now) => Passed(w, Scan(w.s, 0, now))
    case Receive(i) => CallStart(w, i)
    case Finished(i, ok, now) => Conclude(w, i, ok, now)
    case RetryWakes(k) => w.(s := Wake(w.s, k))
    case CancelTask(id, now) => Withdraw(w, id, now)
    case AdjustTick => w.(s := Adjust(w.s))
    case HostReport(h, cpu, mem, available, now) => w.(s := ReportHost(w.s, h, cpu, mem, available, now))
    case RefreshTick(now) => w.(s := RefreshHosts(w.s, now))
  }

  ghost predicate IsRun(w: World, es: seq<Event>, mode: Mode)
    decreases |es|
  {
    es == [] || (Possible(w, es[0], mode) && IsRun(Next(w, es[0]), es[1..], mode))
  }

  ghost function After(w: World, es: seq<Event>, mode: Mode): World
    requires IsRun(w, es, mode)
    decreases |es|
  {
    if es == [] then w else After(Next(w, es[0]), es[1..], mode)
  }

  // e leads from w to n in one step, and es in a run.
  ghost predicate StepTo(w: World, e: Event, n: World, mode: Mode) {
    Possible(w, e, mode) && n == Next(w, e)
  }

  ghost predicate Leads(w: World, es: seq<Event>, n: World, mode: Mode) {
    IsRun(w, es, mode) && n == After(w, es, mode)
  }

  lemma LeadsCons(w: World, e: Event, m: World, es: seq<Event>, n: World, mode: Mode)
    requires StepTo(w, e, m, mode) && Leads(m, es, n, mode)
    ensures Leads(w, [e] + es, n, mode)
  {
    assert ([e] + es)[1..] == es;
  }

  lemma LeadsTail(w: World, es: seq<Event>, n: World, mode: Mode) returns (m: World)
    requires es != [] && Leads(w, es, n, mode)
    ensures StepTo(w, es[0], m, mode) && Leads(m, es[1..], n, mode)
  {
    m := Next(w, es[0]);
  }

  lemma {:induction false} LeadsSnoc(w: World, es: seq<Event>, m: World, e: Event, n: World, mode: Mode)
    requires Leads(w, es, m, mode) && StepTo(m, e, n, mode)
    ensures Leads(w, es + [e], n, mode)
    decreases |es|
  {
    if es == [] {
      LeadsCons(w, e, n, [], n, mode);
      assert es + [e] == [e] + [];
    } else {
      var x := LeadsTail(w, es, m, mode);
      LeadsSnoc(x, es[1..], m, e, n, mode);
      LeadsCons(w, es[0], x, es[1..] + [e], n, mode);
      assert es + [e] == [es[0]] + (es[1..] + [e]);
    }
  }

  // ----- Tasks by where they stand -----

  ghost predicate IdleCounted(starts: map<string, nat>, tasks: multiset<QueuedTask>) {
    forall t :: t in tasks ==>
      t.id in starts && starts[t.id] == t.retries <= t.maxRetries == MAX_RETRIES
  }

  ghost predicate BusyCounted(starts: map<string, nat>, tasks: multiset<QueuedTask>) {
    forall t :: t in tasks ==>
      t.id in starts && starts[t.id] == t.retries + 1 && t.retries <= t.maxRetries == MAX_RETRIES
  }

  // A task's retry counter says how often StartTask was called for it before
  // the current attempt, and no ID gets more than 1 + MAX_RETRIES calls.
  ghost predicate StartsCounted(w: World) {
    && IdleCounted(w.starts, Idle(w.s))
    && BusyCounted(w.starts, Busy(w.s.executing))
    && (forall id :: id in w.starts ==> w.starts[id] <= 1 + MAX_RETRIES)
  }

  // Every accepted task is in exactly one place: queued, asleep, marked as
  // running, finished or cancelled.
  ghost predicate Conserved(w: World) {
    Ledger(w.accepted, LiveIds(w.s), w.finished, w.cancelled)
  }

  ghost predicate Ledger(accepted: multiset<string>, live: multiset<string>,
                         finished: multiset<string>, cancelled: multiset<string>) {
    accepted == live + finished + cancelled
  }

  lemma LedgerAccepts(a: multiset<string>, l: multiset<string>, f: multiset<string>, c: multiset<string>, id: string)
    requires Ledger(a, l, f, c)
    ensures Ledger(a + multiset{id}, l + multiset{id}, f, c)
  {}

  lemma LedgerCloses(a: multiset<string>, l: multiset<string>, f: multiset<string>, c: multiset<string>, id: string)
    requires Ledger(a, l + multiset{id}, f, c)
    ensures Ledger(a, l, f + multiset{id}, c) && Ledger(a, l, f, c + multiset{id})
  {}

  // The largest value the concurrency cap can reach.
  function HighestCap(cfg: Config, maxConcurrent: int): nat {
    var high := if cfg.adaptive && maxConcurrent < 100 then 100 else maxConcurrent;
    if high < 0 then 0 else high
  }

  // Whether the manager ever dispatches a task: it can queue one, the cap admits
  // one, and an idle system is not throttled.
  ghost predicate CanDispatch(cfg: Config, maxConcurrent: int) {
    cfg.capacity >= 1 && maxConcurrent >= 1 && (cfg.adaptive ==> cfg.threshold >= 0.0)
  }

  ghost predicate Good(w: World, cap: nat, mode: Mode) {
    && Holds(w.s, cap, mode)
    && (w.s.cfg.adaptive ==> 100 <= cap)
    && (mode.OrderlyRun? ==> Conserved(w) && StartsCounted(w))
  }

  // ----- Conservation and start counting, step by step -----

  lemma TaskIdIsLive(s: State, t: QueuedTask)
    requires Placed(s)
    requires t in Idle(s) + Busy(s.executing)
    ensures t in s.queue || t in s.sleeping || (t.id in s.running && s.running[t.id] == t)
  {
    if t !in s.queue && t !in s.sleeping {
      assert t in InFlight(s);
      assert t in s.running.Values;
    }
  }

  lemma NotLive(s: State, id: string, t: QueuedTask)
    requires Placed(s) && id !in s.running && !HasId(s.queue, id) && id !in Ids(s.sleeping)
    requires t in Idle(s) + Busy(s.executing)
    ensures t.id != id
  {
    TaskIdIsLive(s, t);
    IdsAre(s.sleeping, id);
  }

  lemma AcceptParts(w: World, id: string, priority: int, hosts: seq<string>, now: int) returns (n: World)
    requires EnqueueOutcome(w.s, id) == Accepted
    ensures n == Accept(w, id, priority, hosts, now)
    ensures n.starts == w.starts[id := 0] && Busy(n.s.executing) == Busy(w.s.executing)
    ensures Idle(n.s) == Idle(w.s) + multiset{NewTask(id, priority, hosts, now)}
  {
    n := Accept(w, id, priority, hosts, now);
    EnqueueIdle(w.s, id, priority, hosts, now);
  }

  lemma CountedBy(n: World, starts: map<string, nat>, idle: multiset<QueuedTask>, busy: multiset<QueuedTask>)
    requires n.starts == starts && Idle(n.s) == idle && Busy(n.s.executing) == busy
    requires IdleCounted(starts, idle) && BusyCounted(starts, busy)
    requires forall id :: id in starts ==> starts[id] <= 1 + MAX_RETRIES
    ensures StartsCounted(n)
  {}

  lemma AcceptedCounted(w: World, id: string, t: QueuedTask, starts: map<string, nat>)
    requires Placed(w.s) && StartsCounted(w) && starts == w.starts[id := 0]
    requires id !in w.s.running && !HasId(w.s.queue, id) && id !in Ids(w.s.sleeping)
    requires t.id == id && t.retries == 0 && t.maxRetries == MAX_RETRIES
    ensures IdleCounted(starts, Idle(w.s) + multiset{t}) && BusyCounted(starts, Busy(w.s.executing))
    ensures forall x :: x in starts ==> starts[x] <= 1 + MAX_RETRIES
  {
    NoneHasId(w.s, id);
    CountsSurvive(w.starts, Idle(w.s), Busy(w.s.executing), id, 0);
    IdleCountedWith(starts, Idle(w.s), t);
  }

  lemma EnqueueCounts(w: World, id: string, priority: int, hosts: seq<string>, now: int) returns (n: World)
    requires Placed(w.s) && StartsCounted(w)
    requires EnqueueOutcome(w.s, id) == Accepted && id !in Ids(w.s.sleeping)
    ensures n == Accept(w, id, priority, hosts, now) && StartsCounted(n)
  {
    var t := NewTask(id, priority, hosts, now);
    AcceptedCounted(w, id, t, w.starts[id := 0]);
    n := AcceptParts(w, id, priority, hosts, now);
    CountedBy(n, n.starts, Idle(w.s) + multiset{t}, Busy(w.s.executing));
  }

  lemma NoneHasId(s: State, id: string)
    requires Placed(s) && id !in s.running && !HasId(s.queue, id) && id !in Ids(s.sleeping)
    ensures forall u :: u in Idle(s) + Busy(s.executing) ==> u.id != id
  {
    forall u | u in Idle(s) + Busy(s.executing) ensures u.id != id {
      NotLive(s, id, u);
    }
  }

  lemma IdleCountedWith(starts: map<string, nat>, idle: multiset<QueuedTask>, t: QueuedTask)
    requires IdleCounted(starts, idle)
    requires t.id in starts && starts[t.id] == t.retries <= t.maxRetries == MAX_RETRIES
    ensures IdleCounted(starts, idle + multiset{t})
  {}

  // Setting the count of an ID that no listed task has.
  lemma CountsSurvive(starts: map<string, nat>, idle: multiset<QueuedTask>,
                      busy: multiset<QueuedTask>, id: string, n: nat)
    requires IdleCounted(starts, idle) && BusyCounted(starts, busy)
    requires forall u :: u in idle + busy ==> u.id != id
    ensures IdleCounted(starts[id := n], idle) && BusyCounted(starts[id := n], busy)
  {
    forall u | u in idle ensures u.id != id { assert u in idle + busy; }
    forall u | u in busy ensures u.id != id { assert u in idle + busy; }
  }

  // No other task carries the ID of the task a worker receives.
  lemma TakenIsAlone(s: State, i: nat, u: QueuedTask)
    requires Placed(s) && CanTake(s, i)
    requires u in Idle(Take(s, i)) || u in Busy(s.executing)
    ensures u.id != s.chans[i][0].id
  {
    var t := s.chans[i][0];
    TakeBags(s, i);
    assert t in InFlight(s);
    assert t in s.running.Values;
    assert multiset(s.running.Values)[t] == 1;
    assert InFlight(s)[t] == Waiting(s.chans)[t] + Busy(s.executing)[t];
    TaskIdIsLive(s, u);
    if u.id == t.id {
      IdsAre(s.queue, u.id);
      IdsAre(s.sleeping, u.id);
      LiveOnce(s, u.id);
      assert false;
    }
  }

  lemma TakenIsAloneAmongAll(s: State, i: nat)
    requires Placed(s) && CanTake(s, i)
    ensures forall u :: u in Idle(Take(s, i)) + Busy(s.executing) ==> u.id != s.chans[i][0].id
  {
    forall u | u in Idle(Take(s, i)) + Busy(s.executing) ensures u.id != s.chans[i][0].id {
      TakenIsAlone(s, i, u);
    }
  }

  lemma IdleCountedWithout(starts: map<string, nat>, idle: multiset<QueuedTask>, t: QueuedTask)
    requires IdleCounted(starts, idle + multiset{t})
    ensures IdleCounted(starts, idle)
    ensures t.id in starts && starts[t.id] == t.retries <= t.maxRetries == MAX_RETRIES
  {
    assert t in idle + multiset{t};
    forall u | u in idle ensures u in idle + multiset{t} {}
  }

  // Counts and bags after a worker has received its task.
  lemma TakenCounted(w: World, i: nat, t: QueuedTask, starts: map<string, nat>)
    requires Placed(w.s) && StartsCounted(w) && CanTake(w.s, i) && t == w.s.chans[i][0]
    requires starts == w.starts[t.id := StartsOf(w.starts, t.id) + 1]
    ensures IdleCounted(starts, Idle(Take(w.s, i)))
    ensures BusyCounted(starts, Busy(w.s.executing) + multiset{t})
    ensures forall x :: x in starts ==> starts[x] <= 1 + MAX_RETRIES
  {
    TakeBags(w.s, i);
    TakenIsAloneAmongAll(w.s, i);
    IdleCountedWithout(w.starts, Idle(Take(w.s, i)), t);
    CountsSurvive(w.starts, Idle(Take(w.s, i)), Busy(w.s.executing), t.id, StartsOf(w.starts, t.id) + 1);
    BusyCountedWith(starts, Busy(w.s.executing), t);
  }

  lemma TakeParts(w: World, i: nat, t: QueuedTask) returns (n: World)
    requires CanTake(w.s, i) && t == w.s.chans[i][0]
    ensures n == CallStart(w, i) && n.s == Take(w.s, i)
    ensures n.starts == w.starts[t.id := StartsOf(w.starts, t.id) + 1]
  {
    n := CallStart(w, i);
  }

  lemma TakeCounts(w: World, i: nat) returns (n: World)
    requires Placed(w.s) && StartsCounted(w) && CanTake(w.s, i)
    ensures n == CallStart(w, i) && StartsCounted(n)
  {
    var t := w.s.chans[i][0];
    n := TakeParts(w, i, t);
    TakenCounted(w, i, t, n.starts);
    TakeBags(w.s, i);
    CountedBy(n, n.starts, Idle(Take(w.s, i)), Busy(w.s.executing) + multiset{t});
  }

  lemma BusyCountedWith(starts: map<string, nat>, busy: multiset<QueuedTask>, t: QueuedTask)
    requires BusyCounted(starts, busy)
    requires t.id in starts && starts[t.id] == t.retries + 1 && t.retries <= t.maxRetries == MAX_RETRIES
    ensures BusyCounted(starts, busy + multiset{t})
  {}

  lemma FinishCounts(w: World, i: nat, ok: bool, now: int)
    requires StartsCounted(w) && CanFinish(w.s, i)
    ensures StartsCounted(Conclude(w, i, ok, now))
  {
    var n := Conclude(w, i, ok, now);
    var t := w.s.executing[i].value;
    BusyUpdate(w.s.executing, i, None);
    assert Busy(n.s.executing) + multiset{t} == Busy(w.s.executing);
    forall u | u in Idle(n.s) ensures u in Idle(w.s) || u == t.(retries := t.retries + 1) {}
    forall u | u in Busy(n.s.executing) ensures u in Busy(w.s.executing) {
      assert u in Busy(n.s.executing) + multiset{t};
    }
    assert t in Busy(w.s.executing);
  }

  lemma CancelCounts(w: World, id: string, now: int)
    requires StartsCounted(w) && id !in w.s.running
    ensures StartsCounted(Withdraw(w, id, now))
  {
    var n := Withdraw(w, id, now);
    if HasId(w.s.queue, id) {
      WithoutKeepsOrder(w.s.queue, FirstIndex(w.s.queue, id));
    }
    forall u | u in Idle(n.s) ensures u in Idle(w.s) {}
  }

  // ----- Every step keeps everything -----

  // Steps that start, finish and accept no task.
  lemma Regrouped(w: World, n: State, cap: nat)
    requires Good(w, cap, OrderlyRun) && Core(n, cap) && LiveIds(n) == LiveIds(w.s)
    requires Idle(n) == Idle(w.s) && n.executing == w.s.executing && n.cfg == w.s.cfg
    ensures Good(w.(s := n), cap, OrderlyRun)
  {}

  lemma PassKeepsGood(w: World, n: State, cap: nat, mode: Mode)
    requires Good(w, cap, mode) && Follows(w.s, n, cap, mode)
    ensures Good(w.(s := n), cap, mode)
  {
    if mode.OrderlyRun? {
      Regrouped(w, n, cap);
    }
  }

  lemma ScanKeepsGood(w: World, now: int, cap: nat, mode: Mode)
    requires Good(w, cap, mode)
    ensures Good(Passed(w, Scan(w.s, 0, now)), cap, mode)
    ensures Good(Passed(w, ProcessQueue(w.s, now)), cap, mode)
  {
    var n := ScanFollows(w.s, 0, now, cap, mode);
    PassKeepsGood(w, n, cap, mode);
    SpinningIsGood(w.(s := n), Scan(w.s, 0, now).stuck, cap, mode);
    SpinningIsGood(w, ProcessQueue(w.s, now).stuck, cap, mode);
  }

  lemma SpinningIsGood(w: World, spinning: bool, cap: nat, mode: Mode)
    requires Good(w, cap, mode)
    ensures Good(w.(spinning := spinning), cap, mode)
  {}

  lemma AcceptKeepsGood(w: World, id: string, priority: int, hosts: seq<string>, now: int, cap: nat)
    requires Good(w, cap, OrderlyRun) && id !in Ids(w.s.sleeping) && EnqueueOutcome(w.s, id) == Accepted
    ensures Good(Accept(w, id, priority, hosts, now), cap, OrderlyRun)
  {
    EnqueueKeepsCore(w.s, id, priority, hosts, now, cap);
    var n := EnqueueCounts(w, id, priority, hosts, now);
    LedgerAccepts(w.accepted, LiveIds(w.s), w.finished, w.cancelled, id);
  }

  lemma ReceiveKeepsGood(w: World, i: nat, cap: nat)
    requires Good(w, cap, OrderlyRun) && CanTake(w.s, i)
    ensures Good(CallStart(w, i), cap, OrderlyRun)
  {
    TakeKeepsCore(w.s, i, cap);
    var n := TakeCounts(w, i);
  }

  lemma FinishConserves(w: World, i: nat, ok: bool, now: int)
    requires Conserved(w) && CanFinish(w.s, i)
    requires LiveIds(w.s) == if WillRetry(w.s, i, ok) then LiveIds(Finish(w.s, i, ok, now))
                             else LiveIds(Finish(w.s, i, ok, now)) + multiset{w.s.executing[i].value.id}
    ensures Conserved(Conclude(w, i, ok, now))
  {
    if !WillRetry(w.s, i, ok) {
      LedgerCloses(w.accepted, LiveIds(Finish(w.s, i, ok, now)), w.finished, w.cancelled, w.s.executing[i].value.id);
    }
  }

  lemma FinishKeepsGood(w: World, i: nat, ok: bool, now: int, cap: nat)
    requires Good(w, cap, OrderlyRun) && CanFinish(w.s, i)
    ensures Good(Conclude(w, i, ok, now), cap, OrderlyRun)
  {
    FinishKeepsCore(w.s, i, ok, now, cap);
    FinishCounts(w, i, ok, now);
    FinishConserves(w, i, ok, now);
  }

  lemma WakeKeepsGood(w: World, k: nat, cap: nat)
    requires Good(w, cap, OrderlyRun) && k < |w.s.sleeping|
    ensures Good(w.(s := Wake(w.s, k)), cap, OrderlyRun)
  {
    WakeKeepsCore(w.s, k, cap);
    WakeMoves(w.s, k);
    Regrouped(w, Wake(w.s, k), cap);
  }

  lemma CancelKeepsGood(w: World, id: string, now: int, cap: nat)
    requires Good(w, cap, OrderlyRun) && id !in w.s.running
    ensures Good(Withdraw(w, id, now), cap, OrderlyRun)
  {
    var n := Withdraw(w, id, now);
    CancelCounts(w, id, now);
    if HasId(w.s.queue, id) {
      CancelQueuedKeepsCore(w.s, id, now, cap);
      LedgerCloses(w.accepted, LiveIds(n.s), w.finished, w.cancelled, id);
    }
  }

  // Steps that change only the cap or the host table.
  lemma CapKeepsGood(w: World, n: State, cap: nat, mode: Mode)
    requires Good(w, cap, mode) && n == w.s.(maxConcurrent := n.maxConcurrent) && n.maxConcurrent <= cap
    ensures Good(w.(s := n), cap, mode)
  {
    CapOnly(w.s, n, cap, mode);
    if mode.OrderlyRun? {
      Regrouped(w, n, cap);
    }
  }

  lemma LoadsKeepGood(w: World, n: State, cap: nat, mode: Mode)
    requires Good(w, cap, mode) && n == w.s.(loads := n.loads) && NonNegative(n.loads)
    requires forall h :: Charges(n.loads, h) == Charges(w.s.loads, h)
    ensures Good(w.(s := n), cap, mode)
  {
    ChargesOnly(w.s, n, cap, mode);
    PassKeepsGood(w, n, cap, mode);
  }

  lemma AdjustedBelow(cap: int, running: nat, queued: nat, top: int)
    requires cap <= top && 100 <= top
    ensures AdjustedCap(cap, running, queued) <= top
  {}

  lemma AdjustCapOnly(s: State, top: int) returns (n: State)
    requires s.maxConcurrent <= top && 100 <= top
    ensures n == Adjust(s) && n == s.(maxConcurrent := n.maxConcurrent) && n.maxConcurrent <= top
  {
    AdjustedBelow(s.maxConcurrent, |s.running|, |s.queue|, top);
    n := Adjust(s);
  }

  lemma AdjustKeepsGood(w: World, cap: nat, mode: Mode)
    requires Good(w, cap, mode) && w.s.cfg.adaptive
    ensures Good(w.(s := Adjust(w.s)), cap, mode)
  {
    var n := AdjustCapOnly(w.s, cap);
    CapKeepsGood(w, n, cap, mode);
  }

  lemma ReportCharges(s: State, h: string, cpu: real, mem: real, available: bool, now: int) returns (n: State)
    requires NonNegative(s.loads)
    ensures n == ReportHost(s, h, cpu, mem, available, now) && n == s.(loads := n.loads) && NonNegative(n.loads)
    ensures forall x :: Charges(n.loads, x) == Charges(s.loads, x)
  {
    n := ReportHost(s, h, cpu, mem, available, now);
  }

  lemma ReportKeepsGood(w: World, h: string, cpu: real, mem: real, available: bool, now: int, cap: nat, mode: Mode)
    requires Good(w, cap, mode)
    ensures Good(w.(s := ReportHost(w.s, h, cpu, mem, available, now)), cap, mode)
  {
    var n := ReportCharges(w.s, h, cpu, mem, available, now);
    LoadsKeepGood(w, n, cap, mode);
  }

  lemma RefreshKeepsGood(w: World, now: int, cap: nat, mode: Mode)
    requires Good(w, cap, mode)
    ensures Good(w.(s := RefreshHosts(w.s, now)), cap, mode)
  {
    LoadsKeepGood(w, RefreshHosts(w.s, now), cap, mode);
  }

  lemma TableStepKeepsGood(w: World, e: Event, cap: nat, mode: Mode)
    requires Good(w, cap, mode) && Enabled(w.s, e) && (e.AdjustTick? || e.HostReport? || e.RefreshTick?)
    ensures Good(Next(w, e), cap, mode)
  {
    match e
    case AdjustTick => AdjustKeepsGood(w, cap, mode);
    case HostReport(h, cpu, mem, available, now) => ReportKeepsGood(w, h, cpu, mem, available, now, cap, mode);
    case RefreshTick(now) => RefreshKeepsGood(w, now, cap, mode);
  }

  lemma OrderlyStepKeepsGood(w: World, e: Event, cap: nat)
    requires Good(w, cap, OrderlyRun) && Possible(w, e, OrderlyRun)
    ensures Good(Next(w, e), cap, OrderlyRun)
  {
    match e
    case EnqueueTask(id, priority, hosts, now) =>
      if EnqueueOutcome(w.s, id) == Accepted { AcceptKeepsGood(w, id, priority, hosts, now, cap); }
    case ProcessTick(now) => ScanKeepsGood(w, now, cap, OrderlyRun);
    case PassGoesOn(now) => ScanKeepsGood(w, now, cap, OrderlyRun);
    case Receive(i) => ReceiveKeepsGood(w, i, cap);
    case Finished(i, ok, now) => FinishKeepsGood(w, i, ok, now, cap);
    case RetryWakes(k) => WakeKeepsGood(w, k, cap);
    case CancelTask(id, now) => CancelKeepsGood(w, id, now, cap);
    case _ => TableStepKeepsGood(w, e, cap, OrderlyRun);
  }

  lemma LooseStep(s: State, e: Event, cap: nat, w: World)
    requires w.s == s && Loose(s, cap) && Enabled(s, e)
    requires e.EnqueueTask? || e.Receive? || e.Finished? || e.RetryWakes? || e.CancelTask?
    ensures Loose(Next(w, e).s, cap)
  {
    match e
    case EnqueueTask(_, _, _, _) =>
    case Receive(i) => TakeLoose(s, i, cap);
    case Finished(i, ok, now) => FinishLoose(s, i, ok, now, cap);
    case RetryWakes(k) =>
    case CancelTask(id, now) => CancelLoose(s, id, now, cap);
  }

  lemma FreshStep(w: World, e: Event, cap: nat)
    requires Holds(w.s, cap, FreshRun) && Possible(w, e, FreshRun)
    requires e.EnqueueTask? || e.Receive? || e.Finished? || e.RetryWakes? || e.CancelTask?
    ensures var n := Next(w, e).s; DistinctTasks(Tasks(n)) && Undercharged(n)
  {
    match e
    case EnqueueTask(id, priority, hosts, now) =>
      if EnqueueOutcome(w.s, id) == Accepted { EnqueueFresh(w.s, id, priority, hosts, now); }
    case Receive(i) => TakeFresh(w.s, i);
    case Finished(i, ok, now) =>
      MarkedIsExecuting(w.s, i);
      FinishDistinct(w.s, i, ok, now);
      FinishUndercharged(w.s, i, ok, now);
    case RetryWakes(k) => WakeMoves(w.s, k);
    case CancelTask(id, now) => CancelFresh(w.s, id, now);
  }

  lemma UnorderlyStepKeepsGood(w: World, e: Event, cap: nat, mode: Mode)
    requires Good(w, cap, mode) && Possible(w, e, mode) && !mode.OrderlyRun?
    ensures Good(Next(w, e), cap, mode)
  {
    match e
    case ProcessTick(now) => ScanKeepsGood(w, now, cap, mode);
    case PassGoesOn(now) => ScanKeepsGood(w, now, cap, mode);
    case AdjustTick => TableStepKeepsGood(w, e, cap, mode);
    case HostReport(_, _, _, _, _) => TableStepKeepsGood(w, e, cap, mode);
    case RefreshTick(_) => TableStepKeepsGood(w, e, cap, mode);
    case _ =>
      LooseStep(w.s, e, cap, w);
      if mode.FreshRun? { FreshStep(w, e, cap); }
  }

  lemma StepKeepsGood(w: World, e: Event, cap: nat, mode: Mode)
    requires Good(w, cap, mode) && Possible(w, e, mode)
    ensures Good(Next(w, e), cap, mode)
  {
    if mode.OrderlyRun? {
      OrderlyStepKeepsGood(w, e, cap);
    } else {
      UnorderlyStepKeepsGood(w, e, cap, mode);
    }
  }

  // ----- The order of the queue -----

  lemma StepKeepsOrder(w: World, e: Event)
    requires Sorted(w.s.queue) && Enabled(w.s, e) && !e.ProcessTick? && !e.PassGoesOn?
    ensures var n := Next(w, e); Sorted(n.s.queue) && |n.s.chans| == |w.s.chans| && n.spinning == w.spinning
  {
    match e
    case EnqueueTask(id, priority, hosts, now) => InsertKeepsOrder(w.s.queue, NewTask(id, priority, hosts, now));
    case RetryWakes(k) => InsertKeepsOrder(w.s.queue, w.s.sleeping[k]);
    case CancelTask(id, now) =>
      if HasId(w.s.queue, id) { WithoutKeepsOrder(w.s.queue, FirstIndex(w.s.queue, id)); }
    case _ =>
  }

  lemma StepKeepsRoomy(w: World, e: Event, cap: nat)
    requires Roomy(w.s, cap) && Enabled(w.s, e) && !w.spinning
    ensures var n := Next(w, e); Sorted(n.s.queue) && |n.s.chans| == |w.s.chans| && !n.spinning
  {
    match e
    case ProcessTick(now) => PassKeepsRoomy(w.s, now, cap);
    case PassGoesOn(now) => PassKeepsRoomy(w.s, now, cap);
    case _ => StepKeepsOrder(w, e);
  }

  lemma PassKeepsRoomy(s: State, now: int, cap: nat)
    requires Roomy(s, cap)
    ensures !ProcessQueue(s, now).overflow && !ProcessQueue(s, now).stuck && !Scan(s, 0, now).stuck
    ensures Sorted(ProcessQueue(s, now).state.queue) && Sorted(Scan(s, 0, now).state.queue)
    ensures |ProcessQueue(s, now).state.chans| == |s.chans| == |Scan(s, 0, now).state.chans|
  {
    var r := ScanIsClean(s, 0, now, cap);
    var n := ScanFollows(s, 0, now, cap, OrderlyRun);
  }

  lemma {:induction false} WaitingEmpty(chans: Channels)
    requires forall i :: 0 <= i < |chans| ==> chans[i] == []
    ensures Waiting(chans) == multiset{}
  {
    if chans != [] { WaitingEmpty(chans[..|chans| - 1]); }
  }

  lemma {:induction false} BusyEmpty(executing: seq<Option<QueuedTask>>)
    requires forall i :: 0 <= i < |executing| ==> executing[i].None?
    ensures Busy(executing) == multiset{}
  {
    if executing != [] { BusyEmpty(executing[..|executing| - 1]); }
  }

  lemma StartIsGood(cfg: Config, maxConcurrent: int, workerCount: nat, mode: Mode)
    requires workerCount > 0
    ensures Good(Start(cfg, maxConcurrent, workerCount), HighestCap(cfg, maxConcurrent), mode)
  {
    var w := Start(cfg, maxConcurrent, workerCount);
    WaitingEmpty(w.s.chans);
    BusyEmpty(w.s.executing);
    assert LiveIds(w.s) == multiset{};
  }

  lemma {:induction false} RunKeepsGood(w: World, es: seq<Event>, cap: nat, mode: Mode)
    requires Good(w, cap, mode) && IsRun(w, es, mode)
    ensures Good(After(w, es, mode), cap, mode)
    decreases |es|
  {
    if es != [] {
      StepKeepsGood(w, es[0], cap, mode);
      RunKeepsGood(Next(w, es[0]), es[1..], cap, mode);
    }
  }

  lemma {:induction false} RunKeepsRoomy(w: World, es: seq<Event>, cap: nat)
    requires Good(w, cap, OrderlyRun) && Roomy(w.s, cap) && !w.spinning && IsRun(w, es, OrderlyRun)
    ensures Roomy(After(w, es, OrderlyRun).s, cap) && !After(w, es, OrderlyRun).spinning
    decreases |es|
  {
    if es != [] {
      StepKeepsGood(w, es[0], cap, OrderlyRun);
      StepKeepsRoomy(w, es[0], cap);
      RunKeepsRoomy(Next(w, es[0]), es[1..], cap);
    }
  }

  // ----- The theorems over every orderly run -----

  lemma CleanPassIsGreedy(s: State, now: int, cap: nat)
    requires Roomy(s, cap)
    ensures var g := GreedyFrom(s, 0, now);
            Scan(s, 0, now) == ScanResult(AfterPicks(s, [], g), false, false)
  {
    var r := ScanIsClean(s, 0, now, cap);
    ScanIsGreedy(s, 0, now);
    assert s.queue[..0] == [];
  }

  // When the worker channels together hold the highest reachable cap, then
  // after every run: the queue is sorted, no more tasks run than the cap ever
  // allowed, and the next queue pass meets no full channel, ends, and equals
  // the greedy pass.
  lemma QueuePassIsCleanInEveryRun(cfg: Config, maxConcurrent: int, workerCount: nat, es: seq<Event>, now: int)
    requires workerCount > 0 && HighestCap(cfg, maxConcurrent) <= CHANNEL_CAPACITY * workerCount
    requires IsRun(Start(cfg, maxConcurrent, workerCount), es, OrderlyRun)
    ensures var s := After(Start(cfg, maxConcurrent, workerCount), es, OrderlyRun).s;
            && Sorted(s.queue)
            && |s.running| <= HighestCap(cfg, maxConcurrent)
            && |s.chans| > 0
            && !After(Start(cfg, maxConcurrent, workerCount), es, OrderlyRun).spinning
            && !ProcessQueue(s, now).overflow && !ProcessQueue(s, now).stuck
            && Scan(s, 0, now).state == AfterPicks(s, [], GreedyFrom(s, 0, now))
  {
    var cap := HighestCap(cfg, maxConcurrent);
    StartIsGood(cfg, maxConcurrent, workerCount, OrderlyRun);
    RunKeepsRoomy(Start(cfg, maxConcurrent, workerCount), es, cap);
    var w := After(Start(cfg, maxConcurrent, workerCount), es, OrderlyRun);
    PassKeepsRoomy(w.s, now, cap);
    CleanPassIsGreedy(w.s, now, cap);
  }

  // After every orderly run, put-backs included, each host is charged exactly
  // for the occurrences of it in the running tasks' host lists, and any release
  // that a finishing task causes is exact.
  lemma HostsAreAccountedInEveryRun(cfg: Config, maxConcurrent: int, workerCount: nat, es: seq<Event>)
    requires workerCount > 0
    requires IsRun(Start(cfg, maxConcurrent, workerCount), es, OrderlyRun)
    ensures var s := After(Start(cfg, maxConcurrent, workerCount), es, OrderlyRun).s;
            && (forall h :: Charges(s.loads, h) == HostBag(s.running)[h])
            && (forall i: nat, h :: CanFinish(s, i) ==> multiset(s.executing[i].value.hosts)[h] <= Charges(s.loads, h))
  {
    StartIsGood(cfg, maxConcurrent, workerCount, OrderlyRun);
    RunKeepsGood(Start(cfg, maxConcurrent, workerCount), es, HighestCap(cfg, maxConcurrent), OrderlyRun);
    var s := After(Start(cfg, maxConcurrent, workerCount), es, OrderlyRun).s;
    forall i: nat, h | CanFinish(s, i) ensures multiset(s.executing[i].value.hosts)[h] <= Charges(s.loads, h) {
      FinishIsExact(s, i, true, 0);
    }
  }

  // After every orderly run, put-backs included, every accepted task is in
  // exactly one of: queued, asleep, running, finished, cancelled; the running
  // ones are exactly those in a channel or with a worker; and StartTask was
  // called at most 1 + MaxRetries times for any of them.
  lemma TasksAreConservedInEveryRun(cfg: Config, maxConcurrent: int, workerCount: nat, es: seq<Event>)
    requires workerCount > 0
    requires IsRun(Start(cfg, maxConcurrent, workerCount), es, OrderlyRun)
    ensures var w := After(Start(cfg, maxConcurrent, workerCount), es, OrderlyRun);
            && w.accepted == Ids(w.s.queue) + Ids(w.s.sleeping) + multiset(w.s.running.Keys) + w.finished + w.cancelled
            && (forall id :: (Ids(w.s.queue) + Ids(w.s.sleeping) + multiset(w.s.running.Keys))[id] <= 1)
            && Waiting(w.s.chans) + Busy(w.s.executing) == multiset(w.s.running.Values)
            && (forall id :: id in w.starts ==> w.starts[id] <= 1 + MAX_RETRIES)
  {
    StartIsGood(cfg, maxConcurrent, workerCount, OrderlyRun);
    RunKeepsGood(Start(cfg, maxConcurrent, workerCount), es, HighestCap(cfg, maxConcurrent), OrderlyRun);
    var w := After(Start(cfg, maxConcurrent, workerCount), es, OrderlyRun);
    assert AtMostOnce(LiveIds(w.s));
  }

}
