// A run in which cancelling a task that is being executed makes a host look
// free while another task runs on it.
module CancelledRun {
  import opened Common
  import opened TaskOrder
  import opened HostLoads
  import opened Workers
  import opened SchedulerModel
  import opened GreedyDispatch
  import opened SchedulerInvariants
  import opened SchedulerRuns

  // Nothing is queued but t, nothing runs, and all workers are free.
  ghost predicate Quiet(s: State, t: QueuedTask) {
    && WellFormed(s) && s.queue == [t] && s.running == map[] && s.sleeping == []
    && s.maxConcurrent >= 1 && !Throttled(s)
    && CanExecute(t.hosts, s.loads, s.cfg.perHost)
  }

  ghost function Sent(s: State, t: QueuedTask, now: int): State
    requires Quiet(s, t)
  {
    Send(Dispatch(s, 0, now), t, LeastBusy(s.chans))
  }

  lemma TickSends(w: World, t: QueuedTask, now: int)
    requires Quiet(w.s, t) && FreeSlots(w.s.chans) > 0 && !w.spinning
    ensures Enabled(w.s, ProcessTick(now)) && HasLock(w, ProcessTick(now))
    ensures Next(w, ProcessTick(now)) == w.(s := Sent(w.s, t, now))
    ensures Sent(w.s, t, now).queue == [] && Sent(w.s, t, now).running == map[t.id := t]
  {
    SendAlone(w.s, t, now);
  }

  // After the tick and the receipt by worker v, t is being executed.
  ghost predicate Executing(s: State, t: QueuedTask, v: nat) {
    && s.queue == [] && s.running == map[t.id := t] && s.sleeping == []
    && CanFinish(s, v) && s.executing[v] == Some(t)
    && FreeSlots(s.chans) > 0
  }

  lemma ReceiveExecutes(w: World, s: State, t: QueuedTask, v: nat, now: int, cap: nat)
    requires Quiet(s, t) && v == LeastBusy(s.chans) && s.chans[v] == [] && s.executing[v].None?
    requires w.s == Sent(s, t, now) && Good(w, cap, OrderlyRun) && w.s.queue == [] && w.s.running == map[t.id := t]
    ensures Enabled(w.s, Receive(v))
    ensures var n := Next(w, Receive(v));
            Good(n, cap, OrderlyRun) && Executing(n.s, t, v) && n.s.loads == w.s.loads && n.s.cfg == w.s.cfg
  {
    assert w.s.chans[v] == [t];
    ReceiveKeepsGood(w, v, cap);
    TakeFlight(w.s, v);
    FewInFlight(Take(w.s, v), t);
  }

  lemma FewInFlight(s: State, t: QueuedTask)
    requires Placed(s) && s.running == map[t.id := t] && |s.chans| > 0
    ensures FreeSlots(s.chans) > 0
  {
    assert s.running.Values == {t};
    assert |InFlight(s)| == |Waiting(s.chans)| + |Busy(s.executing)| == 1;
  }

  // Cancelling it leaves it with the worker, and its host looks untouched.
  lemma CancelWhileExecuting(w: World, t: QueuedTask, v: nat, now: int)
    requires Executing(w.s, t, v) && Accounted(w.s) && WellFormed(w.s)
    ensures var c := Next(w, CancelTask(t.id, now)).s;
            && c == w.s.(running := map[], loads := Released(w.s.loads, t.hosts, w.s.cfg.perHost, now))
            && Accounted(c) && NonNegative(c.loads)
  {
    CancelledStaysInFlight(w.s, t.id, now);
    ReleasedCharges(w.s.loads, t.hosts, w.s.cfg.perHost, now);
    assert map[t.id := t] - {t.id} == map[];
  }

  // Another task is sent to its host.
  lemma SentNext(c: State, u: QueuedTask, now: int) returns (d: State)
    requires Quiet(c, u) && Accounted(c) && FreeSlots(c.chans) > 0
    ensures d == Sent(c, u, now) && NonNegative(d.loads) && d.running == map[u.id := u] && d.executing == c.executing
    ensures forall h :: Charges(d.loads, h) == multiset(u.hosts)[h]
  {
    d := Sent(c, u, now);
    DispatchCharges(c, 0, now);
    ScanOnSend(c, 0, now);
    assert HostBag(c.running) == multiset{};
  }

  // The worker's finishing of the cancelled task then leaves the host with no
  // charge.
  lemma SecondTaskSuffers(c: State, t: QueuedTask, u: QueuedTask, v: nat, now: int)
    requires Quiet(c, u) && Accounted(c) && FreeSlots(c.chans) > 0 && CanFinish(c, v) && c.executing[v] == Some(t)
    requires t.id != u.id && u.hosts == t.hosts
    ensures var d := Sent(c, u, now);
            && CanFinish(d, v)
            && var n := Finish(d, v, true, now);
               n.running == map[u.id := u] && forall h :: Charges(n.loads, h) == 0
  {
    var d := SentNext(c, u, now);
    ReleasedCharges(d.loads, t.hosts, d.cfg.perHost, now);
    assert map[u.id := u] - {t.id} == map[u.id := u];
  }

  lemma NothingElse<T>(w: multiset<T>, b: multiset<T>)
    ensures (multiset([]) + multiset([]) + w) + b == w + b
  {}

  lemma OnlyTask(s: State, t: QueuedTask, v: nat)
    requires Executing(s, t, v) && Placed(s)
    ensures Tasks(s) == multiset{t}
  {
    assert s.running.Values == {t};
    NothingElse(Waiting(s.chans), Busy(s.executing));
  }

  lemma AdmitsAfterCancel(h: string, perHost: int, now: int)
    requires perHost >= 1
    ensures var back := Released(Charged(Touched([h], map[], perHost, now), [h], perHost, now), [h], perHost, now);
            CanExecute([h], map[], perHost) && CanExecute([h], back, perHost)
  {
    var back := Released(Charged(Touched([h], map[], perHost, now), [h], perHost, now), [h], perHost, now);
    PutBackLoads([h], map[], perHost, now);
    SameLoadsAdmit([h], map[], back, perHost);
  }

  // The whole run, on one host: t is enqueued, sent and executed, cancelled, and
  // u is enqueued and sent; then t ends. Now u runs on the host, and the host is
  // charged with nothing.
  lemma CancelledRunFails(cfg: Config, maxConcurrent: int, workerCount: nat, h: string, t: string, u: string, now: int)
    returns (es: seq<Event>)
    requires cfg.perHost >= 1 && CanDispatch(cfg, maxConcurrent) && workerCount > 0 && t != u
    ensures IsRun(Start(cfg, maxConcurrent, workerCount), es, FreshRun)
    ensures var s := After(Start(cfg, maxConcurrent, workerCount), es, FreshRun).s;
            && s.running == map[u := NewTask(u, 0, [h], now)] && HostBag(s.running)[h] == 1
            && Charges(s.loads, h) == 0
  {
    var w0 := Start(cfg, maxConcurrent, workerCount);
    var v, w1, w2, w3, w4 := FirstHalf(w0, cfg, maxConcurrent, workerCount, h, t, now);
    AdmitsAfterCancel(h, cfg.perHost, now);
    var second, w7 := SecondHalf(w4, h, NewTask(t, 0, [h], now), u, v, now);
    es := FourSteps(w0, w1, w2, w3, w4, NewTask(t, 0, [h], now), v, second, w7);
    OneOccurrence(h, NewTask(u, 0, [h], now));
  }

  lemma OneOccurrence(h: string, u: QueuedTask)
    requires u.hosts == [h]
    ensures HostBag(map[u.id := u])[h] == 1
  {
    HostBagWith(map[], u);
    assert map[][u.id := u] == map[u.id := u];
  }

  lemma FourSteps(w0: World, w1: World, w2: World, w3: World, w4: World, t: QueuedTask, v: nat, rest: seq<Event>,
                  last: World) returns (es: seq<Event>)
    requires Leads(w4, rest, last, FreshRun)
    requires StepTo(w0, EnqueueTask(t.id, t.priority, t.hosts, t.createdAt), w1, FreshRun)
             && StepTo(w1, ProcessTick(t.createdAt), w2, FreshRun)
    requires StepTo(w2, Receive(v), w3, FreshRun) && StepTo(w3, CancelTask(t.id, t.createdAt), w4, FreshRun)
    ensures Leads(w0, es, last, FreshRun)
  {
    es := [CancelTask(t.id, t.createdAt)] + rest;
    LeadsCons(w3, CancelTask(t.id, t.createdAt), w4, rest, last, FreshRun);
    LeadsCons(w2, Receive(v), w3, es, last, FreshRun);
    es := [Receive(v)] + es;
    LeadsCons(w1, ProcessTick(t.createdAt), w2, es, last, FreshRun);
    es := [ProcessTick(t.createdAt)] + es;
    LeadsCons(w0, EnqueueTask(t.id, t.priority, t.hosts, t.createdAt), w1, es, last, FreshRun);
    es := [EnqueueTask(t.id, t.priority, t.hosts, t.createdAt)] + es;
  }

  // The worlds after t has been enqueued, sent, received and cancelled.
  lemma FirstHalf(w0: World, cfg: Config, maxConcurrent: int, workerCount: nat, h: string, t: string, now: int)
    returns (v: nat, w1: World, w2: World, w3: World, w4: World)
    requires w0 == Start(cfg, maxConcurrent, workerCount)
    requires cfg.perHost >= 1 && CanDispatch(cfg, maxConcurrent) && workerCount > 0
    ensures StepTo(w0, EnqueueTask(t, 0, [h], now), w1, FreshRun) && StepTo(w1, ProcessTick(now), w2, FreshRun)
    ensures StepTo(w2, Receive(v), w3, FreshRun) && StepTo(w3, CancelTask(t, now), w4, FreshRun)
    ensures Canceled(w4.s, NewTask(t, 0, [h], now), v) && !w4.spinning
    ensures w4.s.cfg == cfg && w4.s.maxConcurrent == maxConcurrent
    ensures var p := cfg.perHost;
            w4.s.loads == Released(Charged(Touched([h], map[], p, now), [h], p, now), [h], p, now)
  {
    w1 := FirstEnqueue(w0, cfg, maxConcurrent, workerCount, h, t, now);
    v, w2, w3, w4 := SendReceiveCancel(w1, NewTask(t, 0, [h], now), now, HighestCap(cfg, maxConcurrent));
  }

  lemma FirstEnqueue(w0: World, cfg: Config, maxConcurrent: int, workerCount: nat, h: string, t: string, now: int)
    returns (w1: World)
    requires w0 == Start(cfg, maxConcurrent, workerCount)
    requires cfg.perHost >= 1 && CanDispatch(cfg, maxConcurrent) && workerCount > 0
    ensures StepTo(w0, EnqueueTask(t, 0, [h], now), w1, FreshRun)
    ensures Good(w1, HighestCap(cfg, maxConcurrent), OrderlyRun) && Quiet(w1.s, NewTask(t, 0, [h], now))
    ensures Free(w1.s) && w1.s.cfg == cfg && w1.s.maxConcurrent == maxConcurrent && w1.s.loads == map[] && !w1.spinning
  {
    StartIsGood(cfg, maxConcurrent, workerCount, OrderlyRun);
    StartIsEmpty(cfg, maxConcurrent, workerCount);
    AcceptKeepsGood(w0, t, 0, [h], now, HighestCap(cfg, maxConcurrent));
    w1 := Next(w0, EnqueueTask(t, 0, [h], now));
    AdmitsAfterCancel(h, cfg.perHost, now);
    IdleIsNotThrottled(w1.s);
  }

  lemma StartIsEmpty(cfg: Config, maxConcurrent: int, workerCount: nat)
    requires workerCount > 0
    ensures var s := Start(cfg, maxConcurrent, workerCount).s;
            && s.queue == s.sleeping == [] && s.running == map[] && s.loads == map[]
            && Tasks(s) == multiset{} && Free(s)
  {
    var s := Start(cfg, maxConcurrent, workerCount).s;
    WaitingEmpty(s.chans);
    BusyEmpty(s.executing);
    NothingElse(Waiting(s.chans), Busy(s.executing));
  }

  ghost predicate Free(s: State) {
    && FreeSlots(s.chans) > 0 && |s.executing| == |s.chans|
    && forall i :: 0 <= i < |s.chans| ==> s.chans[i] == [] && s.executing[i].None?
  }

  lemma SendReceiveCancel(w1: World, t: QueuedTask, now: int, cap: nat)
    returns (v: nat, w2: World, w3: World, w4: World)
    requires Good(w1, cap, OrderlyRun) && Quiet(w1.s, t) && Free(w1.s) && w1.s.loads == map[] && !w1.spinning
    ensures StepTo(w1, ProcessTick(now), w2, FreshRun) && StepTo(w2, Receive(v), w3, FreshRun)
    ensures StepTo(w3, CancelTask(t.id, now), w4, FreshRun)
    ensures Canceled(w4.s, t, v) && !w4.spinning && w4.s.cfg == w1.s.cfg && w4.s.maxConcurrent == w1.s.maxConcurrent
    ensures var p := w1.s.cfg.perHost;
            w4.s.loads == Released(Charged(Touched(t.hosts, map[], p, now), t.hosts, p, now), t.hosts, p, now)
  {
    v := LeastBusy(w1.s.chans);
    TickSends(w1, t, now);
    StepKeepsGood(w1, ProcessTick(now), cap, OrderlyRun);
    w2 := Next(w1, ProcessTick(now));
    ReceiveExecutes(w2, w1.s, t, v, now, cap);
    w3 := Next(w2, Receive(v));
    w4 := CancelIt(w3, t, v, now, cap);
  }

  lemma CancelIt(w3: World, t: QueuedTask, v: nat, now: int, cap: nat) returns (w4: World)
    requires Good(w3, cap, OrderlyRun) && Executing(w3.s, t, v)
    ensures Enabled(w3.s, CancelTask(t.id, now)) && w4 == Next(w3, CancelTask(t.id, now))
    ensures Canceled(w4.s, t, v) && w4.s.cfg == w3.s.cfg && w4.s.maxConcurrent == w3.s.maxConcurrent
    ensures w4.s.loads == Released(w3.s.loads, t.hosts, w3.s.cfg.perHost, now)
  {
    w4 := Next(w3, CancelTask(t.id, now));
    CancelWhileExecuting(w3, t, v, now);
    OnlyTask(w3.s, t, v);
  }

  // t is with the worker, unmarked, and there is no other task.
  ghost predicate Canceled(s: State, t: QueuedTask, v: nat) {
    && s.queue == [] && s.running == map[] && s.sleeping == []
    && CanFinish(s, v) && s.executing[v] == Some(t)
    && FreeSlots(s.chans) > 0 && WellFormed(s) && Accounted(s)
    && Tasks(s) == multiset{t}
  }

  lemma SecondEnqueue(w4: World, h: string, t: QueuedTask, u: string, v: nat, now: int) returns (w5: World)
    requires Canceled(w4.s, t, v) && t.id != u && !w4.spinning
    requires CanDispatch(w4.s.cfg, w4.s.maxConcurrent) && CanExecute([h], w4.s.loads, w4.s.cfg.perHost)
    ensures StepTo(w4, EnqueueTask(u, 0, [h], now), w5, FreshRun) && !w5.spinning
    ensures w5.s == w4.s.(queue := [NewTask(u, 0, [h], now)])
    ensures Quiet(w5.s, NewTask(u, 0, [h], now)) && Accounted(w5.s)
  {
    w5 := Next(w4, EnqueueTask(u, 0, [h], now));
    IdleIsNotThrottled(w5.s);
  }

  lemma SecondHalf(w4: World, h: string, t: QueuedTask, u: string, v: nat, now: int) returns (es: seq<Event>, w7: World)
    requires Canceled(w4.s, t, v) && t.id != u && t.hosts == [h] && !w4.spinning
    requires CanDispatch(w4.s.cfg, w4.s.maxConcurrent) && CanExecute([h], w4.s.loads, w4.s.cfg.perHost)
    ensures Leads(w4, es, w7, FreshRun)
    ensures w7.s.running == map[u := NewTask(u, 0, [h], now)] && Charges(w7.s.loads, h) == 0
  {
    var w5 := SecondEnqueue(w4, h, t, u, v, now);
    var w6;
    w6, w7 := SecondEnds(w5, h, t, u, v, now);
    es := ThreeSteps(w4, EnqueueTask(u, 0, [h], now), w5, ProcessTick(now), w6, Finished(v, true, now), w7);
  }

  lemma ThreeSteps(w4: World, e4: Event, w5: World, e5: Event, w6: World, e6: Event, w7: World)
    returns (es: seq<Event>)
    requires StepTo(w4, e4, w5, FreshRun) && StepTo(w5, e5, w6, FreshRun) && StepTo(w6, e6, w7, FreshRun)
    ensures Leads(w4, es, w7, FreshRun)
  {
    LeadsCons(w6, e6, w7, [], w7, FreshRun);
    LeadsCons(w5, e5, w6, [e6] + [], w7, FreshRun);
    LeadsCons(w4, e4, w5, [e5] + ([e6] + []), w7, FreshRun);
    es := [e4] + ([e5] + ([e6] + []));
  }

  lemma SecondEnds(w5: World, h: string, t: QueuedTask, u: string, v: nat, now: int) returns (w6: World, w7: World)
    requires Quiet(w5.s, NewTask(u, 0, [h], now)) && Accounted(w5.s) && !w5.spinning
    requires FreeSlots(w5.s.chans) > 0 && CanFinish(w5.s, v) && w5.s.executing[v] == Some(t)
    requires t.id != u && t.hosts == [h]
    ensures StepTo(w5, ProcessTick(now), w6, FreshRun) && StepTo(w6, Finished(v, true, now), w7, FreshRun)
    ensures w7.s.running == map[u := NewTask(u, 0, [h], now)] && Charges(w7.s.loads, h) == 0
  {
    var task := NewTask(u, 0, [h], now);
    TickSends(w5, task, now);
    w6 := Next(w5, ProcessTick(now));
    SecondTaskSuffers(w5.s, t, task, v, now);
    w7 := Next(w6, Finished(v, true, now));
  }

}
