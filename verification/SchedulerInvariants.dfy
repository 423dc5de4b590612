// Where tasks are, what hosts are charged for, and how each step of the
// scheduler keeps both straight.
module SchedulerInvariants {
  import opened Common
  import opened TaskOrder
  import opened HostLoads
  import opened Workers
  import opened SchedulerModel
  import opened GreedyDispatch

  // ----- Bags of tasks -----

  ghost function AsBag(o: Option<QueuedTask>): multiset<QueuedTask> {
    if o.Some? then multiset{o.value} else multiset{}
  }

  ghost function Busy(executing: seq<Option<QueuedTask>>): multiset<QueuedTask> {
    if executing == [] then multiset{}
    else
      var n := |executing| - 1;
      Busy(executing[..n]) + AsBag(executing[n])
  }

  // Tasks handed to a worker: waiting in a channel or being executed.
  ghost function InFlight(s: State): multiset<QueuedTask> {
    Waiting(s.chans) + Busy(s.executing)
  }

  ghost function Ids(q: seq<QueuedTask>): multiset<string> {
    if q == [] then multiset{} else Ids(q[..|q| - 1]) + multiset{q[|q| - 1].id}
  }

  lemma CancelRight<T>(a: multiset<T>, b: multiset<T>, c: multiset<T>)
    requires a + c == b + c
    ensures a == b
  {
    forall x ensures a[x] == b[x] {
      assert (a + c)[x] == (b + c)[x];
    }
  }

  lemma BagAssoc<T>(a: multiset<T>, b: multiset<T>, c: multiset<T>)
    ensures (a + b) + c == a + (b + c)
  {}

  lemma BagSwap<T>(a: multiset<T>, b: multiset<T>, c: multiset<T>)
    ensures (a + b) + c == (a + c) + b
    ensures a + (b + c) == (a + c) + b
  {}

  lemma BagMove<T>(a: multiset<T>, b: multiset<T>, c: multiset<T>, t: multiset<T>)
    ensures (a + t) + b + c == a + (b + t) + c
    ensures (a + t) + b + c == a + b + (c + t)
  {}

  lemma BagSwapLeft<T>(a: multiset<T>, b: multiset<T>, c: multiset<T>)
    ensures a + (b + c) == b + (a + c)
  {}

  lemma BagExchange<T>(p: multiset<T>, a: multiset<T>, q: multiset<T>, b: multiset<T>, x: multiset<T>)
    requires p + a == q + b
    ensures (p + x) + a == (q + x) + b
  {
    BagSwap(p, x, a);
    BagSwap(q, x, b);
  }

  lemma BusyLast(executing: seq<Option<QueuedTask>>, n: nat)
    requires n == |executing| - 1
    ensures Busy(executing) == Busy(executing[..n]) + AsBag(executing[n])
  {}

  lemma {:induction false} BusyUpdate(executing: seq<Option<QueuedTask>>, w: nat, o: Option<QueuedTask>)
    requires w < |executing|
    ensures Busy(executing[w := o]) + AsBag(executing[w]) == Busy(executing) + AsBag(o)
  {
    var n := |executing| - 1;
    var d, p := executing[w := o], executing[..n];
    BusyLast(d, n);
    BusyLast(executing, n);
    if w == n {
      assert d[..n] == p;
      BagSwap(Busy(p), AsBag(o), AsBag(executing[n]));
    } else {
      assert d[..n] == p[w := o] && d[n] == executing[n] && p[w] == executing[w];
      BusyUpdate(p, w, o);
      BagExchange(Busy(p[w := o]), AsBag(p[w]), Busy(p), AsBag(o), AsBag(executing[n]));
    }
  }

  // The host occurrences of the tasks marked as running.
  ghost function HostBag(running: map<string, QueuedTask>): multiset<string>
    decreases |running|
  {
    if |running| == 0 then multiset{}
    else
      var k :| k in running;
      multiset(running[k].hosts) + HostBag(running - {k})
  }

  lemma {:induction false} HostBagWithout(running: map<string, QueuedTask>, k: string)
    requires k in running
    ensures HostBag(running) == multiset(running[k].hosts) + HostBag(running - {k})
    decreases |running|
  {
    var j :| j in running && HostBag(running) == multiset(running[j].hosts) + HostBag(running - {j});
    if j != k {
      HostBagWithout(running - {j}, k);
      HostBagWithout(running - {k}, j);
      assert running - {j} - {k} == running - {k} - {j};
      BagSwapLeft(multiset(running[j].hosts), multiset(running[k].hosts), HostBag(running - {j} - {k}));
    }
  }

  lemma HostBagWith(running: map<string, QueuedTask>, t: QueuedTask)
    requires t.id !in running
    ensures HostBag(running[t.id := t]) == multiset(t.hosts) + HostBag(running)
  {
    HostBagWithout(running[t.id := t], t.id);
    assert running[t.id := t] - {t.id} == running;
  }

  lemma IdsSnoc(p: seq<QueuedTask>, t: QueuedTask)
    ensures Ids(p + [t]) == Ids(p) + multiset{t.id}
  {
    assert (p + [t])[..|p|] == p;
  }

  lemma {:induction false} IdsConcat(p: seq<QueuedTask>, q: seq<QueuedTask>)
    ensures Ids(p + q) == Ids(p) + Ids(q)
  {
    if q == [] {
      assert p + q == p;
    } else {
      var n := |q| - 1;
      var r, t := q[..n], q[n];
      assert q == r + [t];
      IdsConcat(p, r);
      assert p + q == (p + r) + [t];
      IdsSnoc(p + r, t);
      IdsSnoc(r, t);
      BagAssoc(Ids(p), Ids(r), multiset{t.id});
    }
  }

  lemma SpliceIds(a: seq<QueuedTask>, t: QueuedTask, b: seq<QueuedTask>)
    ensures Ids(a + [t] + b) == Ids(a + b) + multiset{t.id}
  {
    IdsConcat(a + [t], b);
    IdsSnoc(a, t);
    IdsConcat(a, b);
    BagSwap(Ids(a), multiset{t.id}, Ids(b));
  }

  lemma InsertCut(q: seq<QueuedTask>, t: QueuedTask) returns (a: seq<QueuedTask>, b: seq<QueuedTask>)
    ensures q == a + b && Insert(q, t) == a + [t] + b
  {
    var k := InsertSplits(q, t);
    a, b := q[..k], q[k..];
  }

  lemma WithoutCut(q: seq<QueuedTask>, i: nat) returns (a: seq<QueuedTask>, b: seq<QueuedTask>)
    requires i < |q|
    ensures q == a + [q[i]] + b && Without(q, i) == a + b
  {
    a, b := q[..i], q[i + 1..];
  }

  lemma InsertIds(q: seq<QueuedTask>, t: QueuedTask)
    ensures Ids(Insert(q, t)) == Ids(q) + multiset{t.id}
  {
    var a, b := InsertCut(q, t);
    SpliceIds(a, t, b);
  }

  lemma WithoutIds(q: seq<QueuedTask>, i: nat)
    requires i < |q|
    ensures Ids(q) == Ids(Without(q, i)) + multiset{q[i].id}
  {
    var a, b := WithoutCut(q, i);
    SpliceIds(a, q[i], b);
  }

  lemma {:induction false} IdsAre(q: seq<QueuedTask>, id: string)
    ensures id in Ids(q) <==> HasId(q, id)
  {
    if q != [] {
      var n := |q| - 1;
      IdsAre(q[..n], id);
      if HasId(q, id) && q[n].id != id {
        var i :| 0 <= i < |q| && q[i].id == id;
        assert q[..n][i].id == id;
      }
      if HasId(q[..n], id) {
        var i :| 0 <= i < n && q[..n][i].id == id;
        assert q[i].id == id;
      }
    }
  }

  // ----- Invariants of the manager's state -----

  ghost predicate KeyedById(running: map<string, QueuedTask>) {
    forall k :: k in running ==> running[k].id == k
  }

  // All live task IDs, with multiplicity.
  ghost function LiveIds(s: State): multiset<string> {
    Ids(s.queue) + Ids(s.sleeping) + multiset(s.running.Keys)
  }

  ghost predicate AtMostOnce(b: multiset<string>) {
    forall id :: b[id] <= 1
  }

  // Every live ID is in one place only, and the tasks marked as running are
  // exactly those handed to a worker and not finished.
  ghost predicate Placed(s: State) {
    && KeyedById(s.running)
    && AtMostOnce(LiveIds(s))
    && InFlight(s) == multiset(s.running.Values)
  }

  // Each host is charged once for every occurrence in a running task's list.
  ghost predicate Accounted(s: State) {
    forall h :: Charges(s.loads, h) == HostBag(s.running)[h]
  }

  // Holds in every state, whatever was cancelled or enqueued again: the tasks
  // marked as running are in the hands of workers, and there are at most cap.
  ghost predicate Loose(s: State, cap: nat) {
    && WellFormed(s)
    && KeyedById(s.running)
    && multiset(s.running.Values) <= InFlight(s)
    && s.maxConcurrent <= cap
    && |s.running| <= cap
  }

  ghost predicate Core(s: State, cap: nat) {
    Loose(s, cap) && Placed(s) && Accounted(s)
  }

  // ----- Running set against in-flight bag -----

  lemma RangeWith(running: map<string, QueuedTask>, t: QueuedTask)
    requires t.id !in running
    ensures running[t.id := t].Values == running.Values + {t}
  {
    var r := running[t.id := t];
    forall v | v in r.Values ensures v in running.Values + {t} {
      var k :| k in r && r[k] == v;
      if k != t.id { assert running[k] == v; }
    }
    forall v | v in running.Values ensures v in r.Values {
      var k :| k in running && running[k] == v;
      assert r[k] == v;
    }
    assert r[t.id] == t;
  }

  lemma ValuesWith(running: map<string, QueuedTask>, t: QueuedTask)
    requires KeyedById(running) && t.id !in running
    ensures KeyedById(running[t.id := t])
    ensures multiset(running[t.id := t].Values) == multiset(running.Values) + multiset{t}
    ensures |running[t.id := t]| == |running| + 1
  {
    RangeWith(running, t);
    assert t !in running.Values;
    assert running[t.id := t].Keys == running.Keys + {t.id};
  }

  lemma ValuesWithout(running: map<string, QueuedTask>, t: QueuedTask)
    requires KeyedById(running) && t in running.Values
    ensures t.id in running && running[t.id] == t
    ensures KeyedById(running - {t.id})
    ensures multiset((running - {t.id}).Values) == multiset(running.Values) - multiset{t}
    ensures |running - {t.id}| == |running| - 1
  {
    var r := running - {t.id};
    assert r[t.id := t] == running;
    ValuesWith(r, t);
  }

  lemma {:induction false} ValuesCount(running: map<string, QueuedTask>)
    requires KeyedById(running)
    ensures |multiset(running.Values)| == |running|
    decreases |running|
  {
    if |running| > 0 {
      var k :| k in running;
      var r := running - {k};
      ValuesCount(r);
      assert r[k := running[k]] == running;
      ValuesWith(r, running[k]);
      assert |multiset(running.Values)| == |multiset(r.Values) + multiset{running[k]}|;
    } else {
      assert running == map[];
      assert running.Values == {};
    }
  }

  // Pigeonhole on the channels: while the cap is not reached and the channels
  // together can hold the cap, some channel has a free slot.
  lemma RoomForOneMore(s: State, cap: nat)
    requires Core(s, cap) && cap <= CHANNEL_CAPACITY * |s.chans| && |s.running| < s.maxConcurrent
    ensures FreeSlots(s.chans) > 0
  {
    ValuesCount(s.running);
    assert |InFlight(s)| == |Waiting(s.chans)| + |Busy(s.executing)|;
  }

  // ----- One dispatch -----

  lemma LiveOnce(s: State, id: string)
    requires AtMostOnce(LiveIds(s))
    ensures id in Ids(s.queue) ==> id !in s.running && id !in Ids(s.sleeping)
    ensures id in Ids(s.sleeping) ==> id !in s.running && id !in Ids(s.queue)
  {
    assert LiveIds(s)[id] == Ids(s.queue)[id] + Ids(s.sleeping)[id] + multiset(s.running.Keys)[id];
  }

  lemma QueuedIsNotRunning(s: State, i: nat)
    requires AtMostOnce(LiveIds(s)) && i < |s.queue|
    ensures s.queue[i].id !in s.running
  {
    IdsAre(s.queue, s.queue[i].id);
    LiveOnce(s, s.queue[i].id);
  }

  lemma SendFlight(s: State, i: nat, now: int, w: nat)
    requires w < |s.chans| && i < |s.queue|
    ensures var n := Send(Dispatch(s, i, now), s.queue[i], w);
            InFlight(n) == InFlight(s) + multiset{s.queue[i]}
  {
    var t := s.queue[i];
    WaitingUpdate(s.chans, w, s.chans[w] + [t]);
    var x := Waiting(s.chans[w := s.chans[w] + [t]]);
    assert x + multiset(s.chans[w]) == (Waiting(s.chans) + multiset{t}) + multiset(s.chans[w]);
    CancelRight(x, Waiting(s.chans) + multiset{t}, multiset(s.chans[w]));
  }

  lemma DispatchCharges(s: State, i: nat, now: int)
    requires i < |s.queue| && s.queue[i].id !in s.running
    ensures var d := Dispatch(s, i, now);
            && (forall h :: Charges(d.loads, h) == Charges(s.loads, h) + multiset(s.queue[i].hosts)[h])
            && HostBag(d.running) == multiset(s.queue[i].hosts) + HostBag(s.running)
  {
    var t := s.queue[i];
    HostBagWith(s.running, t);
    var touched := Touched(t.hosts, s.loads, s.cfg.perHost, now);
    TouchedIsSame(t.hosts, s.loads, s.cfg.perHost, now);
    ChargedCharges(touched, t.hosts, s.cfg.perHost, now);
  }

  lemma KeysWith(running: map<string, QueuedTask>, t: QueuedTask)
    requires t.id !in running
    ensures multiset(running[t.id := t].Keys) == multiset(running.Keys) + multiset{t.id}
  {
    assert running[t.id := t].Keys == running.Keys + {t.id};
  }

  lemma KeysWithout(running: map<string, QueuedTask>, id: string)
    requires id in running
    ensures multiset(running.Keys) == multiset((running - {id}).Keys) + multiset{id}
  {
    assert running.Keys == (running - {id}).Keys + {id};
  }

  lemma DispatchLive(s: State, i: nat, now: int, w: nat)
    requires w < |s.chans| && i < |s.queue| && s.queue[i].id !in s.running
    ensures LiveIds(Send(Dispatch(s, i, now), s.queue[i], w)) == LiveIds(s)
  {
    var t := s.queue[i];
    WithoutIds(s.queue, i);
    KeysWith(s.running, t);
    BagMove(Ids(Without(s.queue, i)), Ids(s.sleeping), multiset(s.running.Keys), multiset{t.id});
  }

  lemma DispatchPlaces(s: State, i: nat, now: int, w: nat)
    requires Placed(s) && w < |s.chans| && i < |s.queue|
    ensures var n := Send(Dispatch(s, i, now), s.queue[i], w);
            && Placed(n)
            && LiveIds(n) == LiveIds(s)
            && |n.running| == |s.running| + 1
  {
    QueuedIsNotRunning(s, i);
    DispatchLive(s, i, now, w);
    SendFlight(s, i, now, w);
    ValuesWith(s.running, s.queue[i]);
  }

  // Tasks on which StartTask is not being called right now.
  ghost function Idle(s: State): multiset<QueuedTask> {
    multiset(s.queue) + multiset(s.sleeping) + Waiting(s.chans)
  }

  // The queue pass only moves tasks from the queue to the channels.
  lemma DispatchMoves(s: State, i: nat, now: int, w: nat)
    requires i < |s.queue| && w < |s.chans|
    ensures Idle(Send(Dispatch(s, i, now), s.queue[i], w)) == Idle(s)
  {
    var t := s.queue[i];
    var n := Send(Dispatch(s, i, now), t, w);
    WithoutKeepsOrder(s.queue, i);
    SendFlight(s, i, now, w);
    BagSwap(Waiting(s.chans), Busy(s.executing), multiset{t});
    CancelRight(Waiting(n.chans), Waiting(s.chans) + multiset{t}, Busy(s.executing));
    BagMove(multiset(n.queue), multiset(s.sleeping), Waiting(s.chans), multiset{t});
  }

  // ----- What a queue pass keeps, put-backs included -----

  // All tasks the manager has not let go of.
  ghost function Tasks(s: State): multiset<QueuedTask> {
    Idle(s) + Busy(s.executing)
  }

  ghost predicate DistinctTasks(tasks: multiset<QueuedTask>) {
    forall t, u :: t in tasks && u in tasks && t.id == u.id ==> t == u && tasks[t] == 1
  }

  // No host is charged more than its running tasks account for.
  ghost predicate Undercharged(s: State) {
    forall h :: Charges(s.loads, h) <= HostBag(s.running)[h]
  }

  // Three strengths of the invariant: for runs without any assumption, for
  // runs in which no live ID is enqueued again, and for runs in which, besides,
  // no running task is cancelled.
  datatype Mode = AnyRun | FreshRun | OrderlyRun

  ghost predicate Holds(s: State, cap: nat, mode: Mode) {
    && Loose(s, cap)
    && (mode.FreshRun? ==> DistinctTasks(Tasks(s)) && Undercharged(s))
    && (mode.OrderlyRun? ==> Placed(s) && Accounted(s))
  }

  // n is a state that a queue pass may go through when it starts from s: tasks
  // only move from the queue to the channels.
  ghost predicate Follows(s: State, n: State, cap: nat, mode: Mode) {
    && Holds(n, cap, mode)
    && Moved(s, n)
    && (mode.OrderlyRun? ==> LiveIds(n) == LiveIds(s))
  }

  ghost predicate Moved(s: State, n: State) {
    && Idle(n) == Idle(s)
    && n.executing == s.executing && n.sleeping == s.sleeping
    && |n.chans| == |s.chans|
    && n.cfg == s.cfg && n.maxConcurrent == s.maxConcurrent
    && multiset(n.queue) <= multiset(s.queue)
  }

  lemma FollowsTrans(s: State, m: State, n: State, cap: nat, mode: Mode)
    requires Follows(s, m, cap, mode) && Follows(m, n, cap, mode)
    ensures Follows(s, n, cap, mode)
  {}

  // The three ways one iteration goes on.

  lemma SkipFollows(s: State, i: nat, now: int, cap: nat, mode: Mode)
    requires Holds(s, cap, mode) && i < |s.queue|
    ensures Follows(s, SkipAt(s, i, now), cap, mode)
  {
    TouchedIsSame(s.queue[i].hosts, s.loads, s.cfg.perHost, now);
    ChargesOnly(s, SkipAt(s, i, now), cap, mode);
  }

  lemma ChargesOnly(s: State, n: State, cap: nat, mode: Mode)
    requires Holds(s, cap, mode) && n == s.(loads := n.loads) && NonNegative(n.loads)
    requires forall h :: Charges(n.loads, h) == Charges(s.loads, h)
    ensures Follows(s, n, cap, mode)
  {
    assert mode.OrderlyRun? ==> Placed(n);
  }

  // The adaptive cap never passes 100, or its initial value if that is higher.
  lemma CapOnly(s: State, n: State, cap: nat, mode: Mode)
    requires Holds(s, cap, mode) && n == s.(maxConcurrent := n.maxConcurrent) && n.maxConcurrent <= cap
    ensures Holds(n, cap, mode) && Idle(n) == Idle(s) && LiveIds(n) == LiveIds(s)
  {
    assert Tasks(n) == Tasks(s) && InFlight(n) == InFlight(s);
    if mode.OrderlyRun? {
      assert Placed(n);
    }
  }

  lemma RangeWithin(running: map<string, QueuedTask>, t: QueuedTask)
    ensures multiset(running[t.id := t].Values) <= multiset(running.Values) + multiset{t}
    ensures |running[t.id := t]| <= |running| + 1
  {
    var r := running[t.id := t];
    forall v | v in r.Values ensures v in running.Values || v == t {
      var k :| k in r && r[k] == v;
      if k != t.id { assert running[k] == v; }
    }
    assert r.Keys == running.Keys + {t.id};
  }

  lemma RangeWithout(running: map<string, QueuedTask>, id: string)
    ensures multiset((running - {id}).Values) <= multiset(running.Values)
    ensures |running - {id}| <= |running|
  {
    forall v | v in (running - {id}).Values ensures v in running.Values {
      var k :| k in running - {id} && (running - {id})[k] == v;
      assert running[k] == v;
    }
    assert (running - {id}).Keys <= running.Keys;
    SubsetSize((running - {id}).Keys, running.Keys);
  }

  lemma SubsetSize<T>(a: set<T>, b: set<T>)
    requires a <= b
    ensures |a| <= |b|
  {
    assert b == a + (b - a);
  }

  lemma SendLoose(s: State, i: nat, now: int, cap: nat)
    requires Loose(s, cap) && |s.running| < s.maxConcurrent && ExecutableAt(s, i) && FreeSlots(s.chans) > 0
    ensures Loose(Send(Dispatch(s, i, now), s.queue[i], LeastBusy(s.chans)), cap)
  {
    ScanOnSend(s, i, now);
    SendFlight(s, i, now, LeastBusy(s.chans));
    RangeWithin(s.running, s.queue[i]);
  }

  // A running task is a second task with its ID beside a queued namesake.
  lemma RunningIsTask(s: State, i: nat)
    requires multiset(s.running.Values) <= InFlight(s)
    requires i < |s.queue| && s.queue[i].id in s.running
    ensures var t, u := s.queue[i], s.running[s.queue[i].id];
            t in Tasks(s) && u in Tasks(s) && (t == u ==> Tasks(s)[t] >= 2)
  {
    var t, u := s.queue[i], s.running[s.queue[i].id];
    assert u in s.running.Values && multiset(s.running.Values)[u] == 1;
    assert InFlight(s)[u] >= 1 && multiset(s.queue)[t] >= 1;
    assert Tasks(s)[u] == multiset(s.queue)[u] + multiset(s.sleeping)[u] + InFlight(s)[u];
  }

  lemma DistinctIsNotRunning(s: State, i: nat)
    requires DistinctTasks(Tasks(s)) && multiset(s.running.Values) <= InFlight(s) && KeyedById(s.running)
    requires i < |s.queue|
    ensures s.queue[i].id !in s.running
  {
    if s.queue[i].id in s.running {
      RunningIsTask(s, i);
      assert false;
    }
  }

  lemma SendMoved(s: State, i: nat, now: int, w: nat)
    requires i < |s.queue| && w < |s.chans|
    ensures Moved(s, Send(Dispatch(s, i, now), s.queue[i], w))
  {
    DispatchMoves(s, i, now, w);
    WithoutKeepsOrder(s.queue, i);
  }

  lemma SendFresh(s: State, i: nat, now: int, w: nat)
    requires Undercharged(s) && i < |s.queue| && w < |s.chans| && s.queue[i].id !in s.running
    ensures Undercharged(Send(Dispatch(s, i, now), s.queue[i], w))
  {
    DispatchCharges(s, i, now);
  }

  lemma SendOrderly(s: State, i: nat, now: int, w: nat)
    requires Placed(s) && Accounted(s) && i < |s.queue| && w < |s.chans|
    ensures var n := Send(Dispatch(s, i, now), s.queue[i], w);
            Placed(n) && Accounted(n) && LiveIds(n) == LiveIds(s)
  {
    QueuedIsNotRunning(s, i);
    DispatchCharges(s, i, now);
    DispatchPlaces(s, i, now, w);
  }

  lemma SendFollows(s: State, i: nat, now: int, cap: nat, mode: Mode)
    requires Holds(s, cap, mode) && |s.running| < s.maxConcurrent && ExecutableAt(s, i) && FreeSlots(s.chans) > 0
    ensures Follows(s, Send(Dispatch(s, i, now), s.queue[i], LeastBusy(s.chans)), cap, mode)
  {
    var w := LeastBusy(s.chans);
    SendLoose(s, i, now, cap);
    SendMoved(s, i, now, w);
    if mode.FreshRun? {
      DistinctIsNotRunning(s, i);
      SendFresh(s, i, now, w);
    } else if mode.OrderlyRun? {
      SendOrderly(s, i, now, w);
    }
  }

  lemma PutBackCharges(s: State, i: nat, now: int)
    requires i < |s.queue| && NonNegative(s.loads)
    ensures var b := PutBack(Dispatch(s, i, now), s.queue[i], now);
            NonNegative(b.loads) && forall h :: Charges(b.loads, h) == Charges(s.loads, h)
  {
    PutBackLoads(s.queue[i].hosts, s.loads, s.cfg.perHost, now);
  }

  lemma PutBackIds(q: seq<QueuedTask>, i: nat)
    requires i < |q|
    ensures Ids([q[i]] + Without(q, i)) == Ids(q)
  {
    WithoutIds(q, i);
    SpliceIds([], q[i], Without(q, i));
    assert [] + [q[i]] + Without(q, i) == [q[i]] + Without(q, i);
    assert [] + Without(q, i) == Without(q, i);
  }

  lemma PutBackBag(q: seq<QueuedTask>, i: nat)
    requires i < |q|
    ensures multiset([q[i]] + Without(q, i)) == multiset(q)
  {
    WithoutKeepsOrder(q, i);
  }

  lemma MarkedAndUnmarked(running: map<string, QueuedTask>, t: QueuedTask)
    ensures running[t.id := t] - {t.id} == running - {t.id}
    ensures t.id !in running ==> running - {t.id} == running
  {}

  // What a put-back leaves as it was.
  lemma PutBackParts(s: State, i: nat, now: int) returns (b: State)
    requires i < |s.queue|
    ensures b == PutBack(Dispatch(s, i, now), s.queue[i], now)
    ensures multiset(b.queue) == multiset(s.queue) && Ids(b.queue) == Ids(s.queue)
    ensures b.running == s.running - {s.queue[i].id}
    ensures s.queue[i].id !in s.running ==> b.running == s.running
    ensures b == s.(queue := b.queue, running := b.running, loads := b.loads)
  {
    b := PutBack(Dispatch(s, i, now), s.queue[i], now);
    PutBackIds(s.queue, i);
    PutBackBag(s.queue, i);
    MarkedAndUnmarked(s.running, s.queue[i]);
    assert b.queue == [s.queue[i]] + Without(s.queue, i);
  }

  lemma PutBackLoose(s: State, b: State, id: string, cap: nat)
    requires Loose(s, cap) && NonNegative(b.loads)
    requires b.running == s.running - {id} && b.chans == s.chans && b.executing == s.executing
    requires b.maxConcurrent == s.maxConcurrent
    ensures Loose(b, cap)
  {
    RangeWithout(s.running, id);
  }

  // A state with the same tasks in the same places and the same charges.
  lemma SameTasks(s: State, b: State, cap: nat, mode: Mode)
    requires Holds(s, cap, mode) && Loose(b, cap)
    requires b == s.(queue := b.queue, running := b.running, loads := b.loads)
    requires multiset(b.queue) == multiset(s.queue) && Ids(b.queue) == Ids(s.queue)
    requires forall h :: Charges(b.loads, h) == Charges(s.loads, h)
    requires !mode.AnyRun? ==> b.running == s.running
    ensures Follows(s, b, cap, mode)
  {
    assert Idle(b) == Idle(s);
    if mode.OrderlyRun? {
      assert Placed(b);
    }
  }

  lemma NotRunning(s: State, i: nat, cap: nat, mode: Mode)
    requires Holds(s, cap, mode) && i < |s.queue|
    ensures !mode.AnyRun? ==> s.queue[i].id !in s.running
  {
    if mode.FreshRun? {
      DistinctIsNotRunning(s, i);
    } else if mode.OrderlyRun? {
      QueuedIsNotRunning(s, i);
    }
  }

  lemma PutBackFollows(s: State, i: nat, now: int, cap: nat, mode: Mode) returns (b: State)
    requires Holds(s, cap, mode) && i < |s.queue|
    ensures b == PutBack(Dispatch(s, i, now), s.queue[i], now) && Follows(s, b, cap, mode)
  {
    NotRunning(s, i, cap, mode);
    PutBackCharges(s, i, now);
    b := PutBackParts(s, i, now);
    PutBackLoose(s, b, s.queue[i].id, cap);
    SameTasks(s, b, cap, mode);
  }

  // One iteration: the scan ends in n, or goes on from n at index j.
  lemma FollowStep(s: State, i: nat, now: int, cap: nat, mode: Mode) returns (n: State, j: nat, ends: bool)
    requires Holds(s, cap, mode) && i < |s.queue| && |s.running| < s.maxConcurrent
    ensures Follows(s, n, cap, mode) && j <= |n.queue|
    ensures ends ==> Scan(s, i, now).state == n
    ensures !ends ==> Scan(s, i, now).state == Scan(n, j, now).state
    ensures !ends ==> |n.queue| - j < |s.queue| - i
                      || (|n.queue| - j == |s.queue| - i && ExecutableAt(s, i) && !ExecutableAt(n, j))
  {
    LeastBusyFull(s.chans);
    if !ExecutableAt(s, i) {
      n, j, ends := SkipAt(s, i, now), i + 1, false;
      ScanSkips(s, i, now);
      SkipFollows(s, i, now, cap, mode);
    } else if FreeSlots(s.chans) > 0 {
      n, j, ends := Send(Dispatch(s, i, now), s.queue[i], LeastBusy(s.chans)), i, false;
      SendFollows(s, i, now, cap, mode);
      ScanOnSend(s, i, now);
    } else {
      n := PutBackFollows(s, i, now, cap, mode);
      j, ends := i, ExecutableAt(n, i);
      DispatchTarget(s, i, now);
      ScanPutsBack(s, i, now);
    }
  }

  // From every state, however full the channels are, a pass keeps the invariant.
  lemma {:induction false} ScanFollows(s: State, i: nat, now: int, cap: nat, mode: Mode) returns (r: State)
    requires Holds(s, cap, mode) && i <= |s.queue|
    ensures r == Scan(s, i, now).state && Follows(s, r, cap, mode)
    decreases |s.queue| - i, ExecutableAt(s, i)
  {
    if i >= |s.queue| || |s.running| >= s.maxConcurrent {
      r := s;
    } else {
      var n, j, ends := FollowStep(s, i, now, cap, mode);
      if ends {
        r := n;
      } else {
        r := ScanFollows(n, j, now, cap, mode);
        FollowsTrans(s, n, r, cap, mode);
      }
    }
  }

  // ----- A pass when the channels have room -----

  // Besides the invariant: the queue is sorted, and the channels hold the cap.
  ghost predicate Roomy(s: State, cap: nat) {
    Core(s, cap) && Sorted(s.queue) && cap <= CHANNEL_CAPACITY * |s.chans|
  }

  // r is the result of a queue pass that met no full channel and came to an end.
  ghost predicate Clean(r: ScanResult, cap: nat) {
    !r.overflow && !r.stuck && Roomy(r.state, cap)
  }

  // The scan goes on from another state and index.
  lemma CleanStep(s: State, i: nat, now: int, cap: nat) returns (n: State, j: nat)
    requires Roomy(s, cap) && i < |s.queue| && |s.running| < s.maxConcurrent
    ensures Roomy(n, cap) && j <= |n.queue| && |n.queue| - j < |s.queue| - i
    ensures Scan(s, i, now) == Scan(n, j, now)
  {
    if !ExecutableAt(s, i) {
      n, j := SkipAt(s, i, now), i + 1;
      ScanSkips(s, i, now);
      SkipFollows(s, i, now, cap, OrderlyRun);
    } else {
      RoomForOneMore(s, cap);
      n, j := Send(Dispatch(s, i, now), s.queue[i], LeastBusy(s.chans)), i;
      SendFollows(s, i, now, cap, OrderlyRun);
      WithoutKeepsOrder(s.queue, i);
      ScanOnSend(s, i, now);
    }
  }

  // In such a state a pass of the queue processor never meets a full channel,
  // always ends, and leaves such a state.
  lemma {:induction false} ScanIsClean(s: State, i: nat, now: int, cap: nat) returns (r: ScanResult)
    requires Roomy(s, cap) && i <= |s.queue|
    ensures r == Scan(s, i, now) && Clean(r, cap)
    decreases |s.queue| - i
  {
    if i >= |s.queue| || |s.running| >= s.maxConcurrent {
      r := Scan(s, i, now);
    } else {
      var n, j := CleanStep(s, i, now, cap);
      r := ScanIsClean(n, j, now, cap);
    }
  }

  // ----- The other steps -----

  lemma EnqueueLive(s: State, id: string, priority: int, hosts: seq<string>, now: int)
    requires EnqueueOutcome(s, id) == Accepted
    ensures LiveIds(Enqueue(s, id, priority, hosts, now)) == LiveIds(s) + multiset{id}
  {
    InsertIds(s.queue, NewTask(id, priority, hosts, now));
    BagSwap(Ids(s.queue), multiset{id}, Ids(s.sleeping));
    BagSwap(Ids(s.queue) + Ids(s.sleeping), multiset{id}, multiset(s.running.Keys));
  }

  lemma OneMoreOnce(b: multiset<string>, id: string)
    requires AtMostOnce(b)
    ensures AtMostOnce(b + multiset{id}) <==> id !in b
  {
    if AtMostOnce(b + multiset{id}) {
      assert (b + multiset{id})[id] <= 1;
    }
  }

  lemma EnqueuePlaces(s: State, id: string, priority: int, hosts: seq<string>, now: int)
    requires Placed(s)
    requires EnqueueOutcome(s, id) == Accepted && id !in Ids(s.sleeping)
    ensures var n := Enqueue(s, id, priority, hosts, now);
            Placed(n) && LiveIds(n) == LiveIds(s) + multiset{id}
  {
    EnqueueLive(s, id, priority, hosts, now);
    IdsAre(s.queue, id);
    OneMoreOnce(LiveIds(s), id);
  }

  // The duplicate check does not look at sleeping tasks. An accepted task keeps
  // every live ID in one place exactly when its ID is not asleep.
  lemma EnqueuePlacesExactly(s: State, id: string, priority: int, hosts: seq<string>, now: int)
    requires Placed(s) && EnqueueOutcome(s, id) == Accepted
    ensures Placed(Enqueue(s, id, priority, hosts, now)) <==> id !in Ids(s.sleeping)
  {
    if id !in Ids(s.sleeping) {
      EnqueuePlaces(s, id, priority, hosts, now);
    } else {
      EnqueueLive(s, id, priority, hosts, now);
      OneMoreOnce(LiveIds(s), id);
    }
  }

  // In a sorted queue a newly accepted task stands right behind the tasks that
  // are not served after it.
  lemma NewTaskPosition(s: State, id: string, priority: int, hosts: seq<string>, now: int)
    requires Sorted(s.queue) && EnqueueOutcome(s, id) == Accepted
    ensures var q := Enqueue(s, id, priority, hosts, now).queue;
            HasId(q, id) && FirstIndex(q, id) == |Ahead(s.queue, NewTask(id, priority, hosts, now))|
  {
    var t := NewTask(id, priority, hosts, now);
    InsertPosition(s.queue, t);
    var q, a := Insert(s.queue, t), |Ahead(s.queue, t)|;
    assert q[a].id == id;
    forall i | 0 <= i < |q| && i != a ensures q[i].id != id {
      if i < a {
        OneOfInserted(s.queue, t, i);
      } else {
        assert q[i] == s.queue[i - 1];
      }
    }
  }

  lemma OneOfInserted(q: seq<QueuedTask>, t: QueuedTask, i: nat)
    requires Sorted(q) && i < |Ahead(q, t)|
    ensures i < |q| && i < |Insert(q, t)| && Insert(q, t)[i] == q[i]
  {
    var k := InsertSplits(q, t);
    InsertPosition(q, t);
    forall j | k <= j < |q| ensures Before(t, q[j]) {
      if j > k { assert !Before(q[j], q[k]); }
    }
    AheadOfBlock(q, t, k);
  }

  lemma EnqueueKeepsCore(s: State, id: string, priority: int, hosts: seq<string>, now: int, cap: nat)
    requires Core(s, cap)
    requires EnqueueOutcome(s, id) == Accepted && id !in Ids(s.sleeping)
    ensures var n := Enqueue(s, id, priority, hosts, now);
            Core(n, cap) && LiveIds(n) == LiveIds(s) + multiset{id}
  {
    EnqueuePlaces(s, id, priority, hosts, now);
  }

  lemma WakePlaces(s: State, k: nat)
    requires Placed(s) && k < |s.sleeping|
    ensures Placed(Wake(s, k)) && LiveIds(Wake(s, k)) == LiveIds(s)
  {
    InsertIds(s.queue, s.sleeping[k]);
    WithoutIds(s.sleeping, k);
    assert LiveIds(Wake(s, k)) == LiveIds(s);
  }

  lemma WakeKeepsCore(s: State, k: nat, cap: nat)
    requires Core(s, cap) && k < |s.sleeping|
    ensures Core(Wake(s, k), cap) && LiveIds(Wake(s, k)) == LiveIds(s)
  {
    WakePlaces(s, k);
  }

  lemma CancelPlaces(s: State, id: string, now: int)
    requires Placed(s) && HasId(s.queue, id)
    ensures var n := Cancel(s, id, now);
            Placed(n) && LiveIds(s) == LiveIds(n) + multiset{id}
  {
    var n := Cancel(s, id, now);
    WithoutIds(s.queue, FirstIndex(s.queue, id));
    assert LiveIds(s) == LiveIds(n) + multiset{id};
    forall x ensures LiveIds(n)[x] <= 1 {
      assert LiveIds(s)[x] <= 1;
    }
  }

  lemma CancelQueuedKeepsCore(s: State, id: string, now: int, cap: nat)
    requires Core(s, cap) && HasId(s.queue, id)
    ensures var n := Cancel(s, id, now);
            Core(n, cap) && LiveIds(s) == LiveIds(n) + multiset{id}
  {
    CancelPlaces(s, id, now);
  }

  lemma TakeFlight(s: State, w: nat)
    requires CanTake(s, w)
    ensures InFlight(Take(s, w)) == InFlight(s)
  {
    var n := Take(s, w);
    var t, c := s.chans[w][0], s.chans[w];
    assert c == [t] + c[1..];
    WaitingUpdate(s.chans, w, c[1..]);
    assert (Waiting(n.chans) + multiset{t}) + multiset(c[1..]) == Waiting(n.chans) + multiset(c);
    CancelRight(Waiting(n.chans) + multiset{t}, Waiting(s.chans), multiset(c[1..]));
    BusyUpdate(s.executing, w, Some(t));
    assert Busy(n.executing) == Busy(n.executing) + AsBag(s.executing[w]);
  }

  lemma TakeKeepsCore(s: State, w: nat, cap: nat)
    requires Core(s, cap) && CanTake(s, w)
    ensures Core(Take(s, w), cap) && LiveIds(Take(s, w)) == LiveIds(s)
  {
    TakeFlight(s, w);
    assert LiveIds(Take(s, w)) == LiveIds(s);
    assert Placed(Take(s, w));
  }

  lemma FinishFlight(s: State, w: nat, ok: bool, now: int)
    requires CanFinish(s, w)
    ensures InFlight(s) == InFlight(Finish(s, w, ok, now)) + multiset{s.executing[w].value}
  {
    var e := s.executing[w := None];
    BusyUpdate(s.executing, w, None);
    assert Busy(e) + multiset{s.executing[w].value} == Busy(s.executing);
    assert Waiting(s.chans) + Busy(s.executing) == (Waiting(s.chans) + Busy(e)) + multiset{s.executing[w].value};
  }

  // A task in the hands of a worker is marked as running.
  lemma ExecutingIsRunning(s: State, w: nat)
    requires Placed(s) && CanFinish(s, w)
    ensures var t := s.executing[w].value;
            t in s.running.Values && t.id in s.running && s.running[t.id] == t
  {
    FinishFlight(s, w, true, 0);
    var t := s.executing[w].value;
    assert t in InFlight(s);
    ValuesWithout(s.running, t);
  }

  // A finishing task is still marked as running, and its hosts still carry its
  // charges: the release is exact and the clamp at zero does not fire.
  lemma FinishIsExact(s: State, w: nat, ok: bool, now: int)
    requires Placed(s) && Accounted(s) && NonNegative(s.loads) && CanFinish(s, w)
    ensures var t := s.executing[w].value;
            && t.id in s.running && s.running[t.id] == t
            && forall h :: multiset(t.hosts)[h] <= Charges(s.loads, h)
    ensures Accounted(Finish(s, w, ok, now)) && NonNegative(Finish(s, w, ok, now).loads)
  {
    var t := s.executing[w].value;
    ExecutingIsRunning(s, w);
    HostBagWithout(s.running, t.id);
    ReleasedCharges(s.loads, t.hosts, s.cfg.perHost, now);
  }

  lemma BagOut<T>(q: multiset<T>, z: multiset<T>, r: multiset<T>, t: multiset<T>, all: multiset<T>)
    requires all == r + t
    ensures q + z + all == q + (z + t) + r
    ensures q + z + all == q + z + r + t
  {
    BagMove(q, z, r, t);
    BagAssoc(q + z, r, t);
  }

  lemma FinishIds(s: State, w: nat, ok: bool, now: int)
    requires CanFinish(s, w) && s.executing[w].value.id in s.running
    ensures var n, t := Finish(s, w, ok, now), s.executing[w].value;
            LiveIds(s) == if !ok && t.retries < t.maxRetries then LiveIds(n) else LiveIds(n) + multiset{t.id}
  {
    var t := s.executing[w].value;
    KeysWithout(s.running, t.id);
    BagOut(Ids(s.queue), Ids(s.sleeping), multiset((s.running - {t.id}).Keys), multiset{t.id},
           multiset(s.running.Keys));
    IdsSnoc(s.sleeping, t.(retries := t.retries + 1));
  }

  lemma FewerOnce(a: multiset<string>, b: multiset<string>, id: string)
    requires AtMostOnce(a) && (a == b || a == b + multiset{id})
    ensures AtMostOnce(b)
  {
    forall x ensures b[x] <= 1 {
      assert a[x] <= 1;
    }
  }

  lemma FinishPlaces(s: State, w: nat, ok: bool, now: int)
    requires Placed(s) && CanFinish(s, w)
    ensures var n := Finish(s, w, ok, now);
            Placed(n) && |n.running| == |s.running| - 1
  {
    var n, t := Finish(s, w, ok, now), s.executing[w].value;
    ExecutingIsRunning(s, w);
    FinishFlight(s, w, ok, now);
    ValuesWithout(s.running, t);
    CancelRight(InFlight(n), multiset(n.running.Values), multiset{t});
    FinishIds(s, w, ok, now);
    FewerOnce(LiveIds(s), LiveIds(n), t.id);
  }

  lemma FinishKeepsCore(s: State, w: nat, ok: bool, now: int, cap: nat)
    requires Core(s, cap) && CanFinish(s, w)
    ensures var n, t := Finish(s, w, ok, now), s.executing[w].value;
            && Core(n, cap)
            && LiveIds(s) == if !ok && t.retries < t.maxRetries then LiveIds(n) else LiveIds(n) + multiset{t.id}
  {
    FinishIsExact(s, w, ok, now);
    FinishPlaces(s, w, ok, now);
    FinishIds(s, w, ok, now);
  }

  // ----- Cancelling a task that is in flight -----

  // A task that is cancelled while it waits in a channel or is executed stays
  // where it is; only its mark and its charges go.
  lemma CancelledStaysInFlight(s: State, id: string, now: int)
    requires id in s.running && !HasId(s.queue, id)
    ensures var n := Cancel(s, id, now);
            && n.queue == s.queue && n.sleeping == s.sleeping && n.chans == s.chans && n.executing == s.executing
            && n.running == s.running - {id}
            && (Accounted(s) && NonNegative(s.loads) ==> Accounted(n))
  {
    HostBagWithout(s.running, id);
    if NonNegative(s.loads) {
      ReleasedCharges(s.loads, s.running[id].hosts, s.cfg.perHost, now);
    }
  }

  // When a worker finishes a task that is not marked as running, the hosts are
  // released a second time. In any state the accounting survives this exactly
  // when none of the task's hosts is used by a task that is marked as running.
  lemma FinishCancelledExactly(c: State, w: nat, ok: bool, now: int)
    requires Accounted(c) && NonNegative(c.loads) && CanFinish(c, w)
    requires c.executing[w].value.id !in c.running
    ensures Accounted(Finish(c, w, ok, now)) <==>
            forall h :: h in c.executing[w].value.hosts ==> HostBag(c.running)[h] == 0
  {
    var t := c.executing[w].value;
    ReleasedCharges(c.loads, t.hosts, c.cfg.perHost, now);
    assert c.running - {t.id} == c.running;
    ReleasedTwice(HostBag(c.running), t.hosts, c.loads, Finish(c, w, ok, now).loads);
  }

  // Releasing what is not charged leaves the charges right exactly if none of
  // the hosts carries a charge.
  lemma ReleasedTwice(bag: multiset<string>, hosts: seq<string>, a: LoadTable, b: LoadTable)
    requires forall h :: Charges(a, h) == bag[h]
    requires forall h :: Charges(b, h) ==
                         (if Charges(a, h) < multiset(hosts)[h] then 0 else Charges(a, h) - multiset(hosts)[h])
    ensures (forall h :: Charges(b, h) == bag[h]) <==> forall h :: h in hosts ==> bag[h] == 0
  {
    forall h ensures Charges(b, h) == bag[h] <==> (h in hosts ==> bag[h] == 0) {
      assert h in hosts <==> multiset(hosts)[h] > 0;
    }
  }

  // If another task with the same ID has been enqueued and sent in the
  // meantime, finishing the cancelled one removes the other's mark, and the
  // other goes on unmarked.
  lemma FinishUnmarksNamesake(c: State, w: nat, ok: bool, now: int, cap: nat)
    requires Loose(c, cap) && CanFinish(c, w)
    requires var t := c.executing[w].value; t.id in c.running && c.running[t.id] != t
    ensures var t, n := c.executing[w].value, Finish(c, w, ok, now);
            c.running[t.id] in InFlight(n) && t.id !in n.running
  {
    var t := c.executing[w].value;
    var u := c.running[t.id];
    FinishFlight(c, w, ok, now);
    assert u in c.running.Values && multiset(c.running.Values)[u] == 1;
    assert InFlight(c)[u] >= 1;
    assert InFlight(c)[u] == InFlight(Finish(c, w, ok, now))[u] + multiset{t}[u];
  }

}
