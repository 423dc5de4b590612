// What each step other than a queue pass does to the bags of tasks, and what it
// keeps when tasks in flight may be cancelled.
module SchedulerSteps {
  import opened Common
  import opened TaskOrder
  import opened HostLoads
  import opened Workers
  import opened SchedulerModel
  import opened GreedyDispatch
  import opened SchedulerInvariants

  // ----- Idle and busy tasks, step by step -----

  lemma InsertBag(q: seq<QueuedTask>, t: QueuedTask)
    ensures multiset(Insert(q, t)) == multiset(q) + multiset{t}
  {
    var a, b := InsertCut(q, t);
  }

  lemma EnqueueIdle(s: State, id: string, priority: int, hosts: seq<string>, now: int)
    requires EnqueueOutcome(s, id) == Accepted
    ensures Idle(Enqueue(s, id, priority, hosts, now)) == Idle(s) + multiset{NewTask(id, priority, hosts, now)}
  {
    var t := NewTask(id, priority, hosts, now);
    InsertBag(s.queue, t);
    BagSwap(multiset(s.queue), multiset{t}, multiset(s.sleeping));
    BagSwap(multiset(s.queue) + multiset(s.sleeping), multiset{t}, Waiting(s.chans));
  }

  lemma TakeBags(s: State, i: nat)
    requires CanTake(s, i)
    ensures var t := s.chans[i][0];
            && Idle(s) == Idle(Take(s, i)) + multiset{t}
            && Busy(Take(s, i).executing) == Busy(s.executing) + multiset{t}
            && Waiting(s.chans) == Waiting(Take(s, i).chans) + multiset{t}
  {
    var n := Take(s, i);
    var t, c := s.chans[i][0], s.chans[i];
    assert c == [t] + c[1..];
    WaitingUpdate(s.chans, i, c[1..]);
    assert (Waiting(n.chans) + multiset{t}) + multiset(c[1..]) == Waiting(n.chans) + multiset(c);
    CancelRight(Waiting(n.chans) + multiset{t}, Waiting(s.chans), multiset(c[1..]));
    BusyUpdate(s.executing, i, Some(t));
    assert Busy(n.executing) == Busy(n.executing) + AsBag(s.executing[i]);
  }

  // The task that a failed execution puts to sleep.
  function Retried(t: QueuedTask): QueuedTask {
    t.(retries := t.retries + 1)
  }

  lemma FinishIdle(s: State, w: nat, ok: bool, now: int)
    requires CanFinish(s, w)
    ensures var n, t := Finish(s, w, ok, now), s.executing[w].value;
            Idle(n) == (if !ok && t.retries < t.maxRetries then Idle(s) + multiset{Retried(t)} else Idle(s))
  {
    var t := s.executing[w].value;
    if !ok && t.retries < t.maxRetries {
      BagSwap(multiset(s.queue) + multiset(s.sleeping), multiset{Retried(t)}, Waiting(s.chans));
      BagAssoc(multiset(s.queue), multiset(s.sleeping), multiset{Retried(t)});
    }
  }

  lemma FinishBags(s: State, w: nat, ok: bool, now: int)
    requires CanFinish(s, w)
    ensures var n, t := Finish(s, w, ok, now), s.executing[w].value;
            && Busy(s.executing) == Busy(n.executing) + multiset{t}
            && Idle(n) == (if !ok && t.retries < t.maxRetries then Idle(s) + multiset{Retried(t)} else Idle(s))
  {
    FinishIdle(s, w, ok, now);
    BusyUpdate(s.executing, w, None);
    assert Busy(s.executing[w := None]) + AsBag(s.executing[w]) == Busy(s.executing) + AsBag(None);
  }

  lemma WakeMoves(s: State, k: nat)
    requires k < |s.sleeping|
    ensures Idle(Wake(s, k)) == Idle(s)
  {
    var t := s.sleeping[k];
    InsertBag(s.queue, t);
    WithoutKeepsOrder(s.sleeping, k);
    BagMove(multiset(s.queue), multiset(Without(s.sleeping, k)), Waiting(s.chans), multiset{t});
  }

  lemma CancelBags(s: State, id: string, now: int)
    requires HasId(s.queue, id)
    ensures Idle(s) == Idle(Cancel(s, id, now)) + multiset{s.queue[FirstIndex(s.queue, id)]}
  {
    var k := FirstIndex(s.queue, id);
    WithoutKeepsOrder(s.queue, k);
    BagMove(multiset(Without(s.queue, k)), multiset(s.sleeping), Waiting(s.chans), multiset{s.queue[k]});
  }

  // ----- The marks on running tasks -----

  lemma TakeLoose(s: State, w: nat, cap: nat)
    requires Loose(s, cap) && CanTake(s, w)
    ensures Loose(Take(s, w), cap)
  {
    TakeFlight(s, w);
  }

  lemma UnmarkLoose(flight: multiset<QueuedTask>, running: map<string, QueuedTask>, t: QueuedTask)
    requires KeyedById(running) && multiset(running.Values) <= flight + multiset{t}
    ensures multiset((running - {t.id}).Values) <= flight
  {
    var r := running - {t.id};
    RangeWithout(running, t.id);
    forall v | v in r.Values ensures flight[v] >= 1 {
      var k :| k in r && r[k] == v;
      assert v.id != t.id && running[k] == v;
      assert multiset(running.Values)[v] == 1;
      assert (flight + multiset{t})[v] == flight[v];
    }
  }

  lemma FinishLoose(s: State, w: nat, ok: bool, now: int, cap: nat)
    requires Loose(s, cap) && CanFinish(s, w)
    ensures Loose(Finish(s, w, ok, now), cap)
  {
    var n, t := Finish(s, w, ok, now), s.executing[w].value;
    FinishFlight(s, w, ok, now);
    UnmarkLoose(InFlight(n), s.running, t);
    RangeWithout(s.running, t.id);
    ReleasedCharges(s.loads, t.hosts, s.cfg.perHost, now);
  }

  lemma CancelLoose(s: State, id: string, now: int, cap: nat)
    requires Loose(s, cap)
    ensures Loose(Cancel(s, id, now), cap)
  {
    if !HasId(s.queue, id) && id in s.running {
      RangeWithout(s.running, id);
      ReleasedCharges(s.loads, s.running[id].hosts, s.cfg.perHost, now);
    }
  }

  // ----- Runs in which no live ID is enqueued again -----

  // No task has the ID.
  ghost predicate Unused(s: State, id: string) {
    forall t :: t in Tasks(s) ==> t.id != id
  }

  lemma DistinctWith(tasks: multiset<QueuedTask>, t: QueuedTask)
    requires DistinctTasks(tasks) && forall u :: u in tasks ==> u.id != t.id
    ensures DistinctTasks(tasks + multiset{t})
  {}

  lemma DistinctWithout(tasks: multiset<QueuedTask>, t: QueuedTask)
    requires DistinctTasks(tasks + multiset{t})
    ensures DistinctTasks(tasks) && forall u :: u in tasks ==> u.id != t.id
  {
    forall u | u in tasks ensures u.id != t.id {
      assert u in tasks + multiset{t} && t in tasks + multiset{t};
      assert (tasks + multiset{t})[u] == tasks[u] + multiset{t}[u];
    }
    forall u, v | u in tasks && v in tasks && u.id == v.id ensures u == v && tasks[u] == 1 {
      assert u in tasks + multiset{t} && v in tasks + multiset{t};
      assert (tasks + multiset{t})[u] == tasks[u] + multiset{t}[u];
    }
  }

  lemma EnqueueFresh(s: State, id: string, priority: int, hosts: seq<string>, now: int)
    requires DistinctTasks(Tasks(s)) && EnqueueOutcome(s, id) == Accepted && Unused(s, id)
    ensures DistinctTasks(Tasks(Enqueue(s, id, priority, hosts, now)))
  {
    var t := NewTask(id, priority, hosts, now);
    EnqueueIdle(s, id, priority, hosts, now);
    DistinctWith(Tasks(s), t);
    BagSwap(Idle(s), multiset{t}, Busy(s.executing));
  }

  lemma TakeFresh(s: State, w: nat)
    requires CanTake(s, w)
    ensures Tasks(Take(s, w)) == Tasks(s)
  {
    TakeBags(s, w);
    BagSwap(Idle(Take(s, w)), multiset{s.chans[w][0]}, Busy(s.executing));
  }

  lemma CancelFresh(s: State, id: string, now: int)
    requires DistinctTasks(Tasks(s)) && Undercharged(s) && NonNegative(s.loads)
    ensures var n := Cancel(s, id, now); DistinctTasks(Tasks(n)) && Undercharged(n)
  {
    var n := Cancel(s, id, now);
    if HasId(s.queue, id) {
      var t := s.queue[FirstIndex(s.queue, id)];
      CancelBags(s, id, now);
      BagSwap(Idle(n), multiset{t}, Busy(s.executing));
      DistinctWithout(Tasks(n), t);
    } else if id in s.running {
      HostBagWithout(s.running, id);
      ReleasedCharges(s.loads, s.running[id].hosts, s.cfg.perHost, now);
    }
  }

  lemma FinishDistinct(s: State, w: nat, ok: bool, now: int)
    requires DistinctTasks(Tasks(s)) && CanFinish(s, w)
    ensures DistinctTasks(Tasks(Finish(s, w, ok, now)))
  {
    var n, t := Finish(s, w, ok, now), s.executing[w].value;
    FinishBags(s, w, ok, now);
    BagAssoc(Idle(s), Busy(n.executing), multiset{t});
    DistinctWithout(Idle(s) + Busy(n.executing), t);
    if !ok && t.retries < t.maxRetries {
      DistinctWith(Idle(s) + Busy(n.executing), Retried(t));
      BagSwap(Idle(s), multiset{Retried(t)}, Busy(n.executing));
    }
  }

  // A worker's task is the one that is marked under its ID, if any is.
  lemma MarkedIsExecuting(s: State, w: nat)
    requires DistinctTasks(Tasks(s)) && multiset(s.running.Values) <= InFlight(s) && KeyedById(s.running)
             && CanFinish(s, w)
    ensures var t := s.executing[w].value; t.id in s.running ==> s.running[t.id] == t
  {
    var t := s.executing[w].value;
    FinishBags(s, w, true, 0);
    assert t in Tasks(s);
    if t.id in s.running {
      var u := s.running[t.id];
      assert u in s.running.Values && multiset(s.running.Values)[u] == 1;
      assert InFlight(s)[u] >= 1;
      assert u in Tasks(s);
    }
  }

  lemma FinishUndercharged(s: State, w: nat, ok: bool, now: int)
    requires Undercharged(s) && NonNegative(s.loads) && CanFinish(s, w)
    requires var t := s.executing[w].value; t.id in s.running ==> s.running[t.id] == t
    ensures Undercharged(Finish(s, w, ok, now))
  {
    var t := s.executing[w].value;
    ReleasedCharges(s.loads, t.hosts, s.cfg.perHost, now);
    if t.id in s.running {
      HostBagWithout(s.running, t.id);
    } else {
      assert s.running - {t.id} == s.running;
    }
  }

}
