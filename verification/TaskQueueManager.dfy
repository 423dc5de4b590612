// The task queue manager itself: its fields, and its methods in the form the
// program gives them, each proved to take one step of the state machine.
module QueueManager {
  import opened Common
  import opened TaskOrder
  import opened HostLoads
  import opened Workers
  import opened SchedulerModel
  import opened SchedulerEffects

  // What became of a queued task: refused by a host, sent to a worker, or put
  // back because the worker's channel was full.
  datatype Offered = Refused | Sent | Returned

  class TaskQueueManager {
    const cfg: Config
    var taskQueue: seq<QueuedTask>
    var runningTasks: map<string, QueuedTask>
    var hostLoads: LoadTable
    var maxConcurrentTasks: int
    // The buffered channel of each worker, oldest task first.
    var workers: Channels
    // What each worker goroutine holds between receiving a task and finishing it.
    var executing: seq<Option<QueuedTask>>
    // Failed tasks whose retry goroutine is still sleeping.
    var sleeping: seq<QueuedTask>

    ghost function Snapshot(): State
      reads this
    {
      State(cfg, taskQueue, runningTasks, hostLoads, maxConcurrentTasks, workers, executing, sleeping)
    }

    ghost predicate Valid()
      reads this
    {
      WellFormed(Snapshot())
    }

    constructor (config: Config, maxConcurrent: int, workerCount: nat)
      requires workerCount > 0
      ensures Valid()
      ensures Snapshot() == InitialState(config, maxConcurrent, workerCount)
    {
      cfg := config;
      taskQueue, runningTasks, hostLoads := [], map[], map[];
      maxConcurrentTasks := maxConcurrent;
      workers := seq(workerCount, _ => []);
      executing := seq(workerCount, _ => None);
      sleeping := [];
    }

    method EnqueueTask(taskID: string, priority: int, hostIDs: seq<string>, now: int) returns (r: Outcome)
      requires Valid()
      modifies this`taskQueue
      ensures Valid()
      ensures r == EnqueueOutcome(old(Snapshot()), taskID)
      ensures Snapshot() == Enqueue(old(Snapshot()), taskID, priority, hostIDs, now)
    {
      if |taskQueue| >= cfg.capacity {
        return QueueFull;
      }
      if taskID in runningTasks {
        return AlreadyRunning;
      }
      for i := 0 to |taskQueue|
        invariant forall j :: 0 <= j < i ==> taskQueue[j].id != taskID
      {
        if taskQueue[i].id == taskID {
          return AlreadyQueued;
        }
      }
      InsertTaskByPriority(NewTask(taskID, priority, hostIDs, now));
      r := Accepted;
    }

    method InsertTaskByPriority(task: QueuedTask)
      modifies this`taskQueue
      ensures taskQueue == Insert(old(taskQueue), task)
    {
      var insertIndex := |taskQueue|;
      var i := 0;
      while i < |taskQueue|
        invariant 0 <= i <= |taskQueue| == insertIndex
        invariant forall j :: 0 <= j < i ==> !Before(task, taskQueue[j])
      {
        if task.priority > taskQueue[i].priority
           || (task.priority == taskQueue[i].priority && task.createdAt < taskQueue[i].createdAt)
        {
          insertIndex := i;
          break;
        }
        i := i + 1;
      }
      InsertAt(taskQueue, task, insertIndex);
      taskQueue := taskQueue[..insertIndex] + [task] + taskQueue[insertIndex..];
    }

    method CanExecuteTask(task: QueuedTask, now: int) returns (ok: bool)
      modifies this`hostLoads
      ensures ok == CanExecute(task.hosts, old(hostLoads), cfg.perHost)
      ensures hostLoads == Touched(task.hosts, old(hostLoads), cfg.perHost, now)
    {
      ghost var before := hostLoads;
      var n := 0;
      while n < |task.hosts|
        invariant 0 <= n <= |task.hosts|
        invariant CanExecute(task.hosts[..n], before, cfg.perHost)
        invariant hostLoads == WithDefaults(task.hosts[..n], before, cfg.perHost, now)
      {
        var h := task.hosts[n];
        assert task.hosts[..n + 1] == task.hosts[..n] + [h];
        if h !in hostLoads {
          hostLoads := hostLoads[h := DefaultLoad(cfg.perHost, now)];
          AdmitsNewHost(task.hosts, n, before, cfg.perHost);
        } else {
          AdmitsKnownHost(task.hosts, n, before, cfg.perHost, now);
          var l := hostLoads[h];
          if !l.available {
            return false;
          }
          if l.running >= l.limit {
            return false;
          }
          if l.cpu > 80.0 || l.mem > 80.0 {
            return false;
          }
        }
        n := n + 1;
      }
      assert task.hosts[..n] == task.hosts;
      ScanReachesEnd(task.hosts, before, cfg.perHost);
      ok := true;
    }

    method UpdateHostLoadForTask(task: QueuedTask, increment: bool, now: int)
      modifies this`hostLoads
      ensures hostLoads == Updated(old(hostLoads), task.hosts, increment, cfg.perHost, now)
    {
      ghost var before := hostLoads;
      UpdatedNone(before, increment, cfg.perHost, now);
      for n := 0 to |task.hosts|
        invariant hostLoads == Updated(before, task.hosts[..n], increment, cfg.perHost, now)
      {
        var h := task.hosts[n];
        assert task.hosts[..n + 1] == task.hosts[..n] + [h];
        UpdatedNext(before, task.hosts[..n], h, increment, cfg.perHost, now);
        var l := if h in hostLoads then hostLoads[h] else DefaultLoad(cfg.perHost, now);
        if increment {
          l := l.(running := l.running + 1);
        } else {
          l := l.(running := l.running - 1);
          if l.running < 0 {
            l := l.(running := 0);
          }
        }
        assert l.(updatedAt := now) == Step(Base(hostLoads, h, cfg.perHost, now), increment, now);
        hostLoads := hostLoads[h := l.(updatedAt := now)];
      }
      assert task.hosts[..|task.hosts|] == task.hosts;
    }

    method SelectLeastBusyWorker() returns (selectedWorker: nat)
      requires |workers| > 0
      ensures selectedWorker == LeastBusy(workers)
    {
      var minLoad := |workers[0]|;
      selectedWorker := 0;
      for i := 0 to |workers|
        invariant selectedWorker < |workers| && minLoad == |workers[selectedWorker]|
        invariant forall j :: 0 <= j < i ==> minLoad <= |workers[j]|
        invariant forall j :: 0 <= j < selectedWorker ==> minLoad < |workers[j]|
      {
        if |workers[i]| < minLoad {
          minLoad := |workers[i]|;
          selectedWorker := i;
        }
      }
      LeastBusyIsUnique(workers, selectedWorker, LeastBusy(workers));
    }

    method CalculateWorkerScore(workerIndex: nat, task: QueuedTask) returns (score: real)
      requires workerIndex < |workers|
      ensures score == Score(workers[workerIndex], AverageUsage(task.hosts, hostLoads))
    {
      score := |workers[workerIndex]| as real * 10.0;
      var totalLoad, hostCount := 0.0, 0;
      for n := 0 to |task.hosts|
        invariant totalLoad == UsageSum(task.hosts[..n], hostLoads)
        invariant hostCount == KnownHosts(task.hosts[..n], hostLoads)
      {
        var h := task.hosts[n];
        assert task.hosts[..n + 1][..n] == task.hosts[..n];
        if h in hostLoads {
          totalLoad := totalLoad + (hostLoads[h].cpu + hostLoads[h].mem);
          hostCount := hostCount + 1;
        }
      }
      assert task.hosts[..|task.hosts|] == task.hosts;
      if hostCount > 0 {
        score := score + totalLoad / hostCount as real;
      }
    }

    method SelectResourceBasedWorker(task: QueuedTask) returns (bestWorker: nat)
      requires |workers| > 0
      ensures bestWorker == ResourcePick(workers, AverageUsage(task.hosts, hostLoads))
    {
      bestWorker := 0;
      var bestScore := WORST_SCORE;
      ghost var average := AverageUsage(task.hosts, hostLoads);
      for i := 0 to |workers|
        invariant bestWorker < |workers|
        invariant (bestScore == WORST_SCORE && bestWorker == 0)
                  || bestScore == Score(workers[bestWorker], average) < WORST_SCORE
        invariant forall j :: 0 <= j < i ==> bestScore <= Score(workers[j], average)
        invariant forall j :: 0 <= j < bestWorker ==> bestScore < Score(workers[j], average)
      {
        var score := CalculateWorkerScore(i, task);
        if score < bestScore {
          bestScore := score;
          bestWorker := i;
        }
      }
      ghost var w := LeastBusy(workers);
      FirstBestScore(workers, average, w);
    }

    method SelectAWorker(task: QueuedTask) returns (w: nat)
      requires |workers| > 0
      ensures w == SelectWorker(cfg.strategy, workers, task.hosts, hostLoads)
    {
      match cfg.strategy
      case LeastConnections => w := SelectLeastBusyWorker();
      case ResourceBased => w := SelectResourceBasedWorker(task);
    }

    // One iteration of the queue processor's loop: offer the task at index i
    // to its hosts and, if admitted, to a worker.
    method Offer(i: nat, now: int) returns (o: Offered)
      requires |workers| > 0 && i < |taskQueue|
      modifies this`taskQueue, this`runningTasks, this`hostLoads, this`workers
      ensures |workers| > 0
      ensures o.Refused? <==> !ExecutableAt(old(Snapshot()), i)
      ensures o.Refused? ==> Snapshot() == SkipAt(old(Snapshot()), i, now)
      ensures var s, t, w := old(Snapshot()), old(taskQueue)[i], Target(old(Snapshot()), i, now);
              var d := Dispatch(s, i, now);
              && (o.Sent? ==> |s.chans[w]| < CHANNEL_CAPACITY && Snapshot() == Send(d, t, w))
              && (o.Returned? ==> |s.chans[w]| >= CHANNEL_CAPACITY && Snapshot() == PutBack(d, t, now))
    {
      var task := taskQueue[i];
      var ok := CanExecuteTask(task, now);
      if !ok {
        return Refused;
      }
      taskQueue := taskQueue[..i] + taskQueue[i + 1..];
      runningTasks := runningTasks[task.id := task];
      UpdateHostLoadForTask(task, true, now);
      var w := SelectAWorker(task);
      if |workers[w]| < CHANNEL_CAPACITY {
        workers := workers[w := workers[w] + [task]];
        return Sent;
      }
      taskQueue := [task] + taskQueue;
      runningTasks := runningTasks - {task.id};
      UpdateHostLoadForTask(task, false, now);
      o := Returned;
    }

    // One pass of the queue processor. The program's loop has no exit for the
    // case reported as stuck: there it repeats the same iteration until another
    // goroutine takes a task from a channel.
    method ProcessTasks(now: int) returns (overflow: bool, stuck: bool)
      requires Valid()
      modifies this`taskQueue, this`runningTasks, this`hostLoads, this`workers
      ensures ScanResult(Snapshot(), overflow, stuck) == ProcessQueue(old(Snapshot()), now)
    {
      overflow, stuck := false, false;
      if |runningTasks| >= maxConcurrentTasks {
        return;
      }
      if cfg.adaptive && LoadAbove(|runningTasks|, maxConcurrentTasks, cfg.threshold) {
        return;
      }
      overflow, stuck := ScanQueue(now);
    }

    method ScanQueue(now: int) returns (overflow: bool, stuck: bool)
      requires |workers| > 0
      modifies this`taskQueue, this`runningTasks, this`hostLoads, this`workers
      ensures ScanResult(Snapshot(), overflow, stuck) == Scan(old(Snapshot()), 0, now)
    {
      ghost var goal := Scan(Snapshot(), 0, now);
      var i := 0;
      overflow, stuck := false, false;
      while i < |taskQueue| && |runningTasks| < maxConcurrentTasks
        invariant 0 <= i <= |taskQueue|
        invariant |workers| > 0
        invariant Resumes(goal, Snapshot(), i, now, overflow)
        decreases |taskQueue| - i, ExecutableAt(Snapshot(), i)
      {
        ghost var s := Snapshot();
        var o := Offer(i, now);
        if o.Refused? {
          ScanSkips(s, i, now);
          i := i + 1;
        } else if o.Sent? {
          // the index steps back over the removed task and forward again
          ScanSends(s, i, now);
        } else {
          ScanPutsBack(s, i, now);
          overflow := true;
          if CanExecute(taskQueue[i].hosts, hostLoads, cfg.perHost) {
            stuck := true;
            return;
          }
        }
      }
    }

    // A worker receives the oldest task of its channel.
    method Receive(w: nat)
      requires Valid() && CanTake(Snapshot(), w)
      modifies this`workers, this`executing
      ensures Valid()
      ensures Snapshot() == Take(old(Snapshot()), w)
      ensures executing[w].Some? && old(workers)[w] == [executing[w].value] + workers[w]
      ensures forall v :: 0 <= v < |workers| && v != w ==>
              workers[v] == old(workers)[v] && executing[v] == old(executing)[v]
    {
      executing := executing[w := Some(workers[w][0])];
      workers := workers[w := workers[w][1..]];
    }

    // The locked part of executing a task, after StartTask has returned.
    method FinishExecution(w: nat, started: bool, now: int)
      requires Valid() && CanFinish(Snapshot(), w)
      modifies this`runningTasks, this`hostLoads, this`executing, this`sleeping
      ensures Valid()
      ensures Snapshot() == Finish(old(Snapshot()), w, started, now)
    {
      var task := executing[w].value;
      ReleasedCharges(hostLoads, task.hosts, cfg.perHost, now);
      if !started {
        if task.retries < task.maxRetries {
          task := task.(retries := task.retries + 1);
          sleeping := sleeping + [task];
        }
      }
      runningTasks := runningTasks - {task.id};
      UpdateHostLoadForTask(task, false, now);
      executing := executing[w := None];
    }

    method WakeRetry(k: nat)
      requires Valid() && k < |sleeping|
      modifies this`taskQueue, this`sleeping
      ensures Valid()
      ensures Snapshot() == Wake(old(Snapshot()), k)
    {
      var task := sleeping[k];
      sleeping := sleeping[..k] + sleeping[k + 1..];
      InsertTaskByPriority(task);
    }

    method AdjustConcurrency()
      requires Valid()
      modifies this`maxConcurrentTasks
      ensures Valid()
      ensures Snapshot() == Adjust(old(Snapshot()))
      ensures 5 <= old(maxConcurrentTasks) <= 100 ==>
                var load := LoadPercent(|runningTasks|, old(maxConcurrentTasks));
                maxConcurrentTasks ==
                  if load < 50.0 && |taskQueue| > 10 && |runningTasks| < old(maxConcurrentTasks)
                  then (if old(maxConcurrentTasks) <= 98 then old(maxConcurrentTasks) + 2 else 100)
                  else if load > 80.0 then (if old(maxConcurrentTasks) >= 7 then old(maxConcurrentTasks) - 2 else 5)
                  else old(maxConcurrentTasks)
    {
      if 5 <= maxConcurrentTasks <= 100 {
        AdjustedExactly(maxConcurrentTasks, |runningTasks|, |taskQueue|);
      }
      if LoadBelow(|runningTasks|, maxConcurrentTasks, 50.0) && |taskQueue| > 10
         && |runningTasks| < maxConcurrentTasks {
        var newMax := Min(maxConcurrentTasks + 2, 100);
        if newMax != maxConcurrentTasks {
          maxConcurrentTasks := newMax;
        }
      } else if LoadAbove(|runningTasks|, maxConcurrentTasks, 80.0) && maxConcurrentTasks > 5 {
        var newMax := Max(maxConcurrentTasks - 2, 5);
        if newMax != maxConcurrentTasks {
          maxConcurrentTasks := newMax;
        }
      }
    }

    method UpdateHostLoad(hostID: string, cpuUsage: real, memoryUsage: real, available: bool, now: int)
      requires Valid()
      modifies this`hostLoads
      ensures Valid()
      ensures Snapshot() == ReportHost(old(Snapshot()), hostID, cpuUsage, memoryUsage, available, now)
      ensures hostLoads.Keys == old(hostLoads).Keys + {hostID}
      ensures forall h :: Charges(hostLoads, h) == Charges(old(hostLoads), h)
      ensures forall h :: h in old(hostLoads) && h != hostID ==> hostLoads[h] == old(hostLoads)[h]
    {
      if hostID !in hostLoads {
        hostLoads := hostLoads[hostID := DefaultLoad(cfg.perHost, now)];
      }
      hostLoads := hostLoads[hostID := hostLoads[hostID].(cpu := cpuUsage, mem := memoryUsage,
                                                          available := available, updatedAt := now)];
    }

    // The entries are visited in an arbitrary order.
    method UpdateHostLoads(now: int)
      requires Valid()
      modifies this`hostLoads
      ensures Valid()
      ensures Snapshot() == RefreshHosts(old(Snapshot()), now)
    {
      var todo := hostLoads.Keys;
      while todo != {}
        invariant todo <= hostLoads.Keys == old(hostLoads).Keys
        invariant forall h :: h in hostLoads ==>
            hostLoads[h] == if h in todo then old(hostLoads)[h] else RefreshHosts(old(Snapshot()), now).loads[h]
        decreases |todo|
      {
        var h :| h in todo;
        todo := todo - {h};
        if now - hostLoads[h].updatedAt > STALE_AFTER {
          hostLoads := hostLoads[h := hostLoads[h].(available := false)];
        } else {
          hostLoads := hostLoads[h := hostLoads[h].(available := true)];
        }
      }
    }

    method CancelTask(taskID: string, now: int) returns (found: bool)
      requires Valid()
      modifies this`taskQueue, this`runningTasks, this`hostLoads
      ensures Valid()
      ensures found <==> old(HasId(taskQueue, taskID) || taskID in runningTasks)
      ensures Snapshot() == Cancel(old(Snapshot()), taskID, now)
    {
      for i := 0 to |taskQueue|
        invariant forall j :: 0 <= j < i ==> taskQueue[j].id != taskID
      {
        if taskQueue[i].id == taskID {
          taskQueue := taskQueue[..i] + taskQueue[i + 1..];
          return true;
        }
      }
      if taskID in runningTasks {
        var task := runningTasks[taskID];
        ReleasedCharges(hostLoads, task.hosts, cfg.perHost, now);
        runningTasks := runningTasks - {taskID};
        UpdateHostLoadForTask(task, false, now);
        return true;
      }
      found := false;
    }

    method GetTaskPosition(taskID: string) returns (position: int)
      ensures position == if HasId(taskQueue, taskID) then FirstIndex(taskQueue, taskID) + 1 else -1
    {
      for i := 0 to |taskQueue|
        invariant forall j :: 0 <= j < i ==> taskQueue[j].id != taskID
      {
        if taskQueue[i].id == taskID {
          return i + 1;
        }
      }
      position := -1;
    }
  }

  // The whole scan's result is still what scanning on from here would give.
  ghost predicate Resumes(goal: ScanResult, s: State, i: nat, now: int, overflow: bool)
    requires |s.chans| > 0
  {
    var r := Scan(s, i, now);
    goal == r.(overflow := overflow || r.overflow)
  }

  function Min(a: int, b: int): int { if a < b then a else b }

  function Max(a: int, b: int): int { if a > b then a else b }

  // A host seen for the first time in this list is admitted.
  lemma AdmitsNewHost(hosts: seq<string>, n: nat, loads: LoadTable, perHost: int)
    requires n < |hosts| && hosts[n] !in loads && hosts[n] !in hosts[..n]
    requires CanExecute(hosts[..n], loads, perHost)
    ensures CanExecute(hosts[..n + 1], loads, perHost)
  {
    assert forall k :: 0 <= k < n ==> hosts[..n + 1][k] == hosts[..n][k];
  }

  // A host with an entry, found or made earlier in this pass, is admitted
  // exactly when the entry does not refuse.
  lemma AdmitsKnownHost(hosts: seq<string>, n: nat, loads: LoadTable, perHost: int, now: int)
    requires n < |hosts|
    requires CanExecute(hosts[..n], loads, perHost)
    requires hosts[n] in WithDefaults(hosts[..n], loads, perHost, now)
    ensures var l := WithDefaults(hosts[..n], loads, perHost, now)[hosts[n]];
            if Refuses(l) then !CanExecute(hosts, loads, perHost) && Scanned(hosts, loads, perHost) == n
            else CanExecute(hosts[..n + 1], loads, perHost)
  {
    var m := hosts[..n + 1];
    assert forall k :: 0 <= k < n ==> m[k] == hosts[..n][k];
    var l := WithDefaults(hosts[..n], loads, perHost, now)[hosts[n]];
    if Refuses(l) {
      if hosts[n] !in loads {
        var j :| 0 <= j < n && hosts[..n][j] == hosts[n];
        assert m[j] == m[n];
      }
      assert m[n] == hosts[n];
      ScannedIs(hosts, loads, perHost, n);
    }
  }

  lemma ScannedIs(hosts: seq<string>, loads: LoadTable, perHost: int, n: nat)
    requires n < |hosts|
    requires CanExecute(hosts[..n], loads, perHost) && !CanExecute(hosts[..n + 1], loads, perHost)
    ensures Scanned(hosts, loads, perHost) == n && !CanExecute(hosts, loads, perHost)
  {
    var k := Scanned(hosts, loads, perHost);
    if CanExecute(hosts, loads, perHost) {
      PrefixAdmitted(hosts, loads, perHost, n + 1);
      assert false;
    }
    ScanReachesEnd(hosts, loads, perHost);
  }

}
