// The task queue manager as a state machine: one function for each step that
// the manager takes while it holds its lock.
module SchedulerModel {
  import opened Common
  import opened TaskOrder
  import opened HostLoads
  import opened Workers

  datatype Config = Config(
    perHost: int,
    capacity: int,
    strategy: Strategy,
    adaptive: bool,
    threshold: real)

  // A task is waiting in queue, waiting in a worker's channel, being executed
  // by a worker, or asleep until its retry.
  datatype State = State(
    cfg: Config,
    queue: seq<QueuedTask>,
    running: map<string, QueuedTask>,
    loads: LoadTable,
    maxConcurrent: int,
    chans: Channels,
    executing: seq<Option<QueuedTask>>,
    sleeping: seq<QueuedTask>)

  ghost predicate WellFormed(s: State) {
    && |s.chans| > 0
    && |s.executing| == |s.chans|
    && (forall i :: 0 <= i < |s.chans| ==> |s.chans[i]| <= CHANNEL_CAPACITY)
    && NonNegative(s.loads)
  }

  ghost function InitialState(cfg: Config, maxConcurrent: int, workerCount: nat): State {
    State(cfg, [], map[], map[], maxConcurrent,
          seq(workerCount, _ => []), seq(workerCount, _ => None), [])
  }

  // ----- Enqueue, cancel, retry wake-up -----

  datatype Outcome = Accepted | QueueFull | AlreadyRunning | AlreadyQueued

  const MAX_RETRIES: nat := 3

  function NewTask(id: string, priority: int, hosts: seq<string>, now: int): QueuedTask {
    QueuedTask(id, priority, now, hosts, 0, MAX_RETRIES)
  }

  ghost predicate HasId(q: seq<QueuedTask>, id: string) {
    exists i :: 0 <= i < |q| && q[i].id == id
  }

  ghost function EnqueueOutcome(s: State, id: string): Outcome {
    if |s.queue| >= s.cfg.capacity then QueueFull
    else if id in s.running then AlreadyRunning
    else if HasId(s.queue, id) then AlreadyQueued
    else Accepted
  }

  ghost function Enqueue(s: State, id: string, priority: int, hosts: seq<string>, now: int): State {
    if EnqueueOutcome(s, id) == Accepted
    then s.(queue := Insert(s.queue, NewTask(id, priority, hosts, now)))
    else s
  }

  ghost function FirstIndex(q: seq<QueuedTask>, id: string): (k: nat)
    requires HasId(q, id)
    ensures k < |q| && q[k].id == id && forall j :: 0 <= j < k ==> q[j].id != id
  {
    if q[0].id == id then 0
    else
      var i :| 0 <= i < |q| && q[i].id == id;
      assert q[1..][i - 1].id == id;
      var k := FirstIndex(q[1..], id);
      assert forall j :: 1 <= j < k + 1 ==> q[j] == q[1..][j - 1];
      k + 1
  }

  ghost function Cancel(s: State, id: string, now: int): State {
    if HasId(s.queue, id) then s.(queue := Without(s.queue, FirstIndex(s.queue, id)))
    else if id in s.running then
      s.(running := s.running - {id},
         loads := Released(s.loads, s.running[id].hosts, s.cfg.perHost, now))
    else s
  }

  ghost function Wake(s: State, k: nat): State
    requires k < |s.sleeping|
  {
    s.(queue := Insert(s.queue, s.sleeping[k]), sleeping := Without(s.sleeping, k))
  }

  // ----- System load and the adaptive cap -----

  // running / maxConcurrent * 100 < pct and > pct, for every maxConcurrent;
  // with nothing running under a cap of zero the ratio is not a number.
  predicate LoadBelow(running: nat, maxConcurrent: int, pct: real) {
    if maxConcurrent > 0 then running as real * 100.0 < pct * maxConcurrent as real
    else if maxConcurrent < 0 then running as real * 100.0 > pct * maxConcurrent as real
    else false
  }

  predicate LoadAbove(running: nat, maxConcurrent: int, pct: real) {
    if maxConcurrent > 0 then running as real * 100.0 > pct * maxConcurrent as real
    else if maxConcurrent < 0 then running as real * 100.0 < pct * maxConcurrent as real
    else running > 0
  }

  function AdjustedCap(cap: int, running: nat, queued: nat): int {
    if LoadBelow(running, cap, 50.0) && queued > 10 && running < cap then
      if cap + 2 < 100 then cap + 2 else 100
    else if LoadAbove(running, cap, 80.0) && cap > 5 then
      if cap - 2 > 5 then cap - 2 else 5
    else cap
  }

  ghost function Adjust(s: State): State {
    s.(maxConcurrent := AdjustedCap(s.maxConcurrent, |s.running|, |s.queue|))
  }

  // ----- Processing the queue -----

  ghost function Dispatch(s: State, i: nat, now: int): State
    requires i < |s.queue|
  {
    var t := s.queue[i];
    var touched := Touched(t.hosts, s.loads, s.cfg.perHost, now);
    s.(queue := Without(s.queue, i),
       running := s.running[t.id := t],
       loads := Charged(touched, t.hosts, s.cfg.perHost, now))
  }

  ghost function Send(s: State, t: QueuedTask, w: nat): State
    requires w < |s.chans|
  {
    s.(chans := s.chans[w := s.chans[w] + [t]])
  }

  // The chosen channel is full: the task goes back, to the front of the queue.
  ghost function PutBack(s: State, t: QueuedTask, now: int): State {
    s.(queue := [t] + s.queue,
       running := s.running - {t.id},
       loads := Released(s.loads, t.hosts, s.cfg.perHost, now))
  }

  // overflow: a full channel was met. stuck: after putting the task back, the
  // scan stands again before a task it can execute, with nothing else changed;
  // only another goroutine draining a channel can end the loop then.
  datatype ScanResult = ScanResult(state: State, overflow: bool, stuck: bool)

  predicate ExecutableAt(s: State, i: nat) {
    i < |s.queue| && CanExecute(s.queue[i].hosts, s.loads, s.cfg.perHost)
  }

  // The index scan over the queue, from position i on.
  ghost function Scan(s: State, i: nat, now: int): (r: ScanResult)
    requires |s.chans| > 0
    ensures r.state.cfg == s.cfg && r.state.maxConcurrent == s.maxConcurrent
    decreases |s.queue| - i, ExecutableAt(s, i)
  {
    if i >= |s.queue| || |s.running| >= s.maxConcurrent then ScanResult(s, false, false)
    else if !ExecutableAt(s, i) then
      Scan(s.(loads := Touched(s.queue[i].hosts, s.loads, s.cfg.perHost, now)), i + 1, now)
    else
      var t := s.queue[i];
      var d := Dispatch(s, i, now);
      var w := SelectWorker(s.cfg.strategy, d.chans, t.hosts, d.loads);
      if |d.chans[w]| < CHANNEL_CAPACITY then Scan(Send(d, t, w), i, now)
      else
        var b := PutBack(d, t, now);
        if ExecutableAt(b, i) then ScanResult(b, true, true)
        else
          var r := Scan(b, i, now);
          r.(overflow := true)
  }

  // The three ways one iteration of the scan goes on.
  ghost function SkipAt(s: State, i: nat, now: int): State
    requires i < |s.queue|
  {
    s.(loads := Touched(s.queue[i].hosts, s.loads, s.cfg.perHost, now))
  }

  ghost function Target(s: State, i: nat, now: int): (w: nat)
    requires |s.chans| > 0 && i < |s.queue|
    ensures w < |s.chans|
  {
    var d := Dispatch(s, i, now);
    SelectWorker(s.cfg.strategy, s.chans, s.queue[i].hosts, d.loads)
  }

  lemma ScanSkips(s: State, i: nat, now: int)
    requires |s.chans| > 0 && i < |s.queue| && |s.running| < s.maxConcurrent && !ExecutableAt(s, i)
    ensures Scan(s, i, now) == Scan(SkipAt(s, i, now), i + 1, now)
  {}

  lemma ScanSends(s: State, i: nat, now: int)
    requires |s.chans| > 0 && |s.running| < s.maxConcurrent && ExecutableAt(s, i)
    requires |s.chans[Target(s, i, now)]| < CHANNEL_CAPACITY
    ensures Scan(s, i, now) == Scan(Send(Dispatch(s, i, now), s.queue[i], Target(s, i, now)), i, now)
  {}

  lemma ScanPutsBack(s: State, i: nat, now: int)
    requires |s.chans| > 0 && |s.running| < s.maxConcurrent && ExecutableAt(s, i)
    requires |s.chans[Target(s, i, now)]| >= CHANNEL_CAPACITY
    ensures var b := PutBack(Dispatch(s, i, now), s.queue[i], now);
            Scan(s, i, now) == if ExecutableAt(b, i) then ScanResult(b, true, true)
                               else var r := Scan(b, i, now); r.(overflow := true)
  {}

  ghost function ProcessQueue(s: State, now: int): (r: ScanResult)
    requires |s.chans| > 0
    ensures r.state.cfg == s.cfg && r.state.maxConcurrent == s.maxConcurrent
  {
    if |s.running| >= s.maxConcurrent then ScanResult(s, false, false)
    else if s.cfg.adaptive && LoadAbove(|s.running|, s.maxConcurrent, s.cfg.threshold)
    then ScanResult(s, false, false)
    else Scan(s, 0, now)
  }

  // ----- Workers -----

  ghost predicate CanTake(s: State, w: nat) {
    && w < |s.chans| == |s.executing|
    && s.chans[w] != []
    && s.executing[w].None?
  }

  ghost function Take(s: State, w: nat): State
    requires CanTake(s, w)
  {
    s.(chans := s.chans[w := s.chans[w][1..]],
       executing := s.executing[w := Some(s.chans[w][0])])
  }

  ghost predicate CanFinish(s: State, w: nat) {
    w < |s.executing| && s.executing[w].Some?
  }

  // The worker's StartTask call returned; ok says whether without error.
  ghost function Finish(s: State, w: nat, ok: bool, now: int): State
    requires CanFinish(s, w)
  {
    var t := s.executing[w].value;
    s.(executing := s.executing[w := None],
       sleeping := if !ok && t.retries < t.maxRetries
                   then s.sleeping + [t.(retries := t.retries + 1)]
                   else s.sleeping,
       running := s.running - {t.id},
       loads := Released(s.loads, t.hosts, s.cfg.perHost, now))
  }

  // ----- Host reports -----

  ghost function ReportHost(s: State, h: string, cpu: real, mem: real, available: bool, now: int): State {
    var b := Base(s.loads, h, s.cfg.perHost, now);
    s.(loads := s.loads[h := b.(cpu := cpu, mem := mem, available := available, updatedAt := now)])
  }

  // Five minutes in nanoseconds, the unit of all times in this model.
  const STALE_AFTER: int := 300_000_000_000

  // A host is available exactly when its entry was updated in the last five
  // minutes.
  ghost function RefreshHosts(s: State, now: int): State {
    s.(loads := map h | h in s.loads :: s.loads[h].(available := now - s.loads[h].updatedAt <= STALE_AFTER))
  }

}
