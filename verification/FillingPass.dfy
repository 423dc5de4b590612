// What a queue pass does when it fills the channels and still finds tasks that it
// could dispatch.
module FillingPass {
  import opened TaskOrder
  import opened HostLoads
  import opened Workers
  import opened SchedulerModel
  import opened GreedyDispatch
  import opened SchedulerInvariants

  // The first n queued tasks name no host.
  ghost predicate Hostless(q: seq<QueuedTask>, n: nat) {
    n <= |q| && forall i :: 0 <= i < n ==> q[i].hosts == []
  }

  lemma HostlessLoads(loads: LoadTable, perHost: int, now: int)
    ensures CanExecute([], loads, perHost) && Touched([], loads, perHost, now) == loads
    ensures Charged(loads, [], perHost, now) == loads && Released(loads, [], perHost, now) == loads
  {}

  // ----- Filling the channels -----

  lemma OneMoreRunning(running: map<string, QueuedTask>, t: QueuedTask)
    requires t.id !in running
    ensures |running[t.id := t]| == |running| + 1
  {
    assert running[t.id := t].Keys == running.Keys + {t.id};
  }

  lemma HostlessSent(s: State, now: int) returns (d: State)
    requires WellFormed(s) && |s.running| < s.maxConcurrent && FreeSlots(s.chans) > 0
    requires s.queue != [] && s.queue[0].hosts == [] && s.queue[0].id !in s.running
    ensures ExecutableAt(s, 0) && d == Send(Dispatch(s, 0, now), s.queue[0], LeastBusy(s.chans))
    ensures d.queue == s.queue[1..] && |d.running| == |s.running| + 1 && d.loads == s.loads
    ensures FreeSlots(d.chans) == FreeSlots(s.chans) - 1
  {
    HostlessLoads(s.loads, s.cfg.perHost, now);
    d := AfterSend(s, now);
    OneMoreRunning(s.running, s.queue[0]);
  }

  // d comes from s by sending the first k queued tasks.
  ghost predicate Sent(s: State, k: nat, d: State) {
    && k <= |s.queue| && d.queue == s.queue[k..]
    && |d.running| == |s.running| + k
    && FreeSlots(d.chans) == FreeSlots(s.chans) - k && |d.chans| == |s.chans|
    && d == s.(queue := d.queue, running := d.running, chans := d.chans)
  }

  lemma SentTrans(s: State, j: nat, n: State, k: nat, d: State)
    requires Sent(s, j, n) && Sent(n, k, d)
    ensures Sent(s, j + k, d)
  {}

  lemma SentNone(s: State)
    ensures Sent(s, 0, s)
  {}

  // No two queued tasks share an ID, and none has the ID of a running one.
  ghost predicate Apart(q: seq<QueuedTask>, running: map<string, QueuedTask>) {
    && (forall i :: 0 <= i < |q| ==> q[i].id !in running)
    && (forall i, j :: 0 <= i < j < |q| ==> q[i].id != q[j].id)
  }

  lemma PlacedIsApart(s: State)
    requires Placed(s)
    ensures Apart(s.queue, s.running)
  {
    forall i | 0 <= i < |s.queue| ensures s.queue[i].id !in s.running {
      QueuedIsNotRunning(s, i);
    }
    forall i, j | 0 <= i < j < |s.queue| ensures s.queue[i].id != s.queue[j].id {
      var r := Without(s.queue, i);
      WithoutIds(s.queue, i);
      assert r[j - 1] == s.queue[j];
      IdsAre(r, s.queue[j].id);
      assert LiveIds(s)[s.queue[i].id] >= Ids(s.queue)[s.queue[i].id];
    }
  }

  // The channels have k free slots, and k tasks can go out.
  ghost predicate CanFill(s: State, k: nat) {
    && WellFormed(s) && FreeSlots(s.chans) == k
    && Hostless(s.queue, k) && |s.running| + k <= s.maxConcurrent
    && Apart(s.queue, s.running)
  }

  lemma SendHostless(s: State, k: nat, now: int) returns (d: State)
    requires CanFill(s, k) && k > 0
    ensures CanFill(d, k - 1) && Sent(s, 1, d) && Scan(s, 0, now) == Scan(d, 0, now)
  {
    d := HostlessSent(s, now);
    ScanOnSend(s, 0, now);
  }

  // Tasks without hosts go out, one after another, until the channels are full.
  lemma {:induction false} SendsUntilFull(s: State, k: nat, now: int) returns (d: State)
    requires CanFill(s, k)
    ensures CanFill(d, 0) && Scan(s, 0, now) == Scan(d, 0, now) && Sent(s, k, d)
    decreases k
  {
    if k == 0 {
      d := s;
      SentNone(s);
    } else {
      var n := SendHostless(s, k, now);
      d := SendsUntilFull(n, k - 1, now);
      SentTrans(s, 1, n, k - 1, d);
    }
  }

  // ----- Jams -----

  // All channels are full, and the task at the front of the queue is sent and put
  // back again and again.
  ghost predicate Jammed(s: State) {
    && WellFormed(s) && FreeSlots(s.chans) == 0
    && s.queue != [] && |s.running| < s.maxConcurrent
    && ExecutableAt(s, 0) && AdmitsAgain(s)
    && s.queue[0].id !in s.running
  }

  lemma PutBackJams(s: State, now: int) returns (b: State)
    requires WellFormed(s) && s.queue != [] && |s.running| < s.maxConcurrent
    requires ExecutableAt(s, 0) && FreeSlots(s.chans) == 0 && AdmitsAgain(s)
    ensures b == PutBack(Dispatch(s, 0, now), s.queue[0], now)
    ensures Scan(s, 0, now) == ScanResult(b, true, true) && Jammed(b)
  {
    var t := s.queue[0];
    b := PutBackAdmits(s, now);
    LeastBusyFull(s.chans);
    DispatchTarget(s, 0, now);
    ScanPutsBack(s, 0, now);
    ScanOnPutBack(s, 0, now);
    PutBackLoads(t.hosts, s.loads, s.cfg.perHost, now);
    MarkedAndUnmarked(s.running, t);
    RangeWithout(s.running, t.id);
  }

  // A pass that spins has jammed.
  lemma {:induction false} SpinJams(s: State, now: int)
    requires WellFormed(s) && Scan(s, 0, now).stuck
    ensures Jammed(Scan(s, 0, now).state)
    decreases |s.queue|
  {
    LeastBusyFull(s.chans);
    if !ExecutableAt(s, 0) {
      NeverStuckOnSkip(s, 0, now);
    } else if FreeSlots(s.chans) > 0 {
      ScanOnSend(s, 0, now);
      SpinJams(Send(Dispatch(s, 0, now), s.queue[0], LeastBusy(s.chans)), now);
    } else {
      StuckWhenFull(s, now);
      var b := PutBackJams(s, now);
    }
  }

  lemma PutBackRestores(s: State, now: int)
    requires s.queue != [] && s.queue[0].id !in s.running
    ensures var b := PutBack(Dispatch(s, 0, now), s.queue[0], now); b == s.(loads := b.loads)
  {
    MarkedAndUnmarked(s.running, s.queue[0]);
    assert [s.queue[0]] + Without(s.queue, 0) == s.queue;
  }

  // Another round of a jammed pass changes nothing but time stamps of hosts.
  lemma JamStays(s: State, now: int)
    requires Jammed(s)
    ensures var r := Scan(s, 0, now);
            r.stuck && Jammed(r.state) && r.state == s.(loads := r.state.loads)
  {
    PutBackRestores(s, now);
    var b := PutBackJams(s, now);
  }

  // With more tasks without hosts than free slots, and a cap above what then
  // runs, the pass jams.
  lemma FillsAndJams(s: State, k: nat, now: int) returns (r: State)
    requires CanFill(s, k) && Hostless(s.queue, k + 1) && |s.running| + k < s.maxConcurrent
    ensures Scan(s, 0, now).stuck && r == Scan(s, 0, now).state && Jammed(r)
    ensures r.queue == s.queue[k..] && |r.running| == |s.running| + k && |r.chans| == |s.chans|
    ensures r == s.(queue := r.queue, running := r.running, chans := r.chans, loads := r.loads)
  {
    var d := SendsUntilFull(s, k, now);
    assert d.queue[0] == s.queue[k];
    JamStays(d, now);
    r := Scan(d, 0, now).state;
  }

  // ----- Broken order -----

  // Behind as many tasks without hosts as there are free slots stand a task that
  // is refused and one without hosts: the pass leaves these two the other way
  // round.
  lemma FillsAndSwaps(s: State, k: nat, u: QueuedTask, t: QueuedTask, now: int)
    requires CanFill(s, k) && s.queue[k..] == [u, t] && |s.running| + k < s.maxConcurrent
    requires !CanExecute(u.hosts, s.loads, s.cfg.perHost) && t.hosts == []
    ensures Scan(s, 0, now).state.queue == [t, u] && !Scan(s, 0, now).stuck
  {
    var d := SendsUntilFull(s, k, now);
    NeverStuckOnSkip(d, 0, now);
    ScanSkips(d, 0, now);
    StillRefused(d, 0, now, u.hosts);
    SwapsLast(SkipAt(d, 0, now), u, t, now);
  }

  lemma SwapsLast(s: State, u: QueuedTask, t: QueuedTask, now: int)
    requires WellFormed(s) && s.queue == [u, t] && FreeSlots(s.chans) == 0 && |s.running| < s.maxConcurrent
    requires !CanExecute(u.hosts, s.loads, s.cfg.perHost) && t.hosts == []
    ensures Scan(s, 1, now).state.queue == [t, u]
  {
    HostlessLoads(s.loads, s.cfg.perHost, now);
    LeastBusyFull(s.chans);
    DispatchTarget(s, 1, now);
    ScanPutsBack(s, 1, now);
    StillRefused(s, 1, now, u.hosts);
    var b := PutBack(Dispatch(s, 1, now), t, now);
    assert b.queue == [t, u];
    if |b.running| < b.maxConcurrent { ScanSkips(b, 1, now); }
  }

}
