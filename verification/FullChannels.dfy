// What a queue pass leaves behind when the channels fill up on the way: the
// whole pass without indices and splicing, put-backs included, and when the
// put-backs break the order of the queue.
module FullChannels {
  import opened TaskOrder
  import opened HostLoads
  import opened Workers
  import opened SchedulerModel
  import opened GreedyDispatch

  // sent in order; returned with the last one put back first; kept in order.
  datatype Outcome = Outcome(
    sent: seq<QueuedTask>,
    returned: seq<QueuedTask>,
    kept: seq<QueuedTask>,
    running: map<string, QueuedTask>,
    loads: LoadTable)

  // Offers the tasks front to back: an admitted one is sent while free slots
  // remain, and afterwards put back, its charges taken away again.
  ghost function Pass(q: seq<QueuedTask>, free: int, running: map<string, QueuedTask>, loads: LoadTable,
                      cap: int, perHost: int, now: int): Outcome
  {
    if q == [] || |running| >= cap then Outcome([], [], q, running, loads)
    else
      var t := q[0];
      var touched := Touched(t.hosts, loads, perHost, now);
      var charged := Charged(touched, t.hosts, perHost, now);
      if !CanExecute(t.hosts, loads, perHost) then
        var p := Pass(q[1..], free, running, touched, cap, perHost, now);
        p.(kept := [t] + p.kept)
      else if free > 0 then
        var p := Pass(q[1..], free - 1, running[t.id := t], charged, cap, perHost, now);
        p.(sent := [t] + p.sent)
      else
        var p := Pass(q[1..], free, running - {t.id}, Released(charged, t.hosts, perHost, now), cap, perHost, now);
        p.(returned := p.returned + [t])
  }

  ghost function PassFrom(s: State, i: nat, now: int): Outcome
    requires i <= |s.queue|
  {
    Pass(s.queue[i..], FreeSlots(s.chans), s.running, s.loads, s.maxConcurrent, s.cfg.perHost, now)
  }

  // The state such an outcome stands for, when the tasks before the scanned part
  // of the queue stay where they are.
  ghost function Result(s: State, before: seq<QueuedTask>, p: Outcome): State
    requires |s.chans| > 0
  {
    s.(queue := p.returned + before + p.kept, running := p.running, loads := p.loads, chans := Deliver(s.chans, p.sent))
  }

  // ----- Tasks that have been refused -----

  // The list is refused at its host k, and all hosts before that have entries:
  // offering it again makes no entries.
  ghost predicate SettledAt(hosts: seq<string>, loads: LoadTable, perHost: int, k: nat) {
    && k < |hosts| && !CanExecute(hosts[..k + 1], loads, perHost)
    && forall j :: 0 <= j < k ==> hosts[j] in loads
  }

  ghost predicate Settled(hosts: seq<string>, loads: LoadTable, perHost: int) {
    exists k :: SettledAt(hosts, loads, perHost, k)
  }

  lemma ScannedNoFurther(hosts: seq<string>, loads: LoadTable, perHost: int, k: nat)
    requires k < |hosts| && !CanExecute(hosts[..k + 1], loads, perHost)
    ensures Scanned(hosts, loads, perHost) <= k
  {
    var n := Scanned(hosts, loads, perHost);
    if k < n && CanExecute(hosts[..n], loads, perHost) {
      ShorterAdmitted(hosts, loads, perHost, k + 1, n);
    }
  }

  lemma ShorterAdmitted(hosts: seq<string>, loads: LoadTable, perHost: int, k: nat, n: nat)
    requires k <= n <= |hosts|
    ensures CanExecute(hosts[..n], loads, perHost) ==> CanExecute(hosts[..k], loads, perHost)
  {
    if CanExecute(hosts[..n], loads, perHost) {
      PrefixAdmitted(hosts[..n], loads, perHost, k);
      assert hosts[..n][..k] == hosts[..k];
    }
  }

  lemma SettledIsRefused(hosts: seq<string>, loads: LoadTable, perHost: int, now: int)
    requires Settled(hosts, loads, perHost)
    ensures !CanExecute(hosts, loads, perHost)
    ensures Touched(hosts, loads, perHost, now) == loads
  {
    var k :| SettledAt(hosts, loads, perHost, k);
    ScannedNoFurther(hosts, loads, perHost, k);
    ScanReachesEnd(hosts, loads, perHost);
    var n := Scanned(hosts, loads, perHost);
    assert forall h :: h in hosts[..n] ==> h in loads;
  }

  lemma RefusedSettles(hosts: seq<string>, loads: LoadTable, perHost: int, now: int)
    requires !CanExecute(hosts, loads, perHost)
    ensures Settled(hosts, Touched(hosts, loads, perHost, now), perHost)
  {
    var k := Scanned(hosts, loads, perHost);
    var touched := Touched(hosts, loads, perHost, now);
    ScanReachesEnd(hosts, loads, perHost);
    TouchedIsSame(hosts, loads, perHost, now);
    RefusalIsStable(hosts[..k + 1], loads, touched, perHost);
    assert forall j :: 0 <= j < k ==> hosts[j] in hosts[..k];
    assert SettledAt(hosts, touched, perHost, k);
  }

  lemma SettledStays(hosts: seq<string>, a: LoadTable, b: LoadTable, perHost: int)
    requires Settled(hosts, a, perHost) && Heavier(a, b, perHost)
    ensures Settled(hosts, b, perHost)
  {
    var k :| SettledAt(hosts, a, perHost, k);
    RefusalIsStable(hosts[..k + 1], a, b, perHost);
    assert SettledAt(hosts, b, perHost, k);
  }

  // The task before the index, if there is one, has been refused.
  ghost predicate RefusedBefore(s: State, i: nat) {
    0 < i <= |s.queue| ==> Settled(s.queue[i - 1].hosts, s.loads, s.cfg.perHost)
  }

  // ----- The scan is the pass -----

  ghost predicate IsPass(s: State, i: nat, now: int)
    requires |s.chans| > 0 && i <= |s.queue|
  {
    var p, r := PassFrom(s, i, now), Scan(s, i, now);
    r.state == Result(s, s.queue[..i], p) && (r.overflow <==> p.returned != [])
  }

  lemma PassAtEnd(s: State, i: nat, now: int)
    requires |s.chans| > 0 && i <= |s.queue| && (i == |s.queue| || |s.running| >= s.maxConcurrent)
    ensures IsPass(s, i, now)
  {
    assert [] + s.queue[..i] + s.queue[i..] == s.queue;
  }

  lemma Rest(q: seq<QueuedTask>, i: nat)
    requires i < |q|
    ensures q[i..] != [] && q[i..][0] == q[i] && q[i..][1..] == q[i + 1..]
  {}

  lemma PassSkips(s: State, i: nat, now: int)
    requires i < |s.queue| && |s.running| < s.maxConcurrent && !ExecutableAt(s, i)
    ensures var q := PassFrom(SkipAt(s, i, now), i + 1, now);
            PassFrom(s, i, now) == q.(kept := [s.queue[i]] + q.kept)
  {
    Rest(s.queue, i);
  }

  lemma ResultOnSkip(s: State, i: nat, now: int, p: Outcome, q: Outcome)
    requires |s.chans| > 0 && i < |s.queue| && p == q.(kept := [s.queue[i]] + q.kept)
    ensures Result(SkipAt(s, i, now), s.queue[..i + 1], q) == Result(s, s.queue[..i], p)
  {
    assert q.returned + s.queue[..i + 1] + q.kept == p.returned + s.queue[..i] + p.kept;
  }

  lemma PassOnSkip(s: State, i: nat, now: int) returns (n: State)
    requires WellFormed(s) && i < |s.queue| && |s.running| < s.maxConcurrent && !ExecutableAt(s, i)
    ensures n == SkipAt(s, i, now) && WellFormed(n) && RefusedBefore(n, i + 1)
    ensures Scan(s, i, now) == Scan(n, i + 1, now) && (IsPass(n, i + 1, now) ==> IsPass(s, i, now))
  {
    n := SkipAt(s, i, now);
    ScanSkips(s, i, now);
    TouchedIsSame(s.queue[i].hosts, s.loads, s.cfg.perHost, now);
    RefusedSettles(s.queue[i].hosts, s.loads, s.cfg.perHost, now);
    PassSkips(s, i, now);
    ResultOnSkip(s, i, now, PassFrom(s, i, now), PassFrom(n, i + 1, now));
  }

  lemma PassSends(s: State, n: State, i: nat, now: int)
    requires |s.running| < s.maxConcurrent && ExecutableAt(s, i) && FreeSlots(s.chans) > 0 && |s.chans| > 0
    requires n == Send(Dispatch(s, i, now), s.queue[i], LeastBusy(s.chans))
             && FreeSlots(n.chans) == FreeSlots(s.chans) - 1
    ensures i <= |n.queue| && n.queue[..i] == s.queue[..i] && |n.queue| == |s.queue| - 1
    ensures var q := PassFrom(n, i, now);
            PassFrom(s, i, now) == q.(sent := [s.queue[i]] + q.sent)
  {
    Rest(s.queue, i);
    assert s.queue[i + 1..] == n.queue[i..];
  }

  lemma ResultOnSend(s: State, n: State, i: nat, now: int, p: Outcome, q: Outcome)
    requires |s.chans| > 0 && i < |s.queue| && p == q.(sent := [s.queue[i]] + q.sent)
    requires n == Send(Dispatch(s, i, now), s.queue[i], LeastBusy(s.chans))
    ensures Result(n, s.queue[..i], q) == Result(s, s.queue[..i], p)
  {
    assert p.sent[1..] == q.sent;
  }

  lemma PassOnSend(s: State, i: nat, now: int) returns (n: State)
    requires WellFormed(s) && |s.running| < s.maxConcurrent && ExecutableAt(s, i) && FreeSlots(s.chans) > 0
    requires RefusedBefore(s, i)
    ensures WellFormed(n) && |n.queue| == |s.queue| - 1 && RefusedBefore(n, i) && i <= |n.queue|
    ensures Scan(s, i, now) == Scan(n, i, now) && (IsPass(n, i, now) ==> IsPass(s, i, now))
  {
    DispatchTarget(s, i, now);
    SendSlots(Dispatch(s, i, now), s.queue[i], LeastBusy(s.chans));
    n := Send(Dispatch(s, i, now), s.queue[i], LeastBusy(s.chans));
    ScanOnSend(s, i, now);
    PassSends(s, n, i, now);
    ResultOnSend(s, n, i, now, PassFrom(s, i, now), PassFrom(n, i, now));
    SendRefusedBefore(s, n, i, now);
  }

  lemma SendRefusedBefore(s: State, n: State, i: nat, now: int)
    requires RefusedBefore(s, i) && i < |s.queue| && |s.chans| > 0
    requires n == Send(Dispatch(s, i, now), s.queue[i], LeastBusy(s.chans))
    ensures RefusedBefore(n, i)
  {
    StepLoads(s.queue[i].hosts, s.loads, s.cfg.perHost, now);
    if i > 0 {
      assert n.queue[i - 1] == s.queue[i - 1];
      SettledStays(s.queue[i - 1].hosts, s.loads, n.loads, s.cfg.perHost);
    }
  }

  // ----- Put-backs -----

  lemma PutBackParts(s: State, b: State, i: nat, now: int)
    requires i < |s.queue| && b == PutBack(Dispatch(s, i, now), s.queue[i], now)
    ensures |b.queue| == |s.queue| && b.queue[i + 1..] == s.queue[i + 1..]
    ensures b.running == s.running - {s.queue[i].id}
    ensures b == s.(queue := b.queue, running := b.running, loads := b.loads)
    ensures var h, p := s.queue[i].hosts, s.cfg.perHost;
            b.loads == Released(Charged(Touched(h, s.loads, p, now), h, p, now), h, p, now)
  {
    var t := s.queue[i];
    assert s.running[t.id := t] - {t.id} == s.running - {t.id};
  }

  lemma PassReturns(s: State, b: State, i: nat, now: int)
    requires |s.running| < s.maxConcurrent && ExecutableAt(s, i) && FreeSlots(s.chans) <= 0
    requires b == PutBack(Dispatch(s, i, now), s.queue[i], now)
    ensures |b.queue| == |s.queue|
    ensures var q := PassFrom(b, i + 1, now);
            PassFrom(s, i, now) == q.(returned := q.returned + [s.queue[i]])
  {
    Rest(s.queue, i);
    PutBackParts(s, b, i, now);
  }

  lemma ResultOnReturn(s: State, b: State, i: nat, now: int, p: Outcome, q: Outcome)
    requires |s.chans| > 0 && i < |s.queue| && p == q.(returned := q.returned + [s.queue[i]])
    requires b == PutBack(Dispatch(s, i, now), s.queue[i], now)
    ensures Result(b, b.queue[..i + 1], q) == Result(s, s.queue[..i], p)
  {
    assert b.queue[..i + 1] == [s.queue[i]] + s.queue[..i];
    assert q.returned + b.queue[..i + 1] + q.kept == p.returned + s.queue[..i] + p.kept;
  }

  // After a put-back the task that slides under the index has been refused, so
  // the scan goes on behind it with nothing changed.
  lemma SlidesOn(b: State, i: nat, now: int)
    requires WellFormed(b) && i < |b.queue| && |b.running| < b.maxConcurrent
    requires Settled(b.queue[i].hosts, b.loads, b.cfg.perHost)
    ensures !ExecutableAt(b, i) && Scan(b, i, now) == Scan(b, i + 1, now) && RefusedBefore(b, i + 1)
  {
    SettledIsRefused(b.queue[i].hosts, b.loads, b.cfg.perHost, now);
    assert SkipAt(b, i, now) == b;
    ScanSkips(b, i, now);
  }

  // A refused list whose hosts all have entries is settled.
  lemma KnownSettles(hosts: seq<string>, loads: LoadTable, perHost: int)
    requires !CanExecute(hosts, loads, perHost) && forall h :: h in hosts ==> h in loads
    ensures Settled(hosts, loads, perHost)
  {
    var k := Scanned(hosts, loads, perHost);
    ScanReachesEnd(hosts, loads, perHost);
    assert SettledAt(hosts, loads, perHost, k);
  }

  lemma PutBackSettles(s: State, b: State, i: nat, now: int)
    requires WellFormed(s) && i < |s.queue| && RefusedBefore(s, i)
    requires b == PutBack(Dispatch(s, i, now), s.queue[i], now)
    requires i > 0 || !ExecutableAt(b, 0)
    ensures |b.queue| == |s.queue| && Settled(b.queue[i].hosts, b.loads, b.cfg.perHost)
  {
    PutBackParts(s, b, i, now);
    PutBackLoads(s.queue[i].hosts, s.loads, s.cfg.perHost, now);
    if i > 0 {
      assert b.queue[i] == s.queue[i - 1];
      SettledStays(s.queue[i - 1].hosts, s.loads, b.loads, s.cfg.perHost);
    } else {
      assert b.queue[0] == s.queue[0];
      KnownSettles(s.queue[0].hosts, b.loads, s.cfg.perHost);
    }
  }

  lemma FewerRunning(running: map<string, QueuedTask>, t: QueuedTask)
    ensures |running[t.id := t] - {t.id}| <= |running|
  {
    var r := running[t.id := t] - {t.id};
    assert r.Keys <= running.Keys;
    assert running.Keys == r.Keys + (running.Keys - r.Keys);
  }

  lemma PassOnReturn(s: State, i: nat, now: int) returns (b: State)
    requires WellFormed(s) && |s.running| < s.maxConcurrent && ExecutableAt(s, i) && FreeSlots(s.chans) == 0
    requires RefusedBefore(s, i) && !Scan(s, i, now).stuck
    ensures WellFormed(b) && |b.queue| == |s.queue| && RefusedBefore(b, i + 1) && !Scan(b, i + 1, now).stuck
    ensures IsPass(b, i + 1, now) ==> IsPass(s, i, now)
  {
    b := PutBack(Dispatch(s, i, now), s.queue[i], now);
    DispatchTarget(s, i, now);
    LeastBusyFull(s.chans);
    ScanPutsBack(s, i, now);
    ScanOnPutBack(s, i, now);
    FewerRunning(s.running, s.queue[i]);
    PutBackSettles(s, b, i, now);
    SlidesOn(b, i, now);
    PassReturns(s, b, i, now);
    ResultOnReturn(s, b, i, now, PassFrom(s, i, now), PassFrom(b, i + 1, now));
  }

  lemma PassStep(s: State, i: nat, now: int) returns (n: State, j: nat)
    requires WellFormed(s) && i < |s.queue| && |s.running| < s.maxConcurrent
    requires RefusedBefore(s, i) && !Scan(s, i, now).stuck
    ensures WellFormed(n) && j <= |n.queue| && |n.queue| - j < |s.queue| - i
    ensures RefusedBefore(n, j) && !Scan(n, j, now).stuck
    ensures IsPass(n, j, now) ==> IsPass(s, i, now)
  {
    LeastBusyFull(s.chans);
    if !ExecutableAt(s, i) {
      n := PassOnSkip(s, i, now);
      j := i + 1;
    } else if FreeSlots(s.chans) > 0 {
      n := PassOnSend(s, i, now);
      j := i;
    } else {
      n := PassOnReturn(s, i, now);
      j := i + 1;
    }
  }

  // The refinement for all channels, free or full: unless it spins, the index
  // scan with its splicing, stepping back and putting back is the pass.
  lemma {:induction false} ScanIsPass(s: State, i: nat, now: int)
    requires WellFormed(s) && i <= |s.queue| && RefusedBefore(s, i) && !Scan(s, i, now).stuck
    ensures IsPass(s, i, now)
    decreases |s.queue| - i
  {
    if i == |s.queue| || |s.running| >= s.maxConcurrent {
      PassAtEnd(s, i, now);
    } else {
      var n, j := PassStep(s, i, now);
      ScanIsPass(n, j, now);
    }
  }

  // ----- When put-backs break the order -----

  // One put-back keeps a sorted queue sorted exactly if no task that it passes
  // must be served before the task put back.
  lemma PutBackKeepsOrderExactly(q: seq<QueuedTask>, i: nat)
    requires Sorted(q) && i < |q|
    ensures Sorted([q[i]] + Without(q, i)) <==> forall j :: 0 <= j < i ==> !Before(q[j], q[i])
  {
    var w := Without(q, i);
    WithoutKeepsOrder(q, i);
    assert forall k :: 0 <= k < |w| ==> w[k] == if k < i then q[k] else q[k + 1];
    FrontKeepsOrder(q[i], w);
    if forall j :: 0 <= j < i ==> !Before(q[j], q[i]) {
      forall k | 0 <= k < |w| ensures !Before(w[k], q[i]) {}
    }
    if forall k :: 0 <= k < |w| ==> !Before(w[k], q[i]) {
      forall j | 0 <= j < i ensures !Before(q[j], q[i]) {
        assert w[j] == q[j];
      }
    }
  }

  lemma FrontKeepsOrder(t: QueuedTask, w: seq<QueuedTask>)
    requires Sorted(w)
    ensures Sorted([t] + w) <==> forall k :: 0 <= k < |w| ==> !Before(w[k], t)
  {
    var r := [t] + w;
    if Sorted(r) {
      forall k | 0 <= k < |w| ensures !Before(w[k], t) {
        assert r[k + 1] == w[k] && r[0] == t;
      }
    }
  }

  // The tasks put back stand in the order opposite to the queue's, the others in
  // the queue's.
  ghost predicate Parts(q: seq<QueuedTask>, returned: seq<QueuedTask>, kept: seq<QueuedTask>) {
    && (forall t :: t in returned ==> t in q) && (forall t :: t in kept ==> t in q)
    && Sorted(kept)
    && forall i, j :: 0 <= i < j < |returned| ==> !Before(returned[i], returned[j])
  }

  lemma PartsOnSend(t: QueuedTask, q: seq<QueuedTask>, returned: seq<QueuedTask>, kept: seq<QueuedTask>)
    requires Parts(q, returned, kept)
    ensures Parts([t] + q, returned, kept)
  {}

  lemma PartsOnKeep(t: QueuedTask, q: seq<QueuedTask>, returned: seq<QueuedTask>, kept: seq<QueuedTask>)
    requires Parts(q, returned, kept) && forall u :: u in q ==> !Before(u, t)
    ensures Parts([t] + q, returned, [t] + kept)
  {
    forall k | 0 <= k < |kept| ensures !Before(kept[k], t) {
      assert kept[k] in kept;
    }
    FrontKeepsOrder(t, kept);
  }

  lemma PartsOnReturn(t: QueuedTask, q: seq<QueuedTask>, returned: seq<QueuedTask>, kept: seq<QueuedTask>)
    requires Parts(q, returned, kept) && forall u :: u in q ==> !Before(u, t)
    ensures Parts([t] + q, returned + [t], kept)
  {
    forall k | 0 <= k < |returned| ensures !Before(returned[k], t) {
      assert returned[k] in returned;
    }
  }

  lemma SortedTail(q: seq<QueuedTask>)
    requires Sorted(q) && q != []
    ensures Sorted(q[1..]) && q == [q[0]] + q[1..] && forall u :: u in q[1..] ==> !Before(u, q[0])
  {
    forall u | u in q[1..] ensures !Before(u, q[0]) {
      var k :| 0 <= k < |q[1..]| && q[1..][k] == u;
      assert q[k + 1] == u;
    }
  }

  lemma {:induction false} PassParts(q: seq<QueuedTask>, free: int, running: map<string, QueuedTask>, loads: LoadTable,
                                     cap: int, perHost: int, now: int) returns (p: Outcome)
    requires Sorted(q)
    ensures p == Pass(q, free, running, loads, cap, perHost, now) && Parts(q, p.returned, p.kept)
  {
    p := Pass(q, free, running, loads, cap, perHost, now);
    if q != [] && |running| < cap {
      SortedTail(q);
      var t := q[0];
      var touched := Touched(t.hosts, loads, perHost, now);
      var charged := Charged(touched, t.hosts, perHost, now);
      if !CanExecute(t.hosts, loads, perHost) {
        var r := PassParts(q[1..], free, running, touched, cap, perHost, now);
        PartsOnKeep(t, q[1..], r.returned, r.kept);
      } else if free > 0 {
        var r := PassParts(q[1..], free - 1, running[t.id := t], charged, cap, perHost, now);
        PartsOnSend(t, q[1..], r.returned, r.kept);
      } else {
        var r := PassParts(q[1..], free, running - {t.id}, Released(charged, t.hosts, perHost, now), cap, perHost, now);
        PartsOnReturn(t, q[1..], r.returned, r.kept);
      }
    }
  }

  // A pass that does not spin leaves a sorted queue sorted exactly if no task it
  // leaves in the queue must be served before one that it put back.
  lemma PassKeepsOrderExactly(s: State, now: int)
    requires WellFormed(s) && Sorted(s.queue) && !Scan(s, 0, now).stuck
    ensures var p := PassFrom(s, 0, now);
            Sorted(Scan(s, 0, now).state.queue) <==>
            forall t, u :: t in p.returned && u in p.returned + p.kept ==> !Before(u, t)
  {
    QueueAfterPass(s, now);
    var p := PassParts(s.queue, FreeSlots(s.chans), s.running, s.loads, s.maxConcurrent, s.cfg.perHost, now);
    OrderOfParts(p.returned, p.kept);
  }

  lemma Joined(a: seq<QueuedTask>, b: seq<QueuedTask>, q: seq<QueuedTask>)
    ensures a + q[..0] + b == a + b && q[0..] == q
  {}

  lemma ResultQueue(s: State, i: nat, now: int) returns (q: seq<QueuedTask>)
    requires |s.chans| > 0 && i <= |s.queue| && IsPass(s, i, now)
    ensures q == Scan(s, i, now).state.queue
    ensures q == PassFrom(s, i, now).returned + s.queue[..i] + PassFrom(s, i, now).kept
  {
    q := Result(s, s.queue[..i], PassFrom(s, i, now)).queue;
  }

  lemma QueueAfterPass(s: State, now: int)
    requires WellFormed(s) && !Scan(s, 0, now).stuck
    ensures var p := PassFrom(s, 0, now);
            && p == Pass(s.queue, FreeSlots(s.chans), s.running, s.loads, s.maxConcurrent, s.cfg.perHost, now)
            && Scan(s, 0, now).state.queue == p.returned + p.kept
  {
    ScanIsPass(s, 0, now);
    var q := ResultQueue(s, 0, now);
    Joined(PassFrom(s, 0, now).returned, PassFrom(s, 0, now).kept, s.queue);
  }

  lemma OrderOfParts(a: seq<QueuedTask>, b: seq<QueuedTask>)
    requires Sorted(b) && forall i, j :: 0 <= i < j < |a| ==> !Before(a[i], a[j])
    ensures Sorted(a + b) <==> forall t, u :: t in a && u in a + b ==> !Before(u, t)
  {
    var q := a + b;
    if Sorted(q) {
      forall t, u | t in a && u in q ensures !Before(u, t) {
        var i :| 0 <= i < |a| && a[i] == t;
        var j :| 0 <= j < |q| && q[j] == u;
        assert q[i] == t;
      }
    }
    if forall t, u :: t in a && u in a + b ==> !Before(u, t) {
      forall i, j | 0 <= i < j < |q| ensures !Before(q[j], q[i]) {
        assert i < |a| ==> q[i] in a;
      }
    }
  }

}
