// Two sweeps that visit the late commands in different orders leave the same
// tables: a task's record depends only on how many of its commands were visited.
module Sweeps {
  import opened Common
  import opened Statuses
  import opened Progress
  import opened TaskStoreModel
  import opened LifecycleInvariants
  import opened Timeouts
  import opened Completion

  // The task's commands among the listed ones, and their rows.
  ghost function Visited(db: Db, listed: set<string>, task: string): set<string> {
    set c | c in listed && c in CommandsOf(db, task)
  }

  ghost function VisitedRows(db: Db, listed: set<string>, task: string): set<nat> {
    set r | r in RowsOf(db, task) && db.rows[r].commandId in listed
  }

  lemma VisitedSize(db: Db, listed: set<string>, task: string)
    requires Linked(db)
    ensures |VisitedRows(db, listed, task)| == |Visited(db, listed, task)|
  {
    var f := (r: nat) requires r in db.rows => db.rows[r].commandId;
    forall c | c in Visited(db, listed, task) ensures exists r :: r in VisitedRows(db, listed, task) && f(r) == c {
      var r :| r in db.rows && db.rows[r].commandId == c;
      assert r in VisitedRows(db, listed, task);
    }
    SameSize(VisitedRows(db, listed, task), Visited(db, listed, task), f);
  }

  lemma VisitedWith(db: Db, listed: set<string>, c: string, task: string)
    requires c !in listed && c in db.commands
    ensures |Visited(db, listed + {c}, task)|
            == |Visited(db, listed, task)| + if BelongsTo(db.commands[c], task) then 1 else 0
  {
    var v := Visited(db, listed, task);
    assert Visited(db, listed + {c}, task) == if BelongsTo(db.commands[c], task) then v + {c} else v;
  }

  // ----- The counts after some commands have been timed out -----

  // The task's rows by status when k of its running ones have timed out.
  ghost function Swept(db: Db, task: string, k: nat): Tally {
    var running := |RowsWithStatus(db, task, HostRunning)|;
    MakeTally(|RowsWithStatus(db, task, HostPending)|, if k <= running then running - k else 0,
              |RowsWithStatus(db, task, HostFailed)|, |RowsWithStatus(db, task, HostExecFailed)|,
              |RowsWithStatus(db, task, HostTimeout)| + k, |RowsWithStatus(db, task, HostCanceled)|,
              |RowsWithStatus(db, task, HostCompleted)|)
  }

  lemma VisitedRun(db: Db, listed: set<string>, task: string)
    requires Intact(db) && listed <= RunningCommands(db)
    ensures VisitedRows(db, listed, task) <= RowsWithStatus(db, task, HostRunning)
  {
    forall r | r in VisitedRows(db, listed, task) ensures db.rows[r].status == HostRunning {
      var c := db.rows[r].commandId;
      assert c in RunningCommands(db) && db.commands[c].status == Image(db.rows[r].status);
    }
  }

  lemma StatusRows(db: Db, d: Db, listed: set<string>, task: string, h: HostStatus, now: int)
    requires TimesOut(db, d, listed, now)
    requires VisitedRows(db, listed, task) <= RowsWithStatus(db, task, HostRunning)
    ensures RowsWithStatus(d, task, h) ==
            if h.HostRunning? then RowsWithStatus(db, task, h) - VisitedRows(db, listed, task)
            else if h.HostTimeout? then RowsWithStatus(db, task, h) + VisitedRows(db, listed, task)
            else RowsWithStatus(db, task, h)
  {
    assert RowsOf(d, task) == RowsOf(db, task);
    forall r | r in RowsOf(db, task)
      ensures d.rows[r].status == if r in VisitedRows(db, listed, task) then HostTimeout else db.rows[r].status
    {}
    forall r ensures r in RowsWithStatus(d, task, h) <==> r in RowsOf(db, task) && d.rows[r].status == h {}
  }

  lemma TakenAndAdded<T>(a: set<T>, b: set<T>, c: set<T>)
    requires c <= a && b !! c
    ensures |a - c| == |a| - |c| && |b + c| == |b| + |c| && |c| <= |a|
  {
    assert a == (a - c) + c;
  }

  // k of the task's rows have moved from running to timed out.
  ghost predicate Shifted(db: Db, d: Db, task: string, h: HostStatus, k: nat) {
    var n := |RowsWithStatus(db, task, h)|;
    && (h.HostRunning? ==> k <= n)
    && |RowsWithStatus(d, task, h)| == if h.HostRunning? then n - k else if h.HostTimeout? then n + k else n
  }

  lemma StatusCounts(db: Db, d: Db, listed: set<string>, task: string, h: HostStatus, now: int)
    requires Intact(db) && listed <= RunningCommands(db) && TimesOut(db, d, listed, now)
    ensures Shifted(db, d, task, h, |Visited(db, listed, task)|)
  {
    var rs := VisitedRows(db, listed, task);
    VisitedRun(db, listed, task);
    VisitedSize(db, listed, task);
    TakenAndAdded(RowsWithStatus(db, task, HostRunning), RowsWithStatus(db, task, HostTimeout), rs);
    StatusRows(db, d, listed, task, h, now);
  }

  lemma ShiftedTally(db: Db, d: Db, task: string, k: nat)
    requires forall h :: Shifted(db, d, task, h, k)
    ensures TallyOf(d, task) == Swept(db, task, k)
  {
    assert Shifted(db, d, task, HostPending, k) && Shifted(db, d, task, HostRunning, k);
    assert Shifted(db, d, task, HostFailed, k) && Shifted(db, d, task, HostExecFailed, k);
    assert Shifted(db, d, task, HostTimeout, k) && Shifted(db, d, task, HostCanceled, k);
    assert Shifted(db, d, task, HostCompleted, k);
  }

  lemma TallyAfterSweep(db: Db, d: Db, listed: set<string>, task: string, now: int)
    requires Intact(db) && listed <= RunningCommands(db) && TimesOut(db, d, listed, now)
    ensures TallyOf(d, task) == Swept(db, task, |Visited(db, listed, task)|)
  {
    var k := |Visited(db, listed, task)|;
    forall h ensures Shifted(db, d, task, h, k) {
      StatusCounts(db, d, listed, task, h, now);
    }
    ShiftedTally(db, d, task, k);
  }

  // ----- The task's record -----

  // The record of the task after as many of its commands have been handled as
  // there are orders; each progress query found its groups in one of them.
  ghost function RecordAfter(db: Db, task: string, orders: seq<seq<HostStatus>>, now: int): Task
    requires task in db.tasks
  {
    if orders == [] then db.tasks[task]
    else
      var n := |orders| - 1;
      Progressed(RecordAfter(db, task, orders[..n], now), FoldGroups(orders[n], Swept(db, task, n + 1)), now, false)
  }

  // The orders found for the task's commands, as a sweep visits them.
  ghost function OrdersFor(db: Db, late: seq<string>, orders: string -> seq<HostStatus>, task: string)
    : (os: seq<seq<HostStatus>>)
  {
    if late == [] then []
    else
      var n := |late| - 1;
      var front := OrdersFor(db, late[..n], orders, task);
      if late[n] in CommandsOf(db, task) then front + [orders(late[n])] else front
  }

  // Handling one command changes the record of its task only, from the counts
  // after its own rows have been timed out.
  lemma HandledTask(db: Db, m: Db, listed: set<string>, c: string, order: seq<HostStatus>, now: int, u: string)
    returns (s: Db)
    requires TimesOut(db, m, listed, now) && c in m.commands && m.commands[c].taskId == Some(u) && u in m.tasks
    ensures TimesOut(db, s, listed + {c}, now)
    ensures TimeOutOne(m, c, order, now).tasks
            == m.tasks[u := Progressed(m.tasks[u], FoldGroups(order, TallyOf(s, u)), now, false)]
  {
    s := SetBoth(m, {c}, ToAt(CommandTimeout, now), RowsOfCommand(m, c), ToAt(HostTimeout, now));
    BothStep(db, m, listed, c, ToAt(CommandTimeout, now), ToAt(HostTimeout, now));
  }

  lemma TaskOfCommand(db: Db, m: Db, c: string) returns (u: string)
    requires Linked(m) && SameShape(db, m) && c in db.commands
    ensures c in m.commands && m.commands[c].taskId == Some(u) && u in m.tasks && db.commands[c].taskId == Some(u)
  {
    u := m.commands[c].taskId.value;
  }

  lemma TasksAfterHandling(db: Db, m: Db, listed: set<string>, c: string, order: seq<HostStatus>, now: int, u: string)
    requires TimesOut(db, m, listed, now) && c in m.commands && m.commands[c].taskId == Some(u) && u in m.tasks
    requires Intact(db) && listed + {c} <= RunningCommands(db) && c in db.commands && db.commands[c].taskId == Some(u)
    ensures TimeOutOne(m, c, order, now).tasks
            == m.tasks[u := NextRecord(db, m.tasks[u], listed + {c}, c, order, now, u)]
  {
    var s := HandledTask(db, m, listed, c, order, now, u);
    TallyAfterSweep(db, s, listed + {c}, u, now);
  }

  // The record of a task after the command, one of the listed, has been handled.
  ghost function NextRecord(db: Db, record: Task, listed: set<string>, c: string, order: seq<HostStatus>, now: int,
                            t: string): Task
    requires c in db.commands
  {
    if BelongsTo(db.commands[c], t)
    then Progressed(record, FoldGroups(order, Swept(db, t, |Visited(db, listed, t)|)), now, false)
    else record
  }

  lemma EachNextRecord(db: Db, before: map<string, Task>, after: map<string, Task>, listed: set<string>, c: string,
                       order: seq<HostStatus>, now: int, t: string, u: string)
    requires c in db.commands && db.commands[c].taskId == Some(u) && u in before && t in before
    requires after == before[u := NextRecord(db, before[u], listed, c, order, now, u)]
    ensures t in after && after[t] == NextRecord(db, before[t], listed, c, order, now, t)
  {}

  lemma OneMoreHandled(db: Db, m: Db, listed: set<string>, c: string, order: seq<HostStatus>, now: int, t: string)
    requires Intact(db) && Linked(m) && SameShape(db, m) && TimesOut(db, m, listed, now)
    requires listed + {c} <= RunningCommands(db) && c in db.commands && t in m.tasks
    ensures var d := TimeOutOne(m, c, order, now);
            t in d.tasks && d.tasks[t] == NextRecord(db, m.tasks[t], listed + {c}, c, order, now, t)
  {
    var u := TaskOfCommand(db, m, c);
    TasksAfterHandling(db, m, listed, c, order, now, u);
    EachNextRecord(db, m.tasks, TimeOutOne(m, c, order, now).tasks, listed + {c}, c, order, now, t, u);
  }

  ghost predicate ListsRunning(db: Db, late: seq<string>) {
    && Elements(late) <= RunningCommands(db)
    && forall i, j :: 0 <= i < j < |late| ==> late[i] != late[j]
  }

  lemma LastIsNew(db: Db, late: seq<string>, n: nat)
    requires n == |late| - 1 && ListsRunning(db, late)
    ensures Elements(late) == Elements(late[..n]) + {late[n]} && late[n] !in Elements(late[..n])
    ensures ListsRunning(db, late[..n]) && Elements(late[..n]) <= db.commands.Keys && late[n] in db.commands
  {
    ElementsSnoc(late, n);
    assert late[n] in RunningCommands(db);
  }

  lemma SweptButLast(db: Db, late: seq<string>, orders: string -> seq<HostStatus>, now: int) returns (m: Db)
    requires Intact(db) && ListsRunning(db, late) && late != []
    ensures var front, last := late[..|late| - 1], late[|late| - 1];
            && m == TimeOutAll(db, front, orders, now)
            && Linked(m) && SameShape(db, m) && TimesOut(db, m, Elements(front), now)
            && TimeOutAll(db, late, orders, now) == TimeOutOne(m, last, orders(last), now)
  {
    var front := late[..|late| - 1];
    LastIsNew(db, late, |late| - 1);
    m := TimeOutAll(db, front, orders, now);
    TimeOutAllKeeps(db, front, orders, now);
    SweepEffect(db, front, orders, now);
  }

  // One order for each of the task's commands.
  lemma {:induction false} OrdersCount(db: Db, late: seq<string>, orders: string -> seq<HostStatus>, task: string)
    requires ListsRunning(db, late)
    ensures |OrdersFor(db, late, orders, task)| == |Visited(db, Elements(late), task)|
  {
    if late == [] {
      assert Visited(db, Elements(late), task) == {};
    } else {
      var n := |late| - 1;
      LastIsNew(db, late, n);
      OrdersCount(db, late[..n], orders, task);
      VisitedWith(db, Elements(late[..n]), late[n], task);
    }
  }

  lemma RecordsStep(db: Db, m: Db, late: seq<string>, n: nat, orders: string -> seq<HostStatus>, now: int, task: string)
    requires Intact(db) && Linked(m) && SameShape(db, m) && ListsRunning(db, late) && n == |late| - 1
    requires TimesOut(db, m, Elements(late[..n]), now) && task in db.tasks && task in m.tasks
    requires m.tasks[task] == RecordAfter(db, task, OrdersFor(db, late[..n], orders, task), now)
    ensures var d := TimeOutOne(m, late[n], orders(late[n]), now);
            task in d.tasks && d.tasks[task] == RecordAfter(db, task, OrdersFor(db, late, orders, task), now)
  {
    LastIsNew(db, late, n);
    OneMoreHandled(db, m, Elements(late[..n]), late[n], orders(late[n]), now, task);
    OrdersCount(db, late, orders, task);
    OneMoreOrder(db, late, n, orders, now, task);
  }

  lemma OneMoreOrder(db: Db, late: seq<string>, n: nat, orders: string -> seq<HostStatus>, now: int, task: string)
    requires n == |late| - 1 && late[n] in db.commands && task in db.tasks
    ensures var before := RecordAfter(db, task, OrdersFor(db, late[..n], orders, task), now);
            var after := OrdersFor(db, late, orders, task);
            RecordAfter(db, task, after, now)
            == if BelongsTo(db.commands[late[n]], task)
               then Progressed(before, FoldGroups(orders(late[n]), Swept(db, task, |after|)), now, false)
               else before
  {
    var front := OrdersFor(db, late[..n], orders, task);
    assert (front + [orders(late[n])])[..|front|] == front;
  }

  lemma NoneSwept(db: Db, orders: string -> seq<HostStatus>, now: int, task: string)
    requires task in db.tasks
    ensures TimeOutAll(db, [], orders, now) == db
    ensures db.tasks[task] == RecordAfter(db, task, OrdersFor(db, [], orders, task), now)
  {}

  // After a sweep a task's record follows from the orders of groups that the
  // queries for its own commands found, and from nothing else of the sweep.
  lemma {:induction false} RecordsAfterSweep(db: Db, late: seq<string>, orders: string -> seq<HostStatus>, now: int,
                                             task: string)
    requires Intact(db) && ListsRunning(db, late) && task in db.tasks
    ensures var d := TimeOutAll(db, late, orders, now);
            task in d.tasks && d.tasks[task] == RecordAfter(db, task, OrdersFor(db, late, orders, task), now)
  {
    if late == [] {
      NoneSwept(db, orders, now, task);
    } else {
      var n := |late| - 1;
      LastIsNew(db, late, n);
      var m := SweptButLast(db, late, orders, now);
      RecordsAfterSweep(db, late[..n], orders, now, task);
      RecordsStep(db, m, late, n, orders, now, task);
    }
  }

  // ----- When the order of the visits does not matter -----

  // The queries for the commands of one task all find the groups in one order.
  ghost predicate OneOrderPerTask(db: Db, listed: set<string>, orders: string -> seq<HostStatus>) {
    forall c, d ::
      (c in listed && d in listed && c in db.commands && d in db.commands
       && db.commands[c].taskId == db.commands[d].taskId)
      ==> orders(c) == orders(d)
  }

  lemma {:induction false} OrdersAre(db: Db, late: seq<string>, orders: string -> seq<HostStatus>, task: string,
                                     o: seq<HostStatus>)
    requires forall c :: c in late && c in CommandsOf(db, task) ==> orders(c) == o
    ensures forall i :: 0 <= i < |OrdersFor(db, late, orders, task)| ==> OrdersFor(db, late, orders, task)[i] == o
  {
    if late != [] {
      OrdersAre(db, late[..|late| - 1], orders, task, o);
    }
  }

  lemma SameOrdersFor(db: Db, a: seq<string>, b: seq<string>, orders: string -> seq<HostStatus>, task: string)
    requires ListsRunning(db, a) && ListsRunning(db, b) && Elements(a) == Elements(b)
    requires OneOrderPerTask(db, Elements(a), orders)
    ensures OrdersFor(db, a, orders, task) == OrdersFor(db, b, orders, task)
  {
    OrdersCount(db, a, orders, task);
    OrdersCount(db, b, orders, task);
    if c :| c in Visited(db, Elements(a), task) {
      OrdersAre(db, a, orders, task, orders(c));
      OrdersAre(db, b, orders, task, orders(c));
    }
  }

  // Two sweeps that list the late commands differently leave the same tables,
  // task records included, if the queries for the commands of one task find the
  // same order of groups.
  lemma SweepOrderDoesNotMatter(db: Db, a: seq<string>, b: seq<string>, orders: string -> seq<HostStatus>, now: int)
    requires Intact(db) && OneOrderPerTask(db, LateCommands(db, now), orders)
    requires IsListing(a, LateCommands(db, now)) && IsListing(b, LateCommands(db, now))
    ensures TimeOutAll(db, a, orders, now) == TimeOutAll(db, b, orders, now)
  {
    SweepExactly(db, a, orders, now);
    SweepExactly(db, b, orders, now);
    forall t | t in db.tasks
      ensures SameRecords(TimeOutAll(db, a, orders, now), TimeOutAll(db, b, orders, now), t)
    {
      SameWithOneOrder(db, a, b, orders, now, t);
    }
    SameTables(db, TimeOutAll(db, a, orders, now), TimeOutAll(db, b, orders, now), LateCommands(db, now), now);
  }

  lemma SameWithOneOrder(db: Db, a: seq<string>, b: seq<string>, orders: string -> seq<HostStatus>, now: int, t: string)
    requires Intact(db) && OneOrderPerTask(db, LateCommands(db, now), orders) && t in db.tasks
    requires IsListing(a, LateCommands(db, now)) && IsListing(b, LateCommands(db, now))
    ensures SameRecords(TimeOutAll(db, a, orders, now), TimeOutAll(db, b, orders, now), t)
  {
    ListsLate(db, a, now);
    ListsLate(db, b, now);
    RecordsAfterSweep(db, a, orders, now, t);
    RecordsAfterSweep(db, b, orders, now, t);
    SameOrdersFor(db, a, b, orders, t);
  }

  lemma ListsLate(db: Db, late: seq<string>, now: int)
    requires IsListing(late, LateCommands(db, now))
    ensures Elements(late) == LateCommands(db, now) && ListsRunning(db, late)
  {}

  ghost predicate SameRecords(d: Db, e: Db, t: string) {
    t in d.tasks && t in e.tasks && d.tasks[t] == e.tasks[t]
  }

  lemma SameTables(db: Db, d: Db, e: Db, listed: set<string>, now: int)
    requires SameShape(db, d) && SameShape(db, e) && TimesOut(db, d, listed, now) && TimesOut(db, e, listed, now)
    requires forall t :: t in db.tasks ==> SameRecords(d, e, t)
    ensures d == e
  {
    assert d.tasks == e.tasks;
  }

  // ----- Whatever orders the queries find -----

  // With a right host total, the counts after k timeouts never add up to the
  // total while more rows are running.
  lemma NotFinishedYet(db: Db, task: string, order: seq<HostStatus>, k: nat)
    requires Linked(db) && task in db.tasks && db.tasks[task].total == |CommandsOf(db, task)| && IsGroupOrder(order)
    requires k < |RowsWithStatus(db, task, HostRunning)|
    ensures var c := FoldGroups(order, Swept(db, task, k));
            c.running > 0 && c.completed + c.failed + c.canceled < db.tasks[task].total
  {
    RowsMatchCommands(db, task);
    TallyCountsAll(db, task);
    SweptCounts(db, task, k);
    FoldAgreesExactly(order, Swept(db, task, k));
    TallySize(Swept(db, task, k));
  }

  lemma SweptCounts(db: Db, task: string, k: nat)
    requires k <= |RowsWithStatus(db, task, HostRunning)|
    ensures |Swept(db, task, k)| == |TallyOf(db, task)|
    ensures Swept(db, task, k)[HostRunning] == |RowsWithStatus(db, task, HostRunning)| - k
    ensures Swept(db, task, k)[HostFailed] == |RowsWithStatus(db, task, HostFailed)|
    ensures Swept(db, task, k)[HostExecFailed] == |RowsWithStatus(db, task, HostExecFailed)|
    ensures Swept(db, task, k)[HostTimeout] == |RowsWithStatus(db, task, HostTimeout)| + k
  {
    MovedTally(|RowsWithStatus(db, task, HostPending)|, |RowsWithStatus(db, task, HostRunning)|,
               |RowsWithStatus(db, task, HostFailed)|, |RowsWithStatus(db, task, HostExecFailed)|,
               |RowsWithStatus(db, task, HostTimeout)|, |RowsWithStatus(db, task, HostCanceled)|,
               |RowsWithStatus(db, task, HostCompleted)|, k);
  }

  lemma MovedTally(pending: nat, running: nat, failed: nat, execFailed: nat, timeout: nat, canceled: nat,
                   completed: nat, k: nat)
    requires k <= running
    ensures var a := MakeTally(pending, running, failed, execFailed, timeout, canceled, completed);
            var b := MakeTally(pending, running - k, failed, execFailed, timeout + k, canceled, completed);
            && |a| == |b| && b[HostRunning] == running - k && b[HostTimeout] == timeout + k
            && b[HostFailed] == failed && b[HostExecFailed] == execFailed
  {
    MakeTallyAt(pending, running, failed, execFailed, timeout, canceled, completed);
    MakeTallyAt(pending, running - k, failed, execFailed, timeout + k, canceled, completed);
  }

  // A record but for its two counts.
  function Uncounted(t: Task): Task {
    t.(completed := 0, failed := 0)
  }

  function Underway(t: Task, now: int): Task {
    t.(status := TaskRunning, startedAt := if t.startedAt.None? then Some(now) else t.startedAt)
  }

  lemma StepUnderway(t: Task, c: Counts, now: int)
    requires c.running > 0 && c.completed + c.failed + c.canceled < t.total
    ensures Uncounted(Progressed(t, c, now, false)) == Uncounted(Underway(t, now))
  {}

  // Before its last late command a task is seen as running, with whatever counts.
  lemma {:induction false} StillUnderway(db: Db, task: string, os: seq<seq<HostStatus>>, now: int)
    requires Linked(db) && task in db.tasks && db.tasks[task].total == |CommandsOf(db, task)|
    requires os != [] && AllGroupOrders(os)
    requires |os| < |RowsWithStatus(db, task, HostRunning)|
    ensures Uncounted(RecordAfter(db, task, os, now)) == Uncounted(Underway(db.tasks[task], now))
  {
    var n := |os| - 1;
    NotFinishedYet(db, task, os[n], n + 1);
    if n > 0 {
      StillUnderway(db, task, os[..n], now);
    } else {
      assert os[..n] == [];
    }
    StepUnderway(RecordAfter(db, task, os[..n], now), FoldGroups(os[n], Swept(db, task, n + 1)), now);
  }

  lemma SameProgressed(a: Task, b: Task, c: Counts, now: int)
    requires Uncounted(a) == Uncounted(b)
    ensures Progressed(a, c, now, false) == Progressed(b, c, now, false)
  {}

  // So only the query for the last late command of a task matters.
  lemma LastQueryDecides(db: Db, task: string, a: seq<seq<HostStatus>>, b: seq<seq<HostStatus>>, now: int)
    requires Linked(db) && task in db.tasks && db.tasks[task].total == |CommandsOf(db, task)|
    requires 0 < |a| == |b| <= |RowsWithStatus(db, task, HostRunning)|
    requires AllGroupOrders(a) && AllGroupOrders(b)
    requires FoldGroups(a[|a| - 1], Swept(db, task, |a|)) == FoldGroups(b[|a| - 1], Swept(db, task, |a|))
    ensures RecordAfter(db, task, a, now) == RecordAfter(db, task, b, now)
  {
    var n := |a| - 1;
    SameSoFar(db, task, a[..n], b[..n], now);
    SameToTheEnd(db, task, a, b, n, now);
  }

  lemma SameToTheEnd(db: Db, task: string, a: seq<seq<HostStatus>>, b: seq<seq<HostStatus>>, n: nat, now: int)
    requires task in db.tasks && |a| == |b| == n + 1
    requires Uncounted(RecordAfter(db, task, a[..n], now)) == Uncounted(RecordAfter(db, task, b[..n], now))
    requires FoldGroups(a[n], Swept(db, task, n + 1)) == FoldGroups(b[n], Swept(db, task, n + 1))
    ensures RecordAfter(db, task, a, now) == RecordAfter(db, task, b, now)
  {
    LastProgress(db, task, a, now);
    LastProgress(db, task, b, now);
    SameProgressed(RecordAfter(db, task, a[..n], now), RecordAfter(db, task, b[..n], now),
                   FoldGroups(a[n], Swept(db, task, n + 1)), now);
  }

  lemma LastProgress(db: Db, task: string, os: seq<seq<HostStatus>>, now: int)
    requires task in db.tasks && os != []
    ensures var n := |os| - 1;
            RecordAfter(db, task, os, now)
            == Progressed(RecordAfter(db, task, os[..n], now), FoldGroups(os[n], Swept(db, task, n + 1)), now, false)
  {}

  lemma SameSoFar(db: Db, task: string, a: seq<seq<HostStatus>>, b: seq<seq<HostStatus>>, now: int)
    requires Linked(db) && task in db.tasks && db.tasks[task].total == |CommandsOf(db, task)|
    requires |a| == |b| < |RowsWithStatus(db, task, HostRunning)|
    requires AllGroupOrders(a) && AllGroupOrders(b)
    ensures Uncounted(RecordAfter(db, task, a, now)) == Uncounted(RecordAfter(db, task, b, now))
  {
    if a != [] {
      StillUnderway(db, task, a, now);
      StillUnderway(db, task, b, now);
    } else {
      assert b == [];
    }
  }

  // ----- When the outcome of a sweep is determined -----

  // d is what a sweep may leave: it visits the late commands in some order, and
  // each query finds the groups in some order.
  ghost predicate MayLeave(db: Db, now: int, d: Db) {
    exists late, orders: string -> seq<HostStatus> :: SweepsTo(db, late, orders, now, d)
  }

  ghost predicate SweepsTo(db: Db, late: seq<string>, orders: string -> seq<HostStatus>, now: int, d: Db) {
    && IsListing(late, LateCommands(db, now)) && (forall c :: IsGroupOrder(orders(c)))
    && d == TimeOutAll(db, late, orders, now)
  }

  ghost function LateOf(db: Db, now: int, task: string): nat {
    |Visited(db, LateCommands(db, now), task)|
  }

  // With the k timeouts, the failure statuses that occur, occur equally often.
  ghost predicate FailsEvenly(db: Db, task: string, k: nat) {
    var timeouts := |RowsWithStatus(db, task, HostTimeout)| + k;
    && |RowsWithStatus(db, task, HostFailed)| in {0, timeouts}
    && |RowsWithStatus(db, task, HostExecFailed)| in {0, timeouts}
  }

  lemma FailsEvenlyMeans(db: Db, task: string, k: nat)
    requires 0 < k <= |RowsWithStatus(db, task, HostRunning)|
    ensures FailsEvenly(db, task, k) <==> EvenFailures(Swept(db, task, k))
  {
    SweptCounts(db, task, k);
    EvenWithTimeouts(Swept(db, task, k));
  }

  lemma EvenWithTimeouts(tally: Tally)
    requires HostTimeout in tally
    ensures EvenFailures(tally) <==>
            tally[HostFailed] in {0, tally[HostTimeout]} && tally[HostExecFailed] in {0, tally[HostTimeout]}
  {
    if EvenFailures(tally) {
      assert HostFailed in tally ==> tally[HostFailed] == tally[HostTimeout];
      assert HostExecFailed in tally ==> tally[HostExecFailed] == tally[HostTimeout];
    }
  }

  lemma LateAreRunning(db: Db, now: int, task: string)
    requires Intact(db)
    ensures LateOf(db, now, task) <= |RowsWithStatus(db, task, HostRunning)|
  {
    var listed := LateCommands(db, now);
    VisitedRun(db, listed, task);
    VisitedSize(db, listed, task);
    TakenAndAdded(RowsWithStatus(db, task, HostRunning), {}, VisitedRows(db, listed, task));
  }

  lemma ListedOrders(db: Db, late: seq<string>, orders: string -> seq<HostStatus>, now: int, task: string, d: Db)
    returns (os: seq<seq<HostStatus>>)
    requires Intact(db) && SweepsTo(db, late, orders, now, d) && task in db.tasks
    ensures os == OrdersFor(db, late, orders, task)
    ensures |os| == LateOf(db, now, task) && AllGroupOrders(os)
    ensures task in d.tasks && d.tasks[task] == RecordAfter(db, task, os, now)
  {
    os := OrdersFor(db, late, orders, task);
    ListsLate(db, late, now);
    OrdersCount(db, late, orders, task);
    OrdersAreOrders(db, late, orders, task);
    RecordsAfterSweep(db, late, orders, now, task);
  }

  ghost predicate AllGroupOrders(os: seq<seq<HostStatus>>) {
    forall i :: 0 <= i < |os| ==> IsGroupOrder(os[i])
  }

  lemma {:induction false} OrdersAreOrders(db: Db, late: seq<string>, orders: string -> seq<HostStatus>, task: string)
    requires forall c :: IsGroupOrder(orders(c))
    ensures AllGroupOrders(OrdersFor(db, late, orders, task))
  {
    if late != [] {
      var n := |late| - 1;
      OrdersAreOrders(db, late[..n], orders, task);
      assert IsGroupOrder(orders(late[n]));
    }
  }

  lemma SameRecord(db: Db, now: int, d: Db, e: Db, task: string)
    requires Intact(db) && Totals(db) && MayLeave(db, now, d) && MayLeave(db, now, e) && task in db.tasks
    requires LateOf(db, now, task) > 0 ==> FailsEvenly(db, task, LateOf(db, now, task))
    ensures SameRecords(d, e, task)
  {
    var a, f :| SweepsTo(db, a, f, now, d);
    var b, g :| SweepsTo(db, b, g, now, e);
    var os := ListedOrders(db, a, f, now, task, d);
    var ps := ListedOrders(db, b, g, now, task, e);
    var k := |os|;
    if k > 0 {
      LateAreRunning(db, now, task);
      FailsEvenlyMeans(db, task, k);
      SameFold(os[k - 1], ps[k - 1], Swept(db, task, k));
      LastQueryDecides(db, task, os, ps, now);
    }
  }

  lemma SameSweeps(db: Db, now: int, d: Db, e: Db)
    requires Intact(db) && Totals(db) && MayLeave(db, now, d) && MayLeave(db, now, e)
    requires forall t :: t in db.tasks && LateOf(db, now, t) > 0 ==> FailsEvenly(db, t, LateOf(db, now, t))
    ensures d == e
  {
    var a, f :| SweepsTo(db, a, f, now, d);
    var b, g :| SweepsTo(db, b, g, now, e);
    SweepExactly(db, a, f, now);
    SweepExactly(db, b, g, now);
    forall t | t in db.tasks ensures SameRecords(d, e, t) {
      SameRecord(db, now, d, e, t);
    }
    SameTables(db, d, e, LateCommands(db, now), now);
  }

  lemma {:induction false} SomeListing(s: set<string>) returns (a: seq<string>)
    ensures IsListing(a, s)
  {
    if s == {} {
      a := [];
    } else {
      var x :| x in s;
      var r := SomeListing(s - {x});
      a := r + [x];
    }
  }

  // What a sweep leaves whose queries all find the one order.
  lemma SweepWith(db: Db, now: int, task: string, o: seq<HostStatus>) returns (d: Db)
    requires Intact(db) && task in db.tasks && LateOf(db, now, task) > 0 && IsGroupOrder(o)
    ensures MayLeave(db, now, d) && task in d.tasks
    ensures d.tasks[task].failed == FoldGroups(o, Swept(db, task, LateOf(db, now, task))).failed
  {
    var late := SomeListing(LateCommands(db, now));
    var orders := (c: string) => o;
    d := SweepInOneOrder(db, now, task, late, orders, o);
  }

  lemma SweepInOneOrder(db: Db, now: int, task: string, late: seq<string>, orders: string -> seq<HostStatus>,
                        o: seq<HostStatus>) returns (d: Db)
    requires Intact(db) && task in db.tasks && LateOf(db, now, task) > 0 && IsGroupOrder(o)
    requires IsListing(late, LateCommands(db, now)) && forall c :: orders(c) == o
    ensures MayLeave(db, now, d) && task in d.tasks
    ensures d.tasks[task].failed == FoldGroups(o, Swept(db, task, LateOf(db, now, task))).failed
  {
    d := TimeOutAll(db, late, orders, now);
    assert SweepsTo(db, late, orders, now, d);
    var os := ListedOrders(db, late, orders, now, task, d);
    OrdersAre(db, late, orders, task, o);
    LastProgress(db, task, os, now);
  }

  lemma UnevenSweeps(db: Db, now: int, task: string) returns (d: Db, e: Db)
    requires Intact(db) && task in db.tasks && LateOf(db, now, task) > 0
    requires !FailsEvenly(db, task, LateOf(db, now, task))
    ensures MayLeave(db, now, d) && MayLeave(db, now, e) && d != e
  {
    var k := LateOf(db, now, task);
    var s := Swept(db, task, k);
    LateAreRunning(db, now, task);
    FailsEvenlyMeans(db, task, k);
    var f, g :| f in s && g in s && IsFailure(f) && IsFailure(g) && s[f] != s[g];
    LastGroupCounts(f, s);
    LastGroupCounts(g, s);
    d := SweepWith(db, now, task, EndingWith(f));
    e := SweepWith(db, now, task, EndingWith(g));
  }

  // With right host totals, what a sweep leaves is determined, whatever orders the
  // database picks for the late commands and for the groups of each query, exactly
  // if in every task with late commands the rows that fail otherwise are, by kind,
  // none or as many as those that are then timed out.
  lemma SweepIsDeterminateExactly(db: Db, now: int)
    requires Intact(db) && Totals(db)
    ensures (forall d, e :: MayLeave(db, now, d) && MayLeave(db, now, e) ==> d == e) <==>
            forall t :: t in db.tasks && LateOf(db, now, t) > 0 ==> FailsEvenly(db, t, LateOf(db, now, t))
  {
    if forall t :: t in db.tasks && LateOf(db, now, t) > 0 ==> FailsEvenly(db, t, LateOf(db, now, t)) {
      forall d, e | MayLeave(db, now, d) && MayLeave(db, now, e) ensures d == e {
        SameSweeps(db, now, d, e);
      }
    } else {
      var t :| t in db.tasks && LateOf(db, now, t) > 0 && !FailsEvenly(db, t, LateOf(db, now, t));
      var d, e := UnevenSweeps(db, now, t);
    }
  }

}
