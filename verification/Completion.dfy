// What the status of a task says about its hosts: the decision taken from the
// grouped counts, in terms of the rows.
module Completion {
  import opened Common
  import opened Statuses
  import opened Progress
  import opened TaskStoreModel
  import opened LifecycleInvariants

  // ----- Rows, commands and counts -----

  // A set whose members are matched one to one with those of another.
  lemma {:induction false} SameSize<A, B>(a: set<A>, b: set<B>, f: A --> B)
    requires forall x :: x in a ==> f.requires(x) && f(x) in b
    requires forall x, y :: x in a && y in a && f(x) == f(y) ==> x == y
    requires forall z :: z in b ==> exists x :: x in a && f(x) == z
    ensures |a| == |b|
    decreases |a|
  {
    if a == {} {
      assert b == {};
    } else {
      var x :| x in a;
      SameSize(a - {x}, b - {f(x)}, f);
    }
  }

  // A task has as many rows as commands.
  lemma RowsMatchCommands(db: Db, task: string)
    requires Linked(db)
    ensures |RowsOf(db, task)| == |CommandsOf(db, task)|
  {
    var f := (r: nat) requires r in db.rows => db.rows[r].commandId;
    forall c | c in CommandsOf(db, task) ensures exists r :: r in RowsOf(db, task) && f(r) == c {
      var r :| r in db.rows && db.rows[r].commandId == c;
      assert r in RowsOf(db, task);
    }
    SameSize(RowsOf(db, task), CommandsOf(db, task), f);
  }

  ghost function RowsAmong(db: Db, task: string, hs: set<HostStatus>): set<nat> {
    set r | r in RowsOf(db, task) && db.rows[r].status in hs
  }

  lemma OneGroupMore(db: Db, task: string, hs: set<HostStatus>, h: HostStatus)
    requires h !in hs
    ensures |RowsAmong(db, task, hs + {h})| == |RowsAmong(db, task, hs)| + |RowsWithStatus(db, task, h)|
  {
    assert RowsAmong(db, task, hs + {h}) == RowsAmong(db, task, hs) + RowsWithStatus(db, task, h);
    assert RowsAmong(db, task, hs) !! RowsWithStatus(db, task, h);
  }

  lemma UnfinishedRows(db: Db, task: string)
    ensures |RowsAmong(db, task, {HostPending, HostRunning})|
            == |RowsWithStatus(db, task, HostPending)| + |RowsWithStatus(db, task, HostRunning)|
  {
    assert RowsAmong(db, task, {}) == {};
    OneGroupMore(db, task, {}, HostPending);
    OneGroupMore(db, task, {HostPending}, HostRunning);
    assert {} + {HostPending} == {HostPending} && {HostPending} + {HostRunning} == {HostPending, HostRunning};
  }

  lemma FailedRows(db: Db, task: string, hs: set<HostStatus>)
    requires HostFailed !in hs && HostExecFailed !in hs && HostTimeout !in hs
    ensures |RowsAmong(db, task, hs + {HostFailed} + {HostExecFailed} + {HostTimeout})|
            == |RowsAmong(db, task, hs)| + |RowsWithStatus(db, task, HostFailed)|
               + |RowsWithStatus(db, task, HostExecFailed)| + |RowsWithStatus(db, task, HostTimeout)|
  {
    OneGroupMore(db, task, hs, HostFailed);
    OneGroupMore(db, task, hs + {HostFailed}, HostExecFailed);
    OneGroupMore(db, task, hs + {HostFailed} + {HostExecFailed}, HostTimeout);
  }

  lemma OtherRows(db: Db, task: string, hs: set<HostStatus>)
    requires HostCanceled !in hs && HostCompleted !in hs
    requires forall h: HostStatus :: h in hs || h.HostCanceled? || h.HostCompleted?
    ensures |RowsOf(db, task)|
            == |RowsAmong(db, task, hs)|
               + |RowsWithStatus(db, task, HostCanceled)| + |RowsWithStatus(db, task, HostCompleted)|
  {
    OneGroupMore(db, task, hs, HostCanceled);
    OneGroupMore(db, task, hs + {HostCanceled}, HostCompleted);
    assert RowsAmong(db, task, hs + {HostCanceled} + {HostCompleted}) == RowsOf(db, task);
  }

  // The groups together are all rows of the task.
  lemma TallyCountsAll(db: Db, task: string)
    ensures |TallyOf(db, task)| == |RowsOf(db, task)|
  {
    UnfinishedRows(db, task);
    FailedRows(db, task, {HostPending, HostRunning});
    OtherRows(db, task, {HostPending, HostRunning} + {HostFailed} + {HostExecFailed} + {HostTimeout});
    MakeTallyAt(|RowsWithStatus(db, task, HostPending)|, |RowsWithStatus(db, task, HostRunning)|,
                |RowsWithStatus(db, task, HostFailed)|, |RowsWithStatus(db, task, HostExecFailed)|,
                |RowsWithStatus(db, task, HostTimeout)|, |RowsWithStatus(db, task, HostCanceled)|,
                |RowsWithStatus(db, task, HostCompleted)|);
  }

  ghost predicate Occurs(db: Db, task: string, h: HostStatus) {
    exists r :: r in RowsOf(db, task) && db.rows[r].status == h
  }

  lemma InTally(db: Db, task: string, h: HostStatus)
    ensures h in TallyOf(db, task) <==> Occurs(db, task, h)
  {
    TallyCounts(db, task, h);
    assert forall r :: r in RowsWithStatus(db, task, h) <==> r in RowsOf(db, task) && db.rows[r].status == h;
    if Occurs(db, task, h) {
      var r :| r in RowsOf(db, task) && db.rows[r].status == h;
      assert r in RowsWithStatus(db, task, h);
    }
  }

  ghost predicate Only(db: Db, task: string, h: HostStatus) {
    forall r :: r in RowsOf(db, task) ==> db.rows[r].status == h
  }

  ghost predicate AnyFailed(db: Db, task: string) {
    Occurs(db, task, HostFailed) || Occurs(db, task, HostExecFailed) || Occurs(db, task, HostTimeout)
  }

  ghost predicate AnyUnfinished(db: Db, task: string) {
    Occurs(db, task, HostPending) || Occurs(db, task, HostRunning)
  }

  ghost predicate FailsOneWay(db: Db, task: string) {
    forall a: HostStatus, b: HostStatus ::
      IsFailure(a) && IsFailure(b) && Occurs(db, task, a) && Occurs(db, task, b) ==> a == b
  }

  // ----- The decision -----

  // The decision on any tally, in terms of which statuses occur in it.
  lemma DecisionOnTally(order: seq<HostStatus>, tally: Tally)
    requires IsGroupOrder(order)
    ensures var s := StatusFromGroups(FoldGroups(order, tally), |tally|);
            var done := HostPending !in tally && HostRunning !in tally && OneFailureKind(tally);
            var failed := HostFailed in tally || HostExecFailed in tally || HostTimeout in tally;
            s == if done then
                   Some(if HostCanceled in tally then TaskCanceled else if failed then TaskFailed else TaskCompleted)
                 else if HostRunning in tally || HostCompleted in tally then Some(TaskRunning)
                 else None
  {
    FoldAgreesExactly(order, tally);
    TallySize(tally);
  }

  // If the task's host total is right, its status is decided from its rows as
  // follows, whatever the order of the groups. It is finished exactly when no
  // row is pending or running and the rows fail in at most one way: canceled if
  // any row is, else failed if any row is, else completed. Otherwise it is
  // running if a row is running or completed, and else keeps its status.
  lemma DecisionExactly(db: Db, task: string, order: seq<HostStatus>)
    requires Linked(db) && task in db.tasks && db.tasks[task].total == |CommandsOf(db, task)| && IsGroupOrder(order)
    ensures StatusFromGroups(FoldGroups(order, TallyOf(db, task)), db.tasks[task].total)
            == if !AnyUnfinished(db, task) && FailsOneWay(db, task) then
                 Some(if Occurs(db, task, HostCanceled) then TaskCanceled
                      else if AnyFailed(db, task) then TaskFailed else TaskCompleted)
               else if Occurs(db, task, HostRunning) || Occurs(db, task, HostCompleted) then Some(TaskRunning)
               else None
  {
    RowsMatchCommands(db, task);
    TallyCountsAll(db, task);
    forall h: HostStatus ensures h in TallyOf(db, task) <==> Occurs(db, task, h) {
      InTally(db, task, h);
    }
    DecisionOnTally(order, TallyOf(db, task));
  }

  lemma OnlyCompletedMeans(db: Db, task: string)
    ensures Only(db, task, HostCompleted) <==>
            !AnyUnfinished(db, task) && !Occurs(db, task, HostCanceled) && !AnyFailed(db, task)
  {
    if !AnyUnfinished(db, task) && !Occurs(db, task, HostCanceled) && !AnyFailed(db, task) {
      forall r | r in RowsOf(db, task) ensures db.rows[r].status == HostCompleted {
        assert Occurs(db, task, db.rows[r].status);
      }
    }
  }

  // A task is decided to be completed exactly when all of its rows are.
  lemma CompletedExactly(db: Db, task: string, order: seq<HostStatus>)
    requires Linked(db) && task in db.tasks && db.tasks[task].total == |CommandsOf(db, task)| && IsGroupOrder(order)
    ensures StatusFromGroups(FoldGroups(order, TallyOf(db, task)), db.tasks[task].total) == Some(TaskCompleted) <==>
            Only(db, task, HostCompleted)
  {
    DecisionExactly(db, task, order);
    OnlyCompletedMeans(db, task);
  }

  // ----- The last result of a task -----

  // The rows of the task other than the command's are completed.
  ghost predicate OthersCompleted(db: Db, task: string, command: string) {
    forall r :: r in RowsOf(db, task) && db.rows[r].commandId != command ==> db.rows[r].status == HostCompleted
  }

  // When all other hosts of a task have completed, a final result from the
  // last one finishes the task: completed if the exit code is zero, failed
  // otherwise, with the right counts.
  lemma LastResultFinishesTask(db: Db, res: Result, task: string, order: seq<HostStatus>, now: int)
    requires Intact(db) && Totals(db) && IsGroupOrder(order)
    requires CanReport(db, res.command) && db.commands[res.command].taskId == Some(task)
    requires Honest(db, res.command, res.host) && res.finishedAt.Some?
    requires OthersCompleted(db, task, res.command)
    ensures var t := HandleResult(db, res, order, now).tasks[task];
            && t.status == (if res.exitCode == 0 then TaskCompleted else TaskFailed)
            && t.failed == (if res.exitCode == 0 then 0 else 1)
            && t.completed + t.failed == t.total
            && t.finishedAt == Some(now)
  {
    var h := if res.exitCode == 0 then HostCompleted else HostExecFailed;
    var m := ReportedTables(db, res, task, h);
    FinishedTask(m, task, order, now, h);
    ReportedTask(db, res, task, order, now);
  }

  lemma ReportedTables(db: Db, res: Result, task: string, h: HostStatus) returns (m: Db)
    requires Linked(db) && Totals(db)
    requires CanReport(db, res.command) && db.commands[res.command].taskId == Some(task)
    requires Honest(db, res.command, res.host) && res.finishedAt.Some?
    requires h == if res.exitCode == 0 then HostCompleted else HostExecFailed
    requires OthersCompleted(db, task, res.command)
    ensures m == Reported(db, res) && task in m.tasks
    ensures AllButOne(TallyOf(m, task), h) && |TallyOf(m, task)| == m.tasks[task].total
  {
    m := AfterReport(db, res, task);
    TallyIsTotal(m, task);
    var last := RowsAfterReport(db, m, res, task, h);
    TallyAfterReport(m, task, last, h);
  }

  lemma FinishedTask(m: Db, task: string, order: seq<HostStatus>, now: int, h: HostStatus)
    requires task in m.tasks && IsGroupOrder(order)
    requires AllButOne(TallyOf(m, task), h) && |TallyOf(m, task)| == m.tasks[task].total
    ensures var t := ProgressedTask(m, task, order, now, false);
            && t.status == (if h.HostCompleted? then TaskCompleted else TaskFailed)
            && t.failed == (if h.HostCompleted? then 0 else 1)
            && t.completed + t.failed == t.total && t.finishedAt == Some(now)
  {
    AlmostCompleted(order, TallyOf(m, task), h);
  }

  lemma ReportedTask(db: Db, res: Result, task: string, order: seq<HostStatus>, now: int)
    requires CanReport(db, res.command) && db.commands[res.command].taskId == Some(task)
    ensures task in Reported(db, res).tasks
    ensures HandleResult(db, res, order, now).tasks[task] == ProgressedTask(Reported(db, res), task, order, now, false)
  {}

  // All rows but one are completed; the one has status h.
  ghost predicate AllButOne(tally: Tally, h: HostStatus) {
    (h.HostCompleted? || h.HostExecFailed?) && h in tally
    && forall k: HostStatus :: k != HostCompleted ==> tally[k] == if k == h then 1 else 0
  }

  lemma AlmostCompleted(order: seq<HostStatus>, tally: Tally, h: HostStatus)
    requires IsGroupOrder(order) && AllButOne(tally, h)
    ensures var c := FoldGroups(order, tally);
            && c.failed == (if h.HostCompleted? then 0 else 1) && c.completed + c.failed == |tally|
            && StatusFromGroups(c, |tally|) == Some(if h.HostCompleted? then TaskCompleted else TaskFailed)
            && c.completed + c.failed + c.canceled == |tally|
  {
    OneKindMeans(tally);
    FoldAgreesExactly(order, tally);
    TallySize(tally);
  }

  ghost function Reported(db: Db, res: Result): Db {
    SetBoth(db, {res.command}, Patch(ResultCommandStatus(res), Some(res.startedAt), Some(res.finishedAt)),
            RowsOfCommandOn(db, res.command, res.host),
            Patch(ResultHostStatus(res), Some(res.startedAt), Some(res.finishedAt)))
  }

  // The tables between the two updates of a result and the update of progress.
  lemma AfterReport(db: Db, res: Result, task: string) returns (m: Db)
    requires Linked(db) && Totals(db)
    requires CanReport(db, res.command) && db.commands[res.command].taskId == Some(task)
    ensures m == Reported(db, res) && Linked(m)
    ensures task in m.tasks && m.tasks[task].total == |CommandsOf(m, task)|
  {
    m := Reported(db, res);
    SetBothShape(db, {res.command}, Patch(ResultCommandStatus(res), Some(res.startedAt), Some(res.finishedAt)),
                 RowsOfCommandOn(db, res.command, res.host),
                 Patch(ResultHostStatus(res), Some(res.startedAt), Some(res.finishedAt)));
    ShapeKeeps(db, m);
  }

  lemma RowsAfterReport(db: Db, m: Db, res: Result, task: string, h: HostStatus) returns (last: nat)
    requires Linked(db) && m == Reported(db, res)
    requires res.command in db.commands && db.commands[res.command].taskId == Some(task)
    requires Honest(db, res.command, res.host) && res.finishedAt.Some?
    requires h == if res.exitCode == 0 then HostCompleted else HostExecFailed
    requires OthersCompleted(db, task, res.command)
    ensures last in RowsOf(m, task) && m.rows[last].status == h
    ensures forall r :: r in RowsOf(m, task) && r != last ==> m.rows[r].status == HostCompleted
  {
    last :| last in db.rows && db.rows[last].commandId == res.command;
    assert last in RowsOfCommandOn(db, res.command, res.host) && last in RowsOf(db, task);
    forall r | r in RowsOf(m, task) && r != last ensures m.rows[r].status == HostCompleted {
      assert r in RowsOf(db, task) && db.rows[r].commandId != res.command;
      assert m.rows[r] == db.rows[r];
    }
  }

  lemma TallyIsTotal(m: Db, task: string)
    requires Linked(m) && task in m.tasks && m.tasks[task].total == |CommandsOf(m, task)|
    ensures |TallyOf(m, task)| == m.tasks[task].total
  {
    RowsMatchCommands(m, task);
    TallyCountsAll(m, task);
  }

  lemma TallyAfterReport(m: Db, task: string, last: nat, h: HostStatus)
    requires last in RowsOf(m, task) && m.rows[last].status == h && (h.HostCompleted? || h.HostExecFailed?)
    requires forall r :: r in RowsOf(m, task) && r != last ==> m.rows[r].status == HostCompleted
    ensures AllButOne(TallyOf(m, task), h)
  {
    InTally(m, task, h);
    forall k: HostStatus | k != HostCompleted
      ensures TallyOf(m, task)[k] == if k == h then 1 else 0
    {
      TallyCounts(m, task, k);
      assert RowsWithStatus(m, task, k) == if k == h then {last} else {};
    }
  }

  // ----- Stopping is not final -----

  // A row's status once a result has been written to its command's row.
  function StatusAfter(db: Db, res: Result, r: nat): HostStatus
    requires r in db.rows
  {
    if db.rows[r].commandId == res.command then Or(ResultHostStatus(res), db.rows[r].status) else db.rows[r].status
  }

  ghost predicate OccursAfter(db: Db, res: Result, task: string, h: HostStatus) {
    exists r :: r in RowsOf(db, task) && StatusAfter(db, res, r) == h
  }

  ghost predicate FailsOneWayAfter(db: Db, res: Result, task: string) {
    forall a: HostStatus, b: HostStatus ::
      IsFailure(a) && IsFailure(b) && OccursAfter(db, res, task, a) && OccursAfter(db, res, task, b) ==> a == b
  }

  lemma ReportedRow(db: Db, res: Result, r: nat)
    requires Linked(db) && Honest(db, res.command, res.host) && r in db.rows
    ensures r in Reported(db, res).rows && Reported(db, res).rows[r].status == StatusAfter(db, res, r)
  {
    assert db.rows[r].commandId == res.command ==> db.rows[r].host == res.host;
  }

  lemma ReportedRowsOf(db: Db, res: Result, task: string)
    ensures RowsOf(Reported(db, res), task) == RowsOf(db, task)
  {}

  lemma OccursInReported(db: Db, res: Result, task: string, h: HostStatus)
    requires Linked(db) && Honest(db, res.command, res.host)
    ensures Occurs(Reported(db, res), task, h) <==> OccursAfter(db, res, task, h)
  {
    ReportedRowsOf(db, res, task);
    if r :| r in RowsOf(db, task) && StatusAfter(db, res, r) == h {
      ReportedRow(db, res, r);
    }
    if r :| r in RowsOf(db, task) && Reported(db, res).rows[r].status == h {
      ReportedRow(db, res, r);
    }
  }

  // Stopping a task cancels only its record, and a result that arrives later can
  // bring it back. It stays canceled exactly if, with the result written to its
  // row: either all rows are finished and fail in at most one way, and some row
  // is canceled; or they are not, and no row is running or completed.
  lemma StoppedStaysStoppedExactly(db: Db, res: Result, task: string, order: seq<HostStatus>, now: int)
    requires Linked(db) && Totals(db) && IsGroupOrder(order) && Honest(db, res.command, res.host)
    requires CanReport(db, res.command) && db.commands[res.command].taskId == Some(task)
    requires db.tasks[task].status.TaskCanceled?
    ensures HandleResult(db, res, order, now).tasks[task].status.TaskCanceled? <==>
            if !OccursAfter(db, res, task, HostPending) && !OccursAfter(db, res, task, HostRunning)
               && FailsOneWayAfter(db, res, task)
            then OccursAfter(db, res, task, HostCanceled)
            else !OccursAfter(db, res, task, HostRunning) && !OccursAfter(db, res, task, HostCompleted)
  {
    var m := AfterReport(db, res, task);
    forall h: HostStatus ensures Occurs(m, task, h) <==> OccursAfter(db, res, task, h) {
      OccursInReported(db, res, task, h);
    }
    DecisionExactly(m, task, order);
    ReportedTask(db, res, task, order, now);
  }

  // Even reading the status of a stopped task can bring it back. The task stays
  // canceled exactly if its rows are as above, and while a host of it is still
  // running, it is running again.
  lemma ReadRevivesStoppedExactly(db: Db, task: string, order: seq<HostStatus>, stopped: int, now: int)
    requires Linked(db) && Totals(db) && IsGroupOrder(order) && CanStop(db, task)
    ensures var d := ReadStatus(StopTask(db, task, stopped), task, order, now);
            && task in d.tasks
            && (d.tasks[task].status.TaskCanceled? <==>
                  if !AnyUnfinished(db, task) && FailsOneWay(db, task) then Occurs(db, task, HostCanceled)
                  else !Occurs(db, task, HostRunning) && !Occurs(db, task, HostCompleted))
            && (Occurs(db, task, HostRunning) ==> d.tasks[task].status == TaskRunning)
  {
    var s := StoppedTables(db, task, stopped);
    DecisionExactly(s, task, order);
  }

  lemma StoppedTables(db: Db, task: string, stopped: int) returns (s: Db)
    requires Linked(db) && Totals(db) && CanStop(db, task)
    ensures s == StopTask(db, task, stopped) && Linked(s)
    ensures task in s.tasks && s.tasks[task].status.TaskCanceled? && s.tasks[task].total == |CommandsOf(s, task)|
    ensures forall h: HostStatus :: Occurs(s, task, h) <==> Occurs(db, task, h)
  {
    s := StopTask(db, task, stopped);
    ShapeKeeps(db, s);
  }

}
