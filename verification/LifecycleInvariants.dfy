// What the transactions keep: the coupling of the two status columns, the
// links between the three tables, and the host totals of the tasks.
module LifecycleInvariants {
  import opened Common
  import opened Statuses
  import opened TaskStoreModel

  // Every row belongs to an existing command, on the same host, and every
  // command belongs to an existing task and has exactly one row.
  ghost predicate Linked(db: Db) {
    && (forall r :: r in db.rows ==> r < db.nextRow && db.rows[r].commandId in db.commands
                                     && db.rows[r].host == db.commands[db.rows[r].commandId].host)
    && (forall c :: c in db.commands ==> db.commands[c].taskId.Some? && db.commands[c].taskId.value in db.tasks)
    && (forall c :: c in db.commands ==> exists r :: r in db.rows && db.rows[r].commandId == c)
    && (forall r, q :: r in db.rows && q in db.rows && db.rows[r].commandId == db.rows[q].commandId ==> r == q)
  }

  // A command's status is the image of its row's status.
  ghost predicate Coupled(db: Db) {
    forall r :: r in db.rows && db.rows[r].commandId in db.commands ==>
      db.commands[db.rows[r].commandId].status == Image(db.rows[r].status)
  }

  // A task's host total is the number of its commands.
  ghost predicate Totals(db: Db) {
    forall t :: t in db.tasks ==> db.tasks[t].total == |CommandsOf(db, t)|
  }

  // ----- Updating both status columns -----

  ghost predicate SamePatch(pc: Patch<CommandStatus>, pr: Patch<HostStatus>) {
    match pr.status
    case None => pc.status.None?
    case Some(h) => pc.status == Some(Image(h))
  }

  // The selected rows are those of the selected commands.
  ghost predicate SameSelection(db: Db, cs: set<string>, rs: set<nat>) {
    forall r :: r in db.rows ==> (r in rs <==> db.rows[r].commandId in cs)
  }

  // Everything but statuses and times.
  ghost predicate SameShape(a: Db, b: Db) {
    && a.commands.Keys == b.commands.Keys
    && (forall c :: c in a.commands ==>
          && a.commands[c].taskId == b.commands[c].taskId
          && a.commands[c].host == b.commands[c].host
          && a.commands[c].timeout == b.commands[c].timeout)
    && a.rows.Keys == b.rows.Keys && a.nextRow == b.nextRow
    && (forall r :: r in a.rows ==> a.rows[r].commandId == b.rows[r].commandId && a.rows[r].host == b.rows[r].host)
    && a.tasks.Keys == b.tasks.Keys
    && (forall t :: t in a.tasks ==> a.tasks[t].total == b.tasks[t].total
                                       && a.tasks[t].createdAt == b.tasks[t].createdAt)
  }

  lemma ShapeKeeps(a: Db, b: Db)
    requires SameShape(a, b)
    ensures Linked(a) ==> Linked(b)
    ensures Totals(a) ==> Totals(b)
    ensures forall t :: CommandsOf(a, t) == CommandsOf(b, t) && RowsOf(a, t) == RowsOf(b, t)
  {
    assert forall t :: CommandsOf(a, t) == CommandsOf(b, t);
    assert forall t :: RowsOf(a, t) == RowsOf(b, t);
    if Linked(a) {
      forall c | c in b.commands ensures exists r :: r in b.rows && b.rows[r].commandId == c {
        var r :| r in a.rows && a.rows[r].commandId == c;
        assert b.rows[r].commandId == c;
      }
    }
  }

  lemma ShapeTrans(a: Db, b: Db, c: Db)
    requires SameShape(a, b) && SameShape(b, c)
    ensures SameShape(a, c)
  {}

  lemma SetBothShape(db: Db, cs: set<string>, pc: Patch<CommandStatus>, rs: set<nat>, pr: Patch<HostStatus>)
    ensures SameShape(db, SetBoth(db, cs, pc, rs, pr))
  {}

  // The one reason why every paired update keeps the coupling.
  lemma SetBothCoupled(db: Db, cs: set<string>, pc: Patch<CommandStatus>, rs: set<nat>, pr: Patch<HostStatus>)
    requires Coupled(db) && SamePatch(pc, pr) && SameSelection(db, cs, rs)
    ensures Coupled(SetBoth(db, cs, pc, rs, pr))
  {}

  lemma ProgressShape(db: Db, task: string, order: seq<HostStatus>, now: int, keep: bool)
    requires task in db.tasks
    ensures SameShape(db, WithProgress(db, task, order, now, keep))
  {}

  lemma CommandProgressShape(db: Db, command: string, order: seq<HostStatus>, now: int)
    requires command in db.commands && TaskExists(db, command)
    ensures var d := WithCommandProgress(db, command, order, now);
            SameShape(db, d) && d.commands == db.commands && d.rows == db.rows
  {}

  // ----- One command's rows -----

  lemma OneCommandSelection(db: Db, command: string)
    ensures SameSelection(db, {command}, RowsOfCommand(db, command))
  {}

  lemma HostSelection(db: Db, command: string, host: string)
    requires Linked(db) && (command in db.commands ==> db.commands[command].host == host)
    ensures SameSelection(db, {command}, RowsOfCommandOn(db, command, host))
  {}

  ghost predicate Intact(db: Db) {
    Linked(db) && Coupled(db)
  }

  lemma PairedUpdate(db: Db, cs: set<string>, pc: Patch<CommandStatus>, rs: set<nat>, pr: Patch<HostStatus>)
    requires Intact(db) && SamePatch(pc, pr) && SameSelection(db, cs, rs)
    ensures var d := SetBoth(db, cs, pc, rs, pr);
            SameShape(db, d) && Intact(d)
  {
    SetBothShape(db, cs, pc, rs, pr);
    SetBothCoupled(db, cs, pc, rs, pr);
    ShapeKeeps(db, SetBoth(db, cs, pc, rs, pr));
  }

  lemma PairedUpdateWithProgress(db: Db, cs: set<string>, pc: Patch<CommandStatus>, rs: set<nat>, pr: Patch<HostStatus>,
                                 command: string, order: seq<HostStatus>, now: int)
    requires Intact(db) && SamePatch(pc, pr) && SameSelection(db, cs, rs) && CanReport(db, command)
    ensures CanReport(SetBoth(db, cs, pc, rs, pr), command)
    ensures var d := WithCommandProgress(SetBoth(db, cs, pc, rs, pr), command, order, now);
            SameShape(db, d) && Intact(d)
  {
    PairedUpdate(db, cs, pc, rs, pr);
    var m := SetBoth(db, cs, pc, rs, pr);
    CommandProgressShape(m, command, order, now);
    ShapeTrans(db, m, WithCommandProgress(m, command, order, now));
    ShapeKeeps(m, WithCommandProgress(m, command, order, now));
  }

  // ----- Each update of existing records -----

  lemma StartKeeps(db: Db, task: string, now: int)
    requires Intact(db)
    ensures SameShape(db, StartTask(db, task, now)) && Intact(StartTask(db, task, now))
  {
    if CanStart(db, task) {
      var d := db.(tasks := db.tasks[task := db.tasks[task].(status := TaskRunning, startedAt := Some(now))]);
      ShapeKeeps(db, d);
      PairedUpdate(d, CommandsOf(db, task), To(CommandPending), RowsOf(db, task), To(HostPending));
      ShapeTrans(db, d, StartTask(db, task, now));
    }
  }

  // Changing the statuses and times of task records only.
  lemma TaskRecordsOnly(db: Db, d: Db)
    requires d == db.(tasks := d.tasks) && d.tasks.Keys == db.tasks.Keys
    requires forall t :: t in db.tasks ==>
               db.tasks[t].total == d.tasks[t].total && db.tasks[t].createdAt == d.tasks[t].createdAt
    ensures SameShape(db, d) && (Intact(db) ==> Intact(d))
  {}

  lemma StopKeeps(db: Db, task: string, now: int)
    requires Intact(db)
    ensures SameShape(db, StopTask(db, task, now)) && Intact(StopTask(db, task, now))
  {
    TaskRecordsOnly(db, StopTask(db, task, now));
  }

  lemma OpenSelection(db: Db, task: string)
    requires Intact(db)
    ensures SameSelection(db, OpenCommands(db, task), OpenRows(db, task))
  {}

  lemma CancelKeeps(db: Db, task: string, now: int)
    requires Intact(db)
    ensures SameShape(db, CancelTask(db, task, now)) && Intact(CancelTask(db, task, now))
  {
    if CanCancel(db, task) {
      var d := db.(tasks := db.tasks[task := db.tasks[task].(status := TaskCanceled, finishedAt := Some(now))]);
      ShapeKeeps(db, d);
      OpenSelection(db, task);
      PairedUpdate(d, OpenCommands(db, task), ToAt(CommandCanceled, now), OpenRows(db, task), ToAt(HostCanceled, now));
      ShapeTrans(db, d, CancelTask(db, task, now));
    }
  }

  lemma ReadKeeps(db: Db, task: string, order: seq<HostStatus>, now: int)
    requires Intact(db)
    ensures SameShape(db, ReadStatus(db, task, order, now)) && Intact(ReadStatus(db, task, order, now))
  {
    if task in db.tasks {
      ProgressShape(db, task, order, now, true);
      ShapeKeeps(db, ReadStatus(db, task, order, now));
    }
  }

  lemma DispatchFailedKeeps(db: Db, command: string)
    requires Intact(db)
    ensures SameShape(db, DispatchFailed(db, command)) && Intact(DispatchFailed(db, command))
  {
    OneCommandSelection(db, command);
    PairedUpdate(db, {command}, To(CommandFailed), RowsOfCommand(db, command), To(HostFailed));
  }

  lemma SetStatusKeeps(db: Db, command: string, status: CommandStatus, now: int)
    requires Intact(db)
    ensures SameShape(db, SetCommandStatus(db, command, status, now))
            && Intact(SetCommandStatus(db, command, status, now))
  {
    OneCommandSelection(db, command);
    PairedUpdate(db, {command}, Patch(Some(status), StampIfRunning(status, now), None),
                 RowsOfCommand(db, command), Patch(Some(HostStatusFor(status)), StampIfRunning(status, now), None));
  }

  // The command named in a report runs on the reporting host.
  ghost predicate Honest(db: Db, command: string, host: string) {
    command in db.commands ==> db.commands[command].host == host
  }

  lemma ResultParts(db: Db, res: Result, order: seq<HostStatus>, now: int)
    returns (pc: Patch<CommandStatus>, rs: set<nat>, pr: Patch<HostStatus>)
    requires Linked(db) && Honest(db, res.command, res.host) && CanReport(db, res.command)
    ensures SamePatch(pc, pr) && SameSelection(db, {res.command}, rs)
    ensures CanReport(SetBoth(db, {res.command}, pc, rs, pr), res.command)
    ensures HandleResult(db, res, order, now)
            == WithCommandProgress(SetBoth(db, {res.command}, pc, rs, pr), res.command, order, now)
  {
    pc := Patch(ResultCommandStatus(res), Some(res.startedAt), Some(res.finishedAt));
    pr := Patch(ResultHostStatus(res), Some(res.startedAt), Some(res.finishedAt));
    rs := RowsOfCommandOn(db, res.command, res.host);
    HostSelection(db, res.command, res.host);
  }

  lemma ResultKeeps(db: Db, res: Result, order: seq<HostStatus>, now: int)
    requires Intact(db) && Honest(db, res.command, res.host)
    ensures SameShape(db, HandleResult(db, res, order, now)) && Intact(HandleResult(db, res, order, now))
  {
    if CanReport(db, res.command) {
      var pc, rs, pr := ResultParts(db, res, order, now);
      PairedUpdateWithProgress(db, {res.command}, pc, rs, pr, res.command, order, now);
    }
  }

  lemma ExecutionErrorKeeps(db: Db, command: string, host: string, order: seq<HostStatus>, now: int)
    requires Intact(db) && Honest(db, command, host)
    ensures SameShape(db, HandleExecutionError(db, command, host, order, now))
    ensures Intact(HandleExecutionError(db, command, host, order, now))
  {
    if CanReport(db, command) {
      HostSelection(db, command, host);
      PairedUpdateWithProgress(db, {command}, ToAt(CommandFailed, now),
                               RowsOfCommandOn(db, command, host), ToAt(HostExecFailed, now), command, order, now);
    }
  }

  lemma RetryKeeps(db: Db, command: string, order: seq<HostStatus>, now: int)
    requires Intact(db)
    ensures SameShape(db, RetryCommand(db, command, order, now)) && Intact(RetryCommand(db, command, order, now))
  {
    if CanRetry(db, command) {
      OneCommandSelection(db, command);
      PairedUpdateWithProgress(db, {command}, Patch(Some(CommandPending), Some(None), Some(None)),
                               RowsOfCommand(db, command), Patch(Some(HostPending), Some(None), Some(None)),
                               command, order, now);
    }
  }

  lemma HostSelections(db: Db, host: string)
    requires Intact(db)
    ensures SameSelection(db, RunningCommandsOn(db, host), RunningRowsOn(db, host))
    ensures SameSelection(db, OpenCommandsOn(db, host), OpenRowsOn(db, host))
  {}

  lemma ConnectionLostKeeps(db: Db, host: string)
    requires Intact(db)
    ensures SameShape(db, ConnectionLost(db, host)) && Intact(ConnectionLost(db, host))
  {
    HostSelections(db, host);
    PairedUpdate(db, RunningCommandsOn(db, host), To(CommandFailed), RunningRowsOn(db, host), To(HostFailed));
  }

  lemma AgentDisconnectedKeeps(db: Db, host: string, orders: string -> seq<HostStatus>, now: int)
    requires Intact(db)
    ensures SameShape(db, AgentDisconnected(db, host, orders, now)) && Intact(AgentDisconnected(db, host, orders, now))
  {
    HostSelections(db, host);
    PairedUpdate(db, OpenCommandsOn(db, host), ToAt(CommandFailed, now), OpenRowsOn(db, host), ToAt(HostFailed, now));
    var m := SetBoth(db, OpenCommandsOn(db, host), ToAt(CommandFailed, now),
                     OpenRowsOn(db, host), ToAt(HostFailed, now));
    var d := AgentDisconnected(db, host, orders, now);
    assert SameShape(m, d);
    ShapeTrans(db, m, d);
    ShapeKeeps(m, d);
  }

  lemma TimeOutOneKeeps(db: Db, command: string, order: seq<HostStatus>, now: int)
    requires Intact(db)
    ensures SameShape(db, TimeOutOne(db, command, order, now)) && Intact(TimeOutOne(db, command, order, now))
  {
    if CanReport(db, command) {
      OneCommandSelection(db, command);
      PairedUpdateWithProgress(db, {command}, ToAt(CommandTimeout, now),
                               RowsOfCommand(db, command), ToAt(HostTimeout, now), command, order, now);
    }
  }

  lemma {:induction false} TimeOutAllKeeps(db: Db, late: seq<string>, orders: string -> seq<HostStatus>, now: int)
    requires Intact(db)
    ensures SameShape(db, TimeOutAll(db, late, orders, now)) && Intact(TimeOutAll(db, late, orders, now))
  {
    if late != [] {
      var n := |late| - 1;
      TimeOutAllKeeps(db, late[..n], orders, now);
      var m := TimeOutAll(db, late[..n], orders, now);
      TimeOutOneKeeps(m, late[n], orders(late[n]), now);
      ShapeTrans(db, m, TimeOutOne(m, late[n], orders(late[n]), now));
    }
  }

  // ----- Where reports about foreign commands break the coupling -----

  // A result changes the command by ID but the row by ID and host. The coupling
  // survives exactly when the result carries the command's own host, or names
  // no known command, or brings no status, or one the command already stands for.
  lemma ResultKeepsCouplingExactly(db: Db, res: Result, order: seq<HostStatus>, now: int)
    requires Intact(db)
    ensures Coupled(HandleResult(db, res, order, now)) <==>
            || !CanReport(db, res.command)
            || db.commands[res.command].host == res.host
            || ResultCommandStatus(res).None?
            || ResultCommandStatus(res) == Some(db.commands[res.command].status)
  {
    if CanReport(db, res.command) {
      if db.commands[res.command].host == res.host {
        ResultKeeps(db, res, order, now);
      } else {
        var m := SetBoth(db, {res.command}, Patch(ResultCommandStatus(res), Some(res.startedAt), Some(res.finishedAt)),
                         RowsOfCommandOn(db, res.command, res.host),
                         Patch(ResultHostStatus(res), Some(res.startedAt), Some(res.finishedAt)));
        CommandProgressShape(m, res.command, order, now);
        ForeignUpdate(db, res.command, res.host,
                      Patch(ResultCommandStatus(res), Some(res.startedAt), Some(res.finishedAt)),
                      Patch(ResultHostStatus(res), Some(res.startedAt), Some(res.finishedAt)));
      }
    }
  }

  // The same for a reported execution error.
  lemma ExecutionErrorKeepsCouplingExactly(db: Db, command: string, host: string, order: seq<HostStatus>, now: int)
    requires Intact(db)
    ensures Coupled(HandleExecutionError(db, command, host, order, now)) <==>
            || !CanReport(db, command)
            || db.commands[command].host == host
            || db.commands[command].status.CommandFailed?
  {
    if CanReport(db, command) {
      if db.commands[command].host == host {
        ExecutionErrorKeeps(db, command, host, order, now);
      } else {
        var m := SetBoth(db, {command}, ToAt(CommandFailed, now),
                         RowsOfCommandOn(db, command, host), ToAt(HostExecFailed, now));
        CommandProgressShape(m, command, order, now);
        ForeignUpdate(db, command, host, ToAt(CommandFailed, now), ToAt(HostExecFailed, now));
      }
    }
  }

  // No row carries both the command and a host other than the command's.
  lemma ForeignUpdate(db: Db, command: string, host: string, pc: Patch<CommandStatus>, pr: Patch<HostStatus>)
    requires Intact(db) && command in db.commands && db.commands[command].host != host
    ensures Coupled(SetBoth(db, {command}, pc, RowsOfCommandOn(db, command, host), pr)) <==>
            pc.status.None? || pc.status == Some(db.commands[command].status)
  {
    var d := SetBoth(db, {command}, pc, RowsOfCommandOn(db, command, host), pr);
    assert RowsOfCommandOn(db, command, host) == {};
    var r :| r in db.rows && db.rows[r].commandId == command;
    assert r in d.rows && d.rows[r] == db.rows[r];
  }

}
