// The task service and the timeout monitor as the program runs them: each
// transaction is a method that changes the tables statement by statement, and
// is proved to have the effect that the model of the tables gives it.
module Service {
  import opened Common
  import opened Statuses
  import opened Progress
  import opened TaskStoreModel
  import opened Timeouts

  class TaskService {
    var tasks: map<string, Task>
    var commands: map<string, Command>
    var rows: map<nat, Row>
    var nextRow: nat

    function Tables(): Db
      reads this
    {
      Db(tasks, commands, rows, nextRow)
    }

    constructor ()
      ensures Tables() == EMPTY_DB
    {
      tasks, commands, rows, nextRow := map[], map[], map[], 0;
    }

    // ----- Creating and removing -----

    // ids are the generated command IDs.
    method AddCommandRecords(taskID: string, ids: seq<string>, hostIDs: seq<string>, timeout: int)
      requires |ids| == |hostIDs|
      modifies this`commands, this`rows, this`nextRow
      ensures Tables() == AddCommands(old(Tables()), taskID, ids, hostIDs, timeout)
    {
      ghost var before := Tables();
      for i := 0 to |hostIDs|
        invariant Tables() == AddCommands(before, taskID, ids[..i], hostIDs[..i], timeout)
      {
        commands := commands[ids[i] := Command(Some(taskID), hostIDs[i], timeout, CommandPending, None, None)];
        rows := rows[nextRow := Row(ids[i], hostIDs[i], HostPending, None, None)];
        nextRow := nextRow + 1;
        assert ids[..i + 1][..i] == ids[..i] && hostIDs[..i + 1][..i] == hostIDs[..i];
      }
      assert ids[..|ids|] == ids && hostIDs[..|hostIDs|] == hostIDs;
    }

    method CreateTask(taskID: string, ids: seq<string>, hostIDs: seq<string>, timeout: int, now: int)
      requires |ids| == |hostIDs|
      modifies this
      ensures Tables() == TaskStoreModel.CreateTask(old(Tables()), taskID, ids, hostIDs, timeout, now)
    {
      tasks := tasks[taskID := Task(TaskPending, |hostIDs|, 0, 0, now, None, None)];
      AddCommandRecords(taskID, ids, hostIDs, timeout);
    }

    // existingCommand is the command of the task that the database returns first.
    method AddTaskHosts(taskID: string, existingCommand: Option<string>, ids: seq<string>, hostIDs: seq<string>)
      returns (ok: bool)
      requires |ids| == |hostIDs|
      requires match existingCommand
               case Some(c) => c in CommandsOf(Tables(), taskID)
               case None => CommandsOf(Tables(), taskID) == {}
      modifies this
      ensures ok <==> old(taskID in tasks && !tasks[taskID].status.TaskRunning? && CommandsOf(Tables(), taskID) != {})
      ensures Tables() == match existingCommand
                          case Some(c) => TaskStoreModel.AddTaskHosts(old(Tables()), taskID, c, ids, hostIDs)
                          case None => old(Tables())
    {
      if taskID !in tasks || tasks[taskID].status.TaskRunning? || existingCommand.None? {
        return false;
      }
      AddCommandRecords(taskID, ids, hostIDs, commands[existingCommand.value].timeout);
      tasks := tasks[taskID := tasks[taskID].(total := tasks[taskID].total + |hostIDs|)];
      ok := true;
    }

    method RemoveTaskHost(taskID: string, hostID: string) returns (ok: bool)
      modifies this
      ensures ok <==> CanRemove(old(Tables()), taskID)
      ensures Tables() == TaskStoreModel.RemoveTaskHost(old(Tables()), taskID, hostID)
    {
      if taskID !in tasks || tasks[taskID].status.TaskRunning? {
        return false;
      }
      rows := map r | r in rows && !(rows[r].host == hostID && RowOfTask(Tables(), rows[r], taskID)) :: rows[r];
      commands := map c | c in commands
                          && !(commands[c].host == hostID && BelongsTo(commands[c], taskID)) :: commands[c];
      var total := tasks[taskID].total - 1;
      tasks := tasks[taskID := tasks[taskID].(total := if total > 0 then total else 0)];
      ok := true;
    }

    method DeleteTask(taskID: string) returns (ok: bool)
      modifies this
      ensures ok <==> CanRemove(old(Tables()), taskID)
      ensures Tables() == TaskStoreModel.DeleteTask(old(Tables()), taskID)
    {
      if taskID !in tasks || tasks[taskID].status.TaskRunning? {
        return false;
      }
      rows := map r | r in rows && !RowOfTask(Tables(), rows[r], taskID) :: rows[r];
      commands := map c | c in commands && !BelongsTo(commands[c], taskID) :: commands[c];
      tasks := tasks - {taskID};
      ok := true;
    }

    method CleanupOldRecords(cutoffDate: int)
      modifies this
      ensures Tables() == Cleanup(old(Tables()), cutoffDate)
    {
      tasks := map t | t in tasks && !Expired(tasks[t], cutoffDate) :: tasks[t];
      commands := map c | c in commands
                          && (commands[c].taskId.Some? ==> commands[c].taskId.value in tasks) :: commands[c];
      rows := map r | r in rows && rows[r].commandId in commands :: rows[r];
    }

    // ----- Starting, stopping, canceling -----

    // The commands are visited in an arbitrary order.
    method StartTask(taskID: string, now: int) returns (ok: bool)
      modifies this
      ensures ok <==> CanStart(old(Tables()), taskID)
      ensures Tables() == TaskStoreModel.StartTask(old(Tables()), taskID, now)
    {
      if taskID !in tasks || !tasks[taskID].status.TaskPending? {
        return false;
      }
      tasks := tasks[taskID := tasks[taskID].(status := TaskRunning, startedAt := Some(now))];
      ResetCommands(CommandsOf(Tables(), taskID));
      assert CommandsOf(old(Tables()), taskID) == CommandsOf(old(Tables()).(tasks := tasks), taskID);
      assert RowsOfCommands(old(Tables()), CommandsOf(old(Tables()), taskID)) == RowsOf(old(Tables()), taskID);
      ok := true;
    }

    method ResetCommands(all: set<string>)
      modifies this`commands, this`rows
      ensures BothUpdated(old(Tables()), Tables(), all, To(CommandPending), To(HostPending))
    {
      ghost var before := Tables();
      var todo := all;
      ghost var done: set<string> := {};
      UpdateNothing(before, To(CommandPending), To(HostPending));
      while todo != {}
        invariant todo + done == all
        invariant BothUpdated(before, Tables(), done, To(CommandPending), To(HostPending))
        decreases todo
      {
        var c :| c in todo;
        BothStep(before, Tables(), done, c, To(CommandPending), To(HostPending));
        todo, done := todo - {c}, done + {c};
        ResetCommand(c);
      }
    }

    method ResetCommand(commandID: string)
      modifies this`commands, this`rows
      ensures Tables() == SetBoth(old(Tables()), {commandID}, To(CommandPending),
                                  RowsOfCommand(old(Tables()), commandID), To(HostPending))
    {
      commands := UpdateCommands(commands, {commandID}, To(CommandPending));
      rows := UpdateRows(rows, RowsOfCommand(Tables(), commandID), To(HostPending));
    }

    method StopTask(taskID: string, now: int) returns (ok: bool)
      modifies this
      ensures ok <==> CanStop(old(Tables()), taskID)
      ensures Tables() == TaskStoreModel.StopTask(old(Tables()), taskID, now)
      ensures commands == old(commands) && rows == old(rows) && tasks.Keys == old(tasks).Keys
      ensures forall t :: t in tasks && (t != taskID || !ok) ==> tasks[t] == old(tasks)[t]
      ensures ok ==> tasks[taskID].status == TaskCanceled && tasks[taskID].finishedAt == Some(now)
    {
      if taskID !in tasks || !tasks[taskID].status.TaskRunning? {
        return false;
      }
      tasks := tasks[taskID := tasks[taskID].(status := TaskCanceled, finishedAt := Some(now))];
      ok := true;
    }

    method CancelTask(taskID: string, now: int) returns (ok: bool)
      modifies this
      ensures ok <==> CanCancel(old(Tables()), taskID)
      ensures Tables() == TaskStoreModel.CancelTask(old(Tables()), taskID, now)
    {
      if taskID !in tasks || TaskFinished(tasks[taskID].status) {
        return false;
      }
      ghost var before := Tables();
      tasks := tasks[taskID := tasks[taskID].(status := TaskCanceled, finishedAt := Some(now))];
      commands := UpdateCommands(commands, OpenCommands(Tables(), taskID), ToAt(CommandCanceled, now));
      assert OpenRows(Tables(), taskID) == OpenRows(before, taskID);
      rows := UpdateRows(rows, OpenRows(Tables(), taskID), ToAt(HostCanceled, now));
      ok := true;
    }

    // ----- Progress -----

    // The switch over the groups of the query's result, in the order in which
    // the database returns them; a status without rows has no group.
    method CountGroups(taskID: string, order: seq<HostStatus>) returns (c: Counts)
      ensures c == FoldGroups(order, TallyOf(Tables(), taskID))
    {
      var completed, failed, running, pending, canceled := 0, 0, 0, 0, 0;
      var tally := TallyOf(Tables(), taskID);
      for i := 0 to |order|
        invariant Counts(completed, failed, running, pending, canceled) == FoldGroups(order[..i], tally)
      {
        var count := tally[order[i]];
        assert order[..i + 1][..i] == order[..i];
        if count > 0 {
          match order[i] {
            case HostCompleted => completed := count;
            case HostFailed => failed := count;
            case HostExecFailed => failed := count;
            case HostTimeout => failed := count;
            case HostRunning => running := count;
            case HostPending => pending := count;
            case HostCanceled => canceled := count;
          }
        }
      }
      assert order[..|order|] == order;
      c := Counts(completed, failed, running, pending, canceled);
    }

    // keepFinish tells the two copies of this computation apart.
    method WriteProgress(taskID: string, order: seq<HostStatus>, now: int, keepFinish: bool) returns (ok: bool)
      modifies this`tasks
      ensures ok <==> taskID in old(tasks)
      ensures Tables() == if ok then WithProgress(old(Tables()), taskID, order, now, keepFinish) else old(Tables())
    {
      if taskID !in tasks {
        return false;
      }
      var t := tasks[taskID];
      var c := CountGroups(taskID, order);
      var updated := t.(completed := c.completed, failed := c.failed);
      if c.completed + c.failed + c.canceled == t.total {
        if c.canceled > 0 {
          updated := updated.(status := TaskCanceled);
        } else if c.failed == 0 {
          updated := updated.(status := TaskCompleted);
        } else {
          updated := updated.(status := TaskFailed);
        }
        if !keepFinish || t.finishedAt.None? {
          updated := updated.(finishedAt := Some(now));
        }
      } else if c.running > 0 || c.completed > 0 {
        updated := updated.(status := TaskRunning);
        if t.startedAt.None? {
          updated := updated.(startedAt := Some(now));
        }
      }
      tasks := tasks[taskID := updated];
      ok := true;
    }

    method GetTaskStatus(taskID: string, order: seq<HostStatus>, now: int) returns (ok: bool)
      modifies this
      ensures ok <==> taskID in old(tasks)
      ensures Tables() == ReadStatus(old(Tables()), taskID, order, now)
    {
      ok := WriteProgress(taskID, order, now, true);
    }

    // Looks the command up and updates its task, if it has one. False if the
    // command or its task does not exist.
    method ProgressOfCommand(commandID: string, order: seq<HostStatus>, now: int) returns (ok: bool)
      modifies this`tasks
      ensures ok <==> CanReport(old(Tables()), commandID)
      ensures Tables() == if ok then WithCommandProgress(old(Tables()), commandID, order, now) else old(Tables())
    {
      if commandID !in commands {
        return false;
      }
      match commands[commandID].taskId
      case None => ok := true;
      case Some(t) => ok := WriteProgress(t, order, now, false);
    }

    // ----- Commands -----

    method UpdateCommandDispatchFailed(commandID: string)
      modifies this
      ensures Tables() == DispatchFailed(old(Tables()), commandID)
      ensures tasks == old(tasks) && commands.Keys == old(commands).Keys && rows.Keys == old(rows).Keys
      ensures forall c :: c in commands ==>
                if c == commandID then commands[c].status == CommandFailed else commands[c] == old(commands)[c]
      ensures forall r :: r in rows ==>
                if rows[r].commandId == commandID then rows[r].status == HostFailed else rows[r] == old(rows)[r]
    {
      commands := UpdateCommands(commands, {commandID}, To(CommandFailed));
      rows := UpdateRows(rows, RowsOfCommand(Tables(), commandID), To(HostFailed));
    }

    method UpdateCommandStatus(commandID: string, status: CommandStatus, now: int)
      modifies this
      ensures Tables() == SetCommandStatus(old(Tables()), commandID, status, now)
    {
      var updates := To(status);
      if status == CommandRunning {
        updates := updates.(startedAt := Some(Some(now)));
      }
      commands := UpdateCommands(commands, {commandID}, updates);
      var hostStatus := HostPending;
      match status {
        case CommandRunning => hostStatus := HostRunning;
        case CommandCompleted => hostStatus := HostCompleted;
        case CommandFailed => hostStatus := HostExecFailed;
        case CommandTimeout => hostStatus := HostTimeout;
        case CommandCanceled => hostStatus := HostCanceled;
        case CommandPending =>
      }
      var hostUpdates := To(hostStatus);
      if status == CommandRunning {
        hostUpdates := hostUpdates.(startedAt := Some(Some(now)));
      }
      rows := UpdateRows(rows, RowsOfCommand(Tables(), commandID), hostUpdates);
    }

    method HandleCommandResult(result: Result, order: seq<HostStatus>, now: int) returns (ok: bool)
      modifies this
      ensures ok <==> CanReport(old(Tables()), result.command)
      ensures Tables() == HandleResult(old(Tables()), result, order, now)
    {
      var savedCommands, savedRows := commands, rows;
      var hostUpdates := Patch(None, Some(result.startedAt), Some(result.finishedAt));
      var updates := Patch(None, Some(result.startedAt), Some(result.finishedAt));
      if result.finishedAt.Some? {
        if result.exitCode == 0 {
          hostUpdates, updates := hostUpdates.(status := Some(HostCompleted)),
                                  updates.(status := Some(CommandCompleted));
        } else {
          hostUpdates, updates := hostUpdates.(status := Some(HostExecFailed)), updates.(status := Some(CommandFailed));
        }
      } else if result.startedAt.Some? {
        hostUpdates, updates := hostUpdates.(status := Some(HostRunning)), updates.(status := Some(CommandRunning));
      }
      rows := UpdateRows(rows, RowsOfCommandOn(Tables(), result.command, result.host), hostUpdates);
      commands := UpdateCommands(commands, {result.command}, updates);
      ok := ProgressOfCommand(result.command, order, now);
      if !ok {
        commands, rows := savedCommands, savedRows;  // the transaction is rolled back
      }
    }

    method HandleCommandExecutionError(commandID: string, hostID: string, order: seq<HostStatus>, now: int)
      returns (ok: bool)
      modifies this
      ensures ok <==> CanReport(old(Tables()), commandID)
      ensures Tables() == HandleExecutionError(old(Tables()), commandID, hostID, order, now)
    {
      var savedCommands, savedRows := commands, rows;
      commands := UpdateCommands(commands, {commandID}, ToAt(CommandFailed, now));
      rows := UpdateRows(rows, RowsOfCommandOn(Tables(), commandID, hostID), ToAt(HostExecFailed, now));
      ok := ProgressOfCommand(commandID, order, now);
      if !ok {
        commands, rows := savedCommands, savedRows;  // the transaction is rolled back
      }
    }

    method RetryFailedCommand(commandID: string, order: seq<HostStatus>, now: int) returns (ok: bool)
      modifies this
      ensures ok <==> CanRetry(old(Tables()), commandID)
      ensures Tables() == RetryCommand(old(Tables()), commandID, order, now)
    {
      if commandID !in commands
         || !(commands[commandID].status.CommandFailed? || commands[commandID].status.CommandTimeout?)
      {
        return false;
      }
      var savedCommands, savedRows := commands, rows;
      commands := UpdateCommands(commands, {commandID}, Patch(Some(CommandPending), Some(None), Some(None)));
      rows := UpdateRows(rows, RowsOfCommand(Tables(), commandID), Patch(Some(HostPending), Some(None), Some(None)));
      ok := ProgressOfCommand(commandID, order, now);
      if !ok {
        commands, rows := savedCommands, savedRows;  // the transaction is rolled back
      }
    }

    // ----- A host goes away -----

    method HandleHostConnectionChange(hostID: string, connected: bool)
      modifies this
      ensures Tables() == if connected then old(Tables()) else ConnectionLost(old(Tables()), hostID)
      ensures tasks == old(tasks) && commands.Keys == old(commands).Keys && rows.Keys == old(rows).Keys
      ensures !connected ==> RunningCommandsOn(Tables(), hostID) == {} && RunningRowsOn(Tables(), hostID) == {}
      ensures forall c :: c in commands && (connected || c !in RunningCommandsOn(old(Tables()), hostID)) ==>
                commands[c] == old(commands)[c]
      ensures forall r :: r in rows && (connected || r !in RunningRowsOn(old(Tables()), hostID)) ==>
                rows[r] == old(rows)[r]
    {
      if !connected {
        rows := UpdateRows(rows, RunningRowsOn(Tables(), hostID), To(HostFailed));
        commands := UpdateCommands(commands, RunningCommandsOn(Tables(), hostID), To(CommandFailed));
      }
    }

    // The affected tasks are visited in an arbitrary order; each finds its groups in an order
    // of their own.
    method HandleAgentDisconnection(hostID: string, orders: string -> seq<HostStatus>, now: int)
      modifies this
      ensures Tables() == AgentDisconnected(old(Tables()), hostID, orders, now)
    {
      commands := UpdateCommands(commands, OpenCommandsOn(Tables(), hostID), ToAt(CommandFailed, now));
      rows := UpdateRows(rows, OpenRowsOn(Tables(), hostID), ToAt(HostFailed, now));
      var affected := TasksFailedOn(Tables(), hostID);
      UpdateAffectedTasks(affected, orders, now);
    }

    method UpdateAffectedTasks(affected: set<string>, orders: string -> seq<HostStatus>, now: int)
      modifies this`tasks
      ensures Tables() == WithAllProgress(old(Tables()), affected, orders, now)
    {
      ghost var m := Tables();
      var todo := affected;
      assert WithAllProgress(m, affected - todo, orders, now) == m;
      while todo != {}
        invariant todo <= affected
        invariant Tables() == WithAllProgress(m, affected - todo, orders, now)
        decreases |todo|
      {
        var t :| t in todo;
        OneMoreTask(m, affected - todo, t, orders, now);
        assert affected - (todo - {t}) == affected - todo + {t};
        todo := todo - {t};
        var ok := WriteProgress(t, orders(t), now, false);  // an error is only logged
      }
      assert affected - todo == affected;
    }
  }

  class TimeoutMonitor {
    const taskService: TaskService

    constructor (ts: TaskService)
      ensures taskService == ts
    {
      taskService := ts;
    }

    // found lists the running commands in the order the query returned them;
    // each progress query has an order of groups of its own.
    method CheckTimeouts(found: seq<string>, orders: string -> seq<HostStatus>, now: int) returns (late: seq<string>)
      requires IsListing(found, RunningCommands(taskService.Tables()))
      modifies taskService
      ensures IsListing(late, LateCommands(old(taskService.Tables()), now))
      ensures taskService.Tables() == TimeOutAll(old(taskService.Tables()), late, orders, now)
    {
      late := FindTimeouts(found, taskService.commands, now);
      HandleTimeoutCommands(late, orders, now);
    }

    method FindTimeouts(found: seq<string>, commands: map<string, Command>, now: int) returns (late: seq<string>)
      requires forall x :: x in found ==> x in commands
      requires forall i, j :: 0 <= i < j < |found| ==> found[i] != found[j]
      ensures forall x :: x in late <==> x in found && IsTimedOut(commands[x], now)
      ensures forall i, j :: 0 <= i < j < |late| ==> late[i] != late[j]
    {
      late := [];
      for i := 0 to |found|
        invariant forall x :: x in late <==> x in found[..i] && IsTimedOut(commands[x], now)
        invariant forall j, k :: 0 <= j < k < |late| ==> late[j] != late[k]
      {
        if IsTimedOut(commands[found[i]], now) {
          late := late + [found[i]];
        }
      }
    }

    method HandleTimeoutCommands(late: seq<string>, orders: string -> seq<HostStatus>, now: int)
      modifies taskService
      ensures taskService.Tables() == TimeOutAll(old(taskService.Tables()), late, orders, now)
    {
      for i := 0 to |late|
        invariant taskService.Tables() == TimeOutAll(old(taskService.Tables()), late[..i], orders, now)
      {
        HandleSingleTimeoutCommand(late[i], orders(late[i]), now);
        assert late[..i + 1][..i] == late[..i];
      }
      assert late[..|late|] == late;
    }

    method HandleSingleTimeoutCommand(commandID: string, order: seq<HostStatus>, now: int)
      modifies taskService
      ensures taskService.Tables() == TimeOutOne(old(taskService.Tables()), commandID, order, now)
    {
      var ts := taskService;
      var savedCommands, savedRows := ts.commands, ts.rows;
      ts.commands := UpdateCommands(ts.commands, {commandID}, ToAt(CommandTimeout, now));
      ts.rows := UpdateRows(ts.rows, RowsOfCommand(ts.Tables(), commandID), ToAt(HostTimeout, now));
      var ok := ts.ProgressOfCommand(commandID, order, now);
      if !ok {
        ts.commands, ts.rows := savedCommands, savedRows;  // the transaction is rolled back
      }
    }
  }

  lemma UpdateNothing(db: Db, pc: Patch<CommandStatus>, pr: Patch<HostStatus>)
    ensures UpdateCommands(db.commands, {}, pc) == db.commands
    ensures UpdateRows(db.rows, RowsOfCommands(db, {}), pr) == db.rows
  {}

  lemma OneMoreTask(db: Db, done: set<string>, task: string, orders: string -> seq<HostStatus>, now: int)
    requires task !in done
    ensures var m := WithAllProgress(db, done, orders, now);
            WithAllProgress(db, done + {task}, orders, now)
            == if task in m.tasks then WithProgress(m, task, orders(task), now, false) else m
  {
    var m := WithAllProgress(db, done, orders, now);
    if task in m.tasks {
      SameProgress(db, m, task, orders(task), now);
      OneMoreEntry(db.tasks, done, task, t requires t in db.tasks => ProgressedTask(db, t, orders(t), now, false));
    }
  }

  lemma SameProgress(a: Db, b: Db, task: string, order: seq<HostStatus>, now: int)
    requires a.commands == b.commands && a.rows == b.rows
    requires task in a.tasks && task in b.tasks && a.tasks[task] == b.tasks[task]
    ensures ProgressedTask(a, task, order, now, false) == ProgressedTask(b, task, order, now, false)
  {
    SameTally(a, b, task);
  }

  lemma OneMoreEntry(tasks: map<string, Task>, done: set<string>, task: string, f: string --> Task)
    requires task !in done && task in tasks && forall t :: t in tasks ==> f.requires(t)
    ensures (map t | t in tasks :: if t in done + {task} then f(t) else tasks[t])
            == (map t | t in tasks :: if t in done then f(t) else tasks[t])[task := f(task)]
  {}

  // The tally does not depend on the task table.
  lemma SameTally(a: Db, b: Db, task: string)
    requires a.commands == b.commands && a.rows == b.rows
    ensures TallyOf(a, task) == TallyOf(b, task)
  {
    forall h: HostStatus ensures RowsWithStatus(a, task, h) == RowsWithStatus(b, task, h) {}
  }

}
