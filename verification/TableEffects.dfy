// What each transaction leaves in every column of every record, and which
// records it leaves alone.
module TableEffects {
  import opened Common
  import opened Statuses
  import opened Progress
  import opened TaskStoreModel

  // b is a, but for the three columns that transactions write.
  ghost predicate CommandIs(a: Command, b: Command, status: CommandStatus,
                            started: Option<int>, finished: Option<int>)
  {
    && b.taskId == a.taskId && b.host == a.host && b.timeout == a.timeout
    && b.status == status && b.startedAt == started && b.finishedAt == finished
  }

  ghost predicate RowIs(a: Row, b: Row, status: HostStatus, started: Option<int>, finished: Option<int>) {
    && b.commandId == a.commandId && b.host == a.host
    && b.status == status && b.startedAt == started && b.finishedAt == finished
  }

  // The transaction neither adds nor removes records.
  ghost predicate SameRecords(db: Db, d: Db) {
    d.commands.Keys == db.commands.Keys && d.rows.Keys == db.rows.Keys && d.tasks.Keys == db.tasks.Keys
    && d.nextRow == db.nextRow
  }

  // ----- Progress -----

  // The rows of the task's commands that have the status.
  ghost function HostsIn(db: Db, task: string, h: HostStatus): nat {
    |set r | r in db.rows && db.rows[r].commandId in db.commands
             && db.commands[db.rows[r].commandId].taskId == Some(task) && db.rows[r].status == h|
  }

  // The record after its progress has been written: completed hosts; those of one
  // failure status, if any failed; and status and times from these counts.
  ghost predicate ShowsProgress(db: Db, task: string, before: Task, after: Task, now: int, keepFinish: bool) {
    var done, canceled := HostsIn(db, task, HostCompleted), HostsIn(db, task, HostCanceled);
    var f, e, t := HostsIn(db, task, HostFailed), HostsIn(db, task, HostExecFailed), HostsIn(db, task, HostTimeout);
    var finished := done + after.failed + canceled == before.total;
    var underway := !finished && (HostsIn(db, task, HostRunning) > 0 || done > 0);
    && after.completed == done
    && (after.failed == f || after.failed == e || after.failed == t) && (after.failed == 0 ==> f == e == t == 0)
    && after.total == before.total && after.createdAt == before.createdAt
    && after.status == (if finished && canceled > 0 then TaskCanceled
                        else if finished && after.failed == 0 then TaskCompleted
                        else if finished then TaskFailed
                        else if underway then TaskRunning
                        else before.status)
    && after.finishedAt == (if finished && !(keepFinish && before.finishedAt.Some?) then Some(now)
                            else before.finishedAt)
    && after.startedAt == (if underway && before.startedAt.None? then Some(now) else before.startedAt)
  }

  // Of the task records only those of the owners are rewritten, as their hosts
  // then stand.
  ghost predicate OnlyProgress(db: Db, d: Db, owners: set<string>, now: int, keepFinish: bool) {
    && d.tasks.Keys == db.tasks.Keys
    && forall t :: t in db.tasks ==>
         if t in owners then ShowsProgress(d, t, db.tasks[t], d.tasks[t], now, keepFinish)
         else d.tasks[t] == db.tasks[t]
  }

  ghost function OwnerOf(db: Db, command: string): set<string> {
    if command in db.commands && db.commands[command].taskId.Some? then {db.commands[command].taskId.value} else {}
  }

  lemma TalliedHosts(db: Db, task: string, h: HostStatus)
    ensures TallyOf(db, task)[h] == HostsIn(db, task, h)
  {
    TallyCounts(db, task, h);
    assert RowsWithStatus(db, task, h)
           == set r | r in db.rows && db.rows[r].commandId in db.commands
                      && db.commands[db.rows[r].commandId].taskId == Some(task) && db.rows[r].status == h;
  }

  lemma OneOfTheFailures(order: seq<HostStatus>, tally: Tally)
    requires IsGroupOrder(order)
    ensures var c := FoldGroups(order, tally).failed;
            && (c == tally[HostFailed] || c == tally[HostExecFailed] || c == tally[HostTimeout])
            && (c == 0 ==> tally[HostFailed] == tally[HostExecFailed] == tally[HostTimeout] == 0)
  {
    FoldFailed(order, tally);
    FailedExactly(order, tally);
    if f :| LastFailure(order, tally, f) && FoldGroups(order, tally).failed == tally[f] {
      assert IsFailure(f);
    }
  }

  lemma ProgressedShows(db: Db, task: string, order: seq<HostStatus>, now: int, keepFinish: bool)
    requires IsGroupOrder(order) && task in db.tasks
    ensures ShowsProgress(db, task, db.tasks[task], ProgressedTask(db, task, order, now, keepFinish), now, keepFinish)
  {
    var tally := TallyOf(db, task);
    forall h: HostStatus ensures tally[h] == HostsIn(db, task, h) {
      TalliedHosts(db, task, h);
    }
    FoldKeeps(order, tally);
    OneOfTheFailures(order, tally);
  }

  lemma SameHosts(a: Db, b: Db, task: string, before: Task, after: Task, now: int, keepFinish: bool)
    requires a.commands == b.commands && a.rows == b.rows
    ensures ShowsProgress(a, task, before, after, now, keepFinish)
            <==> ShowsProgress(b, task, before, after, now, keepFinish)
  {
    forall h: HostStatus ensures HostsIn(a, task, h) == HostsIn(b, task, h) {
      TalliedHosts(a, task, h);
      TalliedHosts(b, task, h);
      assert RowsWithStatus(a, task, h) == RowsWithStatus(b, task, h);
      TallyCounts(a, task, h);
      TallyCounts(b, task, h);
    }
  }

  // Writing a task's progress, as a status read does.
  lemma ReadColumns(db: Db, task: string, order: seq<HostStatus>, now: int)
    requires IsGroupOrder(order)
    ensures var d := ReadStatus(db, task, order, now);
            d == db.(tasks := d.tasks) && OnlyProgress(db, d, {task}, now, true)
  {
    if task in db.tasks {
      var d := ReadStatus(db, task, order, now);
      ProgressedShows(db, task, order, now, true);
      SameHosts(db, d, task, db.tasks[task], d.tasks[task], now, true);
    }
  }

  lemma CommandProgressColumns(db: Db, m: Db, command: string, order: seq<HostStatus>, now: int)
    requires IsGroupOrder(order) && m.tasks == db.tasks && command in m.commands && TaskExists(m, command)
    ensures var d := WithCommandProgress(m, command, order, now);
            d == m.(tasks := d.tasks) && OnlyProgress(db, d, OwnerOf(m, command), now, false)
  {
    var d := WithCommandProgress(m, command, order, now);
    match m.commands[command].taskId
    case None =>
    case Some(t) =>
      ProgressedShows(m, t, order, now, false);
      SameHosts(m, d, t, m.tasks[t], d.tasks[t], now, false);
  }

  // ----- Creating -----

  // One pending command and one pending row for each host; all else is as before.
  ghost predicate Added(db: Db, d: Db, task: string, ids: seq<string>, hosts: seq<string>, timeout: int)
    requires |ids| == |hosts|
  {
    OthersKept(db, d, ids) && AllNew(db, d, task, ids, hosts, timeout)
  }

  ghost predicate OthersKept(db: Db, d: Db, ids: seq<string>) {
    && d.nextRow == db.nextRow + |ids|
    && (forall c :: c in d.commands <==> c in db.commands || c in ids)
    && (forall c :: c in db.commands ==> d.commands[c] == db.commands[c])
    && (forall r :: r in d.rows <==> r in db.rows || db.nextRow <= r < d.nextRow)
    && (forall r :: r in db.rows ==> d.rows[r] == db.rows[r])
  }

  ghost predicate AllNew(db: Db, d: Db, task: string, ids: seq<string>, hosts: seq<string>, timeout: int)
    requires |ids| == |hosts|
  {
    forall i :: 0 <= i < |ids| ==> NewRecords(d, db.nextRow + i, task, ids[i], hosts[i], timeout)
  }

  ghost predicate NewRecords(d: Db, r: nat, task: string, id: string, host: string, timeout: int) {
    && id in d.commands && r in d.rows
    && d.commands[id].taskId == Some(task) && d.commands[id].host == host && d.commands[id].timeout == timeout
    && d.commands[id].status == CommandPending
    && d.commands[id].startedAt == None && d.commands[id].finishedAt == None
    && d.rows[r].commandId == id && d.rows[r].host == host && d.rows[r].status == HostPending
    && d.rows[r].startedAt == None && d.rows[r].finishedAt == None
    && forall q :: q in d.rows && d.rows[q].commandId == id ==> q == r
  }

  // The generated IDs are new, and rows name existing commands.
  ghost predicate NewIds(db: Db, ids: seq<string>) {
    && (forall r :: r in db.rows ==> r < db.nextRow && db.rows[r].commandId in db.commands)
    && (forall i :: 0 <= i < |ids| ==> ids[i] !in db.commands)
    && (forall i, j :: 0 <= i < j < |ids| ==> ids[i] != ids[j])
  }

  lemma OlderRecords(m: Db, d: Db, r: nat, task: string, id: string, host: string, timeout: int, newId: string)
    requires NewRecords(m, r, task, id, host, timeout) && newId != id && r < m.nextRow
    requires forall c :: c in m.commands && c != newId ==> c in d.commands && d.commands[c] == m.commands[c]
    requires forall q :: q in m.rows && q != m.nextRow ==> q in d.rows && d.rows[q] == m.rows[q]
    requires forall q :: q in d.rows ==> q in m.rows || q == m.nextRow
    requires m.nextRow in d.rows && d.rows[m.nextRow].commandId == newId
    ensures NewRecords(d, r, task, id, host, timeout)
  {}

  lemma NoRowYet(db: Db, m: Db, task: string, ids: seq<string>, hosts: seq<string>, timeout: int, id: string)
    requires |ids| == |hosts| && NewIds(db, ids) && Added(db, m, task, ids, hosts, timeout)
    requires id !in ids && id !in db.commands
    ensures forall q :: q in m.rows ==> q < m.nextRow && m.rows[q].commandId != id
  {
    forall q | q in m.rows && q !in db.rows ensures m.rows[q].commandId != id {
      var i := q - db.nextRow;
      assert NewRecords(m, db.nextRow + i, task, ids[i], hosts[i], timeout);
    }
  }

  lemma OneMoreOther(db: Db, m: Db, task: string, ids: seq<string>, host: string, timeout: int, n: nat)
    requires |ids| == n + 1 && NewIds(db, ids) && OthersKept(db, m, ids[..n])
    ensures OthersKept(db, AddCommand(m, task, ids[n], host, timeout), ids)
  {
    assert ids == ids[..n] + [ids[n]];
  }

  lemma TheNewOne(m: Db, task: string, id: string, host: string, timeout: int)
    requires forall q :: q in m.rows ==> q < m.nextRow && m.rows[q].commandId != id
    ensures NewRecords(AddCommand(m, task, id, host, timeout), m.nextRow, task, id, host, timeout)
  {}

  lemma EachOlder(db: Db, m: Db, task: string, ids: seq<string>, hosts: seq<string>, timeout: int, n: nat, i: nat)
    requires |ids| == |hosts| == n + 1 && i < n && ids[i] != ids[n] && m.nextRow == db.nextRow + n
    requires AllNew(db, m, task, ids[..n], hosts[..n], timeout)
    ensures NewRecords(AddCommand(m, task, ids[n], hosts[n], timeout), db.nextRow + i, task, ids[i], hosts[i], timeout)
  {
    assert NewRecords(m, db.nextRow + i, task, ids[..n][i], hosts[..n][i], timeout);
    OlderRecords(m, AddCommand(m, task, ids[n], hosts[n], timeout), db.nextRow + i, task, ids[i], hosts[i], timeout,
                 ids[n]);
  }

  lemma FrontIds(db: Db, ids: seq<string>, n: nat)
    requires |ids| == n + 1 && NewIds(db, ids)
    ensures NewIds(db, ids[..n]) && ids[n] !in ids[..n] && ids[n] !in db.commands
  {}

  lemma LastRecord(db: Db, m: Db, task: string, ids: seq<string>, hosts: seq<string>, timeout: int, n: nat)
    requires |ids| == |hosts| == n + 1 && NewIds(db, ids) && Added(db, m, task, ids[..n], hosts[..n], timeout)
    ensures NewRecords(AddCommand(m, task, ids[n], hosts[n], timeout), db.nextRow + n, task, ids[n], hosts[n], timeout)
  {
    FrontIds(db, ids, n);
    NoRowYet(db, m, task, ids[..n], hosts[..n], timeout, ids[n]);
    TheNewOne(m, task, ids[n], hosts[n], timeout);
  }

  lemma AllStillNew(db: Db, m: Db, d: Db, task: string, ids: seq<string>, hosts: seq<string>, timeout: int, n: nat)
    requires |ids| == |hosts| == n + 1 && m.nextRow == db.nextRow + n && forall i :: 0 <= i < n ==> ids[i] != ids[n]
    requires AllNew(db, m, task, ids[..n], hosts[..n], timeout) && d == AddCommand(m, task, ids[n], hosts[n], timeout)
    requires NewRecords(d, db.nextRow + n, task, ids[n], hosts[n], timeout)
    ensures AllNew(db, d, task, ids, hosts, timeout)
  {
    forall i | 0 <= i < n ensures NewRecords(d, db.nextRow + i, task, ids[i], hosts[i], timeout) {
      EachOlder(db, m, task, ids, hosts, timeout, n, i);
    }
  }

  lemma OneMoreRecord(db: Db, m: Db, task: string, ids: seq<string>, hosts: seq<string>, timeout: int, n: nat)
    requires |ids| == |hosts| == n + 1 && NewIds(db, ids) && Added(db, m, task, ids[..n], hosts[..n], timeout)
    ensures Added(db, AddCommand(m, task, ids[n], hosts[n], timeout), task, ids, hosts, timeout)
  {
    OneMoreOther(db, m, task, ids, hosts[n], timeout, n);
    LastRecord(db, m, task, ids, hosts, timeout, n);
    AllStillNew(db, m, AddCommand(m, task, ids[n], hosts[n], timeout), task, ids, hosts, timeout, n);
  }

  lemma {:induction false} AddedColumns(db: Db, task: string, ids: seq<string>, hosts: seq<string>, timeout: int)
    requires |ids| == |hosts| && NewIds(db, ids)
    ensures Added(db, AddCommands(db, task, ids, hosts, timeout), task, ids, hosts, timeout)
  {
    if ids != [] {
      var n := |ids| - 1;
      AddedColumns(db, task, ids[..n], hosts[..n], timeout);
      OneMoreRecord(db, AddCommands(db, task, ids[..n], hosts[..n], timeout), task, ids, hosts, timeout, n);
    }
  }

  // Creating a task: its record, and for each host a command and a row.
  lemma CreateColumns(db: Db, task: string, ids: seq<string>, hosts: seq<string>, timeout: int, now: int)
    requires |ids| == |hosts| && NewIds(db, ids)
    ensures var d := CreateTask(db, task, ids, hosts, timeout, now);
            && Added(db, d, task, ids, hosts, timeout)
            && d.tasks.Keys == db.tasks.Keys + {task}
            && (forall t :: t in db.tasks && t != task ==> d.tasks[t] == db.tasks[t])
            && var t := d.tasks[task];
               && t.status == TaskPending && t.total == |hosts| && t.completed == t.failed == 0
               && t.createdAt == now && t.startedAt == None && t.finishedAt == None
  {
    var record := Task(TaskPending, |hosts|, 0, 0, now, None, None);
    var m := db.(tasks := db.tasks[task := record]);
    AddedColumns(m, task, ids, hosts, timeout);
    AddedToo(m, db, CreateTask(db, task, ids, hosts, timeout, now), CreateTask(db, task, ids, hosts, timeout, now),
             task, ids, hosts, timeout);
  }

  // Whether records have been added does not depend on the task tables.
  lemma AddedToo(a: Db, b: Db, d: Db, e: Db, task: string, ids: seq<string>, hosts: seq<string>, timeout: int)
    requires |ids| == |hosts| && Added(a, d, task, ids, hosts, timeout)
    requires a.commands == b.commands && a.rows == b.rows && a.nextRow == b.nextRow
    requires d.commands == e.commands && d.rows == e.rows && d.nextRow == e.nextRow
    ensures Added(b, e, task, ids, hosts, timeout)
  {
    forall i | 0 <= i < |ids| ensures NewRecords(e, b.nextRow + i, task, ids[i], hosts[i], timeout) {
      assert NewRecords(d, a.nextRow + i, task, ids[i], hosts[i], timeout);
    }
  }

  // Adding hosts to a task: refused while it runs, without the task, or without a
  // command of it; otherwise commands and rows with the template's time limit.
  lemma AddHostsColumns(db: Db, task: string, template: string, ids: seq<string>, hosts: seq<string>)
    requires |ids| == |hosts| && NewIds(db, ids)
    ensures var d := AddTaskHosts(db, task, template, ids, hosts);
            if task in db.tasks && db.tasks[task].status != TaskRunning
               && template in db.commands && db.commands[template].taskId == Some(task)
            then
              && Added(db, d, task, ids, hosts, db.commands[template].timeout)
              && task in d.tasks
              && d.tasks == db.tasks[task := d.tasks[task]]
              && d.tasks[task] == db.tasks[task].(total := db.tasks[task].total + |hosts|)
            else d == db
  {
    if CanAddHosts(db, task, template) {
      var timeout := db.commands[template].timeout;
      AddedColumns(db, task, ids, hosts, timeout);
      AddedToo(db, db, AddCommands(db, task, ids, hosts, timeout), AddTaskHosts(db, task, template, ids, hosts),
               task, ids, hosts, timeout);
    }
  }

  // ----- Removing -----

  // Exactly these records remain, unchanged.
  ghost predicate Remain(db: Db, d: Db, commands: set<string>, rows: set<nat>) {
    && d.commands.Keys == commands && d.rows.Keys == rows && d.nextRow == db.nextRow
    && (forall c :: c in d.commands ==> c in db.commands && d.commands[c] == db.commands[c])
    && (forall r :: r in d.rows ==> r in db.rows && d.rows[r] == db.rows[r])
  }

  // Removing a host from a task takes the task's commands and rows on it.
  lemma RemoveHostColumns(db: Db, task: string, host: string)
    ensures var d := RemoveTaskHost(db, task, host);
            if task in db.tasks && db.tasks[task].status != TaskRunning then
              && Remain(db, d,
                   (set c | c in db.commands && (db.commands[c].taskId != Some(task) || db.commands[c].host != host)),
                   (set r | r in db.rows
                            && (db.rows[r].host != host || db.rows[r].commandId !in db.commands
                                || db.commands[db.rows[r].commandId].taskId != Some(task))))
              && var n := db.tasks[task].total;
                 d.tasks == db.tasks[task := db.tasks[task].(total := if n >= 1 then n - 1 else 0)]
            else d == db
  {}

  // Deleting a task takes it and all of its commands and rows.
  lemma DeleteColumns(db: Db, task: string)
    ensures var d := DeleteTask(db, task);
            if task in db.tasks && db.tasks[task].status != TaskRunning then
              && Remain(db, d,
                   (set c | c in db.commands && db.commands[c].taskId != Some(task)),
                   (set r | r in db.rows && (db.rows[r].commandId !in db.commands
                                             || db.commands[db.rows[r].commandId].taskId != Some(task))))
              && d.tasks == db.tasks - {task}
            else d == db
  {}

  // The cleanup takes tasks completed or canceled and created before the cutoff,
  // the commands whose task is gone, and the rows whose command is gone.
  lemma CleanupColumns(db: Db, cutoff: int)
    ensures var d := Cleanup(db, cutoff);
            && (forall t :: t in d.tasks <==>
                  t in db.tasks && !(db.tasks[t].createdAt < cutoff
                                     && db.tasks[t].status in {TaskCompleted, TaskCanceled}))
            && (forall t :: t in d.tasks ==> d.tasks[t] == db.tasks[t])
            && Remain(db, d,
                 (set c | c in db.commands
                          && (db.commands[c].taskId.None? || db.commands[c].taskId.value in d.tasks)),
                 (set r | r in db.rows && db.rows[r].commandId in d.commands))
  {}

  // ----- The life of a task -----

  // A pending task runs from now on, and its commands and rows are pending again;
  // their times stay.
  lemma StartColumns(db: Db, task: string, now: int)
    ensures var d := StartTask(db, task, now);
            if task in db.tasks && db.tasks[task].status == TaskPending then
              && SameRecords(db, d)
              && d.tasks == db.tasks[task := db.tasks[task].(status := TaskRunning, startedAt := Some(now))]
              && (forall c :: c in db.commands ==>
                    var a := db.commands[c];
                    if a.taskId == Some(task)
                    then CommandIs(a, d.commands[c], CommandPending, a.startedAt, a.finishedAt)
                    else d.commands[c] == a)
              && (forall r :: r in db.rows ==>
                    var a := db.rows[r];
                    if a.commandId in db.commands && db.commands[a.commandId].taskId == Some(task)
                    then RowIs(a, d.rows[r], HostPending, a.startedAt, a.finishedAt)
                    else d.rows[r] == a)
            else d == db
  {}

  // Stopping writes one record, and only if the task is running.
  lemma StopColumns(db: Db, task: string, now: int)
    ensures var d := StopTask(db, task, now);
            if task in db.tasks && db.tasks[task].status == TaskRunning then
              d == db.(tasks := db.tasks[task := db.tasks[task].(status := TaskCanceled, finishedAt := Some(now))])
            else d == db
  {}

  // Canceling ends the task's pending and running commands and rows.
  lemma CancelColumns(db: Db, task: string, now: int)
    ensures var d := CancelTask(db, task, now);
            if task in db.tasks && db.tasks[task].status in {TaskPending, TaskRunning} then
              && SameRecords(db, d)
              && d.tasks == db.tasks[task := db.tasks[task].(status := TaskCanceled, finishedAt := Some(now))]
              && (forall c :: c in db.commands ==>
                    var a := db.commands[c];
                    if a.taskId == Some(task) && a.status in {CommandPending, CommandRunning}
                    then CommandIs(a, d.commands[c], CommandCanceled, a.startedAt, Some(now))
                    else d.commands[c] == a)
              && (forall r :: r in db.rows ==>
                    var a := db.rows[r];
                    if a.commandId in db.commands && db.commands[a.commandId].taskId == Some(task)
                       && a.status in {HostPending, HostRunning}
                    then RowIs(a, d.rows[r], HostCanceled, a.startedAt, Some(now))
                    else d.rows[r] == a)
            else d == db
  {}

  // ----- The life of a command -----

  // A command that could not be sent: both statuses, and no time.
  lemma UndeliveredColumns(db: Db, command: string)
    ensures var d := DispatchFailed(db, command);
            && SameRecords(db, d) && d.tasks == db.tasks
            && (forall c :: c in db.commands ==>
                  var a := db.commands[c];
                  if c == command then CommandIs(a, d.commands[c], CommandFailed, a.startedAt, a.finishedAt)
                  else d.commands[c] == a)
            && (forall r :: r in db.rows ==>
                  var a := db.rows[r];
                  if a.commandId == command then RowIs(a, d.rows[r], HostFailed, a.startedAt, a.finishedAt)
                  else d.rows[r] == a)
  {}

  // A status update: the command's status, the row status that stands for it, and
  // the start time when the command starts to run.
  lemma StatusColumns(db: Db, command: string, status: CommandStatus, now: int)
    ensures var d := SetCommandStatus(db, command, status, now);
            && SameRecords(db, d) && d.tasks == db.tasks
            && (forall c :: c in db.commands ==>
                  var a := db.commands[c];
                  if c == command then
                    CommandIs(a, d.commands[c], status,
                              if status == CommandRunning then Some(now) else a.startedAt, a.finishedAt)
                  else d.commands[c] == a)
            && (forall r :: r in db.rows ==>
                  var a := db.rows[r];
                  if a.commandId == command then
                    RowIs(a, d.rows[r],
                          (match status
                           case CommandPending => HostPending
                           case CommandRunning => HostRunning
                           case CommandCompleted => HostCompleted
                           case CommandFailed => HostExecFailed
                           case CommandTimeout => HostTimeout
                           case CommandCanceled => HostCanceled),
                          if status == CommandRunning then Some(now) else a.startedAt, a.finishedAt)
                  else d.rows[r] == a)
  {}

  // Whether a report finds its command, and that command's task.
  ghost predicate Known(db: Db, command: string) {
    && command in db.commands
    && (db.commands[command].taskId.Some? ==> db.commands[command].taskId.value in db.tasks)
  }

  // A result: both times as reported, statuses by exit code when finished, running
  // when only started, as before otherwise; then progress. Nothing of it if the
  // command or its task is unknown.
  lemma ResultColumns(db: Db, res: Result, order: seq<HostStatus>, now: int)
    requires IsGroupOrder(order)
    ensures var d := HandleResult(db, res, order, now);
            if Known(db, res.command) then
              && SameRecords(db, d) && OnlyProgress(db, d, OwnerOf(db, res.command), now, false)
              && (forall c :: c in db.commands ==>
                    var a := db.commands[c];
                    if c == res.command then
                      CommandIs(a, d.commands[c],
                                if res.finishedAt.Some? && res.exitCode == 0 then CommandCompleted
                                else if res.finishedAt.Some? then CommandFailed
                                else if res.startedAt.Some? then CommandRunning else a.status,
                                res.startedAt, res.finishedAt)
                    else d.commands[c] == a)
              && (forall r :: r in db.rows ==>
                    var a := db.rows[r];
                    if a.commandId == res.command && a.host == res.host then
                      RowIs(a, d.rows[r],
                            if res.finishedAt.Some? && res.exitCode == 0 then HostCompleted
                            else if res.finishedAt.Some? then HostExecFailed
                            else if res.startedAt.Some? then HostRunning else a.status,
                            res.startedAt, res.finishedAt)
                    else d.rows[r] == a)
            else d == db
  {
    if CanReport(db, res.command) {
      var pc := Patch(ResultCommandStatus(res), Some(res.startedAt), Some(res.finishedAt));
      var pr := Patch(ResultHostStatus(res), Some(res.startedAt), Some(res.finishedAt));
      var m := SetBoth(db, {res.command}, pc, RowsOfCommandOn(db, res.command, res.host), pr);
      CommandProgressColumns(db, m, res.command, order, now);
    }
  }

  // A reported execution error: both fail now, and progress follows.
  lemma ErrorColumns(db: Db, command: string, host: string, order: seq<HostStatus>, now: int)
    requires IsGroupOrder(order)
    ensures var d := HandleExecutionError(db, command, host, order, now);
            if Known(db, command) then
              && SameRecords(db, d) && OnlyProgress(db, d, OwnerOf(db, command), now, false)
              && (forall c :: c in db.commands ==>
                    var a := db.commands[c];
                    if c == command then CommandIs(a, d.commands[c], CommandFailed, a.startedAt, Some(now))
                    else d.commands[c] == a)
              && (forall r :: r in db.rows ==>
                    var a := db.rows[r];
                    if a.commandId == command && a.host == host
                    then RowIs(a, d.rows[r], HostExecFailed, a.startedAt, Some(now))
                    else d.rows[r] == a)
            else d == db
  {
    if CanReport(db, command) {
      var m := SetBoth(db, {command}, ToAt(CommandFailed, now),
                       RowsOfCommandOn(db, command, host), ToAt(HostExecFailed, now));
      CommandProgressColumns(db, m, command, order, now);
    }
  }

  // A retry of a failed or timed-out command: pending again, without times.
  lemma RetryColumns(db: Db, command: string, order: seq<HostStatus>, now: int)
    requires IsGroupOrder(order)
    ensures var d := RetryCommand(db, command, order, now);
            if Known(db, command) && db.commands[command].status in {CommandFailed, CommandTimeout} then
              && SameRecords(db, d) && OnlyProgress(db, d, OwnerOf(db, command), now, false)
              && (forall c :: c in db.commands ==>
                    if c == command then CommandIs(db.commands[c], d.commands[c], CommandPending, None, None)
                    else d.commands[c] == db.commands[c])
              && (forall r :: r in db.rows ==>
                    if db.rows[r].commandId == command then RowIs(db.rows[r], d.rows[r], HostPending, None, None)
                    else d.rows[r] == db.rows[r])
            else d == db
  {
    if CanRetry(db, command) {
      var m := SetBoth(db, {command}, Patch(Some(CommandPending), Some(None), Some(None)),
                       RowsOfCommand(db, command), Patch(Some(HostPending), Some(None), Some(None)));
      CommandProgressColumns(db, m, command, order, now);
    }
  }

  // A timed-out command and all of its rows end now, and progress follows.
  lemma TimeOutColumns(db: Db, command: string, order: seq<HostStatus>, now: int)
    requires IsGroupOrder(order)
    ensures var d := TimeOutOne(db, command, order, now);
            if Known(db, command) then
              && SameRecords(db, d) && OnlyProgress(db, d, OwnerOf(db, command), now, false)
              && (forall c :: c in db.commands ==>
                    var a := db.commands[c];
                    if c == command then CommandIs(a, d.commands[c], CommandTimeout, a.startedAt, Some(now))
                    else d.commands[c] == a)
              && (forall r :: r in db.rows ==>
                    var a := db.rows[r];
                    if a.commandId == command then RowIs(a, d.rows[r], HostTimeout, a.startedAt, Some(now))
                    else d.rows[r] == a)
            else d == db
  {
    if CanReport(db, command) {
      var m := SetBoth(db, {command}, ToAt(CommandTimeout, now), RowsOfCommand(db, command), ToAt(HostTimeout, now));
      CommandProgressColumns(db, m, command, order, now);
    }
  }

  // ----- A host goes away -----

  // A lost connection fails what runs on the host, without a time.
  lemma ConnectionColumns(db: Db, host: string)
    ensures var d := ConnectionLost(db, host);
            && SameRecords(db, d) && d.tasks == db.tasks
            && (forall c :: c in db.commands ==>
                  var a := db.commands[c];
                  if a.host == host && a.status == CommandRunning
                  then CommandIs(a, d.commands[c], CommandFailed, a.startedAt, a.finishedAt)
                  else d.commands[c] == a)
            && (forall r :: r in db.rows ==>
                  var a := db.rows[r];
                  if a.host == host && a.status == HostRunning
                  then RowIs(a, d.rows[r], HostFailed, a.startedAt, a.finishedAt)
                  else d.rows[r] == a)
  {}

  lemma AllProgressColumns(m: Db, tasks: set<string>, orders: string -> seq<HostStatus>, now: int)
    requires forall t :: IsGroupOrder(orders(t))
    ensures var d := WithAllProgress(m, tasks, orders, now);
            d == m.(tasks := d.tasks) && OnlyProgress(m, d, tasks, now, false)
  {
    var d := WithAllProgress(m, tasks, orders, now);
    forall t | t in m.tasks && t in tasks ensures ShowsProgress(d, t, m.tasks[t], d.tasks[t], now, false) {
      assert IsGroupOrder(orders(t));
      ProgressedShows(m, t, orders(t), now, false);
      SameHosts(m, d, t, m.tasks[t], d.tasks[t], now, false);
    }
  }

  // An agent's disconnection fails what is pending or runs on the host, and
  // rewrites the progress of every task with a failed command there.
  lemma DisconnectionColumns(db: Db, host: string, orders: string -> seq<HostStatus>, now: int)
    requires forall t :: IsGroupOrder(orders(t))
    ensures var d := AgentDisconnected(db, host, orders, now);
            && SameRecords(db, d)
            && OnlyProgress(db, d, (set c | c in d.commands && d.commands[c].host == host
                                            && d.commands[c].status == CommandFailed && d.commands[c].taskId.Some?
                                         :: d.commands[c].taskId.value), now, false)
            && (forall c :: c in db.commands ==>
                  var a := db.commands[c];
                  if a.host == host && a.status in {CommandPending, CommandRunning}
                  then CommandIs(a, d.commands[c], CommandFailed, a.startedAt, Some(now))
                  else d.commands[c] == a)
            && (forall r :: r in db.rows ==>
                  var a := db.rows[r];
                  if a.host == host && a.status in {HostPending, HostRunning}
                  then RowIs(a, d.rows[r], HostFailed, a.startedAt, Some(now))
                  else d.rows[r] == a)
  {
    var m := SetBoth(db, OpenCommandsOn(db, host), ToAt(CommandFailed, now),
                     OpenRowsOn(db, host), ToAt(HostFailed, now));
    AllProgressColumns(m, TasksFailedOn(m, host), orders, now);
    FailedOwners(m, host);
  }

  lemma FailedOwners(m: Db, host: string)
    ensures TasksFailedOn(m, host)
            == set c | c in m.commands && m.commands[c].host == host && m.commands[c].status == CommandFailed
                       && m.commands[c].taskId.Some? :: m.commands[c].taskId.value
  {}

  // The commands a sweep handles: running, started, with a positive limit that
  // they have passed, if the limit is below 9223372037 seconds.
  lemma LateMeans(db: Db, now: int, c: string)
    requires c in db.commands && db.commands[c].timeout < 9_223_372_037
    ensures c in LateCommands(db, now) <==>
            var a := db.commands[c];
            && a.status == CommandRunning && a.timeout > 0 && a.startedAt.Some?
            && now - a.startedAt.value > a.timeout * 1_000_000_000
  {}

}
