// The task, command and command-host tables and the transactions on them.
module TaskStoreModel {
  import opened Common
  import opened Statuses
  import opened Progress

  datatype Task = Task(
    status: TaskStatus,
    total: int,
    completed: nat,
    failed: nat,
    createdAt: int,
    startedAt: Option<int>,
    finishedAt: Option<int>)

  datatype Command = Command(
    taskId: Option<string>,
    host: string,
    timeout: int,
    status: CommandStatus,
    startedAt: Option<int>,
    finishedAt: Option<int>)

  // A command-host row has its own key; nothing in the schema makes its
  // command unique.
  datatype Row = Row(
    commandId: string,
    host: string,
    status: HostStatus,
    startedAt: Option<int>,
    finishedAt: Option<int>)

  datatype Db = Db(
    tasks: map<string, Task>,
    commands: map<string, Command>,
    rows: map<nat, Row>,
    nextRow: nat)

  const EMPTY_DB := Db(map[], map[], map[], 0)

  // ----- Selections (the WHERE clauses) -----

  predicate BelongsTo(c: Command, task: string) {
    c.taskId == Some(task)
  }

  function CommandsOf(db: Db, task: string): set<string> {
    set c | c in db.commands && BelongsTo(db.commands[c], task)
  }

  predicate RowOfTask(db: Db, r: Row, task: string) {
    r.commandId in db.commands && BelongsTo(db.commands[r.commandId], task)
  }

  function RowsOf(db: Db, task: string): set<nat> {
    set r | r in db.rows && RowOfTask(db, db.rows[r], task)
  }

  function RowsWithStatus(db: Db, task: string, h: HostStatus): set<nat> {
    set r | r in db.rows && RowOfTask(db, db.rows[r], task) && db.rows[r].status == h
  }

  function RowsOfCommand(db: Db, command: string): set<nat> {
    set r | r in db.rows && db.rows[r].commandId == command
  }

  // ----- Updates (the SET clauses) -----

  // None leaves a column alone; Some(None) sets it to NULL.
  datatype Patch<S> = Patch(status: Option<S>, startedAt: Option<Option<int>>, finishedAt: Option<Option<int>>)

  function Or<T>(o: Option<T>, otherwise: T): T {
    match o case Some(v) => v case None => otherwise
  }

  function PatchCommand(c: Command, p: Patch<CommandStatus>): Command {
    c.(status := Or(p.status, c.status),
       startedAt := Or(p.startedAt, c.startedAt),
       finishedAt := Or(p.finishedAt, c.finishedAt))
  }

  function PatchRow(r: Row, p: Patch<HostStatus>): Row {
    r.(status := Or(p.status, r.status),
       startedAt := Or(p.startedAt, r.startedAt),
       finishedAt := Or(p.finishedAt, r.finishedAt))
  }

  function UpdateCommands(commands: map<string, Command>, selected: set<string>, p: Patch<CommandStatus>)
    : map<string, Command>
  {
    map c | c in commands :: if c in selected then PatchCommand(commands[c], p) else commands[c]
  }

  function UpdateRows(rows: map<nat, Row>, selected: set<nat>, p: Patch<HostStatus>): map<nat, Row> {
    map r | r in rows :: if r in selected then PatchRow(rows[r], p) else rows[r]
  }

  // Just a new status, and a new status with the time it was reached.
  function To<S>(s: S): Patch<S> {
    Patch(Some(s), None, None)
  }

  function ToAt<S>(s: S, now: int): Patch<S> {
    Patch(Some(s), None, Some(Some(now)))
  }

  function SetBoth(db: Db, cs: set<string>, pc: Patch<CommandStatus>, rs: set<nat>, pr: Patch<HostStatus>): Db {
    db.(commands := UpdateCommands(db.commands, cs, pc), rows := UpdateRows(db.rows, rs, pr))
  }

  // ----- Progress of one task -----

  function TallyOf(db: Db, task: string): Tally {
    MakeTally(|RowsWithStatus(db, task, HostPending)|, |RowsWithStatus(db, task, HostRunning)|,
              |RowsWithStatus(db, task, HostFailed)|, |RowsWithStatus(db, task, HostExecFailed)|,
              |RowsWithStatus(db, task, HostTimeout)|, |RowsWithStatus(db, task, HostCanceled)|,
              |RowsWithStatus(db, task, HostCompleted)|)
  }

  // The tally counts the task's rows by status.
  lemma TallyCounts(db: Db, task: string, h: HostStatus)
    ensures TallyOf(db, task)[h] == |RowsWithStatus(db, task, h)|
  {
    MakeTallyAt(|RowsWithStatus(db, task, HostPending)|, |RowsWithStatus(db, task, HostRunning)|,
                |RowsWithStatus(db, task, HostFailed)|, |RowsWithStatus(db, task, HostExecFailed)|,
                |RowsWithStatus(db, task, HostTimeout)|, |RowsWithStatus(db, task, HostCanceled)|,
                |RowsWithStatus(db, task, HostCompleted)|);
    match h
    case HostPending =>
    case HostRunning =>
    case HostFailed =>
    case HostExecFailed =>
    case HostTimeout =>
    case HostCanceled =>
    case HostCompleted =>
  }

  // keepFinish: an already recorded finishing time is kept.
  function Progressed(t: Task, c: Counts, now: int, keepFinish: bool): Task {
    var decided := StatusFromGroups(c, t.total);
    var finished := c.completed + c.failed + c.canceled == t.total;
    t.(completed := c.completed,
       failed := c.failed,
       status := Or(decided, t.status),
       finishedAt := if finished && !(keepFinish && t.finishedAt.Some?) then Some(now) else t.finishedAt,
       startedAt := if !finished && decided.Some? && t.startedAt.None? then Some(now) else t.startedAt)
  }

  ghost function ProgressedTask(db: Db, task: string, order: seq<HostStatus>, now: int, keepFinish: bool): Task
    requires task in db.tasks
  {
    Progressed(db.tasks[task], FoldGroups(order, TallyOf(db, task)), now, keepFinish)
  }

  ghost function WithProgress(db: Db, task: string, order: seq<HostStatus>, now: int, keepFinish: bool): Db
    requires task in db.tasks
  {
    db.(tasks := db.tasks[task := ProgressedTask(db, task, order, now, keepFinish)])
  }

  // Each task's groups may come in an order of their own.
  ghost function WithAllProgress(db: Db, tasks: set<string>, orders: string -> seq<HostStatus>, now: int): Db {
    db.(tasks := map t | t in db.tasks ::
          if t in tasks then ProgressedTask(db, t, orders(t), now, false) else db.tasks[t])
  }

  // Progress of the task a command belongs to, if it belongs to one.
  ghost function WithCommandProgress(db: Db, command: string, order: seq<HostStatus>, now: int): Db
    requires command in db.commands
    requires TaskExists(db, command)
  {
    match db.commands[command].taskId
    case None => db
    case Some(t) => WithProgress(db, t, order, now, false)
  }

  predicate TaskExists(db: Db, command: string)
    requires command in db.commands
  {
    match db.commands[command].taskId case None => true case Some(t) => t in db.tasks
  }

  // ----- Creating and removing -----

  function AddCommand(db: Db, task: string, command: string, host: string, timeout: int): Db {
    db.(commands := db.commands[command := Command(Some(task), host, timeout, CommandPending, None, None)],
        rows := db.rows[db.nextRow := Row(command, host, HostPending, None, None)],
        nextRow := db.nextRow + 1)
  }

  ghost function AddCommands(db: Db, task: string, commands: seq<string>, hosts: seq<string>, timeout: int): (d: Db)
    requires |commands| == |hosts|
    ensures d.tasks == db.tasks
  {
    if hosts == [] then db
    else
      var n := |hosts| - 1;
      AddCommand(AddCommands(db, task, commands[..n], hosts[..n], timeout), task, commands[n], hosts[n], timeout)
  }

  ghost function CreateTask(db: Db, task: string, commands: seq<string>, hosts: seq<string>, timeout: int, now: int): Db
    requires |commands| == |hosts|
  {
    AddCommands(db.(tasks := db.tasks[task := Task(TaskPending, |hosts|, 0, 0, now, None, None)]),
                task, commands, hosts, timeout)
  }

  ghost predicate CanAddHosts(db: Db, task: string, template: string) {
    task in db.tasks && !db.tasks[task].status.TaskRunning? && template in CommandsOf(db, task)
  }

  // template is the existing command whose settings are copied.
  ghost function AddTaskHosts(db: Db, task: string, template: string, commands: seq<string>, hosts: seq<string>): Db
    requires |commands| == |hosts|
  {
    if !CanAddHosts(db, task, template) then db
    else
      AddTotal(AddCommands(db, task, commands, hosts, db.commands[template].timeout), task, |hosts|)
  }

  function AddTotal(db: Db, task: string, n: nat): Db
    requires task in db.tasks
  {
    db.(tasks := db.tasks[task := db.tasks[task].(total := db.tasks[task].total + n)])
  }

  ghost predicate CanRemove(db: Db, task: string) {
    task in db.tasks && !db.tasks[task].status.TaskRunning?
  }

  ghost function RemoveTaskHost(db: Db, task: string, host: string): Db {
    if !CanRemove(db, task) then db
    else
      var t := db.tasks[task];
      db.(rows := map r | r in db.rows && !(db.rows[r].host == host && RowOfTask(db, db.rows[r], task)) :: db.rows[r],
          commands := map c | c in db.commands
                              && !(db.commands[c].host == host && BelongsTo(db.commands[c], task)) :: db.commands[c],
          tasks := db.tasks[task := t.(total := if t.total - 1 > 0 then t.total - 1 else 0)])
  }

  ghost function DeleteTask(db: Db, task: string): Db {
    if !CanRemove(db, task) then db
    else
      db.(rows := map r | r in db.rows && !RowOfTask(db, db.rows[r], task) :: db.rows[r],
          commands := map c | c in db.commands && !BelongsTo(db.commands[c], task) :: db.commands[c],
          tasks := db.tasks - {task})
  }

  predicate Expired(t: Task, cutoff: int) {
    t.createdAt < cutoff && (t.status.TaskCompleted? || t.status.TaskCanceled?)
  }

  // Three stages: old finished tasks, then commands without a task, then rows
  // without a command.
  ghost function Cleanup(db: Db, cutoff: int): Db {
    var tasks := map t | t in db.tasks && !Expired(db.tasks[t], cutoff) :: db.tasks[t];
    var commands := map c | c in db.commands
                            && (db.commands[c].taskId.Some? ==> db.commands[c].taskId.value in tasks) :: db.commands[c];
    db.(tasks := tasks,
        commands := commands,
        rows := map r | r in db.rows && db.rows[r].commandId in commands :: db.rows[r])
  }

  // ----- Lifecycle of a task -----

  ghost predicate CanStart(db: Db, task: string) {
    task in db.tasks && db.tasks[task].status.TaskPending?
  }

  ghost function StartTask(db: Db, task: string, now: int): Db {
    if !CanStart(db, task) then db
    else
      var d := db.(tasks := db.tasks[task := db.tasks[task].(status := TaskRunning, startedAt := Some(now))]);
      SetBoth(d, CommandsOf(db, task), To(CommandPending), RowsOf(db, task), To(HostPending))
  }

  ghost predicate CanStop(db: Db, task: string) {
    task in db.tasks && db.tasks[task].status.TaskRunning?
  }

  ghost function StopTask(db: Db, task: string, now: int): Db {
    if !CanStop(db, task) then db
    else db.(tasks := db.tasks[task := db.tasks[task].(status := TaskCanceled, finishedAt := Some(now))])
  }

  ghost predicate CanCancel(db: Db, task: string) {
    task in db.tasks && !TaskFinished(db.tasks[task].status)
  }

  function OpenCommands(db: Db, task: string): set<string> {
    set c | c in db.commands && BelongsTo(db.commands[c], task) && CommandUnfinished(db.commands[c].status)
  }

  function OpenRows(db: Db, task: string): set<nat> {
    set r | r in db.rows && RowOfTask(db, db.rows[r], task) && Unfinished(db.rows[r].status)
  }

  ghost function CancelTask(db: Db, task: string, now: int): Db {
    if !CanCancel(db, task) then db
    else
      var d := db.(tasks := db.tasks[task := db.tasks[task].(status := TaskCanceled, finishedAt := Some(now))]);
      SetBoth(d, OpenCommands(db, task), ToAt(CommandCanceled, now), OpenRows(db, task), ToAt(HostCanceled, now))
  }

  // Reading a task's status also writes its progress.
  ghost function ReadStatus(db: Db, task: string, order: seq<HostStatus>, now: int): Db {
    if task in db.tasks then WithProgress(db, task, order, now, true) else db
  }

  // ----- Lifecycle of a command -----

  function DispatchFailed(db: Db, command: string): Db {
    SetBoth(db, {command}, To(CommandFailed), RowsOfCommand(db, command), To(HostFailed))
  }

  function StampIfRunning(status: CommandStatus, now: int): Option<Option<int>> {
    if status.CommandRunning? then Some(Some(now)) else None
  }

  function SetCommandStatus(db: Db, command: string, status: CommandStatus, now: int): Db {
    SetBoth(db, {command}, Patch(Some(status), StampIfRunning(status, now), None),
            RowsOfCommand(db, command), Patch(Some(HostStatusFor(status)), StampIfRunning(status, now), None))
  }

  // A result as an agent reports it.
  datatype Result = Result(
    command: string, host: string, startedAt: Option<int>, finishedAt: Option<int>, exitCode: int)

  function ResultHostStatus(r: Result): Option<HostStatus> {
    if r.finishedAt.Some? then (if r.exitCode == 0 then Some(HostCompleted) else Some(HostExecFailed))
    else if r.startedAt.Some? then Some(HostRunning)
    else None
  }

  function ResultCommandStatus(r: Result): Option<CommandStatus> {
    if r.finishedAt.Some? then (if r.exitCode == 0 then Some(CommandCompleted) else Some(CommandFailed))
    else if r.startedAt.Some? then Some(CommandRunning)
    else None
  }

  function RowsOfCommandOn(db: Db, command: string, host: string): set<nat> {
    set r | r in db.rows && db.rows[r].commandId == command && db.rows[r].host == host
  }

  // Both updates must find a command of an existing task, or the transaction
  // is rolled back.
  ghost predicate CanReport(db: Db, command: string) {
    command in db.commands && TaskExists(db, command)
  }

  ghost function HandleResult(db: Db, res: Result, order: seq<HostStatus>, now: int): Db {
    if !CanReport(db, res.command) then db
    else
      WithCommandProgress(
        SetBoth(db, {res.command}, Patch(ResultCommandStatus(res), Some(res.startedAt), Some(res.finishedAt)),
                RowsOfCommandOn(db, res.command, res.host),
                Patch(ResultHostStatus(res), Some(res.startedAt), Some(res.finishedAt))),
        res.command, order, now)
  }

  ghost function HandleExecutionError(db: Db, command: string, host: string, order: seq<HostStatus>, now: int): Db {
    if !CanReport(db, command) then db
    else
      WithCommandProgress(
        SetBoth(db, {command}, ToAt(CommandFailed, now), RowsOfCommandOn(db, command, host), ToAt(HostExecFailed, now)),
        command, order, now)
  }

  ghost predicate CanRetry(db: Db, command: string) {
    && CanReport(db, command)
    && (db.commands[command].status.CommandFailed? || db.commands[command].status.CommandTimeout?)
  }

  ghost function RetryCommand(db: Db, command: string, order: seq<HostStatus>, now: int): Db {
    if !CanRetry(db, command) then db
    else
      WithCommandProgress(
        SetBoth(db, {command}, Patch(Some(CommandPending), Some(None), Some(None)),
                RowsOfCommand(db, command), Patch(Some(HostPending), Some(None), Some(None))),
        command, order, now)
  }

  // ----- A host goes away -----

  function RunningCommandsOn(db: Db, host: string): set<string> {
    set c | c in db.commands && db.commands[c].host == host && db.commands[c].status.CommandRunning?
  }

  function RunningRowsOn(db: Db, host: string): set<nat> {
    set r | r in db.rows && db.rows[r].host == host && db.rows[r].status.HostRunning?
  }

  function ConnectionLost(db: Db, host: string): Db {
    SetBoth(db, RunningCommandsOn(db, host), To(CommandFailed), RunningRowsOn(db, host), To(HostFailed))
  }

  function OpenCommandsOn(db: Db, host: string): set<string> {
    set c | c in db.commands && db.commands[c].host == host && CommandUnfinished(db.commands[c].status)
  }

  function OpenRowsOn(db: Db, host: string): set<nat> {
    set r | r in db.rows && db.rows[r].host == host && Unfinished(db.rows[r].status)
  }

  // Tasks with a failed command on the host.
  function TasksFailedOn(db: Db, host: string): set<string> {
    set c | c in db.commands && db.commands[c].host == host && db.commands[c].status.CommandFailed?
            && db.commands[c].taskId.Some? :: db.commands[c].taskId.value
  }

  ghost function AgentDisconnected(db: Db, host: string, orders: string -> seq<HostStatus>, now: int): Db {
    var d := SetBoth(db, OpenCommandsOn(db, host), ToAt(CommandFailed, now),
                     OpenRowsOn(db, host), ToAt(HostFailed, now));
    WithAllProgress(d, TasksFailedOn(d, host), orders, now)
  }

  // ----- Timeouts -----

  const TWO_63: int := 0x8000_0000_0000_0000
  const TWO_64: int := 0x1_0000_0000_0000_0000
  const NANOS: int := 1_000_000_000

  // Signed 64-bit multiplication result.
  function Wrap64(x: int): int {
    (x + TWO_63) % TWO_64 - TWO_63
  }

  // Differences of times saturate.
  function Saturate64(x: int): int {
    if x < -TWO_63 then -TWO_63 else if x >= TWO_63 then TWO_63 - 1 else x
  }

  predicate IsTimedOut(c: Command, now: int) {
    c.timeout > 0 && c.startedAt.Some? && Saturate64(now - c.startedAt.value) > Wrap64(c.timeout * NANOS)
  }

  function RunningCommands(db: Db): set<string> {
    set c | c in db.commands && db.commands[c].status.CommandRunning?
  }

  function LateCommands(db: Db, now: int): set<string> {
    set c | c in db.commands && db.commands[c].status.CommandRunning? && IsTimedOut(db.commands[c], now)
  }

  ghost function TimeOutOne(db: Db, command: string, order: seq<HostStatus>, now: int): Db {
    if !CanReport(db, command) then db
    else
      WithCommandProgress(
        SetBoth(db, {command}, ToAt(CommandTimeout, now), RowsOfCommand(db, command), ToAt(HostTimeout, now)),
        command, order, now)
  }

  // The late commands one after another, in the order the query returned them;
  // each progress query finds its groups in an order of its own.
  ghost function TimeOutAll(db: Db, late: seq<string>, orders: string -> seq<HostStatus>, now: int): Db {
    if late == [] then db
    else
      var last := late[|late| - 1];
      TimeOutOne(TimeOutAll(db, late[..|late| - 1], orders, now), last, orders(last), now)
  }

}
