// Creating and removing records: the links between the tables and the host
// totals.
module LifecycleStructure {
  import opened Common
  import opened Statuses
  import opened TaskStoreModel
  import opened LifecycleInvariants

  // New command IDs: distinct and not in use.
  ghost predicate Fresh(db: Db, commands: seq<string>) {
    && (forall i :: 0 <= i < |commands| ==> commands[i] !in db.commands)
    && (forall i, j :: 0 <= i < j < |commands| ==> commands[i] != commands[j])
  }

  lemma AddCommandElsewhere(db: Db, task: string, command: string, host: string, timeout: int, t: string)
    requires command !in db.commands && t != task
    ensures CommandsOf(AddCommand(db, task, command, host, timeout), t) == CommandsOf(db, t)
  {
    var d := AddCommand(db, task, command, host, timeout);
    forall c ensures c in CommandsOf(d, t) <==> c in CommandsOf(db, t) {}
  }

  lemma AddCommandHere(db: Db, task: string, command: string, host: string, timeout: int)
    requires command !in db.commands
    ensures |CommandsOf(AddCommand(db, task, command, host, timeout), task)| == |CommandsOf(db, task)| + 1
  {
    var d := AddCommand(db, task, command, host, timeout);
    forall c ensures c in CommandsOf(d, task) <==> c in CommandsOf(db, task) + {command} {}
    assert CommandsOf(d, task) == CommandsOf(db, task) + {command};
  }

  lemma AddCommandLinks(db: Db, task: string, command: string, host: string, timeout: int)
    requires Linked(db) && task in db.tasks && command !in db.commands
    ensures Linked(AddCommand(db, task, command, host, timeout))
  {
    var d := AddCommand(db, task, command, host, timeout);
    assert d.rows[db.nextRow].commandId == command;
    forall c | c in d.commands ensures exists r :: r in d.rows && d.rows[r].commandId == c {
      if c != command {
        var r :| r in db.rows && db.rows[r].commandId == c;
        assert d.rows[r].commandId == c;
      }
    }
  }

  lemma AddCommandKeeps(db: Db, task: string, command: string, host: string, timeout: int)
    requires Intact(db) && task in db.tasks && command !in db.commands
    ensures Intact(AddCommand(db, task, command, host, timeout))
  {
    AddCommandLinks(db, task, command, host, timeout);
  }

  lemma FreshPrefix(db: Db, commands: seq<string>, n: nat)
    requires Fresh(db, commands) && n < |commands|
    ensures Fresh(db, commands[..n]) && commands[n] !in commands[..n]
  {}

  // What AddCommands does to the set of commands, task by task.
  ghost predicate Adds(db: Db, d: Db, task: string, commands: seq<string>) {
    && d.tasks == db.tasks
    && d.commands.Keys == db.commands.Keys + Elements(commands)
    && |CommandsOf(d, task)| == |CommandsOf(db, task)| + |commands|
    && forall t :: t != task ==> CommandsOf(d, t) == CommandsOf(db, t)
  }

  lemma AddsStep(db: Db, m: Db, d: Db, task: string, commands: seq<string>, n: nat)
    requires n == |commands| - 1 && Adds(db, m, task, commands[..n])
    requires d.tasks == m.tasks && d.commands.Keys == m.commands.Keys + {commands[n]}
    requires |CommandsOf(d, task)| == |CommandsOf(m, task)| + 1
    requires forall t :: t != task ==> CommandsOf(d, t) == CommandsOf(m, t)
    ensures Adds(db, d, task, commands)
  {
    ElementsSnoc(commands, n);
  }

  lemma AddsOneMore(db: Db, m: Db, task: string, commands: seq<string>, n: nat, host: string, timeout: int)
    requires n == |commands| - 1 && task in m.tasks && commands[n] !in m.commands
    requires Adds(db, m, task, commands[..n])
    ensures Adds(db, AddCommand(m, task, commands[n], host, timeout), task, commands)
  {
    var d := AddCommand(m, task, commands[n], host, timeout);
    AddCommandHere(m, task, commands[n], host, timeout);
    forall t | t != task ensures CommandsOf(d, t) == CommandsOf(m, t) {
      AddCommandElsewhere(m, task, commands[n], host, timeout, t);
    }
    AddsStep(db, m, d, task, commands, n);
  }

  lemma {:induction false} AddCommandsKeeps(db: Db, task: string, commands: seq<string>,
                                           hosts: seq<string>, timeout: int)
    requires Intact(db) && task in db.tasks && |commands| == |hosts| && Fresh(db, commands)
    ensures var d := AddCommands(db, task, commands, hosts, timeout);
            Intact(d) && Adds(db, d, task, commands)
  {
    if hosts == [] {
      assert Elements(commands) == {};
    } else {
      var n := |hosts| - 1;
      FreshPrefix(db, commands, n);
      AddCommandsKeeps(db, task, commands[..n], hosts[..n], timeout);
      var m := AddCommands(db, task, commands[..n], hosts[..n], timeout);
      AddsOneMore(db, m, task, commands, n, hosts[n], timeout);
      AddCommandKeeps(m, task, commands[n], hosts[n], timeout);
    }
  }

  // Changing only task records keeps the links, if no task disappears.
  lemma TasksOnly(m: Db, d: Db)
    requires Intact(m) && d == m.(tasks := d.tasks) && m.tasks.Keys <= d.tasks.Keys
    ensures Intact(d) && forall t :: CommandsOf(d, t) == CommandsOf(m, t)
  {}

  lemma CreateKeeps(db: Db, task: string, commands: seq<string>, hosts: seq<string>, timeout: int, now: int)
    requires Intact(db) && task !in db.tasks && |commands| == |hosts| && Fresh(db, commands)
    ensures var d := CreateTask(db, task, commands, hosts, timeout, now);
            && Intact(d) && (Totals(db) ==> Totals(d))
            && d.tasks == db.tasks[task := Task(TaskPending, |hosts|, 0, 0, now, None, None)]
  {
    var m := db.(tasks := db.tasks[task := Task(TaskPending, |hosts|, 0, 0, now, None, None)]);
    TasksOnly(db, m);
    assert CommandsOf(m, task) == {};
    AddCommandsKeeps(m, task, commands, hosts, timeout);
  }

  lemma AddTotalIntact(m: Db, task: string, n: nat) returns (d: Db)
    requires Intact(m) && task in m.tasks
    ensures d == AddTotal(m, task, n) && Intact(d)
  {
    d := AddTotal(m, task, n);
    TasksOnly(m, d);
  }

  lemma AddTotalTotals(db: Db, m: Db, task: string, commands: seq<string>)
    requires Totals(db) && task in db.tasks && Adds(db, m, task, commands)
    ensures Totals(AddTotal(m, task, |commands|))
  {
    var d := AddTotal(m, task, |commands|);
    forall t | t in d.tasks ensures d.tasks[t].total == |CommandsOf(d, t)| {
      assert CommandsOf(d, t) == CommandsOf(m, t);
    }
  }

  lemma AddHostsKeeps(db: Db, task: string, template: string, commands: seq<string>, hosts: seq<string>)
    requires Intact(db) && |commands| == |hosts| && Fresh(db, commands)
    ensures var d := AddTaskHosts(db, task, template, commands, hosts);
            Intact(d) && (Totals(db) ==> Totals(d))
  {
    if CanAddHosts(db, task, template) {
      var timeout := db.commands[template].timeout;
      AddCommandsKeeps(db, task, commands, hosts, timeout);
      var m := AddCommands(db, task, commands, hosts, timeout);
      var d := AddTotalIntact(m, task, |commands|);
      if Totals(db) {
        AddTotalTotals(db, m, task, commands);
      }
    }
  }

  // ----- Removing -----

  // The task's commands on one host.
  ghost function CommandsOn(db: Db, task: string, host: string): set<string> {
    set c | c in db.commands && BelongsTo(db.commands[c], task) && db.commands[c].host == host
  }

  lemma RemoveLinks(db: Db, task: string, host: string)
    requires Linked(db)
    ensures Linked(RemoveTaskHost(db, task, host))
  {
    var d := RemoveTaskHost(db, task, host);
    forall c | c in d.commands ensures exists r :: r in d.rows && d.rows[r].commandId == c {
      var r :| r in db.rows && db.rows[r].commandId == c;
      assert r in d.rows && d.rows[r].commandId == c;
    }
  }

  lemma RemoveKeepsLinks(db: Db, task: string, host: string)
    requires Intact(db)
    ensures var d := RemoveTaskHost(db, task, host);
            && Intact(d)
            && (CanRemove(db, task) ==> CommandsOf(d, task) == CommandsOf(db, task) - CommandsOn(db, task, host))
            && (forall t :: t != task ==> CommandsOf(d, t) == CommandsOf(db, t))
  {
    RemoveLinks(db, task, host);
    var d := RemoveTaskHost(db, task, host);
    if CanRemove(db, task) {
      assert forall t :: t != task ==> CommandsOf(d, t) == CommandsOf(db, t);
    }
  }

  // Removing a host takes away all of the task's commands on it but lowers the
  // total by one. The totals stay right exactly when the request is refused,
  // the host occurs once in the task, or the task has no commands at all.
  lemma RemoveKeepsTotalsExactly(db: Db, task: string, host: string)
    requires Intact(db) && Totals(db)
    ensures Totals(RemoveTaskHost(db, task, host)) <==>
            !CanRemove(db, task) || |CommandsOn(db, task, host)| == 1 || CommandsOf(db, task) == {}
  {
    if CanRemove(db, task) {
      RemoveKeepsLinks(db, task, host);
      CardDifference(CommandsOf(db, task), CommandsOn(db, task, host));
      var t := db.tasks[task];
      RemoveTotals(db, RemoveTaskHost(db, task, host), task, |CommandsOn(db, task, host)|);
    }
  }

  lemma RemoveTotals(db: Db, d: Db, task: string, k: nat)
    requires Totals(db) && task in db.tasks && k <= |CommandsOf(db, task)|
    requires var t := db.tasks[task];
             d.tasks == db.tasks[task := t.(total := if t.total - 1 > 0 then t.total - 1 else 0)]
    requires |CommandsOf(d, task)| == |CommandsOf(db, task)| - k
    requires forall t :: t != task ==> CommandsOf(d, t) == CommandsOf(db, t)
    ensures Totals(d) <==> k == 1 || CommandsOf(db, task) == {}
  {
    var n := |CommandsOf(db, task)|;
    assert d.tasks[task].total == if n - 1 > 0 then n - 1 else 0;
    if k == 1 || n == 0 {
      forall t | t in d.tasks ensures d.tasks[t].total == |CommandsOf(d, t)| {}
    }
  }

  lemma CardDifference<T>(a: set<T>, b: set<T>)
    requires b <= a
    ensures |a - b| == |a| - |b|
  {
    assert a == (a - b) + b;
  }

  lemma RowsRemain(db: Db, d: Db)
    requires Linked(db)
    requires forall c :: c in d.commands ==> c in db.commands
    requires forall r :: r in d.rows <==> r in db.rows && db.rows[r].commandId in d.commands
    requires forall r :: r in d.rows ==> d.rows[r] == db.rows[r]
    ensures forall c :: c in d.commands ==> exists r :: r in d.rows && d.rows[r].commandId == c
  {
    forall c | c in d.commands ensures exists r :: r in d.rows && d.rows[r].commandId == c {
      var r :| r in db.rows && db.rows[r].commandId == c;
      assert r in d.rows && d.rows[r].commandId == c;
    }
  }

  lemma DeleteIntact(db: Db, task: string) returns (d: Db)
    requires Intact(db)
    ensures d == DeleteTask(db, task) && Intact(d)
  {
    d := DeleteTask(db, task);
    if CanRemove(db, task) {
      RowsRemain(db, d);
    }
  }

  lemma DeleteKeeps(db: Db, task: string)
    requires Intact(db)
    ensures var d := DeleteTask(db, task);
            && Intact(d) && (Totals(db) ==> Totals(d))
            && (CanRemove(db, task) ==> task !in d.tasks && CommandsOf(d, task) == {} && RowsOf(d, task) == {})
            && (forall t :: t != task ==> CommandsOf(d, t) == CommandsOf(db, t))
            && (forall t :: t != task ==> RowsOf(d, t) == RowsOf(db, t))
            && (forall t :: t in d.tasks <==> t in db.tasks && !(CanRemove(db, task) && t == task))
            && (forall t :: t in d.tasks ==> d.tasks[t] == db.tasks[t])
            && (forall c :: c in d.commands ==> c in db.commands && d.commands[c] == db.commands[c])
            && (forall r :: r in d.rows ==> r in db.rows && d.rows[r] == db.rows[r])
  {
    var d := DeleteIntact(db, task);
    if CanRemove(db, task) {
      forall t | t != task ensures CommandsOf(d, t) == CommandsOf(db, t) && RowsOf(d, t) == RowsOf(db, t) {
        DeleteElsewhere(db, task, t);
      }
    }
  }

  lemma DeleteElsewhere(db: Db, task: string, t: string)
    requires t != task
    ensures var d := DeleteTask(db, task); CommandsOf(d, t) == CommandsOf(db, t) && RowsOf(d, t) == RowsOf(db, t)
  {}

  lemma CleanupIntact(db: Db, cutoff: int) returns (d: Db)
    requires Intact(db)
    ensures d == Cleanup(db, cutoff) && Intact(d)
  {
    d := Cleanup(db, cutoff);
    RowsRemain(db, d);
  }

  lemma CleanupOf(db: Db, cutoff: int, t: string)
    requires Linked(db)
    ensures var d := Cleanup(db, cutoff);
            if t in d.tasks then CommandsOf(d, t) == CommandsOf(db, t) && RowsOf(d, t) == RowsOf(db, t)
            else CommandsOf(d, t) == {} && RowsOf(d, t) == {}
  {}

  // The cleanup removes exactly the expired tasks with all their commands and
  // rows, and leaves every other record as it is.
  lemma CleanupKeeps(db: Db, cutoff: int)
    requires Intact(db)
    ensures var d := Cleanup(db, cutoff);
            && Intact(d) && (Totals(db) ==> Totals(d))
            && (forall t :: t in d.tasks <==> t in db.tasks && !Expired(db.tasks[t], cutoff))
            && (forall t :: t in d.tasks ==> d.tasks[t] == db.tasks[t]
                                             && CommandsOf(d, t) == CommandsOf(db, t) && RowsOf(d, t) == RowsOf(db, t))
            && (forall t :: t !in d.tasks ==> CommandsOf(d, t) == {} && RowsOf(d, t) == {})
            && (forall c :: c in d.commands ==> d.commands[c] == db.commands[c])
            && (forall r :: r in d.rows ==> d.rows[r] == db.rows[r])
  {
    var d := CleanupIntact(db, cutoff);
    forall t
      ensures if t in d.tasks then CommandsOf(d, t) == CommandsOf(db, t) && RowsOf(d, t) == RowsOf(db, t)
              else CommandsOf(d, t) == {} && RowsOf(d, t) == {}
    {
      CleanupOf(db, cutoff, t);
    }
  }

}
