// The progress of a task, computed three times in the program: row by row from
// the loaded command hosts, and twice from the result of a GROUP BY query.
module Progress {
  import opened Common
  import opened Statuses

  datatype Counts = Counts(completed: nat, failed: nat, running: nat, pending: nat, canceled: nat)

  const NO_COUNTS := Counts(0, 0, 0, 0, 0)

  // Rows of a task by status; the query's result is one group for each status
  // that occurs, in an order of the database's choosing.
  type Tally = multiset<HostStatus>

  ghost predicate IsGroupOrder(order: seq<HostStatus>) {
    && (forall h: HostStatus :: h in order)
    && (forall i, j :: 0 <= i < j < |order| ==> order[i] != order[j])
  }

  // What one group of the query result does to the five counters: every
  // status assigns its counter, and the three failure statuses share one.
  function WithGroup(c: Counts, h: HostStatus, count: nat): Counts {
    if count == 0 then c  // no rows, no group
    else match h
      case HostCompleted => c.(completed := count)
      case HostFailed => c.(failed := count)
      case HostExecFailed => c.(failed := count)
      case HostTimeout => c.(failed := count)
      case HostRunning => c.(running := count)
      case HostPending => c.(pending := count)
      case HostCanceled => c.(canceled := count)
  }

  ghost function FoldGroups(order: seq<HostStatus>, tally: Tally): Counts {
    if order == [] then NO_COUNTS
    else
      var n := |order| - 1;
      WithGroup(FoldGroups(order[..n], tally), order[n], tally[order[n]])
  }

  // The counters as the rows have them.
  ghost function RowCounts(tally: Tally): Counts {
    Counts(tally[HostCompleted],
           tally[HostFailed] + tally[HostExecFailed] + tally[HostTimeout],
           tally[HostRunning], tally[HostPending], tally[HostCanceled])
  }

  // ----- Which count the fold leaves -----

  ghost predicate OneFailureKind(tally: Tally) {
    forall a: HostStatus, b: HostStatus ::
      a in tally && b in tally && IsFailure(a) && IsFailure(b) ==> a == b
  }

  // f is the failure status whose group comes last.
  ghost predicate LastFailure(order: seq<HostStatus>, tally: Tally, f: HostStatus) {
    exists k :: 0 <= k < |order| && order[k] == f && f in tally && IsFailure(f)
      && forall j :: k < j < |order| && order[j] in tally ==> !IsFailure(order[j])
  }

  lemma {:induction false} FoldKeeps(order: seq<HostStatus>, tally: Tally)
    requires forall i, j :: 0 <= i < j < |order| ==> order[i] != order[j]
    ensures var c := FoldGroups(order, tally);
            && c.completed == (if HostCompleted in order then tally[HostCompleted] else 0)
            && c.running == (if HostRunning in order then tally[HostRunning] else 0)
            && c.pending == (if HostPending in order then tally[HostPending] else 0)
            && c.canceled == (if HostCanceled in order then tally[HostCanceled] else 0)
  {
    if order != [] {
      var n := |order| - 1;
      FoldKeeps(order[..n], tally);
      forall h: HostStatus | h in order && h != order[n] ensures h in order[..n] {
        var k :| 0 <= k < |order| && order[k] == h;
        assert order[..n][k] == h;
      }
      assert order[n] !in order[..n];
    }
  }

  lemma {:induction false} FoldFailed(order: seq<HostStatus>, tally: Tally)
    ensures var c := FoldGroups(order, tally);
            || (c.failed == 0 && forall j :: 0 <= j < |order| && order[j] in tally ==> !IsFailure(order[j]))
            || (exists f :: LastFailure(order, tally, f) && c.failed == tally[f])
  {
    if order != [] {
      var n := |order| - 1;
      var h := order[n];
      FoldFailed(order[..n], tally);
      if h in tally && IsFailure(h) {
        assert LastFailure(order, tally, h);
      } else if f :| LastFailure(order[..n], tally, f) && FoldGroups(order[..n], tally).failed == tally[f] {
        var k :| 0 <= k < n && order[..n][k] == f && f in tally && IsFailure(f)
          && forall j :: k < j < n && order[..n][j] in tally ==> !IsFailure(order[..n][j]);
        assert order[k] == f;
        forall j | k < j < |order| && order[j] in tally ensures !IsFailure(order[j]) {
          if j < n { assert order[..n][j] == order[j]; }
        }
        assert LastFailure(order, tally, f);
        assert FoldGroups(order, tally).failed == tally[f];
      } else {
        forall j | 0 <= j < |order| && order[j] in tally ensures !IsFailure(order[j]) {
          if j < n { assert order[..n][j] == order[j]; }
        }
      }
    }
  }

  lemma OneKindMeans(tally: Tally)
    ensures OneFailureKind(tally) <==>
            || (HostFailed !in tally && HostExecFailed !in tally)
            || (HostFailed !in tally && HostTimeout !in tally)
            || (HostExecFailed !in tally && HostTimeout !in tally)
  {
    if OneFailureKind(tally) {
    } else {
      var a, b :| a in tally && b in tally && IsFailure(a) && IsFailure(b) && a != b;
    }
  }

  // The count of one failure status against the count of all three.
  lemma OneOfThree(tally: Tally, f: HostStatus)
    requires f in tally && IsFailure(f)
    ensures 0 < tally[f] <= RowCounts(tally).failed
    ensures tally[f] == RowCounts(tally).failed <==> OneFailureKind(tally)
  {
    OneKindMeans(tally);
  }

  lemma FailedExactly(order: seq<HostStatus>, tally: Tally)
    requires IsGroupOrder(order)
    ensures var c, r := FoldGroups(order, tally).failed, RowCounts(tally).failed;
            c <= r && (c == 0 <==> r == 0) && (c == r <==> OneFailureKind(tally))
  {
    FoldFailed(order, tally);
    if f :| LastFailure(order, tally, f) && FoldGroups(order, tally).failed == tally[f] {
      OneOfThree(tally, f);
    } else {
      forall a: HostStatus | a in tally ensures !IsFailure(a) {
        assert a in order;
      }
      OneKindMeans(tally);
    }
  }

  // For every group order, four counters are right, and the failed counter is
  // right exactly when the rows fail in at most one way. Then, and only then,
  // the five counters add up to the number of rows.
  lemma FoldAgreesExactly(order: seq<HostStatus>, tally: Tally)
    requires IsGroupOrder(order)
    ensures var c, r := FoldGroups(order, tally), RowCounts(tally);
            && c.(failed := 0) == r.(failed := 0)
            && c.failed <= r.failed
            && (c.failed == 0 <==> r.failed == 0)
            && (c.failed == r.failed <==> OneFailureKind(tally))
            && (c.completed + c.failed + c.running + c.pending + c.canceled == |tally| <==> OneFailureKind(tally))
  {
    FoldKeeps(order, tally);
    FailedExactly(order, tally);
    TallySize(tally);
  }

  // All failure statuses that occur, occur equally often.
  ghost predicate EvenFailures(tally: Tally) {
    forall a: HostStatus, b: HostStatus ::
      a in tally && b in tally && IsFailure(a) && IsFailure(b) ==> tally[a] == tally[b]
  }

  // The order with the group of one failure status last.
  function EndingWith(f: HostStatus): (order: seq<HostStatus>)
    requires IsFailure(f)
  {
    var others := [HostPending, HostRunning, HostCanceled, HostCompleted];
    match f
    case HostFailed => others + [HostExecFailed, HostTimeout] + [f]
    case HostExecFailed => others + [HostFailed, HostTimeout] + [f]
    case HostTimeout => others + [HostFailed, HostExecFailed] + [f]
  }

  lemma LastGroupCounts(f: HostStatus, tally: Tally)
    requires IsFailure(f) && f in tally
    ensures IsGroupOrder(EndingWith(f)) && FoldGroups(EndingWith(f), tally).failed == tally[f]
  {
    var order := EndingWith(f);
    assert order[6] == f && |order| == 7;
    assert order[0] == HostPending && order[1] == HostRunning && order[2] == HostCanceled && order[3] == HostCompleted;
    assert order[4] != order[5] && IsFailure(order[4]) && IsFailure(order[5]) && order[4] != f && order[5] != f;
    forall h: HostStatus ensures h in order {
      assert h == order[0] || h == order[1] || h == order[2] || h == order[3]
             || h == order[4] || h == order[5] || h == order[6];
    }
  }

  lemma SameFold(a: seq<HostStatus>, b: seq<HostStatus>, tally: Tally)
    requires IsGroupOrder(a) && IsGroupOrder(b) && EvenFailures(tally)
    ensures FoldGroups(a, tally) == FoldGroups(b, tally)
  {
    FoldKeeps(a, tally);
    FoldKeeps(b, tally);
    FoldFailed(a, tally);
    FoldFailed(b, tally);
    FailedExactly(a, tally);
    FailedExactly(b, tally);
  }

  // The counts do not depend on the order of the groups exactly if all failure
  // statuses that occur, occur equally often.
  lemma FoldIsDeterminateExactly(tally: Tally)
    ensures (forall a, b :: IsGroupOrder(a) && IsGroupOrder(b) ==> FoldGroups(a, tally) == FoldGroups(b, tally)) <==>
            EvenFailures(tally)
  {
    if EvenFailures(tally) {
      forall a, b | IsGroupOrder(a) && IsGroupOrder(b) ensures FoldGroups(a, tally) == FoldGroups(b, tally) {
        SameFold(a, b, tally);
      }
    } else {
      var f, g :| f in tally && g in tally && IsFailure(f) && IsFailure(g) && tally[f] != tally[g];
      LastGroupCounts(f, tally);
      LastGroupCounts(g, tally);
    }
  }

  lemma TallySize(tally: Tally)
    ensures |tally| == tally[HostPending] + tally[HostRunning] + tally[HostFailed] + tally[HostExecFailed]
                       + tally[HostTimeout] + tally[HostCanceled] + tally[HostCompleted]
  {
    MakeTallyAt(tally[HostPending], tally[HostRunning], tally[HostFailed], tally[HostExecFailed],
                tally[HostTimeout], tally[HostCanceled], tally[HostCompleted]);
    var t := MakeTally(tally[HostPending], tally[HostRunning], tally[HostFailed], tally[HostExecFailed],
                       tally[HostTimeout], tally[HostCanceled], tally[HostCompleted]);
    forall h: HostStatus ensures t[h] == tally[h] {
      match h
      case HostPending =>
      case HostRunning =>
      case HostFailed =>
      case HostExecFailed =>
      case HostTimeout =>
      case HostCanceled =>
      case HostCompleted =>
    }
    assert t == tally;
  }

  function MakeTally(pending: nat, running: nat, failed: nat, execFailed: nat, timeout: nat,
                     canceled: nat, completed: nat)
    : Tally
  {
    multiset{}[HostPending := pending][HostRunning := running][HostFailed := failed]
    [HostExecFailed := execFailed][HostTimeout := timeout][HostCanceled := canceled][HostCompleted := completed]
  }

  lemma MakeTallyAt(pending: nat, running: nat, failed: nat, execFailed: nat, timeout: nat,
                    canceled: nat, completed: nat)
    ensures var t := MakeTally(pending, running, failed, execFailed, timeout, canceled, completed);
            && t[HostPending] == pending && t[HostRunning] == running && t[HostFailed] == failed
            && t[HostExecFailed] == execFailed && t[HostTimeout] == timeout
            && t[HostCanceled] == canceled && t[HostCompleted] == completed
            && |t| == pending + running + failed + execFailed + timeout + canceled + completed
  {}

  // ----- The task status that follows from the counts -----

  // What the two transactional computations decide; None leaves the status.
  function StatusFromGroups(c: Counts, total: int): Option<TaskStatus> {
    if c.completed + c.failed + c.canceled == total then
      if c.canceled > 0 then Some(TaskCanceled)
      else if c.failed == 0 then Some(TaskCompleted)
      else Some(TaskFailed)
    else if c.running > 0 || c.completed > 0 then Some(TaskRunning)
    else None
  }

  // What the row-by-row computation decides; it does not look at canceled rows.
  function StatusFromRows(c: Counts, total: int): Option<TaskStatus> {
    if c.completed + c.failed == total then
      if c.failed == 0 then Some(TaskCompleted) else Some(TaskFailed)
    else if c.running > 0 || c.completed > 0 then Some(TaskRunning)
    else None
  }

  // For a right total the two decisions coincide exactly if a row is pending or
  // running, or the rows are canceled in some and fail in more than one way, or
  // neither.
  lemma StatusesAgreeExactly(order: seq<HostStatus>, tally: Tally)
    requires IsGroupOrder(order)
    ensures StatusFromGroups(FoldGroups(order, tally), |tally|) == StatusFromRows(RowCounts(tally), |tally|) <==>
            HostPending in tally || HostRunning in tally || (HostCanceled in tally <==> !OneFailureKind(tally))
  {
    FoldAgreesExactly(order, tally);
    TallySize(tally);
    OneKindMeans(tally);
  }

  // Without canceled rows and with at most one kind of failure the three
  // computations agree in counts and status, for every group order.
  lemma ThreeComputationsAgree(order: seq<HostStatus>, tally: Tally, total: int)
    requires IsGroupOrder(order)
    requires OneFailureKind(tally) && HostCanceled !in tally
    ensures FoldGroups(order, tally) == RowCounts(tally)
    ensures StatusFromGroups(FoldGroups(order, tally), total) == StatusFromRows(RowCounts(tally), total)
  {
    FoldAgreesExactly(order, tally);
  }

  // A task all of whose hosts are done, but in more than one failing way, is
  // never seen as finished by the grouped computation.
  lemma MixedFailuresNeverFinish(order: seq<HostStatus>, tally: Tally)
    requires IsGroupOrder(order)
    requires !OneFailureKind(tally)
    requires HostPending !in tally && HostRunning !in tally
    ensures var s := StatusFromGroups(FoldGroups(order, tally), |tally|);
            s == (if HostCompleted in tally then Some(TaskRunning) else None)
    ensures HostCanceled !in tally ==> StatusFromRows(RowCounts(tally), |tally|) == Some(TaskFailed)
  {
    FoldAgreesExactly(order, tally);
    TallySize(tally);
  }

  // ----- The row-by-row computation as the program runs it -----

  method CountRow(s: HostStatus, ghost tally: Tally, completed: nat, failed: nat, running: nat)
    returns (c: nat, f: nat, r: nat)
    requires Counted(tally, completed, failed, running)
    ensures Counted(tally + multiset{s}, c, f, r)
  {
    c, f, r := completed, failed, running;
    match s {
      case HostCompleted => c := c + 1;
      case HostFailed => f := f + 1;
      case HostExecFailed => f := f + 1;
      case HostTimeout => f := f + 1;
      case HostRunning => r := r + 1;
      case HostPending =>
      case HostCanceled =>
    }
  }

  method CountRows(commands: seq<seq<HostStatus>>) returns (completed: nat, failed: nat, running: nat)
    ensures Counted(AllRows(commands), completed, failed, running)
  {
    completed, failed, running := 0, 0, 0;
    for i := 0 to |commands|
      invariant Counted(AllRows(commands[..i]), completed, failed, running)
    {
      completed, failed, running := CountCommand(commands[i], AllRows(commands[..i]), completed, failed, running);
      assert commands[..i + 1][..i] == commands[..i];
    }
    assert commands[..|commands|] == commands;
  }

  method CountCommand(rows: seq<HostStatus>, ghost tally: Tally, completed: nat, failed: nat, running: nat)
    returns (c: nat, f: nat, r: nat)
    requires Counted(tally, completed, failed, running)
    ensures Counted(tally + multiset(rows), c, f, r)
  {
    c, f, r := completed, failed, running;
    assert tally + multiset(rows[..0]) == tally;
    for j := 0 to |rows|
      invariant Counted(tally + multiset(rows[..j]), c, f, r)
    {
      ghost var before := tally + multiset(rows[..j]);
      c, f, r := CountRow(rows[j], before, c, f, r);
      OneMoreRow(tally, rows, j);
    }
    assert rows[..|rows|] == rows;
  }

  lemma OneMoreRow(tally: Tally, rows: seq<HostStatus>, j: nat)
    requires j < |rows|
    ensures tally + multiset(rows[..j + 1]) == tally + multiset(rows[..j]) + multiset{rows[j]}
  {
    assert rows[..j + 1] == rows[..j] + [rows[j]];
  }

  class TaskRecord {
    var status: TaskStatus
    var totalHosts: int
    var completedHosts: nat
    var failedHosts: nat
    var startedAt: Option<int>
    var finishedAt: Option<int>

    // commands lists, for each command of the task, the statuses of its
    // command hosts.
    method UpdateProgress(commands: seq<seq<HostStatus>>, now: int)
      modifies this
      ensures var r := RowCounts(AllRows(commands));
              && completedHosts == r.completed && failedHosts == r.failed
              && totalHosts == old(totalHosts)
              && status == (match StatusFromRows(r, totalHosts) case Some(s) => s case None => old(status))
              && finishedAt == (if r.completed + r.failed == totalHosts && old(finishedAt).None? then Some(now)
                                else old(finishedAt))
              && startedAt == (if status.TaskRunning? && r.completed + r.failed != totalHosts
                                  && (r.running > 0 || r.completed > 0) && old(startedAt).None? then Some(now)
                               else old(startedAt))
    {
      var completedCount, failedCount, runningCount := CountRows(commands);
      completedHosts := completedCount;
      failedHosts := failedCount;
      if completedCount + failedCount == totalHosts {
        if failedCount == 0 {
          status := TaskCompleted;
        } else {
          status := TaskFailed;
        }
        if finishedAt.None? {
          finishedAt := Some(now);
        }
      } else if runningCount > 0 || completedCount > 0 {
        status := TaskRunning;
        if startedAt.None? {
          startedAt := Some(now);
        }
      }
    }
  }

  ghost function AllRows(commands: seq<seq<HostStatus>>): Tally {
    if commands == [] then multiset{}
    else AllRows(commands[..|commands| - 1]) + multiset(commands[|commands| - 1])
  }

  // All rows of all commands, however they are divided among these.
  lemma {:induction false} AllRowsAdd(a: seq<seq<HostStatus>>, b: seq<seq<HostStatus>>)
    ensures AllRows(a + b) == AllRows(a) + AllRows(b)
    ensures |b| == 1 ==> AllRows(b) == multiset(b[0])
  {
    if b == [] {
      assert a + b == a;
    } else {
      var n := |b| - 1;
      AllRowsAdd(a, b[..n]);
      assert (a + b)[..|a + b| - 1] == a + b[..n];
    }
  }

  ghost predicate Counted(tally: Tally, completed: nat, failed: nat, running: nat) {
    var r := RowCounts(tally);
    completed == r.completed && failed == r.failed && running == r.running
  }

}
