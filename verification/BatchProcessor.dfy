// The batch writer and the loop that buffers queued updates and flushes them.
module BatchProcessor {
  import opened Common
  import opened BatchWrites

  // ----- One batch, as the program writes it -----

  class StatusTable {
    var table: Table

    constructor (rows: Table)
      ensures table == rows
    {
      table := rows;
    }

    // The groups are written in the order in which the map happens to be
    // iterated.
    method BatchUpdateStatus(updates: seq<Update>) returns (ghost order: seq<string>)
      modifies this
      ensures IsListing(order, KeysOf(updates)) && table == Batched(old(table), updates, order)
      ensures Agreeable(updates) ==> table == OneByOne(old(table), updates)
    {
      order := [];
      if |updates| > 0 {
        var statusGroups, updateData := GroupUpdates(updates);
        order := WriteGroups(updates, statusGroups, updateData);
      }
      if Agreeable(updates) {
        BatchIsSequence(old(table), updates, order);
      }
    }

    method WriteGroups(ghost updates: seq<Update>,
                       statusGroups: map<string, seq<string>>, updateData: map<string, Update>)
      returns (ghost order: seq<string>)
      requires Grouped(updates, statusGroups, updateData)
      modifies this
      ensures IsListing(order, KeysOf(updates)) && table == Batched(old(table), updates, order)
    {
      order := [];
      var todo := statusGroups.Keys;
      ghost var done: set<string> := {};
      while todo != {}
        invariant todo + done == statusGroups.Keys && todo !! done
        invariant Written(old(table), updates, order, done, table)
        decreases todo
      {
        var key :| key in todo;
        ghost var before := table;
        WriteGroup(updates, key, statusGroups, updateData);
        OneMoreGroup(old(table), updates, order, done, before, key);
        todo := todo - {key};
        done := done + {key};
        order := order + [key];
      }
    }

    method WriteGroup(ghost updates: seq<Update>, key: string,
                      statusGroups: map<string, seq<string>>, updateData: map<string, Update>)
      requires Grouped(updates, statusGroups, updateData) && key in statusGroups
      modifies this
      ensures key in KeysOf(updates)
      ensures table == UpdateWhere(old(table), IdsWith(updates, key), GroupFields(updates, key))
    {
      GroupAt(updates, statusGroups, updateData, key);
      var fields := UpdateFields(updateData[key]);
      table := UpdateWhere(table, Elements(statusGroups[key]), fields);
    }
  }

  // The groups done so far have been written in the given order.
  ghost predicate Written(start: Table, updates: seq<Update>, order: seq<string>, done: set<string>, t: Table) {
    IsListing(order, done) && t == Batched(start, updates, order)
  }

  method UpdateFields(update: Update) returns (fields: Fields)
    ensures fields == FieldsOf(update)
    ensures Status in fields && fields[Status] == Text(update.status)
    ensures FinishedAt in fields <==> update.finishedAt.Some?
    ensures update.finishedAt.Some? ==> fields[FinishedAt] == Number(update.finishedAt.value)
    ensures ErrorText in fields <==> update.error != ""
    ensures update.error != "" ==> fields[ErrorText] == Text(update.error)
    ensures ExitCode in fields <==> update.exitCode.Some?
    ensures update.exitCode.Some? ==> fields[ExitCode] == Number(update.exitCode.value)
    ensures ExecutionTime in fields <==> update.executionTime.Some?
    ensures update.executionTime.Some? ==> fields[ExecutionTime] == Number(update.executionTime.value)
  {
    fields := map[Status := Text(update.status)];
    if update.finishedAt.Some? {
      fields := fields[FinishedAt := Number(update.finishedAt.value)];
    }
    if update.error != "" {
      fields := fields[ErrorText := Text(update.error)];
    }
    if update.exitCode.Some? {
      fields := fields[ExitCode := Number(update.exitCode.value)];
    }
    if update.executionTime.Some? {
      fields := fields[ExecutionTime := Number(update.executionTime.value)];
    }
  }

  lemma OneMoreGroup(start: Table, updates: seq<Update>, order: seq<string>, done: set<string>, t: Table, key: string)
    requires Written(start, updates, order, done, t) && key !in done
    ensures Written(start, updates, order + [key], done + {key},
                    UpdateWhere(t, IdsWith(updates, key), GroupFields(updates, key)))
  {
    assert (order + [key])[..|order|] == order;
  }

  // The two maps hold each group's commands and its last update.
  ghost predicate Grouped(updates: seq<Update>, groups: map<string, seq<string>>, data: map<string, Update>) {
    && groups.Keys == KeysOf(updates) && data.Keys == KeysOf(updates)
    && forall k :: k in groups ==> GroupIs(updates, k, groups[k], data[k])
  }

  ghost predicate GroupIs(updates: seq<Update>, key: string, ids: seq<string>, last: Update) {
    Elements(ids) == IdsWith(updates, key) && key in KeysOf(updates) && last == LastWith(updates, key)
  }

  method GroupUpdates(updates: seq<Update>)
    returns (statusGroups: map<string, seq<string>>, updateData: map<string, Update>)
    ensures Grouped(updates, statusGroups, updateData)
  {
    statusGroups, updateData := map[], map[];
    for i := 0 to |updates|
      invariant Grouped(updates[..i], statusGroups, updateData)
    {
      statusGroups, updateData := AddToGroup(updates[..i], updates[i], statusGroups, updateData);
      assert updates[..i + 1] == updates[..i] + [updates[i]];
    }
    assert updates[..|updates|] == updates;
  }

  method AddToGroup(ghost updates: seq<Update>, update: Update,
                    statusGroups: map<string, seq<string>>, updateData: map<string, Update>)
    returns (groups: map<string, seq<string>>, data: map<string, Update>)
    requires Grouped(updates, statusGroups, updateData)
    ensures Grouped(updates + [update], groups, data)
  {
    var key := Key(update);
    var ids := if key in statusGroups then statusGroups[key] else [];
    OneMoreUpdate(updates, update, statusGroups, updateData, ids);
    groups := statusGroups[key := ids + [update.commandId]];
    data := updateData[key := update];
  }

  lemma GroupAt(updates: seq<Update>, groups: map<string, seq<string>>, data: map<string, Update>, key: string)
    requires Grouped(updates, groups, data) && key in groups
    ensures key in data && key in KeysOf(updates)
    ensures Elements(groups[key]) == IdsWith(updates, key) && data[key] == LastWith(updates, key)
  {
    assert GroupIs(updates, key, groups[key], data[key]);
  }

  lemma OtherGroup(updates: seq<Update>, u: Update, key: string, ids: seq<string>, last: Update)
    requires GroupIs(updates, key, ids, last) && key != Key(u)
    ensures GroupIs(updates + [u], key, ids, last)
  {
    IdsSnoc(updates, u, key);
    LastSnoc(updates, u, key);
  }

  lemma OneMoreUpdate(updates: seq<Update>, u: Update, groups: map<string, seq<string>>, data: map<string, Update>,
                      ids: seq<string>)
    requires Grouped(updates, groups, data)
    requires ids == if Key(u) in groups then groups[Key(u)] else []
    ensures Grouped(updates + [u], groups[Key(u) := ids + [u.commandId]], data[Key(u) := u])
  {
    KeysSnoc(updates, u);
    if Key(u) in groups {
      GroupAt(updates, groups, data, Key(u));
    }
    OwnGroup(updates, u, ids);
    forall k | k in groups && k != Key(u) ensures GroupIs(updates + [u], k, groups[k], data[k]) {
      OtherGroup(updates, u, k, groups[k], data[k]);
    }
  }

  lemma OwnGroup(updates: seq<Update>, u: Update, ids: seq<string>)
    requires Elements(ids) == if Key(u) in KeysOf(updates) then IdsWith(updates, Key(u)) else {}
    ensures GroupIs(updates + [u], Key(u), ids + [u.commandId], u)
  {
    IdsSnoc(updates, u, Key(u));
    LastSnoc(updates, u, Key(u));
    assert Elements(ids + [u.commandId]) == Elements(ids) + {u.commandId};
    if Key(u) !in KeysOf(updates) {
      assert IdsWith(updates, Key(u)) == {};
    }
  }

  lemma KeysSnoc(updates: seq<Update>, u: Update)
    ensures KeysOf(updates + [u]) == KeysOf(updates) + {Key(u)}
  {
    assert u in updates + [u];
  }

  lemma IdsSnoc(updates: seq<Update>, u: Update, k: string)
    ensures IdsWith(updates + [u], k) == IdsWith(updates, k) + if Key(u) == k then {u.commandId} else {}
  {
    assert u in updates + [u];
    forall x ensures x in IdsWith(updates + [u], k) <==>
                     x in IdsWith(updates, k) || (Key(u) == k && x == u.commandId) {}
  }

  lemma LastSnoc(updates: seq<Update>, u: Update, k: string)
    requires k in KeysOf(updates) + {Key(u)}
    ensures k in KeysOf(updates + [u])
    ensures LastWith(updates + [u], k) == if Key(u) == k then u else LastWith(updates, k)
  {
    KeysSnoc(updates, u);
    assert (updates + [u])[..|updates|] == updates;
  }

  // ----- Buffering -----

  datatype Kind = ForCommandHosts | ForCommands

  // What the loop receives: a queued update, one of an unknown type, or a tick
  // of the timer.
  datatype Event = Queued(kind: Kind, update: Update) | Unknown | Tick

  // The buffer of one kind of update, and the batches flushed so far.
  datatype Stage = Stage(buffer: seq<Update>, batches: seq<seq<Update>>)

  function Appended(s: Stage, u: Update): Stage {
    s.(buffer := s.buffer + [u])
  }

  function Flushed(s: Stage): Stage {
    if s.buffer == [] then s else Stage([], s.batches + [s.buffer])
  }

  function FlushedIfFull(s: Stage, batchSize: nat): Stage {
    if |s.buffer| >= batchSize then Flushed(s) else s
  }

  function Next(s: Stage, e: Event, kind: Kind, batchSize: nat): Stage {
    match e
    case Queued(k, u) => FlushedIfFull(if k == kind then Appended(s, u) else s, batchSize)
    case Unknown => FlushedIfFull(s, batchSize)
    case Tick => Flushed(s)
  }

  function After(events: seq<Event>, kind: Kind, batchSize: nat): Stage {
    if events == [] then Stage([], [])
    else Next(After(events[..|events| - 1], kind, batchSize), events[|events| - 1], kind, batchSize)
  }

  function Consumed(events: seq<Event>, kind: Kind): seq<Update> {
    if events == [] then []
    else
      var e := events[|events| - 1];
      Consumed(events[..|events| - 1], kind) + if e.Queued? && e.kind == kind then [e.update] else []
  }

  function Concat(batches: seq<seq<Update>>): seq<Update> {
    if batches == [] then [] else Concat(batches[..|batches| - 1]) + batches[|batches| - 1]
  }

  // The batches hold between one and batchSize updates, the buffer at most limit.
  ghost predicate Sized(s: Stage, batchSize: nat, limit: nat) {
    && |s.buffer| <= limit
    && forall b :: b in s.batches ==> 1 <= |b| <= batchSize
  }

  function Contents(s: Stage): seq<Update> {
    Concat(s.batches) + s.buffer
  }

  lemma FlushKeeps(s: Stage, batchSize: nat)
    requires Sized(s, batchSize, batchSize)
    ensures Contents(Flushed(s)) == Contents(s) && Sized(Flushed(s), batchSize, 0)
  {
    if s.buffer != [] {
      assert (s.batches + [s.buffer])[..|s.batches|] == s.batches;
    }
  }

  lemma FlushIfFullKeeps(s: Stage, batchSize: nat)
    requires batchSize >= 1 && Sized(s, batchSize, batchSize)
    ensures var t := FlushedIfFull(s, batchSize);
            Contents(t) == Contents(s) && Sized(t, batchSize, batchSize - 1)
  {
    FlushKeeps(s, batchSize);
  }

  lemma AppendAdds(s: Stage, u: Update, batchSize: nat)
    requires batchSize >= 1 && Sized(s, batchSize, batchSize - 1)
    ensures Contents(Appended(s, u)) == Contents(s) + [u] && Sized(Appended(s, u), batchSize, batchSize)
  {
    assert Contents(Appended(s, u)) == Contents(s) + [u];
  }

  lemma NextKeeps(s: Stage, e: Event, kind: Kind, batchSize: nat)
    requires batchSize >= 1 && Sized(s, batchSize, batchSize - 1)
    ensures var t := Next(s, e, kind, batchSize);
            && Sized(t, batchSize, batchSize - 1)
            && Contents(t) == Contents(s) + if e.Queued? && e.kind == kind then [e.update] else []
  {
    assert Contents(s) + [] == Contents(s);
    match e
    case Queued(k, u) =>
      if k == kind {
        AppendAdds(s, u, batchSize);
        FlushIfFullKeeps(Appended(s, u), batchSize);
      } else {
        FlushIfFullKeeps(s, batchSize);
      }
    case Unknown => FlushIfFullKeeps(s, batchSize);
    case Tick => FlushKeeps(s, batchSize);
  }

  // After every event of every run, the flushed batches followed by the buffer
  // are the consumed updates of the kind, in order; every batch holds between
  // one and batchSize updates; and the buffer is shorter than a batch.
  lemma {:induction false} ConservedInEveryRun(events: seq<Event>, kind: Kind, batchSize: nat)
    requires batchSize >= 1
    ensures var s := After(events, kind, batchSize);
            && Concat(s.batches) + s.buffer == Consumed(events, kind)
            && |s.buffer| < batchSize
            && forall b :: b in s.batches ==> 1 <= |b| <= batchSize
  {
    if events != [] {
      var n := |events| - 1;
      ConservedInEveryRun(events[..n], kind, batchSize);
      NextKeeps(After(events[..n], kind, batchSize), events[n], kind, batchSize);
    }
  }

  // What one event does to the buffer of a kind and to its batches.
  ghost predicate Handled(a: Stage, b: Stage, e: Event, kind: Kind, batchSize: nat) {
    var joined := if e.Queued? && e.kind == kind then a.buffer + [e.update] else a.buffer;
    if joined != [] && (e.Tick? || |joined| == batchSize)
    then b.buffer == [] && b.batches == a.batches + [joined]
    else b.buffer == joined && b.batches == a.batches
  }

  lemma HandledExactly(events: seq<Event>, e: Event, kind: Kind, batchSize: nat)
    requires batchSize >= 1
    ensures Handled(After(events, kind, batchSize), After(events + [e], kind, batchSize), e, kind, batchSize)
  {
    ConservedInEveryRun(events, kind, batchSize);
    OneMoreEvent(events, e, kind, batchSize);
  }

  // After a run that ends in a tick nothing is left in the buffer: the batches are
  // all consumed updates, and if they are agreeable, the table is as if these had
  // been written one by one.
  lemma TickFlushesAll(events: seq<Event>, kind: Kind, batchSize: nat, start: Table, t: Table)
    requires batchSize >= 1 && events != [] && events[|events| - 1] == Tick
    ensures var s := After(events, kind, batchSize);
            && s.buffer == [] && Concat(s.batches) == Consumed(events, kind)
            && (Wrote(start, s.batches, t) && (forall b :: b in s.batches ==> Agreeable(b)) ==>
                  t == OneByOne(start, Consumed(events, kind)))
  {
    var n := |events| - 1;
    var s := After(events, kind, batchSize);
    assert events == events[..n] + [Tick];
    HandledExactly(events[..n], Tick, kind, batchSize);
    ConservedInEveryRun(events, kind, batchSize);
    assert Concat(s.batches) + [] == Concat(s.batches);
    if Wrote(start, s.batches, t) && forall b :: b in s.batches ==> Agreeable(b) {
      WroteInSequence(start, s.batches, t);
    }
  }

  // Without ticks every batch is full.
  lemma {:induction false} FullBatchesWithoutTicks(events: seq<Event>, kind: Kind, batchSize: nat)
    requires batchSize >= 1 && Tick !in events
    ensures forall b :: b in After(events, kind, batchSize).batches ==> |b| == batchSize
  {
    if events != [] {
      var n := |events| - 1;
      assert events == events[..n] + [events[n]];
      FullBatchesWithoutTicks(events[..n], kind, batchSize);
      HandledExactly(events[..n], events[n], kind, batchSize);
      ConservedInEveryRun(events[..n], kind, batchSize);
    }
  }

  // ----- The rows after every run -----

  // t can result from writing the batches to start.
  ghost predicate Wrote(start: Table, batches: seq<seq<Update>>, t: Table) {
    if batches == [] then t == start
    else
      var n := |batches| - 1;
      exists m, order ::
        Wrote(start, batches[..n], m) && IsListing(order, KeysOf(batches[n])) && t == Batched(m, batches[n], order)
  }

  lemma {:induction false} WroteInSequence(start: Table, batches: seq<seq<Update>>, t: Table)
    requires Wrote(start, batches, t)
    requires forall b :: b in batches ==> Agreeable(b)
    ensures t == OneByOne(start, Concat(batches))
  {
    if batches != [] {
      var n := |batches| - 1;
      var m, order :|
        Wrote(start, batches[..n], m) && IsListing(order, KeysOf(batches[n])) && t == Batched(m, batches[n], order);
      WroteInSequence(start, batches[..n], m);
      BatchIsSequence(m, batches[n], order);
      OneByOneConcat(start, Concat(batches[..n]), batches[n]);
    }
  }

  // In every run whose batches are agreeable, the rows are such that writing
  // the buffered updates to them one by one gives the rows of all consumed
  // updates written one by one.
  lemma RowsInEveryRun(events: seq<Event>, kind: Kind, batchSize: nat, start: Table, t: Table)
    requires batchSize >= 1
    requires Wrote(start, After(events, kind, batchSize).batches, t)
    requires forall b :: b in After(events, kind, batchSize).batches ==> Agreeable(b)
    ensures OneByOne(t, After(events, kind, batchSize).buffer) == OneByOne(start, Consumed(events, kind))
  {
    var s := After(events, kind, batchSize);
    ConservedInEveryRun(events, kind, batchSize);
    WroteInSequence(start, s.batches, t);
    OneByOneConcat(start, Concat(s.batches), s.buffer);
  }

  lemma WroteOneMore(start: Table, batches: seq<seq<Update>>, m: Table, updates: seq<Update>, order: seq<string>)
    requires Wrote(start, batches, m) && IsListing(order, KeysOf(updates))
    ensures Wrote(start, batches + [updates], Batched(m, updates, order))
  {
    var all := batches + [updates];
    var n := |all| - 1;
    assert all[..n] == batches && all[n] == updates;
    assert Wrote(start, all[..n], m) && IsListing(order, KeysOf(all[n]));
    assert Batched(m, updates, order) == Batched(m, all[n], order);
  }

  // ----- The loop as the program runs it -----

  // The buffer for one kind of update and the table it is flushed to.
  class UpdateBuffer {
    const target: StatusTable
    var updates: seq<Update>
    ghost var batches: seq<seq<Update>>
    ghost const start: Table

    ghost function Snapshot(): Stage
      reads this
    {
      Stage(updates, batches)
    }

    ghost predicate Valid()
      reads this, target
    {
      Wrote(start, batches, target.table)
    }

    constructor (table: StatusTable)
      ensures Valid() && target == table && start == table.table && Snapshot() == Stage([], [])
    {
      target, updates, batches, start := table, [], [], table.table;
    }

    method Append(update: Update)
      requires Valid()
      modifies this
      ensures Valid() && Snapshot() == Appended(old(Snapshot()), update)
    {
      updates := updates + [update];
    }

    method FlushIfFull(batchSize: nat)
      requires Valid()
      modifies this, target
      ensures Valid() && Snapshot() == FlushedIfFull(old(Snapshot()), batchSize)
    {
      if |updates| >= batchSize {
        Flush();
      }
    }

    method Flush()
      requires Valid()
      modifies this, target
      ensures Valid() && Snapshot() == Flushed(old(Snapshot()))
    {
      if |updates| > 0 {
        ghost var order := target.BatchUpdateStatus(updates);
        WroteOneMore(start, batches, old(target.table), updates, order);
        batches := batches + [updates];
        updates := [];
      }
    }
  }

  class BatchUpdateProcessor {
    const batchSize: nat
    const commandHosts: UpdateBuffer
    const commands: UpdateBuffer
    // The events so far.
    ghost var events: seq<Event>

    ghost predicate Valid()
      reads this, commandHosts, commands, commandHosts.target, commands.target
    {
      && commandHosts != commands && commandHosts.target != commands.target
      && commandHosts.Valid() && commands.Valid()
      && commandHosts.Snapshot() == After(events, ForCommandHosts, batchSize)
      && commands.Snapshot() == After(events, ForCommands, batchSize)
    }

    constructor (hostTable: StatusTable, commandTable: StatusTable, size: nat)
      requires hostTable != commandTable
      ensures Valid() && fresh(commandHosts) && fresh(commands) && events == [] && batchSize == size
      ensures commandHosts.target == hostTable && commands.target == commandTable
    {
      batchSize, events := size, [];
      commandHosts := new UpdateBuffer(hostTable);
      commands := new UpdateBuffer(commandTable);
    }

    // A tick empties both buffers, each into a batch if it is not empty. A queued
    // update joins the buffer of its kind, which is flushed when full.
    method Handle(event: Event)
      requires Valid()
      modifies this, commandHosts, commands, commandHosts.target, commands.target
      ensures Valid() && events == old(events) + [event]
      ensures event.Tick? ==> commandHosts.updates == [] && commands.updates == []
      ensures batchSize >= 1 ==>
                Handled(old(commandHosts.Snapshot()), commandHosts.Snapshot(), event, ForCommandHosts, batchSize)
                && Handled(old(commands.Snapshot()), commands.Snapshot(), event, ForCommands, batchSize)
    {
      if batchSize >= 1 {
        HandledExactly(events, event, ForCommandHosts, batchSize);
        HandledExactly(events, event, ForCommands, batchSize);
      }
      OneMoreEvent(events, event, ForCommandHosts, batchSize);
      OneMoreEvent(events, event, ForCommands, batchSize);
      events := events + [event];
      if event == Tick {
        commandHosts.Flush();
        commands.Flush();
      } else {
        match event {
          case Queued(ForCommandHosts, u) => commandHosts.Append(u);
          case Queued(ForCommands, u) => commands.Append(u);
          case Unknown =>
        }
        commandHosts.FlushIfFull(batchSize);
        commands.FlushIfFull(batchSize);
      }
    }
  }

  lemma OneMoreEvent(events: seq<Event>, e: Event, kind: Kind, batchSize: nat)
    ensures After(events + [e], kind, batchSize) == Next(After(events, kind, batchSize), e, kind, batchSize)
  {
    assert (events + [e])[..|events|] == events;
  }

}
