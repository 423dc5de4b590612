// The timeout sweep: when a command counts as timed out, and what a sweep does
// whatever the order in which it visits the late commands.
module Timeouts {
  import opened Common
  import opened Statuses
  import opened TaskStoreModel
  import opened LifecycleInvariants

  // ----- When a command is late -----

  // The largest number of seconds whose nanoseconds fit in 64 bits.
  const MAX_EXACT_TIMEOUT: int := 9_223_372_036

  lemma ProductExactly(timeout: int)
    requires 0 < timeout < TWO_63
    ensures Wrap64(timeout * NANOS) == timeout * NANOS <==> timeout <= MAX_EXACT_TIMEOUT
  {}

  // Up to that limit a command is timed out exactly when it has a positive
  // limit, has started, and has run longer than its limit.
  lemma TimedOutMeans(c: Command, now: int)
    requires c.timeout <= MAX_EXACT_TIMEOUT
    ensures IsTimedOut(c, now) <==>
            c.timeout > 0 && c.startedAt.Some? && now - c.startedAt.value > c.timeout * NANOS
  {}

  ghost predicate OutOfTime(c: Command, now: int)
    requires c.startedAt.Some?
  {
    now - c.startedAt.value > c.timeout * NANOS
  }

  // For a started command with any positive 64-bit limit, the check is right at
  // all times exactly when the limit is at most MAX_EXACT_TIMEOUT.
  lemma TimedOutExactly(c: Command)
    requires 0 < c.timeout < TWO_63 && c.startedAt.Some?
    ensures (forall now: int :: IsTimedOut(c, now) <==> OutOfTime(c, now)) <==> c.timeout <= MAX_EXACT_TIMEOUT
  {
    if c.timeout <= MAX_EXACT_TIMEOUT {
      forall now: int ensures IsTimedOut(c, now) <==> OutOfTime(c, now) {
        TimedOutMeans(c, now);
      }
    } else {
      var w := Wrap64(c.timeout * NANOS);
      NotTheLargest(c.timeout);
      var now := c.startedAt.value + if w < 0 then 0 else w + 1;
      assert IsTimedOut(c, now) && !OutOfTime(c, now);
    }
  }

  // An even product does not wrap to the largest 64-bit number.
  lemma NotTheLargest(timeout: int)
    ensures -TWO_63 <= Wrap64(timeout * NANOS) < TWO_63 - 1
  {
    var x := timeout * NANOS;
    assert x == 2 * (timeout * 500_000_000);
    var q := (x + TWO_63) / TWO_64;
    assert Wrap64(x) == x - q * TWO_64;
    assert Wrap64(x) == 2 * (timeout * 500_000_000 - q * TWO_63);
  }

  // Just beyond the limit the product wraps to a negative number, and a command
  // counts as timed out the moment it starts.
  lemma WrappedTimeout(c: Command, now: int)
    requires MAX_EXACT_TIMEOUT < c.timeout <= 2 * MAX_EXACT_TIMEOUT
    requires c.startedAt.Some? && now >= c.startedAt.value
    ensures IsTimedOut(c, now)
  {}

  lemma LateStaysLate(c: Command, now: int, later: int)
    requires now <= later
    ensures IsTimedOut(c, now) ==> IsTimedOut(c, later)
  {}

  // ----- The sweep -----

  ghost function RowsOfCommands(db: Db, commands: set<string>): set<nat> {
    set r | r in db.rows && db.rows[r].commandId in commands
  }

  // The commands and rows of d are those of db with the listed commands and
  // their rows timed out.
  ghost predicate TimesOut(db: Db, d: Db, listed: set<string>, now: int) {
    BothUpdated(db, d, listed, ToAt(CommandTimeout, now), ToAt(HostTimeout, now))
  }

  // The listed commands and their rows are updated, and nothing else.
  ghost predicate BothUpdated(db: Db, m: Db, listed: set<string>, pc: Patch<CommandStatus>, pr: Patch<HostStatus>) {
    && m.commands == UpdateCommands(db.commands, listed, pc)
    && m.rows == UpdateRows(db.rows, RowsOfCommands(db, listed), pr)
  }

  lemma BothStep(db: Db, m: Db, listed: set<string>, command: string, pc: Patch<CommandStatus>, pr: Patch<HostStatus>)
    requires BothUpdated(db, m, listed, pc, pr)
    ensures BothUpdated(db, SetBoth(m, {command}, pc, RowsOfCommand(m, command), pr), listed + {command}, pc, pr)
  {
    CommandsStep(db, m, listed, command, pc);
    RowsStep(db, m, listed, command, pr);
  }

  // Updating one more command, or one more command's rows.
  lemma CommandsStep(db: Db, m: Db, listed: set<string>, command: string, p: Patch<CommandStatus>)
    requires m.commands == UpdateCommands(db.commands, listed, p)
    ensures UpdateCommands(m.commands, {command}, p) == UpdateCommands(db.commands, listed + {command}, p)
  {}

  lemma RowsStep(db: Db, m: Db, listed: set<string>, command: string, p: Patch<HostStatus>)
    requires m.rows == UpdateRows(db.rows, RowsOfCommands(db, listed), p)
    ensures UpdateRows(m.rows, RowsOfCommand(m, command), p)
            == UpdateRows(db.rows, RowsOfCommands(db, listed + {command}), p)
  {}

  lemma TimeOutStep(db: Db, m: Db, listed: set<string>, command: string, order: seq<HostStatus>, now: int)
    requires Linked(m) && SameShape(db, m) && TimesOut(db, m, listed, now)
    requires command in db.commands
    ensures TimesOut(db, TimeOutOne(m, command, order, now), listed + {command}, now)
  {
    var s := SetBoth(m, {command}, ToAt(CommandTimeout, now), RowsOfCommand(m, command), ToAt(HostTimeout, now));
    SetBothShape(m, {command}, ToAt(CommandTimeout, now), RowsOfCommand(m, command), ToAt(HostTimeout, now));
    assert CanReport(m, command);
    CommandProgressShape(s, command, order, now);
    BothStep(db, m, listed, command, ToAt(CommandTimeout, now), ToAt(HostTimeout, now));
  }

  lemma {:induction false} SweepEffect(db: Db, late: seq<string>, orders: string -> seq<HostStatus>, now: int)
    requires Intact(db) && Elements(late) <= db.commands.Keys
    ensures TimesOut(db, TimeOutAll(db, late, orders, now), Elements(late), now)
  {
    if late == [] {
      assert UpdateCommands(db.commands, {}, ToAt(CommandTimeout, now)) == db.commands;
      assert UpdateRows(db.rows, {}, ToAt(HostTimeout, now)) == db.rows;
      assert Elements(late) == {} && RowsOfCommands(db, {}) == {};
    } else {
      var n := |late| - 1;
      ElementsSnoc(late, n);
      SweepEffect(db, late[..n], orders, now);
      TimeOutAllKeeps(db, late[..n], orders, now);
      TimeOutStep(db, TimeOutAll(db, late[..n], orders, now), Elements(late[..n]), late[n], orders(late[n]), now);
    }
  }

  // A sweep moves exactly the late commands and their rows to the timed-out
  // statuses, in whatever order it visits them, keeps the tables intact, and
  // leaves no late command behind.
  lemma SweepExactly(db: Db, late: seq<string>, orders: string -> seq<HostStatus>, now: int)
    requires Intact(db) && IsListing(late, LateCommands(db, now))
    ensures var d := TimeOutAll(db, late, orders, now);
            && Intact(d) && SameShape(db, d)
            && TimesOut(db, d, LateCommands(db, now), now)
            && LateCommands(d, now) == {}
  {
    assert Elements(late) == LateCommands(db, now);
    SweepEffect(db, late, orders, now);
    TimeOutAllKeeps(db, late, orders, now);
    NoneLeft(db, TimeOutAll(db, late, orders, now), now);
  }

  lemma NoneLeft(db: Db, d: Db, now: int)
    requires d.commands == UpdateCommands(db.commands, LateCommands(db, now), ToAt(CommandTimeout, now))
    ensures LateCommands(d, now) == {}
  {}

}
