// Status updates written in batches: the updates are grouped by a string key
// and each group is written by one statement, in the map's iteration order.
// When does that leave the same rows as writing the updates one by one?
module BatchWrites {
  import opened Common
  import opened Statuses

  datatype Update = Update(
    commandId: string,
    status: string,
    finishedAt: Option<int>,
    error: string,
    exitCode: Option<int>,
    executionTime: Option<int>)

  // The columns a batch may write. The command table has no ExecutionTime.
  datatype Column = Status | FinishedAt | ErrorText | ExitCode | ExecutionTime
  datatype Value = Text(text: string) | Number(number: int)
  type Fields = map<Column, Value>

  // A row; a column that is NULL is absent.
  datatype Record = Record(commandId: string, columns: Fields)
  type Table = map<nat, Record>

  // Which columns an update sets. An unset time or number and an empty error
  // text leave their columns alone.
  predicate Sets(u: Update, c: Column) {
    match c
    case Status => true
    case FinishedAt => u.finishedAt.Some?
    case ErrorText => u.error != ""
    case ExitCode => u.exitCode.Some?
    case ExecutionTime => u.executionTime.Some?
  }

  function ValueOf(u: Update, c: Column): Value
    requires Sets(u, c)
  {
    match c
    case Status => Text(u.status)
    case FinishedAt => Number(u.finishedAt.value)
    case ErrorText => Text(u.error)
    case ExitCode => Number(u.exitCode.value)
    case ExecutionTime => Number(u.executionTime.value)
  }

  function FieldsOf(u: Update): Fields {
    map c: Column | Sets(u, c) :: ValueOf(u, c)
  }

  function Key(u: Update): string {
    u.status + "_" + u.error
  }

  function UpdateWhere(table: Table, ids: set<string>, fields: Fields): Table {
    map k | k in table ::
      if table[k].commandId in ids then Record(table[k].commandId, table[k].columns + fields) else table[k]
  }

  // ----- The simple form: one update after another -----

  function OneByOne(table: Table, updates: seq<Update>): Table {
    if updates == [] then table
    else
      var n := |updates| - 1;
      UpdateWhere(OneByOne(table, updates[..n]), {updates[n].commandId}, FieldsOf(updates[n]))
  }

  lemma OneByOneSnoc(table: Table, updates: seq<Update>, u: Update)
    ensures OneByOne(table, updates + [u]) == UpdateWhere(OneByOne(table, updates), {u.commandId}, FieldsOf(u))
  {
    assert (updates + [u])[..|updates|] == updates;
  }

  lemma {:induction false} OneByOneConcat(table: Table, a: seq<Update>, b: seq<Update>)
    ensures OneByOne(table, a + b) == OneByOne(OneByOne(table, a), b)
  {
    if b == [] {
      assert a + b == a;
    } else {
      var n := |b| - 1;
      OneByOneConcat(table, a, b[..n]);
      OneByOneSnoc(table, a + b[..n], b[n]);
      OneByOneSnoc(OneByOne(table, a), b[..n], b[n]);
      assert a + b == a + b[..n] + [b[n]];
      assert b == b[..n] + [b[n]];
    }
  }

  // The last update of the command that sets the column is the one at j.
  ghost predicate LastSetter(updates: seq<Update>, id: string, c: Column, j: nat) {
    && j < |updates| && updates[j].commandId == id && Sets(updates[j], c)
    && forall i :: j < i < |updates| && updates[i].commandId == id ==> !Sets(updates[i], c)
  }

  // One more update writes the columns it sets, in its command's rows only.
  lemma OneMoreWrite(table: Table, u: Update, k: nat, c: Column)
    requires k in table
    ensures var t := UpdateWhere(table, {u.commandId}, FieldsOf(u));
            && k in t && t[k].commandId == table[k].commandId
            && if table[k].commandId == u.commandId && Sets(u, c)
               then c in t[k].columns && t[k].columns[c] == ValueOf(u, c)
               else SameColumn(table[k], t[k], c)
  {}

  ghost predicate SameColumn(a: Record, b: Record, c: Column) {
    (c in a.columns <==> c in b.columns) && (c in a.columns ==> b.columns[c] == a.columns[c])
  }

  // What writing updates one by one means: a column that no update of the row's
  // command sets stays as it is.
  lemma {:induction false} UnsetColumnStays(table: Table, updates: seq<Update>, k: nat, c: Column)
    requires k in table
    requires forall i :: 0 <= i < |updates| && updates[i].commandId == table[k].commandId ==> !Sets(updates[i], c)
    ensures var t := OneByOne(table, updates);
            k in t && t[k].commandId == table[k].commandId && SameColumn(table[k], t[k], c)
  {
    if updates != [] {
      var n := |updates| - 1;
      UnsetColumnStays(table, updates[..n], k, c);
      OneMoreWrite(OneByOne(table, updates[..n]), updates[n], k, c);
    }
  }

  lemma {:induction false} RowsStay(table: Table, updates: seq<Update>, k: nat)
    requires k in table
    ensures k in OneByOne(table, updates) && OneByOne(table, updates)[k].commandId == table[k].commandId
  {
    if updates != [] {
      RowsStay(table, updates[..|updates| - 1], k);
    }
  }

  // Any other column has the value of the last such update.
  lemma {:induction false} LastWriteWins(table: Table, updates: seq<Update>, k: nat, c: Column, j: nat)
    requires k in table && LastSetter(updates, table[k].commandId, c, j)
    ensures var t := OneByOne(table, updates);
            k in t && c in t[k].columns && t[k].columns[c] == ValueOf(updates[j], c)
  {
    var n := |updates| - 1;
    RowsStay(table, updates[..n], k);
    OneMoreWrite(OneByOne(table, updates[..n]), updates[n], k, c);
    if j < n {
      LastWriteWins(table, updates[..n], k, c, j);
    }
  }

  // ----- The batched form -----

  function KeysOf(updates: seq<Update>): set<string> {
    set u | u in updates :: Key(u)
  }

  function IdsWith(updates: seq<Update>, key: string): set<string> {
    set u | u in updates && Key(u) == key :: u.commandId
  }

  // The update whose fields a group writes: its last member.
  function LastWith(updates: seq<Update>, key: string): (u: Update)
    requires key in KeysOf(updates)
    ensures u in updates && Key(u) == key
  {
    var n := |updates| - 1;
    if Key(updates[n]) == key then updates[n]
    else
      assert updates == updates[..n] + [updates[n]];
      LastWith(updates[..n], key)
  }

  function GroupFields(updates: seq<Update>, key: string): Fields {
    if key in KeysOf(updates) then FieldsOf(LastWith(updates, key)) else map[]
  }

  function Batched(table: Table, updates: seq<Update>, order: seq<string>): Table {
    if order == [] then table
    else
      var n := |order| - 1;
      UpdateWhere(Batched(table, updates, order[..n]), IdsWith(updates, order[n]), GroupFields(updates, order[n]))
  }

  // A group is known by its key, and what it writes are the fields of the last
  // update with that key.
  ghost predicate LastOfGroup(updates: seq<Update>, key: string, j: nat) {
    j < |updates| && Key(updates[j]) == key && forall i :: j < i < |updates| ==> Key(updates[i]) != key
  }

  lemma {:induction false} LastWithIsLast(updates: seq<Update>, key: string, j: nat)
    requires LastOfGroup(updates, key, j)
    ensures key in KeysOf(updates) && LastWith(updates, key) == updates[j]
  {
    assert updates[j] in updates;
    var n := |updates| - 1;
    if j < n {
      LastWithIsLast(updates[..n], key, j);
    }
  }

  // The group written at position p of the order holds the command, and its last
  // update, the one at j, sets the column; no later group does both.
  ghost predicate LastGroup(updates: seq<Update>, order: seq<string>, id: string, c: Column, p: nat, j: nat) {
    && p < |order| && LastOfGroup(updates, order[p], j) && Sets(updates[j], c) && HoldsId(updates, order[p], id)
    && forall q: nat, i: nat ::
         p < q < |order| && HoldsId(updates, order[q], id) && LastOfGroup(updates, order[q], i) ==>
           !Sets(updates[i], c)
  }

  ghost predicate HoldsId(updates: seq<Update>, key: string, id: string) {
    exists u :: u in updates && Key(u) == key && u.commandId == id
  }

  lemma GroupWrites(updates: seq<Update>, key: string, j: nat, c: Column)
    requires LastOfGroup(updates, key, j)
    ensures c in GroupFields(updates, key) <==> Sets(updates[j], c)
    ensures Sets(updates[j], c) ==> GroupFields(updates, key)[c] == ValueOf(updates[j], c)
  {
    LastWithIsLast(updates, key, j);
  }

  lemma {:induction false} SomeLast(updates: seq<Update>, key: string) returns (j: nat)
    requires key in KeysOf(updates)
    ensures LastOfGroup(updates, key, j)
  {
    var n := |updates| - 1;
    if Key(updates[n]) == key {
      j := n;
    } else {
      assert updates == updates[..n] + [updates[n]];
      j := SomeLast(updates[..n], key);
    }
  }

  lemma {:induction false} BatchKeepsRows(table: Table, updates: seq<Update>, order: seq<string>, k: nat)
    requires k in table
    ensures k in Batched(table, updates, order) && Batched(table, updates, order)[k].commandId == table[k].commandId
  {
    if order != [] {
      BatchKeepsRows(table, updates, order[..|order| - 1], k);
    }
  }

  // In a batch a column of a row ends up with the value of the last update of the
  // last written group that holds the row's command and sets the column.
  lemma {:induction false} LastGroupWins(table: Table, updates: seq<Update>, order: seq<string>, k: nat, c: Column,
                                         p: nat, j: nat)
    requires k in table && LastGroup(updates, order, table[k].commandId, c, p, j)
    ensures var t := Batched(table, updates, order);
            k in t && c in t[k].columns && t[k].columns[c] == ValueOf(updates[j], c)
  {
    var n := |order| - 1;
    var id := table[k].commandId;
    BatchKeepsRows(table, updates, order[..n], k);
    if p == n {
      GroupWrites(updates, order[n], j, c);
    } else {
      LastGroupWins(table, updates, order[..n], k, c, p, j);
      if HoldsId(updates, order[n], id) {
        var i := SomeLast(updates, order[n]);
        GroupWrites(updates, order[n], i, c);
      }
    }
  }

  // ----- What both forms do to one row -----

  ghost function Effect(updates: seq<Update>, id: string): Fields {
    if updates == [] then map[]
    else
      var n := |updates| - 1;
      Effect(updates[..n], id) + (if updates[n].commandId == id then FieldsOf(updates[n]) else map[])
  }

  ghost function GroupEffect(updates: seq<Update>, order: seq<string>, id: string): Fields {
    if order == [] then map[]
    else
      var n := |order| - 1;
      GroupEffect(updates, order[..n], id)
      + (if id in IdsWith(updates, order[n]) then GroupFields(updates, order[n]) else map[])
  }

  // One more statement on a row, as one more term of its effect.
  lemma OneMoreTerm(columns: Fields, e: Fields, hit: bool, f: Fields)
    ensures columns + (e + (if hit then f else map[])) == if hit then (columns + e) + f else columns + e
  {
    if hit {
      assert columns + (e + f) == (columns + e) + f;
    } else {
      assert e + map[] == e;
    }
  }

  lemma {:induction false} OneByOneRow(table: Table, updates: seq<Update>, k: nat)
    requires k in table
    ensures var t := OneByOne(table, updates);
            t.Keys == table.Keys
            && t[k] == Record(table[k].commandId, table[k].columns + Effect(updates, table[k].commandId))
  {
    if updates == [] {
      assert table[k].columns + map[] == table[k].columns;
    } else {
      var n := |updates| - 1;
      var id := table[k].commandId;
      OneByOneRow(table, updates[..n], k);
      OneMoreTerm(table[k].columns, Effect(updates[..n], id), updates[n].commandId == id, FieldsOf(updates[n]));
    }
  }

  lemma {:induction false} BatchedRow(table: Table, updates: seq<Update>, order: seq<string>, k: nat)
    requires k in table
    ensures var t := Batched(table, updates, order);
            t.Keys == table.Keys
            && t[k] == Record(table[k].commandId, table[k].columns + GroupEffect(updates, order, table[k].commandId))
  {
    if order == [] {
      assert table[k].columns + map[] == table[k].columns;
    } else {
      var n := |order| - 1;
      var id := table[k].commandId;
      BatchedRow(table, updates, order[..n], k);
      OneMoreTerm(table[k].columns, GroupEffect(updates, order[..n], id),
                  id in IdsWith(updates, order[n]), GroupFields(updates, order[n]));
    }
  }

  // ----- Which columns the groups write -----

  ghost predicate Within(a: Fields, b: Fields) {
    forall c :: c in a ==> c in b && b[c] == a[c]
  }

  // Every column of b is written by a group that contains the command.
  ghost predicate Brought(updates: seq<Update>, id: string, b: Fields) {
    forall c :: c in b ==> exists u :: u in updates && u.commandId == id && c in GroupFields(updates, Key(u))
  }

  // What a command's groups write is what its own updates leave: each group
  // writes nothing else, and together they write all of it.
  ghost predicate Agreeable(updates: seq<Update>) {
    forall u :: u in updates ==>
      && Within(GroupFields(updates, Key(u)), Effect(updates, u.commandId))
      && Brought(updates, u.commandId, Effect(updates, u.commandId))
  }

  lemma {:induction false} GroupsWriteWithin(updates: seq<Update>, order: seq<string>, id: string, e: Fields)
    requires forall u :: u in updates && u.commandId == id ==> Within(GroupFields(updates, Key(u)), e)
    ensures Within(GroupEffect(updates, order, id), e)
  {
    if order != [] {
      GroupsWriteWithin(updates, order[..|order| - 1], id, e);
    }
  }

  lemma {:induction false} GroupsWriteAll(updates: seq<Update>, order: seq<string>, u: Update)
    requires u in updates && Key(u) in order
    ensures GroupFields(updates, Key(u)).Keys <= GroupEffect(updates, order, u.commandId).Keys
  {
    var n := |order| - 1;
    if order[n] != Key(u) {
      assert order == order[..n] + [order[n]];
      GroupsWriteAll(updates, order[..n], u);
    }
  }

  lemma {:induction false} GroupsWriteOnly(updates: seq<Update>, order: seq<string>, id: string)
    ensures Brought(updates, id, GroupEffect(updates, order, id))
  {
    if order != [] {
      var n := |order| - 1;
      GroupsWriteOnly(updates, order[..n], id);
      if id in IdsWith(updates, order[n]) {
        var u :| u in updates && Key(u) == order[n] && u.commandId == id;
      }
    }
  }

  lemma {:induction false} NoEffect(updates: seq<Update>, id: string)
    requires forall u :: u in updates ==> u.commandId != id
    ensures Effect(updates, id) == map[]
  {
    if updates != [] {
      NoEffect(updates[..|updates| - 1], id);
    }
  }

  lemma EqualFields(a: Fields, b: Fields)
    requires Within(a, b) && b.Keys <= a.Keys
    ensures a == b
  {}

  lemma BroughtIsWritten(updates: seq<Update>, order: seq<string>, id: string, e: Fields)
    requires Brought(updates, id, e) && IsListing(order, KeysOf(updates))
    ensures e.Keys <= GroupEffect(updates, order, id).Keys
  {
    forall c | c in e ensures c in GroupEffect(updates, order, id) {
      var w :| w in updates && w.commandId == id && c in GroupFields(updates, Key(w));
      GroupsWriteAll(updates, order, w);
    }
  }

  lemma EffectsAgree(updates: seq<Update>, order: seq<string>, id: string)
    requires Agreeable(updates) && IsListing(order, KeysOf(updates))
    ensures GroupEffect(updates, order, id) == Effect(updates, id)
  {
    GroupsWriteWithin(updates, order, id, Effect(updates, id));
    if u :| u in updates && u.commandId == id {
      assert Brought(updates, id, Effect(updates, id));
    } else {
      NoEffect(updates, id);
    }
    BroughtIsWritten(updates, order, id, Effect(updates, id));
    EqualFields(GroupEffect(updates, order, id), Effect(updates, id));
  }

  lemma LastGroupStays(updates: seq<Update>, order: seq<string>, u: Update)
    requires u in updates && order != [] && order[|order| - 1] == Key(u)
    ensures Within(GroupFields(updates, Key(u)), GroupEffect(updates, order, u.commandId))
  {
    assert u.commandId in IdsWith(updates, Key(u));
  }

  // ----- Iteration orders -----

  lemma OrderOf(keys: set<string>) returns (order: seq<string>)
    ensures IsListing(order, keys)
    decreases |keys|
  {
    if keys == {} {
      order := [];
    } else {
      var k :| k in keys;
      order := OrderEndingWith(keys, k);
    }
  }

  lemma OrderEndingWith(keys: set<string>, k: string) returns (order: seq<string>)
    requires k in keys
    ensures IsListing(order, keys) && order != [] && order[|order| - 1] == k
    decreases |keys|, 0
  {
    var rest := OrderOf(keys - {k});
    order := rest + [k];
  }

  // ----- The main theorem -----

  ghost predicate AlwaysSameRows(updates: seq<Update>) {
    forall table: Table, order: seq<string> :: IsListing(order, KeysOf(updates)) ==>
      Batched(table, updates, order) == OneByOne(table, updates)
  }

  // A batch leaves the rows that its updates leave one by one, whatever the
  // rows were and in whatever order the groups are written, exactly when the
  // updates are agreeable.
  lemma BatchIsSequenceExactly(updates: seq<Update>)
    ensures AlwaysSameRows(updates) <==> Agreeable(updates)
  {
    if Agreeable(updates) {
      forall table: Table, order: seq<string> | IsListing(order, KeysOf(updates))
        ensures Batched(table, updates, order) == OneByOne(table, updates)
      {
        BatchIsSequence(table, updates, order);
      }
    }
    if AlwaysSameRows(updates) {
      forall u | u in updates
        ensures Within(GroupFields(updates, Key(u)), Effect(updates, u.commandId))
        ensures Brought(updates, u.commandId, Effect(updates, u.commandId))
      {
        var order := OrderEndingWith(KeysOf(updates), Key(u));
        var table := OnEmptyRow(updates, order, u.commandId);
        assert Batched(table, updates, order) == OneByOne(table, updates);
        GroupsWriteOnly(updates, order, u.commandId);
        LastGroupStays(updates, order, u);
      }
    }
  }

  lemma BatchIsSequence(table: Table, updates: seq<Update>, order: seq<string>)
    requires Agreeable(updates) && IsListing(order, KeysOf(updates))
    ensures Batched(table, updates, order) == OneByOne(table, updates)
  {
    OneByOneKeys(table, updates);
    BatchedKeys(table, updates, order);
    forall k | k in table ensures Batched(table, updates, order)[k] == OneByOne(table, updates)[k] {
      OneByOneRow(table, updates, k);
      BatchedRow(table, updates, order, k);
      EffectsAgree(updates, order, table[k].commandId);
    }
  }

  lemma {:induction false} OneByOneKeys(table: Table, updates: seq<Update>)
    ensures OneByOne(table, updates).Keys == table.Keys
  {
    if updates != [] {
      OneByOneKeys(table, updates[..|updates| - 1]);
    }
  }

  lemma {:induction false} BatchedKeys(table: Table, updates: seq<Update>, order: seq<string>)
    ensures Batched(table, updates, order).Keys == table.Keys
  {
    if order != [] {
      BatchedKeys(table, updates, order[..|order| - 1]);
    }
  }

  // A row without columns shows the effects of the two forms.
  function EmptyRow(id: string): Table {
    map[0 := Record(id, map[])]
  }

  lemma OnEmptyRowOneByOne(updates: seq<Update>, id: string)
    ensures 0 in OneByOne(EmptyRow(id), updates)
    ensures OneByOne(EmptyRow(id), updates)[0].columns == Effect(updates, id)
  {
    OneByOneRow(EmptyRow(id), updates, 0);
    assert map[] + Effect(updates, id) == Effect(updates, id);
  }

  lemma OnEmptyRowBatched(updates: seq<Update>, order: seq<string>, id: string)
    ensures 0 in Batched(EmptyRow(id), updates, order)
    ensures Batched(EmptyRow(id), updates, order)[0].columns == GroupEffect(updates, order, id)
  {
    BatchedRow(EmptyRow(id), updates, order, 0);
    assert map[] + GroupEffect(updates, order, id) == GroupEffect(updates, order, id);
  }

  lemma OnEmptyRow(updates: seq<Update>, order: seq<string>, id: string) returns (table: Table)
    ensures 0 in Batched(table, updates, order) && 0 in OneByOne(table, updates)
    ensures Batched(table, updates, order)[0].columns == GroupEffect(updates, order, id)
    ensures OneByOne(table, updates)[0].columns == Effect(updates, id)
  {
    table := EmptyRow(id);
    OnEmptyRowOneByOne(updates, id);
    OnEmptyRowBatched(updates, order, id);
  }

  // ----- Keys -----

  // Status and error message can be read off the key, because no status
  // contains the separator.
  lemma KeysDifferExactly(u: Update, w: Update)
    requires '_' !in u.status && '_' !in w.status
    ensures Key(u) == Key(w) <==> u.status == w.status && u.error == w.error
  {
    if Key(u) == Key(w) {
      FirstSeparator(u.status, u.error, w.status, w.error);
      FirstSeparator(w.status, w.error, u.status, u.error);
      var m := |u.status|;
      assert Key(u)[..m] == u.status && Key(w)[..m] == w.status;
      assert Key(u)[m + 1..] == u.error && Key(w)[m + 1..] == w.error;
    }
  }

  lemma FirstSeparator(a: string, x: string, b: string, y: string)
    requires '_' !in a && a + "_" + x == b + "_" + y
    ensures |a| <= |b|
  {
    assert (b + "_" + y)[|b|] == '_';
    assert forall i :: 0 <= i < |a| ==> (a + "_" + x)[i] == a[i];
  }

  // Two statuses can share a group, whatever keeps them apart, exactly if one of
  // them is the beginning of the other up to a separator.
  lemma StatusesCollideExactly(a: string, b: string)
    requires a != b
    ensures (exists x: string, y: string :: a + "_" + x == b + "_" + y) <==> a + "_" <= b || b + "_" <= a
  {
    if a + "_" <= b {
      assert a + "_" + (b[|a| + 1..] + "_") == b + "_" + "";
    }
    if b + "_" <= a {
      assert a + "_" + "" == b + "_" + (a[|b| + 1..] + "_");
    }
    if x, y :| a + "_" + x == b + "_" + y {
      var k := a + "_" + x;
      assert k[..|a|] == a && k[..|b|] == b;
      if |a| < |b| {
        assert k[..|a| + 1] == a + "_" && k[..|a| + 1] == b[..|a| + 1];
      } else if |b| < |a| {
        assert k[..|b| + 1] == b + "_" && k[..|b| + 1] == a[..|b| + 1];
      }
    }
  }

  // ----- Updates of different commands -----

  ghost predicate NoRepeats(updates: seq<Update>) {
    forall i, j :: 0 <= i < j < |updates| ==> updates[i].commandId != updates[j].commandId
  }

  ghost predicate PlainStatuses(updates: seq<Update>) {
    forall u :: u in updates ==> '_' !in u.status
  }

  // The program writes the names of statuses, or no status at all.
  ghost predicate NamedStatuses(updates: seq<Update>) {
    forall u :: u in updates ==>
      u.status == "" || (exists h :: u.status == HostStatusName(h)) || (exists c :: u.status == CommandStatusName(c))
  }

  lemma NamesArePlain(h: HostStatus, c: CommandStatus)
    ensures '_' !in HostStatusName(h) && '_' !in CommandStatusName(c)
  {
    assert '_' !in HostStatusName(h) by {
      match h
      case HostPending =>
      case HostRunning =>
      case HostFailed =>
      case HostExecFailed =>
      case HostTimeout =>
      case HostCanceled =>
      case HostCompleted =>
    }
  }

  // So no two groups of its updates are mixed up: the key tells status and error.
  lemma NamedStatusesArePlain(updates: seq<Update>)
    requires NamedStatuses(updates)
    ensures PlainStatuses(updates)
    ensures forall u, w :: u in updates && w in updates ==>
              (Key(u) == Key(w) <==> u.status == w.status && u.error == w.error)
  {
    forall u | u in updates ensures '_' !in u.status {
      if h :| u.status == HostStatusName(h) {
        NamesArePlain(h, CommandPending);
      } else if c :| u.status == CommandStatusName(c) {
        NamesArePlain(HostPending, c);
      }
    }
    forall u, w | u in updates && w in updates
      ensures Key(u) == Key(w) <==> u.status == w.status && u.error == w.error
    {
      KeysDifferExactly(u, w);
    }
  }

  lemma {:induction false} OwnEffect(updates: seq<Update>, u: Update)
    requires NoRepeats(updates) && u in updates
    ensures Effect(updates, u.commandId) == FieldsOf(u)
  {
    var n := |updates| - 1;
    assert updates == updates[..n] + [updates[n]];
    if u == updates[n] {
      NoEffect(updates[..n], u.commandId);
    } else {
      OwnEffect(updates[..n], u);
    }
  }

  lemma SameFields(u: Update, w: Update)
    ensures FieldsOf(u) == FieldsOf(w) <==> u.(commandId := w.commandId) == w
  {
    if FieldsOf(u) == FieldsOf(w) {
      assert FieldsOf(u)[Status] == FieldsOf(w)[Status];
      assert FinishedAt in FieldsOf(u) <==> FinishedAt in FieldsOf(w);
      assert ErrorText in FieldsOf(u) <==> ErrorText in FieldsOf(w);
      assert ExitCode in FieldsOf(u) <==> ExitCode in FieldsOf(w);
      assert ExecutionTime in FieldsOf(u) <==> ExecutionTime in FieldsOf(w);
    }
  }

  // If no command is updated twice, batching is safe exactly when updates that
  // share status and error message share all their other fields too.
  lemma BatchOfDifferentCommandsExactly(updates: seq<Update>)
    requires NoRepeats(updates) && PlainStatuses(updates)
    ensures AlwaysSameRows(updates) <==>
            forall u, w :: u in updates && w in updates && u.status == w.status && u.error == w.error ==>
              u.(commandId := w.commandId) == w
  {
    BatchIsSequenceExactly(updates);
    if Agreeable(updates) {
      forall u, w | u in updates && w in updates && u.status == w.status && u.error == w.error
        ensures u.(commandId := w.commandId) == w
      {
        GroupIsOwn(updates, u);
        GroupIsOwn(updates, w);
        SameFields(u, w);
      }
    }
    if forall u, w :: u in updates && w in updates && u.status == w.status && u.error == w.error ==>
         u.(commandId := w.commandId) == w
    {
      forall u | u in updates
        ensures Within(GroupFields(updates, Key(u)), Effect(updates, u.commandId))
        ensures Brought(updates, u.commandId, Effect(updates, u.commandId))
      {
        var w := LastWith(updates, Key(u));
        KeysDifferExactly(u, w);
        SameFields(u, w);
        OwnEffect(updates, u);
      }
    }
  }

  lemma GroupIsOwn(updates: seq<Update>, u: Update)
    requires NoRepeats(updates) && Agreeable(updates) && u in updates
    ensures GroupFields(updates, Key(u)) == FieldsOf(u)
  {
    OwnEffect(updates, u);
    OwnGroupBrings(updates, u, Effect(updates, u.commandId));
    EqualFields(GroupFields(updates, Key(u)), Effect(updates, u.commandId));
  }

  lemma OwnGroupBrings(updates: seq<Update>, u: Update, e: Fields)
    requires NoRepeats(updates) && u in updates && Brought(updates, u.commandId, e)
    ensures e.Keys <= GroupFields(updates, Key(u)).Keys
  {
    forall c | c in e ensures c in GroupFields(updates, Key(u)) {
      var w :| w in updates && w.commandId == u.commandId && c in GroupFields(updates, Key(w));
      SameCommandIsSame(updates, u, w);
    }
  }

  lemma SameCommandIsSame(updates: seq<Update>, u: Update, w: Update)
    requires NoRepeats(updates) && u in updates && w in updates && u.commandId == w.commandId
    ensures u == w
  {}

  // ----- The status column alone -----

  ghost predicate OneStatusEach(updates: seq<Update>) {
    forall u, w :: u in updates && w in updates && u.commandId == w.commandId ==> u.status == w.status
  }

  ghost predicate SameStatus(a: Fields, b: Fields) {
    (Status in a <==> Status in b) && (Status in a ==> a[Status] == b[Status])
  }

  ghost predicate SameStatuses(a: Table, b: Table) {
    a.Keys == b.Keys && forall k :: k in a ==> SameStatus(a[k].columns, b[k].columns)
  }

  ghost predicate AlwaysSameStatuses(updates: seq<Update>) {
    forall table: Table, order: seq<string> :: IsListing(order, KeysOf(updates)) ==>
      SameStatuses(Batched(table, updates, order), OneByOne(table, updates))
  }

  // The status column agrees for all rows and orders exactly when no command
  // is given two different statuses in one batch.
  lemma StatusColumnExactly(updates: seq<Update>)
    requires PlainStatuses(updates)
    ensures AlwaysSameStatuses(updates) <==> OneStatusEach(updates)
  {
    if OneStatusEach(updates) {
      forall table: Table, order: seq<string> | IsListing(order, KeysOf(updates))
        ensures SameStatuses(Batched(table, updates, order), OneByOne(table, updates))
      {
        StatusesAgree(table, updates, order);
      }
    }
    if AlwaysSameStatuses(updates) {
      forall u, w | u in updates && w in updates && u.commandId == w.commandId ensures u.status == w.status {
        StatusWrittenLast(updates, u);
        StatusWrittenLast(updates, w);
      }
    }
  }

  lemma GroupStatus(updates: seq<Update>, u: Update)
    requires PlainStatuses(updates) && u in updates
    ensures Status in GroupFields(updates, Key(u)) && GroupFields(updates, Key(u))[Status] == Text(u.status)
  {
    KeysDifferExactly(u, LastWith(updates, Key(u)));
  }

  lemma {:induction false} EffectStatus(updates: seq<Update>, id: string)
    ensures Status in Effect(updates, id) <==> exists u :: u in updates && u.commandId == id
    ensures Status in Effect(updates, id) ==>
              exists u :: u in updates && u.commandId == id && Effect(updates, id)[Status] == Text(u.status)
  {
    if updates != [] {
      var n := |updates| - 1;
      EffectStatus(updates[..n], id);
      assert updates[n] in updates;
    }
  }

  lemma {:induction false} GroupEffectStatus(updates: seq<Update>, order: seq<string>, id: string)
    requires PlainStatuses(updates)
    ensures Status in GroupEffect(updates, order, id) ==>
              exists u :: u in updates && u.commandId == id && GroupEffect(updates, order, id)[Status] == Text(u.status)
  {
    if order != [] {
      var n := |order| - 1;
      GroupEffectStatus(updates, order[..n], id);
      if id in IdsWith(updates, order[n]) {
        var u :| u in updates && Key(u) == order[n] && u.commandId == id;
        GroupStatus(updates, u);
      }
    }
  }

  lemma StatusesAgree(table: Table, updates: seq<Update>, order: seq<string>)
    requires PlainStatuses(updates) && OneStatusEach(updates) && IsListing(order, KeysOf(updates))
    ensures SameStatuses(Batched(table, updates, order), OneByOne(table, updates))
  {
    OneByOneKeys(table, updates);
    BatchedKeys(table, updates, order);
    forall k | k in table
      ensures SameStatus(Batched(table, updates, order)[k].columns, OneByOne(table, updates)[k].columns)
    {
      OneByOneRow(table, updates, k);
      BatchedRow(table, updates, order, k);
      StatusEffectsAgree(updates, order, table[k].commandId);
    }
  }

  lemma StatusEffectsAgree(updates: seq<Update>, order: seq<string>, id: string)
    requires PlainStatuses(updates) && OneStatusEach(updates) && IsListing(order, KeysOf(updates))
    ensures SameStatus(GroupEffect(updates, order, id), Effect(updates, id))
  {
    EffectStatus(updates, id);
    GroupEffectStatus(updates, order, id);
    if u :| u in updates && u.commandId == id {
      GroupStatus(updates, u);
      GroupsWriteAll(updates, order, u);
    }
  }

  // An order that writes u's group last leaves u's status.
  lemma StatusWrittenLast(updates: seq<Update>, u: Update)
    requires PlainStatuses(updates) && AlwaysSameStatuses(updates) && u in updates
    ensures Status in Effect(updates, u.commandId) && Effect(updates, u.commandId)[Status] == Text(u.status)
  {
    var order := OrderEndingWith(KeysOf(updates), Key(u));
    var table := OnEmptyRow(updates, order, u.commandId);
    assert SameStatuses(Batched(table, updates, order), OneByOne(table, updates));
    LastGroupStays(updates, order, u);
    GroupStatus(updates, u);
  }

}
