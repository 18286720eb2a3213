/** The command-line driver's database commands: cog-name normalisation, the per-table loops of
    `db init`, `db migrate`, `db upgrade`, `db downgrade` and `db drop`, and the transaction that
    makes the batch commands all-or-nothing. The schema engine those loops call is outside the
    model: each of its calls is an abstract outcome supplied with the table it is made for. */
module Run {
  import opened Strings

  const CogPrefix := "cogs."

  /** A cog named on the command line, as a module path: `cogs.` is prefixed unless already there. */
  function NormaliseCog(name: string): (r: string)
    ensures StartsWith(r, CogPrefix)
    ensures StartsWith(name, CogPrefix) ==> r == name
    ensures !StartsWith(name, CogPrefix) ==> r == CogPrefix + name
  {
    if StartsWith(name, CogPrefix) then name else CogPrefix + name
  }

  lemma NormaliseCogIdempotent(name: string)
    ensures NormaliseCog(NormaliseCog(name)) == NormaliseCog(name)
  {
  }

  /** The extensions `db init` loads: the configured autoload list when no cog is named, the
      named cogs normalised otherwise. */
  function InitExtensions(cogs: seq<string>, autoload: seq<string>): (exts: seq<string>)
    ensures cogs == [] ==> exts == autoload
    ensures cogs != [] ==> |exts| == |cogs|
    ensures cogs != [] ==> forall i :: 0 <= i < |exts| ==> exts[i] == NormaliseCog(cogs[i])
    ensures cogs != [] ==> forall i :: 0 <= i < |exts| ==> StartsWith(exts[i], CogPrefix)
  {
    if cogs == [] then autoload else seq(|cogs|, i requires 0 <= i < |cogs| => NormaliseCog(cogs[i]))
  }

  /** A declared table: its name and the module that declares it. */
  datatype Table = Table(name: string, moduleName: string)

  /** Index of the first element of `s` that fails `ok` (`|s|` when every element passes). */
  function FirstFailing<T>(s: seq<T>, ok: T -> bool): (k: nat)
    ensures k <= |s|
    ensures forall i :: 0 <= i < k ==> ok(s[i])
    ensures k < |s| ==> !ok(s[k])
  {
    if s == [] then 0 else if ok(s[0]) then 1 + FirstFailing(s[1..], ok) else 0
  }

  /** The lines the commands echo. */
  datatype Line =
    | PoolUnavailable
    | CouldNotLoad(ext: string)
    | CouldNotLoadCog                      // `db migrate` names the exception, not the cog
    | CouldNotCreate(table: string)
    | CreatedTable(moduleName: string, table: string)
    | NoWorkNeeded(moduleName: string, table: string)
    | CouldNotMigrate(table: string, message: string)
    | MigrationsUpdated(table: string)
    | FoundNoChanges(table: string)
    | DoneMigrating(cog: string)
    | CouldNotDrop(table: string, message: string)
    | Dropped(table: string)
    | RemovedTables(cog: string)

  // ---------------------------------------------------------------------------------------------
  // The transaction

  datatype TxState = Created | Started | RolledBack | Committed

  /** A database transaction on one connection: started once, then rolled back or committed once. */
  class Transaction {
    var state: TxState

    constructor()
      ensures state == Created
    {
      state := Created;
    }

    method Start()
      requires state == Created
      modifies this
      ensures state == Started
    {
      state := Started;
    }

    method Rollback()
      requires state == Started
      modifies this
      ensures state == RolledBack
    {
      state := RolledBack;
    }

    method Commit()
      requires state == Started
      modifies this
      ensures state == Committed
    {
      state := Committed;
    }
  }

  /** What one engine call (`migrate` or `drop`) did: it completed, raised `RuntimeError`, or raised
      some other exception, which the batch loops do not catch. */
  datatype CallOutcome = Completed | Failed(message: string) | Raised(message: string)

  /** A table of the registry, in `Table.all_tables()` order, with the outcome of its call. */
  datatype TableRun = TableRun(table: Table, outcome: CallOutcome)

  predicate RunCompleted(t: TableRun)
  {
    t.outcome.Completed?
  }

  /** Index of the first table whose call did not complete. */
  function FirstFailure(batch: seq<TableRun>): (k: nat)
    ensures k <= |batch|
    ensures forall i :: 0 <= i < k ==> batch[i].outcome.Completed?
    ensures k < |batch| ==> !batch[k].outcome.Completed?
  {
    FirstFailing(batch, RunCompleted)
  }

  /** Number of calls a batch makes: every table up to and including the first that fails. */
  function CallsMade(batch: seq<TableRun>): (n: nat)
    ensures n <= |batch|
    ensures n == |batch| <==> FirstFailure(batch) == |batch| || FirstFailure(batch) == |batch| - 1
    ensures FirstFailure(batch) < |batch| ==> n == FirstFailure(batch) + 1
    ensures FirstFailure(batch) == |batch| ==> n == |batch|
  {
    var k := FirstFailure(batch);
    if k < |batch| then k + 1 else k
  }

  /** The final state of a batch's transaction: committed when every call completed, rolled back at
      a `RuntimeError`, left started when another exception escapes the loop. */
  function BatchState(batch: seq<TableRun>): (s: TxState)
    ensures s != Created
  {
    var k := FirstFailure(batch);
    if k == |batch| then Committed
    else if batch[k].outcome.Failed? then RolledBack
    else Started
  }

  /** All-or-nothing: the batch commits exactly when every table's call completes, and rolls back
      exactly when the first call that does not complete raises `RuntimeError`. */
  lemma BatchAllOrNothing(batch: seq<TableRun>)
    ensures BatchState(batch) == Committed <==> forall i :: 0 <= i < |batch| ==> batch[i].outcome.Completed?
    ensures BatchState(batch) == RolledBack <==>
              exists i :: (0 <= i < |batch| && batch[i].outcome.Failed?
                           && forall j :: 0 <= j < i ==> batch[j].outcome.Completed?)
  {
    var k := FirstFailure(batch);
    if k < |batch| && batch[k].outcome.Failed? {
      assert forall j :: 0 <= j < k ==> batch[j].outcome.Completed?;
    }
  }

  // ---------------------------------------------------------------------------------------------
  // db upgrade / db downgrade

  /** One `table.migrate(index=…, downgrade=…, verbose=…, connection=…)` call. */
  datatype MigrateCall = MigrateCall(table: string, index: int, downgrade: bool, verbose: bool, connection: int)

  /** `apply_migration`: opens the pool, loads the cog, then migrates every registered table in
      order on the one connection `con`, inside one transaction. `tx` is `None` when no transaction
      was opened. */
  method ApplyMigration(cog: string, quiet: bool, index: int, downgrade: bool, poolCreated: bool,
                        loadable: string -> bool, batch: seq<TableRun>, con: int)
    returns (tx: Option<TxState>, calls: seq<MigrateCall>, log: seq<Line>)
    ensures !poolCreated ==> tx == None && calls == [] && log == [PoolUnavailable]
    ensures poolCreated && !loadable(NormaliseCog(cog)) ==>
              tx == None && calls == [] && log == [CouldNotLoad(NormaliseCog(cog))]
    ensures poolCreated && loadable(NormaliseCog(cog)) ==> tx == Some(BatchState(batch))
    ensures poolCreated && loadable(NormaliseCog(cog)) ==> |calls| == CallsMade(batch)
    ensures forall i :: 0 <= i < |calls| ==>
              calls[i] == MigrateCall(batch[i].table.name, index, downgrade, !quiet, con)
    ensures poolCreated && loadable(NormaliseCog(cog)) ==>
              var k := FirstFailure(batch);
              log == if k < |batch| && batch[k].outcome.Failed?
                     then [CouldNotMigrate(batch[k].table.name, batch[k].outcome.message)] else []
  {
    if !poolCreated {
      return None, [], [PoolUnavailable];
    }
    var name := NormaliseCog(cog);
    if !loadable(name) {
      return None, [], [CouldNotLoad(name)];
    }
    var tr := new Transaction();
    tr.Start();
    calls, log := [], [];
    var failed := false;
    for i := 0 to |batch|
      invariant tr.state == Started && !failed && log == []
      invariant |calls| == i
      invariant forall j :: 0 <= j < i ==> batch[j].outcome.Completed?
      invariant forall j :: 0 <= j < i ==> calls[j] == MigrateCall(batch[j].table.name, index, downgrade, !quiet, con)
    {
      var table := batch[i].table;
      calls := calls + [MigrateCall(table.name, index, downgrade, !quiet, con)];
      match batch[i].outcome
      case Completed =>
      case Failed(message) =>
        log := log + [CouldNotMigrate(table.name, message)];
        tr.Rollback();
        failed := true;
        break;
      case Raised(_) =>
        return Some(tr.state), calls, log;
    }
    if !failed {
      tr.Commit();
    }
    tx := Some(tr.state);
  }

  const DefaultIndex := -1

  /** `db upgrade`: migrates forward, to `index` (default -1). */
  method Upgrade(cog: string, quiet: bool, poolCreated: bool, loadable: string -> bool,
                 batch: seq<TableRun>, con: int, index: int := DefaultIndex)
    returns (tx: Option<TxState>, calls: seq<MigrateCall>, log: seq<Line>)
    ensures forall c :: c in calls ==> !c.downgrade && c.index == index && c.connection == con
    ensures tx == Some(Committed) <==>
              poolCreated && loadable(NormaliseCog(cog)) && forall i :: 0 <= i < |batch| ==> batch[i].outcome.Completed?
  {
    tx, calls, log := ApplyMigration(cog, quiet, index, false, poolCreated, loadable, batch, con);
    BatchAllOrNothing(batch);
  }

  /** `db downgrade`: migrates backward, to `index` (default -1). */
  method Downgrade(cog: string, quiet: bool, poolCreated: bool, loadable: string -> bool,
                   batch: seq<TableRun>, con: int, index: int := DefaultIndex)
    returns (tx: Option<TxState>, calls: seq<MigrateCall>, log: seq<Line>)
    ensures forall c :: c in calls ==> c.downgrade && c.index == index && c.connection == con
    ensures tx == Some(Committed) <==>
              poolCreated && loadable(NormaliseCog(cog)) && forall i :: 0 <= i < |batch| ==> batch[i].outcome.Completed?
  {
    tx, calls, log := ApplyMigration(cog, quiet, index, true, poolCreated, loadable, batch, con);
    BatchAllOrNothing(batch);
  }

  // ---------------------------------------------------------------------------------------------
  // db drop

  /** One `table.drop(verbose=…, connection=…)` call. */
  datatype DropCall = DropCall(table: string, verbose: bool, connection: int)

  /** `remove_databases`: drops every registered table in order on `con` inside one transaction,
      reporting each drop, and reports the removal of the cog's tables only on commit. */
  method RemoveDatabases(cog: string, quiet: bool, batch: seq<TableRun>, con: int)
    returns (tx: TxState, calls: seq<DropCall>, log: seq<Line>)
    ensures tx == BatchState(batch)
    ensures |calls| == CallsMade(batch)
    ensures forall i :: 0 <= i < |calls| ==> calls[i] == DropCall(batch[i].table.name, !quiet, con)
    ensures var k := FirstFailure(batch);
      |log| == (if k < |batch| && batch[k].outcome.Raised? then k else k + 1)
      && (forall i :: 0 <= i < k ==> log[i] == Dropped(batch[i].table.name))
      && (k == |batch| ==> log[k] == RemovedTables(cog))
      && (k < |batch| && batch[k].outcome.Failed? ==>
            log[k] == CouldNotDrop(batch[k].table.name, batch[k].outcome.message))
  {
    var tr := new Transaction();
    tr.Start();
    calls, log := [], [];
    var failed := false;
    for i := 0 to |batch|
      invariant tr.state == Started && !failed
      invariant |calls| == i && |log| == i
      invariant forall j :: 0 <= j < i ==> batch[j].outcome.Completed?
      invariant forall j :: 0 <= j < i ==> calls[j] == DropCall(batch[j].table.name, !quiet, con)
      invariant forall j :: 0 <= j < i ==> log[j] == Dropped(batch[j].table.name)
    {
      var table := batch[i].table;
      calls := calls + [DropCall(table.name, !quiet, con)];
      match batch[i].outcome
      case Completed =>
        log := log + [Dropped(table.name)];
      case Failed(message) =>
        log := log + [CouldNotDrop(table.name, message)];
        tr.Rollback();
        failed := true;
        break;
      case Raised(_) =>
        return tr.state, calls, log;
    }
    if !failed {
      tr.Commit();
      log := log + [RemovedTables(cog)];
    }
    tx := tr.state;
  }

  /** `db drop`: asks for confirmation, opens the pool, loads the cog and removes its tables. */
  method DropCommand(cog: string, quiet: bool, confirmed: bool, poolCreated: bool, loadable: string -> bool,
                     batch: seq<TableRun>, con: int)
    returns (tx: Option<TxState>, calls: seq<DropCall>, log: seq<Line>)
    ensures !confirmed ==> tx == None && calls == [] && log == []
    ensures confirmed && !poolCreated ==> tx == None && calls == [] && log == [PoolUnavailable]
    ensures confirmed && poolCreated && !loadable(NormaliseCog(cog)) ==>
              tx == None && calls == [] && log == [CouldNotLoad(NormaliseCog(cog))]
    ensures confirmed && poolCreated && loadable(NormaliseCog(cog)) ==> tx == Some(BatchState(batch))
    ensures confirmed && poolCreated && loadable(NormaliseCog(cog)) ==>
              |calls| == CallsMade(batch)
              && forall i :: 0 <= i < |calls| ==> calls[i] == DropCall(batch[i].table.name, !quiet, con)
    ensures confirmed && poolCreated && loadable(NormaliseCog(cog)) ==>
              var k := FirstFailure(batch);
              |log| == (if k < |batch| && batch[k].outcome.Raised? then k else k + 1)
              && (forall i :: 0 <= i < k ==> log[i] == Dropped(batch[i].table.name))
              && (k == |batch| ==> log[k] == RemovedTables(NormaliseCog(cog)))
              && (k < |batch| && batch[k].outcome.Failed? ==>
                    log[k] == CouldNotDrop(batch[k].table.name, batch[k].outcome.message))
    ensures RemovedTables(NormaliseCog(cog)) in log <==>
              confirmed && poolCreated && loadable(NormaliseCog(cog)) && BatchState(batch) == Committed
  {
    if !confirmed {
      return None, [], [];
    }
    if !poolCreated {
      return None, [], [PoolUnavailable];
    }
    var name := NormaliseCog(cog);
    if !loadable(name) {
      return None, [], [CouldNotLoad(name)];
    }
    var state;
    state, calls, log := RemoveDatabases(name, quiet, batch, con);
    tx := Some(state);
    var k := FirstFailure(batch);
    if k < |batch| {
      assert forall i :: 0 <= i < |log| ==> log[i] != RemovedTables(name);
    }
  }

  // ---------------------------------------------------------------------------------------------
  // db init

  /** What one `table.create(...)` call did; `init` catches every exception it raises. */
  datatype CreateOutcome = NewlyCreated | AlreadyExisted | CreateRaised(message: string)

  datatype TableCreate = TableCreate(table: Table, outcome: CreateOutcome)

  /** One `table.create(verbose=…, run_migrations=…)` call. */
  datatype CreateCall = CreateCall(table: string, verbose: bool, runMigrations: bool)

  /** The one line `init` echoes for a table. */
  function CreateLine(t: TableCreate): Line
  {
    match t.outcome
    case NewlyCreated => CreatedTable(t.table.moduleName, t.table.name)
    case AlreadyExisted => NoWorkNeeded(t.table.moduleName, t.table.name)
    case CreateRaised(_) => CouldNotCreate(t.table.name)
  }

  /** The extension loop of `db init`: loads `exts` in order and stops at the first that fails;
      `tried` is what it attempted and `ok` whether every extension loaded. */
  method LoadExtensions(exts: seq<string>, loadable: string -> bool) returns (tried: seq<string>, ok: bool)
    ensures var k := FirstFailing(exts, loadable);
      tried == (if k < |exts| then exts[..k + 1] else exts) && (ok <==> k == |exts|)
  {
    tried := [];
    for i := 0 to |exts|
      invariant tried == exts[..i]
      invariant forall j :: 0 <= j < i ==> loadable(exts[j])
    {
      tried := tried + [exts[i]];
      if !loadable(exts[i]) {
        return tried, false;
      }
    }
    assert exts[..|exts|] == exts;
    ok := true;
  }

  /** The table loop of `db init`: creates every table in order, one line each, carrying on past
      tables whose creation raised. */
  method CreateTables(batch: seq<TableCreate>, quiet: bool) returns (calls: seq<CreateCall>, log: seq<Line>)
    ensures |calls| == |batch| && |log| == |batch|
    ensures forall i :: 0 <= i < |batch| ==> calls[i] == CreateCall(batch[i].table.name, !quiet, false)
    ensures forall i :: 0 <= i < |batch| ==> log[i] == CreateLine(batch[i])
  {
    calls, log := [], [];
    for i := 0 to |batch|
      invariant |calls| == i && |log| == i
      invariant forall j :: 0 <= j < i ==> calls[j] == CreateCall(batch[j].table.name, !quiet, false)
      invariant forall j :: 0 <= j < i ==> log[j] == CreateLine(batch[j])
    {
      var table := batch[i].table;
      calls := calls + [CreateCall(table.name, !quiet, false)];
      match batch[i].outcome
      case CreateRaised(_) =>
        log := log + [CouldNotCreate(table.name)];
      case NewlyCreated =>
        log := log + [CreatedTable(table.moduleName, table.name)];
      case AlreadyExisted =>
        log := log + [NoWorkNeeded(table.moduleName, table.name)];
    }
  }

  /** `db init`: opens the pool, loads the extensions in order (stopping at the first that fails
      to load), then creates every registered table, carrying on past tables that fail. */
  method Init(cogs: seq<string>, quiet: bool, autoload: seq<string>, poolCreated: bool,
              loadable: string -> bool, batch: seq<TableCreate>)
    returns (tried: seq<string>, calls: seq<CreateCall>, log: seq<Line>)
    ensures !poolCreated ==> tried == [] && calls == [] && log == [PoolUnavailable]
    ensures poolCreated ==>
              var exts := InitExtensions(cogs, autoload);
              var k := FirstFailing(exts, loadable);
              tried == (if k < |exts| then exts[..k + 1] else exts)
              && (k < |exts| ==> calls == [] && log == [CouldNotLoad(exts[k])])
    ensures poolCreated && (forall e :: e in InitExtensions(cogs, autoload) ==> loadable(e)) ==>
              |calls| == |batch| && |log| == |batch|
              && (forall i :: 0 <= i < |batch| ==> calls[i] == CreateCall(batch[i].table.name, !quiet, false))
              && (forall i :: 0 <= i < |batch| ==> log[i] == CreateLine(batch[i]))
  {
    if !poolCreated {
      return [], [], [PoolUnavailable];
    }
    var exts := InitExtensions(cogs, autoload);
    var ok;
    tried, ok := LoadExtensions(exts, loadable);
    if !ok {
      var k := FirstFailing(exts, loadable);
      assert tried[|tried| - 1] == exts[k];
      return tried, [], [CouldNotLoad(tried[|tried| - 1])];
    }
    calls, log := CreateTables(batch, quiet);
  }

  // ---------------------------------------------------------------------------------------------
  // db migrate

  /** What one `table.write_migration()` call did. */
  datatype WriteOutcome = Migrated | NoChanges | WriteFailed(message: string) | WriteRaised(message: string)

  /** How a `work` call ended: it returned, the process exited with `code`, the user declined the
      confirmation (click aborts), or an uncaught exception escaped. */
  datatype WorkEnd = Returned | Exited(code: int) | Aborted | Crashed

  /** What a `work` call echoed, how many `write_migration` and `init` calls it made, and how it ended. */
  datatype WorkRun = WorkRun(log: seq<Line>, writes: nat, inits: nat, end: WorkEnd)

  const FailureExitCode := -1

  /** `work(table, invoked=…)` of `db migrate`; `write(n)` is the outcome of the process's `n`-th
      `write_migration` call and `attempt` the number of this call. On a `RuntimeError` the first
      call asks to create the table, runs `init` for the cog and retries once; after that, whatever
      the retry did, the process exits with -1. */
  function Work(table: Table, invoked: bool, attempt: nat, write: nat -> WriteOutcome, confirmed: bool): (w: WorkRun)
    ensures 1 <= w.writes <= (if invoked then 1 else 2)
    ensures w.inits <= (if invoked then 0 else 1) && w.inits <= w.writes - 1
    ensures w.inits == 1 <==> !invoked && confirmed && write(attempt).WriteFailed?
    ensures w.writes == 1 + w.inits
    ensures w.end == Returned <==> write(attempt).Migrated? || write(attempt).NoChanges?
    ensures w.end == Returned ==> w.writes == 1 && w.inits == 0
    ensures w.end == Returned ==>
              w.log == [if write(attempt).Migrated? then MigrationsUpdated(table.name) else FoundNoChanges(table.name)]
    ensures w.end == Exited(FailureExitCode) <==>
              write(attempt).WriteFailed? && (invoked || (confirmed && !write(attempt + 1).WriteRaised?))
    ensures w.end == Aborted <==> !invoked && !confirmed && write(attempt).WriteFailed?
    ensures w.end == Crashed <==>
              write(attempt).WriteRaised?
              || (write(attempt).WriteFailed? && !invoked && confirmed && write(attempt + 1).WriteRaised?)
    ensures write(attempt).WriteFailed? ==>
              |w.log| >= 1 && w.log[0] == CouldNotMigrate(table.name, write(attempt).message)
    ensures forall l :: l in w.log ==> !l.DoneMigrating?
    decreases if invoked then 0 else 1
  {
    match write(attempt)
    case Migrated => WorkRun([MigrationsUpdated(table.name)], 1, 0, Returned)
    case NoChanges => WorkRun([FoundNoChanges(table.name)], 1, 0, Returned)
    case WriteRaised(_) => WorkRun([], 1, 0, Crashed)
    case WriteFailed(message) =>
      var line := CouldNotMigrate(table.name, message);
      if invoked then WorkRun([line], 1, 0, Exited(FailureExitCode))
      else if !confirmed then WorkRun([line], 1, 0, Aborted)
      else
        var retry := Work(table, true, attempt + 1, write, confirmed);
        var end := if retry.end == Returned then Exited(FailureExitCode) else retry.end;
        WorkRun([line] + retry.log, 1 + retry.writes, 1, end)
  }

  /** A `write_migration` call that `work` reports as a success. */
  predicate WriteSucceeded(o: WriteOutcome)
  {
    o.Migrated? || o.NoChanges?
  }

  /** The line `work` echoes for a successful `write_migration` call. */
  function SuccessLine(table: Table, o: WriteOutcome): Line
  {
    if o.Migrated? then MigrationsUpdated(table.name) else FoundNoChanges(table.name)
  }

  /** The first of the `write_migration` calls `i` to `n - 1` that does not succeed (`n` if all do). */
  function FirstFailedWrite(i: nat, n: nat, write: nat -> WriteOutcome): (k: nat)
    requires i <= n
    ensures i <= k <= n
    ensures forall j :: i <= j < k ==> WriteSucceeded(write(j))
    ensures k < n ==> !WriteSucceeded(write(k))
    decreases n - i
  {
    if i == n || !WriteSucceeded(write(i)) then i else FirstFailedWrite(i + 1, n, write)
  }

  /** When the `i`-th table is the first whose `work` does not return, it is the first failed
      write, and the command's output is the success lines so far followed by that `work`'s lines. */
  lemma MigrateStopsAt(tables: seq<Table>, write: nat -> WriteOutcome, confirmed: bool, i: nat,
                       log: seq<Line>, w: WorkRun)
    requires i < |tables| && |log| == i
    requires forall j :: 0 <= j < i ==> WriteSucceeded(write(j))
    requires forall j :: 0 <= j < i ==> log[j] == SuccessLine(tables[j], write(j))
    requires w == Work(tables[i], false, i, write, confirmed) && w.end != Returned
    ensures FirstFailedWrite(0, |tables|, write) == i
    ensures (log + w.log)[i..] == w.log && |log + w.log| == i + |w.log|
    ensures forall j :: 0 <= j < i ==> (log + w.log)[j] == SuccessLine(tables[j], write(j))
    ensures forall l :: l in log + w.log ==> !l.DoneMigrating?
  {
    assert !WriteSucceeded(write(i));
    var k := FirstFailedWrite(0, |tables|, write);
    assert k <= i && k >= i;
    var out := log + w.log;
    assert out[i..] == w.log;
    assert forall l :: l in out ==> l in log || l in w.log;
  }

  /** `db migrate`: loads the cog, runs `work` for every registered table in order, and reports
      completion only when every `work` call returned. The `i`-th table's first `write_migration`
      call is the process's `i`-th, since every earlier table made exactly one. */
  method MigrateCommand(cog: string, loadable: string -> bool, tables: seq<Table>, write: nat -> WriteOutcome,
                        confirmed: bool)
    returns (log: seq<Line>, end: WorkEnd, writes: nat)
    ensures !loadable(NormaliseCog(cog)) ==> log == [CouldNotLoadCog] && end == Returned && writes == 0
    ensures loadable(NormaliseCog(cog)) ==>
              (end == Returned <==> forall i :: 0 <= i < |tables| ==> WriteSucceeded(write(i)))
    ensures loadable(NormaliseCog(cog)) && end == Returned ==>
              |log| == |tables| + 1 && log[|tables|] == DoneMigrating(NormaliseCog(cog)) && writes == |tables|
              && forall i :: 0 <= i < |tables| ==> log[i] == SuccessLine(tables[i], write(i))
    ensures loadable(NormaliseCog(cog)) && end != Returned ==>
              var k := FirstFailedWrite(0, |tables|, write);
              k < |tables|
              && var w := Work(tables[k], false, k, write, confirmed);
                 end == w.end && writes == k + w.writes && |log| == k + |w.log| && log[k..] == w.log
                 && forall j :: 0 <= j < k ==> log[j] == SuccessLine(tables[j], write(j))
    ensures end != Returned ==> forall l :: l in log ==> !l.DoneMigrating?
    ensures writes <= 2 * |tables|
  {
    var name := NormaliseCog(cog);
    if !loadable(name) {
      return [CouldNotLoadCog], Returned, 0;
    }
    log, writes := [], 0;
    for i := 0 to |tables|
      invariant |log| == i && writes == i
      invariant forall j :: 0 <= j < i ==> WriteSucceeded(write(j))
      invariant forall j :: 0 <= j < i ==> log[j] == SuccessLine(tables[j], write(j))
    {
      var w := Work(tables[i], false, writes, write, confirmed);
      if w.end != Returned {
        var out := log + w.log;
        MigrateStopsAt(tables, write, confirmed, i, log, w);
        return out, w.end, writes + w.writes;
      }
      assert w.log == [SuccessLine(tables[i], write(i))];
      log := log + w.log;
      writes := writes + w.writes;
    }
    log := log + [DoneMigrating(name)];
    end := Returned;
  }
}
