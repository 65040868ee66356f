/**
 * The module `createPostgresqlDatabaseModule` builds
 * (src/common/core/database/modules/_postgresql.ts) on the abstract `DatabaseModule`
 * (src/common/core/database/modules/_base.ts): a client is created on connect and
 * forgotten after a successful end, queries need a client, and `_init` migrates. Each
 * call to the server is given the outcome it has. A script's migration name is
 * `Path.basename` of its resolved file without the extension, given as `nameOf`.
 */
module PostgresqlDatabase {
  import opened Wrappers
  import opened Migrations
  import opened DatabaseTypes
  import SqlTemplates

  /**
   * `try { await connect(); await init(); } finally { await disconnect(); }` in `init`:
   * `init` runs only after a successful connect, and an error thrown by the disconnect
   * replaces the one thrown before it.
   */
  function InitOutcome(connect: Outcome, init: Outcome, disconnect: Outcome): (o: Outcome)
    ensures o.Done? <==> connect.Done? && init.Done? && disconnect.Done?
    ensures disconnect.Fail? ==> o == disconnect
    ensures disconnect.Done? ==> o == (if connect.Fail? then connect else init)
  {
    var attempt := if connect.Fail? then connect else init;
    if disconnect.Fail? then disconnect else attempt
  }

  /**
   * The `_migrate` loop as written: for each script it looks the name up, and the first
   * name already recorded ends the whole loop. Otherwise its SQL runs (`failing` fails)
   * and the name is inserted.
   */
  function StopAtRecorded(rows: seq<string>, scripts: seq<string>, nameOf: string -> string, failing: set<string>): Run
    decreases |scripts|
  {
    if scripts == [] then Run(rows, [], Done)
    else if nameOf(scripts[0]) in rows then Run(rows, [], Done)
    else if scripts[0] in failing then Run(rows, [], Fail(DatabaseError))
    else After([scripts[0]], StopAtRecorded(rows + [nameOf(scripts[0])], scripts[1..], nameOf, failing))
  }

  /** The loop as intended: a script already recorded is skipped and the loop goes on. */
  function SkipRecorded(rows: seq<string>, scripts: seq<string>, nameOf: string -> string, failing: set<string>): Run
    decreases |scripts|
  {
    if scripts == [] then Run(rows, [], Done)
    else if nameOf(scripts[0]) in rows then SkipRecorded(rows, scripts[1..], nameOf, failing)
    else if scripts[0] in failing then Run(rows, [], Fail(DatabaseError))
    else After([scripts[0]], SkipRecorded(rows + [nameOf(scripts[0])], scripts[1..], nameOf, failing))
  }

  /**
   * As written, a recorded first script hides every later one: with `001` recorded,
   * the declared scripts `001`, `002` never apply `002`, yet the run succeeds.
   */
  lemma StopAtRecordedSkipsNewScripts()
    ensures var run := StopAtRecorded(["001"], ["001", "002"], s => s, {});
      run == Run(["001"], [], Done) && "002" !in run.rows
  {
  }

  /** The intended loop applies the same scripts: `002` runs and is recorded. */
  lemma SkipRecordedAppliesNewScripts()
    ensures SkipRecorded(["001"], ["001", "002"], s => s, {}) == Run(["001", "002"], ["002"], Done)
  {
    assert ["001", "002"][1..] == ["002"];
    assert ["002"][1..] == [];
  }

  /**
   * The intended loop keeps the recorded names, records each script after running it,
   * and when it succeeds every declared script's name is recorded.
   */
  lemma {:induction false} SkipRecordedRecordsAll(rows: seq<string>, scripts: seq<string>, nameOf: string -> string, failing: set<string>)
    ensures var run := SkipRecorded(rows, scripts, nameOf, failing);
      && |rows| <= |run.rows| && run.rows[..|rows|] == rows
      && (run.outcome.Fail? ==> run.outcome.error == DatabaseError)
      && (run.outcome.Done? ==> forall i :: 0 <= i < |scripts| ==> nameOf(scripts[i]) in run.rows)
    decreases |scripts|
  {
    if scripts != [] {
      var s := scripts[0];
      if nameOf(s) in rows {
        SkipRecordedRecordsAll(rows, scripts[1..], nameOf, failing);
        var run := SkipRecorded(rows, scripts, nameOf, failing);
        assert nameOf(s) in run.rows[..|rows|];
        forall i | 1 <= i < |scripts|
          ensures scripts[i] == scripts[1..][i - 1]
        {
        }
      } else if s !in failing {
        var rows' := rows + [nameOf(s)];
        SkipRecordedRecordsAll(rows', scripts[1..], nameOf, failing);
        var run := SkipRecorded(rows, scripts, nameOf, failing);
        assert run.rows[..|rows'|] == rows';
        assert run.rows[..|rows|] == rows'[..|rows|];
        assert nameOf(s) == rows'[|rows|];
        forall i | 1 <= i < |scripts|
          ensures scripts[i] == scripts[1..][i - 1]
        {
        }
      }
    }
  }

  /** A name that is not among the declared scripts does not change their selection. */
  lemma {:induction false} NeededIgnoresOthers(scripts: seq<string>, rows: seq<string>, name: string)
    requires name !in scripts
    ensures NeededMigrations(scripts, rows + [name]) == NeededMigrations(scripts, rows)
    decreases |scripts|
  {
    if scripts != [] {
      assert scripts == [scripts[0]] + scripts[1..];
      NeededIgnoresOthers(scripts[1..], rows, name);
    }
  }

  /** Distinct scripts, none failing: the first is not in the rest, which are so too. */
  lemma TailKeeps(scripts: seq<string>, failing: set<string>)
    requires scripts != []
    requires forall i :: 0 <= i < |scripts| ==> scripts[i] !in failing
    requires forall i, j :: 0 <= i < j < |scripts| ==> scripts[i] != scripts[j]
    ensures scripts[0] !in scripts[1..] && scripts[0] !in failing
    ensures forall i :: 0 <= i < |scripts[1..]| ==> scripts[1..][i] !in failing
    ensures forall i, j :: 0 <= i < j < |scripts[1..]| ==> scripts[1..][i] != scripts[1..][j]
  {
    var tail := scripts[1..];
    forall j | 0 <= j < |tail|
      ensures tail[j] != scripts[0]
    {
      assert tail[j] == scripts[j + 1];
    }
    forall i | 0 <= i < |tail|
      ensures tail[i] !in failing
    {
      assert tail[i] == scripts[i + 1];
    }
    forall i, j | 0 <= i < j < |tail|
      ensures tail[i] != tail[j]
    {
      assert tail[i] == scripts[i + 1] && tail[j] == scripts[j + 1];
    }
  }

  /**
   * With names equal to the scripts, distinct scripts and no failure, the intended loop
   * runs exactly the scripts the module factory selects, `NeededMigrations`.
   */
  lemma {:induction false} SkipRecordedIsSelection(rows: seq<string>, scripts: seq<string>, nameOf: string -> string, failing: set<string>)
    requires forall s :: nameOf(s) == s
    requires forall i :: 0 <= i < |scripts| ==> scripts[i] !in failing
    requires forall i, j :: 0 <= i < j < |scripts| ==> scripts[i] != scripts[j]
    ensures var needed := NeededMigrations(scripts, rows);
      SkipRecorded(rows, scripts, nameOf, failing) == Run(rows + needed, needed, Done)
    decreases |scripts|
  {
    if scripts == [] {
      assert rows + [] == rows;
    } else {
      var s, tail := scripts[0], scripts[1..];
      TailKeeps(scripts, failing);
      assert nameOf(s) == s;
      var rest := NeededMigrations(tail, rows);
      if s in rows {
        SkipRecordedIsSelection(rows, tail, nameOf, failing);
        assert SkipRecorded(rows, scripts, nameOf, failing) == SkipRecorded(rows, tail, nameOf, failing);
        assert NeededMigrations(scripts, rows) == [] + rest;
        assert [] + rest == rest;
      } else {
        SkipRecordedIsSelection(rows + [s], tail, nameOf, failing);
        NeededIgnoresOthers(tail, rows, s);
        assert SkipRecorded(rows, scripts, nameOf, failing)
            == After([s], SkipRecorded(rows + [s], tail, nameOf, failing));
        assert NeededMigrations(scripts, rows) == [s] + rest;
        assert rows + [s] + rest == rows + ([s] + rest);
      }
    }
  }

  class PostgreSqlDatabaseModule {
    const connection: Connection
    const migrations: Option<MigrationOptions>
    /** `_isInitialized` of `DatabaseModule` */
    var initialized: bool
    /** `_client`, as the identity of the client object */
    var client: Option<nat>
    /** How many clients were created: the next client's identity. */
    var clients: nat
    /** The database's tables that hold migration rows. */
    var tables: map<string, seq<string>>
    /** The migration scripts whose SQL ran, in order. */
    var executed: seq<string>

    constructor(connection: Connection, migrations: Option<MigrationOptions>, tables: map<string, seq<string>>)
      ensures this.connection == connection && this.migrations == migrations
      ensures !initialized && client.None? && clients == 0
      ensures this.tables == tables && executed == []
    {
      this.connection := connection;
      this.migrations := migrations;
      initialized := false;
      client := None;
      clients := 0;
      this.tables := tables;
      executed := [];
    }

    /** `_databaseUrl` */
    function DatabaseUrl(): (url: string)
      ensures url == Url(connection)
    {
      Url(connection)
    }

    /**
     * `_connect`: a new client is kept whether or not it connects; a failure is a
     * `DatabaseError`.
     */
    method Connect(reachable: Outcome) returns (outcome: Outcome)
      modifies this`client, this`clients
      ensures client == Some(old(clients)) && clients == old(clients) + 1
      ensures outcome == (if reachable.Fail? then Fail(DatabaseError) else Done)
    {
      client := Some(clients);
      clients := clients + 1;
      if reachable.Fail? {
        return Fail(DatabaseError);
      }
      outcome := Done;
    }

    /**
     * `_disconnect`: nothing without a client; otherwise end it and forget it, or fail
     * with a `DatabaseError` and keep it.
     */
    method Disconnect(end: Outcome) returns (outcome: Outcome)
      modifies this`client
      ensures old(client).None? ==> outcome == Done && client.None?
      ensures old(client).Some? && end.Done? ==> outcome == Done && client.None?
      ensures old(client).Some? && end.Fail? ==> outcome == Fail(DatabaseError) && client == old(client)
    {
      if client.None? {
        return Done;
      }
      if end.Fail? {
        return Fail(DatabaseError);
      }
      client := None;
      outcome := Done;
    }

    /** `_query()(template, ...values)`, up to sending it: a client is required first. */
    method Query<V>(parts: seq<string>, values: seq<V>, text: V -> string) returns (r: Result<SqlTemplates.Query<V>>)
      ensures client.None? ==> r == Err(DatabaseError)
      ensures client.Some? ==> (r.Ok?
        && r.value.text == SqlTemplates.QueryText(parts, values, text, |parts|)
        && r.value.params == SqlTemplates.Placeholders(parts, values, |parts|))
    {
      if client.None? {
        return Err(DatabaseError);
      }
      var q := SqlTemplates.Compile(parts, values, text);
      r := Ok(q);
    }

    /**
     * `_migrate(options)` as written: it needs a client, and the first lookup fails when
     * the table does not exist.
     */
    method MigrateAsWritten(options: MigrationOptions, nameOf: string -> string, failing: set<string>) returns (outcome: Outcome)
      modifies this`tables, this`executed
      ensures var t, scripts := TableOf(options), ScriptsOf(options);
        && (client.None? || (scripts != [] && t !in old(tables)) ==>
              outcome == Fail(DatabaseError) && tables == old(tables) && executed == old(executed))
        && (client.Some? && scripts == [] ==> outcome == Done && tables == old(tables) && executed == old(executed))
        && (client.Some? && t in old(tables) ==>
              var run := StopAtRecorded(old(tables)[t], scripts, nameOf, failing);
              outcome == run.outcome && tables == old(tables)[t := run.rows] && executed == old(executed) + run.executed)
    {
      if client.None? {
        return Fail(DatabaseError);
      }
      var table, scripts := TableOf(options), ScriptsOf(options);
      if scripts == [] {
        return Done;
      }
      if table !in tables {
        return Fail(DatabaseError);
      }
      var i := 0;
      ghost var rows0 := tables[table];
      AfterNothing(StopAtRecorded(rows0, scripts, nameOf, failing));
      while i < |scripts|
        invariant 0 <= i <= |scripts| && table in tables
        invariant tables == old(tables)[table := tables[table]]
        invariant executed == old(executed) + scripts[..i]
        invariant StopAtRecorded(rows0, scripts, nameOf, failing)
               == After(scripts[..i], StopAtRecorded(tables[table], scripts[i..], nameOf, failing))
      {
        var script := scripts[i];
        var scriptName := nameOf(script);
        ghost var rest := scripts[i + 1..];
        assert scripts[i..] == [script] + rest;
        if scriptName in tables[table] {
          assert executed + [] == executed;
          return Done;
        }
        if script in failing {
          assert executed + [] == executed;
          return Fail(DatabaseError);
        }
        executed := executed + [script];
        var rows := tables[table];
        tables := tables[table := rows + [scriptName]];
        AfterAfter(scripts[..i], [script], StopAtRecorded(rows + [scriptName], rest, nameOf, failing));
        assert scripts[..i + 1] == scripts[..i] + [script];
        i := i + 1;
      }
      assert scripts[i..] == [];
      assert scripts[..i] == scripts;
      outcome := Done;
    }

    /** `_migrate(options)` with a recorded script skipped rather than ending the loop. */
    method Migrate(options: MigrationOptions, nameOf: string -> string, failing: set<string>) returns (outcome: Outcome)
      modifies this`tables, this`executed
      ensures var t, scripts := TableOf(options), ScriptsOf(options);
        && (client.None? || (scripts != [] && t !in old(tables)) ==>
              outcome == Fail(DatabaseError) && tables == old(tables) && executed == old(executed))
        && (client.Some? && scripts == [] ==> outcome == Done && tables == old(tables) && executed == old(executed))
        && (client.Some? && t in old(tables) ==>
              var run := SkipRecorded(old(tables)[t], scripts, nameOf, failing);
              outcome == run.outcome && tables == old(tables)[t := run.rows] && executed == old(executed) + run.executed)
    {
      if client.None? {
        return Fail(DatabaseError);
      }
      var table, scripts := TableOf(options), ScriptsOf(options);
      if scripts == [] {
        return Done;
      }
      if table !in tables {
        return Fail(DatabaseError);
      }
      var i := 0;
      ghost var rows0 := tables[table];
      ghost var executed0 := executed;
      AfterNothing(SkipRecorded(rows0, scripts, nameOf, failing));
      assert executed == executed0 + [];
      while i < |scripts|
        invariant 0 <= i <= |scripts| && table in tables
        invariant tables == old(tables)[table := tables[table]]
        invariant exists done: seq<string> ::
          executed == executed0 + done
          && SkipRecorded(rows0, scripts, nameOf, failing) == After(done, SkipRecorded(tables[table], scripts[i..], nameOf, failing))
      {
        var script := scripts[i];
        var scriptName := nameOf(script);
        ghost var rest := scripts[i + 1..];
        assert scripts[i..] == [script] + rest;
        ghost var done :| executed == executed0 + done
          && SkipRecorded(rows0, scripts, nameOf, failing) == After(done, SkipRecorded(tables[table], scripts[i..], nameOf, failing));
        if scriptName in tables[table] {
          i := i + 1;
          continue;
        }
        if script in failing {
          assert executed + [] == executed;
          return Fail(DatabaseError);
        }
        executed := executed + [script];
        var rows := tables[table];
        tables := tables[table := rows + [scriptName]];
        AfterAfter(done, [script], SkipRecorded(rows + [scriptName], rest, nameOf, failing));
        assert executed == executed0 + (done + [script]);
        i := i + 1;
      }
      assert scripts[i..] == [];
      ghost var done :| executed == executed0 + done
        && SkipRecorded(rows0, scripts, nameOf, failing) == After(done, SkipRecorded(tables[table], [], nameOf, failing));
      assert done + [] == done;
      outcome := Done;
    }

    /** `_init`: migrate when migration options are given; any error is a `DatabaseError`. */
    method InitHook(nameOf: string -> string, failing: set<string>) returns (outcome: Outcome)
      modifies this`tables, this`executed
      ensures migrations.None? ==> outcome == Done && tables == old(tables) && executed == old(executed)
      ensures migrations.Some? && (client.None? || (ScriptsOf(migrations.value) != [] && TableOf(migrations.value) !in old(tables))) ==>
        outcome == Fail(DatabaseError) && tables == old(tables) && executed == old(executed)
      ensures migrations.Some? && client.Some? && ScriptsOf(migrations.value) == [] ==>
        outcome == Done && tables == old(tables) && executed == old(executed)
      ensures migrations.Some? && client.Some? && TableOf(migrations.value) in old(tables) ==>
        var t := TableOf(migrations.value);
        var run := SkipRecorded(old(tables)[t], ScriptsOf(migrations.value), nameOf, failing);
        outcome == run.outcome && tables == old(tables)[t := run.rows] && executed == old(executed) + run.executed
      ensures outcome.Fail? ==> outcome.error == DatabaseError
    {
      if migrations.None? {
        return Done;
      }
      outcome := Migrate(migrations.value, nameOf, failing);
      if outcome.Fail? {
        ghost var t := TableOf(migrations.value);
        if client.Some? && t in old(tables) {
          SkipRecordedRecordsAll(old(tables)[t], ScriptsOf(migrations.value), nameOf, failing);
        }
        outcome := Fail(DatabaseError);
      }
    }

    /**
     * `init` of `DatabaseModule`: on an initialised module nothing runs. Otherwise it
     * connects, migrates when connected, and always disconnects; the module is initialised
     * afterwards exactly when all of that succeeded, and the client is gone exactly when
     * the disconnect succeeded.
     */
    method Init(reachable: Outcome, end: Outcome, nameOf: string -> string, failing: set<string>) returns (outcome: Outcome)
      modifies this`initialized, this`client, this`clients, this`tables, this`executed
      ensures old(initialized) ==> outcome == Done && initialized
      ensures old(initialized) ==> client == old(client) && clients == old(clients)
      ensures old(initialized) ==> tables == old(tables) && executed == old(executed)
      ensures !old(initialized) ==> initialized == outcome.Done?
      ensures !old(initialized) ==> clients == old(clients) + 1 && (client.None? <==> end.Done?)
      ensures !old(initialized) && end.Fail? ==> outcome == Fail(DatabaseError)
      ensures !old(initialized) && reachable.Fail? ==>
        outcome == Fail(DatabaseError) && !initialized && tables == old(tables) && executed == old(executed)
      ensures !old(initialized) && reachable.Done? && (migrations.None? || ScriptsOf(migrations.value) == []) ==>
        && outcome == InitOutcome(Done, Done, if end.Done? then Done else Fail(DatabaseError))
        && tables == old(tables) && executed == old(executed)
      ensures !old(initialized) && reachable.Done? && migrations.Some?
              && ScriptsOf(migrations.value) != [] && TableOf(migrations.value) !in old(tables) ==>
        outcome == Fail(DatabaseError) && tables == old(tables) && executed == old(executed)
      ensures !old(initialized) && reachable.Done? && migrations.Some? && TableOf(migrations.value) in old(tables) ==>
        var t := TableOf(migrations.value);
        var run := SkipRecorded(old(tables)[t], ScriptsOf(migrations.value), nameOf, failing);
        && outcome == InitOutcome(Done, run.outcome, if end.Done? then Done else Fail(DatabaseError))
        && tables == old(tables)[t := run.rows] && executed == old(executed) + run.executed
    {
      if initialized {
        return Done;
      }
      var connected := Connect(reachable);
      var initialised := Done;
      if connected.Done? {
        initialised := InitHook(nameOf, failing);
      }
      var disconnected := Disconnect(end);
      outcome := InitOutcome(connected, initialised, disconnected);
      if outcome.Done? {
        initialized := true;
      }
    }

    /** `open`: connect before handing out the API; a failing connect is passed on. */
    method Open(reachable: Outcome) returns (outcome: Outcome)
      modifies this`client, this`clients
      ensures client == Some(old(clients)) && clients == old(clients) + 1
      ensures outcome == (if reachable.Fail? then Fail(DatabaseError) else Done)
    {
      outcome := Connect(reachable);
    }

    /** `close`, which is also the API's `Symbol.asyncDispose`: `_disconnect`. */
    method Close(end: Outcome) returns (outcome: Outcome)
      modifies this`client
      ensures old(client).None? ==> outcome == Done && client.None?
      ensures old(client).Some? && end.Done? ==> outcome == Done && client.None?
      ensures old(client).Some? && end.Fail? ==> outcome == Fail(DatabaseError) && client == old(client)
    {
      outcome := Disconnect(end);
    }
  }
}
