/**
 * The module `PostgresqlModuleFactory.createModule` builds
 * (src/common/core/database/postgresql/_module-factory.ts): `_init` creates the database
 * when it is missing and applies the migrations not yet recorded, the API shares one
 * memoised pool that `close` ends and forgets, and queries are compiled from tagged
 * templates. The server is modelled by what the module can observe of it: the set of
 * databases, the rows of each migration table and the migration scripts executed. Each
 * connection to the server is a parameter that reports whether it could be made.
 */
module PostgresqlModuleFactory {
  import opened Wrappers
  import opened Migrations
  import opened DatabaseTypes
  import opened CoreTypes
  import opened Metadata
  import JsValues
  import ReflectUtil
  import SqlTemplates
  import EntityDecorator

  /**
   * The loop over the selected scripts: each script's SQL runs, then its name is inserted.
   * SQL that fails (`failing`) or a name already in the table, whose primary key it is,
   * ends the run with a `DatabaseError`.
   */
  function ApplyAll(rows: seq<string>, needed: seq<string>, failing: set<string>): Run
    decreases |needed|
  {
    if needed == [] then Run(rows, [], Done)
    else if needed[0] in failing then Run(rows, [], Fail(DatabaseError))
    else if needed[0] in rows then Run(rows, [needed[0]], Fail(DatabaseError))
    else After([needed[0]], ApplyAll(rows + [needed[0]], needed[1..], failing))
  }

  /**
   * Run `r` over `needed` stops after the first `k` scripts: those are recorded and ran;
   * on success they are all of them, otherwise script `k` failed or was already recorded.
   */
  predicate StopsAfter(rows: seq<string>, needed: seq<string>, failing: set<string>, r: Run, k: nat) {
    && k <= |needed|
    && r.rows == rows + needed[..k]
    && (forall i :: 0 <= i < k ==> needed[i] !in failing)
    && (r.outcome.Done? ==> k == |needed| && r.executed == needed)
    && (r.outcome.Fail? ==>
          && k < |needed| && r.outcome.error == DatabaseError
          && (needed[k] in failing || needed[k] in rows + needed[..k])
          && r.executed == needed[..k] + (if needed[k] in failing then [] else [needed[k]]))
  }

  /** A script that runs and is new, in front of a run that stops after `k`, stops after `k + 1`. */
  lemma StopsAfterStep(rows: seq<string>, s: string, rest: seq<string>, failing: set<string>, r: Run, k: nat)
    requires s !in failing && s !in rows
    requires StopsAfter(rows + [s], rest, failing, r, k)
    ensures StopsAfter(rows, [s] + rest, failing, After([s], r), k + 1)
  {
    var needed := [s] + rest;
    assert needed[..k + 1] == [s] + rest[..k];
    assert rows + needed[..k + 1] == rows + [s] + rest[..k];
    assert forall i :: 0 < i < k + 1 ==> needed[i] == rest[i - 1];
    if k < |rest| {
      assert needed[k + 1] == rest[k];
    }
  }

  /**
   * A run records a prefix of the selected scripts, executing them in order: all of them
   * when it succeeds; otherwise it stops at script `k`, whose SQL failed or whose name was
   * already recorded, with a `DatabaseError`.
   */
  lemma {:induction false} ApplyAllShape(rows: seq<string>, needed: seq<string>, failing: set<string>) returns (k: nat)
    ensures StopsAfter(rows, needed, failing, ApplyAll(rows, needed, failing), k)
    decreases |needed|
  {
    if needed == [] {
      k := 0;
    } else if needed[0] in failing || needed[0] in rows {
      k := 0;
    } else {
      var s := needed[0];
      var k' := ApplyAllShape(rows + [s], needed[1..], failing);
      assert needed == [s] + needed[1..];
      StopsAfterStep(rows, s, needed[1..], failing, ApplyAll(rows + [s], needed[1..], failing), k');
      k := k' + 1;
    }
  }

  /**
   * One iteration of the migration loop: with the first `i` scripts applied and `rows` in
   * the table, script `i` either ends the run or is recorded and the loop goes on.
   */
  lemma ApplyStep(rows0: seq<string>, needed: seq<string>, failing: set<string>, i: nat, rows: seq<string>)
    requires i < |needed|
    requires ApplyAll(rows0, needed, failing) == After(needed[..i], ApplyAll(rows, needed[i..], failing))
    ensures var s, whole := needed[i], ApplyAll(rows0, needed, failing);
      && needed[..i + 1] == needed[..i] + [s]
      && (s in failing ==> whole == Run(rows, needed[..i], Fail(DatabaseError)))
      && (s !in failing && s in rows ==> whole == Run(rows, needed[..i + 1], Fail(DatabaseError)))
      && (s !in failing && s !in rows ==>
            whole == After(needed[..i + 1], ApplyAll(rows + [s], needed[i + 1..], failing)))
  {
    var s, rest := needed[i], needed[i + 1..];
    assert needed[i..] == [s] + rest;
    assert needed[..i + 1] == needed[..i] + [s];
    if s in failing {
      assert needed[..i] + [] == needed[..i];
    } else if s !in rows {
      AfterAfter(needed[..i], [s], ApplyAll(rows + [s], rest, failing));
    }
  }

  /** Scripts that all run and whose names are new and distinct are all applied, in order. */
  lemma {:induction false} ApplyAllSucceeds(rows: seq<string>, needed: seq<string>, failing: set<string>)
    requires forall i :: 0 <= i < |needed| ==> needed[i] !in failing && needed[i] !in rows
    requires forall i, j :: 0 <= i < j < |needed| ==> needed[i] != needed[j]
    ensures ApplyAll(rows, needed, failing) == Run(rows + needed, needed, Done)
    decreases |needed|
  {
    if needed != [] {
      var s := needed[0];
      forall i | 0 <= i < |needed[1..]|
        ensures needed[1..][i] !in failing && needed[1..][i] !in rows + [s]
      {
        assert needed[1..][i] == needed[i + 1];
      }
      ApplyAllSucceeds(rows + [s], needed[1..], failing);
      assert rows + [s] + needed[1..] == rows + needed;
      assert [s] + needed[1..] == needed;
    }
  }

  /**
   * After a successful migration every declared script is recorded, so migrating again
   * selects nothing.
   */
  lemma MigratedNothingLeft(scripts: seq<string>, rows: seq<string>, failing: set<string>)
    requires ApplyAll(rows, NeededMigrations(scripts, rows), failing).outcome.Done?
    ensures var after := ApplyAll(rows, NeededMigrations(scripts, rows), failing).rows;
      && (forall s :: s in scripts ==> s in after)
      && NeededMigrations(scripts, after) == []
  {
    var needed := NeededMigrations(scripts, rows);
    var k := ApplyAllShape(rows, needed, failing);
    NeededMembers(scripts, rows);
    var after := rows + needed;
    assert needed[..k] == needed;
    forall s | s in scripts
      ensures s in after
    {
      if s !in rows {
        assert s in needed;
      }
    }
    NothingNeeded(scripts, after);
  }

  /**
   * Once a class is decorated with `@Entity`, `createRepository` gets past the entity
   * check and the outcome depends on the options alone.
   */
  lemma EntityPassesCheck(m: PostgresqlModule, cells: Store, entityClass: Cls, table: string)
    ensures var r := m.CreateRepository(EntityDecorator.Decorated(cells, entityClass, table), entityClass);
      r == (if ReflectUtil.IsType(m.options, PostgresqlType) then Err(NotImplemented) else Err(ConfigurationError))
  {
    EntityDecorator.EntityRecorded(cells, entityClass, table);
  }

  /** The pool the API was created with, which its `close` ends. */
  datatype Api = Api(pool: nat)

  /** What `createRepository` would hand out for an entity class. */
  datatype Repository = Repository(entity: Cls)

  /** `{ text, values }`, with `rowMode: 'array'` for `queryArray`. */
  datatype QueryRequest<V> = QueryRequest(text: string, values: seq<V>, arrayRows: bool)

  /** A property read in a method of the module class: `this.name` or `super.name`. */
  datatype Access = ThisAccess | SuperAccess

  /**
   * The own properties of a module instance: the fields and the constructor's parameter
   * properties (`token`, `options`).
   */
  const InstanceProperties: set<string> := {"_isInitialized", "_logger", "token", "options", "_pool"}
  /** The properties of the module class's prototype: its methods and the `_databaseUrl` getter. */
  const ModulePrototypeProperties: set<string> :=
    {"constructor", "_init", "_createApi", "_createQuery", "_createQueryArray", "_createDatabase", "_migrate",
     "_createPool", "_databaseUrl"}
  /** The properties of `DatabaseModuleBase.prototype`: its non-abstract methods. */
  const BasePrototypeProperties: set<string> := {"constructor", "connect", "init", "createRepository"}

  /**
   * Whether the read finds a property. `this.name` looks at the instance, then along its
   * prototype chain. `super.name` starts at `DatabaseModuleBase.prototype`, past the
   * instance. `Object.prototype`, at the end of both chains, has none of these names.
   */
  predicate Finds(a: Access, name: string) {
    if a.ThisAccess? then name in InstanceProperties || name in ModulePrototypeProperties || name in BasePrototypeProperties
    else name in BasePrototypeProperties
  }

  /** `options` is an instance property, so `this.options` finds it and `super.options` does not. */
  lemma SuperOptionsUndefined()
    ensures Finds(ThisAccess, "options") && !Finds(SuperAccess, "options")
  {
    assert "options" in InstanceProperties;
    assert "options" !in BasePrototypeProperties;
  }

  class PostgresqlModule {
    /** The module options as `isType` sees them, with their `connection` and `migrations`. */
    const options: JsValues.JsValue
    const connection: Connection
    const migrations: Option<MigrationOptions>
    /** `_isInitialized` of `DatabaseModuleBase` */
    var initialized: bool
    /** `_pool`, as the identity of the pool object */
    var pool: Option<nat>
    /** How many pools were created: the next pool's identity. */
    var pools: nat
    /** The pools ended, in order. */
    var ended: seq<nat>
    var databases: set<string>
    /** The module database's tables that hold migration rows. */
    var tables: map<string, seq<string>>
    /** The migration scripts whose SQL ran, in order. */
    var executed: seq<string>

    ghost predicate Valid()
      reads this
    {
      (pool.Some? ==> pool.value < pools) && forall i :: 0 <= i < |ended| ==> ended[i] < pools
    }

    constructor(options: JsValues.JsValue, connection: Connection, migrations: Option<MigrationOptions>,
                databases: set<string>, tables: map<string, seq<string>>)
      ensures Valid()
      ensures this.options == options && this.connection == connection && this.migrations == migrations
      ensures !initialized && pool.None? && pools == 0 && ended == []
      ensures this.databases == databases && this.tables == tables && executed == []
    {
      this.options := options;
      this.connection := connection;
      this.migrations := migrations;
      initialized := false;
      pool := None;
      pools := 0;
      ended := [];
      this.databases := databases;
      this.tables := tables;
      executed := [];
    }

    /** `_databaseUrl` */
    function DatabaseUrl(): (url: string)
      ensures url == Url(connection)
    {
      Url(connection)
    }

    /**
     * `<access>.options.connection`: the connection of the options when the read finds
     * them; otherwise a property read on `undefined`, a `TypeError`.
     */
    function ConnectionVia(a: Access): (r: Result<Connection>)
      ensures r.Ok? <==> Finds(a, "options")
      ensures r.Ok? ==> r.value == connection
      ensures r.Err? ==> r.error == TypeError
    {
      if Finds(a, "options") then Ok(connection) else Err(TypeError)
    }

    /**
     * The `_databaseUrl` getter reading the options through `a`. As written it reads
     * `super.options.connection`, and destructuring that throws; through `this.options`
     * it is the masked URL.
     */
    function DatabaseUrlVia(a: Access): (r: Result<string>)
      ensures a.SuperAccess? ==> r == Err(TypeError)
      ensures a.ThisAccess? ==> r == Ok(DatabaseUrl())
    {
      SuperOptionsUndefined();
      var c := ConnectionVia(a);
      if c.Err? then Err(c.error) else Ok(Url(c.value))
    }

    /**
     * `_createPool` as written: an existing pool is returned, but a new one is built from
     * `super.options.connection`, which throws, so no pool is ever remembered.
     */
    method CreatePoolAsWritten() returns (r: Result<nat>)
      ensures pool.Some? ==> r == Ok(pool.value)
      ensures pool.None? ==> r == Err(TypeError)
    {
      if pool.Some? {
        return Ok(pool.value);
      }
      SuperOptionsUndefined();
      var c := ConnectionVia(SuperAccess);
      r := Err(c.error);
    }

    /** `_createApi` as written: it fails exactly when `_createPool` as written does. */
    method CreateApiAsWritten() returns (r: Result<Api>)
      ensures pool.Some? ==> r == Ok(Api(pool.value))
      ensures pool.None? ==> r == Err(TypeError)
    {
      var p := CreatePoolAsWritten();
      r := if p.Err? then Err(p.error) else Ok(Api(p.value));
    }

    /**
     * `connect` as written: the debug line evaluates `_databaseUrl` before `_createApi`
     * runs, and that getter throws, so every call is a `TypeError` and changes nothing.
     */
    method ConnectAsWritten() returns (r: Result<Api>)
      ensures r == Err(TypeError)
    {
      var url := DatabaseUrlVia(SuperAccess);
      r := Err(url.error);
    }

    /** `_createDatabase` as written: the client's options spread `super.options.connection`, which throws before any query. */
    method CreateDatabaseAsWritten() returns (outcome: Outcome)
      ensures outcome == Fail(TypeError)
    {
      SuperOptionsUndefined();
      var c := ConnectionVia(SuperAccess);
      outcome := Fail(c.error);
    }

    /** `_migrate` as written: `new Client(super.options.connection)` throws before the `try`. */
    method MigrateAsWritten(options: MigrationOptions) returns (outcome: Outcome)
      ensures outcome == Fail(TypeError)
    {
      SuperOptionsUndefined();
      var c := ConnectionVia(SuperAccess);
      outcome := Fail(c.error);
    }

    /**
     * `_init` as written: the argument `super.options.connection.database` throws before
     * `_createDatabase` runs, and the `catch` turns that into a `DatabaseError`. No
     * database is created and nothing is migrated.
     */
    method InitHookAsWritten() returns (outcome: Outcome)
      ensures outcome == Fail(DatabaseError)
    {
      SuperOptionsUndefined();
      var c := ConnectionVia(SuperAccess);
      assert c.Err?;
      outcome := Fail(DatabaseError);
    }

    /**
     * `init` of `DatabaseModuleBase` as written: on a module not yet initialised, the info
     * line evaluates `_databaseUrl` before `_init` runs. That throws, so the module is never
     * initialised, and nothing is created or migrated.
     */
    method InitAsWritten() returns (outcome: Outcome)
      ensures initialized ==> outcome == Done
      ensures !initialized ==> outcome == Fail(TypeError)
    {
      if initialized {
        return Done;
      }
      var url := DatabaseUrlVia(SuperAccess);
      outcome := Fail(url.error);
    }

    /** `_createPool`: the existing pool, or a new one that is remembered. */
    method CreatePool() returns (p: nat)
      requires Valid()
      modifies this`pool, this`pools
      ensures Valid()
      ensures old(pool).Some? ==> p == old(pool).value && pools == old(pools)
      ensures old(pool).None? ==> p == old(pools) && pools == old(pools) + 1
      ensures pool == Some(p) && p < pools
    {
      if pool.None? {
        pool := Some(pools);
        pools := pools + 1;
      }
      p := pool.value;
    }

    /** `_createApi`: the API over the module's pool. */
    method CreateApi() returns (api: Api)
      requires Valid()
      modifies this`pool, this`pools
      ensures Valid()
      ensures old(pool).Some? ==> api.pool == old(pool).value && pools == old(pools)
      ensures old(pool).None? ==> api.pool == old(pools) && pools == old(pools) + 1
      ensures pool == Some(api.pool)
    {
      var p := CreatePool();
      api := Api(p);
    }

    /**
     * The API's `close`: ends the API's pool, then forgets the module's pool, so the next
     * API gets a new one. A failing `end` is passed on and forgets nothing.
     */
    method Close(api: Api, end: Outcome) returns (outcome: Outcome)
      requires Valid() && api.pool < pools
      modifies this`pool, this`ended
      ensures Valid()
      ensures outcome == end
      ensures end.Done? ==> ended == old(ended) + [api.pool] && pool.None?
      ensures end.Fail? ==> ended == old(ended) && pool == old(pool)
    {
      outcome := end;
      if end.Fail? {
        return;
      }
      ended := ended + [api.pool];
      pool := None;
    }

    /**
     * `connect` of `DatabaseModuleBase`: the API `_createApi` builds, whose
     * `Symbol.asyncDispose` is its `close`.
     */
    method Connect() returns (api: Api)
      requires Valid()
      modifies this`pool, this`pools
      ensures Valid()
      ensures old(pool).Some? ==> api.pool == old(pool).value && pools == old(pools)
      ensures old(pool).None? ==> api.pool == old(pools) && pools == old(pools) + 1
      ensures pool == Some(api.pool)
    {
      api := CreateApi();
    }

    /** The `Symbol.asyncDispose` that `connect` adds to the API: `api.close()`. */
    method Dispose(api: Api, end: Outcome) returns (outcome: Outcome)
      requires Valid() && api.pool < pools
      modifies this`pool, this`ended
      ensures Valid()
      ensures outcome == end
      ensures end.Done? ==> ended == old(ended) + [api.pool] && pool.None?
      ensures end.Fail? ==> ended == old(ended) && pool == old(pool)
    {
      outcome := Close(api, end);
    }

    /**
     * `createRepository(entityClass)` of `DatabaseModuleBase`: a class without `'entity'`
     * metadata is a `DatabaseError`; PostgreSQL options go to the repository factory,
     * whose `create` throws `Method not implemented.`; any other options are a
     * `ConfigurationError`.
     */
    function CreateRepository(cells: Store, entityClass: Cls): (r: Result<Repository>)
      ensures CreateKind(cells, "entity", ClassObj(entityClass), None).None? ==> r == Err(DatabaseError)
      ensures CreateKind(cells, "entity", ClassObj(entityClass), None).Some? ==>
        r == (if ReflectUtil.IsType(options, PostgresqlType) then Err(NotImplemented) else Err(ConfigurationError))
    {
      var entityMetadata := CreateKind(cells, "entity", ClassObj(entityClass), None);
      if entityMetadata.None? then Err(DatabaseError)
      else if ReflectUtil.IsType(options, PostgresqlType) then CreateRepositoryWith(entityClass)
      else Err(ConfigurationError)
    }

    /** `PostgresqlRepositoryFactory.create`, which is not implemented and throws. */
    function CreateRepositoryWith(entityClass: Cls): (r: Result<Repository>)
      ensures r == Err(NotImplemented)
    {
      Err(NotImplemented)
    }

    /** `_createQuery(client)(template, ...values)`, up to sending it. */
    method CreateQuery<V>(parts: seq<string>, values: seq<V>, text: V -> string) returns (request: QueryRequest<V>)
      ensures request.text == SqlTemplates.QueryText(parts, values, text, |parts|)
      ensures request.values == SqlTemplates.Placeholders(parts, values, |parts|)
      ensures !request.arrayRows
    {
      var q := SqlTemplates.Compile(parts, values, text);
      request := QueryRequest(q.text, q.params, false);
    }

    /** `_createQueryArray(client)(template, ...values)`, up to sending it. */
    method CreateQueryArray<V>(parts: seq<string>, values: seq<V>, text: V -> string) returns (request: QueryRequest<V>)
      ensures request.text == SqlTemplates.QueryText(parts, values, text, |parts|)
      ensures request.values == SqlTemplates.Placeholders(parts, values, |parts|)
      ensures request.arrayRows
    {
      var q := SqlTemplates.Compile(parts, values, text);
      request := QueryRequest(q.text, q.params, true);
    }

    /**
     * `_createDatabase(database)`: over a connection to the `postgres` database, create the
     * module's database unless it exists.
     */
    method CreateDatabase(reachable: Outcome) returns (outcome: Outcome)
      modifies this`databases
      ensures reachable.Fail? ==> outcome == Fail(DatabaseError) && databases == old(databases)
      ensures reachable.Done? ==> outcome == Done && databases == old(databases) + {connection.database}
    {
      if reachable.Fail? {
        return Fail(DatabaseError);
      }
      if connection.database !in databases {
        databases := databases + {connection.database};
      }
      outcome := Done;
    }

    /**
     * `_migrate(options)`: create the migration table if it does not exist, read the
     * recorded names, and run the declared scripts not among them.
     */
    method Migrate(options: MigrationOptions, reachable: Outcome, failing: set<string>) returns (outcome: Outcome)
      modifies this`tables, this`executed
      ensures var t := TableOf(options);
        var rows := if t in old(tables) then old(tables)[t] else [];
        var run := ApplyAll(rows, NeededMigrations(ScriptsOf(options), rows), failing);
        && (reachable.Fail? ==> outcome == Fail(DatabaseError) && tables == old(tables) && executed == old(executed))
        && (reachable.Done? ==>
              outcome == run.outcome && tables == old(tables)[t := run.rows] && executed == old(executed) + run.executed)
    {
      if reachable.Fail? {
        return Fail(DatabaseError);
      }
      var table := TableOf(options);
      if table !in tables {
        tables := tables[table := []];
      }
      var migrationNames := tables[table];
      var needMigrations := NeededMigrations(ScriptsOf(options), migrationNames);
      if needMigrations == [] {
        assert executed + [] == executed;
        return Done;
      }
      assert migrationNames + [] == migrationNames;
      outcome := ApplyScripts(table, migrationNames, needMigrations, failing);
    }

    /** The `for` loop of `_migrate` over the selected scripts. */
    method ApplyScripts(table: string, migrationNames: seq<string>, needMigrations: seq<string>, failing: set<string>)
      returns (outcome: Outcome)
      requires table in tables && tables[table] == migrationNames
      modifies this`tables, this`executed
      ensures var run := ApplyAll(migrationNames, needMigrations, failing);
        outcome == run.outcome && tables == old(tables)[table := run.rows] && executed == old(executed) + run.executed
    {
      var i := 0;
      AfterNothing(ApplyAll(migrationNames, needMigrations, failing));
      while i < |needMigrations|
        invariant 0 <= i <= |needMigrations| && table in tables
        invariant tables == old(tables)[table := tables[table]]
        invariant executed == old(executed) + needMigrations[..i]
        invariant ApplyAll(migrationNames, needMigrations, failing)
               == After(needMigrations[..i], ApplyAll(tables[table], needMigrations[i..], failing))
      {
        var script := needMigrations[i];
        ApplyStep(migrationNames, needMigrations, failing, i, tables[table]);
        if script in failing {
          outcome := Fail(DatabaseError);
          return;
        }
        executed := executed + [script];
        if script in tables[table] {
          outcome := Fail(DatabaseError);
          return;
        }
        tables := tables[table := tables[table] + [script]];
        i := i + 1;
      }
      assert needMigrations[i..] == [];
      assert needMigrations[..i] == needMigrations;
      outcome := Done;
    }

    /** `_init`: create the database, then migrate when migration options are given. */
    method InitHook(createReachable: Outcome, migrateReachable: Outcome, failing: set<string>) returns (outcome: Outcome)
      modifies this`databases, this`tables, this`executed
      ensures createReachable.Fail? ==> outcome == Fail(DatabaseError) && databases == old(databases)
      ensures createReachable.Done? ==> databases == old(databases) + {connection.database}
      ensures createReachable.Fail? || migrations.None? ==> tables == old(tables) && executed == old(executed)
      ensures createReachable.Done? && migrations.None? ==> outcome == Done
      ensures createReachable.Done? && migrations.Some? ==>
        var t := TableOf(migrations.value);
        var rows := if t in old(tables) then old(tables)[t] else [];
        var run := ApplyAll(rows, NeededMigrations(ScriptsOf(migrations.value), rows), failing);
        && (migrateReachable.Fail? ==> outcome == Fail(DatabaseError) && tables == old(tables) && executed == old(executed))
        && (migrateReachable.Done? ==>
              outcome == run.outcome && tables == old(tables)[t := run.rows] && executed == old(executed) + run.executed)
      ensures outcome.Fail? ==> outcome.error == DatabaseError
    {
      outcome := CreateDatabase(createReachable);
      if outcome.Fail? {
        return;
      }
      if migrations.Some? {
        outcome := Migrate(migrations.value, migrateReachable, failing);
        if outcome.Fail? {
          ghost var t := TableOf(migrations.value);
          ghost var rows := if t in old(tables) then old(tables)[t] else [];
          if migrateReachable.Done? {
            var k := ApplyAllShape(rows, NeededMigrations(ScriptsOf(migrations.value), rows), failing);
          }
          outcome := Fail(DatabaseError);
        }
      }
    }

    /**
     * `init` of `DatabaseModuleBase`: a module already initialised does nothing; otherwise
     * `_init` runs and the module counts as initialised only if it succeeded.
     */
    method Init(createReachable: Outcome, migrateReachable: Outcome, failing: set<string>) returns (outcome: Outcome)
      modifies this`initialized, this`databases, this`tables, this`executed
      ensures old(initialized) ==> outcome == Done && initialized
      ensures old(initialized) ==> databases == old(databases) && tables == old(tables) && executed == old(executed)
      ensures !old(initialized) ==> initialized == outcome.Done?
      ensures !old(initialized) && createReachable.Done? ==> databases == old(databases) + {connection.database}
      ensures !old(initialized) && createReachable.Fail? ==>
        outcome == Fail(DatabaseError) && databases == old(databases) && tables == old(tables) && executed == old(executed)
      ensures !old(initialized) && createReachable.Done? && migrations.None? ==>
        outcome == Done && tables == old(tables) && executed == old(executed)
      ensures !old(initialized) && createReachable.Done? && migrations.Some? && migrateReachable.Fail? ==>
        outcome == Fail(DatabaseError) && tables == old(tables) && executed == old(executed)
      ensures !old(initialized) && outcome.Fail? ==> outcome.error == DatabaseError
      ensures !old(initialized) && createReachable.Done? && migrations.Some? && migrateReachable.Done? ==>
        var t := TableOf(migrations.value);
        var rows := if t in old(tables) then old(tables)[t] else [];
        var run := ApplyAll(rows, NeededMigrations(ScriptsOf(migrations.value), rows), failing);
        outcome == run.outcome && tables == old(tables)[t := run.rows] && executed == old(executed) + run.executed
    {
      if initialized {
        return Done;
      }
      outcome := InitHook(createReachable, migrateReachable, failing);
      if outcome.Done? {
        initialized := true;
      }
    }
  }
}
