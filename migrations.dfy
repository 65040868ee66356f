/**
 * Migration bookkeeping shared by the two PostgreSQL modules: the `migrations` options with
 * their defaults, the script selection of the module factory
 * (src/common/core/database/postgresql/_module-factory.ts) and the outcome of a migration
 * run. A `Run` is what a run leaves behind: the rows of the migration table, the scripts
 * whose SQL was executed, in order, and how the run ended.
 */
module Migrations {
  import opened Wrappers

  /** `MIGRATION_TABLE.NAME` */
  const MigrationTable := "__migrations"

  /** `migrations?: { table?, dir?, scripts? }` */
  datatype MigrationOptions = MigrationOptions(table: Option<string>, dir: Option<string>, scripts: Option<seq<string>>)

  /** `table = MIGRATION_TABLE.NAME` */
  function TableOf(options: MigrationOptions): (t: string)
    ensures options.table.None? ==> t == MigrationTable
    ensures options.table.Some? ==> t == options.table.value
  {
    options.table.GetOr(MigrationTable)
  }

  /** `scripts = []` */
  function ScriptsOf(options: MigrationOptions): (s: seq<string>)
    ensures options.scripts.None? ==> s == []
    ensures options.scripts.Some? ==> s == options.scripts.value
  {
    options.scripts.GetOr([])
  }

  /** `scripts.filter((script) => !migrationNames.includes(script))` */
  function NeededMigrations(scripts: seq<string>, recorded: seq<string>): seq<string> {
    if scripts == [] then []
    else (if scripts[0] in recorded then [] else [scripts[0]]) + NeededMigrations(scripts[1..], recorded)
  }

  /** A script is selected exactly when it is declared and not yet recorded. */
  lemma {:induction false} NeededMembers(scripts: seq<string>, recorded: seq<string>)
    ensures var r := NeededMigrations(scripts, recorded);
      && |r| <= |scripts|
      && forall s :: s in r <==> s in scripts && s !in recorded
    decreases |scripts|
  {
    if scripts != [] {
      NeededMembers(scripts[1..], recorded);
      assert scripts == [scripts[0]] + scripts[1..];
    }
  }

  /** When every declared script is recorded, nothing is selected. */
  lemma {:induction false} NothingNeeded(scripts: seq<string>, recorded: seq<string>)
    requires forall s :: s in scripts ==> s in recorded
    ensures NeededMigrations(scripts, recorded) == []
    decreases |scripts|
  {
    if scripts != [] {
      assert scripts[0] in scripts;
      forall s | s in scripts[1..]
        ensures s in recorded
      {
        assert s in scripts;
      }
      NothingNeeded(scripts[1..], recorded);
    }
  }

  /**
   * Selection distributes over concatenation, so the selected scripts keep their declared
   * order.
   */
  lemma {:induction false} NeededSplits(a: seq<string>, b: seq<string>, recorded: seq<string>)
    ensures NeededMigrations(a + b, recorded) == NeededMigrations(a, recorded) + NeededMigrations(b, recorded)
    decreases |a|
  {
    if a == [] {
      assert a + b == b;
    } else {
      assert (a + b)[1..] == a[1..] + b;
      NeededSplits(a[1..], b, recorded);
    }
  }

  /** What a run leaves behind. */
  datatype Run = Run(rows: seq<string>, executed: seq<string>, outcome: Outcome)

  /** A run that first executed `done` and then went on as `rest`. */
  function After(done: seq<string>, rest: Run): (r: Run)
    ensures r.rows == rest.rows && r.outcome == rest.outcome
    ensures r.executed == done + rest.executed
  {
    Run(rest.rows, done + rest.executed, rest.outcome)
  }

  lemma AfterNothing(rest: Run)
    ensures After([], rest) == rest
  {
    assert [] + rest.executed == rest.executed;
  }

  lemma AfterAfter(a: seq<string>, b: seq<string>, rest: Run)
    ensures After(a, After(b, rest)) == After(a + b, rest)
  {
    assert a + (b + rest.executed) == (a + b) + rest.executed;
  }
}
