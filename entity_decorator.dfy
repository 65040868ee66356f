/**
 * `@Entity` (src/common/core/decorators/database/_entity.decorator.ts): tags a class as an
 * entity mapped to a table and keeps the properties recorded so far.
 */
module EntityDecorator {
  import opened Wrappers
  import opened CoreTypes
  import opened Metadata

  /** `EntityDecoratorOptions | string` */
  datatype EntityArg = TableName(table: string) | EntityOptions(options: EntityOptionsRecord)

  /** `EntityDecoratorOptions` */
  datatype EntityOptionsRecord = EntityOptionsRecord(table: string)

  function EntityView(target: Cls): View {
    Create(ClassObj(target), None)
  }

  /** The table an argument names: a string is the table itself. */
  function TableOf(arg: EntityArg): (table: string)
    ensures arg.TableName? ==> table == arg.table
    ensures arg.EntityOptions? ==> table == arg.options.table
  {
    match arg
    case TableName(t) => t
    case EntityOptions(o) => o.table
  }

  function EntityRecord(cells: Store, target: Cls, table: string): seq<Entry> {
    [ ("$kind", VString("entity")),
      ("table", VString(table)),
      ("properties", VKeys(KeysOr(Get(cells, EntityView(target), "properties")))) ]
  }

  /** The store after `defineMetadata(constructor, { table })`. */
  function Decorated(cells: Store, target: Cls, table: string): Store {
    DefineAll(cells, EntityView(target), EntityRecord(cells, target, table))
  }

  /** `Entity(arg)(constructor)` */
  method Entity(store: Registry, target: Cls, arg: EntityArg)
    modifies store
    ensures store.cells == Decorated(old(store.cells), target, TableOf(arg))
  {
    if arg.TableName? {
      var table := arg.table;
      DefineMetadata(store, target, EntityOptionsRecord(table));
    } else {
      DefineMetadata(store, target, arg.options);
    }
  }

  method DefineMetadata(store: Registry, target: Cls, options: EntityOptionsRecord)
    modifies store
    ensures store.cells == Decorated(old(store.cells), target, options.table)
  {
    var controllerMetadata := Create(ClassObj(target), None);
    var baseProperties := KeysOr(Get(store.cells, controllerMetadata, "properties"));
    store.Define(controllerMetadata, [
      ("$kind", VString("entity")),
      ("table", VString(options.table)),
      ("properties", VKeys(baseProperties))
    ]);
  }

  predicate EntityKey(key: string) {
    key == "$kind" || key == "table" || key == "properties"
  }

  lemma RecordEntries(cells: Store, target: Cls, table: string, key: string)
    ensures EntryFor(EntityRecord(cells, target, table), key).Some? <==> EntityKey(key)
    ensures key == "$kind" ==> EntryFor(EntityRecord(cells, target, table), key) == Some(VString("entity"))
    ensures key == "table" ==> EntryFor(EntityRecord(cells, target, table), key) == Some(VString(table))
    ensures key == "properties" ==>
      EntryFor(EntityRecord(cells, target, table), key) == Some(VKeys(KeysOr(Get(cells, EntityView(target), "properties"))))
  {
    var r := EntityRecord(cells, target, table);
    assert DistinctKeys(r);
    if key == "$kind" {
      EntryForAt(r, 0);
    } else if key == "table" {
      EntryForAt(r, 1);
    } else if key == "properties" {
      EntryForAt(r, 2);
    } else {
      EntryForMissing(r, key);
    }
  }

  /** The class is an entity with the given table, and its properties so far (`[]` if none) are kept. */
  lemma EntityRecorded(cells: Store, target: Cls, table: string)
    ensures var after := Decorated(cells, target, table);
      && CreateKind(after, "entity", ClassObj(target), None) == Some(EntityView(target))
      && Get(after, EntityView(target), "table") == Some(VString(table))
      && Get(after, EntityView(target), "properties") == Some(VKeys(KeysOr(Get(cells, EntityView(target), "properties"))))
  {
    var view, r := EntityView(target), EntityRecord(cells, target, table);
    RecordEntries(cells, target, table, "$kind");
    RecordEntries(cells, target, table, "table");
    RecordEntries(cells, target, table, "properties");
    DefineAllGet(cells, view, r, "$kind");
    DefineAllGet(cells, view, r, "table");
    DefineAllGet(cells, view, r, "properties");
  }

  /** Decorating again replaces the table and keeps the properties list. */
  lemma EntityTwice(cells: Store, target: Cls, first: string, second: string)
    ensures var after := Decorated(Decorated(cells, target, first), target, second);
      && Get(after, EntityView(target), "table") == Some(VString(second))
      && KeysOr(Get(after, EntityView(target), "properties")) == KeysOr(Get(cells, EntityView(target), "properties"))
  {
    EntityRecorded(cells, target, first);
    EntityRecorded(Decorated(cells, target, first), target, second);
  }

  /** Nothing but the three cells of the entity record changes. */
  lemma EntityKeepsOthers(cells: Store, target: Cls, table: string, c: Cell)
    requires c.owner != ClassObj(target) || c.member.Some? || !EntityKey(c.key)
    ensures Stored(Decorated(cells, target, table), c) == Stored(cells, c)
  {
    RecordEntries(cells, target, table, c.key);
    DefineAllCells(cells, EntityView(target), EntityRecord(cells, target, table), c);
  }
}
