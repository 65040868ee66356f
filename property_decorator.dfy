/**
 * `@Property` (src/common/core/decorators/database/_property.decorator.ts): appends the
 * member to its class's `properties` list and records the member's column.
 */
module PropertyDecorator {
  import opened Wrappers
  import opened CoreTypes
  import opened Metadata

  /** `PropertyDecoratorOptions | string` */
  datatype PropertyArg = ColumnName(column: string) | PropertyOptions(options: PropertyOptionsRecord)

  /** `PropertyDecoratorOptions` */
  datatype PropertyOptionsRecord = PropertyOptionsRecord(column: string)

  /** The column an argument names: a string is the column itself. */
  function ColumnOf(arg: PropertyArg): (column: string)
    ensures arg.ColumnName? ==> column == arg.column
    ensures arg.PropertyOptions? ==> column == arg.options.column
  {
    match arg
    case ColumnName(c) => c
    case PropertyOptions(o) => o.column
  }

  /** The class-level view of `target.constructor` and the member's view. */
  function EntityView(target: Target): View {
    Create(Constructor(target), None)
  }

  function PropertyView(target: Target, propertyKey: string): View {
    Create(target, Some(propertyKey))
  }

  function PropertyRecord(column: string): seq<Entry> {
    [ ("$kind", VString("property")), ("column", VString(column)) ]
  }

  /** The store after `defineMetadata(target, propertyKey, { column })`. */
  function Decorated(cells: Store, target: Target, propertyKey: string, column: string): Store {
    var properties := KeysOr(Get(cells, EntityView(target), "properties"));
    var listed := SetCell(cells, EntityView(target), "properties", VKeys(properties + [propertyKey]));
    DefineAll(listed, PropertyView(target, propertyKey), PropertyRecord(column))
  }

  /** `Property(arg)(target, propertyKey)` */
  method Property(store: Registry, arg: PropertyArg, target: Target, propertyKey: string)
    modifies store
    ensures store.cells == Decorated(old(store.cells), target, propertyKey, ColumnOf(arg))
  {
    if arg.ColumnName? {
      var column := arg.column;
      DefineMetadata(store, target, propertyKey, PropertyOptionsRecord(column));
    } else {
      DefineMetadata(store, target, propertyKey, arg.options);
    }
  }

  method DefineMetadata(store: Registry, target: Target, propertyKey: string, options: PropertyOptionsRecord)
    modifies store
    ensures store.cells == Decorated(old(store.cells), target, propertyKey, options.column)
  {
    var entityMetadata := Create(Constructor(target), None);
    var propertyMetadata := Create(target, Some(propertyKey));
    var entityProperties := KeysOr(Get(store.cells, entityMetadata, "properties"));
    store.Set(entityMetadata, "properties", VKeys(entityProperties + [propertyKey]));
    store.Define(propertyMetadata, [
      ("$kind", VString("property")),
      ("column", VString(options.column))
    ]);
  }

  /**
   * The member's key is appended to the end of the class's `properties` (duplicates kept),
   * the member becomes a property with the given column, and the class-level `$kind` is
   * not touched.
   */
  lemma PropertyRecorded(cells: Store, target: Target, propertyKey: string, column: string)
    ensures var after := Decorated(cells, target, propertyKey, column);
      var member := PropertyView(target, propertyKey);
      && KeysOr(Get(after, EntityView(target), "properties"))
         == KeysOr(Get(cells, EntityView(target), "properties")) + [propertyKey]
      && CreateKind(after, "property", target, Some(propertyKey)) == Some(member)
      && Get(after, member, "column") == Some(VString(column))
      && Get(after, EntityView(target), "$kind") == Get(cells, EntityView(target), "$kind")
  {
    var properties := KeysOr(Get(cells, EntityView(target), "properties"));
    var listed := SetCell(cells, EntityView(target), "properties", VKeys(properties + [propertyKey]));
    var r := PropertyRecord(column);
    assert DistinctKeys(r);
    EntryForAt(r, 0);
    EntryForAt(r, 1);
    DefineAllGet(listed, PropertyView(target, propertyKey), r, "$kind");
    DefineAllGet(listed, PropertyView(target, propertyKey), r, "column");
    DefineAllKeeps(listed, PropertyView(target, propertyKey), r, EntityView(target), "properties");
    DefineAllKeeps(listed, PropertyView(target, propertyKey), r, EntityView(target), "$kind");
    SetCellKeeps(cells, EntityView(target), "properties", VKeys(properties + [propertyKey]), EntityView(target), "$kind");
  }

  /** Decorating two members in a row lists both, in order, after the earlier ones. */
  lemma PropertiesInOrder(cells: Store, target: Target, first: string, second: string, c1: string, c2: string)
    ensures KeysOr(Get(Decorated(Decorated(cells, target, first, c1), target, second, c2), EntityView(target), "properties"))
         == KeysOr(Get(cells, EntityView(target), "properties")) + [first, second]
  {
    PropertyRecorded(cells, target, first, c1);
    PropertyRecorded(Decorated(cells, target, first, c1), target, second, c2);
  }
}
