/**
 * `@Controller` (src/common/core/decorators/app/_controller.decorator.ts): composes the
 * controller's path with the path visible on the class (possibly inherited from a parent
 * controller) and keeps the actions recorded so far.
 */
module AppControllerDecorator {
  import opened Wrappers
  import opened CoreTypes
  import opened Metadata
  import StringUtil

  /** `ControllerDecoratorOptions` */
  datatype ControllerOptions = ControllerOptions(path: Option<string>)

  /** The decorator argument: `ControllerDecoratorOptions | string`, defaulting to `{}`. */
  datatype ControllerArg = PathArg(path: string) | OptionsArg(options: ControllerOptions)

  const NoArg := OptionsArg(ControllerOptions(None))

  function ControllerView(target: Cls): View {
    Create(ClassObj(target), None)
  }

  /** `resolvePath(basePath, path)` */
  function ComposedPath(cells: Store, target: Cls, options: ControllerOptions): string {
    StringUtil.ResolvePath([StringOf(Get(cells, ControllerView(target), "path")), options.path])
  }

  function ControllerRecord(cells: Store, target: Cls, options: ControllerOptions): seq<Entry> {
    [ ("$kind", VString("controller")),
      ("name", VString(target.name)),
      ("path", VString(ComposedPath(cells, target, options))),
      ("actions", VKeys(KeysOr(Get(cells, ControllerView(target), "actions")))) ]
  }

  /** The store after `defineMetadata(target, options)`. */
  function Decorated(cells: Store, target: Cls, options: ControllerOptions): Store {
    DefineAll(cells, ControllerView(target), ControllerRecord(cells, target, options))
  }

  /**
   * `Controller(arg)(target)`: a string argument `s` is `{ path: s }`. The tsyringe
   * `Injectable()` registration is left out.
   */
  method Controller(store: Registry, target: Cls, arg: ControllerArg)
    modifies store
    ensures arg.PathArg? ==> store.cells == Decorated(old(store.cells), target, ControllerOptions(Some(arg.path)))
    ensures arg.OptionsArg? ==> store.cells == Decorated(old(store.cells), target, arg.options)
  {
    if arg.PathArg? {
      var path := arg.path;
      DefineMetadata(store, target, ControllerOptions(Some(path)));
    } else {
      DefineMetadata(store, target, arg.options);
    }
  }

  /** `defineMetadata(constructor, { path })` */
  method DefineMetadata(store: Registry, target: Cls, options: ControllerOptions)
    modifies store
    ensures store.cells == Decorated(old(store.cells), target, options)
  {
    var controllerMetadata := Create(ClassObj(target), None);
    var basePath := StringOf(Get(store.cells, controllerMetadata, "path"));
    var baseActions := KeysOr(Get(store.cells, controllerMetadata, "actions"));
    store.Define(controllerMetadata, [
      ("$kind", VString("controller")),
      ("name", VString(target.name)),
      ("path", VString(StringUtil.ResolvePath([basePath, options.path]))),
      ("actions", VKeys(baseActions))
    ]);
  }

  predicate ControllerKey(key: string) {
    key == "$kind" || key == "name" || key == "path" || key == "actions"
  }

  lemma RecordEntries(cells: Store, target: Cls, options: ControllerOptions, key: string)
    ensures EntryFor(ControllerRecord(cells, target, options), key).Some? <==> ControllerKey(key)
    ensures key == "$kind" ==> EntryFor(ControllerRecord(cells, target, options), key) == Some(VString("controller"))
    ensures key == "name" ==> EntryFor(ControllerRecord(cells, target, options), key) == Some(VString(target.name))
    ensures key == "path" ==>
      EntryFor(ControllerRecord(cells, target, options), key) == Some(VString(ComposedPath(cells, target, options)))
    ensures key == "actions" ==>
      EntryFor(ControllerRecord(cells, target, options), key) == Some(VKeys(KeysOr(Get(cells, ControllerView(target), "actions"))))
  {
    var r := ControllerRecord(cells, target, options);
    assert DistinctKeys(r);
    if key == "$kind" {
      EntryForAt(r, 0);
    } else if key == "name" {
      EntryForAt(r, 1);
    } else if key == "path" {
      EntryForAt(r, 2);
    } else if key == "actions" {
      EntryForAt(r, 3);
    } else {
      EntryForMissing(r, key);
    }
  }

  /**
   * The decorated class is a controller named after the class, its path is
   * `resolvePath(visible path, given path)` and in normal form, and the actions recorded
   * so far (`[]` if none) are kept.
   */
  lemma ControllerRecorded(cells: Store, target: Cls, options: ControllerOptions)
    ensures var after := Decorated(cells, target, options);
      && CreateKind(after, "controller", ClassObj(target), None) == Some(ControllerView(target))
      && Get(after, ControllerView(target), "name") == Some(VString(target.name))
      && Get(after, ControllerView(target), "path")
         == Some(VString(StringUtil.ResolvePath([StringOf(Get(cells, ControllerView(target), "path")), options.path])))
      && StringUtil.Normal(StringOf(Get(after, ControllerView(target), "path")).value)
      && KeysOr(Get(after, ControllerView(target), "actions")) == KeysOr(Get(cells, ControllerView(target), "actions"))
  {
    var view, record := ControllerView(target), ControllerRecord(cells, target, options);
    RecordEntries(cells, target, options, "$kind");
    RecordEntries(cells, target, options, "name");
    RecordEntries(cells, target, options, "path");
    RecordEntries(cells, target, options, "actions");
    DefineAllGet(cells, view, record, "$kind");
    DefineAllGet(cells, view, record, "name");
    DefineAllGet(cells, view, record, "path");
    DefineAllGet(cells, view, record, "actions");
  }

  /**
   * A subclass controller without a path of its own composes its parent's path: the
   * recorded path is the parent's path resolved together with the subclass's.
   */
  lemma SubclassComposesPath(cells: Store, target: Cls, parentPath: string, options: ControllerOptions)
    requires target.base.Some?
    requires Cell(ClassObj(target), None, "path") !in cells
    requires Get(cells, ControllerView(target.base.value), "path") == Some(VString(parentPath))
    ensures Get(Decorated(cells, target, options), ControllerView(target), "path")
         == Some(VString(StringUtil.ResolvePath([Some(parentPath), options.path])))
  {
    ControllerRecorded(cells, target, options);
  }

  /** Nothing but the four cells of the class's own controller record changes. */
  lemma ControllerKeepsOthers(cells: Store, target: Cls, options: ControllerOptions, c: Cell)
    requires c.owner != ClassObj(target) || c.member.Some? || !ControllerKey(c.key)
    ensures Stored(Decorated(cells, target, options), c) == Stored(cells, c)
  {
    RecordEntries(cells, target, options, c.key);
    DefineAllCells(cells, ControllerView(target), ControllerRecord(cells, target, options), c);
  }
}
