/**
 * `@Module` (src/common/core/decorators/app/_module.decorator.ts): merges the declared
 * submodules, controllers and providers into the class's module record.
 */
module AppModuleDecorator {
  import opened Wrappers
  import opened CoreTypes
  import opened Metadata

  /** `ModuleDecoratorOptions`: each list may be omitted. */
  datatype ModuleOptions = ModuleOptions(
    modules: Option<seq<Cls>>,
    controllers: Option<seq<Cls>>,
    providers: Option<seq<Cls>>)

  /** `@Module()` with no argument. */
  const NoOptions := ModuleOptions(None, None, None)

  /** The class-level view of a module class. */
  function ModuleView(target: Cls): View {
    Create(ClassObj(target), None)
  }

  /** The record `defineMetadata` writes: each list is the visible list followed by the new one. */
  function ModuleRecord(cells: Store, target: Cls, options: ModuleOptions): seq<Entry> {
    var view := ModuleView(target);
    [ ("$kind", VString("module")),
      ("controllers", VClasses(ClassesOr(Get(cells, view, "controllers")) + options.controllers.GetOr([]))),
      ("providers", VClasses(ClassesOr(Get(cells, view, "providers")) + options.providers.GetOr([]))),
      ("modules", VClasses(ClassesOr(Get(cells, view, "modules")) + options.modules.GetOr([]))) ]
  }

  /** The store after `@Module(options)` on `target`. */
  function Decorated(cells: Store, target: Cls, options: ModuleOptions): Store {
    DefineAll(cells, ModuleView(target), ModuleRecord(cells, target, options))
  }

  /** `Module(options)(target)`; the tsyringe `Singleton()` registration is left out. */
  method Module(store: Registry, target: Cls, options: ModuleOptions)
    modifies store
    ensures store.cells == Decorated(old(store.cells), target, options)
  {
    DefineMetadata(store, target, options);
  }

  /** `defineMetadata(constructor, options)` */
  method DefineMetadata(store: Registry, target: Cls, options: ModuleOptions)
    modifies store
    ensures store.cells == Decorated(old(store.cells), target, options)
  {
    var moduleMetadata := Create(ClassObj(target), None);
    var baseModules := ClassesOr(Get(store.cells, moduleMetadata, "modules"));
    var baseControllers := ClassesOr(Get(store.cells, moduleMetadata, "controllers"));
    var baseProviders := ClassesOr(Get(store.cells, moduleMetadata, "providers"));
    store.Define(moduleMetadata, [
      ("$kind", VString("module")),
      ("controllers", VClasses(baseControllers + options.controllers.GetOr([]))),
      ("providers", VClasses(baseProviders + options.providers.GetOr([]))),
      ("modules", VClasses(baseModules + options.modules.GetOr([])))
    ]);
  }

  /** The keys the module record consists of. */
  predicate ModuleKey(key: string) {
    key == "$kind" || key == "controllers" || key == "providers" || key == "modules"
  }

  lemma RecordEntries(cells: Store, target: Cls, options: ModuleOptions, key: string)
    ensures EntryFor(ModuleRecord(cells, target, options), key).Some? <==> ModuleKey(key)
    ensures key == "$kind" ==> EntryFor(ModuleRecord(cells, target, options), key) == Some(VString("module"))
    ensures key == "controllers" ==>
      EntryFor(ModuleRecord(cells, target, options), key) == Some(VClasses(ClassesOr(Get(cells, ModuleView(target), "controllers")) + options.controllers.GetOr([])))
    ensures key == "providers" ==>
      EntryFor(ModuleRecord(cells, target, options), key) == Some(VClasses(ClassesOr(Get(cells, ModuleView(target), "providers")) + options.providers.GetOr([])))
    ensures key == "modules" ==>
      EntryFor(ModuleRecord(cells, target, options), key) == Some(VClasses(ClassesOr(Get(cells, ModuleView(target), "modules")) + options.modules.GetOr([])))
  {
    var r := ModuleRecord(cells, target, options);
    assert DistinctKeys(r);
    if key == "$kind" {
      EntryForAt(r, 0);
    } else if key == "controllers" {
      EntryForAt(r, 1);
    } else if key == "providers" {
      EntryForAt(r, 2);
    } else if key == "modules" {
      EntryForAt(r, 3);
    } else {
      EntryForMissing(r, key);
    }
  }

  /** After decoration the kind-checked `'module'` lookup on the class succeeds. */
  lemma ModuleKind(cells: Store, target: Cls, options: ModuleOptions)
    ensures CreateKind(Decorated(cells, target, options), "module", ClassObj(target), None) == Some(ModuleView(target))
  {
    RecordEntries(cells, target, options, "$kind");
    DefineAllGet(cells, ModuleView(target), ModuleRecord(cells, target, options), "$kind");
  }

  /**
   * Each list is the previously visible list followed by the declared entries, in order;
   * an omitted list counts as empty, so all three keys are present afterwards.
   */
  lemma ModuleListsAppend(cells: Store, target: Cls, options: ModuleOptions)
    ensures var after := Decorated(cells, target, options);
      && Has(after, ModuleView(target), "modules")
      && Has(after, ModuleView(target), "controllers")
      && Has(after, ModuleView(target), "providers")
      && ClassesOr(Get(after, ModuleView(target), "modules"))
         == ClassesOr(Get(cells, ModuleView(target), "modules")) + options.modules.GetOr([])
      && ClassesOr(Get(after, ModuleView(target), "controllers"))
         == ClassesOr(Get(cells, ModuleView(target), "controllers")) + options.controllers.GetOr([])
      && ClassesOr(Get(after, ModuleView(target), "providers"))
         == ClassesOr(Get(cells, ModuleView(target), "providers")) + options.providers.GetOr([])
  {
    var view, record := ModuleView(target), ModuleRecord(cells, target, options);
    RecordEntries(cells, target, options, "modules");
    RecordEntries(cells, target, options, "controllers");
    RecordEntries(cells, target, options, "providers");
    DefineAllGet(cells, view, record, "modules");
    DefineAllGet(cells, view, record, "controllers");
    DefineAllGet(cells, view, record, "providers");
  }

  /** Decorating twice appends twice: nothing is de-duplicated. */
  lemma ModuleTwice(cells: Store, target: Cls, first: ModuleOptions, second: ModuleOptions)
    ensures var twice := Decorated(Decorated(cells, target, first), target, second);
      && ClassesOr(Get(twice, ModuleView(target), "modules"))
         == ClassesOr(Get(cells, ModuleView(target), "modules")) + first.modules.GetOr([]) + second.modules.GetOr([])
      && ClassesOr(Get(twice, ModuleView(target), "controllers"))
         == ClassesOr(Get(cells, ModuleView(target), "controllers")) + first.controllers.GetOr([]) + second.controllers.GetOr([])
      && ClassesOr(Get(twice, ModuleView(target), "providers"))
         == ClassesOr(Get(cells, ModuleView(target), "providers")) + first.providers.GetOr([]) + second.providers.GetOr([])
  {
    ModuleListsAppend(cells, target, first);
    ModuleListsAppend(Decorated(cells, target, first), target, second);
  }

  /** Nothing but the four cells of the class's own module record changes. */
  lemma ModuleKeepsOthers(cells: Store, target: Cls, options: ModuleOptions, c: Cell)
    requires c.owner != ClassObj(target) || c.member.Some? || !ModuleKey(c.key)
    ensures Stored(Decorated(cells, target, options), c) == Stored(cells, c)
  {
    RecordEntries(cells, target, options, c.key);
    DefineAllCells(cells, ModuleView(target), ModuleRecord(cells, target, options), c);
  }
}
