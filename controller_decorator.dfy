/**
 * The older `@Controller` (src/common/core/decorators/_controller.decorator.ts): the same
 * path composition, but its record has no `actions` key.
 */
module ControllerDecorator {
  import opened Wrappers
  import opened CoreTypes
  import opened Metadata
  import StringUtil
  import AppControllerDecorator

  type ControllerOptions = AppControllerDecorator.ControllerOptions
  type ControllerArg = AppControllerDecorator.ControllerArg

  function ControllerView(target: Cls): View {
    Create(ClassObj(target), None)
  }

  function ControllerRecord(cells: Store, target: Cls, options: ControllerOptions): seq<Entry> {
    [ ("$kind", VString("controller")),
      ("name", VString(target.name)),
      ("path", VString(StringUtil.ResolvePath([StringOf(Get(cells, ControllerView(target), "path")), options.path]))) ]
  }

  function Decorated(cells: Store, target: Cls, options: ControllerOptions): Store {
    DefineAll(cells, ControllerView(target), ControllerRecord(cells, target, options))
  }

  /** `Controller(arg)(target)`: a string argument `s` is `{ path: s }`. */
  method Controller(store: Registry, target: Cls, arg: ControllerArg)
    modifies store
    ensures arg.PathArg? ==>
      store.cells == Decorated(old(store.cells), target, AppControllerDecorator.ControllerOptions(Some(arg.path)))
    ensures arg.OptionsArg? ==> store.cells == Decorated(old(store.cells), target, arg.options)
  {
    if arg.PathArg? {
      DefineMetadata(store, target, AppControllerDecorator.ControllerOptions(Some(arg.path)));
    } else {
      DefineMetadata(store, target, arg.options);
    }
  }

  /** `defineMetadata(constructor, { path })` */
  method DefineMetadata(store: Registry, target: Cls, options: ControllerOptions)
    modifies store
    ensures store.cells == Decorated(old(store.cells), target, options)
  {
    var controllerMetadata := Create(ClassObj(target), None);
    var basePath := StringOf(Get(store.cells, controllerMetadata, "path"));
    store.Define(controllerMetadata, [
      ("$kind", VString("controller")),
      ("name", VString(target.name)),
      ("path", VString(StringUtil.ResolvePath([basePath, options.path])))
    ]);
  }

  /**
   * The decorated class is a controller named after the class with the composed path,
   * and since the record has no `actions` key, whatever `actions` held survives.
   */
  lemma ControllerRecorded(cells: Store, target: Cls, options: ControllerOptions)
    ensures var after := Decorated(cells, target, options);
      && CreateKind(after, "controller", ClassObj(target), None) == Some(ControllerView(target))
      && Get(after, ControllerView(target), "name") == Some(VString(target.name))
      && Get(after, ControllerView(target), "path")
         == Some(VString(StringUtil.ResolvePath([StringOf(Get(cells, ControllerView(target), "path")), options.path])))
      && Get(after, ControllerView(target), "actions") == Get(cells, ControllerView(target), "actions")
  {
    var view, r := ControllerView(target), ControllerRecord(cells, target, options);
    assert DistinctKeys(r);
    EntryForAt(r, 0);
    EntryForAt(r, 1);
    EntryForAt(r, 2);
    EntryForMissing(r, "actions");
    DefineAllGet(cells, view, r, "$kind");
    DefineAllGet(cells, view, r, "name");
    DefineAllGet(cells, view, r, "path");
    DefineAllKeeps(cells, view, r, view, "actions");
  }
}
