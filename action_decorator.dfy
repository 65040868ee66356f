/**
 * The older `@Get` / `@Post` / `@Put` / `@Patch` / `@Delete`
 * (src/common/core/decorators/_action.decorator.ts): define the member's action record
 * only; the class-level metadata is not touched.
 */
module ActionDecorator {
  import opened Wrappers
  import opened CoreTypes
  import opened Metadata
  import HttpActionDecorator

  type ActionOptions = HttpActionDecorator.ActionOptions
  type ActionArg = HttpActionDecorator.ActionArg

  function ActionView(target: Target, propertyKey: string): View {
    Create(target, Some(propertyKey))
  }

  /** The action record: the wrapper's method, and the path defaulting to `''`. */
  function ActionRecord(cells: Store, target: Target, propertyKey: string, verb: HttpMethod, options: ActionOptions): seq<Entry> {
    [ ("$kind", VString("action")),
      ("name", VString(propertyKey)),
      ("path", VString(options.path.GetOr(""))),
      ("method", VMethod(verb)),
      ("parameters", VParams(ParamsOr(Get(cells, ActionView(target, propertyKey), "parameters")))) ]
  }

  function Decorated(cells: Store, target: Target, propertyKey: string, verb: HttpMethod, options: ActionOptions): Store {
    DefineAll(cells, ActionView(target, propertyKey), ActionRecord(cells, target, propertyKey, verb, options))
  }

  /**
   * `Action(method, arg)(target, propertyKey)`, which `Get(arg)` … `Delete(arg)` call with
   * their own method: a string argument is the path.
   */
  method Action(store: Registry, verb: HttpMethod, arg: ActionArg, target: Target, propertyKey: string)
    modifies store
    ensures arg.PathArg? ==>
      store.cells == Decorated(old(store.cells), target, propertyKey, verb, HttpActionDecorator.ActionOptions(None, Some(arg.path)))
    ensures arg.OptionsArg? ==> store.cells == Decorated(old(store.cells), target, propertyKey, verb, arg.options)
  {
    if arg.PathArg? {
      DefineMetadata(store, target, propertyKey, verb, HttpActionDecorator.ActionOptions(None, Some(arg.path)));
    } else {
      DefineMetadata(store, target, propertyKey, verb, arg.options);
    }
  }

  /** `defineMetadata(target, propertyKey, method, { path = '' })`: `options.method` is not read. */
  method DefineMetadata(store: Registry, target: Target, propertyKey: string, verb: HttpMethod, options: ActionOptions)
    modifies store
    ensures store.cells == Decorated(old(store.cells), target, propertyKey, verb, options)
  {
    var path := options.path.GetOr("");
    var actionMetadata := Create(target, Some(propertyKey));
    var baseParameters := ParamsOr(Get(store.cells, actionMetadata, "parameters"));
    store.Define(actionMetadata, [
      ("$kind", VString("action")),
      ("name", VString(propertyKey)),
      ("path", VString(path)),
      ("method", VMethod(verb)),
      ("parameters", VParams(baseParameters))
    ]);
  }

  /**
   * The member becomes an action with the wrapper's method whatever the options say,
   * the path defaults to `''`, the parameters already recorded are kept, and no
   * class-level cell changes.
   */
  lemma ActionRecorded(cells: Store, target: Target, propertyKey: string, verb: HttpMethod, options: ActionOptions, key: string)
    ensures var after := Decorated(cells, target, propertyKey, verb, options);
      var view := ActionView(target, propertyKey);
      && CreateKind(after, "action", target, Some(propertyKey)) == Some(view)
      && Get(after, view, "name") == Some(VString(propertyKey))
      && Get(after, view, "method") == Some(VMethod(verb))
      && Get(after, view, "path") == Some(VString(options.path.GetOr("")))
      && Get(after, view, "parameters") == Some(VParams(ParamsOr(Get(cells, view, "parameters"))))
      && Get(after, Create(Constructor(target), None), key) == Get(cells, Create(Constructor(target), None), key)
  {
    var view := ActionView(target, propertyKey);
    var r := ActionRecord(cells, target, propertyKey, verb, options);
    assert DistinctKeys(r);
    EntryForAt(r, 0);
    EntryForAt(r, 1);
    EntryForAt(r, 2);
    EntryForAt(r, 3);
    EntryForAt(r, 4);
    DefineAllGet(cells, view, r, "$kind");
    DefineAllGet(cells, view, r, "name");
    DefineAllGet(cells, view, r, "method");
    DefineAllGet(cells, view, r, "path");
    DefineAllGet(cells, view, r, "parameters");
    DefineAllKeeps(cells, view, r, Create(Constructor(target), None), key);
  }
}
