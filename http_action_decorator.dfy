/**
 * `@Get` / `@Post` / `@Put` / `@Patch` / `@Delete`
 * (src/common/core/decorators/http/_action.decorator.ts): append the member to the
 * class's `actions` list, then define the member's action record.
 */
module HttpActionDecorator {
  import opened Wrappers
  import opened CoreTypes
  import opened Metadata

  /** `ActionDecoratorOptions` */
  datatype ActionOptions = ActionOptions(verb: Option<HttpMethod>, path: Option<string>)

  /** A decorator argument: `ActionDecoratorOptions | string`, defaulting to `{}`. */
  datatype ActionArg = PathArg(path: string) | OptionsArg(options: ActionOptions)

  const NoArg := OptionsArg(ActionOptions(None, None))

  /**
   * What a verb wrapper passes to `Action`: `{ method, path }` for a string, otherwise
   * `{ ...options, method }`, whose own `method` overrides any in the options.
   */
  function VerbOptions(verb: HttpMethod, arg: ActionArg): (o: ActionOptions)
    ensures o.verb == Some(verb)
    ensures o.path == (if arg.PathArg? then Some(arg.path) else arg.options.path)
  {
    match arg
    case PathArg(path) => ActionOptions(Some(verb), Some(path))
    case OptionsArg(options) => options.(verb := Some(verb))
  }

  /** The controller's class-level view and the member's view, both owned by `target.constructor`. */
  function ControllerView(target: Target): View {
    Create(Constructor(target), None)
  }

  function ActionView(target: Target, propertyKey: string): View {
    Create(target, Some(propertyKey))
  }

  /** The action record, with the defaults `method = Get` and `path = ''`. */
  function ActionRecord(cells: Store, target: Target, propertyKey: string, options: ActionOptions): seq<Entry> {
    [ ("$kind", VString("action")),
      ("name", VString(propertyKey)),
      ("path", VString(options.path.GetOr(""))),
      ("method", VMethod(options.verb.GetOr(GET))),
      ("parameters", VParams(ParamsOr(Get(cells, ActionView(target, propertyKey), "parameters")))) ]
  }

  /** The store after `defineMetadata(target, propertyKey, options)`. */
  function Decorated(cells: Store, target: Target, propertyKey: string, options: ActionOptions): Store {
    var actions := KeysOr(Get(cells, ControllerView(target), "actions"));
    var listed := SetCell(cells, ControllerView(target), "actions", VKeys(actions + [propertyKey]));
    DefineAll(listed, ActionView(target, propertyKey), ActionRecord(cells, target, propertyKey, options))
  }

  /** `Action(arg)(target, propertyKey)`: a string argument is the path. */
  method Action(store: Registry, arg: ActionArg, target: Target, propertyKey: string)
    modifies store
    ensures arg.PathArg? ==>
      store.cells == Decorated(old(store.cells), target, propertyKey, ActionOptions(None, Some(arg.path)))
    ensures arg.OptionsArg? ==> store.cells == Decorated(old(store.cells), target, propertyKey, arg.options)
  {
    if arg.PathArg? {
      var path := arg.path;
      DefineMetadata(store, target, propertyKey, ActionOptions(None, Some(path)));
    } else {
      DefineMetadata(store, target, propertyKey, arg.options);
    }
  }

  /** `Get(arg)`, `Post(arg)`, `Put(arg)`, `Patch(arg)`, `Delete(arg)`, applied to a member. */
  method Verb(store: Registry, verb: HttpMethod, arg: ActionArg, target: Target, propertyKey: string)
    modifies store
    ensures store.cells == Decorated(old(store.cells), target, propertyKey, VerbOptions(verb, arg))
  {
    if arg.PathArg? {
      var path := arg.path;
      Action(store, OptionsArg(ActionOptions(Some(verb), Some(path))), target, propertyKey);
    } else {
      Action(store, OptionsArg(arg.options.(verb := Some(verb))), target, propertyKey);
    }
  }

  /** `defineMetadata(target, propertyKey, { method = Get, path = '' })` */
  method DefineMetadata(store: Registry, target: Target, propertyKey: string, options: ActionOptions)
    modifies store
    ensures store.cells == Decorated(old(store.cells), target, propertyKey, options)
  {
    var verb := options.verb.GetOr(GET);
    var path := options.path.GetOr("");
    var controllerMetadata := Create(Constructor(target), None);
    var actionMetadata := Create(target, Some(propertyKey));
    var controllerActions := KeysOr(Get(store.cells, controllerMetadata, "actions"));
    var baseParameters := ParamsOr(Get(store.cells, actionMetadata, "parameters"));
    store.Set(controllerMetadata, "actions", VKeys(controllerActions + [propertyKey]));
    store.Define(actionMetadata, [
      ("$kind", VString("action")),
      ("name", VString(propertyKey)),
      ("path", VString(path)),
      ("method", VMethod(verb)),
      ("parameters", VParams(baseParameters))
    ]);
  }

  predicate ActionKey(key: string) {
    key == "$kind" || key == "name" || key == "path" || key == "method" || key == "parameters"
  }

  lemma RecordEntries(cells: Store, target: Target, propertyKey: string, options: ActionOptions, key: string)
    ensures var r := ActionRecord(cells, target, propertyKey, options);
      && (EntryFor(r, key).Some? <==> ActionKey(key))
      && (key == "$kind" ==> EntryFor(r, key) == Some(VString("action")))
      && (key == "name" ==> EntryFor(r, key) == Some(VString(propertyKey)))
      && (key == "path" ==> EntryFor(r, key) == Some(VString(options.path.GetOr(""))))
      && (key == "method" ==> EntryFor(r, key) == Some(VMethod(options.verb.GetOr(GET))))
      && (key == "parameters" ==>
           EntryFor(r, key) == Some(VParams(ParamsOr(Get(cells, ActionView(target, propertyKey), "parameters")))))
  {
    var r := ActionRecord(cells, target, propertyKey, options);
    assert DistinctKeys(r);
    if key == "$kind" {
      EntryForAt(r, 0);
    } else if key == "name" {
      EntryForAt(r, 1);
    } else if key == "path" {
      EntryForAt(r, 2);
    } else if key == "method" {
      EntryForAt(r, 3);
    } else if key == "parameters" {
      EntryForAt(r, 4);
    } else {
      EntryForMissing(r, key);
    }
  }

  /**
   * The member becomes an action named after its key, with the given method and path
   * (defaults `Get` and `''`), and keeps the parameters already recorded for it (`{}` if none).
   */
  lemma ActionRecorded(cells: Store, target: Target, propertyKey: string, options: ActionOptions)
    ensures var after := Decorated(cells, target, propertyKey, options);
      var view := ActionView(target, propertyKey);
      && CreateKind(after, "action", target, Some(propertyKey)) == Some(view)
      && Get(after, view, "name") == Some(VString(propertyKey))
      && Get(after, view, "method") == Some(VMethod(options.verb.GetOr(GET)))
      && Get(after, view, "path") == Some(VString(options.path.GetOr("")))
      && Get(after, view, "parameters") == Some(VParams(ParamsOr(Get(cells, view, "parameters"))))
  {
    var view := ActionView(target, propertyKey);
    var listed := SetCell(cells, ControllerView(target), "actions", VKeys(KeysOr(Get(cells, ControllerView(target), "actions")) + [propertyKey]));
    var r := ActionRecord(cells, target, propertyKey, options);
    RecordEntries(cells, target, propertyKey, options, "$kind");
    RecordEntries(cells, target, propertyKey, options, "name");
    RecordEntries(cells, target, propertyKey, options, "method");
    RecordEntries(cells, target, propertyKey, options, "path");
    RecordEntries(cells, target, propertyKey, options, "parameters");
    DefineAllGet(listed, view, r, "$kind");
    DefineAllGet(listed, view, r, "name");
    DefineAllGet(listed, view, r, "method");
    DefineAllGet(listed, view, r, "path");
    DefineAllGet(listed, view, r, "parameters");
  }

  /** The member's key is appended to the end of the class's `actions`; duplicates are kept. */
  lemma ActionListed(cells: Store, target: Target, propertyKey: string, options: ActionOptions)
    ensures KeysOr(Get(Decorated(cells, target, propertyKey, options), ControllerView(target), "actions"))
         == KeysOr(Get(cells, ControllerView(target), "actions")) + [propertyKey]
  {
    var listed := SetCell(cells, ControllerView(target), "actions", VKeys(KeysOr(Get(cells, ControllerView(target), "actions")) + [propertyKey]));
    DefineAllKeeps(listed, ActionView(target, propertyKey), ActionRecord(cells, target, propertyKey, options), ControllerView(target), "actions");
  }

  /** A verb wrapper records its own method, whatever method the options carry. */
  lemma VerbRecordsItsMethod(cells: Store, verb: HttpMethod, arg: ActionArg, target: Target, propertyKey: string)
    ensures Get(Decorated(cells, target, propertyKey, VerbOptions(verb, arg)), ActionView(target, propertyKey), "method")
         == Some(VMethod(verb))
  {
    ActionRecorded(cells, target, propertyKey, VerbOptions(verb, arg));
  }

  /** Only the class's `actions` cell and the member's own action cells change. */
  lemma ActionKeepsOthers(cells: Store, target: Target, propertyKey: string, options: ActionOptions, c: Cell)
    requires c != Cell(Constructor(target), None, "actions")
    requires c.owner != Constructor(target) || c.member != Some(propertyKey) || !ActionKey(c.key)
    ensures Stored(Decorated(cells, target, propertyKey, options), c) == Stored(cells, c)
  {
    var listed := SetCell(cells, ControllerView(target), "actions", VKeys(KeysOr(Get(cells, ControllerView(target), "actions")) + [propertyKey]));
    RecordEntries(cells, target, propertyKey, options, c.key);
    DefineAllCells(listed, ActionView(target, propertyKey), ActionRecord(cells, target, propertyKey, options), c);
  }
}
