# A verified model of a decorator-driven web framework core

The system is a small TypeScript web framework built on Express, tsyringe, reflect-metadata,
pg and dotenv. Classes are declared as modules, controllers, actions, providers and entities
with decorators. Each decorator writes records into the process-wide metadata store.
At start-up, the application factory walks the module graph, resolves each module once and
mounts one router per controller. Databases are PostgreSQL modules that connect, run
migrations and build parameterised queries from tagged templates.

This project models that core in Dafny and proves what it promises:

- **`StringUtil`** (`string_util.dfy`) is the path normaliser `resolvePath`. Its result is in
  normal form: no backslash, no `//`, and either `''` or a slash-led path without a trailing
  slash. Falsy arguments are ignored, the function is idempotent, and it composes. The two
  copies of `resolvePath` (`src/common/utils/data-utility/_string.ts` and
  `src/common/utils/data/_string-util.ts`) are the same expression chain, so one function
  models both. They therefore agree on every input.
- **`Metadata`** (`metadata.dfy`) models the reflect-metadata store.
  - The store is a map from (owner, member, key) cells to values.
  - A lookup walks the prototype chain; a write touches only the owner's own cell.
  - `MetadataFactory.create` gives a view; the kind-checked form returns it only when
    `$kind` matches.
  - `set` and `define` are methods of the `Registry` class that holds the store.
  - `ReflectUtil`, `CoreTypes` and `JsValues` hold `isType`, the class/target shapes and
    the JavaScript values.
- **One module per decorator file.** Each decorator is a read-modify-write of the store: a
  method specified by a function on the store, with lemmas for the properties it keeps:
  - append, never drop;
  - only the named keys change;
  - defaults;
  - the last write wins.
- **`AppContainers`** and **`AppFactories`** model the module walk and the route table.
  - The module walk resolves each module once, prepares its instance, walks its
    submodules before its controllers, and reports the first error.
  - Routes are mounted as a recorded list of (mount path, handler), and dispatch builds the
    positional argument array.
  - Dependency-injection resolution is a fixed rule: a module class resolves to its
    singleton instance, and a controller to a receiver bound to its container.
- **`ActionResults`** is `ActionResult.resolve`: one response write, then one `next()`.
- **`SqlTemplates`** is the tagged-template query compiler. Its `reduce` appears three times,
  in `_createQuery`, `_createQueryArray` and `_query`.
- **`Migrations`**, **`DatabaseTypes`**, **`PostgresqlModuleFactory`** and
  **`PostgresqlDatabase`** model the two generations of the PostgreSQL module: init flags,
  migration selection, pool and client memoisation, and the masked URL.
- **`AppEnvironment`** and **`AppConfiguration`** model `--mode` extraction, dotenv load order,
  typed lookups and configuration validation.

The model follows the code as written, except in two places that are listed under Findings
below. Both versions of each are modelled, and the rest of the model uses the corrected one:
- The early `return` in the `_migrate` loop of src/common/core/database/modules/_postgresql.ts.
  `InitHook`/`Init` migrate by the corrected rule (see "Left out").
- In the module that `PostgresqlModuleFactory.createModule` builds, every read of the options
  is written `super.options`. `options` is a property of the instance, defined by the base
  class's constructor parameter, so `super.options` is `undefined`. As written, `connect` and
  `init` therefore throw a `TypeError`, and `_init` always fails with a `DatabaseError`. The
  `*AsWritten` members of `PostgresqlModuleFactory` state this. The corrected members read
  `this.options`, as `createRepository` does.

The `constructor` guard in `_registerController` (src/common/core/app/_app-factory.ts:134) is
modelled as written. It joins its two tests with `&&`, so it skips only a `constructor` that is
not a function. The kind-checked lookup after it keeps the class's own `constructor` out of the
route table. Any other member that carries action metadata but is not a function reaches
`.bind` and fails with a `TypeError` (`ActionRoutesFails`).

Effects the code takes from its environment are parameters of the model:
- whether a database is reachable, whether a `client.end()` succeeds, and which migration
  SQL fails;
- what dotenv reads from a file, and `Number(...)`, `Path.resolve` and `Path.basename`;
- the command-line arguments and the starting `process.env`.

## Model

| member | source | states |
|---|---|---|
| StringUtil.Present | src/common/utils/data-utility/_string.ts:12 | the filter keeps only defined, non-empty arguments, so it is never longer than its input |
| StringUtil.ToSlashes | src/common/utils/data-utility/_string.ts:13 | every backslash becomes `/`, every other character is unchanged, and the length is kept |
| StringUtil.MapSlashes | src/common/utils/data-utility/_string.ts:13 | the mapped list has one string per argument |
| StringUtil.Lead | src/common/utils/data-utility/_string.ts:17 | after the leading-slash step the path is non-empty and starts with `/` |
| StringUtil.ResolvePath | src/common/utils/data-utility/_string.ts:10-21 | the result has no backslash and no `//`, and is `''` or starts with `/` and does not end with `/`; it is `''` exactly when every argument is undefined, empty or only slashes and backslashes |
| StringUtil.CollapseFacts | src/common/utils/data-utility/_string.ts:15 | collapsing leaves no `//`, never lengthens, keeps emptiness and the first and last character, keeps a backslash-free string backslash-free, and keeps whether the string is all slashes |
| StringUtil.CollapseShape | src/common/utils/data-utility/_string.ts:15 | collapsing leaves no `//`, never lengthens, keeps emptiness and the first and last character |
| StringUtil.CollapseKeeps | src/common/utils/data-utility/_string.ts:15 | collapsing adds no backslash and keeps whether the string is all slashes |
| StringUtil.CollapseFixed | src/common/utils/data-utility/_string.ts:15 | a string with no `//` is left unchanged by collapsing |
| StringUtil.CollapseSlashes | src/common/utils/data-utility/_string.ts:15 | a non-empty run of slashes collapses to a single `/` |
| StringUtil.CollapseConcat | src/common/utils/data-utility/_string.ts:15 | collapsing a concatenation is gluing the collapsed halves, with one slash at the seam |
| StringUtil.FinishFacts | src/common/utils/data-utility/_string.ts:17-18 | for a clean collapsed string, the two conditional reassignments give normal form, and `''` exactly when the string is all slashes |
| StringUtil.LeadFacts | src/common/utils/data-utility/_string.ts:17 | prefixing `/` keeps a clean string clean and keeps whether it is all slashes |
| StringUtil.DropSlashFacts | src/common/utils/data-utility/_string.ts:18 | dropping one trailing slash from a clean slash-led string gives normal form, and `''` exactly for an all-slash string |
| StringUtil.JoinedFacts | src/common/utils/data-utility/_string.ts:12-14 | the joined string has no backslash; it is all slashes exactly when every argument only holds separators; it is non-empty when any argument is present |
| StringUtil.JoinedNone | src/common/utils/data-utility/_string.ts:12 | when the filter removes everything, every argument only holds separators |
| StringUtil.ConcatSlashes | src/common/utils/data-utility/_string.ts:14 | joining two strings with `/` adds no backslash; the result is all slashes exactly when both halves are |
| StringUtil.PresentConcat | src/common/utils/data-utility/_string.ts:12 | the filter distributes over concatenation of the argument lists |
| StringUtil.MapSlashesConcat | src/common/utils/data-utility/_string.ts:13 | the backslash replacement distributes over concatenation |
| StringUtil.JoinConcat | src/common/utils/data-utility/_string.ts:14 | joining two non-empty lists is joining each, with `/` between |
| StringUtil.JoinedConcat | src/common/utils/data-utility/_string.ts:12-14 | the joined string of two argument lists is either list's when the other has nothing present, or both joined with `/` |
| StringUtil.IgnoresFalsy | src/common/utils/data/_string-util.ts:7 | an undefined or empty argument, wherever it stands, does not change the result |
| StringUtil.BackslashesAreSlashes | src/common/utils/data-utility/_string.ts:13 | turning the arguments' backslashes into slashes beforehand does not change the result |
| StringUtil.SlashesPreserved | src/common/utils/data-utility/_string.ts:12-13 | filtering and replacing backslashes give the same list whether or not the backslashes were replaced first |
| StringUtil.NormalFixed | src/common/utils/data-utility/_string.ts:10-21 | a path already in normal form resolves to itself |
| StringUtil.Idempotent | src/common/utils/data/_string-util.ts:5-16 | resolving a resolved path gives the same path |
| StringUtil.Compose | src/common/utils/data-utility/_string.ts:10-21 | resolving a resolved prefix together with further arguments gives the same path as resolving all the arguments at once |
| StringUtil.LeadTwice | src/common/utils/data-utility/_string.ts:17 | the leading-slash step is idempotent |
| StringUtil.LeadConcat | src/common/utils/data-utility/_string.ts:17 | prefixing `/` before or after appending a tail to a non-empty string agrees |
| StringUtil.GlueAfterSlash | src/common/utils/data-utility/_string.ts:15 | gluing a collapsed tail after a slash keeps exactly one slash at the seam |
| StringUtil.CollapseThenSlash | src/common/utils/data-utility/_string.ts:15 | collapsing a string followed by `/` is collapsing it, dropping one trailing slash, then adding `/` |
| StringUtil.NormalThenSlash | src/common/utils/data-utility/_string.ts:15 | a non-empty resolved path followed by `/` is already collapsed |
| StringUtil.CollapseAfterSlash | src/common/utils/data-utility/_string.ts:15 | after a prefix whose collapsed form ends in `/`, the rest collapses as if slash-led |
| StringUtil.SlashesThenPath | src/common/utils/data-utility/_string.ts:15-18 | a prefix that resolves to `''` contributes nothing to the resolved path |
| StringUtil.FinishIsLeadDrop | src/common/utils/data-utility/_string.ts:17-18 | for a collapsed string with a non-empty result, the two reassignments are dropping a trailing slash and then prefixing one |
| StringUtil.ResolvedThenPath | src/common/utils/data-utility/_string.ts:15-18 | a prefix that resolves to a non-empty path may be replaced by that path |
| ReflectUtil.IsType | src/common/utils/reflect/_reflect-util.ts:7 | true exactly for an object whose `$kind` property is the string `kind`, so `null`, `undefined`, functions, strings, numbers and objects without `$kind` are refused |
| CoreTypes.Constructor | src/common/utils/reflect/_metadata-factory.ts:63 | `target.constructor` of a prototype or an instance is its class; that of a class is `Function` |
| CoreTypes.Parent | src/common/core/decorators/app/_controller.decorator.ts:45 | each step up the prototype chain a metadata lookup walks leads to a strictly shorter chain, so every lookup ends |
| CoreTypes.WithRole | src/common/core/decorators/http/_param.decorator.ts:76-82 | `{ ...base, [role]: slot }` sets that role's slot and leaves the other roles and the `params` map unchanged |
| Metadata.Lookup | src/common/utils/reflect/_metadata-factory.ts:48-52 | `getMetadata` returns a value held in the store. When the owner has its own cell, the result is that cell. Otherwise it is `undefined` at the top of the prototype chain, and the lookup from the parent below it |
| Metadata.LookupAgrees | src/common/utils/reflect/_metadata-factory.ts:48 | a lookup depends only on the cells with its member and key |
| Metadata.LookupStatic | src/common/utils/reflect/_metadata-factory.ts:63 | a lookup from a class or a prototype never reads an instance's cells |
| Metadata.Create | src/common/utils/reflect/_metadata-factory.ts:16-25 | with a property key the view addresses `target.constructor`'s cells under that key; without one, `target`'s class-level cells |
| Metadata.CreateKind | src/common/utils/reflect/_metadata-factory.ts:27-43 | the kind-checked form returns a view exactly when `$kind` is present and equal to `kind`, and then the same view as the untyped form |
| Metadata.SetCell | src/common/utils/reflect/_metadata-factory.ts:50 | after `set(k, v)`, `get(k)` is `v` and `has(k)` holds; no other cell changes and no other value enters the store |
| Metadata.EntryForAt | src/common/utils/reflect/_metadata-factory.ts:55 | in a record with distinct keys, each key's entry is its value |
| Metadata.EntryForMissing | src/common/utils/reflect/_metadata-factory.ts:55 | a key the record does not list has no entry |
| Metadata.DefineAllCells | src/common/utils/reflect/_metadata-factory.ts:54-57 | `define` writes every key of the record into the view's own cells, the last entry for a key winning, and every other cell keeps its value |
| Metadata.DefineAllGet | src/common/utils/reflect/_metadata-factory.ts:54-57 | after `define`, every key of the record reads back as its entry |
| Metadata.DefineAllKeeps | src/common/utils/reflect/_metadata-factory.ts:69-72 | `define` does not change a lookup of a key the record does not mention, or of another member |
| Metadata.SetCellKeeps | src/common/utils/reflect/_metadata-factory.ts:65 | `set` does not change a lookup of another key, or of the same key under another member |
| Metadata.ClassAndMemberDistinct | src/common/utils/reflect/_metadata-factory.ts:46-74 | a class's class-level view and the view of one of its members share an owner, yet writing through one never changes what the other reads |
| Metadata.DefineAllMentions | src/common/utils/reflect/_metadata-factory.ts:54-57 | a record holding no class list adds no class to those the store names |
| Metadata.Registry.Set | src/common/utils/reflect/_metadata-factory.ts:50 | the store becomes the one `SetCell` describes |
| Metadata.Registry.Define | src/common/utils/reflect/_metadata-factory.ts:54-57 | the store becomes the one `DefineAll` describes, one entry at a time in order |
| AppModuleDecorator.Module | src/common/core/decorators/app/_module.decorator.ts:16-22 | the store becomes the decorated store |
| AppModuleDecorator.DefineMetadata | src/common/core/decorators/app/_module.decorator.ts:31-44 | the store becomes the decorated store |
| AppModuleDecorator.RecordEntries | src/common/core/decorators/app/_module.decorator.ts:38-43 | the record has exactly `$kind = 'module'` and the three lists, each the visible list followed by the declared one |
| AppModuleDecorator.ModuleKind | src/common/core/decorators/app/_module.decorator.ts:38-39 | after decoration the kind-checked `'module'` lookup on the class succeeds |
| AppModuleDecorator.ModuleListsAppend | src/common/core/decorators/app/_module.decorator.ts:34-43 | all three lists are defined afterwards, each the previously visible list followed by the declared entries, an omitted list counting as empty |
| AppModuleDecorator.ModuleTwice | src/common/core/decorators/app/_module.decorator.ts:40-42 | decorating twice appends both declarations to each of `modules`, `controllers` and `providers`, in order and with no de-duplication |
| AppModuleDecorator.ModuleKeepsOthers | src/common/core/decorators/app/_module.decorator.ts:38-43 | no cell other than the four keys of the class's own record changes |
| AppControllerDecorator.Controller | src/common/core/decorators/app/_controller.decorator.ts:21-33 | a string `s` decorates as `{ path: s }`; options decorate as given |
| AppControllerDecorator.DefineMetadata | src/common/core/decorators/app/_controller.decorator.ts:42-54 | the store becomes the decorated store |
| AppControllerDecorator.RecordEntries | src/common/core/decorators/app/_controller.decorator.ts:48-53 | the record has exactly `$kind = 'controller'`, the class name, the composed path and the visible actions |
| AppControllerDecorator.ControllerRecorded | src/common/core/decorators/app/_controller.decorator.ts:45-53 | the class is a controller named after itself; its path is `resolvePath(visible path, given path)` and in normal form; its actions so far (`[]` if none) are kept |
| AppControllerDecorator.SubclassComposesPath | src/common/core/decorators/app/_controller.decorator.ts:45 | a subclass with no path of its own records its parent's path resolved with its own |
| AppControllerDecorator.ControllerKeepsOthers | src/common/core/decorators/app/_controller.decorator.ts:48-53 | no cell other than the four keys of the class's own record changes |
| ControllerDecorator.Controller | src/common/core/decorators/_controller.decorator.ts:17-29 | a string `s` decorates as `{ path: s }`; options decorate as given |
| ControllerDecorator.DefineMetadata | src/common/core/decorators/_controller.decorator.ts:38-47 | the store becomes the decorated store |
| ControllerDecorator.ControllerRecorded | src/common/core/decorators/_controller.decorator.ts:41-46 | the class is a controller named after itself with path `resolvePath(visible path, given path)`; `actions` is not written, so its value survives |
| HttpActionDecorator.VerbOptions | src/common/core/decorators/http/_action.decorator.ts:43-52 | a verb wrapper passes its own method, overriding any in the options, and the path from the string or the options |
| HttpActionDecorator.Action | src/common/core/decorators/http/_action.decorator.ts:22-34 | a string argument is the path; options decorate as given |
| HttpActionDecorator.Verb | src/common/core/decorators/http/_action.decorator.ts:43-129 | `Get` … `Delete` decorate with the wrapper's options |
| HttpActionDecorator.DefineMetadata | src/common/core/decorators/http/_action.decorator.ts:139-155 | the store becomes the decorated store |
| HttpActionDecorator.RecordEntries | src/common/core/decorators/http/_action.decorator.ts:148-154 | the action record has exactly `$kind = 'action'`, the member name, the path (default `''`), the method (default Get) and the visible parameters (default `{}`) |
| HttpActionDecorator.ActionRecorded | src/common/core/decorators/http/_action.decorator.ts:139-155 | the member becomes an action named after its key with the given method and path, or Get and `''`, and keeps the parameters already recorded |
| HttpActionDecorator.ActionListed | src/common/core/decorators/http/_action.decorator.ts:143-146 | the member's key is appended to the end of the class's `actions`, duplicates kept |
| HttpActionDecorator.VerbRecordsItsMethod | src/common/core/decorators/http/_action.decorator.ts:43-52 | a verb wrapper's action records the wrapper's method whatever the options carry |
| HttpActionDecorator.ActionKeepsOthers | src/common/core/decorators/http/_action.decorator.ts:146-154 | only the class's `actions` cell and the member's own action cells change |
| ActionDecorator.Action | src/common/core/decorators/_action.decorator.ts:15-25 | a string argument is the path; options decorate as given |
| ActionDecorator.DefineMetadata | src/common/core/decorators/_action.decorator.ts:91-103 | the store becomes the decorated store |
| ActionDecorator.ActionRecorded | src/common/core/decorators/_action.decorator.ts:91-103 | the member becomes an action named after its key with the wrapper's method, whatever the options say, and the path (default `''`); the parameters already recorded are kept and no class-level cell changes |
| HttpParamDecorator.WithParam | src/common/core/decorators/http/_param.decorator.ts:99-108 | `params[name]` is set to the slot; every other named parameter and every role is unchanged |
| HttpParamDecorator.Req | src/common/core/decorators/http/_param.decorator.ts:10-14 | the member's `request` slot is recorded |
| HttpParamDecorator.Res | src/common/core/decorators/http/_param.decorator.ts:21-25 | the member's `response` slot is recorded |
| HttpParamDecorator.Next | src/common/core/decorators/http/_param.decorator.ts:32-36 | the member's `next` slot is recorded |
| HttpParamDecorator.Body | src/common/core/decorators/http/_param.decorator.ts:43-47 | the member's `body` slot is recorded |
| HttpParamDecorator.Param | src/common/core/decorators/http/_param.decorator.ts:56-60 | the member's named parameter is recorded |
| HttpParamDecorator.DefineMetadata | src/common/core/decorators/http/_param.decorator.ts:71-83 | the store becomes the store with the role recorded |
| HttpParamDecorator.DefineMetadataParam | src/common/core/decorators/http/_param.decorator.ts:94-109 | the store becomes the store with the named parameter recorded |
| HttpParamDecorator.RoleSet | src/common/core/decorators/http/_param.decorator.ts:71-83 | `parameters[role]` becomes `{ name: member, index }`; the other roles and `params` are kept; `$kind` is not written, so the member does not become an action |
| HttpParamDecorator.RoleLastWins | src/common/core/decorators/http/_param.decorator.ts:76-82 | decorating the same role twice keeps the second slot |
| HttpParamDecorator.ParamSet | src/common/core/decorators/http/_param.decorator.ts:94-108 | `params[name]` is added or overwritten; the other named parameters and the roles are kept; `$kind` is not written |
| HttpDecorator.Req | src/common/core/decorators/_http.decorator.ts:10-14 | the member's `request` slot is recorded |
| HttpDecorator.Res | src/common/core/decorators/_http.decorator.ts:21-25 | the member's `response` slot is recorded |
| HttpDecorator.Next | src/common/core/decorators/_http.decorator.ts:32-36 | the member's `next` slot is recorded |
| HttpDecorator.DefineMetadata | src/common/core/decorators/_http.decorator.ts:47-59 | the role's slot becomes `{ name, index }`, the other roles stay, and the kind-checked `'action'` lookup is unchanged |
| ProviderDecorator.Provider | src/common/core/decorators/app/_provider.decorator.ts:17-23 | the store becomes the decorated store |
| ProviderDecorator.DefineMetadata | src/common/core/decorators/app/_provider.decorator.ts:32-40 | the store becomes the decorated store |
| ProviderDecorator.ProviderRecorded | src/common/core/decorators/app/_provider.decorator.ts:35-39 | the class is a provider; its token is the given one or else the class itself; its scope is the given one or else `Default` |
| ProviderDecorator.ProviderKeepsOthers | src/common/core/decorators/app/_provider.decorator.ts:35-39 | no cell other than the three keys of the provider record changes |
| EntityDecorator.TableOf | src/common/core/decorators/database/_entity.decorator.ts:16-22 | a string argument is the table; options give their table |
| EntityDecorator.Entity | src/common/core/decorators/database/_entity.decorator.ts:14-24 | the store becomes the store decorated with the argument's table |
| EntityDecorator.DefineMetadata | src/common/core/decorators/database/_entity.decorator.ts:33-43 | the store becomes the decorated store |
| EntityDecorator.RecordEntries | src/common/core/decorators/database/_entity.decorator.ts:38-42 | the record has exactly `$kind = 'entity'`, the table and the visible properties |
| EntityDecorator.EntityRecorded | src/common/core/decorators/database/_entity.decorator.ts:36-42 | the class is an entity with the given table, and its properties so far (`[]` if none) are kept |
| EntityDecorator.EntityTwice | src/common/core/decorators/database/_entity.decorator.ts:38-42 | decorating again replaces the table and keeps the properties |
| EntityDecorator.EntityKeepsOthers | src/common/core/decorators/database/_entity.decorator.ts:38-42 | no cell other than the three keys of the entity record changes |
| PropertyDecorator.ColumnOf | src/common/core/decorators/database/_property.decorator.ts:7-15 | a string argument is the column; options give their column |
| PropertyDecorator.Property | src/common/core/decorators/database/_property.decorator.ts:5-17 | the store becomes the store decorated with the argument's column |
| PropertyDecorator.DefineMetadata | src/common/core/decorators/database/_property.decorator.ts:27-39 | the store becomes the decorated store |
| PropertyDecorator.PropertyRecorded | src/common/core/decorators/database/_property.decorator.ts:31-38 | the key is appended to the class's `properties`, duplicates kept; the member is a property with the given column; the class-level `$kind` is unchanged |
| PropertyDecorator.PropertiesInOrder | src/common/core/decorators/database/_property.decorator.ts:33 | decorating two members lists both, in order, after the earlier ones |
| AppContainers.AppContainer.constructor | src/common/core/app/_app-container.ts:16-20 | a new container has resolved nothing; only a root container registers the config and logger |
| AppContainers.AppContainer.RegisterDependency | src/common/core/app/_app-container.ts:41-44 | `IAppConfig` and then `IAppLogger` are registered |
| AppContainers.AppContainer.ResolveModule | src/common/core/app/_app-container.ts:26-31 | the instance returned is recorded under its class, which is resolved afterwards; no other class changes status |
| AppContainers.AppContainer.CreateModuleContainer | src/common/core/app/_app-container.ts:37-39 | a new non-root container with nothing resolved or registered |
| ActionResults.Reply | src/common/core/http/_action-result.ts:19-23 | the write is the status alone exactly when the body is `undefined` or `null`, otherwise status and body, falsy bodies included |
| ActionResults.ActionResult.constructor | src/common/core/http/_action-result.ts:13-16 | status and body are fixed at construction |
| ActionResults.ActionResult.Resolve | src/common/core/http/_action-result.ts:18-26 | exactly one write on the response, then one call of `next`, whose result is returned |
| ActionResults.OneWriteThenNext | src/common/core/http/_action-result.ts:19-25 | after any earlier response log, one `resolve` adds exactly one response write, keeps the earlier log as it was, and ends with `next` |
| AppFactories.Mounted | src/common/core/app/_app-factory.ts:146 | a router's handlers are mounted under the controller path, in order |
| AppFactories.App.Use | src/common/core/app/_app-factory.ts:146 | `app.use` appends the router's routes to those mounted |
| AppFactories.OrRoot | src/common/core/app/_app-factory.ts:130 | `path \|\| '/'` is never empty: the path itself, or `/` when missing or empty |
| AppFactories.ActionHandler | src/common/core/app/_app-factory.ts:156-163 | binding fails with a `TypeError` exactly when the member is not a function; otherwise the handler calls that member on the controller instance |
| AppFactories.ActionRoutes | src/common/core/app/_app-factory.ts:133-144 | building a router fails only with a `TypeError` |
| AppFactories.ActionRoutesCharacterized | src/common/core/app/_app-factory.ts:133-144 | a router fails exactly when a member carrying action metadata is not a function; otherwise it has one handler per such member, in member order, with the recorded method (default Get) and path (default `/`) |
| AppFactories.ActionRoutesFails | src/common/core/app/_app-factory.ts:133-144 | a router fails exactly when some member that passes the `constructor` guard and carries action metadata is not a function |
| AppFactories.ActionRoutesNames | src/common/core/app/_app-factory.ts:133-144 | a built router has one handler per member carrying action metadata, named after it, in `getOwnPropertyNames` order |
| AppFactories.ActionRoutesHandlers | src/common/core/app/_app-factory.ts:149-162 | every handler of a built router calls its member on the controller's receiver, with the recorded method (default `Get`) and the recorded path (`/` when empty or missing) |
| AppFactories.ControllerRoutes | src/common/core/app/_app-factory.ts:110-147 | a class without controller metadata is a `DefinitionError`; the only errors are definition, reflection and type errors |
| AppFactories.ControllerRoutesErrors | src/common/core/app/_app-factory.ts:116-124 | for a class with controller metadata, a `ReflectionError` comes exactly from the module instance: its `module-instance` kind is missing, or it has no container. Once both are present, the only error is a `TypeError` |
| AppFactories.ReadyInstanceRoutes | src/common/core/app/_app-factory.ts:116-130 | for a prepared module instance there is no `ReflectionError`, and every route sits under the controller path (`/` when empty or missing) and is served by a controller from that instance's container |
| AppFactories.ControllerResults | src/common/core/app/_app-factory.ts:104-107 | one registration result per controller, in order |
| AppFactories.ChainStart | src/common/core/app/_app-factory.ts:104-107 | before the first controller nothing is mounted |
| AppFactories.ChainNext | src/common/core/app/_app-factory.ts:104-107 | a failing controller ends the run with the routes mounted so far; a succeeding one adds its routes |
| AppFactories.ChainEnd | src/common/core/app/_app-factory.ts:104-107 | after the last controller the run is done with everything mounted |
| AppFactories.ChainedError | src/common/core/app/_app-factory.ts:104-107 | a run fails only with an error one of its controllers fails with |
| AppFactories.ReadyInstanceErrors | src/common/core/app/_app-factory.ts:104-107 | for a prepared instance, registering its controllers fails only with a definition or type error |
| AppFactories.ModuleWalk | src/common/core/app/_app-factory.ts:84-108 | the walk `_registerModule` performs: it stops at an undeclared class, skips a resolved one, and otherwise walks the submodules and then the controllers. A walk never drops a resolved module |
| AppFactories.SubmodulesWalk | src/common/core/app/_app-factory.ts:99-102 | the `forEach` over the submodules as a fold in declared order that stops at the first failure; it never drops a resolved module |
| AppFactories.ModuleWalkShape | src/common/core/app/_app-factory.ts:84-108 | an undeclared class fails with a `DefinitionError` and changes nothing. A declared class ends up resolved, and one resolved already adds nothing. After a successful walk of a new module all its submodules are resolved, and its own controllers' routes end the walk's routes |
| AppFactories.ModuleWalkNew | src/common/core/app/_app-factory.ts:94-108 | for a new declared module, once it is resolved and prepared, the walk is its submodules' walk followed by its controllers' routes, stopping at a failure |
| AppFactories.SubmodulesWalkAppend | src/common/core/app/_app-factory.ts:99-102 | walking two lists of submodules in a row is walking the first, then, unless it failed, the second from where the first left off |
| AppFactories.SubmodulesWalkResolves | src/common/core/app/_app-factory.ts:99-102 | after a successful submodule walk every listed submodule is resolved |
| AppFactories.ModuleWalkFrame | src/common/core/app/_app-factory.ts:84-108 | a walk reads only class and prototype cells and the instance cells of the modules it resolves, so a later store that keeps those cells gives the same walk |
| AppFactories.SubmodulesWalkFrame | src/common/core/app/_app-factory.ts:99-102 | the same frame property for the submodule walk |
| AppFactories.Place | src/common/core/app/_app-factory.ts:164-178 | `params[index] = value` sets that index, grows the array with holes, and leaves every other position unchanged |
| AppFactories.AppFactory.constructor | src/common/core/app/_app-factory.ts:27-37 | a new factory has no server |
| AppFactories.AppFactory.Create | src/common/core/app/_app-factory.ts:39-45 | the new application's routes, the outcome and the resolved modules are those of the module walk from the root. An undeclared root class is a `DefinitionError` that changes nothing and mounts nothing. A declared root ends up resolved. A root already resolved mounts no routes and changes no metadata. When a new root succeeds, its own controllers' routes end the application's routes |
| AppFactories.AppFactory.Start | src/common/core/app/_app-factory.ts:47-57 | the server listens at the configured host and port |
| AppFactories.AppFactory.Stop | src/common/core/app/_app-factory.ts:59-66 | a `ServerError` exactly when the server was never started |
| AppFactories.AppFactory.RegisterModule | src/common/core/app/_app-factory.ts:84-108 | the outcome, the resolved modules and the routes appended are those of `ModuleWalk`: submodules first, in declared order, then the module's own controllers. An undeclared class is a `DefinitionError`, checked first, with nothing changed. An already resolved module changes nothing. A new module gets a fresh container. Resolved modules and their instances are kept |
| AppFactories.AppFactory.RegisterNewModule | src/common/core/app/_app-factory.ts:94-108 | a module not yet resolved is resolved and its instance gets its kind and a new container. The outcome, the resolved modules and the routes appended are those of `ModuleWalk`: the submodule walk in declared order, then the module's own controllers' routes |
| AppFactories.AppFactory.PrepareModule | src/common/core/app/_app-factory.ts:96-97 | `resolveModule` adds exactly this module to the resolved ones; `_defineModuleInstanceMetadata` gives its instance a new non-root container and keeps every resolved module's cells |
| AppFactories.AppFactory.RegisterSubmodules | src/common/core/app/_app-factory.ts:99-102 | the outcome, the resolved modules and the routes appended are those of `SubmodulesWalk`: each submodule's walk in declared order, stopping at the first failure. On success every submodule is resolved |
| AppFactories.AppFactory.RegisterControllers | src/common/core/app/_app-factory.ts:104-107 | the routes mounted and the outcome are those of registering the controllers in order, stopping at the first failure |
| AppFactories.AppFactory.RegisterController | src/common/core/app/_app-factory.ts:110-147 | one controller's router is mounted under its path on success; on failure nothing is mounted |
| AppFactories.AppFactory.RegisterControllerAction | src/common/core/app/_app-factory.ts:149-182 | a `TypeError` exactly when the member is not a function; otherwise the router gains one handler |
| AppFactories.AppFactory.Dispatch | src/common/core/app/_app-factory.ts:163-181 | the handler's member is called on its receiver; request, response and next sit at their recorded indices, and every other position, body and named parameters included, is empty |
| AppFactories.AppFactory.DefineModuleInstanceMetadata | src/common/core/app/_app-factory.ts:184-191 | the instance gets `$kind = 'module-instance'` and a new non-root container; no other cell changes |
| DatabaseTypes.Url | src/common/core/database/postgresql/_module-factory.ts:260-263 | the URL starts with `postgresql://`, the user and `:__PASSWORD__@`, so the password itself never appears in that position |
| DatabaseTypes.UrlHidesPassword | src/common/core/database/modules/_postgresql.ts:233-235 | the URL does not depend on the password |
| Migrations.TableOf | src/common/core/database/postgresql/_module-factory.ts:194 | the migration table defaults to `__migrations` |
| Migrations.ScriptsOf | src/common/core/database/postgresql/_module-factory.ts:194 | the scripts default to `[]` |
| Migrations.NeededMembers | src/common/core/database/postgresql/_module-factory.ts:218-219 | a script is selected exactly when it is declared and not recorded |
| Migrations.NothingNeeded | src/common/core/database/postgresql/_module-factory.ts:219-223 | when every declared script is recorded nothing is selected |
| Migrations.NeededSplits | src/common/core/database/postgresql/_module-factory.ts:219 | selection distributes over concatenation, so it keeps the declared order |
| SqlTemplates.TrimStart | src/common/core/database/postgresql/_module-factory.ts:84 | trimming the start never lengthens the part |
| SqlTemplates.TrimEnd | src/common/core/database/postgresql/_module-factory.ts:84 | trimming the end never lengthens the part |
| SqlTemplates.TrimStartFacts | src/common/core/database/postgresql/_module-factory.ts:84 | `TrimStart` removes exactly the leading run of whitespace |
| SqlTemplates.TrimEndFacts | src/common/core/database/postgresql/_module-factory.ts:84 | `TrimEnd` removes exactly the trailing run of whitespace |
| SqlTemplates.CollapseFacts | src/common/core/database/postgresql/_module-factory.ts:84 | collapsing leaves only single spaces, and starts or ends with a space exactly when the input starts or ends with whitespace |
| SqlTemplates.CollapseEnds | src/common/core/database/postgresql/_module-factory.ts:84 | a collapsed string starts or ends with a space exactly where the input has whitespace, and is empty exactly when the input is |
| SqlTemplates.CollapseSpaces | src/common/core/database/postgresql/_module-factory.ts:84 | inside a collapsed string all whitespace is single spaces |
| SqlTemplates.LintFacts | src/common/core/database/postgresql/_module-factory.ts:84 | a linted part has no whitespace at either end and single spaces inside, and is empty exactly when the part is blank |
| SqlTemplates.DollarCountMonotone | src/common/core/database/postgresql/_module-factory.ts:86-95 | the count of `$`-terminated parts grows with the parts seen and never exceeds the parts or the values |
| SqlTemplates.ParamCount | src/common/core/database/postgresql/_module-factory.ts:86-95 | there are as many parameters as `$`-terminated parts with a value behind them |
| SqlTemplates.ParamAt | src/common/core/database/postgresql/_module-factory.ts:92-95 | the value behind the k-th `$`-terminated part is parameter k |
| SqlTemplates.ParamSource | src/common/core/database/postgresql/_module-factory.ts:92-95 | every parameter is the value behind some `$`-terminated part, the one whose placeholder number it is |
| SqlTemplates.PieceAgrees | src/common/core/database/modules/_postgresql.ts:141-145 | the placeholder a part gets is one more than the parameters before it, its number after the push |
| SqlTemplates.PieceIgnoresCount | src/common/core/database/postgresql/_module-factory.ts:86-98 | only a `$`-terminated part with a value behind it writes a placeholder number |
| SqlTemplates.BlankPiece | src/common/core/database/modules/_postgresql.ts:135-136 | a blank part with no value behind it adds no text and no parameter |
| SqlTemplates.TrailingBlankAddsNothing | src/common/core/database/postgresql/_module-factory.ts:86-87 | a blank final part adds nothing to the text or the parameters |
| SqlTemplates.Reduce | src/common/core/database/modules/_postgresql.ts:132-148 | the reducer appends the part's piece, with the running placeholder number, and pushes the value behind a `$`-terminated part |
| SqlTemplates.ReduceStep | src/common/core/database/postgresql/_module-factory.ts:82-101 | each part extends the text by its piece and the parameters by its pushed value |
| SqlTemplates.Compile | src/common/core/database/postgresql/_module-factory.ts:82-101 | the reduce yields the text and parameters of the whole template: one parameter per `$`-terminated part with a value, at most one per value, each part's piece written with its placeholder number |
| SqlTemplates.ParamFacts | src/common/core/database/postgresql/_module-factory.ts:86-98 | one parameter per `$`-terminated part with a value behind it, and its value is the one whose piece carries its number |
| PostgresqlModuleFactory.ApplyAllShape | src/common/core/database/postgresql/_module-factory.ts:225-244 | a migration run records and executes a prefix of the selected scripts in order: all of them on success, otherwise up to a script whose SQL failed or whose name was recorded, with a `DatabaseError` |
| PostgresqlModuleFactory.ApplyAllSucceeds | src/common/core/database/postgresql/_module-factory.ts:225-244 | new, distinct, working scripts are all applied and recorded, in order |
| PostgresqlModuleFactory.MigratedNothingLeft | src/common/core/database/postgresql/_module-factory.ts:218-223 | after a successful migration every declared script is recorded, so migrating again selects nothing |
| PostgresqlModuleFactory.EntityPassesCheck | src/common/core/database/base/_database-module.ts:63-75 | for an `@Entity` class `createRepository` passes the entity check and then depends on the options alone |
| PostgresqlModuleFactory.PostgresqlModule.constructor | src/common/core/database/postgresql/_module-factory.ts:24-26 | a new module is not initialised and has no pool |
| PostgresqlModuleFactory.PostgresqlModule.DatabaseUrl | src/common/core/database/postgresql/_module-factory.ts:260-263 | the masked URL of the connection, read through `this.options` (corrected; see Findings) |
| PostgresqlModuleFactory.SuperOptionsUndefined | src/common/core/database/base/_database-module.ts:26-29 | `options` is an own property of the instance, so `this.options` finds it and `super.options`, which starts at `DatabaseModuleBase.prototype`, does not |
| PostgresqlModuleFactory.PostgresqlModule.ConnectionVia | src/common/core/database/postgresql/_module-factory.ts:254 | reading `.connection` of the options succeeds exactly when the read finds `options`, with the module's connection; otherwise it is a `TypeError` |
| PostgresqlModuleFactory.PostgresqlModule.DatabaseUrlVia | src/common/core/database/postgresql/_module-factory.ts:260-263 | as written (through `super`) the getter throws a `TypeError`; through `this` it is the masked URL |
| PostgresqlModuleFactory.PostgresqlModule.CreatePoolAsWritten | src/common/core/database/postgresql/_module-factory.ts:252-258 | as written, an existing pool is returned, and building a new one is a `TypeError`, so no pool is ever remembered |
| PostgresqlModuleFactory.PostgresqlModule.CreateApiAsWritten | src/common/core/database/postgresql/_module-factory.ts:40-41 | as written, `_createApi` fails with a `TypeError` exactly when there is no pool |
| PostgresqlModuleFactory.PostgresqlModule.ConnectAsWritten | src/common/core/database/base/_database-module.ts:36-39 | as written, `connect` throws a `TypeError` from `_databaseUrl` before `_createApi` runs, and changes nothing |
| PostgresqlModuleFactory.PostgresqlModule.CreateDatabaseAsWritten | src/common/core/database/postgresql/_module-factory.ts:162-166 | as written, `_createDatabase` throws a `TypeError` before any query, and changes nothing |
| PostgresqlModuleFactory.PostgresqlModule.MigrateAsWritten | src/common/core/database/postgresql/_module-factory.ts:194-195 | as written, `_migrate` throws a `TypeError` before it connects, and changes nothing |
| PostgresqlModuleFactory.PostgresqlModule.InitHookAsWritten | src/common/core/database/postgresql/_module-factory.ts:28-38 | as written, `_init` always fails with a `DatabaseError`: the argument at line 30 throws, and the `catch` wraps it. Nothing is created or migrated |
| PostgresqlModuleFactory.PostgresqlModule.InitAsWritten | src/common/core/database/base/_database-module.ts:50-61 | as written, `init` on a module not yet initialised throws a `TypeError` from `_databaseUrl` before `_init`. The module stays uninitialised, and nothing changes |
| PostgresqlModuleFactory.PostgresqlModule.CreatePool | src/common/core/database/postgresql/_module-factory.ts:252-258 | an existing pool is reused; otherwise a new one is made from `this.options.connection` and remembered (corrected; see Findings) |
| PostgresqlModuleFactory.PostgresqlModule.CreateApi | src/common/core/database/postgresql/_module-factory.ts:40-77 | the API uses the module's pool, created if there is none |
| PostgresqlModuleFactory.PostgresqlModule.Close | src/common/core/database/postgresql/_module-factory.ts:72-75 | `close` ends the API's pool and forgets the module's pool, so the next API gets a new one; a failing `end` changes nothing |
| PostgresqlModuleFactory.PostgresqlModule.Connect | src/common/core/database/base/_database-module.ts:36-48 | `connect` hands out the API `_createApi` builds (corrected; see Findings) |
| PostgresqlModuleFactory.PostgresqlModule.Dispose | src/common/core/database/base/_database-module.ts:41-46 | the API's async dispose is its `close` |
| PostgresqlModuleFactory.PostgresqlModule.CreateRepository | src/common/core/database/base/_database-module.ts:63-75 | a class without entity metadata is a `DatabaseError`; PostgreSQL options go to the repository factory; other options are a `ConfigurationError` |
| PostgresqlModuleFactory.PostgresqlModule.CreateRepositoryWith | src/common/core/database/postgresql/_repository-factory.ts:18-20 | the repository factory's `create` is not implemented and throws |
| PostgresqlModuleFactory.PostgresqlModule.CreateQuery | src/common/core/database/postgresql/_module-factory.ts:79-117 | the request carries the compiled text and parameters, in object row mode |
| PostgresqlModuleFactory.PostgresqlModule.CreateQueryArray | src/common/core/database/postgresql/_module-factory.ts:119-160 | the request carries the compiled text and parameters, in array row mode |
| PostgresqlModuleFactory.PostgresqlModule.CreateDatabase | src/common/core/database/postgresql/_module-factory.ts:162-192 | with the server reachable the module's database exists afterwards; otherwise a `DatabaseError` that changes nothing |
| PostgresqlModuleFactory.PostgresqlModule.Migrate | src/common/core/database/postgresql/_module-factory.ts:194-250 | an unreachable server is a `DatabaseError` that changes nothing; otherwise the table's rows, the executed SQL and the outcome are those of the run over the declared scripts not yet recorded, in order |
| PostgresqlModuleFactory.PostgresqlModule.ApplyScripts | src/common/core/database/postgresql/_module-factory.ts:225-244 | the loop's effect on the table, the executed SQL and the outcome is that of the run over the selected scripts |
| PostgresqlModuleFactory.PostgresqlModule.InitHook | src/common/core/database/postgresql/_module-factory.ts:28-38 | create the database, then migrate when migrations are configured; any error is a `DatabaseError` |
| PostgresqlModuleFactory.PostgresqlModule.Init | src/common/core/database/base/_database-module.ts:50-61 | an initialised module does nothing. Otherwise `_init` runs, and the module is initialised exactly when it succeeded, so a failed init can be retried. Every case's outcome is stated. An unreachable server is a `DatabaseError` that changes nothing. Without migrations, creating the database is success. A failing migration connection is a `DatabaseError` with no table touched. Otherwise the outcome, rows and executed SQL are those of applying the selected scripts |
| PostgresqlDatabase.InitOutcome | src/common/core/database/modules/_base.ts:47-52 | `try { connect; init } finally { disconnect }` succeeds exactly when all three do; a failing disconnect's error wins; otherwise the first failure is reported |
| PostgresqlDatabase.StopAtRecordedSkipsNewScripts | src/common/core/database/modules/_postgresql.ts:202-215 | as written, with `001` recorded and `001`, `002` declared, the loop ends at once and `002` is never applied, yet the run succeeds |
| PostgresqlDatabase.SkipRecordedAppliesNewScripts | src/common/core/database/modules/_postgresql.ts:202-230 | the corrected loop applies and records `002` in the same situation |
| PostgresqlDatabase.SkipRecordedRecordsAll | src/common/core/database/modules/_postgresql.ts:202-230 | the corrected loop keeps the recorded names, fails only with a `DatabaseError`, and on success has every declared script's name recorded |
| PostgresqlDatabase.NeededIgnoresOthers | src/common/core/database/postgresql/_module-factory.ts:219 | recording a name that is not declared does not change the selection |
| PostgresqlDatabase.SkipRecordedIsSelection | src/common/core/database/modules/_postgresql.ts:202-230 | with names equal to the scripts, distinct scripts and no failure, the corrected loop applies exactly the scripts the module factory selects, in order |
| PostgresqlDatabase.PostgreSqlDatabaseModule.constructor | src/common/core/database/modules/_postgresql.ts:34-36 | a new module is not initialised and has no client |
| PostgresqlDatabase.PostgreSqlDatabaseModule.DatabaseUrl | src/common/core/database/modules/_postgresql.ts:233-235 | the masked URL of the connection |
| PostgresqlDatabase.PostgreSqlDatabaseModule.Connect | src/common/core/database/modules/_postgresql.ts:38-86 | a new client is kept whether or not it connects; a failure is a `DatabaseError` |
| PostgresqlDatabase.PostgreSqlDatabaseModule.Disconnect | src/common/core/database/modules/_postgresql.ts:88-100 | without a client nothing happens; otherwise the client is ended and forgotten, or a `DatabaseError` keeps it |
| PostgresqlDatabase.PostgreSqlDatabaseModule.Query | src/common/core/database/modules/_postgresql.ts:122-163 | without a client a `DatabaseError` before anything is built; otherwise the compiled text and parameters |
| PostgresqlDatabase.PostgreSqlDatabaseModule.MigrateAsWritten | src/common/core/database/modules/_postgresql.ts:196-231 | without a client a `DatabaseError`; otherwise the loop as written, which stops at the first recorded script |
| PostgresqlDatabase.PostgreSqlDatabaseModule.Migrate | src/common/core/database/modules/_postgresql.ts:196-231 | without a client a `DatabaseError`; otherwise the corrected loop, which skips recorded scripts |
| PostgresqlDatabase.PostgreSqlDatabaseModule.InitHook | src/common/core/database/modules/_postgresql.ts:102-112 | without migration options nothing runs. With them, migration runs on the connected client against the recorded names. Without a client, or with scripts and no migration table, it is a `DatabaseError` that changes nothing. No scripts is success with nothing changed. Any error is a `DatabaseError`. Recorded scripts are skipped by the corrected rule (see Left out) |
| PostgresqlDatabase.PostgreSqlDatabaseModule.Init | src/common/core/database/modules/_base.ts:40-55 | an initialised module does nothing. Otherwise it connects, migrates (as `InitHook`) when connected, and always disconnects. The module is initialised exactly when all of that succeeded, and the client is gone exactly when the disconnect succeeded. The outcome is stated in every case. A failed connect is a `DatabaseError`, with the module left uninitialised and nothing applied. With no migrations or no scripts, only the disconnect can fail. A missing migration table with scripts to run is a `DatabaseError` with nothing applied. Otherwise the outcome and the tables are those of the corrected migration run |
| PostgresqlDatabase.PostgreSqlDatabaseModule.Open | src/common/core/database/modules/_base.ts:26-34 | `open` makes and keeps a new client; an unreachable server is a `DatabaseError` |
| PostgresqlDatabase.PostgreSqlDatabaseModule.Close | src/common/core/database/modules/_base.ts:36-38 | `close` is `_disconnect` |
| AppEnvironment.FindIndex | src/common/core/app/_app-env.ts:13 | `findIndex` is `-1` exactly when the argument is absent, and otherwise the first position holding it |
| AppEnvironment.ModeAfterFirstFlag | src/common/core/app/_app-env.ts:13-14 | the mode is the argument after the first `--mode` |
| AppEnvironment.NoModeWithoutValue | src/common/core/app/_app-env.ts:13-14 | without `--mode`, or with `--mode` last, there is no mode |
| AppEnvironment.Merged | src/common/core/app/_app-env.ts:52 | loading a file defines its variables but overrides none already set |
| AppEnvironment.LoadedFails | src/common/core/app/_app-env.ts:50-62 | loading fails, with a `ConfigurationError`, exactly when the mode file (when there is a mode) or the default file cannot be loaded |
| AppEnvironment.LoadedPrecedence | src/common/core/app/_app-env.ts:50-62 | after a successful load each variable comes from the first of the starting environment, the mode file and the default file, and no other variable is defined |
| AppEnvironment.ProcessEnv.Config | src/common/core/app/_app-env.ts:52-55 | a loadable file is merged into the environment; otherwise nothing changes and the error is reported |
| AppEnvironment.ProcessEnv.LoadEnvironment | src/common/core/app/_app-env.ts:50-62 | the outcome and the environment are those `Loaded` describes, including what a failed second load leaves behind |
| AppEnvironment.AppEnv.constructor | src/common/core/app/_app-env.ts:12-14 | the mode is read from the arguments |
| AppEnvironment.AppEnv.LoadEnvironment | src/common/core/app/_app-env.ts:16 | the constructor's load, for the mode it read |
| AppEnvironment.AppEnv.GetString | src/common/core/app/_app-env.ts:19-30 | a set variable is returned unchanged, even `''`; an unset one gives the default, or a `ConfigurationError` without one |
| AppEnvironment.AppEnv.GetNumber | src/common/core/app/_app-env.ts:32-48 | the same fallbacks; a set variable succeeds exactly when `Number` does not make it `NaN`, and then is that number |
| AppConfiguration.EnvOr | src/common/core/app/_app-config.ts:51 | `process.env[key] \|\| fallback`: the variable when set and non-empty, the fallback otherwise |
| AppConfiguration.ProductionIff | src/common/core/app/_app-config.ts:44-48 | production exactly when `NODE_ENV` is `production`; unset or empty means not |
| AppConfiguration.BadPortIff | src/common/core/app/_app-config.ts:58-60 | a port passes exactly when it is a finite number from 0 to 65535, whole or not |
| AppConfiguration.PortOf | src/common/core/app/_app-config.ts:52 | the port is `Number(PORT)` when `PORT` is set and non-empty, and the default otherwise |
| AppConfiguration.ServerConfigOf | src/common/core/app/_app-config.ts:50-66 | the server settings succeed exactly when the host is non-empty and the port passes, and then hold both; otherwise a `ConfigurationError` |
| AppConfiguration.ServerEmptyIsUnset | src/common/core/app/_app-config.ts:51-52 | `HOST` or `PORT` set to `''` behaves as unset |
| AppConfiguration.DirectoryConfigOf | src/common/core/app/_app-config.ts:68-78 | the directory settings succeed exactly when the logs directory, or its default, is non-empty, and then hold it resolved; otherwise a `ConfigurationError` |
| AppConfiguration.AppConfig.Of | src/common/core/app/_app-config.ts:25-27 | the configuration holds the mode and the three settings |
| AppConfiguration.AppConfig.Create | src/common/core/app/_app-config.ts:19-28 | the env files are loaded first; a configuration is made exactly when loading and both settings succeed, holding the mode, the production flag and the settings read from the loaded environment; what was loaded stays loaded either way |

## Left out

- Express: the application object, middlewares (`_registerMiddlewares`), routers, `listen`, `close` and server events. The transport is a recorded list of mounted routes, and `start` and `stop` only track whether a server was started.
- tsyringe: child containers, `resolve`, `registerSingleton`, and the `Injectable`, `Singleton` and `Inject` decorators. A module class resolves to its singleton instance, and a controller to a receiver bound to its module's container. `AppContainerStatic.resolve` is this rule and has no member of its own.
- pg and the file system: clients, pools, connect, end, query, reading migration files, and `CREATE DATABASE`. Whether a server is reachable, whether an `end` succeeds, and which migration SQL fails are all parameters.
- The `3D000` path of `_connect` (src/common/core/database/modules/_postgresql.ts:51-82), which recreates a missing database and its migration table; a failing connect is a `DatabaseError`.
- In the module factory, a failing `client.end()` in the `finally` of `_createDatabase` and `_migrate`.
- winston logging and ansis colouring: every `_logger` call is dropped.
- `Path.resolve`, `Path.basename` and `Path.extname`: they are opaque. A migration's name in src/common/core/database/modules/_postgresql.ts is the parameter `nameOf`.
- `Number(...)`: an abstract parser. `DefaultAppConfig` is not part of this model, so the configuration defaults are a parameter.
- dotenv's file format: what dotenv reads from a file is an input map. Loading merges that map without overriding variables already set.
- The API object's query functions and their error wrapping: queries are modelled up to the request they send. The `Object.assign` in `connect` and `open` is modelled as the dispose method itself.
- `AppFactoryStatic`'s constructor call of `_loadEnv` (src/common/core/app/_app-factory.ts:70-75): it is the default-file step of `ProcessEnv.LoadEnvironment`.
- `DatabaseTypes.Connection`: the port is a whole number (`nat`), not a JavaScript number.
- Constructors that throw (`new AppConfig()`, `new AppEnvStatic()`) are modelled as a method that returns an outcome or a result.
- `StringUtilStatic.resolvePath` of src/common/utils/data/_string-util.ts is not a separate function, because its text is that of the other copy.
- Concurrency and promises: async methods run to completion in order.
- Symbol property keys: member keys are strings, though the decorators accept `string | symbol`. So the model cannot express that a symbol-keyed action is appended to `actions` but never mounted: `getOwnPropertyNames` (src/common/core/app/_app-factory.ts:133) lists only string keys.
- PostgreSqlDatabaseModule.InitHook: it migrates with the corrected `SkipRecorded` rule, not the early `return` of `_migrate` as written (src/common/core/database/modules/_postgresql.ts:212-215, see Findings). So with `001` recorded and scripts `001` and `002` declared, the model applies `002` and the code as written does not.
- PostgreSqlDatabaseModule.Init: its migration step is `InitHook`, so it carries the same difference from `_init` as written (src/common/core/database/modules/_postgresql.ts:102-112).

## Findings

| source | as written | input that shows it | evidently intended | confidence | as-written member | corrected member |
|---|---|---|---|---|---|---|
| src/common/core/database/modules/_postgresql.ts:212-215 | the first script whose name is already recorded ends the whole `_migrate` loop with `return`, so later scripts are never applied | recorded `["001"]`, declared scripts `["001", "002"]`, names equal to scripts: the run succeeds with `002` not applied | skip a recorded script and go on, as the module factory's `_migrate` does with its filter | not executed | PostgresqlDatabase.StopAtRecordedSkipsNewScripts | PostgresqlDatabase.SkipRecordedAppliesNewScripts |
| src/common/core/database/postgresql/_module-factory.ts:261 | `_databaseUrl` destructures `super.options.connection`, and `super.options` is `undefined`, so the getter throws. `connect` and `init` evaluate it for a log line before doing anything | any module the factory creates: `connect()`, or `init()` on a new module | read `this.options.connection` | high; not executed | PostgresqlModuleFactory.PostgresqlModule.InitAsWritten | PostgresqlModuleFactory.PostgresqlModule.Init |
| src/common/core/database/base/_database-module.ts:37 | `connect` logs `this._databaseUrl` before `_createApi`, and in the factory's module that getter throws a `TypeError` | any module the factory creates, calling `connect()` | hand out the API over the module's pool | high; not executed | PostgresqlModuleFactory.PostgresqlModule.ConnectAsWritten | PostgresqlModuleFactory.PostgresqlModule.Connect |
| src/common/core/database/postgresql/_module-factory.ts:30-33 | `_init` reads `super.options.connection.database` and `super.options.migrations`; the first read throws, and the `catch` makes it a `DatabaseError` | `_init()` with a reachable server and no migrations: `DatabaseError`, no database created | create the database, then migrate when configured | high; not executed | PostgresqlModuleFactory.PostgresqlModule.InitHookAsWritten | PostgresqlModuleFactory.PostgresqlModule.InitHook |
| src/common/core/database/postgresql/_module-factory.ts:254 | `_createPool` builds `new Pool(super.options.connection)`, which throws, so no pool is ever remembered | `_createPool()` on a module with no pool | make a pool from the options and remember it | high; not executed | PostgresqlModuleFactory.PostgresqlModule.CreatePoolAsWritten | PostgresqlModuleFactory.PostgresqlModule.CreatePool |
| src/common/core/database/postgresql/_module-factory.ts:164 | `_createDatabase` spreads `super.options.connection` into the client options, which throws before any query | `_createDatabase(name)` with a reachable server | connect to `postgres` and create the database when missing | high; not executed | PostgresqlModuleFactory.PostgresqlModule.CreateDatabaseAsWritten | PostgresqlModuleFactory.PostgresqlModule.CreateDatabase |
| src/common/core/database/postgresql/_module-factory.ts:195 | `_migrate` builds `new Client(super.options.connection)`, which throws before the `try` | `_migrate(options)` with a reachable server | apply the scripts not yet recorded | high; not executed | PostgresqlModuleFactory.PostgresqlModule.MigrateAsWritten | PostgresqlModuleFactory.PostgresqlModule.Migrate |
