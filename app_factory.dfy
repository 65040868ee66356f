/**
 * `AppFactoryStatic` (src/common/core/app/_app-factory.ts): walks the module graph from a
 * root module, gives each newly resolved module instance its own container, and mounts a
 * route for every action of every controller it meets. The Express application is a
 * recorded route table; dependency resolution yields a receiver naming the controller
 * class and the container that resolved it.
 */
module AppFactories {
  import opened Wrappers
  import opened CoreTypes
  import opened AppContainers
  import opened Metadata

  /** The controller instance `moduleContainer.resolve(controller)` yields. */
  datatype Receiver = Receiver(controller: Cls, container: AppContainer)

  /** One `router[method](path, handler)` registration: the handler calls `member` on `receiver`. */
  datatype Handler = Handler(verb: HttpMethod, path: string, receiver: Receiver, member: string, action: View)

  /** A handler as mounted by `app.use(controllerPath, router)`. */
  datatype Route = Route(mount: string, handler: Handler)

  /** A router's handlers mounted under `mount`, in order. */
  function Mounted(mount: string, router: seq<Handler>): (r: seq<Route>)
    ensures |r| == |router|
    ensures forall i :: 0 <= i < |r| ==> r[i] == Route(mount, router[i])
  {
    seq(|router|, i requires 0 <= i < |router| => Route(mount, router[i]))
  }

  /** The Express application: the routes mounted on it, in mounting order. */
  class App {
    var routes: seq<Route>

    constructor()
      ensures routes == []
    {
      routes := [];
    }

    /** `app.use(mount, router)` */
    method Use(mount: string, router: seq<Handler>)
      modifies this`routes
      ensures routes == old(routes) + Mounted(mount, router)
    {
      routes := routes + Mounted(mount, router);
    }
  }

  /** `value || '/'` for an optional string. */
  function OrRoot(p: Option<string>): (r: string)
    ensures r != ""
    ensures p.Some? && p.value != "" ==> r == p.value
    ensures p.None? || p == Some("") ==> r == "/"
  {
    if p.Some? && p.value != "" then p.value else "/"
  }

  /** The member's view, `create('action', controller.prototype, propName)` without the kind check. */
  function ActionView(controller: Cls, name: string): View {
    Create(Prototype(controller), Some(name))
  }

  function ClassView(controller: Cls): View {
    Create(ClassObj(controller), None)
  }

  /** `actionMetadata.get('method') ?? Method.Get` */
  function ActionMethod(cells: Store, action: View): HttpMethod {
    var v := Get(cells, action, "method");
    if v.Some? && v.value.VMethod? then v.value.verb else GET
  }

  /** `actionMetadata.get('path') || '/'` */
  function ActionPath(cells: Store, action: View): string {
    OrRoot(StringOf(Get(cells, action, "path")))
  }

  /** `controllerMetadata.get('path') || '/'` */
  function ControllerPath(cells: Store, controller: Cls): string {
    OrRoot(StringOf(Get(cells, ClassView(controller), "path")))
  }

  /**
   * What `_registerControllerAction` registers: binding the member throws a `TypeError`
   * when its value is not a function.
   */
  function ActionHandler(cells: Store, receiver: Receiver, action: View, member: Member): (r: Result<Handler>)
    ensures r.Err? <==> !member.isFunction
    ensures r.Err? ==> r.error == TypeError
    ensures r.Ok? ==> r.value.member == member.name && r.value.receiver == receiver && r.value.action == action
  {
    if !member.isFunction then Err(TypeError)
    else Ok(Handler(ActionMethod(cells, action), ActionPath(cells, action), receiver, member.name, action))
  }

  /**
   * Whether `_registerController`'s loop hands a prototype member to
   * `_registerControllerAction`: the guard against `constructor` (written with `&&`, so it
   * only skips a `constructor` that is not a function) and then the kind-checked lookup.
   */
  predicate IsAction(cells: Store, controller: Cls, m: Member) {
    !(!m.isFunction && m.name == "constructor")
    && CreateKind(cells, "action", Prototype(controller), Some(m.name)).Some?
  }

  /** `acc` followed by a result's routes; an error stays an error. */
  function Prepend(acc: seq<Handler>, r: Result<seq<Handler>>): Result<seq<Handler>> {
    if r.Err? then r else Ok(acc + r.value)
  }

  lemma PrependEmpty(r: Result<seq<Handler>>)
    ensures Prepend([], r) == r
  {
    if r.Ok? {
      assert [] + r.value == r.value;
    }
  }

  lemma PrependAppend(acc: seq<Handler>, more: seq<Handler>, r: Result<seq<Handler>>)
    ensures Prepend(acc, Prepend(more, r)) == Prepend(acc + more, r)
  {
    if r.Ok? {
      assert acc + (more + r.value) == (acc + more) + r.value;
    }
  }

  /** The router a controller's members produce, in `getOwnPropertyNames` order, or the first error. */
  function ActionRoutes(cells: Store, controller: Cls, receiver: Receiver, members: seq<Member>): (r: Result<seq<Handler>>)
    ensures r.Err? ==> r.error == TypeError
    decreases |members|
  {
    if members == [] then Ok([])
    else if !IsAction(cells, controller, members[0]) then ActionRoutes(cells, controller, receiver, members[1..])
    else
      var h := ActionHandler(cells, receiver, ActionView(controller, members[0].name), members[0]);
      if h.Err? then Err(h.error)
      else Prepend([h.value], ActionRoutes(cells, controller, receiver, members[1..]))
  }

  /** `ActionRoutes` from member `i` on, read off member `i`. */
  lemma ActionRoutesAt(cells: Store, controller: Cls, receiver: Receiver, members: seq<Member>, i: nat)
    requires i < |members|
    ensures var m, rest := members[i], ActionRoutes(cells, controller, receiver, members[i + 1..]);
      var r := ActionRoutes(cells, controller, receiver, members[i..]);
      && (!IsAction(cells, controller, m) ==> r == rest)
      && (IsAction(cells, controller, m) && !m.isFunction ==> r == Err(TypeError))
      && (IsAction(cells, controller, m) && m.isFunction ==>
            r == Prepend([ActionHandler(cells, receiver, ActionView(controller, m.name), m).value], rest))
  {
    assert members[i..][0] == members[i];
    assert members[i..][1..] == members[i + 1..];
  }

  /** The names of the members that carry action metadata, in order. */
  function ActionNames(cells: Store, controller: Cls, members: seq<Member>): seq<string>
    decreases |members|
  {
    if members == [] then []
    else (if IsAction(cells, controller, members[0]) then [members[0].name] else [])
         + ActionNames(cells, controller, members[1..])
  }

  function Names(router: seq<Handler>): seq<string> {
    seq(|router|, i requires 0 <= i < |router| => router[i].member)
  }

  /** Building a router fails exactly when some member carrying action metadata is not a function. */
  lemma {:induction false} ActionRoutesFails(cells: Store, controller: Cls, receiver: Receiver, members: seq<Member>)
    ensures ActionRoutes(cells, controller, receiver, members).Err?
        <==> exists i :: 0 <= i < |members| && IsAction(cells, controller, members[i]) && !members[i].isFunction
    decreases |members|
  {
    if members != [] {
      var rest := members[1..];
      ActionRoutesFails(cells, controller, receiver, rest);
      if !(IsAction(cells, controller, members[0]) && !members[0].isFunction) {
        if exists i :: 0 <= i < |members| && IsAction(cells, controller, members[i]) && !members[i].isFunction {
          var i :| 0 <= i < |members| && IsAction(cells, controller, members[i]) && !members[i].isFunction;
          assert rest[i - 1] == members[i];
        }
        if exists i :: 0 <= i < |rest| && IsAction(cells, controller, rest[i]) && !rest[i].isFunction {
          var i :| 0 <= i < |rest| && IsAction(cells, controller, rest[i]) && !rest[i].isFunction;
          assert members[i + 1] == rest[i];
        }
      }
    }
  }

  /** A router that is built has one handler per member carrying action metadata, in member order. */
  lemma {:induction false} ActionRoutesNames(cells: Store, controller: Cls, receiver: Receiver, members: seq<Member>)
    ensures var r := ActionRoutes(cells, controller, receiver, members);
      r.Ok? ==> Names(r.value) == ActionNames(cells, controller, members)
    decreases |members|
  {
    if members != [] {
      var rest := members[1..];
      ActionRoutesNames(cells, controller, receiver, rest);
      var r, r' := ActionRoutes(cells, controller, receiver, members), ActionRoutes(cells, controller, receiver, rest);
      if IsAction(cells, controller, members[0]) && members[0].isFunction && r'.Ok? {
        var h := ActionHandler(cells, receiver, ActionView(controller, members[0].name), members[0]).value;
        assert r == Ok([h] + r'.value);
        NamesCons(h, r'.value);
      }
    }
  }

  lemma NamesCons(h: Handler, router: seq<Handler>)
    ensures Names([h] + router) == [h.member] + Names(router)
  {
    assert forall i :: 0 < i < |[h] + router| ==> ([h] + router)[i] == router[i - 1];
  }

  /**
   * A handler as `_registerControllerAction` makes it: it calls its member on the receiver,
   * with the recorded method (default `Get`) and the recorded path, `'/'` when that is
   * empty or missing.
   */
  predicate HandlerOf(cells: Store, controller: Cls, receiver: Receiver, h: Handler) {
    && h.receiver == receiver
    && h.action == ActionView(controller, h.member)
    && h.verb == ActionMethod(cells, h.action)
    && h.path == ActionPath(cells, h.action)
    && h.path != ""
  }

  /** Every handler of a router is made as `_registerControllerAction` makes it. */
  predicate HandlersOf(cells: Store, controller: Cls, receiver: Receiver, router: seq<Handler>) {
    forall i :: 0 <= i < |router| ==> HandlerOf(cells, controller, receiver, router[i])
  }

  lemma HandlersOfCons(cells: Store, controller: Cls, receiver: Receiver, h: Handler, router: seq<Handler>)
    requires HandlerOf(cells, controller, receiver, h) && HandlersOf(cells, controller, receiver, router)
    ensures HandlersOf(cells, controller, receiver, [h] + router)
  {
    assert forall i :: 0 < i < |[h] + router| ==> ([h] + router)[i] == router[i - 1];
  }

  /** Every handler of a router that is built is made as `_registerControllerAction` makes it. */
  lemma {:induction false} ActionRoutesHandlers(cells: Store, controller: Cls, receiver: Receiver, members: seq<Member>)
    ensures var r := ActionRoutes(cells, controller, receiver, members);
      r.Ok? ==> HandlersOf(cells, controller, receiver, r.value)
    decreases |members|
  {
    if members != [] {
      var rest := members[1..];
      ActionRoutesHandlers(cells, controller, receiver, rest);
      var r' := ActionRoutes(cells, controller, receiver, rest);
      if IsAction(cells, controller, members[0]) && members[0].isFunction && r'.Ok? {
        var h := ActionHandler(cells, receiver, ActionView(controller, members[0].name), members[0]).value;
        assert HandlerOf(cells, controller, receiver, h);
        HandlersOfCons(cells, controller, receiver, h, r'.value);
        assert ActionRoutes(cells, controller, receiver, members) == Ok([h] + r'.value);
      }
    }
  }

  /**
   * Building a router fails exactly when some member carrying action metadata is not a
   * function, and then with a `TypeError`. Otherwise the router holds one handler per such
   * member, in member order; each calls that member on the receiver, with the recorded
   * method (default `Get`) and the recorded path, `'/'` when it is empty or missing.
   */
  lemma ActionRoutesCharacterized(cells: Store, controller: Cls, receiver: Receiver, members: seq<Member>)
    ensures var r := ActionRoutes(cells, controller, receiver, members);
      && (r.Err? <==> exists i :: 0 <= i < |members| && IsAction(cells, controller, members[i]) && !members[i].isFunction)
      && (r.Err? ==> r.error == TypeError)
      && (r.Ok? ==> Names(r.value) == ActionNames(cells, controller, members))
      && (r.Ok? ==> forall i :: 0 <= i < |r.value| ==>
            var h := r.value[i];
            && h.receiver == receiver
            && h.action == ActionView(controller, h.member)
            && h.verb == ActionMethod(cells, h.action)
            && h.path == ActionPath(cells, h.action)
            && h.path != "")
  {
    ActionRoutesFails(cells, controller, receiver, members);
    ActionRoutesNames(cells, controller, receiver, members);
    ActionRoutesHandlers(cells, controller, receiver, members);
  }

  /** Whether the kind-checked `'module'` lookup on a class succeeds. */
  predicate Declared(cells: Store, m: Cls) {
    CreateKind(cells, "module", ClassObj(m), None).Some?
  }

  /** The metadata `_defineModuleInstanceMetadata` leaves on an instance: its kind and a container. */
  predicate InstanceReady(cells: Store, instance: Target) {
    && Stored(cells, Cell(instance, None, "$kind")) == Some(VString("module-instance"))
    && Stored(cells, Cell(instance, None, "container")).Some?
    && Stored(cells, Cell(instance, None, "container")).value.VContainer?
  }

  /**
   * What `_registerController` mounts for one controller, or the error it throws: no
   * controller metadata is a `DefinitionError`; missing instance metadata or container is a
   * `ReflectionError`; a bad action is a `TypeError`.
   */
  function ControllerRoutes(cells: Store, moduleInstance: Target, controller: Cls): (r: Result<seq<Route>>)
    ensures CreateKind(cells, "controller", ClassObj(controller), None).None? ==> r == Err(DefinitionError)
    ensures r.Err? ==> r.error == DefinitionError || r.error == ReflectionError || r.error == TypeError
  {
    if CreateKind(cells, "controller", ClassObj(controller), None).None? then Err(DefinitionError)
    else if CreateKind(cells, "module-instance", moduleInstance, None).None? then Err(ReflectionError)
    else
      var c := Get(cells, Create(moduleInstance, None), "container");
      if !(c.Some? && c.value.VContainer?) then Err(ReflectionError)
      else
        var router := ActionRoutes(cells, controller, Receiver(controller, c.value.container), controller.members);
        if router.Err? then Err(router.error) else Ok(Mounted(ControllerPath(cells, controller), router.value))
  }

  /**
   * For a declared controller, a module instance without module-instance metadata, or
   * whose metadata holds no container, is a `ReflectionError`; with both present, the
   * only error left is the `TypeError` of a bad action.
   */
  lemma ControllerRoutesErrors(cells: Store, moduleInstance: Target, controller: Cls)
    requires CreateKind(cells, "controller", ClassObj(controller), None).Some?
    ensures var r, c := ControllerRoutes(cells, moduleInstance, controller), Get(cells, Create(moduleInstance, None), "container");
      && (CreateKind(cells, "module-instance", moduleInstance, None).None? ==> r == Err(ReflectionError))
      && (CreateKind(cells, "module-instance", moduleInstance, None).Some? && !(c.Some? && c.value.VContainer?) ==>
            r == Err(ReflectionError))
      && (CreateKind(cells, "module-instance", moduleInstance, None).Some? && c.Some? && c.value.VContainer? ==>
            (r.Err? ==> r.error == TypeError))
  {
  }

  /**
   * For an instance the walk has prepared, registering a controller never fails with a
   * `ReflectionError`; every route it mounts sits under the controller's path, `'/'` when
   * that path is empty or missing, and is served by the instance's container.
   */
  lemma ReadyInstanceRoutes(cells: Store, moduleInstance: Target, controller: Cls)
    requires InstanceReady(cells, moduleInstance)
    ensures var r := ControllerRoutes(cells, moduleInstance, controller);
      && r != Err(ReflectionError)
      && (r.Ok? ==> forall i :: 0 <= i < |r.value| ==>
            && r.value[i].mount == ControllerPath(cells, controller)
            && r.value[i].mount != ""
            && r.value[i].handler.receiver
               == Receiver(controller, Stored(cells, Cell(moduleInstance, None, "container")).value.container))
  {
    var c := Get(cells, Create(moduleInstance, None), "container");
    var receiver := Receiver(controller, c.value.container);
    ActionRoutesCharacterized(cells, controller, receiver, controller.members);
  }

  /** The outcome of a run of registrations with these results, and the routes mounted before it ends. */
  function Chained(results: seq<Result<seq<Route>>>): (Outcome, seq<Route>)
    decreases |results|
  {
    if results == [] then (Done, [])
    else if results[0].Err? then (Fail(results[0].error), [])
    else
      var rest := Chained(results[1..]);
      (rest.0, results[0].value + rest.1)
  }

  /** What `_registerController` does for each controller, in order. */
  function ControllerResults(cells: Store, moduleInstance: Target, controllers: seq<Cls>): (rs: seq<Result<seq<Route>>>)
    ensures |rs| == |controllers|
    ensures forall i :: 0 <= i < |controllers| ==> rs[i] == ControllerRoutes(cells, moduleInstance, controllers[i])
  {
    seq(|controllers|, i requires 0 <= i < |controllers| => ControllerRoutes(cells, moduleInstance, controllers[i]))
  }

  /** The outcome of registering several controllers in order, and the routes mounted before it. */
  function ControllersRoutes(cells: Store, moduleInstance: Target, controllers: seq<Cls>): (Outcome, seq<Route>) {
    Chained(ControllerResults(cells, moduleInstance, controllers))
  }

  /** Routes mounted so far followed by the outcome and routes of the rest of the run. */
  function Chain(added: seq<Route>, rest: (Outcome, seq<Route>)): (Outcome, seq<Route>) {
    (rest.0, added + rest.1)
  }

  /** Before the first registration nothing is mounted and the whole run is ahead. */
  lemma ChainStart(results: seq<Result<seq<Route>>>)
    ensures Chained(results) == Chain([], Chained(results[0..]))
  {
    assert results[0..] == results;
    assert [] + Chained(results).1 == Chained(results).1;
  }

  /**
   * One registration of the run: a failing controller ends it with what is mounted so
   * far, and a succeeding one adds its routes.
   */
  lemma ChainNext(results: seq<Result<seq<Route>>>, j: nat, added: seq<Route>)
    requires j < |results|
    ensures var whole := Chain(added, Chained(results[j..]));
      && (results[j].Err? ==> whole == (Fail(results[j].error), added))
      && (results[j].Ok? ==> whole == Chain(added + results[j].value, Chained(results[j + 1..])))
  {
    assert results[j..][0] == results[j];
    assert results[j..][1..] == results[j + 1..];
    if results[j].Err? {
      assert added + [] == added;
    } else {
      var rest := Chained(results[j + 1..]);
      assert added + (results[j].value + rest.1) == (added + results[j].value) + rest.1;
    }
  }

  /** After the last registration the run is what was mounted. */
  lemma ChainEnd(results: seq<Result<seq<Route>>>, added: seq<Route>)
    ensures Chain(added, Chained(results[|results|..])) == (Done, added)
  {
    assert results[|results|..] == [];
    assert added + [] == added;
  }

  /** A run fails only with an error one of its registrations fails with. */
  lemma {:induction false} ChainedError(results: seq<Result<seq<Route>>>)
    ensures var o := Chained(results).0;
      o.Fail? ==> exists i :: 0 <= i < |results| && results[i] == Err(o.error)
    decreases |results|
  {
    if results != [] && results[0].Ok? {
      ChainedError(results[1..]);
      var o := Chained(results).0;
      if o.Fail? {
        var i :| 0 <= i < |results[1..]| && results[1..][i] == Err(o.error);
        assert results[i + 1] == Err(o.error);
      }
    }
  }

  /** For a prepared instance, a run of controller registrations fails only with a definition or type error. */
  lemma ReadyInstanceErrors(cells: Store, moduleInstance: Target, controllers: seq<Cls>)
    requires InstanceReady(cells, moduleInstance)
    ensures var o := ControllersRoutes(cells, moduleInstance, controllers).0;
      o.Fail? ==> o.error == DefinitionError || o.error == TypeError
  {
    var results := ControllerResults(cells, moduleInstance, controllers);
    ChainedError(results);
    var o := Chained(results).0;
    if o.Fail? {
      var i :| 0 <= i < |results| && results[i] == Err(o.error);
      ReadyInstanceRoutes(cells, moduleInstance, controllers[i]);
    }
  }

  /** `moduleMetadata.get('modules') ?? []` */
  function Submodules(cells: Store, m: Cls): seq<Cls> {
    ClassesOr(Get(cells, ClassView(m), "modules"))
  }

  /** `moduleMetadata.get('controllers') ?? []` */
  function Controllers(cells: Store, m: Cls): seq<Cls> {
    ClassesOr(Get(cells, ClassView(m), "controllers"))
  }

  function Elements(s: seq<Cls>): set<Cls> {
    set x | x in s
  }

  /** A module's submodules are named in the store. */
  lemma SubmodulesMentioned(cells: Store, m: Cls)
    ensures Elements(Submodules(cells, m)) <= Mentioned(cells)
  {
    var v := Get(cells, ClassView(m), "modules");
    if v.Some? && v.value.VClasses? {
      assert v.value in cells.Values;
    }
  }

  /** Where a walk ends: its outcome, the classes resolved by then, and the routes it mounted, in order. */
  datatype Walk = Walk(outcome: Outcome, resolved: set<Cls>, routes: seq<Route>)

  /**
   * `_registerModule(app, m)` with `resolved` already resolved, read on the store the walk
   * leaves behind: an undeclared class is a `DefinitionError`, a resolved one is skipped;
   * otherwise `m` is resolved, its submodules are walked in declared order, and then its
   * controllers are registered in declared order. The first error ends the walk.
   */
  ghost function ModuleWalk(cells: Store, resolved: set<Cls>, m: Cls): (w: Walk)
    ensures resolved <= w.resolved
    decreases |({m} + Mentioned(cells)) - resolved|, 1, 0
  {
    if !Declared(cells, m) then Walk(Fail(DefinitionError), resolved, [])
    else if m in resolved then Walk(Done, resolved, [])
    else
      var subs := Submodules(cells, m);
      SubmodulesMentioned(cells, m);
      MeasureDecreases(Mentioned(cells) + Elements(subs), {m} + Mentioned(cells), resolved, resolved + {m}, m);
      var w := SubmodulesWalk(cells, resolved + {m}, subs);
      if w.outcome.Fail? then w
      else
        var own := ControllersRoutes(cells, Instance(m), Controllers(cells, m));
        Walk(own.0, w.resolved, w.routes + own.1)
  }

  /** `modules.forEach(module => _registerModule(app, module))`: each submodule in turn, until one fails. */
  ghost function SubmodulesWalk(cells: Store, resolved: set<Cls>, modules: seq<Cls>): (w: Walk)
    ensures resolved <= w.resolved
    decreases |(Mentioned(cells) + Elements(modules)) - resolved|, 2, |modules|
  {
    if modules == [] then Walk(Done, resolved, [])
    else
      SubsetCard(({modules[0]} + Mentioned(cells)) - resolved, (Mentioned(cells) + Elements(modules)) - resolved);
      var first := ModuleWalk(cells, resolved, modules[0]);
      if first.outcome.Fail? then first
      else
        var tail := modules[1..];
        assert Elements(tail) <= Elements(modules);
        SubsetCard((Mentioned(cells) + Elements(tail)) - first.resolved, (Mentioned(cells) + Elements(modules)) - resolved);
        var rest := SubmodulesWalk(cells, first.resolved, tail);
        Walk(rest.outcome, rest.resolved, first.routes + rest.routes)
  }

  /** A walk that has not failed, continued with one more submodule. */
  ghost function WalkThen(cells: Store, w: Walk, m: Cls): Walk {
    if w.outcome.Fail? then w
    else
      var next := ModuleWalk(cells, w.resolved, m);
      Walk(next.outcome, next.resolved, w.routes + next.routes)
  }

  /** Walking two lists of submodules in turn is walking the first, then, unless it failed, the second. */
  lemma {:induction false} SubmodulesWalkAppend(cells: Store, resolved: set<Cls>, xs: seq<Cls>, ys: seq<Cls>)
    ensures var w := SubmodulesWalk(cells, resolved, xs);
      var rest := SubmodulesWalk(cells, w.resolved, ys);
      SubmodulesWalk(cells, resolved, xs + ys)
        == if w.outcome.Fail? then w else Walk(rest.outcome, rest.resolved, w.routes + rest.routes)
    decreases |xs|
  {
    if xs == [] {
      assert xs + ys == ys;
    } else {
      assert (xs + ys)[0] == xs[0] && (xs + ys)[1..] == xs[1..] + ys;
      var first := ModuleWalk(cells, resolved, xs[0]);
      if first.outcome.Done? {
        SubmodulesWalkAppend(cells, first.resolved, xs[1..], ys);
        var w := SubmodulesWalk(cells, first.resolved, xs[1..]);
        var rest := SubmodulesWalk(cells, w.resolved, ys);
        RoutesAssoc(first.routes, w.routes, rest.routes);
      }
    }
  }

  /**
   * The walk of a declared module not resolved yet, on a store that keeps the class-level
   * cells: its submodules' walk, then, unless that failed, its controllers' routes.
   */
  lemma ModuleWalkNew(cells0: Store, cells: Store, resolved: set<Cls>, m: Cls)
    requires KeepsResolved(cells0, cells, resolved) && Declared(cells0, m) && m !in resolved
    ensures var sub := SubmodulesWalk(cells, resolved + {m}, Submodules(cells, m));
      var own := ControllersRoutes(cells, Instance(m), Controllers(cells, m));
      ModuleWalk(cells, resolved, m) == if sub.outcome.Fail? then sub else Walk(own.0, sub.resolved, sub.routes + own.1)
  {
    LookupStatic(cells0, cells, ClassObj(m), None, "$kind");
  }

  /** When the walk of a list of submodules succeeds, every one of them is resolved. */
  lemma {:induction false} SubmodulesWalkResolves(cells: Store, resolved: set<Cls>, modules: seq<Cls>)
    ensures var w := SubmodulesWalk(cells, resolved, modules);
      w.outcome.Done? ==> forall x :: x in modules ==> x in w.resolved
    decreases |modules|
  {
    if modules != [] {
      var first := ModuleWalk(cells, resolved, modules[0]);
      if first.outcome.Done? {
        SubmodulesWalkResolves(cells, first.resolved, modules[1..]);
        assert forall x :: x in modules ==> x == modules[0] || x in modules[1..];
      }
    }
  }

  /**
   * What one `_registerModule` call does: an undeclared class fails at once with nothing
   * changed; a declared class is resolved afterwards, and one resolved before adds
   * nothing. A new module whose walk succeeds has every submodule resolved, and the
   * walk's last routes are those of its own controllers.
   */
  lemma ModuleWalkShape(cells: Store, resolved: set<Cls>, m: Cls)
    ensures var w := ModuleWalk(cells, resolved, m);
      && (!Declared(cells, m) ==> w == Walk(Fail(DefinitionError), resolved, []))
      && (Declared(cells, m) ==> m in w.resolved)
      && (Declared(cells, m) && m in resolved ==> w == Walk(Done, resolved, []))
      && (Declared(cells, m) && m !in resolved && w.outcome.Done? ==>
            && (forall x :: x in Submodules(cells, m) ==> x in w.resolved)
            && exists k :: 0 <= k <= |w.routes|
                 && ControllersRoutes(cells, Instance(m), Controllers(cells, m)) == (Done, w.routes[k..]))
  {
    var w := ModuleWalk(cells, resolved, m);
    if Declared(cells, m) && m !in resolved && w.outcome.Done? {
      var sub := SubmodulesWalk(cells, resolved + {m}, Submodules(cells, m));
      SubmodulesWalkResolves(cells, resolved + {m}, Submodules(cells, m));
      var own := ControllersRoutes(cells, Instance(m), Controllers(cells, m));
      assert w.routes[|sub.routes|..] == own.1;
    }
  }

  /**
   * One step of the submodule loop: the walk of the first `i` submodules, read on the
   * store after the next one, is what it was, and the next one extends it. A failing
   * step ends the walk of the whole list.
   */
  lemma SubmodulesStep(before: Store, after: Store, resolved: set<Cls>, modules: seq<Cls>, i: nat, r: set<Cls>)
    requires i < |modules| && KeepsResolved(before, after, r)
    requires SubmodulesWalk(before, resolved, modules[..i]).outcome == Done
    requires SubmodulesWalk(before, resolved, modules[..i]).resolved == r
    ensures var w, next := SubmodulesWalk(before, resolved, modules[..i]), ModuleWalk(after, r, modules[i]);
      SubmodulesWalk(after, resolved, modules[..i + 1]) == Walk(next.outcome, next.resolved, w.routes + next.routes)
  {
    SubmodulesWalkFrame(before, after, resolved, modules[..i], r);
    TakeSnoc(modules, i);
    SubmodulesWalkSnoc(after, resolved, modules[..i], modules[i]);
  }

  /** A walk that fails on the first `i` submodules is the walk of the whole list. */
  lemma SubmodulesStepFail(cells: Store, resolved: set<Cls>, modules: seq<Cls>, i: nat)
    requires i <= |modules| && SubmodulesWalk(cells, resolved, modules[..i]).outcome.Fail?
    ensures SubmodulesWalk(cells, resolved, modules) == SubmodulesWalk(cells, resolved, modules[..i])
  {
    SplitAt(modules, i);
    SubmodulesWalkFailAppend(cells, resolved, modules[..i], modules[i..]);
  }

  lemma SplitAt(s: seq<Cls>, i: nat)
    requires i <= |s|
    ensures s[..i] + s[i..] == s
  {
  }

  lemma TakeSnoc(s: seq<Cls>, i: nat)
    requires i < |s|
    ensures s[..i + 1] == s[..i] + [s[i]]
  {
  }

  lemma SubmodulesWalkFailAppend(cells: Store, resolved: set<Cls>, xs: seq<Cls>, ys: seq<Cls>)
    requires SubmodulesWalk(cells, resolved, xs).outcome.Fail?
    ensures SubmodulesWalk(cells, resolved, xs + ys) == SubmodulesWalk(cells, resolved, xs)
  {
    SubmodulesWalkAppend(cells, resolved, xs, ys);
  }

  /** One more submodule at the end of the list. */
  lemma SubmodulesWalkSnoc(cells: Store, resolved: set<Cls>, xs: seq<Cls>, m: Cls)
    ensures SubmodulesWalk(cells, resolved, xs + [m]) == WalkThen(cells, SubmodulesWalk(cells, resolved, xs), m)
  {
    SubmodulesWalkAppend(cells, resolved, xs, [m]);
    var w := SubmodulesWalk(cells, resolved, xs);
    var next := ModuleWalk(cells, w.resolved, m);
    assert [m][1..] == [];
    assert next.routes + [] == next.routes;
  }

  /** Two stores with the same cells outside instances. */
  ghost predicate SameStatic(s1: Store, s2: Store) {
    forall c: Cell :: !c.owner.Instance? ==> Stored(s1, c) == Stored(s2, c)
  }

  /** A controller's router reads only class-level and prototype cells. */
  lemma {:induction false} ActionRoutesFrame(s1: Store, s2: Store, controller: Cls, receiver: Receiver, members: seq<Member>)
    requires SameStatic(s1, s2)
    ensures ActionRoutes(s1, controller, receiver, members) == ActionRoutes(s2, controller, receiver, members)
    decreases |members|
  {
    if members != [] {
      var view := ActionView(controller, members[0].name);
      LookupStatic(s1, s2, view.owner, view.member, "$kind");
      LookupStatic(s1, s2, view.owner, view.member, "method");
      LookupStatic(s1, s2, view.owner, view.member, "path");
      ActionRoutesFrame(s1, s2, controller, receiver, members[1..]);
    }
  }

  /** Registering a controller reads the instance's own cells and otherwise only static ones. */
  lemma ControllerRoutesFrame(s1: Store, s2: Store, m: Cls, controller: Cls)
    requires SameStatic(s1, s2)
    requires forall c: Cell :: c.owner == Instance(m) ==> Stored(s1, c) == Stored(s2, c)
    ensures ControllerRoutes(s1, Instance(m), controller) == ControllerRoutes(s2, Instance(m), controller)
  {
    LookupStatic(s1, s2, ClassObj(controller), None, "$kind");
    LookupStatic(s1, s2, ClassObj(controller), None, "path");
    LookupStatic(s1, s2, Prototype(m), None, "$kind");
    LookupStatic(s1, s2, Prototype(m), None, "container");
    assert Stored(s1, Cell(Instance(m), None, "$kind")) == Stored(s2, Cell(Instance(m), None, "$kind"));
    assert Stored(s1, Cell(Instance(m), None, "container")) == Stored(s2, Cell(Instance(m), None, "container"));
    var c := Get(s1, Create(Instance(m), None), "container");
    if c.Some? && c.value.VContainer? {
      ActionRoutesFrame(s1, s2, controller, Receiver(controller, c.value.container), controller.members);
    }
  }

  /** Later steps of the walk leave the routes of an already resolved module's controllers as they were. */
  lemma ControllersRoutesFrame(s1: Store, s2: Store, r: set<Cls>, m: Cls, controllers: seq<Cls>)
    requires KeepsResolved(s1, s2, r) && m in r
    ensures ControllersRoutes(s1, Instance(m), controllers) == ControllersRoutes(s2, Instance(m), controllers)
  {
    forall i | 0 <= i < |controllers|
      ensures ControllerRoutes(s1, Instance(m), controllers[i]) == ControllerRoutes(s2, Instance(m), controllers[i])
    {
      ControllerRoutesFrame(s1, s2, m, controllers[i]);
    }
    assert ControllerResults(s1, Instance(m), controllers) == ControllerResults(s2, Instance(m), controllers);
  }

  /**
   * A walk reads the class-level metadata and the instance cells of the classes it
   * resolves, so a store that keeps those gives the same walk.
   */
  lemma {:induction false} ModuleWalkFrame(s1: Store, s2: Store, resolved: set<Cls>, m: Cls, r: set<Cls>)
    requires KeepsResolved(s1, s2, r) && ModuleWalk(s1, resolved, m).resolved <= r
    ensures ModuleWalk(s2, resolved, m) == ModuleWalk(s1, resolved, m)
    decreases |({m} + Mentioned(s1)) - resolved|, 1, 0
  {
    LookupStatic(s1, s2, ClassObj(m), None, "$kind");
    if Declared(s1, m) && m !in resolved {
      LookupStatic(s1, s2, ClassObj(m), None, "modules");
      LookupStatic(s1, s2, ClassObj(m), None, "controllers");
      var subs := Submodules(s1, m);
      SubmodulesMentioned(s1, m);
      MeasureDecreases(Mentioned(s1) + Elements(subs), {m} + Mentioned(s1), resolved, resolved + {m}, m);
      SubmodulesWalkFrame(s1, s2, resolved + {m}, subs, r);
      if SubmodulesWalk(s1, resolved + {m}, subs).outcome.Done? {
        ControllersRoutesFrame(s1, s2, r, m, Controllers(s1, m));
      }
    }
  }

  lemma {:induction false} SubmodulesWalkFrame(s1: Store, s2: Store, resolved: set<Cls>, modules: seq<Cls>, r: set<Cls>)
    requires KeepsResolved(s1, s2, r) && SubmodulesWalk(s1, resolved, modules).resolved <= r
    ensures SubmodulesWalk(s2, resolved, modules) == SubmodulesWalk(s1, resolved, modules)
    decreases |(Mentioned(s1) + Elements(modules)) - resolved|, 2, |modules|
  {
    if modules != [] {
      SubsetCard(({modules[0]} + Mentioned(s1)) - resolved, (Mentioned(s1) + Elements(modules)) - resolved);
      var first := ModuleWalk(s1, resolved, modules[0]);
      ModuleWalkFrame(s1, s2, resolved, modules[0], r);
      if first.outcome.Done? {
        var tail := modules[1..];
        assert Elements(tail) <= Elements(modules);
        SubsetCard((Mentioned(s1) + Elements(tail)) - first.resolved, (Mentioned(s1) + Elements(modules)) - resolved);
        SubmodulesWalkFrame(s1, s2, first.resolved, tail, r);
      }
    }
  }

  /** A listening server: where `app.listen` was asked to listen. */
  datatype Listener = Listener(host: string, port: int)

  /** The arguments an action can receive from a request. */
  datatype Arg = RequestArg | ResponseArg | NextArg

  /** A call of an action: the member, the receiver it is bound to, and the positional arguments. */
  datatype Invocation = Invocation(receiver: Receiver, member: string, args: seq<Option<Arg>>)

  /** `params[index] = value` on a JavaScript array: it grows with holes up to `index`. */
  function Place(a: seq<Option<Arg>>, index: nat, value: Arg): (r: seq<Option<Arg>>)
    ensures |r| == if index < |a| then |a| else index + 1
    ensures r[index] == Some(value)
    ensures forall j :: 0 <= j < |r| && j != index ==> r[j] == if j < |a| then a[j] else None
  {
    if index < |a| then a[index := Some(value)]
    else a + seq(index - |a|, _ => None) + [Some(value)]
  }

  /** The argument bound at position `j`: `next` over `response` over `request`, the order of the writes. */
  function SlotArg(p: Parameters, j: nat): Option<Arg> {
    if p.next.Some? && p.next.value.index == j then Some(NextArg)
    else if p.response.Some? && p.response.value.index == j then Some(ResponseArg)
    else if p.request.Some? && p.request.value.index == j then Some(RequestArg)
    else None
  }

  /** One past the largest index a request, response or next slot names; `0` when none is set. */
  function ArgCount(p: Parameters): nat {
    var a := if p.request.Some? then p.request.value.index + 1 else 0;
    var b := if p.response.Some? then p.response.value.index + 1 else 0;
    var c := if p.next.Some? then p.next.value.index + 1 else 0;
    var ab := if a < b then b else a;
    if ab < c then c else ab
  }

  class AppFactory {
    /** The process-wide metadata store. */
    const store: Registry

    /** `AppContainer`, the root container. */
    const root: AppContainer

    /** `_server` */
    var server: Option<Listener>

    constructor(store: Registry, root: AppContainer)
      requires root.isRoot
      ensures this.store == store && this.root == root && server == None
    {
      this.store := store;
      this.root := root;
      server := None;
    }

    /**
     * Every module the root container has resolved maps to its singleton instance, and that
     * instance carries its module-instance metadata.
     */
    predicate Valid()
      reads this, root, store
    {
      && root.isRoot
      && forall m :: m in root.resolvedModules ==>
           root.resolvedModules[m] == Instance(m) && InstanceReady(store.cells, Instance(m))
    }

    /** `create(module)`: a new application with the module graph registered on it. */
    method Create(moduleClass: Cls) returns (app: App, outcome: Outcome)
      requires Valid()
      modifies store, root
      ensures fresh(app) && Valid()
      ensures var w := ModuleWalk(store.cells, old(root.resolvedModules).Keys, moduleClass);
        outcome == w.outcome && root.resolvedModules.Keys == w.resolved && app.routes == w.routes
      ensures outcome.Fail? ==> outcome.error == DefinitionError || outcome.error == TypeError
      ensures !Declared(old(store.cells), moduleClass) ==>
        outcome == Fail(DefinitionError) && app.routes == []
        && store.cells == old(store.cells) && root.resolvedModules == old(root.resolvedModules)
      ensures Declared(old(store.cells), moduleClass) ==> moduleClass in root.resolvedModules
      ensures Declared(old(store.cells), moduleClass) && moduleClass in old(root.resolvedModules)
        ==> outcome == Done && app.routes == [] && store.cells == old(store.cells)
      ensures Declared(old(store.cells), moduleClass) && moduleClass !in old(root.resolvedModules) && outcome.Done? ==>
        exists k :: 0 <= k <= |app.routes|
          && ControllersRoutes(store.cells, Instance(moduleClass), Controllers(store.cells, moduleClass)) == (Done, app.routes[k..])
    {
      app := new App();
      outcome := RegisterModule(app, moduleClass);
      ModuleWalkShape(store.cells, old(root.resolvedModules).Keys, moduleClass);
    }

    /** `start()`: the server listens on the configured host and port. */
    method Start(host: string, port: int)
      modifies this
      ensures server == Some(Listener(host, port))
    {
      server := Some(Listener(host, port));
    }

    /** `stop()`: throws a `ServerError` unless the server was started. */
    method Stop() returns (outcome: Outcome)
      ensures outcome == Fail(ServerError) <==> server.None?
      ensures outcome.Done? <==> server.Some?
    {
      if server.None? {
        return Fail(ServerError);
      }
      outcome := Done;
    }

    /**
     * `_registerModule(app, module)`. A class without module metadata is a
     * `DefinitionError`, checked before anything else; an already resolved module is
     * skipped. A newly resolved module gets instance metadata with a fresh container, then
     * its submodules are walked in declared order, then its controllers are registered in
     * declared order.
     */
    method RegisterModule(app: App, moduleClass: Cls) returns (outcome: Outcome)
      requires Valid()
      modifies app, store, root
      decreases |({moduleClass} + Mentioned(store.cells)) - root.resolvedModules.Keys|, 2
      ensures Valid()
      ensures var w := ModuleWalk(store.cells, old(root.resolvedModules).Keys, moduleClass);
        outcome == w.outcome && root.resolvedModules.Keys == w.resolved && app.routes == old(app.routes) + w.routes
      ensures old(root.resolvedModules).Keys <= root.resolvedModules.Keys
      ensures Mentioned(store.cells) <= old(Mentioned(store.cells))
      ensures old(app.routes) <= app.routes
      ensures KeepsResolved(old(store.cells), store.cells, old(root.resolvedModules).Keys)
      ensures outcome.Fail? ==> outcome.error == DefinitionError || outcome.error == TypeError
      ensures !Declared(old(store.cells), moduleClass) ==>
        outcome == Fail(DefinitionError) && app.routes == old(app.routes)
        && store.cells == old(store.cells) && root.resolvedModules == old(root.resolvedModules)
      ensures Declared(old(store.cells), moduleClass) && moduleClass in old(root.resolvedModules) ==>
        outcome == Done && app.routes == old(app.routes)
        && store.cells == old(store.cells) && root.resolvedModules == old(root.resolvedModules)
      ensures Declared(old(store.cells), moduleClass) ==> moduleClass in root.resolvedModules
      ensures Declared(old(store.cells), moduleClass) && moduleClass !in old(root.resolvedModules) ==>
        var c := Stored(store.cells, Cell(Instance(moduleClass), None, "container"));
        c.Some? && c.value.VContainer? && fresh(c.value.container) && !c.value.container.isRoot
    {
      var moduleMetadata := CreateKind(store.cells, "module", ClassObj(moduleClass), None);
      if moduleMetadata.None? {
        return Fail(DefinitionError);
      }
      if root.IsModuleResolved(moduleClass) {
        return Done;
      }
      outcome := RegisterNewModule(app, moduleClass, moduleMetadata.value);
    }

    /**
     * `AppContainer.resolveModule(module)` and `_defineModuleInstanceMetadata` on the
     * instance: the module is resolved to its instance, which is prepared with a fresh
     * container; the cells of instances resolved before are kept.
     */
    method PrepareModule(moduleClass: Cls) returns (moduleInstance: Target)
      requires Valid() && moduleClass !in root.resolvedModules
      modifies store, root
      ensures Valid()
      ensures moduleInstance == Instance(moduleClass)
      ensures root.resolvedModules.Keys == old(root.resolvedModules).Keys + {moduleClass}
      ensures Mentioned(store.cells) <= old(Mentioned(store.cells))
      ensures KeepsResolved(old(store.cells), store.cells, old(root.resolvedModules).Keys)
      ensures var c := Stored(store.cells, Cell(Instance(moduleClass), None, "container"));
        c.Some? && c.value.VContainer? && fresh(c.value.container) && !c.value.container.isRoot
    {
      ghost var cells0, resolved0 := store.cells, root.resolvedModules.Keys;
      moduleInstance := root.ResolveModule(moduleClass);
      DefineModuleInstanceMetadata(moduleInstance);
      assert KeepsResolved(cells0, store.cells, resolved0);
      forall m | m in resolved0 ensures InstanceReady(store.cells, Instance(m)) {
        KeepsReady(cells0, store.cells, resolved0, m);
      }
    }

    /** The part of `_registerModule` that runs for a declared module not resolved yet. */
    method RegisterNewModule(app: App, moduleClass: Cls, moduleView: View) returns (outcome: Outcome)
      requires Valid()
      requires CreateKind(store.cells, "module", ClassObj(moduleClass), None) == Some(moduleView)
      requires moduleClass !in root.resolvedModules
      modifies app, store, root
      decreases |({moduleClass} + Mentioned(store.cells)) - root.resolvedModules.Keys|, 1
      ensures Valid()
      ensures var w := ModuleWalk(store.cells, old(root.resolvedModules).Keys, moduleClass);
        outcome == w.outcome && root.resolvedModules.Keys == w.resolved && app.routes == old(app.routes) + w.routes
      ensures old(root.resolvedModules).Keys <= root.resolvedModules.Keys
      ensures Mentioned(store.cells) <= old(Mentioned(store.cells))
      ensures old(app.routes) <= app.routes
      ensures KeepsResolved(old(store.cells), store.cells, old(root.resolvedModules).Keys)
      ensures outcome.Fail? ==> outcome.error == DefinitionError || outcome.error == TypeError
      ensures moduleClass in root.resolvedModules
      ensures var c := Stored(store.cells, Cell(Instance(moduleClass), None, "container"));
        c.Some? && c.value.VContainer? && fresh(c.value.container) && !c.value.container.isRoot
    {
      var moduleMetadata := Some(moduleView);
      ghost var cells0, resolved0, horizon := store.cells, root.resolvedModules.Keys, {moduleClass} + Mentioned(store.cells);
      var moduleInstance := PrepareModule(moduleClass);
      ghost var cells1, resolved1 := store.cells, root.resolvedModules.Keys;
      StaticGet(cells0, cells1, resolved0, ClassView(moduleClass), "modules");
      StaticGet(cells0, cells1, resolved0, ClassView(moduleClass), "controllers");

      var modules := ClassesOr(Get(store.cells, moduleMetadata.value, "modules"));
      assert forall sub :: sub in modules ==> sub in horizon by {
        var v := Get(cells1, moduleMetadata.value, "modules");
        if v.Some? && v.value.VClasses? {
          assert v.value in cells1.Values;
        }
      }
      ghost var routes0 := app.routes;
      outcome := RegisterSubmodules(app, modules, moduleClass, horizon, resolved0);
      ghost var cells2 := store.cells;
      ghost var sub := SubmodulesWalk(cells2, resolved1, modules);
      KeepsTrans(cells0, cells1, cells2, resolved0, resolved1);
      StaticGet(cells1, cells2, resolved1, ClassView(moduleClass), "modules");
      ModuleWalkNew(cells0, cells2, resolved0, moduleClass);
      assert resolved1 == resolved0 + {moduleClass};
      if outcome.Fail? {
        return;
      }

      StaticGet(cells1, cells2, resolved1, ClassView(moduleClass), "controllers");
      KeepsReady(cells1, cells2, resolved1, moduleClass);
      var controllers := ClassesOr(Get(store.cells, moduleMetadata.value, "controllers"));
      outcome := RegisterControllers(app, moduleInstance, controllers);
      ReadyInstanceErrors(cells2, moduleInstance, controllers);
      RoutesAssoc(routes0, sub.routes, ControllersRoutes(cells2, moduleInstance, controllers).1);
    }

    /**
     * `modules.forEach(module => _registerModule(app, module))`, for the submodules of
     * `parent`, which is already resolved. The ghost `horizon` and `resolved0` are the
     * classes the walk could reach and the classes resolved when `parent` was entered.
     */
    method RegisterSubmodules(app: App, modules: seq<Cls>, ghost parent: Cls, ghost horizon: set<Cls>, ghost resolved0: set<Cls>)
      returns (outcome: Outcome)
      requires Valid()
      requires parent in horizon && parent !in resolved0 && parent in root.resolvedModules
      requires resolved0 <= root.resolvedModules.Keys
      requires Mentioned(store.cells) <= horizon
      requires forall sub :: sub in modules ==> sub in horizon
      modifies app, store, root
      decreases |horizon - resolved0|, 0
      ensures Valid()
      ensures var w := SubmodulesWalk(store.cells, old(root.resolvedModules).Keys, modules);
        outcome == w.outcome && root.resolvedModules.Keys == w.resolved && app.routes == old(app.routes) + w.routes
      ensures old(root.resolvedModules).Keys <= root.resolvedModules.Keys
      ensures Mentioned(store.cells) <= old(Mentioned(store.cells))
      ensures old(app.routes) <= app.routes
      ensures KeepsResolved(old(store.cells), store.cells, old(root.resolvedModules).Keys)
      ensures outcome.Fail? ==> outcome.error == DefinitionError || outcome.error == TypeError
      ensures outcome.Done? ==> forall sub :: sub in modules ==> sub in root.resolvedModules
    {
      outcome := Done;
      var i := 0;
      assert modules[..0] == [];
      while i < |modules|
        invariant 0 <= i <= |modules|
        invariant Valid()
        invariant parent in root.resolvedModules
        invariant old(root.resolvedModules).Keys <= root.resolvedModules.Keys
        invariant Mentioned(store.cells) <= old(Mentioned(store.cells))
        invariant old(app.routes) <= app.routes
        invariant KeepsResolved(old(store.cells), store.cells, old(root.resolvedModules).Keys)
        invariant outcome == Done
        invariant var w := SubmodulesWalk(store.cells, old(root.resolvedModules).Keys, modules[..i]);
          w.outcome == Done && w.resolved == root.resolvedModules.Keys && app.routes == old(app.routes) + w.routes
      {
        MeasureDecreases({modules[i]} + Mentioned(store.cells), horizon, resolved0, root.resolvedModules.Keys, parent);
        ghost var cellsBefore, resolvedBefore, routesBefore := store.cells, root.resolvedModules.Keys, app.routes;
        ghost var before := SubmodulesWalk(cellsBefore, old(root.resolvedModules).Keys, modules[..i]);
        outcome := RegisterModule(app, modules[i]);
        KeepsTrans(old(store.cells), cellsBefore, store.cells, old(root.resolvedModules).Keys, resolvedBefore);
        SubmodulesStep(cellsBefore, store.cells, old(root.resolvedModules).Keys, modules, i, resolvedBefore);
        RoutesAssoc(old(app.routes), before.routes, ModuleWalk(store.cells, resolvedBefore, modules[i]).routes);
        if outcome.Fail? {
          SubmodulesStepFail(store.cells, old(root.resolvedModules).Keys, modules, i + 1);
          return;
        }
        i := i + 1;
      }
      assert modules[..i] == modules;
      SubmodulesWalkResolves(store.cells, old(root.resolvedModules).Keys, modules);
    }

    /** `controllers.forEach(controller => _registerController(app, moduleInstance, controller))` */
    method RegisterControllers(app: App, moduleInstance: Target, controllers: seq<Cls>) returns (outcome: Outcome)
      modifies app`routes
      ensures var r := ControllersRoutes(store.cells, moduleInstance, controllers);
        outcome == r.0 && app.routes == old(app.routes) + r.1
    {
      ghost var results := ControllerResults(store.cells, moduleInstance, controllers);
      ghost var added: seq<Route> := [];
      ChainStart(results);
      for j := 0 to |controllers|
        invariant app.routes == old(app.routes) + added
        invariant Chained(results) == Chain(added, Chained(results[j..]))
      {
        ChainNext(results, j, added);
        assert results[j] == ControllerRoutes(store.cells, moduleInstance, controllers[j]);
        outcome := RegisterController(app, moduleInstance, controllers[j]);
        if outcome.Fail? {
          return;
        }
        RoutesAssoc(old(app.routes), added, results[j].value);
        added := added + results[j].value;
      }
      ChainEnd(results, added);
      outcome := Done;
    }

    /** `_registerController(app, moduleInstance, controller)` */
    method RegisterController(app: App, moduleInstance: Target, controller: Cls) returns (outcome: Outcome)
      modifies app`routes
      ensures var r := ControllerRoutes(store.cells, moduleInstance, controller);
        && (r.Ok? ==> outcome == Done && app.routes == old(app.routes) + r.value)
        && (r.Err? ==> outcome == Fail(r.error) && app.routes == old(app.routes))
    {
      var controllerMetadata := CreateKind(store.cells, "controller", ClassObj(controller), None);
      if controllerMetadata.None? {
        return Fail(DefinitionError);
      }
      var moduleInstanceMetadata := CreateKind(store.cells, "module-instance", moduleInstance, None);
      if moduleInstanceMetadata.None? {
        return Fail(ReflectionError);
      }
      var moduleContainer := Get(store.cells, moduleInstanceMetadata.value, "container");
      if !(moduleContainer.Some? && moduleContainer.value.VContainer?) {
        return Fail(ReflectionError);
      }
      var controllerInstance := Receiver(controller, moduleContainer.value.container);
      var controllerPath := OrRoot(StringOf(Get(store.cells, controllerMetadata.value, "path")));

      assert ControllerRoutes(store.cells, moduleInstance, controller)
          == var r := ActionRoutes(store.cells, controller, controllerInstance, controller.members);
             if r.Err? then Err(r.error) else Ok(Mounted(controllerPath, r.value));

      var router: seq<Handler> := [];
      var members := controller.members;
      var i := 0;
      assert members[0..] == members;
      PrependEmpty(ActionRoutes(store.cells, controller, controllerInstance, members));
      while i < |members|
        invariant 0 <= i <= |members|
        invariant app.routes == old(app.routes)
        invariant ActionRoutes(store.cells, controller, controllerInstance, members)
               == Prepend(router, ActionRoutes(store.cells, controller, controllerInstance, members[i..]))
      {
        var propName := members[i].name;
        ActionRoutesAt(store.cells, controller, controllerInstance, members, i);
        if !members[i].isFunction && propName == "constructor" {
          i := i + 1;
          continue;
        }
        var actionMetadata := CreateKind(store.cells, "action", Prototype(controller), Some(propName));
        if actionMetadata.None? {
          i := i + 1;
          continue;
        }
        var registered := RegisterControllerAction(router, controllerInstance, actionMetadata.value, members[i]);
        if registered.Err? {
          assert IsAction(store.cells, controller, members[i]);
          return Fail(registered.error);
        }
        PrependAppend(router, [registered.value[|router|]], ActionRoutes(store.cells, controller, controllerInstance, members[i + 1..]));
        router := registered.value;
        i := i + 1;
      }
      assert members[i..] == [] && router + [] == router;
      app.Use(controllerPath, router);
      outcome := Done;
    }

    /** `_registerControllerAction(router, controllerInstance, controllerPath, actionMetadata, propName)` */
    method RegisterControllerAction(router: seq<Handler>, controllerInstance: Receiver, actionMetadata: View, member: Member)
      returns (r: Result<seq<Handler>>)
      ensures r.Err? <==> !member.isFunction
      ensures r.Err? ==> r.error == TypeError
      ensures r.Ok? ==> r.value == router + [ActionHandler(store.cells, controllerInstance, actionMetadata, member).value]
    {
      var actionMethod := ActionMethod(store.cells, actionMetadata);
      var actionPath := OrRoot(StringOf(Get(store.cells, actionMetadata, "path")));
      if !member.isFunction {
        return Err(TypeError);
      }
      r := Ok(router + [Handler(actionMethod, actionPath, controllerInstance, member.name, actionMetadata)]);
    }

    /**
     * The request handler of a route: the positional arguments receive the request, the
     * response and `next` at their recorded indices, read when the request arrives; every
     * other position, including a body or named parameter, is left empty. The action's
     * return value is not used.
     */
    method Dispatch(route: Route) returns (call: Invocation)
      ensures call.receiver == route.handler.receiver && call.member == route.handler.member
      ensures var p := ParamsOr(Get(store.cells, route.handler.action, "parameters"));
        |call.args| == ArgCount(p) && forall j :: 0 <= j < |call.args| ==> call.args[j] == SlotArg(p, j)
    {
      var params: seq<Option<Arg>> := [];
      var actionParams := ParamsOr(Get(store.cells, route.handler.action, "parameters"));
      if actionParams.request.Some? {
        params := Place(params, actionParams.request.value.index, RequestArg);
      }
      if actionParams.response.Some? {
        params := Place(params, actionParams.response.value.index, ResponseArg);
      }
      if actionParams.next.Some? {
        params := Place(params, actionParams.next.value.index, NextArg);
      }
      call := Invocation(route.handler.receiver, route.handler.member, params);
    }

    /** `_defineModuleInstanceMetadata(moduleInstance)` */
    method DefineModuleInstanceMetadata(moduleInstance: Target)
      modifies store
      ensures Stored(store.cells, Cell(moduleInstance, None, "$kind")) == Some(VString("module-instance"))
      ensures var c := Stored(store.cells, Cell(moduleInstance, None, "container"));
        c.Some? && c.value.VContainer? && fresh(c.value.container) && !c.value.container.isRoot
        && c.value.container.resolvedModules == map[]
      ensures forall c: Cell :: c.owner != moduleInstance || c.member.Some? || (c.key != "$kind" && c.key != "container") ==>
        Stored(store.cells, c) == Stored(old(store.cells), c)
      ensures Mentioned(store.cells) <= old(Mentioned(store.cells))
    {
      var moduleInstanceMetadata := Metadata.Create(moduleInstance, None);
      var container := root.CreateModuleContainer();
      ghost var entries := [("$kind", VString("module-instance")), ("container", VContainer(container))];
      DefineAllMentions(store.cells, moduleInstanceMetadata, entries);
      assert DistinctKeys(entries);
      EntryForAt(entries, 0);
      EntryForAt(entries, 1);
      forall c ensures Stored(DefineAll(store.cells, moduleInstanceMetadata, entries), c) == Defined(store.cells, moduleInstanceMetadata, entries, c) {
        DefineAllCells(store.cells, moduleInstanceMetadata, entries, c);
      }
      forall key | key != "$kind" && key != "container" ensures EntryFor(entries, key) == None {
        EntryForMissing(entries, key);
      }
      store.Define(moduleInstanceMetadata, [
        ("$kind", VString("module-instance")),
        ("container", VContainer(container))
      ]);
    }
  }

  lemma RoutesAssoc(a: seq<Route>, b: seq<Route>, c: seq<Route>)
    ensures (a + b) + c == a + (b + c)
  {
  }

  /** Removing a just-resolved module from the unresolved part of the walk's horizon shrinks it. */
  lemma MeasureDecreases(a: set<Cls>, b: set<Cls>, r: set<Cls>, r': set<Cls>, x: Cls)
    requires a <= b && r <= r' && x in b && x !in r && x in r'
    ensures |a - r'| < |b - r|
  {
    assert a - r' <= (b - r) - {x};
    SubsetCard(a - r', (b - r) - {x});
    assert (b - r) == ((b - r) - {x}) + {x};
  }

  lemma {:induction false} SubsetCard<T>(s: set<T>, t: set<T>)
    requires s <= t
    ensures |s| <= |t|
    decreases |t|
  {
    if s != {} {
      var e :| e in s;
      SubsetCard(s - {e}, t - {e});
    }
  }

  /**
   * The walk's frame: between `before` and `after`, only the cells of instances of classes
   * outside `resolved` may change.
   */
  ghost predicate KeepsResolved(before: Store, after: Store, resolved: set<Cls>) {
    forall c: Cell :: !c.owner.Instance? || c.owner.cls in resolved ==> Stored(after, c) == Stored(before, c)
  }

  lemma KeepsTrans(s0: Store, s1: Store, s2: Store, r0: set<Cls>, r1: set<Cls>)
    requires KeepsResolved(s0, s1, r0) && KeepsResolved(s1, s2, r1) && r0 <= r1
    ensures KeepsResolved(s0, s2, r0)
  {
  }

  /** A prepared instance of a resolved class stays prepared. */
  lemma KeepsReady(s0: Store, s1: Store, r: set<Cls>, m: Cls)
    requires KeepsResolved(s0, s1, r) && m in r && InstanceReady(s0, Instance(m))
    ensures InstanceReady(s1, Instance(m))
  {
    assert Stored(s1, Cell(Instance(m), None, "$kind")) == Stored(s0, Cell(Instance(m), None, "$kind"));
    assert Stored(s1, Cell(Instance(m), None, "container")) == Stored(s0, Cell(Instance(m), None, "container"));
  }

  /** Writes to instance cells do not change what a class-level view reads. */
  lemma StaticGet(s1: Store, s2: Store, r: set<Cls>, view: View, key: string)
    requires !view.owner.Instance?
    requires KeepsResolved(s1, s2, r)
    ensures Get(s1, view, key) == Get(s2, view, key)
  {
    LookupStatic(s1, s2, view.owner, view.member, key);
  }
}
