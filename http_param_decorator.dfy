/**
 * `@Req` / `@Res` / `@Next` / `@Body` / `@Param(name)`
 * (src/common/core/decorators/http/_param.decorator.ts): record where an action expects
 * each parameter, by overwriting the member's `parameters` entry with an updated copy.
 */
module HttpParamDecorator {
  import opened Wrappers
  import opened CoreTypes
  import opened Metadata

  function ActionView(target: Target, propertyKey: string): View {
    Create(target, Some(propertyKey))
  }

  /** The parameters visible on the member, `{}` if none. */
  function BaseParameters(cells: Store, target: Target, propertyKey: string): Parameters {
    ParamsOr(Get(cells, ActionView(target, propertyKey), "parameters"))
  }

  /** The store after `defineMetadata(target, role, propertyKey, parameterIndex)`. */
  function RoleRecorded(cells: Store, target: Target, role: Role, propertyKey: string, index: nat): Store {
    SetCell(cells, ActionView(target, propertyKey), "parameters",
      VParams(WithRole(BaseParameters(cells, target, propertyKey), role, ParamRef(propertyKey, index))))
  }

  /** `{ ...base, params: { ...base.params, [name]: slot } }` */
  function WithParam(p: Parameters, name: string, slot: ParamRef): (r: Parameters)
    ensures r.params.Some? && name in r.params.value && r.params.value[name] == slot
    ensures forall other :: other != name ==>
      (other in r.params.value <==> p.params.Some? && other in p.params.value)
    ensures forall other :: other != name && p.params.Some? && other in p.params.value ==>
      r.params.value[other] == p.params.value[other]
    ensures forall role: Role :: RoleSlot(r, role) == RoleSlot(p, role)
  {
    var named := if p.params.Some? then p.params.value else map[];
    p.(params := Some(named[name := slot]))
  }

  /** The store after `defineMetadataParam(target, name, propertyKey, parameterIndex)`. */
  function ParamRecorded(cells: Store, target: Target, name: string, propertyKey: string, index: nat): Store {
    SetCell(cells, ActionView(target, propertyKey), "parameters",
      VParams(WithParam(BaseParameters(cells, target, propertyKey), name, ParamRef(propertyKey, index))))
  }

  /** `Req()(target, propertyKey, parameterIndex)` */
  method Req(store: Registry, target: Target, propertyKey: string, parameterIndex: nat)
    modifies store
    ensures store.cells == RoleRecorded(old(store.cells), target, RequestRole, propertyKey, parameterIndex)
  {
    DefineMetadata(store, target, RequestRole, propertyKey, parameterIndex);
  }

  /** `Res()(target, propertyKey, parameterIndex)` */
  method Res(store: Registry, target: Target, propertyKey: string, parameterIndex: nat)
    modifies store
    ensures store.cells == RoleRecorded(old(store.cells), target, ResponseRole, propertyKey, parameterIndex)
  {
    DefineMetadata(store, target, ResponseRole, propertyKey, parameterIndex);
  }

  /** `Next()(target, propertyKey, parameterIndex)` */
  method Next(store: Registry, target: Target, propertyKey: string, parameterIndex: nat)
    modifies store
    ensures store.cells == RoleRecorded(old(store.cells), target, NextRole, propertyKey, parameterIndex)
  {
    DefineMetadata(store, target, NextRole, propertyKey, parameterIndex);
  }

  /** `Body()(target, propertyKey, parameterIndex)` */
  method Body(store: Registry, target: Target, propertyKey: string, parameterIndex: nat)
    modifies store
    ensures store.cells == RoleRecorded(old(store.cells), target, BodyRole, propertyKey, parameterIndex)
  {
    DefineMetadata(store, target, BodyRole, propertyKey, parameterIndex);
  }

  /** `Param(name)(target, propertyKey, parameterIndex)` */
  method Param(store: Registry, name: string, target: Target, propertyKey: string, parameterIndex: nat)
    modifies store
    ensures store.cells == ParamRecorded(old(store.cells), target, name, propertyKey, parameterIndex)
  {
    DefineMetadataParam(store, target, name, propertyKey, parameterIndex);
  }

  method DefineMetadata(store: Registry, target: Target, role: Role, propertyKey: string, parameterIndex: nat)
    modifies store
    ensures store.cells == RoleRecorded(old(store.cells), target, role, propertyKey, parameterIndex)
  {
    var actionMethodMetadata := Create(target, Some(propertyKey));
    var baseParameters := ParamsOr(Get(store.cells, actionMethodMetadata, "parameters"));
    store.Set(actionMethodMetadata, "parameters",
      VParams(WithRole(baseParameters, role, ParamRef(propertyKey, parameterIndex))));
  }

  method DefineMetadataParam(store: Registry, target: Target, name: string, propertyKey: string, parameterIndex: nat)
    modifies store
    ensures store.cells == ParamRecorded(old(store.cells), target, name, propertyKey, parameterIndex)
  {
    var actionMetadata := Create(target, Some(propertyKey));
    var baseParameters := ParamsOr(Get(store.cells, actionMetadata, "parameters"));
    store.Set(actionMetadata, "parameters",
      VParams(WithParam(baseParameters, name, ParamRef(propertyKey, parameterIndex))));
  }

  /**
   * A role decorator sets `parameters[role]` to `{ name: member, index }` and keeps the
   * other roles and the `params` map; it writes no `$kind`, so it does not by itself make
   * the member an action.
   */
  lemma RoleSet(cells: Store, target: Target, role: Role, propertyKey: string, index: nat)
    ensures var after := RoleRecorded(cells, target, role, propertyKey, index);
      var p := BaseParameters(after, target, propertyKey);
      && RoleSlot(p, role) == Some(ParamRef(propertyKey, index))
      && (forall other: Role :: other != role ==> RoleSlot(p, other) == RoleSlot(BaseParameters(cells, target, propertyKey), other))
      && p.params == BaseParameters(cells, target, propertyKey).params
      && CreateKind(after, "action", target, Some(propertyKey)) == CreateKind(cells, "action", target, Some(propertyKey))
  {
    var view := ActionView(target, propertyKey);
    SetCellKeeps(cells, view, "parameters", VParams(WithRole(BaseParameters(cells, target, propertyKey), role, ParamRef(propertyKey, index))), view, "$kind");
  }

  /** Decorating the same role twice: the last write wins. */
  lemma RoleLastWins(cells: Store, target: Target, role: Role, propertyKey: string, first: nat, second: nat)
    ensures RoleSlot(BaseParameters(RoleRecorded(RoleRecorded(cells, target, role, propertyKey, first), target, role, propertyKey, second), target, propertyKey), role)
         == Some(ParamRef(propertyKey, second))
  {
    RoleSet(RoleRecorded(cells, target, role, propertyKey, first), target, role, propertyKey, second);
  }

  /**
   * `Param(name)` adds or overwrites `params[name]`, keeps every other named parameter
   * and every role, and writes no `$kind`.
   */
  lemma ParamSet(cells: Store, target: Target, name: string, propertyKey: string, index: nat)
    ensures var after := ParamRecorded(cells, target, name, propertyKey, index);
      var before := BaseParameters(cells, target, propertyKey);
      var p := BaseParameters(after, target, propertyKey);
      && p.params.Some? && name in p.params.value && p.params.value[name] == ParamRef(propertyKey, index)
      && (forall other :: other != name && before.params.Some? && other in before.params.value ==>
            other in p.params.value && p.params.value[other] == before.params.value[other])
      && (forall role: Role :: RoleSlot(p, role) == RoleSlot(before, role))
      && CreateKind(after, "action", target, Some(propertyKey)) == CreateKind(cells, "action", target, Some(propertyKey))
  {
    var view := ActionView(target, propertyKey);
    SetCellKeeps(cells, view, "parameters", VParams(WithParam(BaseParameters(cells, target, propertyKey), name, ParamRef(propertyKey, index))), view, "$kind");
  }
}
