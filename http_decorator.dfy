/**
 * The older `@Req` / `@Res` / `@Next` (src/common/core/decorators/_http.decorator.ts):
 * the same role write as the newer parameter decorators, without `@Body` and `@Param`.
 */
module HttpDecorator {
  import opened Wrappers
  import opened CoreTypes
  import opened Metadata
  import HttpParamDecorator

  /** `Req()(target, propertyKey, parameterIndex)` */
  method Req(store: Registry, target: Target, propertyKey: string, parameterIndex: nat)
    modifies store
    ensures store.cells == HttpParamDecorator.RoleRecorded(old(store.cells), target, RequestRole, propertyKey, parameterIndex)
  {
    DefineMetadata(store, target, RequestRole, propertyKey, parameterIndex);
  }

  /** `Res()(target, propertyKey, parameterIndex)` */
  method Res(store: Registry, target: Target, propertyKey: string, parameterIndex: nat)
    modifies store
    ensures store.cells == HttpParamDecorator.RoleRecorded(old(store.cells), target, ResponseRole, propertyKey, parameterIndex)
  {
    DefineMetadata(store, target, ResponseRole, propertyKey, parameterIndex);
  }

  /** `Next()(target, propertyKey, parameterIndex)` */
  method Next(store: Registry, target: Target, propertyKey: string, parameterIndex: nat)
    modifies store
    ensures store.cells == HttpParamDecorator.RoleRecorded(old(store.cells), target, NextRole, propertyKey, parameterIndex)
  {
    DefineMetadata(store, target, NextRole, propertyKey, parameterIndex);
  }

  /**
   * `defineMetadata(target, key, propertyKey, parameterIndex)`: the role's slot becomes
   * `{ name, index }`, the other roles stay, and `$kind` is not written.
   */
  method DefineMetadata(store: Registry, target: Target, role: Role, propertyKey: string, parameterIndex: nat)
    modifies store
    ensures store.cells == HttpParamDecorator.RoleRecorded(old(store.cells), target, role, propertyKey, parameterIndex)
    ensures RoleSlot(HttpParamDecorator.BaseParameters(store.cells, target, propertyKey), role) == Some(ParamRef(propertyKey, parameterIndex))
    ensures forall other: Role :: other != role ==>
      RoleSlot(HttpParamDecorator.BaseParameters(store.cells, target, propertyKey), other)
      == RoleSlot(HttpParamDecorator.BaseParameters(old(store.cells), target, propertyKey), other)
    ensures CreateKind(store.cells, "action", target, Some(propertyKey)) == CreateKind(old(store.cells), "action", target, Some(propertyKey))
  {
    var actionMethodMetadata := Create(target, Some(propertyKey));
    var baseParameters := ParamsOr(Get(store.cells, actionMethodMetadata, "parameters"));
    store.Set(actionMethodMetadata, "parameters",
      VParams(WithRole(baseParameters, role, ParamRef(propertyKey, parameterIndex))));
    HttpParamDecorator.RoleSet(old(store.cells), target, role, propertyKey, parameterIndex);
  }
}
