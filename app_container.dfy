/**
 * `AppContainerStatic` (src/common/core/app/_app-container.ts): a dependency container
 * that remembers which module classes it has resolved. The tsyringe child container it
 * wraps is left out; resolving a module class yields that class's singleton instance.
 */
module AppContainers {
  import opened CoreTypes

  /** The core injection tokens a root container registers as singletons. */
  const CoreTokens: seq<string> := ["IAppConfig", "IAppLogger"]

  class AppContainer {
    const isRoot: bool

    /** `_resolvedModules`: module class to the instance it resolved to. */
    var resolvedModules: map<Cls, Target>

    /** The tokens registered on the underlying container, in registration order. */
    var registered: seq<string>

    /** `new AppContainerStatic(isRoot)`: only a root container registers the config and logger. */
    constructor(isRoot: bool)
      ensures this.isRoot == isRoot
      ensures resolvedModules == map[]
      ensures forall token :: !IsModuleResolved(token)
      ensures registered == (if isRoot then CoreTokens else [])
    {
      this.isRoot := isRoot;
      resolvedModules := map[];
      registered := [];
      new;
      if isRoot {
        RegisterDependency();
      }
    }

    /** `_registerDependency`: `IAppConfig`, then `IAppLogger`. */
    method RegisterDependency()
      modifies this
      ensures registered == old(registered) + CoreTokens
      ensures resolvedModules == old(resolvedModules)
    {
      registered := registered + ["IAppConfig"];
      registered := registered + ["IAppLogger"];
    }

    /** `resolveModule(token)`: the module's singleton instance, recorded under its class. */
    method ResolveModule(token: Cls) returns (m: Target)
      modifies this
      ensures m == Instance(token)
      ensures resolvedModules == old(resolvedModules)[token := m]
      ensures IsModuleResolved(token)
      ensures forall other :: other != token ==> IsModuleResolved(other) == old(IsModuleResolved(other))
      ensures registered == old(registered)
    {
      m := Instance(token);
      resolvedModules := resolvedModules[token := m];
    }

    /** `isModuleResolved(token)` */
    predicate IsModuleResolved(token: Cls)
      reads this
    {
      token in resolvedModules
    }

    /** `createModuleContainer()`: a new, non-root container with nothing resolved. */
    method CreateModuleContainer() returns (c: AppContainer)
      ensures fresh(c)
      ensures !c.isRoot && c.resolvedModules == map[] && c.registered == []
    {
      c := new AppContainer(false);
    }
  }
}
