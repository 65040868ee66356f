/**
 * `@Provider` (src/common/core/decorators/app/_provider.decorator.ts): tags a class as a
 * provider with its injection token and its scope.
 */
module ProviderDecorator {
  import opened Wrappers
  import opened CoreTypes
  import opened Metadata

  /** `ProviderDecoratorOptions`: both fields may be omitted. */
  datatype ProviderOptions = ProviderOptions(token: Option<Token>, scope: Option<ProviderScope>)

  /** `@Provider()` with no argument. */
  const NoOptions := ProviderOptions(None, None)

  function ProviderView(target: Cls): View {
    Create(ClassObj(target), None)
  }

  /** The record `defineMetadata` writes, with the defaults `token = constructor` and `scope = Default`. */
  function ProviderRecord(target: Cls, options: ProviderOptions): seq<Entry> {
    [ ("$kind", VString("provider")),
      ("token", VToken(options.token.GetOr(TClass(target)))),
      ("scope", VScope(options.scope.GetOr(Default))) ]
  }

  function Decorated(cells: Store, target: Cls, options: ProviderOptions): Store {
    DefineAll(cells, ProviderView(target), ProviderRecord(target, options))
  }

  /** `Provider(options)(target)`; the tsyringe `Injectable()` registration is left out. */
  method Provider(store: Registry, target: Cls, options: ProviderOptions)
    modifies store
    ensures store.cells == Decorated(old(store.cells), target, options)
  {
    DefineMetadata(store, target, options);
  }

  /** `defineMetadata(constructor, { token, scope = Default })` */
  method DefineMetadata(store: Registry, target: Cls, options: ProviderOptions)
    modifies store
    ensures store.cells == Decorated(old(store.cells), target, options)
  {
    var scope := options.scope.GetOr(Default);
    var providerMetadata := Create(ClassObj(target), None);
    store.Define(providerMetadata, [
      ("$kind", VString("provider")),
      ("token", VToken(options.token.GetOr(TClass(target)))),
      ("scope", VScope(scope))
    ]);
  }

  predicate ProviderKey(key: string) {
    key == "$kind" || key == "token" || key == "scope"
  }

  /**
   * The class is a provider; its token is the given one or else the class itself, and its
   * scope is the given one or else `Default`.
   */
  lemma ProviderRecorded(cells: Store, target: Cls, options: ProviderOptions)
    ensures var after := Decorated(cells, target, options);
      && CreateKind(after, "provider", ClassObj(target), None) == Some(ProviderView(target))
      && (options.token.None? ==> Get(after, ProviderView(target), "token") == Some(VToken(TClass(target))))
      && (options.token.Some? ==> Get(after, ProviderView(target), "token") == Some(VToken(options.token.value)))
      && (options.scope.None? ==> Get(after, ProviderView(target), "scope") == Some(VScope(Default)))
      && (options.scope.Some? ==> Get(after, ProviderView(target), "scope") == Some(VScope(options.scope.value)))
  {
    var view, r := ProviderView(target), ProviderRecord(target, options);
    assert DistinctKeys(r);
    EntryForAt(r, 0);
    EntryForAt(r, 1);
    EntryForAt(r, 2);
    DefineAllGet(cells, view, r, "$kind");
    DefineAllGet(cells, view, r, "token");
    DefineAllGet(cells, view, r, "scope");
  }

  /** Nothing but the three cells of the provider record changes. */
  lemma ProviderKeepsOthers(cells: Store, target: Cls, options: ProviderOptions, c: Cell)
    requires c.owner != ClassObj(target) || c.member.Some? || !ProviderKey(c.key)
    ensures Stored(Decorated(cells, target, options), c) == Stored(cells, c)
  {
    var r := ProviderRecord(target, options);
    assert DistinctKeys(r);
    if ProviderKey(c.key) {
      if c.key == "$kind" { EntryForAt(r, 0); } else if c.key == "token" { EntryForAt(r, 1); } else { EntryForAt(r, 2); }
    } else {
      EntryForMissing(r, c.key);
    }
    DefineAllCells(cells, ProviderView(target), r, c);
  }
}
