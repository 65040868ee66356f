/**
 * The JavaScript entities metadata hangs on: classes, their prototypes and instances,
 * and the enumerations and record shapes of src/common/core/types/_metadata.type.ts.
 */
module CoreTypes {
  import opened Wrappers

  /** An own property of a class prototype: its name and whether its value is a function. */
  datatype Member = Member(name: string, isFunction: bool)

  /**
   * A class: an identity, its `name`, its `extends` clause, and the own property names of
   * its prototype in `Object.getOwnPropertyNames` order (`constructor` included).
   */
  datatype Cls = Cls(id: nat, name: string, base: Option<Cls>, members: seq<Member>)

  /**
   * An object that metadata can be attached to: a class (the constructor function), its
   * prototype, the singleton instance of a class, or the built-in `Function`.
   */
  datatype Target = ClassObj(cls: Cls) | Prototype(cls: Cls) | Instance(cls: Cls) | FunctionObject

  /** `target.constructor` */
  function Constructor(t: Target): (r: Target)
    ensures t.Prototype? || t.Instance? <==> r.ClassObj?
    ensures r.ClassObj? ==> r.cls == t.cls
    ensures t.ClassObj? || t.FunctionObject? <==> r.FunctionObject?
  {
    match t
    case ClassObj(_) => FunctionObject
    case Prototype(c) => ClassObj(c)
    case Instance(c) => ClassObj(c)
    case FunctionObject => FunctionObject
  }

  /**
   * `Object.getPrototypeOf(t)`, as far as metadata lookups go: a subclass inherits from
   * its base class, a prototype from the base prototype, an instance from its prototype.
   * The built-in objects at the top of every chain carry no metadata and are left out.
   */
  function Parent(t: Target): (r: Option<Target>)
    ensures r.Some? ==> Depth(r.value) < Depth(t)
  {
    match t
    case ClassObj(c) => if c.base.Some? then Some(ClassObj(c.base.value)) else None
    case Prototype(c) => if c.base.Some? then Some(Prototype(c.base.value)) else None
    case Instance(c) => Some(Prototype(c))
    case FunctionObject => None
  }

  /** The length of a class's `extends` chain. */
  function ClsDepth(c: Cls): nat {
    1 + if c.base.Some? then ClsDepth(c.base.value) else 0
  }

  /** The length of a target's prototype chain. */
  function Depth(t: Target): nat {
    match t
    case ClassObj(c) => ClsDepth(c)
    case Prototype(c) => ClsDepth(c)
    case Instance(c) => ClsDepth(c) + 1
    case FunctionObject => 0
  }

  /** `HTTPMethod` (src/common/core/constants/_http.constant.ts). */
  datatype HttpMethod = GET | POST | PUT | PATCH | DELETE

  /** `ProviderScope` (src/common/core/constants/_di.constant.ts). */
  datatype ProviderScope = Default | Request | Transient

  /** An injection token: a class or a string name. */
  datatype Token = TClass(cls: Cls) | TName(name: string)

  /** One parameter slot of an action: the member it belongs to and its position. */
  datatype ParamRef = ParamRef(name: string, index: nat)

  /** `ActionMetadata['parameters']`: the optional role slots and the optional `params` map. */
  datatype Parameters = Parameters(
    request: Option<ParamRef>,
    response: Option<ParamRef>,
    next: Option<ParamRef>,
    body: Option<ParamRef>,
    params: Option<map<string, ParamRef>>)

  /** `{}` */
  const NoParameters := Parameters(None, None, None, None, None)

  /** The keys of `ActionMetadata['parameters']` the role decorators write. */
  datatype Role = RequestRole | ResponseRole | NextRole | BodyRole

  /** `{ ...base, [role]: slot }` */
  function WithRole(p: Parameters, role: Role, slot: ParamRef): (r: Parameters)
    ensures RoleSlot(r, role) == Some(slot)
    ensures forall other: Role :: other != role ==> RoleSlot(r, other) == RoleSlot(p, other)
    ensures r.params == p.params
  {
    match role
    case RequestRole => p.(request := Some(slot))
    case ResponseRole => p.(response := Some(slot))
    case NextRole => p.(next := Some(slot))
    case BodyRole => p.(body := Some(slot))
  }

  /** `parameters[role]` */
  function RoleSlot(p: Parameters, role: Role): Option<ParamRef> {
    match role
    case RequestRole => p.request
    case ResponseRole => p.response
    case NextRole => p.next
    case BodyRole => p.body
  }
}
