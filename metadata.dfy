/**
 * The reflect-metadata store and `MetadataFactory` (src/common/utils/reflect/_metadata-factory.ts).
 *
 * The process-wide store maps a cell (owner object, optional property key, metadata key)
 * to a value. `Reflect.getMetadata` / `hasMetadata` read the owner's own cell and
 * otherwise walk the owner's prototype chain; `Reflect.defineMetadata` writes only the
 * owner's own cell.
 */
module Metadata {
  import opened Wrappers
  import opened CoreTypes
  import opened AppContainers

  /** The values the framework stores, one variant per field type of the metadata records. */
  datatype Value =
    | VString(s: string)           // `$kind`, `name`, `path`, `table`, `column`
    | VMethod(verb: HttpMethod)    // `method`
    | VClasses(classes: seq<Cls>)  // `modules`, `controllers`, `providers`
    | VKeys(keys: seq<string>)     // `actions`, `properties`
    | VParams(params: Parameters)  // `parameters`
    | VToken(token: Token)         // `token`
    | VScope(scope: ProviderScope) // `scope`
    | VContainer(container: AppContainer)  // `container`

  datatype Cell = Cell(owner: Target, member: Option<string>, key: string)

  type Store = map<Cell, Value>

  /** `Reflect.getOwnMetadata`: the cell's own value, if any. */
  function Stored(cells: Store, c: Cell): Option<Value> {
    if c in cells then Some(cells[c]) else None
  }

  /**
   * `Reflect.getMetadata(key, owner, member?)`: the first value found on the owner's
   * prototype chain. Whatever it returns is a value of the store.
   */
  function Lookup(cells: Store, owner: Target, member: Option<string>, key: string): (r: Option<Value>)
    ensures r.Some? ==> r.value in cells.Values
    ensures Cell(owner, member, key) in cells ==> r == Some(cells[Cell(owner, member, key)])
    ensures Cell(owner, member, key) !in cells ==>
      r == if Parent(owner).None? then None else Lookup(cells, Parent(owner).value, member, key)
    decreases Depth(owner)
  {
    var c := Cell(owner, member, key);
    if c in cells then Some(cells[c])
    else
      match Parent(owner)
      case None => None
      case Some(p) => Lookup(cells, p, member, key)
  }

  /** Two stores that agree on every cell with this member and key agree on every lookup of it. */
  lemma {:induction false} LookupAgrees(s1: Store, s2: Store, owner: Target, member: Option<string>, key: string)
    requires forall o :: Stored(s1, Cell(o, member, key)) == Stored(s2, Cell(o, member, key))
    ensures Lookup(s1, owner, member, key) == Lookup(s2, owner, member, key)
    decreases Depth(owner)
  {
    assert Stored(s1, Cell(owner, member, key)) == Stored(s2, Cell(owner, member, key));
    if Parent(owner).Some? {
      LookupAgrees(s1, s2, Parent(owner).value, member, key);
    }
  }

  /**
   * Lookups from a class or a prototype never reach an instance, so two stores that agree
   * on every cell not owned by an instance agree on every such lookup.
   */
  lemma {:induction false} LookupStatic(s1: Store, s2: Store, owner: Target, member: Option<string>, key: string)
    requires !owner.Instance?
    requires forall c: Cell :: !c.owner.Instance? ==> Stored(s1, c) == Stored(s2, c)
    ensures Lookup(s1, owner, member, key) == Lookup(s2, owner, member, key)
    decreases Depth(owner)
  {
    assert Stored(s1, Cell(owner, member, key)) == Stored(s2, Cell(owner, member, key));
    if Parent(owner).Some? {
      LookupStatic(s1, s2, Parent(owner).value, member, key);
    }
  }

  /**
   * A metadata view: the cells `_createClass(target)` (no property key) or
   * `_createProperty(target, key)` reads and writes.
   */
  datatype View = View(owner: Target, member: Option<string>)

  /**
   * `create(target, propertyKey?)`: with a property key the view addresses the cells of
   * `target.constructor` under that key, without one the class-level cells of `target`.
   */
  function Create(target: Target, propertyKey: Option<string>): (v: View)
    ensures v.member == propertyKey
    ensures propertyKey.Some? ==> v.owner == Constructor(target)
    ensures propertyKey.None? ==> v.owner == target
  {
    match propertyKey
    case Some(_) => View(Constructor(target), propertyKey)
    case None => View(target, None)
  }

  /** `view.get(key)` */
  function Get(cells: Store, view: View, key: string): Option<Value> {
    Lookup(cells, view.owner, view.member, key)
  }

  /** `view.has(key)` */
  predicate Has(cells: Store, view: View, key: string) {
    Get(cells, view, key).Some?
  }

  /**
   * `create(kind, target, propertyKey?)`: the same view as the untyped form, returned only
   * if `$kind` is present and equal to `kind`; otherwise `null`.
   */
  function CreateKind(cells: Store, kind: string, target: Target, propertyKey: Option<string>): (r: Option<View>)
    ensures r.Some? <==> Get(cells, Create(target, propertyKey), "$kind") == Some(VString(kind))
    ensures r.Some? ==> r.value == Create(target, propertyKey)
  {
    var view := Create(target, propertyKey);
    if Has(cells, view, "$kind") && Get(cells, view, "$kind") == Some(VString(kind)) then Some(view) else None
  }

  /**
   * `view.set(key, value)`: exactly the view's own cell for `key` changes; afterwards
   * `get(key)` is `value` and `has(key)` holds.
   */
  function SetCell(cells: Store, view: View, key: string, value: Value): (r: Store)
    ensures Get(r, view, key) == Some(value) && Has(r, view, key)
    ensures forall c :: c != Cell(view.owner, view.member, key) ==> Stored(r, c) == Stored(cells, c)
    ensures r.Values <= cells.Values + {value}
  {
    cells[Cell(view.owner, view.member, key) := value]
  }

  /** An entry of the record given to `define`, in `Object.entries` order. */
  type Entry = (string, Value)

  /** `view.define(record)`: `defineMetadata` for each entry, in order. */
  function DefineAll(cells: Store, view: View, entries: seq<Entry>): Store
    decreases |entries|
  {
    if entries == [] then cells
    else DefineAll(SetCell(cells, view, entries[0].0, entries[0].1), view, entries[1..])
  }

  /** The value the last entry for `key` carries, if there is one. */
  function EntryFor(entries: seq<Entry>, key: string): Option<Value>
    decreases |entries|
  {
    if entries == [] then None
    else
      var later := EntryFor(entries[1..], key);
      if later.Some? then later
      else if entries[0].0 == key then Some(entries[0].1)
      else None
  }

  /** The record's keys are pairwise distinct, as the keys of an object literal are. */
  predicate DistinctKeys(entries: seq<Entry>) {
    forall j, k :: 0 <= j < k < |entries| ==> entries[j].0 != entries[k].0
  }

  lemma {:induction false} EntryForAt(entries: seq<Entry>, i: nat)
    requires DistinctKeys(entries) && i < |entries|
    ensures EntryFor(entries, entries[i].0) == Some(entries[i].1)
    decreases |entries|
  {
    if i == 0 {
      EntryForMissing(entries[1..], entries[0].0);
    } else {
      assert DistinctKeys(entries[1..]) by {
        forall j, k | 0 <= j < k < |entries[1..]| ensures entries[1..][j].0 != entries[1..][k].0 {
          assert entries[1..][j] == entries[j + 1] && entries[1..][k] == entries[k + 1];
        }
      }
      assert entries[1..][i - 1] == entries[i];
      EntryForAt(entries[1..], i - 1);
    }
  }

  lemma {:induction false} EntryForMissing(entries: seq<Entry>, key: string)
    requires forall i :: 0 <= i < |entries| ==> entries[i].0 != key
    ensures EntryFor(entries, key) == None
    decreases |entries|
  {
    if entries != [] {
      assert forall i :: 0 <= i < |entries[1..]| ==> entries[1..][i].0 != key by {
        forall i | 0 <= i < |entries[1..]| ensures entries[1..][i].0 != key {
          assert entries[1..][i] == entries[i + 1];
        }
      }
      EntryForMissing(entries[1..], key);
    }
  }

  /** The view's own cells the record writes, and what `define` leaves there. */
  function Defined(cells: Store, view: View, entries: seq<Entry>, c: Cell): Option<Value> {
    if c.owner == view.owner && c.member == view.member && EntryFor(entries, c.key).Some?
    then EntryFor(entries, c.key)
    else Stored(cells, c)
  }

  /**
   * `define` merges: each key of the record is written (the last entry for a key wins),
   * and every other cell, of this owner or any other, keeps its value.
   */
  lemma {:induction false} DefineAllCells(cells: Store, view: View, entries: seq<Entry>, c: Cell)
    ensures Stored(DefineAll(cells, view, entries), c) == Defined(cells, view, entries, c)
    decreases |entries|
  {
    if entries != [] {
      var next := SetCell(cells, view, entries[0].0, entries[0].1);
      DefineAllCells(next, view, entries[1..], c);
    }
  }

  /** After `define`, every key of the record reads back as its (last) entry. */
  lemma DefineAllGet(cells: Store, view: View, entries: seq<Entry>, key: string)
    requires EntryFor(entries, key).Some?
    ensures Get(DefineAll(cells, view, entries), view, key) == EntryFor(entries, key)
  {
    DefineAllCells(cells, view, entries, Cell(view.owner, view.member, key));
  }

  /** `define` does not change any lookup of a key the record does not mention. */
  lemma DefineAllKeeps(cells: Store, view: View, entries: seq<Entry>, other: View, key: string)
    requires EntryFor(entries, key).None? || other.member != view.member
    ensures Get(DefineAll(cells, view, entries), other, key) == Get(cells, other, key)
  {
    var after := DefineAll(cells, view, entries);
    forall o ensures Stored(after, Cell(o, other.member, key)) == Stored(cells, Cell(o, other.member, key)) {
      DefineAllCells(cells, view, entries, Cell(o, other.member, key));
    }
    LookupAgrees(after, cells, other.owner, other.member, key);
  }

  /** `set` does not change any lookup of another key, or of the same key under another member. */
  lemma SetCellKeeps(cells: Store, view: View, key: string, value: Value, other: View, key': string)
    requires key' != key || other.member != view.member
    ensures Get(SetCell(cells, view, key, value), other, key') == Get(cells, other, key')
  {
    LookupAgrees(SetCell(cells, view, key, value), cells, other.owner, other.member, key');
  }

  /**
   * The class-level view of a class and the member-level view of any of its members
   * address disjoint cells: writing through one never changes what the other reads.
   */
  lemma ClassAndMemberDistinct(cells: Store, cls: Cls, member: string, key: string, value: Value, key': string)
    ensures Create(Prototype(cls), Some(member)).owner == Create(ClassObj(cls), None).owner
    ensures Get(SetCell(cells, Create(Prototype(cls), Some(member)), key, value), Create(ClassObj(cls), None), key')
         == Get(cells, Create(ClassObj(cls), None), key')
    ensures Get(SetCell(cells, Create(ClassObj(cls), None), key, value), Create(Prototype(cls), Some(member)), key')
         == Get(cells, Create(Prototype(cls), Some(member)), key')
  {
    SetCellKeeps(cells, Create(Prototype(cls), Some(member)), key, value, Create(ClassObj(cls), None), key');
    SetCellKeeps(cells, Create(ClassObj(cls), None), key, value, Create(Prototype(cls), Some(member)), key');
  }

  /** The classes named anywhere in the store: what the module walk can reach. */
  ghost function Mentioned(cells: Store): set<Cls> {
    set v, c | v in cells.Values && v.VClasses? && c in v.classes :: c
  }

  /** `define` with a record holding no class list mentions no new class. */
  lemma {:induction false} DefineAllMentions(cells: Store, view: View, entries: seq<Entry>)
    requires forall i :: 0 <= i < |entries| ==> !entries[i].1.VClasses?
    ensures Mentioned(DefineAll(cells, view, entries)) <= Mentioned(cells)
    decreases |entries|
  {
    if entries != [] {
      var next := SetCell(cells, view, entries[0].0, entries[0].1);
      assert Mentioned(next) <= Mentioned(cells) by {
        forall c | c in Mentioned(next) ensures c in Mentioned(cells) {
          var v :| v in next.Values && v.VClasses? && c in v.classes;
          assert v in cells.Values;
        }
      }
      assert forall i :: 0 <= i < |entries[1..]| ==> !entries[1..][i].1.VClasses? by {
        forall i | 0 <= i < |entries[1..]| ensures !entries[1..][i].1.VClasses? {
          assert entries[1..][i] == entries[i + 1];
        }
      }
      DefineAllMentions(next, view, entries[1..]);
    }
  }

  // Reading typed fields back. The record types fix each key's value type, so a value of
  // another variant cannot occur; it reads as absent.

  /** `get(key) ?? []` for a class list. */
  function ClassesOr(v: Option<Value>): seq<Cls> {
    if v.Some? && v.value.VClasses? then v.value.classes else []
  }

  /** `get(key) ?? []` for a list of property keys. */
  function KeysOr(v: Option<Value>): seq<string> {
    if v.Some? && v.value.VKeys? then v.value.keys else []
  }

  /** `get('parameters') ?? {}` */
  function ParamsOr(v: Option<Value>): Parameters {
    if v.Some? && v.value.VParams? then v.value.params else NoParameters
  }

  /** `get(key)` for a string field, `undefined` when absent. */
  function StringOf(v: Option<Value>): Option<string> {
    if v.Some? && v.value.VString? then Some(v.value.s) else None
  }

  /** The process-wide metadata store. */
  class Registry {
    var cells: Store

    constructor()
      ensures cells == map[]
    {
      cells := map[];
    }

    /** `view.set(key, value)` */
    method Set(view: View, key: string, value: Value)
      modifies this
      ensures cells == SetCell(old(cells), view, key, value)
    {
      cells := cells[Cell(view.owner, view.member, key) := value];
    }

    /** `view.define(record)`: `Object.entries(record).forEach(... defineMetadata ...)`. */
    method Define(view: View, entries: seq<Entry>)
      modifies this
      ensures cells == DefineAll(old(cells), view, entries)
    {
      var i := 0;
      while i < |entries|
        invariant 0 <= i <= |entries|
        invariant DefineAll(old(cells), view, entries) == DefineAll(cells, view, entries[i..])
      {
        assert entries[i..][1..] == entries[i + 1..];
        Set(view, entries[i].0, entries[i].1);
        i := i + 1;
      }
    }
  }
}
