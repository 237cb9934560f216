// The object graph a patch works on: the SimpleDTO and NestedDTO classes, the
// values a member can hold, the members ("slots") a path can name, and the
// abstract store that maps every slot to its value.

module Values {
  import opened Errors

  /** Runtime class of a SimpleDTO instance: a plain SimpleDTO or its subclass InheritedDTO. */
  datatype DtoKind = Simple | Inherited

  /** Members of SimpleDTO that the patches address. */
  datatype DtoMember = StringProperty | AnotherStringProperty | IntegerValue | IntegerList | IntegerIList

  /** Members of the root object (SimpleDTOWithNestedDTO). */
  datatype RootMember = RootIntegerValue | RootSimpleDto | RootInheritedDto | RootNestedDto
                      | RootSimpleDtoList | RootSimpleDtoIList

  /** What a member holds, as the patch engine sees it. */
  datatype Value =
    | Null
    | Int(i: int)
    | Str(s: string)
    | Ints(xs: seq<int>)
    | Obj(dto: SimpleDto)
    | NestedObj(nested: NestedDto)
    | Objs(dtos: seq<SimpleDto>)
    | Kind(kind: DtoKind)        // the runtime class; read only, never a member's content

  /** A storage location: a member of the root, of a SimpleDTO or of a NestedDTO, or a DTO's runtime class. */
  datatype Slot =
    | RootSlot(root: RootMember)
    | DtoSlot(dto: SimpleDto, member: DtoMember)
    | NestedSlot(nested: NestedDto)
    | KindSlot(of: SimpleDto)

  /** Declared type of a slot. */
  datatype SlotType = StringType | IntType | IntListType | DtoType(inheritedOnly: bool)
                    | NestedType | DtoListType | KindType

  function MemberType(m: DtoMember): SlotType
  {
    match m
    case StringProperty => StringType
    case AnotherStringProperty => StringType
    case IntegerValue => IntType
    case IntegerList => IntListType
    case IntegerIList => IntListType
  }

  function RootType(rm: RootMember): SlotType
  {
    match rm
    case RootIntegerValue => IntType
    case RootSimpleDto => DtoType(false)
    case RootInheritedDto => DtoType(true)
    case RootNestedDto => NestedType
    case RootSimpleDtoList => DtoListType
    case RootSimpleDtoIList => DtoListType
  }

  function TypeOf(s: Slot): SlotType
  {
    match s
    case RootSlot(rm) => RootType(rm)
    case DtoSlot(_, m) => MemberType(m)
    case NestedSlot(_) => StringType
    case KindSlot(_) => KindType
  }

  /** The value's shape is one the declared type admits (reference types admit null; int does not). */
  predicate Fits(t: SlotType, v: Value)
  {
    match t
    case StringType => v.Null? || v.Str?
    case IntType => v.Int?
    case IntListType => v.Null? || v.Ints?
    case DtoType(_) => v.Null? || v.Obj?
    case NestedType => v.Null? || v.NestedObj?
    case DtoListType => v.Null? || v.Objs?
    case KindType => v.Kind?
  }

  /** The value a removed member takes: 0 for int, null for every reference type. */
  function Default(t: SlotType): (v: Value)
    ensures t != KindType ==> Fits(t, v)
  {
    if t == IntType then Int(0) else Null
  }

  function StringValue(o: Option<string>): Value
  {
    match o
    case None => Null
    case Some(s) => Str(s)
  }

  function IntsValue(o: Option<seq<int>>): Value
  {
    match o
    case None => Null
    case Some(xs) => Ints(xs)
  }

  function AsString(v: Value): (o: Option<string>)
    requires v.Null? || v.Str?
    ensures StringValue(o) == v
  {
    if v.Str? then Some(v.s) else None
  }

  function AsInts(v: Value): (o: Option<seq<int>>)
    requires v.Null? || v.Ints?
    ensures IntsValue(o) == v
  {
    if v.Ints? then Some(v.xs) else None
  }

  class SimpleDto {
    const kind: DtoKind
    var stringProperty: Option<string>
    var anotherStringProperty: Option<string>
    var integerValue: int
    var integerList: Option<seq<int>>
    var integerIList: Option<seq<int>>

    constructor (kind: DtoKind, stringProperty: Option<string>, anotherStringProperty: Option<string>,
                 integerValue: int, integerList: Option<seq<int>>, integerIList: Option<seq<int>>)
      ensures this.kind == kind
      ensures this.stringProperty == stringProperty && this.anotherStringProperty == anotherStringProperty
      ensures this.integerValue == integerValue
      ensures this.integerList == integerList && this.integerIList == integerIList
    {
      this.kind := kind;
      this.stringProperty := stringProperty;
      this.anotherStringProperty := anotherStringProperty;
      this.integerValue := integerValue;
      this.integerList := integerList;
      this.integerIList := integerIList;
    }

    /** The member's current content. */
    function Member(m: DtoMember): (v: Value)
      reads this
      ensures Fits(MemberType(m), v)
    {
      match m
      case StringProperty => StringValue(stringProperty)
      case AnotherStringProperty => StringValue(anotherStringProperty)
      case IntegerValue => Int(integerValue)
      case IntegerList => IntsValue(integerList)
      case IntegerIList => IntsValue(integerIList)
    }

    /** Property setter: only the named member changes. */
    method SetMember(m: DtoMember, v: Value)
      requires Fits(MemberType(m), v)
      modifies this
      ensures Member(m) == v
      ensures forall other :: other != m ==> Member(other) == old(Member(other))
    {
      match m
      case StringProperty => stringProperty := AsString(v);
      case AnotherStringProperty => anotherStringProperty := AsString(v);
      case IntegerValue => integerValue := v.i;
      case IntegerList => integerList := AsInts(v);
      case IntegerIList => integerIList := AsInts(v);
    }
  }

  class NestedDto {
    var stringProperty: Option<string>

    constructor (stringProperty: Option<string>)
      ensures this.stringProperty == stringProperty
    {
      this.stringProperty := stringProperty;
    }

    function Member(): (v: Value)
      reads this
      ensures Fits(StringType, v)
    {
      StringValue(stringProperty)
    }

    method SetMember(v: Value)
      requires Fits(StringType, v)
      modifies this
      ensures Member() == v
    {
      stringProperty := AsString(v);
    }
  }

  /** The abstract state of a document: the value of every slot it can reach. */
  type Store = map<Slot, Value>

  /** A slot the store does not describe reads as null. */
  function Lookup(st: Store, s: Slot): Value
  {
    if s in st then st[s] else Null
  }

  /** Every slot of a SimpleDTO, its runtime class included, is described. */
  predicate DtoIn(st: Store, d: SimpleDto)
  {
    KindSlot(d) in st && forall m :: DtoSlot(d, m) in st
  }

  /** Every object the value references is described by the store. */
  predicate ValueIn(st: Store, v: Value)
  {
    (v.Obj? ==> DtoIn(st, v.dto)) &&
    (v.NestedObj? ==> NestedSlot(v.nested) in st) &&
    (v.Objs? ==> forall k :: 0 <= k < |v.dtos| ==> DtoIn(st, v.dtos[k]))
  }

  /** The members of the root object. */
  const RootSlots: set<Slot> := {RootSlot(RootIntegerValue), RootSlot(RootSimpleDto), RootSlot(RootInheritedDto),
                                 RootSlot(RootNestedDto), RootSlot(RootSimpleDtoList), RootSlot(RootSimpleDtoIList)}

  /** A store holding each of the five members and the runtime class of d describes d. */
  lemma DtoInByMembers(st: Store, d: SimpleDto)
    requires KindSlot(d) in st && DtoSlot(d, StringProperty) in st && DtoSlot(d, AnotherStringProperty) in st
    requires DtoSlot(d, IntegerValue) in st && DtoSlot(d, IntegerList) in st && DtoSlot(d, IntegerIList) in st
    ensures DtoIn(st, d)
  {
    forall m ensures DtoSlot(d, m) in st {
      match m {
        case StringProperty =>
        case AnotherStringProperty =>
        case IntegerValue =>
        case IntegerList =>
        case IntegerIList =>
      }
    }
  }

  lemma DtoInHasMember(st: Store, d: SimpleDto, m: DtoMember)
    requires DtoIn(st, d)
    ensures DtoSlot(d, m) in st
  {
    match m {
      case StringProperty =>
      case AnotherStringProperty =>
      case IntegerValue =>
      case IntegerList =>
      case IntegerIList =>
    }
  }

  /** The store describes the root and everything reachable from any slot it describes. */
  predicate Closed(st: Store)
  {
    (forall rm :: RootSlot(rm) in st) && (forall s :: s in st ==> ValueIn(st, st[s]))
  }

  /** The DTO's runtime class as recorded in the store. */
  function KindIn(st: Store, d: SimpleDto): Value
  {
    Lookup(st, KindSlot(d))
  }

  /** Runtime class of the object a value holds, if it holds a SimpleDTO. */
  function KindFor(st: Store, v: Value): Value
  {
    if v.Obj? then KindIn(st, v.dto) else Null
  }

  /**
   * The declared type admits the value, given the runtime class of the SimpleDTO it
   * holds (if any): the InheritedDTO member only takes InheritedDTO instances.
   */
  predicate Admits(t: SlotType, v: Value, vkind: Value)
  {
    Fits(t, v) && (t == DtoType(true) && v.Obj? ==> vkind == Kind(Inherited))
  }

  predicate FitsIn(st: Store, t: SlotType, v: Value)
  {
    Admits(t, v, KindFor(st, v))
  }

  /** Every slot holds a value of its declared type. */
  predicate WellTyped(st: Store)
  {
    forall s :: s in st ==> FitsIn(st, TypeOf(s), st[s])
  }

  /** Objects a slot's value is stored in (the runtime class is immutable and needs none). */
  function SlotObjects(s: Slot): set<object>
  {
    match s
    case RootSlot(_) => {}
    case DtoSlot(d, _) => {d}
    case NestedSlot(n) => {n}
    case KindSlot(_) => {}
  }

  /** Objects referenced by a value. */
  function ValueObjects(v: Value): set<object>
  {
    match v
    case Obj(d) => {d}
    case NestedObj(n) => {n}
    case Objs(ds) => (set d | d in ds)
    case _ => {}
  }

  /** Objects the store describes (a member or the runtime class of each). */
  function StoreObjects(st: Store): set<object>
  {
    (set s | s in st && s.DtoSlot? :: s.dto as object) +
    (set s | s in st && s.NestedSlot? :: s.nested as object) +
    (set s | s in st && s.KindSlot? :: s.of as object)
  }

  lemma SlotObjectsInStore(st: Store, s: Slot)
    requires s in st
    ensures SlotObjects(s) <= StoreObjects(st)
  {
  }

  /** Members of the root are not stored in any object the store describes. */
  lemma RootKeysHaveNoObjects(st: Store)
    requires st.Keys <= RootSlots
    ensures StoreObjects(st) == {}
  {
  }

  lemma StoreObjectsOfKeys(st: Store, st': Store)
    requires st.Keys == st'.Keys
    ensures StoreObjects(st) == StoreObjects(st')
  {
  }

  lemma StoreObjectsOfUnion(a: Store, b: Store)
    ensures StoreObjects(a + b) == StoreObjects(a) + StoreObjects(b)
  {
  }

  lemma ValueInGrows(st: Store, st': Store, v: Value)
    requires st.Keys <= st'.Keys && ValueIn(st, v)
    ensures ValueIn(st', v)
  {
  }

  /** Every object each of the values references is described by the store. */
  predicate ValuesIn(st: Store, vs: seq<Value>)
  {
    forall k :: 0 <= k < |vs| ==> ValueIn(st, vs[k])
  }

  lemma ValuesInGrows(st: Store, st': Store, vs: seq<Value>)
    requires st.Keys <= st'.Keys && ValuesIn(st, vs)
    ensures ValuesIn(st', vs)
  {
    forall k | 0 <= k < |vs| ensures ValueIn(st', vs[k]) {
      ValueInGrows(st, st', vs[k]);
    }
  }
}
