// The patched document itself: the root object (SimpleDTOWithNestedDTO) with real,
// mutable fields, and the patch engine's operations as methods that change those
// fields in place.  Each method is proved against the store semantics: the ghost
// field `store` is kept equal to what the heap holds, and every method's effect on
// it is the corresponding function of the Operations module.

module Documents {
  import opened Errors
  import opened Pointer
  import opened ListAdapter
  import opened Values
  import opened Resolver
  import opened Operations
  import opened OperationLaws

  function DtoValue(d: SimpleDto?): Value
  {
    if d == null then Null else Obj(d)
  }

  function NestedValue(n: NestedDto?): Value
  {
    if n == null then Null else NestedObj(n)
  }

  function ListValue(o: Option<seq<SimpleDto>>): Value
  {
    match o
    case None => Null
    case Some(ds) => Objs(ds)
  }

  /** The runtime class of the SimpleDTO a value holds (a class never changes). */
  function RuntimeKind(v: Value): Value
  {
    if v.Obj? then Kind(v.dto.kind) else Null
  }

  // ---- records of objects as they are on the heap ----

  /** Every slot of a SimpleDTO with its current content. */
  ghost function DtoHeapRecords(d: SimpleDto): Store
    reads d
  {
    map[DtoSlot(d, StringProperty) := d.Member(StringProperty),
        DtoSlot(d, AnotherStringProperty) := d.Member(AnotherStringProperty),
        DtoSlot(d, IntegerValue) := d.Member(IntegerValue),
        DtoSlot(d, IntegerList) := d.Member(IntegerList),
        DtoSlot(d, IntegerIList) := d.Member(IntegerIList),
        KindSlot(d) := Kind(d.kind)]
  }

  ghost function ListHeapRecords(ds: seq<SimpleDto>): Store
    reads ValueObjects(Objs(ds))
    decreases |ds|
  {
    if |ds| == 0 then map[]
    else
      assert forall k :: 0 <= k < |ds| - 1 ==> ds[..|ds| - 1][k] == ds[k];
      ListHeapRecords(ds[..|ds| - 1]) + DtoHeapRecords(ds[|ds| - 1])
  }

  /** The slots of every object a value references, with their current content. */
  ghost function ObjectRecords(v: Value): Store
    reads ValueObjects(v)
  {
    match v
    case Obj(d) => DtoHeapRecords(d)
    case NestedObj(n) => map[NestedSlot(n) := n.Member()]
    case Objs(ds) => ListHeapRecords(ds)
    case _ => map[]
  }

  /** Objects referenced by a sequence of values. */
  function ValuesObjects(vs: seq<Value>): set<object>
    decreases |vs|
  {
    if |vs| == 0 then {} else ValuesObjects(vs[..|vs| - 1]) + ValueObjects(vs[|vs| - 1])
  }

  /** Values reference SimpleDTO and NestedDTO instances only (so never the root document). */
  lemma {:induction false} ValuesObjectsAreDtos(vs: seq<Value>)
    ensures forall o :: o in ValuesObjects(vs) ==> o is SimpleDto || o is NestedDto
    decreases |vs|
  {
    if |vs| > 0 {
      ValuesObjectsAreDtos(vs[..|vs| - 1]);
    }
  }

  /** A store describes SimpleDTO and NestedDTO instances only (so never the root document). */
  lemma StoreObjectsAreDtos(st: Store)
    ensures forall o :: o in StoreObjects(st) ==> o is SimpleDto || o is NestedDto
  {
  }

  /** The slots of every object the values reference, with their current content. */
  ghost function ValuesRecords(vs: seq<Value>): Store
    reads ValuesObjects(vs)
    decreases |vs|
  {
    if |vs| == 0 then map[] else ValuesRecords(vs[..|vs| - 1]) + ObjectRecords(vs[|vs| - 1])
  }

  /** The values a patch's operations carry, in order. */
  function OpValues(ops: seq<Operation>): (vs: seq<Value>)
    ensures |vs| == |ops| && forall k :: 0 <= k < |ops| ==> vs[k] == OpValue(ops[k])
  {
    seq(|ops|, k requires 0 <= k < |ops| => OpValue(ops[k]))
  }

  lemma DtoHeapRecordsInert(d: SimpleDto)
    ensures Inert(DtoHeapRecords(d)) && DtoIn(DtoHeapRecords(d), d)
  {
    DtoInByMembers(DtoHeapRecords(d), d);
  }

  lemma {:induction false} ListHeapRecordsInert(ds: seq<SimpleDto>)
    ensures Inert(ListHeapRecords(ds))
    decreases |ds|
  {
    if |ds| > 0 {
      var n := |ds| - 1;
      ListHeapRecordsInert(ds[..n]);
      DtoHeapRecordsInert(ds[n]);
      InertUnion(ListHeapRecords(ds[..n]), DtoHeapRecords(ds[n]));
    }
  }

  lemma {:induction false} ListHeapRecordsDescribe(ds: seq<SimpleDto>)
    ensures forall k :: 0 <= k < |ds| ==> DtoIn(ListHeapRecords(ds), ds[k])
    decreases |ds|
  {
    if |ds| > 0 {
      var n := |ds| - 1;
      var pre, last := ListHeapRecords(ds[..n]), DtoHeapRecords(ds[n]);
      ListHeapRecordsDescribe(ds[..n]);
      DtoHeapRecordsInert(ds[n]);
      forall k | 0 <= k < |ds| ensures DtoIn(pre + last, ds[k]) {
        if k < n {
          assert ds[k] == ds[..n][k];
        }
        DtoInUnion(pre, last, ds[k]);
      }
    }
  }

  /** The records of a value's objects reference no object and describe the value. */
  lemma ObjectRecordsInert(v: Value)
    ensures Inert(ObjectRecords(v)) && ValueIn(ObjectRecords(v), v)
  {
    match v {
      case Obj(d) => DtoHeapRecordsInert(d);
      case Objs(ds) => ListHeapRecordsInert(ds); ListHeapRecordsDescribe(ds);
      case _ =>
    }
  }

  lemma {:induction false} ValuesRecordsInert(vs: seq<Value>)
    ensures Inert(ValuesRecords(vs))
    ensures forall k :: 0 <= k < |vs| ==> ValueIn(ValuesRecords(vs), vs[k])
    decreases |vs|
  {
    if |vs| > 0 {
      var n := |vs| - 1;
      var pre, last := ValuesRecords(vs[..n]), ObjectRecords(vs[n]);
      ValuesRecordsInert(vs[..n]);
      ObjectRecordsInert(vs[n]);
      InertUnion(pre, last);
      forall k | 0 <= k < |vs| ensures ValueIn(pre + last, vs[k]) {
        if k < n {
          assert vs[k] == vs[..n][k];
          ValueInGrows(pre, pre + last, vs[k]);
        } else {
          ValueInGrows(last, pre + last, vs[k]);
        }
      }
    }
  }

  /** The heap records of a value describe the value's own objects and no other. */
  lemma {:induction false} ListHeapRecordsObjects(ds: seq<SimpleDto>)
    ensures StoreObjects(ListHeapRecords(ds)) <= ValueObjects(Objs(ds))
    decreases |ds|
  {
    if |ds| > 0 {
      var n := |ds| - 1;
      var pre, last := ListHeapRecords(ds[..n]), DtoHeapRecords(ds[n]);
      calc {
        StoreObjects(ListHeapRecords(ds));
        == { assert ListHeapRecords(ds) == pre + last; }
        StoreObjects(pre + last);
        <= { ListHeapRecordsObjects(ds[..n]); DtoHeapRecordsObjects(ds[n]); ListObjectsStep(pre, last, ds); }
        ValueObjects(Objs(ds));
      }
    }
  }

  lemma ListObjectsStep(pre: Store, last: Store, ds: seq<SimpleDto>)
    requires |ds| > 0
    requires StoreObjects(pre) <= ValueObjects(Objs(ds[..|ds| - 1])) && StoreObjects(last) <= {ds[|ds| - 1]}
    ensures StoreObjects(pre + last) <= ValueObjects(Objs(ds))
  {
    var n := |ds| - 1;
    StoreObjectsOfUnion(pre, last);
    forall o | o in ValueObjects(Objs(ds[..n])) ensures o in ValueObjects(Objs(ds)) {
      var k :| 0 <= k < n && ds[..n][k] == o;
      assert ds[k] == o;
    }
    assert ds[n] in ValueObjects(Objs(ds));
  }

  lemma DtoHeapRecordsObjects(d: SimpleDto)
    ensures StoreObjects(DtoHeapRecords(d)) <= {d}
  {
    forall s | s in DtoHeapRecords(d) ensures SlotObjects(s) <= {d} && !s.RootSlot? {
    }
  }

  lemma ObjectRecordsObjects(v: Value)
    ensures StoreObjects(ObjectRecords(v)) <= ValueObjects(v)
  {
    match v {
      case Objs(ds) => ListHeapRecordsObjects(ds);
      case Obj(d) => DtoHeapRecordsObjects(d);
      case _ =>
    }
  }

  lemma {:induction false} ValuesRecordsObjects(vs: seq<Value>)
    ensures StoreObjects(ValuesRecords(vs)) <= ValuesObjects(vs)
    decreases |vs|
  {
    if |vs| > 0 {
      var n := |vs| - 1;
      ValuesRecordsObjects(vs[..n]);
      ObjectRecordsObjects(vs[n]);
      StoreObjectsOfUnion(ValuesRecords(vs[..n]), ObjectRecords(vs[n]));
    }
  }

  /** Inert records under a full set of well-typed root members make a well-typed closed store. */
  lemma RootedStore(recs: Store, roots: Store)
    requires Inert(recs) && roots.Keys == RootSlots
    requires forall rm :: FitsIn(recs, RootType(rm), Lookup(roots, RootSlot(rm))) && ValueIn(recs, Lookup(roots, RootSlot(rm)))
    ensures WellTyped(recs + roots) && Closed(recs + roots)
  {
    var st := recs + roots;
    forall s | s in st ensures FitsIn(st, TypeOf(s), st[s]) && ValueIn(st, st[s]) {
      if s in roots {
        assert Lookup(roots, RootSlot(s.root)) == st[s];
        assert KindFor(st, roots[s]) == KindFor(recs, roots[s]);
        ValueInGrows(recs, st, roots[s]);
      } else {
        assert NoObject(recs[s]);
      }
    }
  }

  /** A copy of a SimpleDTO: same runtime class, same member values. */
  ghost predicate Mirrors(c: SimpleDto, d: SimpleDto)
    reads c, d
  {
    c.kind == d.kind && forall m :: c.Member(m) == d.Member(m)
  }

  /** c is a deep clone of v: same shape, and each cloned object mirrors its original. */
  ghost predicate ClonedFrom(c: Value, v: Value)
    reads ValueObjects(c), ValueObjects(v)
  {
    IsCloneOf(c, v) &&
    match v
    case Obj(d) => Mirrors(c.dto, d)
    case NestedObj(n) => c.nested.Member() == n.Member()
    case Objs(ds) => forall k :: 0 <= k < |ds| ==> Mirrors(c.dtos[k], ds[k])
    case _ => true
  }

  /** A new SimpleDTO (or InheritedDTO) instance with the member values of d. */
  method CloneDto(d: SimpleDto) returns (c: SimpleDto)
    ensures fresh(c) && Mirrors(c, d)
  {
    c := new SimpleDto(d.kind, d.stringProperty, d.anotherStringProperty, d.integerValue,
                       d.integerList, d.integerIList);
  }

  /** Deep clone of a value: every object it references is replaced by a new copy. */
  method CloneValue(v: Value) returns (c: Value)
    ensures fresh(ValueObjects(c)) && ClonedFrom(c, v)
  {
    match v {
      case Obj(d) =>
        var x := CloneDto(d);
        c := Obj(x);
      case NestedObj(n) =>
        var x := new NestedDto(n.stringProperty);
        c := NestedObj(x);
      case Objs(ds) =>
        var cs: seq<SimpleDto> := [];
        var i := 0;
        while i < |ds|
          invariant 0 <= i <= |ds| && |cs| == i
          invariant forall k :: 0 <= k < i ==> fresh(cs[k]) && Mirrors(cs[k], ds[k])
        {
          var x := CloneDto(ds[i]);
          cs := cs + [x];
          i := i + 1;
        }
        c := Objs(cs);
      case _ =>
        c := v;
    }
  }

  /** The source's model class SimpleDTOWithNestedDTO: the root object a patch is applied to. */
  class Root {
    var integerValue: int
    var simpleDto: SimpleDto?
    var inheritedDto: SimpleDto?
    var nestedDto: NestedDto?
    var simpleDtoList: Option<seq<SimpleDto>>
    var simpleDtoIList: Option<seq<SimpleDto>>

    /** An object initializer with every member given. */
    constructor (integerValue: int, simpleDto: SimpleDto?, inheritedDto: SimpleDto?, nestedDto: NestedDto?,
                 simpleDtoList: Option<seq<SimpleDto>>, simpleDtoIList: Option<seq<SimpleDto>>)
      ensures this.integerValue == integerValue && this.simpleDto == simpleDto
      ensures this.inheritedDto == inheritedDto && this.nestedDto == nestedDto
      ensures this.simpleDtoList == simpleDtoList && this.simpleDtoIList == simpleDtoIList
    {
      this.integerValue := integerValue;
      this.simpleDto := simpleDto;
      this.inheritedDto := inheritedDto;
      this.nestedDto := nestedDto;
      this.simpleDtoList := simpleDtoList;
      this.simpleDtoIList := simpleDtoIList;
    }

    function RootValue(rm: RootMember): (v: Value)
      reads this
      ensures Fits(RootType(rm), v)
    {
      match rm
      case RootIntegerValue => Int(integerValue)
      case RootSimpleDto => DtoValue(simpleDto)
      case RootInheritedDto => DtoValue(inheritedDto)
      case RootNestedDto => NestedValue(nestedDto)
      case RootSimpleDtoList => ListValue(simpleDtoList)
      case RootSimpleDtoIList => ListValue(simpleDtoIList)
    }

    /** Property setter on the root: only the named member changes. */
    method SetRootValue(rm: RootMember, v: Value)
      requires Fits(RootType(rm), v)
      modifies this
      ensures RootValue(rm) == v
      ensures forall other :: other != rm ==> RootValue(other) == old(RootValue(other))
    {
      match rm
      case RootIntegerValue => integerValue := v.i;
      case RootSimpleDto => simpleDto := if v.Obj? then v.dto else null;
      case RootInheritedDto => inheritedDto := if v.Obj? then v.dto else null;
      case RootNestedDto => nestedDto := if v.NestedObj? then v.nested else null;
      case RootSimpleDtoList => simpleDtoList := if v.Objs? then Some(v.dtos) else None;
      case RootSimpleDtoIList => simpleDtoIList := if v.Objs? then Some(v.dtos) else None;
    }

    /** The root members that reference objects. */
    function ObjectMembers(): seq<Value>
      reads this
    {
      [RootValue(RootSimpleDto), RootValue(RootInheritedDto), RootValue(RootNestedDto),
       RootValue(RootSimpleDtoList), RootValue(RootSimpleDtoIList)]
    }

    function RootRecords(): Store
      reads this
    {
      map s | s in RootSlots :: RootValue(s.root)
    }
  }

  // ---- the heap as the store sees it ----

  /** What the heap holds in a slot. */
  function HeapValue(root: Root, s: Slot): Value
    reads root, SlotObjects(s)
  {
    match s
    case RootSlot(rm) => root.RootValue(rm)
    case DtoSlot(d, m) => d.Member(m)
    case NestedSlot(n) => n.Member()
    case KindSlot(d) => Kind(d.kind)
  }

  /** The records agree with the heap. */
  ghost predicate Held(root: Root, recs: Store)
    reads root, StoreObjects(recs)
  {
    forall s :: s in recs ==> SlotObjects(s) <= StoreObjects(recs) && HeapValue(root, s) == recs[s]
  }

  lemma HeldUnion(root: Root, a: Store, b: Store)
    requires Held(root, a) && Held(root, b)
    ensures Held(root, a + b)
  {
    forall s | s in a + b ensures SlotObjects(s) <= StoreObjects(a + b) {
      SlotObjectsInStore(a + b, s);
    }
  }

  lemma DtoHeapRecordsHeld(root: Root, d: SimpleDto)
    ensures Held(root, DtoHeapRecords(d))
  {
    forall s | s in DtoHeapRecords(d) ensures SlotObjects(s) <= StoreObjects(DtoHeapRecords(d)) {
      SlotObjectsInStore(DtoHeapRecords(d), s);
    }
  }

  lemma {:induction false} ListHeapRecordsHeld(root: Root, ds: seq<SimpleDto>)
    ensures Held(root, ListHeapRecords(ds))
    decreases |ds|
  {
    if |ds| > 0 {
      var n := |ds| - 1;
      ListHeapRecordsHeld(root, ds[..n]);
      DtoHeapRecordsHeld(root, ds[n]);
      HeldUnion(root, ListHeapRecords(ds[..n]), DtoHeapRecords(ds[n]));
    }
  }

  lemma ObjectRecordsHeld(root: Root, v: Value)
    ensures Held(root, ObjectRecords(v))
  {
    match v {
      case Obj(d) => DtoHeapRecordsHeld(root, d);
      case NestedObj(n) => SlotObjectsInStore(ObjectRecords(v), NestedSlot(n));
      case Objs(ds) => ListHeapRecordsHeld(root, ds);
      case _ =>
    }
  }

  lemma {:induction false} ValuesRecordsHeld(root: Root, vs: seq<Value>)
    ensures Held(root, ValuesRecords(vs))
    decreases |vs|
  {
    if |vs| > 0 {
      var n := |vs| - 1;
      ValuesRecordsHeld(root, vs[..n]);
      ObjectRecordsHeld(root, vs[n]);
      HeldUnion(root, ValuesRecords(vs[..n]), ObjectRecords(vs[n]));
    }
  }

  /** The records of a clone, taken from the original's records, are the clone's own heap records. */
  lemma DtoCloneRecords(root: Root, st: Store, c: SimpleDto, d: SimpleDto)
    requires Held(root, st) && DtoIn(st, d) && Mirrors(c, d)
    ensures DtoRecords(st, c, d) == DtoHeapRecords(c)
  {
    forall m ensures Lookup(st, DtoSlot(d, m)) == c.Member(m) {
      DtoInHasMember(st, d, m);
      assert HeapValue(root, DtoSlot(d, m)) == st[DtoSlot(d, m)];
    }
    assert HeapValue(root, KindSlot(d)) == st[KindSlot(d)];
  }

  lemma {:induction false} ListCloneRecords(root: Root, st: Store, cs: seq<SimpleDto>, ds: seq<SimpleDto>)
    requires Held(root, st) && |cs| == |ds|
    requires forall k :: 0 <= k < |ds| ==> DtoIn(st, ds[k]) && Mirrors(cs[k], ds[k])
    ensures ListRecords(st, cs, ds) == ListHeapRecords(cs)
    decreases |cs|
  {
    if |cs| > 0 {
      var n := |cs| - 1;
      assert forall k :: 0 <= k < n ==> cs[..n][k] == cs[k] && ds[..n][k] == ds[k];
      ListCloneRecords(root, st, cs[..n], ds[..n]);
      DtoCloneRecords(root, st, cs[n], ds[n]);
    }
  }

  lemma CloneRecordsAreHeap(root: Root, st: Store, c: Value, v: Value)
    requires Held(root, st) && ValueIn(st, v) && ClonedFrom(c, v)
    ensures CloneRecords(st, c, v) == ObjectRecords(c)
  {
    match v {
      case Obj(d) => DtoCloneRecords(root, st, c.dto, d);
      case NestedObj(n) => assert HeapValue(root, NestedSlot(n)) == st[NestedSlot(n)];
      case Objs(ds) => ListCloneRecords(root, st, c.dtos, ds);
      case _ =>
    }
  }

  /** The runtime class read off an object is the one the records hold. */
  lemma RuntimeKindIsRecorded(root: Root, recs: Store, v: Value)
    requires Held(root, recs) && ValueIn(recs, v)
    ensures RuntimeKind(v) == KindFor(recs, v)
  {
    if v.Obj? {
      assert HeapValue(root, KindSlot(v.dto)) == recs[KindSlot(v.dto)];
    }
  }

  /** The root members, and the records of every object they reference. */
  ghost function InitialStore(root: Root): Store
    reads root, ValuesObjects(root.ObjectMembers())
  {
    ValuesRecords(root.ObjectMembers()) + root.RootRecords()
  }

  /** The initial store describes only objects the root members reference. */
  lemma InitialStoreObjects(root: Root)
    ensures StoreObjects(InitialStore(root)) <= ValuesObjects(root.ObjectMembers())
  {
    ValuesRecordsObjects(root.ObjectMembers());
    RootKeysHaveNoObjects(root.RootRecords());
    StoreObjectsOfUnion(ValuesRecords(root.ObjectMembers()), root.RootRecords());
  }

  lemma RootRecordsHeld(root: Root)
    ensures root.RootRecords().Keys == RootSlots && Held(root, root.RootRecords())
  {
    var roots := root.RootRecords();
    assert roots.Keys == RootSlots;
    RootKeysHaveNoObjects(roots);
    forall s | s in roots ensures SlotObjects(s) <= StoreObjects(roots) && HeapValue(root, s) == roots[s] {
      assert s.RootSlot?;
    }
  }

  lemma InitialStoreValid(root: Root, st: Store)
    requires root.inheritedDto != null ==> root.inheritedDto.kind == Inherited
    requires st == InitialStore(root)
    ensures WellTyped(st) && Closed(st) && Held(root, st)
  {
    var vs := root.ObjectMembers();
    var recs, roots := ValuesRecords(vs), root.RootRecords();
    ValuesRecordsInert(vs);
    ValuesRecordsHeld(root, vs);
    RootRecordsHeld(root);
    HeldUnion(root, recs, roots);
    RuntimeKindIsRecorded(root, recs, vs[1]);
    RootMembersFit(root, recs);
    RootedStore(recs, roots);
  }

  /** Each root member holds a value of its declared type, described by records of its objects. */
  lemma RootMembersFit(root: Root, recs: Store)
    requires root.inheritedDto != null ==> root.inheritedDto.kind == Inherited
    requires forall k :: 0 <= k < 5 ==> ValueIn(recs, root.ObjectMembers()[k])
    requires RuntimeKind(root.ObjectMembers()[1]) == KindFor(recs, root.ObjectMembers()[1])
    ensures forall rm ::
      FitsIn(recs, RootType(rm), Lookup(root.RootRecords(), RootSlot(rm))) && ValueIn(recs, Lookup(root.RootRecords(), RootSlot(rm)))
  {
    var vs, roots := root.ObjectMembers(), root.RootRecords();
    forall rm ensures FitsIn(recs, RootType(rm), Lookup(roots, RootSlot(rm))) && ValueIn(recs, Lookup(roots, RootSlot(rm))) {
      match rm {
        case RootIntegerValue =>
        case RootSimpleDto => assert vs[0] == Lookup(roots, RootSlot(rm));
        case RootInheritedDto => assert vs[1] == Lookup(roots, RootSlot(rm));
        case RootNestedDto => assert vs[2] == Lookup(roots, RootSlot(rm));
        case RootSimpleDtoList => assert vs[3] == Lookup(roots, RootSlot(rm));
        case RootSimpleDtoIList => assert vs[4] == Lookup(roots, RootSlot(rm));
      }
    }
  }

  /** A store grown by the records of a fresh clone keeps the invariants and describes the clone. */
  lemma CloneAdoptable(root: Root, st: Store, c: Value, v: Value)
    requires WellTyped(st) && Closed(st) && Held(root, st)
    requires ValueIn(st, v) && IsCloneOf(c, v) && CloneRecords(st, c, v) == ObjectRecords(c)
    requires FreshFor(st, c)
    ensures WellTyped(CloneRecords(st, c, v) + st) && Closed(CloneRecords(st, c, v) + st)
    ensures Held(root, CloneRecords(st, c, v) + st)
    ensures ValueIn(CloneRecords(st, c, v) + st, c)
  {
    var recs := CloneRecords(st, c, v);
    CloneExtensionKeepsInvariants(st, c, v);
    ObjectRecordsHeld(root, c);
    HeldUnion(root, recs, st);
  }

  /**
   * A deep clone c of v, and the store st1 that also describes c's new objects: the
   * invariants carry over to st1, which the heap holds.
   */
  method CloneAdopted(root: Root, ghost st: Store, v: Value) returns (c: Value, ghost st1: Store)
    requires WellTyped(st) && Closed(st) && Held(root, st) && ValueIn(st, v)
    ensures st1 == CloneRecords(st, c, v) + st && fresh(ValueObjects(c))
    ensures WellTyped(st1) && Closed(st1) && Held(root, st1) && ValueIn(st1, c)
    ensures IsCloneOf(c, v) && FreshFor(st, c)
  {
    ghost var objs := StoreObjects(st);
    c := CloneValue(v);
    assert ValueObjects(c) !! objs;
    CloneRecordsAreHeap(root, st, c, v);
    st1 := CloneRecords(st, c, v) + st;
    CloneAdoptable(root, st, c, v);
  }

  /**
   * A store grown by the heap records of the objects a patch's values reference keeps the
   * invariants, is held, describes those values, and describes no object besides them.
   */
  lemma ValuesAdoptable(root: Root, st: Store, vs: seq<Value>)
    requires WellTyped(st) && Closed(st) && Held(root, st)
    ensures WellTyped(ValuesRecords(vs) + st) && Closed(ValuesRecords(vs) + st)
    ensures Held(root, ValuesRecords(vs) + st) && st.Keys <= (ValuesRecords(vs) + st).Keys
    ensures ValuesIn(ValuesRecords(vs) + st, vs)
    ensures StoreObjects(ValuesRecords(vs) + st) <= StoreObjects(st) + ValuesObjects(vs)
  {
    var recs := ValuesRecords(vs);
    ValuesRecordsInert(vs);
    ExtensionKeepsInvariants(st, recs);
    ValuesRecordsHeld(root, vs);
    HeldUnion(root, recs, st);
    forall k | 0 <= k < |vs| ensures ValueIn(recs + st, vs[k]) {
      ValueInGrows(recs, recs + st, vs[k]);
    }
    ValuesRecordsObjects(vs);
    StoreObjectsOfUnion(recs, st);
  }

  // ---- writing one slot ----

  /** After the heap write of slot s (and of nothing else), the records with s updated are held. */
  twostate lemma WriteHeld(new root: Root, st: Store, new s: Slot, new v: Value)
    requires old(allocated(root)) && old(Held(root, st))
    requires s in st && !s.KindSlot? && HeapValue(root, s) == v
    requires forall rm :: RootSlot(rm) != s ==> root.RootValue(rm) == old(root.RootValue(rm))
    requires s.DtoSlot? ==> forall m :: m != s.member ==> s.dto.Member(m) == old(s.dto.Member(m))
    requires unchanged(StoreObjects(st) - SlotObjects(s))
    ensures Held(root, st[s := v])
  {
    var st' := st[s := v];
    forall t | t in st' ensures SlotObjects(t) <= StoreObjects(st') && HeapValue(root, t) == st'[t] {
      SlotObjectsInStore(st, t);
      StoreObjectsOfKeys(st, st');
      if t != s {
        assert old(HeapValue(root, t)) == st[t];
        match t {
          case RootSlot(rm) =>
          case DtoSlot(d, m) =>
            if s.DtoSlot? && s.dto == d {
              assert m != s.member;
            } else {
              assert d in StoreObjects(st) - SlotObjects(s);
            }
          case NestedSlot(n) =>
            assert n in StoreObjects(st) - SlotObjects(s);
          case KindSlot(d) =>
        }
      }
    }
  }

  /** The heap write behind a slot write: the setter of the member the slot names. */
  method WriteHeap(root: Root, ghost st: Store, s: Slot, v: Value)
    requires Held(root, st) && s in st && !s.KindSlot? && Fits(TypeOf(s), v)
    modifies root, SlotObjects(s)
    ensures Held(root, st[s := v])
  {
    StoreObjectsAreDtos(st);
    label before:
    if s.RootSlot? {
      root.SetRootValue(s.root, v);
    } else if s.DtoSlot? {
      s.dto.SetMember(s.member, v);
    } else {
      s.nested.SetMember(v);
    }
    WriteHeld@before(root, st, s, v);
  }

  /**
   * The root object under patching, with the engine's view of it: the ghost field
   * `store` is kept equal to what the heap holds.
   */
  class Document {
    const root: Root

    /** The abstract state: the content of every slot reachable from the root. */
    ghost var store: Store

    /** The objects the store describes, tracked alongside it. */
    ghost var objs: set<object>

    ghost function Repr(): set<object>
      reads this
    {
      {this, root} + objs
    }

    /** The store describes the document, is well typed, and agrees with the heap. */
    ghost predicate Valid()
      reads this, Repr()
    {
      objs == StoreObjects(store) && WellTyped(store) && Closed(store) && Held(root, store)
    }

    /** Start patching a root object (its InheritedDTO member holds an InheritedDTO, as the type demands). */
    constructor (root: Root)
      requires root.inheritedDto != null ==> root.inheritedDto.kind == Inherited
      ensures this.root == root && store == old(InitialStore(root)) && Valid()
      ensures Repr() <= {this, root} + ValuesObjects(root.ObjectMembers())
    {
      ghost var st := InitialStore(root);
      InitialStoreValid(root, st);
      InitialStoreObjects(root);
      ValuesObjectsAreDtos(root.ObjectMembers());
      StoreObjectsAreDtos(st);
      this.root := root;
      store := st;
      objs := StoreObjects(st);
    }

    /** Store a well-typed value into a slot of the document. */
    method WriteSlot(s: Slot, v: Value)
      requires Valid() && s in store && !s.KindSlot?
      requires FitsIn(store, TypeOf(s), v) && ValueIn(store, v)
      modifies this, root, SlotObjects(s)
      ensures store == old(store)[s := v]
      ensures Valid()
    {
      ghost var st := store;
      WriteKeepsInvariants(st, s, v);
      StoreObjectsOfKeys(st, st[s := v]);
      StoreObjectsAreDtos(st);
      WriteHeap(root, st, s, v);
      store := st[s := v];
    }

    // ---- reading ----

    /** The value at a slot the store describes, read from the heap. */
    function Current(s: Slot): (v: Value)
      requires Valid() && s in store
      reads this, Repr()
      ensures v == store[s]
    {
      SlotObjectsInStore(store, s);
      HeapValue(root, s)
    }

    /** One intermediate path segment, on the heap. */
    function StepOnHeap(c: Container, seg: string): (r: Result<Container>)
      requires Valid() && ContainerIn(store, c)
      reads this, Repr()
      ensures r == Step(store, c, seg)
    {
      match c
      case Members(o) =>
        (match MemberSlot(o, seg)
         case None => Err(MemberNotFound(seg))
         case Some(s) =>
           MemberSlotIn(store, c, seg);
           Enter(s, Current(s), seg))
      case Elements(ls) => EnterElement(Current(ls), seg)
    }

    /** Path resolution: walk every segment but the last, then let the last select the target. */
    method Resolve(path: Path) returns (r: Result<Location>)
      requires Valid()
      ensures Valid() && r == Locate(store, path)
    {
      if |path| == 0 {
        return Err(EmptyPath);
      }
      var c := Members(Root);
      var i := 0;
      while i < |path| - 1
        invariant 0 <= i <= |path| - 1
        invariant Valid()
        invariant Walk(store, path[..i]) == Ok(c)
        invariant ContainerIn(store, c)
      {
        var next := StepOnHeap(c, path[i]);
        WalkExtends(store, path, i, c);
        if next.Err? {
          EarlyFailureLocates(store, path, i + 1);
          return Err(next.error);
        }
        StepStaysIn(store, c, path[i]);
        c := next.value;
        i := i + 1;
      }
      WalkLocates(store, path, c);
      r := Final(c, Last(path));
    }

    /** The value a path designates. */
    method GetValue(path: Path) returns (r: Result<Value>)
      requires Valid()
      ensures Valid() && r == ValueAt(store, path)
    {
      var loc := Resolve(path);
      if loc.Err? {
        return Err(loc.error);
      }
      LocateIn(store, path);
      var cur := Current(loc.value.slot);
      r := ReadAt(loc.value, cur);
    }

    /** The runtime class of the object a value holds, read from the object itself. */
    function KindOf(v: Value): (k: Value)
      requires Valid() && ValueIn(store, v)
      reads this, Repr()
      ensures k == KindFor(store, v)
    {
      RuntimeKindIsRecorded(root, store, v);
      RuntimeKind(v)
    }

    // ---- the single-step operations ----

    /** The add operation: set a member, or insert into a list. */
    method Add(path: Path, v: Value) returns (e: Option<PatchError>)
      requires Valid() && ValueIn(store, v)
      modifies Repr()
      ensures Valid() && store.Keys == old(store).Keys && Repr() == old(Repr())
      ensures Outcome(store, e) == AsOutcome(old(store), Added(old(store), path, v))
    {
      ghost var st := store;
      var loc := Resolve(path);
      if loc.Err? {
        UnlocatedFails(st, path, v);
        return Some(loc.error);
      }
      LocateIn(st, path);
      var cur := Current(loc.value.slot);
      var k := KindOf(v);
      var nv := AddValue(loc.value, cur, v, k);
      AddedAt(st, path, v, loc.value, nv);
      if nv.Err? {
        return Some(nv.error);
      }
      AddValueFits(st, path, v);
      SlotObjectsInStore(st, loc.value.slot);
      WriteSlot(loc.value.slot, nv.value);
      StoreObjectsOfKeys(st, store);
      e := None;
    }

    /** The replace operation: set a member, or overwrite an existing list element. */
    method Replace(path: Path, v: Value) returns (e: Option<PatchError>)
      requires Valid() && ValueIn(store, v)
      modifies Repr()
      ensures Valid() && store.Keys == old(store).Keys && Repr() == old(Repr())
      ensures Outcome(store, e) == AsOutcome(old(store), Replaced(old(store), path, v))
    {
      ghost var st := store;
      var loc := Resolve(path);
      if loc.Err? {
        UnlocatedFails(st, path, v);
        return Some(loc.error);
      }
      LocateIn(st, path);
      var cur := Current(loc.value.slot);
      var k := KindOf(v);
      var nv := ReplaceValue(loc.value, cur, v, k);
      ReplacedAt(st, path, v, loc.value, nv);
      if nv.Err? {
        return Some(nv.error);
      }
      ReplaceValueFits(st, path, v);
      SlotObjectsInStore(st, loc.value.slot);
      WriteSlot(loc.value.slot, nv.value);
      StoreObjectsOfKeys(st, store);
      e := None;
    }

    /** The remove operation: reset a member to its default, or delete a list element. */
    method Remove(path: Path) returns (e: Option<PatchError>)
      requires Valid()
      modifies Repr()
      ensures Valid() && store.Keys == old(store).Keys && Repr() == old(Repr())
      ensures Outcome(store, e) == AsOutcome(old(store), Removed(old(store), path))
    {
      ghost var st := store;
      var loc := Resolve(path);
      if loc.Err? {
        UnlocatedFails(st, path, Null);
        return Some(loc.error);
      }
      LocateIn(st, path);
      var cur := Current(loc.value.slot);
      var nv := RemoveValue(loc.value, cur);
      RemovedAt(st, path, loc.value, nv);
      if nv.Err? {
        return Some(nv.error);
      }
      RemoveValueFits(st, path);
      SlotObjectsInStore(st, loc.value.slot);
      WriteSlot(loc.value.slot, nv.value);
      StoreObjectsOfKeys(st, store);
      e := None;
    }

    /** The move operation: read the value, remove it, add it at the target path. */
    method Move(from: Path, path: Path) returns (e: Option<PatchError>)
      requires Valid()
      modifies Repr()
      ensures Valid() && store.Keys == old(store).Keys && Repr() == old(Repr())
      ensures Outcome(store, e) == Moved(old(store), from, path)
    {
      var r := GetValue(from);
      if r.Err? {
        return Some(r.error);
      }
      ValueAtIn(store, from);
      ghost var st := store;
      e := Remove(from);
      if e.Some? {
        return;
      }
      ValueInGrows(st, store, r.value);
      e := Add(path, r.value);
    }

    /** Make st the document's store; the heap already agrees with it. */
    ghost method Adopt(st: Store)
      requires WellTyped(st) && Closed(st) && Held(root, st)
      modifies this`store, this`objs
      ensures store == st && Valid()
    {
      StoreObjectsAreDtos(st);
      store, objs := st, StoreObjects(st);
    }

    /** A deep clone of v, whose new objects the store describes from now on. */
    method TakeClone(v: Value) returns (c: Value)
      requires Valid() && ValueIn(store, v)
      modifies this`store, this`objs
      ensures store == CloneRecords(old(store), c, v) + old(store)
      ensures Valid() && ValueIn(store, c)
      ensures IsCloneOf(c, v) && FreshFor(old(store), c) && fresh(ValueObjects(c))
    {
      ghost var st1;
      c, st1 := CloneAdopted(root, store, v);
      Adopt(st1);
    }

    /** The copy operation: read the value at from and add a deep clone of it at path. */
    method Copy(from: Path, path: Path) returns (e: Option<PatchError>, ghost clone: Value)
      requires Valid()
      modifies Repr()
      ensures Valid() && old(store).Keys <= store.Keys && fresh(Repr() - old(Repr()))
      ensures Outcome(store, e) == Copied(old(store), from, path, clone)
      ensures CloneFor(old(store), Operation.Copy(from, path), clone)
    {
      var r := GetValue(from);
      if r.Err? {
        return Some(r.error), Null;
      }
      ValueAtIn(store, from);
      ghost var st := store;
      var c := TakeClone(r.value);
      clone := c;
      CloneGrowsObjects(st, store, c, r.value);
      e := Add(path, c);
      CopiedAdds(st, from, path, c);
      CloneGrowsObjects(st, store, c, r.value);
    }

    // ---- whole patches ----

    /** The store takes on the records of the objects the values reference. */
    ghost method TakeValues(vs: seq<Value>)
      requires Valid()
      modifies this`store, this`objs
      ensures store == old(ValuesRecords(vs) + store)
      ensures Valid() && old(store).Keys <= store.Keys
      ensures ValuesIn(store, vs)
      ensures Repr() <= old(Repr()) + ValuesObjects(vs)
    {
      var st1 := ValuesRecords(vs) + store;
      ValuesAdoptable(root, store, vs);
      Adopt(st1);
    }

    /** One operation of a patch; clone is the deep clone a copy adds. */
    method ApplyOperation(op: Operation) returns (e: Option<PatchError>, ghost clone: Value)
      requires Valid() && ValueIn(store, OpValue(op))
      modifies Repr()
      ensures Valid() && old(store).Keys <= store.Keys && fresh(Repr() - old(Repr()))
      ensures Outcome(store, e) == Applied(old(store), op, clone)
      ensures CloneFor(old(store), op, clone)
    {
      clone := Null;
      match op {
        case Add(path, v) => e := Add(path, v);
        case Remove(path) => e := Remove(path);
        case Replace(path, v) => e := Replace(path, v);
        case Move(from, path) => e := Move(from, path);
        case Copy(from, path) => e, clone := Copy(from, path);
      }
    }

    /** The fail-fast loop after i operations: nothing has failed yet, or ops[i - 1] just did. */
    ghost predicate FailingFast(ops: seq<Operation>, i: nat, st0: Store, failure: Option<Failure>, clones: seq<Value>)
      reads this, Repr()
    {
      Valid() && ValuesIn(store, OpValues(ops)) && i == |clones| && FailFastSoFar(st0, ops, clones, Report(store, failure))
    }

    /** The logging loop after i operations. */
    ghost predicate Logging(ops: seq<Operation>, i: nat, st0: Store, errors: seq<Failure>, clones: seq<Value>)
      reads this, Repr()
    {
      Valid() && ValuesIn(store, OpValues(ops)) && i == |clones| && CollectSoFar(st0, ops, clones, Log(store, errors))
    }

    /** The fail-fast mode's next operation, ops[i]. */
    method FailFastNext(ops: seq<Operation>, i: nat, ghost st0: Store, ghost clones: seq<Value>)
      returns (failure: Option<Failure>, ghost clones': seq<Value>)
      requires i < |ops| && FailingFast(ops, i, st0, None, clones)
      modifies Repr()
      ensures FailingFast(ops, i + 1, st0, failure, clones') && fresh(Repr() - old(Repr()))
    {
      ghost var st := store;
      assert ValueIn(store, OpValues(ops)[i]);
      var e;
      ghost var c;
      e, c := ApplyOperation(ops[i]);
      ValuesInGrows(st, store, OpValues(ops));
      FailFastStep(st0, ops, clones, c, st, Outcome(store, e));
      clones' := clones + [c];
      failure := if e.Some? then Some(Failure(i, e.value)) else None;
    }

    /** The logging mode's next operation, ops[i]. */
    method CollectNext(ops: seq<Operation>, i: nat, ghost st0: Store, errors: seq<Failure>, ghost clones: seq<Value>)
      returns (errors': seq<Failure>, ghost clones': seq<Value>)
      requires i < |ops| && Logging(ops, i, st0, errors, clones)
      modifies Repr()
      ensures Logging(ops, i + 1, st0, errors', clones') && fresh(Repr() - old(Repr()))
    {
      ghost var st := store;
      assert ValueIn(store, OpValues(ops)[i]);
      var e;
      ghost var c;
      e, c := ApplyOperation(ops[i]);
      ValuesInGrows(st, store, OpValues(ops));
      CollectStep(st0, ops, clones, c, Log(st, errors), Outcome(store, e));
      clones' := clones + [c];
      errors' := if e.Some? then errors + [Failure(i, e.value)] else errors;
    }

    /** The fail-fast loop over a patch whose values the store describes. */
    method RunFailFast(ops: seq<Operation>) returns (failure: Option<Failure>, ghost clones: seq<Value>)
      requires Valid() && ValuesIn(store, OpValues(ops))
      modifies Repr()
      ensures Valid() && |clones| == |ops| && fresh(Repr() - old(Repr()))
      ensures Report(store, failure) == FailFast(old(store), ops, clones)
      ensures FreshClones(old(store), ops, clones)
    {
      ghost var st0 := store;
      failure, clones := None, [];
      FailFastStart(st0, ops);
      var i := 0;
      while i < |ops| && failure.None?
        invariant FailingFast(ops, i, st0, failure, clones) && fresh(Repr() - old(Repr()))
        decreases |ops| - i
      {
        failure, clones := FailFastNext(ops, i, st0, clones);
        i := i + 1;
      }
      FailFastDone(st0, ops, clones, Report(store, failure));
      clones := Padded(clones, |ops|);
    }

    /** The logging loop over a patch whose values the store describes. */
    method RunCollect(ops: seq<Operation>) returns (errors: seq<Failure>, ghost clones: seq<Value>)
      requires Valid() && ValuesIn(store, OpValues(ops))
      modifies Repr()
      ensures Valid() && |clones| == |ops| && fresh(Repr() - old(Repr()))
      ensures Log(store, errors) == Collect(old(store), ops, clones)
      ensures LoggedClones(old(store), ops, clones)
    {
      ghost var st0 := store;
      errors, clones := [], [];
      CollectStart(st0, ops);
      var i := 0;
      while i < |ops|
        invariant Logging(ops, i, st0, errors, clones) && fresh(Repr() - old(Repr()))
      {
        errors, clones := CollectNext(ops, i, st0, errors, clones);
        i := i + 1;
      }
      CollectDone(st0, ops, clones, Log(store, errors));
    }

    /**
     * Apply a patch, stopping at the first operation that fails (whose error the engine
     * raises); the operations before it stay applied.  The objects the patch's values
     * reference join the document from the start.
     */
    method ApplyTo(ops: seq<Operation>) returns (failure: Option<Failure>, ghost clones: seq<Value>)
      requires Valid()
      modifies Repr(), ValuesObjects(OpValues(ops))
      ensures Valid() && |clones| == |ops|
      ensures Report(store, failure) == FailFast(old(ValuesRecords(OpValues(ops)) + store), ops, clones)
      ensures FreshClones(old(ValuesRecords(OpValues(ops)) + store), ops, clones)
    {
      TakeValues(OpValues(ops));
      failure, clones := RunFailFast(ops);
    }

    /**
     * Apply a patch in the logging mode: a failing operation reports its error and
     * the next one still runs.
     */
    method ApplyToWithLogger(ops: seq<Operation>) returns (errors: seq<Failure>, ghost clones: seq<Value>)
      requires Valid()
      modifies Repr(), ValuesObjects(OpValues(ops))
      ensures Valid() && |clones| == |ops|
      ensures Log(store, errors) == Collect(old(ValuesRecords(OpValues(ops)) + store), ops, clones)
      ensures LoggedClones(old(ValuesRecords(OpValues(ops)) + store), ops, clones)
    {
      TakeValues(OpValues(ops));
      errors, clones := RunCollect(ops);
    }
  }
}
