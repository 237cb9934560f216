// Path resolution: walking every segment of a path but the last, from the root
// through objects and lists, to the container the last segment addresses.

module Resolver {
  import opened Errors
  import opened Pointer
  import opened ListAdapter
  import opened Values

  /** The object whose members a segment names. */
  datatype Owner = Root | OfDto(dto: SimpleDto) | OfNested(nested: NestedDto)

  /** What a segment is applied to: the members of an object, or the elements of a list slot. */
  datatype Container = Members(owner: Owner) | Elements(list: Slot)

  /** Target of an operation: a member slot, or a position (still a segment) in a list slot. */
  datatype Location = AtMember(slot: Slot, seg: string) | AtElement(slot: Slot, seg: string)

  function RootName(rm: RootMember): string
  {
    match rm
    case RootIntegerValue => "IntegerValue"
    case RootSimpleDto => "SimpleDTO"
    case RootInheritedDto => "InheritedDTO"
    case RootNestedDto => "NestedDTO"
    case RootSimpleDtoList => "SimpleDTOList"
    case RootSimpleDtoIList => "SimpleDTOIList"
  }

  function DtoName(m: DtoMember): string
  {
    match m
    case StringProperty => "StringProperty"
    case AnotherStringProperty => "AnotherStringProperty"
    case IntegerValue => "IntegerValue"
    case IntegerList => "IntegerList"
    case IntegerIList => "IntegerIList"
  }

  const NestedName: string := "StringProperty"

  function RootMemberNamed(seg: string): (r: Option<RootMember>)
    ensures r.Some? ==> RootName(r.value) == seg
  {
    if seg == "IntegerValue" then Some(RootIntegerValue)
    else if seg == "SimpleDTO" then Some(RootSimpleDto)
    else if seg == "InheritedDTO" then Some(RootInheritedDto)
    else if seg == "NestedDTO" then Some(RootNestedDto)
    else if seg == "SimpleDTOList" then Some(RootSimpleDtoList)
    else if seg == "SimpleDTOIList" then Some(RootSimpleDtoIList)
    else None
  }

  function DtoMemberNamed(seg: string): (r: Option<DtoMember>)
    ensures r.Some? ==> DtoName(r.value) == seg
  {
    if seg == "StringProperty" then Some(StringProperty)
    else if seg == "AnotherStringProperty" then Some(AnotherStringProperty)
    else if seg == "IntegerValue" then Some(IntegerValue)
    else if seg == "IntegerList" then Some(IntegerList)
    else if seg == "IntegerIList" then Some(IntegerIList)
    else None
  }

  /** Every declared member is found by its own name, so names identify members. */
  lemma MemberNamesFound(rm: RootMember, m: DtoMember)
    ensures RootMemberNamed(RootName(rm)) == Some(rm)
    ensures DtoMemberNamed(DtoName(m)) == Some(m)
  {
  }

  /** The slot a segment names on an owner; never the runtime-class slot. */
  function MemberSlot(o: Owner, seg: string): (r: Option<Slot>)
    ensures r.Some? ==> match o
      case Root => r.value.RootSlot? && RootName(r.value.root) == seg
      case OfDto(d) => r.value.DtoSlot? && r.value.dto == d && DtoName(r.value.member) == seg
      case OfNested(n) => r.value == NestedSlot(n) && seg == NestedName
  {
    match o
    case Root =>
      (match RootMemberNamed(seg) case None => None case Some(rm) => Some(RootSlot(rm)))
    case OfDto(d) =>
      (match DtoMemberNamed(seg) case None => None case Some(m) => Some(DtoSlot(d, m)))
    case OfNested(n) => if seg == NestedName then Some(NestedSlot(n)) else None
  }

  /** Going into the value of member slot s: objects and lists can be entered, null and scalars not. */
  function Enter(s: Slot, v: Value, seg: string): Result<Container>
  {
    match v
    case Obj(d) => Ok(Members(OfDto(d)))
    case NestedObj(n) => Ok(Members(OfNested(n)))
    case Ints(_) => Ok(Elements(s))
    case Objs(_) => Ok(Elements(s))
    case Null => Err(NullTarget(seg))
    case _ => Err(NotAContainer(seg))
  }

  /** Going into an element of a list value: the position must exist, and only objects can be entered. */
  function EnterElement(v: Value, seg: string): Result<Container>
  {
    match v
    case Objs(ds) =>
      var p :- ExistingPosition(seg, |ds|);
      Ok(Members(OfDto(ds[p])))
    case Ints(xs) =>
      if ExistingPosition(seg, |xs|).Err? then Err(ExistingPosition(seg, |xs|).error)
      else Err(NotAContainer(seg))
    case _ => Err(NotAContainer(seg))
  }

  /** One intermediate segment. */
  function Step(st: Store, c: Container, seg: string): Result<Container>
  {
    match c
    case Members(o) =>
      (match MemberSlot(o, seg)
       case None => Err(MemberNotFound(seg))
       case Some(s) => Enter(s, Lookup(st, s), seg))
    case Elements(ls) => EnterElement(Lookup(st, ls), seg)
  }

  /** All the given segments, from the root, stopping at the first failing one. */
  function Walk(st: Store, segs: seq<string>): (r: Result<Container>)
    ensures r.Ok? && |segs| > 0 ==> Walk(st, segs[..|segs| - 1]).Ok?
    decreases |segs|
  {
    if |segs| == 0 then Ok(Members(Root))
    else
      var c :- Walk(st, segs[..|segs| - 1]);
      Step(st, c, segs[|segs| - 1])
  }

  /** The last segment names a member of an object, or a position in a list. */
  function Final(c: Container, seg: string): Result<Location>
  {
    match c
    case Members(o) =>
      (match MemberSlot(o, seg)
       case None => Err(MemberNotFound(seg))
       case Some(s) => Ok(AtMember(s, seg)))
    case Elements(ls) => Ok(AtElement(ls, seg))
  }

  function Init(path: Path): seq<string>
    requires |path| > 0
  {
    path[..|path| - 1]
  }

  function Last(path: Path): string
    requires |path| > 0
  {
    path[|path| - 1]
  }

  /**
   * Where an operation on the path takes effect: the empty path is refused, and otherwise
   * the target is the last segment, in the container the other segments lead to.
   */
  function Locate(st: Store, path: Path): (r: Result<Location>)
    ensures |path| == 0 ==> r == Err(EmptyPath)
    ensures r.Ok? ==> |path| > 0 && r.value.seg == Last(path) && Walk(st, Init(path)).Ok?
  {
    if |path| == 0 then Err(EmptyPath)
    else
      var c :- Walk(st, Init(path));
      Final(c, Last(path))
  }

  predicate IsList(v: Value) { v.Ints? || v.Objs? }

  /** The container is described by the store (its slots exist, a list slot holds a list). */
  predicate ContainerIn(st: Store, c: Container)
  {
    match c
    case Members(Root) => true
    case Members(OfDto(d)) => DtoIn(st, d)
    case Members(OfNested(n)) => NestedSlot(n) in st
    case Elements(ls) => ls in st && IsList(st[ls])
  }

  lemma MemberSlotIn(st: Store, c: Container, seg: string)
    requires Closed(st) && c.Members? && ContainerIn(st, c) && MemberSlot(c.owner, seg).Some?
    ensures MemberSlot(c.owner, seg).value in st
  {
  }

  /** One more segment: the walk continues with a single step from where it stood. */
  lemma WalkExtends(st: Store, path: Path, i: nat, c: Container)
    requires i < |path| && Walk(st, path[..i]) == Ok(c)
    ensures Walk(st, path[..i + 1]) == Step(st, c, path[i])
  {
    assert path[..i + 1][..i] == path[..i];
  }

  lemma StepStaysIn(st: Store, c: Container, seg: string)
    requires Closed(st) && ContainerIn(st, c) && Step(st, c, seg).Ok?
    ensures ContainerIn(st, Step(st, c, seg).value)
  {
    if c.Members? {
      MemberSlotIn(st, c, seg);
    }
  }

  /** Every container reached by walking a closed store is described by it. */
  lemma {:induction false} WalkStaysIn(st: Store, segs: seq<string>)
    requires Closed(st) && Walk(st, segs).Ok?
    ensures ContainerIn(st, Walk(st, segs).value)
    decreases |segs|
  {
    if |segs| > 0 {
      WalkStaysIn(st, segs[..|segs| - 1]);
      StepStaysIn(st, Walk(st, segs[..|segs| - 1]).value, segs[|segs| - 1]);
    }
  }

  /** A located slot exists in the store; an element location's slot holds a list. */
  lemma LocateIn(st: Store, path: Path)
    requires Closed(st) && Locate(st, path).Ok?
    ensures Locate(st, path).value.slot in st
    ensures !Locate(st, path).value.slot.KindSlot?
    ensures Locate(st, path).value.AtElement? ==> IsList(st[Locate(st, path).value.slot])
  {
    var c := Walk(st, Init(path)).value;
    WalkStaysIn(st, Init(path));
    if c.Members? {
      MemberSlotIn(st, c, Last(path));
    }
  }

  /** Once a prefix fails, every longer prefix fails with the same error. */
  lemma {:induction false} WalkFailurePersists(st: Store, path: Path, i: nat, j: nat)
    requires i <= j <= |path| && Walk(st, path[..i]).Err?
    ensures Walk(st, path[..j]) == Walk(st, path[..i])
    decreases j
  {
    if j > i {
      WalkFailurePersists(st, path, i, j - 1);
      assert path[..j][..j - 1] == path[..j - 1];
    }
  }

  /** A walk that fails before the last segment makes the whole path fail with that error. */
  lemma EarlyFailureLocates(st: Store, path: Path, i: nat)
    requires i < |path| && Walk(st, path[..i]).Err?
    ensures Locate(st, path) == Err(Walk(st, path[..i]).error)
  {
    WalkFailurePersists(st, path, i, |path| - 1);
    assert path[..|path| - 1] == Init(path);
  }

  /** A walk that reaches the last segment's container locates the path there. */
  lemma WalkLocates(st: Store, path: Path, c: Container)
    requires |path| > 0 && Walk(st, path[..|path| - 1]) == Ok(c)
    ensures Locate(st, path) == Final(c, Last(path))
  {
    assert path[..|path| - 1] == Init(path);
  }

  /** Depth of a slot: root members above the members of the objects they hold. */
  function SlotLevel(s: Slot): nat
  {
    if s.RootSlot? then 1 else 2
  }

  function Level(c: Container): nat
  {
    match c
    case Members(Root) => 0
    case Members(_) => 2
    case Elements(ls) => SlotLevel(ls)
  }

  /**
   * The two stores agree on every slot shallower than n (levels are 1 and 2, so only
   * the root members can be shallower than anything).
   */
  predicate AgreeBelow(st: Store, st': Store, n: nat)
  {
    n >= 2 ==> forall rm: RootMember :: Lookup(st, RootSlot(rm)) == Lookup(st', RootSlot(rm))
  }

  lemma AgreeBelowMonotone(st: Store, st': Store, m: nat, n: nat)
    requires m <= n && AgreeBelow(st, st', n)
    ensures AgreeBelow(st, st', m)
  {
  }

  lemma StepLevel(st: Store, c: Container, seg: string)
    requires WellTyped(st) && Step(st, c, seg).Ok?
    ensures Level(c) <= Level(Step(st, c, seg).value)
  {
    if c.Members? {
      var s := MemberSlot(c.owner, seg);
      if s.Some? && s.value in st {
        assert FitsIn(st, TypeOf(s.value), st[s.value]);
      }
    } else if c.list in st {
      assert FitsIn(st, TypeOf(c.list), st[c.list]);
    }
  }

  /**
   * One step is insensitive to changes below the container it reaches, and what such a
   * store keeps it also keeps for the container the step starts from.
   */
  lemma StepStable(st: Store, st': Store, c0: Container, seg: string)
    requires WellTyped(st) && Step(st, c0, seg).Ok?
    requires AgreeBelow(st, st', Level(Step(st, c0, seg).value))
    requires Step(st, c0, seg).value.Elements? ==> IsList(Lookup(st', Step(st, c0, seg).value.list))
    ensures Step(st', c0, seg) == Step(st, c0, seg)
    ensures AgreeBelow(st, st', Level(c0))
    ensures c0.Elements? ==> IsList(Lookup(st', c0.list))
  {
    var c := Step(st, c0, seg).value;
    StepLevel(st, c0, seg);
    AgreeBelowMonotone(st, st', Level(c0), Level(c));
    match c0 {
      case Members(o) =>
        var s := MemberSlot(o, seg).value;
        if s in st {
          assert FitsIn(st, TypeOf(s), st[s]);
        }
        if !c.Elements? {
          assert SlotLevel(s) < Level(c);
        }
      case Elements(ls) =>
        if ls in st {
          assert FitsIn(st, TypeOf(ls), st[ls]);
        }
        assert SlotLevel(ls) < Level(c);
    }
  }

  /**
   * Walking is insensitive to changes below the container it reaches: if another store
   * agrees on every shallower slot, and still holds a list where the walk ends in one,
   * the same walk reaches the same container there.
   */
  lemma {:induction false} WalkStable(st: Store, st': Store, segs: seq<string>)
    requires WellTyped(st) && Walk(st, segs).Ok?
    requires AgreeBelow(st, st', Level(Walk(st, segs).value))
    requires Walk(st, segs).value.Elements? ==> IsList(Lookup(st', Walk(st, segs).value.list))
    ensures Walk(st', segs) == Walk(st, segs)
    decreases |segs|
  {
    if |segs| > 0 {
      var pre, seg := segs[..|segs| - 1], segs[|segs| - 1];
      var c0 := Walk(st, pre).value;
      assert Step(st, c0, seg) == Walk(st, segs);
      StepStable(st, st', c0, seg);
      WalkStable(st, st', pre);
    }
  }

  /**
   * A walk that ends at the members of an object is kept by any store that agrees on the
   * root members (and by every store, when it ends at the root itself).
   */
  lemma MembersWalkStable(st: Store, st': Store, segs: seq<string>, o: Owner)
    requires WellTyped(st) && Walk(st, segs) == Ok(Members(o))
    requires o != Root ==> forall rm: RootMember :: Lookup(st, RootSlot(rm)) == Lookup(st', RootSlot(rm))
    ensures Walk(st', segs) == Ok(Members(o))
  {
    WalkStable(st, st', segs);
  }

  /** Writing the located slot (with a list again, for an element location) keeps the location. */
  lemma LocateStable(st: Store, path: Path, nv: Value)
    requires WellTyped(st) && Locate(st, path).Ok?
    requires Locate(st, path).value.AtElement? ==> IsList(nv)
    ensures Locate(st[Locate(st, path).value.slot := nv], path) == Locate(st, path)
  {
    var loc := Locate(st, path).value;
    var st' := st[loc.slot := nv];
    var c := Walk(st, Init(path)).value;
    forall rm: RootMember | Level(c) >= 2 ensures Lookup(st, RootSlot(rm)) == Lookup(st', RootSlot(rm)) {
      assert RootSlot(rm) != loc.slot;
    }
    WalkStable(st, st', Init(path));
  }
}
