// The meaning of the five operations (add, remove, replace, move, copy) and of a
// whole patch, as functions from one store to the next.

module Operations {
  import opened Errors
  import opened Pointer
  import opened ListAdapter
  import opened Values
  import opened Resolver

  datatype Operation =
    | Add(path: Path, value: Value)
    | Remove(path: Path)
    | Replace(path: Path, value: Value)
    | Move(from: Path, path: Path)
    | Copy(from: Path, path: Path)

  /** The store after an operation (changed or not) and the error it reported, if any. */
  datatype Outcome = Outcome(store: Store, error: Option<PatchError>)

  // ---- value level: what the located slot holds afterwards ----

  /** The value at a location, given the content cur of its slot. */
  function ReadAt(loc: Location, cur: Value): Result<Value>
  {
    match loc
    case AtMember(_, _) => Ok(cur)
    case AtElement(_, seg) =>
      match cur
      case Ints(xs) =>
        var p :- ExistingPosition(seg, |xs|);
        Ok(Int(xs[p]))
      case Objs(ds) =>
        var p :- ExistingPosition(seg, |ds|);
        Ok(Obj(ds[p]))
      case _ => Err(NotAContainer(seg))
  }

  /**
   * New content of the located slot after adding v (vkind: the runtime class of v's object).
   * On a member this sets the member; in a list it inserts, the position checked first.
   */
  function AddValue(loc: Location, cur: Value, v: Value, vkind: Value): Result<Value>
  {
    match loc
    case AtMember(s, seg) =>
      if Admits(TypeOf(s), v, vkind) then Ok(v) else Err(TypeMismatch(seg))
    case AtElement(_, seg) =>
      match cur
      case Ints(xs) =>
        var p :- AddPosition(seg, |xs|);
        if v.Int? then Ok(Ints(InsertAt(xs, p, v.i))) else Err(TypeMismatch(seg))
      case Objs(ds) =>
        var p :- AddPosition(seg, |ds|);
        if v.Obj? then Ok(Objs(InsertAt(ds, p, v.dto))) else Err(TypeMismatch(seg))
      case _ => Err(NotAContainer(seg))
  }

  /** New content after replacing: a member is set as by add; a list element must already exist. */
  function ReplaceValue(loc: Location, cur: Value, v: Value, vkind: Value): Result<Value>
  {
    match loc
    case AtMember(s, seg) =>
      if Admits(TypeOf(s), v, vkind) then Ok(v) else Err(TypeMismatch(seg))
    case AtElement(_, seg) =>
      match cur
      case Ints(xs) =>
        var p :- ExistingPosition(seg, |xs|);
        if v.Int? then Ok(Ints(ReplaceAt(xs, p, v.i))) else Err(TypeMismatch(seg))
      case Objs(ds) =>
        var p :- ExistingPosition(seg, |ds|);
        if v.Obj? then Ok(Objs(ReplaceAt(ds, p, v.dto))) else Err(TypeMismatch(seg))
      case _ => Err(NotAContainer(seg))
  }

  /** New content after removing: a member falls back to its type's default, a list loses an element. */
  function RemoveValue(loc: Location, cur: Value): Result<Value>
  {
    match loc
    case AtMember(s, _) => Ok(Default(TypeOf(s)))
    case AtElement(_, seg) =>
      match cur
      case Ints(xs) =>
        var p :- ExistingPosition(seg, |xs|);
        Ok(Ints(RemoveAt(xs, p)))
      case Objs(ds) =>
        var p :- ExistingPosition(seg, |ds|);
        Ok(Objs(RemoveAt(ds, p)))
      case _ => Err(NotAContainer(seg))
  }

  // ---- store level ----

  /** The value a path designates. */
  function ValueAt(st: Store, path: Path): Result<Value>
  {
    var loc :- Locate(st, path);
    ReadAt(loc, Lookup(st, loc.slot))
  }

  /** Add: resolve the path, then set the member or insert into the list; only that slot changes. */
  function Added(st: Store, path: Path, v: Value): (r: Result<Store>)
    ensures Locate(st, path).Err? ==> r == Err(Locate(st, path).error)
    ensures r.Ok? ==> Locate(st, path).Ok? && Locate(st, path).value.slot in r.value
    ensures r.Ok? ==> r.value == st[Locate(st, path).value.slot := r.value[Locate(st, path).value.slot]]
  {
    var loc :- Locate(st, path);
    var nv :- AddValue(loc, Lookup(st, loc.slot), v, KindFor(st, v));
    Ok(st[loc.slot := nv])
  }

  /** Replace: resolve the path, then overwrite the member or an existing element; only that slot changes. */
  function Replaced(st: Store, path: Path, v: Value): (r: Result<Store>)
    ensures Locate(st, path).Err? ==> r == Err(Locate(st, path).error)
    ensures r.Ok? ==> Locate(st, path).Ok? && Locate(st, path).value.slot in r.value
    ensures r.Ok? ==> r.value == st[Locate(st, path).value.slot := r.value[Locate(st, path).value.slot]]
  {
    var loc :- Locate(st, path);
    var nv :- ReplaceValue(loc, Lookup(st, loc.slot), v, KindFor(st, v));
    Ok(st[loc.slot := nv])
  }

  /** Remove: resolve the path, then reset the member or delete an existing element; only that slot changes. */
  function Removed(st: Store, path: Path): (r: Result<Store>)
    ensures Locate(st, path).Err? ==> r == Err(Locate(st, path).error)
    ensures r.Ok? ==> Locate(st, path).Ok? && Locate(st, path).value.slot in r.value
    ensures r.Ok? ==> r.value == st[Locate(st, path).value.slot := r.value[Locate(st, path).value.slot]]
  {
    var loc :- Locate(st, path);
    var nv :- RemoveValue(loc, Lookup(st, loc.slot));
    Ok(st[loc.slot := nv])
  }

  /** A failed single-step operation leaves the store as it was. */
  function AsOutcome(st: Store, r: Result<Store>): Outcome
  {
    match r
    case Ok(st') => Outcome(st', None)
    case Err(e) => Outcome(st, Some(e))
  }

  /**
   * Move: read the value at from, remove it there, add it at path.  The value moves
   * itself (an object keeps its identity).  A failing add does not restore the removal.
   */
  function Moved(st: Store, from: Path, path: Path): (o: Outcome)
    ensures ValueAt(st, from).Err? ==> o == Outcome(st, Some(ValueAt(st, from).error))
    ensures o.error.None? ==> ValueAt(st, from).Ok? && Removed(st, from).Ok?
  {
    match ValueAt(st, from)
    case Err(e) => Outcome(st, Some(e))
    case Ok(v) =>
      match Removed(st, from)
      case Err(e) => Outcome(st, Some(e))
      case Ok(st1) => AsOutcome(st1, Added(st1, path, v))
  }

  /** Records for a clone c' of SimpleDTO d: the same member values and the same runtime class. */
  function DtoRecords(st: Store, c: SimpleDto, d: SimpleDto): Store
  {
    map[DtoSlot(c, StringProperty) := Lookup(st, DtoSlot(d, StringProperty)),
        DtoSlot(c, AnotherStringProperty) := Lookup(st, DtoSlot(d, AnotherStringProperty)),
        DtoSlot(c, IntegerValue) := Lookup(st, DtoSlot(d, IntegerValue)),
        DtoSlot(c, IntegerList) := Lookup(st, DtoSlot(d, IntegerList)),
        DtoSlot(c, IntegerIList) := Lookup(st, DtoSlot(d, IntegerIList)),
        KindSlot(c) := KindIn(st, d)]
  }

  function ListRecords(st: Store, cs: seq<SimpleDto>, ds: seq<SimpleDto>): Store
    requires |cs| == |ds|
    decreases |cs|
  {
    if |cs| == 0 then map[]
    else ListRecords(st, cs[..|cs| - 1], ds[..|ds| - 1]) + DtoRecords(st, cs[|cs| - 1], ds[|ds| - 1])
  }

  /** The slots a deep clone c of the value v brings along: each cloned object mirrors its original. */
  function CloneRecords(st: Store, c: Value, v: Value): Store
  {
    if c.Obj? && v.Obj? then DtoRecords(st, c.dto, v.dto)
    else if c.NestedObj? && v.NestedObj? then map[NestedSlot(c.nested) := Lookup(st, NestedSlot(v.nested))]
    else if c.Objs? && v.Objs? && |c.dtos| == |v.dtos| then ListRecords(st, c.dtos, v.dtos)
    else map[]
  }

  /**
   * Copy: read the value at from and add a deep clone c of it at path.  The clone's
   * objects (allocated by the engine) are described from then on.
   */
  function Copied(st: Store, from: Path, path: Path, c: Value): (o: Outcome)
    ensures ValueAt(st, from).Err? ==> o == Outcome(st, Some(ValueAt(st, from).error))
    ensures o.error.None? ==> ValueAt(st, from).Ok?
  {
    match ValueAt(st, from)
    case Err(e) => Outcome(st, Some(e))
    case Ok(v) =>
      var st1 := CloneRecords(st, c, v) + st;
      AsOutcome(st1, Added(st1, path, c))
  }

  /** One operation; clone is the deep clone a copy adds (ignored by the other operations). */
  function Applied(st: Store, op: Operation, clone: Value): (o: Outcome)
    ensures o.error.Some? && (op.Add? || op.Remove? || op.Replace?) ==> o.store == st
  {
    match op
    case Add(path, v) => AsOutcome(st, Added(st, path, v))
    case Remove(path) => AsOutcome(st, Removed(st, path))
    case Replace(path, v) => AsOutcome(st, Replaced(st, path, v))
    case Move(from, path) => Moved(st, from, path)
    case Copy(from, path) => Copied(st, from, path, clone)
  }

  /** The value an operation carries (add and replace); the others carry none. */
  function OpValue(op: Operation): Value
  {
    match op
    case Add(_, v) => v
    case Replace(_, v) => v
    case _ => Null
  }

  // ---- whole patches ----

  /** An operation's error, with the operation's position in the patch. */
  datatype Failure = Failure(index: nat, error: PatchError)

  /** Fail-fast result: the final store and the first failure (which stopped the patch). */
  datatype Report = Report(store: Store, failure: Option<Failure>)

  /** Logging result: the final store and every failure reported, in order. */
  datatype Log = Log(store: Store, errors: seq<Failure>)

  /** Operations in order; the first failing one ends the patch, the earlier ones stay applied. */
  function FailFast(st: Store, ops: seq<Operation>, clones: seq<Value>): Report
    requires |clones| == |ops|
    decreases |ops|
  {
    if |ops| == 0 then Report(st, None)
    else
      var n := |ops| - 1;
      var r := FailFast(st, ops[..n], clones[..n]);
      if r.failure.Some? then r
      else
        var o := Applied(r.store, ops[n], clones[n]);
        Report(o.store, if o.error.Some? then Some(Failure(n, o.error.value)) else None)
  }

  /** Operations in order; a failing one is logged and the next one still runs. */
  function Collect(st: Store, ops: seq<Operation>, clones: seq<Value>): Log
    requires |clones| == |ops|
    decreases |ops|
  {
    if |ops| == 0 then Log(st, [])
    else
      var n := |ops| - 1;
      var l := Collect(st, ops[..n], clones[..n]);
      var o := Applied(l.store, ops[n], clones[n]);
      Log(o.store, if o.error.Some? then l.errors + [Failure(n, o.error.value)] else l.errors)
  }
}
