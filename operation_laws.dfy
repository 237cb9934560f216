// Properties of the operations: what a successful operation leaves at its path,
// how remove, move and copy relate to add, that the store's invariants are kept,
// and how the fail-fast and the logging modes of a patch relate.

module OperationLaws {
  import opened Errors
  import opened Pointer
  import opened ListAdapter
  import opened Values
  import opened Resolver
  import opened Operations

  // ---- resolution against a larger store ----

  /**
   * Adding records for objects the store does not reach (a clone, the objects of a
   * patch value) does not change where any path leads.
   */
  lemma {:induction false} WalkIgnoresExtension(st: Store, ext: Store, segs: seq<string>)
    requires Closed(st)
    ensures Walk(ext + st, segs) == Walk(st, segs)
    decreases |segs|
  {
    if |segs| > 0 {
      var pre := segs[..|segs| - 1];
      WalkIgnoresExtension(st, ext, pre);
      if Walk(st, pre).Ok? {
        var c := Walk(st, pre).value;
        WalkStaysIn(st, pre);
        if c.Members? && MemberSlot(c.owner, segs[|segs| - 1]).Some? {
          MemberSlotIn(st, c, segs[|segs| - 1]);
        }
      }
    }
  }

  lemma LocateIgnoresExtension(st: Store, ext: Store, path: Path)
    requires Closed(st)
    ensures Locate(ext + st, path) == Locate(st, path)
    ensures ValueAt(ext + st, path) == ValueAt(st, path)
  {
    if |path| > 0 {
      WalkIgnoresExtension(st, ext, Init(path));
      if Locate(st, path).Ok? {
        LocateIn(st, path);
      }
    }
  }

  /** A value read from a closed store only references objects the store describes. */
  lemma ValueAtIn(st: Store, path: Path)
    requires Closed(st) && ValueAt(st, path).Ok?
    ensures ValueIn(st, ValueAt(st, path).value)
  {
    LocateIn(st, path);
    var loc := Locate(st, path).value;
    assert ValueIn(st, st[loc.slot]);
  }

  // ---- invariants ----

  /** Writing a well-typed value whose objects are described keeps the store's invariants. */
  lemma WriteKeepsInvariants(st: Store, s: Slot, nv: Value)
    requires WellTyped(st) && Closed(st) && s in st && !s.KindSlot?
    requires FitsIn(st, TypeOf(s), nv) && ValueIn(st, nv)
    ensures WellTyped(st[s := nv]) && Closed(st[s := nv])
    ensures st[s := nv].Keys == st.Keys
  {
    var st' := st[s := nv];
    assert st'.Keys == st.Keys;
    forall t | t in st' ensures FitsIn(st', TypeOf(t), st'[t]) && ValueIn(st', st'[t]) {
      var v := st'[t];
      assert KindFor(st', v) == KindFor(st, v);
      ValueInGrows(st, st', if t == s then nv else st[t]);
    }
  }

  /** The new content an add computes fits the located slot and only references described objects. */
  lemma AddValueFits(st: Store, path: Path, v: Value)
    requires WellTyped(st) && Closed(st) && ValueIn(st, v) && Locate(st, path).Ok?
    requires AddValue(Locate(st, path).value, Lookup(st, Locate(st, path).value.slot), v, KindFor(st, v)).Ok?
    ensures var loc := Locate(st, path).value;
      var nv := AddValue(loc, Lookup(st, loc.slot), v, KindFor(st, v)).value;
      FitsIn(st, TypeOf(loc.slot), nv) && ValueIn(st, nv)
  {
    LocateIn(st, path);
    var loc := Locate(st, path).value;
    assert FitsIn(st, TypeOf(loc.slot), st[loc.slot]);
    assert ValueIn(st, st[loc.slot]);
  }

  lemma ReplaceValueFits(st: Store, path: Path, v: Value)
    requires WellTyped(st) && Closed(st) && ValueIn(st, v) && Locate(st, path).Ok?
    requires ReplaceValue(Locate(st, path).value, Lookup(st, Locate(st, path).value.slot), v, KindFor(st, v)).Ok?
    ensures var loc := Locate(st, path).value;
      var nv := ReplaceValue(loc, Lookup(st, loc.slot), v, KindFor(st, v)).value;
      FitsIn(st, TypeOf(loc.slot), nv) && ValueIn(st, nv)
  {
    LocateIn(st, path);
    var loc := Locate(st, path).value;
    assert FitsIn(st, TypeOf(loc.slot), st[loc.slot]);
    assert ValueIn(st, st[loc.slot]);
  }

  lemma RemoveValueFits(st: Store, path: Path)
    requires WellTyped(st) && Closed(st) && Locate(st, path).Ok?
    requires RemoveValue(Locate(st, path).value, Lookup(st, Locate(st, path).value.slot)).Ok?
    ensures var loc := Locate(st, path).value;
      var nv := RemoveValue(loc, Lookup(st, loc.slot)).value;
      FitsIn(st, TypeOf(loc.slot), nv) && ValueIn(st, nv)
  {
    LocateIn(st, path);
    var loc := Locate(st, path).value;
    assert FitsIn(st, TypeOf(loc.slot), st[loc.slot]);
    assert ValueIn(st, st[loc.slot]);
  }

  /** Add, replace and remove keep the store well typed and closed, with the same slots. */
  lemma SingleStepsKeepInvariants(st: Store, path: Path, v: Value)
    requires WellTyped(st) && Closed(st) && ValueIn(st, v)
    ensures Added(st, path, v).Ok? ==>
      var st' := Added(st, path, v).value; WellTyped(st') && Closed(st') && st'.Keys == st.Keys
    ensures Replaced(st, path, v).Ok? ==>
      var st' := Replaced(st, path, v).value; WellTyped(st') && Closed(st') && st'.Keys == st.Keys
    ensures Removed(st, path).Ok? ==>
      var st' := Removed(st, path).value; WellTyped(st') && Closed(st') && st'.Keys == st.Keys
  {
    if Locate(st, path).Ok? {
      var loc := Locate(st, path).value;
      LocateIn(st, path);
      var cur := Lookup(st, loc.slot);
      if AddValue(loc, cur, v, KindFor(st, v)).Ok? {
        AddValueFits(st, path, v);
        WriteKeepsInvariants(st, loc.slot, AddValue(loc, cur, v, KindFor(st, v)).value);
      }
      if ReplaceValue(loc, cur, v, KindFor(st, v)).Ok? {
        ReplaceValueFits(st, path, v);
        WriteKeepsInvariants(st, loc.slot, ReplaceValue(loc, cur, v, KindFor(st, v)).value);
      }
      if RemoveValue(loc, cur).Ok? {
        RemoveValueFits(st, path);
        WriteKeepsInvariants(st, loc.slot, RemoveValue(loc, cur).value);
      }
    }
  }

  // ---- add, replace and remove ----

  /** On an existing member, add behaves exactly as replace. */
  lemma AddOnMemberIsReplace(st: Store, path: Path, v: Value)
    requires Locate(st, path).Ok? && Locate(st, path).value.AtMember?
    ensures Added(st, path, v) == Replaced(st, path, v)
  {
  }

  /** Round trip: after a successful add, the path designates the added value. */
  lemma AddThenRead(st: Store, path: Path, v: Value)
    requires WellTyped(st) && Added(st, path, v).Ok?
    ensures ValueAt(Added(st, path, v).value, path) == Ok(v)
  {
    var loc := Locate(st, path).value;
    var nv := AddValue(loc, Lookup(st, loc.slot), v, KindFor(st, v)).value;
    LocateStable(st, path, nv);
    if loc.AtElement? {
      var cur := Lookup(st, loc.slot);
      if cur.Ints? {
        ReadAfterAdd(cur.xs, loc.seg, v.i);
      } else {
        ReadAfterAdd(cur.dtos, loc.seg, v.dto);
      }
    }
  }

  /** Round trip: after a successful replace, the path designates the new value. */
  lemma ReplaceThenRead(st: Store, path: Path, v: Value)
    requires WellTyped(st) && Replaced(st, path, v).Ok?
    ensures ValueAt(Replaced(st, path, v).value, path) == Ok(v)
  {
    var loc := Locate(st, path).value;
    var nv := ReplaceValue(loc, Lookup(st, loc.slot), v, KindFor(st, v)).value;
    LocateStable(st, path, nv);
    if loc.AtElement? {
      var cur := Lookup(st, loc.slot);
      if cur.Ints? {
        ReadAfterReplace(cur.xs, loc.seg, v.i);
      } else {
        ReadAfterReplace(cur.dtos, loc.seg, v.dto);
      }
    }
  }

  /** A value can be removed exactly where it can be read, and both fail with the same error. */
  lemma RemovableIffReadable(st: Store, path: Path)
    ensures Removed(st, path).Ok? <==> ValueAt(st, path).Ok?
    ensures Removed(st, path).Err? ==> Removed(st, path).error == ValueAt(st, path).error
  {
  }

  /** Removing a member sets it to its type's default: 0 for an int, null otherwise. */
  lemma RemoveMemberLeavesDefault(st: Store, path: Path)
    requires WellTyped(st) && Locate(st, path).Ok? && Locate(st, path).value.AtMember?
    ensures Removed(st, path).Ok?
    ensures ValueAt(Removed(st, path).value, path) == Ok(Default(TypeOf(Locate(st, path).value.slot)))
  {
    var loc := Locate(st, path).value;
    LocateStable(st, path, Default(TypeOf(loc.slot)));
  }

  /** At the value level, adding back what was read undoes a removal. */
  lemma AddValueUndoesRemoveValue(loc: Location, cur: Value, vkind: Value)
    requires ReadAt(loc, cur).Ok? && RemoveValue(loc, cur).Ok?
    requires loc.AtMember? ==> Admits(TypeOf(loc.slot), cur, vkind)
    ensures AddValue(loc, RemoveValue(loc, cur).value, ReadAt(loc, cur).value, vkind) == Ok(cur)
  {
    if loc.AtElement? {
      if cur.Ints? {
        InsertUndoesRemove(cur.xs, ExistingPosition(loc.seg, |cur.xs|).value);
      } else {
        InsertUndoesRemove(cur.dtos, ExistingPosition(loc.seg, |cur.dtos|).value);
      }
    }
  }

  /** Adding back what was read restores the store a remove started from. */
  lemma RemoveThenAddRestores(st: Store, path: Path)
    requires WellTyped(st) && Closed(st) && ValueAt(st, path).Ok?
    ensures Removed(st, path).Ok?
    ensures Added(Removed(st, path).value, path, ValueAt(st, path).value) == Ok(st)
  {
    LocateIn(st, path);
    var loc := Locate(st, path).value;
    var v := ValueAt(st, path).value;
    var cur := st[loc.slot];
    assert ReadAt(loc, cur) == Ok(v);
    var nv := RemoveValue(loc, cur).value;
    var st1 := st[loc.slot := nv];
    assert Removed(st, path) == Ok(st1);
    LocateStable(st, path, nv);
    assert Locate(st1, path) == Ok(loc);
    assert Lookup(st1, loc.slot) == nv;
    assert KindFor(st1, v) == KindFor(st, v);
    assert FitsIn(st, TypeOf(loc.slot), cur);
    AddValueUndoesRemoveValue(loc, cur, KindFor(st, v));
    assert st1[loc.slot := cur] == st;
  }

  // ---- move and copy ----

  /** A successful move leaves at path the very value (for an object: the same instance) read at from. */
  lemma MoveKeepsValue(st: Store, from: Path, path: Path)
    requires WellTyped(st) && Closed(st) && Moved(st, from, path).error.None?
    ensures ValueAt(Moved(st, from, path).store, path) == ValueAt(st, from)
  {
    var v := ValueAt(st, from).value;
    ValueAtIn(st, from);
    SingleStepsKeepInvariants(st, from, v);
    AddThenRead(Removed(st, from).value, path, v);
  }

  /** Move is remove followed by add of the removed value. */
  lemma MoveIsRemoveThenAdd(st: Store, from: Path, path: Path)
    requires ValueAt(st, from).Ok?
    ensures Removed(st, from).Ok?
    ensures Moved(st, from, path) ==
      AsOutcome(Removed(st, from).value, Added(Removed(st, from).value, path, ValueAt(st, from).value))
  {
    RemovableIffReadable(st, from);
  }

  /**
   * A successful move between two members of the same object leaves the source member at
   * its type's default (null, or 0 for an int): the value is taken away, not duplicated.
   */
  lemma MoveClearsSource(st: Store, from: Path, path: Path)
    requires WellTyped(st) && Locate(st, from).Ok? && Locate(st, from).value.AtMember?
    requires |path| > 0 && Init(path) == Init(from)
    requires Locate(st, path).Ok? && Locate(st, path).value.slot != Locate(st, from).value.slot
    requires Moved(st, from, path).error.None?
    ensures ValueAt(Moved(st, from, path).store, from) == Ok(Default(TypeOf(Locate(st, from).value.slot)))
  {
    var sf := Locate(st, from).value.slot;
    var s2 := Locate(st, path).value.slot;
    var c := Walk(st, Init(from)).value;
    WalkLocates(st, from, c);
    WalkLocates(st, path, c);
    var o := c.owner;
    var v := Lookup(st, sf);
    var st1 := st[sf := Default(TypeOf(sf))];
    assert ValueAt(st, from) == Ok(v);
    assert Removed(st, from) == Ok(st1);
    MembersWalkStable(st, st1, Init(path), o);
    WalkLocates(st1, path, c);
    AddedWritesLocated(st1, path, v);
    var st2 := Moved(st, from, path).store;
    assert st2 == st1[s2 := st2[s2]];
    MembersWalkStable(st, st2, Init(from), o);
    WalkLocates(st2, from, c);
  }

  /**
   * A successful copy between two members of the same object leaves the source member
   * as it was.
   */
  lemma CopyKeepsSource(st: Store, from: Path, path: Path, clone: Value)
    requires WellTyped(st) && Closed(st) && Locate(st, from).Ok? && Locate(st, from).value.AtMember?
    requires |path| > 0 && Init(path) == Init(from)
    requires Locate(st, path).Ok? && Locate(st, path).value.slot != Locate(st, from).value.slot
    requires Copied(st, from, path, clone).error.None?
    ensures ValueAt(Copied(st, from, path, clone).store, from) == ValueAt(st, from)
  {
    var sf := Locate(st, from).value.slot;
    var s2 := Locate(st, path).value.slot;
    var c := Walk(st, Init(from)).value;
    WalkLocates(st, from, c);
    WalkLocates(st, path, c);
    LocateIn(st, from);
    var v := st[sf];
    assert ValueAt(st, from) == Ok(v);
    var st1 := CloneRecords(st, clone, v) + st;
    CopiedAdds(st, from, path, clone);
    LocateIgnoresExtension(st, CloneRecords(st, clone, v), path);
    AddedWritesLocated(st1, path, clone);
    var st2 := Copied(st, from, path, clone).store;
    assert st2 == st1[s2 := st2[s2]];
    MembersWalkStable(st, st2, Init(from), c.owner);
    WalkLocates(st2, from, c);
  }

  /** The shape of a value: the kind of object it references (and how many), or the plain value itself. */
  datatype Shape = ObjShape | NestedShape | ObjsShape(count: nat) | Plain(plain: Value)

  function ShapeOf(v: Value): Shape
  {
    match v
    case Obj(_) => ObjShape
    case NestedObj(_) => NestedShape
    case Objs(ds) => ObjsShape(|ds|)
    case _ => Plain(v)
  }

  /** A clone has the shape of its original; an int list or a scalar is its own copy. */
  predicate IsCloneOf(c: Value, v: Value)
  {
    ShapeOf(c) == ShapeOf(v)
  }

  /** No object of c is described by the store: c's objects were allocated after it. */
  predicate FreshFor(st: Store, c: Value)
  {
    ValueObjects(c) !! StoreObjects(st)
  }

  /** The clone a copy brings is a fresh clone of the value it copies (the other operations clone nothing). */
  predicate CloneFor(st: Store, op: Operation, clone: Value)
  {
    op.Copy? && ValueAt(st, op.from).Ok? ==> IsCloneOf(clone, ValueAt(st, op.from).value) && FreshFor(st, clone)
  }

  /** Records that describe no root member and hold no object, each of its slot's type. */
  predicate Inert(recs: Store)
  {
    forall s :: s in recs ==> !s.RootSlot? && Fits(TypeOf(s), recs[s]) && NoObject(recs[s])
  }

  predicate NoObject(v: Value) { !v.Obj? && !v.NestedObj? && !v.Objs? }

  lemma DtoRecordsInert(st: Store, c: SimpleDto, d: SimpleDto)
    requires WellTyped(st) && DtoIn(st, d)
    ensures Inert(DtoRecords(st, c, d)) && DtoIn(DtoRecords(st, c, d), c)
  {
    assert FitsIn(st, TypeOf(KindSlot(d)), st[KindSlot(d)]);
    assert FitsIn(st, TypeOf(DtoSlot(d, IntegerValue)), st[DtoSlot(d, IntegerValue)]);
    assert FitsIn(st, TypeOf(DtoSlot(d, StringProperty)), st[DtoSlot(d, StringProperty)]);
    assert FitsIn(st, TypeOf(DtoSlot(d, AnotherStringProperty)), st[DtoSlot(d, AnotherStringProperty)]);
    assert FitsIn(st, TypeOf(DtoSlot(d, IntegerList)), st[DtoSlot(d, IntegerList)]);
    assert FitsIn(st, TypeOf(DtoSlot(d, IntegerIList)), st[DtoSlot(d, IntegerIList)]);
    DtoInByMembers(DtoRecords(st, c, d), c);
  }

  lemma InertUnion(a: Store, b: Store)
    requires Inert(a) && Inert(b)
    ensures Inert(a + b)
  {
  }

  lemma {:induction false} ListRecordsInert(st: Store, cs: seq<SimpleDto>, ds: seq<SimpleDto>)
    requires WellTyped(st) && |cs| == |ds|
    requires forall k :: 0 <= k < |ds| ==> DtoIn(st, ds[k])
    ensures Inert(ListRecords(st, cs, ds))
    decreases |cs|
  {
    if |cs| > 0 {
      var n := |cs| - 1;
      assert forall k :: 0 <= k < n ==> ds[..n][k] == ds[k];
      ListRecordsInert(st, cs[..n], ds[..n]);
      DtoRecordsInert(st, cs[n], ds[n]);
      InertUnion(ListRecords(st, cs[..n], ds[..n]), DtoRecords(st, cs[n], ds[n]));
    }
  }

  lemma {:induction false} ListRecordsDescribeClones(st: Store, cs: seq<SimpleDto>, ds: seq<SimpleDto>)
    requires |cs| == |ds|
    ensures forall k :: 0 <= k < |cs| ==> DtoIn(ListRecords(st, cs, ds), cs[k])
    decreases |cs|
  {
    if |cs| > 0 {
      var n := |cs| - 1;
      var pre := ListRecords(st, cs[..n], ds[..n]);
      var last := DtoRecords(st, cs[n], ds[n]);
      ListRecordsDescribeClones(st, cs[..n], ds[..n]);
      DtoInByMembers(last, cs[n]);
      forall k | 0 <= k < |cs| ensures DtoIn(pre + last, cs[k]) {
        if k < n {
          assert cs[k] == cs[..n][k];
          DtoInUnion(pre, last, cs[k]);
        } else {
          DtoInUnion(pre, last, cs[k]);
        }
      }
      assert ListRecords(st, cs, ds) == pre + last;
    }
  }

  lemma DtoInUnion(a: Store, b: Store, d: SimpleDto)
    requires DtoIn(a, d) || DtoIn(b, d)
    ensures DtoIn(a + b, d)
  {
  }

  /** The clone's records are well typed and reference no object, and they describe the clone. */
  lemma CloneRecordsInert(st: Store, c: Value, v: Value)
    requires WellTyped(st) && ValueIn(st, v) && IsCloneOf(c, v)
    ensures Inert(CloneRecords(st, c, v))
    ensures ValueIn(CloneRecords(st, c, v), c)
  {
    if v.Obj? {
      DtoRecordsInert(st, c.dto, v.dto);
    } else if v.NestedObj? {
      assert FitsIn(st, TypeOf(NestedSlot(v.nested)), st[NestedSlot(v.nested)]);
    } else if v.Objs? {
      ListRecordsInert(st, c.dtos, v.dtos);
      ListRecordsDescribeClones(st, c.dtos, v.dtos);
    }
  }

  /** Extending the store by inert records of other slots keeps its invariants. */
  lemma ExtensionKeepsInvariants(st: Store, recs: Store)
    requires WellTyped(st) && Closed(st) && Inert(recs)
    ensures WellTyped(recs + st) && Closed(recs + st) && st.Keys <= (recs + st).Keys
  {
    var st1 := recs + st;
    forall s | s in st1 ensures FitsIn(st1, TypeOf(s), st1[s]) && ValueIn(st1, st1[s]) {
      if s in st {
        assert ValueIn(st, st[s]);
        assert KindFor(st1, st[s]) == KindFor(st, st[s]);
        ValueInGrows(st, st1, st[s]);
      } else {
        assert NoObject(recs[s]);
      }
    }
  }

  /** Extending the store by a clone's records keeps its invariants and describes the clone. */
  lemma CloneExtensionKeepsInvariants(st: Store, c: Value, v: Value)
    requires WellTyped(st) && Closed(st) && ValueIn(st, v) && IsCloneOf(c, v)
    ensures var st1 := CloneRecords(st, c, v) + st;
      WellTyped(st1) && Closed(st1) && ValueIn(st1, c) && st.Keys <= st1.Keys
  {
    var recs := CloneRecords(st, c, v);
    CloneRecordsInert(st, c, v);
    ExtensionKeepsInvariants(st, recs);
    ValueInGrows(recs, recs + st, c);
  }

  /** The slot belongs to an object of the value c. */
  predicate Among(s: Slot, c: Value)
  {
    match s
    case DtoSlot(d, _) => (c.Obj? && c.dto == d) || (c.Objs? && d in c.dtos)
    case KindSlot(d) => (c.Obj? && c.dto == d) || (c.Objs? && d in c.dtos)
    case NestedSlot(n) => c.NestedObj? && c.nested == n
    case RootSlot(_) => false
  }

  lemma {:induction false} ListRecordsSlots(st: Store, cs: seq<SimpleDto>, ds: seq<SimpleDto>)
    requires |cs| == |ds|
    ensures forall s :: s in ListRecords(st, cs, ds) ==> Among(s, Objs(cs))
    decreases |cs|
  {
    if |cs| > 0 {
      var n := |cs| - 1;
      ListRecordsSlots(st, cs[..n], ds[..n]);
      forall s | s in ListRecords(st, cs, ds) ensures Among(s, Objs(cs)) {
        if s !in DtoRecords(st, cs[n], ds[n]) {
          assert Among(s, Objs(cs[..n]));
          assert forall d :: d in cs[..n] ==> d in cs;
        }
      }
    }
  }

  /** A clone's records describe the clone's objects only. */
  lemma CloneRecordsSlots(st: Store, c: Value, v: Value)
    ensures forall s :: s in CloneRecords(st, c, v) ==> Among(s, c)
  {
    if c.Objs? && v.Objs? && |c.dtos| == |v.dtos| {
      ListRecordsSlots(st, c.dtos, v.dtos);
    }
  }

  /** Records whose slots all belong to c's objects describe no object besides them. */
  lemma AmongObjects(recs: Store, c: Value)
    requires forall s :: s in recs ==> Among(s, c)
    ensures StoreObjects(recs) <= ValueObjects(c)
  {
    forall o | o in StoreObjects(recs) ensures o in ValueObjects(c) {
      if o in (set s | s in recs && s.DtoSlot? :: s.dto as object) {
        var s :| s in recs && s.DtoSlot? && s.dto == o;
        assert Among(s, c);
      } else if o in (set s | s in recs && s.NestedSlot? :: s.nested as object) {
        var s :| s in recs && s.NestedSlot? && s.nested == o;
        assert Among(s, c);
      } else {
        var s :| s in recs && s.KindSlot? && s.of == o;
        assert Among(s, c);
      }
    }
  }

  /** A store grown by a clone's records (keys kept since) describes the clone's objects besides its own. */
  lemma CloneGrowsObjects(st: Store, st1: Store, c: Value, v: Value)
    requires st1.Keys == (CloneRecords(st, c, v) + st).Keys
    ensures StoreObjects(st1) <= StoreObjects(st) + ValueObjects(c)
  {
    var recs := CloneRecords(st, c, v);
    CloneRecordsSlots(st, c, v);
    AmongObjects(recs, c);
    StoreObjectsOfKeys(st1, recs + st);
    StoreObjectsOfUnion(recs, st);
  }

  // ---- one operation, step by step (resolve, compute the new content, write it) ----

  /** A path that does not resolve makes every single-step operation on it fail the same way. */
  lemma UnlocatedFails(st: Store, path: Path, v: Value)
    requires Locate(st, path).Err?
    ensures Added(st, path, v) == Err(Locate(st, path).error)
    ensures Replaced(st, path, v) == Err(Locate(st, path).error)
    ensures Removed(st, path) == Err(Locate(st, path).error)
    ensures ValueAt(st, path) == Err(Locate(st, path).error)
  {
  }

  lemma AddedAt(st: Store, path: Path, v: Value, loc: Location, r: Result<Value>)
    requires Locate(st, path) == Ok(loc) && r == AddValue(loc, Lookup(st, loc.slot), v, KindFor(st, v))
    ensures r.Err? ==> Added(st, path, v) == Err(r.error)
    ensures r.Ok? ==> Added(st, path, v) == Ok(st[loc.slot := r.value])
  {
  }

  lemma ReplacedAt(st: Store, path: Path, v: Value, loc: Location, r: Result<Value>)
    requires Locate(st, path) == Ok(loc) && r == ReplaceValue(loc, Lookup(st, loc.slot), v, KindFor(st, v))
    ensures r.Err? ==> Replaced(st, path, v) == Err(r.error)
    ensures r.Ok? ==> Replaced(st, path, v) == Ok(st[loc.slot := r.value])
  {
  }

  lemma RemovedAt(st: Store, path: Path, loc: Location, r: Result<Value>)
    requires Locate(st, path) == Ok(loc) && r == RemoveValue(loc, Lookup(st, loc.slot))
    ensures r.Err? ==> Removed(st, path) == Err(r.error)
    ensures r.Ok? ==> Removed(st, path) == Ok(st[loc.slot := r.value])
  {
  }

  /** A successful add writes the located slot and nothing else. */
  lemma AddedWritesLocated(st: Store, path: Path, v: Value)
    requires Added(st, path, v).Ok?
    ensures Locate(st, path).Ok?
    ensures Locate(st, path).value.slot in Added(st, path, v).value
    ensures Added(st, path, v).value ==
      st[Locate(st, path).value.slot := Added(st, path, v).value[Locate(st, path).value.slot]]
  {
  }

  lemma CopiedAdds(st: Store, from: Path, path: Path, c: Value)
    requires ValueAt(st, from).Ok?
    ensures var st1 := CloneRecords(st, c, ValueAt(st, from).value) + st;
      Copied(st, from, path, c) == AsOutcome(st1, Added(st1, path, c))
  {
  }

  /** An add on a closed store extended by records of other slots keeps those records. */
  lemma AddKeepsExtension(st: Store, recs: Store, path: Path, v: Value)
    requires Closed(st) && Added(recs + st, path, v).Ok?
    ensures forall s :: s in recs && s !in st ==> Added(recs + st, path, v).value[s] == recs[s]
  {
    AddedWritesLocated(recs + st, path, v);
    LocateIgnoresExtension(st, recs, path);
    LocateIn(st, path);
  }

  /**
   * A successful copy of an object adds a new instance: distinct from the original,
   * of the same runtime class, with the same member values, found at path.
   */
  lemma CopyClonesObject(st: Store, from: Path, path: Path, c: Value)
    requires WellTyped(st) && Closed(st)
    requires ValueAt(st, from).Ok? && ValueAt(st, from).value.Obj?
    requires IsCloneOf(c, ValueAt(st, from).value) && FreshFor(st, c)
    requires Copied(st, from, path, c).error.None?
    ensures ValueAt(Copied(st, from, path, c).store, path) == Ok(c)
    ensures c.dto != ValueAt(st, from).value.dto
    ensures KindIn(Copied(st, from, path, c).store, c.dto) == KindIn(st, ValueAt(st, from).value.dto)
    ensures forall m :: Lookup(Copied(st, from, path, c).store, DtoSlot(c.dto, m)) ==
                        Lookup(st, DtoSlot(ValueAt(st, from).value.dto, m))
  {
    var v := ValueAt(st, from).value;
    var recs := CloneRecords(st, c, v);
    assert recs == DtoRecords(st, c.dto, v.dto);
    CopiedAdds(st, from, path, c);
    ValueAtIn(st, from);
    assert c.dto in ValueObjects(c) && v.dto in StoreObjects(st);
    CloneExtensionKeepsInvariants(st, c, v);
    AddThenRead(recs + st, path, c);
    AddKeepsExtension(st, recs, path, c);
    assert KindSlot(c.dto) !in st;
    var st' := Copied(st, from, path, c).store;
    forall m ensures Lookup(st', DtoSlot(c.dto, m)) == Lookup(st, DtoSlot(v.dto, m)) {
      assert DtoSlot(c.dto, m) !in st;
      DtoRecordsAt(st, c.dto, v.dto, m);
    }
  }

  lemma DtoRecordsAt(st: Store, c: SimpleDto, d: SimpleDto, m: DtoMember)
    ensures DtoSlot(c, m) in DtoRecords(st, c, d)
    ensures DtoRecords(st, c, d)[DtoSlot(c, m)] == Lookup(st, DtoSlot(d, m))
  {
    match m {
      case StringProperty =>
      case AnotherStringProperty =>
      case IntegerValue =>
      case IntegerList =>
      case IntegerIList =>
    }
  }

  /** Copying a list element or a scalar adds the value read at from. */
  lemma CopyAddsValue(st: Store, from: Path, path: Path)
    requires WellTyped(st) && Closed(st) && ValueAt(st, from).Ok?
    requires var v := ValueAt(st, from).value; !v.Obj? && !v.NestedObj? && !v.Objs?
    requires Copied(st, from, path, ValueAt(st, from).value).error.None?
    ensures ValueAt(Copied(st, from, path, ValueAt(st, from).value).store, path) == ValueAt(st, from)
  {
    var v := ValueAt(st, from).value;
    assert CloneRecords(st, v, v) + st == st;
    AddThenRead(st, path, v);
  }

  // ---- fail-fast and logging modes ----

  /** Every copy that the fail-fast mode reaches brings a fresh clone of the value it reads. */
  predicate FreshClones(st: Store, ops: seq<Operation>, clones: seq<Value>)
    requires |clones| == |ops|
    decreases |ops|
  {
    |ops| == 0 ||
    (var n := |ops| - 1;
     FreshClones(st, ops[..n], clones[..n]) &&
     (FailFast(st, ops[..n], clones[..n]).failure.None? ==>
        CloneFor(FailFast(st, ops[..n], clones[..n]).store, ops[n], clones[n])))
  }

  /** Every copy of the logging mode brings a fresh clone of the value it reads. */
  predicate LoggedClones(st: Store, ops: seq<Operation>, clones: seq<Value>)
    requires |clones| == |ops|
    decreases |ops|
  {
    |ops| == 0 ||
    (var n := |ops| - 1;
     LoggedClones(st, ops[..n], clones[..n]) && CloneFor(Collect(st, ops[..n], clones[..n]).store, ops[n], clones[n]))
  }

  /** One step of the fail-fast mode after a failing prefix adds nothing. */
  lemma FailedPrefixStays(st: Store, ops: seq<Operation>, clones: seq<Value>)
    requires |clones| == |ops| && |ops| > 0
    requires FailFast(st, ops[..|ops| - 1], clones[..|ops| - 1]).failure.Some?
    ensures FailFast(st, ops, clones) == FailFast(st, ops[..|ops| - 1], clones[..|ops| - 1])
    ensures FreshClones(st, ops[..|ops| - 1], clones[..|ops| - 1]) ==> FreshClones(st, ops, clones)
  {
  }

  /** Once an operation fails, the fail-fast mode ignores the rest of the patch. */
  lemma {:induction false} FailFastIgnoresRest(st: Store, ops: seq<Operation>, clones: seq<Value>, i: nat)
    requires |clones| == |ops| && i <= |ops|
    requires FailFast(st, ops[..i], clones[..i]).failure.Some?
    ensures FailFast(st, ops, clones) == FailFast(st, ops[..i], clones[..i])
    ensures FreshClones(st, ops[..i], clones[..i]) ==> FreshClones(st, ops, clones)
    decreases |ops| - i
  {
    if i < |ops| {
      var n := |ops| - 1;
      var pre, cpre := ops[..n], clones[..n];
      assert pre[..i] == ops[..i] && cpre[..i] == clones[..i];
      FailFastIgnoresRest(st, pre, cpre, i);
      FailedPrefixStays(st, ops, clones);
    } else {
      assert ops[..i] == ops && clones[..i] == clones;
    }
  }

  /** If no operation fails, the logging mode logs nothing and ends in the same store. */
  lemma {:induction false} FailFastSuccessMeansEmptyLog(st: Store, ops: seq<Operation>, clones: seq<Value>)
    requires |clones| == |ops| && FailFast(st, ops, clones).failure.None?
    ensures Collect(st, ops, clones) == Log(FailFast(st, ops, clones).store, [])
    decreases |ops|
  {
    if |ops| > 0 {
      var n := |ops| - 1;
      var r := FailFast(st, ops[..n], clones[..n]);
      FailFastSuccessMeansEmptyLog(st, ops[..n], clones[..n]);
      assert Collect(st, ops[..n], clones[..n]) == Log(r.store, []);
      var o := Applied(r.store, ops[n], clones[n]);
      assert FailFast(st, ops, clones) == Report(o.store, None);
      assert Collect(st, ops, clones) == Log(o.store, []);
    }
  }

  /** And conversely: an empty log means the fail-fast mode succeeds, in the same store. */
  lemma EmptyLogMeansFailFastSuccess(st: Store, ops: seq<Operation>, clones: seq<Value>)
    requires |clones| == |ops| && Collect(st, ops, clones).errors == []
    ensures FailFast(st, ops, clones) == Report(Collect(st, ops, clones).store, None)
  {
    if FailFast(st, ops, clones).failure.Some? {
      FirstLoggedIsFailFastFailure(st, ops, clones);
      assert false;
    }
    FailFastSuccessMeansEmptyLog(st, ops, clones);
  }

  /** The failure that stops the fail-fast mode is the first entry of the logging mode's log. */
  lemma {:induction false} FirstLoggedIsFailFastFailure(st: Store, ops: seq<Operation>, clones: seq<Value>)
    requires |clones| == |ops| && FailFast(st, ops, clones).failure.Some?
    ensures |Collect(st, ops, clones).errors| > 0
    ensures Collect(st, ops, clones).errors[0] == FailFast(st, ops, clones).failure.value
    decreases |ops|
  {
    var n := |ops| - 1;
    var r := FailFast(st, ops[..n], clones[..n]);
    if r.failure.Some? {
      FirstLoggedIsFailFastFailure(st, ops[..n], clones[..n]);
    } else {
      FailFastSuccessMeansEmptyLog(st, ops[..n], clones[..n]);
    }
  }

  /** Every entry names one of the first n operations. */
  predicate IndexesBelow(es: seq<Failure>, n: nat)
  {
    forall k :: 0 <= k < |es| ==> es[k].index < n
  }

  /** Entries name operations in strictly increasing order. */
  predicate IndexesIncrease(es: seq<Failure>)
  {
    forall j, k :: 0 <= j < k < |es| ==> es[j].index < es[k].index
  }

  lemma LogAppend(es: seq<Failure>, n: nat, f: Failure)
    requires IndexesBelow(es, n) && IndexesIncrease(es) && f.index == n
    ensures IndexesBelow(es + [f], n + 1) && IndexesIncrease(es + [f])
  {
    assert forall k :: 0 <= k < |es| ==> (es + [f])[k] == es[k];
  }

  /** Log entries name operations of the patch, in increasing order. */
  lemma {:induction false} LogIndexesIncrease(st: Store, ops: seq<Operation>, clones: seq<Value>)
    requires |clones| == |ops|
    ensures IndexesBelow(Collect(st, ops, clones).errors, |ops|)
    ensures IndexesIncrease(Collect(st, ops, clones).errors)
    decreases |ops|
  {
    if |ops| > 0 {
      var n := |ops| - 1;
      var l := Collect(st, ops[..n], clones[..n]);
      LogIndexesIncrease(st, ops[..n], clones[..n]);
      var o := Applied(l.store, ops[n], clones[n]);
      if o.error.Some? {
        LogAppend(l.errors, n, Failure(n, o.error.value));
      }
    }
  }

  /** The fail-fast failure names an operation of the patch, and every earlier one succeeded. */
  lemma {:induction false} FailFastStopsAtFailure(st: Store, ops: seq<Operation>, clones: seq<Value>)
    requires |clones| == |ops| && FailFast(st, ops, clones).failure.Some?
    ensures var f := FailFast(st, ops, clones).failure.value;
      f.index < |ops| &&
      FailFast(st, ops[..f.index], clones[..f.index]).failure.None? &&
      Applied(FailFast(st, ops[..f.index], clones[..f.index]).store, ops[f.index], clones[f.index])
        == Outcome(FailFast(st, ops, clones).store, Some(f.error))
    decreases |ops|
  {
    var n := |ops| - 1;
    var r := FailFast(st, ops[..n], clones[..n]);
    if r.failure.Some? {
      assert FailFast(st, ops, clones) == r;
      FailFastStopsAtFailure(st, ops[..n], clones[..n]);
      var i := r.failure.value.index;
      assert ops[..n][..i] == ops[..i] && clones[..n][..i] == clones[..i];
      assert ops[..n][i] == ops[i] && clones[..n][i] == clones[i];
    } else {
      var o := Applied(r.store, ops[n], clones[n]);
      assert FailFast(st, ops, clones) == Report(o.store, Some(Failure(n, o.error.value)));
    }
  }

  /** The fail-fast mode after the first |clones| operations of ops: its report so far, with fresh clones. */
  predicate FailFastSoFar(st0: Store, ops: seq<Operation>, clones: seq<Value>, r: Report)
  {
    |clones| <= |ops| && FailFast(st0, ops[..|clones|], clones) == r && FreshClones(st0, ops[..|clones|], clones)
  }

  /** The logging mode after the first |clones| operations of ops: its log so far, with fresh clones. */
  predicate CollectSoFar(st0: Store, ops: seq<Operation>, clones: seq<Value>, l: Log)
  {
    |clones| <= |ops| && Collect(st0, ops[..|clones|], clones) == l && LoggedClones(st0, ops[..|clones|], clones)
  }

  lemma FailFastStart(st0: Store, ops: seq<Operation>)
    ensures FailFastSoFar(st0, ops, [], Report(st0, None))
  {
  }

  lemma CollectStart(st0: Store, ops: seq<Operation>)
    ensures CollectSoFar(st0, ops, [], Log(st0, []))
  {
  }

  /** Running one more operation extends the fail-fast report by that operation's outcome. */
  lemma FailFastStep(st0: Store, ops: seq<Operation>, clones: seq<Value>, c: Value, st: Store, o: Outcome)
    requires |clones| < |ops| && FailFastSoFar(st0, ops, clones, Report(st, None))
    requires CloneFor(st, ops[|clones|], c) && Applied(st, ops[|clones|], c) == o
    ensures FailFastSoFar(st0, ops, clones + [c],
      Report(o.store, if o.error.Some? then Some(Failure(|clones|, o.error.value)) else None))
  {
    var i := |clones|;
    assert ops[..i + 1][..i] == ops[..i] && (clones + [c])[..i] == clones;
  }

  /** Running one more operation extends the log by that operation's error, if it fails. */
  lemma CollectStep(st0: Store, ops: seq<Operation>, clones: seq<Value>, c: Value, l: Log, o: Outcome)
    requires |clones| < |ops| && CollectSoFar(st0, ops, clones, l)
    requires CloneFor(l.store, ops[|clones|], c) && Applied(l.store, ops[|clones|], c) == o
    ensures CollectSoFar(st0, ops, clones + [c],
      Log(o.store, if o.error.Some? then l.errors + [Failure(|clones|, o.error.value)] else l.errors))
  {
    var i := |clones|;
    assert ops[..i + 1][..i] == ops[..i] && (clones + [c])[..i] == clones;
  }

  /** The clones extended to n entries; the operations past a failure never use theirs. */
  function Padded(clones: seq<Value>, n: nat): (p: seq<Value>)
    requires |clones| <= n
    ensures |p| == n && p[..|clones|] == clones
  {
    clones + seq(n - |clones|, _ => Null)
  }

  /** A fail-fast run ends at its first failure or at the end of the patch. */
  lemma FailFastDone(st0: Store, ops: seq<Operation>, clones: seq<Value>, r: Report)
    requires FailFastSoFar(st0, ops, clones, r) && (r.failure.Some? || |clones| == |ops|)
    ensures FailFast(st0, ops, Padded(clones, |ops|)) == r && FreshClones(st0, ops, Padded(clones, |ops|))
  {
    var p := Padded(clones, |ops|);
    if r.failure.Some? {
      FailFastIgnoresRest(st0, ops, p, |clones|);
    } else {
      assert ops[..|clones|] == ops && p == clones;
    }
  }

  /** A logging run ends at the end of the patch. */
  lemma CollectDone(st0: Store, ops: seq<Operation>, clones: seq<Value>, l: Log)
    requires CollectSoFar(st0, ops, clones, l) && |clones| == |ops|
    ensures Collect(st0, ops, clones) == l && LoggedClones(st0, ops, clones)
  {
    assert ops[..|clones|] == ops;
  }
}
