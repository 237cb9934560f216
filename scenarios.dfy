// The test cases of NestedObjectTests replayed on the model.  Each lemma takes any store
// shaped like the test's document, runs the test's patch through the fail-fast mode
// (ApplyTo) or the logging mode (ApplyTo with a logger), and states the resulting
// store and errors.  Document.ApplyTo and Document.ApplyToWithLogger are proved to
// leave the heap in exactly the store these functions compute.

module Scenarios {
  import opened Errors
  import opened Pointer
  import opened ListAdapter
  import opened Values
  import opened Resolver
  import opened Operations
  import opened OperationLaws

  /** A patch of one operation runs that operation. */
  lemma FailFastOne(st: Store, op: Operation, clones: seq<Value>)
    requires |clones| == 1
    ensures FailFast(st, [op], clones) ==
      var o := Applied(st, op, clones[0]); Report(o.store, if o.error.Some? then Some(Failure(0, o.error.value)) else None)
  {
    assert [op][..0] == [] && clones[..0] == [];
  }

  lemma CollectOne(st: Store, op: Operation, clones: seq<Value>)
    requires |clones| == 1
    ensures Collect(st, [op], clones) ==
      var o := Applied(st, op, clones[0]); Log(o.store, if o.error.Some? then [Failure(0, o.error.value)] else [])
  {
    assert [op][..0] == [] && clones[..0] == [];
  }

  /** Resolving a path through one member of the root. */
  lemma LocateTwo(st: Store, a: string, b: string)
    ensures Locate(st, [a, b]) == (var c :- Step(st, Members(Root), a); Final(c, b))
  {
    assert Init([a, b]) == [a] && [a][..0] == [];
    assert Walk(st, [a]) == Step(st, Members(Root), a);
  }

  lemma LocateThree(st: Store, a: string, b: string, c: string)
    ensures Locate(st, [a, b, c]) == (var c1 :- Step(st, Members(Root), a); var c2 :- Step(st, c1, b); Final(c2, c))
  {
    assert Init([a, b, c]) == [a, b] && [a, b][..1] == [a] && [a][..0] == [];
    assert Walk(st, [a]) == Step(st, Members(Root), a);
    assert Walk(st, [a, b]) == (var c1 :- Step(st, Members(Root), a); Step(st, c1, b));
  }

  lemma LocateOne(st: Store, a: string)
    ensures Locate(st, [a]) == Final(Members(Root), a)
  {
    assert Init([a]) == [];
  }

  lemma LocateFour(st: Store, a: string, b: string, c: string, e: string)
    ensures Locate(st, [a, b, c, e]) ==
      (var c1 :- Step(st, Members(Root), a); var c2 :- Step(st, c1, b); var c3 :- Step(st, c2, c); Final(c3, e))
  {
    assert Init([a, b, c, e]) == [a, b, c] && [a, b, c][..2] == [a, b] && [a, b][..1] == [a] && [a][..0] == [];
    assert Walk(st, [a]) == Step(st, Members(Root), a);
    assert Walk(st, [a, b]) == (var c1 :- Step(st, Members(Root), a); Step(st, c1, b));
    assert Walk(st, [a, b, c]) == (var c1 :- Step(st, Members(Root), a); var c2 :- Step(st, c1, b); Step(st, c2, c));
  }

  /** The copy of a one-operation patch brings a fresh clone of what it reads. */
  lemma FreshCloneOne(st: Store, op: Operation, clones: seq<Value>)
    requires |clones| == 1 && FreshClones(st, [op], clones)
    ensures CloneFor(st, op, clones[0])
  {
    assert [op][..0] == [] && clones[..0] == [];
  }

  /** A clone of a plain value is that value. */
  lemma PlainClone(c: Value, v: Value)
    requires IsCloneOf(c, v) && NoObject(v)
    ensures c == v
  {
  }

  /** The numerals the tests use, read as list positions. */
  lemma Numerals()
    ensures ParseIndex("0") == Some(0) && ParseIndex("1") == Some(1) && ParseIndex("2") == Some(2)
    ensures ParseIndex("3") == Some(3) && ParseIndex("4") == Some(4) && ParseIndex("-1") == Some(-1)
  {
    assert DigitsValue("1") == 1;
  }

  // ---- replace and add on members ----

  /** ReplacePropertyInNestedObject: the nested object's StringProperty becomes "B". */
  lemma ReplacePropertyInNestedObject(st: Store, n: NestedDto, clones: seq<Value>)
    requires Lookup(st, RootSlot(RootNestedDto)) == NestedObj(n) && |clones| == 1
    ensures FailFast(st, [Replace(["NestedDTO", "StringProperty"], Str("B"))], clones)
      == Report(st[NestedSlot(n) := Str("B")], None)
  {
    LocateTwo(st, "NestedDTO", "StringProperty");
    FailFastOne(st, Replace(["NestedDTO", "StringProperty"], Str("B")), clones);
  }

  /** ReplaceNestedObject: the NestedDTO member is set to the new object, whose StringProperty is "B". */
  lemma ReplaceNestedObject(st: Store, n: NestedDto, clones: seq<Value>)
    requires Lookup(st, NestedSlot(n)) == Str("B") && |clones| == 1
    ensures var r := FailFast(st, [Replace(["NestedDTO"], NestedObj(n))], clones);
      r == Report(st[RootSlot(RootNestedDto) := NestedObj(n)], None) &&
      Lookup(r.store, NestedSlot(n)) == Str("B")
  {
    LocateOne(st, "NestedDTO");
    FailFastOne(st, Replace(["NestedDTO"], NestedObj(n)), clones);
  }

  /** AddResultsInReplace: add on the existing StringProperty overwrites "A" with "B". */
  lemma AddResultsInReplace(st: Store, d: SimpleDto, clones: seq<Value>)
    requires Lookup(st, RootSlot(RootSimpleDto)) == Obj(d) && Lookup(st, DtoSlot(d, StringProperty)) == Str("A")
    requires |clones| == 1
    ensures FailFast(st, [Add(["SimpleDTO", "StringProperty"], Str("B"))], clones)
      == Report(st[DtoSlot(d, StringProperty) := Str("B")], None)
    ensures FailFast(st, [Add(["SimpleDTO", "StringProperty"], Str("B"))], clones)
      == FailFast(st, [Replace(["SimpleDTO", "StringProperty"], Str("B"))], clones)
  {
    LocateTwo(st, "SimpleDTO", "StringProperty");
    FailFastOne(st, Add(["SimpleDTO", "StringProperty"], Str("B")), clones);
    FailFastOne(st, Replace(["SimpleDTO", "StringProperty"], Str("B")), clones);
  }

  /** AddToComplextTypeListSpecifyIndex: add through a list index sets the member of that element. */
  lemma AddToComplextTypeListSpecifyIndex(st: Store, d1: SimpleDto, d2: SimpleDto, clones: seq<Value>)
    requires Lookup(st, RootSlot(RootSimpleDtoList)) == Objs([d1, d2])
    requires Lookup(st, DtoSlot(d1, StringProperty)) == Str("String1") && |clones| == 1
    ensures FailFast(st, [Add(["SimpleDTOList", "0", "StringProperty"], Str("ChangedString1"))], clones)
      == Report(st[DtoSlot(d1, StringProperty) := Str("ChangedString1")], None)
  {
    LocateThree(st, "SimpleDTOList", "0", "StringProperty");
    FailFastOne(st, Add(["SimpleDTOList", "0", "StringProperty"], Str("ChangedString1")), clones);
  }

  // ---- add to lists ----

  /** AddToList: [1, 2, 3] with 4 added at "0" is [4, 1, 2, 3]. */
  lemma AddToList(st: Store, d: SimpleDto, clones: seq<Value>)
    requires Lookup(st, RootSlot(RootSimpleDto)) == Obj(d) && Lookup(st, DtoSlot(d, IntegerList)) == Ints([1, 2, 3])
    requires |clones| == 1
    ensures FailFast(st, [Add(["SimpleDTO", "IntegerList", "0"], Int(4))], clones)
      == Report(st[DtoSlot(d, IntegerList) := Ints([4, 1, 2, 3])], None)
  {
    Numerals();
    LocateThree(st, "SimpleDTO", "IntegerList", "0");
    FailFastOne(st, Add(["SimpleDTO", "IntegerList", "0"], Int(4)), clones);
    assert InsertAt([1, 2, 3], 0, 4) == [4, 1, 2, 3];
  }

  /** AddToIntegerIList: the same insertion on the IList-typed member. */
  lemma AddToIntegerIList(st: Store, d: SimpleDto, clones: seq<Value>)
    requires Lookup(st, RootSlot(RootSimpleDto)) == Obj(d) && Lookup(st, DtoSlot(d, IntegerIList)) == Ints([1, 2, 3])
    requires |clones| == 1
    ensures FailFast(st, [Add(["SimpleDTO", "IntegerIList", "0"], Int(4))], clones)
      == Report(st[DtoSlot(d, IntegerIList) := Ints([4, 1, 2, 3])], None)
  {
    Numerals();
    LocateThree(st, "SimpleDTO", "IntegerIList", "0");
    FailFastOne(st, Add(["SimpleDTO", "IntegerIList", "0"], Int(4)), clones);
    assert InsertAt([1, 2, 3], 0, 4) == [4, 1, 2, 3];
  }

  /** AddToNestedIntegerIList: the insertion reaches the list through an element of a list of objects. */
  lemma AddToNestedIntegerIList(st: Store, d: SimpleDto, clones: seq<Value>)
    requires Lookup(st, RootSlot(RootSimpleDtoIList)) == Objs([d]) && Lookup(st, DtoSlot(d, IntegerIList)) == Ints([1, 2, 3])
    requires |clones| == 1
    ensures FailFast(st, [Add(["SimpleDTOIList", "0", "IntegerIList", "0"], Int(4))], clones)
      == Report(st[DtoSlot(d, IntegerIList) := Ints([4, 1, 2, 3])], None)
  {
    Numerals();
    LocateFour(st, "SimpleDTOIList", "0", "IntegerIList", "0");
    FailFastOne(st, Add(["SimpleDTOIList", "0", "IntegerIList", "0"], Int(4)), clones);
    assert InsertAt([1, 2, 3], 0, 4) == [4, 1, 2, 3];
  }

  /** AddToListAppend: add at "-" appends. */
  lemma AddToListAppend(st: Store, d: SimpleDto, clones: seq<Value>)
    requires Lookup(st, RootSlot(RootSimpleDto)) == Obj(d) && Lookup(st, DtoSlot(d, IntegerList)) == Ints([1, 2, 3])
    requires |clones| == 1
    ensures FailFast(st, [Add(["SimpleDTO", "IntegerList", "-"], Int(4))], clones)
      == Report(st[DtoSlot(d, IntegerList) := Ints([1, 2, 3, 4])], None)
  {
    LocateThree(st, "SimpleDTO", "IntegerList", "-");
    FailFastOne(st, Add(["SimpleDTO", "IntegerList", "-"], Int(4)), clones);
    assert InsertAt([1, 2, 3], 3, 4) == [1, 2, 3, 4];
  }

  /**
   * AddToListInvalidPositionTooLarge (and _LogsError): position 4 of a 3-element list is
   * out of bounds; the exception, or the one logged error, carries the fixed message.
   */
  lemma AddToListInvalidPositionTooLarge(st: Store, d: SimpleDto, clones: seq<Value>)
    requires Lookup(st, RootSlot(RootSimpleDto)) == Obj(d) && Lookup(st, DtoSlot(d, IntegerList)) == Ints([1, 2, 3])
    requires |clones| == 1
    ensures FailFast(st, [Add(["SimpleDTO", "IntegerList", "4"], Int(4))], clones)
      == Report(st, Some(Failure(0, IndexOutOfBounds("4"))))
    ensures Collect(st, [Add(["SimpleDTO", "IntegerList", "4"], Int(4))], clones)
      == Log(st, [Failure(0, IndexOutOfBounds("4"))])
  {
    Numerals();
    LocateThree(st, "SimpleDTO", "IntegerList", "4");
    FailFastOne(st, Add(["SimpleDTO", "IntegerList", "4"], Int(4)), clones);
    CollectOne(st, Add(["SimpleDTO", "IntegerList", "4"], Int(4)), clones);
  }

  /** AddToListInvalidPositionTooSmall (and _LogsError): position -1 is out of bounds too. */
  lemma AddToListInvalidPositionTooSmall(st: Store, d: SimpleDto, clones: seq<Value>)
    requires Lookup(st, RootSlot(RootSimpleDto)) == Obj(d) && Lookup(st, DtoSlot(d, IntegerList)) == Ints([1, 2, 3])
    requires |clones| == 1
    ensures FailFast(st, [Add(["SimpleDTO", "IntegerList", "-1"], Int(4))], clones)
      == Report(st, Some(Failure(0, IndexOutOfBounds("-1"))))
    ensures Collect(st, [Add(["SimpleDTO", "IntegerList", "-1"], Int(4))], clones)
      == Log(st, [Failure(0, IndexOutOfBounds("-1"))])
  {
    Numerals();
    LocateThree(st, "SimpleDTO", "IntegerList", "-1");
    FailFastOne(st, Add(["SimpleDTO", "IntegerList", "-1"], Int(4)), clones);
    CollectOne(st, Add(["SimpleDTO", "IntegerList", "-1"], Int(4)), clones);
  }

  // ---- remove ----

  /** Remove: removing the StringProperty member leaves it null. */
  lemma RemoveMember(st: Store, d: SimpleDto, clones: seq<Value>)
    requires Lookup(st, RootSlot(RootSimpleDto)) == Obj(d) && Lookup(st, DtoSlot(d, StringProperty)) == Str("A")
    requires |clones| == 1
    ensures FailFast(st, [Remove(["SimpleDTO", "StringProperty"])], clones)
      == Report(st[DtoSlot(d, StringProperty) := Null], None)
  {
    LocateTwo(st, "SimpleDTO", "StringProperty");
    FailFastOne(st, Remove(["SimpleDTO", "StringProperty"]), clones);
  }

  /** RemoveFromList: removing position 2 of [1, 2, 3] leaves [1, 2]. */
  lemma RemoveFromList(st: Store, d: SimpleDto, clones: seq<Value>)
    requires Lookup(st, RootSlot(RootSimpleDto)) == Obj(d) && Lookup(st, DtoSlot(d, IntegerList)) == Ints([1, 2, 3])
    requires |clones| == 1
    ensures FailFast(st, [Remove(["SimpleDTO", "IntegerList", "2"])], clones)
      == Report(st[DtoSlot(d, IntegerList) := Ints([1, 2])], None)
  {
    Numerals();
    LocateThree(st, "SimpleDTO", "IntegerList", "2");
    FailFastOne(st, Remove(["SimpleDTO", "IntegerList", "2"]), clones);
    assert RemoveAt([1, 2, 3], 2) == [1, 2];
  }

  /** RemoveFromListInvalidPositionTooLarge (and _LogsError): 3 is past the last element. */
  lemma RemoveFromListInvalidPositionTooLarge(st: Store, d: SimpleDto, clones: seq<Value>)
    requires Lookup(st, RootSlot(RootSimpleDto)) == Obj(d) && Lookup(st, DtoSlot(d, IntegerList)) == Ints([1, 2, 3])
    requires |clones| == 1
    ensures FailFast(st, [Remove(["SimpleDTO", "IntegerList", "3"])], clones)
      == Report(st, Some(Failure(0, IndexOutOfBounds("3"))))
    ensures Collect(st, [Remove(["SimpleDTO", "IntegerList", "3"])], clones)
      == Log(st, [Failure(0, IndexOutOfBounds("3"))])
  {
    Numerals();
    LocateThree(st, "SimpleDTO", "IntegerList", "3");
    FailFastOne(st, Remove(["SimpleDTO", "IntegerList", "3"]), clones);
    CollectOne(st, Remove(["SimpleDTO", "IntegerList", "3"]), clones);
  }

  /** RemoveFromListInvalidPositionTooSmall (and _LogsError). */
  lemma RemoveFromListInvalidPositionTooSmall(st: Store, d: SimpleDto, clones: seq<Value>)
    requires Lookup(st, RootSlot(RootSimpleDto)) == Obj(d) && Lookup(st, DtoSlot(d, IntegerList)) == Ints([1, 2, 3])
    requires |clones| == 1
    ensures FailFast(st, [Remove(["SimpleDTO", "IntegerList", "-1"])], clones)
      == Report(st, Some(Failure(0, IndexOutOfBounds("-1"))))
    ensures Collect(st, [Remove(["SimpleDTO", "IntegerList", "-1"])], clones)
      == Log(st, [Failure(0, IndexOutOfBounds("-1"))])
  {
    Numerals();
    LocateThree(st, "SimpleDTO", "IntegerList", "-1");
    FailFastOne(st, Remove(["SimpleDTO", "IntegerList", "-1"]), clones);
    CollectOne(st, Remove(["SimpleDTO", "IntegerList", "-1"]), clones);
  }

  /** RemoveFromEndOfList: removing at "-" drops the last element. */
  lemma RemoveFromEndOfList(st: Store, d: SimpleDto, clones: seq<Value>)
    requires Lookup(st, RootSlot(RootSimpleDto)) == Obj(d) && Lookup(st, DtoSlot(d, IntegerList)) == Ints([1, 2, 3])
    requires |clones| == 1
    ensures FailFast(st, [Remove(["SimpleDTO", "IntegerList", "-"])], clones)
      == Report(st[DtoSlot(d, IntegerList) := Ints([1, 2])], None)
  {
    LocateThree(st, "SimpleDTO", "IntegerList", "-");
    FailFastOne(st, Remove(["SimpleDTO", "IntegerList", "-"]), clones);
    assert RemoveAt([1, 2, 3], 2) == [1, 2];
  }

  // ---- replace ----

  /** Replace (its string half): StringProperty "A" becomes "B". */
  lemma ReplaceMember(st: Store, d: SimpleDto, clones: seq<Value>)
    requires Lookup(st, RootSlot(RootSimpleDto)) == Obj(d) && Lookup(st, DtoSlot(d, StringProperty)) == Str("A")
    requires |clones| == 1
    ensures FailFast(st, [Replace(["SimpleDTO", "StringProperty"], Str("B"))], clones)
      == Report(st[DtoSlot(d, StringProperty) := Str("B")], None)
  {
    LocateTwo(st, "SimpleDTO", "StringProperty");
    FailFastOne(st, Replace(["SimpleDTO", "StringProperty"], Str("B")), clones);
  }

  /** ReplaceInList: position 0 of [1, 2, 3] is overwritten with 5. */
  lemma ReplaceInList(st: Store, d: SimpleDto, clones: seq<Value>)
    requires Lookup(st, RootSlot(RootSimpleDto)) == Obj(d) && Lookup(st, DtoSlot(d, IntegerList)) == Ints([1, 2, 3])
    requires |clones| == 1
    ensures FailFast(st, [Replace(["SimpleDTO", "IntegerList", "0"], Int(5))], clones)
      == Report(st[DtoSlot(d, IntegerList) := Ints([5, 2, 3])], None)
  {
    Numerals();
    LocateThree(st, "SimpleDTO", "IntegerList", "0");
    FailFastOne(st, Replace(["SimpleDTO", "IntegerList", "0"], Int(5)), clones);
    assert ReplaceAt([1, 2, 3], 0, 5) == [5, 2, 3];
  }

  /** ReplaceFullList: the whole list member is replaced by [4, 5, 6]. */
  lemma ReplaceFullList(st: Store, d: SimpleDto, clones: seq<Value>)
    requires Lookup(st, RootSlot(RootSimpleDto)) == Obj(d) && Lookup(st, DtoSlot(d, IntegerList)) == Ints([1, 2, 3])
    requires |clones| == 1
    ensures FailFast(st, [Replace(["SimpleDTO", "IntegerList"], Ints([4, 5, 6]))], clones)
      == Report(st[DtoSlot(d, IntegerList) := Ints([4, 5, 6])], None)
  {
    LocateTwo(st, "SimpleDTO", "IntegerList");
    FailFastOne(st, Replace(["SimpleDTO", "IntegerList"], Ints([4, 5, 6])), clones);
  }

  /** ReplaceAtEndOfList: replacing at "-" overwrites the last element. */
  lemma ReplaceAtEndOfList(st: Store, d: SimpleDto, clones: seq<Value>)
    requires Lookup(st, RootSlot(RootSimpleDto)) == Obj(d) && Lookup(st, DtoSlot(d, IntegerList)) == Ints([1, 2, 3])
    requires |clones| == 1
    ensures FailFast(st, [Replace(["SimpleDTO", "IntegerList", "-"], Int(5))], clones)
      == Report(st[DtoSlot(d, IntegerList) := Ints([1, 2, 5])], None)
  {
    LocateThree(st, "SimpleDTO", "IntegerList", "-");
    FailFastOne(st, Replace(["SimpleDTO", "IntegerList", "-"], Int(5)), clones);
    assert ReplaceAt([1, 2, 3], 2, 5) == [1, 2, 5];
  }

  /** ReplaceInListInvalidInvalidPositionTooLarge (and _LogsError): 3 is past the last element. */
  lemma ReplaceInListInvalidPositionTooLarge(st: Store, d: SimpleDto, clones: seq<Value>)
    requires Lookup(st, RootSlot(RootSimpleDto)) == Obj(d) && Lookup(st, DtoSlot(d, IntegerList)) == Ints([1, 2, 3])
    requires |clones| == 1
    ensures FailFast(st, [Replace(["SimpleDTO", "IntegerList", "3"], Int(5))], clones)
      == Report(st, Some(Failure(0, IndexOutOfBounds("3"))))
    ensures Collect(st, [Replace(["SimpleDTO", "IntegerList", "3"], Int(5))], clones)
      == Log(st, [Failure(0, IndexOutOfBounds("3"))])
  {
    Numerals();
    LocateThree(st, "SimpleDTO", "IntegerList", "3");
    FailFastOne(st, Replace(["SimpleDTO", "IntegerList", "3"], Int(5)), clones);
    CollectOne(st, Replace(["SimpleDTO", "IntegerList", "3"], Int(5)), clones);
  }

  /** ReplaceInListInvalidPositionTooSmall (and _LogsError). */
  lemma ReplaceInListInvalidPositionTooSmall(st: Store, d: SimpleDto, clones: seq<Value>)
    requires Lookup(st, RootSlot(RootSimpleDto)) == Obj(d) && Lookup(st, DtoSlot(d, IntegerList)) == Ints([1, 2, 3])
    requires |clones| == 1
    ensures FailFast(st, [Replace(["SimpleDTO", "IntegerList", "-1"], Int(5))], clones)
      == Report(st, Some(Failure(0, IndexOutOfBounds("-1"))))
    ensures Collect(st, [Replace(["SimpleDTO", "IntegerList", "-1"], Int(5))], clones)
      == Log(st, [Failure(0, IndexOutOfBounds("-1"))])
  {
    Numerals();
    LocateThree(st, "SimpleDTO", "IntegerList", "-1");
    FailFastOne(st, Replace(["SimpleDTO", "IntegerList", "-1"], Int(5)), clones);
    CollectOne(st, Replace(["SimpleDTO", "IntegerList", "-1"], Int(5)), clones);
  }



  // ---- copy ----

  /**
   * Copy: the value read at StringProperty is added at AnotherStringProperty; the source
   * keeps its value.  (A string has no objects, so its clone is itself.)
   */
  lemma CopyMember(st: Store, d: SimpleDto, clones: seq<Value>)
    requires Lookup(st, RootSlot(RootSimpleDto)) == Obj(d)
    requires Lookup(st, DtoSlot(d, StringProperty)) == Str("A") && Lookup(st, DtoSlot(d, AnotherStringProperty)) == Str("B")
    requires |clones| == 1 && FreshClones(st, [Copy(["SimpleDTO", "StringProperty"], ["SimpleDTO", "AnotherStringProperty"])], clones)
    ensures FailFast(st, [Copy(["SimpleDTO", "StringProperty"], ["SimpleDTO", "AnotherStringProperty"])], clones)
      == Report(st[DtoSlot(d, AnotherStringProperty) := Str("A")], None)
  {
    var op := Copy(["SimpleDTO", "StringProperty"], ["SimpleDTO", "AnotherStringProperty"]);
    LocateTwo(st, "SimpleDTO", "StringProperty");
    LocateTwo(st, "SimpleDTO", "AnotherStringProperty");
    FreshCloneOne(st, op, clones);
    PlainClone(clones[0], Str("A"));
    assert map[] + st == st;
    FailFastOne(st, op, clones);
  }

  /** CopyInList: element 0 of [1, 2, 3] copied to position 1 gives [1, 1, 2, 3]. */
  lemma CopyInList(st: Store, d: SimpleDto, clones: seq<Value>)
    requires Lookup(st, RootSlot(RootSimpleDto)) == Obj(d) && Lookup(st, DtoSlot(d, IntegerList)) == Ints([1, 2, 3])
    requires |clones| == 1 && FreshClones(st, [Copy(["SimpleDTO", "IntegerList", "0"], ["SimpleDTO", "IntegerList", "1"])], clones)
    ensures FailFast(st, [Copy(["SimpleDTO", "IntegerList", "0"], ["SimpleDTO", "IntegerList", "1"])], clones)
      == Report(st[DtoSlot(d, IntegerList) := Ints([1, 1, 2, 3])], None)
  {
    var op := Copy(["SimpleDTO", "IntegerList", "0"], ["SimpleDTO", "IntegerList", "1"]);
    Numerals();
    LocateThree(st, "SimpleDTO", "IntegerList", "0");
    LocateThree(st, "SimpleDTO", "IntegerList", "1");
    FreshCloneOne(st, op, clones);
    PlainClone(clones[0], Int(1));
    assert map[] + st == st;
    FailFastOne(st, op, clones);
    assert InsertAt([1, 2, 3], 1, 1) == [1, 1, 2, 3];
  }

  /** CopyFromListToEndOfList: element 0 copied to "-" gives [1, 2, 3, 1]. */
  lemma CopyFromListToEndOfList(st: Store, d: SimpleDto, clones: seq<Value>)
    requires Lookup(st, RootSlot(RootSimpleDto)) == Obj(d) && Lookup(st, DtoSlot(d, IntegerList)) == Ints([1, 2, 3])
    requires |clones| == 1 && FreshClones(st, [Copy(["SimpleDTO", "IntegerList", "0"], ["SimpleDTO", "IntegerList", "-"])], clones)
    ensures FailFast(st, [Copy(["SimpleDTO", "IntegerList", "0"], ["SimpleDTO", "IntegerList", "-"])], clones)
      == Report(st[DtoSlot(d, IntegerList) := Ints([1, 2, 3, 1])], None)
  {
    var op := Copy(["SimpleDTO", "IntegerList", "0"], ["SimpleDTO", "IntegerList", "-"]);
    Numerals();
    LocateThree(st, "SimpleDTO", "IntegerList", "0");
    LocateThree(st, "SimpleDTO", "IntegerList", "-");
    FreshCloneOne(st, op, clones);
    PlainClone(clones[0], Int(1));
    assert map[] + st == st;
    FailFastOne(st, op, clones);
    assert InsertAt([1, 2, 3], 3, 1) == [1, 2, 3, 1];
  }

  /** CopyFromListToNonList: element 0 copied to the IntegerValue member sets it to 1. */
  lemma CopyFromListToNonList(st: Store, d: SimpleDto, clones: seq<Value>)
    requires Lookup(st, RootSlot(RootSimpleDto)) == Obj(d) && Lookup(st, DtoSlot(d, IntegerList)) == Ints([1, 2, 3])
    requires |clones| == 1 && FreshClones(st, [Copy(["SimpleDTO", "IntegerList", "0"], ["SimpleDTO", "IntegerValue"])], clones)
    ensures FailFast(st, [Copy(["SimpleDTO", "IntegerList", "0"], ["SimpleDTO", "IntegerValue"])], clones)
      == Report(st[DtoSlot(d, IntegerValue) := Int(1)], None)
  {
    var op := Copy(["SimpleDTO", "IntegerList", "0"], ["SimpleDTO", "IntegerValue"]);
    Numerals();
    LocateThree(st, "SimpleDTO", "IntegerList", "0");
    LocateTwo(st, "SimpleDTO", "IntegerValue");
    FreshCloneOne(st, op, clones);
    PlainClone(clones[0], Int(1));
    assert map[] + st == st;
    FailFastOne(st, op, clones);
  }

  /** CopyFromNonListToList: IntegerValue 5 copied to position 0 gives [5, 1, 2, 3]. */
  lemma CopyFromNonListToList(st: Store, d: SimpleDto, clones: seq<Value>)
    requires Lookup(st, RootSlot(RootSimpleDto)) == Obj(d) && Lookup(st, DtoSlot(d, IntegerList)) == Ints([1, 2, 3])
    requires Lookup(st, DtoSlot(d, IntegerValue)) == Int(5)
    requires |clones| == 1 && FreshClones(st, [Copy(["SimpleDTO", "IntegerValue"], ["SimpleDTO", "IntegerList", "0"])], clones)
    ensures FailFast(st, [Copy(["SimpleDTO", "IntegerValue"], ["SimpleDTO", "IntegerList", "0"])], clones)
      == Report(st[DtoSlot(d, IntegerList) := Ints([5, 1, 2, 3])], None)
  {
    var op := Copy(["SimpleDTO", "IntegerValue"], ["SimpleDTO", "IntegerList", "0"]);
    Numerals();
    LocateTwo(st, "SimpleDTO", "IntegerValue");
    LocateThree(st, "SimpleDTO", "IntegerList", "0");
    FreshCloneOne(st, op, clones);
    PlainClone(clones[0], Int(5));
    assert map[] + st == st;
    FailFastOne(st, op, clones);
    assert InsertAt([1, 2, 3], 0, 5) == [5, 1, 2, 3];
  }

  /** CopyToEndOfList: IntegerValue 5 copied to "-" gives [1, 2, 3, 5]. */
  lemma CopyToEndOfList(st: Store, d: SimpleDto, clones: seq<Value>)
    requires Lookup(st, RootSlot(RootSimpleDto)) == Obj(d) && Lookup(st, DtoSlot(d, IntegerList)) == Ints([1, 2, 3])
    requires Lookup(st, DtoSlot(d, IntegerValue)) == Int(5)
    requires |clones| == 1 && FreshClones(st, [Copy(["SimpleDTO", "IntegerValue"], ["SimpleDTO", "IntegerList", "-"])], clones)
    ensures FailFast(st, [Copy(["SimpleDTO", "IntegerValue"], ["SimpleDTO", "IntegerList", "-"])], clones)
      == Report(st[DtoSlot(d, IntegerList) := Ints([1, 2, 3, 5])], None)
  {
    var op := Copy(["SimpleDTO", "IntegerValue"], ["SimpleDTO", "IntegerList", "-"]);
    LocateTwo(st, "SimpleDTO", "IntegerValue");
    LocateThree(st, "SimpleDTO", "IntegerList", "-");
    FreshCloneOne(st, op, clones);
    PlainClone(clones[0], Int(5));
    assert map[] + st == st;
    FailFastOne(st, op, clones);
    assert InsertAt([1, 2, 3], 3, 5) == [1, 2, 3, 5];
  }

  /**
   * Copying the InheritedDTO member into the SimpleDTO member: the SimpleDTO member now
   * holds the clone, a new instance (not the original) of the original's runtime class,
   * whose members hold the original's values; the original keeps its place and values.
   */
  lemma CopyInheritedToSimple(st: Store, i: SimpleDto, clones: seq<Value>) returns (c: SimpleDto)
    requires Lookup(st, RootSlot(RootInheritedDto)) == Obj(i) && Lookup(st, KindSlot(i)) == Kind(Inherited)
    requires |clones| == 1 && FreshClones(st, [Copy(["InheritedDTO"], ["SimpleDTO"])], clones)
    ensures clones[0] == Obj(c) && c != i
    ensures var r := FailFast(st, [Copy(["InheritedDTO"], ["SimpleDTO"])], clones);
      r.failure.None? &&
      Lookup(r.store, RootSlot(RootSimpleDto)) == Obj(c) && Lookup(r.store, RootSlot(RootInheritedDto)) == Obj(i) &&
      KindIn(r.store, c) == Kind(Inherited) &&
      (forall m :: Lookup(r.store, DtoSlot(c, m)) == Lookup(st, DtoSlot(i, m))) &&
      (forall m :: Lookup(r.store, DtoSlot(i, m)) == Lookup(st, DtoSlot(i, m)))
  {
    var op := Copy(["InheritedDTO"], ["SimpleDTO"]);
    LocateOne(st, "InheritedDTO");
    FreshCloneOne(st, op, clones);
    c := clones[0].dto;
    CopiedToSimple(st, i, c);
    FailFastOne(st, op, clones);
    assert i in StoreObjects(st) by { assert i == KindSlot(i).of; }
    ClonedSlots(st, i, c);
  }

  /** The InheritedDTO object i copied as the clone c lands in the SimpleDTO member. */
  lemma CopiedToSimple(st: Store, i: SimpleDto, c: SimpleDto)
    requires Lookup(st, RootSlot(RootInheritedDto)) == Obj(i)
    ensures Copied(st, ["InheritedDTO"], ["SimpleDTO"], Obj(c)) ==
      Outcome((DtoRecords(st, c, i) + st)[RootSlot(RootSimpleDto) := Obj(c)], None)
  {
    LocateOne(st, "InheritedDTO");
    LocateOne(DtoRecords(st, c, i) + st, "SimpleDTO");
  }

  /** The records of a clone c of i, added under a store that does not describe c, hold i's values. */
  lemma ClonedSlots(st: Store, i: SimpleDto, c: SimpleDto)
    requires c !in StoreObjects(st) && i != c
    ensures var st' := (DtoRecords(st, c, i) + st)[RootSlot(RootSimpleDto) := Obj(c)];
      KindIn(st', c) == KindIn(st, i) &&
      (forall m :: Lookup(st', DtoSlot(c, m)) == Lookup(st, DtoSlot(i, m))) &&
      (forall m :: Lookup(st', DtoSlot(i, m)) == Lookup(st, DtoSlot(i, m))) &&
      Lookup(st', RootSlot(RootInheritedDto)) == Lookup(st, RootSlot(RootInheritedDto))
  {
    var st' := (DtoRecords(st, c, i) + st)[RootSlot(RootSimpleDto) := Obj(c)];
    assert KindSlot(c) !in st;
    forall m ensures Lookup(st', DtoSlot(c, m)) == Lookup(st, DtoSlot(i, m)) {
      assert DtoSlot(c, m) !in st;
      DtoRecordsAt(st, c, i, m);
    }
    forall m ensures Lookup(st', DtoSlot(i, m)) == Lookup(st, DtoSlot(i, m)) {
      DtoRecordsAt(st, c, i, m);
    }
  }

  /**
   * Copy_DeepClonesObject: after copying the InheritedDTO ("C", "D") into the SimpleDTO
   * member, both members read "C" and "D".
   */
  lemma CopyDeepClonesObject(st: Store, s: SimpleDto, i: SimpleDto, clones: seq<Value>)
    requires Lookup(st, RootSlot(RootSimpleDto)) == Obj(s) && Lookup(st, RootSlot(RootInheritedDto)) == Obj(i)
    requires Lookup(st, KindSlot(i)) == Kind(Inherited)
    requires Lookup(st, DtoSlot(i, StringProperty)) == Str("C") && Lookup(st, DtoSlot(i, AnotherStringProperty)) == Str("D")
    requires |clones| == 1 && FreshClones(st, [Copy(["InheritedDTO"], ["SimpleDTO"])], clones)
    ensures var r := FailFast(st, [Copy(["InheritedDTO"], ["SimpleDTO"])], clones);
      r.failure.None? &&
      (var sv := Lookup(r.store, RootSlot(RootSimpleDto));
         sv.Obj? && sv.dto != i &&
         Lookup(r.store, DtoSlot(sv.dto, StringProperty)) == Str("C") &&
         Lookup(r.store, DtoSlot(sv.dto, AnotherStringProperty)) == Str("D")) &&
      Lookup(r.store, RootSlot(RootInheritedDto)) == Obj(i) &&
      Lookup(r.store, DtoSlot(i, StringProperty)) == Str("C") &&
      Lookup(r.store, DtoSlot(i, AnotherStringProperty)) == Str("D")
  {
    var c := CopyInheritedToSimple(st, i, clones);
  }

  /** Copy_KeepsObjectType and Copy_BreaksObjectReference: the copy is an InheritedDTO, and a different instance. */
  lemma CopyKeepsObjectType(st: Store, s: SimpleDto, i: SimpleDto, clones: seq<Value>)
    requires Lookup(st, RootSlot(RootSimpleDto)) == Obj(s) && Lookup(st, RootSlot(RootInheritedDto)) == Obj(i)
    requires Lookup(st, KindSlot(i)) == Kind(Inherited)
    requires |clones| == 1 && FreshClones(st, [Copy(["InheritedDTO"], ["SimpleDTO"])], clones)
    ensures var r := FailFast(st, [Copy(["InheritedDTO"], ["SimpleDTO"])], clones);
      var sv := Lookup(r.store, RootSlot(RootSimpleDto));
      r.failure.None? && sv.Obj? && KindIn(r.store, sv.dto) == Kind(Inherited) &&
      sv != Lookup(r.store, RootSlot(RootInheritedDto))
  {
    var c := CopyInheritedToSimple(st, i, clones);
  }

  // ---- move ----

  /**
   * Why OperationLaws.MoveClearsSource keeps both members in one object: moving a null
   * member of SimpleDTO onto SimpleDTO itself succeeds and nulls SimpleDTO, after which the
   * source path no longer resolves (instead of reading the default).
   */
  lemma MoveOntoOwner(st: Store, d: SimpleDto)
    requires Lookup(st, RootSlot(RootSimpleDto)) == Obj(d) && Lookup(st, DtoSlot(d, StringProperty)) == Null
    ensures var o := Moved(st, ["SimpleDTO", "StringProperty"], ["SimpleDTO"]);
      o == Outcome(st[DtoSlot(d, StringProperty) := Null][RootSlot(RootSimpleDto) := Null], None) &&
      ValueAt(o.store, ["SimpleDTO", "StringProperty"]) == Err(NullTarget("SimpleDTO"))
  {
    LocateTwo(st, "SimpleDTO", "StringProperty");
    var st1 := st[DtoSlot(d, StringProperty) := Null];
    LocateOne(st1, "SimpleDTO");
    var st2 := st1[RootSlot(RootSimpleDto) := Null];
    LocateTwo(st2, "SimpleDTO", "StringProperty");
  }


  /** Move: StringProperty's "A" moves to AnotherStringProperty; StringProperty becomes null. */
  lemma MoveMember(st: Store, d: SimpleDto, clones: seq<Value>)
    requires Lookup(st, RootSlot(RootSimpleDto)) == Obj(d)
    requires Lookup(st, DtoSlot(d, StringProperty)) == Str("A") && Lookup(st, DtoSlot(d, AnotherStringProperty)) == Str("B")
    requires |clones| == 1
    ensures FailFast(st, [Move(["SimpleDTO", "StringProperty"], ["SimpleDTO", "AnotherStringProperty"])], clones)
      == Report(st[DtoSlot(d, StringProperty) := Null][DtoSlot(d, AnotherStringProperty) := Str("A")], None)
  {
    var op := Move(["SimpleDTO", "StringProperty"], ["SimpleDTO", "AnotherStringProperty"]);
    LocateTwo(st, "SimpleDTO", "StringProperty");
    var st1 := st[DtoSlot(d, StringProperty) := Null];
    LocateTwo(st1, "SimpleDTO", "AnotherStringProperty");
    FailFastOne(st, op, clones);
  }

  /**
   * Move_KeepsObjectReference: the InheritedDTO instance itself moves to the SimpleDTO
   * member (its members still read "C" and "D"), and the InheritedDTO member becomes null.
   */
  lemma MoveKeepsObjectReference(st: Store, s: SimpleDto, i: SimpleDto, clones: seq<Value>)
    requires Lookup(st, RootSlot(RootSimpleDto)) == Obj(s) && Lookup(st, RootSlot(RootInheritedDto)) == Obj(i)
    requires Lookup(st, DtoSlot(i, StringProperty)) == Str("C") && Lookup(st, DtoSlot(i, AnotherStringProperty)) == Str("D")
    requires |clones| == 1
    ensures var r := FailFast(st, [Move(["InheritedDTO"], ["SimpleDTO"])], clones);
      r == Report(st[RootSlot(RootInheritedDto) := Null][RootSlot(RootSimpleDto) := Obj(i)], None) &&
      Lookup(r.store, DtoSlot(i, StringProperty)) == Str("C") &&
      Lookup(r.store, DtoSlot(i, AnotherStringProperty)) == Str("D")
  {
    var op := Move(["InheritedDTO"], ["SimpleDTO"]);
    LocateOne(st, "InheritedDTO");
    var st1 := st[RootSlot(RootInheritedDto) := Null];
    LocateOne(st1, "SimpleDTO");
    FailFastOne(st, op, clones);
  }

  /** MoveInList: element 0 of [1, 2, 3] moved to position 1 gives [2, 1, 3]. */
  lemma MoveInList(st: Store, d: SimpleDto, clones: seq<Value>)
    requires Lookup(st, RootSlot(RootSimpleDto)) == Obj(d) && Lookup(st, DtoSlot(d, IntegerList)) == Ints([1, 2, 3])
    requires |clones| == 1
    ensures FailFast(st, [Move(["SimpleDTO", "IntegerList", "0"], ["SimpleDTO", "IntegerList", "1"])], clones)
      == Report(st[DtoSlot(d, IntegerList) := Ints([2, 1, 3])], None)
  {
    var op := Move(["SimpleDTO", "IntegerList", "0"], ["SimpleDTO", "IntegerList", "1"]);
    Numerals();
    LocateThree(st, "SimpleDTO", "IntegerList", "0");
    assert RemoveAt([1, 2, 3], 0) == [2, 3];
    var st1 := st[DtoSlot(d, IntegerList) := Ints([2, 3])];
    LocateThree(st1, "SimpleDTO", "IntegerList", "1");
    assert InsertAt([2, 3], 1, 1) == [2, 1, 3];
    FailFastOne(st, op, clones);
  }

  /**
   * Move_KeepsObjectReferenceInList: in [s1, s2, s3], moving element 0 to position 1 gives
   * [s2, s1, s3], the same instances with their own IntegerValue members.
   */
  lemma MoveKeepsObjectReferenceInList(st: Store, s1: SimpleDto, s2: SimpleDto, s3: SimpleDto, clones: seq<Value>)
    requires Lookup(st, RootSlot(RootSimpleDtoList)) == Objs([s1, s2, s3])
    requires Lookup(st, DtoSlot(s1, IntegerValue)) == Int(1) && Lookup(st, DtoSlot(s2, IntegerValue)) == Int(2)
    requires |clones| == 1
    ensures var r := FailFast(st, [Move(["SimpleDTOList", "0"], ["SimpleDTOList", "1"])], clones);
      r == Report(st[RootSlot(RootSimpleDtoList) := Objs([s2, s1, s3])], None) &&
      Lookup(r.store, DtoSlot(s2, IntegerValue)) == Int(2) && Lookup(r.store, DtoSlot(s1, IntegerValue)) == Int(1)
  {
    var op := Move(["SimpleDTOList", "0"], ["SimpleDTOList", "1"]);
    Numerals();
    LocateTwo(st, "SimpleDTOList", "0");
    assert RemoveAt([s1, s2, s3], 0) == [s2, s3];
    var st1 := st[RootSlot(RootSimpleDtoList) := Objs([s2, s3])];
    LocateTwo(st1, "SimpleDTOList", "1");
    assert InsertAt([s2, s3], 1, s1) == [s2, s1, s3];
    FailFastOne(st, op, clones);
  }

  /** MoveFromListToEndOfList: element 0 moved to "-" gives [2, 3, 1]. */
  lemma MoveFromListToEndOfList(st: Store, d: SimpleDto, clones: seq<Value>)
    requires Lookup(st, RootSlot(RootSimpleDto)) == Obj(d) && Lookup(st, DtoSlot(d, IntegerList)) == Ints([1, 2, 3])
    requires |clones| == 1
    ensures FailFast(st, [Move(["SimpleDTO", "IntegerList", "0"], ["SimpleDTO", "IntegerList", "-"])], clones)
      == Report(st[DtoSlot(d, IntegerList) := Ints([2, 3, 1])], None)
  {
    var op := Move(["SimpleDTO", "IntegerList", "0"], ["SimpleDTO", "IntegerList", "-"]);
    Numerals();
    LocateThree(st, "SimpleDTO", "IntegerList", "0");
    assert RemoveAt([1, 2, 3], 0) == [2, 3];
    var st1 := st[DtoSlot(d, IntegerList) := Ints([2, 3])];
    LocateThree(st1, "SimpleDTO", "IntegerList", "-");
    assert InsertAt([2, 3], 2, 1) == [2, 3, 1];
    FailFastOne(st, op, clones);
  }

  /** MoveFomListToNonList: element 0 moved to IntegerValue leaves [2, 3] and IntegerValue 1. */
  lemma MoveFromListToNonList(st: Store, d: SimpleDto, clones: seq<Value>)
    requires Lookup(st, RootSlot(RootSimpleDto)) == Obj(d) && Lookup(st, DtoSlot(d, IntegerList)) == Ints([1, 2, 3])
    requires |clones| == 1
    ensures FailFast(st, [Move(["SimpleDTO", "IntegerList", "0"], ["SimpleDTO", "IntegerValue"])], clones)
      == Report(st[DtoSlot(d, IntegerList) := Ints([2, 3])][DtoSlot(d, IntegerValue) := Int(1)], None)
  {
    var op := Move(["SimpleDTO", "IntegerList", "0"], ["SimpleDTO", "IntegerValue"]);
    Numerals();
    LocateThree(st, "SimpleDTO", "IntegerList", "0");
    assert RemoveAt([1, 2, 3], 0) == [2, 3];
    var st1 := st[DtoSlot(d, IntegerList) := Ints([2, 3])];
    LocateTwo(st1, "SimpleDTO", "IntegerValue");
    FailFastOne(st, op, clones);
  }

  /** MoveFomListToNonListBetweenHierarchy: element 0 moved to the root's IntegerValue. */
  lemma MoveFromListToNonListBetweenHierarchy(st: Store, d: SimpleDto, clones: seq<Value>)
    requires Lookup(st, RootSlot(RootSimpleDto)) == Obj(d) && Lookup(st, DtoSlot(d, IntegerList)) == Ints([1, 2, 3])
    requires |clones| == 1
    ensures FailFast(st, [Move(["SimpleDTO", "IntegerList", "0"], ["IntegerValue"])], clones)
      == Report(st[DtoSlot(d, IntegerList) := Ints([2, 3])][RootSlot(RootIntegerValue) := Int(1)], None)
  {
    var op := Move(["SimpleDTO", "IntegerList", "0"], ["IntegerValue"]);
    Numerals();
    LocateThree(st, "SimpleDTO", "IntegerList", "0");
    assert RemoveAt([1, 2, 3], 0) == [2, 3];
    var st1 := st[DtoSlot(d, IntegerList) := Ints([2, 3])];
    LocateOne(st1, "IntegerValue");
    FailFastOne(st, op, clones);
  }

  /**
   * MoveFromNonListToList: IntegerValue 5 moved to position 0 gives [5, 1, 2, 3]; the
   * removed int member falls back to 0, and the root's IntegerValue is untouched.
   */
  lemma MoveFromNonListToList(st: Store, d: SimpleDto, clones: seq<Value>)
    requires Lookup(st, RootSlot(RootSimpleDto)) == Obj(d) && Lookup(st, DtoSlot(d, IntegerList)) == Ints([1, 2, 3])
    requires Lookup(st, DtoSlot(d, IntegerValue)) == Int(5)
    requires |clones| == 1
    ensures var r := FailFast(st, [Move(["SimpleDTO", "IntegerValue"], ["SimpleDTO", "IntegerList", "0"])], clones);
      r == Report(st[DtoSlot(d, IntegerValue) := Int(0)][DtoSlot(d, IntegerList) := Ints([5, 1, 2, 3])], None) &&
      Lookup(r.store, RootSlot(RootIntegerValue)) == Lookup(st, RootSlot(RootIntegerValue))
  {
    var op := Move(["SimpleDTO", "IntegerValue"], ["SimpleDTO", "IntegerList", "0"]);
    Numerals();
    LocateTwo(st, "SimpleDTO", "IntegerValue");
    var st1 := st[DtoSlot(d, IntegerValue) := Int(0)];
    LocateThree(st1, "SimpleDTO", "IntegerList", "0");
    assert InsertAt([1, 2, 3], 0, 5) == [5, 1, 2, 3];
    FailFastOne(st, op, clones);
  }

  /** MoveToEndOfList: IntegerValue 5 moved to "-" gives [1, 2, 3, 5] and IntegerValue 0. */
  lemma MoveToEndOfList(st: Store, d: SimpleDto, clones: seq<Value>)
    requires Lookup(st, RootSlot(RootSimpleDto)) == Obj(d) && Lookup(st, DtoSlot(d, IntegerList)) == Ints([1, 2, 3])
    requires Lookup(st, DtoSlot(d, IntegerValue)) == Int(5)
    requires |clones| == 1
    ensures FailFast(st, [Move(["SimpleDTO", "IntegerValue"], ["SimpleDTO", "IntegerList", "-"])], clones)
      == Report(st[DtoSlot(d, IntegerValue) := Int(0)][DtoSlot(d, IntegerList) := Ints([1, 2, 3, 5])], None)
  {
    var op := Move(["SimpleDTO", "IntegerValue"], ["SimpleDTO", "IntegerList", "-"]);
    LocateTwo(st, "SimpleDTO", "IntegerValue");
    var st1 := st[DtoSlot(d, IntegerValue) := Int(0)];
    LocateThree(st1, "SimpleDTO", "IntegerList", "-");
    assert InsertAt([1, 2, 3], 3, 5) == [1, 2, 3, 5];
    FailFastOne(st, op, clones);
  }
}
