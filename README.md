# JSON Patch apply engine — nested-object behaviour

This project is a verified Dafny reference model of the ASP.NET Core JSON Patch engine. It
applies a patch document (a sequence of RFC 6902 `add`, `remove`, `replace`, `move` and `copy`
operations, section 4 of RFC 6902) to a typed object graph. The graph is a
`SimpleDTOWithNestedDTO` root with nested `SimpleDTO`, `InheritedDTO` and `NestedDTO` objects,
integer lists and lists of objects. The behaviour modelled is the one pinned down by the
`NestedObjectTests` facts:

- list bounds: `add` takes an index in `0..len`, while `remove` and `replace` take one in
  `0..len-1`. Leaving out the index (`-`) means the end of the list.
- any other numeral, `-1` included, fails with `The index value provided by path segment '<seg>'
  is out of bounds of the array size.`
- `add` on an existing member replaces it.
- `remove` on a member resets it to its default: `null`, or `0` for an int.
- `move` is read, remove, then add, and keeps object identity.
- `copy` adds a fresh deep clone that keeps the runtime class of its source.
- two error modes:
  - `ApplyTo(doc)` throws on the first error.
  - `ApplyTo(doc, logger)` passes each error message to the logger and goes on.

Layout:

- `errors.dfy` (`Errors`): errors, `Result`, and the out-of-bounds message template.
- `pointer.dfy` (`Pointer`): path segments and index numerals.
- `list_adapter.dfy` (`ListAdapter`): index checks for add and for existing elements, and
  insert, remove and overwrite on lists.
- `values.dfy` (`Values`):
  - the classes `SimpleDto` (whose `kind` tells `SimpleDTO` from `InheritedDTO`) and `NestedDto`;
  - the value datatype;
  - the abstract `Store`, a map from member slots to values, with its typing and closure
    invariants.
- `resolver.dfy` (`Resolver`): path resolution, as a walk over the store.
- `operations.dfy` (`Operations`): the pure semantics of each operation (`Added`, `Removed`,
  `Replaced`, `Moved`, `Copied`, `Applied`) and of a whole patch in each mode (`FailFast`,
  `Collect`).
- `operation_laws.dfy` (`OperationLaws`): the laws relating these semantics.
- `documents.dfy` (`Documents`): the imperative model.
  - the class `Root`, with its mutable fields;
  - the class `Document`, whose methods update the object graph in place. A ghost `store`
    mirrors the graph, and each method is proved against the pure semantics.
- `scenarios.dfy` (`Scenarios`): each test's patch replayed on the pure semantics, from the
  state the test sets up.

Two assertions in the test file look like slips. `MoveFromNonListToList` and `MoveToEndOfList`
move `SimpleDTO.IntegerValue` into the list, but their value assertions (lines 2187 and 2240)
check the root's `IntegerValue`, which neither patch touches. `Scenarios.MoveFromNonListToList`
proves both facts: the moved member becomes `0`, and the root's `IntegerValue` is unchanged.
`Scenarios.MoveToEndOfList` gives the whole new store: only the moved member (now `0`) and the
list change, so the root's `IntegerValue` keeps its value.

## Model

| member | source | states |
|---|---|---|
| Errors.Message | test/Microsoft.AspNetCore.JsonPatch.Test/NestedObjectTests.cs:389 | the out-of-bounds message is exactly `The index value provided by path segment '`, then the offending segment verbatim, then `' is out of bounds of the array size.` |
| Errors.OutOfBoundsMessageNamesSegment | test/Microsoft.AspNetCore.JsonPatch.Test/NestedObjectTests.cs:389-390 | two out-of-bounds messages are equal only when they name the same segment, so the message identifies the segment |
| Pointer.ParseIndex | test/Microsoft.AspNetCore.JsonPatch.Test/NestedObjectTests.cs:466-470 | a negative index is read only from text starting with a minus sign; `-` and the empty segment are not numerals |
| Pointer.IndexTextRoundTrip | test/Microsoft.AspNetCore.JsonPatch.Test/NestedObjectTests.cs:155-175 | the decimal text of any integer index parses back to that index |
| Pointer.IndexTextIsNotEndOfList | test/Microsoft.AspNetCore.JsonPatch.Test/NestedObjectTests.cs:532-552 | no numeral is the end-of-list segment `-` |
| Pointer.DigitsValueOfNatText | test/Microsoft.AspNetCore.JsonPatch.Test/NestedObjectTests.cs:155-175 | reading back the digits of a natural number gives the number |
| ListAdapter.AddPosition | test/Microsoft.AspNetCore.JsonPatch.Test/NestedObjectTests.cs:371-392 | add succeeds exactly for `-` (position len) or a numeral in 0..len; any other numeral is out of bounds with that segment, and a non-numeral is an invalid index |
| ListAdapter.ExistingPosition | test/Microsoft.AspNetCore.JsonPatch.Test/NestedObjectTests.cs:679-699 | remove and replace succeed exactly for a numeral in 0..len-1 or `-` on a non-empty list (the last element); other numerals are out of bounds |
| ListAdapter.InsertAt | test/Microsoft.AspNetCore.JsonPatch.Test/NestedObjectTests.cs:155-175 | insertion puts the value at p, keeps the elements before p, and shifts the rest up by one |
| ListAdapter.RemoveAt | test/Microsoft.AspNetCore.JsonPatch.Test/NestedObjectTests.cs:630-650 | deletion keeps the elements before p and shifts the rest down by one |
| ListAdapter.ReplaceAt | test/Microsoft.AspNetCore.JsonPatch.Test/NestedObjectTests.cs:1002-1022 | an overwrite keeps the length, sets position p and leaves every other element as it was |
| ListAdapter.RemoveUndoesInsert | test/Microsoft.AspNetCore.JsonPatch.Test/NestedObjectTests.cs:155-175 | removing at the position just inserted at gives back the original list |
| ListAdapter.InsertUndoesRemove | test/Microsoft.AspNetCore.JsonPatch.Test/NestedObjectTests.cs:1902-1922 | inserting the removed element at its old position gives back the original list |
| ListAdapter.InsertAddsOneElement | test/Microsoft.AspNetCore.JsonPatch.Test/NestedObjectTests.cs:155-175 | insertion adds exactly one occurrence of the value, as a multiset |
| ListAdapter.RemoveDropsOneElement | test/Microsoft.AspNetCore.JsonPatch.Test/NestedObjectTests.cs:630-650 | deletion drops exactly one occurrence of the removed element, as a multiset |
| ListAdapter.ReadAfterAdd | test/Microsoft.AspNetCore.JsonPatch.Test/NestedObjectTests.cs:532-552 | after an add at a valid position (append included) the element at that position is the added value |
| ListAdapter.ReadAfterReplace | test/Microsoft.AspNetCore.JsonPatch.Test/NestedObjectTests.cs:1198-1218 | after a replace at a valid position (the last one for `-`) that element is the new value |
| ListAdapter.ExistingIsAddable | test/Microsoft.AspNetCore.JsonPatch.Test/NestedObjectTests.cs:1902-1922 | a position valid for remove is valid for add |
| Resolver.MemberNamesFound | test/Microsoft.AspNetCore.JsonPatch.Test/NestedObjectTests.cs:15-32 | every root and every DTO member is found under its own name |
| Resolver.MemberSlot | test/Microsoft.AspNetCore.JsonPatch.Test/NestedObjectTests.cs:15-32 | a path segment names a member slot of the object it is read on |
| Resolver.WalkFailurePersists | test/Microsoft.AspNetCore.JsonPatch.Test/NestedObjectTests.cs:371-392 | once a prefix of a path fails to resolve, every longer prefix fails with the same error |
| Resolver.EarlyFailureLocates | test/Microsoft.AspNetCore.JsonPatch.Test/NestedObjectTests.cs:371-392 | a path whose prefix fails to resolve is reported with that prefix's error |
| Resolver.WalkLocates | test/Microsoft.AspNetCore.JsonPatch.Test/NestedObjectTests.cs:308-335 | a path is located by walking all but its last segment and then resolving the last one in that container |
| Resolver.LocateIn | test/Microsoft.AspNetCore.JsonPatch.Test/NestedObjectTests.cs:308-335 | a located target is an existing slot of the document, and an element target lies in a list |
| Resolver.WalkStaysIn | test/Microsoft.AspNetCore.JsonPatch.Test/NestedObjectTests.cs:308-335 | every container reached by a walk exists in the document |
| Resolver.WalkStable | test/Microsoft.AspNetCore.JsonPatch.Test/NestedObjectTests.cs:1902-1922 | writing only below the level a walk reaches does not change where the walk goes |
| Resolver.LocateStable | test/Microsoft.AspNetCore.JsonPatch.Test/NestedObjectTests.cs:1902-1922 | writing at a located target leaves that path's location unchanged |
| Resolver.Walk | test/Microsoft.AspNetCore.JsonPatch.Test/NestedObjectTests.cs:253-276 | walking a path prefix stops at the first failing segment: a successful walk's shorter prefix also succeeds (laws: WalkFailurePersists, WalkStable) |
| Resolver.Locate | test/Microsoft.AspNetCore.JsonPatch.Test/NestedObjectTests.cs:308-335 | an empty path is refused; otherwise the target is named by the last segment, inside the container the other segments lead to (laws: WalkLocates, LocateIn, LocateStable) |
| Operations.Added | test/Microsoft.AspNetCore.JsonPatch.Test/NestedObjectTests.cs:155-175 | add fails with the resolution error when the path does not resolve; on success only the located slot changes (laws: AddThenRead, AddOnMemberIsReplace) |
| Operations.Replaced | test/Microsoft.AspNetCore.JsonPatch.Test/NestedObjectTests.cs:1002-1022 | replace fails with the resolution error when the path does not resolve; on success only the located slot changes (law: ReplaceThenRead) |
| Operations.Removed | test/Microsoft.AspNetCore.JsonPatch.Test/NestedObjectTests.cs:630-650 | remove fails with the resolution error when the path does not resolve; on success only the located slot changes (laws: RemovableIffReadable, RemoveMemberLeavesDefault) |
| Operations.Moved | test/Microsoft.AspNetCore.JsonPatch.Test/NestedObjectTests.cs:1778-1800 | an unreadable source fails the move and leaves the document; a successful move read and removed the source (laws: MoveIsRemoveThenAdd, MoveKeepsValue, MoveClearsSource) |
| Operations.Copied | test/Microsoft.AspNetCore.JsonPatch.Test/NestedObjectTests.cs:1404-1425 | an unreadable source fails the copy and leaves the document; a successful copy read the source (laws: CopyClonesObject, CopyAddsValue, CopyKeepsSource) |
| Operations.Applied | test/Microsoft.AspNetCore.JsonPatch.Test/NestedObjectTests.cs:15-32 | a failing add, remove or replace leaves the document as it was; so does a move or copy whose source cannot be read (Moved, Copied); Document.ApplyOperation is proved equal to it |
| Operations.FailFast | test/Microsoft.AspNetCore.JsonPatch.Test/NestedObjectTests.cs:387 | throwing mode: operations run in order and the first failure ends the patch; defined here, laws in OperationLaws: FailFastStopsAtFailure, FailFastIgnoresRest |
| Operations.Collect | test/Microsoft.AspNetCore.JsonPatch.Test/NestedObjectTests.cs:439-447 | logging mode: operations run in order and each failure is logged; defined here, laws in OperationLaws: FirstLoggedIsFailFastFailure, EmptyLogMeansFailFastSuccess, LogIndexesIncrease |
| Resolver.MembersWalkStable | test/Microsoft.AspNetCore.JsonPatch.Test/NestedObjectTests.cs:1778-1800 | a walk ending at an object's members is kept by any store that agrees on the root members |
| OperationLaws.MoveClearsSource | test/Microsoft.AspNetCore.JsonPatch.Test/NestedObjectTests.cs:1778-1800 | a successful move between two members of one object leaves the source at its default (null, or 0 for an int) |
| OperationLaws.CopyKeepsSource | test/Microsoft.AspNetCore.JsonPatch.Test/NestedObjectTests.cs:1404-1425 | a successful copy between two members of one object leaves the source value as it was |
| OperationLaws.AddOnMemberIsReplace | test/Microsoft.AspNetCore.JsonPatch.Test/NestedObjectTests.cs:106-126 | on an existing member, add has exactly the effect of replace |
| OperationLaws.AddThenRead | test/Microsoft.AspNetCore.JsonPatch.Test/NestedObjectTests.cs:155-175 | after a successful add, reading the same path gives the added value |
| OperationLaws.ReplaceThenRead | test/Microsoft.AspNetCore.JsonPatch.Test/NestedObjectTests.cs:1002-1022 | after a successful replace, reading the same path gives the new value |
| OperationLaws.RemovableIffReadable | test/Microsoft.AspNetCore.JsonPatch.Test/NestedObjectTests.cs:679-699 | remove succeeds exactly where a read succeeds, and otherwise fails with the read's error |
| OperationLaws.RemoveMemberLeavesDefault | test/Microsoft.AspNetCore.JsonPatch.Test/NestedObjectTests.cs:581-601 | removing a member always succeeds and leaves the member's default (null, or 0 for an int) |
| OperationLaws.AddValueUndoesRemoveValue | test/Microsoft.AspNetCore.JsonPatch.Test/NestedObjectTests.cs:1778-1800 | at the value level, adding back the value read undoes a remove |
| OperationLaws.RemoveThenAddRestores | test/Microsoft.AspNetCore.JsonPatch.Test/NestedObjectTests.cs:1902-1922 | removing a readable value and adding it back at the same path restores the whole document |
| OperationLaws.MoveKeepsValue | test/Microsoft.AspNetCore.JsonPatch.Test/NestedObjectTests.cs:1831-1862 | after a successful move the target holds the very value (for an object, the same instance) read at the source |
| OperationLaws.MoveIsRemoveThenAdd | test/Microsoft.AspNetCore.JsonPatch.Test/NestedObjectTests.cs:1902-1922 | move is a remove at the source followed by an add of the removed value at the target, in the intermediate state |
| OperationLaws.CopyClonesObject | test/Microsoft.AspNetCore.JsonPatch.Test/NestedObjectTests.cs:1703-1775 | copying an object puts a clone at the target; the clone is another instance, has the source's runtime class and equal members |
| OperationLaws.CopyAddsValue | test/Microsoft.AspNetCore.JsonPatch.Test/NestedObjectTests.cs:1455-1475 | copying a plain value puts that value at the target |
| OperationLaws.WriteKeepsInvariants | test/Microsoft.AspNetCore.JsonPatch.Test/NestedObjectTests.cs:15-32 | a well-typed write keeps the document well typed and closed |
| OperationLaws.SingleStepsKeepInvariants | test/Microsoft.AspNetCore.JsonPatch.Test/NestedObjectTests.cs:15-32 | successful add, replace and remove keep the document well typed and closed |
| OperationLaws.FailFastIgnoresRest | test/Microsoft.AspNetCore.JsonPatch.Test/NestedObjectTests.cs:387 | in throwing mode, once a prefix of the patch fails, the operations after it have no effect |
| OperationLaws.FailFastStopsAtFailure | test/Microsoft.AspNetCore.JsonPatch.Test/NestedObjectTests.cs:387 | the reported failure is the first operation that fails, and the document is left as the operations before it made it |
| OperationLaws.FailFastSuccessMeansEmptyLog | test/Microsoft.AspNetCore.JsonPatch.Test/NestedObjectTests.cs:424-449 | a patch that does not throw logs nothing in logging mode and ends in the same document |
| OperationLaws.EmptyLogMeansFailFastSuccess | test/Microsoft.AspNetCore.JsonPatch.Test/NestedObjectTests.cs:424-449 | a patch that logs nothing does not throw and ends in the same document |
| OperationLaws.FirstLoggedIsFailFastFailure | test/Microsoft.AspNetCore.JsonPatch.Test/NestedObjectTests.cs:439-447 | the first logged error is exactly the error throwing mode reports |
| OperationLaws.LogIndexesIncrease | test/Microsoft.AspNetCore.JsonPatch.Test/NestedObjectTests.cs:439-447 | logged errors name distinct operations of the patch, in patch order |
| Documents.CloneValue | test/Microsoft.AspNetCore.JsonPatch.Test/NestedObjectTests.cs:1703-1733 | the deep copy is made of fresh objects that mirror the source, member by member and kind by kind |
| Documents.Root.SetRootValue | test/Microsoft.AspNetCore.JsonPatch.Test/NestedObjectTests.cs:1778-1800 | assigning a root member changes that member and no other |
| Documents.Document.Resolve | test/Microsoft.AspNetCore.JsonPatch.Test/NestedObjectTests.cs:308-335 | the loop over the path's segments finds the location the pure resolver gives |
| Documents.Document.GetValue | test/Microsoft.AspNetCore.JsonPatch.Test/NestedObjectTests.cs:1902-1922 | reading a path on the object graph gives the pure read's result |
| Documents.Document.Add | test/Microsoft.AspNetCore.JsonPatch.Test/NestedObjectTests.cs:155-175 | add updates the graph in place exactly as the pure add semantics says, or reports its error and changes nothing |
| Documents.Document.Replace | test/Microsoft.AspNetCore.JsonPatch.Test/NestedObjectTests.cs:1002-1022 | replace updates the graph exactly as the pure replace semantics says, or fails leaving it unchanged |
| Documents.Document.Remove | test/Microsoft.AspNetCore.JsonPatch.Test/NestedObjectTests.cs:630-650 | remove updates the graph exactly as the pure remove semantics says, or fails leaving it unchanged |
| Documents.Document.Move | test/Microsoft.AspNetCore.JsonPatch.Test/NestedObjectTests.cs:1778-1800 | move updates the graph as read, remove, add in the pure semantics, adding no objects |
| Documents.Document.Copy | test/Microsoft.AspNetCore.JsonPatch.Test/NestedObjectTests.cs:1404-1425 | copy allocates a fresh clone of the source value and adds it as the pure copy semantics says |
| Documents.Document.ApplyOperation | test/Microsoft.AspNetCore.JsonPatch.Test/NestedObjectTests.cs:15-32 | one operation updates the graph as the pure semantics of that operation says |
| Documents.Document.RunFailFast | test/Microsoft.AspNetCore.JsonPatch.Test/NestedObjectTests.cs:387 | the loop applies operations in order up to the first failure, with the pure fail-fast outcome |
| Documents.Document.RunCollect | test/Microsoft.AspNetCore.JsonPatch.Test/NestedObjectTests.cs:439-447 | the loop applies every operation, logging each failure, with the pure logging outcome |
| Documents.Document.ApplyTo | test/Microsoft.AspNetCore.JsonPatch.Test/NestedObjectTests.cs:387 | `ApplyTo(doc)`: the document ends as the fail-fast semantics says and the first error is reported; every copy used a fresh clone |
| Documents.Document.ApplyToWithLogger | test/Microsoft.AspNetCore.JsonPatch.Test/NestedObjectTests.cs:439-447 | `ApplyTo(doc, logger)`: the document ends as the logging semantics says, with every failure logged in order |
| Scenarios.ReplacePropertyInNestedObject | test/Microsoft.AspNetCore.JsonPatch.Test/NestedObjectTests.cs:15-32 | replacing `/NestedDTO/StringProperty` sets it to "B" and changes nothing else |
| Scenarios.ReplaceNestedObject | test/Microsoft.AspNetCore.JsonPatch.Test/NestedObjectTests.cs:59-78 | replacing `/NestedDTO` installs the given object, whose StringProperty reads "B" |
| Scenarios.AddResultsInReplace | test/Microsoft.AspNetCore.JsonPatch.Test/NestedObjectTests.cs:106-126 | add on `/SimpleDTO/StringProperty` sets "B", the same outcome as replace |
| Scenarios.AddToComplextTypeListSpecifyIndex | test/Microsoft.AspNetCore.JsonPatch.Test/NestedObjectTests.cs:308-335 | add through a list index into an element's member replaces that member |
| Scenarios.AddToList | test/Microsoft.AspNetCore.JsonPatch.Test/NestedObjectTests.cs:155-175 | add 4 at index 0 of `[1,2,3]` gives `[4,1,2,3]` |
| Scenarios.AddToIntegerIList | test/Microsoft.AspNetCore.JsonPatch.Test/NestedObjectTests.cs:204-224 | add 4 at index 0 of the IList member gives `[4,1,2,3]` |
| Scenarios.AddToNestedIntegerIList | test/Microsoft.AspNetCore.JsonPatch.Test/NestedObjectTests.cs:253-276 | add 4 at index 0 of a list inside a list element gives `[4,1,2,3]` |
| Scenarios.AddToListAppend | test/Microsoft.AspNetCore.JsonPatch.Test/NestedObjectTests.cs:532-552 | add 4 at `-` of `[1,2,3]` gives `[1,2,3,4]` |
| Scenarios.AddToListInvalidPositionTooLarge | test/Microsoft.AspNetCore.JsonPatch.Test/NestedObjectTests.cs:371-449 | add at 4 on a 3-element list fails with out-of-bounds "4" in both modes, leaving the document unchanged |
| Scenarios.AddToListInvalidPositionTooSmall | test/Microsoft.AspNetCore.JsonPatch.Test/NestedObjectTests.cs:452-529 | add at -1 fails with out-of-bounds "-1" in both modes, leaving the document unchanged |
| Scenarios.RemoveMember | test/Microsoft.AspNetCore.JsonPatch.Test/NestedObjectTests.cs:581-601 | removing `/SimpleDTO/StringProperty` sets it to null |
| Scenarios.RemoveFromList | test/Microsoft.AspNetCore.JsonPatch.Test/NestedObjectTests.cs:630-650 | removing index 2 of `[1,2,3]` gives `[1,2]` |
| Scenarios.RemoveFromListInvalidPositionTooLarge | test/Microsoft.AspNetCore.JsonPatch.Test/NestedObjectTests.cs:679-754 | remove at 3 fails with out-of-bounds "3" in both modes |
| Scenarios.RemoveFromListInvalidPositionTooSmall | test/Microsoft.AspNetCore.JsonPatch.Test/NestedObjectTests.cs:757-833 | remove at -1 fails with out-of-bounds "-1" in both modes |
| Scenarios.RemoveFromEndOfList | test/Microsoft.AspNetCore.JsonPatch.Test/NestedObjectTests.cs:836-856 | remove at `-` of `[1,2,3]` gives `[1,2]` |
| Scenarios.ReplaceMember | test/Microsoft.AspNetCore.JsonPatch.Test/NestedObjectTests.cs:885-908 | replacing the string member sets it to "B" |
| Scenarios.ReplaceInList | test/Microsoft.AspNetCore.JsonPatch.Test/NestedObjectTests.cs:1002-1022 | replacing index 0 of `[1,2,3]` with 5 gives `[5,2,3]` |
| Scenarios.ReplaceFullList | test/Microsoft.AspNetCore.JsonPatch.Test/NestedObjectTests.cs:1051-1071 | replacing the whole list with `[4,5,6]` gives `[4,5,6]` |
| Scenarios.ReplaceAtEndOfList | test/Microsoft.AspNetCore.JsonPatch.Test/NestedObjectTests.cs:1198-1218 | replacing at `-` of `[1,2,3]` with 5 gives `[1,2,5]` |
| Scenarios.ReplaceInListInvalidPositionTooLarge | test/Microsoft.AspNetCore.JsonPatch.Test/NestedObjectTests.cs:1247-1324 | replace at 3 fails with out-of-bounds "3" in both modes |
| Scenarios.ReplaceInListInvalidPositionTooSmall | test/Microsoft.AspNetCore.JsonPatch.Test/NestedObjectTests.cs:1327-1401 | replace at -1 fails with out-of-bounds "-1" in both modes |
| Scenarios.CopyMember | test/Microsoft.AspNetCore.JsonPatch.Test/NestedObjectTests.cs:1404-1425 | copying one string member to another gives both the value "A" |
| Scenarios.CopyInList | test/Microsoft.AspNetCore.JsonPatch.Test/NestedObjectTests.cs:1455-1475 | copy 0 to 1 in `[1,2,3]` gives `[1,1,2,3]` |
| Scenarios.CopyFromListToEndOfList | test/Microsoft.AspNetCore.JsonPatch.Test/NestedObjectTests.cs:1504-1524 | copy 0 to `-` in `[1,2,3]` gives `[1,2,3,1]` |
| Scenarios.CopyFromListToNonList | test/Microsoft.AspNetCore.JsonPatch.Test/NestedObjectTests.cs:1553-1573 | copying element 0 to the int member sets it to 1 and keeps the list |
| Scenarios.CopyFromNonListToList | test/Microsoft.AspNetCore.JsonPatch.Test/NestedObjectTests.cs:1602-1623 | copying the int member 5 to index 0 gives `[5,1,2,3]` |
| Scenarios.CopyToEndOfList | test/Microsoft.AspNetCore.JsonPatch.Test/NestedObjectTests.cs:1652-1673 | copying the int member 5 to `-` gives `[1,2,3,5]` |
| Scenarios.CopyDeepClonesObject | test/Microsoft.AspNetCore.JsonPatch.Test/NestedObjectTests.cs:1703-1733 | copying `/InheritedDTO` ("C", "D") to `/SimpleDTO` installs another instance whose members are "C" and "D", and the source keeps "C" and "D" |
| Scenarios.CopyKeepsObjectType | test/Microsoft.AspNetCore.JsonPatch.Test/NestedObjectTests.cs:1736-1775 | copying `/InheritedDTO` to `/SimpleDTO` leaves at `/SimpleDTO` an object of class InheritedDTO that is not the `/InheritedDTO` instance |
| Scenarios.CopyInheritedToSimple | test/Microsoft.AspNetCore.JsonPatch.Test/NestedObjectTests.cs:1736-1775 | copying `/InheritedDTO` to `/SimpleDTO` installs a new instance, not the source one, of class InheritedDTO, whose members equal the source's; the source is untouched |
| Scenarios.MoveOntoOwner | test/Microsoft.AspNetCore.JsonPatch.Test/NestedObjectTests.cs:1778-1800 | moving a null member of SimpleDTO onto `/SimpleDTO` succeeds and nulls SimpleDTO, after which the source path fails with a null-target error; the source is cleared only when the target is not on the source's route |
| Scenarios.MoveMember | test/Microsoft.AspNetCore.JsonPatch.Test/NestedObjectTests.cs:1778-1800 | moving a string member sets the target to "A" and the source to null |
| Scenarios.MoveKeepsObjectReference | test/Microsoft.AspNetCore.JsonPatch.Test/NestedObjectTests.cs:1831-1862 | moving `/InheritedDTO` to `/SimpleDTO` puts the same instance there and nulls the source |
| Scenarios.MoveInList | test/Microsoft.AspNetCore.JsonPatch.Test/NestedObjectTests.cs:1902-1922 | move 0 to 1 in `[1,2,3]` gives `[2,1,3]` |
| Scenarios.MoveKeepsObjectReferenceInList | test/Microsoft.AspNetCore.JsonPatch.Test/NestedObjectTests.cs:1951-1979 | move 0 to 1 in `[s1,s2,s3]` gives `[s2,s1,s3]` with the same instances |
| Scenarios.MoveFromListToEndOfList | test/Microsoft.AspNetCore.JsonPatch.Test/NestedObjectTests.cs:2016-2036 | move 0 to `-` in `[1,2,3]` gives `[2,3,1]` |
| Scenarios.MoveFromListToNonList | test/Microsoft.AspNetCore.JsonPatch.Test/NestedObjectTests.cs:2065-2086 | moving element 0 to the int member sets it to 1 and leaves `[2,3]` |
| Scenarios.MoveFromListToNonListBetweenHierarchy | test/Microsoft.AspNetCore.JsonPatch.Test/NestedObjectTests.cs:2116-2137 | moving an element of one object's list to another object's int member sets it to 1 and leaves `[2,3]` |
| Scenarios.MoveFromNonListToList | test/Microsoft.AspNetCore.JsonPatch.Test/NestedObjectTests.cs:2167-2189 | moving the int member 5 to index 0 gives `[5,1,2,3]`, resets the member to 0 and leaves the root's member unchanged |
| Scenarios.MoveToEndOfList | test/Microsoft.AspNetCore.JsonPatch.Test/NestedObjectTests.cs:2220-2242 | moving the int member 5 to `-` gives `[1,2,3,5]` and resets the member to 0 |

## Left out

- The `...WithSerialization` variants are left out. They round-trip the patch document through
  Newtonsoft JSON before applying it and assert the same outcomes; the wire format belongs to a
  foreign library.
- The lambda-expression path builder (`patchDoc.Add<int>(o => o.SimpleDTO.IntegerList, 4, 0)`)
  is left out. Paths are modelled directly as sequences of segments.
- Numeric coercion into decimal, double and float members (lines 963-999, and the
  `DecimalValue` half of `Replace` at lines 885-908) is left out because it is floating-point
  .NET conversion.
- `Replace_DTOWithNullCheck` (lines 911-931) is left out: it uses a class outside this model.
- Coercion of an `IEnumerable<int>` or `Collection<int>` payload into a `List<int>` member
  (lines 1100-1169) is modelled only as whole-list replacement, as in `ReplaceFullList`.
- Reflection and dynamic dispatch are left out. The runtime class of a `SimpleDTO` object is a
  `kind` tag.
- Member names are matched exactly. The engine's case-insensitive member lookup is not
  exercised by these tests.
- The `test` operation and any rollback of a failed patch are left out, because no test here
  asserts them. A `move` whose add fails keeps its removal.
- The `Assert.NotSame` on string members at line 1732 is left out: .NET string identity is not
  modelled, and strings are values.
- `Scenarios`: `-` as the target of remove or replace is modelled as the last element, and on an
  empty list it is out of bounds. The tests fix the first of these and not the second.
- `Errors.Message`: the out-of-bounds text is stated as its three parts (the fixed prefix, the
  segment, the fixed suffix) rather than as one equation between literal strings. Only that
  text is fixed by the tests. The texts of the other errors (invalid index, member not found,
  null target, not a container, type mismatch, empty path) are this model's own wording.
- `Pointer.ParseIndex`: the numeral grammar is the model's choice: an optional `-` followed by
  decimal digits, with no `+`, no whitespace and no bound on the magnitude. So `2147483648` is
  reported as out of bounds, not as an invalid 32-bit index.
- `Values`: `IntegerValue` and the elements of integer lists are unbounded integers. C#'s
  32-bit `int` and its overflow are not modelled, because no test reaches them.
- `Scenarios`: the tests are replayed on the pure semantics (the store), not on a concrete heap.
  `Documents.Document.ApplyTo` and `ApplyToWithLogger` connect the heap to those semantics.
- The exception type (`JsonPatchException`) and the logger delegate are the two result forms of
  the two modes. The structure of the exception object is not modelled.
