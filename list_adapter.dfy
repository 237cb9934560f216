// List targets: how a path segment selects a position in a list, and the
// insert / remove / replace / read operations at that position.

module ListAdapter {
  import opened Errors
  import opened Pointer

  /**
   * Position for an add: "-" appends, a numeral must lie in 0..len (inclusive).
   * Any other numeral, negative ones included, is out of bounds.
   */
  function AddPosition(seg: string, len: nat): (r: Result<nat>)
    ensures r.Ok? <==>
      seg == EndOfList || (ParseIndex(seg).Some? && 0 <= ParseIndex(seg).value <= len)
    ensures r.Ok? ==> r.value <= len
    ensures r.Ok? && seg == EndOfList ==> r.value == len
    ensures r.Ok? && seg != EndOfList ==> r.value == ParseIndex(seg).value
    ensures r.Err? ==>
      r.error == (if ParseIndex(seg).Some? then IndexOutOfBounds(seg) else InvalidIndex(seg))
  {
    if seg == EndOfList then Ok(len)
    else match ParseIndex(seg)
      case None => Err(InvalidIndex(seg))
      case Some(i) => if 0 <= i <= len then Ok(i) else Err(IndexOutOfBounds(seg))
  }

  /**
   * Position of an existing element, for read, remove and replace: "-" names the last
   * element, a numeral must lie in 0..len-1.  On an empty list every position is out
   * of bounds.
   */
  function ExistingPosition(seg: string, len: nat): (r: Result<nat>)
    ensures r.Ok? <==>
      (seg == EndOfList && len > 0) || (ParseIndex(seg).Some? && 0 <= ParseIndex(seg).value < len)
    ensures r.Ok? ==> r.value < len
    ensures r.Ok? && seg == EndOfList ==> r.value == len - 1
    ensures r.Ok? && seg != EndOfList ==> r.value == ParseIndex(seg).value
    ensures r.Err? ==>
      r.error == (if seg == EndOfList || ParseIndex(seg).Some? then IndexOutOfBounds(seg)
                  else InvalidIndex(seg))
  {
    if seg == EndOfList then
      if len > 0 then Ok(len - 1) else Err(IndexOutOfBounds(seg))
    else match ParseIndex(seg)
      case None => Err(InvalidIndex(seg))
      case Some(i) => if 0 <= i < len then Ok(i) else Err(IndexOutOfBounds(seg))
  }

  /** Insert x before position p: earlier elements stay, later ones shift up by one. */
  function InsertAt<T>(xs: seq<T>, p: nat, x: T): (r: seq<T>)
    requires p <= |xs|
    ensures |r| == |xs| + 1
    ensures r[p] == x
    ensures forall k :: 0 <= k < p ==> r[k] == xs[k]
    ensures forall k :: p < k < |r| ==> r[k] == xs[k - 1]
  {
    xs[..p] + [x] + xs[p..]
  }

  /** Drop the element at p: earlier elements stay, later ones shift down by one. */
  function RemoveAt<T>(xs: seq<T>, p: nat): (r: seq<T>)
    requires p < |xs|
    ensures |r| == |xs| - 1
    ensures forall k :: 0 <= k < p ==> r[k] == xs[k]
    ensures forall k :: p <= k < |r| ==> r[k] == xs[k + 1]
  {
    xs[..p] + xs[p + 1..]
  }

  /** Overwrite the element at p; every other position keeps its element. */
  function ReplaceAt<T>(xs: seq<T>, p: nat, x: T): (r: seq<T>)
    requires p < |xs|
    ensures |r| == |xs| && r[p] == x
    ensures forall k :: 0 <= k < |xs| && k != p ==> r[k] == xs[k]
  {
    xs[p := x]
  }

  /** Removal undoes insertion at the same position. */
  lemma RemoveUndoesInsert<T>(xs: seq<T>, p: nat, x: T)
    requires p <= |xs|
    ensures RemoveAt(InsertAt(xs, p, x), p) == xs
  {
    var r := RemoveAt(InsertAt(xs, p, x), p);
    assert |r| == |xs|;
    forall k | 0 <= k < |xs| ensures r[k] == xs[k] {}
  }

  /** Re-inserting the removed element at its position restores the list. */
  lemma InsertUndoesRemove<T>(xs: seq<T>, p: nat)
    requires p < |xs|
    ensures InsertAt(RemoveAt(xs, p), p, xs[p]) == xs
  {
    var r := InsertAt(RemoveAt(xs, p), p, xs[p]);
    assert |r| == |xs|;
    forall k | 0 <= k < |xs| ensures r[k] == xs[k] {}
  }

  /** Insertion and removal change the multiset of elements by exactly one element. */
  lemma InsertAddsOneElement<T>(xs: seq<T>, p: nat, x: T)
    requires p <= |xs|
    ensures multiset(InsertAt(xs, p, x)) == multiset(xs) + multiset{x}
  {
    assert xs == xs[..p] + xs[p..];
  }

  lemma RemoveDropsOneElement<T>(xs: seq<T>, p: nat)
    requires p < |xs|
    ensures multiset(RemoveAt(xs, p)) + multiset{xs[p]} == multiset(xs)
  {
    assert xs == xs[..p] + [xs[p]] + xs[p + 1..];
  }

  /** An element added at a segment is read back at the same segment. */
  lemma ReadAfterAdd<T>(xs: seq<T>, seg: string, x: T)
    requires AddPosition(seg, |xs|).Ok?
    ensures var p := AddPosition(seg, |xs|).value;
      var ys := InsertAt(xs, p, x);
      ExistingPosition(seg, |ys|) == Ok(p) && ys[p] == x
  {
  }

  /** An element replaced at a segment is read back at the same segment. */
  lemma ReadAfterReplace<T>(xs: seq<T>, seg: string, x: T)
    requires ExistingPosition(seg, |xs|).Ok?
    ensures var p := ExistingPosition(seg, |xs|).value;
      var ys := ReplaceAt(xs, p, x);
      ExistingPosition(seg, |ys|) == Ok(p) && ys[p] == x
  {
  }

  /** Every segment that names an existing element is also a valid add position. */
  lemma ExistingIsAddable(seg: string, len: nat)
    requires ExistingPosition(seg, len).Ok?
    ensures AddPosition(seg, len).Ok?
  {
  }
}
