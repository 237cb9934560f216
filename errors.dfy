// Error values of the patch engine and their messages.

module Errors {

  datatype Option<+T> = None | Some(value: T)

  /** Why an operation could not be applied; each names the path segment at fault. */
  datatype PatchError =
    | IndexOutOfBounds(segment: string)   // a numeral outside the list's bounds
    | InvalidIndex(segment: string)       // a list segment that is neither "-" nor a numeral
    | MemberNotFound(segment: string)     // no member of that name on the target object
    | NullTarget(segment: string)         // the path walks through a null member
    | NotAContainer(segment: string)      // the path walks into a scalar or an integer
    | TypeMismatch(segment: string)       // the value does not fit the target's declared type
    | EmptyPath                           // the path has no segment at all

  datatype Result<+T> = Ok(value: T) | Err(error: PatchError)
  {
    predicate IsFailure() { Err? }

    function PropagateFailure<U>(): Result<U>
      requires Err?
    {
      Err(error)
    }

    function Extract(): T
      requires Ok?
    {
      value
    }
  }

  const OutOfBoundsPrefix: string := "The index value provided by path segment '"
  const OutOfBoundsSuffix: string := "' is out of bounds of the array size."

  /**
   * The message carried by the exception (fail-fast mode) or handed to the error logger.
   * Only the out-of-bounds text is fixed by the engine's behaviour as modelled here; the
   * texts of the other errors are this model's own wording.
   */
  function Message(e: PatchError): (m: string)
    ensures e.IndexOutOfBounds? ==>
      |m| == |OutOfBoundsPrefix| + |e.segment| + |OutOfBoundsSuffix| &&
      m[..|OutOfBoundsPrefix|] == OutOfBoundsPrefix &&
      m[|OutOfBoundsPrefix|..|OutOfBoundsPrefix| + |e.segment|] == e.segment &&
      m[|OutOfBoundsPrefix| + |e.segment|..] == OutOfBoundsSuffix
  {
    match e
    case IndexOutOfBounds(seg) => OutOfBoundsPrefix + seg + OutOfBoundsSuffix
    case InvalidIndex(seg) => "The path segment '" + seg + "' is invalid for an array index."
    case MemberNotFound(seg) => "The target location specified by path segment '" + seg + "' was not found."
    case NullTarget(seg) => "The path segment '" + seg + "' leads through a null value."
    case NotAContainer(seg) => "The path segment '" + seg + "' does not lead to an object or a list."
    case TypeMismatch(seg) => "The value is invalid for the target location at segment '" + seg + "'."
    case EmptyPath => "The path is empty."
  }

  /** The out-of-bounds message determines the segment it names. */
  lemma OutOfBoundsMessageNamesSegment(a: string, b: string)
    requires Message(IndexOutOfBounds(a)) == Message(IndexOutOfBounds(b))
    ensures a == b
  {
    var ma, mb := Message(IndexOutOfBounds(a)), Message(IndexOutOfBounds(b));
    assert |a| == |b|;
    assert a == ma[|OutOfBoundsPrefix|..|OutOfBoundsPrefix| + |a|];
  }
}
