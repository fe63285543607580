/** Failure-carrying values shared by every module of the model. */
module Wrappers {

  datatype Option<+T> = None | Some(value: T)

  /** A computation that either yields a value or fails with an error. */
  datatype Result<+T, +E> = Ok(value: T) | Err(error: E)

  /**
   * The exceptions the native sessions raise: the C++ standard classes,
   * each with the message text the source builds, and Objective-C ones.
   */
  datatype Exc =
    | RuntimeError(msg: string)
    | InvalidArgument(msg: string)
    | LogicError(msg: string)
    /** An Objective-C exception raised by a Foundation call (its name, such as NSRangeException). */
    | ObjCException(name: string)
}

/** Bytes of frames and pixel buffers. */
module Bytes {
  type Byte = x: int | 0 <= x < 256

  /** What a reader of a pipe or file receives from a sequence of writes. */
  function Flatten(chunks: seq<seq<Byte>>): (s: seq<Byte>)
    ensures chunks == [] ==> s == []
  {
    if chunks == [] then [] else Flatten(chunks[..|chunks| - 1]) + chunks[|chunks| - 1]
  }

  lemma FlattenAppend(chunks: seq<seq<Byte>>, c: seq<Byte>)
    ensures Flatten(chunks + [c]) == Flatten(chunks) + c
  {
    assert (chunks + [c])[..|chunks|] == chunks;
  }
}
