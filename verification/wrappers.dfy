/** The optional value the source expresses with a nullable Java reference. */
module Wrappers {

  datatype Option<+T> = None | Some(value: T) {

    /** The zero-or-one records written for this value: a null result writes nothing. */
    function ToSeq(): (r: seq<T>)
      ensures |r| <= 1
      ensures None? <==> r == []
      ensures Some? ==> r == [value]
    {
      match this
      case None => []
      case Some(v) => [v]
    }
  }
}
