/** Small value types shared by every part of the model. */
module Base {

  /** Python's `None` or a value. */
  datatype Option<+T> = None | Some(value: T) {
    function GetOr(default: T): T {
      match this
      case Some(v) => v
      case None => default
    }
  }

  /** One octet of a `bytes` or `bytearray` object. */
  type byte = b: int | 0 <= b < 256

  /** Wraps every element of `xs` in `Some`, in order. */
  function Somes<T>(xs: seq<T>): (r: seq<Option<T>>)
    ensures |r| == |xs|
    ensures forall k :: 0 <= k < |xs| ==> r[k] == Some(xs[k])
  {
    seq(|xs|, k requires 0 <= k < |xs| => Some(xs[k]))
  }

  lemma SomesSnoc<T>(xs: seq<T>, x: T)
    ensures Somes(xs + [x]) == Somes(xs) + [Some(x)]
  {
  }
}
