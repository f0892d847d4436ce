/** Stock building blocks shared by every module: optional values and sequence regrouping. */
module Options {

  /** A value that may be absent: a nil Go pointer or a present target. */
  datatype Option<+T> = None | Some(value: T) {

    /** The present value, or the given default when absent. */
    function GetOr(default: T): T {
      match this
      case Some(v) => v
      case None => default
    }
  }

  /** Concatenation regroups freely; stated once so that loop proofs need not rediscover it. */
  lemma AppendAssoc<T>(a: seq<T>, b: seq<T>, c: seq<T>)
    ensures a + b + c == a + (b + c)
  {
  }
}
