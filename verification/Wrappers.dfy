/** What the other modules share: two failure-carrying datatypes and the set of a list. */
module Wrappers {
  datatype Option<+T> = None | Some(value: T) {
    function GetOr(default: T): T {
      if Some? then value else default
    }
  }

  datatype Result<+T, +E> = Ok(value: T) | Err(error: E)

  function IdSet(ids: seq<int>): (s: set<int>)
    ensures forall n :: n in s <==> n in ids
  {
    set n | n in ids
  }

  lemma Regroup<T>(a: seq<T>, b: seq<T>, c: seq<T>)
    ensures (a + b) + c == a + (b + c)
  {}
}
