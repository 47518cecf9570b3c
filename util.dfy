/** Small failure-compatible wrapper shared by both compilers. */
module Util {

  /** `None` stands for "no value": a missing entry, or (in the machine-code
      emitter) an assertion of the source that fails and aborts the process. */
  datatype Option<+T> = None | Some(value: T) {

    predicate IsFailure() {
      None?
    }

    function PropagateFailure<U>(): Option<U>
      requires None?
    {
      None
    }

    function Extract(): T
      requires Some?
    {
      value
    }
  }

  /** 2^k, used to state shifts and low-bit masks on unbounded integers. */
  function Pow2(k: nat): (r: nat)
    ensures r >= 1
  {
    if k == 0 then 1 else 2 * Pow2(k - 1)
  }
}
