/** Small vocabulary shared by the models. */
module Base {

  datatype Option<+T> = None | Some(value: T)

  /** An error value; only cancellation is told apart from the other errors. */
  datatype Error = Canceled | EngineShutdown | Other(code: nat)

  /** The unit result carried by terminal callbacks and flush waiters. */
  datatype Outcome = Done | Failed(error: Error)

  /** One octet of a stream. */
  newtype byte = x: int | 0 <= x < 256

  type Bytes = seq<byte>

  function Min(a: nat, b: nat): nat {
    if a <= b then a else b
  }

  function RemoveAt<T>(s: seq<T>, i: nat): (r: seq<T>)
    requires i < |s|
    ensures |r| == |s| - 1 && forall x :: x in r ==> x in s
  {
    s[..i] + s[i + 1..]
  }
}
