/** Shared vocabulary of the model: failure-carrying results, 64-bit
    integer arithmetic as Go performs it, document ids and time. */
module Base {

  datatype Option<+T> = None | Some(value: T)

  datatype Result<+T, +E> = Ok(value: T) | Err(error: E)

  /** Go's `byte`. */
  newtype byte = x: int | 0 <= x < 256

  /** A MongoDB ObjectID, abstracted to a number; 0 stands for the zero id. */
  type ObjectId = nat

  const NilObjectId: ObjectId := 0

  /** A `time.Time` reading, in nanoseconds from an arbitrary origin. */
  type Time = int

  /** A `time.Duration`, in nanoseconds. */
  type Duration = int

  const Second: Duration := 1_000_000_000

  const MinInt64: int := -0x8000_0000_0000_0000
  const MaxInt64: int := 0x7FFF_FFFF_FFFF_FFFF
  const TwoTo64: int := 0x1_0000_0000_0000_0000

  predicate IsInt64(x: int) {
    MinInt64 <= x <= MaxInt64
  }

  /** The int64 value Go's two's-complement arithmetic yields for the
      mathematical value x. */
  function Wrap64(x: int): (r: int)
    ensures IsInt64(r)
    ensures (r - x) % TwoTo64 == 0
    ensures IsInt64(x) ==> r == x
  {
    (x - MinInt64) % TwoTo64 + MinInt64
  }
}
