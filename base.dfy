/** Value types shared by every component: optional values, results that carry
    an error message, Go's uint64 arithmetic (which wraps modulo 2^64) and
    wall-clock instants. */
module Base {

  datatype Option<T> = None | Some(value: T)

  /** A value, or the error message the Go code would have returned. */
  datatype Result<T> = Ok(value: T) | Err(msg: string)

  const TWO_TO_64: int := 0x1_0000_0000_0000_0000

  /** Go's uint64. */
  type u64 = x: int | 0 <= x < 0x1_0000_0000_0000_0000

  /** uint64 subtraction: a negative difference wraps around. */
  function Sub64(a: u64, b: u64): (r: u64)
    ensures b <= a ==> r == a - b
    ensures a < b ==> r == a - b + TWO_TO_64
  {
    (a - b) % TWO_TO_64
  }

  /** uint64 multiplication: the product is reduced modulo 2^64. */
  function Mul64(a: u64, b: u64): (r: u64)
    ensures r == (a * b) % TWO_TO_64
    ensures a * b < TWO_TO_64 ==> r == a * b
  {
    var p := a * b;
    if p < TWO_TO_64 then p else p % TWO_TO_64
  }

  const NanosPerSecond: int := 1_000_000_000
  const NanosPerDay: int := 86_400_000_000_000

  /** Go's time.Time: the zero value (what an unset time.Time field holds), or an
      instant given in nanoseconds since 1970-01-01T00:00:00Z. Clock readings are
      always instants, never the zero value. */
  datatype Time = ZeroTime | At(nanos: int) {
    predicate IsZero() { ZeroTime? }
  }
}
