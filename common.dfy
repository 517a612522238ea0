/**
 * Types shared by every part of the exam-room manager model: optional values,
 * the outcome of code that may panic, bytes, IPv4 addresses and the integer
 * arithmetic of Rust that differs from Dafny's.
 */
module Common {

  datatype Option<+T> = None | Some(value: T)

  /** The result of Rust code that either returns a value or panics
      (an `unwrap` or `expect` on an error). */
  datatype Outcome<+T> = Returned(value: T) | Panicked

  type byte = x: int | 0 <= x < 256

  /** `std::net::Ipv4Addr`, as its four octets. */
  datatype Ipv4 = Ipv4(a: byte, b: byte, c: byte, d: byte)

  /** Rust's `/` on signed integers: the quotient is truncated toward zero. */
  function TruncDiv(a: int, b: int): (q: int)
    requires b > 0
    ensures a >= 0 ==> 0 <= q * b <= a < q * b + b
    ensures a < 0 ==> q * b - b < a <= q * b <= 0
  {
    if a >= 0 then
      DivBounds(a, b);
      a / b
    else
      DivBounds(-a, b);
      -((-a) / b)
  }

  /** Euclidean division of a non-negative number brackets it between
      consecutive multiples of the divisor. */
  lemma DivBounds(a: int, b: int)
    requires a >= 0 && b > 0
    ensures 0 <= (a / b) * b <= a < (a / b) * b + b
  {
    var q, r := a / b, a % b;
    assert a == q * b + r && 0 <= r < b;
  }

  const TwoTo32: int := 0x1_0000_0000

  /** Rust's `x as u32` for an `i64` value: the low 32 bits, read as unsigned. */
  function AsU32(x: int): (r: int)
    ensures 0 <= r < TwoTo32
    ensures (r - x) % TwoTo32 == 0
    ensures 0 <= x < TwoTo32 ==> r == x
  {
    x % TwoTo32
  }
}
