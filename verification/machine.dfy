/** Fixed-width C++ integer types, as unbounded integers restricted to their range,
    and the conversions between them that the readers and computes perform. */
module Machine {

  const TWO_TO_THE_32: int := 0x1_0000_0000
  const TWO_TO_THE_31: int := 0x8000_0000

  /** `unsigned int` */
  type uint32 = n: int | 0 <= n < TWO_TO_THE_32

  /** `int` */
  type int32 = n: int | -TWO_TO_THE_31 <= n < TWO_TO_THE_31

  /** Unsigned subtraction and addition: the result is reduced modulo 2^32. */
  function SubU32(a: uint32, b: uint32): (r: uint32)
    ensures a >= b ==> r == a - b
    ensures a < b ==> r == a - b + TWO_TO_THE_32
  {
    (a - b) % TWO_TO_THE_32
  }

  function AddU32(a: uint32, b: uint32): (r: uint32)
    ensures a + b < TWO_TO_THE_32 ==> r == a + b
    ensures a + b >= TWO_TO_THE_32 ==> r == a + b - TWO_TO_THE_32
  {
    (a + b) % TWO_TO_THE_32
  }

  /** The two's-complement conversion `(int)u` of an unsigned value. */
  function SignedOf(u: uint32): (r: int32)
    ensures u < TWO_TO_THE_31 ==> r == u
    ensures u >= TWO_TO_THE_31 ==> r < 0
  {
    if u < TWO_TO_THE_31 then u else u - TWO_TO_THE_32
  }
}
