/** The C++ `int` of the source, a 32-bit two's-complement integer. */
module Ints {

  const INT_MIN: int := -0x8000_0000
  const INT_MAX: int := 0x7FFF_FFFF

  type Int32 = x: int | INT_MIN <= x <= INT_MAX

  /** `QString::toInt` on a string of decimal digits: the value when it fits
      in an `int`, and 0 (the failure result) when it overflows. */
  function ToInt32OrZero(v: nat): (r: Int32)
    ensures 0 <= r
    ensures r == v <==> v <= INT_MAX
    ensures r != v ==> r == 0
  {
    if v <= INT_MAX then v else 0
  }
}
