/** The fixed-width C++ integer types and `std::vector::resize`, as used throughout the viewer. */
module CppTypes {

  const TWO_TO_32: int := 0x1_0000_0000

  /** `uint8_t`. */
  newtype u8 = x: int | 0 <= x < 0x100

  /** `uint32_t` / `unsigned int`. */
  newtype u32 = x: int | 0 <= x < 0x1_0000_0000

  /** The C++ conversion of a signed `int` (or any integer) to `unsigned int`. */
  function ToU32(x: int): (r: u32)
    ensures 0 <= x < TWO_TO_32 ==> r as int == x
    ensures (r as int - x) % TWO_TO_32 == 0
  {
    (x % TWO_TO_32) as u32
  }

  /** `static_cast<int>` of a size: the value taken modulo 2^32 into the signed range. */
  function ToInt32(n: int): (r: int)
    ensures -0x8000_0000 <= r < 0x8000_0000
    ensures 0 <= n < 0x8000_0000 ==> r == n
    ensures (r - n) % TWO_TO_32 == 0
  {
    var m := n % TWO_TO_32;
    if m < 0x8000_0000 then m else m - TWO_TO_32
  }

  /** `std::vector::resize(n)`: keeps the first n elements, pads with value-initialised ones. */
  function Resize<T>(s: seq<T>, n: nat, fill: T): (r: seq<T>)
    ensures |r| == n
    ensures forall k :: 0 <= k < n ==> r[k] == if k < |s| then s[k] else fill
  {
    if n <= |s| then s[..n] else s + seq(n - |s|, _ => fill)
  }
}
