/** The integer types of C that the code computes with, on a 64-bit target. */
module Words {

  const UNSIGNED_INT := 0x1_0000_0000
  const UNSIGNED_LONG := 0x1_0000_0000_0000_0000

  /** The int that a size_t is converted to. */
  function ToInt(n: nat): (i: int)
    ensures -0x8000_0000 <= i < 0x8000_0000 && i <= n && (i == n <==> n < 0x8000_0000)
  {
    var low := n % UNSIGNED_INT;
    if low < 0x8000_0000 then low else low - UNSIGNED_INT
  }

  /** Where the conversion goes wrong first: from 2^31 on it is negative, and 2^32 - 1 is -1. */
  lemma FirstWrong()
    ensures ToInt(0x7FFF_FFFF) == 0x7FFF_FFFF && ToInt(0x8000_0000) == -0x8000_0000 && ToInt(0xFFFF_FFFF) == -1
  {
  }
}
