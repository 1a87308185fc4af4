/** The C integer widths that the structures and messages use. */
module CTypes {

  type Int32 = n: int | -0x8000_0000 <= n < 0x8000_0000

  type U8 = n: int | 0 <= n < 0x100

  type U16 = n: int | 0 <= n < 0x1_0000

  type U32 = n: int | 0 <= n < 0x1_0000_0000

  function ToU8(n: int): U8 { n % 0x100 }

  function ToU16(n: int): U16 { n % 0x1_0000 }

  function ToU32(n: int): U32 { n % 0x1_0000_0000 }

  /** Conversion to int keeps the low 32 bits, read as two's complement. */
  function ToInt32(n: int): Int32 {
    var u := n % 0x1_0000_0000;
    if u < 0x8000_0000 then u else u - 0x1_0000_0000
  }

  lemma Int32RoundTrip(n: Int32)
    ensures ToInt32(n) == n && ToInt32(ToU32(n)) == n
  {
  }
}
