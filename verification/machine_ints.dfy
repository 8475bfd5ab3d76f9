/** The fixed-width integers of the library's interface. */
module MachineInts {

  /** Rust `i32` (C `int`): user ids. */
  type Int32 = x: int | -0x8000_0000 <= x < 0x8000_0000

  /** Rust `u32` (C `gid_t`): group ids. */
  type UInt32 = x: int | 0 <= x < 0x1_0000_0000

  /** The cast `x as u32` on an `i32`: the same 32 bits read as unsigned. */
  function AsU32(x: Int32): (r: UInt32)
    ensures 0 <= x ==> r == x
    ensures x < 0 ==> r == x + 0x1_0000_0000
  {
    x % 0x1_0000_0000
  }

  /** The cast `y as i32` on a `u32`: the same 32 bits read as signed. */
  function AsI32(y: UInt32): Int32
  {
    if y < 0x8000_0000 then y else y - 0x1_0000_0000
  }

  /** The two casts are mutually inverse, so the reinterpretation loses nothing. */
  lemma ReinterpretRoundTrip(x: Int32, y: UInt32)
    ensures AsI32(AsU32(x)) == x
    ensures AsU32(AsI32(y)) == y
  {
  }
}
