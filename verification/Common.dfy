/** Shared vocabulary: optional values, machine integers and byte strings. */
module Common {

  datatype Option<+T> = None | Some(value: T)

  const U8_MAX: nat := 0xFF
  const U16_MAX: nat := 0xFFFF
  const U32_MAX: nat := 0xFFFF_FFFF

  type u8 = x: int | 0 <= x <= U8_MAX
  type u16 = x: int | 0 <= x <= U16_MAX
  type u32 = x: int | 0 <= x <= U32_MAX

  type Bytes = seq<u8>

  datatype Role = Server | Client

  /** `u32::saturating_add` */
  function SatAdd(a: u32, b: u32): (r: u32)
    ensures r >= a && r >= b
    ensures r == a + b || (r == U32_MAX && a + b > U32_MAX)
  {
    if a + b > U32_MAX then U32_MAX else a + b
  }

  /** `u32::saturating_sub` */
  function SatSub(a: u32, b: u32): (r: u32)
    ensures r <= a
    ensures a >= b ==> r + b == a
    ensures a < b ==> r == 0
  {
    if a >= b then a - b else 0
  }
}
