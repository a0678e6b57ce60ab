/** Optional values and fallible results shared by every component. */
module Prelude {

  datatype Option<T> = None | Some(value: T)

  datatype Result<T, E> = Ok(value: T) | Err(error: E)

  /** A raw octet, as held by a JavaScript `Uint8Array`. */
  type byte = x: int | 0 <= x < 256

  const U32: nat := 0x1_0000_0000

  /** JavaScript's `value >>> 0`. */
  function ToUint32(value: int): (r: nat)
    ensures r < U32
    ensures 0 <= value < U32 ==> r == value
  {
    if 0 <= value < 0x1_0000_0000 then value else value % 0x1_0000_0000
  }
}
