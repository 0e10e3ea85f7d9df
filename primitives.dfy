/** Unsigned machine integers used by the emulator: Rust's `u8` and `u16`. */
module Primitives {
  type u8 = x: int | 0 <= x < 0x100
  type u16 = x: int | 0 <= x < 0x1_0000
}
