/** Value types shared by every part of the book. */
module Common {
  /** The two sides of a market: resting buy orders (bids) and resting sell orders (asks). */
  datatype Side = Buy | Sell

  /**
   * A signed 64-bit integer. Prices and quantities are fixed-point numbers with
   * 8 implied decimal digits; that scale is a convention only, nothing rescales.
   */
  type Decimal64 = x: int | -0x8000_0000_0000_0000 <= x <= 0x7fff_ffff_ffff_ffff

  /** An unsigned 16-bit integer: the width of a level's order count. */
  type U16 = x: int | 0 <= x <= 0xffff

  datatype Option<T> = None | Some(value: T)
}
