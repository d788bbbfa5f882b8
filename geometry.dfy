/** Terminal coordinates: the game's 16-bit unsigned integers and the
    location type with its exact-match hit test. */
module Geometry {

  /** An unsigned 16-bit integer. An addition or subtraction whose result
      leaves this range panics in the original program (debug build), so in
      the model it is a proof obligation at every use. */
  newtype u16 = x: int | 0 <= x < 0x1_0000

  const U16_MAX: int := 0xFFFF

  /** `abs_diff`: the distance between two values. */
  function AbsDiff(a: u16, b: u16): (r: u16)
    ensures a as int == b as int + r as int || b as int == a as int + r as int
  {
    if a >= b then a - b else b - a
  }

  /** `saturating_sub(1)`: one less, but never below zero. */
  function SaturatingDec(x: u16): (r: u16)
    ensures x == 0 ==> r == 0
    ensures x > 0 ==> r as int + 1 == x as int
  {
    if x == 0 then 0 else x - 1
  }

  /** A screen position: row `l` (the line, counted from the top) and column `c`. */
  datatype Location = Location(l: u16, c: u16) {

    /** Exact-match hit test: both coordinates agree. */
    function Hit(x: Location): (r: bool)
      ensures r <==> this == x
    {
      c == x.c && l == x.l
    }
  }
}
