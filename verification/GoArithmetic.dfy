/** The integer operators of the modelled program where they differ from Dafny's. */
module GoArithmetic {

  const MAX_INT64 := 0x7fff_ffff_ffff_ffff
  const TWO_TO_64 := 0x1_0000_0000_0000_0000

  function Min(a: int, b: int): int {
    if a <= b then a else b
  }

  function Max(a: int, b: int): int {
    if a >= b then a else b
  }

  /** Remainder of division truncated toward zero: it has the sign of the dividend. */
  function TruncMod(a: int, b: int): int
    requires b > 0
  {
    if a >= 0 then a % b else -((-a) % b)
  }

  /** Two's complement wrap-around of a 64-bit signed result. */
  function WrapInt64(x: int): int {
    var r := x % TWO_TO_64;
    if r > MAX_INT64 then r - TWO_TO_64 else r
  }

  /** The day bucket of a timestamp, `ts - ts % 86400`. */
  function DayFloor(ts: int): int {
    ts - TruncMod(ts, 86400)
  }

  /** The hour bucket of a timestamp, `ts - ts % 3600`. */
  function HourFloor(ts: int): int {
    ts - TruncMod(ts, 3600)
  }

  /** Bucketing by day moves no timestamp across a positive day boundary, negative
      timestamps included. */
  lemma DayFloorKeepsBoundary(ts: int, bound: int)
    requires bound > 0 && bound % 86400 == 0
    ensures DayFloor(ts) >= bound <==> ts >= bound
  {
  }

  lemma HourFloorKeepsBoundary(ts: int, bound: int)
    requires bound > 0 && bound % 3600 == 0
    ensures HourFloor(ts) >= bound <==> ts >= bound
  {
  }

  /** A period start that is not a day boundary excludes the day it lies in: the
      start itself is filed under an earlier bucket. */
  lemma UnalignedBoundaryMisfiles(bound: int)
    requires bound > 0 && bound % 86400 != 0
    ensures DayFloor(bound) < bound
  {
  }
}
