/** The random source (src/Utils/Random.cpp): any outcome in range is possible. */
module Random {
  method NextInt(lo: int, hi: int) returns (r: int)
    ensures if lo < hi then lo <= r <= hi else r == lo
  {
    if lo < hi {
      r :| lo <= r <= hi;
    } else {
      r := lo;
    }
  }

  /** A draw against a probability: either answer is possible. */
  method NextBool() returns (b: bool) {
    b := *;
  }
}
