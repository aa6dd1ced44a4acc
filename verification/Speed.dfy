/** Speed limits (limiter/dynamic.go) and the bucket rate computed from them (limiter/limiter.go). */
module Speed {

  const MAX_LIMIT: int := 9223372036854

  predicate Int64(x: int) { -0x8000_0000_0000_0000 <= x < 0x8000_0000_0000_0000 }

  /** Two's-complement wrap-around of a 64-bit product. */
  function WrapInt64(x: int): (r: int)
    ensures Int64(r)
    ensures Int64(x) ==> r == x
  {
    (x + 0x8000_0000_0000_0000) % 0x1_0000_0000_0000_0000 - 0x8000_0000_0000_0000
  }

  /** Go's division truncates toward zero. */
  function TruncDiv(x: int, d: int): int
    requires d > 0
  {
    if x >= 0 then x / d else -((-x) / d)
  }

  /** The smaller non-zero limit; zero means unlimited. */
  function DetermineSpeedLimit(limit1: int, limit2: int): (r: int)
    ensures r == 0 <==> limit1 == 0 && limit2 == 0
    ensures r == limit1 || r == limit2
    ensures limit1 != 0 ==> r <= limit1
    ensures limit2 != 0 ==> r <= limit2
  {
    if limit1 == 0 then limit2
    else if limit2 == 0 then limit1
    else if limit1 < limit2 then limit1
    else limit2
  }

  /** Bytes per second granted for a limit of `limit` megabits per second, in int64 arithmetic. */
  function BytesPerSecond(limit: int): int {
    TruncDiv(WrapInt64(limit * 1000000), 8)
  }

  /** The rate of the bucket a user gets; a bucket is created only when it is positive. */
  function Rate(nodeLimit: int, userLimit: int): int {
    BytesPerSecond(DetermineSpeedLimit(nodeLimit, userLimit))
  }

  /** The int64 computation is the intended one exactly when the product fits. */
  lemma BytesPerSecondExact(limit: int)
    ensures BytesPerSecond(limit) == 125000 * limit <==> -MAX_LIMIT <= limit <= MAX_LIMIT
  {
    var p := limit * 1000000;
    if Int64(p) {
      assert WrapInt64(p) == p;
    } else {
      assert 125000 * limit < -0x1000_0000_0000_0000 || 125000 * limit >= 0x1000_0000_0000_0000;
      var w := WrapInt64(p);
      assert -0x1000_0000_0000_0000 <= TruncDiv(w, 8) < 0x1000_0000_0000_0000;
    }
  }

  /** For every limit the panel may configure the rate is 125000 times the smallest non-zero limit. */
  lemma RateOfLimits(nodeLimit: int, userLimit: int)
    requires 0 <= nodeLimit <= MAX_LIMIT && 0 <= userLimit <= MAX_LIMIT
    ensures Rate(nodeLimit, userLimit) == 125000 * DetermineSpeedLimit(nodeLimit, userLimit)
    ensures Rate(nodeLimit, userLimit) > 0 <==> nodeLimit != 0 || userLimit != 0
  {
    BytesPerSecondExact(DetermineSpeedLimit(nodeLimit, userLimit));
  }
}
