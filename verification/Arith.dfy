/** Size conversion, and facts about products, quotients and remainders with a variable factor. */
module Arith {
  /** A C++ int converted to a 64-bit size_t: negative values wrap round. */
  function AsSize(n: int): (size: int)
    ensures -0x1_0000_0000_0000_0000 <= n < 0x1_0000_0000_0000_0000 ==>
      0 <= size < 0x1_0000_0000_0000_0000 && (size - n) % 0x1_0000_0000_0000_0000 == 0
  {
    if n < 0 then n + 0x1_0000_0000_0000_0000 else n
  }

  /** The C++ remainder, which takes the sign of the dividend. */
  function CppRemainder(a: int, n: nat): (r: int)
    requires n > 0
    ensures 0 - n < r < n && (a >= 0 ==> r >= 0) && (a <= 0 ==> r <= 0)
  {
    if a >= 0 then a % n else -(-a % n)
  }

  lemma OneTimeMore(q: nat, k: nat)
    ensures (q + 1) * k == q * k + k
  {
  }

  lemma NoTimes(k: nat)
    ensures 0 * k == 0
  {
  }

  lemma MulAtLeast(k: int, m: int)
    requires k > 0 && m >= 1
    ensures k * m >= k
  {
  }

  lemma RemainderShift(x: int, k: nat)
    requires k > 0
    ensures (x + k) % k == x % k
  {
    var p, q := x / k, (x + k) / k;
    assert k * (q - p - 1) == x % k - (x + k) % k;
    if q - p - 1 >= 1 {
      MulAtLeast(k, q - p - 1);
    } else if q - p - 1 <= -1 {
      MulAtLeast(k, p + 1 - q);
    }
  }

  lemma SmallRemainder(x: int, k: nat)
    requires 0 <= x < k
    ensures x % k == x
  {
  }

  lemma StepUp(x: int, k: nat)
    requires 0 <= x < k
    ensures (x + 1 + k) % k == if x + 1 == k then 0 else x + 1
  {
    RemainderShift(x + 1, k);
    if x + 1 == k {
      RemainderShift(0, k);
      SmallRemainder(0, k);
    } else {
      SmallRemainder(x + 1, k);
    }
  }

  lemma StepDown(x: int, k: nat)
    requires 0 <= x < k
    ensures (x - 1 + k) % k == if x == 0 then k - 1 else x - 1
  {
    if x == 0 {
      SmallRemainder(k - 1, k);
    } else {
      RemainderShift(x - 1, k);
      SmallRemainder(x - 1, k);
    }
  }

  lemma SmallQuotient(x: int, k: nat)
    requires 0 <= x < k
    ensures x / k == 0
  {
  }

  lemma QuotientShift(x: int, k: nat)
    requires k > 0
    ensures (x + k) / k == x / k + 1
  {
    RemainderShift(x, k);
    var p, q := x / k, (x + k) / k;
    assert k * (q - p - 1) == x % k - (x + k) % k;
    if q - p - 1 >= 1 {
      MulAtLeast(k, q - p - 1);
    } else if q - p - 1 <= -1 {
      MulAtLeast(k, p + 1 - q);
    }
  }

  lemma QuotientAtLeastOne(m: nat, k: nat)
    requires 0 < k <= m
    ensures m / k >= 1
  {
  }

  lemma {:induction false} MulMono(a: int, b: int, c: nat)
    requires a <= b
    ensures a * c <= b * c
  {
    if c > 0 {
      MulMono(a, b, c - 1);
      assert a * c == a * (c - 1) + a;
      assert b * c == b * (c - 1) + b;
    }
  }
}
