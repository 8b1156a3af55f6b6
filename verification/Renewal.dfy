/**
 Renewal of the serving certificate (pkg/tls/tls.go:260-290): the wait of two thirds of the remaining
 life, in Go's int64 nanoseconds.
 */
module Renewal {
  const TWO62 := 0x4000_0000_0000_0000
  const TWO63 := 0x8000_0000_0000_0000
  const TWO64 := 0x1_0000_0000_0000_0000

  /** The int64 with the same low 64 bits. */
  function Wrap(x: int): (r: int)
    ensures -TWO63 <= r < TWO63
    ensures (x - r) % TWO64 == 0
  {
    var m := x % TWO64;
    if m < TWO63 then m else m - TWO64
  }

  /** A third, by Go's division, which truncates toward zero. */
  function Third(a: int): (q: int)
    ensures a >= 0 ==> 0 <= a - 3 * q < 3
    ensures a < 0 ==> -3 < a - 3 * q <= 0
  {
    if a >= 0 then a / 3 else -((-a) / 3)
  }

  /** time.Until saturates instead of wrapping. */
  function Until(now: int, deadline: int): (r: int)
    ensures -TWO63 <= r < TWO63
    ensures -TWO63 <= deadline - now < TWO63 ==> r == deadline - now
    ensures deadline - now < -TWO63 ==> r == -TWO63
    ensures deadline - now >= TWO63 ==> r == TWO63 - 1
  {
    var d := deadline - now;
    if d < -TWO63 then -TWO63 else if d >= TWO63 then TWO63 - 1 else d
  }

  /** The renewal time computed for `remaining` nanoseconds of life. */
  function RenewalTime(remaining: int): int
    requires -TWO63 <= remaining < TWO63
  {
    Third(Wrap(2 * remaining))
  }

  lemma WrapDouble(r: int)
    requires -TWO63 <= r < TWO63
    ensures Wrap(2 * r) ==
      if r >= TWO62 then 2 * r - TWO64 else if r < -TWO62 then 2 * r + TWO64 else 2 * r
  {
  }

  /**
   A live certificate is always renewed before it expires, and at exactly two thirds of its remaining
   life if and only if that life is below 2^62 ns, about 146 years; above, the product wraps and the
   timer fires at once.
   */
  lemma RenewsBeforeExpiry(remaining: int)
    requires 0 < remaining < TWO63
    ensures RenewalTime(remaining) < remaining
    ensures RenewalTime(remaining) == 2 * remaining / 3 <==> remaining < TWO62
    ensures remaining >= TWO62 ==> RenewalTime(remaining) <= 0
  {
    WrapDouble(remaining);
  }

  /**
   An expired certificate is renewed at once if and only if it expired at most 2^62 ns ago or its age
   saturated; in between the product wraps to a positive wait. The zero time, which stands for "no
   certificate yet", saturates and so waits 0.
   */
  lemma ExpiredRenewsAtOnce(remaining: int)
    requires -TWO63 <= remaining <= 0
    ensures RenewalTime(remaining) <= 0 <==> remaining >= -TWO62 || remaining <= -TWO63 + 1
    ensures remaining == -TWO63 ==> RenewalTime(remaining) == 0
  {
    WrapDouble(remaining);
  }
}
