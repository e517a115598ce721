/**
 Cent rules of the client ledger: an amount is a whole number of cents, a figure that may
 carry more decimals is a `real` number of cents.
 */
module Money {
  import opened Base

  /** Toward zero to the cent: `floor_cents`. */
  function FloorCents(x: real): (c: int)
    ensures x >= 0.0 ==> c as real <= x < c as real + 1.0
    ensures x <= 0.0 ==> c as real - 1.0 < x <= c as real
  {
    if x >= 0.0 then x.Floor else -((-x).Floor)
  }

  /** Half away from zero to the cent: `round_cents`. */
  function RoundCents(x: real): (c: int)
    ensures x - 0.5 <= c as real <= x + 0.5
    ensures x >= 0.0 ==> x - 0.5 < c as real
    ensures x <= 0.0 ==> c as real < x + 0.5
  {
    if x >= 0.0 then (x + 0.5).Floor else -((0.5 - x).Floor)
  }

  /** The reported figure is the one the cap compares with, so "use max" is never refused for
      rounding and nothing above the exact figure ever passes. */
  lemma CapIsExact(amount: int, x: real)
    requires amount > 0
    ensures amount <= FloorCents(x) <==> amount as real <= x
  {
  }

  lemma PercentWithin(a: real, pct: real)
    requires a >= 0.0 && 0.0 <= pct <= 100.0
    ensures 0.0 <= a * pct / 100.0 <= a
  {
    assert a * (100.0 - pct) >= 0.0;
    assert a * pct >= 0.0;
    assert a * (100.0 - pct) == a * 100.0 - a * pct;
  }

  lemma RoundWithin(x: real, n: nat)
    requires 0.0 <= x <= n as real
    ensures 0 <= RoundCents(x) <= n
  {
  }

  /** The whole cents nearest to a figure of zero or more, a half going up. */
  ghost predicate HalfUp(c: int, x: real) {
    x - 0.5 < c as real <= x + 0.5
  }

  function Fee(amount: nat, pct: real): int {
    RoundCents(amount as real * pct / 100.0)
  }

  /** A fee is the percentage, half up to the cent, and no other number of cents is. */
  lemma FeeIsHalfUp(amount: nat, pct: real, c: int)
    requires pct >= 0.0
    ensures c == Fee(amount, pct) <==> HalfUp(c, amount as real * pct / 100.0)
  {
    var exact := amount as real * pct / 100.0;
    assert amount as real * pct >= 0.0;
    assert exact >= 0.0;
  }

  /** A fee under one hundred percent never exceeds the amount, and a whole cent total is split
      with nothing lost. */
  lemma FeeWithinAmount(amount: nat, pct: real)
    requires 0.0 <= pct < 100.0
    ensures 0 <= Fee(amount, pct) <= amount
    ensures pct > 0.0 && Fee(amount, pct) == amount && amount > 0 ==> amount as real * (100.0 - pct) <= 50.0
  {
    var a := amount as real;
    PercentWithin(a, pct);
    assert a * (100.0 - pct) == a * 100.0 - a * pct;
  }

  /** `deposit_bonus`: no cap when the rule has none. */
  function DepositBonus(amount: nat, pct: real, cap: Option<int>): int {
    var bonus := RoundCents(amount as real * pct / 100.0);
    if cap.Some? && cap.value < bonus then cap.value else bonus
  }

  /** The bonus is the percentage, half up to the cent, or the cap when that is less. */
  lemma DepositBonusExact(amount: nat, pct: real, cap: Option<int>, c: int)
    requires pct >= 0.0 && HalfUp(c, amount as real * pct / 100.0)
    ensures DepositBonus(amount, pct, cap) <= c && (cap.Some? ==> DepositBonus(amount, pct, cap) <= cap.value)
    ensures DepositBonus(amount, pct, cap) == c || cap == Some(DepositBonus(amount, pct, cap))
  {
    FeeIsHalfUp(amount, pct, c);
  }

  lemma DepositBonusBounds(amount: nat, pct: real, cap: Option<int>)
    requires 0.0 <= pct <= 100.0 && (cap.Some? ==> cap.value > 0)
    ensures 0 <= DepositBonus(amount, pct, cap) <= amount
    ensures cap.Some? ==> DepositBonus(amount, pct, cap) <= cap.value
  {
    PercentWithin(amount as real, pct);
    RoundWithin(amount as real * pct / 100.0, amount);
  }
}
