/** Turning a money amount into a stop or target price, over exact arithmetic. */
module Protection {
  import opened Base

  datatype Side = Buy | Sell

  datatype Kind = TakeProfit | StopLoss

  function Cost(fee: Option<real>): (r: real)
    ensures r >= 0.0
  {
    if fee.Some? && fee.value > 0.0 then fee.value else 0.0
  }

  function Gross(kind: Kind, amount: real, fee: Option<real>): real {
    if kind == TakeProfit then amount + Cost(fee) else amount - Cost(fee)
  }

  function Unrounded(side: Side, kind: Kind, entry: real, amount: real, units: real, fee: Option<real>): real
    requires units > 0.0
  {
    var move := Gross(kind, amount, fee) / units;
    if (side == Buy) == (kind == TakeProfit) then entry + move else entry - move
  }

  /** The nearest multiple of a quoted tick; `scale` is ten to the number of quoted places. */
  function Rounded(price: real, scale: nat): real
    requires scale > 0
  {
    (price * (scale as real) + 0.5).Floor as real / (scale as real)
  }

  function PriceForAmount(side: Side, kind: Kind, entry: real, amount: real, units: Option<real>, scale: nat,
                          fee: Option<real>): Option<real>
    requires scale > 0 && (units.Some? ==> units.value > 0.0)
  {
    if units.None? || entry <= 0.0 || amount <= 0.0 || Gross(kind, amount, fee) <= 0.0 then None
    else
      var price := Unrounded(side, kind, entry, amount, units.value, fee);
      if price <= 0.0 then None else Some(Rounded(price, scale))
  }

  /** What the broker takes: the fee when one is known and positive, otherwise nothing. */
  ghost predicate Charges(fee: Option<real>, taken: real) {
    if fee.Some? && fee.value > 0.0 then taken == fee.value else taken == 0.0
  }

  /** What closing at `price` leaves, with `taken` paid in commission. */
  ghost function Net(side: Side, entry: real, price: real, units: real, taken: real): real {
    (if side == Buy then price - entry else entry - price) * units - taken
  }

  ghost function Wanted(kind: Kind, amount: real): real {
    if kind == TakeProfit then amount else -amount
  }

  /** EXACT: before rounding, the price nets the amount that was asked for, commission paid. */
  lemma NetsExactly(side: Side, kind: Kind, entry: real, amount: real, units: real, fee: Option<real>, taken: real)
    requires units > 0.0 && Charges(fee, taken)
    ensures Net(side, entry, Unrounded(side, kind, entry, amount, units, fee), units, taken) == Wanted(kind, amount)
  {
    var gross := Gross(kind, amount, fee);
    var move := gross / units;
    var price := Unrounded(side, kind, entry, amount, units, fee);
    var gain := if side == Buy then price - entry else entry - price;
    assert gain == if kind == TakeProfit then move else 0.0 - move;
    assert move * units == gross;
    assert (0.0 - move) * units == 0.0 - gross;
  }

  /** A price that can be quoted: a whole number of ticks. */
  ghost function Quote(n: int, scale: nat): real
    requires scale > 0
  {
    n as real / (scale as real)
  }

  /** The nearest price: within half a tick, a half going up. */
  lemma RoundsWithinHalfTick(price: real, scale: nat)
    requires scale > 0
    ensures 0.0 - HalfTick(scale) < Rounded(price, scale) - price <= HalfTick(scale)
  {
    var s := scale as real;
    var up := (price * s + 0.5).Floor as real;
    assert price * s + 0.5 - 1.0 < up <= price * s + 0.5;
    assert price * s / s == price;
    Divide(price * s - 0.5, up, s);
    DivideLeq(up, price * s + 0.5, s);
    assert (price * s - 0.5) / s == price * s / s - 0.5 / s;
    assert (price * s + 0.5) / s == price * s / s + 0.5 / s;
  }

  lemma RoundsToQuote(price: real, scale: nat)
    requires scale > 0
    ensures exists n :: Rounded(price, scale) == Quote(n, scale)
  {
    var n := (price * (scale as real) + 0.5).Floor;
    assert Rounded(price, scale) == Quote(n, scale);
  }

  lemma Divide(a: real, b: real, s: real)
    requires s > 0.0 && a < b
    ensures a / s < b / s
  {
    assert b / s - a / s == (b - a) / s;
  }

  lemma DivideLeq(a: real, b: real, s: real)
    requires s > 0.0 && a <= b
    ensures a / s <= b / s
  {
    if a < b {
      Divide(a, b, s);
    }
  }

  function HalfTick(scale: nat): real
    requires scale > 0
  {
    0.5 / (scale as real)
  }

  lemma SlipNets(side: Side, entry: real, price: real, slip: real, units: real, taken: real)
    ensures Net(side, entry, price + slip, units, taken) - Net(side, entry, price, units, taken) ==
            if side == Buy then slip * units else 0.0 - slip * units
  {
    if side == Buy {
      Distributes(price - entry, slip, units);
    } else {
      Distributes(entry - price, 0.0 - slip, units);
      Distributes(0.0 - slip, slip, units);
    }
  }

  lemma Distributes(a: real, b: real, u: real)
    ensures (a + b) * u == a * u + b * u
  {
  }

  lemma SlipBounded(slip: real, half: real, units: real)
    requires units > 0.0 && 0.0 - half <= slip <= half
    ensures 0.0 - half * units <= slip * units <= half * units
  {
    assert (half - slip) * units >= 0.0 && (half + slip) * units >= 0.0;
    Distributes(half - slip, slip, units);
    Distributes(half, slip, units);
  }

  lemma SlipWithin(side: Side, entry: real, price: real, sent: real, units: real, half: real, taken: real)
    requires units > 0.0 && 0.0 - half <= sent - price <= half
    ensures var off := Net(side, entry, sent, units, taken) - Net(side, entry, price, units, taken);
            0.0 - half * units <= off <= half * units
  {
    var slip := sent - price;
    SlipBounded(slip, half, units);
    SlipNets(side, entry, price, slip, units, taken);
    assert price + slip == sent;
  }

  /** ROUNDED: the price sent is a quoted one and nets the amount within the units times half a quoted tick. */
  lemma NetsWithinHalfTick(side: Side, kind: Kind, entry: real, amount: real, units: real, scale: nat,
                           fee: Option<real>, taken: real)
    requires units > 0.0 && scale > 0 && Charges(fee, taken)
    ensures var sent := PriceForAmount(side, kind, entry, amount, Some(units), scale, fee);
            sent.Some? ==>
            var off := Net(side, entry, sent.value, units, taken) - Wanted(kind, amount);
            && 0.0 - HalfTick(scale) * units <= off <= HalfTick(scale) * units
            && exists n :: sent.value == Quote(n, scale)
  {
    var price := Unrounded(side, kind, entry, amount, units, fee);
    NetsExactly(side, kind, entry, amount, units, fee, taken);
    RoundsWithinHalfTick(price, scale);
    RoundsToQuote(price, scale);
    SlipWithin(side, entry, price, Rounded(price, scale), units, HalfTick(scale), taken);
  }

  ghost function Distance(entry: real, price: real): real {
    if price > entry then price - entry else entry - price
  }

  /** A larger commission moves a target away from the entry and a stop toward it. */
  lemma FeeMoves(side: Side, entry: real, amount: real, units: real, less: real, more: real)
    requires units > 0.0 && amount > 0.0 && 0.0 <= less < more
    ensures Distance(entry, Unrounded(side, TakeProfit, entry, amount, units, Some(less)))
            < Distance(entry, Unrounded(side, TakeProfit, entry, amount, units, Some(more)))
    ensures more < amount ==>
            Distance(entry, Unrounded(side, StopLoss, entry, amount, units, Some(more)))
            < Distance(entry, Unrounded(side, StopLoss, entry, amount, units, Some(less)))
  {
    Divide(0.0, amount + less, units);
    Divide(amount + less, amount + more, units);
    if more < amount {
      Divide(0.0, amount - more, units);
      Divide(amount - more, amount - less, units);
    }
  }

  /**
   REFUSED EXACTLY WHEN IMPOSSIBLE, over all inputs: nothing to compute with, a stop not above its
   commission, or a level on the falling side whose distance, commission counted in, reaches zero.
   */
  lemma RefusedWhenImpossible(side: Side, kind: Kind, entry: real, amount: real, units: Option<real>, scale: nat,
                              fee: Option<real>, taken: real)
    requires scale > 0 && (units.Some? ==> units.value > 0.0) && Charges(fee, taken)
    ensures PriceForAmount(side, kind, entry, amount, units, scale, fee).None? <==>
            || units.None? || entry <= 0.0 || amount <= 0.0
            || (kind == StopLoss && amount <= taken)
            || (side == Buy && kind == StopLoss && amount - taken >= entry * units.value)
            || (side == Sell && kind == TakeProfit && amount + taken >= entry * units.value)
  {
    if units.Some? && entry > 0.0 && amount > 0.0 {
      if kind == StopLoss {
        RefusedAt(side, kind, entry, amount, units.value, scale, fee, amount - taken);
      } else {
        RefusedAt(side, kind, entry, amount, units.value, scale, fee, amount + taken);
      }
    }
  }

  lemma RefusedAt(side: Side, kind: Kind, entry: real, amount: real, units: real, scale: nat, fee: Option<real>,
                  gross: real)
    requires scale > 0 && units > 0.0 && entry > 0.0 && amount > 0.0 && gross == Gross(kind, amount, fee)
    ensures PriceForAmount(side, kind, entry, amount, Some(units), scale, fee).None? <==>
            gross <= 0.0 || ((side == Buy) == (kind == StopLoss) && gross >= entry * units)
  {
    Falling(entry, gross, units);
  }

  /** A move worth `gross` falls short of the entry price exactly when the whole position is worth more. */
  lemma Falling(entry: real, gross: real, units: real)
    requires units > 0.0 && entry > 0.0
    ensures gross >= entry * units <==> entry - gross / units <= 0.0
    ensures gross > 0.0 ==> gross / units > 0.0
  {
    assert entry * units / units == entry;
    if gross >= entry * units {
      DivideLeq(entry * units, gross, units);
    } else {
      Divide(gross, entry * units, units);
    }
    if gross > 0.0 {
      Divide(0.0, gross, units);
    }
  }

  /**
   WHAT IS SENT: the price is judged before it is rounded, so a level below half a quoted tick is sent
   as 0; the price sent is above zero if and only if the level is at least half a tick.
   */
  lemma SentAboveZero(side: Side, kind: Kind, entry: real, amount: real, units: real, scale: nat, fee: Option<real>)
    requires units > 0.0 && scale > 0
    ensures var sent := PriceForAmount(side, kind, entry, amount, Some(units), scale, fee);
            sent.Some? ==>
            && sent.value >= 0.0
            && (sent.value > 0.0 <==> Unrounded(side, kind, entry, amount, units, fee) >= HalfTick(scale))
  {
    var price := Unrounded(side, kind, entry, amount, units, fee);
    if price > 0.0 {
      RoundsAboveZero(price, scale);
    }
  }

  lemma RoundsAboveZero(price: real, scale: nat)
    requires scale > 0 && price > 0.0
    ensures Rounded(price, scale) >= 0.0
    ensures Rounded(price, scale) > 0.0 <==> price >= HalfTick(scale)
  {
    var s := scale as real;
    HalfScaled(price, s);
    FloorOfHalf(price * s);
    Quotient((price * s + 0.5).Floor, s);
  }

  lemma HalfScaled(price: real, s: real)
    requires s > 0.0 && price > 0.0
    ensures price * s > 0.0
    ensures price >= 0.5 / s <==> price * s >= 0.5
  {
    var half := 0.5 / s;
    assert half * s == 0.5;
    Distributes(price - half, half, s);
    if price >= half {
      assert (price - half) * s >= 0.0;
    } else {
      Distributes(half - price, price, s);
      assert (half - price) * s > 0.0;
    }
  }

  lemma FloorOfHalf(q: real)
    requires q > 0.0
    ensures (q + 0.5).Floor >= 0
    ensures (q + 0.5).Floor > 0 <==> q >= 0.5
  {
  }

  lemma Quotient(n: int, s: real)
    requires s > 0.0 && n >= 0
    ensures n as real / s >= 0.0
    ensures n as real / s > 0.0 <==> n > 0
  {
    if n > 0 {
      Divide(0.0, n as real, s);
    }
  }

  /** A stop that is sent as 0: one unit bought at 1.00, quoted in cents, to lose at most 0.996. */
  lemma ZeroIsSent()
    ensures PriceForAmount(Buy, StopLoss, 1.0, 0.996, Some(1.0), 100, None) == Some(0.0)
  {
  }
}
