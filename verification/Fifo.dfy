/**
 Oldest-first consumption of a volume: how a close on a shared net position is charged to the
 copies in it (the mapping rows of a netting follower) and to the virtual positions of a
 netting master.
 */
module Fifo {
  function MinOf(a: int, b: int): int {
    if a < b then a else b
  }

  /** What an oldest-first walk leaves of each held volume. */
  function Consume(held: seq<nat>, volume: nat): (left: seq<nat>)
    ensures |left| == |held|
  {
    if held == [] then []
    else var take := MinOf(held[0], volume); [held[0] - take] + Consume(held[1..], volume - take)
  }

  function Total(held: seq<nat>): nat {
    if held == [] then 0 else held[0] + Total(held[1..])
  }

  /** CONSERVATION: the walk takes exactly the closed volume, or everything there is. */
  lemma {:induction false} ConsumeTakes(held: seq<nat>, volume: nat)
    ensures Total(held) - Total(Consume(held, volume)) == MinOf(volume, Total(held))
  {
    if held != [] {
      var take := MinOf(held[0], volume);
      ConsumeTakes(held[1..], volume - take);
      var left := Consume(held, volume);
      assert left[0] == held[0] - take && left[1..] == Consume(held[1..], volume - take);
    }
  }

  /** OLDEST FIRST: a row keeps anything only if every younger row is untouched. */
  lemma {:induction false} ConsumeIsFifo(held: seq<nat>, volume: nat, i: nat, j: nat)
    requires i < j < |held|
    ensures Consume(held, volume)[i] > 0 ==> Consume(held, volume)[j] == held[j]
    decreases held
  {
    var take := MinOf(held[0], volume);
    var left := Consume(held, volume);
    assert left[1..] == Consume(held[1..], volume - take);
    assert left[j] == Consume(held[1..], volume - take)[j - 1];
    if i > 0 {
      assert left[i] == Consume(held[1..], volume - take)[i - 1];
      ConsumeIsFifo(held[1..], volume - take, i - 1, j - 1);
    } else if held[0] > volume {
      ConsumeNothing(held[1..]);
    }
  }

  lemma {:induction false} ConsumeNothing(held: seq<nat>)
    ensures Consume(held, 0) == held
  {
    if held != [] {
      ConsumeNothing(held[1..]);
    }
  }

  /** Two walks in a row are one walk of the sum: partial closes may arrive in any split. */
  lemma {:induction false} ConsumeTwice(held: seq<nat>, a: nat, b: nat)
    ensures Consume(Consume(held, a), b) == Consume(held, a + b)
  {
    if held != [] {
      var take := MinOf(held[0], a);
      var rest := held[0] - take;
      var mid := Consume(held, a);
      assert mid[0] == rest && mid[1..] == Consume(held[1..], a - take);
      var take' := MinOf(rest, b);
      ConsumeTwice(held[1..], a - take, b - take');
      assert MinOf(held[0], a + b) == take + take';
    }
  }
}
