/** Closing everything on one account and verifying it, against a broker that may refuse closes,
    open new positions meanwhile or stop answering. */
module Flatten {
  import opened Base

  const FLATTEN_ROUNDS: nat := 3

  datatype Position = Position(id: nat, volume: nat)

  datatype Snapshot = Snapshot(positions: seq<Position>, orders: seq<nat>)

  datatype Request = ClosePosition(id: nat, volume: nat) | CancelOrder(id: nat)

  datatype Summary =
    | Measured(closed: nat, cancelled: nat, positions: seq<nat>, orders: seq<nat>, rounds: nat, flat: bool)
    | Unreachable

  function Ids(positions: seq<Position>): (ids: seq<nat>)
    ensures |ids| == |positions| && forall i | 0 <= i < |ids| :: ids[i] == positions[i].id
  {
    seq(|positions|, i requires 0 <= i < |positions| => positions[i].id)
  }

  function All(ids: seq<nat>): set<nat> {
    set x | x in ids
  }

  /** What the first list had and the last one has not. */
  ghost function Gone(first: seq<nat>, last: seq<nat>): set<nat> {
    set x | x in first && x !in last
  }

  ghost function Left(first: seq<nat>, last: seq<nat>): set<nat> {
    set x | x in first && x in last
  }

  lemma GoneOrLeft(first: seq<nat>, last: seq<nat>)
    ensures |All(first)| - |All(first) * All(last)| == |Gone(first, last)|
    ensures |Gone(first, last)| + |Left(first, last)| == |All(first)|
  {
    assert All(first) == Gone(first, last) + Left(first, last);
    assert All(first) * All(last) == Left(first, last);
  }

  /** The summary of a flatten that first saw `first` and last saw `last`. */
  function Summarise(first: Snapshot, last: Snapshot, rounds: nat): (r: Summary)
    ensures r.Measured?
    ensures r.closed == |Gone(Ids(first.positions), Ids(last.positions))|
    ensures r.cancelled == |Gone(first.orders, last.orders)|
    ensures r.closed + |Left(Ids(first.positions), Ids(last.positions))| == |All(Ids(first.positions))|
    ensures r.cancelled + |Left(first.orders, last.orders)| == |All(first.orders)|
    ensures r.flat <==> last.positions == [] && last.orders == []
    ensures r.positions == Ids(last.positions) && r.orders == last.orders && r.rounds == rounds
  {
    var before, after := Ids(first.positions), Ids(last.positions);
    GoneOrLeft(before, after);
    GoneOrLeft(first.orders, last.orders);
    Measured(|All(before)| - |All(before) * All(after)|, |All(first.orders)| - |All(first.orders) * All(last.orders)|,
             after, last.orders, rounds, after == [] && last.orders == [])
  }

  /** One close in full for each position, then one cancel for each order, and nothing else. */
  ghost predicate OneEach(s: Snapshot, round: seq<Request>) {
    && |round| == |s.positions| + |s.orders|
    && (forall i | 0 <= i < |s.positions| :: round[i] == ClosePosition(s.positions[i].id, s.positions[i].volume))
    && (forall i | 0 <= i < |s.orders| :: round[|s.positions| + i] == CancelOrder(s.orders[i]))
  }

  /** The round closes exactly these positions and cancels exactly these orders. */
  ghost predicate ClosesExactly(s: Snapshot, round: seq<Request>) {
    && (forall id, volume :: ClosePosition(id, volume) in round <==> Position(id, volume) in s.positions)
    && (forall id :: CancelOrder(id) in round <==> id in s.orders)
  }

  /** A round went out for this answer, which showed something: one request each, and no other. */
  ghost predicate RoundOk(answer: Option<Snapshot>, round: seq<Request>) {
    && answer.Some? && (answer.value.positions != [] || answer.value.orders != [])
    && OneEach(answer.value, round) && ClosesExactly(answer.value, round)
  }

  ghost predicate RoundsOk(answers: seq<Option<Snapshot>>, sent: seq<seq<Request>>) {
    |sent| <= |answers| && forall n | 0 <= n < |sent| :: RoundOk(answers[n], sent[n])
  }

  /** One round of requests. */
  method SendRound(s: Snapshot) returns (round: seq<Request>)
    ensures OneEach(s, round) && ClosesExactly(s, round)
  {
    round := [];
    for i := 0 to |s.positions|
      invariant |round| == i
      invariant forall k | 0 <= k < i :: round[k] == ClosePosition(s.positions[k].id, s.positions[k].volume)
    {
      round := round + [ClosePosition(s.positions[i].id, s.positions[i].volume)];
    }
    for i := 0 to |s.orders|
      invariant |round| == |s.positions| + i
      invariant forall k | 0 <= k < |s.positions| :: round[k] == ClosePosition(s.positions[k].id, s.positions[k].volume)
      invariant forall k | 0 <= k < i :: round[|s.positions| + k] == CancelOrder(s.orders[k])
    {
      round := round + [CancelOrder(s.orders[i])];
    }
    WhatIsSent(s, round);
  }

  lemma WhatIsSent(s: Snapshot, round: seq<Request>)
    requires OneEach(s, round)
    ensures ClosesExactly(s, round)
  {
    forall p | p in s.positions
      ensures ClosePosition(p.id, p.volume) in round
    {
      var i :| 0 <= i < |s.positions| && s.positions[i] == p;
      assert round[i] == ClosePosition(p.id, p.volume);
    }
    forall id | id in s.orders
      ensures CancelOrder(id) in round
    {
      var i :| 0 <= i < |s.orders| && s.orders[i] == id;
      assert round[|s.positions| + i] == CancelOrder(id);
    }
    forall q | q in round
      ensures if q.ClosePosition? then Position(q.id, q.volume) in s.positions else q.id in s.orders
    {
      var i :| 0 <= i < |round| && round[i] == q;
      if i >= |s.positions| {
        assert round[|s.positions| + (i - |s.positions|)] == CancelOrder(s.orders[i - |s.positions|]);
      }
    }
  }

  lemma OneMoreRound(answers: seq<Option<Snapshot>>, sent: seq<seq<Request>>, round: seq<Request>)
    requires RoundsOk(answers, sent) && |sent| < |answers| && RoundOk(answers[|sent|], round)
    ensures RoundsOk(answers, sent + [round])
  {
  }

  /**
   MEASURED FACTS: `answers` is what the broker would say to each successive reconcile, chosen
   by an adversary. The summary is drawn from the first and last answer alone; every round closes
   in full each position and cancels each order its snapshot showed, and nothing else; only a flat book ends
   the rounds early.
   */
  method FlattenAccount(answers: seq<Option<Snapshot>>) returns (r: Summary, taken: nat, sent: seq<seq<Request>>)
    requires |answers| == 4
    ensures 1 <= taken <= 4
    ensures r.Unreachable? <==> answers[taken - 1].None?
    ensures |sent| == taken - 1 && RoundsOk(answers, sent)
    ensures r.Measured? ==>
              && answers[0].Some? && r == Summarise(answers[0].value, answers[taken - 1].value, taken - 1)
              && (taken <= 3 ==>
                    answers[taken - 1].value.positions == [] && answers[taken - 1].value.orders == [])
  {
    var first, last := Snapshot([], []), Snapshot([], []);
    sent, taken := [], 0;
    var attempt := 0;
    while attempt < FLATTEN_ROUNDS
      invariant 0 <= attempt <= FLATTEN_ROUNDS
      invariant attempt > 0 ==> answers[0].Some? && first == answers[0].value
      invariant |sent| == attempt && RoundsOk(answers, sent)
    {
      taken := attempt + 1;
      if answers[attempt].None? {
        return Unreachable, taken, sent;
      }
      last := answers[attempt].value;
      if attempt == 0 {
        first := last;
      }
      if last.positions == [] && last.orders == [] {
        break;
      }
      var round := SendRound(last);
      OneMoreRound(answers, sent, round);
      sent := sent + [round];
      attempt := attempt + 1;
    }
    if attempt == FLATTEN_ROUNDS {
      // Ask once more: the last round went out unmeasured.
      taken := FLATTEN_ROUNDS + 1;
      if answers[FLATTEN_ROUNDS].None? {
        return Unreachable, taken, sent;
      }
      last := answers[FLATTEN_ROUNDS].value;
    }
    r := Summarise(first, last, attempt);
  }
}
