/**
 What each booking takes of the mapping rows. A booking can be entered and leave every row as it was:
 here is when it does what its deal calls for, and that the rows are always the log replayed.
 */
module Mt5Rows {
  import opened Fifo
  import opened Mt5Sync

  /** The client order id is unique. */
  ghost predicate DistinctCopies(ms: seq<Mapping>) {
    forall i, j | 0 <= i < j < |ms| :: ms[i].copy != ms[j].copy
  }

  /** What the active rows of a copy hold. */
  function HeldBy(ms: seq<Mapping>, copy: nat): nat {
    if ms == [] then 0
    else (if ms[0].active && ms[0].copy == copy then ms[0].volume else 0) + HeldBy(ms[1..], copy)
  }

  lemma BookKeepsCopies(netting: bool, ms: seq<Mapping>, k: Booking)
    ensures |BookOn(netting, ms, k)| == |ms|
    ensures forall i | 0 <= i < |ms| :: BookOn(netting, ms, k)[i].copy == ms[i].copy
    ensures DistinctCopies(ms) ==> DistinctCopies(BookOn(netting, ms, k))
  {
    if k.ClosedPosition? {
      ReduceFifoConsumes(ms, k.position, k.volume);
    }
  }

  // ---------- a close of one copy ----------

  lemma {:induction false} NoneHeld(ms: seq<Mapping>, copy: nat)
    requires forall i | 0 <= i < |ms| :: ms[i].copy != copy
    ensures HeldBy(ms, copy) == 0
  {
    if ms != [] {
      NoneHeld(ms[1..], copy);
    }
  }

  /** A copy's close takes its volume, or all the copy holds. */
  lemma {:induction false} ReduceCopyTakes(ms: seq<Mapping>, copy: nat, closed: nat)
    requires DistinctCopies(ms)
    ensures HeldBy(ms, copy) - HeldBy(ReduceCopy(ms, copy, closed), copy) == MinOf(closed, HeldBy(ms, copy))
  {
    if ms != [] {
      var r := ReduceCopy(ms, copy, closed);
      assert r[1..] == ReduceCopy(ms[1..], copy, closed);
      ReduceCopyTakes(ms[1..], copy, closed);
      if ms[0].copy == copy {
        NoneHeld(ms[1..], copy);
      }
    }
  }

  // ---------- a close of a position ----------

  /** Every row pays the whole volume, or all it holds. */
  function Each(held: seq<nat>, volume: nat): (left: seq<nat>)
    ensures |left| == |held|
  {
    if held == [] then []
    else [held[0] - MinOf(held[0], volume)] + Each(held[1..], volume)
  }

  /** At most one row holds anything. */
  ghost predicate Alone(held: seq<nat>) {
    forall i, j | 0 <= i < j < |held| :: held[i] == 0 || held[j] == 0
  }

  lemma {:induction false} ReduceAllIsEach(ms: seq<Mapping>, position: nat, closed: nat)
    ensures Held(ReduceAll(ms, position, closed), position) == Each(Held(ms, position), closed)
    ensures forall i | 0 <= i < |ms| :: OnlyReduced(ms[i], ReduceAll(ms, position, closed)[i], position)
  {
    if ms != [] {
      var r := ReduceAll(ms, position, closed);
      assert r[1..] == ReduceAll(ms[1..], position, closed);
      ReduceAllIsEach(ms[1..], position, closed);
    }
  }

  lemma {:induction false} EachTakesMore(held: seq<nat>, volume: nat)
    ensures Total(Each(held, volume)) <= Total(held)
    ensures Total(held) - Total(Each(held, volume)) >= MinOf(volume, Total(held))
  {
    if held != [] {
      EachTakesMore(held[1..], volume);
      assert Each(held, volume)[1..] == Each(held[1..], volume);
    }
  }

  lemma {:induction false} NothingHeld(held: seq<nat>)
    ensures Total(held) == 0 <==> forall i | 0 <= i < |held| :: held[i] == 0
  {
    if held != [] {
      NothingHeld(held[1..]);
      assert forall i | 0 <= i < |held| :: held[i] == if i == 0 then held[0] else held[1..][i - 1];
      assert forall i | 0 <= i < |held[1..]| :: held[1..][i] == held[i + 1];
    }
  }

  /** A volume that covers all that is held empties every row, either way. */
  lemma {:induction false} BothEmpty(held: seq<nat>, volume: nat, more: nat)
    requires volume >= Total(held) && more >= Total(held)
    ensures Each(held, volume) == Consume(held, more)
  {
    if held != [] {
      BothEmpty(held[1..], volume, more - held[0]);
    }
  }

  lemma TailAlone(held: seq<nat>)
    requires held != []
    ensures Alone(held) <==> Alone(held[1..]) && (held[0] == 0 || Total(held[1..]) == 0)
  {
    NothingHeld(held[1..]);
    var rest := held[1..];
    assert forall i | 0 <= i < |rest| :: rest[i] == held[i + 1];
    if Alone(rest) && (held[0] == 0 || Total(rest) == 0) {
      forall i, j | 0 <= i < j < |held|
        ensures held[i] == 0 || held[j] == 0
      {
        assert held[j] == rest[j - 1];
        if i > 0 {
          assert held[i] == rest[i - 1];
        }
      }
    }
    if Alone(held) && held[0] != 0 {
      forall i | 0 <= i < |rest|
        ensures rest[i] == 0
      {
        assert held[0] == 0 || held[i + 1] == 0;
      }
    }
  }

  /** More than one row pays too much, unless the close empties them all. */
  lemma EachOverpays(held: seq<nat>, volume: nat)
    requires held != [] && held[0] > 0 && Total(held[1..]) > 0 && 0 < volume < Total(held)
    ensures Total(held) - Total(Each(held, volume)) > volume
  {
    EachTakesMore(held[1..], volume);
    assert Each(held, volume)[1..] == Each(held[1..], volume);
  }

  /** WHEN REDUCING EVERY ROW IS RIGHT: exactly when nothing is closed, everything is, or one row holds it all. */
  lemma {:induction false} EachIsConsume(held: seq<nat>, volume: nat)
    ensures Each(held, volume) == Consume(held, volume) <==>
            volume == 0 || volume >= Total(held) || Alone(held)
  {
    if volume >= Total(held) {
      BothEmpty(held, volume, volume);
    } else {
      TailAlone(held);
      var each, left := Each(held, volume), Consume(held, volume);
      assert each[1..] == Each(held[1..], volume);
      if held[0] == 0 {
        EachIsConsume(held[1..], volume);
        assert left[1..] == Consume(held[1..], volume);
      } else if Total(held[1..]) == 0 {
        NothingHeld(held[1..]);
        BothEmpty(held[1..], volume, volume - MinOf(held[0], volume));
      } else if volume == 0 {
        EachIsConsume(held[1..], 0);
        assert left[1..] == Consume(held[1..], 0);
      } else {
        EachOverpays(held, volume);
        ConsumeTakes(held, volume);
      }
    }
  }

  // ---------- what a booking needs, and what it then does ----------

  /** The row is active and its order is this one. */
  ghost predicate WorksOn(m: Mapping, order: nat) {
    m.active && m.order == order != 0
  }

  /** The rows working the order are those of the copy it was placed for, and there is one. */
  ghost predicate WorkedByOwner(orders: map<nat, nat>, ms: seq<Mapping>, order: nat) {
    && (forall i | 0 <= i < |ms| && WorksOn(ms[i], order) :: order in orders && ms[i].copy == orders[order])
    && (order in orders ==> exists i :: 0 <= i < |ms| && WorksOn(ms[i], order))
  }

  ghost predicate Unfilled(ms: seq<Mapping>, order: nat) {
    forall i | 0 <= i < |ms| && WorksOn(ms[i], order) :: ms[i].volume == 0
  }

  ghost predicate HasRow(ms: seq<Mapping>, copy: nat) {
    exists i :: 0 <= i < |ms| && ms[i].copy == copy
  }

  /** The copy's row holds nothing, or is active on this position. */
  ghost predicate NotElsewhere(m: Mapping, position: nat) {
    m.volume == 0 || (m.active && m.position == position != 0)
  }

  /**
   The rows have what the booking is to move: an open finds its copy's row, holding nothing but on that
   position; a copy's close finds its volume in that row; a close on a hedging account finds no two rows
   sharing the position, unless it empties them; a fill finds the row of the copy its order was placed
   for, holding nothing yet, and no other; an accepted order finds its copy's row.
   */
  ghost predicate Finds(orders: map<nat, nat>, netting: bool, ms: seq<Mapping>, k: Booking) {
    match k
    case Activated(_, copy, position, _) =>
      HasRow(ms, copy) && forall i | 0 <= i < |ms| && ms[i].copy == copy :: NotElsewhere(ms[i], position)
    case ClosedCopy(_, copy, volume) => volume <= HeldBy(ms, copy)
    case ClosedPosition(_, position, volume) =>
      var held := Held(ms, position);
      netting || volume == 0 || volume >= Total(held) || Alone(held)
    case Filled(_, order, _, _) => WorkedByOwner(orders, ms, order) && Unfilled(ms, order)
    case Accepted(_, copy, _) => HasRow(ms, copy)
    case Dropped(_, _) => true
    case AckedFill(_, _, _, _) => true
  }

  /** What the row held of the position, and nothing else. */
  ghost function HeldOn(m: Mapping, position: nat): nat {
    if m.active && m.position == position != 0 then m.volume else 0
  }

  /**
   What the booking makes of one row. An open has its copy hold its volume more of its position; a copy's
   close takes its volume from that copy, and closes the row when that is all; a close takes from the rows
   of its position; a fill becomes the position of the rows working its order and adds its volume; an
   accepted order is worked by its copy's row, a dropped one by none. Any other row is as it was.
   */
  ghost predicate RowMoves(m: Mapping, n: Mapping, k: Booking) {
    match k
    case Activated(_, copy, position, volume) =>
      n == if m.copy == copy then
             m.(position := position, volume := HeldOn(m, position) + volume, active := true) else m
    case ClosedCopy(_, copy, volume) =>
      if m.copy == copy && m.active then
        n.volume + volume == m.volume && n == m.(volume := n.volume, active := n.volume > 0)
      else n == m
    case ClosedPosition(_, position, _) => OnlyReduced(m, n, position)
    case Filled(_, order, position, volume) =>
      n == if WorksOn(m, order) then m.(position := position, volume := m.volume + volume) else m
    case Accepted(_, copy, order) => n == if m.copy == copy then m.(order := order, active := true) else m
    case Dropped(_, order) => n == if WorksOn(m, order) then m.(active := false) else m
    case AckedFill(_, order, position, volume) =>
      n == if WorksOn(m, order) then m.(position := position, volume := volume) else m
  }

  ghost predicate RowsMove(before: seq<Mapping>, after: seq<Mapping>, k: Booking) {
    |after| == |before| && forall i | 0 <= i < |before| :: RowMoves(before[i], after[i], k)
  }

  /**
   What the booking is for, between the rows before and after it: every row moves as it says, and there is
   a row to move. An open and an accepted order have their copy's row, a copy's close takes its whole
   volume from that copy, a close takes its volume from the position, oldest row first, or all that is
   held, and a fill is of an order worked for the copy it was placed for.
   */
  ghost predicate Lands(orders: map<nat, nat>, before: seq<Mapping>, after: seq<Mapping>, k: Booking) {
    && RowsMove(before, after, k)
    && match k
       case Activated(_, copy, _, _) => HasRow(before, copy)
       case ClosedCopy(_, copy, volume) => HeldBy(after, copy) + volume == HeldBy(before, copy)
       case ClosedPosition(_, position, volume) => Held(after, position) == Consume(Held(before, position), volume)
       case Filled(_, order, _, _) => WorkedByOwner(orders, before, order)
       case Accepted(_, copy, _) => HasRow(before, copy)
       case Dropped(_, _) => true
       case AckedFill(_, _, _, _) => true
  }

  lemma ActivatedLands(ms: seq<Mapping>, k: Booking)
    requires k.Activated?
    ensures RowsMove(ms, Activate(ms, k.copy, k.position, k.volume), k) <==>
            forall i | 0 <= i < |ms| && ms[i].copy == k.copy :: NotElsewhere(ms[i], k.position)
  {
    var r := Activate(ms, k.copy, k.position, k.volume);
    assert forall i | 0 <= i < |ms| ::
        RowMoves(ms[i], r[i], k) <==> (ms[i].copy == k.copy ==> NotElsewhere(ms[i], k.position));
  }

  lemma {:induction false} HeldByOwn(ms: seq<Mapping>, copy: nat, i: nat)
    requires DistinctCopies(ms) && i < |ms| && ms[i].copy == copy && ms[i].active
    ensures HeldBy(ms, copy) == ms[i].volume
    decreases |ms|
  {
    if i == 0 {
      NoneHeld(ms[1..], copy);
    } else {
      HeldByOwn(ms[1..], copy, i - 1);
    }
  }

  lemma ClosedCopyLands(ms: seq<Mapping>, k: Booking)
    requires k.ClosedCopy? && DistinctCopies(ms) && k.volume <= HeldBy(ms, k.copy)
    ensures RowsMove(ms, ReduceCopy(ms, k.copy, k.volume), k)
  {
    var r := ReduceCopy(ms, k.copy, k.volume);
    forall i | 0 <= i < |ms|
      ensures RowMoves(ms[i], r[i], k)
    {
      if ms[i].copy == k.copy && ms[i].active {
        HeldByOwn(ms, k.copy, i);
      }
    }
  }

  lemma ClosedPositionLands(orders: map<nat, nat>, netting: bool, ms: seq<Mapping>, k: Booking)
    requires k.ClosedPosition?
    ensures Lands(orders, ms, BookOn(netting, ms, k), k) <==> Finds(orders, netting, ms, k)
  {
    if netting {
      ReduceFifoConsumes(ms, k.position, k.volume);
    } else {
      ReduceAllIsEach(ms, k.position, k.volume);
      EachIsConsume(Held(ms, k.position), k.volume);
    }
  }

  lemma FilledLands(ms: seq<Mapping>, k: Booking)
    requires k.Filled?
    ensures RowsMove(ms, FillOrder(ms, k.order, k.position, k.volume), k) <==> Unfilled(ms, k.order)
  {
    var r := FillOrder(ms, k.order, k.position, k.volume);
    assert forall i | 0 <= i < |ms| ::
        RowMoves(ms[i], r[i], k) <==> (WorksOn(ms[i], k.order) ==> ms[i].volume == 0);
  }

  /** EXACTLY WHEN A BOOKING DOES WHAT IT IS FOR. */
  lemma LandsExactly(orders: map<nat, nat>, netting: bool, ms: seq<Mapping>, k: Booking)
    requires DistinctCopies(ms)
    ensures Lands(orders, ms, BookOn(netting, ms, k), k) <==> Finds(orders, netting, ms, k)
  {
    match k
    case Activated(_, _, _, _) => ActivatedLands(ms, k);
    case ClosedCopy(_, copy, volume) =>
      ReduceCopyTakes(ms, copy, volume);
      if volume <= HeldBy(ms, copy) {
        ClosedCopyLands(ms, k);
      }
    case ClosedPosition(_, _, _) => ClosedPositionLands(orders, netting, ms, k);
    case Filled(_, _, _, _) => FilledLands(ms, k);
    case _ =>
  }

  // ---------- the rows are the log replayed ----------

  function Replay(netting: bool, mappings: seq<Mapping>, log: seq<Booking>): seq<Mapping> {
    if log == [] then mappings
    else BookOn(netting, Replay(netting, mappings, log[..|log| - 1]), log[|log| - 1])
  }

  lemma ReplaySnoc(netting: bool, mappings: seq<Mapping>, log: seq<Booking>, k: Booking)
    ensures Replay(netting, mappings, log + [k]) == BookOn(netting, Replay(netting, mappings, log), k)
  {
    assert (log + [k])[..|log|] == log;
  }

  lemma {:induction false} ReplaySplit(netting: bool, mappings: seq<Mapping>, a: seq<Booking>, b: seq<Booking>)
    ensures Replay(netting, mappings, a + b) == Replay(netting, Replay(netting, mappings, a), b)
    decreases |b|
  {
    if b == [] {
      assert a + b == a;
    } else {
      var n := |b| - 1;
      assert a + b == a + b[..n] + [b[n]];
      ReplaySnoc(netting, mappings, a + b[..n], b[n]);
      ReplaySplit(netting, mappings, a, b[..n]);
    }
  }

  lemma {:induction false} ReplayKeepsCopies(netting: bool, mappings: seq<Mapping>, log: seq<Booking>)
    requires DistinctCopies(mappings)
    ensures DistinctCopies(Replay(netting, mappings, log))
    decreases |log|
  {
    if log != [] {
      var n := |log| - 1;
      ReplayKeepsCopies(netting, mappings, log[..n]);
      BookKeepsCopies(netting, Replay(netting, mappings, log[..n]), log[n]);
    }
  }

  /** The later book has the earlier one's log and more, and its rows are that more, replayed. */
  ghost predicate Follows(b: Book, u: Book) {
    && u.netting == b.netting && b.log <= u.log
    && u.mappings == Replay(b.netting, b.mappings, u.log[|b.log|..])
  }

  lemma PostFollows(b: Book, u: Book, k: Booking)
    requires Follows(b, u)
    ensures Follows(b, Post(u, k))
  {
    assert (u.log + [k])[|b.log|..] == u.log[|b.log|..] + [k];
    ReplaySnoc(b.netting, b.mappings, u.log[|b.log|..], k);
  }

  lemma {:induction false} OutcomesFollow(b: Book, u: Book, outs: seq<Outcome>, deals: seq<Deal>)
    requires Follows(b, u)
    ensures Follows(b, PostOutcomes(u, outs, deals))
    decreases |outs|
  {
    if outs != [] {
      var n := |outs| - 1;
      OutcomesFollow(b, u, outs[..n], deals);
      var k := OutcomeBooking(outs[n], deals);
      if k.Some? {
        PostFollows(b, PostOutcomes(u, outs[..n], deals), k.value);
      }
    }
  }

  lemma DealFollows(b: Book, u: Book, d: Deal, mapped: set<nat>)
    requires Follows(b, u)
    ensures Follows(b, BookDeal(u, d, mapped))
  {
    PostFollows(b, u, ClosedPosition(d.ticket, d.position, d.volume));
    PostFollows(b, u, Filled(d.ticket, d.order, d.position, d.volume));
  }

  lemma {:induction false} DealsFollow(b: Book, u: Book, deals: seq<Deal>, mapped: set<nat>)
    requires Follows(b, u)
    ensures Follows(b, BookDeals(u, deals, mapped))
    decreases |deals|
  {
    if deals != [] {
      var n := |deals| - 1;
      DealsFollow(b, u, deals[..n], mapped);
      DealFollows(b, BookDeals(u, deals[..n], mapped), deals[n], mapped);
    }
  }

  lemma FollowsOn(a: Book, b: Book, c: Book)
    requires Follows(a, b) && Follows(b, c)
    ensures Follows(a, c)
  {
    assert c.log[|a.log|..] == b.log[|a.log|..] + c.log[|b.log|..];
    ReplaySplit(a.netting, a.mappings, b.log[|a.log|..], c.log[|b.log|..]);
  }
}
