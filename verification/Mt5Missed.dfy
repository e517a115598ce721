/**
 The runs of a follower terminal in which every ack is in order and a deal still does not move the rows as
 it should, one per thing a booking can fail to find.
 */
module Mt5Missed {
  import opened Base
  import opened Mt5Sync
  import opened Mt5Rows
  import opened Mt5Runs
  import opened Mt5Exact
  import opened Mt5Faults

  /** A booking that does not find what it is to move makes its deal booked wrong. */
  lemma NotRight(w: Terminal, rows: seq<Mapping>, b: Book, log: seq<Booking>, k: Booking, d: Deal)
    requires DistinctCopies(rows) && log + [k] <= b.log && Concerns(w, d.ticket, k)
    requires !Finds(w.orders, b.netting, Replay(b.netting, rows, log), k)
    ensures !BookedRight(w, rows, b, d)
  {
    var j := |log|;
    assert b.log[..j] == log && b.log[j] == k;
    LandsIfFound(w, b.netting, rows, b.log, j);
  }

  /** A run whose last booking does not find what it is to move. */
  lemma Wrong(w: Terminal, netting: bool, rows: seq<Mapping>, run: seq<Event>, log: seq<Booking>, k: Booking, d: Deal)
    requires DistinctCopies(rows) && Ends(w, Start(netting, rows), run, log + [k], {}) && Concerns(w, d.ticket, k)
    requires !Finds(w.orders, netting, Replay(netting, rows, log), k)
    ensures var u := Exec(w, Start(netting, rows), run);
            && u.book.mappings == Replay(netting, rows, log + [k]) && !BookedRight(w, rows, u.book, d)
            && NoneRevived(u)
  {
    LogIsReplayed(w, netting, rows, run);
    NotRight(w, rows, Exec(w, Start(netting, rows), run).book, log, k, d);
  }

  /** A run that starts with a command queued. */
  lemma QueueEnds(w: Terminal, netting: bool, rows: seq<Mapping>, c: Command, rest: seq<Event>, log: seq<Booking>)
    requires c.open && (1 in w.dealOf ==> CopyCommand(c))
    requires forall t | Queued(t, c) && t.book.mappings == rows :: Ends(w, t, rest, log, {}) && AllTimely(w, t, rest)
    ensures var t, run := Start(netting, rows), [Queue(1, c)] + rest; Ends(w, t, run, log, {}) && AllTimely(w, t, run)
  {
    Queues(w, netting, rows, c);
    EndsAfter(w, Start(netting, rows), Queue(1, c), rest, log, {});
  }

  lemma QueueOnlyEnds(w: Terminal, netting: bool, rows: seq<Mapping>, c: Command, rest: seq<Event>, log: seq<Booking>)
    requires c.open && (1 in w.dealOf ==> CopyCommand(c))
    requires forall t | Queued(t, c) && t.book.mappings == rows :: Ends(w, t, rest, log, {})
    ensures Ends(w, Start(netting, rows), [Queue(1, c)] + rest, log, {})
  {
    Queues(w, netting, rows, c);
    EndsAfter(w, Start(netting, rows), Queue(1, c), rest, log, {});
  }

  lemma ReplayTwo(netting: bool, rows: seq<Mapping>, k: Booking, l: Booking)
    ensures Replay(netting, rows, [k]) == BookOn(netting, rows, k)
    ensures Replay(netting, rows, [k, l]) == BookOn(netting, BookOn(netting, rows, k), l)
  {
    ReplaySnoc(netting, rows, [], k);
    ReplaySnoc(netting, rows, [k], l);
    assert [] + [k] == [k] && [k] + [l] == [k, l];
  }

  // ---------- an ack and its deal in one poll ----------

  function BothPoll(d: Deal, at: nat): Event {
    Poll(Report([OkAck(d.ticket, d.position, Some(d.volume))], [d]), at, at + 1)
  }

  lemma OneNewer(b: Book, acks: seq<Ack>, d: Deal)
    requires d.ticket > b.watermark
    ensures Newer(b, Report(acks, [d])) == [d] && MaxTicket([d], b.watermark) == d.ticket
  {
    assert [d][1..] == [];
    assert Past([d], b.watermark) == [d] + Past([], b.watermark) == [d];
    assert SortDeals([d]) == Insert(d, SortDeals([])) == [d];
  }

  /** The ack books, and the deal it names is skipped. */
  lemma AckWithDeal(b: Book, a: Ack, o: Outcome, d: Deal)
    requires OutcomesOf(b.commands, [a]) == [o] && Named([o]) == {d.ticket} && d.trade && d.ticket > b.watermark
    ensures var p := PostOutcome(b.(commands := CommandsAfter(b.commands, [a])), o, [d]);
            Sync(b, Report([a], [d])).log == p.log
  {
    var r := Report([a], [d]);
    OneNewer(b, [a], d);
    SyncIs(b, r);
    PostOne(b.(commands := CommandsAfter(b.commands, [a])), o, [d]);
    BookOne(Ready(b, r), d, Mapped(b, r));
  }

  /** What the ack of the copy's order books, when its deal comes along. */
  function Own(copy: nat, closes: bool, d: Deal): Booking {
    if closes then ClosedCopy(1, copy, d.volume) else Activated(1, copy, d.position, d.volume)
  }

  lemma BothBook(w: Terminal, t: Trace, copy: nat, closes: bool, d: Deal, at: nat)
    requires t.book.commands == map[1 := CopyOrder(copy, closes, d.volume, true)]
    requires d.trade && d.ticket > t.book.watermark && d.position != 0
    ensures var u := Next(w, t, BothPoll(d, at));
            && u.book.log == t.book.log + [Own(copy, closes, d)] && u.expired == t.expired
            && u.seen == SeenAfter(t, at + 1)
  {
    var a := OkAck(d.ticket, d.position, Some(d.volume));
    var o := CopyAck(copy, closes, d.ticket, d.position, d.volume);
    CopyAcked(t.book.commands, copy, closes, d.volume, d.ticket, d.position, Some(d.volume));
    AckWithDeal(t.book, a, o, d);
  }

  lemma BothTimely(w: Terminal, t: Trace, copy: nat, closes: bool, d: Deal, at: nat)
    requires t.book.commands == map[1 := CopyOrder(copy, closes, d.volume, true)]
    requires 1 in w.dealOf && w.dealOf[1] == d && d.ticket > 0 && d.position != 0
    ensures Timely(w, t, BothPoll(d, at))
  {
    var o := CopyAck(copy, closes, d.ticket, d.position, d.volume);
    CopyAcked(t.book.commands, copy, closes, d.volume, d.ticket, d.position, Some(d.volume));
    assert Acks(w, o) && Made(w, o) == d.ticket;
    assert d.ticket in Acked(w, [o]);
  }

  /** The deal, the last of the terminal's, is acked in full and reported in one poll. */
  lemma BothEnds(w: Terminal, t: Trace, copy: nat, closes: bool, d: Deal, at: nat)
    requires t.book.commands == map[1 := CopyOrder(copy, closes, d.volume, true)]
    requires d.trade && d.ticket > t.book.watermark && d.position != 0
    requires 1 in w.dealOf && w.dealOf[1] == d && |w.history| == at + 1 && w.history[at] == d && t.seen == at
    ensures Ends(w, t, [BothPoll(d, at)], t.book.log + [Own(copy, closes, d)], t.expired)
    ensures AllTimely(w, t, [BothPoll(d, at)])
  {
    assert w.history[at..at + 1] == [d];
    BothBook(w, t, copy, closes, d, at);
    BothTimely(w, t, copy, closes, d, at);
    EndsWith(w, t, BothPoll(d, at));
  }

  // ---------- a copy's close that finds its row empty ----------

  /** A close by hand, then the deal of a copy's own close. */
  function HandThenCopy(byHand: Deal, d: Deal): Terminal {
    Terminal([byHand, d], map[1 := d], map[])
  }

  function TwoCopies(a: nat, b: nat, position: nat, volume: nat): seq<Mapping> {
    [Mapping(a, position, 0, volume, true), Mapping(b, position, 0, volume, true)]
  }

  function EmptyRun(a: nat, byHand: Deal, d: Deal): seq<Event> {
    [QueueCopy(a, true, d.volume), DealPoll(byHand), BothPoll(d, 1)]
  }

  ghost predicate SameClose(byHand: Deal, d: Deal) {
    && Does(byHand, Closing) && Does(d, Closing) && 0 < byHand.ticket < d.ticket && d.volume > 0
    && byHand.position == d.position != 0 && byHand.volume == d.volume
  }

  lemma HandThenCopyOk(byHand: Deal, d: Deal)
    requires SameClose(byHand, d)
    ensures TerminalOk(HandThenCopy(byHand, d)) && !IsCopyDeal(HandThenCopy(byHand, d), byHand.ticket)
  {
    var w := HandThenCopy(byHand, d);
    assert w.history[1] == d && MadeOk(w, d);
  }

  /** The close by hand takes the older copy's volume, and nothing is left for that copy's own close. */
  lemma OldestGoes(a: nat, b: nat, position: nat, volume: nat)
    requires position != 0 && volume > 0 && a != b
    ensures var left := [Mapping(a, position, 0, 0, false), Mapping(b, position, 0, volume, true)];
            && ReduceFifo(TwoCopies(a, b, position, volume), position, volume) == left
            && ReduceCopy(left, a, volume) == left && HeldBy(left, a) == 0
  {
    var ms := TwoCopies(a, b, position, volume);
    assert ms[1..] == [ms[1]] && [ms[1]][1..] == [];
    assert ReduceFifo([ms[1]], position, 0) == [ms[1]] + ReduceFifo([], position, 0);
    var left := [Mapping(a, position, 0, 0, false), Mapping(b, position, 0, volume, true)];
    assert left[1..] == [left[1]] && HeldBy([left[1]], a) == HeldBy([], a);
  }

  /** The order is queued and the close by hand reported. */
  ghost predicate ByHand(u: Trace, a: nat, byHand: Deal, volume: nat) {
    && u.book.log == [Reported(byHand, Closing)] && u.book.commands == map[1 := CopyOrder(a, true, volume, true)]
    && u.book.watermark == byHand.ticket && u.seen == 1 && u.expired == {}
  }

  lemma HandStep(a: nat, byHand: Deal, d: Deal, t: Trace)
    requires SameClose(byHand, d) && Queued(t, CopyOrder(a, true, d.volume, true))
    ensures var w, e := HandThenCopy(byHand, d), DealPoll(byHand);
            Enabled(w, t, e) && Timely(w, t, e) && ByHand(Next(w, t, e), a, byHand, d.volume)
  {
    var w := HandThenCopy(byHand, d);
    HandThenCopyOk(byHand, d);
    assert w.history[0..1] == [byHand];
    DealStep(w, t, byHand);
  }

  lemma EmptyLast(a: nat, byHand: Deal, d: Deal, t: Trace)
    requires SameClose(byHand, d) && ByHand(t, a, byHand, d.volume)
    ensures var w, run := HandThenCopy(byHand, d), [BothPoll(d, 1)];
            Ends(w, t, run, [Reported(byHand, Closing)] + [Own(a, true, d)], {}) && AllTimely(w, t, run)
  {
    BothEnds(HandThenCopy(byHand, d), t, a, true, d, 1);
  }

  lemma EmptyTail(a: nat, byHand: Deal, d: Deal, t: Trace)
    requires SameClose(byHand, d) && Queued(t, CopyOrder(a, true, d.volume, true))
    ensures var w, run := HandThenCopy(byHand, d), [DealPoll(byHand)] + [BothPoll(d, 1)];
            Ends(w, t, run, [Reported(byHand, Closing)] + [Own(a, true, d)], {}) && AllTimely(w, t, run)
  {
    var w, e := HandThenCopy(byHand, d), DealPoll(byHand);
    HandStep(a, byHand, d, t);
    EmptyLast(a, byHand, d, Next(w, t, e));
    EndsAfter(w, t, e, [BothPoll(d, 1)], [Reported(byHand, Closing)] + [Own(a, true, d)], {});
  }

  lemma EmptyEnds(a: nat, byHand: Deal, d: Deal, rows: seq<Mapping>)
    requires SameClose(byHand, d)
    ensures var w, t, run := HandThenCopy(byHand, d), Start(true, rows), EmptyRun(a, byHand, d);
            Ends(w, t, run, [Reported(byHand, Closing)] + [Own(a, true, d)], {}) && AllTimely(w, t, run)
  {
    var w, c := HandThenCopy(byHand, d), CopyOrder(a, true, d.volume, true);
    var rest, log := [DealPoll(byHand)] + [BothPoll(d, 1)], [Reported(byHand, Closing)] + [Own(a, true, d)];
    forall t | Queued(t, c) && t.book.mappings == rows
      ensures Ends(w, t, rest, log, {}) && AllTimely(w, t, rest)
    {
      EmptyTail(a, byHand, d, t);
    }
    QueueEnds(w, true, rows, c, rest, log);
    assert [Queue(1, c)] + rest == EmptyRun(a, byHand, d);
  }

  lemma EmptyRows(a: nat, b: nat, byHand: Deal, d: Deal)
    requires a != b && SameClose(byHand, d)
    ensures var rows, k, l := TwoCopies(a, b, d.position, d.volume), Reported(byHand, Closing), Own(a, true, d);
            && DistinctCopies(rows) && !Finds(map[], true, Replay(true, rows, [k]), l)
            && Replay(true, rows, [k] + [l]) ==
               [Mapping(a, d.position, 0, 0, false), Mapping(b, d.position, 0, d.volume, true)]
  {
    ReplayTwo(true, TwoCopies(a, b, d.position, d.volume), Reported(byHand, Closing), Own(a, true, d));
    OldestGoes(a, b, d.position, d.volume);
  }

  /**
   EMPTY: a close by hand takes the older of two copies on a net position, and then that copy's own close,
   acked in full and on time, finds nothing to take. The net position is empty, and the rows still hold the
   other copy.
   */
  lemma EmptiedCopyClosesNothing(a: nat, b: nat, byHand: Deal, d: Deal)
    requires a != b && SameClose(byHand, d)
    ensures var w, rows := HandThenCopy(byHand, d), TwoCopies(a, b, d.position, d.volume);
            var t, run := Start(true, rows), EmptyRun(a, byHand, d);
            var u := Exec(w, t, run);
            && TerminalOk(w) && Run(w, t, run) && AllTimely(w, t, run) && NoneRevived(u) && u.seen == 2
            && u.book.mappings == [Mapping(a, d.position, 0, 0, false), Mapping(b, d.position, 0, d.volume, true)]
            && !BookedRight(w, rows, u.book, d)
  {
    var w, rows := HandThenCopy(byHand, d), TwoCopies(a, b, d.position, d.volume);
    HandThenCopyOk(byHand, d);
    EmptyEnds(a, byHand, d, rows);
    EmptyRows(a, b, byHand, d);
    Wrong(w, true, rows, EmptyRun(a, byHand, d), [Reported(byHand, Closing)], Own(a, true, d), d);
  }

  // ---------- an open that finds its row on another position ----------

  function IncreaseRun(copy: nat, d: Deal): seq<Event> {
    [QueueCopy(copy, false, d.volume), BothPoll(d, 0)]
  }

  lemma IncreaseEnds(copy: nat, d: Deal, rows: seq<Mapping>)
    requires d.trade && d.ticket > 0 && d.position != 0
    ensures var w, t, run := OneDeal(d), Start(false, rows), IncreaseRun(copy, d);
            Ends(w, t, run, [] + [Own(copy, false, d)], {}) && AllTimely(w, t, run)
  {
    var w, c := OneDeal(d), CopyOrder(copy, false, d.volume, true);
    forall t | Queued(t, c) && t.book.mappings == rows
      ensures Ends(w, t, [BothPoll(d, 0)], [] + [Own(copy, false, d)], {}) && AllTimely(w, t, [BothPoll(d, 0)])
    {
      BothEnds(w, t, copy, false, d, 0);
    }
    QueueEnds(w, false, rows, c, [BothPoll(d, 0)], [] + [Own(copy, false, d)]);
    assert [Queue(1, c)] + [BothPoll(d, 0)] == IncreaseRun(copy, d);
  }

  lemma ElsewhereMisses(m: Mapping, position: nat)
    requires m.position != position && m.volume > 0
    ensures !exists x :: x in [m] && x.copy == m.copy && x.volume == HeldOn(x, position)
  {
  }

  lemma IncreaseRows(copy: nat, position: nat, volume: nat, d: Deal)
    requires d.position != 0 && position != d.position && volume > 0
    ensures var rows, k := [Mapping(copy, position, 0, volume, true)], Own(copy, false, d);
            && !Finds(map[], false, Replay(false, rows, []), k)
            && Replay(false, rows, [] + [k]) == [Mapping(copy, d.position, 0, volume + d.volume, true)]
  {
    var m, k := Mapping(copy, position, 0, volume, true), Own(copy, false, d);
    ElsewhereMisses(m, d.position);
    assert Replay(false, [m], []) == [m];
    ReplaySnoc(false, [m], [], k);
    assert Activate([m], copy, d.position, d.volume) == [Mapping(copy, d.position, 0, volume + d.volume, true)];
  }

  /**
   ANOTHER POSITION: on a hedging account an increase of a copy is a position of its own. Its ack, full and on
   time, has the copy's row leave the old position for the new one with the volume of both.
   */
  lemma IncreaseLeavesPosition(copy: nat, position: nat, volume: nat, d: Deal)
    requires d.trade && d.ticket > 0 && d.position != 0 && position != d.position && volume > 0
    ensures var w, rows := OneDeal(d), [Mapping(copy, position, 0, volume, true)];
            var t, run := Start(false, rows), IncreaseRun(copy, d);
            var u := Exec(w, t, run);
            && TerminalOk(w) && Run(w, t, run) && AllTimely(w, t, run) && NoneRevived(u) && u.seen == 1
            && u.book.mappings == [Mapping(copy, d.position, 0, volume + d.volume, true)]
            && !BookedRight(w, rows, u.book, d)
  {
    var w, rows := OneDeal(d), [Mapping(copy, position, 0, volume, true)];
    OneDealOk(d);
    IncreaseEnds(copy, d, rows);
    IncreaseRows(copy, position, volume, d);
    Wrong(w, false, rows, IncreaseRun(copy, d), [], Own(copy, false, d), d);
  }

  // ---------- an open whose ack names another position ----------

  function AstrayPoll(d: Deal, position: nat): Event {
    Poll(Report([OkAck(d.ticket, position, Some(d.volume))], [d]), 0, 1)
  }

  function AstrayRun(copy: nat, d: Deal, position: nat): seq<Event> {
    [QueueCopy(copy, false, d.volume), AstrayPoll(d, position)]
  }

  lemma AstrayLast(copy: nat, d: Deal, position: nat, t: Trace)
    requires d.trade && d.ticket > 0 && position != 0 && Queued(t, CopyOrder(copy, false, d.volume, true))
    ensures Ends(OneDeal(d), t, [AstrayPoll(d, position)], [Activated(1, copy, position, d.volume)], {})
  {
    var w := OneDeal(d);
    var a, o := OkAck(d.ticket, position, Some(d.volume)), CopyAck(copy, false, d.ticket, position, d.volume);
    CopyAcked(t.book.commands, copy, false, d.volume, d.ticket, position, Some(d.volume));
    AckWithDeal(t.book, a, o, d);
    assert w.history[0..1] == [d];
    EndsWith(w, t, AstrayPoll(d, position));
  }

  lemma AstrayEnds(copy: nat, d: Deal, position: nat, rows: seq<Mapping>)
    requires d.trade && d.ticket > 0 && position != 0
    ensures Ends(OneDeal(d), Start(true, rows), AstrayRun(copy, d, position),
                 [Activated(1, copy, position, d.volume)], {})
  {
    var w, c, rest := OneDeal(d), CopyOrder(copy, false, d.volume, true), [AstrayPoll(d, position)];
    forall t | Queued(t, c) && t.book.mappings == rows
      ensures Ends(w, t, rest, [Activated(1, copy, position, d.volume)], {})
    {
      AstrayLast(copy, d, position, t);
    }
    QueueOnlyEnds(w, true, rows, c, rest, [Activated(1, copy, position, d.volume)]);
    assert [Queue(1, c)] + rest == AstrayRun(copy, d, position);
  }

  /** ASTRAY: an open whose ack names another position than its deal's is booked on the one it names. */
  lemma AstrayOpenMisplaced(copy: nat, d: Deal, position: nat)
    requires d.trade && d.ticket > 0 && position != 0 && position != d.position
    ensures var w, rows := OneDeal(d), [Mapping(copy, 0, 0, 0, false)];
            var t, run := Start(true, rows), AstrayRun(copy, d, position);
            var u := Exec(w, t, run);
            && TerminalOk(w) && Run(w, t, run) && u.seen == 1
            && u.book.mappings == [Mapping(copy, position, 0, d.volume, true)] && !BookedRight(w, rows, u.book, d)
  {
    var w, rows := OneDeal(d), [Mapping(copy, 0, 0, 0, false)];
    var k := Activated(1, copy, position, d.volume);
    OneDealOk(d);
    AstrayEnds(copy, d, position, rows);
    LogIsReplayed(w, true, rows, AstrayRun(copy, d, position));
    ReplayTwo(true, rows, k, k);
    assert Activate(rows, copy, position, d.volume) == [Mapping(copy, position, 0, d.volume, true)];
    var u := Exec(w, Start(true, rows), AstrayRun(copy, d, position));
    assert u.book.log == [k] && k in u.book.log && ByAck(w, d.ticket, k);
  }

  // ---------- fills of pending copies ----------

  function PendingOrder(copy: nat, lots: nat): Command {
    Command(PlacePending, Some(copy), false, 0, 0, lots, true)
  }

  /** One deal, which fills the order the terminal works for a pending copy. */
  function OneFill(copy: nat, d: Deal): Terminal {
    Terminal([d], map[], map[d.order := copy])
  }

  /** The terminal says which order it works. */
  function AcceptPoll(order: nat): Event {
    Poll(Report([Ack(1, true, 0, None, Some(order), None)], []), 0, 0)
  }

  lemma FillStep(w: Terminal, t: Trace, d: Deal)
    requires Does(d, Filling) && d.ticket > t.book.watermark && d.ticket !in t.book.settled
    ensures var u := Next(w, t, DealPoll(d));
            && u.seen == SeenAfter(t, 1) && u.expired == t.expired
            && u.book.log == t.book.log + if d.position in MappedPositions(t.book.mappings, []) then []
                                          else [Reported(d, Filling)]
  {
    DealOnly(t.book, d);
  }

  lemma FillEnds(w: Terminal, t: Trace, d: Deal)
    requires w.history == [d] && w.dealOf == map[] && Does(d, Filling) && d.ticket > t.book.watermark
    requires d.ticket !in t.book.settled && t.seen == 0
    ensures Ends(w, t, [DealPoll(d)],
                 t.book.log + (if d.position in MappedPositions(t.book.mappings, []) then []
                               else [Reported(d, Filling)]), t.expired)
    ensures AllTimely(w, t, [DealPoll(d)])
  {
    assert w.history[0..1] == [d];
    FillStep(w, t, d);
    EndsWith(w, t, DealPoll(d));
  }

  lemma OneFillOk(copy: nat, d: Deal)
    requires d.trade && d.ticket > 0 && d.order != 0
    ensures TerminalOk(OneFill(copy, d)) && IsPendingFill(OneFill(copy, d), d)
  {
  }

  function UnworkedRun(copy: nat, lots: nat, d: Deal): seq<Event> {
    [Queue(1, PendingOrder(copy, lots)), Expire(1), DealPoll(d)]
  }

  lemma UnworkedTail(copy: nat, lots: nat, d: Deal, t: Trace)
    requires Does(d, Filling) && d.ticket > 0 && d.position !in MappedPositions(t.book.mappings, [])
    requires Queued(t, PendingOrder(copy, lots))
    ensures var w, run := OneFill(copy, d), [Expire(1)] + [DealPoll(d)];
            Ends(w, t, run, [Reported(d, Filling)], {}) && AllTimely(w, t, run)
  {
    var w := OneFill(copy, d);
    FillEnds(w, Next(w, t, Expire(1)), d);
    EndsAfter(w, t, Expire(1), [DealPoll(d)], [] + [Reported(d, Filling)], {});
  }

  lemma UnworkedEnds(copy: nat, lots: nat, d: Deal, rows: seq<Mapping>)
    requires Does(d, Filling) && d.ticket > 0 && d.position !in MappedPositions(rows, [])
    ensures var w, t, run := OneFill(copy, d), Start(true, rows), UnworkedRun(copy, lots, d);
            Ends(w, t, run, [] + [Reported(d, Filling)], {}) && AllTimely(w, t, run)
  {
    var w, c, rest := OneFill(copy, d), PendingOrder(copy, lots), [Expire(1)] + [DealPoll(d)];
    forall t | Queued(t, c) && t.book.mappings == rows
      ensures Ends(w, t, rest, [] + [Reported(d, Filling)], {}) && AllTimely(w, t, rest)
    {
      UnworkedTail(copy, lots, d, t);
    }
    QueueEnds(w, true, rows, c, rest, [] + [Reported(d, Filling)]);
    assert [Queue(1, c)] + rest == UnworkedRun(copy, lots, d);
  }

  lemma NoWorker(rows: seq<Mapping>, order: nat, position: nat, volume: nat)
    requires forall i | 0 <= i < |rows| :: !Working(rows[i], order)
    ensures FillOrder(rows, order, position, volume) == rows
  {
  }

  /** NO ORDER: a pending copy's command the copier gave up on is placed and fills all the same; the fill is
      entered and no row takes it. */
  lemma UnworkedFillIsLost(copy: nat, lots: nat, d: Deal, rows: seq<Mapping>)
    requires Does(d, Filling) && d.ticket > 0 && d.order != 0 && d.position !in MappedPositions(rows, [])
    requires DistinctCopies(rows) && forall i | 0 <= i < |rows| :: !Working(rows[i], d.order)
    ensures var w, t, run := OneFill(copy, d), Start(true, rows), UnworkedRun(copy, lots, d);
            var u := Exec(w, t, run);
            && TerminalOk(w) && IsPendingFill(w, d) && Run(w, t, run) && AllTimely(w, t, run) && NoneRevived(u)
            && u.seen == 1 && u.book.mappings == rows && !BookedRight(w, rows, u.book, d)
  {
    var w, k := OneFill(copy, d), Reported(d, Filling);
    OneFillOk(copy, d);
    UnworkedEnds(copy, lots, d, rows);
    ReplaySnoc(true, rows, [], k);
    NoWorker(rows, d.order, d.position, d.volume);
    Wrong(w, true, rows, UnworkedRun(copy, lots, d), [], k, d);
  }

  // ---------- fills of accepted pending copies ----------

  function PendingRun(copy: nat, lots: nat, d: Deal): seq<Event> {
    [Queue(1, PendingOrder(copy, lots)), AcceptPoll(d.order), DealPoll(d)]
  }

  lemma AcceptOutcome(cmds: map<nat, Command>, copy: nat, lots: nat, order: nat)
    requires cmds == map[1 := PendingOrder(copy, lots)]
    ensures var o := Outcome(1, PlacePending, Some(copy), true, 0, order, lots, 0);
            OutcomesOf(cmds, [Ack(1, true, 0, None, Some(order), None)]) == [o] && Named([o]) == {}
  {
    OneAck(cmds, Ack(1, true, 0, None, Some(order), None));
  }

  lemma AcceptBook(b: Book, copy: nat, lots: nat, order: nat)
    requires b.commands == map[1 := PendingOrder(copy, lots)]
    ensures var u := Sync(b, Report([Ack(1, true, 0, None, Some(order), None)], []));
            && u.log == b.log + [Accepted(1, copy, order)] && u.mappings == Accept(b.mappings, copy, order)
            && u.watermark == b.watermark && u.settled == b.settled
  {
    AcceptOutcome(b.commands, copy, lots, order);
    var o := Outcome(1, PlacePending, Some(copy), true, 0, order, lots, 0);
    AckOnly(b, [Ack(1, true, 0, None, Some(order), None)], o);
  }

  /** The order is on the terminal's book, and nothing is reported yet. */
  ghost predicate Placed(u: Trace, copy: nat, order: nat, rows: seq<Mapping>) {
    && u.book.log == [Accepted(1, copy, order)] && u.book.mappings == Accept(rows, copy, order)
    && u.book.watermark == 0 && u.book.settled == {} && u.seen == 0 && u.expired == {}
  }

  lemma AcceptStep(w: Terminal, t: Trace, copy: nat, lots: nat, order: nat)
    requires Queued(t, PendingOrder(copy, lots))
    ensures Enabled(w, t, AcceptPoll(order)) && Timely(w, t, AcceptPoll(order))
    ensures Placed(Next(w, t, AcceptPoll(order)), copy, order, t.book.mappings)
  {
    assert w.history[0..0] == [];
    AcceptOutcome(t.book.commands, copy, lots, order);
    AcceptBook(t.book, copy, lots, order);
  }

  /** The run up to the fill, whatever that books. */
  lemma PendingEnds(w: Terminal, copy: nat, lots: nat, order: nat, last: Event, rows: seq<Mapping>, log: seq<Booking>)
    requires w.dealOf == map[]
    requires forall t | Placed(t, copy, order, rows) :: Ends(w, t, [last], log, {}) && AllTimely(w, t, [last])
    ensures var t, run := Start(true, rows), [Queue(1, PendingOrder(copy, lots)), AcceptPoll(order), last];
            Ends(w, t, run, log, {}) && AllTimely(w, t, run)
  {
    var c, rest := PendingOrder(copy, lots), [AcceptPoll(order)] + [last];
    forall t | Queued(t, c) && t.book.mappings == rows
      ensures Ends(w, t, rest, log, {}) && AllTimely(w, t, rest)
    {
      AcceptStep(w, t, copy, lots, order);
      EndsAfter(w, t, AcceptPoll(order), [last], log, {});
    }
    QueueEnds(w, true, rows, c, rest, log);
    assert [Queue(1, c)] + rest == [Queue(1, c), AcceptPoll(order), last];
  }

  lemma PendingCloseEnds(copy: nat, lots: nat, d: Deal, rows: seq<Mapping>)
    requires Does(d, Closing) && d.ticket > 0
    ensures var w, t, run := OneFill(copy, d), Start(true, rows), PendingRun(copy, lots, d);
            Ends(w, t, run, [Accepted(1, copy, d.order), Reported(d, Closing)], {}) && AllTimely(w, t, run)
  {
    var w, log := OneFill(copy, d), [Accepted(1, copy, d.order)] + [Reported(d, Closing)];
    forall t | Placed(t, copy, d.order, rows)
      ensures Ends(w, t, [DealPoll(d)], log, {}) && AllTimely(w, t, [DealPoll(d)])
    {
      DealEnds(w, t, d);
      EndsTimely(w, t, d);
    }
    PendingEnds(w, copy, lots, d.order, DealPoll(d), rows, log);
  }

  lemma EndsTimely(w: Terminal, t: Trace, d: Deal)
    requires w.dealOf == map[]
    ensures AllTimely(w, t, [DealPoll(d)])
  {
    assert [DealPoll(d)][1..] == [];
    assert AllTimely(w, Next(w, t, DealPoll(d)), []);
  }

  /** A row elsewhere keeps out of the oldest-first walk. */
  lemma StillPending(rows: seq<Mapping>, copy: nat, d: Deal, i: nat)
    requires i < |rows| && rows[i].copy == copy && rows[i].position != d.position
    ensures ReduceFifo(Accept(rows, copy, d.order), d.position, d.volume)[i] ==
            rows[i].(order := d.order, active := true)
  {
    ReduceFifoConsumes(Accept(rows, copy, d.order), d.position, d.volume);
  }

  /** AGAINST THE NET POSITION: an accepted pending copy that fills against it has the oldest copies closed,
      and goes on as unfilled. */
  lemma PendingFillCloses(copy: nat, lots: nat, d: Deal, rows: seq<Mapping>, i: nat)
    requires Does(d, Closing) && d.ticket > 0 && d.order != 0
    requires i < |rows| && rows[i].copy == copy && rows[i].position != d.position
    ensures var w, t, run := OneFill(copy, d), Start(true, rows), PendingRun(copy, lots, d);
            var u := Exec(w, t, run);
            && TerminalOk(w) && IsPendingFill(w, d) && Run(w, t, run) && AllTimely(w, t, run) && u.seen == 1
            && u.book.mappings == ReduceFifo(Accept(rows, copy, d.order), d.position, d.volume)
            && u.book.mappings[i] == rows[i].(order := d.order, active := true)
  {
    var w := OneFill(copy, d);
    OneFillOk(copy, d);
    PendingCloseEnds(copy, lots, d, rows);
    LogIsReplayed(w, true, rows, PendingRun(copy, lots, d));
    PendingCloseRows(copy, d, rows);
    StillPending(rows, copy, d, i);
  }

  lemma PendingCloseRows(copy: nat, d: Deal, rows: seq<Mapping>)
    ensures Replay(true, rows, [Accepted(1, copy, d.order), Reported(d, Closing)]) ==
            ReduceFifo(Accept(rows, copy, d.order), d.position, d.volume)
  {
    ReplayTwo(true, rows, Accepted(1, copy, d.order), Reported(d, Closing));
  }

  lemma PassedOverEnds(copy: nat, lots: nat, d: Deal, rows: seq<Mapping>)
    requires Does(d, Filling) && d.ticket > 0 && d.position in MappedPositions(Accept(rows, copy, d.order), [])
    ensures var w, t, run := OneFill(copy, d), Start(true, rows), PendingRun(copy, lots, d);
            Ends(w, t, run, [Accepted(1, copy, d.order)], {}) && AllTimely(w, t, run)
  {
    var w := OneFill(copy, d);
    forall t | Placed(t, copy, d.order, rows)
      ensures Ends(w, t, [DealPoll(d)], [Accepted(1, copy, d.order)], {}) && AllTimely(w, t, [DealPoll(d)])
    {
      FillEnds(w, t, d);
    }
    PendingEnds(w, copy, lots, d.order, DealPoll(d), rows, [Accepted(1, copy, d.order)]);
  }

  /** INTO A MAPPED POSITION: an accepted pending copy that fills into a net position some row maps goes on as
      unfilled. */
  lemma PendingFillPassedOver(copy: nat, lots: nat, d: Deal, rows: seq<Mapping>, i: nat, j: nat)
    requires Does(d, Filling) && d.ticket > 0 && d.order != 0 && i < |rows| && rows[i].copy == copy
    requires j < |rows| && rows[j].position == d.position != 0
    ensures var w, t, run := OneFill(copy, d), Start(true, rows), PendingRun(copy, lots, d);
            var u := Exec(w, t, run);
            && TerminalOk(w) && IsPendingFill(w, d) && Run(w, t, run) && AllTimely(w, t, run) && u.seen == 1
            && u.book.mappings == Accept(rows, copy, d.order)
            && u.book.mappings[i] == rows[i].(order := d.order, active := true)
  {
    var w, accepted := OneFill(copy, d), Accept(rows, copy, d.order);
    assert accepted[j].position == d.position && accepted[j] in accepted;
    OneFillOk(copy, d);
    PassedOverEnds(copy, lots, d, rows);
    LogIsReplayed(w, true, rows, PendingRun(copy, lots, d));
    ReplayTwo(true, rows, Accepted(1, copy, d.order), Accepted(1, copy, d.order));
  }

  // ---------- an order filled in two deals ----------

  function TwoFills(copy: nat, c: Deal, d: Deal): Terminal {
    Terminal([c, d], map[], map[d.order := copy])
  }

  function FillsPoll(c: Deal, d: Deal): Event {
    Poll(Report([], [c, d]), 0, 2)
  }

  function PartsRun(copy: nat, lots: nat, c: Deal, d: Deal): seq<Event> {
    [Queue(1, PendingOrder(copy, lots)), AcceptPoll(d.order), FillsPoll(c, d)]
  }

  ghost predicate TwoParts(c: Deal, d: Deal) {
    && Does(c, Filling) && Does(d, Filling) && 0 < c.ticket < d.ticket && c.time <= d.time
    && c.order == d.order != 0 && c.position == d.position && c.volume > 0
  }

  lemma TwoNewer(b: Book, c: Deal, d: Deal)
    requires b.watermark < c.ticket < d.ticket && c.time <= d.time
    ensures Newer(b, Report([], [c, d])) == [c, d]
  {
    assert [c, d][1..] == [d] && [d][1..] == [];
    assert Past([d], b.watermark) == [d] + Past([], b.watermark) == [d];
    assert Past([c, d], b.watermark) == [c] + Past([d], b.watermark) == [c, d];
    assert SortDeals([d]) == Insert(d, SortDeals([])) == [d];
    assert SortDeals([c, d]) == Insert(c, [d]);
  }

  lemma BookTwo(b: Book, c: Deal, d: Deal, mapped: set<nat>)
    ensures BookDeals(b, [c, d], mapped) == BookDeal(BookDeal(b, c, mapped), d, mapped)
  {
    assert [c, d][..1] == [c];
    BookOne(b, c, mapped);
  }

  lemma BothFilled(b: Book, c: Deal, d: Deal, mapped: set<nat>)
    requires TwoParts(c, d) && c.ticket !in b.settled && d.ticket !in b.settled && d.position !in mapped
    ensures BookDeals(b, [c, d], mapped).log == b.log + [Reported(c, Filling)] + [Reported(d, Filling)]
  {
    BookTwo(b, c, d, mapped);
  }

  lemma FillsStep(w: Terminal, t: Trace, c: Deal, d: Deal)
    requires TwoParts(c, d) && t.book.watermark == 0 && t.book.settled == {} && t.seen == 0
    requires d.position !in MappedPositions(t.book.mappings, [])
    ensures var u := Next(w, t, FillsPoll(c, d));
            && u.seen == 2 && u.expired == t.expired
            && u.book.log == t.book.log + [Reported(c, Filling)] + [Reported(d, Filling)]
  {
    var b, r := t.book, Report([], [c, d]);
    TwoNewer(b, c, d);
    SyncIs(b, r);
    assert OutcomesOf(b.commands, []) == [] && Named([]) == {};
    assert Posted(b, r) == b && Mapped(b, r) == MappedPositions(b.mappings, []);
    BothFilled(Ready(b, r), c, d, Mapped(b, r));
  }

  lemma FillsEnd(w: Terminal, t: Trace, c: Deal, d: Deal)
    requires w.history == [c, d] && w.dealOf == map[] && TwoParts(c, d)
    requires t.book.watermark == 0 && t.book.settled == {} && t.seen == 0
    requires d.position !in MappedPositions(t.book.mappings, [])
    ensures Ends(w, t, [FillsPoll(c, d)], t.book.log + [Reported(c, Filling)] + [Reported(d, Filling)], t.expired)
    ensures AllTimely(w, t, [FillsPoll(c, d)])
  {
    assert w.history[0..2] == [c, d];
    FillsStep(w, t, c, d);
    EndsWith(w, t, FillsPoll(c, d));
  }

  function PartsLog(copy: nat, c: Deal, d: Deal): seq<Booking> {
    [Accepted(1, copy, d.order)] + [Reported(c, Filling)] + [Reported(d, Filling)]
  }

  lemma PartsEnd(copy: nat, lots: nat, c: Deal, d: Deal, rows: seq<Mapping>)
    requires TwoParts(c, d) && d.position !in MappedPositions(Accept(rows, copy, d.order), [])
    ensures var w, t, run := TwoFills(copy, c, d), Start(true, rows), PartsRun(copy, lots, c, d);
            Ends(w, t, run, PartsLog(copy, c, d), {}) && AllTimely(w, t, run)
  {
    var w := TwoFills(copy, c, d);
    forall t | Placed(t, copy, d.order, rows)
      ensures Ends(w, t, [FillsPoll(c, d)], PartsLog(copy, c, d), {}) && AllTimely(w, t, [FillsPoll(c, d)])
    {
      FillsEnd(w, t, c, d);
    }
    PendingEnds(w, copy, lots, d.order, FillsPoll(c, d), rows, PartsLog(copy, c, d));
  }

  /** One pending row, filled twice. */
  lemma Overwritten(copy: nat, c: Deal, d: Deal)
    requires TwoParts(c, d)
    ensures var rows := [Mapping(copy, 0, 0, 0, false)];
            var log := [Accepted(1, copy, d.order)] + [Reported(c, Filling)];
            && Replay(true, rows, log) == [Mapping(copy, d.position, d.order, c.volume, true)]
            && Replay(true, rows, log + [Reported(d, Filling)]) ==
               [Mapping(copy, d.position, d.order, d.volume, true)]
  {
    var rows := [Mapping(copy, 0, 0, 0, false)];
    ReplayTwo(true, rows, Accepted(1, copy, d.order), Reported(c, Filling));
    assert Accept(rows, copy, d.order) == [Mapping(copy, 0, d.order, 0, true)];
    ReplaySnoc(true, rows, [Accepted(1, copy, d.order)] + [Reported(c, Filling)], Reported(d, Filling));
  }

  lemma PartsRows(copy: nat, c: Deal, d: Deal)
    requires TwoParts(c, d)
    ensures var rows := [Mapping(copy, 0, 0, 0, false)];
            var log := [Accepted(1, copy, d.order)] + [Reported(c, Filling)];
            && d.position !in MappedPositions(Accept(rows, copy, d.order), [])
            && !Finds(map[d.order := copy], true, Replay(true, rows, log), Reported(d, Filling))
  {
    var rows := [Mapping(copy, 0, 0, 0, false)];
    var log := [Accepted(1, copy, d.order)] + [Reported(c, Filling)];
    assert Accept(rows, copy, d.order) == [Mapping(copy, 0, d.order, 0, true)];
    Overwritten(copy, c, d);
    assert Working(Replay(true, rows, log)[0], d.order);
  }

  lemma TwoFillsOk(copy: nat, c: Deal, d: Deal)
    requires TwoParts(c, d)
    ensures TerminalOk(TwoFills(copy, c, d)) && IsPendingFill(TwoFills(copy, c, d), d)
  {
  }

  /** IN TWO PARTS: an accepted order that fills in two deals of one report leaves its copy with the second part
      only. */
  lemma SecondPartOverwrites(copy: nat, lots: nat, c: Deal, d: Deal)
    requires TwoParts(c, d)
    ensures var w, rows := TwoFills(copy, c, d), [Mapping(copy, 0, 0, 0, false)];
            var t, run := Start(true, rows), PartsRun(copy, lots, c, d);
            var u := Exec(w, t, run);
            && TerminalOk(w) && IsPendingFill(w, d) && Run(w, t, run) && AllTimely(w, t, run) && u.seen == 2
            && u.book.mappings == [Mapping(copy, d.position, d.order, d.volume, true)]
            && !BookedRight(w, rows, u.book, d)
  {
    var w, rows := TwoFills(copy, c, d), [Mapping(copy, 0, 0, 0, false)];
    var log, k := [Accepted(1, copy, d.order)] + [Reported(c, Filling)], Reported(d, Filling);
    TwoFillsOk(copy, c, d);
    PartsRows(copy, c, d);
    PartsEnd(copy, lots, c, d, rows);
    Overwritten(copy, c, d);
    Wrong(w, true, rows, PartsRun(copy, lots, c, d), log, k, d);
  }
}
