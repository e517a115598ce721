/**
 The sync of a follower terminal: its acks and its own deals both move the copy mappings,
 and a deal that an ack already booked has to be skipped when the terminal reports it.
 */
module Mt5Sync {
  import opened Base
  import opened Fifo

  // Other: an entry the terminal left empty.
  datatype Entry = In | Out | OutBy | InOut | Other

  // An order ticket of 0 is none.
  datatype Deal = Deal(ticket: nat, time: int, trade: bool, entry: Entry, position: nat, volume: nat, order: nat)

  datatype Kind = Open | Close | PlacePending | CancelPending | Amend

  // `copy` is the client order id; `closes` marks the ':close' suffix the outbox adds to it.
  datatype Command = Command(kind: Kind, copy: Option<nat>, closes: bool, position: nat, order: nat, lots: nat,
                             open: bool)

  // A deal ticket of 0 is none; a position of 0 is the emptied net position.
  datatype Ack = Ack(command: nat, ok: bool, deal: nat, position: Option<nat>, order: Option<nat>,
                     volume: Option<nat>)

  datatype Outcome = Outcome(command: nat, kind: Kind, copy: Option<nat>, ok: bool, position: nat, order: nat,
                             volume: nat, deal: nat)

  // A copy's row; a position or an order of 0 is none yet.
  datatype Mapping = Mapping(copy: nat, position: nat, order: nat, volume: nat, active: bool)

  // What moves the rows: by the ack of a command, or by the report of a deal.
  datatype Booking =
    | Activated(command: nat, copy: nat, position: nat, volume: nat)
    | ClosedCopy(command: nat, copy: nat, volume: nat)
    | Accepted(command: nat, copy: nat, order: nat)
    | Dropped(command: nat, order: nat)
    | AckedFill(command: nat, order: nat, position: nat, volume: nat)
    | ClosedPosition(ticket: nat, position: nat, volume: nat)
    | Filled(ticket: nat, order: nat, position: nat, volume: nat)

  datatype Report = Report(acks: seq<Ack>, deals: seq<Deal>)

  datatype Book = Book(netting: bool, watermark: nat, settled: set<nat>, commands: map<nat, Command>,
                       mappings: seq<Mapping>, log: seq<Booking>)

  // ---------- the mapping rows ----------

  function Reduced(m: Mapping, closed: nat): Mapping {
    m.(volume := if m.volume > closed then m.volume - closed else 0, active := m.volume > closed)
  }

  function Activate(ms: seq<Mapping>, copy: nat, position: nat, volume: nat): (r: seq<Mapping>)
    ensures |r| == |ms|
  {
    seq(|ms|, i requires 0 <= i < |ms| =>
      if ms[i].copy == copy then ms[i].(position := position, volume := ms[i].volume + volume, active := true)
      else ms[i])
  }

  function ReduceCopy(ms: seq<Mapping>, copy: nat, closed: nat): (r: seq<Mapping>)
    ensures |r| == |ms|
  {
    seq(|ms|, i requires 0 <= i < |ms| =>
      if ms[i].active && ms[i].copy == copy then Reduced(ms[i], closed) else ms[i])
  }

  /** The row is active on this position. */
  predicate On(m: Mapping, position: nat) {
    m.active && m.position == position && position != 0
  }

  /** A pending copy's order is on the terminal's book now. */
  function Accept(ms: seq<Mapping>, copy: nat, order: nat): (r: seq<Mapping>)
    ensures |r| == |ms|
  {
    seq(|ms|, i requires 0 <= i < |ms| =>
      if ms[i].copy == copy then ms[i].(order := order, active := true) else ms[i])
  }

  predicate Working(m: Mapping, order: nat) {
    m.active && m.order == order && order != 0
  }

  function Drop(ms: seq<Mapping>, order: nat): (r: seq<Mapping>)
    ensures |r| == |ms|
  {
    seq(|ms|, i requires 0 <= i < |ms| => if Working(ms[i], order) then ms[i].(active := false) else ms[i])
  }

  /** A fill of an order a pending copy is working: the row takes its position and volume. */
  function FillOrder(ms: seq<Mapping>, order: nat, position: nat, volume: nat): (r: seq<Mapping>)
    ensures |r| == |ms|
  {
    seq(|ms|, i requires 0 <= i < |ms| =>
      if Working(ms[i], order) then ms[i].(position := position, volume := volume) else ms[i])
  }

  function ReduceAll(ms: seq<Mapping>, position: nat, closed: nat): (r: seq<Mapping>)
    ensures |r| == |ms|
  {
    seq(|ms|, i requires 0 <= i < |ms| =>
      if On(ms[i], position) then Reduced(ms[i], closed) else ms[i])
  }

  /** The rows of one net position, oldest first, each reduced until the volume is used up. */
  function ReduceFifo(ms: seq<Mapping>, position: nat, closed: nat): (r: seq<Mapping>)
    ensures |r| == |ms|
  {
    if ms == [] then []
    else
      var m := ms[0];
      if closed > 0 && On(m, position) && m.volume > 0 then
        var take := MinOf(m.volume, closed);
        [Reduced(m, take)] + ReduceFifo(ms[1..], position, closed - take)
      else [m] + ReduceFifo(ms[1..], position, closed)
  }

  /** What each row holds of a position: an active row on it, its volume. */
  function Held(ms: seq<Mapping>, position: nat): (r: seq<nat>)
    ensures |r| == |ms|
  {
    if ms == [] then []
    else
      var m := ms[0];
      [if m.active && m.position == position != 0 then m.volume else 0] + Held(ms[1..], position)
  }

  /** The row was on the position and gave up volume, closing when it gave up all, or is as it was. */
  ghost predicate OnlyReduced(m: Mapping, n: Mapping, position: nat) {
    if m.active && m.position == position != 0 then
      && n == m.(volume := n.volume, active := n.active) && n.volume <= m.volume
      && (n.volume > 0 ==> n.active) && (n.volume < m.volume ==> (n.active <==> n.volume > 0))
    else n == m
  }

  /** The row walk is oldest-first consumption of the held volumes, and moves no other row and nothing else. */
  lemma {:induction false} ReduceFifoConsumes(ms: seq<Mapping>, position: nat, closed: nat)
    ensures Held(ReduceFifo(ms, position, closed), position) == Consume(Held(ms, position), closed)
    ensures forall i | 0 <= i < |ms| :: OnlyReduced(ms[i], ReduceFifo(ms, position, closed)[i], position)
  {
    if ms != [] {
      var m := ms[0];
      var held := if On(m, position) then m.volume else 0;
      var take := MinOf(held, closed);
      ReduceFifoConsumes(ms[1..], position, closed - take);
      var r := ReduceFifo(ms, position, closed);
      assert r[1..] == ReduceFifo(ms[1..], position, closed - take);
      assert Held(ms, position)[1..] == Held(ms[1..], position);
      assert r[0].position == m.position;
    }
  }

  function BookOn(netting: bool, ms: seq<Mapping>, b: Booking): seq<Mapping> {
    match b
    case Activated(_, copy, position, volume) => Activate(ms, copy, position, volume)
    case ClosedCopy(_, copy, volume) => ReduceCopy(ms, copy, volume)
    case ClosedPosition(_, position, volume) =>
      if netting then ReduceFifo(ms, position, volume) else ReduceAll(ms, position, volume)
    case Accepted(_, copy, order) => Accept(ms, copy, order)
    case Dropped(_, order) => Drop(ms, order)
    case AckedFill(_, order, position, volume) => FillOrder(ms, order, position, volume)
    case Filled(_, order, position, volume) => FillOrder(ms, order, position, volume)
  }

  function Post(b: Book, k: Booking): Book {
    b.(mappings := BookOn(b.netting, b.mappings, k), log := b.log + [k])
  }

  // ---------- acks ----------

  function OutcomeOf(id: nat, c: Command, a: Ack): Outcome {
    Outcome(id, if c.kind == Open && c.copy.Some? && c.closes then Close else c.kind, c.copy, a.ok,
            if a.position.Some? then a.position.value else c.position,
            if a.order.Some? then a.order.value else c.order,
            if a.volume.Some? then a.volume.value else c.lots, a.deal)
  }

  predicate Settles(cmds: map<nat, Command>, a: Ack) {
    a.command in cmds && cmds[a.command].open
  }

  function CommandsAfter(cmds: map<nat, Command>, acks: seq<Ack>): (r: map<nat, Command>)
    ensures r.Keys == cmds.Keys
  {
    if acks == [] then cmds
    else
      var before := CommandsAfter(cmds, acks[..|acks| - 1]);
      var a := acks[|acks| - 1];
      if Settles(before, a) then before[a.command := before[a.command].(open := false)] else before
  }

  function OutcomesOf(cmds: map<nat, Command>, acks: seq<Ack>): seq<Outcome> {
    if acks == [] then []
    else
      var before := CommandsAfter(cmds, acks[..|acks| - 1]);
      var a := acks[|acks| - 1];
      OutcomesOf(cmds, acks[..|acks| - 1]) +
      if Settles(before, a) then [OutcomeOf(a.command, before[a.command], a)] else []
  }

  /** The ok ack of a command that names a copy: its deal is never the terminal's own doing. */
  predicate OkCopy(o: Outcome) {
    o.ok && o.copy.Some? && (o.kind == Open || o.kind == Close)
  }

  /** The same when the ack says which deal. */
  predicate NamesCopy(o: Outcome) {
    OkCopy(o) && o.deal != 0
  }

  function Named(outs: seq<Outcome>): set<nat> {
    set o | o in outs && NamesCopy(o) :: o.deal
  }

  /** The position a reported deal names; 0 when the report does not hold the deal. */
  function PositionOf(deals: seq<Deal>, ticket: nat): nat {
    if deals == [] || ticket == 0 then 0
    else if deals[|deals| - 1].ticket == ticket then deals[|deals| - 1].position
    else PositionOf(deals[..|deals| - 1], ticket)
  }

  ghost predicate DistinctTickets(deals: seq<Deal>) {
    forall i, j | 0 <= i < j < |deals| :: deals[i].ticket != deals[j].ticket
  }

  /** It is that of the deal with the ticket, and 0 when there is none. */
  lemma {:induction false} PositionOfDeal(deals: seq<Deal>, ticket: nat)
    requires DistinctTickets(deals) && ticket != 0
    ensures forall d | d in deals && d.ticket == ticket :: PositionOf(deals, ticket) == d.position
    ensures (forall d | d in deals :: d.ticket != ticket) ==> PositionOf(deals, ticket) == 0
    decreases |deals|
  {
    if deals != [] {
      var n := |deals| - 1;
      PositionOfDeal(deals[..n], ticket);
      assert deals == deals[..n] + [deals[n]];
      assert deals[n] in deals;
      forall d | d in deals[..n]
        ensures d.ticket != deals[n].ticket
      {
        var i :| 0 <= i < n && deals[i] == d;
      }
    }
  }

  function OutcomeBooking(o: Outcome, deals: seq<Deal>): Option<Booking> {
    if !o.ok then None
    else if o.kind == Open then
      var position := if o.position != 0 then o.position else PositionOf(deals, o.deal);
      if position == 0 then None
      else if o.copy.Some? then Some(Activated(o.command, o.copy.value, position, o.volume))
      else Some(AckedFill(o.command, o.order, position, o.volume))
    else if o.kind == Close && o.copy.Some? then Some(ClosedCopy(o.command, o.copy.value, o.volume))
    else if o.kind == PlacePending && o.copy.Some? then Some(Accepted(o.command, o.copy.value, o.order))
    else if o.kind == CancelPending && o.order != 0 then Some(Dropped(o.command, o.order))
    else None
  }

  function PostOutcome(b: Book, o: Outcome, deals: seq<Deal>): Book {
    var k := OutcomeBooking(o, deals);
    if k.Some? then Post(b, k.value) else b
  }

  function PostOutcomes(b: Book, outs: seq<Outcome>, deals: seq<Deal>): Book {
    if outs == [] then b
    else PostOutcome(PostOutcomes(b, outs[..|outs| - 1], deals), outs[|outs| - 1], deals)
  }

  // ---------- deals ----------

  predicate Before(a: Deal, b: Deal) {
    a.time < b.time || (a.time == b.time && a.ticket <= b.ticket)
  }

  ghost predicate Earlier(a: Deal, b: Deal) {
    a.time <= b.time && (a.time == b.time ==> a.ticket <= b.ticket)
  }

  ghost predicate Ordered(deals: seq<Deal>) {
    forall i, j | 0 <= i < j < |deals| :: Earlier(deals[i], deals[j])
  }

  function Insert(d: Deal, deals: seq<Deal>): (r: seq<Deal>)
    ensures multiset(r) == multiset(deals) + multiset{d}
  {
    if deals == [] || Before(d, deals[0]) then [d] + deals
    else
      assert deals == [deals[0]] + deals[1..];
      [deals[0]] + Insert(d, deals[1..])
  }

  lemma {:induction false} InsertOrders(d: Deal, deals: seq<Deal>)
    requires Ordered(deals)
    ensures Ordered(Insert(d, deals))
  {
    if deals != [] && !Before(d, deals[0]) {
      var rest := Insert(d, deals[1..]);
      InsertOrders(d, deals[1..]);
      forall i | 0 <= i < |rest|
        ensures Earlier(deals[0], rest[i])
      {
        assert rest[i] in multiset(rest);
        assert rest[i] == d || rest[i] in deals[1..];
      }
    }
  }

  function SortDeals(deals: seq<Deal>): (r: seq<Deal>)
    ensures multiset(r) == multiset(deals)
  {
    if deals == [] then []
    else
      assert deals == [deals[0]] + deals[1..];
      Insert(deals[0], SortDeals(deals[1..]))
  }

  /** Deals are booked in time order, whatever order the report lists them in. */
  lemma {:induction false} SortOrders(deals: seq<Deal>)
    ensures Ordered(SortDeals(deals))
  {
    if deals != [] {
      SortOrders(deals[1..]);
      InsertOrders(deals[0], SortDeals(deals[1..]));
    }
  }

  function Past(deals: seq<Deal>, watermark: nat): seq<Deal> {
    if deals == [] then []
    else (if deals[0].ticket > watermark then [deals[0]] else []) + Past(deals[1..], watermark)
  }

  function MaxTicket(deals: seq<Deal>, low: nat): (r: nat)
    ensures low <= r
    ensures forall d | d in deals :: d.ticket <= r
    ensures r == low || exists d :: d in deals && d.ticket == r
  {
    if deals == [] then low
    else
      var rest := MaxTicket(deals[1..], low);
      assert deals == [deals[0]] + deals[1..];
      assert deals[0] in deals;
      if deals[0].ticket > rest then deals[0].ticket else rest
  }

  /** CLOSE_ENTRIES. */
  predicate IsClose(e: Entry) {
    e == Out || e == OutBy || e == InOut
  }

  function BookDeal(b: Book, d: Deal, mapped: set<nat>): Book {
    if !d.trade then b
    else if d.ticket in b.settled then b.(settled := b.settled - {d.ticket})
    else if d.entry == In then
      if d.position in mapped then b else Post(b, Filled(d.ticket, d.order, d.position, d.volume))
    else if IsClose(d.entry) then Post(b, ClosedPosition(d.ticket, d.position, d.volume))
    else b
  }

  function BookDeals(b: Book, deals: seq<Deal>, mapped: set<nat>): Book {
    if deals == [] then b
    else BookDeal(BookDeals(b, deals[..|deals| - 1], mapped), deals[|deals| - 1], mapped)
  }

  function MappedPositions(ms: seq<Mapping>, outs: seq<Outcome>): set<nat> {
    (set m | m in ms && m.position != 0 :: m.position) +
    (set o | o in outs && o.ok && o.kind == Open && o.position != 0 :: o.position)
  }

  /** One poll of a follower terminal. */
  function Sync(b: Book, r: Report): Book {
    var outs := OutcomesOf(b.commands, r.acks);
    var posted := PostOutcomes(b.(commands := CommandsAfter(b.commands, r.acks)), outs, r.deals);
    var newer := SortDeals(Past(r.deals, b.watermark));
    var seen := posted.(watermark := MaxTicket(newer, b.watermark));
    if newer == [] && outs == [] then seen
    else BookDeals(seen.(settled := seen.settled + Named(outs)), newer, MappedPositions(seen.mappings, outs))
  }
}
