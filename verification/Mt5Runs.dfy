/**
 Every run of a follower terminal against the sync: which deals move the mappings, how often
 and how. The terminal re-sends acks and deals freely; what it owes is a ticket order that only
 grows, reports without gaps and one deal per executed command that names a copy.
 */
module Mt5Runs {
  import opened Base
  import opened Mt5Sync

  // `dealOf` is the deal each executed copy command made, whether its ack says so or not; `orders` says
  // for which copy the terminal works each of its pending orders.
  datatype Terminal = Terminal(history: seq<Deal>, dealOf: map<nat, Deal>, orders: map<nat, nat>)

  // What a run leaves behind: the book, how much of the history was reported, and the copy deals whose
  // ok ack was handled (`acked`). Of those, `blind` ones were acked without saying which deal, `late`
  // ones after the deal was reported, `lost` ones with no position to book, `skewed` ones with another
  // volume than the deal's, `astray` ones with another position. `expired` are the deals of commands the
  // copier itself gave up on, and `skipped` the fills reported into a position that was mapped already.
  datatype Trace = Trace(book: Book, seen: nat, acked: set<nat>, blind: set<nat>, late: set<nat>, lost: set<nat>,
                         skewed: set<nat>, astray: set<nat>, expired: set<nat>, skipped: set<nat>)

  datatype Event =
    | Queue(id: nat, command: Command)
    | Expire(id: nat)
    | Poll(report: Report, lo: nat, hi: nat)

  ghost predicate TerminalOk(w: Terminal) {
    && (forall i | 0 <= i < |w.history| :: w.history[i].ticket > 0)
    && (forall i, j | 0 <= i < j < |w.history| :: w.history[i].ticket < w.history[j].ticket)
    && (forall c, d | c in w.dealOf && d in w.dealOf && w.dealOf[c].ticket == w.dealOf[d].ticket :: c == d)
    && (forall c | c in w.dealOf :: MadeOk(w, w.dealOf[c]))
    && 0 !in w.orders
  }

  ghost predicate MadeOk(w: Terminal, d: Deal) {
    d.trade && d.order !in w.orders && exists i :: 0 <= i < |w.history| && w.history[i] == d
  }

  ghost predicate IsTrade(w: Terminal, ticket: nat) {
    exists i :: 0 <= i < |w.history| && w.history[i].ticket == ticket && w.history[i].trade
  }

  /** The deal of a command that names a copy. */
  ghost predicate IsCopyDeal(w: Terminal, ticket: nat) {
    exists c :: c in w.dealOf && w.dealOf[c].ticket == ticket
  }

  /** The fill of an order a pending copy is working. */
  predicate IsPendingFill(w: Terminal, d: Deal) {
    d.trade && d.order in w.orders
  }

  // What a reported deal can do to the mappings: close a position, or fill.
  datatype Way = Closing | Filling

  predicate Does(d: Deal, way: Way) {
    d.trade && if way == Closing then d.entry == Out || d.entry == OutBy || d.entry == InOut else d.entry == In
  }

  /** A report has let the sync see such a deal. */
  ghost predicate ReportedAs(w: Terminal, seen: nat, ticket: nat, way: Way)
    requires seen <= |w.history|
  {
    exists i :: 0 <= i < seen && w.history[i].ticket == ticket && Does(w.history[i], way)
  }

  predicate CopyCommand(c: Command) {
    c.copy.Some? && (c.kind == Open || c.kind == Close)
  }

  ghost predicate AckOk(w: Terminal, cmds: map<nat, Command>, a: Ack) {
    a.ok && a.command in cmds && CopyCommand(cmds[a.command]) ==>
      a.command in w.dealOf && (a.deal == 0 || a.deal == w.dealOf[a.command].ticket)
  }

  ghost predicate Enabled(w: Terminal, t: Trace, e: Event) {
    match e
    case Queue(id, c) => id !in t.book.commands && c.open && (id in w.dealOf ==> CopyCommand(c))
    case Expire(id) => id in t.book.commands
    case Poll(r, lo, hi) =>
      && lo <= hi <= |w.history| && lo <= t.seen
      && r.deals == w.history[lo..hi]
      && forall i | 0 <= i < |r.acks| :: AckOk(w, t.book.commands, r.acks[i])
  }

  predicate Acks(w: Terminal, o: Outcome) {
    OkCopy(o) && o.command in w.dealOf
  }

  /** The deal the outcome is about. */
  function Made(w: Terminal, o: Outcome): nat
    requires Acks(w, o)
  {
    w.dealOf[o.command].ticket
  }

  function Acked(w: Terminal, outs: seq<Outcome>): set<nat> {
    set o | o in outs && Acks(w, o) :: Made(w, o)
  }

  function Blind(w: Terminal, outs: seq<Outcome>): set<nat> {
    set o | o in outs && Acks(w, o) && o.deal == 0 :: Made(w, o)
  }

  function Late(w: Terminal, outs: seq<Outcome>, watermark: nat): set<nat> {
    set o | o in outs && Acks(w, o) && o.deal != 0 && Made(w, o) <= watermark :: Made(w, o)
  }

  function Lost(w: Terminal, outs: seq<Outcome>, deals: seq<Deal>): set<nat> {
    set o | o in outs && Acks(w, o) && OutcomeBooking(o, deals).None? :: Made(w, o)
  }

  predicate Misstates(w: Terminal, o: Outcome)
    requires Acks(w, o)
  {
    o.volume != w.dealOf[o.command].volume
  }

  function Skewed(w: Terminal, outs: seq<Outcome>): set<nat> {
    set o | o in outs && Acks(w, o) && Misstates(w, o) :: Made(w, o)
  }

  /** The ack of an open names another position than the deal's. */
  predicate Misplaces(w: Terminal, o: Outcome)
    requires Acks(w, o)
  {
    o.kind == Open && o.position != 0 && o.position != w.dealOf[o.command].position
  }

  function Astray(w: Terminal, outs: seq<Outcome>): set<nat> {
    set o | o in outs && Acks(w, o) && Misplaces(w, o) :: Made(w, o)
  }

  /** Fills among new deals that go into a mapped position, and so are passed over. */
  function PassedOver(newer: seq<Deal>, settled: set<nat>, mapped: set<nat>): set<nat> {
    set d | d in newer && Does(d, Filling) && d.ticket !in settled && d.position in mapped :: d.ticket
  }

  function Newer(b: Book, r: Report): seq<Deal> {
    SortDeals(Past(r.deals, b.watermark))
  }

  function Posted(b: Book, r: Report): Book {
    PostOutcomes(b.(commands := CommandsAfter(b.commands, r.acks)), OutcomesOf(b.commands, r.acks), r.deals)
  }

  /** The positions mapped when a poll comes to its deals. */
  function Mapped(b: Book, r: Report): set<nat> {
    MappedPositions(Posted(b, r).mappings, OutcomesOf(b.commands, r.acks))
  }

  function SkippedBy(b: Book, r: Report): set<nat> {
    PassedOver(Newer(b, r), b.settled + Named(OutcomesOf(b.commands, r.acks)), Mapped(b, r))
  }

  function SeenAfter(t: Trace, hi: nat): nat {
    if hi > t.seen then hi else t.seen
  }

  function Traced(w: Terminal, t: Trace, u: Book, hi: nat, outs: seq<Outcome>, deals: seq<Deal>,
                  skipped: set<nat>): Trace {
    Trace(u, SeenAfter(t, hi), t.acked + Acked(w, outs), t.blind + Blind(w, outs),
          t.late + Late(w, outs, t.book.watermark), t.lost + Lost(w, outs, deals), t.skewed + Skewed(w, outs),
          t.astray + Astray(w, outs), t.expired, t.skipped + skipped)
  }

  function GivenUp(w: Terminal, cmds: map<nat, Command>, id: nat): set<nat> {
    if id in cmds && cmds[id].open && id in w.dealOf then {w.dealOf[id].ticket} else {}
  }

  function Next(w: Terminal, t: Trace, e: Event): Trace {
    match e
    case Queue(id, c) => t.(book := t.book.(commands := t.book.commands[id := c]))
    case Expire(id) =>
      if id in t.book.commands then
        t.(book := t.book.(commands := t.book.commands[id := t.book.commands[id].(open := false)]),
           expired := t.expired + GivenUp(w, t.book.commands, id))
      else t
    case Poll(r, lo, hi) =>
      Traced(w, t, Sync(t.book, r), hi, OutcomesOf(t.book.commands, r.acks), r.deals, SkippedBy(t.book, r))
  }

  ghost predicate Run(w: Terminal, t: Trace, run: seq<Event>)
    decreases |run|
  {
    run == [] || (Enabled(w, t, run[0]) && Run(w, Next(w, t, run[0]), run[1..]))
  }

  function Exec(w: Terminal, t: Trace, run: seq<Event>): Trace
    decreases |run|
  {
    if run == [] then t else Exec(w, Next(w, t, run[0]), run[1..])
  }

  function Start(netting: bool, mappings: seq<Mapping>): Trace {
    Trace(Book(netting, 0, {}, map[], mappings, []), 0, {}, {}, {}, {}, {}, {}, {}, {})
  }

  // ---------- what is counted ----------

  /** The booking was made by the ack of the command that made this deal. */
  predicate ByAck(w: Terminal, ticket: nat, b: Booking) {
    (b.Activated? || b.ClosedCopy?) && b.command in w.dealOf && w.dealOf[b.command].ticket == ticket
  }

  /** The booking was made by the report of this deal. */
  predicate ByReport(ticket: nat, b: Booking, way: Way) {
    if way == Closing then b.ClosedPosition? && b.ticket == ticket else b.Filled? && b.ticket == ticket
  }

  function One(b: bool): int {
    if b then 1 else 0
  }

  function AckMove(w: Terminal, ticket: nat): Booking -> int {
    (b: Booking) => One(ByAck(w, ticket, b))
  }

  function ReportMove(ticket: nat, way: Way): Booking -> int {
    (b: Booking) => One(ByReport(ticket, b, way))
  }

  /** How often the deal moved the mappings: through its ack, and through its report. */
  function AckTimes(w: Terminal, log: seq<Booking>, ticket: nat): int {
    Sum(log, AckMove(w, ticket))
  }

  function ReportTimes(log: seq<Booking>, ticket: nat, way: Way): int {
    Sum(log, ReportMove(ticket, way))
  }

  /** An ack's booking is on the very copy its command names: a close reduces it, an open activates it. */
  ghost predicate OwnCopy(cmds: map<nat, Command>, b: Booking) {
    b.Activated? || b.ClosedCopy? ==>
      && b.command in cmds && cmds[b.command].copy == Some(b.copy)
      && (b.Activated? <==> cmds[b.command].kind == Open && !cmds[b.command].closes)
  }

  /** Its volume is the deal's, and an open's position too, unless the ack misstated it. */
  ghost predicate OwnTerms(w: Terminal, acked: set<nat>, skewed: set<nat>, astray: set<nat>, b: Booking) {
    b.Activated? || b.ClosedCopy? ==>
      && b.command in w.dealOf && w.dealOf[b.command].ticket in acked
      && (b.volume == w.dealOf[b.command].volume <==> w.dealOf[b.command].ticket !in skewed)
      && (w.dealOf[b.command].ticket !in astray <==>
          (b.Activated? ==> b.position == w.dealOf[b.command].position))
  }

  /** What the report of a deal books: that deal's own order, position and volume. */
  function Reported(d: Deal, way: Way): Booking {
    if way == Closing then ClosedPosition(d.ticket, d.position, d.volume)
    else Filled(d.ticket, d.order, d.position, d.volume)
  }

  ghost predicate OwnDeal(w: Terminal, seen: nat, b: Booking) {
    b.ClosedPosition? || b.Filled? ==>
      var way := if b.Filled? then Filling else Closing;
      exists i :: 0 <= i < seen && i < |w.history| && b == Reported(w.history[i], way)
  }

  function Watermark(w: Terminal, seen: nat): nat
    requires seen <= |w.history|
  {
    if seen == 0 then 0 else w.history[seen - 1].ticket
  }

  ghost predicate AckedBy(w: Terminal, cmds: map<nat, Command>, ticket: nat) {
    exists c :: c in cmds && !cmds[c].open && c in w.dealOf && w.dealOf[c].ticket == ticket
  }

  /** The report of a deal is booked unless its ack came first, named, or it is a fill that was passed over. */
  ghost predicate BooksReport(t: Trace, x: nat, way: Way) {
    (x !in t.acked || x in t.late || x in t.blind) && (way == Filling ==> x !in t.skipped)
  }

  ghost predicate Counted(w: Terminal, t: Trace, x: nat, way: Way)
    requires t.seen <= |w.history|
  {
    && AckTimes(w, t.book.log, x) == One(x in t.acked && x !in t.lost)
    && ReportTimes(t.book.log, x, way) == One(ReportedAs(w, t.seen, x, way) && BooksReport(t, x, way))
  }

  ghost predicate Owed(t: Trace, x: nat) {
    x in t.book.settled <==> (x in t.acked && x !in t.blind && x > t.book.watermark) || x in t.late
  }

  ghost predicate Sets(w: Terminal, t: Trace) {
    && t.blind <= t.acked && t.late <= t.acked && t.lost <= t.acked && t.skewed <= t.acked
    && t.astray <= t.acked
    && (forall x | x in t.late :: x <= t.book.watermark && x !in t.blind)
    && (forall x | x in t.acked :: x > 0 && IsTrade(w, x) && AckedBy(w, t.book.commands, x))
    && (forall x | x in t.skipped :: x <= t.book.watermark)
  }

  /** The deals of commands the copier gave up on are never acked. */
  ghost predicate ExpiredOk(w: Terminal, t: Trace) {
    forall x | x in t.expired :: IsCopyDeal(w, x) && x !in t.acked && AckedBy(w, t.book.commands, x)
  }

  ghost predicate Logged(w: Terminal, cmds: map<nat, Command>, seen: nat, log: seq<Booking>) {
    forall i | 0 <= i < |log| :: OwnCopy(cmds, log[i]) && OwnDeal(w, seen, log[i])
  }

  ghost predicate Terms(w: Terminal, acked: set<nat>, skewed: set<nat>, astray: set<nat>, log: seq<Booking>) {
    forall i | 0 <= i < |log| :: OwnTerms(w, acked, skewed, astray, log[i])
  }

  ghost predicate LogOk(w: Terminal, t: Trace) {
    Logged(w, t.book.commands, t.seen, t.book.log) && Terms(w, t.acked, t.skewed, t.astray, t.book.log)
  }

  ghost predicate Shape(w: Terminal, t: Trace) {
    t.seen <= |w.history| && t.book.watermark == Watermark(w, t.seen) && Sets(w, t)
  }

  ghost predicate Inv(w: Terminal, t: Trace) {
    && Shape(w, t) && ExpiredOk(w, t) && LogOk(w, t)
    && (forall x: nat | x > 0 :: Owed(t, x))
    && (forall x: nat, way | x > 0 :: Counted(w, t, x, way))
  }

  // ---------- acks ----------

  ghost predicate OutcomeOk(w: Terminal, cmds: map<nat, Command>, after: map<nat, Command>, o: Outcome) {
    && o.command in cmds && cmds[o.command].open && o.copy == cmds[o.command].copy
    && o.command in after && !after[o.command].open
    && (OkCopy(o) ==> o.command in w.dealOf && (o.deal == 0 || o.deal == w.dealOf[o.command].ticket))
    && (OkCopy(o) ==> (o.kind == Open <==> cmds[o.command].kind == Open && !cmds[o.command].closes))
  }

  ghost predicate SameCommands(cmds: map<nat, Command>, after: map<nat, Command>) {
    && after.Keys == cmds.Keys
    && forall c | c in cmds :: after[c] == cmds[c] || after[c] == cmds[c].(open := false)
  }

  ghost predicate DistinctCommands(outs: seq<Outcome>) {
    forall i, j | 0 <= i < j < |outs| :: outs[i].command != outs[j].command
  }

  /** DEDUPLICATION: whatever is re-acked, a command settles at most once. */
  lemma {:induction false} EachSettlesOnce(w: Terminal, cmds: map<nat, Command>, acks: seq<Ack>)
    requires forall i | 0 <= i < |acks| :: AckOk(w, cmds, acks[i])
    ensures SameCommands(cmds, CommandsAfter(cmds, acks))
    ensures forall o | o in OutcomesOf(cmds, acks) :: OutcomeOk(w, cmds, CommandsAfter(cmds, acks), o)
    ensures DistinctCommands(OutcomesOf(cmds, acks))
    decreases |acks|
  {
    if acks != [] {
      var n := |acks| - 1;
      EachSettlesOnce(w, cmds, acks[..n]);
      OneMore(w, cmds, acks[..n], acks[n]);
      assert acks == acks[..n] + [acks[n]];
    }
  }

  /** The first ack of an open command: the one that settles it. */
  ghost predicate FirstAck(cmds: map<nat, Command>, acks: seq<Ack>, i: nat) {
    && i < |acks| && acks[i].command in cmds && cmds[acks[i].command].open
    && forall j | 0 <= j < i :: acks[j].command != acks[i].command
  }

  ghost predicate IsAcked(acks: seq<Ack>, c: nat) {
    exists j :: 0 <= j < |acks| && acks[j].command == c
  }

  lemma AckedSnoc(acks: seq<Ack>, a: Ack, c: nat)
    ensures IsAcked(acks + [a], c) <==> IsAcked(acks, c) || a.command == c
  {
    var longer := acks + [a];
    if IsAcked(acks, c) {
      var j :| 0 <= j < |acks| && acks[j].command == c;
      assert longer[j].command == c;
    }
    assert longer[|acks|] == a;
  }

  lemma {:induction false} StillOpen(cmds: map<nat, Command>, acks: seq<Ack>, c: nat)
    requires c in cmds
    ensures CommandsAfter(cmds, acks)[c] == cmds[c].(open := cmds[c].open && !IsAcked(acks, c))
    decreases |acks|
  {
    if acks != [] {
      var n := |acks| - 1;
      StillOpen(cmds, acks[..n], c);
      assert acks == acks[..n] + [acks[n]];
      AckedSnoc(acks[..n], acks[n], c);
    }
  }

  ghost predicate SettledBy(cmds: map<nat, Command>, acks: seq<Ack>, o: Outcome) {
    exists i: nat :: FirstAck(cmds, acks, i) && o == OutcomeOf(acks[i].command, cmds[acks[i].command], acks[i])
  }

  /** WHAT ACKS SETTLE: exactly the first ack of each open command has an outcome. */
  lemma {:induction false} OutcomesAre(cmds: map<nat, Command>, acks: seq<Ack>, o: Outcome)
    ensures o in OutcomesOf(cmds, acks) <==> SettledBy(cmds, acks, o)
    decreases |acks|
  {
    if acks != [] {
      var n := |acks| - 1;
      var init, a := acks[..n], acks[n];
      assert acks == init + [a];
      OutcomesAre(cmds, init, o);
      if a.command in cmds {
        StillOpen(cmds, init, a.command);
        assert Settles(CommandsAfter(cmds, init), a) <==> FirstAck(cmds, acks, n);
      }
      assert forall i: nat | i < n :: FirstAck(cmds, acks, i) <==> FirstAck(cmds, init, i);
      LastSettled(cmds, init, a, o);
    }
  }

  lemma LastSettled(cmds: map<nat, Command>, init: seq<Ack>, a: Ack, o: Outcome)
    requires forall i: nat | i < |init| :: FirstAck(cmds, init + [a], i) <==> FirstAck(cmds, init, i)
    ensures SettledBy(cmds, init + [a], o) <==>
            SettledBy(cmds, init, o)
            || (FirstAck(cmds, init + [a], |init|) && o == OutcomeOf(a.command, cmds[a.command], a))
  {
    var acks := init + [a];
    if SettledBy(cmds, init, o) {
      var i: nat :| FirstAck(cmds, init, i) && o == OutcomeOf(init[i].command, cmds[init[i].command], init[i]);
      assert acks[i] == init[i] && FirstAck(cmds, acks, i);
    }
    if SettledBy(cmds, acks, o) {
      var i: nat :| FirstAck(cmds, acks, i) && o == OutcomeOf(acks[i].command, cmds[acks[i].command], acks[i]);
      if i < |init| {
        assert acks[i] == init[i] && FirstAck(cmds, init, i);
      }
    }
  }

  lemma OneMore(w: Terminal, cmds: map<nat, Command>, acks: seq<Ack>, a: Ack)
    requires AckOk(w, cmds, a)
    requires SameCommands(cmds, CommandsAfter(cmds, acks))
    requires forall o | o in OutcomesOf(cmds, acks) :: OutcomeOk(w, cmds, CommandsAfter(cmds, acks), o)
    requires DistinctCommands(OutcomesOf(cmds, acks))
    ensures SameCommands(cmds, CommandsAfter(cmds, acks + [a]))
    ensures forall o | o in OutcomesOf(cmds, acks + [a]) :: OutcomeOk(w, cmds, CommandsAfter(cmds, acks + [a]), o)
    ensures DistinctCommands(OutcomesOf(cmds, acks + [a]))
  {
    assert (acks + [a])[..|acks|] == acks;
    var outs := OutcomesOf(cmds, acks);
    assert forall i | 0 <= i < |outs| :: outs[i] in outs;
  }

  ghost predicate Carries(w: Terminal, outs: seq<Outcome>, deals: seq<Deal>, x: nat) {
    exists o :: o in outs && Acks(w, o) && Made(w, o) == x && OutcomeBooking(o, deals).Some?
  }

  lemma PostCounts(w: Terminal, b: Book, k: Booking, x: nat, way: Way)
    ensures AckTimes(w, Post(b, k).log, x) == AckTimes(w, b.log, x) + One(ByAck(w, x, k))
    ensures ReportTimes(Post(b, k).log, x, way) == ReportTimes(b.log, x, way) + One(ByReport(x, k, way))
  {
    SumAppend(b.log, k, AckMove(w, x));
    SumAppend(b.log, k, ReportMove(x, way));
  }

  lemma OutcomeCounts(w: Terminal, b: Book, o: Outcome, deals: seq<Deal>, x: nat, way: Way)
    ensures var p := PostOutcome(b, o, deals);
            && AckTimes(w, p.log, x) == AckTimes(w, b.log, x)
                 + One(Acks(w, o) && Made(w, o) == x && OutcomeBooking(o, deals).Some?)
            && ReportTimes(p.log, x, way) == ReportTimes(b.log, x, way)
  {
    var k := OutcomeBooking(o, deals);
    if k.Some? {
      PostCounts(w, b, k.value, x, way);
    }
  }

  lemma CarriesSnoc(w: Terminal, outs: seq<Outcome>, o: Outcome, deals: seq<Deal>, x: nat)
    ensures Carries(w, outs + [o], deals, x) <==>
            Carries(w, outs, deals, x) || (Acks(w, o) && Made(w, o) == x && OutcomeBooking(o, deals).Some?)
  {
    assert forall p :: p in outs + [o] <==> p in outs || p == o;
  }

  /** The acks of a poll book each copy deal at most once, and nothing else of the book but its rows. */
  lemma {:induction false} OutcomesCount(w: Terminal, b: Book, outs: seq<Outcome>, deals: seq<Deal>, x: nat, way: Way)
    requires TerminalOk(w) && DistinctCommands(outs)
    ensures var p := PostOutcomes(b, outs, deals);
            && p == b.(mappings := p.mappings, log := p.log)
            && AckTimes(w, p.log, x) == AckTimes(w, b.log, x) + One(Carries(w, outs, deals, x))
            && ReportTimes(p.log, x, way) == ReportTimes(b.log, x, way)
    decreases |outs|
  {
    if outs != [] {
      var n := |outs| - 1;
      OutcomesCount(w, b, outs[..n], deals, x, way);
      OutcomeCounts(w, PostOutcomes(b, outs[..n], deals), outs[n], deals, x, way);
      CarriesSnoc(w, outs[..n], outs[n], deals, x);
      assert outs == outs[..n] + [outs[n]];
      assert Acks(w, outs[n]) && Made(w, outs[n]) == x ==> !Carries(w, outs[..n], deals, x);
    }
  }

  // ---------- deals ----------

  ghost predicate DistinctDeals(deals: seq<Deal>) {
    forall i, j | 0 <= i < j < |deals| :: deals[i].ticket != deals[j].ticket
  }

  ghost predicate Doing(deals: seq<Deal>, ticket: nat, way: Way) {
    exists d :: d in deals && d.ticket == ticket && Does(d, way)
  }

  ghost predicate Trades(deals: seq<Deal>, ticket: nat) {
    exists d :: d in deals && d.ticket == ticket && d.trade
  }

  /** The deal is booked by its report when the sync comes to it. */
  predicate Books(d: Deal, settled: set<nat>, mapped: set<nat>, way: Way) {
    Does(d, way) && d.ticket !in settled && (way == Filling ==> d.position !in mapped)
  }

  ghost predicate Booked(deals: seq<Deal>, settled: set<nat>, mapped: set<nat>, x: nat, way: Way) {
    exists d :: d in deals && d.ticket == x && Books(d, settled, mapped, way)
  }

  lemma DealCounts(w: Terminal, b: Book, d: Deal, mapped: set<nat>, x: nat, way: Way)
    ensures var p := BookDeal(b, d, mapped);
            && AckTimes(w, p.log, x) == AckTimes(w, b.log, x)
            && ReportTimes(p.log, x, way) == ReportTimes(b.log, x, way)
                 + One(d.ticket == x && Books(d, b.settled, mapped, way))
  {
    if Books(d, b.settled, mapped, Filling) {
      PostCounts(w, b, Reported(d, Filling), x, way);
    } else if Books(d, b.settled, mapped, Closing) {
      PostCounts(w, b, Reported(d, Closing), x, way);
    } else {
      assert BookDeal(b, d, mapped).log == b.log;
    }
  }

  lemma DealSettles(b: Book, d: Deal, mapped: set<nat>, x: nat)
    ensures var p := BookDeal(b, d, mapped);
            && p.netting == b.netting && p.watermark == b.watermark && p.commands == b.commands
            && (x in p.settled <==> x in b.settled && !(d.trade && d.ticket == x))
  {
  }

  lemma TradesSnoc(deals: seq<Deal>, d: Deal, settled: set<nat>, mapped: set<nat>, x: nat, way: Way)
    ensures Booked(deals + [d], settled, mapped, x, way) <==>
            Booked(deals, settled, mapped, x, way) || (d.ticket == x && Books(d, settled, mapped, way))
    ensures Trades(deals + [d], x) <==> Trades(deals, x) || (d.ticket == x && d.trade)
  {
    assert forall p :: p in deals + [d] <==> p in deals || p == d;
  }

  /** The deals of a poll book each unsettled close once, each unsettled fill that is not passed over once, and
      forget each settled ticket they report. */
  lemma {:induction false} DealsCount(w: Terminal, b: Book, deals: seq<Deal>, mapped: set<nat>, x: nat, way: Way)
    requires DistinctDeals(deals)
    ensures var p := BookDeals(b, deals, mapped);
            && p.netting == b.netting && p.watermark == b.watermark && p.commands == b.commands
            && (x in p.settled <==> x in b.settled && !Trades(deals, x))
            && AckTimes(w, p.log, x) == AckTimes(w, b.log, x)
            && ReportTimes(p.log, x, way) == ReportTimes(b.log, x, way) + One(Booked(deals, b.settled, mapped, x, way))
    decreases |deals|
  {
    if deals != [] {
      var n := |deals| - 1;
      var p := BookDeals(b, deals[..n], mapped);
      DealsCount(w, b, deals[..n], mapped, x, way);
      DealCounts(w, p, deals[n], mapped, x, way);
      DealSettles(p, deals[n], mapped, x);
      TradesSnoc(deals[..n], deals[n], b.settled, mapped, x, way);
      assert deals == deals[..n] + [deals[n]];
      if deals[n].ticket == x {
        assert !Trades(deals[..n], x) && !Booked(deals[..n], b.settled, mapped, x, way);
        assert x in p.settled <==> x in b.settled;
      }
    }
  }

  lemma BookedOrPassed(deals: seq<Deal>, settled: set<nat>, mapped: set<nat>, x: nat, way: Way)
    requires DistinctDeals(deals)
    ensures Booked(deals, settled, mapped, x, way) <==>
            Doing(deals, x, way) && x !in settled && (way == Filling ==> x !in PassedOver(deals, settled, mapped))
  {
    if d :| d in deals && d.ticket == x {
      forall e | e in deals && e.ticket == x
        ensures e == d
      {
        SameDeal(deals, d, e);
      }
    }
  }

  lemma SameDeal(deals: seq<Deal>, d: Deal, e: Deal)
    requires DistinctDeals(deals) && d in deals && e in deals && d.ticket == e.ticket
    ensures d == e
  {
    var i :| 0 <= i < |deals| && deals[i] == d;
    var j :| 0 <= j < |deals| && deals[j] == e;
    assert i < j || j < i || i == j;
  }

  lemma {:induction false} PastCut(deals: seq<Deal>, watermark: nat, k: nat)
    requires k <= |deals|
    requires forall i | 0 <= i < k :: deals[i].ticket <= watermark
    requires forall i | k <= i < |deals| :: deals[i].ticket > watermark
    ensures Past(deals, watermark) == deals[k..]
    decreases |deals|
  {
    if deals != [] {
      var k' := if k == 0 then 0 else k - 1;
      PastCut(deals[1..], watermark, k');
      if k == 0 {
        assert deals == [deals[0]] + deals[1..];
      }
    }
  }

  lemma {:induction false} InsertDistinct(d: Deal, deals: seq<Deal>)
    requires DistinctDeals(deals)
    requires forall x | x in deals :: x.ticket != d.ticket
    ensures DistinctDeals(Insert(d, deals))
  {
    if deals != [] && !Before(d, deals[0]) {
      var rest := Insert(d, deals[1..]);
      InsertDistinct(d, deals[1..]);
      forall i | 0 <= i < |rest|
        ensures rest[i].ticket != deals[0].ticket
      {
        assert rest[i] in multiset(rest);
        assert rest[i] == d || rest[i] in deals[1..];
      }
    }
  }

  lemma {:induction false} SortDistinct(deals: seq<Deal>)
    requires DistinctDeals(deals)
    ensures DistinctDeals(SortDeals(deals))
  {
    if deals != [] {
      var rest := SortDeals(deals[1..]);
      SortDistinct(deals[1..]);
      forall x | x in rest
        ensures x.ticket != deals[0].ticket
      {
        assert x in multiset(rest);
        assert x in deals[1..];
      }
      InsertDistinct(deals[0], rest);
    }
  }

  function Unseen(w: Terminal, seen: nat, hi: nat): seq<Deal>
    requires hi <= |w.history|
  {
    if seen < hi then w.history[seen..hi] else []
  }

  lemma PastIsUnseen(w: Terminal, seen: nat, lo: nat, hi: nat)
    requires TerminalOk(w) && lo <= hi <= |w.history| && lo <= seen <= |w.history|
    ensures Past(w.history[lo..hi], Watermark(w, seen)) == Unseen(w, seen, hi)
  {
    var k := if seen <= hi then seen - lo else hi - lo;
    PastCut(w.history[lo..hi], Watermark(w, seen), k);
  }

  lemma SortMembers(deals: seq<Deal>, d: Deal)
    ensures d in SortDeals(deals) <==> d in deals
  {
    assert d in SortDeals(deals) <==> d in multiset(SortDeals(deals));
  }

  lemma UnseenDistinct(w: Terminal, seen: nat, hi: nat)
    requires TerminalOk(w) && hi <= |w.history|
    ensures DistinctDeals(Unseen(w, seen, hi))
  {
    var u := Unseen(w, seen, hi);
    assert forall i | 0 <= i < |u| :: u[i] == w.history[seen + i];
  }

  lemma SortKeeps(deals: seq<Deal>)
    requires DistinctDeals(deals)
    ensures DistinctDeals(SortDeals(deals))
    ensures forall d :: d in SortDeals(deals) <==> d in deals
  {
    SortDistinct(deals);
    forall d
      ensures d in SortDeals(deals) <==> d in deals
    {
      SortMembers(deals, d);
    }
  }

  /** A poll's new deals are exactly the stretch of history the watermark had not passed. */
  lemma NewerIsUnseen(w: Terminal, t: Trace, r: Report, lo: nat, hi: nat)
    requires TerminalOk(w) && Shape(w, t) && Enabled(w, t, Poll(r, lo, hi))
    ensures DistinctDeals(Newer(t.book, r))
    ensures forall d :: d in Newer(t.book, r) <==> d in Unseen(w, t.seen, hi)
  {
    PastIsUnseen(w, t.seen, lo, hi);
    UnseenDistinct(w, t.seen, hi);
    SortKeeps(Unseen(w, t.seen, hi));
    assert Newer(t.book, r) == SortDeals(Unseen(w, t.seen, hi));
  }

  /** The largest unseen ticket is the last one, if any is unseen. */
  lemma UnseenMax(w: Terminal, seen: nat, hi: nat, newer: seq<Deal>)
    requires TerminalOk(w) && seen <= |w.history| && hi <= |w.history|
    requires forall d :: d in newer <==> d in Unseen(w, seen, hi)
    ensures MaxTicket(newer, Watermark(w, seen)) == Watermark(w, if hi > seen then hi else seen)
  {
    var low := Watermark(w, seen);
    if hi > seen {
      var last := w.history[hi - 1];
      assert Unseen(w, seen, hi)[hi - 1 - seen] == last;
      assert last in newer;
      forall d | d in newer
        ensures d.ticket <= last.ticket
      {
        UnseenBounds(w, seen, hi, d);
      }
      assert low <= last.ticket;
      MaxIs(newer, low, last);
    } else {
      MaxOfNone(newer, low);
    }
  }

  lemma UnseenBounds(w: Terminal, seen: nat, hi: nat, d: Deal)
    requires TerminalOk(w) && seen < hi <= |w.history| && d in Unseen(w, seen, hi)
    ensures d.ticket <= w.history[hi - 1].ticket
  {
    var j :| 0 <= j < hi - seen && w.history[seen..hi][j] == d;
    assert d == w.history[seen + j];
  }

  lemma MaxIs(deals: seq<Deal>, low: nat, last: Deal)
    requires last in deals && low <= last.ticket
    requires forall d | d in deals :: d.ticket <= last.ticket
    ensures MaxTicket(deals, low) == last.ticket
  {
  }

  lemma MaxOfNone(deals: seq<Deal>, low: nat)
    requires forall d :: d !in deals
    ensures MaxTicket(deals, low) == low
  {
  }

  /** The watermark is the last ticket reported, and never moves back. */
  lemma WatermarkMoves(w: Terminal, t: Trace, r: Report, lo: nat, hi: nat)
    requires TerminalOk(w) && Shape(w, t) && Enabled(w, t, Poll(r, lo, hi))
    ensures MaxTicket(Newer(t.book, r), t.book.watermark) == Watermark(w, SeenAfter(t, hi))
  {
    NewerIsUnseen(w, t, r, lo, hi);
    UnseenMax(w, t.seen, hi, Newer(t.book, r));
  }

  lemma SplitsHistory(w: Terminal, seen: nat, i: nat)
    requires TerminalOk(w) && seen <= |w.history| && i < |w.history|
    ensures i < seen <==> w.history[i].ticket <= Watermark(w, seen)
  {
  }

  // ---------- one poll ----------

  /** What a poll does to one ticket: `skips` is what its acks settle, added to what is owed. */
  ghost predicate Polled(w: Terminal, b: Book, outs: seq<Outcome>, deals: seq<Deal>, newer: seq<Deal>,
                         skipped: set<nat>, u: Book, x: nat, way: Way)
  {
    var skips := b.settled + Named(outs);
    && (x in u.settled <==> x in skips && !Trades(newer, x))
    && AckTimes(w, u.log, x) == AckTimes(w, b.log, x) + One(Carries(w, outs, deals, x))
    && ReportTimes(u.log, x, way) == ReportTimes(b.log, x, way)
         + One(Doing(newer, x, way) && x !in skips && (way == Filling ==> x !in skipped))
  }

  /** The book as a poll's acks leave it, when its deals come to be booked. */
  function Ready(b: Book, r: Report): Book {
    Posted(b, r).(watermark := MaxTicket(Newer(b, r), b.watermark),
                  settled := Posted(b, r).settled + Named(OutcomesOf(b.commands, r.acks)))
  }

  lemma SyncIs(b: Book, r: Report)
    ensures Sync(b, r) == BookDeals(Ready(b, r), Newer(b, r), Mapped(b, r))
  {
    var outs := OutcomesOf(b.commands, r.acks);
    if outs == [] {
      assert Named(outs) == {};
    }
  }

  lemma SyncCounts(w: Terminal, b: Book, r: Report, x: nat, way: Way)
    requires TerminalOk(w) && DistinctCommands(OutcomesOf(b.commands, r.acks)) && DistinctDeals(Newer(b, r))
    ensures var u := Sync(b, r);
            && u.commands == CommandsAfter(b.commands, r.acks)
            && u.watermark == MaxTicket(Newer(b, r), b.watermark)
            && Polled(w, b, OutcomesOf(b.commands, r.acks), r.deals, Newer(b, r), SkippedBy(b, r), u, x, way)
  {
    var outs := OutcomesOf(b.commands, r.acks);
    SyncIs(b, r);
    OutcomesCount(w, b.(commands := CommandsAfter(b.commands, r.acks)), outs, r.deals, x, way);
    DealsCount(w, Ready(b, r), Newer(b, r), Mapped(b, r), x, way);
    BookedOrPassed(Newer(b, r), b.settled + Named(outs), Mapped(b, r), x, way);
  }

  /** Two outcomes for one deal are one outcome. */
  lemma OneOutcomePerDeal(w: Terminal, outs: seq<Outcome>, p: Outcome, q: Outcome)
    requires TerminalOk(w) && DistinctCommands(outs) && p in outs && q in outs
    requires Acks(w, p) && Acks(w, q) && Made(w, p) == Made(w, q)
    ensures p == q
  {
    var i :| 0 <= i < |outs| && outs[i] == p;
    var j :| 0 <= j < |outs| && outs[j] == q;
    assert i < j || j < i || i == j;
  }

  ghost predicate NamesTruly(w: Terminal, outs: seq<Outcome>) {
    forall o | o in outs && OkCopy(o) :: Acks(w, o) && (o.deal == 0 || o.deal == Made(w, o))
  }

  /** How the sets of a poll's outcomes stand to each other, at one ticket. */
  ghost predicate SetsAgree(w: Terminal, outs: seq<Outcome>, deals: seq<Deal>, watermark: nat, x: nat) {
    && (x in Named(outs) <==> x in Acked(w, outs) && x !in Blind(w, outs))
    && (x in Blind(w, outs) ==> x in Acked(w, outs))
    && (x in Late(w, outs, watermark) <==> x in Named(outs) && x <= watermark)
    && (x in Lost(w, outs, deals) ==> x in Acked(w, outs))
    && (Carries(w, outs, deals, x) <==> x in Acked(w, outs) && x !in Lost(w, outs, deals))
  }

  lemma OutcomeSets(w: Terminal, outs: seq<Outcome>, deals: seq<Deal>, watermark: nat, x: nat)
    requires TerminalOk(w) && DistinctCommands(outs) && NamesTruly(w, outs) && x > 0
    ensures SetsAgree(w, outs, deals, watermark, x)
  {
    if o :| o in outs && Acks(w, o) && Made(w, o) == x {
      OnlyOne(w, outs, o);
      OnlyOutcome(w, outs, deals, watermark, o);
    } else {
      assert forall p | p in outs && NamesCopy(p) :: Acks(w, p) && Made(w, p) == p.deal;
    }
  }

  lemma OnlyOne(w: Terminal, outs: seq<Outcome>, o: Outcome)
    requires TerminalOk(w) && DistinctCommands(outs) && o in outs && Acks(w, o)
    ensures forall p | p in outs && Acks(w, p) && Made(w, p) == Made(w, o) :: p == o
  {
    forall p | p in outs && Acks(w, p) && Made(w, p) == Made(w, o)
      ensures p == o
    {
      OneOutcomePerDeal(w, outs, p, o);
    }
  }

  lemma OnlyOutcome(w: Terminal, outs: seq<Outcome>, deals: seq<Deal>, watermark: nat, o: Outcome)
    requires NamesTruly(w, outs) && o in outs && Acks(w, o)
    requires forall p | p in outs && Acks(w, p) && Made(w, p) == Made(w, o) :: p == o
    ensures SetsAgree(w, outs, deals, watermark, Made(w, o))
  {
    var x := Made(w, o);
    assert forall p | p in outs && NamesCopy(p) :: Acks(w, p) && Made(w, p) == p.deal;
    assert x in Acked(w, outs);
    assert x in Blind(w, outs) <==> o.deal == 0;
    assert x in Named(outs) <==> o.deal != 0;
    assert x in Late(w, outs, watermark) <==> o.deal != 0 && x <= watermark;
    assert x in Lost(w, outs, deals) <==> OutcomeBooking(o, deals).None?;
  }

  lemma MadeIsTrade(w: Terminal, c: nat)
    requires TerminalOk(w) && c in w.dealOf
    ensures w.dealOf[c].ticket > 0 && IsTrade(w, w.dealOf[c].ticket)
  {
    assert MadeOk(w, w.dealOf[c]);
  }

  lemma AckedAreNew(w: Terminal, cmds: map<nat, Command>, acks: seq<Ack>, x: nat)
    requires TerminalOk(w)
    requires forall i | 0 <= i < |acks| :: AckOk(w, cmds, acks[i])
    ensures NamesTruly(w, OutcomesOf(cmds, acks)) && DistinctCommands(OutcomesOf(cmds, acks))
    ensures x in Acked(w, OutcomesOf(cmds, acks)) ==>
              x > 0 && IsTrade(w, x) && AckedBy(w, CommandsAfter(cmds, acks), x) && !AckedBy(w, cmds, x)
  {
    EachSettlesOnce(w, cmds, acks);
    var outs := OutcomesOf(cmds, acks);
    forall o | o in outs && OkCopy(o)
      ensures Acks(w, o) && (o.deal == 0 || o.deal == Made(w, o))
    {
      assert OutcomeOk(w, cmds, CommandsAfter(cmds, acks), o);
    }
    if o :| o in outs && Acks(w, o) && Made(w, o) == x {
      assert OutcomeOk(w, cmds, CommandsAfter(cmds, acks), o);
      MadeIsTrade(w, o.command);
    }
  }

  lemma AckedStays(w: Terminal, cmds: map<nat, Command>, after: map<nat, Command>, x: nat)
    requires AckedBy(w, cmds, x) && cmds.Keys <= after.Keys
    requires forall c | c in cmds && !cmds[c].open :: !after[c].open
    ensures AckedBy(w, after, x)
  {
    var c :| c in cmds && !cmds[c].open && c in w.dealOf && w.dealOf[c].ticket == x;
    assert c in after && !after[c].open;
  }

  /** The tickets a poll skips are the acked ones it reports. */
  lemma TradesBetween(w: Terminal, seen: nat, hi: nat, x: nat)
    requires TerminalOk(w) && seen <= |w.history| && hi <= |w.history| && IsTrade(w, x)
    ensures Trades(Unseen(w, seen, hi), x) <==>
            Watermark(w, seen) < x <= Watermark(w, if hi > seen then hi else seen)
  {
    var i :| 0 <= i < |w.history| && w.history[i].ticket == x && w.history[i].trade;
    SplitsHistory(w, seen, i);
    SplitsHistory(w, if hi > seen then hi else seen, i);
    if seen <= i < hi {
      assert Unseen(w, seen, hi)[i - seen] == w.history[i];
    }
    if Trades(Unseen(w, seen, hi), x) {
      var d :| d in Unseen(w, seen, hi) && d.ticket == x && d.trade;
      var j :| 0 <= j < |Unseen(w, seen, hi)| && Unseen(w, seen, hi)[j] == d;
      assert w.history[seen + j].ticket == w.history[i].ticket;
    }
  }

  lemma ReportsGrow(w: Terminal, seen: nat, hi: nat, x: nat, way: Way)
    requires TerminalOk(w) && seen <= |w.history| && hi <= |w.history|
    ensures ReportedAs(w, if hi > seen then hi else seen, x, way) <==>
            ReportedAs(w, seen, x, way) || Doing(Unseen(w, seen, hi), x, way)
    ensures ReportedAs(w, seen, x, way) ==> x <= Watermark(w, seen)
    ensures Doing(Unseen(w, seen, hi), x, way) ==> x > Watermark(w, seen)
  {
    var u := Unseen(w, seen, hi);
    forall i | seen <= i < hi
      ensures u[i - seen] == w.history[i]
    {
    }
    if Doing(u, x, way) {
      var d :| d in u && d.ticket == x && Does(d, way);
      var j :| 0 <= j < |u| && u[j] == d;
      assert w.history[seen + j] == d;
      SplitsHistory(w, seen, seen + j);
    }
    if i :| 0 <= i < seen && w.history[i].ticket == x && Does(w.history[i], way) {
      SplitsHistory(w, seen, i);
    }
    if i :| seen <= i < hi && w.history[i].ticket == x && Does(w.history[i], way) {
      assert u[i - seen] in u;
    }
  }

  lemma SameMembers(a: seq<Deal>, b: seq<Deal>, x: nat, way: Way)
    requires forall d :: d in a <==> d in b
    ensures Trades(a, x) <==> Trades(b, x)
    ensures Doing(a, x, way) <==> Doing(b, x, way)
  {
  }

  /** How a poll's acks and new deals stand to what was acked and reported before. */
  ghost predicate Premises(w: Terminal, t: Trace, hi: nat, outs: seq<Outcome>, deals: seq<Deal>, newer: seq<Deal>,
                           skipped: set<nat>, x: nat, way: Way)
    requires t.seen <= |w.history| && hi <= |w.history|
  {
    var top := Watermark(w, SeenAfter(t, hi));
    && t.book.watermark <= top
    && (x in Acked(w, outs) ==> x !in t.acked)
    && SetsAgree(w, outs, deals, t.book.watermark, x)
    && (x in t.acked + Acked(w, outs) ==> (Trades(newer, x) <==> t.book.watermark < x <= top))
    && (ReportedAs(w, SeenAfter(t, hi), x, way) <==> ReportedAs(w, t.seen, x, way) || Doing(newer, x, way))
    && (ReportedAs(w, t.seen, x, way) ==> x <= t.book.watermark)
    && (Doing(newer, x, way) ==> x > t.book.watermark)
    && (x in skipped ==> t.book.watermark < x <= top)
  }

  lemma UnseenAreNew(w: Terminal, seen: nat, hi: nat, d: Deal)
    requires TerminalOk(w) && seen <= |w.history| && hi <= |w.history| && d in Unseen(w, seen, hi)
    ensures hi > seen && Watermark(w, seen) < d.ticket <= Watermark(w, hi)
  {
    var j :| 0 <= j < |Unseen(w, seen, hi)| && Unseen(w, seen, hi)[j] == d;
    assert w.history[seen + j] == d;
    SplitsHistory(w, seen, seen + j);
    SplitsHistory(w, hi, seen + j);
  }

  lemma SkippedAreNew(w: Terminal, t: Trace, r: Report, lo: nat, hi: nat, x: nat)
    requires TerminalOk(w) && Shape(w, t) && Enabled(w, t, Poll(r, lo, hi)) && x in SkippedBy(t.book, r)
    ensures t.book.watermark < x <= Watermark(w, SeenAfter(t, hi))
  {
    NewerIsUnseen(w, t, r, lo, hi);
    var d :| d in Newer(t.book, r) && d.ticket == x;
    UnseenAreNew(w, t.seen, hi, d);
  }

  lemma PremisesHold(w: Terminal, t: Trace, r: Report, lo: nat, hi: nat, x: nat, way: Way)
    requires TerminalOk(w) && Shape(w, t) && Enabled(w, t, Poll(r, lo, hi)) && x > 0
    ensures Premises(w, t, hi, OutcomesOf(t.book.commands, r.acks), r.deals, Newer(t.book, r),
                     SkippedBy(t.book, r), x, way)
  {
    var outs := OutcomesOf(t.book.commands, r.acks);
    AckedAreNew(w, t.book.commands, r.acks, x);
    NewerIsUnseen(w, t, r, lo, hi);
    WatermarkMoves(w, t, r, lo, hi);
    OutcomeSets(w, outs, r.deals, t.book.watermark, x);
    SameMembers(Newer(t.book, r), Unseen(w, t.seen, hi), x, way);
    ReportsGrow(w, t.seen, hi, x, way);
    if x in t.acked + Acked(w, outs) {
      TradesBetween(w, t.seen, hi, x);
    }
    if x in SkippedBy(t.book, r) {
      SkippedAreNew(w, t, r, lo, hi, x);
    }
  }

  lemma {:induction false} SettlesAlgebra(w: Terminal, t: Trace, hi: nat, outs: seq<Outcome>, deals: seq<Deal>,
                                          newer: seq<Deal>, skipped: set<nat>, u: Book, x: nat, way: Way)
    requires Shape(w, t) && Owed(t, x) && hi <= |w.history|
    requires Polled(w, t.book, outs, deals, newer, skipped, u, x, way)
    requires Premises(w, t, hi, outs, deals, newer, skipped, x, way)
    requires u.watermark == Watermark(w, SeenAfter(t, hi))
    ensures Owed(Traced(w, t, u, hi, outs, deals, skipped), x)
  {
  }

  lemma {:induction false} CountsAlgebra(w: Terminal, t: Trace, hi: nat, outs: seq<Outcome>, deals: seq<Deal>,
                                         newer: seq<Deal>, skipped: set<nat>, u: Book, x: nat, way: Way)
    requires Shape(w, t) && Owed(t, x) && Counted(w, t, x, way) && hi <= |w.history|
    requires Polled(w, t.book, outs, deals, newer, skipped, u, x, way)
    requires Premises(w, t, hi, outs, deals, newer, skipped, x, way)
    ensures Counted(w, Traced(w, t, u, hi, outs, deals, skipped), x, way)
  {
  }

  lemma PollTicket(w: Terminal, t: Trace, r: Report, lo: nat, hi: nat, x: nat, way: Way)
    requires TerminalOk(w) && Shape(w, t) && Owed(t, x) && Counted(w, t, x, way)
    requires Enabled(w, t, Poll(r, lo, hi)) && x > 0
    ensures var u := Next(w, t, Poll(r, lo, hi)); u.seen <= |w.history| && Owed(u, x) && Counted(w, u, x, way)
  {
    var outs := OutcomesOf(t.book.commands, r.acks);
    var newer, skipped := Newer(t.book, r), SkippedBy(t.book, r);
    var u := Sync(t.book, r);
    PollFrame(w, t, r, lo, hi, x, way);
    PremisesHold(w, t, r, lo, hi, x, way);
    SettlesAlgebra(w, t, hi, outs, r.deals, newer, skipped, u, x, way);
    CountsAlgebra(w, t, hi, outs, r.deals, newer, skipped, u, x, way);
  }

  lemma PollFrame(w: Terminal, t: Trace, r: Report, lo: nat, hi: nat, x: nat, way: Way)
    requires TerminalOk(w) && Shape(w, t) && Enabled(w, t, Poll(r, lo, hi))
    ensures var u := Sync(t.book, r);
            && u.commands == CommandsAfter(t.book.commands, r.acks)
            && t.book.watermark <= u.watermark == Watermark(w, SeenAfter(t, hi))
            && Polled(w, t.book, OutcomesOf(t.book.commands, r.acks), r.deals, Newer(t.book, r),
                      SkippedBy(t.book, r), u, x, way)
  {
    AckedAreNew(w, t.book.commands, r.acks, x);
    NewerIsUnseen(w, t, r, lo, hi);
    WatermarkMoves(w, t, r, lo, hi);
    SyncCounts(w, t.book, r, x, way);
  }

  lemma PollAcked(w: Terminal, t: Trace, r: Report, lo: nat, hi: nat, x: nat)
    requires TerminalOk(w) && Shape(w, t) && Enabled(w, t, Poll(r, lo, hi))
    requires x in t.acked + Acked(w, OutcomesOf(t.book.commands, r.acks))
    ensures x > 0 && IsTrade(w, x) && AckedBy(w, CommandsAfter(t.book.commands, r.acks), x)
  {
    AckedAreNew(w, t.book.commands, r.acks, x);
    if x in t.acked {
      EachSettlesOnce(w, t.book.commands, r.acks);
      AckedStays(w, t.book.commands, CommandsAfter(t.book.commands, r.acks), x);
    }
  }

  lemma PollApart(w: Terminal, t: Trace, r: Report, lo: nat, hi: nat, x: nat)
    requires TerminalOk(w) && Shape(w, t) && Enabled(w, t, Poll(r, lo, hi))
    ensures var u := Next(w, t, Poll(r, lo, hi)); !(x in u.late && x in u.blind)
  {
    var outs := OutcomesOf(t.book.commands, r.acks);
    AckedAreNew(w, t.book.commands, r.acks, x);
    if x > 0 {
      OutcomeSets(w, outs, r.deals, t.book.watermark, x);
    }
  }

  lemma OutcomeSubsets(w: Terminal, outs: seq<Outcome>, deals: seq<Deal>, watermark: nat)
    ensures Late(w, outs, watermark) <= Acked(w, outs) && Blind(w, outs) <= Acked(w, outs)
    ensures Lost(w, outs, deals) <= Acked(w, outs) && Skewed(w, outs) <= Acked(w, outs)
    ensures Astray(w, outs) <= Acked(w, outs)
    ensures forall x | x in Late(w, outs, watermark) :: x <= watermark
  {
  }

  lemma PollSets(w: Terminal, t: Trace, r: Report, lo: nat, hi: nat)
    requires TerminalOk(w) && Shape(w, t) && Enabled(w, t, Poll(r, lo, hi))
    ensures Sets(w, Next(w, t, Poll(r, lo, hi)))
  {
    var u := Next(w, t, Poll(r, lo, hi));
    PollFrame(w, t, r, lo, hi, 0, Closing);
    OutcomeSubsets(w, OutcomesOf(t.book.commands, r.acks), r.deals, t.book.watermark);
    forall x | x in u.acked
      ensures x > 0 && IsTrade(w, x) && AckedBy(w, u.book.commands, x)
    {
      PollAcked(w, t, r, lo, hi, x);
    }
    forall x | x in u.late
      ensures x <= u.book.watermark && x !in u.blind
    {
      PollApart(w, t, r, lo, hi, x);
    }
    forall x | x in u.skipped
      ensures x <= u.book.watermark
    {
      if x in SkippedBy(t.book, r) {
        SkippedAreNew(w, t, r, lo, hi, x);
      }
    }
  }

  lemma PollExpired(w: Terminal, t: Trace, r: Report, lo: nat, hi: nat)
    requires TerminalOk(w) && Shape(w, t) && ExpiredOk(w, t) && Enabled(w, t, Poll(r, lo, hi))
    ensures ExpiredOk(w, Next(w, t, Poll(r, lo, hi)))
  {
    PollFrame(w, t, r, lo, hi, 0, Closing);
    EachSettlesOnce(w, t.book.commands, r.acks);
    forall x | x in t.expired
      ensures x !in Acked(w, OutcomesOf(t.book.commands, r.acks))
      ensures AckedBy(w, CommandsAfter(t.book.commands, r.acks), x)
    {
      AckedAreNew(w, t.book.commands, r.acks, x);
      AckedStays(w, t.book.commands, CommandsAfter(t.book.commands, r.acks), x);
    }
  }

  // ---------- what the log says ----------

  lemma LogGrows(w: Terminal, cmds: map<nat, Command>, after: map<nat, Command>, seen: nat, more: nat,
                 log: seq<Booking>)
    requires Logged(w, cmds, seen, log) && seen <= more && cmds.Keys <= after.Keys
    requires forall c | c in cmds :: after[c] == cmds[c] || after[c] == cmds[c].(open := false)
    ensures Logged(w, after, more, log)
  {
    forall i | 0 <= i < |log|
      ensures OwnCopy(after, log[i]) && OwnDeal(w, more, log[i])
    {
      assert OwnCopy(cmds, log[i]) && OwnDeal(w, seen, log[i]);
    }
  }

  lemma {:induction false} OutcomesLogged(w: Terminal, cmds: map<nat, Command>, before: map<nat, Command>, seen: nat,
                                          b: Book, outs: seq<Outcome>, deals: seq<Deal>)
    requires Logged(w, cmds, seen, b.log) && SameCommands(before, cmds)
    requires forall o | o in outs :: OutcomeOk(w, before, cmds, o)
    ensures Logged(w, cmds, seen, PostOutcomes(b, outs, deals).log)
    decreases |outs|
  {
    if outs != [] {
      var n := |outs| - 1;
      OutcomesLogged(w, cmds, before, seen, b, outs[..n], deals);
      var o := outs[n];
      assert OutcomeOk(w, before, cmds, o);
      var k := OutcomeBooking(o, deals);
      if k.Some? {
        assert OwnCopy(cmds, k.value) && OwnDeal(w, seen, k.value);
      }
    }
  }

  ghost predicate InReport(w: Terminal, seen: nat, d: Deal) {
    exists i :: 0 <= i < seen && i < |w.history| && w.history[i] == d
  }

  lemma {:induction false} DealsLogged(w: Terminal, cmds: map<nat, Command>, seen: nat, b: Book, deals: seq<Deal>,
                                       mapped: set<nat>)
    requires Logged(w, cmds, seen, b.log)
    requires forall d | d in deals :: InReport(w, seen, d)
    ensures Logged(w, cmds, seen, BookDeals(b, deals, mapped).log)
    decreases |deals|
  {
    if deals != [] {
      var n := |deals| - 1;
      assert forall e | e in deals[..n] :: e in deals;
      DealsLogged(w, cmds, seen, b, deals[..n], mapped);
      assert deals[n] in deals;
      DealLogged(w, cmds, seen, BookDeals(b, deals[..n], mapped), deals[n], mapped);
    }
  }

  lemma DealLogged(w: Terminal, cmds: map<nat, Command>, seen: nat, b: Book, d: Deal, mapped: set<nat>)
    requires Logged(w, cmds, seen, b.log) && InReport(w, seen, d)
    ensures Logged(w, cmds, seen, BookDeal(b, d, mapped).log)
  {
    assert OwnDeal(w, seen, Reported(d, Closing)) && OwnDeal(w, seen, Reported(d, Filling));
  }

  lemma PollLogged(w: Terminal, t: Trace, r: Report, lo: nat, hi: nat)
    requires TerminalOk(w) && Shape(w, t) && LogOk(w, t) && Enabled(w, t, Poll(r, lo, hi))
    ensures Logged(w, Sync(t.book, r).commands, SeenAfter(t, hi), Sync(t.book, r).log)
  {
    var b := t.book;
    var cmds := CommandsAfter(b.commands, r.acks);
    var outs := OutcomesOf(b.commands, r.acks);
    var newer := Newer(b, r);
    var seen := SeenAfter(t, hi);
    PollFrame(w, t, r, lo, hi, 0, Closing);
    EachSettlesOnce(w, b.commands, r.acks);
    LogGrows(w, b.commands, cmds, t.seen, seen, b.log);
    OutcomesLogged(w, cmds, b.commands, seen, b.(commands := cmds), outs, r.deals);
    NewerIsUnseen(w, t, r, lo, hi);
    forall d | d in newer
      ensures InReport(w, seen, d)
    {
      InHistory(w, t.seen, hi, d);
    }
    SyncIs(b, r);
    DealsLogged(w, cmds, seen, Ready(b, r), newer, Mapped(b, r));
  }

  lemma InHistory(w: Terminal, seen: nat, hi: nat, d: Deal)
    requires hi <= |w.history| && d in Unseen(w, seen, hi)
    ensures exists i :: 0 <= i < hi && w.history[i] == d
  {
    var j :| 0 <= j < |Unseen(w, seen, hi)| && Unseen(w, seen, hi)[j] == d;
    assert w.history[seen + j] == d;
  }

  lemma TermsGrow(w: Terminal, t: Trace, u: Trace, log: seq<Booking>)
    requires Terms(w, t.acked, t.skewed, t.astray, log) && t.acked <= u.acked
    requires forall x | x in t.acked :: (x in u.skewed <==> x in t.skewed) && (x in u.astray <==> x in t.astray)
    ensures Terms(w, u.acked, u.skewed, u.astray, log)
  {
    forall i | 0 <= i < |log|
      ensures OwnTerms(w, u.acked, u.skewed, u.astray, log[i])
    {
      assert OwnTerms(w, t.acked, t.skewed, t.astray, log[i]);
    }
  }

  /** What the outcome books has the deal's volume and position exactly when its deal is in neither fault. */
  ghost predicate Stated(w: Terminal, acked: set<nat>, skewed: set<nat>, astray: set<nat>, deals: seq<Deal>,
      o: Outcome)
  {
    OkCopy(o) ==>
      && Acks(w, o) && Made(w, o) in acked && (Misstates(w, o) <==> Made(w, o) in skewed)
      && (o.kind == Close ==> Made(w, o) !in astray)
      && (o.kind == Open && OutcomeBooking(o, deals).Some? ==>
            (OutcomeBooking(o, deals).value.position == w.dealOf[o.command].position <==> Made(w, o) !in astray))
  }

  lemma {:induction false} OutcomesTerms(w: Terminal, u: Trace, b: Book, outs: seq<Outcome>, deals: seq<Deal>)
    requires Terms(w, u.acked, u.skewed, u.astray, b.log)
    requires forall o | o in outs :: Stated(w, u.acked, u.skewed, u.astray, deals, o)
    ensures Terms(w, u.acked, u.skewed, u.astray, PostOutcomes(b, outs, deals).log)
    decreases |outs|
  {
    if outs != [] {
      var n := |outs| - 1;
      OutcomesTerms(w, u, b, outs[..n], deals);
      assert Stated(w, u.acked, u.skewed, u.astray, deals, outs[n]);
      var k := OutcomeBooking(outs[n], deals);
      if k.Some? {
        assert OwnTerms(w, u.acked, u.skewed, u.astray, k.value);
      }
    }
  }

  lemma {:induction false} DealsTerms(w: Terminal, u: Trace, b: Book, deals: seq<Deal>, mapped: set<nat>)
    requires Terms(w, u.acked, u.skewed, u.astray, b.log)
    ensures Terms(w, u.acked, u.skewed, u.astray, BookDeals(b, deals, mapped).log)
    decreases |deals|
  {
    if deals != [] {
      DealsTerms(w, u, b, deals[..|deals| - 1], mapped);
    }
  }

  lemma SliceDistinct(w: Terminal, lo: nat, hi: nat)
    requires TerminalOk(w) && lo <= hi <= |w.history|
    ensures DistinctTickets(w.history[lo..hi])
  {
    assert forall i | 0 <= i < hi - lo :: w.history[lo..hi][i] == w.history[lo + i];
  }

  /** A deal of the report with the ticket of a command's deal is that deal. */
  lemma SliceDeal(w: Terminal, lo: nat, hi: nat, c: nat, d: Deal)
    requires TerminalOk(w) && lo <= hi <= |w.history| && c in w.dealOf
    requires d in w.history[lo..hi] && d.ticket == w.dealOf[c].ticket
    ensures d == w.dealOf[c]
  {
    assert MadeOk(w, w.dealOf[c]);
    var i :| lo <= i < hi && w.history[i] == d;
    var j :| 0 <= j < |w.history| && w.history[j] == w.dealOf[c];
    assert i < j || j < i || i == j;
  }

  /** The position a report gives for a command's deal: the deal's when the report holds it, otherwise none. */
  lemma ReportedPosition(w: Terminal, lo: nat, hi: nat, c: nat)
    requires TerminalOk(w) && lo <= hi <= |w.history| && c in w.dealOf
    ensures PositionOf(w.history[lo..hi], w.dealOf[c].ticket) ==
            if w.dealOf[c] in w.history[lo..hi] then w.dealOf[c].position else 0
  {
    var deals, x := w.history[lo..hi], w.dealOf[c].ticket;
    MadeIsTrade(w, c);
    SliceDistinct(w, lo, hi);
    PositionOfDeal(deals, x);
    if w.dealOf[c] !in deals {
      forall d | d in deals
        ensures d.ticket != x
      {
        if d.ticket == x {
          SliceDeal(w, lo, hi, c, d);
        }
      }
    }
  }

  lemma PollPlaced(w: Terminal, r: Report, lo: nat, hi: nat, o: Outcome)
    requires TerminalOk(w) && lo <= hi <= |w.history| && r.deals == w.history[lo..hi]
    requires Acks(w, o) && (o.deal == 0 || o.deal == Made(w, o)) && o.kind == Open && OutcomeBooking(o, r.deals).Some?
    ensures OutcomeBooking(o, r.deals).value.position == w.dealOf[o.command].position <==> !Misplaces(w, o)
  {
    if o.position == 0 {
      ReportedPosition(w, lo, hi, o.command);
    }
  }

  lemma PollStated(w: Terminal, t: Trace, r: Report, lo: nat, hi: nat, o: Outcome)
    requires TerminalOk(w) && Shape(w, t) && Enabled(w, t, Poll(r, lo, hi))
    requires o in OutcomesOf(t.book.commands, r.acks)
    ensures var u := Next(w, t, Poll(r, lo, hi)); Stated(w, u.acked, u.skewed, u.astray, r.deals, o)
  {
    var outs := OutcomesOf(t.book.commands, r.acks);
    AckedAreNew(w, t.book.commands, r.acks, 0);
    if OkCopy(o) {
      assert Acks(w, o);
      var x := Made(w, o);
      assert x in Acked(w, outs);
      AckedAreNew(w, t.book.commands, r.acks, x);
      OnlyOne(w, outs, o);
      assert x !in t.acked && x !in t.skewed && x !in t.astray;
      assert x in Skewed(w, outs) <==> Misstates(w, o);
      assert x in Astray(w, outs) <==> Misplaces(w, o);
      if o.kind == Open && OutcomeBooking(o, r.deals).Some? {
        PollPlaced(w, r, lo, hi, o);
      }
    }
  }

  lemma PollTerms(w: Terminal, t: Trace, r: Report, lo: nat, hi: nat)
    requires TerminalOk(w) && Shape(w, t) && LogOk(w, t) && Enabled(w, t, Poll(r, lo, hi))
    ensures var u := Next(w, t, Poll(r, lo, hi)); Terms(w, u.acked, u.skewed, u.astray, u.book.log)
  {
    var b, u := t.book, Next(w, t, Poll(r, lo, hi));
    var outs := OutcomesOf(b.commands, r.acks);
    OutcomeSubsets(w, outs, r.deals, b.watermark);
    forall x | x in Acked(w, outs)
      ensures x !in t.acked
    {
      AckedAreNew(w, b.commands, r.acks, x);
    }
    TermsGrow(w, t, u, b.log);
    forall o | o in outs
      ensures Stated(w, u.acked, u.skewed, u.astray, r.deals, o)
    {
      PollStated(w, t, r, lo, hi, o);
    }
    OutcomesTerms(w, u, b.(commands := CommandsAfter(b.commands, r.acks)), outs, r.deals);
    SyncIs(b, r);
    DealsTerms(w, u, Ready(b, r), Newer(b, r), Mapped(b, r));
  }

  // ---------- whole runs ----------

  lemma PollKeeps(w: Terminal, t: Trace, r: Report, lo: nat, hi: nat)
    requires TerminalOk(w) && Inv(w, t) && Enabled(w, t, Poll(r, lo, hi))
    ensures Inv(w, Next(w, t, Poll(r, lo, hi)))
  {
    var u := Next(w, t, Poll(r, lo, hi));
    PollFrame(w, t, r, lo, hi, 0, Closing);
    PollSets(w, t, r, lo, hi);
    PollExpired(w, t, r, lo, hi);
    PollLogged(w, t, r, lo, hi);
    PollTerms(w, t, r, lo, hi);
    forall x: nat, way | x > 0
      ensures Owed(u, x) && Counted(w, u, x, way)
    {
      assert Owed(t, x) && Counted(w, t, x, way);
      PollTicket(w, t, r, lo, hi, x, way);
    }
    forall x: nat | x > 0
      ensures Owed(u, x)
    {
      assert Owed(t, x) && Counted(w, t, x, Closing);
      PollTicket(w, t, r, lo, hi, x, Closing);
    }
  }

  lemma OpenIsUnacked(w: Terminal, cmds: map<nat, Command>, id: nat)
    requires TerminalOk(w) && id in cmds && cmds[id].open && id in w.dealOf
    ensures !AckedBy(w, cmds, w.dealOf[id].ticket)
  {
  }

  /** An expired command was open, so its deal was not acked; it is closed now. */
  lemma ExpireKeeps(w: Terminal, t: Trace, id: nat)
    requires TerminalOk(w) && Shape(w, t) && ExpiredOk(w, t) && id in t.book.commands
    ensures ExpiredOk(w, Next(w, t, Expire(id)))
  {
    var u := Next(w, t, Expire(id));
    forall x | x in u.expired
      ensures IsCopyDeal(w, x) && x !in u.acked && AckedBy(w, u.book.commands, x)
    {
      if x in t.expired {
        AckedStays(w, t.book.commands, u.book.commands, x);
      } else {
        assert w.dealOf[id].ticket == x && !u.book.commands[id].open;
        OpenIsUnacked(w, t.book.commands, id);
      }
    }
  }

  lemma OutboxCounts(w: Terminal, t: Trace, e: Event)
    requires Inv(w, t) && Enabled(w, t, e) && !e.Poll?
    ensures var u := Next(w, t, e);
            && (forall x: nat | x > 0 :: Owed(u, x)) && (forall x: nat, way | x > 0 :: Counted(w, u, x, way))
  {
    var u := Next(w, t, e);
    forall x: nat | x > 0
      ensures Owed(u, x)
    {
      assert Owed(t, x);
    }
    forall x: nat, way | x > 0
      ensures Counted(w, u, x, way)
    {
      assert Counted(w, t, x, way);
    }
  }

  lemma OutboxKeeps(w: Terminal, t: Trace, e: Event)
    requires TerminalOk(w) && Inv(w, t) && Enabled(w, t, e) && !e.Poll?
    ensures Inv(w, Next(w, t, e))
  {
    var u := Next(w, t, e);
    OutboxCounts(w, t, e);
    forall x | x in u.acked
      ensures AckedBy(w, u.book.commands, x)
    {
      AckedStays(w, t.book.commands, u.book.commands, x);
    }
    if e.Expire? {
      ExpireKeeps(w, t, e.id);
    } else {
      forall x | x in u.expired
        ensures AckedBy(w, u.book.commands, x)
      {
        AckedStays(w, t.book.commands, u.book.commands, x);
      }
    }
    LogGrows(w, t.book.commands, u.book.commands, t.seen, t.seen, t.book.log);
  }

  /** Every poll, every queued and every expired command keeps all of it. */
  lemma StepKeeps(w: Terminal, t: Trace, e: Event)
    requires TerminalOk(w) && Inv(w, t) && Enabled(w, t, e)
    ensures Inv(w, Next(w, t, e))
  {
    if e.Poll? {
      PollKeeps(w, t, e.report, e.lo, e.hi);
    } else {
      OutboxKeeps(w, t, e);
    }
  }

  lemma {:induction false} RunKeeps(w: Terminal, t: Trace, run: seq<Event>)
    requires TerminalOk(w) && Inv(w, t) && Run(w, t, run)
    ensures Inv(w, Exec(w, t, run))
    decreases |run|
  {
    if run != [] {
      StepKeeps(w, t, run[0]);
      RunKeeps(w, Next(w, t, run[0]), run[1..]);
    }
  }

  lemma StartInv(w: Terminal, netting: bool, mappings: seq<Mapping>)
    ensures Inv(w, Start(netting, mappings))
  {
  }
}
