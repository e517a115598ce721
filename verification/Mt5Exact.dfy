/**
 What every run of a follower terminal comes to: the mappings are the log replayed, and each deal
 moves them right exactly under a condition on how it was acked and reported and on the rows it found.
 The acks are at fault exactly when the terminal broke its side or the copier gave up on a command
 that was executed.
 */
module Mt5Exact {
  import opened Base
  import opened Mt5Sync
  import opened Mt5Runs
  import opened Mt5Rows

  // ---------- the mappings are the log replayed ----------

  lemma StepFollows(w: Terminal, t: Trace, e: Event)
    ensures Follows(t.book, Next(w, t, e).book)
  {
    if e.Poll? {
      var b, r := t.book, e.report;
      SyncIs(b, r);
      var acked := b.(commands := CommandsAfter(b.commands, r.acks));
      assert Follows(b, acked);
      OutcomesFollow(b, acked, OutcomesOf(b.commands, r.acks), r.deals);
      DealsFollow(b, Ready(b, r), Newer(b, r), Mapped(b, r));
    }
  }

  lemma {:induction false} RunFollows(w: Terminal, t: Trace, run: seq<Event>)
    ensures Follows(t.book, Exec(w, t, run).book)
    decreases |run|
  {
    if run != [] {
      var u := Next(w, t, run[0]);
      StepFollows(w, t, run[0]);
      RunFollows(w, u, run[1..]);
      FollowsOn(t.book, u.book, Exec(w, u, run[1..]).book);
    }
  }

  /** Over every run the log tells the whole story: the mappings are its bookings, applied in order. */
  lemma LogIsReplayed(w: Terminal, netting: bool, mappings: seq<Mapping>, run: seq<Event>)
    ensures var u := Exec(w, Start(netting, mappings), run).book;
            u.netting == netting && u.mappings == Replay(netting, mappings, u.log)
  {
    RunFollows(w, Start(netting, mappings), run);
    var u := Exec(w, Start(netting, mappings), run).book;
    assert u.log[0..] == u.log;
  }

  // ---------- what an ack books ----------

  function OrElse(given: Option<nat>, other: nat): nat {
    if given.Some? then given.value else other
  }

  /** The position an open is booked on: the one named, or else that of its deal in the report. */
  ghost predicate Placed(deals: seq<Deal>, deal: nat, named: nat, position: nat) {
    if named != 0 then position == named
    else if deal != 0 && exists d :: d in deals && d.ticket == deal then
      exists d :: d in deals && d.ticket == deal && position == d.position
    else position == 0
  }

  /**
   WHAT THE ACK OF A COMMAND BOOKS: a refused one nothing; a copy's open activates its copy, its ':close' and its
   close reduce it; an operator's open fills whatever row works its order; a placed order is accepted for its copy,
   a cancelled one dropped. What the ack leaves out is the command's; an open on no position books nothing.
   */
  lemma AckBooks(id: nat, c: Command, a: Ack, deals: seq<Deal>, position: nat)
    requires DistinctTickets(deals) && Placed(deals, a.deal, OrElse(a.position, c.position), position)
    ensures var k := OutcomeBooking(OutcomeOf(id, c, a), deals);
            var volume, order := OrElse(a.volume, c.lots), OrElse(a.order, c.order);
            if !a.ok then k == None
            else if c.copy.Some? && (c.kind == Close || (c.kind == Open && c.closes)) then
              k == Some(ClosedCopy(id, c.copy.value, volume))
            else if c.kind == Open then
              k == if position == 0 then None
                   else if c.copy.Some? then Some(Activated(id, c.copy.value, position, volume))
                   else Some(AckedFill(id, order, position, volume))
            else if c.kind == PlacePending && c.copy.Some? then k == Some(Accepted(id, c.copy.value, order))
            else if c.kind == CancelPending && order != 0 then k == Some(Dropped(id, order))
            else k == None
  {
    if a.deal != 0 {
      PositionOfDeal(deals, a.deal);
    }
  }

  // ---------- fills that are passed over ----------

  /** Some row maps the position after the poll's acks, or one of them opens on it. */
  ghost predicate IsMapped(b: Book, r: Report, position: nat) {
    && position != 0
    && (|| (exists i :: 0 <= i < |Posted(b, r).mappings| && Posted(b, r).mappings[i].position == position)
        || (exists i: nat :: FirstAck(b.commands, r.acks, i) && OpensOn(b.commands, r.acks[i], position)))
  }

  /** The ack of an open, a copy's or an operator's, names the position, or its command does. */
  ghost predicate OpensOn(cmds: map<nat, Command>, a: Ack, position: nat)
    requires a.command in cmds
  {
    var c := cmds[a.command];
    a.ok && c.kind == Open && !(c.copy.Some? && c.closes) && OrElse(a.position, c.position) == position
  }

  lemma MappedExactly(b: Book, r: Report, position: nat)
    ensures position in Mapped(b, r) <==> IsMapped(b, r, position)
  {
    var outs, ms := OutcomesOf(b.commands, r.acks), Posted(b, r).mappings;
    forall o | o in outs
      ensures SettledBy(b.commands, r.acks, o)
    {
      OutcomesAre(b.commands, r.acks, o);
    }
    forall i: nat | FirstAck(b.commands, r.acks, i)
      ensures OutcomeOf(r.acks[i].command, b.commands[r.acks[i].command], r.acks[i]) in outs
    {
      OutcomesAre(b.commands, r.acks, OutcomeOf(r.acks[i].command, b.commands[r.acks[i].command], r.acks[i]));
    }
    if position in Mapped(b, r) {
      if m :| m in ms && m.position != 0 && m.position == position {
        var i :| 0 <= i < |ms| && ms[i] == m;
      } else {
        var o :| o in outs && o.ok && o.kind == Open && o.position != 0 && o.position == position;
        assert SettledBy(b.commands, r.acks, o);
      }
    }
  }

  /** PASSED OVER, exactly: the new entries a poll leaves alone are those nothing settled, into a mapped position. */
  lemma PassedOverExactly(b: Book, r: Report, x: nat)
    ensures x in SkippedBy(b, r) <==>
            exists d :: d in r.deals && d.ticket == x > b.watermark && d.trade && d.entry == In
                        && x !in b.settled + Named(OutcomesOf(b.commands, r.acks)) && IsMapped(b, r, d.position)
  {
    forall d
      ensures d in Newer(b, r) <==> d in r.deals && d.ticket > b.watermark
      ensures d.position in Mapped(b, r) <==> IsMapped(b, r, d.position)
    {
      PastMembers(r.deals, b.watermark, d);
      SortMembers(Past(r.deals, b.watermark), d);
      MappedExactly(b, r, d.position);
    }
  }

  lemma {:induction false} PastMembers(deals: seq<Deal>, watermark: nat, d: Deal)
    ensures d in Past(deals, watermark) <==> d in deals && d.ticket > watermark
    decreases |deals|
  {
    if deals != [] {
      PastMembers(deals[1..], watermark, d);
      assert deals == [deals[0]] + deals[1..];
    }
  }

  // ---------- bookings that find no row ----------

  /** The booking was made for this deal, by its ack or by its report. */
  predicate Concerns(w: Terminal, x: nat, k: Booking) {
    ByAck(w, x, k) || ByReport(x, k, Closing) || ByReport(x, k, Filling)
  }

  /** The `j`-th booking is made on rows that have what it is to move, counting from the rows of book `b`. */
  ghost predicate FindsAt(w: Terminal, b: Book, log: seq<Booking>, j: nat)
    requires |b.log| <= j < |log|
  {
    Finds(w.orders, b.netting, Replay(b.netting, b.mappings, log[|b.log|..j]), log[j])
  }

  /** Between the two books some booking for the deal did not find what it was to move. */
  ghost predicate MissesBetween(w: Terminal, b: Book, u: Book, x: nat) {
    exists j :: |b.log| <= j < |u.log| && Concerns(w, x, u.log[j]) && !FindsAt(w, b, u.log, j)
  }

  /** Some poll booked the deal on rows that did not have what the booking was to move. */
  ghost predicate Missed(w: Terminal, t: Trace, run: seq<Event>, x: nat)
    decreases |run|
  {
    run != [] && (MissesBetween(w, t.book, Next(w, t, run[0]).book, x) || Missed(w, Next(w, t, run[0]), run[1..], x))
  }

  lemma FindsLater(w: Terminal, a: Book, b: Book, log: seq<Booking>, j: nat)
    requires Follows(a, b) && b.log <= log && |b.log| <= j < |log|
    ensures FindsAt(w, a, log, j) <==> FindsAt(w, b, log, j)
  {
    assert log[|a.log|..j] == b.log[|a.log|..] + log[|b.log|..j];
    ReplaySplit(a.netting, a.mappings, b.log[|a.log|..], log[|b.log|..j]);
  }

  lemma FindsBefore(w: Terminal, a: Book, log: seq<Booking>, longer: seq<Booking>, j: nat)
    requires log <= longer && |a.log| <= j < |log|
    ensures FindsAt(w, a, longer, j) <==> FindsAt(w, a, log, j)
  {
    assert longer[|a.log|..j] == log[|a.log|..j];
  }

  lemma MissesSplit(w: Terminal, a: Book, b: Book, c: Book, x: nat)
    requires Follows(a, b) && Follows(b, c)
    ensures MissesBetween(w, a, c, x) <==> MissesBetween(w, a, b, x) || MissesBetween(w, b, c, x)
  {
    forall j | |a.log| <= j < |b.log|
      ensures c.log[j] == b.log[j] && (FindsAt(w, a, c.log, j) <==> FindsAt(w, a, b.log, j))
    {
      FindsBefore(w, a, b.log, c.log, j);
    }
    forall j | |b.log| <= j < |c.log|
      ensures FindsAt(w, a, c.log, j) <==> FindsAt(w, b, c.log, j)
    {
      FindsLater(w, a, b, c.log, j);
    }
  }

  /** What the polls of a run missed is what the log of the run shows. */
  lemma {:induction false} MissedIsLogged(w: Terminal, t: Trace, run: seq<Event>, x: nat)
    ensures Missed(w, t, run, x) <==> MissesBetween(w, t.book, Exec(w, t, run).book, x)
    decreases |run|
  {
    if run != [] {
      var u := Next(w, t, run[0]);
      StepFollows(w, t, run[0]);
      RunFollows(w, u, run[1..]);
      MissedIsLogged(w, u, run[1..], x);
      MissesSplit(w, t.book, u.book, Exec(w, u, run[1..]).book, x);
    }
  }

  /** The `j`-th booking of the log did to the rows what it is for. */
  ghost predicate LandsAt(w: Terminal, netting: bool, mappings: seq<Mapping>, log: seq<Booking>, j: nat)
    requires j < |log|
  {
    Lands(w.orders, Replay(netting, mappings, log[..j]), Replay(netting, mappings, log[..j + 1]), log[j])
  }

  /** Every booking made for the deal did to the rows what it is for. */
  ghost predicate Moved(w: Terminal, mappings: seq<Mapping>, b: Book, x: nat) {
    forall j: nat | j < |b.log| && Concerns(w, x, b.log[j]) :: LandsAt(w, b.netting, mappings, b.log, j)
  }

  lemma LandsIfFound(w: Terminal, netting: bool, mappings: seq<Mapping>, log: seq<Booking>, j: nat)
    requires DistinctCopies(mappings) && j < |log|
    ensures LandsAt(w, netting, mappings, log, j) <==>
            Finds(w.orders, netting, Replay(netting, mappings, log[..j]), log[j])
  {
    assert log[..j + 1] == log[..j] + [log[j]];
    ReplaySnoc(netting, mappings, log[..j], log[j]);
    ReplayKeepsCopies(netting, mappings, log[..j]);
    LandsExactly(w.orders, netting, Replay(netting, mappings, log[..j]), log[j]);
  }

  lemma MovedExactly(w: Terminal, mappings: seq<Mapping>, b: Book, start: Book, x: nat)
    requires DistinctCopies(mappings) && start.log == [] && start.mappings == mappings && start.netting == b.netting
    ensures Moved(w, mappings, b, x) <==> !MissesBetween(w, start, b, x)
  {
    forall j: nat | j < |b.log|
      ensures LandsAt(w, b.netting, mappings, b.log, j) <==> FindsAt(w, start, b.log, j)
    {
      assert b.log[0..j] == b.log[..j];
      LandsIfFound(w, b.netting, mappings, b.log, j);
    }
  }

  // ---------- what booked right means ----------

  /**
   The deal was booked once and in its own terms: a copy's deal through the ack of its command, on
   the very copy that command names and with the deal's volume; the fill of a pending copy through
   its report, as the fill of that order; a close of any other kind through its report, with its own
   position and volume.
   */
  ghost predicate BookedOnce(w: Terminal, b: Book, d: Deal) {
    if IsCopyDeal(w, d.ticket) then
      && AckTimes(w, b.log, d.ticket) == 1 && ReportTimes(b.log, d.ticket, Closing) == 0
      && (forall k | k in b.log && ByAck(w, d.ticket, k) ::
            OwnCopy(b.commands, k) && k.volume == d.volume && (k.Activated? ==> k.position == d.position))
    else
      && AckTimes(w, b.log, d.ticket) == 0 && Faithful(b.log, d)
      && if IsPendingFill(w, d) then
           ReportTimes(b.log, d.ticket, Filling) == 1 && ReportTimes(b.log, d.ticket, Closing) == 0
         else
           ReportTimes(b.log, d.ticket, Closing) == One(Does(d, Closing))
  }

  /**
   The deal moved the mappings once and in the right way: it was booked once, and the rows moved as its
   booking says. A copy's close took the deal's volume from that copy, an open added it to that copy on
   its position, a pending copy's fill added it to the copy its order was placed for, and any other close
   took it from its position, oldest first, or all that was held there.
   */
  ghost predicate BookedRight(w: Terminal, mappings: seq<Mapping>, b: Book, d: Deal) {
    BookedOnce(w, b, d) && Moved(w, mappings, b, d.ticket)
  }

  /** Whatever the report of the deal booked is that deal's own. */
  ghost predicate Faithful(log: seq<Booking>, d: Deal) {
    forall k, way | k in log && ByReport(d.ticket, k, way) :: k == Reported(d, way)
  }

  /** A copy's deal whose ack was handled, with its position and its volume; a close also on time and with its
      deal. */
  ghost predicate WellAcked(t: Trace, d: Deal) {
    && d.ticket in t.acked && d.ticket !in t.lost && d.ticket !in t.skewed && d.ticket !in t.astray
    && (Does(d, Closing) ==> d.ticket !in t.blind && d.ticket !in t.late)
  }

  /** The exact condition for being booked once. */
  ghost predicate Sound(w: Terminal, t: Trace, d: Deal) {
    if IsCopyDeal(w, d.ticket) then WellAcked(t, d)
    else IsPendingFill(w, d) ==> d.entry == In && d.ticket !in t.skipped
  }

  /** How often a reported deal moved the mappings, through its ack and through its report. */
  ghost predicate Times(w: Terminal, t: Trace, d: Deal, way: Way) {
    && AckTimes(w, t.book.log, d.ticket) == One(d.ticket in t.acked && d.ticket !in t.lost)
    && ReportTimes(t.book.log, d.ticket, way) == One(Does(d, way) && BooksReport(t, d.ticket, way))
  }

  lemma SameTicket(w: Terminal, i: nat, d: Deal)
    requires TerminalOk(w) && i < |w.history| && (exists j :: 0 <= j < |w.history| && w.history[j] == d)
    requires d.ticket == w.history[i].ticket
    ensures d == w.history[i]
  {
    var j :| 0 <= j < |w.history| && w.history[j] == d;
    assert i < j || j < i || i == j;
  }

  lemma ReportedMeans(w: Terminal, seen: nat, i: nat, way: Way)
    requires TerminalOk(w) && i < seen <= |w.history|
    ensures ReportedAs(w, seen, w.history[i].ticket, way) <==> Does(w.history[i], way)
  {
    if j :| 0 <= j < seen && w.history[j].ticket == w.history[i].ticket && Does(w.history[j], way) {
      SameTicket(w, i, w.history[j]);
    }
  }

  /** A copy's deal is the deal its command made, and is no pending copy's fill. */
  lemma CopyDealIs(w: Terminal, i: nat, c: nat)
    requires TerminalOk(w) && i < |w.history| && c in w.dealOf && w.dealOf[c].ticket == w.history[i].ticket
    ensures w.dealOf[c] == w.history[i] && !IsPendingFill(w, w.history[i])
  {
    assert MadeOk(w, w.dealOf[c]);
    SameTicket(w, i, w.dealOf[c]);
  }

  lemma FaithfulLog(w: Terminal, t: Trace, i: nat)
    requires TerminalOk(w) && LogOk(w, t) && t.seen <= |w.history| && i < |w.history|
    ensures Faithful(t.book.log, w.history[i])
  {
    forall k, way | k in t.book.log && ByReport(w.history[i].ticket, k, way)
      ensures k == Reported(w.history[i], way)
    {
      assert OwnDeal(w, t.seen, k);
      var j :| 0 <= j < t.seen && k == Reported(w.history[j], way);
      SameTicket(w, i, w.history[j]);
    }
  }

  lemma {:induction false} TimesMeans(w: Terminal, log: seq<Booking>, x: nat)
    requires AckTimes(w, log, x) > 0
    ensures exists k :: k in log && ByAck(w, x, k)
    decreases |log|
  {
    var n := |log| - 1;
    if log != [] && !ByAck(w, x, log[n]) {
      assert log == log[..n] + [log[n]];
      SumAppend(log[..n], log[n], AckMove(w, x));
      TimesMeans(w, log[..n], x);
      var k :| k in log[..n] && ByAck(w, x, k);
      assert k in log;
    }
  }

  /** The bookings of an acked deal are on the command's own copy, and of its volume unless the ack misstated it. */
  lemma AckedContents(w: Terminal, t: Trace, i: nat, k: Booking)
    requires TerminalOk(w) && LogOk(w, t) && i < |w.history|
    requires k in t.book.log && ByAck(w, w.history[i].ticket, k)
    ensures OwnCopy(t.book.commands, k)
    ensures k.volume == w.history[i].volume <==> w.history[i].ticket !in t.skewed
    ensures (k.Activated? ==> k.position == w.history[i].position) <==> w.history[i].ticket !in t.astray
  {
    assert OwnTerms(w, t.acked, t.skewed, t.astray, k);
    CopyDealIs(w, i, k.command);
  }

  lemma CopyRight(w: Terminal, t: Trace, i: nat)
    requires TerminalOk(w) && LogOk(w, t) && i < t.seen <= |w.history| && w.history[i].trade
    requires IsCopyDeal(w, w.history[i].ticket) && Counted(w, t, w.history[i].ticket, Closing)
    ensures BookedOnce(w, t.book, w.history[i]) <==> WellAcked(t, w.history[i])
  {
    var x := w.history[i].ticket;
    ReportedMeans(w, t.seen, i, Closing);
    forall k | k in t.book.log && ByAck(w, x, k)
      ensures OwnCopy(t.book.commands, k)
      ensures k.volume == w.history[i].volume <==> x !in t.skewed
      ensures (k.Activated? ==> k.position == w.history[i].position) <==> x !in t.astray
    {
      AckedContents(w, t, i, k);
    }
    if AckTimes(w, t.book.log, x) == 1 {
      TimesMeans(w, t.book.log, x);
    }
  }

  lemma OtherRight(w: Terminal, t: Trace, i: nat)
    requires TerminalOk(w) && LogOk(w, t) && Sets(w, t) && i < t.seen <= |w.history| && w.history[i].trade
    requires !IsCopyDeal(w, w.history[i].ticket)
    requires forall way :: Counted(w, t, w.history[i].ticket, way)
    ensures BookedOnce(w, t.book, w.history[i]) <==> Sound(w, t, w.history[i])
  {
    var x := w.history[i].ticket;
    ReportedMeans(w, t.seen, i, Closing);
    ReportedMeans(w, t.seen, i, Filling);
    FaithfulLog(w, t, i);
    assert x !in t.acked by {
      assert x in t.acked ==> AckedBy(w, t.book.commands, x);
    }
    assert Counted(w, t, x, Closing) && Counted(w, t, x, Filling);
  }

  /**
   HOW A DEAL IS BOOKED, over every run. A trade moved the mappings once and in the right way if and
   only if it is sound and no poll booked it on rows without what it was to move.

   Sound: a copy's deal is well acked; otherwise a close was booked twice (blind or late, and not
   lost), not at all (lost only), or once but with another volume, or through its report and at the
   cost of other copies. The fill of a pending copy is reported as an entry, into a position that was
   not mapped before. A close the terminal made by itself is always sound. The tickets remembered are
   those acked with their deal and not yet reported, plus the late ones, which stay.
   */
  lemma BookedExactly(w: Terminal, netting: bool, mappings: seq<Mapping>, run: seq<Event>, i: nat)
    requires TerminalOk(w) && DistinctCopies(mappings) && Run(w, Start(netting, mappings), run)
    ensures var u := Exec(w, Start(netting, mappings), run);
            && u.seen <= |w.history|
            && (i < u.seen && w.history[i].trade ==>
                  var d := w.history[i];
                  && (BookedRight(w, mappings, u.book, d) <==>
                      Sound(w, u, d) && !Missed(w, Start(netting, mappings), run, d.ticket))
                  && (forall way :: Times(w, u, d, way)))
            && (i < |w.history| ==> Owed(u, w.history[i].ticket))
  {
    StartInv(w, netting, mappings);
    RunKeeps(w, Start(netting, mappings), run);
    var u := Exec(w, Start(netting, mappings), run);
    if i < |w.history| {
      assert Owed(u, w.history[i].ticket);
    }
    if i < u.seen && w.history[i].trade {
      OnceExactly(w, u, i);
      MovedInRun(w, netting, mappings, run, w.history[i].ticket);
      forall way
        ensures Times(w, u, w.history[i], way)
      {
        TimesExactly(w, u, i, way);
      }
    }
  }

  lemma MovedInRun(w: Terminal, netting: bool, mappings: seq<Mapping>, run: seq<Event>, x: nat)
    requires DistinctCopies(mappings)
    ensures var t := Start(netting, mappings);
            Moved(w, mappings, Exec(w, t, run).book, x) <==> !Missed(w, t, run, x)
  {
    var t := Start(netting, mappings);
    RunFollows(w, t, run);
    MissedIsLogged(w, t, run, x);
    MovedExactly(w, mappings, Exec(w, t, run).book, t.book, x);
  }

  lemma TimesExactly(w: Terminal, t: Trace, i: nat, way: Way)
    requires TerminalOk(w) && Inv(w, t) && i < t.seen
    ensures Times(w, t, w.history[i], way)
  {
    assert Counted(w, t, w.history[i].ticket, way);
    ReportedMeans(w, t.seen, i, way);
  }

  lemma OnceExactly(w: Terminal, t: Trace, i: nat)
    requires TerminalOk(w) && Inv(w, t) && i < t.seen && w.history[i].trade
    ensures BookedOnce(w, t.book, w.history[i]) <==> Sound(w, t, w.history[i])
  {
    var x := w.history[i].ticket;
    assert forall way :: Counted(w, t, x, way);
    if IsCopyDeal(w, x) {
      CopyRight(w, t, i);
    } else {
      OtherRight(w, t, i);
    }
  }

  // ---------- whose fault ----------

  /** Every new copy's deal of the report is among these. */
  ghost predicate DealsAmong(w: Terminal, t: Trace, r: Report, among: set<nat>) {
    forall d | d in r.deals && d.ticket > t.book.watermark && IsCopyDeal(w, d.ticket) :: d.ticket in among
  }

  /** The ack says this volume: in its own words, or, when it gives none, by the lots of its command. */
  ghost predicate SaysVolume(c: Command, a: Ack, volume: nat) {
    a.volume == Some(volume) || (a.volume == None && c.lots == volume)
  }

  /** The ack, or its command when the ack gives none, names the deal's position, or names none and the deal comes
      along. */
  ghost predicate SaysPosition(c: Command, a: Ack, deals: seq<Deal>, d: Deal) {
    var named := if a.position == None then c.position else a.position.value;
    d.position != 0 && (named == d.position || (named == 0 && d in deals))
  }

  /** A copy's ok ack says which deal it made and of what volume, and an open's also on what position. */
  ghost predicate FullAck(w: Terminal, cmds: map<nat, Command>, deals: seq<Deal>, a: Ack)
    requires a.command in cmds
  {
    var c := cmds[a.command];
    a.ok && CopyCommand(c) && a.command in w.dealOf ==>
      var d := w.dealOf[a.command];
      a.deal == d.ticket && SaysVolume(c, a, d.volume)
      && (c.kind == Open && !c.closes ==> SaysPosition(c, a, deals, d))
  }

  /**
   A poll keeps the terminal's side: the ack that settles a command is full, and no copy's deal is
   reported before its ack. The deal of a command the copier had already given up on is not the
   terminal's to answer for.
   */
  ghost predicate Timely(w: Terminal, t: Trace, e: Event) {
    e.Poll? ==>
      var outs := OutcomesOf(t.book.commands, e.report.acks);
      && AcksFull(w, t.book.commands, e.report)
      && DealsAmong(w, t, e.report, t.acked + Acked(w, outs) + t.expired)
  }

  ghost predicate AcksFull(w: Terminal, cmds: map<nat, Command>, r: Report) {
    forall i: nat | FirstAck(cmds, r.acks, i) :: FullAck(w, cmds, r.deals, r.acks[i])
  }

  ghost predicate AllTimely(w: Terminal, t: Trace, run: seq<Event>)
    decreases |run|
  {
    run == [] || (Timely(w, t, run[0]) && AllTimely(w, Next(w, t, run[0]), run[1..]))
  }

  ghost predicate ReportedAmong(w: Terminal, watermark: nat, among: set<nat>) {
    forall x: nat | IsCopyDeal(w, x) && x <= watermark :: x in among
  }

  ghost predicate NoFaults(t: Trace) {
    t.blind == {} && t.late == {} && t.lost == {} && t.skewed == {} && t.astray == {}
  }

  /** No fault in any ack, and every copy's deal reported so far is acked. */
  ghost predicate Clean(w: Terminal, t: Trace) {
    NoFaults(t) && ReportedAmong(w, t.book.watermark, t.acked)
  }

  /** The same, but for the deals of commands given up on. */
  ghost predicate Kept(w: Terminal, t: Trace) {
    NoFaults(t) && ReportedAmong(w, t.book.watermark, t.acked + t.expired)
  }

  /** No command the copier gave up on turned out executed. */
  ghost predicate NoneRevived(t: Trace) {
    forall x | x in t.expired :: x > t.book.watermark
  }

  ghost predicate FullOutcome(w: Terminal, deals: seq<Deal>, o: Outcome) {
    OkCopy(o) && o.command in w.dealOf ==>
      && o.deal != 0 && !Misstates(w, o) && !Misplaces(w, o) && OutcomeBooking(o, deals).Some?
  }

  lemma OutcomeFaults(w: Terminal, outs: seq<Outcome>, deals: seq<Deal>)
    requires NamesTruly(w, outs)
    ensures (Blind(w, outs) == {} && Lost(w, outs, deals) == {} && Skewed(w, outs) == {} && Astray(w, outs) == {}) <==>
            forall o | o in outs :: FullOutcome(w, deals, o)
  {
    forall o | o in outs && OkCopy(o)
      ensures o.deal == 0 ==> Made(w, o) in Blind(w, outs)
      ensures OutcomeBooking(o, deals).None? ==> Made(w, o) in Lost(w, outs, deals)
      ensures Misstates(w, o) ==> Made(w, o) in Skewed(w, outs)
      ensures Misplaces(w, o) ==> Made(w, o) in Astray(w, outs)
    {
      assert Acks(w, o);
    }
  }

  /** An ack is full exactly when what it settles is. */
  lemma FullIsFull(w: Terminal, cmds: map<nat, Command>, r: Report, lo: nat, hi: nat, a: Ack)
    requires TerminalOk(w) && lo <= hi <= |w.history| && r.deals == w.history[lo..hi]
    requires a.command in cmds && AckOk(w, cmds, a)
    ensures FullAck(w, cmds, r.deals, a) <==> FullOutcome(w, r.deals, OutcomeOf(a.command, cmds[a.command], a))
  {
    var c := cmds[a.command];
    if a.ok && CopyCommand(c) {
      MadeIsTrade(w, a.command);
      ReportedPosition(w, lo, hi, a.command);
    }
  }

  lemma AllFull(w: Terminal, cmds: map<nat, Command>, r: Report, lo: nat, hi: nat)
    requires TerminalOk(w) && lo <= hi <= |w.history| && r.deals == w.history[lo..hi]
    requires forall i | 0 <= i < |r.acks| :: AckOk(w, cmds, r.acks[i])
    ensures AcksFull(w, cmds, r) <==> forall o | o in OutcomesOf(cmds, r.acks) :: FullOutcome(w, r.deals, o)
  {
    forall i: nat | FirstAck(cmds, r.acks, i)
      ensures var o := OutcomeOf(r.acks[i].command, cmds[r.acks[i].command], r.acks[i]);
              && o in OutcomesOf(cmds, r.acks)
              && (FullAck(w, cmds, r.deals, r.acks[i]) <==> FullOutcome(w, r.deals, o))
    {
      var a := r.acks[i];
      FullIsFull(w, cmds, r, lo, hi, a);
      OutcomesAre(cmds, r.acks, OutcomeOf(a.command, cmds[a.command], a));
    }
    forall o | o in OutcomesOf(cmds, r.acks)
      ensures SettledBy(cmds, r.acks, o)
    {
      OutcomesAre(cmds, r.acks, o);
    }
  }

  /** A new copy's deal lies in the part of the report past the watermark. */
  lemma NewCopyDeals(w: Terminal, t: Trace, r: Report, lo: nat, hi: nat, x: nat)
    requires TerminalOk(w) && Shape(w, t) && Enabled(w, t, Poll(r, lo, hi)) && IsTrade(w, x)
    ensures (exists d :: d in r.deals && d.ticket > t.book.watermark && d.ticket == x) <==>
            t.book.watermark < x <= Watermark(w, SeenAfter(t, hi))
  {
    var i :| 0 <= i < |w.history| && w.history[i].ticket == x && w.history[i].trade;
    SplitsHistory(w, t.seen, i);
    SplitsHistory(w, SeenAfter(t, hi), i);
    if t.seen <= i < hi {
      assert r.deals[i - lo] == w.history[i];
    }
    if d :| d in r.deals && d.ticket > t.book.watermark && d.ticket == x {
      var j :| 0 <= j < |r.deals| && r.deals[j] == d;
      assert w.history[lo + j] == d;
    }
  }

  lemma CopyDealTrades(w: Terminal, x: nat)
    requires TerminalOk(w) && IsCopyDeal(w, x)
    ensures x > 0 && IsTrade(w, x)
  {
    var c :| c in w.dealOf && w.dealOf[c].ticket == x;
    MadeIsTrade(w, c);
  }

  /** With every reported copy's deal acked or given up, no ack of a poll is late. */
  lemma NoneLate(w: Terminal, t: Trace, r: Report, lo: nat, hi: nat)
    requires TerminalOk(w) && Shape(w, t) && ExpiredOk(w, t) && Kept(w, t) && Enabled(w, t, Poll(r, lo, hi))
    ensures Late(w, OutcomesOf(t.book.commands, r.acks), t.book.watermark) == {}
  {
    var outs := OutcomesOf(t.book.commands, r.acks);
    forall o | o in outs && Acks(w, o)
      ensures Made(w, o) > t.book.watermark
    {
      var x := Made(w, o);
      assert IsCopyDeal(w, x) && x in Acked(w, outs);
      AckedAreNew(w, t.book.commands, r.acks, x);
      assert x !in t.acked + t.expired;
    }
  }

  /** The copies' deals of a poll are among these exactly when all reported ones then are. */
  lemma ReportedThen(w: Terminal, t: Trace, r: Report, lo: nat, hi: nat, was: set<nat>, among: set<nat>)
    requires TerminalOk(w) && Shape(w, t) && Enabled(w, t, Poll(r, lo, hi)) && was <= among
    requires ReportedAmong(w, t.book.watermark, was)
    ensures DealsAmong(w, t, r, among) <==> ReportedAmong(w, Watermark(w, SeenAfter(t, hi)), among)
  {
    forall x: nat | IsCopyDeal(w, x)
      ensures (exists d :: d in r.deals && d.ticket > t.book.watermark && d.ticket == x) <==>
              t.book.watermark < x <= Watermark(w, SeenAfter(t, hi))
    {
      CopyDealTrades(w, x);
      NewCopyDeals(w, t, r, lo, hi, x);
    }
  }

  lemma PollFaults(w: Terminal, t: Trace, r: Report, lo: nat, hi: nat)
    requires TerminalOk(w) && Shape(w, t) && ExpiredOk(w, t) && Kept(w, t) && Enabled(w, t, Poll(r, lo, hi))
    ensures NoFaults(Next(w, t, Poll(r, lo, hi))) <==>
            AcksFull(w, t.book.commands, r)
  {
    AckedAreNew(w, t.book.commands, r.acks, 0);
    OutcomeFaults(w, OutcomesOf(t.book.commands, r.acks), r.deals);
    AllFull(w, t.book.commands, r, lo, hi);
    NoneLate(w, t, r, lo, hi);
  }

  lemma PollKept(w: Terminal, t: Trace, r: Report, lo: nat, hi: nat)
    requires TerminalOk(w) && Inv(w, t) && Enabled(w, t, Poll(r, lo, hi)) && Kept(w, t)
    ensures Timely(w, t, Poll(r, lo, hi)) <==> Kept(w, Next(w, t, Poll(r, lo, hi)))
  {
    var among := t.acked + Acked(w, OutcomesOf(t.book.commands, r.acks)) + t.expired;
    PollFaults(w, t, r, lo, hi);
    PollFrame(w, t, r, lo, hi, 0, Closing);
    ReportedThen(w, t, r, lo, hi, t.acked + t.expired, among);
    var u := Next(w, t, Poll(r, lo, hi));
    assert u.acked + u.expired == among;
  }

  lemma StepKept(w: Terminal, t: Trace, e: Event)
    requires TerminalOk(w) && Inv(w, t) && Enabled(w, t, e) && Kept(w, t)
    ensures Timely(w, t, e) ==> Kept(w, Next(w, t, e))
    ensures Clean(w, Next(w, t, e)) ==> Timely(w, t, e)
  {
    if e.Poll? {
      PollKept(w, t, e.report, e.lo, e.hi);
    }
  }

  /** A copy's deal reported before its ack can only become late or blind. */
  lemma LateForEver(w: Terminal, t: Trace, r: Report, lo: nat, hi: nat, x: nat)
    requires TerminalOk(w) && Shape(w, t) && Enabled(w, t, Poll(r, lo, hi))
    requires 0 < x <= t.book.watermark && x !in t.acked
    ensures var u := Next(w, t, Poll(r, lo, hi)); x in u.acked ==> x in u.late || x in u.blind
  {
    AckedAreNew(w, t.book.commands, r.acks, x);
    OutcomeSets(w, OutcomesOf(t.book.commands, r.acks), r.deals, t.book.watermark, x);
  }

  /** A fault is never mended. */
  lemma CleanWas(w: Terminal, t: Trace, e: Event)
    requires TerminalOk(w) && Inv(w, t) && Enabled(w, t, e) && Clean(w, Next(w, t, e))
    ensures Clean(w, t)
  {
    if e.Poll? {
      PollFrame(w, t, e.report, e.lo, e.hi, 0, Closing);
      forall x: nat | IsCopyDeal(w, x) && x <= t.book.watermark
        ensures x in t.acked
      {
        CopyDealTrades(w, x);
        if x !in t.acked {
          LateForEver(w, t, e.report, e.lo, e.hi, x);
        }
      }
    }
  }

  lemma {:induction false} TimelyKeeps(w: Terminal, t: Trace, run: seq<Event>)
    requires TerminalOk(w) && Inv(w, t) && Kept(w, t) && Run(w, t, run) && AllTimely(w, t, run)
    ensures Kept(w, Exec(w, t, run))
    decreases |run|
  {
    if run != [] {
      StepKept(w, t, run[0]);
      StepKeeps(w, t, run[0]);
      TimelyKeeps(w, Next(w, t, run[0]), run[1..]);
    }
  }

  lemma {:induction false} CleanWasTimely(w: Terminal, t: Trace, run: seq<Event>)
    requires TerminalOk(w) && Inv(w, t) && Run(w, t, run) && Clean(w, Exec(w, t, run))
    ensures Clean(w, t) && AllTimely(w, t, run)
    decreases |run|
  {
    if run != [] {
      StepKeeps(w, t, run[0]);
      CleanWasTimely(w, Next(w, t, run[0]), run[1..]);
      CleanWas(w, t, run[0]);
      StepKept(w, t, run[0]);
    }
  }

  /**
   WHOSE FAULT: no deal is blind, late, lost, skewed, astray or reported unacked if and only if the terminal
   kept its side in every poll and no command the copier gave up on turned out executed.
   */
  lemma TimelyIsExact(w: Terminal, netting: bool, mappings: seq<Mapping>, run: seq<Event>)
    requires TerminalOk(w) && Run(w, Start(netting, mappings), run)
    ensures var u := Exec(w, Start(netting, mappings), run);
            Clean(w, u) <==> AllTimely(w, Start(netting, mappings), run) && NoneRevived(u)
  {
    var t := Start(netting, mappings);
    var u := Exec(w, t, run);
    StartInv(w, netting, mappings);
    StartClean(w, netting, mappings);
    RunKeeps(w, t, run);
    if Clean(w, u) {
      CleanWasTimely(w, t, run);
      assert forall x | x in u.expired :: IsCopyDeal(w, x) && x !in u.acked;
    }
    if AllTimely(w, t, run) {
      TimelyKeeps(w, t, run);
    }
  }

  lemma StartClean(w: Terminal, netting: bool, mappings: seq<Mapping>)
    requires TerminalOk(w)
    ensures Clean(w, Start(netting, mappings))
  {
    forall x: nat | IsCopyDeal(w, x)
      ensures x > 0
    {
      CopyDealTrades(w, x);
    }
  }

  /**
   EXACTLY ONCE: with a terminal that keeps its side, a trade it reported has moved the mappings
   exactly once and in the right way if and only if the copier had not given up on its command, a
   pending copy's fill is an entry into a position not mapped before, and no poll booked it on rows
   without what it was to move.
   */
  lemma ExactlyOnce(w: Terminal, netting: bool, mappings: seq<Mapping>, run: seq<Event>, i: nat)
    requires TerminalOk(w) && DistinctCopies(mappings)
    requires Run(w, Start(netting, mappings), run) && AllTimely(w, Start(netting, mappings), run)
    ensures var u := Exec(w, Start(netting, mappings), run);
            i < u.seen <= |w.history| && w.history[i].trade ==>
              var d := w.history[i];
              BookedRight(w, mappings, u.book, d) <==>
              && d.ticket !in u.expired && (IsPendingFill(w, d) ==> d.entry == In && d.ticket !in u.skipped)
              && !Missed(w, Start(netting, mappings), run, d.ticket)
  {
    var t := Start(netting, mappings);
    var u := Exec(w, t, run);
    StartInv(w, netting, mappings);
    StartClean(w, netting, mappings);
    TimelyKeeps(w, t, run);
    RunKeeps(w, t, run);
    if i < u.seen && w.history[i].trade {
      OnceExactly(w, u, i);
      KeptIsSound(w, u, i);
      MovedInRun(w, netting, mappings, run, w.history[i].ticket);
    }
  }

  lemma KeptIsSound(w: Terminal, t: Trace, i: nat)
    requires TerminalOk(w) && Shape(w, t) && ExpiredOk(w, t) && Kept(w, t) && i < t.seen && w.history[i].trade
    ensures var d := w.history[i];
            Sound(w, t, d) <==>
            d.ticket !in t.expired && (IsPendingFill(w, d) ==> d.entry == In && d.ticket !in t.skipped)
  {
    SplitsHistory(w, t.seen, i);
    if c :| c in w.dealOf && w.dealOf[c].ticket == w.history[i].ticket {
      CopyDealIs(w, i, c);
    }
  }
}
