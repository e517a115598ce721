/** The runs of a follower terminal in which a copy's deal is booked wrongly, one per fault of its ack. */
module Mt5Faults {
  import opened Base
  import opened Mt5Sync
  import opened Mt5Rows
  import opened Mt5Runs
  import opened Mt5Exact

  /** The terminal of most runs: one deal, made by command 1. */
  function OneDeal(d: Deal): Terminal {
    Terminal([d], map[1 := d], map[])
  }

  function CopyOrder(copy: nat, closes: bool, lots: nat, open: bool): Command {
    Command(Open, Some(copy), closes, 0, 0, lots, open)
  }

  function QueueCopy(copy: nat, closes: bool, lots: nat): Event {
    Queue(1, CopyOrder(copy, closes, lots, true))
  }

  function OkAck(deal: nat, position: nat, volume: Option<nat>): Ack {
    Ack(1, true, deal, Some(position), None, volume)
  }

  function AckPoll(deal: nat, position: nat, volume: Option<nat>, at: nat): Event {
    Poll(Report([OkAck(deal, position, volume)], []), at, at)
  }

  /** The volume an ack is taken to say: the command's lots when it says none. */
  function Said(volume: Option<nat>, lots: nat): nat {
    if volume.Some? then volume.value else lots
  }

  function DealPoll(d: Deal): Event {
    Poll(Report([], [d]), 0, 1)
  }

  // ---------- what each poll does ----------

  lemma OneAck(cmds: map<nat, Command>, a: Ack)
    requires Settles(cmds, a)
    ensures OutcomesOf(cmds, [a]) == [OutcomeOf(a.command, cmds[a.command], a)]
  {
    assert [a][..0] == [];
    assert CommandsAfter(cmds, [a][..0]) == cmds && OutcomesOf(cmds, [a][..0]) == [];
  }

  lemma PostOne(b: Book, o: Outcome, deals: seq<Deal>)
    ensures PostOutcomes(b, [o], deals) == PostOutcome(b, o, deals)
  {
    assert [o][..0] == [];
    assert PostOutcomes(b, [o][..0], deals) == b;
  }

  lemma BookOne(b: Book, d: Deal, mapped: set<nat>)
    ensures BookDeals(b, [d], mapped) == BookDeal(b, d, mapped)
  {
    assert [d][..0] == [];
    assert BookDeals(b, [d][..0], mapped) == b;
  }

  /** A poll with acks only: their bookings, and their deals to skip. */
  lemma AckOnly(b: Book, acks: seq<Ack>, o: Outcome)
    requires OutcomesOf(b.commands, acks) == [o]
    ensures var p := PostOutcome(b.(commands := CommandsAfter(b.commands, acks)), o, []);
            Sync(b, Report(acks, [])) == p.(settled := p.settled + Named([o]))
  {
    PostOne(b.(commands := CommandsAfter(b.commands, acks)), o, []);
  }

  /** A poll with one new deal only. */
  lemma DealOnly(b: Book, d: Deal)
    requires d.ticket > b.watermark
    ensures Sync(b, Report([], [d])) ==
            BookDeal(b.(watermark := d.ticket), d, MappedPositions(b.mappings, []))
  {
    assert [d][1..] == [];
    assert Past([d], b.watermark) == [d] + Past([], b.watermark) == [d];
    assert SortDeals([d]) == Insert(d, SortDeals([])) == [d];
    assert MaxTicket([d], b.watermark) == d.ticket;
    assert Named([]) == {};
    var seen := b.(watermark := d.ticket);
    assert seen.settled + Named([]) == seen.settled;
    BookOne(seen, d, MappedPositions(seen.mappings, []));
  }

  function CopyAck(copy: nat, closes: bool, deal: nat, position: nat, volume: nat): Outcome {
    Outcome(1, if closes then Close else Open, Some(copy), true, position, 0, volume, deal)
  }

  /** The one outcome of the acks below. */
  lemma CopyAcked(cmds: map<nat, Command>, copy: nat, closes: bool, lots: nat, deal: nat, position: nat,
                  volume: Option<nat>)
    requires cmds == map[1 := CopyOrder(copy, closes, lots, true)]
    ensures var o := CopyAck(copy, closes, deal, position, Said(volume, lots));
            && OutcomesOf(cmds, [OkAck(deal, position, volume)]) == [o]
            && Named([o]) == if deal != 0 then {deal} else {}
  {
    OneAck(cmds, OkAck(deal, position, volume));
  }

  lemma AckStep(w: Terminal, t: Trace, copy: nat, closes: bool, lots: nat, deal: nat, volume: Option<nat>, at: nat)
    requires t.book.commands == map[1 := CopyOrder(copy, closes, lots, true)]
    ensures var k := OutcomeBooking(CopyAck(copy, closes, deal, 0, Said(volume, lots)), []);
            var u := Next(w, t, AckPoll(deal, 0, volume, at));
            && u.book.watermark == t.book.watermark && u.seen == SeenAfter(t, at) && u.expired == t.expired
            && u.book.settled == t.book.settled + (if deal != 0 then {deal} else {})
            && u.book.log == t.book.log + if k.Some? then [k.value] else []
  {
    CopyAcked(t.book.commands, copy, closes, lots, deal, 0, volume);
    AckOnly(t.book, [OkAck(deal, 0, volume)], CopyAck(copy, closes, deal, 0, Said(volume, lots)));
  }

  lemma DealStep(w: Terminal, t: Trace, d: Deal)
    requires Does(d, Closing) && d.ticket > t.book.watermark
    ensures var u := Next(w, t, DealPoll(d));
            && u.book.commands == t.book.commands && u.book.watermark == d.ticket && u.seen == SeenAfter(t, 1)
            && u.book.log == t.book.log + (if d.ticket in t.book.settled then [] else [Reported(d, Closing)])
            && u.expired == t.expired
  {
    DealOnly(t.book, d);
  }

  // ---------- runs, one event at a time ----------

  /** The run is allowed, and at its end everything is reported and this is the log. */
  ghost predicate Ends(w: Terminal, t: Trace, run: seq<Event>, log: seq<Booking>, expired: set<nat>) {
    var u := Exec(w, t, run);
    Run(w, t, run) && u.seen == |w.history| && u.book.log == log && u.expired == expired
  }

  lemma EndsAfter(w: Terminal, t: Trace, e: Event, rest: seq<Event>, log: seq<Booking>, expired: set<nat>)
    requires Enabled(w, t, e) && Ends(w, Next(w, t, e), rest, log, expired)
    ensures Ends(w, t, [e] + rest, log, expired)
    ensures Timely(w, t, e) && AllTimely(w, Next(w, t, e), rest) ==> AllTimely(w, t, [e] + rest)
  {
    assert ([e] + rest)[0] == e && ([e] + rest)[1..] == rest;
  }

  lemma EndsWith(w: Terminal, t: Trace, e: Event)
    requires Enabled(w, t, e) && Next(w, t, e).seen == |w.history|
    ensures Ends(w, t, [e], Next(w, t, e).book.log, Next(w, t, e).expired)
    ensures Timely(w, t, e) ==> AllTimely(w, t, [e])
  {
    assert [e] + [] == [e];
    EndsAfter(w, t, e, [], Next(w, t, e).book.log, Next(w, t, e).expired);
  }

  /** A command was queued and nothing else has happened. */
  ghost predicate Queued(t: Trace, c: Command) {
    && t.book.commands == map[1 := c] && t.book.watermark == 0 && t.book.settled == {} && t.book.log == []
    && t.seen == 0 && t.expired == {}
  }

  lemma Queues(w: Terminal, netting: bool, mappings: seq<Mapping>, c: Command)
    requires c.open && (1 in w.dealOf ==> CopyCommand(c))
    ensures var t, e := Start(netting, mappings), Queue(1, c);
            Enabled(w, t, e) && Timely(w, t, e) && Queued(Next(w, t, e), c)
    ensures Next(w, Start(netting, mappings), Queue(1, c)).book.mappings == mappings
  {
  }

  lemma OneDealOk(d: Deal)
    requires d.trade && d.ticket > 0
    ensures TerminalOk(OneDeal(d)) && IsCopyDeal(OneDeal(d), d.ticket)
  {
    var w := OneDeal(d);
    assert w.history[0] == d;
    assert 1 in w.dealOf && w.dealOf[1] == d && MadeOk(w, d);
  }

  /** The report of the deal ends the run. */
  lemma DealEnds(w: Terminal, t: Trace, d: Deal)
    requires w.history == [d] && Does(d, Closing) && d.ticket > t.book.watermark && t.seen <= 1
    ensures Ends(w, t, [DealPoll(d)],
                 t.book.log + (if d.ticket in t.book.settled then [] else [Reported(d, Closing)]), t.expired)
  {
    assert w.history[0..1] == [d];
    DealStep(w, t, d);
    EndsWith(w, t, DealPoll(d));
  }

  // ---------- the terminal's faults ----------

  function AckFirst(copy: nat, closes: bool, lots: nat, deal: nat, volume: Option<nat>, d: Deal): seq<Event> {
    [QueueCopy(copy, closes, lots), AckPoll(deal, 0, volume, 0), DealPoll(d)]
  }

  /** What is booked when the ack comes first: by the ack if it has a position, by the report if the ack is blind. */
  function AckFirstLog(copy: nat, closes: bool, lots: nat, deal: nat, volume: Option<nat>, d: Deal): seq<Booking> {
    var k := OutcomeBooking(CopyAck(copy, closes, deal, 0, Said(volume, lots)), []);
    (if k.Some? then [k.value] else []) + (if deal == 0 then [Reported(d, Closing)] else [])
  }

  /** Acked, and nothing reported yet. */
  ghost predicate Acknowledged(u: Trace, k: Option<Booking>, deal: nat) {
    && u.book.log == (if k.Some? then [k.value] else []) && u.book.settled == (if deal != 0 then {deal} else {})
    && u.book.watermark == 0 && u.seen == 0 && u.expired == {}
  }

  lemma ThenDeal(u: Trace, k: Option<Booking>, deal: nat, d: Deal)
    requires Does(d, Closing) && d.ticket > 0 && (deal == 0 || deal == d.ticket) && Acknowledged(u, k, deal)
    ensures Ends(OneDeal(d), u, [DealPoll(d)],
                 (if k.Some? then [k.value] else []) + (if deal == 0 then [Reported(d, Closing)] else []), {})
  {
    DealEnds(OneDeal(d), u, d);
  }

  lemma ThenAck(copy: nat, closes: bool, lots: nat, deal: nat, volume: Option<nat>, d: Deal, t: Trace)
    requires (deal == 0 || deal == d.ticket) && Queued(t, CopyOrder(copy, closes, lots, true))
    ensures var k := OutcomeBooking(CopyAck(copy, closes, deal, 0, Said(volume, lots)), []);
            var e := AckPoll(deal, 0, volume, 0);
            Enabled(OneDeal(d), t, e) && Acknowledged(Next(OneDeal(d), t, e), k, deal)
  {
    assert OneDeal(d).history[0..0] == [];
    AckStep(OneDeal(d), t, copy, closes, lots, deal, volume, 0);
  }

  lemma AckTail(copy: nat, closes: bool, lots: nat, deal: nat, volume: Option<nat>, d: Deal, t: Trace)
    requires Does(d, Closing) && d.ticket > 0 && (deal == 0 || deal == d.ticket)
    requires Queued(t, CopyOrder(copy, closes, lots, true))
    ensures Ends(OneDeal(d), t, [AckPoll(deal, 0, volume, 0)] + [DealPoll(d)],
                 AckFirstLog(copy, closes, lots, deal, volume, d), {})
  {
    var w, e := OneDeal(d), AckPoll(deal, 0, volume, 0);
    ThenAck(copy, closes, lots, deal, volume, d, t);
    var k := OutcomeBooking(CopyAck(copy, closes, deal, 0, Said(volume, lots)), []);
    ThenDeal(Next(w, t, e), k, deal, d);
    EndsAfter(w, t, e, [DealPoll(d)], AckFirstLog(copy, closes, lots, deal, volume, d), {});
  }

  lemma AckFirstEnds(copy: nat, closes: bool, lots: nat, deal: nat, volume: Option<nat>, d: Deal,
                     mappings: seq<Mapping>)
    requires Does(d, Closing) && d.ticket > 0 && (deal == 0 || deal == d.ticket)
    ensures TerminalOk(OneDeal(d))
    ensures Ends(OneDeal(d), Start(true, mappings), AckFirst(copy, closes, lots, deal, volume, d),
                 AckFirstLog(copy, closes, lots, deal, volume, d), {})
  {
    var w, t, e := OneDeal(d), Start(true, mappings), QueueCopy(copy, closes, lots);
    var rest := [AckPoll(deal, 0, volume, 0)] + [DealPoll(d)];
    OneDealOk(d);
    Queues(w, true, mappings, CopyOrder(copy, closes, lots, true));
    AckTail(copy, closes, lots, deal, volume, d, Next(w, t, e));
    EndsAfter(w, t, e, rest, AckFirstLog(copy, closes, lots, deal, volume, d), {});
    assert [e] + rest == AckFirst(copy, closes, lots, deal, volume, d);
  }

  /**
   LOST: a copy's open that empties the net position is acked with no position; when its deal comes
   only with the next report the ack activates nothing and the report is skipped, so the mapping
   never learns of a fill that happened.
   */
  lemma EmptiedCopyIsLost(copy: nat, volume: nat, d: Deal, mappings: seq<Mapping>)
    requires Does(d, Closing) && d.ticket > 0
    ensures var w, t := OneDeal(d), Start(true, mappings);
            var run := AckFirst(copy, false, volume, d.ticket, Some(volume), d);
            var u := Exec(w, t, run);
            && TerminalOk(w) && Run(w, t, run)
            && u.seen == 1 && u.book.log == [] && u.book.mappings == mappings
  {
    AckFirstEnds(copy, false, volume, d.ticket, Some(volume), d, mappings);
    LogIsReplayed(OneDeal(d), true, mappings, AckFirst(copy, false, volume, d.ticket, Some(volume), d));
  }

  /** BLIND: a copy's close acked without its deal reduces the copy, and the report of the deal
      then reduces the oldest copies of the position once more. */
  lemma BlindCloseTwice(copy: nat, volume: nat, d: Deal, mappings: seq<Mapping>)
    requires Does(d, Closing) && d.ticket > 0
    ensures var w, t := OneDeal(d), Start(true, mappings);
            var run := AckFirst(copy, true, volume, 0, Some(volume), d);
            var u := Exec(w, t, run);
            && TerminalOk(w) && Run(w, t, run) && u.seen == 1
            && u.book.log == [ClosedCopy(1, copy, volume), ClosedPosition(d.ticket, d.position, d.volume)]
  {
    AckFirstEnds(copy, true, volume, 0, Some(volume), d, mappings);
  }

  /** SKEWED: a close filled in part and acked without a volume is booked with the lots that were asked for. */
  lemma PartialFillOverbooked(copy: nat, lots: nat, d: Deal, mappings: seq<Mapping>)
    requires Does(d, Closing) && d.ticket > 0 && d.volume < lots
    ensures var w, t := OneDeal(d), Start(true, mappings);
            var run := AckFirst(copy, true, lots, d.ticket, None, d);
            var u := Exec(w, t, run);
            && TerminalOk(w) && Run(w, t, run)
            && u.seen == 1 && u.book.log == [ClosedCopy(1, copy, lots)]
  {
    AckFirstEnds(copy, true, lots, d.ticket, None, d, mappings);
  }

  function LateRun(copy: nat, volume: nat, d: Deal): seq<Event> {
    [QueueCopy(copy, true, volume), DealPoll(d), AckPoll(d.ticket, 0, Some(volume), 1)]
  }

  lemma LateAckEnds(copy: nat, volume: nat, d: Deal, t: Trace)
    requires t.book.commands == map[1 := CopyOrder(copy, true, volume, true)] && t.seen == 1 && t.expired == {}
    ensures Ends(OneDeal(d), t, [AckPoll(d.ticket, 0, Some(volume), 1)], t.book.log + [ClosedCopy(1, copy, volume)], {})
  {
    var w, e := OneDeal(d), AckPoll(d.ticket, 0, Some(volume), 1);
    assert w.history[1..1] == [];
    AckStep(w, t, copy, true, volume, d.ticket, Some(volume), 1);
    EndsWith(w, t, e);
  }

  lemma ReportFirst(copy: nat, volume: nat, d: Deal, t: Trace)
    requires Does(d, Closing) && d.ticket > 0 && Queued(t, CopyOrder(copy, true, volume, true))
    ensures var u := Next(OneDeal(d), t, DealPoll(d));
            && Enabled(OneDeal(d), t, DealPoll(d)) && u.book.log == [Reported(d, Closing)]
            && u.book.commands == map[1 := CopyOrder(copy, true, volume, true)] && u.seen == 1 && u.expired == {}
  {
    assert OneDeal(d).history[0..1] == [d];
    DealStep(OneDeal(d), t, d);
  }

  lemma LateTail(copy: nat, volume: nat, d: Deal, t: Trace)
    requires Does(d, Closing) && d.ticket > 0 && Queued(t, CopyOrder(copy, true, volume, true))
    ensures Ends(OneDeal(d), t, [DealPoll(d)] + [AckPoll(d.ticket, 0, Some(volume), 1)],
                 [Reported(d, Closing), ClosedCopy(1, copy, volume)], {})
  {
    var w, log := OneDeal(d), [Reported(d, Closing)] + [ClosedCopy(1, copy, volume)];
    ReportFirst(copy, volume, d, t);
    LateAckEnds(copy, volume, d, Next(w, t, DealPoll(d)));
    EndsAfter(w, t, DealPoll(d), [AckPoll(d.ticket, 0, Some(volume), 1)], log, {});
  }

  /** LATE: a copy's close acked after its deal was reported is booked twice in the other order. */
  lemma LateCloseTwice(copy: nat, volume: nat, d: Deal, mappings: seq<Mapping>)
    requires Does(d, Closing) && d.ticket > 0
    ensures var w := OneDeal(d);
            var u := Exec(w, Start(true, mappings), LateRun(copy, volume, d));
            && TerminalOk(w) && Run(w, Start(true, mappings), LateRun(copy, volume, d)) && u.seen == 1
            && u.book.log == [ClosedPosition(d.ticket, d.position, d.volume), ClosedCopy(1, copy, volume)]
  {
    var w, t, e := OneDeal(d), Start(true, mappings), QueueCopy(copy, true, volume);
    var rest := [DealPoll(d)] + [AckPoll(d.ticket, 0, Some(volume), 1)];
    OneDealOk(d);
    Queues(w, true, mappings, CopyOrder(copy, true, volume, true));
    LateTail(copy, volume, d, Next(w, t, e));
    EndsAfter(w, t, e, rest, [Reported(d, Closing), ClosedCopy(1, copy, volume)], {});
    assert [e] + rest == LateRun(copy, volume, d);
  }

  // ---------- the copier's own fault ----------

  function FullPoll(d: Deal): Event {
    Poll(Report([OkAck(d.ticket, d.position, Some(d.volume))], [d]), 0, 1)
  }

  function GivenUpRun(copy: nat, d: Deal): seq<Event> {
    [QueueCopy(copy, true, d.volume), Expire(1), FullPoll(d)]
  }

  /** An ack for a closed command says nothing, so its poll is one of the deal alone. */
  lemma DeafPoll(b: Book, a: Ack, d: Deal)
    requires !Settles(b.commands, a)
    ensures OutcomesOf(b.commands, [a]) == [] && CommandsAfter(b.commands, [a]) == b.commands
    ensures Sync(b, Report([a], [d])) == Sync(b, Report([], [d]))
  {
    assert [a][..0] == [];
    assert CommandsAfter(b.commands, [a][..0]) == b.commands && OutcomesOf(b.commands, [a][..0]) == [];
  }

  lemma FullPollTimely(copy: nat, d: Deal, t: Trace)
    requires t.book.commands == map[1 := CopyOrder(copy, true, d.volume, false)] && t.expired == {d.ticket}
    ensures Enabled(OneDeal(d), t, FullPoll(d)) && Timely(OneDeal(d), t, FullPoll(d))
  {
    assert OneDeal(d).history[0..1] == [d];
    DeafPoll(t.book, OkAck(d.ticket, d.position, Some(d.volume)), d);
  }

  lemma FullPollEnds(copy: nat, d: Deal, t: Trace)
    requires t.book.commands == map[1 := CopyOrder(copy, true, d.volume, false)] && t.expired == {d.ticket}
    requires Does(d, Closing) && d.ticket > t.book.watermark && t.book.settled == {} && t.book.log == [] && t.seen == 0
    ensures Ends(OneDeal(d), t, [FullPoll(d)], [Reported(d, Closing)], {d.ticket})
    ensures AllTimely(OneDeal(d), t, [FullPoll(d)])
  {
    FullPollTimely(copy, d, t);
    DeafPoll(t.book, OkAck(d.ticket, d.position, Some(d.volume)), d);
    DealStep(OneDeal(d), t, d);
    EndsWith(OneDeal(d), t, FullPoll(d));
  }

  lemma GivenUpTail(copy: nat, d: Deal, t: Trace)
    requires Does(d, Closing) && d.ticket > 0 && Queued(t, CopyOrder(copy, true, d.volume, true))
    ensures var run := [Expire(1)] + [FullPoll(d)];
            && Ends(OneDeal(d), t, run, [Reported(d, Closing)], {d.ticket}) && AllTimely(OneDeal(d), t, run)
  {
    var w := OneDeal(d);
    FullPollEnds(copy, d, Next(w, t, Expire(1)));
    EndsAfter(w, t, Expire(1), [FullPoll(d)], [Reported(d, Closing)], {d.ticket});
  }

  lemma GivenUpEnds(copy: nat, d: Deal, mappings: seq<Mapping>)
    requires Does(d, Closing) && d.ticket > 0
    ensures var w, t, run := OneDeal(d), Start(true, mappings), GivenUpRun(copy, d);
            Ends(w, t, run, [Reported(d, Closing)], {d.ticket}) && AllTimely(w, t, run)
  {
    var w, t, e := OneDeal(d), Start(true, mappings), QueueCopy(copy, true, d.volume);
    Queues(w, true, mappings, CopyOrder(copy, true, d.volume, true));
    GivenUpTail(copy, d, Next(w, t, e));
    EndsAfter(w, t, e, [Expire(1)] + [FullPoll(d)], [Reported(d, Closing)], {d.ticket});
    assert [e] + ([Expire(1)] + [FullPoll(d)]) == GivenUpRun(copy, d);
  }

  /**
   GIVEN UP: the terminal keeps its side, acking a close in full and in the very poll that reports
   its deal, but the copier has given up on the command. The close is booked by its report alone: the
   oldest copies of the position are reduced, and the copy it was meant for only if it is one of them.
   */
  lemma GivenUpIsForeign(copy: nat, d: Deal, mappings: seq<Mapping>)
    requires Does(d, Closing) && d.ticket > 0
    ensures var w, t, run := OneDeal(d), Start(true, mappings), GivenUpRun(copy, d);
            var u := Exec(w, t, run);
            && TerminalOk(w) && Run(w, t, run) && AllTimely(w, t, run) && !NoneRevived(u)
            && u.seen == 1 && u.book.log == [ClosedPosition(d.ticket, d.position, d.volume)]
            && u.book.mappings == ReduceFifo(mappings, d.position, d.volume)
  {
    var w, t, run := OneDeal(d), Start(true, mappings), GivenUpRun(copy, d);
    OneDealOk(d);
    GivenUpEnds(copy, d, mappings);
    LogIsReplayed(w, true, mappings, run);
    ReplaySnoc(true, mappings, [], Reported(d, Closing));
    AllReported(w, true, mappings, run);
  }

  /** With everything reported, the watermark is the last ticket. */
  lemma AllReported(w: Terminal, netting: bool, mappings: seq<Mapping>, run: seq<Event>)
    requires TerminalOk(w) && Run(w, Start(netting, mappings), run)
    ensures var u := Exec(w, Start(netting, mappings), run);
            u.seen <= |w.history| && u.book.watermark == Watermark(w, u.seen)
  {
    StartInv(w, netting, mappings);
    RunKeeps(w, Start(netting, mappings), run);
  }
}
