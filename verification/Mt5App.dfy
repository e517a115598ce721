/** The follower's state as the copier holds it, updated in place by one poll. */
module Mt5App {
  import opened Fifo
  import opened Mt5Sync

  class Follower {
    const netting: bool
    var watermark: nat
    var settled: set<nat>
    var commands: map<nat, Command>
    var mappings: seq<Mapping>
    var log: seq<Booking>

    constructor (netting: bool, mappings: seq<Mapping>)
      ensures Value() == Book(netting, 0, {}, map[], mappings, [])
    {
      this.netting, this.mappings := netting, mappings;
      watermark, settled, commands, log := 0, {}, map[], [];
    }

    function Value(): Book
      reads this
    {
      Book(netting, watermark, settled, commands, mappings, log)
    }

    method ApplyAcks(acks: seq<Ack>) returns (outs: seq<Outcome>)
      modifies this`commands
      ensures commands == CommandsAfter(old(commands), acks)
      ensures outs == OutcomesOf(old(commands), acks)
    {
      outs := [];
      var i := 0;
      while i < |acks|
        invariant 0 <= i <= |acks|
        invariant commands == CommandsAfter(old(commands), acks[..i])
        invariant outs == OutcomesOf(old(commands), acks[..i])
      {
        assert acks[..i + 1][..i] == acks[..i];
        var a := acks[i];
        if a.command in commands && commands[a.command].open {
          var c := commands[a.command];
          commands := commands[a.command := c.(open := false)];
          outs := outs + [OutcomeOf(a.command, c, a)];
        }
        i := i + 1;
      }
      assert acks[..i] == acks;
    }

    /** Oldest copy first, until the closed volume is used up. */
    method TakeOldestFirst(position: nat, closed: nat)
      modifies this`mappings
      ensures mappings == ReduceFifo(old(mappings), position, closed)
    {
      var remaining: nat := closed;
      var i := 0;
      while i < |mappings|
        invariant 0 <= i <= |mappings| == |old(mappings)|
        invariant mappings[i..] == old(mappings)[i..]
        invariant ReduceFifo(old(mappings), position, closed) ==
                  mappings[..i] + ReduceFifo(mappings[i..], position, remaining)
      {
        var m := mappings[i];
        ghost var rest := mappings[i + 1..];
        assert mappings[i..][1..] == rest;
        if remaining > 0 && On(m, position) && m.volume > 0 {
          var take := MinOf(m.volume, remaining);
          mappings := mappings[i := m.(volume := m.volume - take, active := m.volume - take > 0)];
          remaining := remaining - take;
        }
        assert mappings[i + 1..] == rest;
        i := i + 1;
      }
    }

    method Enter(b: Booking)
      modifies this`mappings, this`log
      ensures Value() == Post(old(Value()), b)
    {
      match b {
        case Activated(_, copy, position, volume) => mappings := Activate(mappings, copy, position, volume);
        case ClosedCopy(_, copy, volume) => mappings := ReduceCopy(mappings, copy, volume);
        case ClosedPosition(_, position, volume) =>
          if netting {
            TakeOldestFirst(position, volume);
          } else {
            mappings := ReduceAll(mappings, position, volume);
          }
        case Accepted(_, copy, order) => mappings := Accept(mappings, copy, order);
        case Dropped(_, order) => mappings := Drop(mappings, order);
        case AckedFill(_, order, position, volume) => mappings := FillOrder(mappings, order, position, volume);
        case Filled(_, order, position, volume) => mappings := FillOrder(mappings, order, position, volume);
      }
      log := log + [b];
    }

    method ApplyOutcomes(outs: seq<Outcome>, deals: seq<Deal>)
      modifies this`mappings, this`log
      ensures Value() == PostOutcomes(old(Value()), outs, deals)
    {
      var i := 0;
      while i < |outs|
        invariant 0 <= i <= |outs|
        invariant Value() == PostOutcomes(old(Value()), outs[..i], deals)
      {
        assert outs[..i + 1][..i] == outs[..i];
        var k := OutcomeBooking(outs[i], deals);
        if k.Some? {
          Enter(k.value);
        }
        i := i + 1;
      }
      assert outs[..i] == outs;
    }

    method OwnDeals(deals: seq<Deal>, outs: seq<Outcome>)
      modifies this`settled, this`mappings, this`log
      ensures var b := old(Value());
              Value() == BookDeals(b.(settled := b.settled + Named(outs)), deals, MappedPositions(b.mappings, outs))
    {
      settled := settled + Named(outs);
      var mapped := MappedPositions(mappings, outs);
      ghost var b := Value();
      var i := 0;
      while i < |deals|
        invariant 0 <= i <= |deals|
        invariant Value() == BookDeals(b, deals[..i], mapped)
      {
        assert deals[..i + 1][..i] == deals[..i];
        var d := deals[i];
        if d.trade {
          if d.ticket in settled {
            settled := settled - {d.ticket};
          } else if d.entry == In {
            if d.position !in mapped {
              Enter(Filled(d.ticket, d.order, d.position, d.volume));
            }
          } else if IsClose(d.entry) {
            Enter(ClosedPosition(d.ticket, d.position, d.volume));
          }
        }
        i := i + 1;
      }
      assert deals[..i] == deals;
    }

    /** One poll: acks settle first, then the deals past the watermark are booked. */
    method Poll(r: Report)
      modifies this
      ensures Value() == Sync(old(Value()), r)
    {
      var outs := ApplyAcks(r.acks);
      ApplyOutcomes(outs, r.deals);
      var newer := SortDeals(Past(r.deals, watermark));
      watermark := MaxTicket(newer, watermark);
      if newer != [] || outs != [] {
        OwnDeals(newer, outs);
      }
    }
  }
}
