/** The body-limit middleware as a filter on the traffic between a client and an arbitrary app. */
module BodyLimit {
  import opened Base

  datatype Inbound = Chunk(size: nat) | Disconnect

  datatype Outbound = Start(status: nat) | Body(tag: nat)

  // What the app does, in order: ask for a message (given here: the one the server would hand
  // over) or send one.
  datatype Action = Receive(message: Inbound) | Send(reply: Outbound)

  datatype State = State(received: nat, started: bool, rejected: bool, toApp: seq<Inbound>, toClient: seq<Outbound>)

  function TooLarge(): seq<Outbound> {
    [Start(413), Body(0)]
  }

  class Middleware {
    const limit: nat
    var received: nat
    var started: bool
    var rejected: bool
    var toApp: seq<Inbound>
    var toClient: seq<Outbound>

    constructor (limit: nat)
      ensures this.limit == limit && Value() == Initial()
    {
      this.limit := limit;
      received, started, rejected, toApp, toClient := 0, false, false, [], [];
    }

    function Value(): State
      reads this
    {
      State(received, started, rejected, toApp, toClient)
    }

    method CountedReceive(m: Inbound) returns (given: Inbound)
      modifies this
      ensures Value() == Next(limit, old(Value()), Receive(m))
      ensures toApp == old(toApp) + [given]
    {
      if rejected {
        given := Disconnect;
      } else {
        given := m;
        if m.Chunk? {
          received := received + m.size;
          if received > limit {
            rejected := true;
            if !started {
              toClient := toClient + TooLarge();
            }
            given := Disconnect;
          }
        }
      }
      toApp := toApp + [given];
    }

    method GuardedSend(r: Outbound)
      modifies this
      ensures Value() == Next(limit, old(Value()), Send(r))
    {
      if !rejected {
        if r.Start? {
          started := true;
        }
        toClient := toClient + [r];
      }
    }
  }

  function Initial(): State {
    State(0, false, false, [], [])
  }

  function Next(limit: nat, s: State, a: Action): State {
    match a
    case Send(r) =>
      if s.rejected then s else s.(started := s.started || r.Start?, toClient := s.toClient + [r])
    case Receive(m) =>
      if s.rejected then s.(toApp := s.toApp + [Disconnect])
      else if m.Disconnect? then s.(toApp := s.toApp + [m])
      else if s.received + m.size <= limit then
        s.(received := s.received + m.size, toApp := s.toApp + [m])
      else
        s.(received := s.received + m.size, rejected := true, toApp := s.toApp + [Disconnect],
           toClient := s.toClient + (if s.started then [] else TooLarge()))
  }

  function Exec(limit: nat, actions: seq<Action>): State {
    if actions == [] then Initial()
    else Next(limit, Exec(limit, actions[..|actions| - 1]), actions[|actions| - 1])
  }

  // ---------- the reference: where the body passes the limit, and what each side sees ----------

  function Size(a: Action): int {
    if a.Receive? && a.message.Chunk? then a.message.size else 0
  }

  function Bytes(actions: seq<Action>): int {
    Sum(actions, Size)
  }

  /** How many actions pass before the body is over the limit; all of them if it never is. */
  function Cut(limit: nat, actions: seq<Action>): (k: nat)
    ensures k <= |actions|
    ensures Bytes(actions[..k]) <= limit
    ensures k < |actions| ==> Bytes(actions[..k + 1]) > limit
  {
    if actions == [] then 0
    else
      var n := |actions| - 1;
      var k := Cut(limit, actions[..n]);
      assert actions[..n][..k] == actions[..k];
      assert k < n ==> actions[..n][..k + 1] == actions[..k + 1];
      assert actions[..n + 1] == actions;
      if k < n then k else if Bytes(actions) > limit then n else n + 1
  }

  function Sent(actions: seq<Action>): seq<Outbound> {
    if actions == [] then []
    else
      var a := actions[|actions| - 1];
      Sent(actions[..|actions| - 1]) + (if a.Send? then [a.reply] else [])
  }

  function Asked(actions: seq<Action>, cut: nat): seq<Inbound> {
    if actions == [] then []
    else
      var n := |actions| - 1;
      Asked(actions[..n], cut) +
      (if actions[n].Receive? then [if n < cut then actions[n].message else Disconnect] else [])
  }

  predicate HasStart(sent: seq<Outbound>) {
    exists i :: 0 <= i < |sent| && sent[i].Start?
  }

  function ClientSees(limit: nat, actions: seq<Action>): seq<Outbound> {
    var k := Cut(limit, actions);
    var sent := Sent(actions[..k]);
    sent + (if k < |actions| && !HasStart(sent) then TooLarge() else [])
  }

  /** The state at the moment an action is taken, in terms of the reference. */
  ghost predicate Explains(limit: nat, actions: seq<Action>, s: State) {
    var k := Cut(limit, actions);
    && (s.rejected <==> k < |actions|)
    && (!s.rejected ==> s.received == Bytes(actions) && (s.started <==> HasStart(Sent(actions))))
    && s.toClient == ClientSees(limit, actions)
    && s.toApp == Asked(actions, k)
  }

  lemma SentSnoc(actions: seq<Action>, a: Action)
    ensures Sent(actions + [a]) == Sent(actions) + (if a.Send? then [a.reply] else [])
  {
    assert (actions + [a])[..|actions|] == actions;
  }

  lemma {:induction false} AskedUncut(actions: seq<Action>, k: nat, l: nat)
    requires |actions| <= k && |actions| <= l
    ensures Asked(actions, k) == Asked(actions, l)
    decreases |actions|
  {
    if actions != [] {
      AskedUncut(actions[..|actions| - 1], k, l);
    }
  }

  lemma CutSnoc(limit: nat, actions: seq<Action>, a: Action)
    ensures var k := Cut(limit, actions);
            Cut(limit, actions + [a]) ==
            if k < |actions| then k else if Bytes(actions) + Size(a) > limit then |actions| else |actions| + 1
  {
    assert (actions + [a])[..|actions|] == actions;
    SumAppend(actions, a, Size);
  }

  lemma AskedSnoc(actions: seq<Action>, a: Action, cut: nat)
    ensures Asked(actions + [a], cut) ==
            Asked(actions, cut) + (if a.Receive? then [if |actions| < cut then a.message else Disconnect] else [])
  {
    assert (actions + [a])[..|actions|] == actions;
  }

  lemma CutStays(limit: nat, init: seq<Action>, a: Action, s: State)
    requires Explains(limit, init, s) && Cut(limit, init) < |init|
    ensures Explains(limit, init + [a], Next(limit, s, a))
  {
    var k := Cut(limit, init);
    CutSnoc(limit, init, a);
    AskedSnoc(init, a, k);
    assert (init + [a])[..k] == init[..k];
  }

  /** Nothing cut yet: the reference is simply everything sent and asked so far. */
  lemma Uncut(limit: nat, actions: seq<Action>)
    requires Cut(limit, actions) == |actions|
    ensures ClientSees(limit, actions) == Sent(actions)
  {
    assert actions[..|actions|] == actions;
  }

  lemma LiveStays(limit: nat, init: seq<Action>, a: Action, s: State)
    requires Explains(limit, init, s) && Cut(limit, init) == |init| && Bytes(init) + Size(a) <= limit
    ensures Explains(limit, init + [a], Next(limit, s, a))
  {
    var n := |init|;
    CutSnoc(limit, init, a);
    Uncut(limit, init);
    Uncut(limit, init + [a]);
    AskedSnoc(init, a, n + 1);
    AskedUncut(init, n, n + 1);
    SumAppend(init, a, Size);
    SentSnoc(init, a);
    StartSnoc(Sent(init), if a.Send? then [a.reply] else []);
  }

  lemma LiveIsCut(limit: nat, init: seq<Action>, a: Action, s: State)
    requires Explains(limit, init, s) && Cut(limit, init) == |init| && Bytes(init) + Size(a) > limit
    ensures Explains(limit, init + [a], Next(limit, s, a))
  {
    var n := |init|;
    CutSnoc(limit, init, a);
    Uncut(limit, init);
    AskedSnoc(init, a, n);
    assert (init + [a])[..n] == init;
  }

  /**
   TRANSPARENT OR CUT: for every app and every chunking, the client sees exactly what the app sent
   before the body passed the limit, then the 413 if the app had not begun to answer; the app sees
   the client's messages up to there and only disconnects after.
   */
  lemma {:induction false} TraceIsReference(limit: nat, actions: seq<Action>)
    ensures Explains(limit, actions, Exec(limit, actions))
    decreases |actions|
  {
    if actions != [] {
      var n := |actions| - 1;
      TraceIsReference(limit, actions[..n]);
      assert actions == actions[..n] + [actions[n]];
      if Cut(limit, actions[..n]) < n {
        CutStays(limit, actions[..n], actions[n], Exec(limit, actions[..n]));
      } else if Bytes(actions[..n]) + Size(actions[n]) <= limit {
        LiveStays(limit, actions[..n], actions[n], Exec(limit, actions[..n]));
      } else {
        LiveIsCut(limit, actions[..n], actions[n], Exec(limit, actions[..n]));
      }
    } else {
      assert Sent([]) == [] && actions[..0] == [];
    }
  }

  lemma StartSnoc(sent: seq<Outbound>, more: seq<Outbound>)
    requires |more| <= 1
    ensures HasStart(sent + more) <==> HasStart(sent) || (more != [] && more[0].Start?)
  {
    if HasStart(sent) {
      var i :| 0 <= i < |sent| && sent[i].Start?;
      assert (sent + more)[i].Start?;
    }
    if more != [] && more[0].Start? {
      assert (sent + more)[|sent|].Start?;
    }
  }

  function InboundBytes(seen: seq<Inbound>): nat {
    if seen == [] then 0
    else InboundBytes(seen[..|seen| - 1]) +
         (if seen[|seen| - 1].Chunk? then seen[|seen| - 1].size else 0)
  }

  lemma InboundSnoc(seen: seq<Inbound>, m: Inbound)
    ensures InboundBytes(seen + [m]) == InboundBytes(seen) + (if m.Chunk? then m.size else 0)
  {
    assert (seen + [m])[..|seen|] == seen;
  }

  lemma AskedBytesSnoc(actions: seq<Action>, a: Action, cut: nat)
    ensures InboundBytes(Asked(actions + [a], cut)) ==
            InboundBytes(Asked(actions, cut)) + (if |actions| < cut then Size(a) else 0)
  {
    AskedSnoc(actions, a, cut);
    if a.Receive? {
      InboundSnoc(Asked(actions, cut), if |actions| < cut then a.message else Disconnect);
    } else {
      assert Asked(actions, cut) + [] == Asked(actions, cut);
    }
  }

  /** What the app is handed is what was asked before the cut. */
  lemma {:induction false} AskedBytes(actions: seq<Action>, cut: nat)
    ensures InboundBytes(Asked(actions, cut)) == Bytes(if cut < |actions| then actions[..cut] else actions)
    decreases |actions|
  {
    if actions != [] {
      var n := |actions| - 1;
      AskedBytes(actions[..n], cut);
      assert actions == actions[..n] + [actions[n]];
      AskedBytesSnoc(actions[..n], actions[n], cut);
      if cut <= n {
        assert actions[..n][..cut] == actions[..cut];
        assert cut == n ==> actions[..n] == actions[..cut];
      } else {
        SumAppend(actions[..n], actions[n], Size);
      }
    }
  }

  /** THE LIMIT: no app is ever handed more than `limit` bytes of body. */
  lemma NeverOverLimit(limit: nat, actions: seq<Action>)
    ensures InboundBytes(Exec(limit, actions).toApp) <= limit
  {
    TraceIsReference(limit, actions);
    var k := Cut(limit, actions);
    AskedBytes(actions, k);
    assert k == |actions| ==> actions[..k] == actions;
  }

  function Starts(sent: seq<Outbound>): nat {
    if sent == [] then 0 else Starts(sent[..|sent| - 1]) + (if sent[|sent| - 1].Start? then 1 else 0)
  }

  lemma {:induction false} StartsOf(sent: seq<Outbound>)
    ensures Starts(sent) > 0 <==> HasStart(sent)
    decreases |sent|
  {
    if sent != [] {
      var n := |sent| - 1;
      StartsOf(sent[..n]);
      StartSnoc(sent[..n], [sent[n]]);
      assert sent == sent[..n] + [sent[n]];
    }
  }

  lemma {:induction false} StartsGrow(actions: seq<Action>, k: nat)
    requires k <= |actions|
    ensures Starts(Sent(actions[..k])) <= Starts(Sent(actions))
    decreases |actions|
  {
    if k == |actions| {
      assert actions[..k] == actions;
    } else {
      var n := |actions| - 1;
      StartsGrow(actions[..n], k);
      assert actions[..n][..k] == actions[..k];
      if actions[n].Send? {
        assert Sent(actions)[..|Sent(actions[..n])|] == Sent(actions[..n]);
      } else {
        assert Sent(actions) == Sent(actions[..n]);
      }
    }
  }

  /** The app answers at most once and begins with its start. */
  ghost predicate WellBehaved(actions: seq<Action>) {
    && Starts(Sent(actions)) <= 1
    && (Sent(actions) != [] ==> Sent(actions)[0].Start?)
  }

  lemma {:induction false} SentPrefix(actions: seq<Action>, k: nat)
    requires k <= |actions|
    ensures Sent(actions[..k]) <= Sent(actions)
    decreases |actions|
  {
    if k == |actions| {
      assert actions[..k] == actions;
    } else {
      SentPrefix(actions[..|actions| - 1], k);
      assert actions[..|actions| - 1][..k] == actions[..k];
    }
  }

  /**
   ONE ANSWER: behind the middleware a well-behaved app leaves the client with at most one response
   start; and the client gets exactly the 413 when the body passed the limit before the app began.
   */
  lemma OneAnswer(limit: nat, actions: seq<Action>)
    requires WellBehaved(actions)
    ensures Starts(Exec(limit, actions).toClient) <= 1
    ensures var k := Cut(limit, actions);
            k < |actions| && !HasStart(Sent(actions[..k])) ==> Exec(limit, actions).toClient == TooLarge()
  {
    TraceIsReference(limit, actions);
    var k := Cut(limit, actions);
    var sent := Sent(actions[..k]);
    StartsGrow(actions, k);
    SentPrefix(actions, k);
    StartsOf(sent);
    if k < |actions| && !HasStart(sent) {
      assert sent == [];
      assert TooLarge()[..1] == [Start(413)] && [Start(413)][..0] == [];
      assert Starts(TooLarge()[..1]) == 1;
      assert Exec(limit, actions).toClient == TooLarge();
    } else {
      assert Exec(limit, actions).toClient == sent;
    }
  }
}
