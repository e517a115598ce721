/**
 OAuth connect states: rows inserted by a connect, swept when they expire, and consumed by the
 guarded UPDATE of a callback, with or without the state parameter, under any interleaving.

 Times are on one clock. A callback reads it once (`now`) and carries it into its statements.
 Nonces and their digests are never issued twice.
 */
module OAuth {
  import opened Base

  const TTL: nat := 3600

  datatype Row = Row(session: nat, org: nat, created: int, consumed: bool)

  datatype Phase =
    | Counted(session: nat, now: int)
    | Refused
    | Ambiguous
    | Granted(hash: nat, org: nat)
    | Stored(hash: nat)

  // A consumed row: which callback took it, when, and for which session.
  datatype Use = Use(call: nat, hash: nat, session: nat, now: int)

  datatype Connection = Connection(call: nat, org: nat)

  // `issued` is every row as its connect inserted it, swept or not.
  datatype State = State(rows: map<nat, Row>, issued: map<nat, Row>, calls: map<nat, Phase>,
                         uses: seq<Use>, connections: seq<Connection>)

  datatype Event =
    | Connect(hash: nat, session: nat, org: nat, time: int, sweeps: bool)
    | CallbackWith(call: nat, hash: nat, session: nat, now: int)
    | Count(call: nat, session: nat, now: int)
    | TakeLatest(call: nat)
    | Store(call: nat)

  predicate Pending(r: Row, session: nat, now: int) {
    !r.consumed && r.session == session && r.created > now - TTL
  }

  function PendingRows(rows: map<nat, Row>, session: nat, now: int): set<nat> {
    set h | h in rows && Pending(rows[h], session, now)
  }

  function Sweep(rows: map<nat, Row>, time: int): map<nat, Row> {
    map h | h in rows && rows[h].created >= time - TTL :: rows[h]
  }

  /** The row ORDER BY created_at DESC LIMIT 1 picks; ties may go either way, here to the larger hash. */
  predicate Latest(rows: map<nat, Row>, session: nat, now: int, h: nat) {
    && h in PendingRows(rows, session, now)
    && forall g | g in PendingRows(rows, session, now) ::
         rows[g].created < rows[h].created || (rows[g].created == rows[h].created && g <= h)
  }

  ghost predicate Enabled(s: State, e: Event) {
    match e
    case Connect(hash, _, _, _, _) => hash !in s.issued
    case CallbackWith(call, _, _, _) => call !in s.calls
    case Count(call, _, _) => call !in s.calls
    case TakeLatest(call) => call in s.calls && s.calls[call].Counted?
    case Store(call) => call in s.calls && s.calls[call].Granted?
  }

  function Grant(s: State, call: nat, hash: nat, session: nat, now: int): State
    requires hash in s.rows
  {
    s.(rows := s.rows[hash := s.rows[hash].(consumed := true)],
       calls := s.calls[call := Granted(hash, s.rows[hash].org)],
       uses := s.uses + [Use(call, hash, session, now)])
  }

  ghost function Next(s: State, e: Event): State
    requires Enabled(s, e)
  {
    match e
    case Connect(hash, session, org, time, sweeps) =>
      var row := Row(session, org, time, false);
      s.(rows := (if sweeps then Sweep(s.rows, time) else s.rows)[hash := row], issued := s.issued[hash := row])
    case CallbackWith(call, hash, session, now) =>
      if hash in s.rows && Pending(s.rows[hash], session, now) then Grant(s, call, hash, session, now)
      else s.(calls := s.calls[call := Refused])
    case Count(call, session, now) =>
      s.(calls := s.calls[call := if |PendingRows(s.rows, session, now)| > 1 then Ambiguous else Counted(session, now)])
    case TakeLatest(call) =>
      var p := s.calls[call];
      if h :| Latest(s.rows, p.session, p.now, h) then Grant(s, call, h, p.session, p.now)
      else s.(calls := s.calls[call := Refused])
    case Store(call) =>
      s.(calls := s.calls[call := Stored(s.calls[call].hash)],
         connections := s.connections + [Connection(call, s.calls[call].org)])
  }

  ghost predicate Run(s: State, run: seq<Event>)
    decreases |run|
  {
    run == [] || (Enabled(s, run[0]) && Run(Next(s, run[0]), run[1..]))
  }

  ghost function Exec(s: State, run: seq<Event>): State
    requires Run(s, run)
    decreases |run|
  {
    if run == [] then s else Exec(Next(s, run[0]), run[1..])
  }

  function Fresh(): State {
    State(map[], map[], map[], [], [])
  }

  // ---------- consumed at most once, by its session, in time ----------

  ghost predicate RowsIssued(s: State) {
    && (forall h | h in s.rows :: h in s.issued && s.rows[h].(consumed := false) == s.issued[h])
    && (forall h | h in s.issued :: !s.issued[h].consumed)
  }

  ghost predicate UseOk(s: State, u: Use) {
    && u.hash in s.issued && s.issued[u.hash].session == u.session
    && s.issued[u.hash].created > u.now - TTL
    && (u.hash in s.rows ==> s.rows[u.hash].consumed)
    && u.call in s.calls
    && (s.calls[u.call] == Granted(u.hash, s.issued[u.hash].org) || s.calls[u.call] == Stored(u.hash))
  }

  ghost predicate UsesOk(s: State) {
    && (forall i | 0 <= i < |s.uses| :: UseOk(s, s.uses[i]))
    && (forall i, j | 0 <= i < j < |s.uses| :: s.uses[i].hash != s.uses[j].hash)
  }

  function Taken(calls: map<nat, Phase>): set<nat> {
    set c | c in calls && (calls[c].Granted? || calls[c].Stored?)
  }

  function Done(calls: map<nat, Phase>): set<nat> {
    set c | c in calls && calls[c].Stored?
  }

  ghost predicate CallsOk(s: State) {
    && |s.uses| == |Taken(s.calls)| && |s.connections| == |Done(s.calls)|
    && (forall c | c in s.calls && s.calls[c].Granted? ::
          s.calls[c].hash in s.issued && s.issued[s.calls[c].hash].org == s.calls[c].org)
    && (forall i | 0 <= i < |s.connections| ::
          var c := s.connections[i].call;
          c in s.calls && s.calls[c].Stored? && s.calls[c].hash in s.issued
          && s.connections[i].org == s.issued[s.calls[c].hash].org)
  }

  ghost predicate Inv(s: State) {
    RowsIssued(s) && UsesOk(s) && CallsOk(s)
  }

  lemma GrantUses(s: State, call: nat, hash: nat, session: nat, now: int)
    requires RowsIssued(s) && UsesOk(s) && (call !in s.calls || s.calls[call].Counted?)
    requires hash in s.rows && Pending(s.rows[hash], session, now)
    ensures UsesOk(Grant(s, call, hash, session, now))
  {
    var t := Grant(s, call, hash, session, now);
    forall i | 0 <= i < |s.uses|
      ensures s.uses[i].hash != hash && UseOk(t, s.uses[i])
    {
      assert UseOk(s, s.uses[i]);
    }
    assert UseOk(t, Use(call, hash, session, now));
  }

  lemma GrantKeeps(s: State, call: nat, hash: nat, session: nat, now: int)
    requires Inv(s) && (call !in s.calls || s.calls[call].Counted?)
    requires hash in s.rows && Pending(s.rows[hash], session, now)
    ensures Inv(Grant(s, call, hash, session, now))
  {
    var t := Grant(s, call, hash, session, now);
    assert Taken(t.calls) == Taken(s.calls) + {call};
    assert Done(t.calls) == Done(s.calls);
    GrantUses(s, call, hash, session, now);
  }

  lemma RefuseKeeps(s: State, call: nat, p: Phase)
    requires Inv(s) && (call !in s.calls || s.calls[call].Counted?)
    requires !p.Granted? && !p.Stored?
    ensures Inv(s.(calls := s.calls[call := p]))
  {
    var t := s.(calls := s.calls[call := p]);
    assert Taken(t.calls) == Taken(s.calls) && Done(t.calls) == Done(s.calls);
    forall i | 0 <= i < |s.uses|
      ensures UseOk(t, s.uses[i])
    {
      assert UseOk(s, s.uses[i]);
    }
  }

  lemma ConnectKeeps(s: State, e: Event)
    requires Inv(s) && e.Connect? && Enabled(s, e)
    ensures Inv(Next(s, e))
  {
    var t := Next(s, e);
    forall i | 0 <= i < |s.uses|
      ensures UseOk(t, s.uses[i])
    {
      assert UseOk(s, s.uses[i]);
    }
  }

  lemma StoreKeeps(s: State, call: nat)
    requires Inv(s) && Enabled(s, Store(call))
    ensures Inv(Next(s, Store(call)))
  {
    var t := Next(s, Store(call));
    assert Taken(t.calls) == Taken(s.calls) && Done(t.calls) == Done(s.calls) + {call};
    forall i | 0 <= i < |s.uses|
      ensures UseOk(t, s.uses[i])
    {
      assert UseOk(s, s.uses[i]);
    }
  }

  lemma StepKeeps(s: State, e: Event)
    requires Inv(s) && Enabled(s, e)
    ensures Inv(Next(s, e))
  {
    match e
    case Connect(_, _, _, _, _) => ConnectKeeps(s, e);
    case CallbackWith(call, hash, session, now) =>
      if hash in s.rows && Pending(s.rows[hash], session, now) {
        GrantKeeps(s, call, hash, session, now);
      } else {
        RefuseKeeps(s, call, Refused);
      }
    case Count(call, session, now) =>
      RefuseKeeps(s, call, Ambiguous);
      RefuseKeeps(s, call, Counted(session, now));
    case TakeLatest(call) =>
      var p := s.calls[call];
      if h :| Latest(s.rows, p.session, p.now, h) {
        TakesLatest(s, call, h);
        GrantKeeps(s, call, h, p.session, p.now);
      } else {
        RefuseKeeps(s, call, Refused);
      }
    case Store(call) => StoreKeeps(s, call);
  }

  lemma {:induction false} RunKeeps(s: State, run: seq<Event>)
    requires Inv(s) && Run(s, run)
    ensures Inv(Exec(s, run))
    decreases |run|
  {
    if run != [] {
      StepKeeps(s, run[0]);
      RunKeeps(Next(s, run[0]), run[1..]);
    }
  }

  /**
   SINGLE USE: in every interleaving a nonce is consumed at most once, only for the session that
   started its connect, within the TTL of that connect; and there are never more connections than
   consumed nonces, each in the org its nonce was issued for.
   */
  lemma SingleUse(run: seq<Event>)
    requires Run(Fresh(), run)
    ensures var s := Exec(Fresh(), run);
            && (forall i, j | 0 <= i < j < |s.uses| :: s.uses[i].hash != s.uses[j].hash)
            && (forall i | 0 <= i < |s.uses| ::
                  var u := s.uses[i];
                  && u.hash in s.issued && s.issued[u.hash].session == u.session
                  && u.now < s.issued[u.hash].created + 3600)
            && |s.connections| <= |s.uses|
            && (forall i | 0 <= i < |s.connections| ::
                  var c := s.connections[i].call;
                  c in s.calls && s.calls[c].Stored? && s.calls[c].hash in s.issued
                  && s.connections[i].org == s.issued[s.calls[c].hash].org)
  {
    RunKeeps(Fresh(), run);
    var s := Exec(Fresh(), run);
    Larger(Done(s.calls), Taken(s.calls));
    forall i | 0 <= i < |s.uses|
      ensures UseOk(s, s.uses[i])
    {
    }
  }

  // ---------- the sweep ----------

  function Unswept(e: Event): Event {
    if e.Connect? then e.(sweeps := false) else e
  }

  function AllUnswept(run: seq<Event>): seq<Event>
    decreases |run|
  {
    if run == [] then [] else [Unswept(run[0])] + AllUnswept(run[1..])
  }

  function SweptUntil(w: int, e: Event): int {
    if e.Connect? && e.sweeps && e.time > w then e.time else w
  }

  /** The callback's clock reading is at most one instant older than the last sweep. */
  ghost predicate UpToDate(s: State, w: int, e: Event) {
    match e
    case CallbackWith(_, _, _, now) => w <= now + 1
    case Count(_, _, now) => w <= now + 1
    case TakeLatest(call) => call in s.calls && s.calls[call].Counted? && w <= s.calls[call].now + 1
    case _ => true
  }

  ghost predicate AllUpToDate(s: State, w: int, run: seq<Event>)
    requires Run(s, run)
    decreases |run|
  {
    run == [] || (UpToDate(s, w, run[0]) && AllUpToDate(Next(s, run[0]), SweptUntil(w, run[0]), run[1..]))
  }

  /** The plain table holds the swept one and, besides, only rows older than any live TTL. */
  ghost predicate Alike(s: State, p: State, w: int) {
    && p == s.(rows := p.rows)
    && (forall h | h in s.rows :: h in p.rows && p.rows[h] == s.rows[h])
    && (forall h | h in p.rows && h !in s.rows :: p.rows[h].created < w - TTL)
  }

  lemma SamePending(s: State, p: State, w: int, session: nat, now: int)
    requires Alike(s, p, w) && w <= now + 1
    ensures PendingRows(s.rows, session, now) == PendingRows(p.rows, session, now)
  {
  }

  lemma LatestUnique(rows: map<nat, Row>, session: nat, now: int, g: nat, h: nat)
    requires Latest(rows, session, now, g) && Latest(rows, session, now, h)
    ensures g == h
  {
  }

  lemma GrantAlike(s: State, p: State, w: int, call: nat, h: nat, session: nat, now: int)
    requires Alike(s, p, w) && h in s.rows
    ensures h in p.rows && Alike(Grant(s, call, h, session, now), Grant(p, call, h, session, now), w)
  {
  }

  lemma TakesLatest(s: State, call: nat, h: nat)
    requires Enabled(s, TakeLatest(call)) && Latest(s.rows, s.calls[call].session, s.calls[call].now, h)
    ensures Next(s, TakeLatest(call)) == Grant(s, call, h, s.calls[call].session, s.calls[call].now)
  {
    var c := s.calls[call];
    forall g | Latest(s.rows, c.session, c.now, g)
      ensures g == h
    {
      LatestUnique(s.rows, c.session, c.now, g, h);
    }
  }

  lemma SameLatest(s: State, p: State, w: int, session: nat, now: int, h: nat)
    requires Alike(s, p, w) && w <= now + 1
    ensures Latest(s.rows, session, now, h) <==> Latest(p.rows, session, now, h)
  {
    SamePending(s, p, w, session, now);
  }

  lemma TakeAlike(s: State, p: State, w: int, call: nat)
    requires Alike(s, p, w) && Enabled(s, TakeLatest(call)) && w <= s.calls[call].now + 1
    ensures Alike(Next(s, TakeLatest(call)), Next(p, TakeLatest(call)), w)
  {
    var c := s.calls[call];
    forall h
      ensures Latest(s.rows, c.session, c.now, h) <==> Latest(p.rows, c.session, c.now, h)
    {
      SameLatest(s, p, w, c.session, c.now, h);
    }
    if h :| Latest(s.rows, c.session, c.now, h) {
      TakesLatest(s, call, h);
      TakesLatest(p, call, h);
      GrantAlike(s, p, w, call, h, c.session, c.now);
    }
  }

  lemma StepAlike(s: State, p: State, w: int, e: Event)
    requires Alike(s, p, w) && Enabled(s, e) && UpToDate(s, w, e)
    ensures Enabled(p, Unswept(e)) && Alike(Next(s, e), Next(p, Unswept(e)), SweptUntil(w, e))
  {
    match e
    case Count(_, session, now) => SamePending(s, p, w, session, now);
    case TakeLatest(call) => TakeAlike(s, p, w, call);
    case _ =>
  }

  /**
   SWEEPING IS INVISIBLE: a run with sweeps and the same run without them make every accept and
   reject decision alike, store the same connections and consume the same nonces, as long as no
   callback decides on a clock reading older than a sweep.
   */
  lemma {:induction false} SweepingIsInvisible(s: State, p: State, w: int, run: seq<Event>)
    requires Alike(s, p, w) && Run(s, run) && AllUpToDate(s, w, run)
    ensures Run(p, AllUnswept(run))
    ensures var t, q := Exec(s, run), Exec(p, AllUnswept(run));
            t.calls == q.calls && t.uses == q.uses && t.connections == q.connections
    decreases |run|
  {
    if run != [] {
      StepAlike(s, p, w, run[0]);
      SweepingIsInvisible(Next(s, run[0]), Next(p, Unswept(run[0])), SweptUntil(w, run[0]), run[1..]);
      assert AllUnswept(run)[1..] == AllUnswept(run[1..]) && AllUnswept(run)[0] == Unswept(run[0]);
    }
  }

  // What a callback decides on a table: a state is accepted, the count refuses to guess, a row is taken.

  predicate Accepts(rows: map<nat, Row>, h: nat, session: nat, now: int) {
    h in rows && Pending(rows[h], session, now)
  }

  predicate RefusesToGuess(rows: map<nat, Row>, session: nat, now: int) {
    |PendingRows(rows, session, now)| > 1
  }

  function Young(rows: map<nat, Row>, session: nat, now: int, time: int): set<nat> {
    set h | h in rows && Pending(rows[h], session, now) && rows[h].created >= time - TTL
  }

  /** WHICH DECISIONS A SWEEP CHANGES, on any table: it turns a state it removed from accepted to refused,
      a refusal to guess into a guess when at most one row is left, a taken row into none. */
  lemma SweepChanges(rows: map<nat, Row>, time: int, session: nat, now: int, h: nat)
    ensures Accepts(Sweep(rows, time), h, session, now) != Accepts(rows, h, session, now) <==>
            Accepts(rows, h, session, now) && rows[h].created < time - TTL
    ensures RefusesToGuess(Sweep(rows, time), session, now) != RefusesToGuess(rows, session, now) <==>
            RefusesToGuess(rows, session, now) && |Young(rows, session, now, time)| <= 1
    ensures Latest(Sweep(rows, time), session, now, h) != Latest(rows, session, now, h) <==>
            Latest(rows, session, now, h) && rows[h].created < time - TTL
  {
    assert PendingRows(Sweep(rows, time), session, now) == Young(rows, session, now, time);
    Larger(Young(rows, session, now, time), PendingRows(rows, session, now));
    SweepLatest(rows, time, session, now, h);
  }

  /** The newest pending row survives a sweep or everything pending goes with it. */
  lemma SweepLatest(rows: map<nat, Row>, time: int, session: nat, now: int, h: nat)
    ensures Latest(Sweep(rows, time), session, now, h) <==>
            Latest(rows, session, now, h) && rows[h].created >= time - TTL
  {
    var swept := Sweep(rows, time);
    var before, after := PendingRows(rows, session, now), PendingRows(swept, session, now);
    assert forall g :: g in after <==> g in before && rows[g].created >= time - TTL;
    if Latest(swept, session, now, h) {
      forall g | g in before
        ensures rows[g].created < rows[h].created || (rows[g].created == rows[h].created && g <= h)
      {
        assert g in after || rows[g].created < time - TTL;
      }
    }
  }

  ghost predicate SameDecisions(rows: map<nat, Row>, time: int, session: nat, now: int, h: nat) {
    && Accepts(Sweep(rows, time), h, session, now) == Accepts(rows, h, session, now)
    && RefusesToGuess(Sweep(rows, time), session, now) == RefusesToGuess(rows, session, now)
    && Latest(Sweep(rows, time), session, now, h) == Latest(rows, session, now, h)
  }

  /** A sweep at `time` leaves every decision of a callback with reading `now` alone, on every table. */
  ghost predicate Harmless(time: int, now: int) {
    forall rows: map<nat, Row>, session: nat, h: nat :: SameDecisions(rows, time, session, now, h)
  }

  /** WHEN A SWEEP IS HARMLESS: exactly when it is at most one instant newer than the callback's reading. */
  lemma SweepHarmless(time: int, now: int)
    ensures Harmless(time, now) <==> time <= now + 1
  {
    if time <= now + 1 {
      forall rows: map<nat, Row>, session: nat, h: nat
        ensures SameDecisions(rows, time, session, now, h)
      {
        assert Young(rows, session, now, time) == PendingRows(rows, session, now);
        SweepChanges(rows, time, session, now, h);
      }
    } else {
      var rows := map[1 := Row(0, 0, now - TTL + 1, false)];
      SweepChanges(rows, time, 0, now, 1);
      assert !SameDecisions(rows, time, 0, now, 1);
    }
  }

  function SweptRun(session: nat, org: nat, other: nat, time: int, now: int, sweeps: bool): seq<Event> {
    [Connect(1, session, org, now - TTL + 1, true), Connect(2, other, org, time, sweeps),
     CallbackWith(1, 1, session, now)]
  }

  /** The run behind it, for every reading and every sweep newer by more: swept, the state is refused;
      unswept, it is granted. */
  lemma SweepTurnsAway(session: nat, org: nat, other: nat, time: int, now: int, sweeps: bool)
    requires time > now + 1
    ensures var run := SweptRun(session, org, other, time, now, sweeps);
            Run(Fresh(), run) && Exec(Fresh(), run).calls == map[1 := if sweeps then Refused else Granted(1, org)]
  {
    var run := SweptRun(session, org, other, time, now, sweeps);
    var s1 := Next(Fresh(), run[0]);
    var s2 := Next(s1, run[1]);
    assert 1 in s2.rows <==> !sweeps;
    ThreeSteps(Fresh(), run);
  }

  // ---------- the guess ----------

  ghost predicate ConnectedIn(run: seq<Event>, h: nat) {
    exists i :: 0 <= i < |run| && run[i].Connect? && run[i].hash == h
  }

  /** A row once issued is never issued again, and only ever loses: consumed or swept. */
  lemma StepLoses(s: State, e: Event, h: nat)
    requires Enabled(s, e)
    ensures h in s.issued ==> !(e.Connect? && e.hash == h) && h in Next(s, e).issued
    ensures h in s.issued && h in Next(s, e).rows && !Next(s, e).rows[h].consumed ==>
            h in s.rows && s.rows[h] == Next(s, e).rows[h]
    ensures h !in s.issued ==> (h in Next(s, e).issued <==> e.Connect? && e.hash == h)
  {
  }

  lemma {:induction false} RunLoses(s: State, run: seq<Event>, h: nat)
    requires Run(s, run)
    ensures h in s.issued ==> !ConnectedIn(run, h) && h in Exec(s, run).issued
    ensures h in s.issued && h in Exec(s, run).rows && !Exec(s, run).rows[h].consumed ==>
            h in s.rows && s.rows[h] == Exec(s, run).rows[h]
    ensures h !in s.issued ==> (h in Exec(s, run).issued <==> ConnectedIn(run, h))
    decreases |run|
  {
    if run != [] {
      StepLoses(s, run[0], h);
      RunLoses(Next(s, run[0]), run[1..], h);
      ConnectedHead(run, h);
    }
  }

  lemma ConnectedHead(run: seq<Event>, h: nat)
    requires run != []
    ensures ConnectedIn(run, h) <==> (run[0].Connect? && run[0].hash == h) || ConnectedIn(run[1..], h)
  {
    if i :| 0 <= i < |run[1..]| && run[1..][i].Connect? && run[1..][i].hash == h {
      assert run[i + 1] == run[1..][i];
    }
    if i :| 0 < i < |run| && run[i].Connect? && run[i].hash == h {
      assert run[1..][i - 1] == run[i];
    }
  }

  /**
   WHEN IT GUESSES: a callback without a state takes the one row it counted if and only if the row
   it takes was not issued by a connect between its count and its take.
   */
  lemma TakesWhatItCounted(s: State, call: nat, session: nat, now: int, between: seq<Event>, h: nat)
    requires Inv(s) && Enabled(s, Count(call, session, now))
    requires var c := Next(s, Count(call, session, now)); c.calls[call].Counted? && Run(c, between)
    requires var t := Exec(Next(s, Count(call, session, now)), between);
             call in t.calls && t.calls[call] == Counted(session, now) && Latest(t.rows, session, now, h)
    ensures PendingRows(s.rows, session, now) == {h} <==> !ConnectedIn(between, h)
  {
    var c := Next(s, Count(call, session, now));
    var t := Exec(c, between);
    StepKeeps(s, Count(call, session, now));
    RunKeeps(c, between);
    RunLoses(c, between, h);
    var counted := PendingRows(s.rows, session, now);
    assert h in t.issued;
    if h in s.issued {
      assert h in counted;
      forall g | g in counted
        ensures g == h
      {
        Larger({g, h}, counted);
      }
    }
  }

  function GuessRun(a: nat, b: nat, session: nat, first: int, second: int, now: int): seq<Event> {
    [Connect(1, session, a, first, true), Count(1, session, now), Connect(2, session, b, second, true), TakeLatest(1)]
  }

  /** With a connect in between, the count passes and the consumed nonce is another org's. */
  lemma GuessesAcrossConnect(a: nat, b: nat, session: nat, first: int, second: int, now: int)
    requires now - TTL < first <= second
    ensures Run(Fresh(), GuessRun(a, b, session, first, second, now))
    ensures Exec(Fresh(), GuessRun(a, b, session, first, second, now)).calls == map[1 := Granted(2, b)]
  {
    var run := GuessRun(a, b, session, first, second, now);
    var s0 := Fresh();
    var s1 := Next(s0, run[0]);
    assert PendingRows(s1.rows, session, now) == {1};
    var s2 := Next(s1, run[1]);
    var s3 := Next(s2, run[2]);
    var pending := PendingRows(s3.rows, session, now);
    assert 2 in pending && pending <= {1, 2};
    assert Latest(s3.rows, session, now, 2);
    TakesLatest(s3, 1, 2);
    FourSteps(s0, run);
  }

  lemma ThreeSteps(s: State, run: seq<Event>)
    requires |run| == 3
    requires Enabled(s, run[0]) && Enabled(Next(s, run[0]), run[1]) && Enabled(Next(Next(s, run[0]), run[1]), run[2])
    ensures Run(s, run) && Exec(s, run) == Next(Next(Next(s, run[0]), run[1]), run[2])
  {
    var s1 := Next(s, run[0]);
    var s2 := Next(s1, run[1]);
    var s3 := Next(s2, run[2]);
    assert run[2..][1..] == [] && run[1..][1..] == run[2..];
    assert Run(s3, []) && Exec(s3, []) == s3;
    assert Run(s2, run[2..]) && Exec(s2, run[2..]) == s3;
    assert Run(s1, run[1..]) && Exec(s1, run[1..]) == s3;
  }

  lemma FourSteps(s: State, run: seq<Event>)
    requires |run| == 4
    requires Enabled(s, run[0]) && Enabled(Next(s, run[0]), run[1]) && Enabled(Next(Next(s, run[0]), run[1]), run[2])
    requires Enabled(Next(Next(Next(s, run[0]), run[1]), run[2]), run[3])
    ensures Run(s, run) && Exec(s, run) == Next(Next(Next(Next(s, run[0]), run[1]), run[2]), run[3])
  {
    var s1 := Next(s, run[0]);
    var s2 := Next(s1, run[1]);
    var s3 := Next(s2, run[2]);
    var s4 := Next(s3, run[3]);
    assert run[3..][1..] == [] && run[2..][1..] == run[3..] && run[1..][1..] == run[2..];
    assert Run(s4, []) && Exec(s4, []) == s4;
    assert Run(s3, run[3..]) && Exec(s3, run[3..]) == s4;
    assert Run(s2, run[2..]) && Exec(s2, run[2..]) == s4;
    assert Run(s1, run[1..]) && Exec(s1, run[1..]) == s4;
  }

  // ---------- the table ----------

  /** The oauth_states rows, as the connect and callback statements write them. */
  class StateTable {
    var rows: map<nat, Row>

    /** Sweep, then INSERT ... ON CONFLICT DO NOTHING. */
    method Issue(hash: nat, session: nat, org: nat, time: int, sweeps: bool)
      modifies this
      ensures var kept := if sweeps then Sweep(old(rows), time) else old(rows);
              rows == if hash in kept then kept else kept[hash := Row(session, org, time, false)]
    {
      if sweeps {
        rows := Sweep(rows, time);
      }
      if hash !in rows {
        rows := rows[hash := Row(session, org, time, false)];
      }
    }

    /** The guarded UPDATE of a callback that presents its state. */
    method Consume(hash: nat, session: nat, now: int) returns (org: Option<nat>)
      modifies this
      ensures org.Some? <==> hash in old(rows) && Pending(old(rows)[hash], session, now)
      ensures org.Some? ==>
                org.value == old(rows)[hash].org && rows == old(rows)[hash := old(rows)[hash].(consumed := true)]
      ensures org.None? ==> rows == old(rows)
    {
      if hash in rows && !rows[hash].consumed && rows[hash].session == session && rows[hash].created > now - TTL {
        org := Some(rows[hash].org);
        rows := rows[hash := rows[hash].(consumed := true)];
      } else {
        org := None;
      }
    }

    /** The newest pending row of the session, by a scan in any order. */
    method FindLatest(session: nat, now: int) returns (found: Option<nat>)
      ensures found.Some? ==> Latest(rows, session, now, found.value)
      ensures found.None? <==> PendingRows(rows, session, now) == {}
    {
      var pending := PendingRows(rows, session, now);
      var todo := pending;
      found := None;
      while todo != {}
        invariant todo <= pending
        invariant found.None? <==> todo == pending
        invariant found.Some? ==> found.value in pending && forall g | g in pending - todo ::
                    rows[g].created < rows[found.value].created
                    || (rows[g].created == rows[found.value].created && g <= found.value)
        decreases todo
      {
        var h :| h in todo;
        todo := todo - {h};
        if found.None? || rows[h].created > rows[found.value].created
           || (rows[h].created == rows[found.value].created && h >= found.value) {
          found := Some(h);
        }
      }
    }

    /** The guarded UPDATE of a callback without a state. */
    method ConsumeLatest(session: nat, now: int) returns (taken: Option<nat>)
      modifies this
      ensures taken.Some? ==> Latest(old(rows), session, now, taken.value)
                              && rows == old(rows)[taken.value := old(rows)[taken.value].(consumed := true)]
      ensures taken.None? ==> PendingRows(old(rows), session, now) == {} && rows == old(rows)
    {
      taken := FindLatest(session, now);
      if taken.Some? {
        rows := rows[taken.value := rows[taken.value].(consumed := true)];
      }
    }
  }
}
