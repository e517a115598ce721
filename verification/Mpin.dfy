/**
 The MPIN try-reservation protocol.

 Every call takes the api clock, reserves a try with one guarded UPDATE, runs a slow
 hash check and then writes at most one more UPDATE (clear or lock).  Any number of
 calls interleave on one users row.  The module gives the row updates as functions and
 as a class, the protocol as a state machine over single statements, and proves how
 many guesses the lock lets through in a stretch of time.
 */
module Mpin {
  import opened Base

  const MAX_ATTEMPTS: nat := 5
  /** MPIN_LOCK_MINUTES in microseconds, the resolution of the database clock. */
  const LOCK: int := 15 * 60 * 1_000_000

  // ---------------------------------------------------------------- the users row

  datatype Row = Row(hash: Option<nat>, attempts: nat, lockedUntil: Option<int>)

  predicate LockOpen(until: Option<int>, now: int) {
    until.None? || until.value <= now
  }

  /** The WHERE clause of the reservation. */
  predicate CanReserve(row: Row, now: int) {
    row.hash.Some? && LockOpen(row.lockedUntil, now) && row.attempts < MAX_ATTEMPTS
  }

  function WithLock(row: Row, base: int): Row {
    row.(attempts := 0, lockedUntil := Some(base + LOCK))
  }

  function WithClear(row: Row): Row {
    row.(attempts := 0, lockedUntil := None)
  }

  datatype Response =
    | Accepted
    | NotSet
    | Locked(until: int)
    | Wrong(attemptsLeft: int)

  /** One users row, updated in place by the statements of the check. */
  class UserRow {
    var hash: Option<nat>
    var attempts: nat
    var lockedUntil: Option<int>

    function Value(): Row
      reads this
    {
      Row(hash, attempts, lockedUntil)
    }

    method Reserve(now: int) returns (reserved: Option<nat>)
      modifies this
      ensures reserved.Some? <==>
                old(hash).Some? && (old(lockedUntil).Some? ==> old(lockedUntil).value <= now) && old(attempts) < 5
      ensures reserved.None? ==> Value() == old(Value())
      ensures reserved.Some? ==>
                && reserved.value == old(attempts) + 1 <= MAX_ATTEMPTS
                && Value() == old(Value()).(attempts := reserved.value)
    {
      if hash.Some? && (lockedUntil.None? || lockedUntil.value <= now) && attempts < MAX_ATTEMPTS {
        attempts := attempts + 1;
        return Some(attempts);
      }
      return None;
    }

    method Lock(base: int) returns (until: int)
      modifies this
      ensures until == base + LOCK
      ensures Value() == WithLock(old(Value()), base)
    {
      until := base + LOCK;
      attempts, lockedUntil := 0, Some(until);
    }

    method Clear()
      modifies this
      ensures Value() == WithClear(old(Value()))
    {
      attempts, lockedUntil := 0, None;
    }

    /** A whole check with nothing interleaved: `start` is the api clock at entry, `now` the
        database clock, `right` the outcome of the hash check. */
    method Check(start: int, now: int, right: bool) returns (response: Response, realVerifies: nat)
      modifies this
      ensures realVerifies ==
                if old(hash).Some? && (old(lockedUntil).Some? ==> old(lockedUntil).value <= now) && old(attempts) < 5
                then 1 else 0
      ensures response.Accepted? <==> CanReserve(old(Value()), now) && right
      ensures response.NotSet? <==> old(hash).None?
      ensures response.Wrong? <==> CanReserve(old(Value()), now) && !right && old(attempts) + 1 < 5
      ensures response.Wrong? ==> response.attemptsLeft == 5 - attempts > 0
      ensures response.Accepted? ==> Value() == old(Value()).(attempts := 0, lockedUntil := None)
      // The fifth wrong guess locks from the call's own start; a refusal with the lock over, from now.
      ensures response.Locked? ==>
                && lockedUntil == Some(response.until)
                && response.until ==
                   if CanReserve(old(Value()), now) then start + 900_000_000
                   else if LockOpen(old(lockedUntil), now) then now + 900_000_000 else old(lockedUntil).value
      // A lock the database still holds is never extended or shortened by a refused call.
      ensures !LockOpen(old(lockedUntil), now) ==> Value() == old(Value())
      // Either the counter moved by one real verification, or it went back to zero.
      ensures attempts == old(attempts) + realVerifies || attempts == 0
      ensures attempts == 0 && old(attempts) > 0 && !response.Accepted? ==> response.Locked?
      ensures hash == old(hash)
      // It is the protocol's own steps, with no other call in flight.
      ensures start <= now ==> PlaysOut(old(Value()), start, now, right, Value(), realVerifies > 0)
    {
      ghost var row := Value();
      if start <= now {
        AloneEnds(row, start, now, right);
      }
      var reserved := Reserve(now);
      if reserved.None? {
        if hash.None? {
          return NotSet, 0;
        }
        var until := lockedUntil;
        if until.None? || until.value <= now {
          var u := Lock(now);
          return Locked(u), 0;
        }
        return Locked(until.value), 0;
      }
      if right {
        Clear();
        return Accepted, 1;
      }
      if reserved.value >= MAX_ATTEMPTS {
        var u := Lock(start);
        return Locked(u), 1;
      }
      return Wrong(MAX_ATTEMPTS - reserved.value), 1;
    }
  }

  // ---------------------------------------------------------------- the protocol

  datatype Phase =
    | Begun                                              // the api clock is taken
    | Reserved(attempt: nat)                             // the UPDATE matched
    | Refused                                            // the UPDATE matched no row
    | Seen(hash: Option<nat>, until: Option<int>)        // lock_state read the row
    | Passing                                            // right guess, clear not yet written
    | Locking(base: int)                                 // lock not yet written

  datatype Call = Call(start: int, phase: Phase)

  /** What happened to the row, in order. */
  datatype Entry =
    | DidReserve(t: int, id: nat)
    | DidVerify(t: int, id: nat)
    | DidLock(t: int)
    | DidClear(t: int)

  datatype State = State(now: int, row: Row, calls: map<nat, Call>, nextId: nat, log: seq<Entry>)

  datatype Event =
    | Tick(dt: nat)
    | Begin
    | TryReserve(id: nat)
    | ReadLock(id: nat)
    | Judge(id: nat)
    | Verify(id: nat, right: bool)
    | WriteClear(id: nat)
    | WriteLock(id: nat)
    | Store(newHash: nat)

  /** Every call in flight must finish within `budget` of its start. */
  predicate InBudget(calls: map<nat, Call>, now: int, budget: nat) {
    forall id | id in calls :: now <= calls[id].start + budget
  }

  predicate Enabled(s: State, e: Event, budget: nat) {
    match e
    case Tick(dt) => InBudget(s.calls, s.now + dt, budget)
    case Begin => true
    case TryReserve(id) => id in s.calls && s.calls[id].phase.Begun?
    case ReadLock(id) => id in s.calls && s.calls[id].phase.Refused?
    case Judge(id) => id in s.calls && s.calls[id].phase.Seen?
    case Verify(id, _) => id in s.calls && s.calls[id].phase.Reserved?
    case WriteClear(id) => id in s.calls && s.calls[id].phase.Passing?
    case WriteLock(id) => id in s.calls && s.calls[id].phase.Locking?
    case Store(_) => true
  }

  function Moved(s: State, id: nat, p: Phase): State
    requires id in s.calls
  {
    s.(calls := s.calls[id := s.calls[id].(phase := p)])
  }

  function Finished(s: State, id: nat): State {
    s.(calls := s.calls - {id})
  }

  function Logged(s: State, entry: Entry): State {
    s.(log := s.log + [entry])
  }

  function Next(s: State, e: Event, budget: nat): State
    requires Enabled(s, e, budget)
  {
    match e
    case Tick(dt) => s.(now := s.now + dt)
    case Begin => s.(calls := s.calls[s.nextId := Call(s.now, Begun)], nextId := s.nextId + 1)
    case TryReserve(id) =>
      if CanReserve(s.row, s.now) then
        var attempt := s.row.attempts + 1;
        Logged(Moved(s, id, Reserved(attempt)).(row := s.row.(attempts := attempt)), DidReserve(s.now, id))
      else
        Moved(s, id, Refused)
    case ReadLock(id) => Moved(s, id, Seen(s.row.hash, s.row.lockedUntil))
    case Judge(id) =>
      var seen := s.calls[id].phase;
      if seen.hash.Some? && LockOpen(seen.until, s.now) then Moved(s, id, Locking(s.now))
      else Finished(s, id)
    case Verify(id, right) =>
      var after := if right then Moved(s, id, Passing)
                   else if s.calls[id].phase.attempt >= MAX_ATTEMPTS then Moved(s, id, Locking(s.calls[id].start))
                   else Finished(s, id);
      Logged(after, DidVerify(s.now, id))
    case WriteClear(id) => Logged(Finished(s, id).(row := WithClear(s.row)), DidClear(s.now))
    case WriteLock(id) =>
      Logged(Finished(s, id).(row := WithLock(s.row, s.calls[id].phase.base)), DidLock(s.now))
    case Store(h) => Logged(s.(row := Row(Some(h), 0, None)), DidClear(s.now))
  }

  function Initial(now: int, hash: Option<nat>): State {
    State(now, Row(hash, 0, None), map[], 0, [])
  }

  predicate Legal(s: State, run: seq<Event>, budget: nat)
    decreases run
  {
    run == [] || (Enabled(s, run[0], budget) && Legal(Next(s, run[0], budget), run[1..], budget))
  }

  function Exec(s: State, run: seq<Event>, budget: nat): State
    requires Legal(s, run, budget)
    decreases run
  {
    if run == [] then s else Exec(Next(s, run[0], budget), run[1..], budget)
  }

  // ---------------------------------------------------------------- one call, alone

  /** The steps of a call that starts at `start`, tries at `now` and meets no other. */
  function Alone(row: Row, start: int, now: int, right: bool): seq<Event>
    requires start <= now
  {
    [Begin] + [Tick(now - start)] + [TryReserve(0)] +
    if CanReserve(row, now) then
      [Verify(0, right)] +
      (if right then [WriteClear(0)] else if row.attempts + 1 >= MAX_ATTEMPTS then [WriteLock(0)] else [])
    else
      [ReadLock(0)] + [Judge(0)] + (if row.hash.Some? && LockOpen(row.lockedUntil, now) then [WriteLock(0)] else [])
  }

  function Idle(row: Row, now: int): State {
    State(now, row, map[], 0, [])
  }

  ghost predicate Ends(s: State, run: seq<Event>, budget: nat, t: State) {
    Legal(s, run, budget) && Exec(s, run, budget) == t
  }

  /** Those steps are allowed, finish the call, leave this row and check the hash or not. */
  ghost predicate PlaysOut(row: Row, start: int, now: int, right: bool, after: Row, verified: bool)
    requires start <= now
  {
    exists t ::
      && Ends(Idle(row, start), Alone(row, start, now, right), now - start, t)
      && t.row == after && t.calls == map[] && (verified <==> exists i :: 0 <= i < |t.log| && t.log[i].DidVerify?)
  }

  lemma EndsStep(s: State, run: seq<Event>, budget: nat, t: State, e: Event)
    requires Ends(s, run, budget, t) && Enabled(t, e, budget)
    ensures Ends(s, run + [e], budget, Next(t, e, budget))
  {
    ExecSnoc(s, run, e, budget);
  }

  /** The call has taken the clock and time has passed. */
  function Waiting(row: Row, start: int, now: int, phase: Phase, log: seq<Entry>): State {
    State(now, row, map[0 := Call(start, phase)], 1, log)
  }

  lemma AloneTries(row: Row, start: int, now: int)
    requires start <= now
    ensures Ends(Idle(row, start), [Begin] + [Tick(now - start)] + [TryReserve(0)], now - start,
                 if CanReserve(row, now) then
                   Waiting(row.(attempts := row.attempts + 1), start, now, Reserved(row.attempts + 1),
                           [DidReserve(now, 0)])
                 else Waiting(row, start, now, Refused, []))
  {
    var s, budget := Idle(row, start), now - start;
    assert Ends(s, [], budget, s);
    EndsStep(s, [], budget, s, Begin);
    assert [] + [Begin] == [Begin];
    var t := Next(s, Begin, budget);
    assert t == Waiting(row, start, start, Begun, []);
    EndsStep(s, [Begin], budget, t, Tick(now - start));
    EndsStep(s, [Begin] + [Tick(now - start)], budget, Waiting(row, start, now, Begun, []), TryReserve(0));
  }

  function AfterGuess(row: Row, start: int, now: int, right: bool): Row {
    var taken := row.(attempts := row.attempts + 1);
    if right then row.(attempts := 0, lockedUntil := None)
    else if row.attempts + 1 >= MAX_ATTEMPTS then row.(attempts := 0, lockedUntil := Some(start + LOCK))
    else taken
  }

  lemma AloneGuesses(row: Row, start: int, now: int, right: bool)
    requires start <= now && CanReserve(row, now)
    ensures PlaysOut(row, start, now, right, AfterGuess(row, start, now, right), true)
  {
    var s, budget := Idle(row, start), now - start;
    var tried := [Begin] + [Tick(now - start)] + [TryReserve(0)];
    var taken := row.(attempts := row.attempts + 1);
    var t := Waiting(taken, start, now, Reserved(row.attempts + 1), [DidReserve(now, 0)]);
    AloneTries(row, start, now);
    EndsStep(s, tried, budget, t, Verify(0, right));
    var u := Next(t, Verify(0, right), budget);
    assert u.log[1].DidVerify?;
    var last := if right then [WriteClear(0)] else if row.attempts + 1 >= MAX_ATTEMPTS then [WriteLock(0)] else [];
    if last != [] {
      EndsStep(s, tried + [Verify(0, right)], budget, u, last[0]);
      var v := Next(u, last[0], budget);
      assert v.log[1] == u.log[1];
      assert tried + [Verify(0, right)] + last == Alone(row, start, now, right);
      assert v.calls == map[];
    } else {
      assert tried + [Verify(0, right)] == Alone(row, start, now, right);
      assert u.calls == map[];
    }
  }

  function AfterRefusal(row: Row, now: int): Row {
    if row.hash.Some? && LockOpen(row.lockedUntil, now) then row.(attempts := 0, lockedUntil := Some(now + LOCK))
    else row
  }

  lemma AloneRefused(row: Row, start: int, now: int, right: bool)
    requires start <= now && !CanReserve(row, now)
    ensures PlaysOut(row, start, now, right, AfterRefusal(row, now), false)
  {
    var s, budget := Idle(row, start), now - start;
    var tried := [Begin] + [Tick(now - start)] + [TryReserve(0)];
    AloneTries(row, start, now);
    EndsStep(s, tried, budget, Waiting(row, start, now, Refused, []), ReadLock(0));
    var t := Waiting(row, start, now, Seen(row.hash, row.lockedUntil), []);
    EndsStep(s, tried + [ReadLock(0)], budget, t, Judge(0));
    var u := Next(t, Judge(0), budget);
    if row.hash.Some? && LockOpen(row.lockedUntil, now) {
      EndsStep(s, tried + [ReadLock(0)] + [Judge(0)], budget, u, WriteLock(0));
      assert tried + [ReadLock(0)] + [Judge(0)] + [WriteLock(0)] == Alone(row, start, now, right);
      assert Next(u, WriteLock(0), budget).calls == map[];
    } else {
      assert tried + [ReadLock(0)] + [Judge(0)] == Alone(row, start, now, right);
      assert u.calls == map[];
    }
  }

  /** A NEW MPIN STARTS AFRESH, in any state: its hash, no tries counted, no lock, and a try may be reserved. */
  lemma StoreStartsAfresh(s: State, h: nat, budget: nat)
    ensures Enabled(s, Store(h), budget)
    ensures var t := Next(s, Store(h), budget);
            && t.row == Row(Some(h), 0, None) && t.calls == s.calls && t.now == s.now
            && forall id | id in t.calls && t.calls[id].phase.Begun? ::
                 Next(t, TryReserve(id), budget).calls[id].phase == Reserved(1)
  {
  }

  /** A CALL ALONE, whatever the row: what the protocol's own steps leave. */
  lemma AloneEnds(row: Row, start: int, now: int, right: bool)
    requires start <= now
    ensures if CanReserve(row, now) then PlaysOut(row, start, now, right, AfterGuess(row, start, now, right), true)
            else PlaysOut(row, start, now, right, AfterRefusal(row, now), false)
  {
    if CanReserve(row, now) {
      AloneGuesses(row, start, now, right);
    } else {
      AloneRefused(row, start, now, right);
    }
  }

  // ---------------------------------------------------------------- invariants

  /** Reservations since the last lock or clear: what the counter must hold. */
  ghost function Since(log: seq<Entry>): nat {
    if log == [] then 0
    else
      var init := log[..|log| - 1];
      match log[|log| - 1]
      case DidReserve(_, _) => Since(init) + 1
      case DidVerify(_, _) => Since(init)
      case DidLock(_) => 0
      case DidClear(_) => 0
  }

  /** The time before which the last lock, if no clear followed it, forbids reservations. */
  ghost function Floor(log: seq<Entry>, gap: int): Option<int> {
    if log == [] then None
    else
      var init := log[..|log| - 1];
      match log[|log| - 1]
      case DidReserve(_, _) => Floor(init, gap)
      case DidVerify(_, _) => Floor(init, gap)
      case DidLock(t) => Some(t + gap)
      case DidClear(_) => None
  }

  ghost predicate Guarded(log: seq<Entry>, gap: int)
    decreases |log|
  {
    log == [] ||
    var init, last := log[..|log| - 1], log[|log| - 1];
    && Guarded(init, gap)
    && (last.DidReserve? ==> Since(init) < MAX_ATTEMPTS && LockOpen(Floor(init, gap), last.t))
  }

  ghost predicate Sorted(log: seq<Entry>) {
    forall i, j | 0 <= i < j < |log| :: log[i].t <= log[j].t
  }

  ghost predicate LogBounded(log: seq<Entry>, now: int) {
    forall i | 0 <= i < |log| :: log[i].t <= now
  }

  /** A verification follows the one reservation of its call, at most `budget` later. */
  ghost predicate Matches(log: seq<Entry>, r: int, v: int, budget: nat) {
    && 0 <= r < v < |log|
    && log[r].DidReserve? && log[v].DidVerify? && log[r].id == log[v].id
    && log[v].t - budget <= log[r].t <= log[v].t
  }

  ghost predicate Reservation(log: seq<Entry>, r: int, id: nat) {
    0 <= r < |log| && log[r].DidReserve? && log[r].id == id
  }

  ghost predicate Verification(log: seq<Entry>, v: int, id: nat) {
    0 <= v < |log| && log[v].DidVerify? && log[v].id == id
  }

  ghost predicate Paired(log: seq<Entry>, budget: nat) {
    && (forall v | 0 <= v < |log| && log[v].DidVerify? :: exists r :: Matches(log, r, v, budget))
    && (forall id, i, j | Reservation(log, i, id) && Reservation(log, j, id) :: i == j)
    && (forall id, i, j | Verification(log, i, id) && Verification(log, j, id) :: i == j)
  }

  /** What the phase of a call says about the log and the clock. */
  ghost predicate CallOk(s: State, id: nat, budget: nat)
    requires id in s.calls
  {
    var c := s.calls[id];
    && id < s.nextId
    && c.start <= s.now <= c.start + budget
    && (c.phase.Begun? ==> forall r :: !Reservation(s.log, r, id))
    && (c.phase.Reserved? ==> exists r :: Reservation(s.log, r, id) && c.start <= s.log[r].t)
    && (c.phase.Begun? || c.phase.Reserved? ==> forall v :: !Verification(s.log, v, id))
    && (c.phase.Locking? ==> c.start <= c.phase.base)
  }

  ghost predicate Inv(s: State, budget: nat) {
    && s.row.attempts == Since(s.log) <= MAX_ATTEMPTS
    && (Floor(s.log, LOCK - budget).Some? ==>
          s.row.lockedUntil.Some? && Floor(s.log, LOCK - budget).value <= s.row.lockedUntil.value)
    && Guarded(s.log, LOCK - budget)
    && Sorted(s.log) && LogBounded(s.log, s.now)
    && Paired(s.log, budget)
    && (forall i | 0 <= i < |s.log| && (s.log[i].DidReserve? || s.log[i].DidVerify?) :: s.log[i].id < s.nextId)
    && (forall id | id in s.calls :: CallOk(s, id, budget))
  }

  // ---------------------------------------------------------------- every step keeps the invariants

  lemma PairedGrows(log: seq<Entry>, e: Entry, budget: nat)
    requires Paired(log, budget)
    requires e.DidReserve? ==> forall r :: !Reservation(log, r, e.id)
    requires e.DidVerify? ==> forall v :: !Verification(log, v, e.id)
    requires e.DidVerify? ==> exists r :: Reservation(log, r, e.id) && e.t - budget <= log[r].t <= e.t
    ensures Paired(log + [e], budget)
  {
    var longer := log + [e];
    forall v | 0 <= v < |longer| && longer[v].DidVerify?
      ensures exists r :: Matches(longer, r, v, budget)
    {
      if v < |log| {
        var r :| Matches(log, r, v, budget);
        assert Matches(longer, r, v, budget);
      } else {
        var r :| Reservation(log, r, e.id) && e.t - budget <= log[r].t <= e.t;
        assert Matches(longer, r, v, budget);
      }
    }
    assert forall id, i :: Reservation(longer, i, id) && i < |log| ==> Reservation(log, i, id);
    assert forall id, i :: Verification(longer, i, id) && i < |log| ==> Verification(log, i, id);
  }

  /** A call that does not move keeps its clauses when an entry of another call is logged. */
  lemma CallKeeps(s: State, t: State, id: nat, budget: nat)
    requires id in s.calls && CallOk(s, id, budget)
    requires id in t.calls && t.calls[id] == s.calls[id]
    requires t.now == s.now && t.nextId >= s.nextId
    requires t.log == s.log || exists e :: t.log == s.log + [e] && (e.DidReserve? || e.DidVerify? ==> e.id != id)
    ensures CallOk(t, id, budget)
  {
    assert forall r :: Reservation(t.log, r, id) <==> Reservation(s.log, r, id);
    assert forall v :: Verification(t.log, v, id) <==> Verification(s.log, v, id);
  }

  lemma KeepsBegin(s: State, budget: nat)
    requires Inv(s, budget)
    ensures Inv(Next(s, Begin, budget), budget)
  {
    var t := Next(s, Begin, budget);
    forall id | id in t.calls
      ensures CallOk(t, id, budget)
    {
      if id != s.nextId {
        CallKeeps(s, t, id, budget);
      }
    }
  }

  lemma KeepsTick(s: State, dt: nat, budget: nat)
    requires Inv(s, budget) && Enabled(s, Tick(dt), budget)
    ensures Inv(Next(s, Tick(dt), budget), budget)
  {
    var t := Next(s, Tick(dt), budget);
    forall id | id in t.calls
      ensures CallOk(t, id, budget)
    {
      assert CallOk(s, id, budget);
    }
  }

  /** What the counter and the lock's bar make of one more reservation or hash check. */
  lemma LogStaysGuarded(log: seq<Entry>, e: Entry, gap: int)
    requires Guarded(log, gap) && (e.DidReserve? || e.DidVerify?)
    requires e.DidReserve? ==> Since(log) < MAX_ATTEMPTS && LockOpen(Floor(log, gap), e.t)
    ensures Guarded(log + [e], gap) && Floor(log + [e], gap) == Floor(log, gap)
    ensures Since(log + [e]) == Since(log) + if e.DidReserve? then 1 else 0
  {
    assert (log + [e])[..|log|] == log;
  }

  lemma LogStaysOrdered(s: State, e: Entry)
    requires Sorted(s.log) && LogBounded(s.log, s.now) && e.t == s.now
    ensures Sorted(s.log + [e]) && LogBounded(s.log + [e], s.now)
  {
  }

  /** Logging a reservation or a hash check, with the row changed to match it. */
  lemma KeepsLog(s: State, t: State, e: Entry, budget: nat)
    requires Inv(s, budget)
    requires t.log == s.log + [e] && t.now == s.now == e.t && t.nextId == s.nextId
    requires e.DidReserve? || e.DidVerify?
    requires e.id < s.nextId
    requires e.DidReserve? ==> CanReserve(s.row, s.now) && t.row == s.row.(attempts := s.row.attempts + 1)
    requires e.DidReserve? ==> forall r :: !Reservation(s.log, r, e.id)
    requires e.DidVerify? ==> t.row == s.row
    requires e.DidVerify? ==> forall v :: !Verification(s.log, v, e.id)
    requires e.DidVerify? ==> exists r :: Reservation(s.log, r, e.id) && e.t - budget <= s.log[r].t
    requires forall id | id in t.calls :: CallOk(t, id, budget)
    ensures Inv(t, budget)
  {
    LogStaysGuarded(s.log, e, LOCK - budget);
    LogStaysOrdered(s, e);
    PairedGrows(s.log, e, budget);
  }

  lemma KeepsMove(s: State, id: nat, p: Phase, budget: nat)
    requires Inv(s, budget) && id in s.calls
    requires CallOk(Moved(s, id, p), id, budget)
    ensures Inv(Moved(s, id, p), budget)
  {
    var t := Moved(s, id, p);
    forall other | other in t.calls
      ensures CallOk(t, other, budget)
    {
      if other != id {
        CallKeeps(s, t, other, budget);
      }
    }
  }

  lemma KeepsFinish(s: State, id: nat, budget: nat)
    requires Inv(s, budget)
    ensures Inv(Finished(s, id), budget)
  {
    forall other | other in Finished(s, id).calls
      ensures CallOk(Finished(s, id), other, budget)
    {
      CallKeeps(s, Finished(s, id), other, budget);
    }
  }

  lemma KeepsReserve(s: State, id: nat, budget: nat)
    requires Inv(s, budget) && Enabled(s, TryReserve(id), budget)
    ensures Inv(Next(s, TryReserve(id), budget), budget)
  {
    assert CallOk(s, id, budget);
    if !CanReserve(s.row, s.now) {
      KeepsMove(s, id, Refused, budget);
      return;
    }
    var t := Next(s, TryReserve(id), budget);
    var e := DidReserve(s.now, id);
    forall other | other in t.calls
      ensures CallOk(t, other, budget)
    {
      if other != id {
        CallKeeps(s, t, other, budget);
      } else {
        assert Reservation(t.log, |s.log|, id);
        assert forall v :: Verification(t.log, v, id) ==> Verification(s.log, v, id);
      }
    }
    KeepsLog(s, t, e, budget);
  }

  lemma KeepsVerify(s: State, id: nat, right: bool, budget: nat)
    requires Inv(s, budget) && Enabled(s, Verify(id, right), budget)
    ensures Inv(Next(s, Verify(id, right), budget), budget)
  {
    assert CallOk(s, id, budget);
    var t := Next(s, Verify(id, right), budget);
    forall other | other in t.calls
      ensures CallOk(t, other, budget)
    {
      if other != id {
        CallKeeps(s, t, other, budget);
      }
    }
    KeepsLog(s, t, DidVerify(s.now, id), budget);
  }

  /** Calls that stay put keep their clauses when a lock or a clear is logged. */
  lemma CallsKeep(s: State, t: State, e: Entry, budget: nat)
    requires Inv(s, budget) && (e.DidLock? || e.DidClear?)
    requires t.log == s.log + [e] && t.now == s.now && t.nextId == s.nextId
    requires forall id | id in t.calls :: id in s.calls && t.calls[id] == s.calls[id]
    ensures forall id | id in t.calls :: CallOk(t, id, budget)
  {
    forall id | id in t.calls
      ensures CallOk(t, id, budget)
    {
      CallKeeps(s, t, id, budget);
    }
  }

  lemma KeepsLock(s: State, id: nat, budget: nat)
    requires Inv(s, budget) && Enabled(s, WriteLock(id), budget)
    ensures Inv(Next(s, WriteLock(id), budget), budget)
  {
    var t := Next(s, WriteLock(id), budget);
    var base := s.calls[id].phase.base;
    assert CallOk(s, id, budget);
    CallsKeep(s, t, DidLock(s.now), budget);
    LockEntry(s, t, base, budget);
  }

  lemma LockEntry(s: State, t: State, base: int, budget: nat)
    requires Inv(s, budget) && s.now - budget <= base
    requires t.row == WithLock(s.row, base) && t.log == s.log + [DidLock(s.now)]
    requires t.now == s.now && t.nextId == s.nextId
    requires forall id | id in t.calls :: CallOk(t, id, budget)
    ensures Inv(t, budget)
  {
    assert t.log[..|t.log| - 1] == s.log;
    PairedGrows(s.log, DidLock(s.now), budget);
  }

  lemma KeepsClear(s: State, e: Event, budget: nat)
    requires Inv(s, budget) && Enabled(s, e, budget) && (e.WriteClear? || e.Store?)
    ensures Inv(Next(s, e, budget), budget)
  {
    var t := Next(s, e, budget);
    CallsKeep(s, t, DidClear(s.now), budget);
    ClearEntry(s, t, budget);
  }

  lemma ClearEntry(s: State, t: State, budget: nat)
    requires Inv(s, budget)
    requires t.row.attempts == 0 && t.log == s.log + [DidClear(s.now)] && t.now == s.now && t.nextId == s.nextId
    requires forall id | id in t.calls :: CallOk(t, id, budget)
    ensures Inv(t, budget)
  {
    assert t.log[..|t.log| - 1] == s.log;
    PairedGrows(s.log, DidClear(s.now), budget);
  }

  lemma StepKeepsInv(s: State, e: Event, budget: nat)
    requires Inv(s, budget) && Enabled(s, e, budget)
    ensures Inv(Next(s, e, budget), budget)
  {
    match e
    case Tick(dt) => KeepsTick(s, dt, budget);
    case Begin => KeepsBegin(s, budget);
    case TryReserve(id) => KeepsReserve(s, id, budget);
    case Verify(id, right) => KeepsVerify(s, id, right, budget);
    case WriteClear(_) => KeepsClear(s, e, budget);
    case WriteLock(id) => KeepsLock(s, id, budget);
    case Store(_) => KeepsClear(s, e, budget);
    case ReadLock(id) =>
      assert CallOk(s, id, budget);
      KeepsMove(s, id, Seen(s.row.hash, s.row.lockedUntil), budget);
    case Judge(id) =>
      assert CallOk(s, id, budget);
      if s.calls[id].phase.hash.Some? && LockOpen(s.calls[id].phase.until, s.now) {
        KeepsMove(s, id, Locking(s.now), budget);
      } else {
        KeepsFinish(s, id, budget);
      }
  }

  lemma {:induction false} RunKeepsInv(s: State, run: seq<Event>, budget: nat)
    requires Inv(s, budget) && Legal(s, run, budget)
    ensures Inv(Exec(s, run, budget), budget)
    decreases run
  {
    if run != [] {
      StepKeepsInv(s, run[0], budget);
      RunKeepsInv(Next(s, run[0], budget), run[1..], budget);
    }
  }

  // ---------------------------------------------------------------- how many tries get through

  ghost function Reservations(log: seq<Entry>, from: int, to: int): set<int> {
    set k | 0 <= k < |log| && log[k].DidReserve? && from <= log[k].t < to
  }

  ghost function Verifications(log: seq<Entry>, from: int, to: int): set<int> {
    set k | 0 <= k < |log| && log[k].DidVerify? && from <= log[k].t < to
  }

  ghost predicate NoClear(log: seq<Entry>, from: int, to: int) {
    forall k | 0 <= k < |log| && log[k].DidClear? :: !(from <= log[k].t < to)
  }

  ghost predicate LockedSince(log: seq<Entry>, from: int) {
    exists k :: 0 <= k < |log| && log[k].DidLock? && from <= log[k].t
  }

  lemma GuardedCap(log: seq<Entry>, gap: int)
    requires Guarded(log, gap)
    ensures Since(log) <= MAX_ATTEMPTS
    decreases |log|
  {
    if log != [] {
      GuardedCap(log[..|log| - 1], gap);
    }
  }

  /** Before the first lock of the stretch the counter pays for every reservation, after it the
      floor keeps the rest of the stretch empty. */
  ghost predicate Capped(log: seq<Entry>, gap: int, from: int) {
    && |Reservations(log, from, from + gap)| <= MAX_ATTEMPTS
    && (!LockedSince(log, from) ==> |Reservations(log, from, from + gap)| <= Since(log))
    && (LockedSince(log, from) ==> Floor(log, gap).Some? && from + gap <= Floor(log, gap).value)
  }

  lemma LockedSnoc(log: seq<Entry>, e: Entry, from: int)
    ensures LockedSince(log + [e], from) <==> LockedSince(log, from) || (e.DidLock? && from <= e.t)
  {
    if k :| 0 <= k < |log| && log[k].DidLock? && from <= log[k].t {
      assert (log + [e])[k] == log[k];
    }
    assert (log + [e])[|log|] == e;
  }

  lemma ReservationsSnoc(log: seq<Entry>, e: Entry, from: int, to: int)
    ensures Reservations(log + [e], from, to) ==
            Reservations(log, from, to) + (if e.DidReserve? && from <= e.t < to then {|log|} else {})
  {
    assert forall k | 0 <= k < |log| :: (log + [e])[k] == log[k];
  }

  lemma SnocFigures(log: seq<Entry>, e: Entry, gap: int)
    ensures (log + [e])[..|log + [e]| - 1] == log && (log + [e])[|log + [e]| - 1] == e
    ensures Since(log + [e]) == match e
                                case DidReserve(_, _) => Since(log) + 1
                                case DidVerify(_, _) => Since(log)
                                case _ => 0
    ensures Floor(log + [e], gap) == match e
                                     case DidLock(t) => Some(t + gap)
                                     case DidClear(_) => None
                                     case _ => Floor(log, gap)
  {
    assert (log + [e])[..|log|] == log;
  }

  /** Nothing at or after `from` means no reservation in the stretch and no lock since. */
  lemma NothingYet(log: seq<Entry>, gap: int, from: int)
    requires forall k | 0 <= k < |log| :: log[k].t < from
    ensures Reservations(log, from, from + gap) == {} && !LockedSince(log, from)
  {
  }

  lemma CappedSnoc(log: seq<Entry>, e: Entry, gap: int, from: int)
    requires Capped(log, gap, from) && Guarded(log + [e], gap) && Sorted(log + [e])
    requires e.t < from + gap && !(e.DidClear? && from <= e.t)
    ensures Capped(log + [e], gap, from)
  {
    SnocFigures(log, e, gap);
    LockedSnoc(log, e, from);
    ReservationsSnoc(log, e, from, from + gap);
    GuardedCap(log + [e], gap);
    if e.t < from {
      assert forall k | 0 <= k < |log| :: log[k] == (log + [e])[k] && log[k].t <= (log + [e])[|log|].t;
      NothingYet(log, gap, from);
    }
  }

  lemma {:induction false} WindowCap(log: seq<Entry>, gap: int, from: int)
    requires Guarded(log, gap) && Sorted(log)
    requires forall k | 0 <= k < |log| :: log[k].t < from + gap
    requires NoClear(log, from, from + gap)
    ensures Capped(log, gap, from)
    decreases |log|
  {
    if log == [] {
      NothingYet(log, gap, from);
    } else {
      var n := |log| - 1;
      WindowCap(log[..n], gap, from);
      assert log == log[..n] + [log[n]];
      CappedSnoc(log[..n], log[n], gap, from);
    }
  }

  /** Cutting the log at the end of a stretch changes neither its reservations nor its clears. */
  lemma CutAt(log: seq<Entry>, gap: int, to: int) returns (n: nat)
    requires Sorted(log) && Guarded(log, gap)
    ensures n <= |log|
    ensures forall k | 0 <= k < n :: log[k].t < to
    ensures forall k | n <= k < |log| :: to <= log[k].t
    ensures Guarded(log[..n], gap)
    decreases |log|
  {
    if log == [] || log[|log| - 1].t < to {
      n := |log|;
      assert log[..n] == log;
    } else {
      n := CutAt(log[..|log| - 1], gap, to);
      assert log[..|log| - 1][..n] == log[..n];
    }
  }

  lemma ReservationCap(log: seq<Entry>, gap: int, from: int)
    requires Guarded(log, gap) && Sorted(log) && NoClear(log, from, from + gap)
    ensures |Reservations(log, from, from + gap)| <= MAX_ATTEMPTS
  {
    var n := CutAt(log, gap, from + gap);
    var cut := log[..n];
    assert Reservations(cut, from, from + gap) == Reservations(log, from, from + gap);
    WindowCap(cut, gap, from);
  }

  ghost function Source(log: seq<Entry>, v: int, budget: nat): (r: int)
    requires Paired(log, budget) && 0 <= v < |log| && log[v].DidVerify?
    ensures Matches(log, r, v, budget)
  {
    var r :| Matches(log, r, v, budget);
    r
  }

  lemma VerifiesAreReserved(log: seq<Entry>, from: int, to: int, budget: nat)
    requires Paired(log, budget)
    ensures |Verifications(log, from, to)| <= |Reservations(log, from - budget, to)|
  {
    var a, b := Verifications(log, from, to), Reservations(log, from - budget, to);
    var f := map v | v in a :: Source(log, v, budget);
    forall x, y | x in a && y in a && f[x] == f[y]
      ensures x == y
    {
      assert Verification(log, x, log[f[x]].id) && Verification(log, y, log[f[x]].id);
    }
    Injects(a, b, f);
  }

  // ---------------------------------------------------------------- neither stretch can be longer

  ghost predicate Reaches(s: State, t: State, budget: nat) {
    exists run :: Legal(s, run, budget) && Exec(s, run, budget) == t
  }

  lemma {:induction false} ExecSnoc(s: State, run: seq<Event>, e: Event, budget: nat)
    requires Legal(s, run, budget) && Enabled(Exec(s, run, budget), e, budget)
    ensures Legal(s, run + [e], budget)
    ensures Exec(s, run + [e], budget) == Next(Exec(s, run, budget), e, budget)
    decreases run
  {
    if run == [] {
      assert run + [e] == [e];
      assert Legal(Next(s, e, budget), [e][1..], budget);
    } else {
      assert (run + [e])[1..] == run[1..] + [e];
      ExecSnoc(Next(s, run[0], budget), run[1..], e, budget);
    }
  }

  lemma ReachStep(s: State, t: State, e: Event, budget: nat)
    requires Reaches(s, t, budget) && Enabled(t, e, budget)
    ensures Reaches(s, Next(t, e, budget), budget)
  {
    var run :| Legal(s, run, budget) && Exec(s, run, budget) == t;
    ExecSnoc(s, run, e, budget);
  }

  /** A new call begins and reserves a try. */
  ghost function Guess(t: State): State {
    Logged(t.(calls := t.calls[t.nextId := Call(t.now, Reserved(t.row.attempts + 1))],
              nextId := t.nextId + 1,
              row := t.row.(attempts := t.row.attempts + 1)),
           DidReserve(t.now, t.nextId))
  }

  /** `k` new calls begin and reserve a try each, all at one instant. */
  ghost function Burst(t: State, k: nat): (u: State)
    ensures u.now == t.now && u.nextId == t.nextId + k && u.row == t.row.(attempts := t.row.attempts + k)
    ensures |u.log| == |t.log| + k && u.log[..|t.log|] == t.log
    ensures forall i | |t.log| <= i < |u.log| :: u.log[i] == DidReserve(t.now, t.nextId + i - |t.log|)
    ensures forall id :: id in u.calls <==> id in t.calls || t.nextId <= id < t.nextId + k
    ensures forall id | t.nextId <= id < t.nextId + k ::
              u.calls[id] == Call(t.now, Reserved(t.row.attempts + 1 + id - t.nextId))
    ensures forall id | id in t.calls && id < t.nextId :: u.calls[id] == t.calls[id]
  {
    if k == 0 then t else Guess(Burst(t, k - 1))
  }

  lemma ReachGuess(s: State, u: State, budget: nat)
    requires Reaches(s, u, budget) && CanReserve(u.row, u.now)
    ensures Reaches(s, Guess(u), budget)
  {
    var b := Next(u, Begin, budget);
    ReachStep(s, u, Begin, budget);
    ReachStep(s, b, TryReserve(u.nextId), budget);
    var r := Next(b, TryReserve(u.nextId), budget);
    assert r.calls == Guess(u).calls;
    assert r == Guess(u);
  }

  lemma {:induction false} ReachBurst(s: State, t: State, k: nat, budget: nat)
    requires Reaches(s, t, budget) && t.row.hash.Some? && LockOpen(t.row.lockedUntil, t.now)
    requires t.row.attempts + k <= MAX_ATTEMPTS
    ensures Reaches(s, Burst(t, k), budget)
  {
    if k > 0 {
      ReachBurst(s, t, k - 1, budget);
      ReachGuess(s, Burst(t, k - 1), budget);
    }
  }

  /** The `k` calls from `first` on find their guesses wrong, below the cap. */
  ghost function AllWrong(t: State, first: nat, k: nat): (u: State)
    ensures u.now == t.now && u.nextId == t.nextId && u.row == t.row
    ensures |u.log| == |t.log| + k && u.log[..|t.log|] == t.log
    ensures forall i | |t.log| <= i < |u.log| :: u.log[i] == DidVerify(t.now, first + i - |t.log|)
    ensures forall id :: id in u.calls <==> id in t.calls && !(first <= id < first + k)
    ensures forall id | id in u.calls :: u.calls[id] == t.calls[id]
  {
    if k == 0 then t
    else var u := AllWrong(t, first, k - 1); Logged(Finished(u, first + k - 1), DidVerify(u.now, first + k - 1))
  }

  lemma {:induction false} ReachAllWrong(s: State, t: State, first: nat, k: nat, budget: nat)
    requires Reaches(s, t, budget)
    requires forall id | first <= id < first + k ::
               id in t.calls && t.calls[id].phase.Reserved? && t.calls[id].phase.attempt < MAX_ATTEMPTS
    ensures Reaches(s, AllWrong(t, first, k), budget)
  {
    if k > 0 {
      ReachAllWrong(s, t, first, k - 1, budget);
      ReachStep(s, AllWrong(t, first, k - 1), Verify(first + k - 1, false), budget);
    }
  }

  /** A call begins, then a whole budget passes. */
  lemma EarlyCall(h: nat, budget: nat) returns (t: State)
    ensures Reaches(Initial(0, Some(h)), t, budget)
    ensures t == State(budget, Row(Some(h), 0, None), map[0 := Call(0, Begun)], 1, [])
  {
    var s := Initial(0, Some(h));
    assert Reaches(s, s, budget) by { assert Legal(s, [], budget) && Exec(s, [], budget) == s; }
    ReachStep(s, s, Begin, budget);
    var a := Next(s, Begin, budget);
    ReachStep(s, a, Tick(budget), budget);
    t := Next(a, Tick(budget), budget);
  }

  /** The call that began first takes the fifth try and locks from its own, early, clock. */
  lemma FifthLocks(s: State, t: State, budget: nat) returns (u: State)
    requires Reaches(s, t, budget) && 0 in t.calls && t.calls[0] == Call(0, Begun)
    requires CanReserve(t.row, t.now) && t.row.attempts == 4
    ensures Reaches(s, u, budget)
    ensures u == t.(calls := t.calls - {0}, row := t.row.(attempts := 0, lockedUntil := Some(LOCK)),
                    log := t.log + [DidReserve(t.now, 0), DidVerify(t.now, 0), DidLock(t.now)])
  {
    ReachStep(s, t, TryReserve(0), budget);
    var a := Next(t, TryReserve(0), budget);
    ReachStep(s, a, Verify(0, false), budget);
    var b := Next(a, Verify(0, false), budget);
    ReachStep(s, b, WriteLock(0), budget);
    u := Next(b, WriteLock(0), budget);
    assert u.calls == t.calls - {0};
  }

  /** Four calls reserve at once; the fifth try belongs to a call whose clock was taken a whole
      budget earlier, so it locks until LOCK, not until LOCK + budget. */
  lemma SlowLocker(h: nat, budget: nat) returns (t: State)
    requires budget <= LOCK
    ensures Reaches(Initial(0, Some(h)), t, budget)
    ensures t.now == budget && t.row == Row(Some(h), 0, Some(LOCK)) && t.nextId == 5
    ensures forall id :: id in t.calls <==> 1 <= id <= 4
    ensures forall id | 1 <= id <= 4 :: t.calls[id] == Call(budget, Reserved(id))
    ensures |t.log| == 7
    ensures forall i | 0 <= i < 5 :: t.log[i].DidReserve? && t.log[i].t == budget
    ensures t.log[5] == DidVerify(budget, 0) && t.log[6] == DidLock(budget)
  {
    var a := EarlyCall(h, budget);
    ReachBurst(Initial(0, Some(h)), a, 4, budget);
    t := FifthLocks(Initial(0, Some(h)), Burst(a, 4), budget);
  }

  /** Two budgets, or the whole lock when it is shorter. */
  function Twice(budget: nat): int {
    if 2 * budget <= LOCK then 2 * budget else LOCK
  }

  /** The four find their guesses wrong as late as they may; the lock then runs out. */
  lemma LockRunsOut(h: nat, budget: nat) returns (t: State)
    requires budget <= LOCK
    ensures Reaches(Initial(0, Some(h)), t, budget)
    ensures t.now == LOCK && t.row == Row(Some(h), 0, Some(LOCK)) && t.nextId == 5
    ensures |t.log| == 11
    ensures forall i | 0 <= i < 5 :: t.log[i].DidReserve? && t.log[i].t == budget
    ensures t.log[5].DidVerify? && t.log[6].DidLock?
    ensures forall i | 7 <= i < 11 :: t.log[i].DidVerify? && t.log[i].t == Twice(budget)
  {
    var s := Initial(0, Some(h));
    var a := SlowLocker(h, budget);
    ReachStep(s, a, Tick(Twice(budget) - budget), budget);
    var b := a.(now := Twice(budget));
    ReachAllWrong(s, b, 1, 4, budget);
    var c := AllWrong(b, 1, 4);
    assert c.log[..7] == a.log;
    ReachStep(s, c, Tick(LOCK - Twice(budget)), budget);
    t := c.(now := LOCK);
  }

  /** Both bounds are exact: one microsecond more and a run has seven reservations, or six
      hash checks, with no correct guess anywhere. */
  lemma LockIsNoLonger(h: nat, budget: nat) returns (t: State)
    requires budget <= LOCK
    ensures Reaches(Initial(0, Some(h)), t, budget)
    ensures forall from, to :: NoClear(t.log, from, to)
    ensures |Reservations(t.log, budget, LOCK + 1)| > MAX_ATTEMPTS
    ensures |Verifications(t.log, Twice(budget), LOCK + 1)| > MAX_ATTEMPTS
  {
    var s := Initial(0, Some(h));
    var a := LockRunsOut(h, budget);
    ReachBurst(s, a, 2, budget);
    var b := Burst(a, 2);
    ReachAllWrong(s, b, 5, 2, budget);
    t := AllWrong(b, 5, 2);
    assert b.log[..11] == a.log && t.log[..13] == b.log;
    assert t.log[..11] == a.log;
    TooMany(t.log, budget);
  }

  lemma TooMany(log: seq<Entry>, budget: nat)
    requires budget <= LOCK && |log| == 15
    requires forall i | 0 <= i < 5 :: log[i].DidReserve? && log[i].t == budget
    requires log[11].DidReserve? && log[11].t == LOCK
    requires forall i | 7 <= i < 11 :: log[i].DidVerify? && log[i].t == Twice(budget)
    requires forall i | 13 <= i < 15 :: log[i].DidVerify? && log[i].t == LOCK
    ensures |Reservations(log, budget, LOCK + 1)| > MAX_ATTEMPTS
    ensures |Verifications(log, Twice(budget), LOCK + 1)| > MAX_ATTEMPTS
  {
    Larger({0, 1, 2, 3, 4, 11}, Reservations(log, budget, LOCK + 1));
    Larger({7, 8, 9, 10, 13, 14}, Verifications(log, Twice(budget), LOCK + 1));
  }

  // ---------------------------------------------------------------- exactly which stretches are safe

  /** The log of some run. */
  ghost predicate IsLog(log: seq<Entry>, budget: nat) {
    exists now: int, hash: Option<nat>, run: seq<Event> ::
      Legal(Initial(now, hash), run, budget) && Exec(Initial(now, hash), run, budget).log == log
  }

  /** In every run, every stretch of length `w` without a clear reserves at most five tries. */
  ghost predicate ReserveSafe(w: int, budget: nat) {
    forall log, from, to | IsLog(log, budget) && to == from + w && NoClear(log, from, to) ::
      |Reservations(log, from, to)| <= MAX_ATTEMPTS
  }

  /** The same by hash check, for stretches with no clear in them or in the budget before them. */
  ghost predicate VerifySafe(w: int, budget: nat) {
    forall log, early, from, to
      | IsLog(log, budget) && early == from - budget && to == from + w && NoClear(log, early, to) ::
      |Verifications(log, from, to)| <= MAX_ATTEMPTS
  }

  lemma IsLogInv(log: seq<Entry>, budget: nat)
    requires IsLog(log, budget)
    ensures Guarded(log, LOCK - budget) && Sorted(log) && Paired(log, budget)
  {
    var now: int, hash: Option<nat>, run: seq<Event> :|
      Legal(Initial(now, hash), run, budget) && Exec(Initial(now, hash), run, budget).log == log;
    RunKeepsInv(Initial(now, hash), run, budget);
  }

  lemma {:induction false} GuardedWeaker(log: seq<Entry>, gap: int, less: int)
    requires Guarded(log, gap) && less <= gap
    ensures Guarded(log, less)
    ensures Floor(log, less).Some? <==> Floor(log, gap).Some?
    ensures Floor(log, gap).Some? ==> Floor(log, less).value == Floor(log, gap).value - gap + less
    decreases |log|
  {
    if log != [] {
      GuardedWeaker(log[..|log| - 1], gap, less);
    }
  }

  /** THE LOCK, by reservation: whatever interleaves, the stretches that are safe are exactly
      those no longer than the lock less the call budget. */
  lemma ExactReserveStretch(w: int, budget: nat)
    requires budget <= LOCK
    ensures ReserveSafe(w, budget) <==> w <= LOCK - budget
  {
    if w <= LOCK - budget {
      forall log, from, to | IsLog(log, budget) && to == from + w && NoClear(log, from, to)
        ensures |Reservations(log, from, to)| <= MAX_ATTEMPTS
      {
        IsLogInv(log, budget);
        GuardedWeaker(log, LOCK - budget, w);
        ReservationCap(log, w, from);
      }
    } else {
      var t := LockIsNoLonger(0, budget);
      assert IsLog(t.log, budget);
      assert NoClear(t.log, budget, budget + w);
      Larger(Reservations(t.log, budget, LOCK + 1), Reservations(t.log, budget, budget + w));
    }
  }

  /** THE LOCK, by hash check: a guess may be checked up to a budget after it was reserved, so
      the safe stretch is a second budget shorter, and empty once two budgets outlast the lock. */
  lemma ExactVerifyStretch(w: int, budget: nat)
    requires budget <= LOCK
    ensures VerifySafe(w, budget) <==> w <= LOCK - Twice(budget)
  {
    if w <= 0 {
      forall log, from, to | to == from + w
        ensures Verifications(log, from, to) == {}
      {
      }
    } else if w <= LOCK - Twice(budget) {
      forall log, early, from, to
        | IsLog(log, budget) && early == from - budget && to == from + w && NoClear(log, early, to)
        ensures |Verifications(log, from, to)| <= MAX_ATTEMPTS
      {
        IsLogInv(log, budget);
        GuardedWeaker(log, LOCK - budget, w + budget);
        VerifiesAreReserved(log, from, to, budget);
        ReservationCap(log, w + budget, early);
      }
    } else {
      var t := LockIsNoLonger(0, budget);
      assert IsLog(t.log, budget);
      var from := Twice(budget);
      assert NoClear(t.log, from - budget, from + w);
      Larger(Verifications(t.log, from, LOCK + 1), Verifications(t.log, from, from + w));
    }
  }
}
