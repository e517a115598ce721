/** The deal-history backfill: which account gets the tick, and which window it fetches. */
module Backfill {
  import opened Base

  const WEEK_MS: nat := 7 * 24 * 3600 * 1000
  const YEAR_MS: nat := 365 * 24 * 3600 * 1000

  // ---------- one account's walk ----------

  datatype Row = Row(from: int, to: int, exhausted: bool)

  predicate ReachedBound(from: int, now: int, years: nat) {
    now - from >= years * YEAR_MS
  }

  function NextWindow(state: Option<Row>, now: int, years: nat): Option<(int, int)> {
    if state.None? then Some((now - WEEK_MS, now))
    else
      var s := state.value;
      if s.exhausted then
        // A stored 0 reads as missing.
        if s.to >= now || s.to == 0 then None
        else Some((s.to, if now < s.to + WEEK_MS then now else s.to + WEEK_MS))
      else if ReachedBound(s.from, now, years) then None
      else Some((s.from - WEEK_MS, s.from))
  }

  function Advance(state: Option<Row>, w: (int, int), now: int, years: nat): Row {
    var exhausted := (state.Some? && state.value.exhausted) || ReachedBound(w.0, now, years);
    if state.None? then Row(w.0, w.1, exhausted)
    else Row(if w.0 < state.value.from then w.0 else state.value.from,
             if w.1 > state.value.to then w.1 else state.value.to, exhausted)
  }

  // The account's row and the windows fetched for it, oldest fetch first.
  datatype Walk = Walk(row: Option<Row>, fetched: seq<(int, int)>)

  // One tick that reached the account; `ok` is false when the fetch failed.
  datatype Tick = Tick(now: int, ok: bool)

  function Step(k: Walk, t: Tick, years: nat): Walk {
    var w := NextWindow(k.row, t.now, years);
    if w.None? || !t.ok then k
    else Walk(Some(Advance(k.row, w.value, t.now, years)), k.fetched + [w.value])
  }

  function Ticks(k: Walk, run: seq<Tick>, years: nat): Walk
    decreases |run|
  {
    if run == [] then k else Step(Ticks(k, run[..|run| - 1], years), run[|run| - 1], years)
  }

  ghost predicate Monotone(run: seq<Tick>) {
    forall i, j | 0 <= i <= j < |run| :: run[i].now <= run[j].now
  }

  ghost predicate Reached(fetched: seq<(int, int)>, time: int) {
    exists i :: 0 <= i < |fetched| && fetched[i].0 <= time <= fetched[i].1
  }

  /** No gap: every moment between the watermarks was inside a fetched window of at most a week. */
  ghost predicate NoGap(k: Walk) {
    && (forall i | 0 <= i < |k.fetched| :: 0 <= k.fetched[i].1 - k.fetched[i].0 <= 604_800_000)
    && (k.row.None? ==> k.fetched == [])
    && (k.row.Some? ==>
          && k.row.value.from <= k.row.value.to
          && (forall time | k.row.value.from <= time <= k.row.value.to :: Reached(k.fetched, time))
          && (forall i | 0 <= i < |k.fetched| ::
                k.row.value.from <= k.fetched[i].0 && k.fetched[i].1 <= k.row.value.to))
  }

  lemma StepNoGap(k: Walk, t: Tick, years: nat)
    requires NoGap(k)
    ensures NoGap(Step(k, t, years))
  {
    var u := Step(k, t, years);
    var w := NextWindow(k.row, t.now, years);
    if u != k {
      forall time | u.row.value.from <= time <= u.row.value.to
        ensures Reached(u.fetched, time)
      {
        if w.value.0 <= time <= w.value.1 {
          assert u.fetched[|k.fetched|] == w.value;
        } else {
          assert Reached(k.fetched, time);
          var i :| 0 <= i < |k.fetched| && k.fetched[i].0 <= time <= k.fetched[i].1;
          assert u.fetched[i] == k.fetched[i];
        }
      }
    }
  }

  /** The two watermarks always bound exactly what was fetched, over every run of ticks. */
  lemma {:induction false} WalkHasNoGap(run: seq<Tick>, years: nat)
    ensures NoGap(Ticks(Walk(None, []), run, years))
    decreases |run|
  {
    if run != [] {
      WalkHasNoGap(run[..|run| - 1], years);
      StepNoGap(Ticks(Walk(None, []), run[..|run| - 1], years), run[|run| - 1], years);
    }
  }

  /** Stuck: not marked exhausted, yet past the bound where the walk back stops. */
  predicate Stuck(k: Walk, now: int, years: nat) {
    k.row.Some? && !k.row.value.exhausted && ReachedBound(k.row.value.from, now, years)
  }

  /**
   WHEN AN ACCOUNT GETS NO WINDOW: exactly when it is exhausted and caught up, or stuck; and a
   stuck account never gets a window again, so its later deals are never fetched.
   */
  lemma {:induction false} NoWindow(k: Walk, now: int, years: nat, later: seq<Tick>)
    requires Monotone(later) && forall i | 0 <= i < |later| :: now <= later[i].now
    ensures NextWindow(k.row, now, years).None? <==>
            || (k.row.Some? && k.row.value.exhausted && (k.row.value.to >= now || k.row.value.to == 0))
            || Stuck(k, now, years)
    ensures Stuck(k, now, years) ==> Ticks(k, later, years) == k
    decreases |later|
  {
    if later != [] {
      var n := |later| - 1;
      NoWindow(k, now, years, later[..n]);
    }
  }

  ghost predicate AllGood(run: seq<Tick>) {
    forall i | 0 <= i < |run| :: run[i].ok
  }

  /** Where `n` good ticks walk back to. */
  function WalkedTo(first: int, n: nat): int {
    first - n * WEEK_MS
  }

  /** Any monotone run of good ticks short of the bound walks back a week a tick and is not exhausted. */
  lemma {:induction false} WalksBack(run: seq<Tick>, years: nat)
    requires run != [] && Monotone(run) && AllGood(run)
    requires !ReachedBound(WalkedTo(run[0].now, |run|), run[|run| - 1].now, years)
    ensures Ticks(Walk(None, []), run, years).row == Some(Row(WalkedTo(run[0].now, |run|), run[0].now, false))
    decreases |run|
  {
    var n := |run| - 1;
    if n == 0 {
      assert run[..0] == [];
      assert Ticks(Walk(None, []), run[..0], years) == Walk(None, []);
    } else {
      assert run[n - 1].now <= run[n].now;
      assert WalkedTo(run[0].now, |run|) == WalkedTo(run[0].now, n) - WEEK_MS;
      WalksBack(run[..n], years);
    }
  }

  /**
   THE WALK GETS STUCK: any monotone run of good ticks that stops short of the bound, followed by ticks
   that all come once the clock alone has passed it, leaves the account as it is for ever: never
   exhausted, and with nothing newer than the first tick fetched.
   */
  lemma WalkGetsStuck(run: seq<Tick>, later: seq<Tick>, years: nat)
    requires run != [] && Monotone(run) && AllGood(run) && Monotone(later)
    requires !ReachedBound(WalkedTo(run[0].now, |run|), run[|run| - 1].now, years)
    requires forall i | 0 <= i < |later| :: ReachedBound(WalkedTo(run[0].now, |run|), later[i].now, years)
    ensures var k := Ticks(Walk(None, []), run, years);
            && k.row == Some(Row(WalkedTo(run[0].now, |run|), run[0].now, false))
            && Ticks(k, later, years) == k
  {
    WalksBack(run, years);
    var k := Ticks(Walk(None, []), run, years);
    if later != [] {
      NoWindow(k, later[0].now, years, later);
    }
  }

  /** A week's outage is always enough: for every bound and every start some run of good ticks at one
      moment stops less than a week short of it. */
  lemma OutageIsEnough(now: int, years: nat) returns (run: seq<Tick>)
    requires years > 0
    ensures run != [] && Monotone(run) && AllGood(run) && run[0].now == run[|run| - 1].now == now
    ensures !ReachedBound(WalkedTo(now, |run|), now, years) && ReachedBound(WalkedTo(now, |run|), now + WEEK_MS, years)
  {
    var n := (years * YEAR_MS - 1) / WEEK_MS;
    assert n * WEEK_MS < years * YEAR_MS <= n * WEEK_MS + WEEK_MS;
    run := seq(n, _ => Tick(now, true));
  }

  // ---------- an exhausted account catches up ----------

  ghost predicate Least(x: int, a: int, b: int) {
    x <= a && x <= b && (x == a || x == b)
  }

  /** One good tick of an exhausted account behind the clock fetches the next week, or up to now. */
  lemma CatchUpStep(k: Walk, now: int, years: nat)
    requires k.row.Some? && k.row.value.exhausted && k.row.value.to < now && k.row.value.to != 0
    ensures var r, u := k.row.value, Step(k, Tick(now, true), years);
            && u.row.Some? && u.row.value.exhausted && Least(u.row.value.to, now, r.to + WEEK_MS)
            && u.row.value.from == (if r.to < r.from then r.to else r.from)
            && u.fetched == k.fetched + [(r.to, u.row.value.to)]
  {
  }

  /** `n` good ticks at one moment. */
  function GoodTicks(now: int, n: nat): (run: seq<Tick>)
    ensures |run| == n && forall i | 0 <= i < n :: run[i] == Tick(now, true)
  {
    if n == 0 then [] else GoodTicks(now, n - 1) + [Tick(now, true)]
  }

  lemma OneMoreTick(k: Walk, now: int, n: nat, years: nat)
    requires n > 0
    ensures Ticks(k, GoodTicks(now, n), years) == Step(Ticks(k, GoodTicks(now, n - 1), years), Tick(now, true), years)
  {
    assert GoodTicks(now, n)[..n - 1] == GoodTicks(now, n - 1);
  }

  lemma OneMoreWeek(n: nat)
    requires n > 0
    ensures n * WEEK_MS == (n - 1) * WEEK_MS + WEEK_MS
  {
  }

  /** CATCHES UP: `n` good ticks at one moment bring an exhausted account `n` weeks on, or up to that moment. */
  lemma {:induction false} CatchesUp(k: Walk, now: int, n: nat, years: nat)
    requires k.row.Some? && k.row.value.exhausted && 0 < k.row.value.to <= now
    ensures var u := Ticks(k, GoodTicks(now, n), years);
            u.row.Some? && u.row.value.exhausted && Least(u.row.value.to, now, k.row.value.to + n * WEEK_MS)
    decreases n
  {
    if n > 0 {
      CatchesUp(k, now, n - 1, years);
      OneMoreTick(k, now, n, years);
      OneMoreWeek(n);
      var before := Ticks(k, GoodTicks(now, n - 1), years);
      if before.row.value.to < now {
        CatchUpStep(before, now, years);
      } else {
        CaughtUp(before, now, years);
      }
    }
  }

  lemma CaughtUp(k: Walk, now: int, years: nat)
    requires k.row.Some? && k.row.value.exhausted && k.row.value.to >= now
    ensures Step(k, Tick(now, true), years) == k
  {
  }

  lemma FirstStep(now: int, years: nat)
    ensures Step(Walk(None, []), Tick(now, true), years).row ==
            Some(Row(now - WEEK_MS, now, WEEK_MS >= years * YEAR_MS))
  {
  }

  lemma StepBack(k: Walk, from: int, now: int, years: nat)
    requires k.row == Some(Row(from, now, false)) && from <= now && now - from < years * YEAR_MS
    ensures Step(k, Tick(now, true), years).row ==
            Some(Row(from - WEEK_MS, now, now - from + WEEK_MS >= years * YEAR_MS))
  {
    assert NextWindow(k.row, now, years) == Some((from - WEEK_MS, from));
  }

  /** The account has everything from `n` weeks back up to now, or from where the bound was reached. */
  ghost predicate WalkedBack(r: Row, now: int, n: nat, years: nat) {
    && r.to == now
    && (if n * 604_800_000 < years * 31_536_000_000 then r.from == now - n * 604_800_000 && !r.exhausted
        else r.exhausted && now - r.from >= years * 31_536_000_000)
  }

  /** THE WALK BACK ENDS: good ticks at one moment walk back a week each, and exactly those that reach the bound
      exhaust the account. */
  lemma {:induction false} WalkFinishes(now: int, n: nat, years: nat)
    requires n > 0
    ensures var u := Ticks(Walk(None, []), GoodTicks(now, n), years);
            u.row.Some? && WalkedBack(u.row.value, now, n, years)
    decreases n
  {
    OneMoreTick(Walk(None, []), now, n, years);
    OneMoreWeek(n);
    if n == 1 {
      FirstStep(now, years);
    } else {
      WalkFinishes(now, n - 1, years);
      var k := Ticks(Walk(None, []), GoodTicks(now, n - 1), years);
      if k.row.value.exhausted {
        CaughtUp(k, now, years);
      } else {
        StepBack(k, now - (n - 1) * WEEK_MS, now, years);
      }
    }
  }

  // ---------- the rotation ----------

  /** Whether each account, in id order, has a window and a client at this tick. */
  type Due = seq<bool>

  function FirstDue(due: Due, start: nat, offset: nat): Option<nat>
    requires |due| > 0 && offset <= |due|
    decreases |due| - offset
  {
    if offset == |due| then None
    else if due[(start + offset) % |due|] then Some((start + offset) % |due|)
    else FirstDue(due, start, offset + 1)
  }

  class Rotation {
    var cursor: nat

    /** One tick: the account chosen, if any. The cursor moves on whatever is found. */
    method Choose(due: Due) returns (chosen: Option<nat>)
      requires |due| > 0
      modifies this
      ensures chosen == FirstDue(due, old(cursor) % |due|, 0)
      ensures chosen.Some? ==> IsFirst(due, old(cursor) % |due|, chosen.value)
      ensures cursor == old(cursor) % |due| + 1
      ensures chosen.None? <==> forall i | 0 <= i < |due| :: !due[i]
    {
      var start := cursor % |due|;
      cursor := start + 1;
      var offset := 0;
      while offset < |due|
        invariant 0 <= offset <= |due|
        invariant FirstDue(due, start, 0) == FirstDue(due, start, offset)
        invariant forall k: nat | k < offset :: !DueAt(due, start, k)
      {
        var i := (start + offset) % |due|;
        if due[i] {
          assert DueAt(due, start, offset) && i == (start + offset) % |due|;
          assert IsFirst(due, start, i);
          FirstDueIsNone(due, start);
          return Some(i);
        }
        offset := offset + 1;
      }
      FirstDueIsNone(due, start);
      return None;
    }
  }

  predicate DueAt(due: Due, start: nat, k: nat)
    requires |due| > 0
  {
    due[(start + k) % |due|]
  }

  /** Counting round from the start, this account is due and none before it is. */
  ghost predicate IsFirst(due: Due, start: nat, i: nat)
    requires |due| > 0
  {
    exists k: nat :: k < |due| && i == (start + k) % |due| && DueAt(due, start, k)
                     && forall j: nat | j < k :: !DueAt(due, start, j)
  }

  lemma {:induction false} NoneFrom(due: Due, start: nat, offset: nat)
    requires |due| > 0 && offset <= |due|
    ensures FirstDue(due, start, offset).None? <==> forall k: nat | offset <= k < |due| :: !DueAt(due, start, k)
    decreases |due| - offset
  {
    if offset < |due| {
      NoneFrom(due, start, offset + 1);
      assert DueAt(due, start, offset) <==> due[(start + offset) % |due|];
    }
  }

  /** A scan passes over every account once: it finds none only when none is due. */
  lemma FirstDueIsNone(due: Due, start: nat)
    requires start < |due|
    ensures FirstDue(due, start, 0).None? <==> forall i | 0 <= i < |due| :: !due[i]
  {
    NoneFrom(due, start, 0);
    forall i | 0 <= i < |due|
      ensures FirstDue(due, start, 0).None? ==> !due[i]
    {
      var k := if i >= start then i - start else i + |due| - start;
      Wraps(start + k, i, |due|);
      assert DueAt(due, start, k) == due[i];
    }
  }

  lemma Wraps(a: nat, i: nat, n: nat)
    requires 0 <= i < n && (a == i || a == i + n)
    ensures a % n == i
  {
  }

  function CursorAfter(cursor: nat, n: nat, k: nat): nat
    requires n > 0
  {
    if k == 0 then cursor else CursorAfter(cursor, n, k - 1) % n + 1
  }

  function Chosen(cursor: nat, dues: seq<Due>, k: nat): Option<nat>
    requires k < |dues| && |dues[k]| > 0
  {
    FirstDue(dues[k], CursorAfter(cursor, |dues[k]|, k) % |dues[k]|, 0)
  }

  lemma {:induction false} CursorTurns(cursor: nat, n: nat, k: nat)
    requires n > 0 && k < n
    ensures var c := cursor % n;
            CursorAfter(cursor, n, k) % n == if c + k < n then c + k else c + k - n
  {
    if k > 0 {
      CursorTurns(cursor, n, k - 1);
      var p := CursorAfter(cursor, n, k - 1) % n;
      if p + 1 < n {
        Wraps(p + 1, p + 1, n);
      } else {
        Wraps(p + 1, 0, n);
      }
    }
  }

  /**
   STARVATION-FREE: over any n consecutive ticks on n accounts, an account that is due at every
   one of them is chosen at one of them, whatever the others offer.
   */
  lemma EveryoneIsChosen(cursor: nat, dues: seq<Due>, i: nat)
    requires |dues| > 0 && i < |dues|
    requires forall k | 0 <= k < |dues| :: |dues[k]| == |dues| && dues[k][i]
    ensures exists k :: 0 <= k < |dues| && Chosen(cursor, dues, k) == Some(i)
  {
    var n := |dues|;
    var c := cursor % n;
    var k := if i >= c then i - c else i + n - c;
    CursorTurns(cursor, n, k);
    Wraps(i, i, n);
    assert Chosen(cursor, dues, k) == Some(i);
  }
}
