/** Folding a quotes tick into an accounts snapshot. */
module Ticks {
  import opened Base

  // A JavaScript field that may be absent or null.
  datatype Field = Undefined | Null | Value(v: real)

  datatype Position = Position(id: nat, price: Field, pnl: Field, rest: nat)

  datatype Account = Account(equity: Field, openPnl: Field, positions: Option<seq<Position>>, rest: nat)

  datatype Mark = Mark(id: nat, price: Field, pnl: Field)

  datatype Tick = Tick(equity: Field, openPnl: Field, marks: seq<Mark>)

  type Snapshot = map<nat, Account>

  function OrNull(f: Field): Field {
    if f == Undefined then Null else f
  }

  function Over(tick: Field, current: Field): Field {
    if tick == Undefined then current else tick
  }

  /** The last mark for a position, as building a Map from the list leaves it. */
  function MarkOf(marks: seq<Mark>, id: nat): Option<Mark> {
    if marks == [] then None
    else if marks[|marks| - 1].id == id then Some(marks[|marks| - 1])
    else MarkOf(marks[..|marks| - 1], id)
  }

  function Rows(a: Account): seq<Position> {
    if a.positions.Some? then a.positions.value else []
  }

  // ---------- the pointwise specification ----------

  /** The tick says something new about this position. */
  predicate PositionDiffers(p: Position, marks: seq<Mark>) {
    var m := MarkOf(marks, p.id);
    && m.Some?
    && (Over(m.value.price, OrNull(p.price)) != OrNull(p.price) || Over(m.value.pnl, OrNull(p.pnl)) != OrNull(p.pnl))
  }

  function Marked(p: Position, marks: seq<Mark>): Position {
    if !PositionDiffers(p, marks) then p
    else
      var m := MarkOf(marks, p.id).value;
      p.(price := Over(m.price, OrNull(p.price)), pnl := Over(m.pnl, OrNull(p.pnl)))
  }

  predicate AccountDiffers(a: Account, t: Tick) {
    || Over(t.equity, a.equity) != a.equity || Over(t.openPnl, a.openPnl) != a.openPnl
    || exists i :: 0 <= i < |Rows(a)| && PositionDiffers(Rows(a)[i], t.marks)
  }

  function MarkedRows(rows: seq<Position>, marks: seq<Mark>): (r: seq<Position>)
    ensures |r| == |rows| && forall i | 0 <= i < |rows| :: r[i] == Marked(rows[i], marks)
  {
    if rows == [] then [] else MarkedRows(rows[..|rows| - 1], marks) + [Marked(rows[|rows| - 1], marks)]
  }

  function Ticked(a: Account, t: Tick): Account {
    if !AccountDiffers(a, t) then a
    else a.(equity := Over(t.equity, a.equity), openPnl := Over(t.openPnl, a.openPnl),
            positions := Some(MarkedRows(Rows(a), t.marks)))
  }

  predicate SnapshotDiffers(s: Snapshot, ticks: map<nat, Tick>) {
    exists id :: id in ticks && id in s && AccountDiffers(s[id], ticks[id])
  }

  function Merged(s: Snapshot, ticks: map<nat, Tick>): Snapshot {
    map id | id in s :: if id in ticks then Ticked(s[id], ticks[id]) else s[id]
  }

  // ---------- the loops ----------

  method MarkRows(rows: seq<Position>, marks: seq<Mark>) returns (r: seq<Position>, changed: bool)
    ensures r == MarkedRows(rows, marks)
    ensures changed <==> exists i :: 0 <= i < |rows| && PositionDiffers(rows[i], marks)
  {
    r, changed := [], false;
    var i := 0;
    while i < |rows|
      invariant 0 <= i <= |rows|
      invariant r == MarkedRows(rows[..i], marks)
      invariant changed <==> exists j :: 0 <= j < i && PositionDiffers(rows[j], marks)
    {
      var p := rows[i];
      var m := MarkOf(marks, p.id);
      assert rows[..i + 1][..i] == rows[..i];
      if m.Some? {
        var price := Over(m.value.price, OrNull(p.price));
        var pnl := Over(m.value.pnl, OrNull(p.pnl));
        if price == OrNull(p.price) && pnl == OrNull(p.pnl) {
          r := r + [p];
        } else {
          changed := true;
          r := r + [p.(price := price, pnl := pnl)];
        }
      } else {
        r := r + [p];
      }
      i := i + 1;
    }
    assert rows[..i] == rows;
  }

  /** `changed` is false exactly when the original snapshot itself is handed back. */
  method MergeTicksIntoSnapshot(s: Snapshot, ticks: map<nat, Tick>) returns (next: Snapshot, changed: bool)
    ensures next == Merged(s, ticks)
    ensures changed <==> SnapshotDiffers(s, ticks)
  {
    next, changed := s, false;
    var todo := ticks.Keys;
    while todo != {}
      invariant todo <= ticks.Keys && next.Keys == s.Keys
      invariant forall id | id in s ::
                  next[id] == if id in ticks && id !in todo then Ticked(s[id], ticks[id]) else s[id]
      invariant changed <==> exists id :: id in ticks && id !in todo && id in s && AccountDiffers(s[id], ticks[id])
      decreases todo
    {
      var id :| id in todo;
      todo := todo - {id};
      if id in s {
        var prev, tick := s[id], ticks[id];
        var equity := Over(tick.equity, prev.equity);
        var openPnl := Over(tick.openPnl, prev.openPnl);
        var accountChanged := equity != prev.equity || openPnl != prev.openPnl;
        var rows, moved := MarkRows(Rows(prev), tick.marks);
        if accountChanged || moved {
          next := next[id := prev.(equity := equity, openPnl := openPnl, positions := Some(rows))];
          changed := true;
        }
      }
    }
    if !changed {
      next := s;
    }
  }

  // ---------- what the merge promises ----------

  lemma {:induction false} LastMarkWins(marks: seq<Mark>, id: nat)
    ensures MarkOf(marks, id).Some? <==> exists i :: 0 <= i < |marks| && marks[i].id == id
    ensures forall i | 0 <= i < |marks| && marks[i].id == id && (forall j | i < j < |marks| :: marks[j].id != id) ::
              MarkOf(marks, id) == Some(marks[i])
    decreases |marks|
  {
    if marks != [] && marks[|marks| - 1].id != id {
      var n := |marks| - 1;
      LastMarkWins(marks[..n], id);
      forall i | 0 <= i < |marks| && marks[i].id == id && (forall j | i < j < |marks| :: marks[j].id != id)
        ensures MarkOf(marks, id) == Some(marks[i])
      {
        assert i < n && marks[..n][i] == marks[i];
        assert forall j | i < j < n :: marks[..n][j].id != id;
      }
      if i :| 0 <= i < |marks| && marks[i].id == id {
        assert marks[..n][i].id == id;
      }
    } else if marks != [] {
      assert marks[|marks| - 1].id == id;
    }
  }

  lemma MarkedTwice(p: Position, marks: seq<Mark>)
    ensures !PositionDiffers(Marked(p, marks), marks)
  {
  }

  lemma TickedTwice(a: Account, t: Tick)
    ensures !AccountDiffers(Ticked(a, t), t)
  {
    var u := Ticked(a, t);
    if AccountDiffers(a, t) {
      forall i | 0 <= i < |Rows(u)|
        ensures !PositionDiffers(Rows(u)[i], t.marks)
      {
        MarkedTwice(Rows(a)[i], t.marks);
      }
    }
  }

  /** IDEMPOTENT: merging the same tick again finds nothing new and changes nothing. */
  lemma MergeTwice(s: Snapshot, ticks: map<nat, Tick>)
    ensures !SnapshotDiffers(Merged(s, ticks), ticks)
    ensures Merged(Merged(s, ticks), ticks) == Merged(s, ticks)
  {
    var m := Merged(s, ticks);
    forall id | id in ticks && id in m
      ensures !AccountDiffers(m[id], ticks[id])
    {
      TickedTwice(s[id], ticks[id]);
    }
  }

  /** NO INVENTED STRUCTURE: same accounts, same positions in the same order, nothing else touched;
      and nothing at all when nothing differs. */
  lemma KeepsStructure(s: Snapshot, ticks: map<nat, Tick>)
    ensures Merged(s, ticks).Keys == s.Keys
    ensures forall id | id in s ::
              var a, b := s[id], Merged(s, ticks)[id];
              && b.rest == a.rest && |Rows(b)| == |Rows(a)|
              && forall i | 0 <= i < |Rows(a)| :: Rows(b)[i].id == Rows(a)[i].id && Rows(b)[i].rest == Rows(a)[i].rest
    ensures !SnapshotDiffers(s, ticks) <==> Merged(s, ticks) == s
  {
    if Merged(s, ticks) == s {
      forall id | id in ticks && id in s
        ensures !AccountDiffers(s[id], ticks[id])
      {
        TickedTwice(s[id], ticks[id]);
        assert Merged(s, ticks)[id] == s[id];
      }
    }
  }

  /** Both show the same: absent and null are one dash. */
  ghost predicate LooksLike(a: Field, b: Field) {
    a == b || (!a.Value? && !b.Value?)
  }

  /** The field after a tick that says `said`: what the tick says, null included, or what it was. */
  ghost predicate Follows(said: Field, was: Field, is_: Field) {
    LooksLike(is_, if said == Undefined then was else said)
  }

  /** The `k`-th mark is the last one for this position. */
  ghost predicate IsLast(marks: seq<Mark>, k: nat, id: nat) {
    k < |marks| && marks[k].id == id && forall j | k < j < |marks| :: marks[j].id != id
  }

  /** A row after a tick, said of the marks themselves. */
  ghost predicate RowFollows(p: Position, q: Position, marks: seq<Mark>) {
    && q.id == p.id && q.rest == p.rest
    && (forall k: nat | IsLast(marks, k, p.id) ::
          Follows(marks[k].price, p.price, q.price) && Follows(marks[k].pnl, p.pnl, q.pnl))
    && ((forall k | 0 <= k < |marks| :: marks[k].id != p.id) ==> q == p)
  }

  /** A row with this mark, new or not, shows what the mark says. */
  lemma FieldFollows(said: Field, was: Field)
    ensures Follows(said, was, Over(said, OrNull(was)))
    ensures Over(said, OrNull(was)) == OrNull(was) ==> Follows(said, was, was)
  {
  }

  lemma LastIsMark(marks: seq<Mark>, k: nat, id: nat)
    requires IsLast(marks, k, id)
    ensures MarkOf(marks, id) == Some(marks[k])
  {
    LastMarkWins(marks, id);
  }

  lemma MarkedFollows(p: Position, marks: seq<Mark>)
    ensures RowFollows(p, Marked(p, marks), marks)
  {
    var q := Marked(p, marks);
    forall k: nat | IsLast(marks, k, p.id)
      ensures Follows(marks[k].price, p.price, q.price) && Follows(marks[k].pnl, p.pnl, q.pnl)
    {
      LastIsMark(marks, k, p.id);
      FieldFollows(marks[k].price, p.price);
      FieldFollows(marks[k].pnl, p.pnl);
    }
    if forall k | 0 <= k < |marks| :: marks[k].id != p.id {
      LastMarkWins(marks, p.id);
    }
  }

  ghost predicate RowsFollow(rows: seq<Position>, after: seq<Position>, marks: seq<Mark>) {
    |after| == |rows| && forall i | 0 <= i < |rows| :: RowFollows(rows[i], after[i], marks)
  }

  lemma MarkedRowsFollow(rows: seq<Position>, marks: seq<Mark>)
    ensures RowsFollow(rows, MarkedRows(rows, marks), marks)
  {
    forall i | 0 <= i < |rows|
      ensures RowFollows(rows[i], MarkedRows(rows, marks)[i], marks)
    {
      MarkedFollows(rows[i], marks);
    }
  }

  /**
   HONEST VALUES, on every snapshot: an account takes its equity and open result from its tick, null
   included, and keeps what the tick leaves out; so does each position from the last mark for it;
   whatever no tick speaks of is as it was.
   */
  lemma MergeFollows(s: Snapshot, ticks: map<nat, Tick>, id: nat)
    requires id in s
    ensures var a, b := s[id], Merged(s, ticks)[id];
            if id !in ticks then b == a
            else
              && b.equity == (if ticks[id].equity == Undefined then a.equity else ticks[id].equity)
              && b.openPnl == (if ticks[id].openPnl == Undefined then a.openPnl else ticks[id].openPnl)
              && b.rest == a.rest && RowsFollow(Rows(a), Rows(b), ticks[id].marks)
  {
    if id in ticks {
      MarkedRowsFollow(Rows(s[id]), ticks[id].marks);
      forall i | 0 <= i < |Rows(s[id])|
        ensures RowFollows(Rows(s[id])[i], Marked(Rows(s[id])[i], ticks[id].marks), ticks[id].marks)
      {
        MarkedFollows(Rows(s[id])[i], ticks[id].marks);
      }
    }
  }

  // ---------- the whole page state ----------

  datatype ApiState = ApiState(accounts: Option<Snapshot>, master: Option<seq<Position>>, rest: nat)

  /** The marks of all accounts, in the order their ticks are listed. */
  function Pooled(ticks: map<nat, Tick>, order: seq<nat>): seq<Mark> {
    if order == [] then []
    else
      var id := order[|order| - 1];
      Pooled(ticks, order[..|order| - 1]) + (if id in ticks then ticks[id].marks else [])
  }

  function Accounts(s: ApiState): Snapshot {
    if s.accounts.Some? then s.accounts.value else map[]
  }

  function Masters(s: ApiState): seq<Position> {
    if s.master.Some? then s.master.value else []
  }

  predicate MastersDiffer(s: ApiState, marks: seq<Mark>) {
    exists i :: 0 <= i < |Masters(s)| && PositionDiffers(Masters(s)[i], marks)
  }

  predicate StateDiffers(s: ApiState, ticks: map<nat, Tick>, order: seq<nat>) {
    SnapshotDiffers(Accounts(s), ticks) || MastersDiffer(s, Pooled(ticks, order))
  }

  /** The state itself when nothing differs; otherwise both blocks, the absent ones filled in. */
  function MergedState(s: ApiState, ticks: map<nat, Tick>, order: seq<nat>): ApiState {
    if !StateDiffers(s, ticks, order) then s
    else s.(accounts := Some(Merged(Accounts(s), ticks)), master := Some(MarkedRows(Masters(s), Pooled(ticks, order))))
  }

  method MergeTicksIntoApiState(s: ApiState, ticks: map<nat, Tick>, order: seq<nat>)
    returns (next: ApiState, changed: bool)
    requires forall id :: id in order <==> id in ticks
    ensures next == MergedState(s, ticks, order)
    ensures changed <==> StateDiffers(s, ticks, order)
  {
    var marks := [];
    var i := 0;
    while i < |order|
      invariant 0 <= i <= |order|
      invariant marks == Pooled(ticks, order[..i])
    {
      assert order[..i + 1][..i] == order[..i];
      assert order[i] in order;
      marks := marks + ticks[order[i]].marks;
      i := i + 1;
    }
    assert order[..i] == order;
    var accounts, moved := MergeTicksIntoSnapshot(Accounts(s), ticks);
    var rows, masterChanged := MarkRows(Masters(s), marks);
    if !moved && !masterChanged {
      return s, false;
    }
    if !masterChanged {
      UnmarkedRows(Masters(s), marks);
    }
    next := s.(accounts := Some(accounts), master := Some(if masterChanged then rows else Masters(s)));
    changed := true;
  }

  lemma UnmarkedRows(rows: seq<Position>, marks: seq<Mark>)
    requires forall i | 0 <= i < |rows| :: !PositionDiffers(rows[i], marks)
    ensures MarkedRows(rows, marks) == rows
  {
  }

  /** Across accounts the last one listed with a mark for the position wins. */
  lemma LastAccountWins(ticks: map<nat, Tick>, order: seq<nat>, id: nat, k: nat)
    requires k < |order| && order[k] in ticks && MarkOf(ticks[order[k]].marks, id).Some?
    requires forall j | k < j < |order| && order[j] in ticks :: MarkOf(ticks[order[j]].marks, id).None?
    ensures MarkOf(Pooled(ticks, order), id) == MarkOf(ticks[order[k]].marks, id)
    decreases |order|
  {
    var n := |order| - 1;
    var last := if order[n] in ticks then ticks[order[n]].marks else [];
    MarkOfConcat(Pooled(ticks, order[..n]), last, id);
    if k < n {
      LastAccountWins(ticks, order[..n], id, k);
    }
  }

  lemma {:induction false} MarkOfConcat(a: seq<Mark>, b: seq<Mark>, id: nat)
    ensures MarkOf(a + b, id) == if MarkOf(b, id).Some? then MarkOf(b, id) else MarkOf(a, id)
    decreases |b|
  {
    if b == [] {
      assert a + b == a;
    } else {
      assert (a + b)[..|a + b| - 1] == a + b[..|b| - 1];
      MarkOfConcat(a, b[..|b| - 1], id);
    }
  }

  /** On the whole state the accounts follow their ticks, and the master's rows the pooled marks. */
  lemma MergeStateFollows(s: ApiState, ticks: map<nat, Tick>, order: seq<nat>)
    ensures var m := MergedState(s, ticks, order);
            && m.rest == s.rest && Accounts(m) == Merged(Accounts(s), ticks)
            && RowsFollow(Masters(s), Masters(m), Pooled(ticks, order))
  {
    MarkedRowsFollow(Masters(s), Pooled(ticks, order));
    if !StateDiffers(s, ticks, order) {
      UnmarkedRows(Masters(s), Pooled(ticks, order));
      KeepsStructure(Accounts(s), ticks);
    }
  }

  /** IDEMPOTENT on the whole state too: merging the same tick again hands back the same state. */
  lemma MergeStateTwice(s: ApiState, ticks: map<nat, Tick>, order: seq<nat>)
    ensures !StateDiffers(MergedState(s, ticks, order), ticks, order)
  {
    var m := MergedState(s, ticks, order);
    var marks := Pooled(ticks, order);
    if StateDiffers(s, ticks, order) {
      MergeTwice(Accounts(s), ticks);
      forall i | 0 <= i < |Masters(m)|
        ensures !PositionDiffers(Masters(m)[i], marks)
      {
        MarkedTwice(Masters(s)[i], marks);
      }
    }
  }
}
