/**
 How old the equity a request is checked against may be: the route reads it before it takes the ledger
 lock, so other transactions may land in between.
 */
module BonusReadings {
  import opened Base
  import opened Ledger
  import opened Portal
  import opened BonusCredit

  // ---------------------------------------------------------------- a stale equity

  /** The promise for one account and one equity reading: every outflow the cap admits, whatever
      its amount, leaves the funded credit covered. */
  ghost predicate CapKeepsPrincipal(db: Db, a: nat, read: real) {
    forall amount: nat | 0 < amount <= Movable(db, a, read) :: Leaves(db, a, amount)
  }

  /** Paying out `amount` more, on top of every promised payout, leaves the funded credit covered. */
  ghost predicate Leaves(db: Db, a: nat, amount: nat) {
    Equity(db, a) - (Unpaid(db, a) + amount) as real >= CreditFunded(db, a) as real
  }

  /** WHEN THE CAP IS SOUND: exactly when it admits nothing, or the equity that was read, in whole
      cents, is at most the present equity plus what was paid out and is still open. */
  lemma StaleReadExact(db: Db, a: nat, read: real)
    ensures CapKeepsPrincipal(db, a, read) <==>
            (read.Floor <= OpenOut(db, a) + CreditFunded(db, a)
             || read.Floor as real <= Equity(db, a) + PaidStillOpen(db, a) as real)
  {
    Bounds(db.transfers, a);
    var taken := OpenOut(db, a) + CreditFunded(db, a);
    var movable := Movable(db, a, read);
    var exact := read - OpenOut(db, a) as real - CreditFunded(db, a) as real;
    if read.Floor <= taken {
      assert exact < 1.0;
    } else {
      assert movable == read.Floor - taken;
      if read.Floor as real > Equity(db, a) + PaidStillOpen(db, a) as real {
        var amount: nat := movable;
        assert !Leaves(db, a, amount);
      }
    }
  }

  /** The same promise for all credit ever funded, on the books or off them. */
  ghost predicate CapKeepsFunded(db: Db, a: nat, read: real) {
    forall amount: nat | 0 < amount <= Movable(db, a, read) :: LeavesFunded(db, a, amount)
  }

  ghost predicate LeavesFunded(db: Db, a: nat, amount: nat) {
    Equity(db, a) - (Unpaid(db, a) + amount) as real >= (CreditFunded(db, a) + Stranded(db, a)) as real
  }

  /** WHEN THE CAP PROTECTS ALL FUNDED CREDIT: exactly when it admits nothing, or the equity that was read
      leaves room for the stranded credit in present equity plus what was paid out and is still open. */
  lemma StrandedReadExact(db: Db, a: nat, read: real)
    ensures CapKeepsFunded(db, a, read) <==>
            (read.Floor <= OpenOut(db, a) + CreditFunded(db, a)
             || (read.Floor + Stranded(db, a)) as real <= Equity(db, a) + PaidStillOpen(db, a) as real)
  {
    Bounds(db.transfers, a);
    var taken := OpenOut(db, a) + CreditFunded(db, a);
    var movable := Movable(db, a, read);
    var exact := read - OpenOut(db, a) as real - CreditFunded(db, a) as real;
    if read.Floor <= taken {
      assert exact < 1.0;
    } else {
      assert movable == read.Floor - taken;
      if (read.Floor + Stranded(db, a)) as real > Equity(db, a) + PaidStillOpen(db, a) as real {
        var amount: nat := movable;
        assert !LeavesFunded(db, a, amount);
      }
    }
  }

  // ---------------------------------------------------------------- a reading taken earlier in the run

  /** The tables after the first `j` events. */
  ghost function At(db: Db, run: seq<Event>, j: nat): Db
    requires j <= |run|
  {
    Exec(db, run[..j])
  }

  lemma {:induction false} ExecSnoc(db: Db, run: seq<Event>, e: Event)
    ensures Exec(db, run + [e]) == Next(Exec(db, run), e)
    decreases |run|
  {
    if run == [] {
      assert [e][1..] == [];
      assert Exec(db, [e]) == Exec(Next(db, e), []);
    } else {
      assert (run + [e])[1..] == run[1..] + [e];
      ExecSnoc(Next(db, run[0]), run[1..], e);
    }
  }

  lemma AtNext(db: Db, run: seq<Event>, j: nat)
    requires j < |run|
    ensures At(db, run, j + 1) == Next(At(db, run, j), run[j])
  {
    assert run[..j + 1] == run[..j] + [run[j]];
    ExecSnoc(db, run[..j], run[j]);
  }

  /** An outflow of the account that the desk has paid leaves the open requests: marked done, rejected,
      or cancelled by the investor. */
  predicate PaidLeaves(db: Db, e: Event, a: nat) {
    && e.MoveTransfer? && Apply(db, e).Some? && !Open(e.new_)
    && db.transfers[e.id].source == InAccount(a) && db.transfers[e.id].moved
  }

  /** What is in the account plus what left it and still counts as open. */
  ghost function Reach(db: Db, a: nat): real {
    Equity(db, a) + PaidStillOpen(db, a) as real
  }

  /** What one event does to it. */
  function Change(db: Db, e: Event, a: nat): real {
    if PaidLeaves(db, e, a) then 0.0 - db.transfers[e.id].amount as real
    else if e.Profit? && e.traded == a then e.gain
    else if e.DeskMoves? && Apply(db, e).Some? && db.transfers[e.id].target == InAccount(a) then
      db.transfers[e.id].amount as real
    else 0.0
  }

  lemma AppendKeepsReach(db: Db, after: Db, t: Transfer, a: nat)
    requires after.transfers == db.transfers + [t] && after.equity == db.equity && !t.moved
    ensures Reach(after, a) == Reach(db, a)
  {
    Appended(db.transfers, t, a);
  }

  /** One row's part of what was paid and still counts. */
  function PaidPart(t: Transfer, a: nat): int {
    if t.source == InAccount(a) && Open(t.status) && t.moved then t.amount else 0
  }

  lemma RowChanges(db: Db, after: Db, id: nat, t: Transfer, a: nat)
    requires id < |db.transfers| && after.transfers == db.transfers[id := t]
    ensures PaidStillOpen(after, a) == PaidStillOpen(db, a) - PaidPart(db.transfers[id], a) + PaidPart(t, a)
  {
    Updated(db.transfers, id, t, a);
  }

  lemma MoveChanges(db: Db, id: nat, seen: Status, new_: Status, a: nat)
    requires MoveTransferTx(db, id, seen, new_).Some?
    ensures Reach(MoveTransferTx(db, id, seen, new_).value, a) ==
            Reach(db, a) + Change(db, MoveTransfer(id, seen, new_), a)
  {
    var after := MoveTransferTx(db, id, seen, new_).value;
    var t := db.transfers[id];
    RowChanges(db, after, id, t.(status := new_), a);
    assert Open(t.status) && Equity(after, a) == Equity(db, a);
    assert PaidLeaves(db, MoveTransfer(id, seen, new_), a) <==> t.source == InAccount(a) && t.moved && !Open(new_);
  }

  lemma DeskChanges(db: Db, id: nat, a: nat)
    requires DeskMovesTx(db, id).Some? && Sane(db)
    ensures Reach(DeskMovesTx(db, id).value, a) == Reach(db, a) + Change(db, DeskMoves(id), a)
  {
    RowChanges(db, DeskMovesTx(db, id).value, id, db.transfers[id].(moved := true), a);
    assert FivePairs(db.transfers[id].source, db.transfers[id].target);
  }

  lemma AppendChanges(db: Db, e: Event, a: nat)
    requires Apply(db, e).Some? && (e.ConfirmDeposit? || e.RequestTransfer?)
    ensures Reach(Next(db, e), a) == Reach(db, a)
  {
    var after := Next(db, e);
    if after.transfers != db.transfers {
      AppendKeepsReach(db, after, after.transfers[|db.transfers|], a);
    }
  }

  lemma SameRowsReach(db: Db, after: Db, a: nat)
    requires after.transfers == db.transfers
    ensures Reach(after, a) - Reach(db, a) == Equity(after, a) - Equity(db, a)
  {
  }

  lemma OthersChange(db: Db, e: Event, a: nat)
    requires Apply(db, e).Some? && !e.ConfirmDeposit? && !e.RequestTransfer? && !e.MoveTransfer? && !e.DeskMoves?
    ensures Reach(Next(db, e), a) == Reach(db, a) + if e.Profit? && e.traded == a then e.gain else 0.0
  {
    SameRowsReach(db, Next(db, e), a);
  }

  /** CONSERVATION, with no discipline assumed: trading and inflows move it, paying out does not, and a
      paid outflow that leaves the open requests, however it leaves, lowers it by its amount. */
  lemma StepReach(db: Db, e: Event, a: nat)
    requires Inv(db)
    ensures Reach(Next(db, e), a) == Reach(db, a) + Change(db, e, a)
  {
    if Apply(db, e).Some? {
      match e
      case ConfirmDeposit(_, _, _) => AppendChanges(db, e, a);
      case RequestTransfer(_, _, _, _, _) => AppendChanges(db, e, a);
      case MoveTransfer(id, seen, new_) => MoveChanges(db, id, seen, new_, a);
      case DeskMoves(id) => DeskChanges(db, id, a);
      case _ => OthersChange(db, e, a);
    }
  }

  lemma ReachStays(db: Db, e: Event, a: nat)
    requires Inv(db) && DeskDisciplined(db, e) && !PaidLeaves(db, e, a)
    ensures Reach(Next(db, e), a) >= Reach(db, a)
  {
    StepReach(db, e, a);
  }

  ghost predicate DeskRun(db: Db, run: seq<Event>) {
    forall j: nat | j < |run| :: DeskDisciplined(At(db, run, j), run[j])
  }

  /** No paid outflow of the account leaves the open requests from event `i` up to event `j`. */
  ghost predicate NoneLeaves(db: Db, run: seq<Event>, i: nat, j: nat, a: nat)
    requires j <= |run|
  {
    forall k: nat | i <= k < j :: !PaidLeaves(At(db, run, k), run[k], a)
  }

  lemma {:induction false} AtInv(db: Db, run: seq<Event>, j: nat)
    requires Inv(db) && j <= |run|
    ensures Inv(At(db, run, j))
    decreases j
  {
    if j > 0 {
      AtInv(db, run, j - 1);
      AtNext(db, run, j - 1);
      StepKeepsInv(At(db, run, j - 1), run[j - 1]);
    }
  }

  /** A READING KEEPS ITS WORTH until a paid outflow of the account leaves the open requests. */
  lemma {:induction false} ReadingKeeps(db: Db, run: seq<Event>, i: nat, j: nat, a: nat)
    requires Inv(db) && DeskRun(db, run) && i <= j <= |run| && NoneLeaves(db, run, i, j, a)
    ensures Equity(At(db, run, i), a) <= Reach(At(db, run, j), a)
    decreases j - i
  {
    if i == j {
      Bounds(At(db, run, i).transfers, a);
    } else {
      ReadingKeeps(db, run, i, j - 1, a);
      AtInv(db, run, j - 1);
      AtNext(db, run, j - 1);
      assert DeskDisciplined(At(db, run, j - 1), run[j - 1]);
      assert !PaidLeaves(At(db, run, j - 1), run[j - 1], a);
      ReachStays(At(db, run, j - 1), run[j - 1], a);
    }
  }

  /** Whatever equity the `j`-th event was checked against was read at or before it, and no paid outflow
      of that account left the open requests in between. */
  ghost predicate ReadInTime(db: Db, run: seq<Event>, j: nat)
    requires j < |run|
  {
    run[j].RequestTransfer? && run[j].source.InAccount? && run[j].read.Some? ==>
      exists i: nat :: i <= j && run[j].read.value <= Equity(At(db, run, i), run[j].source.account)
                       && NoneLeaves(db, run, i, j, run[j].source.account)
  }

  lemma InTimeIsSound(db: Db, run: seq<Event>, j: nat)
    requires Inv(db) && DeskRun(db, run) && j < |run| && ReadInTime(db, run, j)
    ensures SoundReading(At(db, run, j), run[j])
  {
    var e := run[j];
    if e.RequestTransfer? && e.source.InAccount? && e.read.Some? {
      var a := e.source.account;
      var i: nat :| i <= j && e.read.value <= Equity(At(db, run, i), a) && NoneLeaves(db, run, i, j, a);
      ReadingKeeps(db, run, i, j, a);
    }
  }

  /**
   THE PRINCIPAL STAYS with equity readings taken earlier: in every run of a disciplined desk, if no
   request rides on a reading older than the last paid outflow of its account to leave the open requests.
   */
  lemma {:induction false} ReadingsInTimeKeep(db: Db, run: seq<Event>, j: nat, a: nat)
    requires Inv(db) && Safe(db, a) && DeskRun(db, run) && j <= |run|
    requires forall k: nat | k < |run| :: ReadInTime(db, run, k)
    ensures Safe(At(db, run, j), a)
    decreases j
  {
    if j > 0 {
      ReadingsInTimeKeep(db, run, j - 1, a);
      AtInv(db, run, j - 1);
      AtNext(db, run, j - 1);
      InTimeIsSound(db, run, j - 1);
      StepSafe(At(db, run, j - 1), run[j - 1], a);
    }
  }

  // ---------------------------------------------------------------- a stale equity, from empty tables

  function Ask(a: nat, amount: nat, read: real): Event {
    RequestTransfer(InAccount(a), InWallet(Main), amount, Some(read), false)
  }

  function Asked(a: nat, amount: nat, read: real): Transfer {
    Transfer(InAccount(a), InWallet(Main), amount, Requested, Some(read), false)
  }

  /** An outflow of everything above the principal is asked for and paid out. */
  lemma AskedFor(db: Db, a: nat, p: nat, read: real)
    requires !CreditOpen(db, a) && OpenOut(db, a) == 0 && p > 0
    requires read == (CreditFunded(db, a) + p) as real
    ensures Next(db, Ask(a, p, read)) == db.(transfers := db.transfers + [Asked(a, p, read)])
  {
    assert Movable(db, a, read) == p;
  }

  lemma PaidOver(db: Db, before: seq<Transfer>, t: Transfer, a: nat)
    requires db.transfers == before + [t] && Open(t.status) && !t.moved && t.source == InAccount(a)
    requires t.target.InWallet? && t.amount as real <= Equity(db, a)
    ensures var after := Next(db, DeskMoves(|before|));
            && after.transfers == before + [t.(moved := true)]
            && Equity(after, a) == Equity(db, a) - t.amount as real
  {
    assert db.transfers[|before| := t.(moved := true)] == before + [t.(moved := true)];
  }

  lemma PaysOut(db: Db, a: nat, p: nat, read: real)
    requires !CreditOpen(db, a) && OpenOut(db, a) == 0 && p > 0
    requires read == (CreditFunded(db, a) + p) as real && p as real <= Equity(db, a)
    ensures var after := Next(Next(db, Ask(a, p, read)), DeskMoves(|db.transfers|));
            && after.transfers == db.transfers + [Asked(a, p, read).(moved := true)]
            && Equity(after, a) == Equity(db, a) - p as real
            && CreditFunded(after, a) == CreditFunded(db, a)
  {
    AskedFor(db, a, p, read);
    PaidOver(Next(db, Ask(a, p, read)), db.transfers, Asked(a, p, read), a);
    Appended(db.transfers, Asked(a, p, read).(moved := true), a);
  }

  /** How a requested outflow can leave the open requests. */
  predicate Left(s: Status) {
    s.Done? || s.Rejected? || s.Cancelled?
  }

  lemma LeftFigures(before: seq<Transfer>, t: Transfer, left: Status, a: nat)
    requires t.source == InAccount(a) && Sum(before, OutOf(a)) == 0 && Left(left)
    ensures Sum(before + [t.(status := left)], OutOf(a)) == 0
    ensures Sum(before + [t.(status := left)], CreditInto(a)) == Sum(before + [t], CreditInto(a))
  {
    Appended(before, t, a);
    Appended(before, t.(status := left), a);
  }

  lemma MarkTx(db: Db, id: nat, left: Status)
    requires id < |db.transfers| && db.transfers[id].status.Requested? && Left(left)
    requires CreditStays(db, db.transfers[id])
    ensures Apply(db, MoveTransfer(id, Requested, left)).Some?
    ensures var after := Next(db, MoveTransfer(id, Requested, left));
            after.transfers == db.transfers[id := db.transfers[id].(status := left)] && after.equity == db.equity
  {
  }

  lemma MarkedFigures(db: Db, after: Db, before: seq<Transfer>, t: Transfer, left: Status, a: nat)
    requires db.transfers == before + [t] && after.transfers == before + [t.(status := left)] && Left(left)
    requires after.equity == db.equity && t.source == InAccount(a) && t.status.Requested?
    requires Sum(before, OutOf(a)) == 0 && !CreditOpen(db, a)
    ensures !CreditOpen(after, a) && OpenOut(after, a) == 0
    ensures Equity(after, a) == Equity(db, a) && CreditFunded(after, a) == CreditFunded(db, a)
  {
    LeftFigures(before, t, left, a);
    assert after.transfers == db.transfers[|before| := t.(status := left)];
    NoNewCredit(db, after, |before|, t.(status := left), a);
  }

  lemma StaysAtCap(db: Db, a: nat, p: nat, read: real)
    requires read == (CreditFunded(db, a) + p) as real
    ensures CreditStays(db, Asked(a, p, read).(moved := true))
  {
    assert read - CreditFunded(db, a) as real == p as real;
  }

  lemma LeaveTx(db: Db, before: seq<Transfer>, t: Transfer, left: Status, a: nat)
    requires db.transfers == before + [t] && t.status.Requested? && CreditStays(db, t) && Left(left)
    requires t.source == InAccount(a) && t.moved
    ensures PaidLeaves(db, MoveTransfer(|before|, Requested, left), a)
    ensures var after := Next(db, MoveTransfer(|before|, Requested, left));
            after.transfers == before + [t.(status := left)] && after.equity == db.equity
  {
    assert db.transfers[|before|] == t;
    MarkTx(db, |before|, left);
    assert (before + [t])[|before| := t.(status := left)] == before + [t.(status := left)];
  }

  /** Marking it done, rejecting or cancelling it takes it off the open outflows. */
  lemma TakenOff(db: Db, before: seq<Transfer>, a: nat, p: nat, read: real, left: Status)
    requires db.transfers == before + [Asked(a, p, read).(moved := true)]
    requires read == (CreditFunded(db, a) + p) as real && Left(left)
    requires Sum(before, OutOf(a)) == 0 && !CreditOpen(db, a)
    ensures PaidLeaves(db, MoveTransfer(|before|, Requested, left), a)
    ensures var after := Next(db, MoveTransfer(|before|, Requested, left));
            && after.transfers == before + [Asked(a, p, read).(moved := true, status := left)]
            && !CreditOpen(after, a) && OpenOut(after, a) == 0
            && Equity(after, a) == Equity(db, a) && CreditFunded(after, a) == CreditFunded(db, a)
  {
    var t := Asked(a, p, read).(moved := true);
    StaysAtCap(db, a, p, read);
    LeaveTx(db, before, t, left, a);
    MarkedFigures(db, Next(db, MoveTransfer(|before|, Requested, left)), before, t, left, a);
  }

  /** THE PRINCIPAL CAN LEAVE when the equity was read before the previous outflow was paid: once that
      outflow is done, rejected or cancelled, the request checked against the old figure takes the same
      money again, and every check passes. */
  lemma StaleReadLeaks(db: Db, a: nat, p: nat, left: Status)
    requires !CreditOpen(db, a) && OpenOut(db, a) == 0 && Left(left)
    requires 0 < p <= CreditFunded(db, a) && Equity(db, a) == (CreditFunded(db, a) + p) as real
    ensures var read, n := Equity(db, a), |db.transfers|;
            var paid := Next(Next(db, Ask(a, p, read)), DeskMoves(n));
            var off := Next(paid, MoveTransfer(n, Requested, left));
            var again := Next(Next(off, Ask(a, p, read)), DeskMoves(n + 1));
            && PaidLeaves(paid, MoveTransfer(n, Requested, left), a)
            && Equity(off, a) == CreditFunded(off, a) as real
            && Equity(again, a) == (CreditFunded(again, a) - p) as real
            && CreditFunded(again, a) == CreditFunded(db, a)
            && |paid.transfers| == n + 1 && paid.transfers[n].moved && paid.transfers[n].source == InAccount(a)
  {
    var read, n := Equity(db, a), |db.transfers|;
    PaysOut(db, a, p, read);
    var paid := Next(Next(db, Ask(a, p, read)), DeskMoves(n));
    assert forall i | 0 <= i < |db.transfers| :: paid.transfers[i] == db.transfers[i];
    assert !CreditOpen(paid, a);
    TakenOff(paid, db.transfers, a, p, read, left);
    PaysOut(Next(paid, MoveTransfer(n, Requested, left)), a, p, read);
  }

  /** A bonus is granted, moved into the account, and the account gains as much again. */
  function Funding(a: nat, p: nat): seq<Event> {
    [GrantBonus(p), RequestTransfer(InWallet(Credit), InAccount(a), p, None, false), DeskMoves(0),
     MoveTransfer(0, Requested, Done), Profit(a, p as real)]
  }

  lemma Granted(db: Db, p: nat)
    requires Fresh(db) && p > 0
    ensures var g := Next(db, GrantBonus(p));
            && g.transfers == [] && g.withdrawals == [] && g.equity == map[]
            && g.entries == [BonusEntry(0, p)] && Available(g, Credit) == p
  {
    var g := Next(db, GrantBonus(p));
    assert g.entries == [BonusEntry(0, p)];
    SumAppend([], BonusEntry(0, p), OnWallet(Credit));
    assert [] + [BonusEntry(0, p)] == g.entries;
  }

  function CreditTransfer(a: nat, p: nat): Transfer {
    Transfer(InWallet(Credit), InAccount(a), p, Requested, None, false)
  }

  lemma CreditAsked(db: Db, a: nat, p: nat)
    requires db.transfers == [] && db.equity == map[] && Available(db, Credit) == p && p > 0
    ensures var r := Next(db, Funding(a, p)[1]); r.transfers == [CreditTransfer(a, p)] && r.equity == map[]
  {
    assert OpenOut(db, a) == 0;
  }

  lemma CreditPaidIn(db: Db, a: nat, p: nat)
    requires db.transfers == [CreditTransfer(a, p)] && db.equity == map[]
    ensures var m := Next(db, Funding(a, p)[2]);
            m.transfers == [CreditTransfer(a, p).(moved := true)] && m.equity == map[a := p as real]
  {
    assert db.transfers[0 := CreditTransfer(a, p).(moved := true)] == [CreditTransfer(a, p).(moved := true)];
  }

  lemma CreditDone(db: Db, a: nat, p: nat)
    requires db.transfers == [CreditTransfer(a, p).(moved := true)] && db.equity == map[a := p as real]
    ensures var d := Next(db, Funding(a, p)[3]);
            d.transfers == [CreditTransfer(a, p).(moved := true, status := Done)] && d.equity == db.equity
  {
    var t := CreditTransfer(a, p).(moved := true);
    assert CreditStays(db, t);
    assert db.transfers[0 := t.(status := Done)] == [t.(status := Done)];
  }

  lemma FundedFigures(db: Db, a: nat, p: nat)
    requires db.transfers == [Transfer(InWallet(Credit), InAccount(a), p, Done, None, true)]
    ensures CreditFunded(db, a) == p && OpenOut(db, a) == 0 && !CreditOpen(db, a)
  {
    Appended([], db.transfers[0], a);
    assert [] + [db.transfers[0]] == db.transfers;
  }

  /** Then the gain is paid out, its request leaves, and it is paid out again on the reading taken before. */
  function LeakRun(a: nat, p: nat, left: Status): seq<Event> {
    var again := Ask(a, p, (p + p) as real);
    Funding(a, p) + [again, DeskMoves(1), MoveTransfer(1, Requested, left), again, DeskMoves(2)]
  }

  lemma FundedFirst(db: Db, run: seq<Event>, a: nat, p: nat)
    requires Fresh(db) && p > 0 && |run| >= 1 && run[0] == Funding(a, p)[0]
    ensures var g := At(db, run, 1); g.transfers == [] && g.equity == map[] && Available(g, Credit) == p
  {
    assert run[..0] == [];
    AtNext(db, run, 0);
    Granted(db, p);
  }

  lemma FundedAsked(db: Db, run: seq<Event>, a: nat, p: nat)
    requires Fresh(db) && p > 0 && |run| >= 2 && run[0] == Funding(a, p)[0] && run[1] == Funding(a, p)[1]
    ensures At(db, run, 2).transfers == [CreditTransfer(a, p)] && At(db, run, 2).equity == map[]
  {
    FundedFirst(db, run, a, p);
    AtNext(db, run, 1);
    CreditAsked(At(db, run, 1), a, p);
  }

  /** The first three events of either run below. */
  lemma FundedIn(db: Db, run: seq<Event>, a: nat, p: nat)
    requires Fresh(db) && p > 0 && |run| >= 3 && run[..3] == Funding(a, p)[..3]
    ensures At(db, run, 3).transfers == [CreditTransfer(a, p).(moved := true)]
    ensures At(db, run, 3).equity == map[a := p as real]
  {
    assert forall i | 0 <= i < 3 :: run[i] == run[..3][i] == Funding(a, p)[i];
    FundedAsked(db, run, a, p);
    AtNext(db, run, 2);
    CreditPaidIn(At(db, run, 2), a, p);
  }

  lemma FundingDone(db: Db, a: nat, p: nat, left: Status)
    requires Fresh(db) && p > 0
    ensures var run := LeakRun(a, p, left);
            && At(db, run, 3).transfers == [CreditTransfer(a, p).(moved := true)]
            && At(db, run, 5).transfers == [CreditTransfer(a, p).(moved := true, status := Done)]
            && Equity(At(db, run, 5), a) == (p + p) as real
  {
    var run := LeakRun(a, p, left);
    FundedIn(db, run, a, p);
    AtNext(db, run, 3);
    CreditDone(At(db, run, 3), a, p);
    AtNext(db, run, 4);
  }

  lemma LeakMiddle(db: Db, a: nat, p: nat, left: Status)
    ensures var run, read := LeakRun(a, p, left), (p + p) as real;
            && At(db, run, 7) == Next(Next(At(db, run, 5), Ask(a, p, read)), DeskMoves(1))
            && At(db, run, 8) == Next(At(db, run, 7), MoveTransfer(1, Requested, left))
  {
    var run := LeakRun(a, p, left);
    AtNext(db, run, 5);
    AtNext(db, run, 6);
    AtNext(db, run, 7);
  }

  /** The last five events, from wherever the first five led. */
  lemma LeakTail(db: Db, a: nat, p: nat, left: Status)
    ensures var run, read := LeakRun(a, p, left), (p + p) as real;
            && At(db, run, 7) == Next(Next(At(db, run, 5), Ask(a, p, read)), DeskMoves(1))
            && At(db, run, 8) == Next(At(db, run, 7), MoveTransfer(1, Requested, left))
            && Exec(db, run) == Next(Next(At(db, run, 8), Ask(a, p, read)), DeskMoves(2))
  {
    var run := LeakRun(a, p, left);
    LeakMiddle(db, a, p, left);
    AtNext(db, run, 8);
    AtNext(db, run, 9);
    assert run[..10] == run;
  }

  lemma LeakIsDisciplined(db: Db, a: nat, p: nat, left: Status)
    requires var run := LeakRun(a, p, left);
             && |At(db, run, 3).transfers| > 0 && At(db, run, 3).transfers[0].moved
             && |At(db, run, 7).transfers| > 1 && At(db, run, 7).transfers[1].moved
    ensures DeskRun(db, LeakRun(a, p, left))
  {
    var run := LeakRun(a, p, left);
    forall j: nat | j < |run|
      ensures DeskDisciplined(At(db, run, j), run[j])
    {
      assert j == 3 || j == 4 || j == 7 || !(run[j].Profit? || run[j].MoveTransfer?);
    }
  }

  /**
   THE LEAK IS REACHABLE: from empty tables, for every account and amount, a run of a disciplined desk
   whose last request rides on a reading older than one paid outflow that left the open requests, be it
   done, rejected, or cancelled by the investor; every check passes and the account is left with none of
   its principal.
   */
  lemma LeakFromEmpty(db: Db, a: nat, p: nat, left: Status)
    requires Fresh(db) && p > 0 && Left(left)
    ensures var run := LeakRun(a, p, left);
            && DeskRun(db, run)
            && run[8] == Ask(a, p, Equity(At(db, run, 5), a)) && PaidLeaves(At(db, run, 7), run[7], a)
            && CreditFunded(Exec(db, run), a) == p && Equity(Exec(db, run), a) == 0.0
  {
    var f := At(db, LeakRun(a, p, left), 5);
    FundingDone(db, a, p, left);
    FundedFigures(f, a, p);
    LeakTail(db, a, p, left);
    StaleReadLeaks(f, a, p, left);
    LeakIsDisciplined(db, a, p, left);
  }

  // ---------------------------------------------------------------- cancelled after it was funded

  /** A bonus is funded, the investor cancels its request, and then asks for the money on a fresh reading. */
  function StrandRun(a: nat, p: nat): seq<Event> {
    [GrantBonus(p), RequestTransfer(InWallet(Credit), InAccount(a), p, None, false), DeskMoves(0),
     MoveTransfer(0, Requested, Cancelled), Ask(a, p, p as real), DeskMoves(1)]
  }

  lemma CancelTx(db: Db, t: Transfer)
    requires db.transfers == [t] && t.status.Requested?
    ensures Apply(db, MoveTransfer(0, Requested, Cancelled)).Some?
    ensures Next(db, MoveTransfer(0, Requested, Cancelled)) == db.(transfers := [t.(status := Cancelled)])
  {
    assert db.transfers[0 := t.(status := Cancelled)] == [t.(status := Cancelled)];
  }

  lemma CancelledFigures(db: Db, a: nat, p: nat)
    requires db.transfers == [CreditTransfer(a, p).(moved := true, status := Cancelled)]
    ensures CreditFunded(db, a) == 0 && OpenOut(db, a) == 0 && !CreditOpen(db, a)
  {
    Appended([], db.transfers[0], a);
    assert [] + [db.transfers[0]] == db.transfers;
  }

  lemma CreditCancelled(db: Db, a: nat, p: nat)
    requires db.transfers == [CreditTransfer(a, p).(moved := true)] && db.equity == map[a := p as real] && p > 0
    ensures Strands(db, MoveTransfer(0, Requested, Cancelled), a)
    ensures var c := Next(db, MoveTransfer(0, Requested, Cancelled));
            && c.equity == db.equity && |c.transfers| == 1
            && CreditFunded(c, a) == 0 && OpenOut(c, a) == 0 && !CreditOpen(c, a)
  {
    CancelTx(db, CreditTransfer(a, p).(moved := true));
    CancelledFigures(Next(db, MoveTransfer(0, Requested, Cancelled)), a, p);
  }

  /**
   FUNDED CREDIT CAN LEAVE once it is off the books: from empty tables, by a disciplined desk and on fresh
   readings alone, an investor's cancel of a bonus the desk had already funded lets all of it be paid out.
   */
  lemma StrandedLeaks(db: Db, a: nat, p: nat)
    requires Fresh(db) && p > 0
    ensures var run := StrandRun(a, p);
            && DeskRun(db, run) && Strands(At(db, run, 3), run[3], a)
            && run[4] == Ask(a, p, Equity(At(db, run, 4), a))
            && Equity(At(db, run, 4), a) == p as real && Equity(Exec(db, run), a) == 0.0
  {
    var run := StrandRun(a, p);
    assert run[..3] == Funding(a, p)[..3];
    FundedIn(db, run, a, p);
    CreditCancelled(At(db, run, 3), a, p);
    StrandTail(db, a, p);
    PaysOut(At(db, run, 4), a, p, p as real);
    StrandIsDisciplined(db, a, p);
  }

  lemma StrandTail(db: Db, a: nat, p: nat)
    ensures var run := StrandRun(a, p);
            && At(db, run, 4) == Next(At(db, run, 3), MoveTransfer(0, Requested, Cancelled))
            && Exec(db, run) == Next(Next(At(db, run, 4), Ask(a, p, p as real)), DeskMoves(1))
  {
    var run := StrandRun(a, p);
    assert run[..6] == run;
    AtNext(db, run, 3);
    AtNext(db, run, 4);
    AtNext(db, run, 5);
  }

  lemma StrandIsDisciplined(db: Db, a: nat, p: nat)
    ensures DeskRun(db, StrandRun(a, p))
  {
    var run := StrandRun(a, p);
    forall j: nat | j < |run|
      ensures DeskDisciplined(At(db, run, j), run[j])
    {
      assert !run[j].Profit? && !(run[j].MoveTransfer? && run[j].new_.Done?);
    }
  }
}
