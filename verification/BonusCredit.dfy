/**
 Bonus principal stays in the trading account it was funded into.

 Funding and paying out at the broker, marking a transfer done in the portal, and reading
 the account's equity are separate moments.  The portal never moves money itself, so the
 claim is about what its caps and mutual exclusions allow a disciplined desk to pay out.
 */
module BonusCredit {
  import opened Base
  import opened Ledger
  import opened Portal

  // ---------------------------------------------------------------- figures

  /** Requested or approved outflows the desk has not paid out yet. */
  function UnpaidOut(a: nat): Transfer -> int {
    (t: Transfer) => if t.source == InAccount(a) && Open(t.status) && !t.moved then t.amount else 0
  }

  /** Credit the desk has funded at the broker but not marked done yet. */
  function CreditMoving(a: nat): Transfer -> int {
    (t: Transfer) => if IsCredit(t, a) && Open(t.status) && t.moved then t.amount else 0
  }

  ghost function Unpaid(db: Db, a: nat): int {
    Sum(db.transfers, UnpaidOut(a))
  }

  ghost function Principal(db: Db, a: nat): int {
    CreditFunded(db, a) + Sum(db.transfers, CreditMoving(a))
  }

  /** Once any bonus credit is in the account, what would be left after every promised payout
      still covers all of it. */
  ghost predicate Confined(db: Db, a: nat) {
    && Equity(db, a) >= 0.0
    && (Principal(db, a) > 0 ==> Equity(db, a) - Unpaid(db, a) as real >= Principal(db, a) as real)
  }

  /** A credit inflow and an outflow of one account are never open together. */
  ghost predicate Exclusive(db: Db, a: nat) {
    CreditOpen(db, a) ==> OpenOut(db, a) <= 0
  }

  ghost predicate Safe(db: Db, a: nat) {
    Sane(db) && Confined(db, a) && Exclusive(db, a)
  }

  /** Paid out at the broker while its request is still open, so still counted by the cap. */
  ghost function PaidStillOpen(db: Db, a: nat): int {
    OpenOut(db, a) - Unpaid(db, a)
  }

  /** What the desk and the market must do for the claim to make sense: no trading loss, and money
      moved at the broker before a transfer is marked done. */
  predicate DeskDisciplined(db: Db, e: Event) {
    match e
    case Profit(_, gain) => gain >= 0.0
    case MoveTransfer(id, _, new_) =>
      id < |db.transfers| && (db.transfers[id].source.InAccount? || db.transfers[id].target.InAccount?) ==>
        (new_.Done? ==> db.transfers[id].moved)
    case _ => true
  }

  /** The equity a request was checked against, in whole cents, is at most what is in the account now
      plus what was paid out and is still open. */
  ghost predicate SoundReading(db: Db, e: Event) {
    e.RequestTransfer? && e.source.InAccount? && e.read.Some? ==>
      e.read.value.Floor as real <= Equity(db, e.source.account) + PaidStillOpen(db, e.source.account) as real
  }

  ghost predicate Disciplined(db: Db, e: Event) {
    DeskDisciplined(db, e) && SoundReading(db, e)
  }

  ghost predicate DisciplinedRun(db: Db, run: seq<Event>)
    decreases run
  {
    run == [] || (Disciplined(db, run[0]) && DisciplinedRun(Next(db, run[0]), run[1..]))
  }

  // ---------------------------------------------------------------- sums

  lemma {:induction false} Bounds(ts: seq<Transfer>, a: nat)
    ensures 0 <= Sum(ts, UnpaidOut(a)) <= Sum(ts, OutOf(a))
    ensures 0 <= Sum(ts, CreditMoving(a))
    ensures 0 <= Sum(ts, CreditInto(a))
    decreases |ts|
  {
    if ts != [] {
      Bounds(ts[..|ts| - 1], a);
    }
  }

  lemma {:induction false} NothingMoving(ts: seq<Transfer>, a: nat)
    requires forall i | 0 <= i < |ts| :: !(IsCredit(ts[i], a) && Open(ts[i].status))
    ensures Sum(ts, CreditMoving(a)) == 0
    decreases |ts|
  {
    if ts != [] {
      NothingMoving(ts[..|ts| - 1], a);
    }
  }

  lemma Appended(ts: seq<Transfer>, t: Transfer, a: nat)
    ensures Sum(ts + [t], UnpaidOut(a)) == Sum(ts, UnpaidOut(a)) + UnpaidOut(a)(t)
    ensures Sum(ts + [t], CreditMoving(a)) == Sum(ts, CreditMoving(a)) + CreditMoving(a)(t)
    ensures Sum(ts + [t], CreditInto(a)) == Sum(ts, CreditInto(a)) + CreditInto(a)(t)
    ensures Sum(ts + [t], OutOf(a)) == Sum(ts, OutOf(a)) + OutOf(a)(t)
  {
    SumAppend(ts, t, UnpaidOut(a));
    SumAppend(ts, t, CreditMoving(a));
    SumAppend(ts, t, CreditInto(a));
    SumAppend(ts, t, OutOf(a));
  }

  lemma Updated(ts: seq<Transfer>, id: nat, t: Transfer, a: nat)
    requires id < |ts|
    ensures Sum(ts[id := t], UnpaidOut(a)) == Sum(ts, UnpaidOut(a)) - UnpaidOut(a)(ts[id]) + UnpaidOut(a)(t)
    ensures Sum(ts[id := t], CreditMoving(a)) == Sum(ts, CreditMoving(a)) - CreditMoving(a)(ts[id]) + CreditMoving(a)(t)
    ensures Sum(ts[id := t], CreditInto(a)) == Sum(ts, CreditInto(a)) - CreditInto(a)(ts[id]) + CreditInto(a)(t)
    ensures Sum(ts[id := t], OutOf(a)) == Sum(ts, OutOf(a)) - OutOf(a)(ts[id]) + OutOf(a)(t)
  {
    SumUpdate(ts, id, t, UnpaidOut(a));
    SumUpdate(ts, id, t, CreditMoving(a));
    SumUpdate(ts, id, t, CreditInto(a));
    SumUpdate(ts, id, t, OutOf(a));
  }

  // ---------------------------------------------------------------- one step

  lemma SameTransfers(db: Db, after: Db, a: nat)
    requires Safe(db, a) && Sane(after)
    requires after.transfers == db.transfers && Equity(after, a) >= Equity(db, a)
    ensures Safe(after, a)
  {
  }

  /** A transfer that is neither this account's outflow nor credit into it. */
  lemma OtherAppended(db: Db, after: Db, t: Transfer, a: nat)
    requires Safe(db, a) && Sane(after)
    requires after.transfers == db.transfers + [t] && after.equity == db.equity
    requires t.source != InAccount(a) && !IsCredit(t, a)
    ensures Safe(after, a)
  {
    Appended(db.transfers, t, a);
    if CreditOpen(after, a) {
      var i :| 0 <= i < |after.transfers| && IsCredit(after.transfers[i], a) && Open(after.transfers[i].status);
      assert db.transfers[i] == after.transfers[i];
    }
  }

  lemma CreditRequested(db: Db, after: Db, t: Transfer, a: nat)
    requires Safe(db, a) && Sane(after)
    requires after.transfers == db.transfers + [t] && after.equity == db.equity
    requires IsCredit(t, a) && t.status.Requested? && !t.moved && OpenOut(db, a) <= 0
    ensures Safe(after, a)
  {
    Appended(db.transfers, t, a);
  }

  /** The cap is what keeps the principal in: everything it lets out, on top of everything
      already promised, leaves the funded credit behind. */
  lemma OutflowRequested(db: Db, after: Db, t: Transfer, a: nat, read: Option<real>)
    requires Safe(db, a) && Sane(after)
    requires after.transfers == db.transfers + [t] && after.equity == db.equity
    requires t.source == InAccount(a) && t.target.InWallet? && t.status.Requested? && !t.moved && t.amount > 0
    requires !CreditOpen(db, a)
    requires if read.Some? then read.value.Floor as real <= Equity(db, a) + PaidStillOpen(db, a) as real
                                && t.amount <= Movable(db, a, read.value)
             else CreditFunded(db, a) <= 0
    ensures Safe(after, a)
  {
    Appended(db.transfers, t, a);
    Bounds(db.transfers, a);
    NothingMoving(db.transfers, a);
    if read.Some? {
      CapInCents(db, a, read.value, t.amount);
    }
    assert forall i | 0 <= i < |db.transfers| :: after.transfers[i] == db.transfers[i];
  }

  /** What passes the cap fits, with every open outflow and the funded credit, in the whole cents read. */
  lemma CapInCents(db: Db, a: nat, read: real, amount: nat)
    requires 0 < amount <= Movable(db, a, read)
    ensures amount + OpenOut(db, a) + CreditFunded(db, a) <= read.Floor
  {
    var taken := OpenOut(db, a) + CreditFunded(db, a);
    assert amount as real <= read - taken as real;
  }

  lemma RequestSafe(db: Db, e: Event, a: nat)
    requires Safe(db, a) && e.RequestTransfer? && Disciplined(db, e) && Apply(db, e).Some? && Sane(Next(db, e))
    ensures Safe(Next(db, e), a)
  {
    var after := Next(db, e);
    var t := after.transfers[|db.transfers|];
    if t.source == InAccount(a) {
      OutflowRequested(db, after, t, a, e.read);
    } else if IsCredit(t, a) {
      CreditRequested(db, after, t, a);
    } else {
      OtherAppended(db, after, t, a);
    }
  }

  /** Changing a row without opening it opens no credit. */
  lemma NoNewCredit(db: Db, after: Db, id: nat, t: Transfer, a: nat)
    requires id < |db.transfers| && after.transfers == db.transfers[id := t]
    requires Open(t.status) ==> Open(db.transfers[id].status)
    requires t.source == db.transfers[id].source && t.target == db.transfers[id].target
    ensures CreditOpen(after, a) ==> CreditOpen(db, a)
  {
    if CreditOpen(after, a) {
      var i :| 0 <= i < |after.transfers| && IsCredit(after.transfers[i], a) && Open(after.transfers[i].status);
      assert IsCredit(db.transfers[i], a) && Open(db.transfers[i].status);
    }
  }

  lemma MoveConfined(db: Db, after: Db, id: nat, t: Transfer, a: nat)
    requires Safe(db, a) && id < |db.transfers| && FivePairs(t.source, t.target)
    requires Open(db.transfers[id].status) && t == db.transfers[id].(status := t.status)
    requires t.status.Approved? || t.status.Done? || t.status.Rejected? || t.status.Cancelled?
    requires t.source.InAccount? || t.target.InAccount? ==> (t.status.Done? ==> t.moved)
    requires after.transfers == db.transfers[id := t] && after.equity == db.equity
    ensures Confined(after, a) && OpenOut(after, a) <= OpenOut(db, a)
  {
    Updated(db.transfers, id, t, a);
    Bounds(after.transfers, a);
  }

  lemma MoveSafe(db: Db, id: nat, seen: Status, new_: Status, a: nat)
    requires Safe(db, a) && Disciplined(db, MoveTransfer(id, seen, new_))
    requires MoveTransferTx(db, id, seen, new_).Some? && Sane(Next(db, MoveTransfer(id, seen, new_)))
    ensures Safe(Next(db, MoveTransfer(id, seen, new_)), a)
  {
    var after := Next(db, MoveTransfer(id, seen, new_));
    var t := db.transfers[id].(status := new_);
    assert FivePairs(t.source, t.target);
    assert after.transfers == db.transfers[id := t];
    MoveConfined(db, after, id, t, a);
    NoNewCredit(db, after, id, t, a);
  }

  lemma DeskSafe(db: Db, id: nat, a: nat)
    requires Safe(db, a) && DeskMovesTx(db, id).Some? && Sane(DeskMovesTx(db, id).value)
    ensures Safe(DeskMovesTx(db, id).value, a)
  {
    var after := DeskMovesTx(db, id).value;
    var t := db.transfers[id];
    assert FivePairs(t.source, t.target);
    Updated(db.transfers, id, t.(moved := true), a);
    Bounds(db.transfers, a);
    if IsCredit(t, a) {
      assert CreditOpen(db, a);
    }
    NoNewCredit(db, after, id, t.(moved := true), a);
  }

  lemma ConfirmSafe(db: Db, id: nat, named: Option<int>, owned: bool, a: nat)
    requires Safe(db, a) && ConfirmDepositTx(db, id, named, owned).Some?
    requires Sane(ConfirmDepositTx(db, id, named, owned).value)
    ensures Safe(ConfirmDepositTx(db, id, named, owned).value, a)
  {
    var after := ConfirmDepositTx(db, id, named, owned).value;
    if after.transfers == db.transfers {
      SameTransfers(db, after, a);
    } else {
      OtherAppended(db, after, after.transfers[|db.transfers|], a);
    }
  }

  lemma StepSafe(db: Db, e: Event, a: nat)
    requires Inv(db) && Safe(db, a) && Disciplined(db, e)
    ensures Safe(Next(db, e), a)
  {
    StepKeepsInv(db, e);
    if Apply(db, e).Some? {
      match e
      case ConfirmDeposit(id, named, owned) => ConfirmSafe(db, id, named, owned, a);
      case RequestTransfer(_, _, _, _, _) => RequestSafe(db, e, a);
      case MoveTransfer(id, seen, new_) => MoveSafe(db, id, seen, new_, a);
      case DeskMoves(id) => DeskSafe(db, id, a);
      case _ => SameTransfers(db, Next(db, e), a);
    }
  }

  // ---------------------------------------------------------------- whole runs

  /** THE PRINCIPAL STAYS, in every disciplined run, in every account. */
  lemma {:induction false} RunSafe(db: Db, run: seq<Event>, a: nat)
    requires Inv(db) && Safe(db, a) && DisciplinedRun(db, run)
    ensures Safe(Exec(db, run), a)
    ensures Principal(Exec(db, run), a) > 0 ==> Equity(Exec(db, run), a) >= Principal(Exec(db, run), a) as real
    decreases run
  {
    if run == [] {
      Bounds(db.transfers, a);
    } else {
      StepSafe(db, run[0], a);
      StepKeepsInv(db, run[0]);
      RunSafe(Next(db, run[0]), run[1..], a);
    }
  }

  lemma EmptyIsSafe(db: Db, a: nat)
    requires Fresh(db)
    ensures Inv(db) && Safe(db, a)
  {
  }

  /** The same from empty tables. */
  lemma RunSafeFromEmpty(db: Db, run: seq<Event>, a: nat)
    requires Fresh(db) && DisciplinedRun(db, run)
    ensures Principal(Exec(db, run), a) > 0 ==> Equity(Exec(db, run), a) >= Principal(Exec(db, run), a) as real
  {
    EmptyIsSafe(db, a);
    RunSafe(db, run, a);
  }

  // ---------------------------------------------------------------- credit that is funded and then withdrawn

  /** Credit funded at the broker whose request was rejected or cancelled afterwards: in the account,
      but no longer on the portal's books. */
  function CreditStranded(a: nat): Transfer -> int {
    (t: Transfer) =>
      if IsCredit(t, a) && t.moved && (t.status.Rejected? || t.status.Cancelled?) then t.amount else 0
  }

  ghost function Stranded(db: Db, a: nat): int {
    Sum(db.transfers, CreditStranded(a))
  }

  /** The request of funded credit is rejected by an admin or cancelled by the investor. */
  predicate Strands(db: Db, e: Event, a: nat) {
    && e.MoveTransfer? && Apply(db, e).Some? && (e.new_.Rejected? || e.new_.Cancelled?)
    && IsCredit(db.transfers[e.id], a) && db.transfers[e.id].moved && db.transfers[e.id].amount > 0
  }

  predicate StrandsInRun(db: Db, run: seq<Event>, a: nat)
    decreases run
  {
    run != [] && (Strands(db, run[0], a) || StrandsInRun(Next(db, run[0]), run[1..], a))
  }

  lemma {:induction false} StrandedIsNat(ts: seq<Transfer>, a: nat)
    ensures Sum(ts, CreditStranded(a)) >= 0
    decreases |ts|
  {
    if ts != [] {
      StrandedIsNat(ts[..|ts| - 1], a);
    }
  }

  lemma StrandedUpdate(ts: seq<Transfer>, id: nat, t: Transfer, a: nat)
    requires id < |ts|
    ensures Sum(ts[id := t], CreditStranded(a)) ==
            Sum(ts, CreditStranded(a)) - CreditStranded(a)(ts[id]) + CreditStranded(a)(t)
  {
    SumUpdate(ts, id, t, CreditStranded(a));
  }

  lemma StrandedAppend(ts: seq<Transfer>, t: Transfer, a: nat)
    requires !t.moved
    ensures Sum(ts + [t], CreditStranded(a)) == Sum(ts, CreditStranded(a))
  {
    SumAppend(ts, t, CreditStranded(a));
  }

  lemma StrandedByMove(db: Db, id: nat, seen: Status, new_: Status, a: nat)
    requires MoveTransferTx(db, id, seen, new_).Some?
    ensures Stranded(MoveTransferTx(db, id, seen, new_).value, a) ==
            Stranded(db, a) + if Strands(db, MoveTransfer(id, seen, new_), a) then db.transfers[id].amount else 0
  {
    StrandedUpdate(db.transfers, id, db.transfers[id].(status := new_), a);
  }

  lemma StepStranded(db: Db, e: Event, a: nat)
    ensures Stranded(Next(db, e), a) ==
            Stranded(db, a) + if Strands(db, e, a) then db.transfers[e.id].amount else 0
  {
    if Apply(db, e).Some? {
      var after := Next(db, e);
      match e
      case ConfirmDeposit(_, _, _) =>
        if after.transfers != db.transfers {
          StrandedAppend(db.transfers, after.transfers[|db.transfers|], a);
        }
      case RequestTransfer(_, _, _, _, _) => StrandedAppend(db.transfers, after.transfers[|db.transfers|], a);
      case MoveTransfer(id, seen, new_) => StrandedByMove(db, id, seen, new_, a);
      case DeskMoves(id) => StrandedUpdate(db.transfers, id, db.transfers[id].(moved := true), a);
      case _ => assert after.transfers == db.transfers;
    }
  }

  /** WHEN FUNDED CREDIT GOES OFF THE BOOKS: exactly when a run rejects or cancels a request whose credit
      the desk had already funded. */
  lemma {:induction false} StrandedExactly(db: Db, run: seq<Event>, a: nat)
    ensures Stranded(Exec(db, run), a) >= Stranded(db, a)
    ensures Stranded(Exec(db, run), a) > Stranded(db, a) <==> StrandsInRun(db, run, a)
    decreases run
  {
    if run != [] {
      StepStranded(db, run[0], a);
      StrandedExactly(Next(db, run[0]), run[1..], a);
    }
  }

  // ---------------------------------------------------------------- all funded credit

  /** Everything the desk ever funded, on the books or off them. */
  ghost function Funded(db: Db, a: nat): int {
    Principal(db, a) + Stranded(db, a)
  }

  /** What would be left after every promised payout covers all of it. */
  ghost predicate Whole(db: Db, a: nat) {
    Funded(db, a) > 0 ==> Equity(db, a) - Unpaid(db, a) as real >= Funded(db, a) as real
  }

  /** The equity a request of the account was checked against leaves room for the stranded credit too. */
  ghost predicate WholeReading(db: Db, e: Event, a: nat) {
    e.RequestTransfer? && e.source == InAccount(a) ==>
      if e.read.Some? then
        (e.read.value.Floor + Stranded(db, a)) as real <= Equity(db, a) + PaidStillOpen(db, a) as real
      else Stranded(db, a) <= 0
  }

  ghost predicate WholeRun(db: Db, run: seq<Event>, a: nat)
    decreases run
  {
    run == [] || (WholeReading(db, run[0], a) && WholeRun(Next(db, run[0]), run[1..], a))
  }

  lemma SameIsWhole(db: Db, after: Db, a: nat)
    requires Whole(db, a) && after.transfers == db.transfers && Equity(after, a) >= Equity(db, a)
    ensures Whole(after, a)
  {
  }

  lemma OtherIsWhole(db: Db, after: Db, t: Transfer, a: nat)
    requires Whole(db, a) && after.transfers == db.transfers + [t] && after.equity == db.equity
    requires !t.moved && t.source != InAccount(a) && (IsCredit(t, a) ==> !t.status.Done?)
    ensures Whole(after, a)
  {
    Appended(db.transfers, t, a);
    StrandedAppend(db.transfers, t, a);
  }

  /** What the cap lets out on such a reading leaves all of it. */
  lemma OutflowIsWhole(db: Db, after: Db, t: Transfer, a: nat, read: Option<real>)
    requires Whole(db, a) && after.transfers == db.transfers + [t] && after.equity == db.equity
    requires t.source == InAccount(a) && t.target.InWallet? && t.status.Requested? && !t.moved && t.amount > 0
    requires !CreditOpen(db, a)
    requires if read.Some? then
               && (read.value.Floor + Stranded(db, a)) as real <= Equity(db, a) + PaidStillOpen(db, a) as real
               && t.amount <= Movable(db, a, read.value)
             else Stranded(db, a) <= 0 && CreditFunded(db, a) <= 0
    ensures Whole(after, a)
  {
    Appended(db.transfers, t, a);
    StrandedAppend(db.transfers, t, a);
    Bounds(db.transfers, a);
    NothingMoving(db.transfers, a);
    if read.Some? {
      CapInCents(db, a, read.value, t.amount);
    }
  }

  lemma RequestIsWhole(db: Db, e: Event, a: nat)
    requires Whole(db, a) && e.RequestTransfer? && WholeReading(db, e, a) && Apply(db, e).Some? && Sane(Next(db, e))
    ensures Whole(Next(db, e), a)
  {
    var after := Next(db, e);
    var t := after.transfers[|db.transfers|];
    if t.source == InAccount(a) {
      OutflowIsWhole(db, after, t, a, e.read);
    } else {
      OtherIsWhole(db, after, t, a);
    }
  }

  /** Rejecting or cancelling funded credit moves it from the books to the stranded part. */
  lemma MoveIsWhole(db: Db, after: Db, id: nat, t: Transfer, a: nat)
    requires Whole(db, a) && id < |db.transfers| && FivePairs(t.source, t.target)
    requires Open(db.transfers[id].status) && t == db.transfers[id].(status := t.status)
    requires t.status.Approved? || t.status.Done? || t.status.Rejected? || t.status.Cancelled?
    requires t.source.InAccount? || t.target.InAccount? ==> (t.status.Done? ==> t.moved)
    requires after.transfers == db.transfers[id := t] && after.equity == db.equity
    ensures Whole(after, a)
  {
    Updated(db.transfers, id, t, a);
    StrandedUpdate(db.transfers, id, t, a);
  }

  /** Funding credit adds to what was funded, paying an outflow takes from what is unpaid. */
  lemma DeskFigures(ts: seq<Transfer>, id: nat, a: nat)
    requires id < |ts| && Open(ts[id].status) && !ts[id].moved && FivePairs(ts[id].source, ts[id].target)
    ensures var after, t := ts[id := ts[id].(moved := true)], ts[id];
            && Sum(after, CreditInto(a)) == Sum(ts, CreditInto(a))
            && Sum(after, CreditStranded(a)) == Sum(ts, CreditStranded(a))
            && Sum(after, CreditMoving(a)) == Sum(ts, CreditMoving(a)) + (if IsCredit(t, a) then t.amount else 0)
            && Sum(after, UnpaidOut(a)) == Sum(ts, UnpaidOut(a)) - (if t.source == InAccount(a) then t.amount else 0)
  {
    Updated(ts, id, ts[id].(moved := true), a);
    StrandedUpdate(ts, id, ts[id].(moved := true), a);
  }

  lemma DeskIsWhole(db: Db, id: nat, a: nat)
    requires Safe(db, a) && Whole(db, a) && DeskMovesTx(db, id).Some?
    ensures Whole(DeskMovesTx(db, id).value, a)
  {
    var t := db.transfers[id];
    assert FivePairs(t.source, t.target);
    DeskFigures(db.transfers, id, a);
    if IsCredit(t, a) {
      assert CreditOpen(db, a);
      Bounds(db.transfers, a);
    }
  }

  lemma DecisionIsWhole(db: Db, id: nat, seen: Status, new_: Status, a: nat)
    requires Sane(db) && Whole(db, a) && Disciplined(db, MoveTransfer(id, seen, new_))
    requires MoveTransferTx(db, id, seen, new_).Some?
    ensures Whole(Next(db, MoveTransfer(id, seen, new_)), a)
  {
    var t := db.transfers[id].(status := new_);
    assert FivePairs(t.source, t.target);
    MoveIsWhole(db, Next(db, MoveTransfer(id, seen, new_)), id, t, a);
  }

  lemma StepWhole(db: Db, e: Event, a: nat)
    requires Inv(db) && Safe(db, a) && Whole(db, a) && Disciplined(db, e) && WholeReading(db, e, a)
    ensures Whole(Next(db, e), a)
  {
    StepKeepsInv(db, e);
    if Apply(db, e).Some? {
      var after := Next(db, e);
      match e
      case ConfirmDeposit(_, _, _) =>
        if after.transfers == db.transfers {
          SameIsWhole(db, after, a);
        } else {
          OtherIsWhole(db, after, after.transfers[|db.transfers|], a);
        }
      case RequestTransfer(_, _, _, _, _) => RequestIsWhole(db, e, a);
      case MoveTransfer(id, seen, new_) => DecisionIsWhole(db, id, seen, new_, a);
      case DeskMoves(id) => DeskIsWhole(db, id, a);
      case _ => SameIsWhole(db, after, a);
    }
  }

  lemma {:induction false} RunWhole(db: Db, run: seq<Event>, a: nat)
    requires Inv(db) && Safe(db, a) && Whole(db, a) && DisciplinedRun(db, run) && WholeRun(db, run, a)
    ensures Whole(Exec(db, run), a)
    decreases run
  {
    if run != [] {
      StepWhole(db, run[0], a);
      StepSafe(db, run[0], a);
      StepKeepsInv(db, run[0]);
      RunWhole(Next(db, run[0]), run[1..], a);
    }
  }

  /** ALL FUNDED CREDIT STAYS, stranded or not, in every disciplined run whose readings leave room for what
      is stranded at the time. */
  lemma AllCreditStays(db: Db, run: seq<Event>, a: nat)
    requires Fresh(db) && DisciplinedRun(db, run) && WholeRun(db, run, a)
    ensures Funded(Exec(db, run), a) > 0 ==> Equity(Exec(db, run), a) >= Funded(Exec(db, run), a) as real
  {
    EmptyIsSafe(db, a);
    RunWhole(db, run, a);
    Bounds(Exec(db, run).transfers, a);
  }

  /** While none is stranded a sound reading leaves that room. */
  lemma {:induction false} UnstrandedIsWhole(db: Db, run: seq<Event>, a: nat)
    requires Stranded(db, a) == 0 && DisciplinedRun(db, run) && !StrandsInRun(db, run, a)
    ensures WholeRun(db, run, a)
    decreases run
  {
    if run != [] {
      StepStranded(db, run[0], a);
      UnstrandedIsWhole(Next(db, run[0]), run[1..], a);
    }
  }

  // ---------------------------------------------------------------- what was funded, row by row

  /** Bonus credit the desk has paid into the account, whatever became of its request. */
  function PaidIn(a: nat): Transfer -> int {
    (t: Transfer) => if t.source == InWallet(Credit) && t.target == InAccount(a) && t.moved then t.amount else 0
  }

  /** A transfer out of the credit wallet is marked done only when it was moved, and is never pending or paid. */
  ghost predicate Honoured(t: Transfer) {
    t.source == InWallet(Credit) ==>
      && (t.status.Done? ==> t.moved)
      && (Open(t.status) || t.status.Done? || t.status.Rejected? || t.status.Cancelled?)
  }

  ghost predicate AllHonoured(db: Db) {
    forall i | 0 <= i < |db.transfers| :: Honoured(db.transfers[i])
  }

  lemma {:induction false} FundedIsPaidIn(ts: seq<Transfer>, a: nat)
    requires forall i | 0 <= i < |ts| :: Honoured(ts[i])
    ensures Sum(ts, CreditInto(a)) + Sum(ts, CreditMoving(a)) + Sum(ts, CreditStranded(a)) == Sum(ts, PaidIn(a))
    decreases |ts|
  {
    if ts != [] {
      FundedIsPaidIn(ts[..|ts| - 1], a);
      assert Honoured(ts[|ts| - 1]);
    }
  }

  lemma StepHonours(db: Db, e: Event)
    requires Inv(db) && AllHonoured(db) && DeskDisciplined(db, e)
    ensures AllHonoured(Next(db, e))
  {
    if Apply(db, e).Some? {
      match e
      case MoveTransfer(id, _, _) => assert FivePairs(db.transfers[id].source, db.transfers[id].target);
      case _ =>
    }
  }

  lemma {:induction false} RunHonours(db: Db, run: seq<Event>)
    requires Inv(db) && AllHonoured(db) && DisciplinedRun(db, run)
    ensures AllHonoured(Exec(db, run))
    decreases run
  {
    if run != [] {
      StepHonours(db, run[0]);
      StepKeepsInv(db, run[0]);
      RunHonours(Next(db, run[0]), run[1..]);
    }
  }

  /** EVERY CENT THE DESK PAID IN: in every such run the account keeps at least the sum of all bonus transfers
      the desk moved into it, open, done, rejected or cancelled. */
  lemma PaidInStays(db: Db, run: seq<Event>, a: nat)
    requires Fresh(db) && DisciplinedRun(db, run) && WholeRun(db, run, a)
    ensures var end := Exec(db, run);
            Sum(end.transfers, PaidIn(a)) > 0 ==> Equity(end, a) >= Sum(end.transfers, PaidIn(a)) as real
  {
    EmptyIsSafe(db, a);
    RunHonours(db, run);
    AllCreditStays(db, run, a);
    FundedIsPaidIn(Exec(db, run).transfers, a);
  }
}
