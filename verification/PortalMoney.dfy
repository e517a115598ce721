/**
 Whole-run accounting of the client-money tables: a wallet's balance is what its requests
 say it is, and it is never promised twice.
 */
module PortalMoney {
  import opened Base
  import opened Ledger
  import opened Portal
  import Money

  // ---------------------------------------------------------------- what the requests add up to

  function DepositPart(w: Wallet): Deposit -> int {
    (d: Deposit) => if w.Main? && d.status.Confirmed? then d.credited else 0
  }

  function WithdrawalPart(w: Wallet): Withdrawal -> int {
    (x: Withdrawal) => if w.Main? && x.status.Paid? then 0 - x.amount else 0
  }

  function TransferPart(w: Wallet): Transfer -> int {
    (t: Transfer) =>
      if !t.status.Done? then 0
      else (if t.target == InWallet(w) then t.amount else 0) - (if t.source == InWallet(w) then t.amount else 0)
  }

  function BonusPart(w: Wallet): Bonus -> int {
    (b: Bonus) => if w.Credit? then b.amount else 0
  }

  function AdjustmentPart(w: Wallet): Entry -> int {
    (e: Entry) => if e.ref.None? && e.wallet == w then e.amount else 0
  }

  /** What the request tables and the hand-posted adjustments say the wallet holds. */
  ghost function Owed(db: Db, w: Wallet): int {
    Sum(db.deposits, DepositPart(w)) + Sum(db.withdrawals, WithdrawalPart(w)) + Sum(db.transfers, TransferPart(w))
    + Sum(db.bonuses, BonusPart(w)) + Sum(db.entries, AdjustmentPart(w))
  }

  function TakenDown(w: Wallet): Entry -> int {
    (e: Entry) => if e.ref.None? && e.wallet == w && e.amount < 0 then -e.amount else 0
  }

  /** Everything admins took off the wallet by hand. */
  ghost function TakenByHand(db: Db, w: Wallet): int {
    Sum(db.entries, TakenDown(w))
  }

  ghost predicate Conserved(db: Db) {
    forall w: Wallet :: Balance(db.entries, w) == Owed(db, w)
  }

  /** Available never falls below zero by more than what was taken by hand. */
  ghost predicate Covered(db: Db) {
    forall w: Wallet :: Available(db, w) + TakenByHand(db, w) >= 0
  }

  // ---------------------------------------------------------------- deltas

  ghost function Drift(db: Db, w: Wallet): int {
    Balance(db.entries, w) - Owed(db, w)
  }

  ghost function Slack(db: Db, w: Wallet): int {
    Balance(db.entries, w) - Hold(db, w) + TakenByHand(db, w)
  }

  lemma EntryDelta(entries: seq<Entry>, e: Entry, w: Wallet)
    ensures Balance(entries + [e], w) == Balance(entries, w) + OnWallet(w)(e)
    ensures Sum(entries + [e], AdjustmentPart(w)) == Sum(entries, AdjustmentPart(w)) + AdjustmentPart(w)(e)
    ensures Sum(entries + [e], TakenDown(w)) == Sum(entries, TakenDown(w)) + TakenDown(w)(e)
  {
    SumAppend(entries, e, OnWallet(w));
    SumAppend(entries, e, AdjustmentPart(w));
    SumAppend(entries, e, TakenDown(w));
  }

  lemma TransferDelta(ts: seq<Transfer>, id: nat, t: Transfer, w: Wallet)
    requires id < |ts|
    ensures Sum(ts[id := t], TransferHold(w)) == Sum(ts, TransferHold(w)) - TransferHold(w)(ts[id]) + TransferHold(w)(t)
    ensures Sum(ts[id := t], TransferPart(w)) == Sum(ts, TransferPart(w)) - TransferPart(w)(ts[id]) + TransferPart(w)(t)
  {
    SumUpdate(ts, id, t, TransferHold(w));
    SumUpdate(ts, id, t, TransferPart(w));
  }

  lemma TransferAppended(ts: seq<Transfer>, t: Transfer, w: Wallet)
    ensures Sum(ts + [t], TransferHold(w)) == Sum(ts, TransferHold(w)) + TransferHold(w)(t)
    ensures Sum(ts + [t], TransferPart(w)) == Sum(ts, TransferPart(w)) + TransferPart(w)(t)
  {
    SumAppend(ts, t, TransferHold(w));
    SumAppend(ts, t, TransferPart(w));
  }

  lemma WithdrawalDelta(xs: seq<Withdrawal>, id: nat, x: Withdrawal, w: Wallet)
    requires id < |xs|
    ensures Sum(xs[id := x], WithdrawalHold(w)) ==
            Sum(xs, WithdrawalHold(w)) - WithdrawalHold(w)(xs[id]) + WithdrawalHold(w)(x)
    ensures Sum(xs[id := x], WithdrawalPart(w)) ==
            Sum(xs, WithdrawalPart(w)) - WithdrawalPart(w)(xs[id]) + WithdrawalPart(w)(x)
  {
    SumUpdate(xs, id, x, WithdrawalHold(w));
    SumUpdate(xs, id, x, WithdrawalPart(w));
  }

  /** Neither drifts nor is promised beyond what it holds. */
  ghost predicate Moves(db: Db, after: Db, w: Wallet) {
    Drift(after, w) == Drift(db, w) && (Slack(after, w) >= Slack(db, w) || Available(after, w) >= 0)
  }

  /** A bonus row with its entry raises balance and account alike. */
  lemma BonusRowDelta(db: Db, b: Bonus, w: Wallet)
    ensures var after := db.(bonuses := db.bonuses + [b], entries := db.entries + [BonusEntry(|db.bonuses|, b.amount)]);
            && Drift(after, w) == Drift(db, w)
            && Slack(after, w) == Slack(db, w) + (if w.Credit? then b.amount else 0)
            && Available(after, w) == Available(db, w) + (if w.Credit? then b.amount else 0)
  {
    var e := BonusEntry(|db.bonuses|, b.amount);
    var after := db.(bonuses := db.bonuses + [b], entries := db.entries + [e]);
    EntryDelta(db.entries, e, w);
    SumAppend(db.bonuses, b, BonusPart(w));
    assert Hold(after, w) == Hold(db, w);
    assert OnWallet(w)(e) == BonusPart(w)(b) == if w.Credit? then b.amount else 0;
    assert AdjustmentPart(w)(e) == 0 && TakenDown(w)(e) == 0;
  }

  lemma PayDelta(db: Db, b: Bonus, w: Wallet)
    requires Inv(db)
    ensures PayTx(db, b).Some?
    ensures var after := PayTx(db, b).value;
            && Drift(after, w) == Drift(db, w)
            && Slack(after, w) - Slack(db, w) == Available(after, w) - Available(db, w)
            && (Available(after, w) == Available(db, w)
                || Available(after, w) == Available(db, w) + (if w.Credit? then b.amount else 0))
  {
    PayKeeps(db, b);
    BonusRowDelta(db, b, w);
  }

  lemma DepositAppended(db: Db, d: Deposit, w: Wallet)
    requires d.status.Pending?
    ensures Moves(db, db.(deposits := db.deposits + [d]), w)
  {
    SumAppend(db.deposits, d, DepositPart(w));
  }

  lemma FileDelta(db: Db, amount: nat, pct: real, target: Option<nat>, w: Wallet)
    requires FileDepositTx(db, amount, pct, target).Some?
    ensures Moves(db, FileDepositTx(db, amount, pct, target).value, w)
  {
    DepositAppended(db, Deposit(amount, Money.Fee(amount, pct), target, Pending, 0), w);
  }

  lemma CloseDelta(db: Db, id: nat, new_: Status, w: Wallet)
    requires CloseDepositTx(db, id, new_).Some? && !new_.Confirmed?
    ensures Moves(db, CloseDepositTx(db, id, new_).value, w)
  {
    SumUpdate(db.deposits, id, db.deposits[id].(status := new_), DepositPart(w));
  }

  lemma CreditDelta(db: Db, id: nat, credited: int, w: Wallet)
    requires Inv(db) && id < |db.deposits| && db.deposits[id].status.Pending?
    ensures Drift(CreditDeposit(db, id, credited), w) == Drift(db, w)
    ensures Slack(CreditDeposit(db, id, credited), w) == Slack(db, w) + if w.Main? then credited else 0
  {
    CreditKeeps(db, id, credited);
    EntryDelta(db.entries, Entry(Main, credited, Some(Ref(Deposits, id))), w);
    SumUpdate(db.deposits, id, CreditDeposit(db, id, credited).deposits[id], DepositPart(w));
  }

  lemma EarmarkDelta(db: Db, target: Option<nat>, owned: bool, credited: nat, w: Wallet)
    ensures Drift(EarmarkDeposit(db, target, owned, credited), w) == Drift(db, w)
    ensures Slack(EarmarkDeposit(db, target, owned, credited), w) >= Slack(db, w) - if w.Main? then credited else 0
  {
    if target.Some? && owned {
      TransferAppended(db.transfers,
                       Transfer(InWallet(Main), InAccount(target.value), credited, Approved, None, false), w);
    }
  }

  lemma ConfirmDelta(db: Db, id: nat, named: Option<int>, owned: bool, w: Wallet)
    requires Inv(db) && ConfirmDepositTx(db, id, named, owned).Some?
    ensures var after := ConfirmDepositTx(db, id, named, owned).value;
            Drift(after, w) == Drift(db, w) && Slack(after, w) >= Slack(db, w)
  {
    var credited := CreditedAmount(db.deposits[id], named);
    var a := CreditDeposit(db, id, credited);
    CreditKeeps(db, id, credited);
    CreditDelta(db, id, credited, w);
    EarmarkKeeps(a, db.deposits[id].target, owned, credited);
    EarmarkDelta(a, db.deposits[id].target, owned, credited, w);
    Money.DepositBonusBounds(credited, db.rules.depositPct, db.rules.depositCap);
    PayDelta(EarmarkDeposit(a, db.deposits[id].target, owned, credited),
             Bonus(DepositRule, Some(id), RuleBonus(db.rules, DepositRule, credited)), w);
  }

  lemma WithdrawalAppended(db: Db, x: Withdrawal, w: Wallet)
    requires x.status.Requested? && x.amount <= Available(db, Main)
    ensures Moves(db, db.(withdrawals := db.withdrawals + [x]), w)
  {
    SumAppend(db.withdrawals, x, WithdrawalHold(w));
    SumAppend(db.withdrawals, x, WithdrawalPart(w));
  }

  lemma RequestWithdrawalDelta(db: Db, amount: nat, minimum: nat, pct: real, w: Wallet)
    requires RequestWithdrawalTx(db, amount, minimum, pct, false).Some?
    ensures Moves(db, RequestWithdrawalTx(db, amount, minimum, pct, false).value, w)
  {
    var fee := Money.Fee(amount, pct);
    WithdrawalAppended(db, Withdrawal(amount, fee, amount - fee, Requested), w);
  }

  lemma MoveWithdrawalDelta(db: Db, id: nat, seen: Status, new_: Status, w: Wallet)
    requires MoveWithdrawalTx(db, id, seen, new_).Some?
    ensures Moves(db, MoveWithdrawalTx(db, id, seen, new_).value, w)
  {
    WithdrawalDelta(db.withdrawals, id, db.withdrawals[id].(status := new_), w);
  }

  /** Paying turns the hold into a debit: what is available does not move. */
  lemma PayingMovesNothing(db: Db, id: nat, w: Wallet)
    requires Inv(db) && PayWithdrawalTx(db, id).Some?
    ensures var after := PayWithdrawalTx(db, id).value;
            && Available(after, w) == Available(db, w)
            && Drift(after, w) == Drift(db, w) && Slack(after, w) == Slack(db, w)
            && (w.Main? ==> Balance(after.entries, w) == Balance(db.entries, w) - db.withdrawals[id].amount)
  {
    var after := PayWithdrawalTx(db, id).value;
    var e := Entry(Main, 0 - db.withdrawals[id].amount, Some(Ref(Withdrawals, id)));
    NotYet(db, e);
    EntryDelta(db.entries, e, w);
    WithdrawalDelta(db.withdrawals, id, after.withdrawals[id], w);
  }

  lemma TwoRows(entries: seq<Entry>, id: nat, t: Transfer, w: Wallet)
    ensures RowsOf(entries, entries + OutRow(id, t) + InRow(id, t), t, w)
  {
    RowDelta(entries, OutRow(id, t), w);
    RowDelta(entries + OutRow(id, t), InRow(id, t), w);
  }

  lemma SettleDelta(db: Db, id: nat, t: Transfer, w: Wallet)
    requires Inv(db) && FivePairs(t.source, t.target)
    requires id < |db.transfers| ==> !db.transfers[id].status.Done?
    ensures RowsOf(db.entries, SettleTransfer(db.entries, id, t), t, w)
  {
    SettleWrites(db, id, t);
    TwoRows(db.entries, id, t, w);
  }

  lemma RowDelta(entries: seq<Entry>, row: seq<Entry>, w: Wallet)
    requires row == [] || (|row| == 1 && row[0].ref.Some?)
    ensures Balance(entries + row, w) == Balance(entries, w) + if row == [] then 0 else OnWallet(w)(row[0])
    ensures Sum(entries + row, AdjustmentPart(w)) == Sum(entries, AdjustmentPart(w))
    ensures Sum(entries + row, TakenDown(w)) == Sum(entries, TakenDown(w))
  {
    if row == [] {
      assert entries + row == entries;
    } else {
      assert row == [row[0]];
      EntryDelta(entries, row[0], w);
    }
  }

  lemma OpenTransferDelta(db: Db, t: Transfer, w: Wallet)
    requires t.status.Requested? && (t.source.InWallet? ==> t.amount <= Available(db, t.source.wallet))
    ensures Moves(db, db.(transfers := db.transfers + [t]), w)
  {
    TransferAppended(db.transfers, t, w);
  }

  lemma InstantTransferDelta(db: Db, after: Db, t: Transfer, w: Wallet)
    requires t.status.Done? && t.source.InWallet? && t.amount <= Available(db, t.source.wallet)
    requires after == db.(transfers := db.transfers + [t], entries := after.entries)
    requires RowsOf(db.entries, after.entries, t, w)
    ensures Moves(db, after, w)
  {
    TransferAppended(db.transfers, t, w);
  }

  lemma RequestTransferDelta(db: Db, source: End, target: End, amount: nat, read: Option<real>, w: Wallet)
    requires Inv(db) && RequestTransferTx(db, source, target, amount, read, false).Some?
    ensures Moves(db, RequestTransferTx(db, source, target, amount, read, false).value, w)
  {
    var after := RequestTransferTx(db, source, target, amount, read, false).value;
    var id := |db.transfers|;
    var t := after.transfers[id];
    assert after.transfers == db.transfers + [t];
    if t.status.Done? {
      SettleDelta(db, id, t, w);
      InstantTransferDelta(db, after, t, w);
    } else {
      assert after == db.(transfers := db.transfers + [t]);
      OpenTransferDelta(db, t, w);
    }
  }

  /** The ledger gained exactly the rows of `t`. */
  ghost predicate RowsOf(before: seq<Entry>, after: seq<Entry>, t: Transfer, w: Wallet) {
    && Balance(after, w) == Balance(before, w)
                            + (if t.target == InWallet(w) then t.amount else 0)
                            - (if t.source == InWallet(w) then t.amount else 0)
    && Sum(after, AdjustmentPart(w)) == Sum(before, AdjustmentPart(w))
    && Sum(after, TakenDown(w)) == Sum(before, TakenDown(w))
  }

  lemma FinishSums(db: Db, after: Db, id: nat, w: Wallet)
    requires id < |db.transfers| && Open(db.transfers[id].status)
    requires RowsOf(db.entries, after.entries, db.transfers[id], w)
    requires after == db.(transfers := db.transfers[id := db.transfers[id].(status := Done)], entries := after.entries)
    ensures Drift(after, w) == Drift(db, w)
    ensures Slack(after, w) ==
            Slack(db, w) + if db.transfers[id].target == InWallet(w) then db.transfers[id].amount else 0
    ensures Available(after, w) ==
            Available(db, w) + if db.transfers[id].target == InWallet(w) then db.transfers[id].amount else 0
  {
    TransferDelta(db.transfers, id, db.transfers[id].(status := Done), w);
  }

  /** Finishing a transfer turns its hold into a debit: only the wallet it lands in gains. */
  lemma FinishDelta(db: Db, id: nat, seen: Status, w: Wallet)
    requires Inv(db) && MoveTransferTx(db, id, seen, Done).Some?
    ensures var t, after := db.transfers[id], MoveTransferTx(db, id, seen, Done).value;
            && Drift(after, w) == Drift(db, w) && Slack(after, w) >= Slack(db, w)
            && Available(after, w) == Available(db, w) + if t.target == InWallet(w) then t.amount else 0
  {
    SettleDelta(db, id, db.transfers[id], w);
    FinishSums(db, MoveTransferTx(db, id, seen, Done).value, id, w);
  }

  lemma MoveTransferDelta(db: Db, id: nat, seen: Status, new_: Status, w: Wallet)
    requires Inv(db) && MoveTransferTx(db, id, seen, new_).Some?
    ensures var after := MoveTransferTx(db, id, seen, new_).value;
            Drift(after, w) == Drift(db, w) && Slack(after, w) >= Slack(db, w)
  {
    if new_.Done? {
      FinishDelta(db, id, seen, w);
    } else {
      TransferDelta(db.transfers, id, db.transfers[id].(status := new_), w);
    }
  }

  lemma DeskDelta(db: Db, id: nat, w: Wallet)
    requires DeskMovesTx(db, id).Some?
    ensures Moves(db, DeskMovesTx(db, id).value, w)
  {
    TransferDelta(db.transfers, id, db.transfers[id].(moved := true), w);
  }

  lemma GrantDelta(db: Db, grant: int, w: Wallet)
    requires Inv(db) && GrantBonusTx(db, grant).Some?
    ensures Moves(db, GrantBonusTx(db, grant).value, w)
  {
    PayDelta(db, Bonus(Manual, None, grant), w);
  }

  lemma AwardDelta(db: Db, rule: Source, w: Wallet)
    requires Inv(db) && (rule.Signup? || rule.Kyc?)
    ensures PayTx(db, Bonus(rule, None, RuleBonus(db.rules, rule, 0))).Some?
    ensures Moves(db, PayTx(db, Bonus(rule, None, RuleBonus(db.rules, rule, 0))).value, w)
  {
    PayDelta(db, Bonus(rule, None, RuleBonus(db.rules, rule, 0)), w);
  }

  lemma AdjustDelta(db: Db, v: Wallet, change: int, w: Wallet)
    ensures Moves(db, db.(entries := db.entries + [Entry(v, change, None)]), w)
  {
    EntryDelta(db.entries, Entry(v, change, None), w);
  }

  lemma RequestsDelta(db: Db, e: Event, w: Wallet)
    requires Inv(db) && Apply(db, e).Some?
    requires e.FileDeposit? || e.CancelDeposit? || e.RejectDeposit? || e.ConfirmDeposit? || e.RequestWithdrawal?
             || e.MoveWithdrawal? || e.PayWithdrawal?
    ensures Moves(db, Apply(db, e).value, w)
  {
    match e
    case FileDeposit(amount, pct, target) => FileDelta(db, amount, pct, target, w);
    case CancelDeposit(id) => CloseDelta(db, id, Cancelled, w);
    case RejectDeposit(id) => CloseDelta(db, id, Rejected, w);
    case ConfirmDeposit(id, credited, owned) => ConfirmDelta(db, id, credited, owned, w);
    case RequestWithdrawal(amount, minimum, pct, _) => RequestWithdrawalDelta(db, amount, minimum, pct, w);
    case MoveWithdrawal(id, seen, new_) => MoveWithdrawalDelta(db, id, seen, new_, w);
    case PayWithdrawal(id) => PayingMovesNothing(db, id, w);
  }

  lemma TransfersDelta(db: Db, e: Event, w: Wallet)
    requires Inv(db) && Apply(db, e).Some? && (e.RequestTransfer? || e.MoveTransfer? || e.DeskMoves?)
    ensures Moves(db, Apply(db, e).value, w)
  {
    match e
    case RequestTransfer(source, target, amount, read, _) => RequestTransferDelta(db, source, target, amount, read, w);
    case MoveTransfer(id, seen, new_) => MoveTransferDelta(db, id, seen, new_, w);
    case DeskMoves(id) => DeskDelta(db, id, w);
  }

  lemma BonusesDelta(db: Db, e: Event, w: Wallet)
    requires Inv(db) && Apply(db, e).Some? && (e.GrantBonus? || e.AwardRule?)
    ensures Moves(db, Apply(db, e).value, w)
  {
    if e.GrantBonus? {
      GrantDelta(db, e.grant, w);
    } else {
      AwardDelta(db, e.rule, w);
    }
  }

  lemma SameTables(db: Db, after: Db, w: Wallet)
    requires after.entries == db.entries && after.deposits == db.deposits && after.withdrawals == db.withdrawals
    requires after.transfers == db.transfers && after.bonuses == db.bonuses
    ensures Moves(db, after, w)
  {
  }

  lemma OthersDelta(db: Db, e: Event, w: Wallet)
    requires Apply(db, e).Some? && (e.Adjust? || e.SetRules? || e.Profit?)
    ensures Moves(db, Apply(db, e).value, w)
  {
    var after := Apply(db, e).value;
    if e.Adjust? {
      assert after == db.(entries := db.entries + [Entry(e.wallet, e.change, None)]);
      AdjustDelta(db, e.wallet, e.change, w);
    } else {
      SameTables(db, after, w);
    }
  }

  lemma StepDelta(db: Db, e: Event, w: Wallet)
    requires Inv(db)
    ensures Drift(Next(db, e), w) == Drift(db, w)
    ensures Slack(Next(db, e), w) >= Slack(db, w) || Available(Next(db, e), w) >= 0
  {
    if Apply(db, e).Some? {
      if e.FileDeposit? || e.CancelDeposit? || e.RejectDeposit? || e.ConfirmDeposit? || e.RequestWithdrawal?
         || e.MoveWithdrawal? || e.PayWithdrawal? {
        RequestsDelta(db, e, w);
      } else if e.RequestTransfer? || e.MoveTransfer? || e.DeskMoves? {
        TransfersDelta(db, e, w);
      } else if e.GrantBonus? || e.AwardRule? {
        BonusesDelta(db, e, w);
      } else {
        OthersDelta(db, e, w);
      }
    }
  }

  lemma {:induction false} TakenByHandIsNat(entries: seq<Entry>, w: Wallet)
    ensures Sum(entries, TakenDown(w)) >= 0
    decreases |entries|
  {
    if entries != [] {
      TakenByHandIsNat(entries[..|entries| - 1], w);
    }
  }

  // ---------------------------------------------------------------- whole runs

  ghost predicate Accounted(db: Db) {
    Inv(db) && Conserved(db) && Covered(db)
  }

  lemma StepAccounted(db: Db, e: Event)
    requires Accounted(db)
    ensures Accounted(Next(db, e))
  {
    StepKeepsInv(db, e);
    forall w: Wallet
      ensures Balance(Next(db, e).entries, w) == Owed(Next(db, e), w)
      ensures Available(Next(db, e), w) + TakenByHand(Next(db, e), w) >= 0
    {
      assert Drift(db, w) == 0 && Slack(db, w) >= 0;
      StepDelta(db, e, w);
      TakenByHandIsNat(Next(db, e).entries, w);
    }
  }

  /** EVERY RUN of every transaction: ledger rows and settled requests match
      one to one, every balance is what its requests add up to, and no wallet is promised beyond
      its balance by more than what admins took off it by hand. */
  lemma {:induction false} RunAccounted(db: Db, run: seq<Event>)
    requires Accounted(db)
    ensures Accounted(Exec(db, run))
    decreases run
  {
    if run != [] {
      StepAccounted(db, run[0]);
      RunAccounted(Next(db, run[0]), run[1..]);
    }
  }

  lemma FreshAccounted(db: Db)
    requires Fresh(db)
    ensures Accounted(db)
  {
  }

  /** The same from empty tables. */
  lemma RunAccountedFromEmpty(db: Db, run: seq<Event>)
    requires Fresh(db)
    ensures Accounted(Exec(db, run))
  {
    FreshAccounted(db);
    RunAccounted(db, run);
  }

  predicate NoTakeDowns(run: seq<Event>) {
    forall i | 0 <= i < |run| && run[i].Adjust? :: run[i].change >= 0
  }

  /** NO OVERDRAFT: with no negative adjustment in the run, claw-backs included, every wallet's
      available figure ends at zero or more. */
  lemma {:induction false} NeverOverdrawn(db: Db, run: seq<Event>, w: Wallet)
    requires Accounted(db) && TakenByHand(db, w) == 0 && NoTakeDowns(run)
    ensures Available(Exec(db, run), w) >= 0
    decreases run
  {
    if run != [] {
      StepAccounted(db, run[0]);
      TakenSteps(db, run[0], w);
      NeverOverdrawn(Next(db, run[0]), run[1..], w);
    }
  }

  lemma NeverOverdrawnFromEmpty(db: Db, run: seq<Event>, w: Wallet)
    requires Fresh(db) && NoTakeDowns(run)
    ensures Available(Exec(db, run), w) >= 0
  {
    FreshAccounted(db);
    NeverOverdrawn(db, run, w);
  }

  lemma SettledTakes(entries: seq<Entry>, e: Entry, w: Wallet)
    requires e.ref.Some?
    ensures Sum(Settled(entries, e), TakenDown(w)) == Sum(entries, TakenDown(w))
  {
    EntryDelta(entries, e, w);
  }

  lemma SettleTransferTakes(entries: seq<Entry>, id: nat, t: Transfer, w: Wallet)
    ensures Sum(SettleTransfer(entries, id, t), TakenDown(w)) == Sum(entries, TakenDown(w))
  {
    var out := entries;
    if t.source.InWallet? {
      SettledTakes(out, OutRow(id, t)[0], w);
      out := Settled(out, OutRow(id, t)[0]);
    }
    if t.target.InWallet? {
      SettledTakes(out, InRow(id, t)[0], w);
    }
  }

  lemma TransferTakes(db: Db, e: Event, w: Wallet)
    requires Apply(db, e).Some? && (e.RequestTransfer? || e.MoveTransfer?)
    ensures TakenByHand(Apply(db, e).value, w) == TakenByHand(db, w)
  {
    match e
    case RequestTransfer(_, _, _, _, _) =>
      SettleTransferTakes(db.entries, |db.transfers|, Apply(db, e).value.transfers[|db.transfers|], w);
    case MoveTransfer(id, _, _) => SettleTransferTakes(db.entries, id, db.transfers[id], w);
  }

  lemma BonusTakes(db: Db, e: Event, w: Wallet)
    requires Apply(db, e).Some? && (e.GrantBonus? || e.AwardRule?)
    ensures TakenByHand(Apply(db, e).value, w) == TakenByHand(db, w)
  {
    var b :=
      if e.GrantBonus? then Bonus(Manual, None, e.grant)
      else Bonus(e.rule, None, RuleBonus(db.rules, e.rule, 0));
    PayTakes(db.bonuses, db.entries, b, w);
    assert Apply(db, e) == PayTx(db, b);
  }

  lemma PaidTakes(db: Db, id: nat, w: Wallet)
    requires PayWithdrawalTx(db, id).Some?
    ensures TakenByHand(PayWithdrawalTx(db, id).value, w) == TakenByHand(db, w)
  {
    SettledTakes(db.entries, Entry(Main, 0 - db.withdrawals[id].amount, Some(Ref(Withdrawals, id))), w);
  }

  lemma AdjustTakes(db: Db, v: Wallet, change: int, w: Wallet)
    ensures TakenByHand(db.(entries := db.entries + [Entry(v, change, None)]), w) ==
            TakenByHand(db, w) + if v == w && change < 0 then -change else 0
  {
    EntryDelta(db.entries, Entry(v, change, None), w);
  }

  lemma SameEntries(db: Db, after: Db, w: Wallet)
    requires after.entries == db.entries
    ensures TakenByHand(after, w) == TakenByHand(db, w)
  {
  }

  /** Only an adjustment takes down by hand. */
  lemma TakenSteps(db: Db, e: Event, w: Wallet)
    ensures TakenByHand(Next(db, e), w)
         == TakenByHand(db, w) + if e.Adjust? && e.wallet == w && e.change < 0 then -e.change else 0
  {
    if Apply(db, e).Some? {
      match e
      case ConfirmDeposit(id, named, owned) => ConfirmTakes(db, id, named, owned, w);
      case PayWithdrawal(id) => PaidTakes(db, id, w);
      case RequestTransfer(_, _, _, _, _) => TransferTakes(db, e, w);
      case MoveTransfer(_, _, _) => TransferTakes(db, e, w);
      case Adjust(v, change) => AdjustTakes(db, v, change, w);
      case GrantBonus(_) => BonusTakes(db, e, w);
      case AwardRule(_) => BonusTakes(db, e, w);
      case _ => SameEntries(db, Next(db, e), w);
    }
  }

  lemma PayTakes(bonuses: seq<Bonus>, entries: seq<Entry>, b: Bonus, w: Wallet)
    ensures Sum(PayBonus(bonuses, entries, b).1, TakenDown(w)) == Sum(entries, TakenDown(w))
  {
    EntryDelta(entries, BonusEntry(|bonuses|, b.amount), w);
  }

  lemma ConfirmTakes(db: Db, id: nat, named: Option<int>, owned: bool, w: Wallet)
    requires ConfirmDepositTx(db, id, named, owned).Some?
    ensures TakenByHand(ConfirmDepositTx(db, id, named, owned).value, w) == TakenByHand(db, w)
  {
    var credited := CreditedAmount(db.deposits[id], named);
    var e := Entry(Main, credited, Some(Ref(Deposits, id)));
    EntryDelta(db.entries, e, w);
    var b := Bonus(DepositRule, Some(id), RuleBonus(db.rules, DepositRule, credited));
    PayTakes(db.bonuses, Settled(db.entries, e), b, w);
  }
}
