/**
 What each transaction of the portal admits and what it does, exactly: when it is accepted, what it adds to
 every wallet's balance and hold and to every account, and where a request may go from each status.
 */
module PortalExact {
  import opened Base
  import opened Ledger
  import opened Portal
  import opened PortalMoney
  import Money

  // ---------------------------------------------------------------- when a transaction is accepted

  ghost predicate Waits(s: Status) {
    s == Requested || s == Approved
  }

  /** What the account's open outflows add up to. */
  function PromisedOut(a: nat): Transfer -> int {
    (t: Transfer) => if t.source == InAccount(a) && (t.status == Requested || t.status == Approved) then t.amount else 0
  }

  /** The bonus credit moved into the account and marked done. */
  function CreditIn(a: nat): Transfer -> int {
    (t: Transfer) =>
      if t.source == InWallet(Credit) && t.target == InAccount(a) && t.status == Done then t.amount else 0
  }

  ghost function Promised(db: Db, a: nat): int {
    Sum(db.transfers, PromisedOut(a))
  }

  ghost function Credited(db: Db, a: nat): int {
    Sum(db.transfers, CreditIn(a))
  }

  /** What a wallet has that no open request has spoken for. */
  ghost function Free(db: Db, w: Wallet): int {
    Balance(db.entries, w) - Hold(db, w)
  }

  /** What confirming a deposit credits: what the admin names, or the amount less the fee. */
  ghost function ToCredit(d: Deposit, named: Option<int>): int {
    if named.Some? then named.value else d.amount - d.fee
  }

  ghost predicate CreditOnItsWay(db: Db, a: nat) {
    exists i :: 0 <= i < |db.transfers| && db.transfers[i].source == InWallet(Credit)
                && db.transfers[i].target == InAccount(a) && Waits(db.transfers[i].status)
  }

  ghost predicate TransferAdmitted(db: Db, source: End, target: End, amount: nat, read: Option<real>) {
    && amount > 0 && FivePairs(source, target)
    && (source.InWallet? ==> amount <= Free(db, source.wallet))
    && (source == InWallet(Credit) ==> Promised(db, target.account) <= 0)
    && (source.InAccount? ==>
          && !CreditOnItsWay(db, source.account)
          && (if read.Some? then
                (amount + Promised(db, source.account) + Credited(db, source.account)) as real <= read.value
              else Credited(db, source.account) <= 0))
  }

  ghost predicate DecisionAdmitted(db: Db, t: Transfer, new_: Status) {
    && (t.status == Requested ==> new_ == Approved || new_ == Done || new_ == Rejected || new_ == Cancelled)
    && (t.status == Approved ==> new_ == Done || new_ == Rejected)
    && Waits(t.status)
    && ((new_ == Approved || new_ == Done) && t.source.InAccount? && t.equityAtRequest.Some? && t.amount > 0 ==>
          (t.amount + Credited(db, t.source.account)) as real <= t.equityAtRequest.value)
  }

  ghost predicate DeskAdmitted(db: Db, t: Transfer) {
    && Waits(t.status) && !t.moved
    && (t.target.InAccount? || (t.source.InAccount? && t.amount as real <= Equity(db, t.source.account)))
  }

  ghost predicate Admitted(db: Db, e: Event) {
    match e
    case FileDeposit(amount, _, _) => amount > 0
    case CancelDeposit(id) => id < |db.deposits| && db.deposits[id].status == Pending
    case RejectDeposit(id) => id < |db.deposits| && db.deposits[id].status == Pending
    case ConfirmDeposit(id, named, _) =>
      && id < |db.deposits| && db.deposits[id].status == Pending
      && 0 < ToCredit(db.deposits[id], named) <= db.deposits[id].amount
    case RequestWithdrawal(amount, minimum, pct, limited) =>
      && amount > 0 && minimum <= amount <= Free(db, Main) && !limited
      && Money.Fee(amount, pct) < amount
    case MoveWithdrawal(id, seen, new_) =>
      && id < |db.withdrawals| && db.withdrawals[id].status == seen
      && ((seen == Requested && (new_ == Approved || new_ == Rejected || new_ == Cancelled))
          || (seen == Approved && new_ == Rejected))
    case PayWithdrawal(id) => id < |db.withdrawals| && db.withdrawals[id].status == Approved
    case RequestTransfer(source, target, amount, read, limited) =>
      !limited && TransferAdmitted(db, source, target, amount, read)
    case MoveTransfer(id, seen, new_) =>
      id < |db.transfers| && db.transfers[id].status == seen && DecisionAdmitted(db, db.transfers[id], new_)
    case Adjust(_, change) => change != 0
    case GrantBonus(grant) => grant != 0 && (grant < 0 ==> Free(db, Credit) + grant >= 0)
    case AwardRule(rule) => rule == Signup || rule == Kyc
    case SetRules(rules) =>
      0.0 <= rules.depositPct <= 100.0 && (rules.depositCap.Some? ==> rules.depositCap.value > 0)
    case Profit(_, _) => true
    case DeskMoves(id) => id < |db.transfers| && DeskAdmitted(db, db.transfers[id])
  }

  lemma {:induction false} SumSame<T>(rows: seq<T>, f: T -> int, g: T -> int)
    requires forall x :: f(x) == g(x)
    ensures Sum(rows, f) == Sum(rows, g)
    decreases |rows|
  {
    if rows != [] {
      SumSame(rows[..|rows| - 1], f, g);
    }
  }

  lemma FiguresAre(db: Db, a: nat)
    ensures OpenOut(db, a) == Promised(db, a) && CreditFunded(db, a) == Credited(db, a)
    ensures CreditOpen(db, a) <==> CreditOnItsWay(db, a)
  {
    SumSame(db.transfers, OutOf(a), PromisedOut(a));
    SumSame(db.transfers, CreditInto(a), CreditIn(a));
    assert forall i | 0 <= i < |db.transfers| ::
        IsCredit(db.transfers[i], a) && Open(db.transfers[i].status) <==>
        db.transfers[i].source == InWallet(Credit) && db.transfers[i].target == InAccount(a)
        && Waits(db.transfers[i].status);
  }

  lemma CapIs(amount: nat, x: real)
    requires amount > 0
    ensures amount <= AtLeastZero(Money.FloorCents(x)) <==> amount as real <= x
  {
    Money.CapIsExact(amount, x);
  }

  lemma MovableIs(db: Db, a: nat, amount: nat, read: real)
    requires amount > 0
    ensures amount <= Movable(db, a, read) <==> (amount + Promised(db, a) + Credited(db, a)) as real <= read
  {
    FiguresAre(db, a);
    CapIs(amount, read - OpenOut(db, a) as real - CreditFunded(db, a) as real);
  }

  lemma TransferExactly(db: Db, source: End, target: End, amount: nat, read: Option<real>, limited: bool)
    ensures RequestTransferTx(db, source, target, amount, read, limited).Some? <==>
            !limited && TransferAdmitted(db, source, target, amount, read)
  {
    PairsAreFive(source, target);
    if amount > 0 && source.InAccount? {
      FiguresAre(db, source.account);
      if read.Some? {
        MovableIs(db, source.account, amount, read.value);
      }
    } else if target.InAccount? {
      FiguresAre(db, target.account);
    }
  }

  lemma StaysExactly(db: Db, t: Transfer)
    ensures CreditStays(db, t) <==>
            (t.source.InAccount? && t.equityAtRequest.Some? && t.amount > 0 ==>
               (t.amount + Credited(db, t.source.account)) as real <= t.equityAtRequest.value)
  {
    if t.source.InAccount? && t.equityAtRequest.Some? && t.amount > 0 {
      FiguresAre(db, t.source.account);
      CapIs(t.amount, t.equityAtRequest.value - CreditFunded(db, t.source.account) as real);
    }
  }

  lemma DecisionExactly(db: Db, id: nat, seen: Status, new_: Status)
    ensures MoveTransferTx(db, id, seen, new_).Some? <==>
            id < |db.transfers| && db.transfers[id].status == seen && DecisionAdmitted(db, db.transfers[id], new_)
  {
    if id < |db.transfers| {
      StaysExactly(db, db.transfers[id]);
    }
  }

  /** ACCEPTED EXACTLY WHEN ADMITTED: every transaction, on any tables that keep the invariant. */
  lemma AdmittedExactly(db: Db, e: Event)
    requires Inv(db)
    ensures Apply(db, e).Some? <==> Admitted(db, e)
  {
    match e
    case ConfirmDeposit(id, named, owned) => ConfirmExactly(db, id, named, owned);
    case RequestTransfer(source, target, amount, read, limited) =>
      TransferExactly(db, source, target, amount, read, limited);
    case MoveTransfer(id, seen, new_) => DecisionExactly(db, id, seen, new_);
    case GrantBonus(grant) => PayKeeps(db, Bonus(Manual, None, grant));
    case AwardRule(rule) => PayKeeps(db, Bonus(rule, None, RuleBonus(db.rules, rule, 0)));
    case _ =>
  }

  lemma ConfirmExactly(db: Db, id: nat, named: Option<int>, owned: bool)
    requires Inv(db)
    ensures ConfirmDepositTx(db, id, named, owned).Some? <==> Admitted(db, ConfirmDeposit(id, named, owned))
  {
    if Admitted(db, ConfirmDeposit(id, named, owned)) {
      var credited := CreditedAmount(db.deposits[id], named);
      CreditKeeps(db, id, credited);
      var a := CreditDeposit(db, id, credited);
      EarmarkKeeps(a, db.deposits[id].target, owned, credited);
      PayKeeps(EarmarkDeposit(a, db.deposits[id].target, owned, credited),
               Bonus(DepositRule, Some(id), RuleBonus(db.rules, DepositRule, credited)));
    }
  }

  // ---------------------------------------------------------------- what it does to the wallets

  ghost predicate NoneBars(db: Db, b: Bonus) {
    forall i | 0 <= i < |db.bonuses| :: !Bars(db.bonuses[i], b)
  }

  /** What a rule pays: its amount while it is on, the first time. */
  ghost function RuleDue(db: Db, rule: Source): int {
    if rule == Signup && db.rules.signupOn && NoneBars(db, Bonus(Signup, None, 0)) then db.rules.signupAmount
    else if rule == Kyc && db.rules.kycOn && NoneBars(db, Bonus(Kyc, None, 0)) then db.rules.kycAmount
    else 0
  }

  /** What the deposit rule pays for this deposit: a share of what is credited, while it is on, once. */
  ghost function DepositDue(db: Db, id: nat, credited: nat): int {
    if db.rules.depositOn && NoneBars(db, Bonus(DepositRule, Some(id), 0)) then
      Money.DepositBonus(credited, db.rules.depositPct, db.rules.depositCap)
    else 0
  }

  ghost function Arrives(t: Transfer, w: Wallet): int {
    (if t.target == InWallet(w) then t.amount else 0) - (if t.source == InWallet(w) then t.amount else 0)
  }

  /** What an admitted transaction adds to the balance of a wallet. */
  ghost function BalanceGain(db: Db, e: Event, w: Wallet): int
    requires Admitted(db, e)
  {
    match e
    case ConfirmDeposit(id, named, _) =>
      var credited := ToCredit(db.deposits[id], named);
      if w == Main then credited else if w == Credit then DepositDue(db, id, credited) else 0
    case PayWithdrawal(id) => if w == Main then 0 - db.withdrawals[id].amount else 0
    case RequestTransfer(source, target, amount, _, _) =>
      if source.InWallet? && target.InWallet? then Arrives(Transfer(source, target, amount, Done, None, false), w)
      else 0
    case MoveTransfer(id, _, new_) => if new_ == Done then Arrives(db.transfers[id], w) else 0
    case Adjust(v, change) => if v == w then change else 0
    case GrantBonus(grant) => if w == Credit then grant else 0
    case AwardRule(rule) => if w == Credit then RuleDue(db, rule) else 0
    case _ => 0
  }

  /** What it adds to what is spoken for. */
  ghost function HoldGain(db: Db, e: Event, w: Wallet): int
    requires Admitted(db, e)
  {
    match e
    case ConfirmDeposit(id, named, owned) =>
      if w == Main && owned && db.deposits[id].target.Some? then ToCredit(db.deposits[id], named) else 0
    case RequestWithdrawal(amount, _, _, _) => if w == Main then amount else 0
    case MoveWithdrawal(id, _, new_) =>
      if w == Main && new_ != Approved then 0 - db.withdrawals[id].amount else 0
    case PayWithdrawal(id) => if w == Main then 0 - db.withdrawals[id].amount else 0
    case RequestTransfer(source, target, amount, _, _) =>
      if source == InWallet(w) && target.InAccount? then amount else 0
    case MoveTransfer(id, _, new_) =>
      if db.transfers[id].source == InWallet(w) && new_ != Approved then 0 - db.transfers[id].amount else 0
    case _ => 0
  }

  ghost predicate FiguresMove(db: Db, after: Db, w: Wallet, balance: int, hold: int) {
    Balance(after.entries, w) == Balance(db.entries, w) + balance && Hold(after, w) == Hold(db, w) + hold
  }

  lemma CreditFigures(db: Db, after: Db, amount: int, w: Wallet)
    requires after.withdrawals == db.withdrawals && after.transfers == db.transfers
    requires after.entries == db.entries + [Entry(Credit, amount, Some(Ref(Bonuses, |db.bonuses|)))]
    ensures FiguresMove(db, after, w, if w == Credit then amount else 0, 0)
  {
    EntryDelta(db.entries, Entry(Credit, amount, Some(Ref(Bonuses, |db.bonuses|))), w);
  }

  lemma PayFigures(db: Db, b: Bonus, w: Wallet)
    requires Inv(db)
    ensures PayTx(db, b).Some?
    ensures FiguresMove(db, PayTx(db, b).value, w,
                        if w == Credit && b.amount != 0 && NoneBars(db, b) then b.amount else 0, 0)
  {
    PayKeeps(db, b);
    if b.amount != 0 && NoneBars(db, b) {
      CreditFigures(db, PayTx(db, b).value, b.amount, w);
    }
  }

  lemma ConfirmFigures(db: Db, id: nat, named: Option<int>, owned: bool, w: Wallet)
    requires Inv(db) && Admitted(db, ConfirmDeposit(id, named, owned))
    ensures ConfirmDepositTx(db, id, named, owned).Some?
    ensures FiguresMove(db, ConfirmDepositTx(db, id, named, owned).value, w,
                        BalanceGain(db, ConfirmDeposit(id, named, owned), w),
                        HoldGain(db, ConfirmDeposit(id, named, owned), w))
  {
    ConfirmExactly(db, id, named, owned);
    var credited := ToCredit(db.deposits[id], named);
    var a := CreditDeposit(db, id, credited);
    CreditKeeps(db, id, credited);
    EntryDelta(db.entries, Entry(Main, credited, Some(Ref(Deposits, id))), w);
    EarmarkKeeps(a, db.deposits[id].target, owned, credited);
    var b := EarmarkDeposit(a, db.deposits[id].target, owned, credited);
    EarmarkFigures(a, db.deposits[id].target, owned, credited, w);
    PayFigures(b, Bonus(DepositRule, Some(id), RuleBonus(db.rules, DepositRule, credited)), w);
  }

  lemma EarmarkFigures(db: Db, target: Option<nat>, owned: bool, credited: nat, w: Wallet)
    ensures FiguresMove(db, EarmarkDeposit(db, target, owned, credited), w,
                        0, if w == Main && owned && target.Some? then credited else 0)
  {
    if target.Some? && owned {
      TransferAppended(db.transfers,
                       Transfer(InWallet(Main), InAccount(target.value), credited, Approved, None, false), w);
    }
  }

  lemma InstantFigures(db: Db, after: Db, t: Transfer, w: Wallet)
    requires Inv(db) && FivePairs(t.source, t.target) && t.status == Done
    requires after == db.(transfers := db.transfers + [t],
                          entries := SettleTransfer(db.entries, |db.transfers|, t))
    ensures FiguresMove(db, after, w, Arrives(t, w), 0)
  {
    TransferAppended(db.transfers, t, w);
    SettleDelta(db, |db.transfers|, t, w);
  }

  lemma WaitingFigures(db: Db, after: Db, t: Transfer, w: Wallet)
    requires t.status == Requested && after == db.(transfers := db.transfers + [t])
    ensures FiguresMove(db, after, w, 0, if t.source == InWallet(w) then t.amount else 0)
  {
    TransferAppended(db.transfers, t, w);
  }

  lemma TransferFigures(db: Db, e: Event, w: Wallet)
    requires Inv(db) && Admitted(db, e) && Apply(db, e).Some? && e.RequestTransfer?
    ensures FiguresMove(db, Apply(db, e).value, w, BalanceGain(db, e, w), HoldGain(db, e, w))
  {
    var after := Apply(db, e).value;
    var t := after.transfers[|db.transfers|];
    if t.status == Done {
      InstantFigures(db, after, t, w);
    } else {
      WaitingFigures(db, after, t, w);
    }
  }

  lemma DecisionHold(db: Db, id: nat, new_: Status, w: Wallet)
    requires id < |db.transfers| && DecisionAdmitted(db, db.transfers[id], new_)
    ensures Sum(db.transfers[id := db.transfers[id].(status := new_)], TransferHold(w)) ==
            Sum(db.transfers, TransferHold(w))
            - if db.transfers[id].source == InWallet(w) && new_ != Approved then db.transfers[id].amount else 0
  {
    TransferDelta(db.transfers, id, db.transfers[id].(status := new_), w);
  }

  lemma DecisionBalance(db: Db, id: nat, seen: Status, new_: Status, w: Wallet)
    requires Inv(db) && MoveTransferTx(db, id, seen, new_).Some?
    ensures Balance(MoveTransferTx(db, id, seen, new_).value.entries, w) ==
            Balance(db.entries, w) + if new_ == Done then Arrives(db.transfers[id], w) else 0
  {
    if new_ == Done {
      SettleDelta(db, id, db.transfers[id], w);
    }
  }

  lemma DecisionFigures(db: Db, id: nat, seen: Status, new_: Status, w: Wallet)
    requires Inv(db) && Admitted(db, MoveTransfer(id, seen, new_)) && MoveTransferTx(db, id, seen, new_).Some?
    ensures FiguresMove(db, MoveTransferTx(db, id, seen, new_).value, w,
                        BalanceGain(db, MoveTransfer(id, seen, new_), w), HoldGain(db, MoveTransfer(id, seen, new_), w))
  {
    DecisionBalance(db, id, seen, new_, w);
    DecisionHold(db, id, new_, w);
    var after := MoveTransferTx(db, id, seen, new_).value;
    assert after.withdrawals == db.withdrawals;
    assert after.transfers == db.transfers[id := db.transfers[id].(status := new_)];
  }

  lemma AskFigures(db: Db, amount: nat, minimum: nat, pct: real, limited: bool, w: Wallet)
    requires RequestWithdrawalTx(db, amount, minimum, pct, limited).Some?
    ensures FiguresMove(db, RequestWithdrawalTx(db, amount, minimum, pct, limited).value, w,
                        0, if w == Main then amount else 0)
  {
    var fee := Money.Fee(amount, pct);
    SumAppend(db.withdrawals, Withdrawal(amount, fee, amount - fee, Requested), WithdrawalHold(w));
  }

  lemma DecideFigures(db: Db, id: nat, seen: Status, new_: Status, w: Wallet)
    requires Admitted(db, MoveWithdrawal(id, seen, new_)) && MoveWithdrawalTx(db, id, seen, new_).Some?
    ensures FiguresMove(db, MoveWithdrawalTx(db, id, seen, new_).value, w,
                        0, if w == Main && new_ != Approved then 0 - db.withdrawals[id].amount else 0)
  {
    WithdrawalDelta(db.withdrawals, id, db.withdrawals[id].(status := new_), w);
  }

  lemma PaidFigures(db: Db, id: nat, w: Wallet)
    requires Inv(db) && PayWithdrawalTx(db, id).Some?
    ensures var out := if w == Main then 0 - db.withdrawals[id].amount else 0;
            FiguresMove(db, PayWithdrawalTx(db, id).value, w, out, out)
  {
    WithdrawalDelta(db.withdrawals, id, db.withdrawals[id].(status := Paid), w);
    PayingMovesNothing(db, id, w);
  }

  lemma BonusFigures(db: Db, e: Event, w: Wallet)
    requires Inv(db) && Admitted(db, e) && Apply(db, e).Some? && (e.GrantBonus? || e.AwardRule?)
    ensures FiguresMove(db, Apply(db, e).value, w, BalanceGain(db, e, w), HoldGain(db, e, w))
  {
    if e.GrantBonus? {
      PayFigures(db, Bonus(Manual, None, e.grant), w);
    } else {
      PayFigures(db, Bonus(e.rule, None, RuleBonus(db.rules, e.rule, 0)), w);
    }
  }

  lemma AdjustFigures(db: Db, v: Wallet, change: int, w: Wallet)
    requires change != 0
    ensures FiguresMove(db, Next(db, Adjust(v, change)), w, if v == w then change else 0, 0)
  {
    EntryDelta(db.entries, Entry(v, change, None), w);
  }

  lemma DeskFigures(db: Db, id: nat, w: Wallet)
    requires DeskMovesTx(db, id).Some?
    ensures FiguresMove(db, DeskMovesTx(db, id).value, w, 0, 0)
  {
    TransferDelta(db.transfers, id, db.transfers[id].(moved := true), w);
  }

  /** EXACT EFFECT: what every admitted transaction does to the balance and to the hold of every wallet. */
  lemma StepFigures(db: Db, e: Event, w: Wallet)
    requires Inv(db) && Admitted(db, e)
    ensures FiguresMove(db, Next(db, e), w, BalanceGain(db, e, w), HoldGain(db, e, w))
  {
    AdmittedExactly(db, e);
    match e
    case ConfirmDeposit(id, named, owned) => ConfirmFigures(db, id, named, owned, w);
    case RequestWithdrawal(amount, minimum, pct, limited) => AskFigures(db, amount, minimum, pct, limited, w);
    case MoveWithdrawal(id, seen, new_) => DecideFigures(db, id, seen, new_, w);
    case PayWithdrawal(id) => PaidFigures(db, id, w);
    case RequestTransfer(_, _, _, _, _) => TransferFigures(db, e, w);
    case MoveTransfer(id, seen, new_) => DecisionFigures(db, id, seen, new_, w);
    case GrantBonus(_) => BonusFigures(db, e, w);
    case AwardRule(_) => BonusFigures(db, e, w);
    case Adjust(v, change) => AdjustFigures(db, v, change, w);
    case DeskMoves(id) => DeskFigures(db, id, w);
    case _ =>
  }

  // ---------------------------------------------------------------- and to the accounts

  /** What it adds to the equity of an account: trading, and the desk's moves. */
  ghost function EquityGain(db: Db, e: Event, a: nat): real
    requires Admitted(db, e)
  {
    if e.Profit? && e.traded == a then e.gain
    else if e.DeskMoves? && db.transfers[e.id].target == InAccount(a) then db.transfers[e.id].amount as real
    else if e.DeskMoves? && db.transfers[e.id].source == InAccount(a) then 0.0 - db.transfers[e.id].amount as real
    else 0.0
  }

  lemma StepEquity(db: Db, e: Event, a: nat)
    requires Inv(db) && Admitted(db, e)
    ensures Equity(Next(db, e), a) == Equity(db, a) + EquityGain(db, e, a)
    ensures e.DeskMoves? ==> Next(db, e).transfers == db.transfers[e.id := db.transfers[e.id].(moved := true)]
  {
    AdmittedExactly(db, e);
    if e.DeskMoves? {
      assert FivePairs(db.transfers[e.id].source, db.transfers[e.id].target);
    }
  }

  // ---------------------------------------------------------------- the rows it writes

  /** A FILED DEPOSIT waits with its amount, its fee to the nearest cent and its account, and moves nothing. */
  lemma DepositFiled(db: Db, amount: nat, pct: real, account: Option<nat>)
    requires amount > 0 && pct >= 0.0
    ensures var after := Next(db, FileDeposit(amount, pct, account));
            && |after.deposits| == |db.deposits| + 1
            && var d := after.deposits[|db.deposits|];
               && after == db.(deposits := db.deposits + [d])
               && d.amount == amount && d.target == account && d.status == Pending && d.credited == 0
               && Money.HalfUp(d.fee, amount as real * pct / 100.0)
  {
    Money.FeeIsHalfUp(amount, pct, Money.Fee(amount, pct));
  }

  /** A REQUESTED WITHDRAWAL splits its amount into the fee, to the nearest cent, and what is paid. */
  lemma WithdrawalFiled(db: Db, amount: nat, minimum: nat, pct: real)
    requires Inv(db) && Admitted(db, RequestWithdrawal(amount, minimum, pct, false)) && pct >= 0.0
    ensures var after := Next(db, RequestWithdrawal(amount, minimum, pct, false));
            && |after.withdrawals| == |db.withdrawals| + 1
            && var x := after.withdrawals[|db.withdrawals|];
               && after == db.(withdrawals := db.withdrawals + [x])
               && x.amount == amount && x.status == Requested && x.fee + x.net == amount && x.net > 0
               && Money.HalfUp(x.fee, amount as real * pct / 100.0)
  {
    AdmittedExactly(db, RequestWithdrawal(amount, minimum, pct, false));
    Money.FeeIsHalfUp(amount, pct, Money.Fee(amount, pct));
  }

  /** A REQUESTED TRANSFER between wallets is done at once; any other waits, with the equity it was checked
      against when it leaves an account. */
  lemma TransferFiled(db: Db, source: End, target: End, amount: nat, read: Option<real>)
    requires TransferAdmitted(db, source, target, amount, read)
    ensures var after := Next(db, RequestTransfer(source, target, amount, read, false));
            && |after.transfers| == |db.transfers| + 1
            && var t := after.transfers[|db.transfers|];
               && after == db.(transfers := db.transfers + [t], entries := after.entries)
               && t.source == source && t.target == target && t.amount == amount && !t.moved
               && t.status == (if target.InAccount? || source.InAccount? then Requested else Done)
               && t.equityAtRequest == (if source.InAccount? then read else None)
  {
    TransferExactly(db, source, target, amount, read, false);
  }

  /** CONFIRMED TOGETHER: the deposit is confirmed at what was credited, and a transfer of it to the account the
      notice named is approved exactly when the account is still the investor's. */
  lemma ConfirmFiles(db: Db, id: nat, named: Option<int>, owned: bool)
    requires Inv(db) && Admitted(db, ConfirmDeposit(id, named, owned))
    ensures var d, after := db.deposits[id], Next(db, ConfirmDeposit(id, named, owned));
            && after.deposits == db.deposits[id := d.(status := Confirmed, credited := ToCredit(d, named))]
            && after.withdrawals == db.withdrawals
            && after.transfers ==
               db.transfers + if owned && d.target.Some? then
                                [Transfer(InWallet(Main), InAccount(d.target.value), ToCredit(d, named), Approved, None,
                                          false)]
                              else []
  {
    ConfirmExactly(db, id, named, owned);
  }

  // ---------------------------------------------------------------- where a request may go

  /** From this status a request is, from then on, in one of these. */
  ghost predicate Leads(from: Status, to: Status) {
    match from
    case Pending => to == Pending || to == Confirmed || to == Rejected || to == Cancelled
    case Requested => to != Pending && to != Confirmed
    case Approved => to == Approved || to == Paid || to == Done || to == Rejected
    case _ => to == from
  }

  ghost predicate DepositsAdvance(before: seq<Deposit>, after: seq<Deposit>) {
    |before| <= |after| &&
    forall i | 0 <= i < |before| ::
      && Leads(before[i].status, after[i].status)
      && after[i] == before[i].(status := after[i].status, credited := after[i].credited)
      && (before[i].status != Pending ==> after[i].credited == before[i].credited)
  }

  ghost predicate WithdrawalsAdvance(before: seq<Withdrawal>, after: seq<Withdrawal>) {
    |before| <= |after| &&
    forall i | 0 <= i < |before| ::
      Leads(before[i].status, after[i].status) && after[i] == before[i].(status := after[i].status)
  }

  ghost predicate TransfersAdvance(before: seq<Transfer>, after: seq<Transfer>) {
    |before| <= |after| &&
    forall i | 0 <= i < |before| ::
      && Leads(before[i].status, after[i].status) && (before[i].moved ==> after[i].moved)
      && after[i] == before[i].(status := after[i].status, moved := after[i].moved)
  }

  /** Every request is still there, where its status may lead, with its amount and its ends. */
  ghost predicate Advanced(db: Db, after: Db) {
    && DepositsAdvance(db.deposits, after.deposits) && WithdrawalsAdvance(db.withdrawals, after.withdrawals)
    && TransfersAdvance(db.transfers, after.transfers)
  }

  /** A bonus touches no request. */
  lemma PayTouches(db: Db, b: Bonus)
    requires PayTx(db, b).Some?
    ensures var after := PayTx(db, b).value;
            after.deposits == db.deposits && after.withdrawals == db.withdrawals && after.transfers == db.transfers
  {
  }

  /** What is no deposit's, no withdrawal's and no transfer's own transaction touches none of them. */
  lemma OthersTouch(db: Db, e: Event)
    requires Apply(db, e).Some?
    requires e.Adjust? || e.GrantBonus? || e.AwardRule? || e.SetRules? || e.Profit?
    ensures var after := Next(db, e);
            after.deposits == db.deposits && after.withdrawals == db.withdrawals && after.transfers == db.transfers
  {
    match e
    case GrantBonus(grant) => PayTouches(db, Bonus(Manual, None, grant));
    case AwardRule(rule) => PayTouches(db, Bonus(rule, None, RuleBonus(db.rules, rule, 0)));
    case _ =>
  }

  lemma DepositStep(db: Db, e: Event)
    requires Inv(db) && Apply(db, e).Some?
    requires e.FileDeposit? || e.CancelDeposit? || e.RejectDeposit? || e.ConfirmDeposit?
    ensures Advanced(db, Next(db, e))
  {
    if e.ConfirmDeposit? {
      ConfirmExactly(db, e.id, e.credited, e.stillOwned);
      ConfirmFiles(db, e.id, e.credited, e.stillOwned);
    }
  }

  lemma WithdrawalStep(db: Db, e: Event)
    requires Apply(db, e).Some? && (e.RequestWithdrawal? || e.MoveWithdrawal? || e.PayWithdrawal?)
    ensures Advanced(db, Next(db, e))
  {
  }

  lemma TransferStep(db: Db, e: Event)
    requires Apply(db, e).Some? && (e.RequestTransfer? || e.MoveTransfer? || e.DeskMoves?)
    ensures Advanced(db, Next(db, e))
  {
    if e.MoveTransfer? {
      DecisionExactly(db, e.id, e.seen, e.new_);
    }
  }

  lemma StepAdvances(db: Db, e: Event)
    requires Inv(db)
    ensures Advanced(db, Next(db, e))
  {
    if Apply(db, e).Some? {
      if e.FileDeposit? || e.CancelDeposit? || e.RejectDeposit? || e.ConfirmDeposit? {
        DepositStep(db, e);
      } else if e.RequestWithdrawal? || e.MoveWithdrawal? || e.PayWithdrawal? {
        WithdrawalStep(db, e);
      } else if e.RequestTransfer? || e.MoveTransfer? || e.DeskMoves? {
        TransferStep(db, e);
      } else {
        OthersTouch(db, e);
      }
    }
  }

  lemma LeadsOn(a: Status, b: Status, c: Status)
    requires Leads(a, b) && Leads(b, c)
    ensures Leads(a, c)
  {
  }

  /** ONE WAY ONLY: over every run a request stays in its table with its amount and its ends, and goes from
      pending or requested to a final status, perhaps through approved, and never back. */
  lemma {:induction false} RunAdvances(db: Db, run: seq<Event>)
    requires Inv(db)
    ensures Advanced(db, Exec(db, run))
    decreases run
  {
    if run != [] {
      StepAdvances(db, run[0]);
      StepKeepsInv(db, run[0]);
      RunAdvances(Next(db, run[0]), run[1..]);
      AdvancesOn(db, Next(db, run[0]), Exec(Next(db, run[0]), run[1..]));
    }
  }

  lemma AdvancesOn(a: Db, b: Db, c: Db)
    requires Advanced(a, b) && Advanced(b, c)
    ensures Advanced(a, c)
  {
    forall i | 0 <= i < |a.deposits|
      ensures Leads(a.deposits[i].status, c.deposits[i].status)
    {
      LeadsOn(a.deposits[i].status, b.deposits[i].status, c.deposits[i].status);
    }
    forall i | 0 <= i < |a.withdrawals|
      ensures Leads(a.withdrawals[i].status, c.withdrawals[i].status)
    {
      LeadsOn(a.withdrawals[i].status, b.withdrawals[i].status, c.withdrawals[i].status);
    }
    forall i | 0 <= i < |a.transfers|
      ensures Leads(a.transfers[i].status, c.transfers[i].status)
    {
      LeadsOn(a.transfers[i].status, b.transfers[i].status, c.transfers[i].status);
    }
  }

  // ---------------------------------------------------------------- bonus credit is never withdrawn

  function IntoMain(): Transfer -> int {
    (t: Transfer) =>
      if t.status == Done && t.target == InWallet(Main)
         && (t.source.InAccount? || t.source == InWallet(Pamm) || t.source == InWallet(Social)) then t.amount
      else 0
  }

  function OutOfMain(): Transfer -> int {
    (t: Transfer) => if t.status == Done && t.source == InWallet(Main) && t.target.InAccount? then t.amount else 0
  }

  function OutOfCredit(): Transfer -> int {
    (t: Transfer) => if t.status == Done && t.source == InWallet(Credit) && t.target.InAccount? then t.amount else 0
  }

  lemma {:induction false} MainAndCredit(ts: seq<Transfer>)
    requires forall i | 0 <= i < |ts| :: FivePairs(ts[i].source, ts[i].target)
    ensures Sum(ts, TransferPart(Main)) == Sum(ts, IntoMain()) - Sum(ts, OutOfMain())
    ensures Sum(ts, TransferPart(Credit)) == 0 - Sum(ts, OutOfCredit())
    decreases |ts|
  {
    if ts != [] {
      MainAndCredit(ts[..|ts| - 1]);
      assert FivePairs(ts[|ts| - 1].source, ts[|ts| - 1].target);
    }
  }

  function CreditedPart(): Deposit -> int {
    (d: Deposit) => if d.status == Confirmed then d.credited else 0
  }

  function PaidPart(): Withdrawal -> int {
    (x: Withdrawal) => if x.status == Paid then x.amount else 0
  }

  function Granted(): Bonus -> int {
    (b: Bonus) => b.amount
  }

  function ByHand(w: Wallet): Entry -> int {
    (e: Entry) => if e.ref == None && e.wallet == w then e.amount else 0
  }

  lemma {:induction false} PaidIs(xs: seq<Withdrawal>)
    ensures Sum(xs, WithdrawalPart(Main)) == 0 - Sum(xs, PaidPart())
    ensures Sum(xs, WithdrawalPart(Credit)) == 0
    decreases |xs|
  {
    if xs != [] {
      PaidIs(xs[..|xs| - 1]);
    }
  }

  lemma {:induction false} NoneOnCredit(ds: seq<Deposit>)
    ensures Sum(ds, DepositPart(Credit)) == 0
    decreases |ds|
  {
    if ds != [] {
      NoneOnCredit(ds[..|ds| - 1]);
    }
  }

  lemma {:induction false} NoneOnMain(bs: seq<Bonus>)
    ensures Sum(bs, BonusPart(Main)) == 0
    decreases |bs|
  {
    if bs != [] {
      NoneOnMain(bs[..|bs| - 1]);
    }
  }

  /**
   WHERE MONEY COMES FROM, over every run from empty tables: the main wallet holds what deposits, trading
   accounts, pamm and social brought in and admins posted, less what was withdrawn and moved to accounts;
   no bonus is in it. The credit wallet holds the bonuses and postings, less what went to accounts.
   */
  lemma WalletsAreMadeOf(db: Db, run: seq<Event>)
    requires Fresh(db)
    ensures var end := Exec(db, run);
            && Balance(end.entries, Main) ==
               Sum(end.deposits, CreditedPart()) + Sum(end.transfers, IntoMain()) + Sum(end.entries, ByHand(Main))
               - Sum(end.withdrawals, PaidPart()) - Sum(end.transfers, OutOfMain())
            && Balance(end.entries, Credit) ==
               Sum(end.bonuses, Granted()) + Sum(end.entries, ByHand(Credit)) - Sum(end.transfers, OutOfCredit())
            && (forall i | 0 <= i < |end.transfers| :: FivePairs(end.transfers[i].source, end.transfers[i].target))
            && OncePerRule(end.bonuses)
  {
    RunAccountedFromEmpty(db, run);
    MadeOf(Exec(db, run));
  }

  lemma MadeOf(db: Db)
    requires Accounted(db)
    ensures Balance(db.entries, Main) ==
            Sum(db.deposits, CreditedPart()) + Sum(db.transfers, IntoMain()) + Sum(db.entries, ByHand(Main))
            - Sum(db.withdrawals, PaidPart()) - Sum(db.transfers, OutOfMain())
    ensures Balance(db.entries, Credit) ==
            Sum(db.bonuses, Granted()) + Sum(db.entries, ByHand(Credit)) - Sum(db.transfers, OutOfCredit())
  {
    assert Balance(db.entries, Main) == Owed(db, Main) && Balance(db.entries, Credit) == Owed(db, Credit);
    MainAndCredit(db.transfers);
    PaidIs(db.withdrawals);
    NoneOnCredit(db.deposits);
    NoneOnMain(db.bonuses);
    SumSame(db.deposits, DepositPart(Main), CreditedPart());
    SumSame(db.bonuses, BonusPart(Credit), Granted());
    SumSame(db.entries, AdjustmentPart(Main), ByHand(Main));
    SumSame(db.entries, AdjustmentPart(Credit), ByHand(Credit));
  }

  /** NEVER WITHDRAWN: with no negative adjustment, what was withdrawn and moved to accounts out of the main wallet,
      and is still asked for, never exceeds what came into it from outside; no bonus counts. */
  lemma BonusIsNeverWithdrawn(db: Db, run: seq<Event>)
    requires Fresh(db) && NoTakeDowns(run)
    ensures var end := Exec(db, run);
            Sum(end.withdrawals, PaidPart()) + Sum(end.transfers, OutOfMain()) + Hold(end, Main) <=
            Sum(end.deposits, CreditedPart()) + Sum(end.transfers, IntoMain()) + Sum(end.entries, ByHand(Main))
  {
    WalletsAreMadeOf(db, run);
    NeverOverdrawnFromEmpty(db, run, Main);
  }
}
