/**
 One investor's client-money tables and every transaction that touches them, as a state
 machine.  Each event is one transaction serialised by the investor's ledger lock (or one
 guarded UPDATE); the status an admin saw before the lock travels with the event and is
 compared again by the UPDATE.
 */
module Portal {
  import opened Base
  import opened Ledger
  import Money

  // ---------------------------------------------------------------- tables

  datatype Status = Pending | Requested | Approved | Confirmed | Paid | Done | Rejected | Cancelled

  datatype End = InWallet(wallet: Wallet) | InAccount(account: nat)

  datatype Deposit = Deposit(amount: nat, fee: int, target: Option<nat>, status: Status, credited: int)
  datatype Withdrawal = Withdrawal(amount: nat, fee: int, net: int, status: Status)
  /** `moved`: the desk has funded or paid out this transfer at the broker. */
  datatype Transfer = Transfer(source: End, target: End, amount: nat, status: Status,
                               equityAtRequest: Option<real>, moved: bool)
  datatype Rules = Rules(signupOn: bool, signupAmount: nat, kycOn: bool, kycAmount: nat,
                         depositOn: bool, depositPct: real, depositCap: Option<int>)
  {
    predicate Valid() {
      0.0 <= depositPct <= 100.0 && (depositCap.Some? ==> depositCap.value > 0)
    }
  }

  /** A row's id is its place in the table: rows are appended and never removed. */
  datatype Db = Db(entries: seq<Entry>, deposits: seq<Deposit>, withdrawals: seq<Withdrawal>,
                   transfers: seq<Transfer>, bonuses: seq<Bonus>, rules: Rules, equity: map<nat, real>)

  function Transitions(table: Table, current: Status): set<Status> {
    match (table, current)
    case (Deposits, Pending) => {Confirmed, Rejected, Cancelled}
    case (Withdrawals, Requested) => {Approved, Rejected, Cancelled}
    case (Withdrawals, Approved) => {Paid, Rejected}
    case (Transfers, Requested) => {Approved, Done, Rejected, Cancelled}
    case (Transfers, Approved) => {Done, Rejected}
    case _ => {}
  }

  predicate CanTransition(table: Table, current: Status, new_: Status) {
    new_ in Transitions(table, current)
  }

  predicate Open(s: Status) {
    s.Requested? || s.Approved?
  }

  /** TRANSFER_PAIRS: bonus credit moves only to a trading account. */
  predicate AllowedPair(source: End, target: End) {
    match (source, target)
    case (InWallet(w), InAccount(_)) => w.Main? || w.Credit?
    case (InAccount(_), InWallet(w)) => w.Main?
    case (InWallet(v), InWallet(w)) => (v.Pamm? || v.Social?) && w.Main?
    case (InAccount(_), InAccount(_)) => false
  }

  // ---------------------------------------------------------------- figures

  function WithdrawalHold(w: Wallet): Withdrawal -> int {
    (x: Withdrawal) => if w.Main? && Open(x.status) then x.amount else 0
  }

  function TransferHold(w: Wallet): Transfer -> int {
    (t: Transfer) => if t.source == InWallet(w) && Open(t.status) then t.amount else 0
  }

  function Hold(db: Db, w: Wallet): int {
    Sum(db.withdrawals, WithdrawalHold(w)) + Sum(db.transfers, TransferHold(w))
  }

  /** The `available` of `wallet_figures`. */
  function Available(db: Db, w: Wallet): (a: int)
    ensures a == Balance(db.entries, w) - Hold(db, w)
  {
    Money.FloorCents((Balance(db.entries, w) - Hold(db, w)) as real)
  }

  function OutOf(account: nat): Transfer -> int {
    (t: Transfer) => if t.source == InAccount(account) && Open(t.status) then t.amount else 0
  }

  function CreditInto(account: nat): Transfer -> int {
    (t: Transfer) => if IsCredit(t, account) && t.status.Done? then t.amount else 0
  }

  predicate IsCredit(t: Transfer, account: nat) {
    t.source == InWallet(Credit) && t.target == InAccount(account)
  }

  function OpenOut(db: Db, account: nat): int {
    Sum(db.transfers, OutOf(account))
  }

  function CreditFunded(db: Db, account: nat): int {
    Sum(db.transfers, CreditInto(account))
  }

  predicate CreditOpen(db: Db, account: nat) {
    exists i :: 0 <= i < |db.transfers| && IsCredit(db.transfers[i], account) && Open(db.transfers[i].status)
  }

  function AtLeastZero(x: int): int {
    if x < 0 then 0 else x
  }

  function Movable(db: Db, account: nat, equity: real): int {
    AtLeastZero(Money.FloorCents(equity - OpenOut(db, account) as real - CreditFunded(db, account) as real))
  }

  // ---------------------------------------------------------------- transactions

  datatype Event =
    | FileDeposit(amount: nat, pct: real, account: Option<nat>)
    | CancelDeposit(id: nat)
    | RejectDeposit(id: nat)
    | ConfirmDeposit(id: nat, credited: Option<int>, stillOwned: bool)
    | RequestWithdrawal(amount: nat, minimum: nat, pct: real, limited: bool)
    | MoveWithdrawal(id: nat, seen: Status, new_: Status)
    | PayWithdrawal(id: nat)
    | RequestTransfer(source: End, target: End, amount: nat, read: Option<real>, limited: bool)
    | MoveTransfer(id: nat, seen: Status, new_: Status)
    | Adjust(wallet: Wallet, change: int)
    | GrantBonus(grant: int)
    | AwardRule(rule: Source)
    | SetRules(rules: Rules)
    | Profit(traded: nat, gain: real)
    | DeskMoves(id: nat)

  function FileDepositTx(db: Db, amount: nat, pct: real, target: Option<nat>): Option<Db> {
    if amount == 0 then None
    else Some(db.(deposits := db.deposits + [Deposit(amount, Money.Fee(amount, pct), target, Pending, 0)]))
  }

  function CloseDepositTx(db: Db, id: nat, new_: Status): Option<Db> {
    if id >= |db.deposits| || !CanTransition(Deposits, db.deposits[id].status, new_) then None
    else Some(db.(deposits := db.deposits[id := db.deposits[id].(status := new_)]))
  }

  function RuleBonus(rules: Rules, source: Source, base: nat): int {
    match source
    case Signup => if rules.signupOn then rules.signupAmount else 0
    case Kyc => if rules.kycOn then rules.kycAmount else 0
    case DepositRule => if rules.depositOn then Money.DepositBonus(base, rules.depositPct, rules.depositCap) else 0
    case Manual => 0
  }

  function PayTx(db: Db, b: Bonus): Option<Db> {
    var (bonuses, entries, paid) := PayBonus(db.bonuses, db.entries, b);
    if paid.Drifted? then None else Some(db.(bonuses := bonuses, entries := entries))
  }

  function CreditDeposit(db: Db, id: nat, credited: int): Db
    requires id < |db.deposits|
  {
    db.(deposits := db.deposits[id := db.deposits[id].(status := Confirmed, credited := credited)],
        entries := Settled(db.entries, Entry(Main, credited, Some(Ref(Deposits, id)))))
  }

  /** The credited amount is held for the account the notice named, if it is still the investor's. */
  function EarmarkDeposit(db: Db, target: Option<nat>, stillOwned: bool, credited: nat): Db {
    if target.None? || !stillOwned then db
    else db.(transfers := db.transfers +
               [Transfer(InWallet(Main), InAccount(target.value), credited, Approved, None, false)])
  }

  function CreditedAmount(d: Deposit, named: Option<int>): int {
    if named.Some? then named.value else d.amount - d.fee
  }

  /** The credit, the held transfer to the named account and the deposit rule's bonus land together. */
  function ConfirmDepositTx(db: Db, id: nat, named: Option<int>, stillOwned: bool): Option<Db> {
    if id >= |db.deposits| || !db.deposits[id].status.Pending? then None
    else
      var credited := CreditedAmount(db.deposits[id], named);
      if credited <= 0 || credited > db.deposits[id].amount then None
      else
        PayTx(EarmarkDeposit(CreditDeposit(db, id, credited), db.deposits[id].target, stillOwned, credited),
              Bonus(DepositRule, Some(id), RuleBonus(db.rules, DepositRule, credited)))
  }

  function RequestWithdrawalTx(db: Db, amount: nat, minimum: nat, pct: real, limited: bool): Option<Db> {
    var fee := Money.Fee(amount, pct);
    if amount == 0 || amount < minimum || amount > Available(db, Main) || amount - fee <= 0 || limited then None
    else Some(db.(withdrawals := db.withdrawals + [Withdrawal(amount, fee, amount - fee, Requested)]))
  }

  /** Approve, reject or cancel: one UPDATE guarded by the status that was seen. */
  function MoveWithdrawalTx(db: Db, id: nat, seen: Status, new_: Status): Option<Db> {
    if id >= |db.withdrawals| || new_.Paid? || !CanTransition(Withdrawals, seen, new_)
       || db.withdrawals[id].status != seen then None
    else Some(db.(withdrawals := db.withdrawals[id := db.withdrawals[id].(status := new_)]))
  }

  function PayWithdrawalTx(db: Db, id: nat): Option<Db> {
    if id >= |db.withdrawals| || !db.withdrawals[id].status.Approved? then None
    else
      var x := db.withdrawals[id];
      Some(db.(withdrawals := db.withdrawals[id := x.(status := Paid)],
               entries := Settled(db.entries, Entry(Main, 0 - x.amount, Some(Ref(Withdrawals, id))))))
  }

  /** The ledger rows of a finished transfer. */
  function SettleTransfer(entries: seq<Entry>, id: nat, t: Transfer): seq<Entry> {
    var out :=
      if t.source.InWallet? then Settled(entries, Entry(t.source.wallet, 0 - t.amount, Some(Ref(Transfers, id))))
      else entries;
    if t.target.InWallet? then Settled(out, Entry(t.target.wallet, t.amount, Some(Ref(Transfers, id))))
    else out
  }

  /** The caps and mutual exclusions of `request_transfer`. */
  predicate Admits(db: Db, source: End, target: End, amount: nat, read: Option<real>) {
    if source.InAccount? then
      && !CreditOpen(db, source.account)
      && (if read.Some? then amount <= Movable(db, source.account, read.value)
          else CreditFunded(db, source.account) <= 0)
    else
      && (source.wallet.Credit? && target.InAccount? ==> OpenOut(db, target.account) <= 0)
      && amount <= Available(db, source.wallet)
  }

  function RequestTransferTx(db: Db, source: End, target: End, amount: nat, read: Option<real>, limited: bool)
    : Option<Db>
  {
    if amount == 0 || !AllowedPair(source, target) || !Admits(db, source, target, amount, read) || limited then None
    else
      var instant := source.InWallet? && target.InWallet?;
      var equity := if source.InAccount? then read else None;
      var t := Transfer(source, target, amount, if instant then Done else Requested, equity, false);
      var id := |db.transfers|;
      Some(db.(transfers := db.transfers + [t],
               entries := if instant then SettleTransfer(db.entries, id, t) else db.entries))
  }

  /** The decide-time re-check against the equity seen at the request. */
  predicate CreditStays(db: Db, t: Transfer) {
    t.source.InAccount? && t.equityAtRequest.Some? ==>
      t.amount <= AtLeastZero(Money.FloorCents(t.equityAtRequest.value - CreditFunded(db, t.source.account) as real))
  }

  function MoveTransferTx(db: Db, id: nat, seen: Status, new_: Status): Option<Db> {
    if id >= |db.transfers| || !CanTransition(Transfers, seen, new_) || db.transfers[id].status != seen then None
    else
      var t := db.transfers[id];
      if (new_.Approved? || new_.Done?) && !CreditStays(db, t) then None
      else
        Some(db.(transfers := db.transfers[id := t.(status := new_)],
                 entries := if new_.Done? then SettleTransfer(db.entries, id, t) else db.entries))
  }

  /** A claw-back may not take the credit wallet's available figure below zero. */
  function GrantBonusTx(db: Db, amount: int): Option<Db> {
    if amount == 0 || (amount < 0 && Available(db, Credit) + amount < 0) then None
    else PayTx(db, Bonus(Manual, None, amount))
  }

  function Equity(db: Db, account: nat): real {
    if account in db.equity then db.equity[account] else 0.0
  }

  /** The desk funds an inflow or pays out an outflow at the broker. */
  function DeskMovesTx(db: Db, id: nat): Option<Db> {
    if id >= |db.transfers| || !Open(db.transfers[id].status) || db.transfers[id].moved then None
    else
      var t := db.transfers[id];
      var marked := db.(transfers := db.transfers[id := t.(moved := true)]);
      if t.target.InAccount? then
        Some(marked.(equity := db.equity[t.target.account := Equity(db, t.target.account) + t.amount as real]))
      else if t.source.InAccount? && t.amount as real <= Equity(db, t.source.account) then
        Some(marked.(equity := db.equity[t.source.account := Equity(db, t.source.account) - t.amount as real]))
      else None
  }

  function Apply(db: Db, e: Event): Option<Db> {
    match e
    case FileDeposit(amount, pct, target) => FileDepositTx(db, amount, pct, target)
    case CancelDeposit(id) => CloseDepositTx(db, id, Cancelled)
    case RejectDeposit(id) => CloseDepositTx(db, id, Rejected)
    case ConfirmDeposit(id, credited, owned) => ConfirmDepositTx(db, id, credited, owned)
    case RequestWithdrawal(amount, minimum, pct, limited) => RequestWithdrawalTx(db, amount, minimum, pct, limited)
    case MoveWithdrawal(id, seen, new_) => MoveWithdrawalTx(db, id, seen, new_)
    case PayWithdrawal(id) => PayWithdrawalTx(db, id)
    case RequestTransfer(source, target, amount, read, limited) =>
      RequestTransferTx(db, source, target, amount, read, limited)
    case MoveTransfer(id, seen, new_) => MoveTransferTx(db, id, seen, new_)
    case Adjust(w, amount) => if amount == 0 then None else Some(db.(entries := db.entries + [Entry(w, amount, None)]))
    case GrantBonus(amount) => GrantBonusTx(db, amount)
    case AwardRule(source) =>
      if source.Signup? || source.Kyc? then PayTx(db, Bonus(source, None, RuleBonus(db.rules, source, 0))) else None
    case SetRules(rules) => if rules.Valid() then Some(db.(rules := rules)) else None
    case Profit(account, gain) => Some(db.(equity := db.equity[account := Equity(db, account) + gain]))
    case DeskMoves(id) => DeskMovesTx(db, id)
  }

  /** A refused transaction rolls back. */
  function Next(db: Db, e: Event): Db {
    var r := Apply(db, e);
    if r.Some? then r.value else db
  }

  function Exec(db: Db, run: seq<Event>): Db
    decreases run
  {
    if run == [] then db else Exec(Next(db, run[0]), run[1..])
  }

  predicate Fresh(db: Db) {
    db.entries == [] && db.deposits == [] && db.withdrawals == [] && db.transfers == [] && db.bonuses == []
    && db.rules.Valid() && db.equity == map[]
  }

  // ---------------------------------------------------------------- every ledger row has its request

  /** `e` is the ledger row that some settled request calls for. */
  ghost predicate Expected(db: Db, e: Entry) {
    e.ref.Some? &&
    match e.ref.value
    case Ref(Deposits, id) =>
      id < |db.deposits| && db.deposits[id].status.Confirmed? && e.wallet.Main? && e.amount == db.deposits[id].credited
    case Ref(Withdrawals, id) =>
      id < |db.withdrawals| && db.withdrawals[id].status.Paid? && e.wallet.Main?
      && e.amount == 0 - db.withdrawals[id].amount
    case Ref(Transfers, id) =>
      && id < |db.transfers| && db.transfers[id].status.Done?
      && ((e.amount == 0 - db.transfers[id].amount && db.transfers[id].source == InWallet(e.wallet))
          || (e.amount == db.transfers[id].amount && db.transfers[id].target == InWallet(e.wallet)))
    case Ref(Bonuses, id) =>
      id < |db.bonuses| && e.wallet.Credit? && e.amount == db.bonuses[id].amount
  }

  ghost predicate Has(entries: seq<Entry>, e: Entry) {
    exists i :: 0 <= i < |entries| && entries[i] == e
  }

  ghost predicate UniqueKeys(entries: seq<Entry>) {
    forall i, j | 0 <= i < j < |entries| :: !SameKey(entries[i], entries[j])
  }

  /** Referenced entries and settled requests correspond one to one, with equal amounts. */
  ghost predicate OneToOne(db: Db) {
    && UniqueKeys(db.entries)
    && (forall e: Entry | e.ref.Some? :: Has(db.entries, e) <==> Expected(db, e))
  }

  ghost predicate Sane(db: Db) {
    && db.rules.Valid()
    && (forall i | 0 <= i < |db.transfers| :: FivePairs(db.transfers[i].source, db.transfers[i].target))
    && OncePerRule(db.bonuses)
  }

  /** The five ways money may move, written out: bonus credit goes to a trading account and nowhere else. */
  ghost predicate FivePairs(source: End, target: End) {
    || (source == InWallet(Main) && target.InAccount?)
    || (source.InAccount? && target == InWallet(Main))
    || (source == InWallet(Pamm) && target == InWallet(Main))
    || (source == InWallet(Social) && target == InWallet(Main))
    || (source == InWallet(Credit) && target.InAccount?)
  }

  lemma PairsAreFive(source: End, target: End)
    ensures AllowedPair(source, target) <==> FivePairs(source, target)
  {
  }

  ghost predicate Inv(db: Db) {
    OneToOne(db) && Sane(db)
  }

  lemma Grows(entries: seq<Entry>, e: Entry)
    requires UniqueKeys(entries) && !Taken(entries, e)
    ensures UniqueKeys(entries + [e])
    ensures forall x :: Has(entries + [e], x) <==> Has(entries, x) || x == e
  {
    var longer := entries + [e];
    forall x
      ensures Has(longer, x) <==> Has(entries, x) || x == e
    {
      if Has(entries, x) {
        var i :| 0 <= i < |entries| && entries[i] == x;
        assert longer[i] == x;
      }
      assert longer[|entries|] == e;
    }
  }

  /** An entry whose request is not settled yet has no row. */
  lemma NotYet(db: Db, e: Entry)
    requires OneToOne(db) && e.ref.Some?
    requires forall x: Entry | SameKey(x, e) :: !Expected(db, x)
    ensures !Taken(db.entries, e)
  {
    forall i | 0 <= i < |db.entries|
      ensures !SameKey(db.entries[i], e)
    {
      assert Has(db.entries, db.entries[i]);
    }
  }

  /** PAID AND NEVER DRIFTED: a bonus that is not zero is paid if and only if no row bars it, row and entry
      together. */
  lemma PayKeeps(db: Db, b: Bonus)
    requires Inv(db)
    ensures PayTx(db, b).Some? && Inv(PayTx(db, b).value)
    ensures !PayBonus(db.bonuses, db.entries, b).2.Drifted?
    ensures var after := PayTx(db, b).value;
            if b.amount != 0 && forall i | 0 <= i < |db.bonuses| :: !Bars(db.bonuses[i], b) then
              && after.bonuses == db.bonuses + [b]
              && after.entries == db.entries + [Entry(Credit, b.amount, Some(Ref(Bonuses, |db.bonuses|)))]
            else after == db
  {
    var e := BonusEntry(|db.bonuses|, b.amount);
    NotYet(db, e);
    PaidExactly(db.bonuses, db.entries, b);
    if b.amount != 0 && !PaidBefore(db.bonuses, b) {
      var after := PayTx(db, b).value;
      Grows(db.entries, e);
      forall x: Entry | x.ref.Some?
        ensures Has(after.entries, x) <==> Expected(after, x)
      {
        assert Expected(after, x) <==> Expected(db, x) || x == e;
      }
    }
  }

  lemma DepositsKeep(db: Db, e: Event)
    requires Inv(db) && (e.FileDeposit? || e.CancelDeposit? || e.RejectDeposit?)
    ensures Inv(Next(db, e))
  {
    var after := Next(db, e);
    assert forall x :: Expected(after, x) <==> Expected(db, x);
  }

  lemma CreditKeeps(db: Db, id: nat, credited: int)
    requires Inv(db) && id < |db.deposits| && db.deposits[id].status.Pending?
    ensures CreditDeposit(db, id, credited).entries == db.entries + [Entry(Main, credited, Some(Ref(Deposits, id)))]
    ensures Inv(CreditDeposit(db, id, credited))
  {
    var e := Entry(Main, credited, Some(Ref(Deposits, id)));
    NotYet(db, e);
    Grows(db.entries, e);
    var after := CreditDeposit(db, id, credited);
    assert forall x :: Expected(after, x) <==> Expected(db, x) || x == e;
  }

  lemma EarmarkKeeps(db: Db, target: Option<nat>, owned: bool, credited: nat)
    requires Inv(db)
    ensures Inv(EarmarkDeposit(db, target, owned, credited))
  {
    var after := EarmarkDeposit(db, target, owned, credited);
    assert forall x :: Expected(after, x) <==> Expected(db, x);
  }

  lemma ConfirmKeeps(db: Db, id: nat, named: Option<int>, owned: bool)
    requires Inv(db) && ConfirmDepositTx(db, id, named, owned).Some?
    ensures Inv(ConfirmDepositTx(db, id, named, owned).value)
  {
    var credited := CreditedAmount(db.deposits[id], named);
    CreditKeeps(db, id, credited);
    EarmarkKeeps(CreditDeposit(db, id, credited), db.deposits[id].target, owned, credited);
    PayKeeps(EarmarkDeposit(CreditDeposit(db, id, credited), db.deposits[id].target, owned, credited),
             Bonus(DepositRule, Some(id), RuleBonus(db.rules, DepositRule, credited)));
  }

  lemma WithdrawalsKeep(db: Db, e: Event)
    requires Inv(db) && (e.RequestWithdrawal? || e.MoveWithdrawal?)
    ensures Inv(Next(db, e))
  {
    var after := Next(db, e);
    assert forall x :: Expected(after, x) <==> Expected(db, x);
  }

  lemma PayWithdrawalKeeps(db: Db, id: nat)
    requires Inv(db) && PayWithdrawalTx(db, id).Some?
    ensures Inv(PayWithdrawalTx(db, id).value)
  {
    var after := PayWithdrawalTx(db, id).value;
    var e := Entry(Main, 0 - db.withdrawals[id].amount, Some(Ref(Withdrawals, id)));
    NotYet(db, e);
    Grows(db.entries, e);
    assert forall x :: Expected(after, x) <==> Expected(db, x) || x == e;
  }

  function OutRow(id: nat, t: Transfer): seq<Entry> {
    if t.source.InWallet? then [Entry(t.source.wallet, 0 - t.amount, Some(Ref(Transfers, id)))] else []
  }

  function InRow(id: nat, t: Transfer): seq<Entry> {
    if t.target.InWallet? then [Entry(t.target.wallet, t.amount, Some(Ref(Transfers, id)))] else []
  }

  /** A transfer that was not done has no row yet, so settling it writes both of its rows. */
  lemma SettleWrites(db: Db, id: nat, t: Transfer)
    requires OneToOne(db) && FivePairs(t.source, t.target)
    requires id < |db.transfers| ==> !db.transfers[id].status.Done?
    ensures SettleTransfer(db.entries, id, t) == db.entries + OutRow(id, t) + InRow(id, t)
    ensures UniqueKeys(SettleTransfer(db.entries, id, t))
    ensures forall x :: Has(SettleTransfer(db.entries, id, t), x) <==>
                        Has(db.entries, x) || x in OutRow(id, t) || x in InRow(id, t)
  {
    var mid := db.entries;
    if t.source.InWallet? {
      NotYet(db, OutRow(id, t)[0]);
      Grows(mid, OutRow(id, t)[0]);
      mid := mid + OutRow(id, t);
    }
    if t.target.InWallet? {
      NotYet(db, InRow(id, t)[0]);
      assert !Taken(mid, InRow(id, t)[0]);
      Grows(mid, InRow(id, t)[0]);
    }
  }

  /** A transfer that becomes done is settled by exactly the rows its ends call for. */
  lemma SettleKeeps(db: Db, after: Db, id: nat, t: Transfer)
    requires OneToOne(db) && FivePairs(t.source, t.target)
    requires id < |db.transfers| ==> !db.transfers[id].status.Done?
    requires after.transfers == (if id < |db.transfers| then db.transfers[id := t] else db.transfers + [t])
    requires id <= |db.transfers| && t.status.Done?
    requires after.deposits == db.deposits && after.withdrawals == db.withdrawals && after.bonuses == db.bonuses
    requires after.entries == SettleTransfer(db.entries, id, t)
    ensures OneToOne(after)
  {
    SettleWrites(db, id, t);
    forall x: Entry | x.ref.Some?
      ensures Has(after.entries, x) <==> Expected(after, x)
    {
      assert Expected(after, x) <==> Expected(db, x) || x in OutRow(id, t) || x in InRow(id, t);
    }
  }

  lemma RequestTransferKeeps(db: Db, source: End, target: End, amount: nat, read: Option<real>)
    requires Inv(db) && RequestTransferTx(db, source, target, amount, read, false).Some?
    ensures Inv(RequestTransferTx(db, source, target, amount, read, false).value)
  {
    var after := RequestTransferTx(db, source, target, amount, read, false).value;
    var id := |db.transfers|;
    if after.transfers[id].status.Done? {
      SettleKeeps(db, after, id, after.transfers[id]);
    } else {
      assert forall x :: Expected(after, x) <==> Expected(db, x);
    }
  }

  lemma UnfinishedKeeps(db: Db, after: Db, id: nat, t: Transfer)
    requires Inv(db) && id < |db.transfers| && !db.transfers[id].status.Done? && !t.status.Done?
    requires t.source == db.transfers[id].source && t.target == db.transfers[id].target
    requires after == db.(transfers := db.transfers[id := t])
    ensures Inv(after)
  {
    assert forall x :: Expected(after, x) <==> Expected(db, x);
  }

  lemma MoveTransferKeeps(db: Db, id: nat, seen: Status, new_: Status)
    requires Inv(db) && MoveTransferTx(db, id, seen, new_).Some?
    ensures Inv(MoveTransferTx(db, id, seen, new_).value)
  {
    var after := MoveTransferTx(db, id, seen, new_).value;
    if new_.Done? {
      SettleKeeps(db, after, id, after.transfers[id]);
    } else {
      UnfinishedKeeps(db, after, id, db.transfers[id].(status := new_));
    }
  }

  lemma AdjustKeeps(db: Db, w: Wallet, amount: int)
    requires Inv(db)
    ensures Inv(Next(db, Adjust(w, amount)))
  {
    Grows(db.entries, Entry(w, amount, None));
    var after := Next(db, Adjust(w, amount));
    assert forall x :: Expected(after, x) <==> Expected(db, x);
  }

  lemma BrokerKeeps(db: Db, e: Event)
    requires Inv(db) && (e.SetRules? || e.Profit?)
    ensures Inv(Next(db, e))
  {
    var after := Next(db, e);
    assert forall x :: Expected(after, x) <==> Expected(db, x);
  }

  lemma DeskKeeps(db: Db, id: nat)
    requires Inv(db) && DeskMovesTx(db, id).Some?
    ensures Inv(DeskMovesTx(db, id).value)
  {
    var after := DeskMovesTx(db, id).value;
    assert forall x :: Expected(after, x) <==> Expected(db, x);
  }

  lemma StepKeepsInv(db: Db, e: Event)
    requires Inv(db)
    ensures Inv(Next(db, e))
  {
    if Apply(db, e).Some? {
      match e
      case FileDeposit(_, _, _) => DepositsKeep(db, e);
      case CancelDeposit(_) => DepositsKeep(db, e);
      case RejectDeposit(_) => DepositsKeep(db, e);
      case ConfirmDeposit(id, credited, owned) => ConfirmKeeps(db, id, credited, owned);
      case RequestWithdrawal(_, _, _, _) => WithdrawalsKeep(db, e);
      case MoveWithdrawal(_, _, _) => WithdrawalsKeep(db, e);
      case PayWithdrawal(id) => PayWithdrawalKeeps(db, id);
      case RequestTransfer(source, target, amount, read, _) => RequestTransferKeeps(db, source, target, amount, read);
      case MoveTransfer(id, seen, new_) => MoveTransferKeeps(db, id, seen, new_);
      case Adjust(w, amount) => AdjustKeeps(db, w, amount);
      case GrantBonus(amount) => PayKeeps(db, Bonus(Manual, None, amount));
      case AwardRule(source) => PayKeeps(db, Bonus(source, None, RuleBonus(db.rules, source, 0)));
      case SetRules(_) => BrokerKeeps(db, e);
      case Profit(_, _) => BrokerKeeps(db, e);
      case DeskMoves(id) => DeskKeeps(db, id);
    }
  }
}
