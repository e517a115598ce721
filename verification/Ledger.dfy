/**
 The wallet ledger: what a balance is, the one writer of ledger rows, and the bonus writer
 built on it.  A settlement row names the request it settles; a second row with the same
 name on the same wallet is never written.
 */
module Ledger {
  import opened Base

  datatype Wallet = Main | Credit | Pamm | Social
  datatype Table = Deposits | Withdrawals | Transfers | Bonuses
  datatype Ref = Ref(table: Table, id: nat)
  datatype Entry = Entry(wallet: Wallet, amount: int, ref: Option<Ref>)

  // ---------------------------------------------------------------- figures

  function OnWallet(w: Wallet): Entry -> int {
    (e: Entry) => if e.wallet == w then e.amount else 0
  }

  /** The sum of a wallet's entries: nothing stores a balance. */
  function Balance(entries: seq<Entry>, w: Wallet): int {
    Sum(entries, OnWallet(w))
  }

  function PairOn(w: Wallet): ((Wallet, int)) -> int {
    (p: (Wallet, int)) => if p.0 == w then p.1 else 0
  }

  function Identity(): int -> int {
    (x: int) => x
  }

  /** `balance`: one pass over (wallet, amount) pairs gives every wallet its sum, zero included. */
  method Balances(pairs: seq<(Wallet, int)>) returns (out: map<Wallet, int>)
    ensures out.Keys == {Main, Credit, Pamm, Social}
    ensures forall w | w in out :: out[w] == Sum(pairs, PairOn(w))
  {
    out := map[Main := 0, Credit := 0, Pamm := 0, Social := 0];
    for i := 0 to |pairs|
      invariant out.Keys == {Main, Credit, Pamm, Social}
      invariant forall w | w in out :: out[w] == Sum(pairs[..i], PairOn(w))
    {
      var (wallet, amount) := pairs[i];
      assert pairs[..i + 1][..i] == pairs[..i];
      out := out[wallet := out[wallet] + amount];
    }
    assert pairs[..|pairs|] == pairs;
  }

  /** `holds`: open withdrawals all weigh on the main wallet, open transfers on their source. */
  method Holds(openWithdrawals: seq<int>, openTransfers: seq<(Wallet, int)>) returns (out: map<Wallet, int>)
    ensures out.Keys == {Main, Credit, Pamm, Social}
    ensures forall w | w in out ::
              out[w] == Sum(openTransfers, PairOn(w)) + if w.Main? then Sum(openWithdrawals, Identity()) else 0
  {
    out := map[Main := 0, Credit := 0, Pamm := 0, Social := 0];
    for i := 0 to |openWithdrawals|
      invariant out.Keys == {Main, Credit, Pamm, Social}
      invariant out[Main] == Sum(openWithdrawals[..i], Identity())
      invariant out[Credit] == 0 && out[Pamm] == 0 && out[Social] == 0
    {
      assert openWithdrawals[..i + 1][..i] == openWithdrawals[..i];
      out := out[Main := out[Main] + openWithdrawals[i]];
    }
    assert openWithdrawals[..|openWithdrawals|] == openWithdrawals;
    ghost var held := out;
    for i := 0 to |openTransfers|
      invariant out.Keys == {Main, Credit, Pamm, Social}
      invariant forall w | w in out :: out[w] == held[w] + Sum(openTransfers[..i], PairOn(w))
    {
      var (wallet, amount) := openTransfers[i];
      assert openTransfers[..i + 1][..i] == openTransfers[..i];
      out := out[wallet := out[wallet] + amount];
    }
    assert openTransfers[..|openTransfers|] == openTransfers;
  }

  // ---------------------------------------------------------------- the settlement writer

  /** The partial unique index (ref_table, ref_id, wallet). */
  predicate SameKey(a: Entry, b: Entry) {
    a.ref.Some? && a.ref == b.ref && a.wallet == b.wallet
  }

  predicate Taken(entries: seq<Entry>, e: Entry) {
    exists i :: 0 <= i < |entries| && SameKey(entries[i], e)
  }

  function Settled(entries: seq<Entry>, e: Entry): seq<Entry> {
    if Taken(entries, e) then entries else entries + [e]
  }

  function SettleAll(entries: seq<Entry>, calls: seq<Entry>): seq<Entry> {
    if calls == [] then entries else Settled(SettleAll(entries, calls[..|calls| - 1]), calls[|calls| - 1])
  }

  /** Each reference's first call, and every call without a reference: the calls that matter. */
  ghost function FirstCalls(calls: seq<Entry>): seq<Entry> {
    if calls == [] then []
    else
      var init, last := calls[..|calls| - 1], calls[|calls| - 1];
      FirstCalls(init) + if exists i :: 0 <= i < |init| && SameKey(init[i], last) then [] else [last]
  }

  lemma {:induction false} TakenMeansCalled(calls: seq<Entry>, e: Entry)
    ensures Taken(FirstCalls(calls), e) <==> exists i :: 0 <= i < |calls| && SameKey(calls[i], e)
    decreases |calls|
  {
    if calls != [] {
      var n := |calls| - 1;
      var init, last := calls[..n], calls[n];
      TakenMeansCalled(init, e);
      var firsts := FirstCalls(init);
      if Taken(firsts, e) {
        var k :| 0 <= k < |firsts| && SameKey(firsts[k], e);
        assert SameKey(FirstCalls(calls)[k], e);
        var i :| 0 <= i < |init| && SameKey(init[i], e);
        assert SameKey(calls[i], e);
      } else if SameKey(last, e) {
        assert forall i | 0 <= i < |init| && SameKey(init[i], last) :: SameKey(init[i], e);
        assert FirstCalls(calls)[|firsts|] == last;
        assert SameKey(calls[n], e);
      } else {
        assert forall i :: 0 <= i < |calls| && SameKey(calls[i], e) ==> i < n && SameKey(init[i], e);
        assert forall k :: 0 <= k < |FirstCalls(calls)| && SameKey(FirstCalls(calls)[k], e) ==> k < |firsts|;
      }
    }
  }

  /** REPLAY IS HARMLESS: any sequence of settlements, repeats and all, writes exactly the first
      call of each reference, and every unreferenced adjustment. */
  lemma {:induction false} ReplaySafe(calls: seq<Entry>)
    ensures SettleAll([], calls) == FirstCalls(calls)
    decreases |calls|
  {
    if calls != [] {
      ReplaySafe(calls[..|calls| - 1]);
      TakenMeansCalled(calls[..|calls| - 1], calls[|calls| - 1]);
    }
  }

  /** The row a call leaves behind: the first with its reference on its wallet. */
  ghost predicate Written(calls: seq<Entry>, i: nat)
    requires i < |calls|
  {
    forall j | 0 <= j < i ::
      calls[j].ref != calls[i].ref || calls[j].wallet != calls[i].wallet || calls[i].ref.None?
  }

  ghost function WrittenCalls(calls: seq<Entry>): seq<Entry> {
    if calls == [] then []
    else
      var n := |calls| - 1;
      WrittenCalls(calls[..n]) + if Written(calls, n) then [calls[n]] else []
  }

  /** WHAT IS WRITTEN, whatever is repeated: in order, every call that names no request and of the others
      the first to name its request on its wallet. */
  lemma {:induction false} LedgerIsWritten(calls: seq<Entry>)
    ensures SettleAll([], calls) == WrittenCalls(calls)
    decreases |calls|
  {
    if calls != [] {
      var n := |calls| - 1;
      LedgerIsWritten(calls[..n]);
      ReplaySafe(calls[..n]);
      TakenMeansCalled(calls[..n], calls[n]);
      assert forall j | 0 <= j < n :: calls[..n][j] == calls[j];
      assert Written(calls, n) <==> forall j | 0 <= j < n :: !SameKey(calls[j], calls[n]);
    }
  }

  // ---------------------------------------------------------------- bonuses

  datatype Source = Signup | Kyc | DepositRule | Manual
  datatype Bonus = Bonus(source: Source, deposit: Option<nat>, amount: int)

  /** The two partial unique indexes of the bonuses table, for one investor. */
  predicate SameRule(a: Bonus, b: Bonus) {
    a.source == b.source && (a.source.Signup? || a.source.Kyc? || (a.source.DepositRule? && a.deposit == b.deposit))
  }

  /** On the rows themselves: nobody has two signup bonuses, two kyc bonuses, or two for one deposit. */
  ghost predicate OncePerRule(bonuses: seq<Bonus>) {
    forall i, j | 0 <= i < j < |bonuses| ::
      && !(bonuses[i].source.Signup? && bonuses[j].source.Signup?)
      && !(bonuses[i].source.Kyc? && bonuses[j].source.Kyc?)
      && !(bonuses[i].source.DepositRule? && bonuses[j].source.DepositRule?
           && bonuses[i].deposit == bonuses[j].deposit)
  }

  /** A row that bars this bonus: the same once-only rule, and for a deposit the same deposit. */
  ghost predicate Bars(row: Bonus, b: Bonus) {
    || (row.source.Signup? && b.source.Signup?)
    || (row.source.Kyc? && b.source.Kyc?)
    || (row.source.DepositRule? && b.source.DepositRule? && row.deposit == b.deposit)
  }

  predicate PaidBefore(bonuses: seq<Bonus>, b: Bonus) {
    exists i :: 0 <= i < |bonuses| && SameRule(bonuses[i], b)
  }

  function BonusEntry(id: nat, amount: int): Entry {
    Entry(Credit, amount, Some(Ref(Bonuses, id)))
  }

  datatype Payment = NotPaid | PaidAs(id: nat) | Drifted

  /** `pay_bonus` on the two tables.  Drifted is the RuntimeError that rolls the transaction back. */
  function PayBonus(bonuses: seq<Bonus>, entries: seq<Entry>, b: Bonus): (seq<Bonus>, seq<Entry>, Payment) {
    if b.amount == 0 || PaidBefore(bonuses, b) then (bonuses, entries, NotPaid)
    else if Taken(entries, BonusEntry(|bonuses|, b.amount)) then (bonuses, entries, Drifted)
    else (bonuses + [b], entries + [BonusEntry(|bonuses|, b.amount)], PaidAs(|bonuses|))
  }

  /**
   PAID EXACTLY ONCE: a bonus that is not zero is paid if and only if no row bars it, so a manual one
   always is; then exactly its row and its credit entry are added. Otherwise nothing changes.
   */
  lemma PaidExactly(bonuses: seq<Bonus>, entries: seq<Entry>, b: Bonus)
    requires OncePerRule(bonuses)
    ensures var (after, ledger, paid) := PayBonus(bonuses, entries, b);
            && OncePerRule(after)
            && (!paid.Drifted? ==>
                  (paid == PaidAs(|bonuses|) <==>
                     b.amount != 0 && forall i | 0 <= i < |bonuses| :: !Bars(bonuses[i], b)))
            && (paid.PaidAs? ==>
                  && after == bonuses + [b]
                  && ledger == entries + [Entry(Credit, b.amount, Some(Ref(Bonuses, |bonuses|)))])
            && (!paid.PaidAs? ==> after == bonuses && ledger == entries)
  {
    assert forall i | 0 <= i < |bonuses| :: SameRule(bonuses[i], b) <==> Bars(bonuses[i], b);
  }

  /** The tables, changed in place inside the caller's transaction. */
  class LedgerTables {
    var entries: seq<Entry>
    var bonuses: seq<Bonus>

    method Settle(e: Entry) returns (wrote: bool)
      modifies this`entries
      ensures wrote <==> !Taken(old(entries), e)
      ensures entries == Settled(old(entries), e)
    {
      for i := 0 to |entries|
        invariant forall k | 0 <= k < i :: !SameKey(entries[k], e)
        invariant entries == old(entries)
      {
        if SameKey(entries[i], e) {
          return false;
        }
      }
      entries := entries + [e];
      return true;
    }

    /** Inserts the bonus unless its rule already paid, then credits it. */
    method Pay(b: Bonus) returns (paid: Payment)
      modifies this
      ensures (bonuses, entries, paid) == PayBonus(old(bonuses), old(entries), b)
      ensures OncePerRule(old(bonuses)) ==> OncePerRule(bonuses)
      ensures OncePerRule(old(bonuses)) && !paid.Drifted? ==>
                (bonuses == old(bonuses) + [b] <==>
                 b.amount != 0 && forall i | 0 <= i < |old(bonuses)| :: !Bars(old(bonuses)[i], b))
    {
      if OncePerRule(bonuses) {
        PaidExactly(bonuses, entries, b);
      }
      if b.amount == 0 {
        return NotPaid;
      }
      for i := 0 to |bonuses|
        invariant forall k | 0 <= k < i :: !SameRule(bonuses[k], b)
        invariant bonuses == old(bonuses) && entries == old(entries)
      {
        if SameRule(bonuses[i], b) {
          return NotPaid;
        }
      }
      var id := |bonuses|;
      bonuses := bonuses + [b];
      var wrote := Settle(BonusEntry(id, b.amount));
      if !wrote {
        bonuses := bonuses[..id];   // the transaction rolls back
        return Drifted;
      }
      return PaidAs(id);
    }
  }
}
