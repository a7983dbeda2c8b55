/** What the two kinds of journals do to wallets and clearing accounts. */
module Wallets {
  import opened DebtMatching
  import opened NetBalances
  import opened Ledger
  import opened LedgerRuns
  import opened HashBinding

  lemma {:induction false} WalletsDiffer(u: UserId, v: UserId)
    ensures Wallet(u) == Wallet(v) <==> u == v
  {
    assert Wallet(u)[12..] == u && Wallet(v)[12..] == v;
  }

  /** No clearing account is a wallet. */
  lemma {:induction false} ClearingIsNoWallet(id: string, u: UserId)
    ensures ExpenseClearing(id) != Wallet(u) && SettlementClearing(id) != Wallet(u)
  {
    assert ExpenseClearing(id)[0] == 'E' && SettlementClearing(id)[0] == 'S' && Wallet(u)[0] == 'U';
  }

  /** The balance that some specs will give an account. */
  function SpecBalance(specs: seq<Spec>, account: string): int {
    if specs == [] then 0 else
      var s := specs[|specs| - 1];
      SpecBalance(specs[..|specs| - 1], account) +
      if s.accountId != account then 0 else if s.entryType == CREDIT then s.amountCents else -s.amountCents
  }

  lemma {:induction false} SpecBalanceConcat(x: seq<Spec>, y: seq<Spec>, account: string)
    ensures SpecBalance(x + y, account) == SpecBalance(x, account) + SpecBalance(y, account)
  {
    if y == [] {
      assert x + y == x;
    } else {
      assert (x + y)[..|x + y| - 1] == x + y[..|y| - 1];
      SpecBalanceConcat(x, y[..|y| - 1], account);
    }
  }

  lemma {:induction false} TwoSpecs(s: Spec, t: Spec, account: string)
    ensures SpecBalance([s, t], account) == SpecBalance([s], account) + SpecBalance([t], account)
  {
    assert [s, t] == [s] + [t];
    SpecBalanceConcat([s], [t], account);
  }

  lemma {:induction false} BuildBalance(hash: string -> string, heads: map<string, string>, specs: seq<Spec>, description: string, ids: Ids, now: int, account: string)
    ensures Balance(Build(hash, heads, specs, description, ids, now), account) == SpecBalance(specs, account)
  {
    if specs != [] {
      var before, e := BuildLast(hash, heads, specs, description, ids, now);
      BuildBalance(hash, heads, specs[..|specs| - 1], description, ids, now, account);
      assert (before + [e])[..|before|] == before;
    }
  }

  lemma {:induction false} DebtorsOnWallet(payer: UserId, splits: seq<Split>, description: string, clearing: string, u: UserId)
    requires clearing != Wallet(u)
    ensures SpecBalance(DebtorSpecs(payer, splits, description, clearing), Wallet(u)) ==
            Delta(payer, splits, u) - if u == payer then OthersTotal(payer, splits) else 0
  {
    if splits != [] {
      var n := |splits| - 1;
      var s := splits[n];
      var before := DebtorSpecs(payer, splits[..n], description, clearing);
      DebtorsOnWallet(payer, splits[..n], description, clearing, u);
      if s.userId == payer {
        assert before + [] == before;
      } else {
        var pair := [Owes(s, description), Clears(s, description, clearing)];
        SpecBalanceConcat(before, pair, Wallet(u));
        TwoSpecs(pair[0], pair[1], Wallet(u));
        WalletsDiffer(s.userId, u);
      }
    }
  }

  lemma {:induction false} DebtorsOnClearing(payer: UserId, splits: seq<Split>, description: string, clearing: string, account: string)
    requires forall u :: account != Wallet(u)
    ensures SpecBalance(DebtorSpecs(payer, splits, description, clearing), account) ==
            if account == clearing then OthersTotal(payer, splits) else 0
  {
    if splits != [] {
      var n := |splits| - 1;
      var s := splits[n];
      var before := DebtorSpecs(payer, splits[..n], description, clearing);
      DebtorsOnClearing(payer, splits[..n], description, clearing, account);
      if s.userId == payer {
        assert before + [] == before;
      } else {
        var pair := [Owes(s, description), Clears(s, description, clearing)];
        SpecBalanceConcat(before, pair, account);
        TwoSpecs(pair[0], pair[1], account);
      }
    }
  }

  /** Accepted amounts make the total what the others owe, and not negative. */
  lemma {:induction false} AcceptedTotal(payer: UserId, splits: seq<Split>, description: string, clearing: string)
    requires AmountsOk(DebtorSpecs(payer, splits, description, clearing))
    ensures OthersTotal(payer, splits) >= 0
    ensures OthersTotal(payer, splits) == 0 <==> forall i :: 0 <= i < |splits| ==> splits[i].userId == payer
  {
    if splits != [] {
      var n := |splits| - 1;
      var before, all := DebtorSpecs(payer, splits[..n], description, clearing), DebtorSpecs(payer, splits, description, clearing);
      assert forall i :: 0 <= i < |before| ==> all[i] == before[i];
      AcceptedTotal(payer, splits[..n], description, clearing);
      if splits[n].userId != payer {
        assert all[|before|] == Owes(splits[n], description);
      }
    }
  }

  lemma {:induction false} AcceptedDebtors(payer: UserId, splits: seq<Split>, description: string, clearing: string)
    requires AmountsOk(ExpenseSpecs(payer, splits, description, clearing))
    ensures AmountsOk(DebtorSpecs(payer, splits, description, clearing))
  {
    var debtors, all := DebtorSpecs(payer, splits, description, clearing), ExpenseSpecs(payer, splits, description, clearing);
    assert forall i :: 0 <= i < |debtors| ==> all[i] == debtors[i];
  }

  /** An accepted expense journal gives every wallet exactly the expense's effect on its user. */
  lemma {:induction false} ExpenseOnWallet(payer: UserId, splits: seq<Split>, description: string, id: string, u: UserId)
    requires AmountsOk(ExpenseSpecs(payer, splits, description, ExpenseClearing(id)))
    ensures SpecBalance(ExpenseSpecs(payer, splits, description, ExpenseClearing(id)), Wallet(u)) == Delta(payer, splits, u)
  {
    var clearing := ExpenseClearing(id);
    var total := OthersTotal(payer, splits);
    var debtors := DebtorSpecs(payer, splits, description, clearing);
    ClearingIsNoWallet(id, u);
    AcceptedDebtors(payer, splits, description, clearing);
    AcceptedTotal(payer, splits, description, clearing);
    DebtorsOnWallet(payer, splits, description, clearing, u);
    if total > 0 {
      var close := [Closes(total, description, clearing), PaidFor(payer, total, description)];
      SpecBalanceConcat(debtors, close, Wallet(u));
      TwoSpecs(close[0], close[1], Wallet(u));
      WalletsDiffer(payer, u);
    } else {
      assert debtors + [] == debtors;
    }
  }

  /** It leaves every account that is not a wallet as it was. */
  lemma {:induction false} ExpenseClears(payer: UserId, splits: seq<Split>, description: string, id: string, account: string)
    requires AmountsOk(ExpenseSpecs(payer, splits, description, ExpenseClearing(id)))
    requires forall u :: account != Wallet(u)
    ensures SpecBalance(ExpenseSpecs(payer, splits, description, ExpenseClearing(id)), account) == 0
  {
    var clearing := ExpenseClearing(id);
    var total := OthersTotal(payer, splits);
    var debtors := DebtorSpecs(payer, splits, description, clearing);
    AcceptedDebtors(payer, splits, description, clearing);
    AcceptedTotal(payer, splits, description, clearing);
    DebtorsOnClearing(payer, splits, description, clearing, account);
    if total > 0 {
      var close := [Closes(total, description, clearing), PaidFor(payer, total, description)];
      SpecBalanceConcat(debtors, close, account);
      TwoSpecs(close[0], close[1], account);
    } else {
      assert debtors + [] == debtors;
    }
  }

  /** A settlement journal takes from the payer's wallet, gives to the payee's, and clears. */
  lemma {:induction false} SettlementOnAccount(payer: UserId, payee: UserId, amount: int, id: string, account: string)
    ensures SpecBalance(SettlementSpecs(payer, payee, amount, SettlementClearing(id)), account) ==
            (if account == Wallet(payee) then amount else 0) - (if account == Wallet(payer) then amount else 0)
  {
    var specs := SettlementSpecs(payer, payee, amount, SettlementClearing(id));
    assert specs == [specs[0], specs[1]] + [specs[2], specs[3]];
    SpecBalanceConcat([specs[0], specs[1]], [specs[2], specs[3]], account);
    TwoSpecs(specs[0], specs[1], account);
    TwoSpecs(specs[2], specs[3], account);
  }

  /** What an accepted posting adds to an account. */
  lemma {:induction false} PostedBalance(hash: string -> string, s: LedgerState, specs: seq<Spec>, description: string, ids: Ids, now: int, account: string)
    requires Post(hash, s, specs, description, ids, now).1.Posted?
    ensures var (s', r) := Post(hash, s, specs, description, ids, now);
      && Balance(s'.entries, account) == Balance(s.entries, account) + SpecBalance(specs, account)
      && Balance(r.journal.entries, account) == SpecBalance(specs, account)
      && s'.journals == s.journals[ids.journal := r.journal]
  {
    BuildBalance(hash, s.heads, specs, description, ids, now, account);
    BalanceConcat(s.entries, Build(hash, s.heads, specs, description, ids, now), account);
  }
}
