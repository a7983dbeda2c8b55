/** The lines that the two kinds of journals put into the ledger, one by one. */
module JournalLines {
  import opened DebtMatching
  import opened NetBalances
  import opened Ledger
  import opened LedgerRuns

  /** What one ledger line says. */
  predicate LineIs(e: LedgerEntry, account: string, accountType: AccountType, side: EntryType, amount: int, text: string) {
    && e.accountId == account && e.accountType == accountType && e.entryType == side
    && e.amountCents == amount && e.description == text
  }

  /** Different draws are different clearing accounts, and none serves expenses and settlements both. */
  lemma {:induction false} ClearingsDiffer(a: string, b: string)
    ensures ExpenseClearing(a) == ExpenseClearing(b) <==> a == b
    ensures SettlementClearing(a) == SettlementClearing(b) <==> a == b
    ensures ExpenseClearing(a) != SettlementClearing(b)
  {
    assert ExpenseClearing(a)[17..] == a && ExpenseClearing(b)[17..] == b;
    assert SettlementClearing(a)[20..] == a && SettlementClearing(b)[20..] == b;
    assert ExpenseClearing(a)[0] == 'E' && SettlementClearing(b)[0] == 'S';
  }

  lemma {:induction false} FirstSmallAt(specs: seq<Spec>) returns (k: nat)
    requires !AmountsOk(specs)
    ensures k < |specs| && FirstSmall(specs) == specs[k].amountCents < 1
    ensures forall j :: 0 <= j < k ==> specs[j].amountCents >= 1
  {
    if specs[0].amountCents < 1 {
      k := 0;
    } else {
      k := FirstSmallAt(specs[1..]);
      k := k + 1;
    }
  }

  /** A posting is refused with the first amount below one cent, and then nothing changes. */
  lemma {:induction false} SmallRefused(hash: string -> string, s: LedgerState, specs: seq<Spec>, description: string, ids: Ids, now: int, k: nat)
    requires k < |specs| && specs[k].amountCents < 1 && forall j :: 0 <= j < k ==> specs[j].amountCents >= 1
    ensures Post(hash, s, specs, description, ids, now) == (s, AmountTooSmall(specs[k].amountCents))
  {
    assert !AmountsOk(specs);
    var m := FirstSmallAt(specs);
    assert m == k;
  }

  lemma {:induction false} EachRepeats(hash: string -> string, heads: map<string, string>, specs: seq<Spec>, description: string, ids: Ids, now: int)
    ensures forall i :: 0 <= i < |specs| ==> Repeats(hash, Build(hash, heads, specs, description, ids, now)[i], specs[i], description, ids, i, now)
  {
    forall i | 0 <= i < |specs|
      ensures Repeats(hash, Build(hash, heads, specs, description, ids, now)[i], specs[i], description, ids, i, now)
    {
      BuildRepeatsAt(hash, heads, specs, description, ids, now, i);
    }
  }

  /**
   * How any posting ends: too small an amount leaves everything; unequal sides are reported and leave
   * entries and journals; otherwise the ledger gets one entry per spec that says what the spec says.
   */
  lemma {:induction false} PostingDecided(hash: string -> string, s: LedgerState, specs: seq<Spec>, description: string, ids: Ids, now: int)
    ensures var (s', r) := Post(hash, s, specs, description, ids, now);
      var large := forall i :: 0 <= i < |specs| ==> specs[i].amountCents >= 1;
      var debits, credits := SpecSide(specs, DEBIT), SpecSide(specs, CREDIT);
      && (r.AmountTooSmall? <==> !large) && (!large ==> s' == s)
      && (r.Imbalance? <==> large && debits != credits)
      && (r.Imbalance? ==> r == Imbalance(debits, credits) && s'.entries == s.entries && s'.journals == s.journals)
      && (r.Posted? ==>
           && r.journal.journalId == ids.journal && r.journal.description == description && r.journal.createdAt == now
           && s'.entries == s.entries + r.journal.entries && s'.journals == s.journals[ids.journal := r.journal]
           && |r.journal.entries| == |specs|
           && forall i :: 0 <= i < |specs| ==> Repeats(hash, r.journal.entries[i], specs[i], description, ids, i, now))
  {
    BuildSide(hash, s.heads, specs, description, ids, now, DEBIT);
    BuildSide(hash, s.heads, specs, description, ids, now, CREDIT);
    EachRepeats(hash, s.heads, specs, description, ids, now);
  }

  // ---- Expenses ----

  /** The splits that are not the payer's own, in order. */
  function OthersOf(payer: UserId, splits: seq<Split>): seq<Split> {
    if splits == [] then [] else
      var s := splits[|splits| - 1];
      OthersOf(payer, splits[..|splits| - 1]) + if s.userId == payer then [] else [s]
  }

  lemma {:induction false} OthersAddUp(payer: UserId, splits: seq<Split>)
    ensures OthersTotal(payer, splits) == SplitTotal(OthersOf(payer, splits))
  {
    if splits != [] {
      var n := |splits| - 1;
      var before := OthersOf(payer, splits[..n]);
      OthersAddUp(payer, splits[..n]);
      assert before + [] == before && (before + [splits[n]])[..|before|] == before;
    }
  }

  lemma {:induction false} DebtorsAre(payer: UserId, splits: seq<Split>, description: string, clearing: string)
    ensures var others, specs := OthersOf(payer, splits), DebtorSpecs(payer, splits, description, clearing);
      && |specs| == 2 * |others|
      && forall i :: 0 <= i < |others| ==>
           specs[2 * i] == Owes(others[i], description) && specs[2 * i + 1] == Clears(others[i], description, clearing)
  {
    if splits != [] {
      DebtorsAre(payer, splits[..|splits| - 1], description, clearing);
    }
  }

  /** Positive amounts add up to more than nothing. */
  lemma {:induction false} PositiveTotal(splits: seq<Split>)
    requires forall o :: o in splits ==> o.amountCents >= 1
    ensures SplitTotal(splits) >= |splits|
  {
    if splits != [] {
      assert splits[|splits| - 1] in splits;
      PositiveTotal(splits[..|splits| - 1]);
    }
  }

  lemma {:induction false} OthersDecide(payer: UserId, splits: seq<Split>, description: string, clearing: string)
    ensures AmountsOk(ExpenseSpecs(payer, splits, description, clearing)) <==> forall o :: o in OthersOf(payer, splits) ==> o.amountCents >= 1
  {
    var others, specs := OthersOf(payer, splits), ExpenseSpecs(payer, splits, description, clearing);
    DebtorsAre(payer, splits, description, clearing);
    if o :| o in others && o.amountCents < 1 {
      var i :| 0 <= i < |others| && others[i] == o;
      assert specs[2 * i] == Owes(o, description);
    }
    forall k | 0 <= k < 2 * |others| && forall o :: o in others ==> o.amountCents >= 1
      ensures specs[k].amountCents >= 1
    {
      assert others[k / 2] in others;
      assert k == 2 * (k / 2) || k == 2 * (k / 2) + 1;
    }
  }

  /**
   * The lines of an expense: for each such split in order, the debit of that user's wallet and the
   * credit of the clearing account; then the clearing account is debited, and the payer credited,
   * with the sum of these splits.
   */
  predicate ExpenseLinesAre(es: seq<LedgerEntry>, payer: UserId, others: seq<Split>, description: string, clearing: string) {
    var n, total := |others|, SplitTotal(others);
    && |es| == (if n == 0 then 0 else 2 * n + 2)
    && (forall i :: 0 <= i < n ==>
         && LineIs(es[2 * i], "USER_WALLET:" + others[i].userId, USER_WALLET, DEBIT, others[i].amountCents, "Owes " + description)
         && LineIs(es[2 * i + 1], clearing, EXPENSE_CLEARING, CREDIT, others[i].amountCents, "Expense clearing: " + description))
    && (n > 0 ==>
         && LineIs(es[2 * n], clearing, EXPENSE_CLEARING, DEBIT, total, "Close clearing: " + description)
         && LineIs(es[2 * n + 1], "USER_WALLET:" + payer, USER_WALLET, CREDIT, total, "Paid for: " + description))
  }

  /** A line says what its spec says. */
  predicate Tells(e: LedgerEntry, spec: Spec) {
    spec.description.Some? && LineIs(e, spec.accountId, spec.accountType, spec.entryType, spec.amountCents, spec.description.value)
  }

  /** Every spec of an expense has a text of its own, and its line tells it. */
  ghost predicate AllTold(es: seq<LedgerEntry>, specs: seq<Spec>) {
    |es| == |specs| && forall i :: 0 <= i < |specs| ==> Tells(es[i], specs[i])
  }

  lemma {:induction false} PairTold(es: seq<LedgerEntry>, payer: UserId, splits: seq<Split>, description: string, clearing: string, i: nat)
    requires AllTold(es, ExpenseSpecs(payer, splits, description, clearing)) && i < |OthersOf(payer, splits)|
    ensures var o := OthersOf(payer, splits)[i];
      && 2 * i + 1 < |es|
      && Tells(es[2 * i], Owes(o, description)) && Tells(es[2 * i + 1], Clears(o, description, clearing))
  {
    var debtors, specs := DebtorSpecs(payer, splits, description, clearing), ExpenseSpecs(payer, splits, description, clearing);
    DebtorsAre(payer, splits, description, clearing);
    assert specs[2 * i] == debtors[2 * i] && specs[2 * i + 1] == debtors[2 * i + 1];
  }

  lemma {:induction false} LinesFromSpecs(es: seq<LedgerEntry>, payer: UserId, splits: seq<Split>, description: string, clearing: string)
    requires forall o :: o in OthersOf(payer, splits) ==> o.amountCents >= 1
    requires AllTold(es, ExpenseSpecs(payer, splits, description, clearing))
    ensures ExpenseLinesAre(es, payer, OthersOf(payer, splits), description, clearing)
  {
    var others, debtors, specs := OthersOf(payer, splits), DebtorSpecs(payer, splits, description, clearing), ExpenseSpecs(payer, splits, description, clearing);
    var n, total := |others|, SplitTotal(others);
    DebtorsAre(payer, splits, description, clearing);
    OthersAddUp(payer, splits);
    PositiveTotal(others);
    forall i | 0 <= i < n
      ensures Tells(es[2 * i], Owes(others[i], description)) && Tells(es[2 * i + 1], Clears(others[i], description, clearing))
    {
      PairTold(es, payer, splits, description, clearing, i);
    }
    if n > 0 {
      assert specs == debtors + [Closes(total, description, clearing), PaidFor(payer, total, description)];
      assert Tells(es[2 * n], Closes(total, description, clearing)) && Tells(es[2 * n + 1], PaidFor(payer, total, description));
    } else {
      assert others == [];
    }
  }

  lemma {:induction false} TextsGiven(payer: UserId, splits: seq<Split>, description: string, clearing: string)
    ensures forall i :: 0 <= i < |ExpenseSpecs(payer, splits, description, clearing)| ==>
              ExpenseSpecs(payer, splits, description, clearing)[i].description.Some?
  {
    var others, debtors, specs := OthersOf(payer, splits), DebtorSpecs(payer, splits, description, clearing), ExpenseSpecs(payer, splits, description, clearing);
    DebtorsAre(payer, splits, description, clearing);
    forall i | 0 <= i < |debtors|
      ensures debtors[i].description.Some?
    {
      var h := i / 2;
      assert debtors[2 * h] == Owes(others[h], description) && debtors[2 * h + 1] == Clears(others[h], description, clearing);
      assert i == 2 * h || i == 2 * h + 1;
    }
  }

  /** An expense journal is posted, with these lines, exactly when every share but the payer's is at least a cent. */
  lemma {:induction false} ExpenseLines(hash: string -> string, s: LedgerState, payer: UserId, splits: seq<Split>, description: string, ids: Ids, now: int)
    ensures var (s', r) := PostExpense(hash, s, payer, splits, description, ids, now);
      && (r.Posted? <==> forall o :: o in OthersOf(payer, splits) ==> o.amountCents >= 1)
      && (r.Posted? ==>
           && s'.entries == s.entries + r.journal.entries
           && s'.journals == s.journals[ids.journal := Journal(ids.journal, r.journal.entries, description, now)]
           && ExpenseLinesAre(r.journal.entries, payer, OthersOf(payer, splits), description, "EXPENSE_CLEARING:" + ids.clearing))
  {
    var clearing := ExpenseClearing(ids.clearing);
    var specs := ExpenseSpecs(payer, splits, description, clearing);
    OthersDecide(payer, splits, description, clearing);
    WrappersNeverUnbalanced(hash, s, ExpenseCall(payer, splits, description, ids, now));
    if AmountsOk(specs) {
      EachRepeats(hash, s.heads, specs, description, ids, now);
      TextsGiven(payer, splits, description, clearing);
      LinesFromSpecs(Build(hash, s.heads, specs, description, ids, now), payer, splits, description, clearing);
    }
  }

  /** Otherwise the first share below a cent is reported and nothing changes. */
  lemma {:induction false} ExpenseRefused(hash: string -> string, s: LedgerState, payer: UserId, splits: seq<Split>, description: string, ids: Ids, now: int, i: nat)
    requires var others := OthersOf(payer, splits);
      i < |others| && others[i].amountCents < 1 && forall j :: 0 <= j < i ==> others[j].amountCents >= 1
    ensures PostExpense(hash, s, payer, splits, description, ids, now) == (s, AmountTooSmall(OthersOf(payer, splits)[i].amountCents))
  {
    var clearing := ExpenseClearing(ids.clearing);
    var others, debtors, specs := OthersOf(payer, splits), DebtorSpecs(payer, splits, description, clearing), ExpenseSpecs(payer, splits, description, clearing);
    DebtorsAre(payer, splits, description, clearing);
    assert forall k :: 0 <= k < |debtors| ==> specs[k] == debtors[k];
    assert specs[2 * i] == Owes(others[i], description);
    forall k | 0 <= k < 2 * i
      ensures specs[k].amountCents >= 1
    {
      var h := k / 2;
      assert debtors[2 * h] == Owes(others[h], description) && debtors[2 * h + 1] == Clears(others[h], description, clearing);
      assert k == 2 * h || k == 2 * h + 1;
    }
    SmallRefused(hash, s, specs, description, ids, now, 2 * i);
  }

  // ---- Settlements ----

  /** The four lines of a settlement: payer debited, clearing account in and out, payee credited. */
  predicate SettlementLinesAre(es: seq<LedgerEntry>, payer: UserId, payee: UserId, amount: int, clearing: string) {
    && |es| == 4
    && LineIs(es[0], "USER_WALLET:" + payer, USER_WALLET, DEBIT, amount, "Settlement payment to " + payee)
    && LineIs(es[1], clearing, SETTLEMENT_CLEARING, CREDIT, amount, "Settlement clearing")
    && LineIs(es[2], clearing, SETTLEMENT_CLEARING, DEBIT, amount, "Settlement clearing close")
    && LineIs(es[3], "USER_WALLET:" + payee, USER_WALLET, CREDIT, amount, "Settlement received from " + payer)
  }

  /** A settlement is posted exactly when it is at least a cent. */
  lemma {:induction false} SettlementLines(hash: string -> string, s: LedgerState, payer: UserId, payee: UserId, amount: int, description: string, ids: Ids, now: int)
    ensures var (s', r) := PostSettlement(hash, s, payer, payee, amount, description, ids, now);
      && (amount < 1 ==> s' == s && r == AmountTooSmall(amount))
      && (amount >= 1 ==>
           && r.Posted? && s'.entries == s.entries + r.journal.entries
           && s'.journals == s.journals[ids.journal := Journal(ids.journal, r.journal.entries, description, now)]
           && SettlementLinesAre(r.journal.entries, payer, payee, amount, "SETTLEMENT_CLEARING:" + ids.clearing))
  {
    var specs := SettlementSpecs(payer, payee, amount, SettlementClearing(ids.clearing));
    WrappersNeverUnbalanced(hash, s, SettlementCall(payer, payee, amount, description, ids, now));
    EachRepeats(hash, s.heads, specs, description, ids, now);
    assert AmountsOk(specs) <==> specs[0].amountCents >= 1;
  }
}
