/** What every run of the two posting wrappers keeps: heads, chains, balance and a clean audit. */
module LedgerRuns {
  import opened StableSort
  import opened DebtMatching
  import opened NetBalances
  import opened Ledger

  // ---- Chains ----

  /** One account's list: each entry names its predecessor's hash and carries its own. */
  ghost predicate Linked(hash: string -> string, es: seq<LedgerEntry>) {
    es != [] ==>
      var n := |es| - 1;
      && Linked(hash, es[..n])
      && es[n].prevHash == LastHash(es[..n])
      && es[n].entryHash == HashOf(hash, es[n])
  }

  lemma {:induction false} NoErrorsIffLinked(hash: string -> string, account: string, es: seq<LedgerEntry>)
    ensures ChainErrors(hash, account, es) == [] <==> Linked(hash, es)
  {
    if es != [] {
      NoErrorsIffLinked(hash, account, es[..|es| - 1]);
    }
  }

  ghost predicate AllLinked(hash: string -> string, entries: seq<LedgerEntry>, accounts: seq<string>) {
    accounts != [] ==>
      var n := |accounts| - 1;
      AllLinked(hash, entries, accounts[..n]) && Linked(hash, Timeline(entries, accounts[n]))
  }

  lemma {:induction false} AllLinkedMembers(hash: string -> string, entries: seq<LedgerEntry>, accounts: seq<string>, a: string)
    requires AllLinked(hash, entries, accounts) && a in accounts
    ensures Linked(hash, Timeline(entries, a))
  {
    var n := |accounts| - 1;
    if a != accounts[n] {
      assert a in accounts[..n];
      AllLinkedMembers(hash, entries, accounts[..n], a);
    }
  }

  lemma {:induction false} NoAccountErrors(hash: string -> string, entries: seq<LedgerEntry>, accounts: seq<string>)
    ensures AccountErrors(hash, entries, accounts) == [] ==> AllLinked(hash, entries, accounts)
    ensures (forall a :: Linked(hash, Timeline(entries, a))) ==> AccountErrors(hash, entries, accounts) == []
  {
    if accounts != [] {
      var n := |accounts| - 1;
      NoAccountErrors(hash, entries, accounts[..n]);
      NoErrorsIffLinked(hash, accounts[n], Timeline(entries, accounts[n]));
    }
  }

  lemma {:induction false} AccountsAreThoseUsed(entries: seq<LedgerEntry>, a: string)
    ensures a in Accounts(entries) <==> Of(entries, a) != []
  {
    if entries != [] {
      AccountsAreThoseUsed(entries[..|entries| - 1], a);
    }
  }

  /** The audit is clean exactly when the time-ordered list of every account is linked. */
  lemma {:induction false} AuditCleanIff(hash: string -> string, entries: seq<LedgerEntry>)
    ensures Audit(hash, entries) == [] <==> forall a :: Linked(hash, Timeline(entries, a))
  {
    var accounts := Accounts(entries);
    NoAccountErrors(hash, entries, accounts);
    forall a | AllLinked(hash, entries, accounts)
      ensures Linked(hash, Timeline(entries, a))
    {
      AccountsAreThoseUsed(entries, a);
      if a in accounts {
        AllLinkedMembers(hash, entries, accounts, a);
      }
    }
  }

  /** The whole ledger as posted: every entry continues the head its account then had. */
  ghost predicate Chained(hash: string -> string, entries: seq<LedgerEntry>) {
    entries != [] ==>
      var n := |entries| - 1;
      var e := entries[n];
      && Chained(hash, entries[..n])
      && e.prevHash == Head(Advance(map[], entries[..n]), e.accountId)
      && e.entryHash == HashOf(hash, e)
  }

  lemma {:induction false} AdvanceConcat(heads: map<string, string>, x: seq<LedgerEntry>, y: seq<LedgerEntry>)
    ensures Advance(heads, x + y) == Advance(Advance(heads, x), y)
  {
    if y == [] {
      assert x + y == x;
    } else {
      var n := |y| - 1;
      assert (x + y)[..|x + y| - 1] == x + y[..n];
      AdvanceConcat(heads, x, y[..n]);
    }
  }

  /** The head of an account is the last hash on it. */
  lemma {:induction false} HeadIsLastHash(entries: seq<LedgerEntry>, a: string)
    ensures Head(Advance(map[], entries), a) == LastHash(Of(entries, a))
    ensures a in Advance(map[], entries) <==> Of(entries, a) != []
  {
    if entries != [] {
      HeadIsLastHash(entries[..|entries| - 1], a);
    }
  }

  lemma {:induction false} ChainedIsLinked(hash: string -> string, entries: seq<LedgerEntry>, a: string)
    requires Chained(hash, entries)
    ensures Linked(hash, Of(entries, a))
  {
    if entries != [] {
      var n := |entries| - 1;
      ChainedIsLinked(hash, entries[..n], a);
      HeadIsLastHash(entries[..n], a);
      var o := Of(entries[..n], a);
      if entries[n].accountId != a {
        assert o + [] == o;
      } else {
        assert (o + [entries[n]])[..|o|] == o;
      }
    }
  }

  lemma {:induction false} OfMembers(entries: seq<LedgerEntry>, a: string)
    ensures forall e :: e in Of(entries, a) <==> e in entries && e.accountId == a
  {
    if entries != [] {
      OfMembers(entries[..|entries| - 1], a);
      assert entries == entries[..|entries| - 1] + [entries[|entries| - 1]];
    }
  }

  lemma {:induction false} OfConcat(x: seq<LedgerEntry>, y: seq<LedgerEntry>, a: string)
    ensures Of(x + y, a) == Of(x, a) + Of(y, a)
  {
    if y == [] {
      assert x + y == x;
    } else {
      assert (x + y)[..|x + y| - 1] == x + y[..|y| - 1];
      OfConcat(x, y[..|y| - 1], a);
    }
  }

  lemma {:induction false} OfSorted(entries: seq<LedgerEntry>, a: string)
    requires Sorted(entries, TimeLe)
    ensures Sorted(Of(entries, a), TimeLe)
  {
    if entries != [] {
      var n := |entries| - 1;
      OfSorted(entries[..n], a);
      OfMembers(entries[..n], a);
    }
  }

  /** Under a clock that does not run backwards the audit's sort changes nothing. */
  lemma {:induction false} TimelineIsLedgerOrder(entries: seq<LedgerEntry>, a: string)
    requires Sorted(entries, TimeLe)
    ensures Timeline(entries, a) == Of(entries, a)
  {
    OfSorted(entries, a);
    SortIdentity(Of(entries, a), TimeLe);
  }

  /** A chained ledger in time order passes the audit. */
  lemma {:induction false} ChainedPassesAudit(hash: string -> string, entries: seq<LedgerEntry>)
    requires Chained(hash, entries) && Sorted(entries, TimeLe)
    ensures Audit(hash, entries) == []
  {
    forall a
      ensures Linked(hash, Timeline(entries, a))
    {
      TimelineIsLedgerOrder(entries, a);
      ChainedIsLinked(hash, entries, a);
    }
    AuditCleanIff(hash, entries);
  }

  // ---- Posting ----

  lemma {:induction false} BuildLast(hash: string -> string, heads: map<string, string>, specs: seq<Spec>, description: string, ids: Ids, now: int)
    returns (before: seq<LedgerEntry>, e: LedgerEntry)
    requires specs != []
    ensures before == Build(hash, heads, specs[..|specs| - 1], description, ids, now)
    ensures e == MakeEntry(hash, Advance(heads, before), specs[|specs| - 1], description, ids.journal, ids.entry(|specs| - 1), now)
    ensures Build(hash, heads, specs, description, ids, now) == before + [e]
  {
    before := Build(hash, heads, specs[..|specs| - 1], description, ids, now);
    e := MakeEntry(hash, Advance(heads, before), specs[|specs| - 1], description, ids.journal, ids.entry(|specs| - 1), now);
  }

  lemma {:induction false} BuildContinues(hash: string -> string, entries: seq<LedgerEntry>, specs: seq<Spec>, description: string, ids: Ids, now: int)
    requires Chained(hash, entries)
    ensures Chained(hash, entries + Build(hash, Advance(map[], entries), specs, description, ids, now))
  {
    var heads := Advance(map[], entries);
    if specs == [] {
      assert entries + Build(hash, heads, specs, description, ids, now) == entries;
    } else {
      var before, e := BuildLast(hash, heads, specs, description, ids, now);
      BuildContinues(hash, entries, specs[..|specs| - 1], description, ids, now);
      AdvanceConcat(map[], entries, before);
      assert entries + (before + [e]) == entries + before + [e];
    }
  }

  /** Each entry repeats its spec, with the identifiers and time of the posting. */
  ghost predicate Repeats(hash: string -> string, e: LedgerEntry, spec: Spec, description: string, ids: Ids, i: nat, now: int) {
    && e.accountId == spec.accountId && e.accountType == spec.accountType && e.entryType == spec.entryType && e.amountCents == spec.amountCents
    && e.description == (if spec.description.Some? then spec.description.value else description)
    && e.createdAt == now && e.entryId == ids.entry(i) && e.journalId == ids.journal
    && e.entryHash == HashOf(hash, e)
  }

  lemma {:induction false} MadeRepeats(hash: string -> string, heads: map<string, string>, spec: Spec, description: string, ids: Ids, i: nat, now: int)
    ensures Repeats(hash, MakeEntry(hash, heads, spec, description, ids.journal, ids.entry(i), now), spec, description, ids, i, now)
  {
  }

  lemma {:induction false} BuildRepeatsAt(hash: string -> string, heads: map<string, string>, specs: seq<Spec>, description: string, ids: Ids, now: int, i: nat)
    requires i < |specs|
    ensures Repeats(hash, Build(hash, heads, specs, description, ids, now)[i], specs[i], description, ids, i, now)
  {
    var n := |specs| - 1;
    var before, e := BuildLast(hash, heads, specs, description, ids, now);
    if i < n {
      BuildRepeatsAt(hash, heads, specs[..n], description, ids, now, i);
      assert (before + [e])[i] == before[i] && specs[..n][i] == specs[i];
    } else {
      MadeRepeats(hash, Advance(heads, before), specs[n], description, ids, n, now);
      assert (before + [e])[i] == e;
    }
  }

  function SpecSide(specs: seq<Spec>, t: EntryType): int {
    if specs == [] then 0 else
      var s := specs[|specs| - 1];
      SpecSide(specs[..|specs| - 1], t) + if s.entryType == t then s.amountCents else 0
  }

  lemma {:induction false} SpecSideConcat(x: seq<Spec>, y: seq<Spec>, t: EntryType)
    ensures SpecSide(x + y, t) == SpecSide(x, t) + SpecSide(y, t)
  {
    if y == [] {
      assert x + y == x;
    } else {
      assert (x + y)[..|x + y| - 1] == x + y[..|y| - 1];
      SpecSideConcat(x, y[..|y| - 1], t);
    }
  }

  lemma {:induction false} BuildSide(hash: string -> string, heads: map<string, string>, specs: seq<Spec>, description: string, ids: Ids, now: int, t: EntryType)
    ensures Side(Build(hash, heads, specs, description, ids, now), t) == SpecSide(specs, t)
  {
    if specs != [] {
      var es := Build(hash, heads, specs, description, ids, now);
      BuildSide(hash, heads, specs[..|specs| - 1], description, ids, now, t);
      assert es[..|es| - 1] == Build(hash, heads, specs[..|specs| - 1], description, ids, now);
    }
  }

  lemma {:induction false} PairSide(s: Spec, t: Spec, side: EntryType)
    requires s.entryType != t.entryType && s.amountCents == t.amountCents
    ensures SpecSide([s, t], side) == s.amountCents
  {
    assert [s, t][..1] == [s] && [s][..0] == [];
    assert SpecSide([s], side) == if s.entryType == side then s.amountCents else 0;
  }

  lemma {:induction false} DebtorsBalance(payer: UserId, splits: seq<Split>, description: string, clearing: string)
    ensures SpecSide(DebtorSpecs(payer, splits, description, clearing), DEBIT) == OthersTotal(payer, splits)
    ensures SpecSide(DebtorSpecs(payer, splits, description, clearing), CREDIT) == OthersTotal(payer, splits)
  {
    if splits != [] {
      var n := |splits| - 1;
      var s := splits[n];
      DebtorsBalance(payer, splits[..n], description, clearing);
      if s.userId != payer {
        var before := DebtorSpecs(payer, splits[..n], description, clearing);
        var pair := [Owes(s, description), Clears(s, description, clearing)];
        SpecSideConcat(before, pair, DEBIT);
        SpecSideConcat(before, pair, CREDIT);
        PairSide(pair[0], pair[1], DEBIT);
        PairSide(pair[0], pair[1], CREDIT);
      } else {
        assert DebtorSpecs(payer, splits[..n], description, clearing) + [] == DebtorSpecs(payer, splits[..n], description, clearing);
      }
    }
  }

  lemma {:induction false} ExpenseBalances(payer: UserId, splits: seq<Split>, description: string, clearing: string)
    ensures SpecSide(ExpenseSpecs(payer, splits, description, clearing), DEBIT) == SpecSide(ExpenseSpecs(payer, splits, description, clearing), CREDIT)
  {
    var debtors := DebtorSpecs(payer, splits, description, clearing);
    var total := OthersTotal(payer, splits);
    DebtorsBalance(payer, splits, description, clearing);
    if total > 0 {
      var close := [Closes(total, description, clearing), PaidFor(payer, total, description)];
      SpecSideConcat(debtors, close, DEBIT);
      SpecSideConcat(debtors, close, CREDIT);
      PairSide(close[0], close[1], DEBIT);
      PairSide(close[0], close[1], CREDIT);
    } else {
      assert debtors + [] == debtors;
    }
  }

  lemma {:induction false} SettlementBalances(payer: UserId, payee: UserId, amount: int, clearing: string)
    ensures SpecSide(SettlementSpecs(payer, payee, amount, clearing), DEBIT) == SpecSide(SettlementSpecs(payer, payee, amount, clearing), CREDIT)
  {
    var specs := SettlementSpecs(payer, payee, amount, clearing);
    assert specs == [specs[0], specs[1]] + [specs[2], specs[3]];
    forall t: EntryType
      ensures SpecSide(specs, t) == amount + amount
    {
      SpecSideConcat([specs[0], specs[1]], [specs[2], specs[3]], t);
      PairSide(specs[0], specs[1], t);
      PairSide(specs[2], specs[3], t);
    }
  }

  // ---- Runs ----

  /** A call of one of the two wrappers. */
  datatype Call =
    | ExpenseCall(payerId: UserId, splits: seq<Split>, description: string, ids: Ids, now: int)
    | SettlementCall(payerId: UserId, payeeId: UserId, amountCents: int, description: string, ids: Ids, now: int)

  function CallSpecs(call: Call): seq<Spec> {
    match call
    case ExpenseCall(payer, splits, description, ids, _) => ExpenseSpecs(payer, splits, description, ExpenseClearing(ids.clearing))
    case SettlementCall(payer, payee, amount, _, ids, _) => SettlementSpecs(payer, payee, amount, SettlementClearing(ids.clearing))
  }

  function Apply(hash: string -> string, s: LedgerState, call: Call): (LedgerState, Posting) {
    match call
    case ExpenseCall(payer, splits, description, ids, now) => PostExpense(hash, s, payer, splits, description, ids, now)
    case SettlementCall(payer, payee, amount, description, ids, now) => PostSettlement(hash, s, payer, payee, amount, description, ids, now)
  }

  function Run(hash: string -> string, calls: seq<Call>): LedgerState {
    if calls == [] then EMPTY_LEDGER else
      Apply(hash, Run(hash, calls[..|calls| - 1]), calls[|calls| - 1]).0
  }

  ghost predicate ClockRuns(calls: seq<Call>) {
    forall i, j :: 0 <= i < j < |calls| ==> calls[i].now <= calls[j].now
  }

  /** The invariant of the ledger, at some time. */
  ghost predicate Sound(hash: string -> string, s: LedgerState, now: int) {
    && s.heads == Advance(map[], s.entries)
    && Chained(hash, s.entries)
    && Sorted(s.entries, TimeLe)
    && (forall e :: e in s.entries ==> e.createdAt <= now)
    && Side(s.entries, DEBIT) == Side(s.entries, CREDIT)
  }

  lemma {:induction false} SideConcat(x: seq<LedgerEntry>, y: seq<LedgerEntry>, t: EntryType)
    ensures Side(x + y, t) == Side(x, t) + Side(y, t)
  {
    if y == [] {
      assert x + y == x;
    } else {
      assert (x + y)[..|x + y| - 1] == x + y[..|y| - 1];
      SideConcat(x, y[..|y| - 1], t);
    }
  }

  lemma {:induction false} TimesGrow(x: seq<LedgerEntry>, y: seq<LedgerEntry>, now: int)
    requires Sorted(x, TimeLe) && forall e :: e in x ==> e.createdAt <= now
    requires forall e :: e in y ==> e.createdAt == now
    ensures Sorted(x + y, TimeLe) && forall e :: e in x + y ==> e.createdAt <= now
  {
    forall i, j | 0 <= i < j < |x + y|
      ensures TimeLe((x + y)[i], (x + y)[j])
    {
      if j < |x| {
        assert TimeLe(x[i], x[j]);
      } else {
        assert (x + y)[j] in y && ((x + y)[i] in x || (x + y)[i] in y);
      }
    }
  }

  /** Any posting that is not rejected for imbalance keeps the invariant, whatever its entries are. */
  lemma {:induction false} PostKeepsSound(hash: string -> string, s: LedgerState, specs: seq<Spec>, description: string, ids: Ids, earlier: int, now: int)
    requires Sound(hash, s, earlier) && earlier <= now
    requires !Post(hash, s, specs, description, ids, now).1.Imbalance?
    ensures Sound(hash, Post(hash, s, specs, description, ids, now).0, now)
  {
    if AmountsOk(specs) {
      var built := Build(hash, s.heads, specs, description, ids, now);
      BuildContinues(hash, s.entries, specs, description, ids, now);
      AdvanceConcat(map[], s.entries, built);
      SideConcat(s.entries, built, DEBIT);
      SideConcat(s.entries, built, CREDIT);
      BuiltNow(hash, s.heads, specs, description, ids, now);
      TimesGrow(s.entries, built, now);
    }
  }

  lemma {:induction false} BuiltNow(hash: string -> string, heads: map<string, string>, specs: seq<Spec>, description: string, ids: Ids, now: int)
    ensures forall e :: e in Build(hash, heads, specs, description, ids, now) ==> e.createdAt == now
  {
    var es := Build(hash, heads, specs, description, ids, now);
    forall e | e in es
      ensures e.createdAt == now
    {
      var i :| 0 <= i < |es| && es[i] == e;
      BuildRepeatsAt(hash, heads, specs, description, ids, now, i);
    }
  }

  /** The wrappers never reach the imbalance error, in any state. */
  lemma {:induction false} WrappersNeverUnbalanced(hash: string -> string, s: LedgerState, call: Call)
    ensures !Apply(hash, s, call).1.Imbalance?
  {
    var specs := CallSpecs(call);
    match call
    case ExpenseCall(payer, splits, description, ids, now) =>
      ExpenseBalances(payer, splits, description, ExpenseClearing(ids.clearing));
      BuildSide(hash, s.heads, specs, description, ids, now, DEBIT);
      BuildSide(hash, s.heads, specs, description, ids, now, CREDIT);
    case SettlementCall(payer, payee, amount, description, ids, now) =>
      SettlementBalances(payer, payee, amount, SettlementClearing(ids.clearing));
      BuildSide(hash, s.heads, specs, description, ids, now, DEBIT);
      BuildSide(hash, s.heads, specs, description, ids, now, CREDIT);
  }

  lemma {:induction false} RunIsSound(hash: string -> string, calls: seq<Call>, now: int)
    requires ClockRuns(calls) && (calls != [] ==> calls[|calls| - 1].now <= now)
    ensures Sound(hash, Run(hash, calls), now)
  {
    if calls != [] {
      var before, last := calls[..|calls| - 1], calls[|calls| - 1];
      RunIsSound(hash, before, last.now);
      WrappersNeverUnbalanced(hash, Run(hash, before), last);
      PostKeepsSound(hash, Run(hash, before), CallSpecs(last), last.description, last.ids, last.now, last.now);
    }
  }

  /**
   * Every ledger that the wrappers can reach, under a clock that does not run backwards, passes
   * the audit with no errors, has equal debits and credits, and has true heads.
   */
  lemma {:induction false} EveryRunPassesAudit(hash: string -> string, calls: seq<Call>)
    requires ClockRuns(calls)
    ensures var s := Run(hash, calls);
      && Audit(hash, s.entries) == []
      && Side(s.entries, DEBIT) == Side(s.entries, CREDIT)
      && (forall a :: Head(s.heads, a) == LastHash(Timeline(s.entries, a)))
  {
    var s := Run(hash, calls);
    RunIsSound(hash, calls, if calls == [] then 0 else calls[|calls| - 1].now);
    ChainedPassesAudit(hash, s.entries);
    forall a
      ensures Head(s.heads, a) == LastHash(Timeline(s.entries, a))
    {
      HeadIsLastHash(s.entries, a);
      TimelineIsLedgerOrder(s.entries, a);
    }
  }
}
