/** The double-entry ledger: its state, what each posting does to it, and the engine that does it. */
module Ledger {
  import opened Options
  import opened Text
  import opened StableSort
  import opened DebtMatching
  import opened NetBalances

  datatype EntryType = DEBIT | CREDIT

  datatype AccountType = USER_WALLET | EXPENSE_CLEARING | SETTLEMENT_CLEARING | INCOME_CONTROL

  /** One immutable ledger line. */
  datatype LedgerEntry = LedgerEntry(
    entryId: string,
    journalId: string,
    accountId: string,
    accountType: AccountType,
    entryType: EntryType,
    amountCents: int,
    description: string,
    createdAt: int,
    prevHash: string,
    entryHash: string)

  datatype Journal = Journal(journalId: string, entries: seq<LedgerEntry>, description: string, createdAt: int)

  /** What a caller asks to be posted. */
  datatype Spec = Spec(
    accountId: string,
    accountType: AccountType,
    entryType: EntryType,
    amountCents: int,
    description: Option<string>)

  /** The identifiers that one posting draws. */
  datatype Ids = Ids(clearing: string, journal: string, entry: nat -> string)

  datatype LedgerState = LedgerState(entries: seq<LedgerEntry>, heads: map<string, string>, journals: map<string, Journal>)

  datatype Posting =
    | Posted(journal: Journal)
    | AmountTooSmall(amountCents: int)
    | Imbalance(debits: int, credits: int)

  /** The hash before the first entry of an account: 64 zeros. */
  const GENESIS: string := Zeros(64)

  function Zeros(n: nat): (z: string)
    ensures |z| == n && (forall i :: 0 <= i < n ==> z[i] == '0')
  {
    if n == 0 then [] else Zeros(n - 1) + ['0']
  }

  function EntryTypeText(t: EntryType): string {
    match t
    case DEBIT => "DEBIT"
    case CREDIT => "CREDIT"
  }

  /** The '|'-joined text that is hashed. */
  function Payload(entryId: string, journalId: string, accountId: string, entryType: EntryType,
                   amountCents: int, createdAt: int, prevHash: string): string {
    Join([entryId, journalId, accountId, EntryTypeText(entryType), IntText(amountCents), IntText(createdAt), prevHash])
  }

  function PayloadOf(e: LedgerEntry): string {
    Payload(e.entryId, e.journalId, e.accountId, e.entryType, e.amountCents, e.createdAt, e.prevHash)
  }

  function Head(heads: map<string, string>, account: string): string {
    if account in heads then heads[account] else GENESIS
  }

  /** The heads after some entries: the last hash of each account. */
  function Advance(heads: map<string, string>, entries: seq<LedgerEntry>): map<string, string> {
    if entries == [] then heads else
      var e := entries[|entries| - 1];
      Advance(heads, entries[..|entries| - 1])[e.accountId := e.entryHash]
  }

  function MakeEntry(hash: string -> string, heads: map<string, string>, spec: Spec, description: string,
                     journalId: string, entryId: string, now: int): LedgerEntry {
    var prev := Head(heads, spec.accountId);
    LedgerEntry(
      entryId, journalId, spec.accountId, spec.accountType, spec.entryType, spec.amountCents,
      match spec.description case Some(text) => text case None => description,
      now, prev,
      hash(Payload(entryId, journalId, spec.accountId, spec.entryType, spec.amountCents, now, prev)))
  }

  /** The entries of a journal; each one sees the heads left by those before it. */
  function Build(hash: string -> string, heads: map<string, string>, specs: seq<Spec>, description: string,
                 ids: Ids, now: int): (entries: seq<LedgerEntry>)
    ensures |entries| == |specs|
  {
    if specs == [] then [] else
      var n := |specs| - 1;
      var before := Build(hash, heads, specs[..n], description, ids, now);
      before + [MakeEntry(hash, Advance(heads, before), specs[n], description, ids.journal, ids.entry(n), now)]
  }

  /** The sum of one side of some entries. */
  function Side(entries: seq<LedgerEntry>, t: EntryType): int {
    if entries == [] then 0 else
      var e := entries[|entries| - 1];
      Side(entries[..|entries| - 1], t) + if e.entryType == t then e.amountCents else 0
  }

  predicate AmountsOk(specs: seq<Spec>) {
    forall i :: 0 <= i < |specs| ==> specs[i].amountCents >= 1
  }

  function FirstSmall(specs: seq<Spec>): int
    requires !AmountsOk(specs)
  {
    if specs[0].amountCents < 1 then specs[0].amountCents else FirstSmall(specs[1..])
  }

  /** The journal of the given entries. */
  function Journaled(entries: seq<LedgerEntry>, description: string, ids: Ids, now: int): Journal {
    Journal(ids.journal, entries, description, now)
  }

  /**
   * `post_journal`. An amount below one cent is rejected before anything changes; an imbalance is
   * noticed only after the account heads have moved.
   */
  function Post(hash: string -> string, s: LedgerState, specs: seq<Spec>, description: string, ids: Ids, now: int):
    (LedgerState, Posting)
  {
    if !AmountsOk(specs) then (s, AmountTooSmall(FirstSmall(specs))) else
      var entries := Build(hash, s.heads, specs, description, ids, now);
      var heads := Advance(s.heads, entries);
      var debits, credits := Side(entries, DEBIT), Side(entries, CREDIT);
      if debits != credits then (s.(heads := heads), Imbalance(debits, credits)) else
        var journal := Journaled(entries, description, ids, now);
        (LedgerState(s.entries + entries, heads, s.journals[ids.journal := journal]), Posted(journal))
  }

  function Wallet(u: UserId): string {
    "USER_WALLET:" + u
  }

  function ExpenseClearing(id: string): string {
    "EXPENSE_CLEARING:" + id
  }

  function SettlementClearing(id: string): string {
    "SETTLEMENT_CLEARING:" + id
  }

  /** What the other users owe the payer. */
  function OthersTotal(payer: UserId, splits: seq<Split>): int {
    if splits == [] then 0 else
      var s := splits[|splits| - 1];
      OthersTotal(payer, splits[..|splits| - 1]) + if s.userId == payer then 0 else s.amountCents
  }

  function Owes(s: Split, description: string): Spec {
    Spec(Wallet(s.userId), USER_WALLET, DEBIT, s.amountCents, Some("Owes " + description))
  }

  function Clears(s: Split, description: string, clearing: string): Spec {
    Spec(clearing, EXPENSE_CLEARING, CREDIT, s.amountCents, Some("Expense clearing: " + description))
  }

  function Closes(total: int, description: string, clearing: string): Spec {
    Spec(clearing, EXPENSE_CLEARING, DEBIT, total, Some("Close clearing: " + description))
  }

  function PaidFor(payer: UserId, total: int, description: string): Spec {
    Spec(Wallet(payer), USER_WALLET, CREDIT, total, Some("Paid for: " + description))
  }

  /** A debit and a clearing credit per split that is not the payer's own. */
  function DebtorSpecs(payer: UserId, splits: seq<Split>, description: string, clearing: string): seq<Spec> {
    if splits == [] then [] else
      var s := splits[|splits| - 1];
      DebtorSpecs(payer, splits[..|splits| - 1], description, clearing) +
      if s.userId == payer then [] else [Owes(s, description), Clears(s, description, clearing)]
  }

  function ExpenseSpecs(payer: UserId, splits: seq<Split>, description: string, clearing: string): seq<Spec> {
    var total := OthersTotal(payer, splits);
    DebtorSpecs(payer, splits, description, clearing) +
    if total > 0 then [Closes(total, description, clearing), PaidFor(payer, total, description)] else []
  }

  function SettlementSpecs(payer: UserId, payee: UserId, amount: int, clearing: string): seq<Spec> {
    [Spec(Wallet(payer), USER_WALLET, DEBIT, amount, Some("Settlement payment to " + payee)),
     Spec(clearing, SETTLEMENT_CLEARING, CREDIT, amount, Some("Settlement clearing")),
     Spec(clearing, SETTLEMENT_CLEARING, DEBIT, amount, Some("Settlement clearing close")),
     Spec(Wallet(payee), USER_WALLET, CREDIT, amount, Some("Settlement received from " + payer))]
  }

  /** `post_expense_journal` */
  function PostExpense(hash: string -> string, s: LedgerState, payer: UserId, splits: seq<Split>,
                       description: string, ids: Ids, now: int): (LedgerState, Posting) {
    Post(hash, s, ExpenseSpecs(payer, splits, description, ExpenseClearing(ids.clearing)), description, ids, now)
  }

  /** `post_settlement_journal` */
  function PostSettlement(hash: string -> string, s: LedgerState, payer: UserId, payee: UserId, amount: int,
                          description: string, ids: Ids, now: int): (LedgerState, Posting) {
    Post(hash, s, SettlementSpecs(payer, payee, amount, SettlementClearing(ids.clearing)), description, ids, now)
  }

  /** `get_account_balance`: credits minus debits. */
  function Balance(entries: seq<LedgerEntry>, account: string): int {
    if entries == [] then 0 else
      var e := entries[|entries| - 1];
      Balance(entries[..|entries| - 1], account) +
      if e.accountId != account then 0 else if e.entryType == CREDIT then e.amountCents else -e.amountCents
  }

  // ---- The audit ----

  datatype ChainError =
    | ChainBroken(entryId: string, accountId: string, expected: string, got: string)
    | HashMismatch(entryId: string)

  function HashOf(hash: string -> string, e: LedgerEntry): string {
    hash(PayloadOf(e))
  }

  /** The entries of one account, in ledger order. */
  function Of(entries: seq<LedgerEntry>, account: string): seq<LedgerEntry> {
    if entries == [] then [] else
      var e := entries[|entries| - 1];
      Of(entries[..|entries| - 1], account) + if e.accountId == account then [e] else []
  }

  /** The accounts in order of first appearance: the keys of the audit's dictionary. */
  function Accounts(entries: seq<LedgerEntry>): seq<string> {
    if entries == [] then [] else
      var before := Accounts(entries[..|entries| - 1]);
      var a := entries[|entries| - 1].accountId;
      if a in before then before else before + [a]
  }

  predicate TimeLe(a: LedgerEntry, b: LedgerEntry) {
    a.createdAt <= b.createdAt
  }

  function LastHash(entries: seq<LedgerEntry>): string {
    if entries == [] then GENESIS else entries[|entries| - 1].entryHash
  }

  function EntryErrors(hash: string -> string, account: string, e: LedgerEntry, prev: string): seq<ChainError> {
    (if e.prevHash != prev then [ChainBroken(e.entryId, account, prev, e.prevHash)] else []) +
    (if HashOf(hash, e) != e.entryHash then [HashMismatch(e.entryId)] else [])
  }

  /** The errors found while walking one account's list. */
  function ChainErrors(hash: string -> string, account: string, entries: seq<LedgerEntry>): seq<ChainError> {
    if entries == [] then [] else
      var n := |entries| - 1;
      ChainErrors(hash, account, entries[..n]) + EntryErrors(hash, account, entries[n], LastHash(entries[..n]))
  }

  /** What the audit walks for an account: its entries sorted by time. */
  function Timeline(entries: seq<LedgerEntry>, account: string): seq<LedgerEntry> {
    Sort(Of(entries, account), TimeLe)
  }

  function AccountErrors(hash: string -> string, entries: seq<LedgerEntry>, accounts: seq<string>): seq<ChainError> {
    if accounts == [] then [] else
      var n := |accounts| - 1;
      AccountErrors(hash, entries, accounts[..n]) + ChainErrors(hash, accounts[n], Timeline(entries, accounts[n]))
  }

  /** `verify_chain_integrity` */
  function Audit(hash: string -> string, entries: seq<LedgerEntry>): seq<ChainError> {
    AccountErrors(hash, entries, Accounts(entries))
  }

  const EMPTY_LEDGER: LedgerState := LedgerState([], map[], map[])

  class LedgerEngine {
    const hash: string -> string
    var entries: seq<LedgerEntry>
    var accountHeads: map<string, string>
    var journals: map<string, Journal>

    ghost function State(): LedgerState
      reads this
    {
      LedgerState(entries, accountHeads, journals)
    }

    constructor (hash: string -> string)
      ensures this.hash == hash && State() == EMPTY_LEDGER
    {
      this.hash := hash;
      entries, accountHeads, journals := [], map[], map[];
    }

    /** The entry loop of `post_journal`; the heads move as it goes. */
    method MakeEntries(specs: seq<Spec>, description: string, ids: Ids, now: int) returns (posted: seq<LedgerEntry>)
      modifies this`accountHeads
      ensures posted == Build(hash, old(accountHeads), specs, description, ids, now)
      ensures accountHeads == Advance(old(accountHeads), posted)
    {
      posted := [];
      for i := 0 to |specs|
        invariant posted == Build(hash, old(accountHeads), specs[..i], description, ids, now)
        invariant accountHeads == Advance(old(accountHeads), posted)
      {
        var entry := MakeEntry(hash, accountHeads, specs[i], description, ids.journal, ids.entry(i), now);
        BuildMore(hash, old(accountHeads), specs, i, description, ids, now);
        posted := posted + [entry];
        accountHeads := accountHeads[entry.accountId := entry.entryHash];
      }
      assert specs[..|specs|] == specs;
    }

    method PostJournal(specs: seq<Spec>, description: string, ids: Ids, now: int) returns (r: Posting)
      modifies this
      ensures (State(), r) == Post(hash, old(State()), specs, description, ids, now)
    {
      var small := FindSmall(specs);
      if small.Some? {
        return AmountTooSmall(small.value);
      }
      var posted := MakeEntries(specs, description, ids, now);
      var debits := SumSide(posted, DEBIT);
      var credits := SumSide(posted, CREDIT);
      if debits != credits {
        return Imbalance(debits, credits);
      }
      var journal := Journal(ids.journal, posted, description, now);
      entries := entries + posted;
      journals := journals[ids.journal := journal];
      r := Posted(journal);
    }

    method PostExpenseJournal(payerId: UserId, splits: seq<Split>, description: string, ids: Ids, now: int) returns (r: Posting)
      modifies this
      ensures (State(), r) == PostExpense(hash, old(State()), payerId, splits, description, ids, now)
    {
      var specs := ListExpenseSpecs(payerId, splits, description, ExpenseClearing(ids.clearing));
      r := PostJournal(specs, description, ids, now);
    }

    method PostSettlementJournal(payerId: UserId, payeeId: UserId, amountCents: int, description: string, ids: Ids, now: int)
      returns (r: Posting)
      modifies this
      ensures (State(), r) == PostSettlement(hash, old(State()), payerId, payeeId, amountCents, description, ids, now)
    {
      r := PostJournal(SettlementSpecs(payerId, payeeId, amountCents, SettlementClearing(ids.clearing)), description, ids, now);
    }

    method VerifyChainIntegrity() returns (ok: bool, errors: seq<ChainError>)
      ensures errors == Audit(hash, entries) && ok == (errors == [])
    {
      errors := [];
      var order, byAccount := GroupByAccount(entries);
      for i := 0 to |order|
        invariant errors == AccountErrors(hash, entries, order[..i])
      {
        assert order[..i + 1][..i] == order[..i];
        var found := WalkChain(hash, order[i], Sort(byAccount[order[i]], TimeLe));
        errors := errors + found;
      }
      assert order[..|order|] == order;
      ok := errors == [];
    }

    method GetAccountBalance(accountId: string) returns (balance: int)
      ensures balance == Balance(entries, accountId)
    {
      balance := 0;
      for i := 0 to |entries|
        invariant balance == Balance(entries[..i], accountId)
      {
        assert entries[..i + 1][..i] == entries[..i];
        if entries[i].accountId != accountId {
          continue;
        }
        if entries[i].entryType == CREDIT {
          balance := balance + entries[i].amountCents;
        } else {
          balance := balance - entries[i].amountCents;
        }
      }
      assert entries[..|entries|] == entries;
    }
  }

  /** The first loop of the audit: a dictionary from account to entries. */
  method GroupByAccount(entries: seq<LedgerEntry>) returns (order: seq<string>, byAccount: map<string, seq<LedgerEntry>>)
    ensures order == Accounts(entries) && byAccount.Keys == Elems(order)
    ensures forall a :: a in byAccount ==> byAccount[a] == Of(entries, a)
  {
    order, byAccount := [], map[];
    for i := 0 to |entries|
      invariant order == Accounts(entries[..i]) && byAccount.Keys == Elems(order)
      invariant forall a :: Of(entries[..i], a) == if a in byAccount then byAccount[a] else []
    {
      assert entries[..i + 1][..i] == entries[..i];
      var a := entries[i].accountId;
      if a !in byAccount {
        order, byAccount := order + [a], byAccount[a := []];
      }
      byAccount := byAccount[a := byAccount[a] + [entries[i]]];
    }
    assert entries[..|entries|] == entries;
  }

  /** The inner loop of the audit. */
  method WalkChain(hash: string -> string, account: string, entries: seq<LedgerEntry>) returns (errors: seq<ChainError>)
    ensures errors == ChainErrors(hash, account, entries)
  {
    errors := [];
    var prev := GENESIS;
    for i := 0 to |entries|
      invariant prev == LastHash(entries[..i]) && errors == ChainErrors(hash, account, entries[..i])
    {
      var e := entries[i];
      assert entries[..i + 1][..i] == entries[..i];
      ghost var found := EntryErrors(hash, account, e, prev);
      ghost var earlier := errors;
      if e.prevHash != prev {
        errors := errors + [ChainBroken(e.entryId, account, prev, e.prevHash)];
      }
      if HashOf(hash, e) != e.entryHash {
        errors := errors + [HashMismatch(e.entryId)];
      }
      assert errors == earlier + found;
      prev := e.entryHash;
    }
    assert entries[..|entries|] == entries;
  }

  lemma {:induction false} DebtorsMore(payer: UserId, splits: seq<Split>, i: nat, description: string, clearing: string)
    requires i < |splits|
    ensures DebtorSpecs(payer, splits[..i + 1], description, clearing) ==
            DebtorSpecs(payer, splits[..i], description, clearing) +
            if splits[i].userId == payer then [] else [Owes(splits[i], description), Clears(splits[i], description, clearing)]
    ensures OthersTotal(payer, splits[..i + 1]) ==
            OthersTotal(payer, splits[..i]) + if splits[i].userId == payer then 0 else splits[i].amountCents
  {
    assert splits[..i + 1][..i] == splits[..i];
  }

  /** The loop over the splits of an expense. */
  method ListExpenseSpecs(payerId: UserId, splits: seq<Split>, description: string, clearing: string) returns (specs: seq<Spec>)
    ensures specs == ExpenseSpecs(payerId, splits, description, clearing)
  {
    specs := [];
    var total := 0;
    for i := 0 to |splits|
      invariant specs == DebtorSpecs(payerId, splits[..i], description, clearing)
      invariant total == OthersTotal(payerId, splits[..i])
    {
      DebtorsMore(payerId, splits, i, description, clearing);
      if splits[i].userId == payerId {
        continue;
      }
      total := total + splits[i].amountCents;
      specs := specs + [Owes(splits[i], description), Clears(splits[i], description, clearing)];
    }
    assert splits[..|splits|] == splits;
    if total > 0 {
      specs := specs + [Closes(total, description, clearing), PaidFor(payerId, total, description)];
    }
  }

  /** The next entry of a journal, after those built so far. */
  lemma {:induction false} BuildMore(hash: string -> string, heads: map<string, string>, specs: seq<Spec>, i: nat, description: string, ids: Ids, now: int)
    requires i < |specs|
    ensures var before := Build(hash, heads, specs[..i], description, ids, now);
      var e := MakeEntry(hash, Advance(heads, before), specs[i], description, ids.journal, ids.entry(i), now);
      && Build(hash, heads, specs[..i + 1], description, ids, now) == before + [e]
      && Advance(heads, before + [e]) == Advance(heads, before)[e.accountId := e.entryHash]
  {
    var more := specs[..i + 1];
    assert |more| - 1 == i && more[..i] == specs[..i] && more[i] == specs[i];
    var before := Build(hash, heads, specs[..i], description, ids, now);
    var e := MakeEntry(hash, Advance(heads, before), specs[i], description, ids.journal, ids.entry(i), now);
    assert Build(hash, heads, more, description, ids, now) == before + [e];
    assert (before + [e])[..|before|] == before;
  }

  lemma {:induction false} AmountsOkMore(spec: Spec, rest: seq<Spec>)
    ensures AmountsOk([spec] + rest) <==> spec.amountCents >= 1 && AmountsOk(rest)
  {
    var all := [spec] + rest;
    assert forall i :: 0 <= i < |rest| ==> rest[i] == all[i + 1];
    if spec.amountCents >= 1 && AmountsOk(rest) {
      assert AmountsOk(all);
    }
    assert all[0] == spec;
  }

  /** The first amount below one cent, if there is one. */
  method FindSmall(specs: seq<Spec>) returns (small: Option<int>)
    ensures small == if AmountsOk(specs) then None else Some(FirstSmall(specs))
  {
    for i := 0 to |specs|
      invariant AmountsOk(specs[..i])
      invariant AmountsOk(specs) <==> AmountsOk(specs[i..])
      invariant !AmountsOk(specs) ==> FirstSmall(specs) == FirstSmall(specs[i..])
    {
      assert specs[i..][0] == specs[i] && specs[i..][1..] == specs[i + 1..];
      if specs[i].amountCents < 1 {
        return Some(specs[i].amountCents);
      }
      AmountsOkMore(specs[i], specs[i + 1..]);
      assert specs[i..] == [specs[i]] + specs[i + 1..];
    }
    small := None;
  }

  method SumSide(entries: seq<LedgerEntry>, t: EntryType) returns (sum: int)
    ensures sum == Side(entries, t)
  {
    sum := 0;
    for i := 0 to |entries|
      invariant sum == Side(entries[..i], t)
    {
      assert entries[..i + 1][..i] == entries[..i];
      if entries[i].entryType == t {
        sum := sum + entries[i].amountCents;
      }
    }
    assert entries[..|entries|] == entries;
  }
}
