/** Which errors the audit reports: exactly those that the entries themselves show. */
module AuditErrors {
  import opened Text
  import opened StableSort
  import opened Ledger
  import opened LedgerRuns
  import opened HashBinding
  import opened AlteredEntry

  // ---- Every error, and no other ----

  /** At position k of an account's list, an entry names another predecessor than the recorded one. */
  predicate BrokenAt(es: seq<LedgerEntry>, k: nat, id: string, want: string, got: string) {
    && k < |es| && es[k].entryId == id && es[k].prevHash == got && got != want
    && want == if k == 0 then GENESIS else es[k - 1].entryHash
  }

  /** An entry whose recorded hash is not that of its fields. */
  predicate Mismatched(hash: string -> string, e: LedgerEntry, id: string) {
    e.entryId == id && e.entryHash != hash(PayloadOf(e))
  }

  /** The k-th entry of an account's list shows the error. */
  predicate Shows(hash: string -> string, account: string, es: seq<LedgerEntry>, k: nat, x: ChainError) {
    match x
    case ChainBroken(id, a, want, got) => a == account && BrokenAt(es, k, id, want, got)
    case HashMismatch(id) => k < |es| && Mismatched(hash, es[k], id)
  }

  lemma {:induction false} InEither<T>(x: T, a: seq<T>, b: seq<T>)
    ensures x in a + b <==> x in a || x in b
  {
  }

  lemma {:induction false} EntryShows(hash: string -> string, account: string, e: LedgerEntry, prev: string, x: ChainError)
    ensures x in EntryErrors(hash, account, e, prev) <==>
      (x == ChainBroken(e.entryId, account, prev, e.prevHash) && e.prevHash != prev) ||
      (x == HashMismatch(e.entryId) && e.entryHash != hash(PayloadOf(e)))
  {
  }

  lemma {:induction false} LastError(hash: string -> string, account: string, es: seq<LedgerEntry>, x: ChainError)
    requires es != []
    ensures x in ChainErrors(hash, account, es) <==>
      x in ChainErrors(hash, account, es[..|es| - 1]) || Shows(hash, account, es, |es| - 1, x)
  {
    var n := |es| - 1;
    var prev := LastHash(es[..n]);
    InEither(x, ChainErrors(hash, account, es[..n]), EntryErrors(hash, account, es[n], prev));
    EntryShows(hash, account, es[n], prev, x);
    assert prev == if n == 0 then GENESIS else es[n - 1].entryHash;
  }

  lemma {:induction false} ShowsBefore(hash: string -> string, account: string, es: seq<LedgerEntry>, k: nat, x: ChainError)
    requires k < |es| - 1
    ensures Shows(hash, account, es[..|es| - 1], k, x) <==> Shows(hash, account, es, k, x)
  {
  }

  /** Some entry of the account's list shows the error. */
  ghost predicate SomeShows(hash: string -> string, account: string, es: seq<LedgerEntry>, x: ChainError) {
    exists k :: Shows(hash, account, es, k, x)
  }

  lemma {:induction false} SomeShowsBefore(hash: string -> string, account: string, es: seq<LedgerEntry>, x: ChainError)
    requires es != []
    ensures SomeShows(hash, account, es, x) <==>
      SomeShows(hash, account, es[..|es| - 1], x) || Shows(hash, account, es, |es| - 1, x)
  {
    var before := es[..|es| - 1];
    forall k: nat | k < |before|
      ensures Shows(hash, account, before, k, x) <==> Shows(hash, account, es, k, x)
    {
      ShowsBefore(hash, account, es, k, x);
    }
    if k: nat :| Shows(hash, account, es, k, x) && k < |before| {
      assert Shows(hash, account, before, k, x);
    }
    if k: nat :| Shows(hash, account, before, k, x) {
      assert Shows(hash, account, es, k, x);
    }
  }

  lemma {:induction false} ErrorsOfList(hash: string -> string, account: string, es: seq<LedgerEntry>, x: ChainError)
    ensures x in ChainErrors(hash, account, es) <==> SomeShows(hash, account, es, x)
  {
    if es != [] {
      ErrorsOfList(hash, account, es[..|es| - 1], x);
      LastError(hash, account, es, x);
      SomeShowsBefore(hash, account, es, x);
    }
  }

  /** Some of the accounts has a list that the audit finds the error in. */
  ghost predicate SomeReports(hash: string -> string, es: seq<LedgerEntry>, accounts: seq<string>, x: ChainError) {
    exists a :: a in accounts && x in ChainErrors(hash, a, Timeline(es, a))
  }

  lemma {:induction false} SomeReportsBefore(hash: string -> string, es: seq<LedgerEntry>, accounts: seq<string>, b: string, x: ChainError)
    ensures SomeReports(hash, es, accounts + [b], x) <==>
      SomeReports(hash, es, accounts, x) || x in ChainErrors(hash, b, Timeline(es, b))
  {
    forall a
      ensures a in accounts + [b] <==> a in accounts || a == b
    {
    }
  }

  lemma {:induction false} ErrorsOfAccounts(hash: string -> string, es: seq<LedgerEntry>, accounts: seq<string>, x: ChainError)
    ensures x in AccountErrors(hash, es, accounts) <==> SomeReports(hash, es, accounts, x)
  {
    if accounts != [] {
      var n := |accounts| - 1;
      ErrorsOfAccounts(hash, es, accounts[..n], x);
      InEither(x, AccountErrors(hash, es, accounts[..n]), ChainErrors(hash, accounts[n], Timeline(es, accounts[n])));
      SomeReportsBefore(hash, es, accounts[..n], accounts[n], x);
      assert accounts == accounts[..n] + [accounts[n]];
    }
  }

  /** The audit reports what some account's list shows, accounts without entries included. */
  lemma {:induction false} ErrorsOfAudit(hash: string -> string, es: seq<LedgerEntry>, x: ChainError)
    ensures x in Audit(hash, es) <==> exists a :: x in ChainErrors(hash, a, Timeline(es, a))
  {
    ErrorsOfAccounts(hash, es, Accounts(es), x);
    forall a | x in ChainErrors(hash, a, Timeline(es, a))
      ensures a in Accounts(es)
    {
      AccountsAreThoseUsed(es, a);
      assert Of(es, a) == [] ==> Timeline(es, a) == [];
    }
  }

  /** A hash mismatch is reported for an id exactly when some entry with it does not carry the hash of its fields. */
  lemma {:induction false} MismatchReportedIff(hash: string -> string, es: seq<LedgerEntry>, id: string)
    ensures HashMismatch(id) in Audit(hash, es) <==> exists e :: e in es && e.entryId == id && e.entryHash != hash(PayloadOf(e))
  {
    var x := HashMismatch(id);
    ErrorsOfAudit(hash, es, x);
    if e :| e in es && Mismatched(hash, e, id) {
      var s := Timeline(es, e.accountId);
      TimelineMembers(es, e.accountId);
      var k :| 0 <= k < |s| && s[k] == e;
      assert Shows(hash, e.accountId, s, k, x);
      ErrorsOfList(hash, e.accountId, s, x);
    }
    if a :| x in ChainErrors(hash, a, Timeline(es, a)) {
      var s := Timeline(es, a);
      ErrorsOfList(hash, a, s, x);
      TimelineMembers(es, a);
      var k: nat :| Shows(hash, a, s, k, x);
      assert s[k] in es;
    }
  }

  /**
   * A broken chain is reported exactly when, in the time-ordered list of the account, that entry
   * names another predecessor hash than the one recorded there before it (at first: 64 zeros).
   */
  lemma {:induction false} BrokenReportedIff(hash: string -> string, es: seq<LedgerEntry>, id: string, a: string, want: string, got: string)
    ensures ChainBroken(id, a, want, got) in Audit(hash, es) <==> exists k :: BrokenAt(Timeline(es, a), k, id, want, got)
    ensures |GENESIS| == 64 && forall i :: 0 <= i < 64 ==> GENESIS[i] == '0'
  {
    var x, s := ChainBroken(id, a, want, got), Timeline(es, a);
    ErrorsOfAudit(hash, es, x);
    if k: nat :| BrokenAt(s, k, id, want, got) {
      assert Shows(hash, a, s, k, x);
      ErrorsOfList(hash, a, s, x);
    }
    if b :| x in ChainErrors(hash, b, Timeline(es, b)) {
      ErrorsOfList(hash, b, Timeline(es, b), x);
      var k: nat :| Shows(hash, b, Timeline(es, b), k, x);
      assert BrokenAt(s, k, id, want, got);
    }
  }

  /** The text that is hashed, field by field. */
  lemma {:induction false} PayloadIs(e: LedgerEntry)
    ensures PayloadOf(e) ==
      e.entryId + "|" + (e.journalId + "|" + (e.accountId + "|" + ((if e.entryType == DEBIT then "DEBIT" else "CREDIT") + "|" +
      (IntText(e.amountCents) + "|" + (IntText(e.createdAt) + "|" + e.prevHash)))))
  {
    var rest := [EntryTypeText(e.entryType), IntText(e.amountCents), IntText(e.createdAt), e.prevHash];
    assert Fields(e) == [e.entryId, e.journalId, e.accountId] + rest;
    JoinThree(e.entryId, e.journalId, e.accountId, rest);
    assert rest == [EntryTypeText(e.entryType), IntText(e.amountCents), IntText(e.createdAt)] + [e.prevHash];
    JoinThree(EntryTypeText(e.entryType), IntText(e.amountCents), IntText(e.createdAt), [e.prevHash]);
  }

  // ---- One error for one altered entry ----

  /** t is s with the entry x replaced by y, wherever it occurs. */
  predicate Replaced(s: seq<LedgerEntry>, t: seq<LedgerEntry>, x: LedgerEntry, y: LedgerEntry) {
    |s| == |t| && forall i :: 0 <= i < |s| ==> t[i] == s[i] || (s[i] == x && t[i] == y)
  }

  lemma {:induction false} ReplacedOf(s: seq<LedgerEntry>, t: seq<LedgerEntry>, x: LedgerEntry, y: LedgerEntry, a: string)
    requires Replaced(s, t, x, y) && x.accountId == y.accountId
    ensures Replaced(Of(s, a), Of(t, a), x, y)
  {
    if s != [] {
      ReplacedOf(s[..|s| - 1], t[..|t| - 1], x, y, a);
    }
  }

  lemma {:induction false} ReplacedInsert(e: LedgerEntry, f: LedgerEntry, s: seq<LedgerEntry>, t: seq<LedgerEntry>, x: LedgerEntry, y: LedgerEntry)
    requires (f == e || (e == x && f == y)) && Replaced(s, t, x, y) && x.createdAt == y.createdAt
    ensures Replaced(Insert(e, s, TimeLe), Insert(f, t, TimeLe), x, y)
  {
    if s != [] && !TimeLe(e, s[0]) {
      ReplacedInsert(e, f, s[1..], t[1..], x, y);
    }
  }

  lemma {:induction false} ReplacedSort(s: seq<LedgerEntry>, t: seq<LedgerEntry>, x: LedgerEntry, y: LedgerEntry)
    requires Replaced(s, t, x, y) && x.createdAt == y.createdAt
    ensures Replaced(Sort(s, TimeLe), Sort(t, TimeLe), x, y)
  {
    if s != [] {
      ReplacedSort(s[1..], t[1..], x, y);
      ReplacedInsert(s[0], t[0], Sort(s[1..], TimeLe), Sort(t[1..], TimeLe), x, y);
    }
  }

  lemma {:induction false} ErrorsOfOne(hash: string -> string, account: string, s: seq<LedgerEntry>, t: seq<LedgerEntry>, k: nat)
    requires Linked(hash, s) && |t| == |s| && k < |s| && forall j :: 0 <= j < |s| && j != k ==> t[j] == s[j]
    requires t[k].prevHash == s[k].prevHash && t[k].entryHash == s[k].entryHash && HashOf(hash, t[k]) != t[k].entryHash
    ensures ChainErrors(hash, account, t) == [HashMismatch(t[k].entryId)]
  {
    var n := |s| - 1;
    assert LastHash(t[..n]) == LastHash(s[..n]);
    if k == n {
      assert t[..n] == s[..n];
      NoErrorsIffLinked(hash, account, s[..n]);
    } else {
      ErrorsOfOne(hash, account, s[..n], t[..n], k);
    }
  }

  lemma {:induction false} AccountsDiffer(es: seq<LedgerEntry>)
    ensures forall i, j :: 0 <= i < j < |Accounts(es)| ==> Accounts(es)[i] != Accounts(es)[j]
  {
    if es != [] {
      AccountsDiffer(es[..|es| - 1]);
    }
  }

  lemma {:induction false} NoneElsewhere(hash: string -> string, es: seq<LedgerEntry>, accounts: seq<string>, a: string)
    requires a !in accounts && forall b :: b != a ==> ChainErrors(hash, b, Timeline(es, b)) == []
    ensures AccountErrors(hash, es, accounts) == []
  {
    if accounts != [] {
      var n := |accounts| - 1;
      assert accounts[n] in accounts;
      NoneElsewhere(hash, es, accounts[..n], a);
      assert AccountErrors(hash, es, accounts) == AccountErrors(hash, es, accounts[..n]) + ChainErrors(hash, accounts[n], Timeline(es, accounts[n]));
    }
  }

  lemma {:induction false} OnlyAccount(hash: string -> string, es: seq<LedgerEntry>, accounts: seq<string>, a: string)
    requires (forall i, j :: 0 <= i < j < |accounts| ==> accounts[i] != accounts[j]) && a in accounts
    requires forall b :: b != a ==> ChainErrors(hash, b, Timeline(es, b)) == []
    ensures AccountErrors(hash, es, accounts) == ChainErrors(hash, a, Timeline(es, a))
  {
    var n := |accounts| - 1;
    var before, last := accounts[..n], ChainErrors(hash, accounts[n], Timeline(es, accounts[n]));
    if accounts[n] == a {
      NoneElsewhere(hash, es, before, a);
    } else {
      assert accounts == before + [accounts[n]] && a in before;
      OnlyAccount(hash, es, before, a);
    }
    assert AccountErrors(hash, es, accounts) == AccountErrors(hash, es, before) + last;
  }

  /** The altered entry stands where the old one stood. */
  lemma {:induction false} AlteredTimeline(hash: string -> string, es: seq<LedgerEntry>, i: nat, e: LedgerEntry) returns (k: nat)
    requires Ideal(hash) && i < |es| && e.accountId == es[i].accountId && e.createdAt == es[i].createdAt && e.entryHash == es[i].entryHash
    requires Linked(hash, Timeline(es, e.accountId))
    ensures var s, t := Timeline(es, e.accountId), Timeline(es[i := e], e.accountId);
      |t| == |s| && k < |s| && s[k] == es[i] && t[k] == e && forall j :: 0 <= j < |s| && j != k ==> t[j] == s[j]
  {
    var a, es' := e.accountId, es[i := e];
    var s, t := Timeline(es, a), Timeline(es', a);
    assert Replaced(es, es', es[i], e);
    ReplacedOf(es, es', es[i], e, a);
    ReplacedSort(Of(es, a), Of(es', a), es[i], e);
    TimelineMembers(es', a);
    assert es'[i] == e && e in t;
    var n :| 0 <= n < |t| && t[n] == e;
    k := n;
    forall j | 0 <= j < |s| && j != n
      ensures t[j] == s[j]
    {
      if t[j] != s[j] {
        HashesDiffer(hash, s, if j < n then j else n, if j < n then n else j);
      }
    }
    if s[n] != es[i] {
      TimelineMembers(es, a);
      var m :| 0 <= m < |s| && s[m] == es[i];
      HashesDiffer(hash, s, if m < n then m else n, if m < n then n else m);
    }
  }

  lemma {:induction false} OtherAccountsClean(hash: string -> string, es: seq<LedgerEntry>, i: nat, e: LedgerEntry)
    requires Audit(hash, es) == [] && i < |es| && e.accountId == es[i].accountId
    ensures var es' := es[i := e]; forall b :: b != e.accountId ==> ChainErrors(hash, b, Timeline(es', b)) == []
  {
    AuditCleanIff(hash, es);
    var es' := es[i := e];
    forall b | b != e.accountId
      ensures ChainErrors(hash, b, Timeline(es', b)) == []
    {
      OtherTimelines(es, i, e, b);
      NoErrorsIffLinked(hash, b, Timeline(es, b));
    }
  }

  /**
   * Altering what one entry of a clean ledger says, its account, time and two hashes kept, is reported
   * as one hash mismatch, at that entry, and nothing else.
   */
  lemma {:induction false} AlterationIsOneMismatch(hash: string -> string, es: seq<LedgerEntry>, i: nat, e: LedgerEntry)
    requires Ideal(hash) && Audit(hash, es) == [] && i < |es|
    requires e.accountId == es[i].accountId && e.createdAt == es[i].createdAt && e.prevHash == es[i].prevHash && e.entryHash == es[i].entryHash
    requires PayloadOf(e) != PayloadOf(es[i])
    ensures Audit(hash, es[i := e]) == [HashMismatch(e.entryId)]
  {
    var es' := es[i := e];
    AuditCleanIff(hash, es);
    CleanEntry(hash, es, es[i]);
    var k := AlteredTimeline(hash, es, i, e);
    ErrorsOfOne(hash, e.accountId, Timeline(es, e.accountId), Timeline(es', e.accountId), k);
    OtherAccountsClean(hash, es, i, e);
    AccountsDiffer(es');
    AccountsAreThoseUsed(es', e.accountId);
    assert Of(es', e.accountId) == [] ==> Timeline(es', e.accountId) == [];
    OnlyAccount(hash, es', Accounts(es'), e.accountId);
  }

  /** In particular an altered amount. */
  lemma {:induction false} AmountAltered(hash: string -> string, es: seq<LedgerEntry>, i: nat, amount: int)
    requires Ideal(hash) && Audit(hash, es) == [] && i < |es| && amount != es[i].amountCents
    ensures Audit(hash, es[i := es[i].(amountCents := amount)]) == [HashMismatch(es[i].entryId)]
  {
    OneFieldChangesPayload(es[i].(amountCents := amount), es[i]);
    AlterationIsOneMismatch(hash, es, i, es[i].(amountCents := amount));
  }
}
