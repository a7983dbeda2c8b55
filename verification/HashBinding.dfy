/** What the hash chains commit to, for a hash without collisions. */
module HashBinding {
  import opened Text
  import opened StableSort
  import opened Ledger
  import opened LedgerRuns

  // ---- The payload can be read back ----

  lemma {:induction false} ReadFirst(a: seq<string>, b: seq<string>)
    requires |a| == |b| >= 2 && Join(a) == Join(b) && NoBar(a[0]) && NoBar(b[0])
    ensures a[0] == b[0] && Join(a[1..]) == Join(b[1..])
  {
    SplitFirst(a[0], Join(a[1..]), b[0], Join(b[1..]));
  }

  lemma {:induction false} ReadLast(a: seq<string>, x: string, b: seq<string>, y: string)
    requires a != [] && b != [] && Join(a + [x]) == Join(b + [y]) && NoBar(x) && NoBar(y)
    ensures x == y && Join(a) == Join(b)
  {
    JoinLast(a, x);
    JoinLast(b, y);
    SplitLast(Join(a), x, Join(b), y);
  }

  /** Five fields of which only the first may contain '|'. */
  lemma {:induction false} ReadTail(a0: string, a1: string, a2: string, a3: string, a4: string,
                 b0: string, b1: string, b2: string, b3: string, b4: string)
    requires Join([a0, a1, a2, a3, a4]) == Join([b0, b1, b2, b3, b4])
    requires NoBar(a1) && NoBar(a2) && NoBar(a3) && NoBar(a4)
    requires NoBar(b1) && NoBar(b2) && NoBar(b3) && NoBar(b4)
    ensures a0 == b0 && a1 == b1 && a2 == b2 && a3 == b3 && a4 == b4
  {
    assert [a0, a1, a2, a3, a4] == [a0, a1, a2, a3] + [a4] && [b0, b1, b2, b3, b4] == [b0, b1, b2, b3] + [b4];
    ReadLast([a0, a1, a2, a3], a4, [b0, b1, b2, b3], b4);
    assert [a0, a1, a2, a3] == [a0, a1, a2] + [a3] && [b0, b1, b2, b3] == [b0, b1, b2] + [b3];
    ReadLast([a0, a1, a2], a3, [b0, b1, b2], b3);
    assert [a0, a1, a2] == [a0, a1] + [a2] && [b0, b1, b2] == [b0, b1] + [b2];
    ReadLast([a0, a1], a2, [b0, b1], b2);
    assert [a0, a1] == [a0] + [a1] && [b0, b1] == [b0] + [b1];
    ReadLast([a0], a1, [b0], b1);
  }

  /** UUIDs (section 4 of RFC 9562) and hex hashes have no '|'. */
  ghost predicate CleanIds(e: LedgerEntry) {
    NoBar(e.entryId) && NoBar(e.journalId)
  }

  /** Equal in the seven fields that are hashed. */
  predicate SameHashed(e: LedgerEntry, f: LedgerEntry) {
    && e.entryId == f.entryId && e.journalId == f.journalId && e.accountId == f.accountId
    && e.entryType == f.entryType && e.amountCents == f.amountCents && e.createdAt == f.createdAt
    && e.prevHash == f.prevHash
  }

  /** The payload determines all seven fields, even if the account id contains '|'. */
  lemma {:induction false} PayloadDecodes(e: LedgerEntry, f: LedgerEntry)
    requires CleanIds(e) && CleanIds(f) && NoBar(e.prevHash) && NoBar(f.prevHash)
    ensures PayloadOf(e) == PayloadOf(f) <==> SameHashed(e, f)
  {
    if PayloadOf(e) == PayloadOf(f) {
      var ta, tb := EntryTypeText(e.entryType), EntryTypeText(f.entryType);
      var ea, eb := [e.accountId, ta, IntText(e.amountCents), IntText(e.createdAt), e.prevHash],
                    [f.accountId, tb, IntText(f.amountCents), IntText(f.createdAt), f.prevHash];
      var da, db := [e.journalId] + ea, [f.journalId] + eb;
      assert da[1..] == ea && db[1..] == eb;
      assert ([e.entryId] + da)[1..] == da && ([f.entryId] + db)[1..] == db;
      assert [e.entryId, e.journalId, e.accountId, ta, IntText(e.amountCents), IntText(e.createdAt), e.prevHash] == [e.entryId] + da;
      assert [f.entryId, f.journalId, f.accountId, tb, IntText(f.amountCents), IntText(f.createdAt), f.prevHash] == [f.entryId] + db;
      ReadFirst([e.entryId] + da, [f.entryId] + db);
      ReadFirst(da, db);
      IntTextInjective(e.amountCents, f.amountCents);
      IntTextInjective(f.amountCents, e.amountCents);
      IntTextInjective(e.createdAt, f.createdAt);
      IntTextInjective(f.createdAt, e.createdAt);
      ReadTail(ea[0], ea[1], ea[2], ea[3], ea[4], eb[0], eb[1], eb[2], eb[3], eb[4]);
      assert "DEBIT"[0] != "CREDIT"[0];
    }
  }

  /** Whatever the three ids contain, the other four fields can be read back. */
  lemma {:induction false} TailDecodes(e: LedgerEntry, f: LedgerEntry)
    requires PayloadOf(e) == PayloadOf(f) && NoBar(e.prevHash) && NoBar(f.prevHash)
    ensures e.entryType == f.entryType && e.amountCents == f.amountCents && e.createdAt == f.createdAt && e.prevHash == f.prevHash
  {
    var ie, jf := [e.entryId, e.journalId, e.accountId], [f.entryId, f.journalId, f.accountId];
    var te, tf := EntryTypeText(e.entryType), EntryTypeText(f.entryType);
    var me, mf, ce, cf := IntText(e.amountCents), IntText(f.amountCents), IntText(e.createdAt), IntText(f.createdAt);
    IntTextInjective(e.amountCents, f.amountCents);
    IntTextInjective(f.amountCents, e.amountCents);
    IntTextInjective(e.createdAt, f.createdAt);
    IntTextInjective(f.createdAt, e.createdAt);
    assert [e.entryId, e.journalId, e.accountId, te, me, ce, e.prevHash] == ie + [te] + [me] + [ce] + [e.prevHash];
    assert [f.entryId, f.journalId, f.accountId, tf, mf, cf, f.prevHash] == jf + [tf] + [mf] + [cf] + [f.prevHash];
    ReadLast(ie + [te] + [me] + [ce], e.prevHash, jf + [tf] + [mf] + [cf], f.prevHash);
    ReadLast(ie + [te] + [me], ce, jf + [tf] + [mf], cf);
    ReadLast(ie + [te], me, jf + [tf], mf);
    ReadLast(ie, te, jf, tf);
    assert "DEBIT"[0] != "CREDIT"[0];
  }

  // ---- Two ledgers with the same last hashes ----

  /** No two texts share a hash, no hash is the genesis value, and hashes print without '|'. */
  ghost predicate Ideal(hash: string -> string) {
    && (forall x, y :: hash(x) == hash(y) ==> x == y)
    && (forall x :: hash(x) != GENESIS && NoBar(hash(x)))
  }

  ghost predicate AllClean(es: seq<LedgerEntry>) {
    forall e :: e in es ==> CleanIds(e)
  }

  ghost predicate SameLists(x: seq<LedgerEntry>, y: seq<LedgerEntry>) {
    |x| == |y| && forall i :: 0 <= i < |x| ==> SameHashed(x[i], y[i]) && x[i].entryHash == y[i].entryHash
  }

  lemma {:induction false} PrevHasNoBar(hash: string -> string, es: seq<LedgerEntry>)
    requires Ideal(hash) && Linked(hash, es)
    ensures NoBar(LastHash(es))
    ensures es != [] ==> NoBar(es[|es| - 1].prevHash)
  {
    if es != [] {
      PrevHasNoBar(hash, es[..|es| - 1]);
    }
  }

  /** One linked list is determined by its last hash. */
  lemma {:induction false} LastHashBinds(hash: string -> string, x: seq<LedgerEntry>, y: seq<LedgerEntry>)
    requires Ideal(hash) && Linked(hash, x) && Linked(hash, y) && AllClean(x) && AllClean(y)
    requires LastHash(x) == LastHash(y)
    ensures SameLists(x, y)
  {
    if x != [] && y != [] {
      var e, f := x[|x| - 1], y[|y| - 1];
      PrevHasNoBar(hash, x);
      PrevHasNoBar(hash, y);
      PayloadDecodes(e, f);
      LastHashBinds(hash, x[..|x| - 1], y[..|y| - 1]);
    }
  }

  lemma {:induction false} TimelineMembers(entries: seq<LedgerEntry>, a: string)
    ensures forall e :: e in Timeline(entries, a) <==> e in entries && e.accountId == a
  {
    SortSorts(Of(entries, a), TimeLe);
    OfMembers(entries, a);
    forall e
      ensures e in Timeline(entries, a) <==> e in Of(entries, a)
    {
      assert e in Timeline(entries, a) <==> e in multiset(Timeline(entries, a));
      assert e in Of(entries, a) <==> e in multiset(Of(entries, a));
    }
  }

  /**
   * Two ledgers that both pass the audit and end every account on the same hash hold the same
   * entries, in the same order, on every account, in every hashed field.
   */
  lemma {:induction false} LastHashesBindLedger(hash: string -> string, x: seq<LedgerEntry>, y: seq<LedgerEntry>)
    requires Ideal(hash) && AllClean(x) && AllClean(y)
    requires Audit(hash, x) == [] && Audit(hash, y) == []
    requires forall a :: LastHash(Timeline(x, a)) == LastHash(Timeline(y, a))
    ensures forall a :: SameLists(Timeline(x, a), Timeline(y, a))
  {
    AuditCleanIff(hash, x);
    AuditCleanIff(hash, y);
    forall a
      ensures SameLists(Timeline(x, a), Timeline(y, a))
    {
      TimelineMembers(x, a);
      TimelineMembers(y, a);
      LastHashBinds(hash, Timeline(x, a), Timeline(y, a));
    }
  }

  // ---- Balances ----

  lemma {:induction false} BalanceConcat(x: seq<LedgerEntry>, y: seq<LedgerEntry>, a: string)
    ensures Balance(x + y, a) == Balance(x, a) + Balance(y, a)
  {
    if y == [] {
      assert x + y == x;
    } else {
      assert (x + y)[..|x + y| - 1] == x + y[..|y| - 1];
      BalanceConcat(x, y[..|y| - 1], a);
    }
  }

  lemma {:induction false} BalanceOfInsert(e: LedgerEntry, s: seq<LedgerEntry>, a: string)
    ensures Balance(Insert(e, s, TimeLe), a) == Balance([e], a) + Balance(s, a)
  {
    if s == [] {
    } else if TimeLe(e, s[0]) {
      BalanceConcat([e], s, a);
    } else {
      BalanceOfInsert(e, s[1..], a);
      BalanceConcat([s[0]], Insert(e, s[1..], TimeLe), a);
      BalanceConcat([s[0]], s[1..], a);
      assert s == [s[0]] + s[1..];
    }
  }

  lemma {:induction false} BalanceOfSort(s: seq<LedgerEntry>, a: string)
    ensures Balance(Sort(s, TimeLe), a) == Balance(s, a)
  {
    if s != [] {
      BalanceOfSort(s[1..], a);
      BalanceOfInsert(s[0], Sort(s[1..], TimeLe), a);
      BalanceConcat([s[0]], s[1..], a);
      assert s == [s[0]] + s[1..];
    }
  }

  lemma {:induction false} BalanceOfAccount(es: seq<LedgerEntry>, a: string)
    ensures Balance(Of(es, a), a) == Balance(es, a)
  {
    if es != [] {
      var n := |es| - 1;
      BalanceOfAccount(es[..n], a);
      BalanceConcat(Of(es[..n], a), if es[n].accountId == a then [es[n]] else [], a);
      assert [es[n]][..0] == [];
      assert Balance([], a) == 0;
    }
  }

  /** Equal in what a balance looks at. */
  ghost predicate SameAmounts(x: seq<LedgerEntry>, y: seq<LedgerEntry>) {
    |x| == |y| && forall i :: 0 <= i < |x| ==> x[i].entryType == y[i].entryType && x[i].amountCents == y[i].amountCents
  }

  /** One linked list fixes the sides and amounts of its entries by its last hash, whatever the ids contain. */
  lemma {:induction false} LastHashBindsAmounts(hash: string -> string, x: seq<LedgerEntry>, y: seq<LedgerEntry>)
    requires Ideal(hash) && Linked(hash, x) && Linked(hash, y) && LastHash(x) == LastHash(y)
    ensures SameAmounts(x, y)
  {
    if x != [] && y != [] {
      PrevHasNoBar(hash, x);
      PrevHasNoBar(hash, y);
      TailDecodes(x[|x| - 1], y[|y| - 1]);
      LastHashBindsAmounts(hash, x[..|x| - 1], y[..|y| - 1]);
    }
  }

  lemma {:induction false} SameAmountsSameBalance(x: seq<LedgerEntry>, y: seq<LedgerEntry>, a: string)
    requires SameAmounts(x, y)
    requires (forall e :: e in x ==> e.accountId == a) && forall e :: e in y ==> e.accountId == a
    ensures Balance(x, a) == Balance(y, a)
  {
    if x != [] {
      SameAmountsSameBalance(x[..|x| - 1], y[..|y| - 1], a);
      assert x[|x| - 1] in x && y[|y| - 1] in y;
    }
  }

  /** The last hash of an account commits to its balance, whatever ids, users and other accounts look like. */
  lemma {:induction false} LastHashBindsBalance(hash: string -> string, x: seq<LedgerEntry>, y: seq<LedgerEntry>, account: string)
    requires Ideal(hash) && Audit(hash, x) == [] && Audit(hash, y) == []
    requires LastHash(Timeline(x, account)) == LastHash(Timeline(y, account))
    ensures Balance(x, account) == Balance(y, account)
  {
    AuditCleanIff(hash, x);
    AuditCleanIff(hash, y);
    LastHashBindsAmounts(hash, Timeline(x, account), Timeline(y, account));
    TimelineMembers(x, account);
    TimelineMembers(y, account);
    SameAmountsSameBalance(Timeline(x, account), Timeline(y, account), account);
    BalanceOfAccount(x, account);
    BalanceOfAccount(y, account);
    BalanceOfSort(Of(x, account), account);
    BalanceOfSort(Of(y, account), account);
  }
}
