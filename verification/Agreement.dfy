/**
 * The money of an expense is recorded twice, in ledger wallets and in the store from which net
 * balances are computed. The two agree over every run in which no call comes with a stored key.
 */
module Agreement {
  import opened Sums
  import opened Options
  import opened DebtMatching
  import opened NetBalances
  import opened Splits
  import opened Ledger
  import opened LedgerRuns
  import opened Wallets
  import opened Store
  import opened Messaging
  import opened ExpenseService

  /** The balance of u over all groups, computed from the stored expenses. */
  ghost function StoreNet(s: StoreState, u: UserId): int {
    SumOver(s.groups.Keys, g => NetOf(RawTxs(ForGroup(s.expenses, g)), u))
  }

  ghost predicate WalletsAgree(w: World) {
    forall u :: Balance(w.ledger.entries, Wallet(u)) == StoreNet(w.store, u)
  }

  /** The journal named by an expense has exactly the expense's effect. */
  ghost predicate JournalMatches(journals: map<string, Journal>, e: ExpenseRecord) {
    && e.journalId.Some? && e.journalId.value in journals
    && forall u :: Balance(journals[e.journalId.value].entries, Wallet(u)) == Delta(e.payerId, e.splits, u)
  }

  /** Everything that is not a wallet is at zero. */
  ghost predicate ClearingIsZero(w: World) {
    forall a :: (forall u :: a != Wallet(u)) ==> Balance(w.ledger.entries, a) == 0
  }

  ghost predicate InGroups(s: StoreState) {
    forall e :: e in s.expenses ==> e.groupId in s.groups
  }

  ghost predicate Agrees(w: World) {
    && WalletsAgree(w) && ClearingIsZero(w) && InGroups(w.store)
    && forall e :: e in w.store.expenses ==> JournalMatches(w.ledger.journals, e)
  }

  // ---- Storing one more expense ----

  lemma {:induction false} PutAgain(es: seq<ExpenseRecord>, e: ExpenseRecord, e': ExpenseRecord)
    requires (forall x :: x in es ==> x.id != e.id) && e'.id == e.id
    ensures Put(es + [e], e') == es + [e']
  {
    if es != [] {
      PutAgain(es[1..], e, e');
      assert (es + [e])[1..] == es[1..] + [e];
      assert es + [e'] == [es[0]] + (es[1..] + [e']);
    }
  }

  lemma {:induction false} ForGroupConcat(x: seq<ExpenseRecord>, y: seq<ExpenseRecord>, g: string)
    ensures ForGroup(x + y, g) == ForGroup(x, g) + ForGroup(y, g)
  {
    if x == [] {
      assert x + y == y;
    } else {
      assert (x + y)[1..] == x[1..] + y;
      ForGroupConcat(x[1..], y, g);
      var first := if x[0].groupId == g then [x[0]] else [];
      assert first + (ForGroup(x[1..], g) + ForGroup(y, g)) == first + ForGroup(x[1..], g) + ForGroup(y, g);
    }
  }

  lemma {:induction false} NetOfMore(es: seq<ExpenseRecord>, e: ExpenseRecord, g: string, u: UserId)
    ensures NetOf(RawTxs(ForGroup(es + [e], g)), u) ==
            NetOf(RawTxs(ForGroup(es, g)), u) + if e.groupId == g then Delta(e.payerId, e.splits, u) else 0
  {
    ForGroupConcat(es, [e], g);
    var mine := ForGroup(es, g);
    assert [e][1..] == [];
    if e.groupId == g {
      assert ForGroup([e], g) == [e];
      var txs := RawTxs(mine + [e]);
      assert txs[..|txs| - 1] == RawTxs(mine);
      assert txs[|txs| - 1] == Tx(e.payerId, e.splits);
    } else {
      assert ForGroup([e], g) == [];
      assert mine + [] == mine;
    }
  }

  /** One more expense moves its group's part of everyone's balance by its effect. */
  lemma {:induction false} StoreNetMore(s: StoreState, s': StoreState, e: ExpenseRecord, u: UserId)
    requires s'.groups == s.groups && s'.expenses == s.expenses + [e] && e.groupId in s.groups
    ensures StoreNet(s', u) == StoreNet(s, u) + Delta(e.payerId, e.splits, u)
  {
    var f, f' := g => NetOf(RawTxs(ForGroup(s.expenses, g)), u), g => NetOf(RawTxs(ForGroup(s'.expenses, g)), u);
    forall g
      ensures f'(g) == f(g) + if e.groupId == g then Delta(e.payerId, e.splits, u) else 0
    {
      NetOfMore(s.expenses, e, g, u);
    }
    SumChangeOne(s.groups.Keys, f, f', e.groupId);
  }

  // ---- One call ----

  /** uuid4 gives ids that are not in use. */
  ghost predicate FreshDraws(w: World, d: Draws) {
    && (forall e :: e in w.store.expenses ==> e.id != d.expenseId)
    && d.ledgerIds.journal !in w.ledger.journals
  }

  function PostingCall(req: Request, splits: seq<Split>, d: Draws, now: int): LedgerRuns.Call {
    ExpenseCall(req.payerId, splits, req.title, d.ledgerIds, now)
  }

  /** A call that raises changes neither ledger nor store nor outbox, in any state. */
  lemma {:induction false} RaisingChangesNothing(hash: string -> string, w: World, req: Request, d: Draws, now: int)
    requires CreateExpense(hash, w, req, d, now).1.Failure?
    ensures CreateExpense(hash, w, req, d, now).0 == w
  {
    var v := Validate(req, w.store);
    if v.Success? {
      WrappersNeverUnbalanced(hash, w.ledger, PostingCall(req, v.value, d, now));
    }
  }

  /** The ledger after an accepted expense. */
  lemma {:induction false} LedgerMoves(hash: string -> string, s: LedgerState, payer: UserId, splits: seq<Split>, title: string, ids: Ids, now: int)
    requires PostExpense(hash, s, payer, splits, title, ids, now).1.Posted?
    ensures var (s', r) := PostExpense(hash, s, payer, splits, title, ids, now);
      && (forall u :: Balance(s'.entries, Wallet(u)) == Balance(s.entries, Wallet(u)) + Delta(payer, splits, u))
      && (forall u :: Balance(r.journal.entries, Wallet(u)) == Delta(payer, splits, u))
      && (forall a :: (forall u :: a != Wallet(u)) ==> Balance(s'.entries, a) == Balance(s.entries, a))
      && s'.journals == s.journals[ids.journal := r.journal]
  {
    var specs := ExpenseSpecs(payer, splits, title, ExpenseClearing(ids.clearing));
    var (s', r) := PostExpense(hash, s, payer, splits, title, ids, now);
    forall u
      ensures Balance(s'.entries, Wallet(u)) == Balance(s.entries, Wallet(u)) + Delta(payer, splits, u)
      ensures Balance(r.journal.entries, Wallet(u)) == Delta(payer, splits, u)
    {
      PostedBalance(hash, s, specs, title, ids, now, Wallet(u));
      ExpenseOnWallet(payer, splits, title, ids.clearing, u);
    }
    forall a | forall u :: a != Wallet(u)
      ensures Balance(s'.entries, a) == Balance(s.entries, a)
    {
      PostedBalance(hash, s, specs, title, ids, now, a);
      ExpenseClears(payer, splits, title, ids.clearing, a);
    }
  }

  /** What a call with an unused key does: one more journal and one more expense that names it. */
  lemma {:induction false} FreshCallRecords(hash: string -> string, w: World, req: Request, d: Draws, now: int)
    requires FreshDraws(w, d) && Existing(w.store, req.idempotencyKey) == None
    requires CreateExpense(hash, w, req, d, now).1.Success?
    ensures var (w', r) := CreateExpense(hash, w, req, d, now);
      var splits := Validate(req, w.store).value;
      && Validate(req, w.store).Success?
      && PostExpense(hash, w.ledger, req.payerId, splits, req.title, d.ledgerIds, now).1.Posted?
      && w'.ledger == PostExpense(hash, w.ledger, req.payerId, splits, req.title, d.ledgerIds, now).0
      && w'.store.groups == w.store.groups && w'.store.expenses == w.store.expenses + [r.value]
      && r.value.payerId == req.payerId && r.value.splits == splits && r.value.groupId == req.groupId
      && r.value.journalId == Some(d.ledgerIds.journal)
      && w'.store.idempotencyKeys.Keys <= w.store.idempotencyKeys.Keys + (if HasKey(req.idempotencyKey) then {req.idempotencyKey.value} else {})
  {
    var splits := Validate(req, w.store).value;
    var e := NewExpense(d.expenseId, req.groupId, req.payerId, req.title, req.totalCents, req.splitType, splits, req.idempotencyKey);
    PutNew(w.store.expenses, e);
    PutAgain(w.store.expenses, e, e.(journalId := Some(d.ledgerIds.journal)));
  }

  /** One matching journal and expense more: the two records still agree. */
  lemma {:induction false} BothMove(w: World, w': World, e: ExpenseRecord)
    requires Agrees(w)
    requires w'.store.groups == w.store.groups && w'.store.expenses == w.store.expenses + [e] && e.groupId in w.store.groups
    requires forall u :: Balance(w'.ledger.entries, Wallet(u)) == Balance(w.ledger.entries, Wallet(u)) + Delta(e.payerId, e.splits, u)
    requires forall a :: (forall u :: a != Wallet(u)) ==> Balance(w'.ledger.entries, a) == Balance(w.ledger.entries, a)
    ensures WalletsAgree(w') && ClearingIsZero(w') && InGroups(w'.store)
  {
    forall u
      ensures Balance(w'.ledger.entries, Wallet(u)) == StoreNet(w'.store, u)
    {
      StoreNetMore(w.store, w'.store, e, u);
    }
  }

  lemma {:induction false} FreshCallKeepsAgreement(hash: string -> string, w: World, req: Request, d: Draws, now: int)
    requires Agrees(w) && FreshDraws(w, d) && Existing(w.store, req.idempotencyKey) == None
    ensures Agrees(CreateExpense(hash, w, req, d, now).0)
  {
    var (w', r) := CreateExpense(hash, w, req, d, now);
    if r.Failure? {
      RaisingChangesNothing(hash, w, req, d, now);
    } else {
      FreshCallRecords(hash, w, req, d, now);
      LedgerMoves(hash, w.ledger, req.payerId, r.value.splits, req.title, d.ledgerIds, now);
      BothMove(w, w', r.value);
      KeepsJournals(w, w', r.value);
    }
  }

  lemma {:induction false} KeepsJournals(w: World, w': World, e: ExpenseRecord)
    requires forall x :: x in w.store.expenses ==> JournalMatches(w.ledger.journals, x)
    requires w'.store.expenses == w.store.expenses + [e] && JournalMatches(w'.ledger.journals, e)
    requires e.journalId.value !in w.ledger.journals
    requires forall j :: j in w.ledger.journals ==> j in w'.ledger.journals && w'.ledger.journals[j] == w.ledger.journals[j]
    ensures forall x :: x in w'.store.expenses ==> JournalMatches(w'.ledger.journals, x)
  {
    forall x | x in w'.store.expenses
      ensures JournalMatches(w'.ledger.journals, x)
    {
      if x in w.store.expenses {
        assert JournalMatches(w.ledger.journals, x);
      } else {
        assert x == e;
      }
    }
  }

  // ---- A key used again ----

  lemma {:induction false} FindHasId(es: seq<ExpenseRecord>, id: string)
    ensures Find(es, id).Some? ==> Find(es, id).value.id == id
  {
    if es != [] {
      FindHasId(es[1..], id);
    }
  }

  /** Writing a journal id into a found record leaves the transactions of every group. */
  lemma {:induction false} PutKeepsTxs(es: seq<ExpenseRecord>, id: string, j: Option<string>, g: string)
    requires Find(es, id).Some?
    ensures RawTxs(ForGroup(Put(es, Find(es, id).value.(journalId := j)), g)) == RawTxs(ForGroup(es, g))
  {
    var e := Find(es, id).value.(journalId := j);
    FindHasId(es, id);
    if es[0].id == id {
      assert ([e] + es[1..])[1..] == es[1..];
    } else {
      PutKeepsTxs(es[1..], id, j, g);
      var more := Put(es[1..], e);
      assert ([es[0]] + more)[1..] == more;
      RawTxsCons(es[0], ForGroup(more, g));
      RawTxsCons(es[0], ForGroup(es[1..], g));
    }
  }

  lemma {:induction false} RawTxsCons(e: ExpenseRecord, es: seq<ExpenseRecord>)
    ensures RawTxs([e] + es) == [Tx(e.payerId, e.splits)] + RawTxs(es)
    ensures RawTxs([] + es) == RawTxs(es)
  {
    assert [] + es == es;
  }

  /** expense.journal_id = journal.journal_id */
  function Renamed(e: ExpenseRecord, journalId: string): ExpenseRecord {
    e.(journalId := Some(journalId))
  }

  /**
   * A call with a used key posts its journal all the same. It leaves the stored expenses, except
   * that the first one now names the new journal.
   */
  lemma {:induction false} RepeatedCallRecords(hash: string -> string, w: World, req: Request, d: Draws, now: int)
    requires Existing(w.store, req.idempotencyKey).Some?
    requires CreateExpense(hash, w, req, d, now).1.Success?
    ensures var w' := CreateExpense(hash, w, req, d, now).0;
      var splits := Validate(req, w.store).value;
      && Validate(req, w.store).Success?
      && PostExpense(hash, w.ledger, req.payerId, splits, req.title, d.ledgerIds, now).1.Posted?
      && w'.ledger == PostExpense(hash, w.ledger, req.payerId, splits, req.title, d.ledgerIds, now).0
      && w'.store.groups == w.store.groups
      && w'.store.expenses == Put(w.store.expenses, Renamed(Existing(w.store, req.idempotencyKey).value, d.ledgerIds.journal))
      && forall g :: RawTxs(ForGroup(w'.store.expenses, g)) == RawTxs(ForGroup(w.store.expenses, g))
  {
    var w' := CreateExpense(hash, w, req, d, now).0;
    forall g
      ensures RawTxs(ForGroup(w'.store.expenses, g)) == RawTxs(ForGroup(w.store.expenses, g))
    {
      PutKeepsTxs(w.store.expenses, w.store.idempotencyKeys[req.idempotencyKey.value], Some(d.ledgerIds.journal), g);
    }
  }

  lemma {:induction false} OwnSharesMoveNothing(payer: UserId, splits: seq<Split>, u: UserId)
    requires forall i :: 0 <= i < |splits| ==> splits[i].userId == payer
    ensures Delta(payer, splits, u) == 0
  {
    if splits != [] {
      OwnSharesMoveNothing(payer, splits[..|splits| - 1], u);
    }
  }

  lemma {:induction false} PayerGetsTotal(payer: UserId, splits: seq<Split>)
    ensures Delta(payer, splits, payer) == OthersTotal(payer, splits)
  {
    if splits != [] {
      PayerGetsTotal(payer, splits[..|splits| - 1]);
    }
  }

  lemma {:induction false} StoreNetSame(s: StoreState, s': StoreState, u: UserId)
    requires s'.groups == s.groups
    requires forall g :: RawTxs(ForGroup(s'.expenses, g)) == RawTxs(ForGroup(s.expenses, g))
    ensures StoreNet(s', u) == StoreNet(s, u)
  {
    SumAgree(s.groups.Keys, g => NetOf(RawTxs(ForGroup(s.expenses, g)), u), g => NetOf(RawTxs(ForGroup(s'.expenses, g)), u));
  }

  /** After a repeated call the wallets still agree exactly when nobody but the payer has a share. */
  lemma {:induction false} RepeatedCallAgreesIff(hash: string -> string, w: World, w': World, req: Request, splits: seq<Split>, d: Draws, now: int)
    requires WalletsAgree(w)
    requires PostExpense(hash, w.ledger, req.payerId, splits, req.title, d.ledgerIds, now).1.Posted?
    requires w'.ledger == PostExpense(hash, w.ledger, req.payerId, splits, req.title, d.ledgerIds, now).0
    requires w'.store.groups == w.store.groups
    requires forall g :: RawTxs(ForGroup(w'.store.expenses, g)) == RawTxs(ForGroup(w.store.expenses, g))
    ensures WalletsAgree(w') <==> OnlyPayer(req.payerId, splits)
  {
    var clearing := ExpenseClearing(d.ledgerIds.clearing);
    LedgerMoves(hash, w.ledger, req.payerId, splits, req.title, d.ledgerIds, now);
    AcceptedDebtors(req.payerId, splits, req.title, clearing);
    AcceptedTotal(req.payerId, splits, req.title, clearing);
    PayerGetsTotal(req.payerId, splits);
    StoreNetSame(w.store, w'.store, req.payerId);
    if OnlyPayer(req.payerId, splits) {
      forall u
        ensures Balance(w'.ledger.entries, Wallet(u)) == StoreNet(w'.store, u)
      {
        OwnSharesMoveNothing(req.payerId, splits, u);
        StoreNetSame(w.store, w'.store, u);
      }
    } else {
      assert Balance(w'.ledger.entries, Wallet(req.payerId)) != StoreNet(w'.store, req.payerId);
    }
  }

  lemma {:induction false} PutMembers(es: seq<ExpenseRecord>, e: ExpenseRecord)
    ensures e in Put(es, e)
    ensures forall x :: x in Put(es, e) ==> x == e || x in es
  {
    if es != [] {
      PutMembers(es[1..], e);
      assert es == [es[0]] + es[1..];
    }
  }

  lemma {:induction false} FindMember(es: seq<ExpenseRecord>, id: string)
    ensures Find(es, id).Some? ==> Find(es, id).value in es
  {
    if es != [] {
      FindMember(es[1..], id);
    }
  }

  lemma {:induction false} FindAppended(es: seq<ExpenseRecord>, e: ExpenseRecord, id: string)
    requires forall x :: x in es ==> x.id != e.id
    ensures Find(es + [e], id) == if id == e.id then Some(e) else Find(es, id)
  {
    if es != [] {
      assert (es + [e])[1..] == es[1..] + [e];
      assert es[0] in es;
      FindAppended(es[1..], e, id);
    }
  }

  predicate OnlyPayer(payer: UserId, splits: seq<Split>) {
    forall i :: 0 <= i < |splits| ==> splits[i].userId == payer
  }

  /** It leaves every user's net balance. */
  ghost predicate MovesNothing(payer: UserId, splits: seq<Split>) {
    forall u :: Delta(payer, splits, u) == 0
  }

  /** The stored expenses after a repeated call name matching journals exactly when the first one moves nothing. */
  lemma {:induction false} RenamedMatchesIff(journals: map<string, Journal>, j: Journal, id: string, es: seq<ExpenseRecord>, first: ExpenseRecord)
    requires (forall e :: e in es ==> JournalMatches(journals, e)) && id !in journals
    requires forall u :: Balance(j.entries, Wallet(u)) == 0
    ensures (forall e :: e in Put(es, Renamed(first, id)) ==> JournalMatches(journals[id := j], e))
       <==> MovesNothing(first.payerId, first.splits)
  {
    var e' := Renamed(first, id);
    PutMembers(es, e');
    forall e | e in es
      ensures JournalMatches(journals[id := j], e)
    {
      assert JournalMatches(journals, e);
    }
    assert JournalMatches(journals[id := j], e') <==> MovesNothing(first.payerId, first.splits);
  }

  /**
   * After an accepted call, ledger and store still agree exactly when the key was not stored yet, or
   * neither the call nor the stored expense moves anybody's balance: the ledger is posted to before
   * the store looks at the key, and the stored expense then names the new journal.
   */
  lemma {:induction false} AcceptedCallAgreesIff(hash: string -> string, w: World, req: Request, d: Draws, now: int)
    requires Agrees(w) && FreshDraws(w, d) && CreateExpense(hash, w, req, d, now).1.Success?
    ensures var first := Existing(w.store, req.idempotencyKey);
      Agrees(CreateExpense(hash, w, req, d, now).0) <==>
      first == None ||
      (OnlyPayer(req.payerId, Validate(req, w.store).value) && MovesNothing(first.value.payerId, first.value.splits))
  {
    if Existing(w.store, req.idempotencyKey) == None {
      FreshCallKeepsAgreement(hash, w, req, d, now);
    } else {
      RepeatedCallAgrees(hash, w, req, d, now);
    }
  }

  lemma {:induction false} RepeatedCallAgrees(hash: string -> string, w: World, req: Request, d: Draws, now: int)
    requires Agrees(w) && FreshDraws(w, d) && CreateExpense(hash, w, req, d, now).1.Success?
    requires Existing(w.store, req.idempotencyKey).Some?
    ensures var first := Existing(w.store, req.idempotencyKey).value;
      Agrees(CreateExpense(hash, w, req, d, now).0) <==>
      OnlyPayer(req.payerId, Validate(req, w.store).value) && MovesNothing(first.payerId, first.splits)
  {
    var w' := CreateExpense(hash, w, req, d, now).0;
    var first, splits := Existing(w.store, req.idempotencyKey).value, Validate(req, w.store).value;
    RepeatedCallRecords(hash, w, req, d, now);
    RepeatedCallAgreesIff(hash, w, w', req, splits, d, now);
    if OnlyPayer(req.payerId, splits) {
      LedgerMoves(hash, w.ledger, req.payerId, splits, req.title, d.ledgerIds, now);
      FindMember(w.store.expenses, w.store.idempotencyKeys[req.idempotencyKey.value]);
      var j := PostExpense(hash, w.ledger, req.payerId, splits, req.title, d.ledgerIds, now).1.journal;
      IdleRepeatAgreesIff(w, w', req.payerId, splits, j, d.ledgerIds.journal, first);
    }
  }

  /** A repeated call whose journal moves nothing. */
  lemma {:induction false} IdleRepeatAgreesIff(w: World, w': World, payer: UserId, splits: seq<Split>, j: Journal, id: string, first: ExpenseRecord)
    requires Agrees(w) && WalletsAgree(w') && OnlyPayer(payer, splits)
    requires id !in w.ledger.journals && w'.ledger.journals == w.ledger.journals[id := j]
    requires forall u :: Balance(j.entries, Wallet(u)) == Delta(payer, splits, u)
    requires forall a :: (forall u :: a != Wallet(u)) ==> Balance(w'.ledger.entries, a) == Balance(w.ledger.entries, a)
    requires first in w.store.expenses
    requires w'.store.groups == w.store.groups && w'.store.expenses == Put(w.store.expenses, Renamed(first, id))
    ensures Agrees(w') <==> MovesNothing(first.payerId, first.splits)
  {
    forall u
      ensures Balance(j.entries, Wallet(u)) == 0
    {
      OwnSharesMoveNothing(payer, splits, u);
    }
    RenamedMatchesIff(w.ledger.journals, j, id, w.store.expenses, first);
    PutMembers(w.store.expenses, Renamed(first, id));
    assert InGroups(w'.store) && ClearingIsZero(w');
  }

  // ---- Whole runs ----

  datatype Action =
    | NewGroup(id: string, name: string)
    | Join(groupId: string, userId: UserId)
    | Create(req: Request, draws: Draws, now: int)

  function Act(hash: string -> string, w: World, a: Action): World {
    match a
    case NewGroup(id, name) => w.(store := w.store.(groups := w.store.groups[id := GroupRecord(id, name, 0, [])]))
    case Join(g, u) => w.(store := MemberAdded(w.store, g, u).0)
    case Create(req, d, now) => CreateExpense(hash, w, req, d, now).0
  }

  const EMPTY_WORLD: World := World(EMPTY_LEDGER, EMPTY_STORE, OutboxState([], []))

  function RunAll(hash: string -> string, actions: seq<Action>): World {
    if actions == [] then EMPTY_WORLD else Act(hash, RunAll(hash, actions[..|actions| - 1]), actions[|actions| - 1])
  }

  /** Fresh ids, and no call comes with a key that is stored; a failed call may be tried again with its key. */
  ghost predicate Proper(hash: string -> string, actions: seq<Action>) {
    actions != [] ==>
      var before, a := actions[..|actions| - 1], actions[|actions| - 1];
      && Proper(hash, before)
      && (a.Create? ==> FreshDraws(RunAll(hash, before), a.draws) && Existing(RunAll(hash, before).store, a.req.idempotencyKey) == None)
  }

  lemma {:induction false} EmptyAgrees()
    ensures Agrees(EMPTY_WORLD)
  {
    forall u
      ensures StoreNet(EMPTY_STORE, u) == 0
    {
      assert EMPTY_STORE.groups.Keys == {};
    }
  }

  lemma {:induction false} NoExpensesInGroup(es: seq<ExpenseRecord>, g: string)
    requires forall e :: e in es ==> e.groupId != g
    ensures ForGroup(es, g) == []
  {
    if es != [] {
      assert es[0] in es;
      NoExpensesInGroup(es[1..], g);
    }
  }

  /** A group without expenses adds nothing. */
  lemma {:induction false} EmptyGroupsAddNothing(s: StoreState, groups: map<string, GroupRecord>, u: UserId)
    requires InGroups(s) && s.groups.Keys <= groups.Keys
    ensures StoreNet(s.(groups := groups), u) == StoreNet(s, u)
  {
    var s' := s.(groups := groups);
    var f := g => NetOf(RawTxs(ForGroup(s.expenses, g)), u);
    forall g | g in groups.Keys - s.groups.Keys
      ensures f(g) == 0
    {
      NoExpensesInGroup(s.expenses, g);
    }
    SumDropZeros(groups.Keys, s.groups.Keys, f);
    SumAgree(groups.Keys, f, g => NetOf(RawTxs(ForGroup(s'.expenses, g)), u));
  }

  lemma {:induction false} GroupsGrow(w: World, groups: map<string, GroupRecord>)
    requires Agrees(w) && w.store.groups.Keys <= groups.Keys
    ensures Agrees(w.(store := w.store.(groups := groups)))
  {
    forall u
      ensures StoreNet(w.store.(groups := groups), u) == StoreNet(w.store, u)
    {
      EmptyGroupsAddNothing(w.store, groups, u);
    }
  }

  /**
   * In every such run each user's wallet equals the sum over groups of that user's net balance,
   * each stored expense names a journal with exactly its effect, and all other accounts are zero.
   */
  lemma {:induction false} EveryRunAgrees(hash: string -> string, actions: seq<Action>)
    requires Proper(hash, actions)
    ensures Agrees(RunAll(hash, actions))
  {
    if actions == [] {
      EmptyAgrees();
    } else {
      var w, a := RunAll(hash, actions[..|actions| - 1]), actions[|actions| - 1];
      EveryRunAgrees(hash, actions[..|actions| - 1]);
      match a
      case NewGroup(id, name) => GroupsGrow(w, w.store.groups[id := GroupRecord(id, name, 0, [])]);
      case Join(g, u) => GroupsGrow(w, MemberAdded(w.store, g, u).0.groups);
      case Create(req, d, now) => FreshCallKeepsAgreement(hash, w, req, d, now);
    }
  }

  /** Some call of the run has this key. */
  predicate UsesKey(actions: seq<Action>, key: string) {
    actions != [] &&
    var a := actions[|actions| - 1];
    UsesKey(actions[..|actions| - 1], key) || (a.Create? && a.req.idempotencyKey == Some(key))
  }

  lemma {:induction false} CallStoresOwnKey(hash: string -> string, w: World, req: Request, d: Draws, now: int, key: string)
    requires key in CreateExpense(hash, w, req, d, now).0.store.idempotencyKeys
    ensures key in w.store.idempotencyKeys || req.idempotencyKey == Some(key)
  {
  }

  /** Stored keys are keys of the run. */
  lemma {:induction false} StoredKeysAreUsed(hash: string -> string, actions: seq<Action>, key: string)
    requires key in RunAll(hash, actions).store.idempotencyKeys
    ensures UsesKey(actions, key)
  {
    if actions != [] {
      var w, a := RunAll(hash, actions[..|actions| - 1]), actions[|actions| - 1];
      if a.Create? {
        CallStoresOwnKey(hash, w, a.req, a.draws, a.now, key);
      }
      if key in w.store.idempotencyKeys {
        StoredKeysAreUsed(hash, actions[..|actions| - 1], key);
      }
    }
  }

  /** So a run that uses no key twice is one of them, step by step. */
  lemma {:induction false} UnusedKeyIsProper(hash: string -> string, before: seq<Action>, a: Action)
    requires Proper(hash, before) && (a.Create? ==> FreshDraws(RunAll(hash, before), a.draws))
    requires a.Create? && HasKey(a.req.idempotencyKey) ==> !UsesKey(before, a.req.idempotencyKey.value)
    ensures Proper(hash, before + [a])
  {
    assert (before + [a])[..|before|] == before;
    if a.Create? && HasKey(a.req.idempotencyKey) && a.req.idempotencyKey.value in RunAll(hash, before).store.idempotencyKeys {
      StoredKeysAreUsed(hash, before, a.req.idempotencyKey.value);
    }
  }

  // ---- Which expenses are accepted ----

  lemma {:induction false} SharesOfOthers(payer: UserId, splits: seq<Split>, description: string, clearing: string)
    ensures AmountsOk(DebtorSpecs(payer, splits, description, clearing))
       <==> forall i :: 0 <= i < |splits| && splits[i].userId != payer ==> splits[i].amountCents >= 1
  {
    if splits != [] {
      var n := |splits| - 1;
      var before, all := DebtorSpecs(payer, splits[..n], description, clearing), DebtorSpecs(payer, splits, description, clearing);
      SharesOfOthers(payer, splits[..n], description, clearing);
      assert forall i :: 0 <= i < |before| ==> all[i] == before[i];
      if splits[n].userId != payer {
        assert all[|before|] == Owes(splits[n], description);
        assert all[|before| + 1] == Clears(splits[n], description, clearing);
      }
    }
  }

  lemma {:induction false} EqualShareIsPositiveIff(total: int, n: int, i: nat)
    requires n > 0 && total >= 1 && i < n
    ensures EqualShare(total, n, i) >= 1 <==> i < total
  {
    if total < n {
      Division(total, n, 0, total);
    } else {
      Multiple(n, total / n);
    }
  }

  /** The ledger accepts an expense exactly when every share of somebody other than the payer is at least a cent. */
  lemma {:induction false} PostedIff(hash: string -> string, s: LedgerState, payer: UserId, splits: seq<Split>, title: string, ids: Ids, now: int)
    ensures PostExpense(hash, s, payer, splits, title, ids, now).1.Posted?
       <==> forall i :: 0 <= i < |splits| && splits[i].userId != payer ==> splits[i].amountCents >= 1
  {
    var clearing := ExpenseClearing(ids.clearing);
    WrappersNeverUnbalanced(hash, s, ExpenseCall(payer, splits, title, ids, now));
    SharesOfOthers(payer, splits, title, clearing);
    if AmountsOk(ExpenseSpecs(payer, splits, title, clearing)) {
      AcceptedDebtors(payer, splits, title, clearing);
    }
  }

  /**
   * `create_expense` accepts, for every split type, exactly the valid requests in which every share
   * of somebody other than the payer is at least a cent.
   */
  lemma {:induction false} CreateAcceptedIff(hash: string -> string, w: World, req: Request, d: Draws, now: int)
    ensures CreateExpense(hash, w, req, d, now).1.Success? <==>
      && Validate(req, w.store).Success?
      && var splits := Validate(req, w.store).value;
         forall i :: 0 <= i < |splits| && splits[i].userId != req.payerId ==> splits[i].amountCents >= 1
  {
    var v := Validate(req, w.store);
    if v.Success? {
      PostedIff(hash, w.ledger, req.payerId, v.value, req.title, d.ledgerIds, now);
    }
  }

  /**
   * Equal shares can be zero, and the ledger refuses amounts below a cent: an equal expense of a
   * member of an existing group is accepted exactly when it is at least one cent and every member
   * beyond the first `total` is the payer.
   */
  lemma {:induction false} EqualExpenseAcceptedIff(hash: string -> string, w: World, req: Request, d: Draws, now: int)
    requires req.splitType == "EQUAL" && req.groupId in w.store.groups && req.payerId in w.store.groups[req.groupId].memberIds
    ensures var members := w.store.groups[req.groupId].memberIds;
      CreateExpense(hash, w, req, d, now).1.Success? <==>
      req.totalCents >= 1 && forall i :: req.totalCents <= i < |members| ==> members[i] == req.payerId
  {
    CreateAcceptedIff(hash, w, req, d, now);
    if req.totalCents >= 1 {
      var members := w.store.groups[req.groupId].memberIds;
      var splits := EqualSplits(req.totalCents, members);
      forall i | 0 <= i < |members|
        ensures splits[i].userId == members[i] && (splits[i].amountCents >= 1 <==> i < req.totalCents)
      {
        EqualShareIsPositiveIff(req.totalCents, |members|, i);
      }
    }
  }

  // ---- Two calls that the documentation does not expect to fail ----

  /** A group of two. */
  const TRIP: seq<Action> := [NewGroup("g", "Trip"), Join("g", "a"), Join("g", "b")]

  /** a pays some cents for both. */
  function TripExpense(totalCents: int): Request {
    Request("g", "a", "Lunch", totalCents, "EQUAL", [], Some("key"))
  }

  const TRIP_GROUPS: map<string, GroupRecord> := map["g" := GroupRecord("g", "Trip", 2, ["a", "b"])]

  lemma {:induction false} RunMore(hash: string -> string, actions: seq<Action>, a: Action)
    ensures RunAll(hash, actions + [a]) == Act(hash, RunAll(hash, actions), a)
    ensures !a.Create? && Proper(hash, actions) ==> Proper(hash, actions + [a])
  {
    assert (actions + [a])[..|actions|] == actions;
  }

  lemma {:induction false} TripWorld(hash: string -> string)
    ensures RunAll(hash, TRIP) == EMPTY_WORLD.(store := EMPTY_STORE.(groups := TRIP_GROUPS))
    ensures Agrees(RunAll(hash, TRIP))
  {
    var group, a, b := NewGroup("g", "Trip"), Join("g", "a"), Join("g", "b");
    assert TRIP == [] + [group] + [a] + [b];
    RunMore(hash, [], group);
    RunMore(hash, [] + [group], a);
    RunMore(hash, [] + [group] + [a], b);
    assert [] + ["a"] == ["a"] && ["a"] + ["b"] == ["a", "b"];
    EveryRunAgrees(hash, TRIP);
  }

  /** One cent shared equally by two is refused: b's share is nothing. */
  lemma {:induction false} OneCentForTwo(hash: string -> string, d: Draws, now: int)
    ensures CreateExpense(hash, RunAll(hash, TRIP), TripExpense(1), d, now).1.Failure?
  {
    TripWorld(hash);
    EqualExpenseAcceptedIff(hash, RunAll(hash, TRIP), TripExpense(1), d, now);
    assert TRIP_GROUPS["g"].memberIds[1] == "b";
  }

  /** A new expense with a key is found under it. */
  lemma {:induction false} FreshCallIsFound(hash: string -> string, w: World, req: Request, d: Draws, now: int)
    requires FreshDraws(w, d) && HasKey(req.idempotencyKey) && Existing(w.store, req.idempotencyKey) == None
    requires CreateExpense(hash, w, req, d, now).1.Success?
    ensures var (w', r) := CreateExpense(hash, w, req, d, now);
      r.value.id == d.expenseId && Existing(w'.store, req.idempotencyKey) == Some(r.value)
  {
    var splits := Validate(req, w.store).value;
    var n := NewExpense(d.expenseId, req.groupId, req.payerId, req.title, req.totalCents, req.splitType, splits, req.idempotencyKey);
    var e := Renamed(n, d.ledgerIds.journal);
    PutNew(w.store.expenses, n);
    PutAgain(w.store.expenses, n, e);
    FindAppended(w.store.expenses, e, d.expenseId);
  }

  /** An equal expense of two cents for the two is accepted, in any world with the group. */
  lemma {:induction false} TwoCentsForTwo(hash: string -> string, w: World, d: Draws, now: int)
    requires w.store.groups == TRIP_GROUPS
    ensures CreateExpense(hash, w, TripExpense(2), d, now).1.Success?
    ensures var v := Validate(TripExpense(2), w.store); v.Success? && !OnlyPayer("a", v.value)
  {
    EqualExpenseAcceptedIff(hash, w, TripExpense(2), d, now);
    assert Validate(TripExpense(2), w.store).value[1].userId == "b";
  }

  lemma {:induction false} OtherDrawsStayFresh(hash: string -> string, w: World, req: Request, d: Draws, d': Draws, now: int)
    requires FreshDraws(w, d) && FreshDraws(w, d') && Existing(w.store, req.idempotencyKey) == None
    requires d.expenseId != d'.expenseId && d.ledgerIds.journal != d'.ledgerIds.journal
    requires CreateExpense(hash, w, req, d, now).1.Success?
    ensures FreshDraws(CreateExpense(hash, w, req, d, now).0, d')
  {
    var (w', r) := CreateExpense(hash, w, req, d, now);
    FreshCallRecords(hash, w, req, d, now);
    assert r.value.id == d.expenseId;
    LedgerMoves(hash, w.ledger, req.payerId, r.value.splits, req.title, d.ledgerIds, now);
  }

  /** The same call again, past the gate: both are accepted, and then ledger and store disagree. */
  lemma {:induction false} RepeatedKeyDisagrees(hash: string -> string, d: Draws, d': Draws, now: int)
    requires d.expenseId != d'.expenseId && d.ledgerIds.journal != d'.ledgerIds.journal
    ensures var w := CreateExpense(hash, RunAll(hash, TRIP), TripExpense(2), d, now).0;
      var (w', r) := CreateExpense(hash, w, TripExpense(2), d', now);
      Agrees(w) && r.Success? && !Agrees(w')
  {
    var w0 := RunAll(hash, TRIP);
    TripWorld(hash);
    TwoCentsForTwo(hash, w0, d, now);
    var w := CreateExpense(hash, w0, TripExpense(2), d, now).0;
    FreshCallKeepsAgreement(hash, w0, TripExpense(2), d, now);
    FreshCallRecords(hash, w0, TripExpense(2), d, now);
    FreshCallIsFound(hash, w0, TripExpense(2), d, now);
    OtherDrawsStayFresh(hash, w0, TripExpense(2), d, d', now);
    TwoCentsForTwo(hash, w, d', now);
    AcceptedCallAgreesIff(hash, w, TripExpense(2), d', now);
  }
}
