/** Settling a group: the settlement journals of the simplified debts, in the worker's own ledger. */
module Worker {
  import opened Sums
  import opened DebtMatching
  import opened ExactSettlement
  import opened NetBalances
  import opened DebtSimplifier
  import opened Ledger
  import opened LedgerRuns
  import opened Wallets
  import opened PlanPosting
  import opened Store
  import opened Messaging
  import opened Cache
  import opened Reachable

  /** What one settlement draws from uuid4. */
  datatype Draws = Draws(ledgerIds: nat -> Ids, recordId: nat -> string, eventId: string)

  class SettlementWorker {
    const ledger: LedgerEngine
    const store: InMemoryStore
    const outbox: InMemoryOutbox
    const cache: InMemoryCache<string>

    constructor (ledger: LedgerEngine, store: InMemoryStore, outbox: InMemoryOutbox, cache: InMemoryCache<string>)
      ensures this.ledger == ledger && this.store == store && this.outbox == outbox && this.cache == cache
    {
      this.ledger, this.store, this.outbox, this.cache := ledger, store, outbox, cache;
    }

    /** Posts the journals and collects the records; no posting is refused. */
    method PostSettlements(groupId: string, plan: seq<Settlement>, checksum: string, d: Draws, now: int)
      returns (records: seq<SettlementRecord>, total: int)
      requires forall s :: s in plan ==> s.amountCents >= 1
      modifies ledger
      ensures ledger.State() == PostPlan(ledger.hash, old(ledger.State()), plan, d.ledgerIds, now)
      ensures records == Records(groupId, plan, d.recordId, checksum, now) && total == PlanTotal(plan)
    {
      records, total := [], 0;
      for i := 0 to |plan|
        invariant ledger.State() == PostPlan(ledger.hash, old(ledger.State()), plan[..i], d.ledgerIds, now)
        invariant records == Records(groupId, plan[..i], d.recordId, checksum, now) && total == PlanTotal(plan[..i])
      {
        var s := plan[i];
        PostPlanMore(ledger.hash, old(ledger.State()), plan, i, d.ledgerIds, now);
        RecordsMore(groupId, plan, i, d.recordId, checksum, now);
        SettlementAccepted(ledger.hash, ledger.State(), s, d.ledgerIds(i), now);
        var posting := ledger.PostSettlementJournal(s.payerId, s.payeeId, s.amountCents, SettlementText(s), d.ledgerIds(i), now);
        // The source would raise here on a refused posting; there is none.
        assert posting.Posted?;
        records := records + [Record(groupId, s, d.recordId(i), checksum, now)];
        total := total + s.amountCents;
      }
      assert plan[..|plan|] == plan;
    }

    /** The net balances of some expenses, simplified; the zero-sum error cannot occur. */
    method SimplifyExpenses(expenses: seq<ExpenseRecord>, sha: string -> string)
      returns (plan: seq<Settlement>, ratio: real, checksum: string)
      requires expenses != []
      ensures plan == Plan(NetMap(RawTxs(expenses))) && checksum == sha(ChecksumInput(plan))
      ensures ratio == Reduction(|plan|, |expenses|)
    {
      var order, net := ComputeNetBalances(RawTxs(expenses));
      NetMapZeroSum(RawTxs(expenses));
      var result, _, _ := Simplify(order, net, |expenses|, sha);
      // The source logs and returns on a zero-sum violation; there is none.
      assert result.Simplified?;
      return result.value.settlements, result.value.reductionRatio, result.value.checksum;
    }

    /** Simplifies, posts and saves; the payload says what was done. */
    method Settle(groupId: string, expenses: seq<ExpenseRecord>, d: Draws, now: int, sha: string -> string) returns (payload: Payload)
      requires expenses != []
      modifies ledger, store
      ensures var txs := RawTxs(expenses);
        var plan := Plan(NetMap(txs));
        var checksum := sha(ChecksumInput(plan));
        && ledger.State() == PostPlan(ledger.hash, old(ledger.State()), plan, d.ledgerIds, now)
        && store.State() == old(store.State()).(settlements := store.settlements)
        && SettlementSaved(old(store.settlements), store.settlements, groupId, txs, d.recordId, checksum, now)
        && payload == SettledPayload(groupId, |plan|, Total(Creditors(NetMap(txs))), "MaxHeap-O(NlogN)",
                                     Reduction(|plan|, |expenses|), checksum)
    {
      var plan, ratio, checksum := SimplifyExpenses(expenses, sha);
      NetMapZeroSum(RawTxs(expenses));
      PlanSettlesExactly(NetMap(RawTxs(expenses)));
      var records, total := PostSettlements(groupId, plan, checksum, d, now);
      store.SaveSettlements(records);
      SavingSettles(old(store.settlements), groupId, RawTxs(expenses), d.recordId, checksum, now);
      PlanMovesCredits(NetMap(RawTxs(expenses)));
      payload := SettledPayload(groupId, |plan|, total, "MaxHeap-O(NlogN)", ratio, checksum);
    }

    method ForgetGroup(groupId: string)
      modifies cache
      ensures var gone := {"group:" + groupId + ":balances", "group:" + groupId + ":debts"};
        cache.State() == Lazy(old(cache.store) - gone, old(cache.expiry) - gone)
    {
      var _ := cache.Delete("group:" + groupId + ":balances");
      var _ := cache.Delete("group:" + groupId + ":debts");
    }

    /**
     * `_handle_settlement`. Neither the zero-sum error nor a refused amount can occur: the settlements
     * of the group's own expenses are always posted, saved and announced.
     */
    method HandleSettlement(groupId: string, d: Draws, now: int, sha: string -> string)
      modifies ledger, store, outbox, cache
      ensures var expenses := ForGroup(old(store.expenses), groupId);
        var txs := RawTxs(expenses);
        var plan := Plan(NetMap(txs));
        var checksum := sha(ChecksumInput(plan));
        if groupId == "" || expenses == []
        then ledger.State() == old(ledger.State()) && store.State() == old(store.State())
          && outbox.State() == old(outbox.State()) && cache.State() == old(cache.State())
        else
          && ledger.State() == PostPlan(ledger.hash, old(ledger.State()), plan, d.ledgerIds, now)
          && store.State() == old(store.State()).(settlements := store.settlements)
          && SettlementSaved(old(store.settlements), store.settlements, groupId, txs, d.recordId, checksum, now)
          && (var payload := SettledPayload(groupId, |plan|, Total(Creditors(NetMap(txs))), "MaxHeap-O(NlogN)",
                                            Reduction(|plan|, |expenses|), checksum);
              outbox.State() == Appended(old(outbox.State()), Event(d.eventId, SETTLEMENT_COMPLETED, groupId, payload, false, now)))
          && (var gone := {"group:" + groupId + ":balances", "group:" + groupId + ":debts"};
              cache.State() == Lazy(old(cache.store) - gone, old(cache.expiry) - gone))
    {
      if groupId == "" {
        return;
      }
      var expenses := ForGroup(store.expenses, groupId);
      if expenses == [] {
        return;
      }
      var payload := Settle(groupId, expenses, d, now, sha);
      ForgetGroup(groupId);
      outbox.Append(d.eventId, SETTLEMENT_COMPLETED, groupId, payload, now);
    }
  }

  // ---- Meaning is preserved ----

  /** The journals of a plan give every wallet what its user receives less what they pay. */
  lemma {:induction false} PlanOnWallets(hash: string -> string, s: LedgerState, plan: seq<Settlement>, ids: nat -> Ids, now: int, u: UserId)
    requires forall p :: p in plan ==> p.amountCents >= 1
    ensures Balance(PostPlan(hash, s, plan, ids, now).entries, Wallet(u)) ==
            Balance(s.entries, Wallet(u)) + Received(plan, u) - Paid(plan, u)
  {
    if plan != [] {
      var n := |plan| - 1;
      var p := plan[n];
      var before := PostPlan(hash, s, plan[..n], ids, now);
      PlanOnWallets(hash, s, plan[..n], ids, now, u);
      ReceivedLast(plan, u);
      SettlementAccepted(hash, before, p, ids(n), now);
      PostedBalance(hash, before, SettlementSpecs(p.payerId, p.payeeId, p.amountCents, SettlementClearing(ids(n).clearing)),
                    SettlementText(p), ids(n), now, Wallet(u));
      SettlementOnAccount(p.payerId, p.payeeId, p.amountCents, ids(n).clearing, Wallet(u));
      WalletsDiffer(p.payerId, u);
      WalletsDiffer(p.payeeId, u);
    }
  }

  lemma {:induction false} AcceptedSpecs(payer: UserId, splits: seq<Split>, description: string, clearing: string)
    requires Accepted(Tx(payer, splits))
    ensures AmountsOk(DebtorSpecs(payer, splits, description, clearing)) && OthersTotal(payer, splits) >= 0
  {
    if splits != [] {
      AcceptedSpecs(payer, splits[..|splits| - 1], description, clearing);
    }
  }

  lemma {:induction false} AcceptedIsPosted(hash: string -> string, s: LedgerState, t: Tx, description: string, ids: Ids, now: int)
    requires Accepted(t)
    ensures PostExpense(hash, s, t.payerId, t.splits, description, ids, now).1.Posted?
    ensures AmountsOk(ExpenseSpecs(t.payerId, t.splits, description, ExpenseClearing(ids.clearing)))
  {
    AcceptedSpecs(t.payerId, t.splits, description, ExpenseClearing(ids.clearing));
    WrappersNeverUnbalanced(hash, s, ExpenseCall(t.payerId, t.splits, description, ids, now));
  }

  /** The journals of the original expenses, one after the other. */
  function PostExpenses(hash: string -> string, txs: seq<Tx>, description: nat -> string, ids: nat -> Ids, clock: nat -> int): LedgerState {
    if txs == [] then EMPTY_LEDGER else
      var n := |txs| - 1;
      PostExpense(hash, PostExpenses(hash, txs[..n], description, ids, clock), txs[n].payerId, txs[n].splits, description(n), ids(n), clock(n)).0
  }

  lemma {:induction false} ExpensesOnWallets(hash: string -> string, txs: seq<Tx>, description: nat -> string, ids: nat -> Ids, clock: nat -> int, u: UserId)
    requires forall t :: t in txs ==> Accepted(t)
    ensures Balance(PostExpenses(hash, txs, description, ids, clock).entries, Wallet(u)) == NetOf(txs, u)
  {
    if txs != [] {
      var n := |txs| - 1;
      var t := txs[n];
      var before := PostExpenses(hash, txs[..n], description, ids, clock);
      ExpensesOnWallets(hash, txs[..n], description, ids, clock, u);
      AcceptedIsPosted(hash, before, t, description(n), ids(n), clock(n));
      PostedBalance(hash, before, ExpenseSpecs(t.payerId, t.splits, description(n), ExpenseClearing(ids(n).clearing)),
                    description(n), ids(n), clock(n), Wallet(u));
      ExpenseOnWallet(t.payerId, t.splits, description(n), ids(n).clearing, u);
    }
  }

  /** The settlement journals of simplified debts, in an empty ledger, give every user their net balance. */
  lemma {:induction false} PlanMeansNet(hash: string -> string, txs: seq<Tx>, ids: nat -> Ids, now: int, u: UserId)
    ensures Balance(PostPlan(hash, EMPTY_LEDGER, Plan(NetMap(txs)), ids, now).entries, Wallet(u)) == NetOf(txs, u)
  {
    var net := NetMap(txs);
    NetMapZeroSum(txs);
    PlanSettlesExactly(net);
    PlanOnWallets(hash, EMPTY_LEDGER, Plan(net), ids, now, u);
    NetMapAmount(txs, u);
    assert Received(Plan(net), u) - Paid(Plan(net), u) == Amount(net, u);
  }

  /**
   * Simplification preserves the meaning of the debts: starting from empty ledgers, the settlement
   * journals of the simplified debts give every user the same wallet balance as the journals of all
   * the expenses.
   */
  lemma {:induction false} SettlementsMeanExpenses(hash: string -> string, txs: seq<Tx>, description: nat -> string, ids: nat -> Ids, clock: nat -> int,
                                ids': nat -> Ids, now: int, u: UserId)
    requires forall t :: t in txs ==> Accepted(t)
    ensures Balance(PostPlan(hash, EMPTY_LEDGER, Plan(NetMap(txs)), ids', now).entries, Wallet(u)) ==
            Balance(PostExpenses(hash, txs, description, ids, clock).entries, Wallet(u))
  {
    PlanMeansNet(hash, txs, ids', now, u);
    ExpensesOnWallets(hash, txs, description, ids, clock, u);
  }

  /** What settling a group posts, in an empty ledger. */
  ghost function GroupSettled(hash: string -> string, s: StoreState, g: string, ids: nat -> Ids, now: int): LedgerState {
    PostPlan(hash, EMPTY_LEDGER, Plan(NetMap(RawTxs(ForGroup(s.expenses, g)))), ids, now)
  }

  /** For every group that interleaved calls of the service can produce, settling it means what its expenses mean. */
  lemma {:induction false} GroupSettlementMeansExpenses(hash: string -> string, moves: seq<Calls.Move>, g: string, description: nat -> string, ids: nat -> Ids,
                                                        clock: nat -> int, ids': nat -> Ids, now: int, u: UserId)
    ensures var s := Calls.Exec(hash, moves).world.store;
      Balance(GroupSettled(hash, s, g, ids', now).entries, Wallet(u)) ==
      Balance(PostExpenses(hash, RawTxs(ForGroup(s.expenses, g)), description, ids, clock).entries, Wallet(u))
  {
    GroupIsAccepted(hash, moves, g);
    SettlementsMeanExpenses(hash, RawTxs(ForGroup(Calls.Exec(hash, moves).world.store.expenses, g)), description, ids, clock, ids', now, u);
  }

  /**
   * In every interleaving of calls, a user's wallet in the service's ledger, less the calls in flight,
   * is the sum over all groups of what the settlements of the group give that user: settling
   * everything moves exactly the money that the expenses moved.
   */
  lemma {:induction false} SettlingAllGroups(hash: string -> string, moves: seq<Calls.Move>, ids: string -> nat -> Ids, now: int, u: UserId)
    requires Calls.AllFree(hash, moves)
    ensures var c := Calls.Exec(hash, moves);
      Balance(c.world.ledger.entries, Wallet(u)) - Calls.FlightNet(c.flights, u) ==
      SumOver(c.world.store.groups.Keys, g => Balance(GroupSettled(hash, c.world.store, g, ids(g), now).entries, Wallet(u)))
  {
    var w := Calls.Exec(hash, moves).world;
    Calls.EveryInterleavingAgrees(hash, moves);
    forall g
      ensures Balance(GroupSettled(hash, w.store, g, ids(g), now).entries, Wallet(u)) == NetOf(RawTxs(ForGroup(w.store.expenses, g)), u)
    {
      PlanMeansNet(hash, RawTxs(ForGroup(w.store.expenses, g)), ids(g), now, u);
    }
    SumAgree(w.store.groups.Keys, g => NetOf(RawTxs(ForGroup(w.store.expenses, g)), u),
             g => Balance(GroupSettled(hash, w.store, g, ids(g), now).entries, Wallet(u)));
  }
}
