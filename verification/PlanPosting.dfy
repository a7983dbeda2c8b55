/** The journals and the records of a plan. */
module PlanPosting {
  import opened DebtMatching
  import opened ExactSettlement
  import opened NetBalances
  import opened Ledger
  import opened LedgerRuns
  import opened JournalLines
  import opened Store

  // ---- Posting a plan ----

  function SettlementText(s: Settlement): string {
    "Settlement: " + s.payerId + " -> " + s.payeeId
  }

  /** The settlement journals of a plan, one after the other. */
  function PostPlan(hash: string -> string, s: LedgerState, plan: seq<Settlement>, ids: nat -> Ids, now: int): LedgerState {
    if plan == [] then s else
      var n := |plan| - 1;
      PostSettlement(hash, PostPlan(hash, s, plan[..n], ids, now), plan[n].payerId, plan[n].payeeId, plan[n].amountCents,
                     SettlementText(plan[n]), ids(n), now).0
  }

  function PlanTotal(plan: seq<Settlement>): int {
    if plan == [] then 0 else PlanTotal(plan[..|plan| - 1]) + plan[|plan| - 1].amountCents
  }

  /** How many payments the plan saves, as a part of the expenses. */
  function Reduction(payments: nat, expenses: nat): real
    requires expenses > 0
  {
    1.0 - payments as real / expenses as real
  }

  /** Zero exactly when as many payments as expenses are left; negative when there are more. */
  lemma {:induction false} ReductionIs(payments: nat, expenses: nat)
    requires expenses > 0
    ensures Reduction(payments, expenses) * expenses as real == (expenses - payments) as real
    ensures Reduction(payments, expenses) == 0.0 <==> payments == expenses
    ensures Reduction(payments, expenses) < 0.0 <==> payments > expenses
  {
    var q := payments as real / expenses as real;
    assert q * expenses as real == payments as real;
  }

  /** The i-th record of a settled group. */
  function Record(groupId: string, s: Settlement, id: string, checksum: string, now: int): SettlementRecord {
    SettlementRecord(id, groupId, s.payerId, s.payeeId, s.amountCents, true, "MaxHeap-O(NlogN)", checksum, now)
  }

  function Records(groupId: string, plan: seq<Settlement>, recordId: nat -> string, checksum: string, now: int): seq<SettlementRecord> {
    seq(|plan|, i requires 0 <= i < |plan| => Record(groupId, plan[i], recordId(i), checksum, now))
  }

  /** What some records say a user received, and what they say the user paid. */
  function ReceivedIn(records: seq<SettlementRecord>, u: UserId): int {
    if records == [] then 0 else
      var r := records[|records| - 1];
      ReceivedIn(records[..|records| - 1], u) + if r.payeeId == u then r.amountCents else 0
  }

  function PaidIn(records: seq<SettlementRecord>, u: UserId): int {
    if records == [] then 0 else
      var r := records[|records| - 1];
      PaidIn(records[..|records| - 1], u) + if r.payerId == u then r.amountCents else 0
  }

  /** The records are the payments of the plan one by one, executed. */
  ghost predicate RecordsArePayments(records: seq<SettlementRecord>, plan: seq<Settlement>, groupId: string, recordId: nat -> string, checksum: string, now: int) {
    && |records| == |plan|
    && forall i :: 0 <= i < |plan| ==>
         && records[i].payerId == plan[i].payerId && records[i].payeeId == plan[i].payeeId
         && records[i].amountCents == plan[i].amountCents && records[i].isExecuted
         && records[i].id == recordId(i) && records[i].executedAt == now
         && records[i].groupId == groupId && records[i].checksum == checksum && records[i].algorithm == "MaxHeap-O(NlogN)"
  }

  /** Debtors pay, creditors receive, and every user comes out with exactly their net balance. */
  ghost predicate RecordsSettle(records: seq<SettlementRecord>, txs: seq<Tx>) {
    && (forall u :: ReceivedIn(records, u) - PaidIn(records, u) == NetOf(txs, u))
    && forall r :: r in records ==> NetOf(txs, r.payerId) < 0 < NetOf(txs, r.payeeId) && r.amountCents >= 1
  }

  /** What settling these expenses saves. */
  ghost predicate SettlementSaved(before: map<string, SettlementRecord>, after: map<string, SettlementRecord>, groupId: string, txs: seq<Tx>,
                                  recordId: nat -> string, checksum: string, now: int) {
    exists records: seq<SettlementRecord> ::
      && after == Saved(before, records)
      && RecordsArePayments(records, Plan(NetMap(txs)), groupId, recordId, checksum, now)
      && RecordsSettle(records, txs)
  }

  /** One more settlement posts one more journal. */
  lemma {:induction false} PostPlanMore(hash: string -> string, s: LedgerState, plan: seq<Settlement>, i: nat, ids: nat -> Ids, now: int)
    requires i < |plan|
    ensures PostPlan(hash, s, plan[..i + 1], ids, now) ==
            PostSettlement(hash, PostPlan(hash, s, plan[..i], ids, now), plan[i].payerId, plan[i].payeeId, plan[i].amountCents,
                           SettlementText(plan[i]), ids(i), now).0
  {
    assert plan[..i + 1][..i] == plan[..i];
  }

  /** One more settlement is one more record and one more amount. */
  lemma {:induction false} RecordsMore(groupId: string, plan: seq<Settlement>, i: nat, recordId: nat -> string, checksum: string, now: int)
    requires i < |plan|
    ensures Records(groupId, plan[..i + 1], recordId, checksum, now) ==
            Records(groupId, plan[..i], recordId, checksum, now) + [Record(groupId, plan[i], recordId(i), checksum, now)]
    ensures PlanTotal(plan[..i + 1]) == PlanTotal(plan[..i]) + plan[i].amountCents
  {
    assert plan[..i + 1][..i] == plan[..i];
  }

  /** A settlement of at least a cent is always accepted. */
  lemma {:induction false} SettlementAccepted(hash: string -> string, s: LedgerState, p: Settlement, ids: Ids, now: int)
    requires p.amountCents >= 1
    ensures PostSettlement(hash, s, p.payerId, p.payeeId, p.amountCents, SettlementText(p), ids, now).1.Posted?
  {
    WrappersNeverUnbalanced(hash, s, SettlementCall(p.payerId, p.payeeId, p.amountCents, SettlementText(p), ids, now));
    var specs := SettlementSpecs(p.payerId, p.payeeId, p.amountCents, SettlementClearing(ids.clearing));
    assert AmountsOk(specs);
  }

  lemma {:induction false} ReceivedLast(plan: seq<Settlement>, u: UserId)
    requires plan != []
    ensures var n := |plan| - 1;
      && Received(plan, u) == Received(plan[..n], u) + (if plan[n].payeeId == u then plan[n].amountCents else 0)
      && Paid(plan, u) == Paid(plan[..n], u) + (if plan[n].payerId == u then plan[n].amountCents else 0)
    decreases |plan|
  {
    var n := |plan| - 1;
    if n > 0 {
      ReceivedLast(plan[1..], u);
      assert plan[1..][..n - 1] == plan[..n][1..];
    } else {
      assert plan[1..] == [] && plan[..0] == [];
    }
  }

  lemma {:induction false} RecordsAddUp(groupId: string, plan: seq<Settlement>, recordId: nat -> string, checksum: string, now: int, u: UserId)
    ensures var records := Records(groupId, plan, recordId, checksum, now);
      ReceivedIn(records, u) == Received(plan, u) && PaidIn(records, u) == Paid(plan, u)
  {
    var records := Records(groupId, plan, recordId, checksum, now);
    if plan == [] {
      assert records == [];
    } else {
      var n := |plan| - 1;
      assert records[..n] == Records(groupId, plan[..n], recordId, checksum, now);
      assert records[n] == Record(groupId, plan[n], recordId(n), checksum, now);
      RecordsAddUp(groupId, plan[..n], recordId, checksum, now, u);
      ReceivedLast(plan, u);
    }
  }

  /** Every user's records come to what the user's expenses come to. */
  lemma {:induction false} RecordsBalance(groupId: string, txs: seq<Tx>, recordId: nat -> string, checksum: string, now: int, u: UserId)
    ensures var records := Records(groupId, Plan(NetMap(txs)), recordId, checksum, now);
      ReceivedIn(records, u) - PaidIn(records, u) == NetOf(txs, u)
  {
    var net := NetMap(txs);
    NetMapZeroSum(txs);
    PlanSettlesExactly(net);
    RecordsAddUp(groupId, Plan(net), recordId, checksum, now, u);
    NetMapAmount(txs, u);
    assert Received(Plan(net), u) - Paid(Plan(net), u) == Amount(net, u);
  }

  lemma {:induction false} PaymentsByDebtors(txs: seq<Tx>, p: Settlement)
    requires p in Plan(NetMap(txs))
    ensures NetOf(txs, p.payerId) < 0 < NetOf(txs, p.payeeId) && p.amountCents >= 1
  {
    NetMapZeroSum(txs);
    PlanSettlesExactly(NetMap(txs));
    NetMapAmount(txs, p.payerId);
    NetMapAmount(txs, p.payeeId);
  }

  lemma {:induction false} RecordsDoSettle(groupId: string, txs: seq<Tx>, recordId: nat -> string, checksum: string, now: int)
    ensures RecordsSettle(Records(groupId, Plan(NetMap(txs)), recordId, checksum, now), txs)
  {
    var plan := Plan(NetMap(txs));
    var records := Records(groupId, plan, recordId, checksum, now);
    forall u
      ensures ReceivedIn(records, u) - PaidIn(records, u) == NetOf(txs, u)
    {
      RecordsBalance(groupId, txs, recordId, checksum, now, u);
    }
    forall r | r in records
      ensures NetOf(txs, r.payerId) < 0 < NetOf(txs, r.payeeId) && r.amountCents >= 1
    {
      var i: nat :| i < |records| && records[i] == r;
      assert r == Record(groupId, plan[i], recordId(i), checksum, now);
      PaymentsByDebtors(txs, plan[i]);
    }
  }

  /** The records saved for a group are the payments of the plan, and they settle the group's expenses. */
  lemma {:induction false} SavingSettles(before: map<string, SettlementRecord>, groupId: string, txs: seq<Tx>,
                                         recordId: nat -> string, checksum: string, now: int)
    ensures SettlementSaved(before, Saved(before, Records(groupId, Plan(NetMap(txs)), recordId, checksum, now)), groupId, txs, recordId, checksum, now)
  {
    var records := Records(groupId, Plan(NetMap(txs)), recordId, checksum, now);
    RecordsDoSettle(groupId, txs, recordId, checksum, now);
    assert RecordsArePayments(records, Plan(NetMap(txs)), groupId, recordId, checksum, now);
  }

  lemma {:induction false} PlanTotalFirst(plan: seq<Settlement>)
    requires plan != []
    ensures PlanTotal(plan) == plan[0].amountCents + PlanTotal(plan[1..])
  {
    var n := |plan| - 1;
    if n > 0 {
      PlanTotalFirst(plan[..n]);
      assert plan[1..][..n - 1] == plan[..n][1..];
    }
  }

  lemma {:induction false} MatchMovesCredits(c: map<UserId, int>, d: map<UserId, int>)
    requires Level(c, d)
    ensures PlanTotal(Match(c, d)) == Total(c)
    decreases |c| + |d|
  {
    EmptyTogether(c, d);
    if c != map[] && d != map[] {
      var a := RoundAmount(c, d);
      Round(c, d);
      var c', d' := Reduce(c, Top(c), a), Reduce(d, Top(d), a);
      MatchMovesCredits(c', d');
      PlanTotalFirst(Match(c, d));
      assert Match(c, d)[1..] == Match(c', d');
    }
  }

  /** The money that changes hands is the sum of all positive balances. */
  lemma {:induction false} PlanMovesCredits(net: map<UserId, int>)
    requires Total(net) == 0
    ensures PlanTotal(Plan(net)) == Total(Creditors(net))
  {
    PlanSettlesExactly(net);
    MatchMovesCredits(Creditors(net), Debtors(net));
  }

  /** The i-th payment's four lines, from this position on. */
  ghost predicate LinesAt(es: seq<LedgerEntry>, base: nat, plan: seq<Settlement>, ids: nat -> Ids, i: nat) {
    && i < |plan| && base + 4 * i + 4 <= |es|
    && SettlementLinesAre(es[base + 4 * i..base + 4 * i + 4], plan[i].payerId, plan[i].payeeId, plan[i].amountCents,
                          "SETTLEMENT_CLEARING:" + ids(i).clearing)
  }

  ghost predicate AllLinesAt(es: seq<LedgerEntry>, base: nat, plan: seq<Settlement>, ids: nat -> Ids) {
    forall i :: 0 <= i < |plan| ==> LinesAt(es, base, plan, ids, i)
  }

  lemma {:induction false} LinesMore(es: seq<LedgerEntry>, more: seq<LedgerEntry>, base: nat, plan: seq<Settlement>, ids: nat -> Ids)
    requires plan != [] && |es| == base + 4 * (|plan| - 1) && AllLinesAt(es, base, plan[..|plan| - 1], ids)
    requires var n := |plan| - 1;
      SettlementLinesAre(more, plan[n].payerId, plan[n].payeeId, plan[n].amountCents, "SETTLEMENT_CLEARING:" + ids(n).clearing)
    ensures AllLinesAt(es + more, base, plan, ids)
  {
    var n := |plan| - 1;
    assert (es + more)[base + 4 * n..base + 4 * n + 4] == more;
    forall i | 0 <= i < n
      ensures LinesAt(es + more, base, plan, ids, i)
    {
      assert LinesAt(es, base, plan[..n], ids, i);
      assert (es + more)[base + 4 * i..base + 4 * i + 4] == es[base + 4 * i..base + 4 * i + 4];
    }
  }

  /** What the last payment of a plan posts. */
  lemma {:induction false} LastPosting(hash: string -> string, s: LedgerState, plan: seq<Settlement>, ids: nat -> Ids, now: int) returns (es: seq<LedgerEntry>)
    requires plan != [] && plan[|plan| - 1].amountCents >= 1
    ensures var n := |plan| - 1;
      var before, after := PostPlan(hash, s, plan[..n], ids, now), PostPlan(hash, s, plan, ids, now);
      && after.entries == before.entries + es
      && after.journals == before.journals[ids(n).journal := Journal(ids(n).journal, es, "Settlement: " + plan[n].payerId + " -> " + plan[n].payeeId, now)]
      && SettlementLinesAre(es, plan[n].payerId, plan[n].payeeId, plan[n].amountCents, "SETTLEMENT_CLEARING:" + ids(n).clearing)
  {
    var n := |plan| - 1;
    var p, before := plan[n], PostPlan(hash, s, plan[..n], ids, now);
    SettlementLines(hash, before, p.payerId, p.payeeId, p.amountCents, SettlementText(p), ids(n), now);
    es := PostSettlement(hash, before, p.payerId, p.payeeId, p.amountCents, SettlementText(p), ids(n), now).1.journal.entries;
  }

  /** Each payment of a plan puts its four lines into the ledger, in the order of the plan. */
  lemma {:induction false} PlanLines(hash: string -> string, s: LedgerState, plan: seq<Settlement>, ids: nat -> Ids, now: int)
    requires forall p :: p in plan ==> p.amountCents >= 1
    ensures var es := PostPlan(hash, s, plan, ids, now).entries;
      && |es| == |s.entries| + 4 * |plan| && es[..|s.entries|] == s.entries
      && AllLinesAt(es, |s.entries|, plan, ids)
  {
    if plan != [] {
      var n, base := |plan| - 1, |s.entries|;
      var before := PostPlan(hash, s, plan[..n], ids, now).entries;
      PlanLines(hash, s, plan[..n], ids, now);
      var more := LastPosting(hash, s, plan, ids, now);
      assert (before + more)[..base] == before[..base];
      LinesMore(before, more, base, plan, ids);
    }
  }

  /** The i-th payment's journal is found under its id, with what it is for. */
  ghost predicate JournalAt(journals: map<string, Journal>, plan: seq<Settlement>, ids: nat -> Ids, i: nat) {
    && i < |plan| && ids(i).journal in journals
    && var j := journals[ids(i).journal];
      && j.description == "Settlement: " + plan[i].payerId + " -> " + plan[i].payeeId
      && SettlementLinesAre(j.entries, plan[i].payerId, plan[i].payeeId, plan[i].amountCents, "SETTLEMENT_CLEARING:" + ids(i).clearing)
  }

  lemma {:induction false} JournalStays(journals: map<string, Journal>, plan: seq<Settlement>, ids: nat -> Ids, i: nat, more: Journal)
    requires i < |plan| - 1 && JournalAt(journals, plan[..|plan| - 1], ids, i) && ids(|plan| - 1).journal != ids(i).journal
    ensures JournalAt(journals[ids(|plan| - 1).journal := more], plan, ids, i)
  {
  }

  /** Every payment has its journal, unless a later one draws the same id. */
  lemma {:induction false} PlanJournals(hash: string -> string, s: LedgerState, plan: seq<Settlement>, ids: nat -> Ids, now: int, i: nat)
    requires forall p :: p in plan ==> p.amountCents >= 1
    requires i < |plan| && forall j :: i < j < |plan| ==> ids(j).journal != ids(i).journal
    ensures JournalAt(PostPlan(hash, s, plan, ids, now).journals, plan, ids, i)
  {
    var n := |plan| - 1;
    var es := LastPosting(hash, s, plan, ids, now);
    if i < n {
      var before := PostPlan(hash, s, plan[..n], ids, now).journals;
      PlanJournals(hash, s, plan[..n], ids, now, i);
      JournalStays(before, plan, ids, i, PostPlan(hash, s, plan, ids, now).journals[ids(n).journal]);
    }
  }
}
