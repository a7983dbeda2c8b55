/** `simplify` over its two heaps, proved to return the plan that the balances determine. */
module DebtSimplifier {
  import opened Sums
  import opened Text
  import opened Heapq
  import opened StableSort
  import opened DebtMatching
  import opened ExactSettlement
  import opened NetBalances

  datatype SimplifyResult = SimplifyResult(
    settlements: seq<Settlement>,
    originalTransactionCount: int,
    simplifiedTransactionCount: int,
    reductionRatio: real,
    checksum: string)

  datatype Outcome = Simplified(value: SimplifyResult) | ZeroSumViolation(total: int)

  /** The order of the checksum's sort: by payer, then payee. */
  predicate PairLe(a: Settlement, b: Settlement) {
    || Before(a.payerId, b.payerId)
    || (a.payerId == b.payerId && (a.payeeId == b.payeeId || Before(a.payeeId, b.payeeId)))
  }

  function Line(s: Settlement): string {
    s.payerId + ":" + s.payeeId + ":" + IntText(s.amountCents)
  }

  function Lines(plan: seq<Settlement>): seq<string> {
    seq(|plan|, i requires 0 <= i < |plan| => Line(plan[i]))
  }

  /** The text that is hashed into the checksum. */
  function ChecksumInput(plan: seq<Settlement>): string {
    Join(Lines(Sort(plan, PairLe)))
  }

  /** The number of debts the reduction is measured against. */
  function ReportedOriginal(participants: nat, originalTxCount: int): int {
    if originalTxCount > 0 then originalTxCount else
      var pairs := participants * (participants - 1) / 2;
      if pairs < 1 then 1 else pairs
  }

  lemma {:induction false} ReportedIs(participants: nat, originalTxCount: int)
    ensures ReportedOriginal(participants, originalTxCount) > 0
    ensures ReportedOriginal(participants, originalTxCount) ==
            (if originalTxCount > 0 then originalTxCount else if participants < 2 then 1 else participants * (participants - 1) / 2)
  {
    if participants >= 2 {
      assert participants * (participants - 1) >= 2 * 1;
    }
  }

  /** A heap holds one tuple (-amount, id) for every user of m. */
  ghost predicate Holds(heap: seq<Item>, m: map<UserId, int>) {
    multiset(heap) == multiset(Items(m))
  }

  ghost function Items(m: map<UserId, int>): set<Item> {
    set u | u in m :: Item(-m[u], u)
  }

  lemma {:induction false} ItemsAdd(m: map<UserId, int>, u: UserId, a: int)
    requires u !in m
    ensures multiset(Items(m[u := a])) == multiset(Items(m)) + multiset{Item(-a, u)}
  {
    var x := Item(-a, u);
    assert x !in Items(m);
    assert Items(m[u := a]) == Items(m) + {x} by {
      forall y | y in Items(m)
        ensures y in Items(m[u := a])
      {
        var v :| v in m && y == Item(-m[v], v);
        assert v in m[u := a] && m[u := a][v] == m[v];
      }
      assert u in m[u := a];
    }
  }

  lemma {:induction false} ItemsRemove(m: map<UserId, int>, u: UserId)
    requires u in m
    ensures multiset(Items(m - {u})) == multiset(Items(m)) - multiset{Item(-m[u], u)}
  {
    ItemsAdd(m - {u}, u, m[u]);
    assert (m - {u})[u := m[u]] == m;
  }

  /** The least tuple of the heap is the user with the largest amount. */
  lemma {:induction false} LeastIsTop(heap: seq<Item>, m: map<UserId, int>, x: Item)
    requires Holds(heap, m) && x in heap
    requires forall y :: y in heap ==> y == x || Less(x, y)
    ensures IsTop(m, x.uid) && x.key == -m[x.uid]
  {
    assert x in multiset(heap) && x in Items(m);
    forall v | v in m && v != x.uid
      ensures m[v] < m[x.uid] || (m[v] == m[x.uid] && Before(x.uid, v))
    {
      var y := Item(-m[v], v);
      assert y in Items(m) && y in multiset(heap) && y in heap;
    }
  }

  lemma {:induction false} HeapSize(heap: seq<Item>, m: map<UserId, int>)
    requires Holds(heap, m)
    ensures heap == [] <==> m == map[]
  {
    if heap != [] {
      assert heap[0] in multiset(heap) && heap[0] in Items(m);
    }
    if m != map[] {
      var u :| u in m;
      assert Item(-m[u], u) in Items(m);
      assert Item(-m[u], u) in multiset(heap);
    }
  }

  /** heappop of the top user, and heappush of what is left of them. */
  method SettleTop(heap: seq<Item>, ghost m: map<UserId, int>, x: Item, ghost whole: seq<Item>, a: int)
    returns (heap': seq<Item>, ghost pushed: nat)
    requires Holds(whole, m) && x in whole && x.uid in m && x.key == -m[x.uid]
    requires multiset(heap) == multiset(whole) - multiset{x}
    ensures Holds(heap', Reduce(m, x.uid, a))
    ensures pushed == if -x.key - a > 0 then 1 else 0
  {
    ItemsRemove(m, x.uid);
    var residual := -x.key - a;
    if residual > 0 {
      heap' := Push(heap, Item(-residual, x.uid));
      pushed := 1;
      ItemsAdd(m - {x.uid}, x.uid, residual);
      assert (m - {x.uid})[x.uid := residual] == Reduce(m, x.uid, a);
    } else {
      heap', pushed := heap, 0;
    }
  }

  lemma {:induction false} SumNextElement(order: seq<UserId>, i: nat, f: UserId -> int)
    requires i < |order| && order[i] !in order[..i]
    ensures SumOver(Elems(order[..i + 1]), f) == SumOver(Elems(order[..i]), f) + f(order[i])
  {
    assert Elems(order[..i + 1]) == Elems(order[..i]) + {order[i]};
    assert Elems(order[..i + 1]) - {order[i]} == Elems(order[..i]);
    SumTakeOut(Elems(order[..i + 1]), f, order[i]);
  }

  /** sum(net_balances.values()) */
  method SumValues(order: seq<UserId>, net: map<UserId, int>) returns (total: int)
    requires IsDict(order, net)
    ensures total == Total(net)
  {
    total := 0;
    ghost var f := u => Amount(net, u);
    for i := 0 to |order|
      invariant total == SumOver(Elems(order[..i]), f)
    {
      total := total + net[order[i]];
      SumNextElement(order, i, f);
    }
    assert order[..|order|] == order;
  }

  /** Fills the two heaps from the dictionary. */
  method BuildHeaps(order: seq<UserId>, net: map<UserId, int>)
    returns (creditors: seq<Item>, debtors: seq<Item>)
    requires IsDict(order, net)
    ensures Holds(creditors, Creditors(net)) && Holds(debtors, Debtors(net))
  {
    creditors, debtors := [], [];
    ghost var c: map<UserId, int>, d: map<UserId, int> := map[], map[];
    for i := 0 to |order|
      invariant Holds(creditors, c) && Holds(debtors, d)
      invariant c == map u | u in order[..i] && net[u] > 0 :: net[u]
      invariant d == map u | u in order[..i] && net[u] < 0 :: -net[u]
    {
      var uid := order[i];
      var n := net[uid];
      assert uid !in order[..i];
      assert forall u :: u in order[..i + 1] <==> u in order[..i] || u == uid;
      if n > 0 {
        creditors := Push(creditors, Item(-n, uid));
        ItemsAdd(c, uid, n);
        c := c[uid := n];
      } else if n < 0 {
        debtors := Push(debtors, Item(n, uid));
        ItemsAdd(d, uid, -n);
        d := d[uid := -n];
      }
    }
    assert order[..|order|] == order;
    assert c == Creditors(net) && d == Debtors(net);
  }

  /** One turn of the matching loop. */
  method SettleRound(creditors: seq<Item>, debtors: seq<Item>, ghost c: map<UserId, int>, ghost d: map<UserId, int>)
    returns (creditors': seq<Item>, debtors': seq<Item>, s: Settlement, ghost pushed: nat)
    requires Holds(creditors, c) && Holds(debtors, d) && creditors != [] && debtors != []
    requires c != map[] && d != map[] && Positive(c) && Positive(d)
    ensures s == Settlement(Top(d), Top(c), RoundAmount(c, d))
    ensures Holds(creditors', Reduce(c, Top(c), s.amountCents))
    ensures Holds(debtors', Reduce(d, Top(d), s.amountCents))
    ensures pushed == if c[Top(c)] == d[Top(d)] then 0 else 1
  {
    var credit, creditorsRest := Pop(creditors);
    var debt, debtorsRest := Pop(debtors);
    LeastIsTop(creditors, c, credit);
    LeastIsTop(debtors, d, debt);
    TopUnique(c, credit.uid, Top(c));
    TopUnique(d, debt.uid, Top(d));
    var creditAmount, debtAmount := -credit.key, -debt.key;
    var settled := Min(creditAmount, debtAmount);
    // The source skips the round here when settled < 1; that cannot happen.
    assert settled >= 1;
    s := Settlement(debt.uid, credit.uid, settled);
    ghost var p, q;
    creditors', p := SettleTop(creditorsRest, c, credit, creditors, settled);
    debtors', q := SettleTop(debtorsRest, d, debt, debtors, settled);
    pushed := p + q;
  }

  lemma {:induction false} AfterRound(m: map<UserId, int>, n: map<UserId, int>, emitted: seq<Settlement>)
    returns (m': map<UserId, int>, n': map<UserId, int>)
    requires m != map[] && n != map[] && Level(m, n)
    ensures var a := RoundAmount(m, n);
      && m' == Reduce(m, Top(m), a) && n' == Reduce(n, Top(n), a)
      && emitted + Match(m, n) == emitted + [Settlement(Top(n), Top(m), a)] + Match(m', n')
    ensures Level(m', n')
    ensures |m'| + |n'| == |m| + |n| - if m[Top(m)] == n[Top(n)] then 2 else 1
  {
    var a := RoundAmount(m, n);
    Round(m, n);
    m', n' := Reduce(m, Top(m), a), Reduce(n, Top(n), a);
  }

  /** The matching loop, from the filled heaps to two empty ones. */
  method MatchHeaps(creditors: seq<Item>, debtors: seq<Item>, ghost c: map<UserId, int>, ghost d: map<UserId, int>)
    returns (settlements: seq<Settlement>, ghost pops: nat, ghost pushes: nat)
    requires Holds(creditors, c) && Holds(debtors, d) && Level(c, d)
    ensures settlements == Match(c, d)
    ensures pops == 2 * |settlements| && pushes + |c| + |d| == pops
  {
    var cs, ds := creditors, debtors;
    ghost var m, n := c, d;
    settlements, pops, pushes := [], 0, 0;
    HeapSize(cs, m);
    HeapSize(ds, n);
    while cs != [] && ds != []
      invariant Holds(cs, m) && Holds(ds, n) && Level(m, n)
      invariant (cs == [] <==> m == map[]) && (ds == [] <==> n == map[])
      invariant settlements + Match(m, n) == Match(c, d)
      invariant pops == 2 * |settlements| && pushes + |c| + |d| == pops + |m| + |n|
      decreases |m| + |n|
    {
      ghost var p;
      var s;
      ghost var m', n' := AfterRound(m, n, settlements);
      cs, ds, s, p := SettleRound(cs, ds, m, n);
      settlements := settlements + [s];
      pops, pushes := pops + 2, pushes + p;
      m, n := m', n';
      HeapSize(cs, m);
      HeapSize(ds, n);
    }
    EmptyTogether(m, n);
  }

  /**
   * `simplify`. The result depends on the balances only, not on the insertion order of the
   * dictionary. The ghost results count the heap operations of the whole call.
   */
  method Simplify(order: seq<UserId>, net: map<UserId, int>, originalTxCount: int, sha: string -> string)
    returns (r: Outcome, ghost pops: nat, ghost pushes: nat)
    requires IsDict(order, net)
    ensures Total(net) != 0 ==> r == ZeroSumViolation(Total(net))
    ensures Total(net) == 0 ==>
              && r.Simplified? && r.value.settlements == Plan(net)
              && r.value.checksum == sha(ChecksumInput(Plan(net)))
              && r.value.originalTransactionCount == (if originalTxCount > 0 then originalTxCount else if |net| < 2 then 1 else |net| * (|net| - 1) / 2)
              && r.value.simplifiedTransactionCount == |Plan(net)|
              && r.value.originalTransactionCount > 0
              && r.value.reductionRatio == 1.0 - |Plan(net)| as real / r.value.originalTransactionCount as real
    ensures Total(net) == 0 ==>
              && pops == pushes == 2 * |Plan(net)|
              && (Involved(net) != {} ==> pops <= 2 * |Involved(net)| - 2)
  {
    var total := SumValues(order, net);
    if total != 0 {
      return ZeroSumViolation(total), 0, 0;
    }
    var creditors, debtors := BuildHeaps(order, net);
    ghost var c, d := Creditors(net), Debtors(net);
    SidesTotal(net);
    PlanLength(net);
    var settlements;
    settlements, pops, pushes := MatchHeaps(creditors, debtors, c, d);
    pushes := |c| + |d| + pushes;
    ReportedIs(|net|, originalTxCount);
    var orig := ReportedOriginal(|net|, originalTxCount);
    r := Simplified(SimplifyResult(settlements, orig, |settlements|,
                                   1.0 - |settlements| as real / orig as real,
                                   sha(ChecksumInput(settlements))));
  }

  /**
   * The checksum text does not depend on the order in which payments were emitted: since no pair
   * occurs twice, the sort has no ties.
   */
  lemma {:induction false} ChecksumIgnoresOrder(net: map<UserId, int>, other: seq<Settlement>)
    requires multiset(other) == multiset(Plan(net))
    ensures ChecksumInput(other) == ChecksumInput(Plan(net))
  {
    PairLeTotalOrder();
    var s, t := Sort(Plan(net), PairLe), Sort(other, PairLe);
    SortSorts(Plan(net), PairLe);
    SortSorts(other, PairLe);
    PlanShape(net);
    forall i, j | 0 <= i < |s| && 0 <= j < |s| && PairLe(s[i], s[j]) && PairLe(s[j], s[i])
      ensures s[i] == s[j]
    {
      PairLeTie(s[i], s[j]);
      assert s[i] in multiset(s) && s[j] in multiset(s);
      assert s[i] in Plan(net) && s[j] in Plan(net);
    }
    SortedUnique(s, t, PairLe);
  }

  lemma {:induction false} PairLeTie(a: Settlement, b: Settlement)
    requires PairLe(a, b) && PairLe(b, a)
    ensures a.payerId == b.payerId && a.payeeId == b.payeeId
  {
    if Before(a.payerId, b.payerId) {
      BeforeAsymmetric(a.payerId, b.payerId);
    }
    if Before(b.payerId, a.payerId) {
      BeforeAsymmetric(b.payerId, a.payerId);
    }
    if Before(a.payeeId, b.payeeId) {
      BeforeAsymmetric(a.payeeId, b.payeeId);
    }
  }

  lemma {:induction false} PairLeTotalOrder()
    ensures TotalOrder(PairLe)
  {
    forall a, b
      ensures PairLe(a, b) || PairLe(b, a)
    {
      BeforeTotal(a.payerId, b.payerId);
      BeforeTotal(a.payeeId, b.payeeId);
    }
    forall a, b, c | PairLe(a, b) && PairLe(b, c)
      ensures PairLe(a, c)
    {
      if Before(a.payerId, b.payerId) && Before(b.payerId, c.payerId) {
        BeforeTransitive(a.payerId, b.payerId, c.payerId);
      }
      if Before(a.payeeId, b.payeeId) && Before(b.payeeId, c.payeeId) {
        BeforeTransitive(a.payeeId, b.payeeId, c.payeeId);
      }
    }
  }
}
