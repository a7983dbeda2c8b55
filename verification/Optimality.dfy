/**
 * How few payments can settle a balance map, and when the greedy plan is that short. The
 * documentation calls the plan the optimal minimum; that fails for some balances, so the exact
 * condition is proved instead.
 */
module Optimality {
  import opened Sums
  import opened DebtMatching
  import opened ExactSettlement

  /** Any payments of at least a cent that settle every balance, even through other users. */
  ghost predicate Settling(plan: seq<Settlement>, net: map<UserId, int>) {
    (forall s :: s in plan ==> s.amountCents >= 1) && SettlesExactly(plan, net)
  }

  function Flow(plan: seq<Settlement>, u: UserId): int {
    Received(plan, u) - Paid(plan, u)
  }

  ghost predicate ZeroSum(s: set<UserId>, net: map<UserId, int>) {
    SumOver(s, u => Amount(net, u)) == 0
  }

  /** The members of the group called l. */
  function Group(lab: map<UserId, UserId>, l: UserId): set<UserId> {
    set u | u in lab && lab[u] == l
  }

  /** Everyone with a balance is put into a group, and every group nets to zero. */
  ghost predicate IsGrouping(lab: map<UserId, UserId>, net: map<UserId, int>) {
    lab.Keys == Involved(net) && forall l :: l in lab.Values ==> ZeroSum(Group(lab, l), net)
  }

  // ---- Users joined by payments ----

  /** A name for the component of x in the graph of payments. */
  function Label(plan: seq<Settlement>, x: UserId): UserId {
    if plan == [] then x else
      var l := Label(plan[1..], x);
      if l == Label(plan[1..], plan[0].payerId) then Label(plan[1..], plan[0].payeeId) else l
  }

  lemma {:induction false} PaymentsJoin(plan: seq<Settlement>)
    ensures forall s :: s in plan ==> Label(plan, s.payerId) == Label(plan, s.payeeId)
  {
    if plan != [] {
      PaymentsJoin(plan[1..]);
      forall s | s in plan
        ensures Label(plan, s.payerId) == Label(plan, s.payeeId)
      {
        assert s == plan[0] || s in plan[1..];
      }
    }
  }

  function Labels(s: set<UserId>, plan: seq<Settlement>): set<UserId> {
    set x | x in s :: Label(plan, x)
  }

  /** m users in one component need m - 1 payments: each payment removes at most one label. */
  lemma {:induction false} EachPaymentJoinsTwo(s: set<UserId>, plan: seq<Settlement>)
    ensures |Labels(s, plan)| + |plan| >= |s|
  {
    if plan == [] {
      assert Labels(s, plan) == s;
    } else {
      EachPaymentJoinsTwo(s, plan[1..]);
      var gone := Label(plan[1..], plan[0].payerId);
      forall l | l in Labels(s, plan[1..]) - {gone}
        ensures l in Labels(s, plan)
      {
        var x :| x in s && l == Label(plan[1..], x);
        assert Label(plan, x) == l;
      }
      SubsetSize(Labels(s, plan[1..]) - {gone}, Labels(s, plan));
    }
  }

  function Moved(s: Settlement, u: UserId): int {
    (if s.payeeId == u then s.amountCents else 0) - (if s.payerId == u then s.amountCents else 0)
  }

  /** A set that no payment leaves or enters nets to zero. */
  lemma {:induction false} ClosedSetNets(k: set<UserId>, plan: seq<Settlement>)
    requires forall s :: s in plan ==> (s.payerId in k <==> s.payeeId in k)
    ensures SumOver(k, u => Flow(plan, u)) == 0
  {
    var f := u => Flow(plan, u);
    if plan == [] {
      SumZero(k, f);
    } else {
      var s := plan[0];
      var g, h := u => Flow(plan[1..], u), u => Moved(s, u);
      assert s in plan;
      ClosedSetNets(k, plan[1..]);
      SumAdd(k, g, h, f);
      if s.payerId in k && s.payerId != s.payeeId {
        SumTakeOut(k, h, s.payerId);
        SumTakeOut(k - {s.payerId}, h, s.payeeId);
        SumZero(k - {s.payerId} - {s.payeeId}, h);
      } else {
        SumZero(k, h);
      }
    }
  }

  function Ends(plan: seq<Settlement>): set<UserId> {
    (set s | s in plan :: s.payerId) + (set s | s in plan :: s.payeeId)
  }

  function Component(plan: seq<Settlement>, among: set<UserId>, l: UserId): set<UserId> {
    set u | u in among && Label(plan, u) == l
  }

  /** The components of a settling plan are groups that net to zero. */
  lemma {:induction false} ComponentNets(plan: seq<Settlement>, net: map<UserId, int>, l: UserId)
    requires SettlesExactly(plan, net)
    ensures ZeroSum(Component(plan, Involved(net), l), net)
  {
    var k := Component(plan, Involved(net) + Ends(plan), l);
    var f := u => Amount(net, u);
    PaymentsJoin(plan);
    ClosedSetNets(k, plan);
    SumAgree(k, u => Flow(plan, u), f);
    SumDropZeros(k, Component(plan, Involved(net), l), f);
  }

  /** A settling plan with L payments leaves at least n - L groups. */
  lemma {:induction false} PlanGivesGrouping(plan: seq<Settlement>, net: map<UserId, int>) returns (lab: map<UserId, UserId>)
    requires SettlesExactly(plan, net)
    ensures IsGrouping(lab, net)
    ensures |lab.Values| + |plan| >= |Involved(net)|
  {
    lab := map x | x in Involved(net) :: Label(plan, x);
    forall l | l in lab.Values
      ensures ZeroSum(Group(lab, l), net)
    {
      ComponentNets(plan, net, l);
      assert Group(lab, l) == Component(plan, Involved(net), l);
    }
    EachPaymentJoinsTwo(Involved(net), plan);
    forall l | l in Labels(Involved(net), plan)
      ensures l in lab.Values
    {
      var x :| x in Involved(net) && l == Label(plan, x);
      assert x in lab && lab[x] == l;
    }
    SubsetSize(Labels(Involved(net), plan), lab.Values);
  }

  // ---- Groups settled one by one ----

  lemma {:induction false} ReceivedConcat(p: seq<Settlement>, q: seq<Settlement>, u: UserId)
    ensures Received(p + q, u) == Received(p, u) + Received(q, u)
    ensures Paid(p + q, u) == Paid(p, u) + Paid(q, u)
  {
    if p == [] {
      assert p + q == q;
    } else {
      ReceivedConcat(p[1..], q, u);
      assert (p + q)[1..] == p[1..] + q;
    }
  }

  function Only(net: map<UserId, int>, k: set<UserId>): map<UserId, int> {
    map u | u in net && u in k :: net[u]
  }

  /** A group of m users that nets to zero is settled by the greedy plan in m - 1 payments. */
  lemma {:induction false} GroupPlan(net: map<UserId, int>, k: set<UserId>)
    requires k <= Involved(net) && k != {} && ZeroSum(k, net)
    ensures Settling(Plan(Only(net, k)), Only(net, k))
    ensures |Plan(Only(net, k))| <= |k| - 1
  {
    var part := Only(net, k);
    assert part.Keys == k && Involved(part) == k;
    SumAgree(k, u => Amount(net, u), u => Amount(part, u));
    PlanSettlesExactly(part);
    PlanLength(part);
  }

  lemma {:induction false} FewerLabels(lab: map<UserId, UserId>, k: set<UserId>, x: UserId)
    requires x in lab && x in k
    ensures |lab - k| < |lab|
  {
    assert (lab - k).Keys == lab.Keys - k;
    SubsetSize((lab - k).Keys, lab.Keys - {x});
    assert |lab.Keys - {x}| == |lab| - 1;
    assert |lab - k| == |(lab - k).Keys|;
  }

  /** Plans for two parts of the participants make a plan for all of them. */
  lemma {:induction false} PlansJoin(net: map<UserId, int>, k: set<UserId>, p: seq<Settlement>, q: seq<Settlement>)
    requires k <= Involved(net) && Settling(p, Only(net, k)) && Settling(q, Only(net, Involved(net) - k))
    ensures Settling(p + q, net)
  {
    forall u
      ensures Received(p + q, u) - Paid(p + q, u) == Amount(net, u)
    {
      ReceivedConcat(p, q, u);
      assert Amount(Only(net, k), u) + Amount(Only(net, Involved(net) - k), u) == Amount(net, u);
    }
  }

  /** A grouping with g groups gives a settling plan with at most n - g payments. */
  lemma {:induction false} GroupingGivesPlan(lab: map<UserId, UserId>, net: map<UserId, int>) returns (plan: seq<Settlement>)
    requires IsGrouping(lab, net)
    ensures Settling(plan, net)
    ensures |plan| + |lab.Values| <= |Involved(net)|
    decreases |lab|
  {
    if lab == map[] {
      plan := [];
      assert lab.Values == {};
      assert forall u :: u in net ==> u !in Involved(net);
    } else {
      var x :| x in lab;
      var l := lab[x];
      var k := Group(lab, l);
      var rest, lab' := Only(net, Involved(net) - k), lab - k;
      assert x in k;
      GroupPlan(net, k);
      RestIsGrouping(lab, net, l);
      OneLabelLess(lab, l);
      assert |Involved(rest)| == |Involved(net)| - |k| && |lab'.Values| == |lab.Values| - 1;
      FewerLabels(lab, k, x);
      var more := GroupingGivesPlan(lab', rest);
      plan := Plan(Only(net, k)) + more;
      PlansJoin(net, k, Plan(Only(net, k)), more);
    }
  }

  lemma {:induction false} OneLabelLess(lab: map<UserId, UserId>, l: UserId)
    requires l in lab.Values
    ensures (lab - Group(lab, l)).Values == lab.Values - {l}
  {
    var lab' := lab - Group(lab, l);
    forall v | v in lab.Values - {l}
      ensures v in lab'.Values
    {
      var y :| y in lab && lab[y] == v;
      assert y in lab' && lab'[y] == v;
    }
  }

  /** Without one of its groups a grouping is a grouping of the others. */
  lemma {:induction false} RestIsGrouping(lab: map<UserId, UserId>, net: map<UserId, int>, l: UserId)
    requires IsGrouping(lab, net) && l in lab.Values
    ensures IsGrouping(lab - Group(lab, l), Only(net, Involved(net) - Group(lab, l)))
  {
    var k := Group(lab, l);
    var rest, lab' := Only(net, Involved(net) - k), lab - k;
    OneLabelLess(lab, l);
    forall v | v in lab'.Values
      ensures ZeroSum(Group(lab', v), rest)
    {
      assert Group(lab', v) == Group(lab, v);
      SumAgree(Group(lab, v), u => Amount(net, u), u => Amount(rest, u));
    }
  }

  // ---- The minimum, and when the plan reaches it ----

  /**
   * The least number of payments is n minus the greatest number of groups that net to zero:
   * plans and groupings turn into one another at that price.
   */
  lemma {:induction false} MinimumPayments(net: map<UserId, int>, bound: int)
    requires Total(net) == 0
    ensures (forall plan :: Settling(plan, net) ==> bound <= |plan|)
       <==> (forall lab :: IsGrouping(lab, net) ==> bound + |lab.Values| <= |Involved(net)|)
  {
    if forall plan :: Settling(plan, net) ==> bound <= |plan| {
      forall lab | IsGrouping(lab, net)
        ensures bound + |lab.Values| <= |Involved(net)|
      {
        var plan := GroupingGivesPlan(lab, net);
      }
    }
    if forall lab :: IsGrouping(lab, net) ==> bound + |lab.Values| <= |Involved(net)| {
      forall plan | Settling(plan, net)
        ensures bound <= |plan|
      {
        var lab := PlanGivesGrouping(plan, net);
      }
    }
  }

  ghost predicate Optimal(plan: seq<Settlement>, net: map<UserId, int>) {
    Settling(plan, net) && forall other :: Settling(other, net) ==> |plan| <= |other|
  }

  /**
   * The plan is a shortest one exactly when nobody can split the participants into more zero-sum
   * groups than the heaps meet rounds of equal largest credit and debt. The number of such rounds is
   * known only after the matching; `OptimalWhenIrreducible` is the case the balances alone decide.
   */
  lemma {:induction false} OptimalExactlyWhen(net: map<UserId, int>)
    requires Total(net) == 0
    ensures Optimal(Plan(net), net)
       <==> forall lab :: IsGrouping(lab, net) ==> |lab.Values| <= ExactRounds(Creditors(net), Debtors(net))
  {
    PlanSettlesExactly(net);
    PlanLength(net);
    MinimumPayments(net, |Plan(net)|);
  }

  /** No part of the participants nets to zero by itself. */
  ghost predicate Irreducible(net: map<UserId, int>) {
    forall s :: {} < s < Involved(net) ==> !ZeroSum(s, net)
  }

  /** Without such a part the plan is optimal. */
  lemma {:induction false} OptimalWhenIrreducible(net: map<UserId, int>)
    requires Total(net) == 0 && Irreducible(net)
    ensures Optimal(Plan(net), net)
  {
    SidesTotal(net);
    SidesSplit(net);
    PlanLength(net);
    MatchLength(Creditors(net), Debtors(net));
    forall lab | IsGrouping(lab, net)
      ensures |lab.Values| <= ExactRounds(Creditors(net), Debtors(net))
    {
      if lab != map[] {
        var x :| x in lab;
        forall y | y in lab
          ensures lab[y] == lab[x]
        {
          var g := Group(lab, lab[x]);
          assert lab[x] in lab.Values && x in g && g <= Involved(net);
          assert g == Involved(net);
          assert y in g;
        }
        assert lab.Values == {lab[x]};
      } else {
        assert lab.Values == {};
      }
    }
    OptimalExactlyWhen(net);
  }

  // ---- Never twice as long as needed ----

  function Payees(plan: seq<Settlement>): set<UserId> {
    if plan == [] then {} else Payees(plan[1..]) + {plan[0].payeeId}
  }

  function Payers(plan: seq<Settlement>): set<UserId> {
    if plan == [] then {} else Payers(plan[1..]) + {plan[0].payerId}
  }

  lemma {:induction false} EndsCount(plan: seq<Settlement>)
    ensures |Payees(plan)| <= |plan| && |Payers(plan)| <= |plan|
  {
    if plan != [] {
      EndsCount(plan[1..]);
    }
  }

  lemma {:induction false} AmountsCount(plan: seq<Settlement>, u: UserId)
    requires forall s :: s in plan ==> s.amountCents >= 1
    ensures Received(plan, u) >= 0 && Paid(plan, u) >= 0
    ensures Received(plan, u) > 0 ==> u in Payees(plan)
    ensures Paid(plan, u) > 0 ==> u in Payers(plan)
  {
    if plan != [] {
      AmountsCount(plan[1..], u);
      assert plan[0] in plan;
      assert forall s :: s in plan[1..] ==> s in plan;
    }
  }

  /** Every creditor must be paid and every debtor must pay, so no plan is shorter than either side. */
  lemma {:induction false} EverySideNeeded(plan: seq<Settlement>, net: map<UserId, int>)
    requires Settling(plan, net)
    ensures |Creditors(net)| <= |plan| && |Debtors(net)| <= |plan|
  {
    EndsCount(plan);
    forall u
      ensures u in Creditors(net) ==> u in Payees(plan)
      ensures u in Debtors(net) ==> u in Payers(plan)
    {
      AmountsCount(plan, u);
      assert Received(plan, u) - Paid(plan, u) == Amount(net, u);
    }
    SubsetSize(Creditors(net).Keys, Payees(plan));
    SubsetSize(Debtors(net).Keys, Payers(plan));
  }

  /** The plan has fewer than twice the payments of any other plan. */
  lemma {:induction false} TwoApproximation(plan: seq<Settlement>, net: map<UserId, int>)
    requires Total(net) == 0 && Involved(net) != {} && Settling(plan, net)
    ensures |Plan(net)| <= |Creditors(net)| + |Debtors(net)| - 1
    ensures |Plan(net)| < 2 * |plan|
  {
    PlanLength(net);
    EverySideNeeded(plan, net);
  }

  // ---- The documented claim fails ----

  const CLAIM_FAILS: map<UserId, int> := map["a" := 6, "b" := 4, "x" := -4, "y" := -3, "z" := -3]

  /** Credits 6 and 4 against debts 4, 3 and 3: the plan has four payments where three do. */
  lemma {:induction false} NotAlwaysOptimal()
    ensures Total(CLAIM_FAILS) == 0
    ensures |Plan(CLAIM_FAILS)| == 4
    ensures !Optimal(Plan(CLAIM_FAILS), CLAIM_FAILS)
  {
    FourEmitted();
    ThreeSettle();
  }

  lemma {:induction false} MatchStep(c: map<UserId, int>, d: map<UserId, int>, u: UserId, v: UserId, c': map<UserId, int>, d': map<UserId, int>)
    requires Positive(c) && Positive(d) && IsTop(c, u) && IsTop(d, v)
    requires c' == Reduce(c, u, Min(c[u], d[v])) && d' == Reduce(d, v, Min(c[u], d[v]))
    ensures Positive(c') && Positive(d')
    ensures |Match(c, d)| == 1 + |Match(c', d')|
  {
    TopUnique(c, u, Top(c));
    TopUnique(d, v, Top(d));
    Round(c, d);
  }

  lemma {:induction false} FourEmitted()
    ensures |Plan(CLAIM_FAILS)| == 4
  {
    var c0, d0 := map["a" := 6, "b" := 4], map["x" := 4, "y" := 3, "z" := 3];
    SidesOfExample();
    var c1, d1 := map["a" := 2, "b" := 4], map["y" := 3, "z" := 3];
    MatchStep(c0, d0, "a", "x", c1, d1);
    FourEmittedRest(c1, d1);
  }

  lemma {:induction false} SidesOfExample()
    ensures Creditors(CLAIM_FAILS) == map["a" := 6, "b" := 4]
    ensures Debtors(CLAIM_FAILS) == map["x" := 4, "y" := 3, "z" := 3]
  {
  }

  lemma {:induction false} FourEmittedRest(c1: map<UserId, int>, d1: map<UserId, int>)
    requires c1 == map["a" := 2, "b" := 4] && d1 == map["y" := 3, "z" := 3]
    ensures Positive(c1) && Positive(d1) && |Match(c1, d1)| == 3
  {
    var c2, d2 := map["a" := 2, "b" := 1], map["z" := 3];
    MatchStep(c1, d1, "b", "y", c2, d2);
    TwoEmitted(c2, d2);
  }

  lemma {:induction false} TwoEmitted(c2: map<UserId, int>, d2: map<UserId, int>)
    requires c2 == map["a" := 2, "b" := 1] && d2 == map["z" := 3]
    ensures Positive(c2) && Positive(d2) && |Match(c2, d2)| == 2
  {
    var c3, d3 := map["b" := 1], map["z" := 1];
    MatchStep(c2, d2, "a", "z", c3, d3);
    MatchStep(c3, d3, "b", "z", map[], map[]);
  }

  lemma {:induction false} ThreeSettle()
    ensures Total(CLAIM_FAILS) == 0
    ensures exists p :: Settling(p, CLAIM_FAILS) && |p| == 3
  {
    var s, t, r := Settlement("x", "b", 4), Settlement("y", "a", 3), Settlement("z", "a", 3);
    var p := [s] + ([t] + [r]);
    forall u
      ensures Received(p, u) - Paid(p, u) == Amount(CLAIM_FAILS, u)
    {
      ReceivedConcat([s], [t] + [r], u);
      ReceivedConcat([t], [r], u);
    }
    SettledIsZeroSum(p, CLAIM_FAILS);
  }

  /** Only zero-sum balances can be settled at all. */
  lemma {:induction false} SettledIsZeroSum(plan: seq<Settlement>, net: map<UserId, int>)
    requires SettlesExactly(plan, net)
    ensures Total(net) == 0
  {
    var k := net.Keys + Ends(plan);
    ClosedSetNets(k, plan);
    SumAgree(k, u => Flow(plan, u), u => Amount(net, u));
    SumDropZeros(k, net.Keys, u => Amount(net, u));
  }
}
