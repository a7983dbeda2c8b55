/** Which plan the simplifier returns, payment by payment, and which text its checksum is taken of. */
module GreedyPlan {
  import opened Text
  import opened StableSort
  import opened DebtMatching
  import opened DebtSimplifier

  /** The creditor who is owed most, and the first in string order among those. */
  ghost predicate LargestCreditor(net: map<UserId, int>, u: UserId) {
    && u in net && net[u] > 0
    && forall v :: v in net && v != u ==> net[v] < net[u] || (net[v] == net[u] && Sooner(u, v))
  }

  /** The debtor who owes most, and the first in string order among those. */
  ghost predicate LargestDebtor(net: map<UserId, int>, u: UserId) {
    && u in net && net[u] < 0
    && forall v :: v in net && v != u ==> net[v] > net[u] || (net[v] == net[u] && Sooner(u, v))
  }

  /** The balances after a payment. */
  function After(net: map<UserId, int>, s: Settlement): map<UserId, int>
    requires s.payerId in net && s.payeeId in net
  {
    net[s.payeeId := net[s.payeeId] - s.amountCents][s.payerId := net[s.payerId] + s.amountCents]
  }

  lemma {:induction false} TopIsLargest(net: map<UserId, int>)
    ensures Creditors(net) != map[] ==> LargestCreditor(net, Top(Creditors(net)))
    ensures Debtors(net) != map[] ==> LargestDebtor(net, Top(Debtors(net)))
  {
    var c, d := Creditors(net), Debtors(net);
    if c != map[] {
      var u := Top(c);
      forall v | v in net && v != u
        ensures net[v] < net[u] || (net[v] == net[u] && Sooner(u, v))
      {
        BeforeIsSooner(u, v);
        assert net[v] > 0 ==> v in c && c[v] == net[v];
      }
    }
    if d != map[] {
      var u := Top(d);
      forall v | v in net && v != u
        ensures net[v] > net[u] || (net[v] == net[u] && Sooner(u, v))
      {
        BeforeIsSooner(u, v);
        assert net[v] < 0 ==> v in d && d[v] == -net[v];
      }
    }
  }

  lemma {:induction false} AfterIsReduced(net: map<UserId, int>, u: UserId, v: UserId, a: int)
    requires u in net && net[u] > 0 && v in net && net[v] < 0 && 0 < a <= net[u] && a <= -net[v]
    ensures Creditors(After(net, Settlement(v, u, a))) == Reduce(Creditors(net), u, a)
    ensures Debtors(After(net, Settlement(v, u, a))) == Reduce(Debtors(net), v, a)
  {
  }

  /**
   * The plan of any balances: nothing when nobody is owed or nobody owes. Otherwise the debtor who
   * owes most pays the creditor who is owed most as much as both allow, ties going to the first id in
   * string order, and the rest is the plan of the balances after that payment.
   */
  lemma {:induction false} PlanIsGreedy(net: map<UserId, int>)
    ensures Plan(net) == [] <==> (forall u :: u in net ==> net[u] <= 0) || (forall u :: u in net ==> net[u] >= 0)
    ensures Plan(net) != [] ==>
              var s := Plan(net)[0];
              && LargestCreditor(net, s.payeeId) && LargestDebtor(net, s.payerId)
              && (s.amountCents == net[s.payeeId] <= -net[s.payerId] || s.amountCents == -net[s.payerId] <= net[s.payeeId])
              && Plan(net)[1..] == Plan(After(net, s))
  {
    var c, d := Creditors(net), Debtors(net);
    assert forall u :: u in net && net[u] > 0 ==> u in c;
    assert forall u :: u in net && net[u] < 0 ==> u in d;
    if c != map[] && d != map[] {
      TopIsLargest(net);
      Round(c, d);
      AfterIsReduced(net, Top(c), Top(d), RoundAmount(c, d));
      var x, y :| x in c && y in d;
      assert x in net && net[x] > 0 && y in net && net[y] < 0;
    } else if c == map[] {
      assert forall u :: u in net ==> u !in c;
    } else {
      assert forall u :: u in net ==> u !in d;
    }
  }

  // ---- The checksum ----

  /** Payments in strict order of payer and payee. */
  ghost predicate InPairOrder(plan: seq<Settlement>) {
    forall i, j :: 0 <= i < j < |plan| ==>
      || Sooner(plan[i].payerId, plan[j].payerId)
      || (plan[i].payerId == plan[j].payerId && Sooner(plan[i].payeeId, plan[j].payeeId))
  }

  /** payer:payee:amount of each payment, with bars between them. */
  function Written(plan: seq<Settlement>): string {
    if plan == [] then "" else
      var n := |plan| - 1;
      var one := plan[n].payerId + ":" + plan[n].payeeId + ":" + IntText(plan[n].amountCents);
      if n == 0 then one else Written(plan[..n]) + "|" + one
  }

  lemma {:induction false} LinesMore(plan: seq<Settlement>, s: Settlement)
    ensures Lines(plan + [s]) == Lines(plan) + [Line(s)]
  {
  }

  lemma {:induction false} WrittenMore(plan: seq<Settlement>, s: Settlement)
    ensures Written(plan + [s]) == if plan == [] then Line(s) else Written(plan) + "|" + Line(s)
  {
    assert (plan + [s])[..|plan|] == plan;
  }

  lemma {:induction false} JoinIsWritten(plan: seq<Settlement>)
    ensures Join(Lines(plan)) == Written(plan)
  {
    if plan != [] {
      var before, s := plan[..|plan| - 1], plan[|plan| - 1];
      assert plan == before + [s];
      JoinIsWritten(before);
      LinesMore(before, s);
      WrittenMore(before, s);
      if before != [] {
        JoinLast(Lines(before), Line(s));
      }
    }
  }

  /** The checksum is taken of the payments written in order of payer and payee. */
  lemma {:induction false} ChecksumIsWritten(plan: seq<Settlement>, ordered: seq<Settlement>)
    requires multiset(ordered) == multiset(plan) && InPairOrder(ordered)
    ensures ChecksumInput(plan) == Written(ordered)
  {
    PairLeTotalOrder();
    SortSorts(plan, PairLe);
    forall i, j | 0 <= i < j < |ordered|
      ensures PairLe(ordered[i], ordered[j]) && !PairLe(ordered[j], ordered[i])
    {
      BeforeIsSooner(ordered[i].payerId, ordered[j].payerId);
      BeforeIsSooner(ordered[i].payeeId, ordered[j].payeeId);
      StrictlyBefore(ordered[i], ordered[j]);
    }
    SortedUnique(ordered, Sort(plan, PairLe), PairLe);
    JoinIsWritten(ordered);
  }

  lemma {:induction false} StrictlyBefore(a: Settlement, b: Settlement)
    requires Before(a.payerId, b.payerId) || (a.payerId == b.payerId && Before(a.payeeId, b.payeeId))
    ensures PairLe(a, b) && !PairLe(b, a)
  {
    if Before(a.payerId, b.payerId) {
      BeforeAsymmetric(a.payerId, b.payerId);
    } else {
      BeforeAsymmetric(a.payeeId, b.payeeId);
    }
    if Before(b.payerId, a.payerId) {
      BeforeAsymmetric(b.payerId, a.payerId);
    }
  }
}
