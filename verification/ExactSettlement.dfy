/** What the matching settles, how long it is, and its shape. */
module ExactSettlement {
  import opened DebtMatching

  function Received(plan: seq<Settlement>, u: UserId): int {
    if plan == [] then 0 else
      (if plan[0].payeeId == u then plan[0].amountCents else 0) + Received(plan[1..], u)
  }

  function Paid(plan: seq<Settlement>, u: UserId): int {
    if plan == [] then 0 else
      (if plan[0].payerId == u then plan[0].amountCents else 0) + Paid(plan[1..], u)
  }

  /** The two sides can be paired off completely. */
  ghost predicate Level(c: map<UserId, int>, d: map<UserId, int>) {
    Positive(c) && Positive(d) && Total(c) == Total(d)
  }

  /** The heaps run empty in the same round. */
  lemma {:induction false} EmptyTogether(c: map<UserId, int>, d: map<UserId, int>)
    requires Level(c, d)
    ensures c == map[] <==> d == map[]
  {
    NothingLeft(c);
    NothingLeft(d);
  }

  /** Only debtors pay, only creditors receive, and every amount is at least one cent. */
  lemma {:induction false} MatchSound(c: map<UserId, int>, d: map<UserId, int>)
    requires Positive(c) && Positive(d)
    ensures forall s :: s in Match(c, d) ==> s.payerId in d && s.payeeId in c && s.amountCents >= 1
    decreases |c| + |d|
  {
    if c != map[] && d != map[] {
      var a := RoundAmount(c, d);
      Round(c, d);
      MatchSound(Reduce(c, Top(c), a), Reduce(d, Top(d), a));
    }
  }

  /** Creditors receive exactly their credit and debtors pay exactly their debt. */
  lemma {:induction false} MatchSettles(c: map<UserId, int>, d: map<UserId, int>, u: UserId)
    requires Level(c, d)
    ensures Received(Match(c, d), u) == Amount(c, u)
    ensures Paid(Match(c, d), u) == Amount(d, u)
    decreases |c| + |d|
  {
    EmptyTogether(c, d);
    if c != map[] && d != map[] {
      var a := RoundAmount(c, d);
      Round(c, d);
      var c', d' := Reduce(c, Top(c), a), Reduce(d, Top(d), a);
      MatchSettles(c', d', u);
      assert Match(c, d)[1..] == Match(c', d');
    }
  }

  /** Every round closes one participant, an exact round two, and the last round is exact. */
  lemma {:induction false} MatchLength(c: map<UserId, int>, d: map<UserId, int>)
    requires Level(c, d)
    ensures |Match(c, d)| + ExactRounds(c, d) == |c| + |d|
    ensures c != map[] ==> ExactRounds(c, d) >= 1
    decreases |c| + |d|
  {
    EmptyTogether(c, d);
    if c != map[] && d != map[] {
      var a := RoundAmount(c, d);
      Round(c, d);
      var c', d' := Reduce(c, Top(c), a), Reduce(d, Top(d), a);
      MatchLength(c', d');
      EmptyTogether(c', d');
    }
  }

  /** Amounts never grow from one payment to the next. */
  ghost predicate NonIncreasing(plan: seq<Settlement>) {
    forall i, j :: 0 <= i < j < |plan| ==> plan[j].amountCents <= plan[i].amountCents
  }

  ghost predicate AtMost(m: map<UserId, int>, a: int) {
    forall u :: u in m ==> m[u] <= a
  }

  lemma {:induction false} MatchBounded(c: map<UserId, int>, d: map<UserId, int>, a: int)
    requires Positive(c) && Positive(d) && (AtMost(c, a) || AtMost(d, a))
    ensures forall s :: s in Match(c, d) ==> s.amountCents <= a
    decreases |c| + |d|
  {
    if c != map[] && d != map[] {
      var r := RoundAmount(c, d);
      Round(c, d);
      MatchBounded(Reduce(c, Top(c), r), Reduce(d, Top(d), r), a);
    }
  }

  /** Largest first. */
  lemma {:induction false} MatchNonIncreasing(c: map<UserId, int>, d: map<UserId, int>)
    requires Positive(c) && Positive(d)
    ensures NonIncreasing(Match(c, d))
    decreases |c| + |d|
  {
    if c != map[] && d != map[] {
      var a := RoundAmount(c, d);
      Round(c, d);
      var c', d' := Reduce(c, Top(c), a), Reduce(d, Top(d), a);
      MatchNonIncreasing(c', d');
      MatchBounded(c', d', a);
    }
  }

  /** No payer pays the same payee twice. */
  ghost predicate PairsDistinct(plan: seq<Settlement>) {
    forall i, j :: 0 <= i < j < |plan| ==>
      !(plan[i].payerId == plan[j].payerId && plan[i].payeeId == plan[j].payeeId)
  }

  lemma {:induction false} MatchPairsDistinct(c: map<UserId, int>, d: map<UserId, int>)
    requires Positive(c) && Positive(d)
    ensures PairsDistinct(Match(c, d))
    decreases |c| + |d|
  {
    if c != map[] && d != map[] {
      var a := RoundAmount(c, d);
      Round(c, d);
      var c', d' := Reduce(c, Top(c), a), Reduce(d, Top(d), a);
      MatchPairsDistinct(c', d');
      MatchSound(c', d');
      assert Top(c) !in c' || Top(d) !in d';
    }
  }

  /** The payments made and received by everyone are exactly the balances. */
  ghost predicate SettlesExactly(plan: seq<Settlement>, net: map<UserId, int>) {
    forall u :: Received(plan, u) - Paid(plan, u) == Amount(net, u)
  }

  /**
   * The plan for a zero-sum balance map: everyone ends up with exactly their balance, creditors
   * only receive, debtors only pay, nobody pays themselves, no payment is below one cent.
   */
  lemma {:induction false} PlanSettlesExactly(net: map<UserId, int>)
    requires Total(net) == 0
    ensures Level(Creditors(net), Debtors(net))
    ensures SettlesExactly(Plan(net), net)
    ensures forall u :: Amount(net, u) >= 0 ==> Paid(Plan(net), u) == 0
    ensures forall u :: Amount(net, u) <= 0 ==> Received(Plan(net), u) == 0
    ensures forall s :: s in Plan(net) ==>
              Amount(net, s.payerId) < 0 < Amount(net, s.payeeId) && s.payerId != s.payeeId && s.amountCents >= 1
  {
    var c, d := Creditors(net), Debtors(net);
    SidesTotal(net);
    MatchSound(c, d);
    forall u
      ensures Received(Plan(net), u) == Amount(c, u) && Paid(Plan(net), u) == Amount(d, u)
    {
      MatchSettles(c, d, u);
    }
  }

  /** With n participants who owe or are owed, at most n - 1 payments; never more than C + D - 1. */
  lemma {:induction false} PlanLength(net: map<UserId, int>)
    requires Total(net) == 0
    ensures |Plan(net)| + ExactRounds(Creditors(net), Debtors(net)) == |Involved(net)|
    ensures |Involved(net)| == |Creditors(net)| + |Debtors(net)|
    ensures Involved(net) != {} ==> |Plan(net)| <= |Involved(net)| - 1
    ensures Involved(net) == {} ==> Plan(net) == []
    ensures Involved(net) != {} ==> Creditors(net) != map[] && Debtors(net) != map[]
  {
    SidesTotal(net);
    SidesSplit(net);
    MatchLength(Creditors(net), Debtors(net));
    EmptyTogether(Creditors(net), Debtors(net));
    assert Involved(net) != {} ==> Creditors(net).Keys + Debtors(net).Keys != {};
  }

  lemma {:induction false} PlanShape(net: map<UserId, int>)
    ensures NonIncreasing(Plan(net)) && PairsDistinct(Plan(net))
  {
    MatchNonIncreasing(Creditors(net), Debtors(net));
    MatchPairsDistinct(Creditors(net), Debtors(net));
  }
}
