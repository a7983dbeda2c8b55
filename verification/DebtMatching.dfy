/** The greedy matching as a function of the balances alone, and what one round of it does. */
module DebtMatching {
  import opened Sums
  import opened Text

  type UserId = string

  /** One directed payment. */
  datatype Settlement = Settlement(payerId: UserId, payeeId: UserId, amountCents: int)

  function Amount(m: map<UserId, int>, u: UserId): int {
    if u in m then m[u] else 0
  }

  ghost function Total(m: map<UserId, int>): int {
    SumOver(m.Keys, u => Amount(m, u))
  }

  ghost predicate Positive(m: map<UserId, int>) {
    forall u :: u in m ==> m[u] > 0
  }

  function Creditors(net: map<UserId, int>): map<UserId, int> {
    map u | u in net && net[u] > 0 :: net[u]
  }

  function Debtors(net: map<UserId, int>): map<UserId, int> {
    map u | u in net && net[u] < 0 :: -net[u]
  }

  /** The participants whose balance is not zero. */
  function Involved(net: map<UserId, int>): set<UserId> {
    set u | u in net && net[u] != 0
  }

  /** u has the largest amount, and the least id among those. */
  ghost predicate IsTop(m: map<UserId, int>, u: UserId) {
    && u in m
    && forall v :: v in m ==> v == u || m[v] < m[u] || (m[v] == m[u] && Before(u, v))
  }

  lemma {:induction false} TopExists(m: map<UserId, int>)
    requires m != map[]
    ensures exists u :: IsTop(m, u)
    decreases |m|
  {
    var x :| x in m;
    var rest := m - {x};
    if rest == map[] {
      assert forall v :: v in m ==> v == x || v in rest;
      assert IsTop(m, x);
    } else {
      TopExists(rest);
      var t :| IsTop(rest, t);
      BeforeTotal(x, t);
      assert forall v :: v in m ==> v == x || v in rest;
      if m[t] > m[x] || (m[t] == m[x] && Before(t, x)) {
        assert IsTop(m, t);
      } else {
        forall v | v in m && v != x && m[v] == m[x]
          ensures Before(x, v)
        {
          if v != t {
            BeforeTransitive(x, t, v);
          }
        }
        assert IsTop(m, x);
      }
    }
  }

  lemma {:induction false} TopUnique(m: map<UserId, int>, u: UserId, v: UserId)
    requires IsTop(m, u) && IsTop(m, v)
    ensures u == v
  {
    if u != v {
      assert m[u] == m[v];
      BeforeAsymmetric(u, v);
    }
  }

  ghost function Top(m: map<UserId, int>): (u: UserId)
    requires m != map[]
    ensures IsTop(m, u)
  {
    TopExists(m);
    var u :| IsTop(m, u);
    u
  }

  /** Takes a out of u's amount; a user with nothing left is gone. */
  function Reduce(m: map<UserId, int>, u: UserId, a: int): map<UserId, int>
    requires u in m
  {
    if m[u] - a > 0 then m[u := m[u] - a] else m - {u}
  }

  function Min(a: int, b: int): int {
    if b < a then b else a
  }

  /** What the largest creditor and the largest debtor settle in one round. */
  ghost function RoundAmount(c: map<UserId, int>, d: map<UserId, int>): int
    requires c != map[] && d != map[]
  {
    Min(c[Top(c)], d[Top(d)])
  }

  /** A round gives what it pays to the two it touches, and at least one of them is then done. */
  lemma {:induction false} Round(c: map<UserId, int>, d: map<UserId, int>)
    requires c != map[] && d != map[] && Positive(c) && Positive(d)
    ensures var a, c', d' := RoundAmount(c, d), Reduce(c, Top(c), RoundAmount(c, d)), Reduce(d, Top(d), RoundAmount(c, d));
      && a >= 1 && Positive(c') && Positive(d')
      && c'.Keys <= c.Keys && d'.Keys <= d.Keys
      && Total(c') == Total(c) - a && Total(d') == Total(d) - a
      && |c'| + |d'| == |c| + |d| - (if c[Top(c)] == d[Top(d)] then 2 else 1)
  {
    var a := RoundAmount(c, d);
    ReduceTotal(c, Top(c), a);
    ReduceTotal(d, Top(d), a);
  }

  lemma {:induction false} ReduceTotal(m: map<UserId, int>, u: UserId, a: int)
    requires u in m && a <= m[u]
    ensures Total(Reduce(m, u, a)) == Total(m) - a
    ensures |Reduce(m, u, a)| == if a < m[u] then |m| else |m| - 1
  {
    var m' := Reduce(m, u, a);
    var f := x => Amount(m, x);
    var g := x => Amount(m', x);
    if a < m[u] {
      assert m'.Keys == m.Keys;
      SumChangeOne(m.Keys, f, g, u);
      assert |m'.Keys| == |m.Keys|;
    } else {
      assert m'.Keys == m.Keys - {u};
      SumTakeOut(m.Keys, f, u);
      SumAgree(m'.Keys, f, g);
      assert |m'.Keys| == |m.Keys| - 1;
    }
  }

  /** Largest creditor against largest debtor until one side is empty. */
  ghost function Match(c: map<UserId, int>, d: map<UserId, int>): seq<Settlement>
    requires Positive(c) && Positive(d)
    decreases |c| + |d|
  {
    if c == map[] || d == map[] then [] else
      var a := RoundAmount(c, d);
      Round(c, d);
      [Settlement(Top(d), Top(c), a)] + Match(Reduce(c, Top(c), a), Reduce(d, Top(d), a))
  }

  /** Rounds in which the largest credit equals the largest debt, so that both are closed at once. */
  ghost function ExactRounds(c: map<UserId, int>, d: map<UserId, int>): nat
    requires Positive(c) && Positive(d)
    decreases |c| + |d|
  {
    if c == map[] || d == map[] then 0 else
      var a := RoundAmount(c, d);
      Round(c, d);
      (if c[Top(c)] == d[Top(d)] then 1 else 0) + ExactRounds(Reduce(c, Top(c), a), Reduce(d, Top(d), a))
  }

  /** The list that `simplify` is proved to return. */
  ghost function Plan(net: map<UserId, int>): seq<Settlement> {
    Match(Creditors(net), Debtors(net))
  }

  /** Creditors and debtors are disjoint and are together everyone with a balance. */
  lemma {:induction false} SidesSplit(net: map<UserId, int>)
    ensures Creditors(net).Keys !! Debtors(net).Keys
    ensures Creditors(net).Keys + Debtors(net).Keys == Involved(net)
    ensures |Creditors(net)| + |Debtors(net)| == |Involved(net)|
  {
    var c, d := Creditors(net), Debtors(net);
    assert c.Keys + d.Keys == Involved(net);
    assert |c.Keys + d.Keys| == |c.Keys| + |d.Keys|;
  }

  /** Credits minus debts is the sum of the balances. */
  lemma {:induction false} SidesTotal(net: map<UserId, int>)
    ensures Total(Creditors(net)) - Total(Debtors(net)) == Total(net)
  {
    var c, d := Creditors(net), Debtors(net);
    var fc, fd := u => Amount(c, u), u => -Amount(d, u);
    SumAdd(net.Keys, fc, fd, u => Amount(net, u));
    SumDropZeros(net.Keys, c.Keys, fc);
    SumDropZeros(net.Keys, d.Keys, fd);
    SumNegate(d.Keys, u => Amount(d, u), fd);
  }

  lemma {:induction false} SumNegate(s: set<UserId>, f: UserId -> int, g: UserId -> int)
    requires forall u :: u in s ==> g(u) == -f(u)
    ensures SumOver(s, g) == -SumOver(s, f)
    decreases |s|
  {
    if s != {} {
      var x :| x in s;
      SumTakeOut(s, f, x);
      SumTakeOut(s, g, x);
      SumNegate(s - {x}, f, g);
    }
  }

  /** Positive amounts that add up to nothing are no amounts. */
  lemma {:induction false} NothingLeft(m: map<UserId, int>)
    requires Positive(m)
    ensures Total(m) >= |m|
    ensures Total(m) == 0 <==> m == map[]
  {
    SumPositive(m.Keys, u => Amount(m, u));
    assert |m| == |m.Keys|;
    if m != map[] {
      var u :| u in m;
      assert m.Keys != {};
    }
  }
}
