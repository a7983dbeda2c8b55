/** The fold from raw expenses to net balances. */
module NetBalances {
  import opened Sums
  import opened DebtMatching

  /** One user's part of an expense. */
  datatype Split = Split(userId: UserId, amountCents: int)

  /** An expense as the simplifier sees it. */
  datatype Tx = Tx(payerId: UserId, splits: seq<Split>)

  /** A Python dict: its keys in insertion order, and its contents. */
  ghost predicate IsDict<V>(order: seq<UserId>, m: map<UserId, V>) {
    && (forall i, j :: 0 <= i < j < |order| ==> order[i] != order[j])
    && Elems(order) == m.Keys
  }

  function Elems(order: seq<UserId>): set<UserId> {
    set u | u in order
  }

  /** What one split does to u's balance. */
  function Share(payer: UserId, s: Split, u: UserId): int {
    if s.userId == payer then 0 else
      (if u == payer then s.amountCents else 0) - (if u == s.userId then s.amountCents else 0)
  }

  /** What one expense does to u's balance. */
  function Delta(payer: UserId, splits: seq<Split>, u: UserId): int {
    if splits == [] then 0 else
      Delta(payer, splits[..|splits| - 1], u) + Share(payer, splits[|splits| - 1], u)
  }

  function NetOf(txs: seq<Tx>, u: UserId): int {
    if txs == [] then 0 else
      NetOf(txs[..|txs| - 1], u) + Delta(txs[|txs| - 1].payerId, txs[|txs| - 1].splits, u)
  }

  /** A payer without splits is not mentioned. */
  function Users(payer: UserId, splits: seq<Split>): set<UserId> {
    if splits == [] then {} else
      Users(payer, splits[..|splits| - 1]) + {payer, splits[|splits| - 1].userId}
  }

  function Mentioned(txs: seq<Tx>): set<UserId> {
    if txs == [] then {} else
      Mentioned(txs[..|txs| - 1]) + Users(txs[|txs| - 1].payerId, txs[|txs| - 1].splits)
  }

  ghost function NetMap(txs: seq<Tx>): map<UserId, int> {
    map u | u in Mentioned(txs) :: NetOf(txs, u)
  }

  /** Adds a missing key with value 0. */
  method SetDefault(order: seq<UserId>, m: map<UserId, int>, u: UserId)
    returns (order': seq<UserId>, m': map<UserId, int>)
    requires IsDict(order, m)
    ensures IsDict(order', m')
    ensures m'.Keys == m.Keys + {u}
    ensures forall v :: Amount(m', v) == Amount(m, v)
  {
    if u in m {
      return order, m;
    }
    order', m' := order + [u], m[u := 0];
    assert u !in order;
    assert Elems(order') == Elems(order) + {u};
  }

  /** m' is m with the effect of some splits. */
  ghost predicate Moved(m: map<UserId, int>, m': map<UserId, int>, payer: UserId, splits: seq<Split>) {
    && m'.Keys == m.Keys + Users(payer, splits)
    && forall u :: Amount(m', u) == Amount(m, u) + Delta(payer, splits, u)
  }

  lemma {:induction false} MovedMore(m: map<UserId, int>, m1: map<UserId, int>, m2: map<UserId, int>, payer: UserId, splits: seq<Split>, i: nat)
    requires i < |splits| && Moved(m, m1, payer, splits[..i])
    requires m2.Keys == m1.Keys + {payer, splits[i].userId}
    requires forall u :: Amount(m2, u) == Amount(m1, u) + Share(payer, splits[i], u)
    ensures Moved(m, m2, payer, splits[..i + 1])
  {
    assert splits[..i + 1][..i] == splits[..i];
  }

  /** The body of the inner loop. */
  method AddSplit(order: seq<UserId>, balances: map<UserId, int>, payer: UserId, split: Split)
    returns (order': seq<UserId>, balances': map<UserId, int>)
    requires IsDict(order, balances)
    ensures IsDict(order', balances')
    ensures balances'.Keys == balances.Keys + {payer, split.userId}
    ensures forall u :: Amount(balances', u) == Amount(balances, u) + Share(payer, split, u)
  {
    var uid, amount := split.userId, split.amountCents;
    var m;
    order', m := SetDefault(order, balances, payer);
    order', m := SetDefault(order', m, uid);
    if uid == payer {
      return order', m;
    }
    var m1 := m[payer := m[payer] + amount];
    balances' := m1[uid := m1[uid] - amount];
    assert balances'.Keys == m.Keys;
    forall u
      ensures Amount(balances', u) == Amount(balances, u) + Share(payer, split, u)
    {
    }
  }

  /** The inner loop: one expense. */
  method AddExpense(order: seq<UserId>, balances: map<UserId, int>, tx: Tx)
    returns (order': seq<UserId>, balances': map<UserId, int>)
    requires IsDict(order, balances)
    ensures IsDict(order', balances') && Moved(balances, balances', tx.payerId, tx.splits)
  {
    order', balances' := order, balances;
    for j := 0 to |tx.splits|
      invariant IsDict(order', balances') && Moved(balances, balances', tx.payerId, tx.splits[..j])
    {
      ghost var m1 := balances';
      order', balances' := AddSplit(order', balances', tx.payerId, tx.splits[j]);
      MovedMore(balances, m1, balances', tx.payerId, tx.splits, j);
    }
    assert tx.splits[..|tx.splits|] == tx.splits;
  }

  ghost predicate HasNet(m: map<UserId, int>, txs: seq<Tx>) {
    m.Keys == Mentioned(txs) && forall u :: Amount(m, u) == NetOf(txs, u)
  }

  method ComputeNetBalances(txs: seq<Tx>) returns (order: seq<UserId>, balances: map<UserId, int>)
    ensures IsDict(order, balances)
    ensures balances == NetMap(txs)
  {
    order, balances := [], map[];
    for i := 0 to |txs|
      invariant IsDict(order, balances) && HasNet(balances, txs[..i])
    {
      order, balances := AddExpense(order, balances, txs[i]);
      assert txs[..i + 1][..i] == txs[..i];
    }
    assert txs[..|txs|] == txs;
    forall u | u in balances
      ensures balances[u] == NetOf(txs, u)
    {
      assert balances[u] == Amount(balances, u);
    }
  }

  lemma {:induction false} UnmentionedIsZero(txs: seq<Tx>, u: UserId)
    requires u !in Mentioned(txs)
    ensures NetOf(txs, u) == 0
  {
    if txs != [] {
      var t := txs[|txs| - 1];
      UnmentionedIsZero(txs[..|txs| - 1], u);
      NonUserIsZero(t.payerId, t.splits, u);
    }
  }

  lemma {:induction false} NonUserIsZero(payer: UserId, splits: seq<Split>, u: UserId)
    requires u !in Users(payer, splits)
    ensures Delta(payer, splits, u) == 0
  {
    if splits != [] {
      NonUserIsZero(payer, splits[..|splits| - 1], u);
    }
  }

  lemma {:induction false} NetMapAmount(txs: seq<Tx>, u: UserId)
    ensures Amount(NetMap(txs), u) == NetOf(txs, u)
  {
    if u !in Mentioned(txs) {
      UnmentionedIsZero(txs, u);
    }
  }

  /** An expense moves money between users; it makes none. */
  lemma {:induction false} DeltaConserves(payer: UserId, splits: seq<Split>, all: set<UserId>)
    requires Users(payer, splits) <= all
    ensures SumOver(all, u => Delta(payer, splits, u)) == 0
  {
    var f := u => Delta(payer, splits, u);
    if splits == [] {
      SumZero(all, f);
    } else {
      var most, last := splits[..|splits| - 1], splits[|splits| - 1];
      var g := u => Delta(payer, most, u);
      var h := u => Share(payer, last, u);
      DeltaConserves(payer, most, all);
      SumAdd(all, g, h, f);
      SumDropZeros(all, {payer, last.userId}, h);
      SumTakeOut({payer, last.userId}, h, payer);
      SumTakeOut({payer, last.userId}, h, last.userId);
      if last.userId != payer {
        assert {payer, last.userId} - {payer} == {last.userId};
        SumTakeOut({last.userId}, h, last.userId);
        assert {last.userId} - {last.userId} == {};
      } else {
        assert {payer, last.userId} - {payer} == {};
      }
    }
  }

  lemma {:induction false} NetConserves(txs: seq<Tx>, all: set<UserId>)
    requires Mentioned(txs) <= all
    ensures SumOver(all, u => NetOf(txs, u)) == 0
  {
    var f := u => NetOf(txs, u);
    if txs == [] {
      SumZero(all, f);
    } else {
      var most, last := txs[..|txs| - 1], txs[|txs| - 1];
      NetConserves(most, all);
      DeltaConserves(last.payerId, last.splits, all);
      SumAdd(all, u => NetOf(most, u), u => Delta(last.payerId, last.splits, u), f);
    }
  }

  /** The balances of any list of expenses sum to zero, so `simplify` never rejects them. */
  lemma {:induction false} NetMapZeroSum(txs: seq<Tx>)
    ensures Total(NetMap(txs)) == 0
  {
    var m := NetMap(txs);
    NetConserves(txs, m.Keys);
    SumAgree(m.Keys, u => NetOf(txs, u), u => Amount(m, u));
  }

  function SplitTotal(splits: seq<Split>): int {
    if splits == [] then 0 else SplitTotal(splits[..|splits| - 1]) + splits[|splits| - 1].amountCents
  }

  /** What u laid out: the full splits of every expense u paid for. */
  function PaidBy(txs: seq<Tx>, u: UserId): int {
    if txs == [] then 0 else
      var t := txs[|txs| - 1];
      PaidBy(txs[..|txs| - 1], u) + if t.payerId == u then SplitTotal(t.splits) else 0
  }

  function OwedIn(splits: seq<Split>, u: UserId): int {
    if splits == [] then 0 else
      var s := splits[|splits| - 1];
      OwedIn(splits[..|splits| - 1], u) + if s.userId == u then s.amountCents else 0
  }

  /** u's own shares of everything, whoever paid. */
  function OwedBy(txs: seq<Tx>, u: UserId): int {
    if txs == [] then 0 else OwedBy(txs[..|txs| - 1], u) + OwedIn(txs[|txs| - 1].splits, u)
  }

  lemma {:induction false} DeltaIsPaidMinusOwed(payer: UserId, splits: seq<Split>, u: UserId)
    ensures Delta(payer, splits, u) == (if payer == u then SplitTotal(splits) else 0) - OwedIn(splits, u)
  {
    if splits != [] {
      DeltaIsPaidMinusOwed(payer, splits[..|splits| - 1], u);
    }
  }

  /** The documented meaning: a balance is what was paid minus what was owed; own shares cancel. */
  lemma {:induction false} NetIsPaidMinusOwed(txs: seq<Tx>, u: UserId)
    ensures NetOf(txs, u) == PaidBy(txs, u) - OwedBy(txs, u)
  {
    if txs != [] {
      var t := txs[|txs| - 1];
      NetIsPaidMinusOwed(txs[..|txs| - 1], u);
      DeltaIsPaidMinusOwed(t.payerId, t.splits, u);
    }
  }
}
