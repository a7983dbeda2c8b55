/** The three ways to split an expense. Percentages are reals; int(...) truncates toward zero. */
module Splits {
  import opened DebtMatching
  import opened NetBalances

  datatype SplitError =
    | DivisionByZero
    | ExactSumWrong(given: int, total: int)
    | PercentagesWrong(sum: real)

  datatype SplitResult = Ok(splits: seq<Split>) | Err(error: SplitError)

  /** One user's percentage. */
  datatype Percentage = Percentage(userId: UserId, percentage: real)

  // ---- EQUAL ----

  /** The i-th of n equal shares. */
  function EqualShare(total: int, n: int, i: nat): int
    requires n > 0
  {
    total / n + if i < total % n then 1 else 0
  }

  /** `_split_equal` on at least one user. */
  function EqualSplits(total: int, userIds: seq<UserId>): seq<Split>
    requires userIds != []
  {
    seq(|userIds|, i requires 0 <= i < |userIds| => Split(userIds[i], EqualShare(total, |userIds|, i)))
  }

  method SplitEqual(totalCents: int, userIds: seq<UserId>) returns (r: SplitResult)
    ensures userIds == [] ==> r == Err(DivisionByZero)
    ensures userIds != [] ==> r == Ok(EqualSplits(totalCents, userIds))
  {
    var n := |userIds|;
    if n == 0 {
      return Err(DivisionByZero);
    }
    var base, remainder := totalCents / n, totalCents % n;
    var splits: seq<Split> := [];
    for i := 0 to n
      invariant |splits| == i
      invariant forall j :: 0 <= j < i ==> splits[j] == Split(userIds[j], EqualShare(totalCents, n, j))
    {
      splits := splits + [Split(userIds[i], base + if i < remainder then 1 else 0)];
    }
    r := Ok(splits);
  }

  /** Shares that never rise along the list and differ by at most one cent. */
  ghost predicate Even(splits: seq<Split>) {
    forall i, j :: 0 <= i < j < |splits| ==>
      splits[j].amountCents <= splits[i].amountCents <= splits[j].amountCents + 1
  }

  lemma {:induction false} SumOfTwoLevels(splits: seq<Split>, m: int, k: nat)
    requires k <= |splits|
    requires forall i :: 0 <= i < |splits| ==> splits[i].amountCents == m + if i < k then 1 else 0
    ensures SplitTotal(splits) == |splits| * m + k
  {
    if splits != [] {
      var n := |splits| - 1;
      SumOfTwoLevels(splits[..n], m, if k <= n then k else n);
    }
  }

  /** In an even list the first k shares are one cent above the last. */
  lemma {:induction false} EvenHasTwoLevels(splits: seq<Split>) returns (k: nat)
    requires Even(splits) && splits != []
    ensures k < |splits|
    ensures forall i :: 0 <= i < |splits| ==>
              splits[i].amountCents == splits[|splits| - 1].amountCents + if i < k then 1 else 0
  {
    k := 0;
    var n := |splits| - 1;
    while k < n && splits[k].amountCents == splits[n].amountCents + 1
      invariant k <= n
      invariant forall i :: 0 <= i < k ==> splits[i].amountCents == splits[n].amountCents + 1
    {
      k := k + 1;
    }
    forall i | k <= i < n
      ensures splits[i].amountCents == splits[n].amountCents
    {
      assert splits[k].amountCents == splits[n].amountCents || k == n;
    }
  }

  lemma {:induction false} Multiple(n: int, z: int)
    requires n > 0
    ensures z >= 1 ==> n * z >= n
    ensures z <= -1 ==> n * z <= -n
  {
  }

  lemma {:induction false} Division(total: int, n: int, m: int, k: int)
    requires n > 0 && total == n * m + k && 0 <= k < n
    ensures total / n == m && total % n == k
  {
    Multiple(n, total / n - m);
  }

  lemma {:induction false} EqualSharesAreEven(total: int, splits: seq<Split>)
    requires splits != [] && forall i :: 0 <= i < |splits| ==> splits[i].amountCents == EqualShare(total, |splits|, i)
    ensures Even(splits) && SplitTotal(splits) == total
  {
    var n := |splits|;
    var m, k := total / n, total % n;
    assert total == n * m + k;
    SumOfTwoLevels(splits, m, k);
  }

  lemma {:induction false} EvenSharesAreEqual(total: int, splits: seq<Split>)
    requires splits != [] && Even(splits) && SplitTotal(splits) == total
    ensures forall i :: 0 <= i < |splits| ==> splits[i].amountCents == EqualShare(total, |splits|, i)
  {
    var n := |splits|;
    var k := EvenHasTwoLevels(splits);
    var m := splits[n - 1].amountCents;
    SumOfTwoLevels(splits, m, k);
    Division(total, n, m, k);
  }

  /**
   * The equal shares add up to the total and are even; and they are the only even shares that do.
   */
  lemma {:induction false} EqualIsTheEvenSplit(total: int, splits: seq<Split>)
    requires splits != []
    ensures (forall i :: 0 <= i < |splits| ==> splits[i].amountCents == EqualShare(total, |splits|, i))
       <==> Even(splits) && SplitTotal(splits) == total
  {
    if forall i :: 0 <= i < |splits| ==> splits[i].amountCents == EqualShare(total, |splits|, i) {
      EqualSharesAreEven(total, splits);
    }
    if Even(splits) && SplitTotal(splits) == total {
      EvenSharesAreEqual(total, splits);
    }
  }

  // ---- EXACT ----

  method SumSplits(splits: seq<Split>) returns (sum: int)
    ensures sum == SplitTotal(splits)
  {
    sum := 0;
    for i := 0 to |splits|
      invariant sum == SplitTotal(splits[..i])
    {
      assert splits[..i + 1][..i] == splits[..i];
      sum := sum + splits[i].amountCents;
    }
    assert splits[..|splits|] == splits;
  }

  method SplitExact(splitsInput: seq<Split>, totalCents: int) returns (r: SplitResult)
    ensures r == if SplitTotal(splitsInput) == totalCents then Ok(splitsInput) else Err(ExactSumWrong(SplitTotal(splitsInput), totalCents))
  {
    var given := SumSplits(splitsInput);
    if given != totalCents {
      return Err(ExactSumWrong(given, totalCents));
    }
    r := Ok(splitsInput);
  }

  // ---- PERCENTAGE ----

  function Truncate(x: real): int {
    if x >= 0.0 then x.Floor else -(-x).Floor
  }

  function PercentSum(ps: seq<Percentage>): real {
    if ps == [] then 0.0 else PercentSum(ps[..|ps| - 1]) + ps[|ps| - 1].percentage
  }

  /** Within 0.01 of 100. */
  predicate SumsToHundred(sum: real) {
    -0.01 <= sum - 100.0 <= 0.01
  }

  /** What the percentage comes to without rounding. */
  function ExactPart(total: int, p: Percentage): real {
    total as real * p.percentage / 100.0
  }

  /** Truncated parts of all but the last. */
  function TruncatedSplits(total: int, ps: seq<Percentage>): seq<Split> {
    if ps == [] then [] else
      var p := ps[|ps| - 1];
      TruncatedSplits(total, ps[..|ps| - 1]) + [Split(p.userId, Part(total, p))]
  }

  /** The last user takes what the truncated shares leave. */
  function PercentageSplits(total: int, ps: seq<Percentage>): seq<Split>
    requires ps != []
  {
    var n := |ps| - 1;
    var before := TruncatedSplits(total, ps[..n]);
    before + [Split(ps[n].userId, total - SplitTotal(before))]
  }

  method SumPercentages(ps: seq<Percentage>) returns (sum: real)
    ensures sum == PercentSum(ps)
  {
    sum := 0.0;
    for i := 0 to |ps|
      invariant sum == PercentSum(ps[..i])
    {
      assert ps[..i + 1][..i] == ps[..i];
      sum := sum + ps[i].percentage;
    }
    assert ps[..|ps|] == ps;
  }

  method SplitPercentage(percentages: seq<Percentage>, totalCents: int) returns (r: SplitResult)
    ensures !SumsToHundred(PercentSum(percentages)) ==> r == Err(PercentagesWrong(PercentSum(percentages)))
    ensures SumsToHundred(PercentSum(percentages)) ==>
              percentages != [] && r == Ok(PercentageSplits(totalCents, percentages))
  {
    var sum := SumPercentages(percentages);
    if sum - 100.0 > 0.01 || 100.0 - sum > 0.01 {
      return Err(PercentagesWrong(sum));
    }
    var splits := AllotPercentages(percentages, totalCents);
    r := Ok(splits);
  }

  /** int(total * p / 100) */
  function Part(total: int, p: Percentage): int {
    Truncate(ExactPart(total, p))
  }

  /** The next share is truncated, and the last one takes the rest. */
  lemma {:induction false} AllotMore(total: int, ps: seq<Percentage>, i: nat)
    requires i < |ps|
    ensures TruncatedSplits(total, ps[..i + 1]) == TruncatedSplits(total, ps[..i]) + [Split(ps[i].userId, Part(total, ps[i]))]
    ensures var before := TruncatedSplits(total, ps[..i]);
      i == |ps| - 1 ==> PercentageSplits(total, ps) == before + [Split(ps[i].userId, total - SplitTotal(before))]
  {
    assert ps[..i + 1][..i] == ps[..i];
  }

  /** The loop of `_split_percentage`. */
  method AllotPercentages(ps: seq<Percentage>, totalCents: int) returns (splits: seq<Split>)
    requires ps != []
    ensures splits == PercentageSplits(totalCents, ps)
  {
    splits := [];
    var handedOut := 0;
    var n := |ps|;
    for i := 0 to n
      invariant handedOut == SplitTotal(splits)
      invariant i < n ==> splits == TruncatedSplits(totalCents, ps[..i])
      invariant i == n ==> splits == PercentageSplits(totalCents, ps)
    {
      AllotMore(totalCents, ps, i);
      var amount;
      if i == n - 1 {
        amount := totalCents - handedOut;
      } else {
        amount := Part(totalCents, ps[i]);
      }
      handedOut := handedOut + amount;
      SplitTotalMore(splits, Split(ps[i].userId, amount));
      splits := splits + [Split(ps[i].userId, amount)];
    }
  }

  lemma {:induction false} SplitTotalMore(splits: seq<Split>, s: Split)
    ensures SplitTotal(splits + [s]) == SplitTotal(splits) + s.amountCents
  {
    assert (splits + [s])[..|splits|] == splits;
  }

  /** Percentage shares always add up to the total. */
  lemma {:induction false} PercentageSplitsSum(total: int, ps: seq<Percentage>)
    requires ps != []
    ensures SplitTotal(PercentageSplits(total, ps)) == total
  {
    var before := TruncatedSplits(total, ps[..|ps| - 1]);
    SplitTotalMore(before, Split(ps[|ps| - 1].userId, total - SplitTotal(before)));
  }

  ghost predicate NonNegative(ps: seq<Percentage>) {
    forall i :: 0 <= i < |ps| ==> ps[i].percentage >= 0.0
  }

  /** A truncated share is less than a cent below its exact part. */
  ghost predicate CentBelow(share: Split, total: int, p: Percentage) {
    share.userId == p.userId && ExactPart(total, p) - 1.0 < share.amountCents as real <= ExactPart(total, p)
  }

  lemma {:induction false} TruncatedShares(total: int, ps: seq<Percentage>)
    requires total >= 0 && NonNegative(ps)
    ensures |TruncatedSplits(total, ps)| == |ps|
    ensures forall i :: 0 <= i < |ps| ==> CentBelow(TruncatedSplits(total, ps)[i], total, ps[i])
  {
    if ps != [] {
      TruncatedShares(total, ps[..|ps| - 1]);
    }
  }

  /** What the percentages come to together without rounding. */
  function ExactTotal(total: int, ps: seq<Percentage>): real {
    if ps == [] then 0.0 else ExactTotal(total, ps[..|ps| - 1]) + ExactPart(total, ps[|ps| - 1])
  }

  lemma {:induction false} ExactTotalIs(total: int, ps: seq<Percentage>)
    ensures 100.0 * ExactTotal(total, ps) == total as real * PercentSum(ps)
  {
    if ps != [] {
      var n := |ps| - 1;
      ExactTotalIs(total, ps[..n]);
    }
  }

  /** Accepted percentages come to the total, within a ten-thousandth of it. */
  lemma {:induction false} ExactTotalTolerance(total: int, ps: seq<Percentage>)
    requires total >= 0 && SumsToHundred(PercentSum(ps))
    ensures -(total as real) / 10000.0 <= ExactTotal(total, ps) - total as real <= total as real / 10000.0
  {
    ExactTotalIs(total, ps);
    Tolerance(total as real, PercentSum(ps), ExactTotal(total, ps));
  }

  lemma {:induction false} TruncatedTotal(total: int, ps: seq<Percentage>)
    requires total >= 0 && NonNegative(ps)
    ensures ExactTotal(total, ps) - |ps| as real <= SplitTotal(TruncatedSplits(total, ps)) as real <= ExactTotal(total, ps)
  {
    if ps != [] {
      var n := |ps| - 1;
      TruncatedTotal(total, ps[..n]);
      SplitTotalMore(TruncatedSplits(total, ps[..n]), Split(ps[n].userId, Part(total, ps[n])));
    }
  }

  /**
   * Rounding: with non-negative percentages every share but the last is less than a cent below its
   * exact part; the last is between its part less total/10000 and its part plus total/10000 plus
   * one cent for each other share.
   */
  lemma {:induction false} PercentageRounding(total: int, ps: seq<Percentage>)
    requires total >= 0 && NonNegative(ps) && SumsToHundred(PercentSum(ps)) && ps != []
    ensures var n, out := |ps| - 1, PercentageSplits(total, ps);
      && |out| == |ps|
      && (forall i :: 0 <= i < n ==> CentBelow(out[i], total, ps[i]))
      && ExactPart(total, ps[n]) - total as real / 10000.0 <= out[n].amountCents as real
      && out[n].amountCents as real <= ExactPart(total, ps[n]) + total as real / 10000.0 + n as real
  {
    var n := |ps| - 1;
    TruncatedShares(total, ps[..n]);
    LastShare(total, ps);
  }

  lemma {:induction false} LastShare(total: int, ps: seq<Percentage>)
    requires total >= 0 && NonNegative(ps) && SumsToHundred(PercentSum(ps)) && ps != []
    ensures var n := |ps| - 1;
      var last, part, slack := (total - SplitTotal(TruncatedSplits(total, ps[..n]))) as real, ExactPart(total, ps[n]), total as real / 10000.0;
      part - slack <= last <= part + slack + n as real
  {
    var n := |ps| - 1;
    var others, all, part := ExactTotal(total, ps[..n]), ExactTotal(total, ps), ExactPart(total, ps[n]);
    TruncatedTotal(total, ps[..n]);
    ExactTotalTolerance(total, ps);
  }

  lemma {:induction false} Tolerance(t: real, sum: real, x: real)
    requires t >= 0.0 && SumsToHundred(sum) && 100.0 * x == t * sum
    ensures -t / 10000.0 <= x - t <= t / 10000.0
  {
    var d := sum - 100.0;
    assert 100.0 * (x - t) == t * d;
    assert t * d <= t * 0.01;
    assert t * d >= t * -0.01;
  }
}
