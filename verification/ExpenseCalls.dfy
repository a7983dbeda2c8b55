/** Which expense calls are accepted, with which shares, and what an accepted call leaves behind. */
module ExpenseCalls {
  import opened Options
  import opened DebtMatching
  import opened NetBalances
  import opened Splits
  import opened Ledger
  import opened Store
  import opened Messaging
  import opened ExpenseService
  import opened Agreement

  // ---- The shares of a request ----

  /** The submitted percentages added up. */
  function PercentagesOf(input: seq<SplitInput>): real
    requires AllPercentages(input)
  {
    if input == [] then 0.0 else PercentagesOf(input[..|input| - 1]) + input[|input| - 1].percentage.value
  }

  /** The members share evenly, remainder first. */
  ghost predicate SharedEqually(total: int, members: seq<UserId>, splits: seq<Split>) {
    && |splits| == |members| && (forall i :: 0 <= i < |members| ==> splits[i].userId == members[i])
    && Even(splits) && SplitTotal(splits) == total
  }

  /** The shares are the submitted ones. */
  ghost predicate SharedAsGiven(total: int, input: seq<SplitInput>, splits: seq<Split>) {
    && input != [] && |splits| == |input|
    && (forall i :: 0 <= i < |input| ==> splits[i].userId == input[i].userId && input[i].amountCents == Some(splits[i].amountCents))
    && SplitTotal(splits) == total
  }

  /** A share is its exact part, cut toward zero to whole cents. */
  predicate CutToCents(share: int, exact: real) {
    if exact >= 0.0 then exact - 1.0 < share as real <= exact else exact <= share as real < exact + 1.0
  }

  /** The exact part of a submitted item. */
  function PartOf(total: int, item: SplitInput): real
    requires item.percentage.Some?
  {
    total as real * item.percentage.value / 100.0
  }

  /** The percentages come to 100 but for 0.01; every share but the last is cut, and the last takes the rest. */
  ghost predicate SharedByPercent(total: int, input: seq<SplitInput>, splits: seq<Split>) {
    && input != [] && |splits| == |input| && AllPercentages(input) && -0.01 <= PercentagesOf(input) - 100.0 <= 0.01
    && (forall i :: 0 <= i < |input| ==> splits[i].userId == input[i].userId)
    && (forall i :: 0 <= i < |input| - 1 ==> CutToCents(splits[i].amountCents, PartOf(total, input[i])))
    && SplitTotal(splits) == total
  }

  /** The shares a request asks for, in a group with these members. */
  ghost predicate RightShares(req: Request, members: seq<UserId>, splits: seq<Split>) {
    || (req.splitType == "EQUAL" && SharedEqually(req.totalCents, members, splits))
    || (req.splitType == "EXACT" && SharedAsGiven(req.totalCents, req.splitsInput, splits))
    || (req.splitType == "PERCENTAGE" && SharedByPercent(req.totalCents, req.splitsInput, splits))
  }

  lemma {:induction false} TruncationCuts(x: real)
    ensures CutToCents(Truncate(x), x)
  {
  }

  lemma {:induction false} TruncatedAt(total: int, ps: seq<Percentage>, i: nat)
    requires i < |ps|
    ensures |TruncatedSplits(total, ps)| == |ps|
    ensures TruncatedSplits(total, ps)[i].userId == ps[i].userId
    ensures CutToCents(TruncatedSplits(total, ps)[i].amountCents, ExactPart(total, ps[i]))
  {
    var n := |ps| - 1;
    TruncatedLength(total, ps);
    TruncatedLength(total, ps[..n]);
    if i < n {
      TruncatedAt(total, ps[..n], i);
    } else {
      TruncationCuts(ExactPart(total, ps[n]));
    }
  }

  lemma {:induction false} TruncatedLength(total: int, ps: seq<Percentage>)
    ensures |TruncatedSplits(total, ps)| == |ps|
  {
    if ps != [] {
      TruncatedLength(total, ps[..|ps| - 1]);
    }
  }

  lemma {:induction false} PercentagesAddUp(input: seq<SplitInput>)
    requires AllPercentages(input)
    ensures PercentSum(AsPercentages(input)) == PercentagesOf(input)
  {
    if input != [] {
      var n := |input| - 1;
      PercentagesAddUp(input[..n]);
      assert AsPercentages(input)[..n] == AsPercentages(input[..n]);
    }
  }

  lemma {:induction false} CutAt(total: int, input: seq<SplitInput>, i: nat)
    requires AllPercentages(input) && i < |input| - 1
    ensures var out := PercentageSplits(total, AsPercentages(input));
      |out| == |input| && out[i].userId == input[i].userId && CutToCents(out[i].amountCents, PartOf(total, input[i]))
  {
    var ps := AsPercentages(input);
    TruncatedLength(total, ps[..|ps| - 1]);
    TruncatedAt(total, ps[..|ps| - 1], i);
    assert ExactPart(total, ps[i]) == PartOf(total, input[i]);
  }

  lemma {:induction false} ByPercent(total: int, input: seq<SplitInput>)
    requires input != [] && AllPercentages(input) && SumsToHundred(PercentSum(AsPercentages(input)))
    ensures SharedByPercent(total, input, PercentageSplits(total, AsPercentages(input)))
  {
    var ps := AsPercentages(input);
    PercentagesAddUp(input);
    PercentageSplitsSum(total, ps);
    TruncatedLength(total, ps[..|ps| - 1]);
    forall i | 0 <= i < |input| - 1
      ensures PercentageSplits(total, ps)[i].userId == input[i].userId
      ensures CutToCents(PercentageSplits(total, ps)[i].amountCents, PartOf(total, input[i]))
    {
      CutAt(total, input, i);
    }
  }

  /** An accepted choice of splits is the one asked for. */
  lemma {:induction false} ChosenAreRight(req: Request, members: seq<UserId>)
    requires members != [] && ChooseSplits(req, members).Success?
    ensures RightShares(req, members, ChooseSplits(req, members).value)
  {
    if req.splitType == "EQUAL" {
      EqualIsTheEvenSplit(req.totalCents, EqualSplits(req.totalCents, members));
    } else if req.splitType == "PERCENTAGE" {
      ByPercent(req.totalCents, req.splitsInput);
    }
  }

  lemma {:induction false} CutOnce(x: real, a: int, b: int)
    requires CutToCents(a, x) && CutToCents(b, x)
    ensures a == b
  {
  }

  lemma {:induction false} SameButLast(s: seq<Split>, t: seq<Split>)
    requires |s| == |t| > 0 && s[..|s| - 1] == t[..|t| - 1] && SplitTotal(s) == SplitTotal(t)
    requires s[|s| - 1].userId == t[|t| - 1].userId
    ensures s == t
  {
    var n := |s| - 1;
    assert s == s[..n] + [s[n]] && t == t[..n] + [t[n]];
    SplitTotalMore(s[..n], s[n]);
    SplitTotalMore(t[..n], t[n]);
  }

  /** A request asks for one list of shares only. */
  lemma {:induction false} SharesAreUnique(req: Request, members: seq<UserId>, s: seq<Split>, t: seq<Split>)
    requires RightShares(req, members, s) && RightShares(req, members, t)
    ensures s == t
  {
    if req.splitType == "EQUAL" {
      if s != [] {
        EqualIsTheEvenSplit(req.totalCents, s);
        EqualIsTheEvenSplit(req.totalCents, t);
      }
    } else if req.splitType == "PERCENTAGE" {
      var n := |s| - 1;
      forall i | 0 <= i < n
        ensures s[i] == t[i]
      {
        CutOnce(PartOf(req.totalCents, req.splitsInput[i]), s[i].amountCents, t[i].amountCents);
      }
      SameButLast(s, t);
    } else {
      forall i | 0 <= i < |s|
        ensures s[i] == t[i]
      {
        assert Some(s[i].amountCents) == Some(t[i].amountCents);
      }
    }
  }

  lemma {:induction false} RightAreChosen(req: Request, members: seq<UserId>, splits: seq<Split>)
    requires members != [] && RightShares(req, members, splits)
    ensures ChooseSplits(req, members) == Success(splits)
  {
    if req.splitType == "EXACT" {
      assert AllAmounts(req.splitsInput);
      assert AsSplits(req.splitsInput) == splits;
    } else if req.splitType == "PERCENTAGE" {
      PercentagesAddUp(req.splitsInput);
    }
    ChosenAreRight(req, members);
    SharesAreUnique(req, members, ChooseSplits(req, members).value, splits);
  }

  // ---- Which calls are accepted ----

  /** The total, the group and the payer are in order. */
  predicate InOrder(req: Request, s: StoreState) {
    req.totalCents >= 1 && req.groupId in s.groups && req.payerId in s.groups[req.groupId].memberIds
  }

  /** Nobody but the payer has a share below a cent. */
  predicate OthersPay(payer: UserId, splits: seq<Split>) {
    forall i :: 0 <= i < |splits| && splits[i].userId != payer ==> splits[i].amountCents >= 1
  }

  /** A call is accepted exactly when its request is in order and asks for shares that the ledger takes. */
  lemma {:induction false} CallAcceptedIff(hash: string -> string, w: World, req: Request, d: Draws, now: int)
    ensures CreateExpense(hash, w, req, d, now).1.Success? <==>
      InOrder(req, w.store) && exists splits :: RightShares(req, w.store.groups[req.groupId].memberIds, splits) && OthersPay(req.payerId, splits)
  {
    CreateAcceptedIff(hash, w, req, d, now);
    if InOrder(req, w.store) {
      var members := w.store.groups[req.groupId].memberIds;
      if ChooseSplits(req, members).Success? {
        ChosenAreRight(req, members);
      }
      forall splits | RightShares(req, members, splits)
        ensures ChooseSplits(req, members) == Success(splits)
      {
        RightAreChosen(req, members, splits);
      }
    }
  }

  /** Some submitted item lacks the field that the split type reads. */
  predicate LacksField(req: Request) {
    exists i :: 0 <= i < |req.splitsInput| &&
      if req.splitType == "EXACT" then req.splitsInput[i].amountCents == None else req.splitsInput[i].percentage == None
  }

  /** Which refusal a call gets, when it is refused before the ledger is asked. */
  lemma {:induction false} WhyRefused(hash: string -> string, w: World, req: Request, d: Draws, now: int)
    ensures var r := CreateExpense(hash, w, req, d, now).1;
      var known := req.totalCents >= 1 && req.groupId in w.store.groups;
      var members := if known then w.store.groups[req.groupId].memberIds else [];
      var good := known && req.payerId in members;
      var input := req.splitsInput;
      var given := good && (req.splitType == "EXACT" || req.splitType == "PERCENTAGE");
      && (r == Failure(TotalTooSmall) <==> req.totalCents < 1)
      && (r == Failure(GroupNotFound) <==> req.totalCents >= 1 && req.groupId !in w.store.groups)
      && (r == Failure(NoMembers) <==> known && members == [])
      && (r == Failure(PayerNotMember) <==> known && members != [] && req.payerId !in members)
      && (r == Failure(UnknownSplitType) <==> good && req.splitType !in {"EQUAL", "EXACT", "PERCENTAGE"})
      && (r == Failure(SplitsMissing) <==> given && input == [])
      && (r == Failure(FieldMissing) <==> given && LacksField(req))
      && (forall a, b :: r == Failure(BadSplit(ExactSumWrong(a, b))) <==>
           good && req.splitType == "EXACT" && input != [] && AllAmounts(input) && a == SplitTotal(AsSplits(input)) != req.totalCents == b)
      && (forall x :: r == Failure(BadSplit(PercentagesWrong(x))) <==>
           good && req.splitType == "PERCENTAGE" && input != [] && AllPercentages(input) && x == PercentagesOf(input) && !(-0.01 <= x - 100.0 <= 0.01))
  {
    if AllPercentages(req.splitsInput) {
      PercentagesAddUp(req.splitsInput);
    }
  }

  // ---- What an accepted call leaves behind ----

  /**
   * An accepted call moves the wallets by the shares asked for and announces them. With a new key and
   * a fresh id it stores and returns one expense with everything from the request; with a stored key
   * it returns the stored expense, now with the new journal.
   */
  lemma {:induction false} CallLeaves(hash: string -> string, w: World, req: Request, d: Draws, now: int) returns (splits: seq<Split>)
    requires CreateExpense(hash, w, req, d, now).1.Success?
    ensures InOrder(req, w.store) && RightShares(req, w.store.groups[req.groupId].memberIds, splits) && OthersPay(req.payerId, splits)
    ensures var (w', r) := CreateExpense(hash, w, req, d, now);
      var event := Event(d.eventId, EXPENSE_CREATED, r.value.id,
                         ExpensePayload(r.value.id, req.groupId, req.payerId, req.totalCents, req.title, splits, req.idempotencyKey), false, now);
      && (forall u :: Balance(w'.ledger.entries, Wallet(u)) == Balance(w.ledger.entries, Wallet(u)) + Delta(req.payerId, splits, u))
      && w'.outbox.events == w.outbox.events + [event] && w'.outbox.pending == w.outbox.pending + [event]
    ensures var (w', r) := CreateExpense(hash, w, req, d, now);
      match Existing(w.store, req.idempotencyKey)
      case Some(first) => r.value == first.(journalId := Some(d.ledgerIds.journal))
      case None =>
        var stored := ExpenseRecord(d.expenseId, req.groupId, req.payerId, req.title, req.totalCents, req.splitType, "POSTED",
                                    req.idempotencyKey, Some(d.ledgerIds.journal), splits);
        r.value == stored && (FreshDraws(w, d) ==> w'.store.expenses == w.store.expenses + [stored])
  {
    splits := Validate(req, w.store).value;
    CreateAcceptedIff(hash, w, req, d, now);
    ChosenAreRight(req, w.store.groups[req.groupId].memberIds);
    LedgerMoves(hash, w.ledger, req.payerId, splits, req.title, d.ledgerIds, now);
    if Existing(w.store, req.idempotencyKey) == None && FreshDraws(w, d) {
      FreshCallRecords(hash, w, req, d, now);
    }
  }

  lemma {:induction false} PartIs(total: int, input: seq<SplitInput>, i: nat)
    requires AllPercentages(input) && i < |input|
    ensures ExactPart(total, AsPercentages(input)[i]) == PartOf(total, input[i])
  {
  }

  lemma {:induction false} LastTakesRest(total: int, ps: seq<Percentage>)
    requires ps != []
    ensures var out, n := PercentageSplits(total, ps), |ps| - 1;
      |out| == |ps| && out[n].amountCents == total - SplitTotal(TruncatedSplits(total, ps[..n]))
  {
    TruncatedLength(total, ps[..|ps| - 1]);
  }

  lemma {:induction false} LastOfPercent(total: int, input: seq<SplitInput>)
    requires total >= 0 && input != [] && AllPercentages(input) && SumsToHundred(PercentSum(AsPercentages(input)))
    requires NonNegative(AsPercentages(input))
    ensures var out, n := PercentageSplits(total, AsPercentages(input)), |input| - 1;
      && |out| == |input|
      && PartOf(total, input[n]) - total as real / 10000.0 <= out[n].amountCents as real
      && out[n].amountCents as real <= PartOf(total, input[n]) + total as real / 10000.0 + n as real
  {
    LastTakesRest(total, AsPercentages(input));
    LastShare(total, AsPercentages(input));
    PartIs(total, input, |input| - 1);
  }

  /** With percentages that are not negative, the last share is near its exact part as well. */
  lemma {:induction false} LastShareIsNear(req: Request, members: seq<UserId>, splits: seq<Split>)
    requires req.totalCents >= 0 && members != [] && req.splitType == "PERCENTAGE" && RightShares(req, members, splits)
    requires forall i :: 0 <= i < |req.splitsInput| ==> req.splitsInput[i].percentage.value >= 0.0
    ensures var n := |splits| - 1;
      && PartOf(req.totalCents, req.splitsInput[n]) - req.totalCents as real / 10000.0 <= splits[n].amountCents as real
      && splits[n].amountCents as real <= PartOf(req.totalCents, req.splitsInput[n]) + req.totalCents as real / 10000.0 + n as real
  {
    RightAreChosen(req, members, splits);
    PercentagesAddUp(req.splitsInput);
    LastOfPercent(req.totalCents, req.splitsInput);
  }
}
