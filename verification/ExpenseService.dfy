/** `create_expense` over ledger, store and outbox. */
module ExpenseService {
  import opened Options
  import opened DebtMatching
  import opened NetBalances
  import opened Splits
  import opened Ledger
  import opened Store
  import opened Messaging

  /** An item of splits_input: a field that was not sent is missing. */
  datatype SplitInput = SplitInput(userId: UserId, amountCents: Option<int>, percentage: Option<real>)

  datatype Request = Request(
    groupId: string,
    payerId: UserId,
    title: string,
    totalCents: int,
    splitType: string,
    splitsInput: seq<SplitInput>,
    idempotencyKey: Option<string>)

  /** What one call draws from uuid4. */
  datatype Draws = Draws(expenseId: string, eventId: string, ledgerIds: Ids)

  datatype ServiceError =
    | TotalTooSmall
    | GroupNotFound
    | NoMembers
    | PayerNotMember
    | SplitsMissing
    | FieldMissing
    | UnknownSplitType
    | BadSplit(error: SplitError)
    | LedgerRefused(posting: Posting)

  datatype Result<T> = Success(value: T) | Failure(error: ServiceError)

  /** The three shared objects as values. */
  datatype World = World(ledger: LedgerState, store: StoreState, outbox: OutboxState)

  predicate AllAmounts(input: seq<SplitInput>) {
    forall i :: 0 <= i < |input| ==> input[i].amountCents.Some?
  }

  predicate AllPercentages(input: seq<SplitInput>) {
    forall i :: 0 <= i < |input| ==> input[i].percentage.Some?
  }

  function AsSplits(input: seq<SplitInput>): seq<Split>
    requires AllAmounts(input)
  {
    seq(|input|, i requires 0 <= i < |input| => Split(input[i].userId, input[i].amountCents.value))
  }

  function AsPercentages(input: seq<SplitInput>): seq<Percentage>
    requires AllPercentages(input)
  {
    seq(|input|, i requires 0 <= i < |input| => Percentage(input[i].userId, input[i].percentage.value))
  }

  function ExactOf(splits: seq<Split>, total: int): SplitResult {
    if SplitTotal(splits) == total then Ok(splits) else Err(ExactSumWrong(SplitTotal(splits), total))
  }

  function PercentageOf(ps: seq<Percentage>, total: int): SplitResult {
    if SumsToHundred(PercentSum(ps)) && ps != [] then Ok(PercentageSplits(total, ps)) else Err(PercentagesWrong(PercentSum(ps)))
  }

  function Checked(r: SplitResult): Result<seq<Split>> {
    match r
    case Ok(splits) => Success(splits)
    case Err(e) => Failure(BadSplit(e))
  }

  /** The splits of a request in a group with these members. */
  function ChooseSplits(req: Request, members: seq<UserId>): Result<seq<Split>>
    requires members != []
  {
    if req.splitType == "EQUAL" then Success(EqualSplits(req.totalCents, members))
    else if req.splitType == "EXACT" then
      if req.splitsInput == [] then Failure(SplitsMissing)
      else if !AllAmounts(req.splitsInput) then Failure(FieldMissing)
      else Checked(ExactOf(AsSplits(req.splitsInput), req.totalCents))
    else if req.splitType == "PERCENTAGE" then
      if req.splitsInput == [] then Failure(SplitsMissing)
      else if !AllPercentages(req.splitsInput) then Failure(FieldMissing)
      else Checked(PercentageOf(AsPercentages(req.splitsInput), req.totalCents))
    else Failure(UnknownSplitType)
  }

  /** Everything that can be refused before the ledger is asked. */
  function Validate(req: Request, s: StoreState): Result<seq<Split>> {
    if req.totalCents < 1 then Failure(TotalTooSmall)
    else if req.groupId !in s.groups then Failure(GroupNotFound)
    else
      var members := s.groups[req.groupId].memberIds;
      if members == [] then Failure(NoMembers)
      else if req.payerId !in members then Failure(PayerNotMember)
      else ChooseSplits(req, members)
  }

  lemma {:induction false} EqualAddsUp(total: int, members: seq<UserId>)
    requires members != []
    ensures SplitTotal(EqualSplits(total, members)) == total
  {
    EqualSharesAreEven(total, EqualSplits(total, members));
  }

  lemma {:induction false} PercentageAddsUp(ps: seq<Percentage>, total: int)
    requires PercentageOf(ps, total).Ok?
    ensures SplitTotal(PercentageOf(ps, total).splits) == total
  {
    PercentageSplitsSum(total, ps);
  }

  /** Whatever the split type, the shares of an accepted request add up to its total. */
  lemma {:induction false} SharesAddUp(req: Request, members: seq<UserId>)
    requires members != [] && ChooseSplits(req, members).Success?
    ensures SplitTotal(ChooseSplits(req, members).value) == req.totalCents
  {
    if req.splitType == "EQUAL" {
      EqualAddsUp(req.totalCents, members);
    } else if req.splitType == "PERCENTAGE" {
      PercentageAddsUp(AsPercentages(req.splitsInput), req.totalCents);
    }
  }

  function CreatedEvent(req: Request, splits: seq<Split>, expenseId: string, eventId: string, now: int): Event {
    Event(eventId, EXPENSE_CREATED, expenseId,
          ExpensePayload(expenseId, req.groupId, req.payerId, req.totalCents, req.title, splits, req.idempotencyKey), false, now)
  }

  /** After the journal is posted: store, journal id, outbox. */
  function Recorded(w: World, req: Request, splits: seq<Split>, d: Draws, now: int): (World, ExpenseRecord) {
    var (store, e) := Created(w.store, NewExpense(d.expenseId, req.groupId, req.payerId, req.title, req.totalCents,
                                                  req.splitType, splits, req.idempotencyKey));
    var e' := e.(journalId := Some(d.ledgerIds.journal));
    (World(w.ledger, store.(expenses := Put(store.expenses, e')),
           Appended(w.outbox, CreatedEvent(req, splits, e.id, d.eventId, now))), e')
  }

  /** `create_expense`: the journal is posted before the store looks at the idempotency key. */
  function CreateExpense(hash: string -> string, w: World, req: Request, d: Draws, now: int): (World, Result<ExpenseRecord>) {
    match Validate(req, w.store)
    case Failure(e) => (w, Failure(e))
    case Success(splits) =>
      var (ledger, posting) := PostExpense(hash, w.ledger, req.payerId, splits, req.title, d.ledgerIds, now);
      if !posting.Posted? then (w.(ledger := ledger), Failure(LedgerRefused(posting))) else
        var (w', e) := Recorded(w.(ledger := ledger), req, splits, d, now);
        (w', Success(e))
  }

  class ExpenseService {
    const ledger: LedgerEngine
    const store: InMemoryStore
    const outbox: InMemoryOutbox

    ghost function State(): World
      reads ledger, store, outbox
    {
      World(ledger.State(), store.State(), outbox.State())
    }

    constructor (ledger: LedgerEngine, store: InMemoryStore, outbox: InMemoryOutbox)
      ensures this.ledger == ledger && this.store == store && this.outbox == outbox
    {
      this.ledger, this.store, this.outbox := ledger, store, outbox;
    }

    /** The if-chain over split_type. */
    method ComputeSplits(req: Request, members: seq<UserId>) returns (r: Result<seq<Split>>)
      requires members != []
      ensures r == ChooseSplits(req, members)
    {
      if req.splitType == "EQUAL" {
        var s := SplitEqual(req.totalCents, members);
        return Success(s.splits);
      }
      if req.splitType == "EXACT" {
        if req.splitsInput == [] {
          return Failure(SplitsMissing);
        }
        if !AllAmounts(req.splitsInput) {
          return Failure(FieldMissing);
        }
        var s := SplitExact(AsSplits(req.splitsInput), req.totalCents);
        return Checked(s);
      }
      if req.splitType == "PERCENTAGE" {
        if req.splitsInput == [] {
          return Failure(SplitsMissing);
        }
        if !AllPercentages(req.splitsInput) {
          return Failure(FieldMissing);
        }
        var s := SplitPercentage(AsPercentages(req.splitsInput), req.totalCents);
        return Checked(s);
      }
      r := Failure(UnknownSplitType);
    }

    method Create(req: Request, d: Draws, now: int) returns (r: Result<ExpenseRecord>)
      modifies ledger, store, outbox
      ensures (State(), r) == CreateExpense(ledger.hash, old(State()), req, d, now)
    {
      if req.totalCents < 1 {
        return Failure(TotalTooSmall);
      }
      if req.groupId !in store.groups {
        return Failure(GroupNotFound);
      }
      var members := store.groups[req.groupId].memberIds;
      if members == [] {
        return Failure(NoMembers);
      }
      if req.payerId !in members {
        return Failure(PayerNotMember);
      }
      var chosen := ComputeSplits(req, members);
      if chosen.Failure? {
        return Failure(chosen.error);
      }
      var splits := chosen.value;
      var posting := ledger.PostExpenseJournal(req.payerId, splits, req.title, d.ledgerIds, now);
      if !posting.Posted? {
        return Failure(LedgerRefused(posting));
      }
      var e := store.CreateExpense(d.expenseId, req.groupId, req.payerId, req.title, req.totalCents, req.splitType, splits, req.idempotencyKey);
      e := store.SetJournal(e, posting.journal.journalId);
      outbox.Append(d.eventId, EXPENSE_CREATED, e.id,
                    ExpensePayload(e.id, req.groupId, req.payerId, req.totalCents, req.title, splits, req.idempotencyKey), now);
      r := Success(e);
    }

    /** `get_group_net_balances` */
    method GetGroupNetBalances(groupId: string) returns (order: seq<UserId>, net: map<UserId, int>)
      ensures IsDict(order, net) && net == NetMap(RawTxs(ForGroup(store.expenses, groupId)))
    {
      order, net := ComputeNetBalances(RawTxs(ForGroup(store.expenses, groupId)));
    }
  }
}
