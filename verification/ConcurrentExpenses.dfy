/**
 * Concurrent expense calls. A call posts its journal, then waits for the store; other calls run in
 * between. Wallets are ahead of the store by exactly the calls in flight. A call that is cancelled
 * while it waits stays in flight for good, and its money stays in the wallets alone.
 */
module ConcurrentExpenses {
  import opened Options
  import opened DebtMatching
  import opened NetBalances
  import opened Ledger
  import opened LedgerRuns
  import opened Store
  import opened ExpenseService
  import opened Agreement

  /** A call that has posted its journal and not yet reached the store. */
  datatype Flight = Flight(req: Request, splits: seq<Split>, draws: Draws, now: int)

  datatype Shared = Shared(world: World, flights: seq<Flight>)

  datatype Move =
    | NewGroup(id: string, name: string)
    | Join(groupId: string, userId: UserId)
    | Begin(req: Request, draws: Draws, now: int)
    | Record(k: nat)

  function Without(fs: seq<Flight>, k: nat): seq<Flight>
    requires k < |fs|
  {
    fs[..k] + fs[k + 1..]
  }

  /** The two halves of a call: up to the posted journal, and the rest. */
  function Next(hash: string -> string, s: Shared, m: Move): Shared {
    match m
    case NewGroup(id, name) => s.(world := Act(hash, s.world, Action.NewGroup(id, name)))
    case Join(g, u) => s.(world := Act(hash, s.world, Action.Join(g, u)))
    case Begin(req, d, now) =>
      (match Validate(req, s.world.store)
       case Failure(_) => s
       case Success(splits) =>
         var (ledger, posting) := PostExpense(hash, s.world.ledger, req.payerId, splits, req.title, d.ledgerIds, now);
         if posting.Posted? then Shared(s.world.(ledger := ledger), s.flights + [Flight(req, splits, d, now)])
         else s.(world := s.world.(ledger := ledger)))
    case Record(k) =>
      if k >= |s.flights| then s else
        var f := s.flights[k];
        Shared(Recorded(s.world, f.req, f.splits, f.draws, f.now).0, Without(s.flights, k))
  }

  function Exec(hash: string -> string, moves: seq<Move>): Shared {
    if moves == [] then Shared(EMPTY_WORLD, []) else
      Next(hash, Exec(hash, moves[..|moves| - 1]), moves[|moves| - 1])
  }

  /** A call run without interruption is the sequential call. */
  lemma {:induction false} HalvesMakeCall(hash: string -> string, w: World, req: Request, d: Draws, now: int)
    requires CreateExpense(hash, w, req, d, now).1.Success?
    ensures Next(hash, Next(hash, Shared(w, []), Begin(req, d, now)), Record(0)) == Shared(CreateExpense(hash, w, req, d, now).0, [])
  {
    assert Without([Flight(req, Validate(req, w.store).value, d, now)], 0) == [];
  }

  // ---- The invariant ----

  function FlightNet(fs: seq<Flight>, u: UserId): int {
    if fs == [] then 0 else
      var f := fs[|fs| - 1];
      FlightNet(fs[..|fs| - 1], u) + Delta(f.req.payerId, f.splits, u)
  }

  lemma {:induction false} FlightNetWithout(fs: seq<Flight>, k: nat, u: UserId)
    requires k < |fs|
    ensures FlightNet(fs, u) == FlightNet(Without(fs, k), u) + Delta(fs[k].req.payerId, fs[k].splits, u)
  {
    var n := |fs| - 1;
    if k == n {
      assert Without(fs, k) == fs[..n];
    } else {
      FlightNetWithout(fs[..n], k, u);
      var w := Without(fs, k);
      assert w[..|w| - 1] == Without(fs[..n], k);
    }
  }

  /** Wallets are the store's balances plus what is in flight. */
  ghost predicate WalletsAhead(s: Shared) {
    forall u :: Balance(s.world.ledger.entries, Wallet(u)) == StoreNet(s.world.store, u) + FlightNet(s.flights, u)
  }

  /** A flight's group exists and its journal has its effect. */
  ghost predicate FlightPosted(w: World, f: Flight) {
    && f.req.groupId in w.store.groups
    && f.draws.ledgerIds.journal in w.ledger.journals
    && forall u :: Balance(w.ledger.journals[f.draws.ledgerIds.journal].entries, Wallet(u)) == Delta(f.req.payerId, f.splits, u)
  }

  /** Its id and key are not in the store. */
  ghost predicate FlightFree(s: StoreState, f: Flight) {
    && (forall e :: e in s.expenses ==> e.id != f.draws.expenseId)
    && (HasKey(f.req.idempotencyKey) ==> f.req.idempotencyKey.value !in s.idempotencyKeys)
  }

  /** Two flights have different ids and do not share a key. */
  ghost predicate Apart(f: Flight, g: Flight) {
    && f.draws.expenseId != g.draws.expenseId
    && (HasKey(f.req.idempotencyKey) && HasKey(g.req.idempotencyKey) ==> f.req.idempotencyKey != g.req.idempotencyKey)
  }

  ghost predicate Consistent(s: Shared) {
    && WalletsAhead(s) && ClearingIsZero(s.world) && InGroups(s.world.store)
    && (forall e :: e in s.world.store.expenses ==> JournalMatches(s.world.ledger.journals, e))
    && (forall i :: 0 <= i < |s.flights| ==> FlightPosted(s.world, s.flights[i]))
    && Separate(s.world.store, s.flights)
  }

  /** uuid4 gives fresh ids, and no call begins with a key that is stored or in flight. */
  ghost predicate Free(s: Shared, m: Move) {
    m.Begin? ==>
      && FreshDraws(s.world, m.draws)
      && FlightFree(s.world.store, Flight(m.req, [], m.draws, m.now))
      && forall i :: 0 <= i < |s.flights| ==> Apart(s.flights[i], Flight(m.req, [], m.draws, m.now))
  }

  ghost predicate AllFree(hash: string -> string, moves: seq<Move>) {
    moves != [] ==>
      var n := |moves| - 1;
      AllFree(hash, moves[..n]) && Free(Exec(hash, moves[..n]), moves[n])
  }

  lemma {:induction false} FreeToFly(s: Shared, req: Request, splits: seq<Split>, d: Draws, now: int)
    requires Free(s, Begin(req, d, now))
    ensures var f := Flight(req, splits, d, now);
      FlightFree(s.world.store, f) && forall i :: 0 <= i < |s.flights| ==> Apart(s.flights[i], f)
  {
    var g, f := Flight(req, [], d, now), Flight(req, splits, d, now);
    forall i | 0 <= i < |s.flights|
      ensures Apart(s.flights[i], f)
    {
      assert Apart(s.flights[i], g);
    }
  }

  lemma {:induction false} BeginKeeps(hash: string -> string, s: Shared, req: Request, d: Draws, now: int)
    requires Consistent(s) && Free(s, Begin(req, d, now))
    ensures Consistent(Next(hash, s, Begin(req, d, now)))
  {
    var v := Validate(req, s.world.store);
    if v.Success? {
      WrappersNeverUnbalanced(hash, s.world.ledger, PostingCall(req, v.value, d, now));
      var (ledger, r) := PostExpense(hash, s.world.ledger, req.payerId, v.value, req.title, d.ledgerIds, now);
      if r.Posted? {
        LedgerMoves(hash, s.world.ledger, req.payerId, v.value, req.title, d.ledgerIds, now);
        FreeToFly(s, req, v.value, d, now);
        BegunKeeps(s, s.world.(ledger := ledger), Flight(req, v.value, d, now), r.journal);
      }
    }
  }

  lemma {:induction false} BegunKeeps(s: Shared, w: World, f: Flight, j: Journal)
    requires Consistent(s) && w.store == s.world.store && f.req.groupId in w.store.groups
    requires f.draws.ledgerIds.journal !in s.world.ledger.journals
    requires w.ledger.journals == s.world.ledger.journals[f.draws.ledgerIds.journal := j]
    requires forall u :: Balance(j.entries, Wallet(u)) == Delta(f.req.payerId, f.splits, u)
    requires forall u :: Balance(w.ledger.entries, Wallet(u)) == Balance(s.world.ledger.entries, Wallet(u)) + Delta(f.req.payerId, f.splits, u)
    requires forall a :: (forall u :: a != Wallet(u)) ==> Balance(w.ledger.entries, a) == Balance(s.world.ledger.entries, a)
    requires FlightFree(w.store, f) && forall i :: 0 <= i < |s.flights| ==> Apart(s.flights[i], f)
    ensures Consistent(Shared(w, s.flights + [f]))
  {
    var t := Shared(w, s.flights + [f]);
    OneMoreFlight(w.store, s.flights, f);
    forall u
      ensures Balance(w.ledger.entries, Wallet(u)) == StoreNet(w.store, u) + FlightNet(t.flights, u)
    {
    }
  }

  /** All free, and pairwise apart. */
  ghost predicate Separate(store: StoreState, fs: seq<Flight>) {
    && (forall i :: 0 <= i < |fs| ==> FlightFree(store, fs[i]))
    && (forall i, j :: 0 <= i < |fs| && 0 <= j < |fs| && i != j ==> Apart(fs[i], fs[j]))
  }

  lemma {:induction false} OneMoreFlight(store: StoreState, fs: seq<Flight>, f: Flight)
    requires Separate(store, fs) && FlightFree(store, f) && forall i :: 0 <= i < |fs| ==> Apart(fs[i], f)
    ensures Separate(store, fs + [f])
  {
    var gs := fs + [f];
    forall i, j | 0 <= i < |gs| && 0 <= j < |gs| && i != j
      ensures Apart(gs[i], gs[j])
    {
      if i < |fs| && j < |fs| {
        assert Apart(fs[i], fs[j]);
      } else if i < |fs| {
        assert Apart(fs[i], f);
      } else {
        assert Apart(fs[j], f);
      }
    }
  }

  /** The second half of a call whose key is not stored adds one expense. */
  lemma {:induction false} RecordAdds(w: World, f: Flight) returns (e: ExpenseRecord)
    requires FlightFree(w.store, f)
    ensures var w' := Recorded(w, f.req, f.splits, f.draws, f.now).0;
      && w'.ledger == w.ledger && w'.store.groups == w.store.groups && w'.store.expenses == w.store.expenses + [e]
      && w'.store.idempotencyKeys.Keys == w.store.idempotencyKeys.Keys + (if HasKey(f.req.idempotencyKey) then {f.req.idempotencyKey.value} else {})
    ensures e.id == f.draws.expenseId && e.groupId == f.req.groupId && e.payerId == f.req.payerId && e.splits == f.splits
    ensures e.journalId == Some(f.draws.ledgerIds.journal)
  {
    var n := NewExpense(f.draws.expenseId, f.req.groupId, f.req.payerId, f.req.title, f.req.totalCents, f.req.splitType, f.splits, f.req.idempotencyKey);
    e := n.(journalId := Some(f.draws.ledgerIds.journal));
    PutNew(w.store.expenses, n);
    PutAgain(w.store.expenses, n, e);
  }

  lemma {:induction false} RecordKeeps(hash: string -> string, s: Shared, k: nat)
    requires Consistent(s) && k < |s.flights|
    ensures Consistent(Next(hash, s, Record(k)))
  {
    var f, t := s.flights[k], Next(hash, s, Record(k));
    var e := RecordAdds(s.world, f);
    forall u
      ensures Balance(t.world.ledger.entries, Wallet(u)) == StoreNet(t.world.store, u) + FlightNet(t.flights, u)
    {
      StoreNetMore(s.world.store, t.world.store, e, u);
      FlightNetWithout(s.flights, k, u);
    }
    assert JournalMatches(t.world.ledger.journals, e);
    FlightsStayFree(s, t, k, e);
  }

  lemma {:induction false} FlightsStayFree(s: Shared, t: Shared, k: nat, e: ExpenseRecord)
    requires Consistent(s) && k < |s.flights| && t.flights == Without(s.flights, k)
    requires t.world.ledger == s.world.ledger && t.world.store.groups == s.world.store.groups
    requires t.world.store.expenses == s.world.store.expenses + [e] && e.id == s.flights[k].draws.expenseId
    requires var key := s.flights[k].req.idempotencyKey;
      t.world.store.idempotencyKeys.Keys == s.world.store.idempotencyKeys.Keys + (if HasKey(key) then {key.value} else {})
    ensures forall i :: 0 <= i < |t.flights| ==> FlightPosted(t.world, t.flights[i])
    ensures Separate(t.world.store, t.flights)
  {
    forall i | 0 <= i < |t.flights|
      ensures FlightPosted(t.world, t.flights[i]) && FlightFree(t.world.store, t.flights[i])
    {
      var o := if i < k then i else i + 1;
      assert t.flights[i] == s.flights[o];
      assert Apart(s.flights[o], s.flights[k]);
      assert FlightPosted(s.world, s.flights[o]) && FlightFree(s.world.store, s.flights[o]);
    }
    forall i, j | 0 <= i < |t.flights| && 0 <= j < |t.flights| && i != j
      ensures Apart(t.flights[i], t.flights[j])
    {
      assert Apart(s.flights[if i < k then i else i + 1], s.flights[if j < k then j else j + 1]);
    }
  }

  /** New groups and members change no balance. */
  lemma {:induction false} GroupsKeep(s: Shared, groups: map<string, GroupRecord>)
    requires Consistent(s) && s.world.store.groups.Keys <= groups.Keys
    ensures Consistent(s.(world := s.world.(store := s.world.store.(groups := groups))))
  {
    var t := s.(world := s.world.(store := s.world.store.(groups := groups)));
    forall u
      ensures StoreNet(t.world.store, u) == StoreNet(s.world.store, u)
    {
      EmptyGroupsAddNothing(s.world.store, groups, u);
    }
    forall i | 0 <= i < |t.flights|
      ensures FlightPosted(t.world, t.flights[i]) && FlightFree(t.world.store, t.flights[i])
    {
      assert FlightPosted(s.world, s.flights[i]) && FlightFree(s.world.store, s.flights[i]);
    }
  }

  lemma {:induction false} RunIsConsistent(hash: string -> string, moves: seq<Move>)
    requires AllFree(hash, moves)
    ensures Consistent(Exec(hash, moves))
  {
    if moves == [] {
      EmptyAgrees();
    } else {
      var n := |moves| - 1;
      var s, m := Exec(hash, moves[..n]), moves[n];
      RunIsConsistent(hash, moves[..n]);
      match m
      case NewGroup(id, name) => GroupsKeep(s, s.world.store.groups[id := GroupRecord(id, name, 0, [])]);
      case Join(g, u) => GroupsKeep(s, MemberAdded(s.world.store, g, u).0.groups);
      case Begin(req, d, now) => BeginKeeps(hash, s, req, d, now);
      case Record(k) =>
        if k < |s.flights| {
          RecordKeeps(hash, s, k);
        }
    }
  }

  /**
   * In every interleaving of calls, wallets minus the calls in flight are the store's balances; and
   * whenever no call is in flight, ledger and store agree completely.
   */
  lemma {:induction false} EveryInterleavingAgrees(hash: string -> string, moves: seq<Move>)
    requires AllFree(hash, moves)
    ensures var s := Exec(hash, moves);
      && (forall u :: Balance(s.world.ledger.entries, Wallet(u)) - FlightNet(s.flights, u) == StoreNet(s.world.store, u))
      && (s.flights == [] ==> Agrees(s.world))
  {
    RunIsConsistent(hash, moves);
  }

  // ---- Sequential runs ----

  /** A sequential run as moves: each call goes to the store at once, if there is anything to store. */
  function MovesOf(actions: seq<Action>): seq<Move> {
    if actions == [] then [] else
      MovesOf(actions[..|actions| - 1]) +
      match actions[|actions| - 1]
      case NewGroup(id, name) => [Move.NewGroup(id, name)]
      case Join(g, u) => [Move.Join(g, u)]
      case Create(req, d, now) => [Begin(req, d, now), Record(0)]
  }

  lemma {:induction false} ExecMore(hash: string -> string, moves: seq<Move>, m: Move)
    ensures Exec(hash, moves + [m]) == Next(hash, Exec(hash, moves), m)
  {
    assert (moves + [m])[..|moves|] == moves;
  }

  /** A refused call leaves nothing in flight and nothing changed. */
  lemma {:induction false} RefusedCallDoesNothing(hash: string -> string, w: World, req: Request, d: Draws, now: int)
    requires CreateExpense(hash, w, req, d, now).1.Failure?
    ensures Next(hash, Shared(w, []), Begin(req, d, now)) == Shared(w, [])
    ensures Next(hash, Shared(w, []), Record(0)) == Shared(w, [])
  {
    RaisingChangesNothing(hash, w, req, d, now);
  }

  /** A sequential run is an interleaving that leaves nothing in flight. */
  lemma {:induction false} SequentialIsInterleaved(hash: string -> string, actions: seq<Action>)
    ensures Exec(hash, MovesOf(actions)) == Shared(RunAll(hash, actions), [])
  {
    if actions != [] {
      var before, a := MovesOf(actions[..|actions| - 1]), actions[|actions| - 1];
      var w := RunAll(hash, actions[..|actions| - 1]);
      SequentialIsInterleaved(hash, actions[..|actions| - 1]);
      match a
      case NewGroup(id, name) => ExecMore(hash, before, Move.NewGroup(id, name));
      case Join(g, u) => ExecMore(hash, before, Move.Join(g, u));
      case Create(req, d, now) =>
        ExecMore(hash, before, Begin(req, d, now));
        ExecMore(hash, before + [Begin(req, d, now)], Record(0));
        assert before + [Begin(req, d, now), Record(0)] == before + [Begin(req, d, now)] + [Record(0)];
        if CreateExpense(hash, w, req, d, now).1.Failure? {
          RefusedCallDoesNothing(hash, w, req, d, now);
        } else {
          HalvesMakeCall(hash, w, req, d, now);
        }
    }
  }
}
