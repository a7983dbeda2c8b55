/**
 * Whole requests: the idempotency gate around expense calls that themselves interleave. While the
 * entries of the gate have not expired, it provides what the agreement of ledger and store needs.
 */
module GatedExpenses {
  import opened Options
  import opened Cache
  import opened Ledger
  import opened LedgerRuns
  import opened Store
  import opened ExpenseService
  import opened Agreement
  import Gate = IdempotencyGate
  import Calls = ConcurrentExpenses

  /** drawn records the expense id that a request's execution has drawn. */
  datatype State = State(gate: Gate.State, calls: Calls.Shared, drawn: map<nat, string>)

  datatype Event =
    | Outside(step: Gate.Step)                    // a step that does not touch the money
    | Execute(i: nat, draws: Draws, now: int)     // the call posts its journal, or raises
    | Record(i: nat, k: nat, now: int)            // the call's flight reaches the store
    | Admin(move: Calls.Move)                     // a new group or member

  /** The key of a request; "" is none. */
  function KeyOf(req: Request): string {
    if HasKey(req.idempotencyKey) then req.idempotencyKey.value else ""
  }

  predicate IsOutside(kind: Gate.Kind) {
    !kind.Reject? && !kind.PostJournal? && !kind.Create?
  }

  predicate CanExecute(s: State, i: nat, now: int) {
    i < |s.gate.requests| && s.gate.requests[i].phase.Locked? && now >= s.gate.now
  }

  /** The flight is the request's own. */
  predicate CanRecord(s: State, i: nat, k: nat, now: int) {
    && i < |s.gate.requests| && s.gate.requests[i].phase.Posted? && now >= s.gate.now
    && k < |s.calls.flights| && i in s.drawn && s.calls.flights[k].draws.expenseId == s.drawn[i]
  }

  function Begun(hash: string -> string, req: Request, s: State, d: Draws, now: int): Calls.Shared {
    Calls.Next(hash, s.calls, Calls.Begin(req, d, now))
  }

  function Next(hash: string -> string, format: ExpenseRecord -> Gate.Response, bodies: seq<Request>, s: State, a: Event): State {
    match a
    case Outside(step) => if IsOutside(step.kind) then s.(gate := Gate.Next(s.gate, step)) else s
    case Execute(i, d, now) =>
      if !CanExecute(s, i, now) || i >= |bodies| then s else
        var t := Begun(hash, bodies[i], s, d, now);
        if |t.flights| > |s.calls.flights|
        then State(Gate.Next(s.gate, Gate.Step(i, Gate.PostJournal, now)), t, s.drawn[i := d.expenseId])
        else State(Gate.Next(s.gate, Gate.Step(i, Gate.Reject, now)), t, s.drawn)
    case Record(i, k, now) =>
      if !CanRecord(s, i, k, now) then s else
        var f := s.calls.flights[k];
        var e := Recorded(s.calls.world, f.req, f.splits, f.draws, f.now).1;
        State(Gate.Next(s.gate, Gate.Step(i, Gate.Create(format(e)), now)), Calls.Next(hash, s.calls, Calls.Record(k)), s.drawn)
    case Admin(m) => if m.NewGroup? || m.Join? then s.(calls := Calls.Next(hash, s.calls, m)) else s
  }

  function Keys(bodies: seq<Request>): seq<string> {
    seq(|bodies|, i requires 0 <= i < |bodies| => KeyOf(bodies[i]))
  }

  function Start(bodies: seq<Request>, now: int): State {
    State(Gate.Begin(Keys(bodies), now), Calls.Shared(EMPTY_WORLD, []), map[])
  }

  function Exec(hash: string -> string, format: ExpenseRecord -> Gate.Response, bodies: seq<Request>, now: int, events: seq<Event>): State {
    if events == [] then Start(bodies, now) else
      Next(hash, format, bodies, Exec(hash, format, bodies, now, events[..|events| - 1]), events[|events| - 1])
  }

  /** No request with this key comes to the gate and finds its entry past the deadline. */
  ghost predicate Lives(s: State, a: Event, key: string) {
    a.Outside? && IsOutside(a.step.kind) ==> !Gate.FindsDead(s.gate, a.step, key)
  }

  ghost predicate AllLive(hash: string -> string, format: ExpenseRecord -> Gate.Response, bodies: seq<Request>, now: int, events: seq<Event>, key: string) {
    events != [] ==>
      var n := |events| - 1;
      && AllLive(hash, format, bodies, now, events[..n], key)
      && Lives(Exec(hash, format, bodies, now, events[..n]), events[n], key)
  }

  /** uuid4 gives fresh ids. */
  ghost predicate Fresh(s: State, a: Event) {
    a.Execute? ==>
      && FreshDraws(s.calls.world, a.draws) && a.draws.expenseId !in s.drawn.Values
      && forall j :: 0 <= j < |s.calls.flights| ==> s.calls.flights[j].draws.expenseId != a.draws.expenseId
  }

  ghost predicate AllFresh(hash: string -> string, format: ExpenseRecord -> Gate.Response, bodies: seq<Request>, now: int, events: seq<Event>) {
    events != [] ==>
      var n := |events| - 1;
      && AllFresh(hash, format, bodies, now, events[..n])
      && Fresh(Exec(hash, format, bodies, now, events[..n]), events[n])
  }

  // ---- What the gate counts is there ----

  function FlightsWith(fs: seq<Calls.Flight>, key: string): nat {
    if fs == [] then 0 else FlightsWith(fs[..|fs| - 1], key) + if KeyOf(fs[|fs| - 1].req) == key then 1 else 0
  }

  function StoredWith(es: seq<ExpenseRecord>, key: string): nat {
    if es == [] then 0 else StoredWith(es[..|es| - 1], key) + if es[|es| - 1].idempotencyKey == Some(key) then 1 else 0
  }

  lemma {:induction false} FlightsWithMore(fs: seq<Calls.Flight>, f: Calls.Flight, key: string)
    ensures FlightsWith(fs + [f], key) == FlightsWith(fs, key) + if KeyOf(f.req) == key then 1 else 0
  {
    assert (fs + [f])[..|fs|] == fs;
  }

  lemma {:induction false} WithoutLast(fs: seq<Calls.Flight>, k: nat)
    requires k < |fs|
    ensures Calls.Without(fs, k) ==
            if k == |fs| - 1 then fs[..k] else Calls.Without(fs[..|fs| - 1], k) + [fs[|fs| - 1]]
  {
  }

  lemma {:induction false} FlightsWithout(fs: seq<Calls.Flight>, k: nat, key: string)
    requires k < |fs|
    ensures FlightsWith(fs, key) == FlightsWith(Calls.Without(fs, k), key) + if KeyOf(fs[k].req) == key then 1 else 0
  {
    var n := |fs| - 1;
    WithoutLast(fs, k);
    if k < n {
      FlightsWithout(fs[..n], k, key);
      FlightsWithMore(Calls.Without(fs[..n], k), fs[n], key);
    }
  }

  lemma {:induction false} StoredWithMore(es: seq<ExpenseRecord>, e: ExpenseRecord, key: string)
    ensures StoredWith(es + [e], key) == StoredWith(es, key) + if e.idempotencyKey == Some(key) then 1 else 0
  {
    assert (es + [e])[..|es|] == es;
  }

  lemma {:induction false} HasFlight(fs: seq<Calls.Flight>, k: nat)
    requires k < |fs|
    ensures FlightsWith(fs, KeyOf(fs[k].req)) >= 1
  {
    FlightsWithout(fs, k, KeyOf(fs[k].req));
  }

  /** The gate's counters and responses for a key are the journals and the expense that exist. */
  ghost predicate Told(s: State, format: ExpenseRecord -> Gate.Response, key: string) {
    var store := s.calls.world.store;
    && Gate.Journals(s.gate, key) == FlightsWith(s.calls.flights, key) + StoredWith(store.expenses, key)
    && (key in store.idempotencyKeys <==> key in s.gate.expenses)
    && StoredWith(store.expenses, key) == (if key in store.idempotencyKeys then 1 else 0)
    && (key in store.idempotencyKeys ==>
         var e := Existing(store, Some(key)); e.Some? && s.gate.expenses[key] == format(e.value))
  }

  ghost predicate Matched(s: State, bodies: seq<Request>) {
    && |s.gate.requests| == |bodies|
    && forall i :: 0 <= i < |bodies| ==> s.gate.requests[i].key == KeyOf(bodies[i])
  }

  /** A flight drawn for a request is the request's. */
  ghost predicate Owned(s: State, bodies: seq<Request>) {
    forall i, k :: 0 <= i < |bodies| && 0 <= k < |s.calls.flights| && i in s.drawn && s.calls.flights[k].draws.expenseId == s.drawn[i] ==>
      s.calls.flights[k].req == bodies[i]
  }

  // ---- One key, whatever happens to the others ----

  /** Ids in flight are not stored and differ from one another. */
  ghost predicate IdsApart(c: Calls.Shared) {
    && (forall j, e :: 0 <= j < |c.flights| && e in c.world.store.expenses ==> e.id != c.flights[j].draws.expenseId)
    && (forall j, k :: 0 <= j < |c.flights| && 0 <= k < |c.flights| && j != k ==> c.flights[j].draws.expenseId != c.flights[k].draws.expenseId)
  }

  /** A stored key leads to an expense that has it. */
  ghost predicate KeysLead(store: StoreState) {
    forall key :: key in store.idempotencyKeys ==>
      key != "" && Existing(store, Some(key)).Some? && Existing(store, Some(key)).value.idempotencyKey == Some(key)
  }

  /** What holds whatever keys are used and reused. */
  ghost predicate Shaped(s: State, bodies: seq<Request>) {
    Matched(s, bodies) && Owned(s, bodies) && IdsApart(s.calls) && KeysLead(s.calls.world.store)
  }

  lemma {:induction false} RequestsKeepKeys(g: Gate.State, a: Gate.Step)
    ensures |Gate.Next(g, a).requests| == |g.requests|
    ensures forall i :: 0 <= i < |g.requests| ==> Gate.Next(g, a).requests[i].key == g.requests[i].key
  {
  }

  lemma {:induction false} OutsideLeavesCounts(g: Gate.State, a: Gate.Step)
    requires IsOutside(a.kind)
    ensures Gate.Next(g, a).journals == g.journals && Gate.Next(g, a).expenses == g.expenses
  {
  }

  lemma {:induction false} SameTold(s: State, t: State, format: ExpenseRecord -> Gate.Response, key: string)
    requires Told(s, format, key) && t.gate.journals == s.gate.journals && t.gate.expenses == s.gate.expenses
    requires t.calls.flights == s.calls.flights
    requires t.calls.world.store.expenses == s.calls.world.store.expenses
    requires t.calls.world.store.idempotencyKeys == s.calls.world.store.idempotencyKeys
    ensures Told(t, format, key)
  {
  }

  // ---- Executing a call ----

  /** What beginning a call does: one flight and one journal more, or nothing. */
  lemma {:induction false} BegunAdds(hash: string -> string, req: Request, s: State, d: Draws, now: int)
    requires FreshDraws(s.calls.world, d)
    ensures var t := Begun(hash, req, s, d, now);
      && t.world.store == s.calls.world.store
      && (|t.flights| > |s.calls.flights| ==>
           && t.flights == s.calls.flights + [Calls.Flight(req, Validate(req, s.calls.world.store).value, d, now)]
           && |t.world.ledger.journals| == |s.calls.world.ledger.journals| + 1)
      && (|t.flights| <= |s.calls.flights| ==> t == s.calls)
  {
    var v := Validate(req, s.calls.world.store);
    if v.Success? {
      WrappersNeverUnbalanced(hash, s.calls.world.ledger, PostingCall(req, v.value, d, now));
      if PostExpense(hash, s.calls.world.ledger, req.payerId, v.value, req.title, d.ledgerIds, now).1.Posted? {
        LedgerMoves(hash, s.calls.world.ledger, req.payerId, v.value, req.title, d.ledgerIds, now);
      }
    }
  }

  lemma {:induction false} PostJournalTold(s: State, t: State, format: ExpenseRecord -> Gate.Response, i: nat, f: Calls.Flight, now: int, key: string)
    requires Told(s, format, key) && CanExecute(s, i, now) && s.gate.requests[i].key == KeyOf(f.req)
    requires t.gate == Gate.Next(s.gate, Gate.Step(i, Gate.PostJournal, now))
    requires t.calls.world.store == s.calls.world.store && t.calls.flights == s.calls.flights + [f]
    ensures Told(t, format, key)
  {
    FlightsWithMore(s.calls.flights, f, key);
  }

  lemma {:induction false} OneMoreOwned(s: State, t: State, bodies: seq<Request>, i: nat, f: Calls.Flight)
    requires Owned(s, bodies) && i < |bodies| && f.req == bodies[i]
    requires t.calls.flights == s.calls.flights + [f] && t.drawn == s.drawn[i := f.draws.expenseId]
    requires f.draws.expenseId !in s.drawn.Values
    requires forall j :: 0 <= j < |s.calls.flights| ==> s.calls.flights[j].draws.expenseId != f.draws.expenseId
    ensures Owned(t, bodies)
  {
    forall j, k | 0 <= j < |bodies| && 0 <= k < |t.calls.flights| && j in t.drawn && t.calls.flights[k].draws.expenseId == t.drawn[j]
      ensures t.calls.flights[k].req == bodies[j]
    {
      if j != i {
        assert s.drawn[j] in s.drawn.Values;
      }
    }
  }

  lemma {:induction false} OneMoreApart(c: Calls.Shared, t: Calls.Shared, f: Calls.Flight)
    requires IdsApart(c) && t.world.store == c.world.store && t.flights == c.flights + [f]
    requires forall e :: e in c.world.store.expenses ==> e.id != f.draws.expenseId
    requires forall j :: 0 <= j < |c.flights| ==> c.flights[j].draws.expenseId != f.draws.expenseId
    ensures IdsApart(t)
  {
  }

  lemma {:induction false} ExecuteKeepsKey(hash: string -> string, format: ExpenseRecord -> Gate.Response, bodies: seq<Request>, s: State,
                                           i: nat, d: Draws, now: int, key: string)
    requires Shaped(s, bodies) && Fresh(s, Execute(i, d, now)) && CanExecute(s, i, now) && i < |bodies|
    requires key != "" ==> Gate.Guarded(s.gate, key) && Told(s, format, key)
    ensures var t := Next(hash, format, bodies, s, Execute(i, d, now));
      Shaped(t, bodies) && (key != "" ==> Gate.Guarded(t.gate, key) && Told(t, format, key))
  {
    var t := Next(hash, format, bodies, s, Execute(i, d, now));
    var begun := Begun(hash, bodies[i], s, d, now);
    var kind := if |begun.flights| > |s.calls.flights| then Gate.PostJournal else Gate.Reject;
    BegunAdds(hash, bodies[i], s, d, now);
    RequestsKeepKeys(s.gate, Gate.Step(i, kind, now));
    if key != "" {
      Gate.NextKeepsGuarded(s.gate, Gate.Step(i, kind, now), key);
    }
    if kind.PostJournal? {
      var f := begun.flights[|s.calls.flights|];
      OneMoreOwned(s, t, bodies, i, f);
      OneMoreApart(s.calls, t.calls, f);
      if key != "" {
        PostJournalTold(s, t, format, i, f, now, key);
      }
    } else if key != "" {
      SameTold(s, t, format, key);
    }
  }

  // ---- Reaching the store ----

  lemma {:induction false} FindOther(es: seq<ExpenseRecord>, e: ExpenseRecord, id: string)
    requires Find(es, e.id).Some?
    ensures Find(Put(es, e), id) == if id == e.id then Some(e) else Find(es, id)
  {
    if es[0].id != e.id {
      FindOther(es[1..], e, id);
    }
  }

  lemma {:induction false} StoredWithCons(e: ExpenseRecord, es: seq<ExpenseRecord>, key: string)
    ensures StoredWith([e] + es, key) == (if e.idempotencyKey == Some(key) then 1 else 0) + StoredWith(es, key)
  {
    if es == [] {
      assert [e] + es == [] + [e];
      StoredWithMore([], e, key);
    } else {
      var n := |es| - 1;
      assert [e] + es == ([e] + es[..n]) + [es[n]];
      StoredWithCons(e, es[..n], key);
      StoredWithMore([e] + es[..n], es[n], key);
    }
  }

  /** Writing a record over the one found under its id. */
  lemma {:induction false} StoredWithPut(es: seq<ExpenseRecord>, e: ExpenseRecord, key: string)
    requires Find(es, e.id).Some? && Find(es, e.id).value.idempotencyKey == e.idempotencyKey
    ensures StoredWith(Put(es, e), key) == StoredWith(es, key)
  {
    var first, rest := es[0], es[1..];
    assert es == [first] + rest;
    StoredWithCons(first, rest, key);
    if first.id == e.id {
      StoredWithCons(e, rest, key);
    } else {
      StoredWithPut(rest, e, key);
      StoredWithCons(first, Put(rest, e), key);
    }
  }

  /** The second half of a call whose key is not stored, and whose id is fresh. */
  lemma {:induction false} RecordStores(w: World, f: Calls.Flight)
    requires (forall e :: e in w.store.expenses ==> e.id != f.draws.expenseId) && Existing(w.store, f.req.idempotencyKey) == None
    ensures var (w', e) := Recorded(w, f.req, f.splits, f.draws, f.now);
      && w'.ledger == w.ledger && w'.store.expenses == w.store.expenses + [e]
      && w'.store.idempotencyKeys == (if KeyOf(f.req) != "" then w.store.idempotencyKeys[KeyOf(f.req) := e.id] else w.store.idempotencyKeys)
      && e.id == f.draws.expenseId && e.idempotencyKey == f.req.idempotencyKey
  {
    var n := NewExpense(f.draws.expenseId, f.req.groupId, f.req.payerId, f.req.title, f.req.totalCents, f.req.splitType, f.splits, f.req.idempotencyKey);
    PutNew(w.store.expenses, n);
    PutAgain(w.store.expenses, n, n.(journalId := Some(f.draws.ledgerIds.journal)));
  }

  /** The second half of a call whose key is stored writes over the first expense. */
  lemma {:induction false} RecordRewrites(w: World, f: Calls.Flight)
    requires KeysLead(w.store) && Existing(w.store, f.req.idempotencyKey).Some?
    ensures var (w', e) := Recorded(w, f.req, f.splits, f.draws, f.now);
      && w'.store.idempotencyKeys == w.store.idempotencyKeys && w'.store.expenses == Put(w.store.expenses, e)
      && e.idempotencyKey == f.req.idempotencyKey && e.id == w.store.idempotencyKeys[KeyOf(f.req)]
      && Find(w.store.expenses, e.id).Some? && Find(w.store.expenses, e.id).value.idempotencyKey == e.idempotencyKey
  {
    var key := KeyOf(f.req);
    assert key in w.store.idempotencyKeys && f.req.idempotencyKey == Some(key);
    FindHasId(w.store.expenses, w.store.idempotencyKeys[key]);
  }

  lemma {:induction false} GateCreates(g: Gate.State, i: nat, r: Gate.Response, now: int)
    requires i < |g.requests| && g.requests[i].phase.Posted? && now >= g.now
    ensures var g', key := Gate.Next(g, Gate.Step(i, Gate.Create(r), now)), g.requests[i].key;
      g'.journals == g.journals && g'.expenses == g.expenses[key := if key != "" && key in g.expenses then g.expenses[key] else r]
  {
  }

  /** What a call's second half does to the expense under a key, and to the expenses with it. */
  lemma {:induction false} RecordedUnderKey(c: Calls.Shared, k: nat, key: string)
    requires IdsApart(c) && KeysLead(c.world.store) && k < |c.flights| && key != ""
    ensures var f := c.flights[k];
      var own := KeyOf(f.req);
      var (w', e) := Recorded(c.world, f.req, f.splits, f.draws, f.now);
      && (key in w'.store.idempotencyKeys <==> key in c.world.store.idempotencyKeys || key == own)
      && (key in w'.store.idempotencyKeys ==>
           Existing(w'.store, Some(key)) == if key == own then Some(e) else Existing(c.world.store, Some(key)))
      && e.idempotencyKey == f.req.idempotencyKey
      && StoredWith(w'.store.expenses, key) ==
           StoredWith(c.world.store.expenses, key) + if key == own && key !in c.world.store.idempotencyKeys then 1 else 0
  {
    var f := c.flights[k];
    var own, store := KeyOf(f.req), c.world.store;
    var (w', e) := Recorded(c.world, f.req, f.splits, f.draws, f.now);
    if Existing(store, f.req.idempotencyKey).Some? {
      RecordRewrites(c.world, f);
      StoredWithPut(store.expenses, e, key);
      if key in store.idempotencyKeys {
        FindOther(store.expenses, e, store.idempotencyKeys[key]);
      }
    } else {
      assert own !in store.idempotencyKeys;
      RecordStores(c.world, f);
      StoredWithMore(store.expenses, e, key);
      if key in w'.store.idempotencyKeys {
        FindAppended(store.expenses, e, w'.store.idempotencyKeys[key]);
        if key != own {
          FindMember(store.expenses, store.idempotencyKeys[key]);
          FindHasId(store.expenses, store.idempotencyKeys[key]);
        }
      }
    }
  }

  lemma {:induction false} CreateTold(s: State, t: State, format: ExpenseRecord -> Gate.Response, i: nat, k: nat, now: int, key: string)
    requires Told(s, format, key) && Gate.Guarded(s.gate, key) && key != ""
    requires i < |s.gate.requests| && s.gate.requests[i].phase.Posted? && now >= s.gate.now && k < |s.calls.flights|
    requires IdsApart(s.calls) && KeysLead(s.calls.world.store) && s.gate.requests[i].key == KeyOf(s.calls.flights[k].req)
    requires var f := s.calls.flights[k];
      var (w', e) := Recorded(s.calls.world, f.req, f.splits, f.draws, f.now);
      t.calls.world == w' && t.gate == Gate.Next(s.gate, Gate.Step(i, Gate.Create(format(e)), now))
    requires t.calls.flights == Calls.Without(s.calls.flights, k)
    ensures Told(t, format, key)
  {
    var f := s.calls.flights[k];
    var e := Recorded(s.calls.world, f.req, f.splits, f.draws, f.now).1;
    RecordedUnderKey(s.calls, k, key);
    FlightsWithout(s.calls.flights, k, key);
    GateCreates(s.gate, i, format(e), now);
    if KeyOf(f.req) == key {
      assert Gate.PhaseFits(s.gate, s.gate.requests[i]);
    }
    assert Gate.Journals(t.gate, key) == Gate.Journals(s.gate, key);
  }

  /** Every expense after a call's second half has an id that was stored, or the call's own. */
  lemma {:induction false} RecordedIds(c: Calls.Shared, k: nat)
    requires IdsApart(c) && KeysLead(c.world.store) && k < |c.flights|
    ensures var f := c.flights[k];
      forall x :: x in Recorded(c.world, f.req, f.splits, f.draws, f.now).0.store.expenses ==>
        x.id == f.draws.expenseId || exists y :: y in c.world.store.expenses && y.id == x.id
  {
    var f := c.flights[k];
    var e := Recorded(c.world, f.req, f.splits, f.draws, f.now).1;
    if Existing(c.world.store, f.req.idempotencyKey).Some? {
      RecordRewrites(c.world, f);
      PutMembers(c.world.store.expenses, e);
      FindMember(c.world.store.expenses, e.id);
      FindHasId(c.world.store.expenses, e.id);
    } else {
      RecordStores(c.world, f);
    }
  }

  lemma {:induction false} OneLessApart(c: Calls.Shared, t: Calls.Shared, k: nat)
    requires IdsApart(c) && KeysLead(c.world.store) && k < |c.flights| && t.flights == Calls.Without(c.flights, k)
    requires var f := c.flights[k]; t.world == Recorded(c.world, f.req, f.splits, f.draws, f.now).0
    ensures IdsApart(t)
  {
    RecordedIds(c, k);
    assert forall j :: 0 <= j < |t.flights| ==> t.flights[j] == c.flights[if j < k then j else j + 1];
  }

  lemma {:induction false} KeysStillLead(c: Calls.Shared, store: StoreState, k: nat)
    requires IdsApart(c) && KeysLead(c.world.store) && k < |c.flights|
    requires var f := c.flights[k]; store == Recorded(c.world, f.req, f.splits, f.draws, f.now).0.store
    ensures KeysLead(store)
  {
    var f := c.flights[k];
    if Existing(c.world.store, f.req.idempotencyKey).Some? {
      RecordRewrites(c.world, f);
    } else {
      RecordStores(c.world, f);
    }
    forall key | key in store.idempotencyKeys
      ensures key != "" && Existing(store, Some(key)).Some? && Existing(store, Some(key)).value.idempotencyKey == Some(key)
    {
      assert key != "";
      RecordedUnderKey(c, k, key);
    }
  }

  lemma {:induction false} RecordKeepsKey(hash: string -> string, format: ExpenseRecord -> Gate.Response, bodies: seq<Request>, s: State, i: nat, k: nat, now: int, key: string)
    requires Shaped(s, bodies) && CanRecord(s, i, k, now)
    requires key != "" ==> Gate.Guarded(s.gate, key) && Told(s, format, key)
    ensures var t := Next(hash, format, bodies, s, Record(i, k, now));
      Shaped(t, bodies) && (key != "" ==> Gate.Guarded(t.gate, key) && Told(t, format, key))
  {
    var t := Next(hash, format, bodies, s, Record(i, k, now));
    var f := s.calls.flights[k];
    var e := Recorded(s.calls.world, f.req, f.splits, f.draws, f.now).1;
    var step := Gate.Step(i, Gate.Create(format(e)), now);
    assert f.req == bodies[i];
    RequestsKeepKeys(s.gate, step);
    OneLessApart(s.calls, t.calls, k);
    KeysStillLead(s.calls, t.calls.world.store, k);
    if key != "" {
      Gate.NextKeepsGuarded(s.gate, step, key);
      CreateTold(s, t, format, i, k, now, key);
    }
  }

  // ---- Runs, for one key ----

  /** Administration only adds groups and members. */
  lemma {:induction false} AdminAddsGroups(hash: string -> string, c: Calls.Shared, m: Calls.Move) returns (groups: map<string, GroupRecord>)
    requires m.NewGroup? || m.Join?
    ensures c.world.store.groups.Keys <= groups.Keys
    ensures Calls.Next(hash, c, m) == c.(world := c.world.(store := c.world.store.(groups := groups)))
  {
    groups := Calls.Next(hash, c, m).world.store.groups;
  }

  lemma {:induction false} SameShaped(s: State, t: State, bodies: seq<Request>)
    requires Shaped(s, bodies) && Matched(t, bodies) && t.drawn == s.drawn && t.calls.flights == s.calls.flights
    requires t.calls.world.store.expenses == s.calls.world.store.expenses
    requires t.calls.world.store.idempotencyKeys == s.calls.world.store.idempotencyKeys
    ensures Shaped(t, bodies)
  {
    forall key | key in t.calls.world.store.idempotencyKeys
      ensures key != "" && Existing(t.calls.world.store, Some(key)).Some? && Existing(t.calls.world.store, Some(key)).value.idempotencyKey == Some(key)
    {
      assert Existing(t.calls.world.store, Some(key)) == Existing(s.calls.world.store, Some(key));
    }
  }

  lemma {:induction false} NextKeepsKey(hash: string -> string, format: ExpenseRecord -> Gate.Response, bodies: seq<Request>, s: State, a: Event, key: string)
    requires Shaped(s, bodies) && Fresh(s, a)
    requires key != "" ==> Gate.Guarded(s.gate, key) && Told(s, format, key) && Lives(s, a, key)
    ensures var t := Next(hash, format, bodies, s, a);
      Shaped(t, bodies) && (key != "" ==> Gate.Guarded(t.gate, key) && Told(t, format, key))
  {
    var t := Next(hash, format, bodies, s, a);
    match a
    case Outside(step) =>
      if IsOutside(step.kind) {
        RequestsKeepKeys(s.gate, step);
        OutsideLeavesCounts(s.gate, step);
        SameShaped(s, t, bodies);
        if key != "" {
          Gate.NextKeepsGuarded(s.gate, step, key);
          SameTold(s, t, format, key);
        }
      }
    case Execute(i, d, now) =>
      if CanExecute(s, i, now) && i < |bodies| {
        ExecuteKeepsKey(hash, format, bodies, s, i, d, now, key);
      }
    case Record(i, k, now) =>
      if CanRecord(s, i, k, now) {
        RecordKeepsKey(hash, format, bodies, s, i, k, now, key);
      }
    case Admin(m) =>
      if m.NewGroup? || m.Join? {
        var groups := AdminAddsGroups(hash, s.calls, m);
        SameShaped(s, t, bodies);
        if key != "" {
          SameTold(s, t, format, key);
        }
      }
  }

  lemma {:induction false} RunKeepsKey(hash: string -> string, format: ExpenseRecord -> Gate.Response, bodies: seq<Request>, now: int, events: seq<Event>, key: string)
    requires AllFresh(hash, format, bodies, now, events)
    requires key != "" ==> AllLive(hash, format, bodies, now, events, key)
    ensures var s := Exec(hash, format, bodies, now, events);
      Shaped(s, bodies) && (key != "" ==> Gate.Guarded(s.gate, key) && Told(s, format, key))
  {
    if events != [] {
      var n := |events| - 1;
      RunKeepsKey(hash, format, bodies, now, events[..n], key);
      NextKeepsKey(hash, format, bodies, Exec(hash, format, bodies, now, events[..n]), events[n], key);
    }
  }

  /**
   * In every interleaving of requests in which none with this key finds the key's entry expired,
   * whatever other requests do: at most one expense is stored or in flight with the key, and every
   * request with it that gets a response gets that of the one stored expense.
   */
  lemma {:induction false} OneExpensePerKey(hash: string -> string, format: ExpenseRecord -> Gate.Response, bodies: seq<Request>, now: int, events: seq<Event>, key: string)
    requires key != "" && AllFresh(hash, format, bodies, now, events) && AllLive(hash, format, bodies, now, events, key)
    ensures var s := Exec(hash, format, bodies, now, events);
      && StoredWith(s.calls.world.store.expenses, key) + FlightsWith(s.calls.flights, key) <= 1
      && forall i :: 0 <= i < |s.gate.requests| && s.gate.requests[i].key == key && s.gate.requests[i].phase.Done? ==>
           var o := s.gate.requests[i].phase.outcome;
           o.Answered? || o.Replayed? ==>
             Existing(s.calls.world.store, Some(key)).Some? && o.response == format(Existing(s.calls.world.store, Some(key)).value)
  {
    RunKeepsKey(hash, format, bodies, now, events, key);
    var s := Exec(hash, format, bodies, now, events);
    forall i | 0 <= i < |s.gate.requests| && s.gate.requests[i].key == key
      ensures Gate.PhaseFits(s.gate, s.gate.requests[i])
    {
    }
  }

  // ---- Ledger and store, when that holds for every key ----

  /** A request that holds the lock is free to begin: its key is neither stored nor in flight. */
  lemma {:induction false} LockedIsFree(s: State, format: ExpenseRecord -> Gate.Response, bodies: seq<Request>, i: nat, d: Draws, now: int)
    requires Shaped(s, bodies) && Fresh(s, Execute(i, d, now)) && CanExecute(s, i, now) && i < |bodies|
    requires var key := KeyOf(bodies[i]); key != "" ==> Gate.Guarded(s.gate, key) && Told(s, format, key)
    ensures Calls.Free(s.calls, Calls.Begin(bodies[i], d, now))
  {
    var key := KeyOf(bodies[i]);
    if key != "" {
      assert Gate.PhaseFits(s.gate, s.gate.requests[i]);
      forall j | 0 <= j < |s.calls.flights|
        ensures KeyOf(s.calls.flights[j].req) != key
      {
        HasFlight(s.calls.flights, j);
      }
    }
  }

  /** One journal for each stored expense and each call in flight. */
  ghost predicate Counted(c: Calls.Shared) {
    |c.world.ledger.journals| == |c.world.store.expenses| + |c.flights|
  }

  lemma {:induction false} ExecuteStaysConsistent(hash: string -> string, format: ExpenseRecord -> Gate.Response, bodies: seq<Request>, s: State, i: nat, d: Draws, now: int)
    requires Calls.Consistent(s.calls) && Counted(s.calls) && Shaped(s, bodies) && Fresh(s, Execute(i, d, now))
    requires CanExecute(s, i, now) && i < |bodies|
    requires var key := KeyOf(bodies[i]); key != "" ==> Gate.Guarded(s.gate, key) && Told(s, format, key)
    ensures var c := Begun(hash, bodies[i], s, d, now); Calls.Consistent(c) && Counted(c)
  {
    LockedIsFree(s, format, bodies, i, d, now);
    Calls.BeginKeeps(hash, s.calls, bodies[i], d, now);
    BegunAdds(hash, bodies[i], s, d, now);
  }

  lemma {:induction false} RecordStaysConsistent(hash: string -> string, c: Calls.Shared, k: nat)
    requires Calls.Consistent(c) && Counted(c) && k < |c.flights|
    ensures var c' := Calls.Next(hash, c, Calls.Record(k)); Calls.Consistent(c') && Counted(c')
  {
    assert Calls.FlightFree(c.world.store, c.flights[k]);
    RecordStores(c.world, c.flights[k]);
    Calls.RecordKeeps(hash, c, k);
  }

  lemma {:induction false} AdminStaysConsistent(hash: string -> string, c: Calls.Shared, m: Calls.Move)
    requires Calls.Consistent(c) && Counted(c) && (m.NewGroup? || m.Join?)
    ensures var c' := Calls.Next(hash, c, m); Calls.Consistent(c') && Counted(c')
  {
    var groups := AdminAddsGroups(hash, c, m);
    Calls.GroupsKeep(c, groups);
  }

  /** What an event does to the calls. */
  lemma {:induction false} WhatCallsDo(hash: string -> string, format: ExpenseRecord -> Gate.Response, bodies: seq<Request>, s: State, a: Event)
    ensures var c := Next(hash, format, bodies, s, a).calls;
      || c == s.calls
      || (a.Execute? && CanExecute(s, a.i, a.now) && a.i < |bodies| && c == Begun(hash, bodies[a.i], s, a.draws, a.now))
      || (a.Record? && a.k < |s.calls.flights| && c == Calls.Next(hash, s.calls, Calls.Record(a.k)))
      || (a.Admin? && (a.move.NewGroup? || a.move.Join?) && c == Calls.Next(hash, s.calls, a.move))
  {
  }

  lemma {:induction false} CallsStayConsistent(hash: string -> string, format: ExpenseRecord -> Gate.Response, bodies: seq<Request>, s: State, a: Event)
    requires Calls.Consistent(s.calls) && Counted(s.calls) && Shaped(s, bodies) && Fresh(s, a)
    requires a.Execute? && a.i < |bodies| && KeyOf(bodies[a.i]) != "" ==>
               Gate.Guarded(s.gate, KeyOf(bodies[a.i])) && Told(s, format, KeyOf(bodies[a.i]))
    ensures Calls.Consistent(Next(hash, format, bodies, s, a).calls) && Counted(Next(hash, format, bodies, s, a).calls)
  {
    var c := Next(hash, format, bodies, s, a).calls;
    WhatCallsDo(hash, format, bodies, s, a);
    if c != s.calls {
      if a.Execute? {
        ExecuteStaysConsistent(hash, format, bodies, s, a.i, a.draws, a.now);
      } else if a.Record? {
        RecordStaysConsistent(hash, s.calls, a.k);
      } else {
        AdminStaysConsistent(hash, s.calls, a.move);
      }
    }
  }

  lemma {:induction false} RunStaysConsistent(hash: string -> string, format: ExpenseRecord -> Gate.Response, bodies: seq<Request>, now: int, events: seq<Event>)
    requires AllFresh(hash, format, bodies, now, events)
    requires forall key :: key != "" ==> AllLive(hash, format, bodies, now, events, key)
    ensures var c := Exec(hash, format, bodies, now, events).calls; Calls.Consistent(c) && Counted(c)
  {
    if events == [] {
      EmptyAgrees();
    } else {
      var n := |events| - 1;
      var s := Exec(hash, format, bodies, now, events[..n]);
      forall key | key != ""
        ensures AllLive(hash, format, bodies, now, events[..n], key)
      {
        assert AllLive(hash, format, bodies, now, events, key);
      }
      RunStaysConsistent(hash, format, bodies, now, events[..n]);
      RunKeepsKey(hash, format, bodies, now, events[..n], "");
      forall key | key != ""
        ensures Gate.Guarded(s.gate, key) && Told(s, format, key)
      {
        RunKeepsKey(hash, format, bodies, now, events[..n], key);
      }
      CallsStayConsistent(hash, format, bodies, s, events[n]);
    }
  }

  /**
   * In every interleaving of requests, with whatever keys, in which no request finds the entry of its
   * key expired: wallets less the calls in flight are the store's balances; when none is in flight,
   * ledger and store agree completely; and there is one journal for each stored expense and each call
   * in flight. A call that is cancelled between journal and store stays in flight for good.
   */
  lemma {:induction false} GatedRequestsAgree(hash: string -> string, format: ExpenseRecord -> Gate.Response, bodies: seq<Request>, now: int, events: seq<Event>)
    requires AllFresh(hash, format, bodies, now, events)
    requires forall key :: key != "" ==> AllLive(hash, format, bodies, now, events, key)
    ensures var c := Exec(hash, format, bodies, now, events).calls;
      && (forall u :: Balance(c.world.ledger.entries, Wallet(u)) - Calls.FlightNet(c.flights, u) == StoreNet(c.world.store, u))
      && (c.flights == [] ==> Agrees(c.world))
      && |c.world.ledger.journals| == |c.world.store.expenses| + |c.flights|
  {
    RunStaysConsistent(hash, format, bodies, now, events);
  }

  // ---- A key that has expired ----

  lemma {:induction false} GatePosts(g: Gate.State, i: nat, now: int)
    requires i < |g.requests| && g.requests[i].phase.Locked? && now >= g.now
    ensures var g', key := Gate.Next(g, Gate.Step(i, Gate.PostJournal, now)), g.requests[i].key;
      && Gate.Journals(g', key) == Gate.Journals(g, key) + 1
      && |g'.requests| == |g.requests| && g'.requests[i].phase.Posted? && g'.now == now
  {
  }

  /** An accepted call of a request that holds the lock posts one more journal. */
  lemma {:induction false} LockedCallPosts(hash: string -> string, format: ExpenseRecord -> Gate.Response, bodies: seq<Request>, t: State, i: nat, d: Draws, now: int)
    requires CanExecute(t, i, now) && i < |bodies| && t.gate.requests[i].key == KeyOf(bodies[i])
    requires FreshDraws(t.calls.world, d) && CreateExpense(hash, t.calls.world, bodies[i], d, now).1.Success?
    ensures var u := Next(hash, format, bodies, t, Execute(i, d, now));
      && Gate.Journals(u.gate, KeyOf(bodies[i])) == Gate.Journals(t.gate, KeyOf(bodies[i])) + 1
      && |u.calls.world.ledger.journals| == |t.calls.world.ledger.journals| + 1
      && u.calls.world.store == t.calls.world.store
      && CanRecord(u, i, |t.calls.flights|, now) && u.calls.flights[|t.calls.flights|].req == bodies[i]
  {
    BegunAdds(hash, bodies[i], t, d, now);
    GatePosts(t.gate, i, now);
  }

  /** A call whose key is stored adds no expense. */
  lemma {:induction false} StoredKeyAddsNothing(c: Calls.Shared, f: Calls.Flight, key: string)
    requires KeysLead(c.world.store) && key in c.world.store.idempotencyKeys && KeyOf(f.req) == key
    ensures var w' := Recorded(c.world, f.req, f.splits, f.draws, f.now).0;
      && w'.ledger == c.world.ledger && |w'.store.expenses| == |c.world.store.expenses|
      && StoredWith(w'.store.expenses, key) == StoredWith(c.world.store.expenses, key)
  {
    var e := Recorded(c.world, f.req, f.splits, f.draws, f.now).1;
    assert Existing(c.world.store, Some(key)).Some? && f.req.idempotencyKey == Some(key);
    RecordRewrites(c.world, f);
    StoredWithPut(c.world.store.expenses, e, key);
    PutKeepsLength(c.world.store.expenses, e);
  }

  lemma {:induction false} StoredKeyRecords(hash: string -> string, format: ExpenseRecord -> Gate.Response, bodies: seq<Request>, u: State, i: nat, k: nat, now: int, key: string)
    requires KeysLead(u.calls.world.store) && CanRecord(u, i, k, now)
    requires key in u.calls.world.store.idempotencyKeys && KeyOf(u.calls.flights[k].req) == key
    ensures var w := Next(hash, format, bodies, u, Record(i, k, now)).calls.world;
      && w.ledger == u.calls.world.ledger && |w.store.expenses| == |u.calls.world.store.expenses|
      && StoredWith(w.store.expenses, key) == StoredWith(u.calls.world.store.expenses, key)
  {
    StoredKeyAddsNothing(u.calls, u.calls.flights[k], key);
  }

  /**
   * When an executed key has expired, a request with it whose call is accepted posts a second journal
   * for the key; when the call reaches the store there is still one expense.
   */
  lemma {:induction false} ExpiredKeyPostsAgain(hash: string -> string, format: ExpenseRecord -> Gate.Response, bodies: seq<Request>, s: State,
                                                i: nat, d: Draws, now: int)
    requires i < |bodies| && i < |s.gate.requests| && s.gate.requests[i].key == KeyOf(bodies[i]) != "" && s.gate.requests[i].phase.Start?
    requires KeysLead(s.calls.world.store) && Told(s, format, KeyOf(bodies[i])) && KeyOf(bodies[i]) in s.calls.world.store.idempotencyKeys
    requires now >= s.gate.now && Dead(s.gate.cache, Gate.CacheKey(KeyOf(bodies[i])), now)
    requires FreshDraws(s.calls.world, d) && CreateExpense(hash, s.calls.world, bodies[i], d, now).1.Success?
    ensures var key := KeyOf(bodies[i]);
      var t := Next(hash, format, bodies, s, Outside(Gate.Step(i, Gate.Lock, now)));
      var u := Next(hash, format, bodies, t, Execute(i, d, now));
      var w, w' := s.calls.world, Next(hash, format, bodies, u, Record(i, |s.calls.flights|, now)).calls.world;
      && Gate.Journals(u.gate, key) == Gate.Journals(s.gate, key) + 1 >= 2
      && |w'.ledger.journals| == |w.ledger.journals| + 1
      && |w'.store.expenses| == |w.store.expenses| && StoredWith(w'.store.expenses, key) == 1
  {
    var t := Next(hash, format, bodies, s, Outside(Gate.Step(i, Gate.Lock, now)));
    LockedCallPosts(hash, format, bodies, t, i, d, now);
    var u := Next(hash, format, bodies, t, Execute(i, d, now));
    StoredKeyRecords(hash, format, bodies, u, i, |s.calls.flights|, now, KeyOf(bodies[i]));
  }

  lemma {:induction false} PutKeepsLength(es: seq<ExpenseRecord>, e: ExpenseRecord)
    requires Find(es, e.id).Some?
    ensures |Put(es, e)| == |es|
  {
    if es[0].id != e.id {
      PutKeepsLength(es[1..], e);
    }
  }
}
