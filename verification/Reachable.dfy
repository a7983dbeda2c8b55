/**
 * What holds in every world that interleaved calls of the service can reach, besides the agreement
 * of its two records. Sequential runs are among them.
 */
module Reachable {
  import opened NetBalances
  import opened Ledger
  import opened LedgerRuns
  import opened Store
  import opened ExpenseService
  import opened Agreement
  import Calls = ConcurrentExpenses

  // ---- The ledger passes its audit ----

  /** The clock does not run backwards, and is not past now. */
  predicate Timely(moves: seq<Calls.Move>, now: int) {
    moves == [] ||
    var before, m := moves[..|moves| - 1], moves[|moves| - 1];
    if m.Begin? then m.now <= now && Timely(before, m.now) else Timely(before, now)
  }

  lemma {:induction false} BeginIsSound(hash: string -> string, c: Calls.Shared, req: Request, d: Draws, earlier: int, now: int)
    requires Sound(hash, c.world.ledger, earlier) && earlier <= now
    ensures Sound(hash, Calls.Next(hash, c, Calls.Begin(req, d, now)).world.ledger, now)
  {
    var v := Validate(req, c.world.store);
    if v.Success? {
      WrappersNeverUnbalanced(hash, c.world.ledger, PostingCall(req, v.value, d, now));
      PostKeepsSound(hash, c.world.ledger, ExpenseSpecs(req.payerId, v.value, req.title, ExpenseClearing(d.ledgerIds.clearing)),
                     req.title, d.ledgerIds, earlier, now);
    }
  }

  lemma {:induction false} RunIsSound(hash: string -> string, moves: seq<Calls.Move>, now: int)
    requires Timely(moves, now)
    ensures Sound(hash, Calls.Exec(hash, moves).world.ledger, now)
  {
    if moves != [] {
      var before, m := moves[..|moves| - 1], moves[|moves| - 1];
      if m.Begin? {
        RunIsSound(hash, before, m.now);
        BeginIsSound(hash, Calls.Exec(hash, before), m.req, m.draws, m.now, m.now);
      } else {
        RunIsSound(hash, before, now);
      }
    }
  }

  /** Whatever is called and however calls interleave, under a clock that does not run backwards: the ledger passes the audit. */
  lemma {:induction false} EveryWorldPassesAudit(hash: string -> string, moves: seq<Calls.Move>, now: int)
    requires Timely(moves, now)
    ensures var s := Calls.Exec(hash, moves).world.ledger;
      && Audit(hash, s.entries) == [] && Side(s.entries, DEBIT) == Side(s.entries, CREDIT)
      && forall a :: Head(s.heads, a) == LastHash(Timeline(s.entries, a))
  {
    var s := Calls.Exec(hash, moves).world.ledger;
    RunIsSound(hash, moves, now);
    ChainedPassesAudit(hash, s.entries);
    forall a
      ensures Head(s.heads, a) == LastHash(Timeline(s.entries, a))
    {
      HeadIsLastHash(s.entries, a);
      TimelineIsLedgerOrder(s.entries, a);
    }
  }

  // ---- Groups ----

  /** No group lists a member twice, and versions count members. */
  lemma {:induction false} EveryWorldIsTidy(hash: string -> string, moves: seq<Calls.Move>)
    ensures GroupsTidy(Calls.Exec(hash, moves).world.store.groups)
  {
    if moves != [] {
      var c, m := Calls.Exec(hash, moves[..|moves| - 1]), moves[|moves| - 1];
      EveryWorldIsTidy(hash, moves[..|moves| - 1]);
      match m
      case NewGroup(_, _) =>
      case Join(g, u) => MemberAddedIsTidy(c.world.store, g, u);
      case _ =>
    }
  }

  // ---- Stored expenses ----

  /** Every share of somebody other than the payer is at least a cent. */
  ghost predicate Accepted(t: Tx) {
    forall i :: 0 <= i < |t.splits| && t.splits[i].userId != t.payerId ==> t.splits[i].amountCents >= 1
  }

  ghost predicate AllAccepted(c: Calls.Shared) {
    && (forall e :: e in c.world.store.expenses ==> Accepted(Tx(e.payerId, e.splits)))
    && (forall f :: f in c.flights ==> Accepted(Tx(f.req.payerId, f.splits)))
  }

  lemma {:induction false} BeginKeepsAccepted(hash: string -> string, c: Calls.Shared, req: Request, d: Draws, now: int)
    requires AllAccepted(c)
    ensures AllAccepted(Calls.Next(hash, c, Calls.Begin(req, d, now)))
  {
    var v := Validate(req, c.world.store);
    if v.Success? {
      PostedIff(hash, c.world.ledger, req.payerId, v.value, req.title, d.ledgerIds, now);
    }
  }

  lemma {:induction false} RecordKeepsAccepted(hash: string -> string, c: Calls.Shared, k: nat)
    requires AllAccepted(c) && k < |c.flights|
    ensures AllAccepted(Calls.Next(hash, c, Calls.Record(k)))
  {
    var f := c.flights[k];
    var n := NewExpense(f.draws.expenseId, f.req.groupId, f.req.payerId, f.req.title, f.req.totalCents, f.req.splitType, f.splits, f.req.idempotencyKey);
    var (store, e) := Created(c.world.store, n);
    assert f in c.flights;
    PutMembers(c.world.store.expenses, n);
    PutMembers(store.expenses, Renamed(e, f.draws.ledgerIds.journal));
    if Existing(c.world.store, f.req.idempotencyKey).Some? {
      FindMember(c.world.store.expenses, c.world.store.idempotencyKeys[f.req.idempotencyKey.value]);
    }
    assert forall g :: g in Calls.Without(c.flights, k) ==> g in c.flights;
  }

  /** Every expense stored or in flight is one that the ledger accepts, whatever is called and however often. */
  lemma {:induction false} StoredAreAccepted(hash: string -> string, moves: seq<Calls.Move>)
    ensures AllAccepted(Calls.Exec(hash, moves))
  {
    if moves != [] {
      var c, m := Calls.Exec(hash, moves[..|moves| - 1]), moves[|moves| - 1];
      StoredAreAccepted(hash, moves[..|moves| - 1]);
      match m
      case Begin(req, d, now) => BeginKeepsAccepted(hash, c, req, d, now);
      case Record(k) =>
        if k < |c.flights| {
          RecordKeepsAccepted(hash, c, k);
        }
      case _ =>
    }
  }

  lemma {:induction false} ForGroupMembers(es: seq<ExpenseRecord>, g: string)
    ensures forall e :: e in ForGroup(es, g) ==> e in es
  {
    if es != [] {
      ForGroupMembers(es[1..], g);
      assert es == [es[0]] + es[1..];
    }
  }

  /** The transactions of a group of a reachable world. */
  lemma {:induction false} GroupIsAccepted(hash: string -> string, moves: seq<Calls.Move>, g: string)
    ensures forall t :: t in RawTxs(ForGroup(Calls.Exec(hash, moves).world.store.expenses, g)) ==> Accepted(t)
  {
    var mine := ForGroup(Calls.Exec(hash, moves).world.store.expenses, g);
    StoredAreAccepted(hash, moves);
    ForGroupMembers(Calls.Exec(hash, moves).world.store.expenses, g);
    forall t | t in RawTxs(mine)
      ensures Accepted(t)
    {
      var i :| 0 <= i < |mine| && RawTxs(mine)[i] == t;
      assert mine[i] in mine;
    }
  }
}
