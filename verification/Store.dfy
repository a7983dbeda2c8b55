/** The in-memory store: groups, expenses in creation order, settlements and idempotency keys. */
module Store {
  import opened Options
  import opened DebtMatching
  import opened NetBalances

  datatype GroupRecord = GroupRecord(id: string, name: string, version: nat, memberIds: seq<UserId>)

  datatype ExpenseRecord = ExpenseRecord(
    id: string,
    groupId: string,
    payerId: UserId,
    title: string,
    totalCents: int,
    splitType: string,
    status: string,
    idempotencyKey: Option<string>,
    journalId: Option<string>,
    splits: seq<Split>)

  datatype SettlementRecord = SettlementRecord(
    id: string,
    groupId: string,
    payerId: UserId,
    payeeId: UserId,
    amountCents: int,
    isExecuted: bool,
    algorithm: string,
    checksum: string,
    executedAt: int)

  datatype StoreState = StoreState(
    groups: map<string, GroupRecord>,
    expenses: seq<ExpenseRecord>,
    settlements: map<string, SettlementRecord>,
    idempotencyKeys: map<string, string>)

  const EMPTY_STORE: StoreState := StoreState(map[], [], map[], map[])

  /** expenses.get(id) */
  function Find(expenses: seq<ExpenseRecord>, id: string): Option<ExpenseRecord> {
    if expenses == [] then None
    else if expenses[0].id == id then Some(expenses[0])
    else Find(expenses[1..], id)
  }

  /** expenses[record.id] = record: in place if the id is there, otherwise at the end. */
  function Put(expenses: seq<ExpenseRecord>, record: ExpenseRecord): seq<ExpenseRecord> {
    if expenses == [] then [record]
    else if expenses[0].id == record.id then [record] + expenses[1..]
    else [expenses[0]] + Put(expenses[1..], record)
  }

  /** An empty key counts as none. */
  predicate HasKey(key: Option<string>) {
    key.Some? && key.value != ""
  }

  /** The expense already stored under a key. */
  function Existing(s: StoreState, key: Option<string>): Option<ExpenseRecord> {
    if HasKey(key) && key.value in s.idempotencyKeys then Find(s.expenses, s.idempotencyKeys[key.value]) else None
  }

  function NewExpense(id: string, groupId: string, payerId: UserId, title: string, totalCents: int, splitType: string,
                      splits: seq<Split>, key: Option<string>): ExpenseRecord {
    ExpenseRecord(id, groupId, payerId, title, totalCents, splitType, "POSTED", key, None, splits)
  }

  /** `create_expense` of the store: a known key gives the first expense back. */
  function Created(s: StoreState, e: ExpenseRecord): (StoreState, ExpenseRecord) {
    match Existing(s, e.idempotencyKey)
    case Some(first) => (s, first)
    case None =>
      (s.(expenses := Put(s.expenses, e),
          idempotencyKeys := if HasKey(e.idempotencyKey) then s.idempotencyKeys[e.idempotencyKey.value := e.id] else s.idempotencyKeys), e)
  }

  function MemberAdded(s: StoreState, groupId: string, userId: UserId): (StoreState, bool) {
    if groupId !in s.groups then (s, false) else
      var g := s.groups[groupId];
      if userId in g.memberIds then (s, true)
      else (s.(groups := s.groups[groupId := g.(memberIds := g.memberIds + [userId], version := g.version + 1)]), true)
  }

  function ForGroup(expenses: seq<ExpenseRecord>, groupId: string): seq<ExpenseRecord> {
    if expenses == [] then [] else
      (if expenses[0].groupId == groupId then [expenses[0]] else []) + ForGroup(expenses[1..], groupId)
  }

  /** The expenses as the simplifier sees them. */
  function RawTxs(expenses: seq<ExpenseRecord>): seq<Tx> {
    seq(|expenses|, i requires 0 <= i < |expenses| => Tx(expenses[i].payerId, expenses[i].splits))
  }

  function Saved(settlements: map<string, SettlementRecord>, records: seq<SettlementRecord>): map<string, SettlementRecord> {
    if records == [] then settlements else
      Saved(settlements, records[..|records| - 1])[records[|records| - 1].id := records[|records| - 1]]
  }

  // ---- Expenses ----

  /** A record with a new id goes to the end. */
  lemma {:induction false} PutNew(es: seq<ExpenseRecord>, e: ExpenseRecord)
    requires forall x :: x in es ==> x.id != e.id
    ensures Put(es, e) == es + [e]
  {
    if es != [] {
      PutNew(es[1..], e);
      assert es == [es[0]] + es[1..];
    }
  }

  /** Position k is the first with this id. */
  ghost predicate FirstWith(es: seq<ExpenseRecord>, id: string, k: nat) {
    k < |es| && es[k].id == id && forall j :: 0 <= j < k ==> es[j].id != id
  }

  /** A record with a known id takes the place of the one that has it. */
  lemma {:induction false} PutKnown(es: seq<ExpenseRecord>, e: ExpenseRecord, k: nat)
    requires FirstWith(es, e.id, k)
    ensures Put(es, e) == es[k := e]
  {
    if k > 0 {
      assert FirstWith(es[1..], e.id, k - 1);
      PutKnown(es[1..], e, k - 1);
      assert es[k := e] == [es[0]] + es[1..][k - 1 := e];
    }
  }

  lemma {:induction false} FindFirst(es: seq<ExpenseRecord>, id: string, k: nat)
    requires FirstWith(es, id, k)
    ensures Find(es, id) == Some(es[k])
  {
    if k > 0 {
      assert FirstWith(es[1..], id, k - 1);
      FindFirst(es[1..], id, k - 1);
    }
  }

  lemma {:induction false} FindNone(es: seq<ExpenseRecord>, id: string)
    requires forall x :: x in es ==> x.id != id
    ensures Find(es, id) == None
  {
    if es != [] {
      assert es[0] in es;
      FindNone(es[1..], id);
    }
  }

  /** A call with a key under which an expense is stored gives that expense back and changes nothing. */
  lemma {:induction false} KnownKeyGivesFirst(s: StoreState, e: ExpenseRecord, key: string, k: nat)
    requires e.idempotencyKey == Some(key) && key != "" && key in s.idempotencyKeys && FirstWith(s.expenses, s.idempotencyKeys[key], k)
    ensures Created(s, e) == (s, s.expenses[k])
  {
    FindFirst(s.expenses, s.idempotencyKeys[key], k);
  }

  /**
   * Any other call stores a posted expense with exactly what it was given and no journal yet, at the
   * end unless its id is known, and files its key, if it has one.
   */
  lemma {:induction false} OtherwiseStored(s: StoreState, id: string, groupId: string, payerId: UserId, title: string, totalCents: int, splitType: string,
                                           splits: seq<Split>, key: Option<string>)
    requires key.Some? && key.value != "" && key.value in s.idempotencyKeys ==> forall x :: x in s.expenses ==> x.id != s.idempotencyKeys[key.value]
    ensures var (s', e) := Created(s, NewExpense(id, groupId, payerId, title, totalCents, splitType, splits, key));
      && e == ExpenseRecord(id, groupId, payerId, title, totalCents, splitType, "POSTED", key, None, splits)
      && s'.groups == s.groups && s'.settlements == s.settlements
      && s'.idempotencyKeys == (if key == None || key == Some("") then s.idempotencyKeys else s.idempotencyKeys[key.value := id])
      && ((forall x :: x in s.expenses ==> x.id != id) ==> s'.expenses == s.expenses + [e])
      && (forall k: nat :: FirstWith(s.expenses, id, k) ==> s'.expenses == s.expenses[k := e])
  {
    var e := NewExpense(id, groupId, payerId, title, totalCents, splitType, splits, key);
    if HasKey(key) && key.value in s.idempotencyKeys {
      FindNone(s.expenses, s.idempotencyKeys[key.value]);
    }
    if forall x :: x in s.expenses ==> x.id != id {
      PutNew(s.expenses, e);
    }
    forall k: nat | FirstWith(s.expenses, id, k)
      ensures Put(s.expenses, e) == s.expenses[k := e]
    {
      PutKnown(s.expenses, e, k);
    }
  }

  /** A group's expenses are those with its id, in store order: one stored last comes last. */
  lemma {:induction false} GroupInOrder(es: seq<ExpenseRecord>, e: ExpenseRecord, g: string)
    ensures ForGroup([], g) == [] && ForGroup(es + [e], g) == ForGroup(es, g) + if e.groupId == g then [e] else []
  {
    if es == [] {
      assert es + [e] == [e];
    } else {
      GroupInOrder(es[1..], e, g);
      assert (es + [e])[1..] == es[1..] + [e];
    }
  }

  // ---- Members and settlement records ----

  ghost predicate NoRepeats(ids: seq<UserId>) {
    forall i, j :: 0 <= i < j < |ids| ==> ids[i] != ids[j]
  }

  /** In every group no member is listed twice, and the version counts the members. */
  ghost predicate GroupsTidy(groups: map<string, GroupRecord>) {
    forall g :: g in groups ==> NoRepeats(groups[g].memberIds) && groups[g].version == |groups[g].memberIds|
  }

  /** Adding a member keeps that; it succeeds exactly for a known group, which then has the member. */
  lemma {:induction false} MemberAddedIsTidy(s: StoreState, groupId: string, userId: UserId)
    requires GroupsTidy(s.groups)
    ensures var (s', ok) := MemberAdded(s, groupId, userId);
      && GroupsTidy(s'.groups)
      && (ok <==> groupId in s.groups)
      && (ok ==> groupId in s'.groups && forall u :: u in s'.groups[groupId].memberIds <==> u in s.groups[groupId].memberIds || u == userId)
      && (ok ==> s.groups[groupId].memberIds <= s'.groups[groupId].memberIds && s'.groups[groupId].name == s.groups[groupId].name)
      && s'.(groups := s.groups) == s
      && (forall g :: g != groupId ==> (g in s'.groups <==> g in s.groups) && (g in s.groups ==> s'.groups[g] == s.groups[g]))
  {
    if groupId in s.groups && userId !in s.groups[groupId].memberIds {
      var ids := s.groups[groupId].memberIds;
      assert forall i :: 0 <= i < |ids| ==> ids[i] in ids;
      assert NoRepeats(ids + [userId]);
    }
  }

  /** Each saved record is found under its id, when ids differ; every other id keeps what it had. */
  lemma {:induction false} SavedAreFound(settlements: map<string, SettlementRecord>, records: seq<SettlementRecord>, i: nat)
    requires forall j, k :: 0 <= j < k < |records| ==> records[j].id != records[k].id
    ensures i < |records| ==> records[i].id in Saved(settlements, records) && Saved(settlements, records)[records[i].id] == records[i]
    ensures forall id :: (forall k :: 0 <= k < |records| ==> records[k].id != id) ==>
              (id in Saved(settlements, records) <==> id in settlements) && (id in settlements ==> Saved(settlements, records)[id] == settlements[id])
  {
    if records != [] {
      SavedAreFound(settlements, records[..|records| - 1], i);
    }
  }

  class InMemoryStore {
    var groups: map<string, GroupRecord>
    var expenses: seq<ExpenseRecord>
    var settlements: map<string, SettlementRecord>
    var idempotencyKeys: map<string, string>

    ghost function State(): StoreState
      reads this
    {
      StoreState(groups, expenses, settlements, idempotencyKeys)
    }

    constructor ()
      ensures State() == EMPTY_STORE
    {
      groups, expenses, settlements, idempotencyKeys := map[], [], map[], map[];
    }

    method CreateGroup(id: string, name: string) returns (g: GroupRecord)
      modifies this
      ensures g == GroupRecord(id, name, 0, []) && State() == old(State()).(groups := old(groups)[id := g])
    {
      g := GroupRecord(id, name, 0, []);
      groups := groups[id := g];
    }

    method AddMember(groupId: string, userId: UserId) returns (ok: bool)
      modifies this
      ensures (State(), ok) == MemberAdded(old(State()), groupId, userId)
    {
      if groupId !in groups {
        return false;
      }
      var g := groups[groupId];
      if userId !in g.memberIds {
        groups := groups[groupId := g.(memberIds := g.memberIds + [userId], version := g.version + 1)];
      }
      ok := true;
    }

    method CreateExpense(id: string, groupId: string, payerId: UserId, title: string, totalCents: int, splitType: string,
                         splits: seq<Split>, key: Option<string>) returns (e: ExpenseRecord)
      modifies this
      ensures (State(), e) == Created(old(State()), NewExpense(id, groupId, payerId, title, totalCents, splitType, splits, key))
    {
      if HasKey(key) && key.value in idempotencyKeys {
        var existing := Find(expenses, idempotencyKeys[key.value]);
        if existing.Some? {
          return existing.value;
        }
      }
      e := NewExpense(id, groupId, payerId, title, totalCents, splitType, splits, key);
      expenses := Put(expenses, e);
      if HasKey(key) {
        idempotencyKeys := idempotencyKeys[key.value := id];
      }
    }

    /** expense.journal_id = journalId, seen through the store. */
    method SetJournal(e: ExpenseRecord, journalId: string) returns (e': ExpenseRecord)
      modifies this
      ensures e' == e.(journalId := Some(journalId)) && State() == old(State()).(expenses := Put(old(expenses), e'))
    {
      e' := e.(journalId := Some(journalId));
      expenses := Put(expenses, e');
    }

    method SaveSettlements(records: seq<SettlementRecord>)
      modifies this
      ensures State() == old(State()).(settlements := Saved(old(settlements), records))
    {
      for i := 0 to |records|
        invariant State() == old(State()).(settlements := Saved(old(settlements), records[..i]))
      {
        assert records[..i + 1][..i] == records[..i];
        settlements := settlements[records[i].id := records[i]];
      }
      assert records[..|records|] == records;
    }
  }
}
