/** Versioned entities, the balance store over them, and the retry decorator. */
module Occ {

  datatype Versioned = Versioned(value: int, version: int)

  datatype CasResult = Swapped(version: int) | Conflict(expected: int)

  /** An update goes through only against the version it was computed from. */
  function Cas(s: Versioned, expected: int, newValue: int): (Versioned, CasResult) {
    if s.version != expected then (s, Conflict(expected))
    else (Versioned(newValue, s.version + 1), Swapped(s.version + 1))
  }

  class OCCVersionedEntity {
    const entityId: string
    var value: int
    var version: int

    ghost function State(): Versioned
      reads this
    {
      Versioned(value, version)
    }

    constructor (entityId: string, initialValue: int)
      ensures this.entityId == entityId && State() == Versioned(initialValue, 0)
    {
      this.entityId := entityId;
      value, version := initialValue, 0;
    }

    method Read() returns (v: int, ver: int)
      ensures Versioned(v, ver) == State()
    {
      return value, version;
    }

    method CompareAndSwap(expected: int, newValue: int) returns (r: CasResult)
      modifies this
      ensures (State(), r) == Cas(old(State()), expected, newValue)
    {
      if version != expected {
        return Conflict(expected);
      }
      value := newValue;
      version := version + 1;
      r := Swapped(version);
    }
  }

  class OCCBalanceStore {
    var entities: map<string, OCCVersionedEntity>

    /** No two users share an entity. */
    ghost predicate Valid()
      reads this
    {
      forall u, v :: u in entities && v in entities && entities[u] == entities[v] ==> u == v
    }

    /** The balances as values. */
    ghost function Accounts(): map<string, Versioned>
      reads this, entities.Values
    {
      map u | u in entities :: entities[u].State()
    }

    constructor ()
      ensures Valid() && entities == map[]
    {
      entities := map[];
    }

    /** A missing account starts at version 0; an existing one keeps its value. */
    method GetOrCreate(userId: string, initialCents: int) returns (entity: OCCVersionedEntity)
      requires Valid()
      modifies this
      ensures Valid() && userId in entities && entity == entities[userId]
      ensures userId in old(entities) ==> entities == old(entities)
      ensures userId !in old(entities) ==> fresh(entity) && entities == old(entities)[userId := entity]
      ensures Accounts() == if userId in old(entities) then old(Accounts()) else old(Accounts())[userId := Versioned(initialCents, 0)]
    {
      if userId !in entities {
        var e := new OCCVersionedEntity(userId, initialCents);
        entities := entities[userId := e];
      }
      entity := entities[userId];
    }

    /**
     * Reads the value, forgets the version read, and swaps against the caller's version. Run
     * without interruption it adds the delta exactly when that version is the current one.
     */
    method ApplyDelta(userId: string, deltaCents: int, expectedVersion: int) returns (r: CasResult)
      requires Valid()
      modifies this, entities.Values
      ensures Valid()
      ensures var before := if userId in old(Accounts()) then old(Accounts())[userId] else Versioned(0, 0);
        && (Accounts().Keys == old(Accounts()).Keys + {userId})
        && (forall u :: u in old(Accounts()) && u != userId ==> Accounts()[u] == old(Accounts())[u])
        && (expectedVersion == before.version ==>
             Accounts()[userId] == Versioned(before.value + deltaCents, before.version + 1) && r == Swapped(before.version + 1))
        && (expectedVersion != before.version ==> Accounts()[userId] == before && r == Conflict(expectedVersion))
    {
      var entity := GetOrCreate(userId, 0);
      var current, _ := entity.Read();
      r := entity.CompareAndSwap(expectedVersion, current + deltaCents);
    }
  }

  /** How one call of the decorated function ends. */
  datatype Attempt = Returned(value: int) | ConflictRaised | OtherRaised(error: string)

  datatype RetryOutcome = Value(value: int) | MaxRetriesExceeded | Propagated(error: string) | NothingReturned

  /**
   * `occ_retry` around a function whose i-th call ends as attempts(i): the first call that is not
   * a conflict decides, within maxRetries + 1 calls. A negative limit makes no call at all.
   */
  method OccRetry(maxRetries: int, attempts: nat -> Attempt) returns (r: RetryOutcome, calls: nat)
    ensures maxRetries < 0 ==> r == NothingReturned && calls == 0
    ensures forall i :: 0 <= i < calls - 1 ==> attempts(i).ConflictRaised?
    ensures maxRetries >= 0 ==>
              && 1 <= calls <= maxRetries + 1
              && match attempts(calls - 1)
                 case Returned(v) => r == Value(v)
                 case OtherRaised(e) => r == Propagated(e)
                 case ConflictRaised => r == MaxRetriesExceeded && calls == maxRetries + 1
  {
    calls := 0;
    var attempt := 0;
    while attempt <= maxRetries
      invariant calls == attempt && (if maxRetries < 0 then attempt == 0 else attempt <= maxRetries)
      invariant forall i :: 0 <= i < attempt ==> attempts(i).ConflictRaised?
      decreases maxRetries - attempt
    {
      calls := calls + 1;
      match attempts(attempt)
      case Returned(v) => return Value(v), calls;
      case OtherRaised(e) => return Propagated(e), calls;
      case ConflictRaised =>
        if attempt == maxRetries {
          return MaxRetriesExceeded, calls;
        }
        attempt := attempt + 1;
    }
    r := NothingReturned;
  }
}
