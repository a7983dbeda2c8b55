/**
 * The idempotency gate around expense creation: lock, execute, then store the response or release
 * the key, for any number of concurrent requests, one awaited operation at a time.
 */
module IdempotencyGate {
  import opened Options
  import opened Cache

  /** The JSON body of a response; its text form never equals the sentinel. */
  type Response = string

  /** What the cache holds under an idempotency key. */
  datatype Slot = Processing | Stored(response: Response)

  const TTL: int := 86400

  function CacheKey(key: string): string {
    "idempotency:" + key
  }

  // ---- The manager ----

  datatype LockResult = Acquired | Duplicate(cached: Option<Response>)

  /** A response that is there to be replayed. */
  function Replay(v: Option<Slot>): Option<Response> {
    match v
    case Some(Stored(r)) => Some(r)
    case _ => None
  }

  class IdempotencyManager {
    const cache: InMemoryCache<Slot>

    constructor (cache: InMemoryCache<Slot>)
      ensures this.cache == cache
    {
      this.cache := cache;
    }

    /** SET NX; when that fails, a look at what is there. */
    method CheckAndLock(key: string, now: int) returns (r: LockResult)
      modifies cache
      ensures var k := "idempotency:" + key;
        var before := Evict(old(cache.State()), k, now);
        if k !in before.store
        then r == Acquired && cache.State() == Lazy(before.store[k := Processing], before.expiry[k := now + 86400])
        else cache.State() == before && r == Duplicate(if before.store[k].Stored? then Some(before.store[k].response) else None)
    {
      var acquired := cache.Set(CacheKey(key), Processing, Some(TTL), true, now);
      if acquired {
        return Acquired;
      }
      var raw := cache.Get(CacheKey(key), now);
      r := Duplicate(Replay(raw));
    }

    method StoreResponse(key: string, response: Response, now: int)
      modifies cache
      ensures var k := "idempotency:" + key;
        cache.State() == Lazy(old(cache.store)[k := Stored(response)], old(cache.expiry)[k := now + 86400])
    {
      var _ := cache.Set(CacheKey(key), Stored(response), Some(TTL), false, now);
    }

    method Release(key: string)
      modifies cache
      ensures var k := "idempotency:" + key;
        cache.State() == Lazy(old(cache.store) - {k}, old(cache.expiry) - {k})
    {
      var _ := cache.Delete(CacheKey(key));
    }
  }

  // ---- Concurrent requests ----

  datatype Outcome = Conflict409 | Replayed(response: Response) | Answered(response: Response) | Failed400 | Cancelled

  /** Where a request is between its awaited operations. */
  datatype Phase =
    | Start
    | Refused
    | Locked
    | Rejected
    | Posted
    | Created(response: Response)
    | Appended(response: Response)
    | Done(outcome: Outcome)

  datatype Request = Request(key: string, phase: Phase)

  /** journals and expenses count, per key, what the executions have left behind. */
  datatype State = State(
    cache: Lazy<Slot>,
    now: int,
    requests: seq<Request>,
    journals: map<string, nat>,
    expenses: map<string, Response>)

  datatype Kind =
    | Lock                        // SET NX
    | Look                        // GET after a refused lock
    | Reject                      // create_expense raises; by then nothing has changed
    | PostJournal
    | Create(response: Response)  // the store keeps the first expense of a key
    | Append                      // the outbox
    | Answer                      // store_response
    | Release                     // after a raise
    | Cancel                      // the task is cancelled: neither stored nor released

  datatype Step = Step(i: nat, kind: Kind, now: int)

  predicate InFlight(p: Phase) {
    p.Locked? || p.Rejected? || p.Posted? || p.Created? || p.Appended?
  }

  function Journals(s: State, key: string): nat {
    if key in s.journals then s.journals[key] else 0
  }

  function WithPhase(s: State, i: nat, p: Phase): State
    requires i < |s.requests|
  {
    s.(requests := s.requests[i := s.requests[i].(phase := p)])
  }

  /** A step out of turn, or back in time, does nothing. A request without a key, "", passes the gate by. */
  function Next(s0: State, a: Step): State {
    if a.i >= |s0.requests| || a.now < s0.now then s0 else
      var s := s0.(now := a.now);
      var key, phase := s.requests[a.i].key, s.requests[a.i].phase;
      match (a.kind, phase)
      case (Lock, Start) =>
        if key == "" then WithPhase(s, a.i, Locked) else
          var (c, ok) := AfterSet(s.cache, CacheKey(key), Processing, Some(TTL), true, a.now);
          WithPhase(s.(cache := c), a.i, if ok then Locked else Refused)
      case (Look, Refused) =>
        var (c, v) := AfterGet(s.cache, CacheKey(key), a.now);
        WithPhase(s.(cache := c), a.i, Done(match Replay(v) case Some(r) => Replayed(r) case None => Conflict409))
      case (Reject, Locked) => WithPhase(s, a.i, Rejected)
      case (Release, Rejected) =>
        WithPhase(if key == "" then s else s.(cache := AfterDelete(s.cache, CacheKey(key)).0), a.i, Done(Failed400))
      case (PostJournal, Locked) => WithPhase(s.(journals := s.journals[key := Journals(s, key) + 1]), a.i, Posted)
      case (Create(r), Posted) =>
        var kept := if key != "" && key in s.expenses then s.expenses[key] else r;
        WithPhase(s.(expenses := s.expenses[key := kept]), a.i, Created(kept))
      case (Append, Created(r)) => WithPhase(s, a.i, Appended(r))
      case (Answer, Appended(r)) =>
        WithPhase(if key == "" then s else s.(cache := AfterSet(s.cache, CacheKey(key), Stored(r), Some(TTL), false, a.now).0),
                  a.i, Done(Answered(r)))
      case (Cancel, p) => if InFlight(p) then WithPhase(s, a.i, Done(Cancelled)) else s
      case _ => s
  }

  function Begin(keys: seq<string>, now: int): State {
    State(Lazy(map[], map[]), now, seq(|keys|, i requires 0 <= i < |keys| => Request(keys[i], Start)), map[], map[])
  }

  function Exec(s: State, steps: seq<Step>): State {
    if steps == [] then s else Next(Exec(s, steps[..|steps| - 1]), steps[|steps| - 1])
  }

  /** A request with this key comes to the gate and finds an entry past its deadline. */
  predicate FindsDead(s: State, a: Step, key: string) {
    && a.i < |s.requests| && s.requests[a.i].key == key && a.now >= s.now
    && ((a.kind.Lock? && s.requests[a.i].phase.Start?) || (a.kind.Look? && s.requests[a.i].phase.Refused?))
    && Dead(s.cache, CacheKey(key), a.now)
  }

  /** During the run no request with this key finds its entry past the deadline; other keys do not matter. */
  ghost predicate Unexpired(s: State, steps: seq<Step>, key: string) {
    steps != [] ==>
      var n := |steps| - 1;
      Unexpired(s, steps[..n], key) && !FindsDead(Exec(s, steps[..n]), steps[n], key)
  }

  function SlotOf(s: State, key: string): Option<Slot> {
    Lookup(s.cache.store, CacheKey(key))
  }

  lemma {:induction false} KeysDiffer(k: string, l: string)
    ensures CacheKey(k) == CacheKey(l) <==> k == l
  {
    assert CacheKey(k)[12..] == k && CacheKey(l)[12..] == l;
  }

  // ---- The invariant of one key ----

  /** What the phase of a request says about its key. */
  ghost predicate PhaseFits(s: State, r: Request) {
    && (InFlight(r.phase) ==> SlotOf(s, r.key) == Some(Processing))
    && (r.phase.Locked? || r.phase.Rejected? ==> Journals(s, r.key) == 0 && r.key !in s.expenses)
    && (r.phase.Posted? ==> Journals(s, r.key) == 1 && r.key !in s.expenses)
    && (r.phase.Created? || r.phase.Appended? ==>
         Journals(s, r.key) == 1 && r.key in s.expenses && s.expenses[r.key] == r.phase.response)
    && (r.phase.Done? && (r.phase.outcome.Answered? || r.phase.outcome.Replayed?) ==>
         r.key in s.expenses && s.expenses[r.key] == r.phase.outcome.response)
  }

  /** What the cache entry of a key says about the key. */
  ghost predicate SlotFits(s: State, key: string) {
    && Journals(s, key) <= 1
    && (key in s.expenses ==> Journals(s, key) == 1)
    && (SlotOf(s, key) == None ==> Journals(s, key) == 0)
    && (SlotOf(s, key).Some? && SlotOf(s, key).value.Stored? ==>
         key in s.expenses && s.expenses[key] == SlotOf(s, key).value.response)
  }

  ghost predicate Alone(s: State, key: string) {
    forall i, j :: 0 <= i < j < |s.requests| && s.requests[i].key == key && s.requests[j].key == key ==>
      !(InFlight(s.requests[i].phase) && InFlight(s.requests[j].phase))
  }

  ghost predicate Guarded(s: State, key: string) {
    && SlotFits(s, key) && Alone(s, key)
    && forall i :: 0 <= i < |s.requests| && s.requests[i].key == key ==> PhaseFits(s, s.requests[i])
  }

  /** Everything the invariant of a key looks at, except the requests. */
  ghost predicate SameFor(s: State, t: State, key: string) {
    && SlotOf(t, key) == SlotOf(s, key)
    && Journals(t, key) == Journals(s, key)
    && (key in t.expenses <==> key in s.expenses)
    && (key in s.expenses ==> t.expenses[key] == s.expenses[key])
  }

  /** A request with another key does not touch this one. */
  lemma {:induction false} OtherKeysApart(s: State, a: Step, key: string)
    requires a.i < |s.requests| && s.requests[a.i].key != key
    ensures SameFor(s, Next(s, a), key)
  {
    KeysDiffer(s.requests[a.i].key, key);
  }

  lemma {:induction false} OtherKeepsGuarded(s: State, a: Step, key: string)
    requires Guarded(s, key) && a.i < |s.requests| && s.requests[a.i].key != key
    ensures Guarded(Next(s, a), key)
  {
    OtherKeysApart(s, a, key);
    var t := Next(s, a);
    assert |t.requests| == |s.requests| && forall j :: 0 <= j < |s.requests| && j != a.i ==> t.requests[j] == s.requests[j];
    assert t.requests[a.i].key == s.requests[a.i].key;
  }

  /** In a guarded state, no other request of the key is in flight when one is or when the slot is not Processing. */
  lemma {:induction false} OnlyOne(s: State, key: string, i: nat)
    requires Guarded(s, key) && i < |s.requests| && s.requests[i].key == key
    requires InFlight(s.requests[i].phase) || SlotOf(s, key) != Some(Processing)
    ensures forall j :: 0 <= j < |s.requests| && j != i && s.requests[j].key == key ==> !InFlight(s.requests[j].phase)
  {
  }

  /** The same request moves on: the others of its key are not in flight and keep their answers. */
  lemma {:induction false} OwnKeepsGuarded(s: State, t: State, key: string, i: nat)
    requires Guarded(s, key) && i < |s.requests| && s.requests[i].key == key
    requires |t.requests| == |s.requests| && t.requests[i].key == key
    requires forall j :: 0 <= j < |s.requests| && j != i ==> t.requests[j] == s.requests[j]
    requires SlotFits(t, key) && PhaseFits(t, t.requests[i])
    requires key in s.expenses ==> key in t.expenses && t.expenses[key] == s.expenses[key]
    requires
      || (SameFor(s, t, key) && (InFlight(t.requests[i].phase) ==> InFlight(s.requests[i].phase)))
      || (forall j :: 0 <= j < |s.requests| && j != i && s.requests[j].key == key ==> !InFlight(s.requests[j].phase))
    ensures Guarded(t, key)
  {
    forall j | 0 <= j < |t.requests| && t.requests[j].key == key
      ensures PhaseFits(t, t.requests[j])
    {
      if j != i {
        assert PhaseFits(s, s.requests[j]);
      }
    }
  }

  lemma {:induction false} LockKeepsGuarded(s: State, a: Step, key: string)
    requires key != "" && Guarded(s, key) && !FindsDead(s, a, key) && a.kind.Lock?
    requires a.i < |s.requests| && a.now >= s.now && s.requests[a.i].key == key
    ensures Guarded(Next(s, a), key)
  {
    if s.requests[a.i].phase.Start? && SlotOf(s, key) == None {
      OnlyOne(s, key, a.i);
    }
    OwnKeepsGuarded(s, Next(s, a), key, a.i);
  }

  lemma {:induction false} LookKeepsGuarded(s: State, a: Step, key: string)
    requires key != "" && Guarded(s, key) && !FindsDead(s, a, key) && a.kind.Look?
    requires a.i < |s.requests| && a.now >= s.now && s.requests[a.i].key == key
    ensures Guarded(Next(s, a), key)
  {
    assert PhaseFits(s, s.requests[a.i]);
    OwnKeepsGuarded(s, Next(s, a), key, a.i);
  }

  lemma {:induction false} ReleaseKeepsGuarded(s: State, a: Step, key: string)
    requires key != "" && Guarded(s, key) && a.kind.Release?
    requires a.i < |s.requests| && a.now >= s.now && s.requests[a.i].key == key
    ensures Guarded(Next(s, a), key)
  {
    assert PhaseFits(s, s.requests[a.i]);
    if s.requests[a.i].phase.Rejected? {
      OnlyOne(s, key, a.i);
    }
    OwnKeepsGuarded(s, Next(s, a), key, a.i);
  }

  lemma {:induction false} AnswerKeepsGuarded(s: State, a: Step, key: string)
    requires key != "" && Guarded(s, key) && a.kind.Answer?
    requires a.i < |s.requests| && a.now >= s.now && s.requests[a.i].key == key
    ensures Guarded(Next(s, a), key)
  {
    assert PhaseFits(s, s.requests[a.i]);
    if s.requests[a.i].phase.Appended? {
      OnlyOne(s, key, a.i);
    }
    OwnKeepsGuarded(s, Next(s, a), key, a.i);
  }

  /** A step of a request that does not. */
  lemma {:induction false} InnerStepKeepsGuarded(s: State, a: Step, key: string)
    requires key != "" && Guarded(s, key)
    requires a.i < |s.requests| && a.now >= s.now && s.requests[a.i].key == key
    requires !(a.kind.Lock? || a.kind.Look? || a.kind.Release? || a.kind.Answer?)
    ensures Guarded(Next(s, a), key)
  {
    assert PhaseFits(s, s.requests[a.i]);
    if InFlight(s.requests[a.i].phase) {
      OnlyOne(s, key, a.i);
    }
    OwnKeepsGuarded(s, Next(s, a), key, a.i);
  }

  lemma {:induction false} NextKeepsGuarded(s: State, a: Step, key: string)
    requires key != ""
    requires Guarded(s, key) && !FindsDead(s, a, key)
    ensures Guarded(Next(s, a), key)
  {
    if a.i < |s.requests| && a.now >= s.now {
      if s.requests[a.i].key != key {
        OtherKeepsGuarded(s, a, key);
      } else {
        match a.kind
        case Lock => LockKeepsGuarded(s, a, key);
        case Look => LookKeepsGuarded(s, a, key);
        case Release => ReleaseKeepsGuarded(s, a, key);
        case Answer => AnswerKeepsGuarded(s, a, key);
        case _ => InnerStepKeepsGuarded(s, a, key);
      }
    }
  }

  lemma {:induction false} RunIsGuarded(keys: seq<string>, start: int, steps: seq<Step>, key: string)
    requires key != ""
    requires Unexpired(Begin(keys, start), steps, key)
    ensures Guarded(Exec(Begin(keys, start), steps), key)
  {
    if steps != [] {
      var n := |steps| - 1;
      RunIsGuarded(keys, start, steps[..n], key);
      NextKeepsGuarded(Exec(Begin(keys, start), steps[..n]), steps[n], key);
    }
  }

  /**
   * In every interleaving in which no request with the key finds its entry expired: at most one
   * request with the key is between lock and store or release, at most one journal and one expense
   * are ever made for it, and every request that gets a response gets that of that one expense.
   */
  lemma {:induction false} AtMostOnce(keys: seq<string>, start: int, steps: seq<Step>, key: string)
    requires key != ""
    requires Unexpired(Begin(keys, start), steps, key)
    ensures var s := Exec(Begin(keys, start), steps);
      && Alone(s, key)
      && Journals(s, key) <= 1
      && (key in s.expenses ==> Journals(s, key) == 1)
      && (forall i :: 0 <= i < |s.requests| && s.requests[i].key == key && s.requests[i].phase.Done? ==>
           var o := s.requests[i].phase.outcome;
           (o.Answered? || o.Replayed? ==> key in s.expenses && o.response == s.expenses[key]))
  {
    RunIsGuarded(keys, start, steps, key);
    var s := Exec(Begin(keys, start), steps);
    forall i | 0 <= i < |s.requests| && s.requests[i].key == key
      ensures PhaseFits(s, s.requests[i])
    {
    }
  }

  // ---- After the response is stored ----

  /** A request that had not started when r was stored: still waiting, refused, or answered with r. */
  ghost predicate LateComer(s: State, r: Response, i: nat) {
    i < |s.requests| && (s.requests[i].phase.Start? || s.requests[i].phase.Refused? || s.requests[i].phase == Done(Replayed(r)))
  }

  lemma {:induction false} StoredStays(s: State, a: Step, key: string, r: Response, i: nat)
    requires key != ""
    requires Guarded(s, key) && !FindsDead(s, a, key)
    requires SlotOf(s, key) == Some(Stored(r)) && LateComer(s, r, i) && s.requests[i].key == key
    ensures var t := Next(s, a);
      SlotOf(t, key) == Some(Stored(r)) && LateComer(t, r, i) && t.requests[i].key == key
  {
    if a.i < |s.requests| && a.now >= s.now {
      if s.requests[a.i].key != key {
        OtherKeysApart(s, a, key);
      } else {
        assert PhaseFits(s, s.requests[a.i]);
        assert !InFlight(s.requests[a.i].phase);
      }
    }
  }

  /** Once a response is stored, every later request with the key is answered with exactly that one. */
  lemma {:induction false} LaterRequestsReplay(s: State, steps: seq<Step>, key: string, r: Response, i: nat)
    requires key != ""
    requires Guarded(s, key) && Unexpired(s, steps, key) && SlotOf(s, key) == Some(Stored(r))
    requires i < |s.requests| && s.requests[i] == Request(key, Start)
    ensures var t := Exec(s, steps);
      && Guarded(t, key) && SlotOf(t, key) == Some(Stored(r)) && i < |t.requests| && t.requests[i].key == key
      && LateComer(t, r, i) && (t.requests[i].phase.Done? ==> t.requests[i].phase.outcome == Replayed(r))
  {
    if steps != [] {
      var n := |steps| - 1;
      LaterRequestsReplay(s, steps[..n], key, r, i);
      StoredStays(Exec(s, steps[..n]), steps[n], key, r, i);
      NextKeepsGuarded(Exec(s, steps[..n]), steps[n], key);
    }
  }

  // ---- When a lock is free ----

  /** A request gets the lock exactly when the key has no entry or the entry's deadline has passed. */
  lemma {:induction false} LockFreeIff(s: State, i: nat, now: int)
    requires i < |s.requests| && s.requests[i].phase.Start? && now >= s.now && s.requests[i].key != ""
    ensures var key := s.requests[i].key;
      Next(s, Step(i, Lock, now)).requests[i].phase.Locked? <==>
      SlotOf(s, key) == None || Dead(s.cache, CacheKey(key), now)
  {
  }

  /** A failed request leaves its key free for the next one. */
  lemma {:induction false} FailureFreesKey(s: State, i: nat, j: nat, now: int, later: int)
    requires i < |s.requests| && j < |s.requests| && s.requests[i].key == s.requests[j].key
    requires s.requests[i].phase.Rejected? && s.requests[j].phase.Start? && s.now <= now <= later && s.requests[i].key != ""
    ensures var t := Next(s, Step(i, Release, now));
      && t.requests[i].phase == Done(Failed400)
      && Next(t, Step(j, Lock, later)).requests[j].phase.Locked?
  {
    var t := Next(s, Step(i, Release, now));
    LockFreeIff(t, j, later);
  }

  // ---- For how long a key is protected ----

  /** The key's entry, and the second from which on it is dead. */
  ghost predicate Held(s: State, key: string, slot: Slot, deadline: int) {
    && SlotOf(s, key) == Some(slot)
    && Lookup(s.cache.expiry, CacheKey(key)) == Some(deadline)
  }

  /** No request with the key stores a response or releases the key. */
  ghost predicate NoneEnds(s: State, steps: seq<Step>, key: string) {
    forall a :: a in steps && a.i < |s.requests| && s.requests[a.i].key == key ==> !a.kind.Release? && !a.kind.Answer?
  }

  lemma {:induction false} NextKeepsKeys(s: State, a: Step)
    ensures var t := Next(s, a);
      && t.now >= s.now && |t.requests| == |s.requests|
      && forall i :: 0 <= i < |s.requests| ==> t.requests[i].key == s.requests[i].key
  {
  }

  lemma {:induction false} KeysStay(s: State, steps: seq<Step>)
    ensures var t := Exec(s, steps);
      && t.now >= s.now && |t.requests| == |s.requests|
      && forall i :: 0 <= i < |s.requests| ==> t.requests[i].key == s.requests[i].key
  {
    if steps != [] {
      var n := |steps| - 1;
      KeysStay(s, steps[..n]);
      NextKeepsKeys(Exec(s, steps[..n]), steps[n]);
    }
  }

  /** An entry is found dead only after its deadline. */
  lemma {:induction false} FoundDeadLate(s: State, a: Step, key: string, slot: Slot, deadline: int)
    requires Held(s, key, slot, deadline) && FindsDead(s, a, key)
    ensures Next(s, a).now > deadline
  {
  }

  lemma {:induction false} StepHolds(s: State, a: Step, key: string, slot: Slot, deadline: int)
    requires key != "" && Held(s, key, slot, deadline) && !FindsDead(s, a, key)
    requires a.i < |s.requests| && s.requests[a.i].key == key ==>
      !(a.kind.Release? && s.requests[a.i].phase.Rejected?) && !(a.kind.Answer? && s.requests[a.i].phase.Appended?)
    ensures Held(Next(s, a), key, slot, deadline)
  {
    if a.i < |s.requests| && s.requests[a.i].key != key {
      KeysDiffer(s.requests[a.i].key, key);
    }
  }

  lemma {:induction false} LockHolds(s: State, steps: seq<Step>, key: string, slot: Slot, deadline: int)
    requires key != "" && Held(s, key, slot, deadline) && NoneEnds(s, steps, key)
    requires Unexpired(s, steps, key) || Exec(s, steps).now <= deadline
    ensures Held(Exec(s, steps), key, slot, deadline)
  {
    if steps != [] {
      var n := |steps| - 1;
      var before := Exec(s, steps[..n]);
      KeysStay(s, steps[..n]);
      assert Exec(s, steps) == Next(before, steps[n]) && steps[n] in steps;
      assert before.now <= Exec(s, steps).now;
      LockHolds(s, steps[..n], key, slot, deadline);
      if FindsDead(before, steps[n], key) {
        FoundDeadLate(before, steps[n], key, slot, deadline);
      }
      StepHolds(before, steps[n], key, slot, deadline);
    }
  }

  /**
   * A lock that is neither released nor answered, its holder cancelled or not, keeps every other
   * request with the key out for 86400 seconds to the second, whatever else is done meanwhile: it is
   * refused and answered with a conflict. The first request after that gets the lock.
   */
  lemma {:induction false} LockLastsADay(s: State, i: nat, t: int, more: seq<Step>, key: string, j: nat, later: int)
    requires i < |s.requests| && s.requests[i] == Request(key, Start) && key != "" && t >= s.now
    requires Next(s, Step(i, Lock, t)).requests[i].phase.Locked? && NoneEnds(s, more, key)
    requires var u := Exec(Next(s, Step(i, Lock, t)), more);
      j < |u.requests| && u.requests[j].key == key && later >= u.now
    ensures var v := Next(s, Step(i, Lock, t));
      var u := Exec(v, more);
      && (u.requests[j].phase.Start? ==>
           && (later <= t + 86400 ==> Next(u, Step(j, Lock, later)).requests[j].phase.Refused?)
           && (later > t + 86400 && Unexpired(v, more, key) ==> Next(u, Step(j, Lock, later)).requests[j].phase.Locked?))
      && (u.requests[j].phase.Refused? && later <= t + 86400 ==> Next(u, Step(j, Look, later)).requests[j].phase == Done(Conflict409))
  {
    var v := Next(s, Step(i, Lock, t));
    var u := Exec(v, more);
    assert Held(v, key, Processing, t + 86400) && NoneEnds(v, more, key);
    if later <= t + 86400 || Unexpired(v, more, key) {
      LockHolds(v, more, key, Processing, t + 86400);
      if u.requests[j].phase.Start? {
        LockFreeIff(u, j, later);
      }
    }
  }

  lemma {:induction false} ResponseHolds(s: State, steps: seq<Step>, key: string, r: Response, deadline: int)
    requires key != "" && Guarded(s, key) && Held(s, key, Stored(r), deadline)
    requires Unexpired(s, steps, key) || Exec(s, steps).now <= deadline
    ensures Guarded(Exec(s, steps), key) && Held(Exec(s, steps), key, Stored(r), deadline) && Unexpired(s, steps, key)
  {
    if steps != [] {
      var n := |steps| - 1;
      var before, a := Exec(s, steps[..n]), steps[n];
      assert Exec(s, steps) == Next(before, a);
      assert before.now <= Exec(s, steps).now;
      ResponseHolds(s, steps[..n], key, r, deadline);
      if FindsDead(before, a, key) {
        FoundDeadLate(before, a, key, Stored(r), deadline);
      }
      if a.i < |before.requests| && before.requests[a.i].key == key {
        assert PhaseFits(before, before.requests[a.i]);
      }
      StepHolds(before, a, key, Stored(r), deadline);
      NextKeepsGuarded(before, a, key);
    }
  }

  /**
   * For 86400 seconds after a response is stored, a request with the key that had not started is
   * waiting, refused or answered with that response; its lock is refused and its look replays the
   * response. The first lock after that is granted.
   */
  lemma {:induction false} ResponseLastsADay(s: State, i: nat, t: int, more: seq<Step>, key: string, r: Response, j: nat, later: int)
    requires key != "" && Guarded(s, key) && i < |s.requests| && s.requests[i] == Request(key, Appended(r)) && t >= s.now
    requires j < |s.requests| && s.requests[j] == Request(key, Start)
    requires later >= Exec(Next(s, Step(i, Answer, t)), more).now
    ensures var v := Next(s, Step(i, Answer, t));
      var u := Exec(v, more);
      && |u.requests| == |s.requests|
      && (later <= t + 86400 ==>
           && (u.requests[j].phase.Start? || u.requests[j].phase.Refused? || u.requests[j].phase == Done(Replayed(r)))
           && (u.requests[j].phase.Start? ==> Next(u, Step(j, Lock, later)).requests[j].phase.Refused?)
           && (u.requests[j].phase.Refused? ==> Next(u, Step(j, Look, later)).requests[j].phase == Done(Replayed(r))))
      && (later > t + 86400 && Unexpired(v, more, key) && u.requests[j].phase.Start? ==>
           Next(u, Step(j, Lock, later)).requests[j].phase.Locked?)
  {
    var v := Next(s, Step(i, Answer, t));
    var u := Exec(v, more);
    NextKeepsGuarded(s, Step(i, Answer, t), key);
    assert Held(v, key, Stored(r), t + 86400);
    KeysStay(v, more);
    if later <= t + 86400 || Unexpired(v, more, key) {
      ResponseHolds(v, more, key, r, t + 86400);
      LaterRequestsReplay(v, more, key, r, j);
      if u.requests[j].phase.Start? {
        LockFreeIff(u, j, later);
      }
    }
  }
}
