/** The in-memory cache with lazy eviction, and the eager cache it stands for. */
module Cache {
  import opened Options

  /** The two dictionaries. A key without a deadline never expires. */
  datatype Lazy<V> = Lazy(store: map<string, V>, expiry: map<string, int>)

  predicate Dead<V>(c: Lazy<V>, k: string, now: int) {
    k in c.expiry && now > c.expiry[k]
  }

  function Evict<V>(c: Lazy<V>, k: string, now: int): Lazy<V> {
    if Dead(c, k, now) then Lazy(c.store - {k}, c.expiry - {k}) else c
  }

  function Lookup<V>(m: map<string, V>, k: string): Option<V> {
    if k in m then Some(m[k]) else None
  }

  function AfterGet<V>(c: Lazy<V>, k: string, now: int): (Lazy<V>, Option<V>) {
    var c' := Evict(c, k, now);
    (c', Lookup(c'.store, k))
  }

  function AfterSet<V>(c: Lazy<V>, k: string, v: V, ex: Option<int>, nx: bool, now: int): (Lazy<V>, bool) {
    var c' := Evict(c, k, now);
    if nx && k in c'.store then (c', false)
    else (Lazy(c'.store[k := v], if ex.Some? then c'.expiry[k := now + ex.value] else c'.expiry - {k}), true)
  }

  function AfterDelete<V>(c: Lazy<V>, k: string): (Lazy<V>, int) {
    (Lazy(c.store - {k}, c.expiry - {k}), if k in c.store then 1 else 0)
  }

  function AfterExists<V>(c: Lazy<V>, k: string, now: int): (Lazy<V>, int) {
    var c' := Evict(c, k, now);
    (c', if k in c'.store then 1 else 0)
  }

  function AfterExpire<V>(c: Lazy<V>, k: string, seconds: int, now: int): (Lazy<V>, bool) {
    if k !in c.store then (c, false) else (c.(expiry := c.expiry[k := now + seconds]), true)
  }

  function KeySet<V>(c: Lazy<V>, now: int): set<string> {
    (set k | k in c.expiry && now <= c.expiry[k]) + (set k | k in c.store && k !in c.expiry)
  }

  /** Every deadline belongs to a stored key. */
  ghost predicate Tidy<V>(c: Lazy<V>) {
    c.expiry.Keys <= c.store.Keys
  }

  class InMemoryCache<V> {
    var store: map<string, V>
    var expiry: map<string, int>

    ghost function State(): Lazy<V>
      reads this
    {
      Lazy(store, expiry)
    }

    constructor ()
      ensures State() == Lazy(map[], map[])
    {
      store, expiry := map[], map[];
    }

    method EvictIfExpired(key: string, now: int) returns (evicted: bool)
      modifies this
      ensures State() == Evict(old(State()), key, now) && evicted == Dead(old(State()), key, now)
    {
      evicted := key in expiry && now > expiry[key];
      if evicted {
        store, expiry := store - {key}, expiry - {key};
      }
    }

    method Get(key: string, now: int) returns (v: Option<V>)
      modifies this
      ensures (State(), v) == AfterGet(old(State()), key, now)
    {
      var evicted := EvictIfExpired(key, now);
      if evicted {
        return None;
      }
      v := Lookup(store, key);
    }

    method Set(key: string, value: V, ex: Option<int>, nx: bool, now: int) returns (done: bool)
      modifies this
      ensures (State(), done) == AfterSet(old(State()), key, value, ex, nx, now)
    {
      var _ := EvictIfExpired(key, now);
      if nx && key in store {
        return false;
      }
      store := store[key := value];
      if ex.Some? {
        expiry := expiry[key := now + ex.value];
      } else {
        expiry := expiry - {key};
      }
      done := true;
    }

    method Delete(key: string) returns (count: int)
      modifies this
      ensures (State(), count) == AfterDelete(old(State()), key)
    {
      count := if key in store then 1 else 0;
      store, expiry := store - {key}, expiry - {key};
    }

    method Exists(key: string, now: int) returns (count: int)
      modifies this
      ensures (State(), count) == AfterExists(old(State()), key, now)
    {
      var evicted := EvictIfExpired(key, now);
      count := if !evicted && key in store then 1 else 0;
    }

    method Expire(key: string, seconds: int, now: int) returns (done: bool)
      modifies this
      ensures (State(), done) == AfterExpire(old(State()), key, seconds, now)
    {
      if key !in store {
        return false;
      }
      expiry := expiry[key := now + seconds];
      done := true;
    }

    /** Each key that matches and is live, once; a tidy cache lists exactly its live keys. */
    method Keys(matches: string -> bool, now: int) returns (keys: seq<string>)
      ensures forall i, j :: 0 <= i < j < |keys| ==> keys[i] != keys[j]
      ensures forall k :: k in keys <==> k in KeySet(State(), now) && matches(k)
    {
      keys := [];
      var rest := expiry.Keys + store.Keys;
      while rest != {}
        invariant forall i, j :: 0 <= i < j < |keys| ==> keys[i] != keys[j]
        invariant forall k :: k in keys <==> k in expiry.Keys + store.Keys && k !in rest && k in KeySet(State(), now) && matches(k)
        decreases rest
      {
        var k :| k in rest;
        rest := rest - {k};
        var live := if k in expiry then now <= expiry[k] else true;
        if live && matches(k) {
          keys := keys + [k];
        }
      }
    }
  }

  // ---- The eager cache ----

  /** A value and its deadline. */
  datatype Entry<V> = Entry(value: V, deadline: Option<int>)

  predicate Alive<V>(e: Entry<V>, now: int) {
    e.deadline == None || now <= e.deadline.value
  }

  /** Drops what has passed its deadline. */
  function Purge<V>(m: map<string, Entry<V>>, now: int): map<string, Entry<V>> {
    map k | k in m && Alive(m[k], now) :: m[k]
  }

  datatype Op<V> =
    | GetOp(key: string)
    | SetOp(key: string, value: V, ex: Option<int>, nx: bool)
    | DeleteOp(key: string)
    | ExistsOp(key: string)
    | KeysOp

  /** What a caller sees; the count that delete returns is treated separately. */
  datatype Answer<V> = Found(value: Option<V>) | Flag(yes: bool) | Deleted | Count(n: int) | Listed(keys: set<string>)

  function LazyStep<V>(c: Lazy<V>, op: Op<V>, now: int): (Lazy<V>, Answer<V>) {
    match op
    case GetOp(k) => var (c', v) := AfterGet(c, k, now); (c', Found(v))
    case SetOp(k, v, ex, nx) => var (c', b) := AfterSet(c, k, v, ex, nx, now); (c', Flag(b))
    case DeleteOp(k) => (AfterDelete(c, k).0, Deleted)
    case ExistsOp(k) => var (c', n) := AfterExists(c, k, now); (c', Count(n))
    case KeysOp => (c, Listed(KeySet(c, now)))
  }

  function Deadline(ex: Option<int>, now: int): Option<int> {
    if ex.Some? then Some(now + ex.value) else None
  }

  /** The same operations on a map that holds live entries only. */
  function EagerOp<V>(m: map<string, Entry<V>>, op: Op<V>, now: int): (map<string, Entry<V>>, Answer<V>) {
    match op
    case GetOp(k) => (m, Found(if k in m then Some(m[k].value) else None))
    case SetOp(k, v, ex, nx) => if nx && k in m then (m, Flag(false)) else (m[k := Entry(v, Deadline(ex, now))], Flag(true))
    case DeleteOp(k) => (m - {k}, Deleted)
    case ExistsOp(k) => (m, Count(if k in m then 1 else 0))
    case KeysOp => (m, Listed(m.Keys))
  }

  /** Entries are dropped at their deadline, before anything else happens. */
  function EagerStep<V>(m: map<string, Entry<V>>, op: Op<V>, now: int): (map<string, Entry<V>>, Answer<V>) {
    EagerOp(Purge(m, now), op, now)
  }

  /** The live part of a lazy cache. */
  function Live<V>(c: Lazy<V>, now: int): map<string, Entry<V>> {
    map k | k in c.store && !Dead(c, k, now) :: Entry(c.store[k], Lookup(c.expiry, k))
  }

  lemma {:induction false} PurgeTwice<V>(m: map<string, Entry<V>>, now: int, later: int)
    requires now <= later
    ensures Purge(Purge(m, now), later) == Purge(m, later)
  {
  }

  /** Evicting a dead key is invisible. */
  lemma {:induction false} EvictInvisible<V>(c: Lazy<V>, k: string, now: int)
    requires Tidy(c)
    ensures Tidy(Evict(c, k, now)) && Live(Evict(c, k, now), now) == Live(c, now)
    ensures !Dead(Evict(c, k, now), k, now)
  {
  }

  /** One operation at one time: same answer, same live entries. */
  lemma {:induction false} StepRefines<V>(c: Lazy<V>, op: Op<V>, now: int)
    requires Tidy(c)
    ensures var ((c', a), (m', b)) := (LazyStep(c, op, now), EagerOp(Live(c, now), op, now));
      a == b && Tidy(c') && Live(c', now) == Purge(m', now)
  {
    var m := Live(c, now);
    match op
    case GetOp(k) => EvictInvisible(c, k, now);
    case SetOp(k, v, ex, nx) => SetStepRefines(c, k, v, ex, nx, now);
    case DeleteOp(k) =>
      assert Live(AfterDelete(c, k).0, now) == m - {k};
    case ExistsOp(k) => EvictInvisible(c, k, now);
    case KeysOp =>
      assert KeySet(c, now) == m.Keys;
  }

  lemma {:induction false} SetStepRefines<V>(c: Lazy<V>, k: string, v: V, ex: Option<int>, nx: bool, now: int)
    requires Tidy(c)
    ensures var op := SetOp(k, v, ex, nx);
      var ((c', a), (m', b)) := (LazyStep(c, op, now), EagerOp(Live(c, now), op, now));
      a == b && Tidy(c') && Live(c', now) == Purge(m', now)
  {
    EvictInvisible(c, k, now);
    SetRefines(Evict(c, k, now), k, v, ex, now);
  }

  lemma {:induction false} SetRefines<V>(c: Lazy<V>, k: string, v: V, ex: Option<int>, now: int)
    requires Tidy(c) && !Dead(c, k, now)
    ensures var c' := Lazy(c.store[k := v], if ex.Some? then c.expiry[k := now + ex.value] else c.expiry - {k});
      Tidy(c') && Live(c', now) == Purge(Live(c, now)[k := Entry(v, Deadline(ex, now))], now)
  {
  }

  /** An operation and when it happens. */
  datatype Timed<V> = Timed(op: Op<V>, now: int)

  function LazyRun<V>(ops: seq<Timed<V>>): (Lazy<V>, seq<Answer<V>>) {
    if ops == [] then (Lazy(map[], map[]), []) else
      var (c, answers) := LazyRun(ops[..|ops| - 1]);
      var (c', a) := LazyStep(c, ops[|ops| - 1].op, ops[|ops| - 1].now);
      (c', answers + [a])
  }

  function EagerRun<V>(ops: seq<Timed<V>>): (map<string, Entry<V>>, seq<Answer<V>>) {
    if ops == [] then (map[], []) else
      var (m, answers) := EagerRun(ops[..|ops| - 1]);
      var (m', a) := EagerStep(m, ops[|ops| - 1].op, ops[|ops| - 1].now);
      (m', answers + [a])
  }

  ghost predicate ClockRuns<V>(ops: seq<Timed<V>>) {
    forall i, j :: 0 <= i < j < |ops| ==> ops[i].now <= ops[j].now
  }

  /**
   * Lazy eviction is invisible: over every run under a clock that does not run backwards, the cache
   * answers as one that drops entries at their deadline, and ends with the same live entries.
   */
  lemma {:induction false} LazyRefinesEager<V>(ops: seq<Timed<V>>, t: int)
    requires ClockRuns(ops) && (ops != [] ==> ops[|ops| - 1].now <= t)
    ensures LazyRun(ops).1 == EagerRun(ops).1
    ensures Tidy(LazyRun(ops).0) && Live(LazyRun(ops).0, t) == Purge(EagerRun(ops).0, t)
  {
    if ops != [] {
      var before, last := ops[..|ops| - 1], ops[|ops| - 1];
      LazyRefinesEager(before, last.now);
      var c, m := LazyRun(before).0, EagerRun(before).0;
      StepRefines(c, last.op, last.now);
      PurgeTwice(EagerStep(m, last.op, last.now).0, last.now, t);
    }
  }

  // ---- Where it does show ----

  /** The count that delete returns is the eager one unless the key is dead and still stored. */
  lemma {:induction false} DeleteCountIff<V>(c: Lazy<V>, k: string, now: int)
    ensures AfterDelete(c, k).1 == (if k in Live(c, now) then 1 else 0) <==> !(k in c.store && Dead(c, k, now))
  {
  }

  /** What expire does to an eager cache. */
  function EagerExpire<V>(m: map<string, Entry<V>>, k: string, seconds: int, now: int): map<string, Entry<V>> {
    if k in m then m[k := Entry(m[k].value, Some(now + seconds))] else m
  }

  /** expire gives a dead key that is still stored a new life, unless its new deadline has passed as well. */
  lemma {:induction false} ExpireRefinesIff<V>(c: Lazy<V>, k: string, seconds: int, now: int)
    requires Tidy(c)
    ensures Live(AfterExpire(c, k, seconds, now).0, now) == Purge(EagerExpire(Live(c, now), k, seconds, now), now)
       <==> !(k in c.store && Dead(c, k, now)) || seconds < 0
  {
    if k in c.store && Dead(c, k, now) && seconds >= 0 {
      assert k in Live(AfterExpire(c, k, seconds, now).0, now) && k !in Live(c, now);
    }
  }
}
