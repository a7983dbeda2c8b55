/** Outbox, relays, queue and consumers in every interleaving. */
module Delivery {
  import opened Messaging
  import opened Text

  /** A message in flight and the outbox event it carries. */
  datatype Parcel = Parcel(event: string, mid: string)

  /**
   * Every place an event can be, and the events marked is_published; appended, issued and consumed
   * only record history.
   */
  datatype State = State(
    consumers: nat,
    pending: seq<string>,
    relaying: seq<string>,
    queue: seq<Parcel>,
    held: seq<Parcel>,
    returning: seq<Parcel>,
    done: seq<Parcel>,
    dlq: seq<Parcel>,
    lost: seq<string>,
    marked: set<string>,
    retryCounts: map<string, nat>,
    appended: seq<string>,
    issued: set<string>,
    consumed: seq<string>)

  /** Some consumers, each of which works on one message at a time. */
  function Start(w: nat): State {
    State(w, [], [], [], [], [], [], [], [], {}, map[], [], {}, [])
  }

  datatype Step =
    | Append(event: string)               // outbox.append
    | Take                                // a relay takes the oldest pending event
    | Publish(k: nat, mid: string)        // a relay's publish gets through, and the event is marked
    | PublishFails(k: nat)                // it raises, and the relay drops the event
    | Consume                             // a consumer gets the oldest message
    | Finish(k: nat)                      // a consumer is done with a message it holds
    | Nack(k: nat)                        // a consumer refuses a message it holds
    | Return(k: nat)                      // the put of a refused message gets through

  function Drop<T>(s: seq<T>, k: nat): seq<T>
    requires k < |s|
  {
    s[..k] + s[k + 1..]
  }

  /**
   * Identifiers are fresh, a put waits for room, and a consumer acts on the message it holds; until
   * its nack is through it takes no other.
   */
  predicate Enabled(s: State, a: Step) {
    match a
    case Append(e) => e !in s.appended
    case Take => s.pending != []
    case Publish(k, mid) => k < |s.relaying| && |s.queue| < CAPACITY && mid !in s.issued
    case PublishFails(k) => k < |s.relaying|
    case Consume => s.queue != [] && |s.held| + |s.returning| < s.consumers
    case Finish(k) => k < |s.held|
    case Nack(k) => k < |s.held|
    case Return(k) => k < |s.returning| && |s.queue| < CAPACITY
  }

  function Next(s: State, a: Step): State {
    if !Enabled(s, a) then s else
      match a
      case Append(e) => s.(appended := s.appended + [e], pending := s.pending + [e])
      case Take => s.(pending := s.pending[1..], relaying := s.relaying + [s.pending[0]])
      case Publish(k, mid) =>
        s.(relaying := Drop(s.relaying, k), queue := s.queue + [Parcel(s.relaying[k], mid)], issued := s.issued + {mid},
           marked := s.marked + {s.relaying[k]})
      case PublishFails(k) => s.(relaying := Drop(s.relaying, k), lost := s.lost + [s.relaying[k]])
      case Consume =>
        s.(queue := s.queue[1..], held := s.held + [s.queue[0]], consumed := s.consumed + [s.queue[0].event])
      case Finish(k) => s.(held := Drop(s.held, k), done := s.done + [s.held[k]])
      case Nack(k) =>
        var p := s.held[k];
        var counts := CountNack(s.retryCounts, p.mid);
        if Exhausted(counts, p.mid) then s.(held := Drop(s.held, k), retryCounts := counts, dlq := s.dlq + [p])
        else s.(held := Drop(s.held, k), retryCounts := counts, returning := s.returning + [p])
      case Return(k) => s.(returning := Drop(s.returning, k), queue := s.queue + [s.returning[k]])
  }

  function Exec(w: nat, steps: seq<Step>): State {
    if steps == [] then Start(w) else Next(Exec(w, steps[..|steps| - 1]), steps[|steps| - 1])
  }

  // ---- Every event is in exactly one place ----

  function Count(s: seq<string>, e: string): nat {
    if s == [] then 0 else Count(s[..|s| - 1], e) + if s[|s| - 1] == e then 1 else 0
  }

  /** The parcels that carry event e. */
  function Carrying(ps: seq<Parcel>, e: string): nat {
    if ps == [] then 0 else Carrying(ps[..|ps| - 1], e) + if ps[|ps| - 1].event == e then 1 else 0
  }

  /** The parcels with message id mid. */
  function WithMid(ps: seq<Parcel>, mid: string): nat {
    if ps == [] then 0 else WithMid(ps[..|ps| - 1], mid) + if ps[|ps| - 1].mid == mid then 1 else 0
  }

  lemma {:induction false} ParcelMore(ps: seq<Parcel>, p: Parcel, t: string)
    ensures Carrying(ps + [p], t) == Carrying(ps, t) + if p.event == t then 1 else 0
    ensures WithMid(ps + [p], t) == WithMid(ps, t) + if p.mid == t then 1 else 0
  {
    assert (ps + [p])[..|ps|] == ps;
  }

  lemma {:induction false} CountDrop(s: seq<string>, k: nat, e: string)
    requires k < |s|
    ensures Count(s, e) == Count(Drop(s, k), e) + if s[k] == e then 1 else 0
  {
    var n := |s| - 1;
    if k == n {
      assert Drop(s, k) == s[..n];
    } else {
      CountDrop(s[..n], k, e);
      assert Drop(s, k) == Drop(s[..n], k) + [s[n]];
    }
  }

  lemma {:induction false} ParcelDrop(ps: seq<Parcel>, k: nat, t: string)
    requires k < |ps|
    ensures Carrying(ps, t) == Carrying(Drop(ps, k), t) + if ps[k].event == t then 1 else 0
    ensures WithMid(ps, t) == WithMid(Drop(ps, k), t) + if ps[k].mid == t then 1 else 0
  {
    var n := |ps| - 1;
    if k == n {
      assert Drop(ps, k) == ps[..n];
    } else {
      ParcelDrop(ps[..n], k, t);
      assert Drop(ps, k) == Drop(ps[..n], k) + [ps[n]];
      ParcelMore(Drop(ps[..n], k), ps[n], t);
    }
  }

  /** The k-th parcel of one place moves to the end of another. */
  lemma {:induction false} ParcelMoves(x: seq<Parcel>, k: nat, y: seq<Parcel>, t: string)
    requires k < |x|
    ensures Carrying(Drop(x, k), t) + Carrying(y + [x[k]], t) == Carrying(x, t) + Carrying(y, t)
    ensures WithMid(Drop(x, k), t) + WithMid(y + [x[k]], t) == WithMid(x, t) + WithMid(y, t)
  {
    ParcelDrop(x, k, t);
    ParcelMore(y, x[k], t);
  }

  /** The occurrences of e in all places together. */
  function Everywhere(s: State, e: string): nat {
    Count(s.pending, e) + Count(s.relaying, e) + Carrying(s.queue, e) + Carrying(s.held, e) +
    Carrying(s.returning, e) + Carrying(s.done, e) + Carrying(s.dlq, e) + Count(s.lost, e)
  }

  lemma {:induction false} OutboxStepKeeps(s: State, a: Step, e: string)
    requires Enabled(s, a) && (a.Append? || a.Take? || a.Publish? || a.PublishFails?)
    ensures Everywhere(Next(s, a), e) == Everywhere(s, e) + if a == Append(e) then 1 else 0
  {
    match a
    case Append(x) =>
    case Take =>
      assert Drop(s.pending, 0) == s.pending[1..];
      CountDrop(s.pending, 0, e);
    case Publish(k, mid) =>
      CountDrop(s.relaying, k, e);
      ParcelMore(s.queue, Parcel(s.relaying[k], mid), e);
    case PublishFails(k) =>
      CountDrop(s.relaying, k, e);
  }

  /** A consumer's step moves one parcel from place to place. */
  lemma {:induction false} ConsumerStepKeeps(s: State, a: Step, t: string)
    requires Enabled(s, a) && (a.Consume? || a.Finish? || a.Nack? || a.Return?)
    ensures Everywhere(Next(s, a), t) == Everywhere(s, t)
    ensures MidEverywhere(Next(s, a), t) == MidEverywhere(s, t)
  {
    match a
    case Consume => ConsumeKeeps(s, t);
    case Finish(k) => FinishKeeps(s, k, t);
    case Nack(k) => NackKeeps(s, k, t);
    case Return(k) => ReturnKeeps(s, k, t);
  }

  lemma {:induction false} ConsumeKeeps(s: State, t: string)
    requires Enabled(s, Consume)
    ensures Everywhere(Next(s, Consume), t) == Everywhere(s, t)
    ensures MidEverywhere(Next(s, Consume), t) == MidEverywhere(s, t)
  {
    assert Drop(s.queue, 0) == s.queue[1..];
    ParcelMoves(s.queue, 0, s.held, t);
    var s' := Next(s, Consume);
    assert s'.queue == Drop(s.queue, 0) && s'.held == s.held + [s.queue[0]];
    assert s'.returning == s.returning && s'.done == s.done && s'.dlq == s.dlq;
  }

  lemma {:induction false} FinishKeeps(s: State, k: nat, t: string)
    requires k < |s.held|
    ensures Everywhere(Next(s, Finish(k)), t) == Everywhere(s, t)
    ensures MidEverywhere(Next(s, Finish(k)), t) == MidEverywhere(s, t)
  {
    ParcelMoves(s.held, k, s.done, t);
  }

  lemma {:induction false} ReturnKeeps(s: State, k: nat, t: string)
    requires k < |s.returning| && |s.queue| < CAPACITY
    ensures Everywhere(Next(s, Return(k)), t) == Everywhere(s, t)
    ensures MidEverywhere(Next(s, Return(k)), t) == MidEverywhere(s, t)
  {
    ParcelMoves(s.returning, k, s.queue, t);
  }

  lemma {:induction false} NackKeeps(s: State, k: nat, t: string)
    requires k < |s.held|
    ensures Everywhere(Next(s, Nack(k)), t) == Everywhere(s, t)
    ensures MidEverywhere(Next(s, Nack(k)), t) == MidEverywhere(s, t)
  {
    if Exhausted(CountNack(s.retryCounts, s.held[k].mid), s.held[k].mid) {
      ParcelMoves(s.held, k, s.dlq, t);
    } else {
      ParcelMoves(s.held, k, s.returning, t);
    }
  }

  /**
   * In every run, each appended event is in exactly one place, once: pending, being relayed,
   * queued, held, being returned, done, dead-lettered, or lost; and nothing else is anywhere.
   */
  lemma {:induction false} EveryEventInOnePlace(w: nat, steps: seq<Step>, e: string)
    ensures Everywhere(Exec(w, steps), e) == if e in Exec(w, steps).appended then 1 else 0
  {
    if steps != [] {
      var before, a := Exec(w, steps[..|steps| - 1]), steps[|steps| - 1];
      EveryEventInOnePlace(w, steps[..|steps| - 1], e);
      if Enabled(before, a) {
        if a.Append? || a.Take? || a.Publish? || a.PublishFails? {
          OutboxStepKeeps(before, a, e);
        } else {
          ConsumerStepKeeps(before, a, e);
        }
      }
    }
  }

  // ---- What a failed publish does ----

  /** How often a publish of e raised during the run. */
  function FailedPublishes(w: nat, steps: seq<Step>, e: string): nat {
    if steps == [] then 0 else
      var before, a := Exec(w, steps[..|steps| - 1]), steps[|steps| - 1];
      FailedPublishes(w, steps[..|steps| - 1], e) +
      if a.PublishFails? && Enabled(before, a) && before.relaying[a.k] == e then 1 else 0
  }

  lemma {:induction false} LostAreFailedPublishes(w: nat, steps: seq<Step>, e: string)
    ensures Count(Exec(w, steps).lost, e) == FailedPublishes(w, steps, e)
  {
    if steps != [] {
      var before, a := Exec(w, steps[..|steps| - 1]), steps[|steps| - 1];
      LostAreFailedPublishes(w, steps[..|steps| - 1], e);
    }
  }

  /** The messages carrying e: in the queue, with a consumer, on the way back, done with, or dead. */
  function Delivered(s: State, e: string): nat {
    Carrying(s.queue, e) + Carrying(s.held, e) + Carrying(s.returning, e) + Carrying(s.done, e) + Carrying(s.dlq, e)
  }

  lemma {:induction false} CountPositive(s: seq<string>, k: nat)
    requires k < |s|
    ensures Count(s, s[k]) >= 1
  {
    CountDrop(s, k, s[k]);
  }

  /** An event is marked exactly when there is a message that carries it, and then there is one. */
  lemma {:induction false} MarkedAreDelivered(w: nat, steps: seq<Step>, e: string)
    ensures Delivered(Exec(w, steps), e) == if e in Exec(w, steps).marked then 1 else 0
  {
    if steps != [] {
      var before, a := Exec(w, steps[..|steps| - 1]), steps[|steps| - 1];
      MarkedAreDelivered(w, steps[..|steps| - 1], e);
      if Enabled(before, a) {
        if a.Append? || a.Take? || a.Publish? || a.PublishFails? {
          if a.Publish? && before.relaying[a.k] == e {
            CountPositive(before.relaying, a.k);
            EveryEventInOnePlace(w, steps[..|steps| - 1], e);
          }
        } else {
          ConsumerStepKeeps(before, a, e);
        }
      }
    }
  }

  /**
   * Delivery is not at least once. An appended event that is neither pending nor being relayed any
   * more is with the queue, its consumers or the dead letters exactly when no publish of it raised;
   * and is_published says the same.
   */
  lemma {:induction false} DeliveredIffNoPublishRaised(w: nat, steps: seq<Step>, e: string)
    requires e in Exec(w, steps).appended && e !in Exec(w, steps).pending && e !in Exec(w, steps).relaying
    ensures Delivered(Exec(w, steps), e) == (if FailedPublishes(w, steps, e) == 0 then 1 else 0)
    ensures e in Exec(w, steps).marked <==> FailedPublishes(w, steps, e) == 0
    ensures FailedPublishes(w, steps, e) <= 1
  {
    EveryEventInOnePlace(w, steps, e);
    LostAreFailedPublishes(w, steps, e);
    MarkedAreDelivered(w, steps, e);
    NotCounted(Exec(w, steps).pending, e);
    NotCounted(Exec(w, steps).relaying, e);
  }

  lemma {:induction false} NotCounted(s: seq<string>, e: string)
    requires e !in s
    ensures Count(s, e) == 0
  {
    if s != [] {
      assert s[|s| - 1] in s;
      NotCounted(s[..|s| - 1], e);
    }
  }

  // ---- Dead letters ----

  function MidEverywhere(s: State, mid: string): nat {
    WithMid(s.queue, mid) + WithMid(s.held, mid) + WithMid(s.returning, mid) + WithMid(s.done, mid) + WithMid(s.dlq, mid)
  }

  /** Message ids are unique, and a message is a dead letter exactly from its third nack on. */
  ghost predicate Counted(s: State) {
    && (forall mid :: MidEverywhere(s, mid) == if mid in s.issued then 1 else 0)
    && AllBelow(s.queue, s.retryCounts) && AllBelow(s.held, s.retryCounts)
    && AllBelow(s.returning, s.retryCounts) && AllBelow(s.done, s.retryCounts)
    && (forall p :: p in s.dlq ==> Retries(s.retryCounts, p.mid) == MAX_RETRIES)
    && s.retryCounts.Keys <= s.issued
  }

  ghost predicate AllBelow(ps: seq<Parcel>, counts: map<string, nat>) {
    forall p :: p in ps ==> Retries(counts, p.mid) < MAX_RETRIES
  }

  lemma {:induction false} HasMid(ps: seq<Parcel>, p: Parcel)
    requires p in ps
    ensures WithMid(ps, p.mid) >= 1
  {
    if p != ps[|ps| - 1] {
      assert p in ps[..|ps| - 1];
      HasMid(ps[..|ps| - 1], p);
    }
  }

  lemma {:induction false} WithoutMid(ps: seq<Parcel>, mid: string)
    requires WithMid(ps, mid) == 0
    ensures forall p :: p in ps ==> p.mid != mid
  {
    forall p | p in ps
      ensures p.mid != mid
    {
      HasMid(ps, p);
    }
  }

  /** No other parcel, anywhere, has the id of the k-th held one. */
  lemma {:induction false} HeldIsUnique(s: State, k: nat)
    requires Counted(s) && k < |s.held|
    ensures s.held[k].mid in s.issued
    ensures forall q :: q in s.queue || q in Drop(s.held, k) || q in s.returning || q in s.done || q in s.dlq ==> q.mid != s.held[k].mid
  {
    var mid := s.held[k].mid;
    ParcelDrop(s.held, k, mid);
    assert MidEverywhere(s, mid) == 1;
    WithoutMid(s.queue, mid);
    WithoutMid(Drop(s.held, k), mid);
    WithoutMid(s.returning, mid);
    WithoutMid(s.done, mid);
    WithoutMid(s.dlq, mid);
  }

  lemma {:induction false} NextKeepsMids(s: State, a: Step, mid: string)
    requires Enabled(s, a)
    ensures MidEverywhere(Next(s, a), mid) == MidEverywhere(s, mid) + if a.Publish? && a.mid == mid then 1 else 0
  {
    match a
    case Append(_) =>
    case Take =>
    case Publish(k, m) =>
      ParcelMore(s.queue, Parcel(s.relaying[k], m), mid);
    case PublishFails(_) =>
    case _ =>
      ConsumerStepKeeps(s, a, mid);
  }

  /** Counting a nack of one id leaves the counts of other ids. */
  lemma {:induction false} OthersUnaffected(ps: seq<Parcel>, counts: map<string, nat>, mid: string)
    requires forall q :: q in ps ==> q.mid != mid
    ensures AllBelow(ps, counts) ==> AllBelow(ps, CountNack(counts, mid))
    ensures (forall q :: q in ps ==> Retries(counts, q.mid) == MAX_RETRIES) ==>
              forall q :: q in ps ==> Retries(CountNack(counts, mid), q.mid) == MAX_RETRIES
  {
  }

  lemma {:induction false} NackKeepsCounts(s: State, k: nat)
    requires k < |s.held| && Counted(s)
    ensures var t := Next(s, Nack(k));
      && AllBelow(t.queue, t.retryCounts) && AllBelow(t.held, t.retryCounts)
      && AllBelow(t.returning, t.retryCounts) && AllBelow(t.done, t.retryCounts)
      && (forall p :: p in t.dlq ==> Retries(t.retryCounts, p.mid) == MAX_RETRIES)
      && t.retryCounts.Keys <= t.issued
  {
    HeldIsUnique(s, k);
    var p := s.held[k];
    assert AllBelow(Drop(s.held, k), s.retryCounts) by {
      assert forall q :: q in Drop(s.held, k) ==> q in s.held;
    }
    OthersUnaffected(s.queue, s.retryCounts, p.mid);
    OthersUnaffected(Drop(s.held, k), s.retryCounts, p.mid);
    OthersUnaffected(s.returning, s.retryCounts, p.mid);
    OthersUnaffected(s.done, s.retryCounts, p.mid);
    OthersUnaffected(s.dlq, s.retryCounts, p.mid);
    assert Retries(s.retryCounts, p.mid) < MAX_RETRIES by {
      assert p in s.held;
    }
  }

  lemma {:induction false} MidsStayUnique(s: State, a: Step)
    requires Enabled(s, a) && forall mid :: MidEverywhere(s, mid) == if mid in s.issued then 1 else 0
    ensures forall mid :: MidEverywhere(Next(s, a), mid) == if mid in Next(s, a).issued then 1 else 0
  {
    forall mid
      ensures MidEverywhere(Next(s, a), mid) == if mid in Next(s, a).issued then 1 else 0
    {
      NextKeepsMids(s, a, mid);
    }
  }

  lemma {:induction false} MoveKeepsBelow(x: seq<Parcel>, k: nat, y: seq<Parcel>, counts: map<string, nat>)
    requires k < |x| && AllBelow(x, counts) && AllBelow(y, counts)
    ensures AllBelow(Drop(x, k), counts) && AllBelow(y + [x[k]], counts)
  {
    assert x[k] in x && forall q :: q in Drop(x, k) ==> q in x;
  }

  lemma {:induction false} NextKeepsCounted(s: State, a: Step)
    requires Enabled(s, a) && Counted(s)
    ensures Counted(Next(s, a))
  {
    MidsStayUnique(s, a);
    match a
    case Nack(k) => NackKeepsCounts(s, k);
    case Publish(k, mid) => FreshIsUncounted(s, mid);
    case Consume =>
      assert Drop(s.queue, 0) == s.queue[1..];
      MoveKeepsBelow(s.queue, 0, s.held, s.retryCounts);
    case Finish(k) => MoveKeepsBelow(s.held, k, s.done, s.retryCounts);
    case Return(k) => MoveKeepsBelow(s.returning, k, s.queue, s.retryCounts);
    case _ =>
  }

  lemma {:induction false} FreshIsUncounted(s: State, mid: string)
    requires Counted(s) && mid !in s.issued
    ensures Retries(s.retryCounts, mid) == 0
  {
  }

  lemma {:induction false} RunCounts(w: nat, steps: seq<Step>)
    ensures Counted(Exec(w, steps))
  {
    if steps != [] {
      var before, a := Exec(w, steps[..|steps| - 1]), steps[|steps| - 1];
      RunCounts(w, steps[..|steps| - 1]);
      if Enabled(before, a) {
        NextKeepsCounted(before, a);
      }
    }
  }

  /** How often the message mid was nacked during the run. */
  function NacksOf(w: nat, steps: seq<Step>, mid: string): nat {
    if steps == [] then 0 else
      var before := Exec(w, steps[..|steps| - 1]);
      var a := steps[|steps| - 1];
      NacksOf(w, steps[..|steps| - 1], mid) +
      if a.Nack? && Enabled(before, a) && before.held[a.k].mid == mid then 1 else 0
  }

  lemma {:induction false} CountsAreNacks(w: nat, steps: seq<Step>, mid: string)
    ensures Retries(Exec(w, steps).retryCounts, mid) == NacksOf(w, steps, mid)
  {
    if steps != [] {
      var before, a := Exec(w, steps[..|steps| - 1]), steps[|steps| - 1];
      CountsAreNacks(w, steps[..|steps| - 1], mid);
    }
  }

  /** A published message is in the dead-letter list exactly when it was nacked three times, and then once. */
  lemma {:induction false} DeadLetterOnThirdNack(w: nat, steps: seq<Step>, mid: string)
    requires mid in Exec(w, steps).issued
    ensures WithMid(Exec(w, steps).dlq, mid) == if NacksOf(w, steps, mid) == 3 then 1 else 0
    ensures NacksOf(w, steps, mid) <= 3
  {
    var s := Exec(w, steps);
    RunCounts(w, steps);
    CountsAreNacks(w, steps, mid);
    assert MidEverywhere(s, mid) == 1;
    MidIsSomewhere(s.dlq, mid);
    MidIsSomewhere(s.queue, mid);
    MidIsSomewhere(s.held, mid);
    MidIsSomewhere(s.returning, mid);
    MidIsSomewhere(s.done, mid);
  }

  lemma {:induction false} MidIsSomewhere(ps: seq<Parcel>, mid: string)
    ensures WithMid(ps, mid) > 0 ==> exists p :: p in ps && p.mid == mid
  {
    if WithMid(ps, mid) > 0 {
      var last := ps[|ps| - 1];
      assert last in ps;
      if last.mid != mid {
        MidIsSomewhere(ps[..|ps| - 1], mid);
        var p :| p in ps[..|ps| - 1] && p.mid == mid;
        assert p in ps;
      }
    }
  }

  // ---- Order ----

  function Names(ps: seq<Parcel>): seq<string> {
    seq(|ps|, i requires 0 <= i < |ps| => ps[i].event)
  }

  /** No nacks, and one relay at a time. */
  ghost predicate Orderly(w: nat, steps: seq<Step>) {
    forall i :: 0 <= i < |steps| ==> !steps[i].Nack? && (steps[i].Take? ==> Exec(w, steps[..i]).relaying == [])
  }

  /** Some events without those that are lost. */
  function Kept(events: seq<string>, lost: seq<string>): seq<string> {
    if events == [] then [] else
      var e := events[|events| - 1];
      Kept(events[..|events| - 1], lost) + if e in lost then [] else [e]
  }

  lemma {:induction false} KeptConcat(x: seq<string>, y: seq<string>, lost: seq<string>)
    ensures Kept(x + y, lost) == Kept(x, lost) + Kept(y, lost)
  {
    if y == [] {
      assert x + y == x;
    } else {
      var n := |y| - 1;
      assert x + y == (x + y[..n]) + [y[n]] && y == y[..n] + [y[n]];
      KeptConcat(x, y[..n], lost);
    }
  }

  lemma {:induction false} KeptMembers(events: seq<string>, lost: seq<string>)
    ensures forall e :: e in Kept(events, lost) <==> e in events && e !in lost
  {
    if events != [] {
      KeptMembers(events[..|events| - 1], lost);
      assert events == events[..|events| - 1] + [events[|events| - 1]];
    }
  }

  /** Losing one more leaves the others in order. */
  lemma {:induction false} KeptTwice(events: seq<string>, lost: seq<string>, x: string)
    ensures Kept(events, lost + [x]) == Kept(Kept(events, lost), [x])
  {
    if events != [] {
      var n := |events| - 1;
      var e, k := events[n], Kept(events[..n], lost);
      KeptTwice(events[..n], lost, x);
      if e in lost {
        assert k + [] == k;
      }
    }
  }

  lemma {:induction false} KeptAll(events: seq<string>, x: string)
    requires x !in events
    ensures Kept(events, [x]) == events
  {
    if events != [] {
      assert events == events[..|events| - 1] + [events[|events| - 1]];
      KeptAll(events[..|events| - 1], x);
    }
  }

  /** A list in which no event occurs twice loses just the one. */
  lemma {:induction false} KeptAround(p: seq<string>, x: string, q: seq<string>)
    requires x !in p && x !in q
    ensures Kept(p + [x] + q, [x]) == p + q
  {
    KeptAll(p, x);
    KeptAll(q, x);
    assert Kept(p + [x], [x]) == p;
    KeptConcat(p + [x], q, [x]);
  }

  lemma {:induction false} OccursOnce(p: seq<string>, x: string, q: seq<string>)
    requires NoRepeats(p + [x] + q)
    ensures x !in p && x !in q
  {
    var all := p + [x] + q;
    assert all[|p|] == x;
    assert forall i :: 0 <= i < |p| ==> all[i] == p[i];
    assert forall i :: 0 <= i < |q| ==> all[|p| + 1 + i] == q[i];
  }

  ghost predicate NoRepeats(events: seq<string>) {
    forall i, j :: 0 <= i < j < |events| ==> events[i] != events[j]
  }

  lemma {:induction false} KeptNoRepeats(events: seq<string>, lost: seq<string>)
    requires NoRepeats(events)
    ensures NoRepeats(Kept(events, lost))
  {
    if events != [] {
      var n := |events| - 1;
      KeptNoRepeats(events[..n], lost);
      KeptMembers(events[..n], lost);
      assert forall i :: 0 <= i < n ==> events[..n][i] == events[i];
      var k := Kept(events[..n], lost);
      assert forall i :: 0 <= i < |k| ==> k[i] in k;
    }
  }

  /** What is consumed, queued, being relayed and pending is what was appended and not lost, in that order. */
  ghost predicate InOrder(s: State) {
    && s.consumed + Names(s.queue) + s.relaying + s.pending == Kept(s.appended, s.lost)
    && |s.relaying| <= 1 && s.returning == []
    && NoRepeats(s.appended) && forall e :: e in s.lost ==> e in s.appended
  }

  lemma {:induction false} AppendKeepsOrder(s: State, e: string)
    requires InOrder(s) && e !in s.appended
    ensures InOrder(Next(s, Append(e)))
  {
    assert s.consumed + Names(s.queue) + s.relaying + (s.pending + [e]) == s.consumed + Names(s.queue) + s.relaying + s.pending + [e];
    assert forall i :: 0 <= i < |s.appended| ==> s.appended[i] in s.appended;
  }

  lemma {:induction false} FailureKeepsOrder(s: State, k: nat)
    requires InOrder(s) && k < |s.relaying|
    ensures InOrder(Next(s, PublishFails(k)))
  {
    var x, p := s.relaying[k], s.consumed + Names(s.queue);
    assert s.relaying == [x] && Drop(s.relaying, k) == [];
    LosingOne(s.appended, s.lost, p, x, s.pending);
    assert p + [] + s.pending == p + s.pending;
  }

  lemma {:induction false} LosingOne(events: seq<string>, lost: seq<string>, p: seq<string>, x: string, q: seq<string>)
    requires NoRepeats(events) && Kept(events, lost) == p + [x] + q
    ensures Kept(events, lost + [x]) == p + q && x in events
  {
    KeptMembers(events, lost);
    assert (p + [x] + q)[|p|] == x;
    KeptNoRepeats(events, lost);
    OccursOnce(p, x, q);
    KeptTwice(events, lost, x);
    KeptAround(p, x, q);
  }

  lemma {:induction false} NextKeepsOrder(s: State, a: Step)
    requires InOrder(s) && Enabled(s, a) && !a.Nack? && (a.Take? ==> s.relaying == [])
    ensures InOrder(Next(s, a))
  {
    match a
    case Append(e) => AppendKeepsOrder(s, e);
    case PublishFails(k) => FailureKeepsOrder(s, k);
    case Take =>
      assert s.pending == [s.pending[0]] + s.pending[1..];
      assert s.consumed + Names(s.queue) + s.relaying + s.pending == s.consumed + Names(s.queue) + [s.pending[0]] + s.pending[1..];
    case Publish(k, mid) =>
      var p := Parcel(s.relaying[0], mid);
      assert Names(s.queue + [p]) == Names(s.queue) + s.relaying;
      assert s.consumed + (Names(s.queue) + s.relaying) + [] + s.pending == s.consumed + Names(s.queue) + s.relaying + s.pending;
    case Consume =>
      assert Names(s.queue) == [s.queue[0].event] + Names(s.queue[1..]);
      assert s.consumed + Names(s.queue) == s.consumed + [s.queue[0].event] + Names(s.queue[1..]);
    case Finish(k) =>
    case Return(k) =>
  }

  lemma {:induction false} OrderlyBefore(w: nat, steps: seq<Step>)
    requires Orderly(w, steps) && steps != []
    ensures Orderly(w, steps[..|steps| - 1])
  {
    var n := |steps| - 1;
    assert forall i :: 0 <= i < n ==> steps[..n][i] == steps[i] && steps[..n][..i] == steps[..i];
  }

  lemma {:induction false} RunInOrder(w: nat, steps: seq<Step>)
    requires Orderly(w, steps)
    ensures InOrder(Exec(w, steps))
  {
    if steps != [] {
      var n := |steps| - 1;
      OrderlyBefore(w, steps);
      RunInOrder(w, steps[..n]);
      if Enabled(Exec(w, steps[..n]), steps[n]) {
        NextKeepsOrder(Exec(w, steps[..n]), steps[n]);
      }
    }
  }

  /**
   * Without nacks, what has been consumed is a prefix of what was appended less the events whose
   * publish failed, in the order of appending.
   */
  lemma {:induction false} FirstInFirstOut(w: nat, steps: seq<Step>)
    requires Orderly(w, steps)
    ensures Exec(w, steps).consumed <= Kept(Exec(w, steps).appended, Exec(w, steps).lost)
  {
    RunInOrder(w, steps);
    var s := Exec(w, steps);
    var taken := s.consumed + Names(s.queue);
    assert s.consumed <= taken && taken <= taken + s.relaying;
    assert taken + s.relaying <= taken + s.relaying + s.pending;
  }

  // ---- Consumers that always nack drain the queue ----

  /**
   * The steps still to come for some messages: a consume, a nack and a return for each nack but the
   * last, which needs no return; less those already taken on the current one.
   */
  function Work(ps: seq<Parcel>, counts: map<string, nat>, taken: nat): int {
    if ps == [] then 0 else
      Work(ps[..|ps| - 1], counts, taken) + 3 * (MAX_RETRIES - Retries(counts, ps[|ps| - 1].mid)) - taken
  }

  /** The retry budget of a state: steps that consumers who always nack can still take. */
  function Budget(s: State): int {
    Work(s.queue, s.retryCounts, 1) + Work(s.held, s.retryCounts, 2) + Work(s.returning, s.retryCounts, 0)
  }

  lemma {:induction false} WorkDrop(ps: seq<Parcel>, k: nat, counts: map<string, nat>, taken: nat)
    requires k < |ps|
    ensures Work(ps, counts, taken) == Work(Drop(ps, k), counts, taken) + 3 * (MAX_RETRIES - Retries(counts, ps[k].mid)) - taken
  {
    var n := |ps| - 1;
    if k == n {
      assert Drop(ps, k) == ps[..n];
    } else {
      WorkDrop(ps[..n], k, counts, taken);
      assert Drop(ps, k) == Drop(ps[..n], k) + [ps[n]];
    }
  }

  lemma {:induction false} WorkUnaffected(ps: seq<Parcel>, counts: map<string, nat>, mid: string, taken: nat)
    requires forall p :: p in ps ==> p.mid != mid
    ensures Work(ps, CountNack(counts, mid), taken) == Work(ps, counts, taken)
  {
    if ps != [] {
      WorkUnaffected(ps[..|ps| - 1], counts, mid, taken);
    }
  }

  /** Messages below the limit have work left, each at least one step. */
  lemma {:induction false} WorkPositive(ps: seq<Parcel>, counts: map<string, nat>, taken: nat)
    requires AllBelow(ps, counts) && taken <= 2
    ensures Work(ps, counts, taken) >= |ps|
  {
    if ps != [] {
      assert AllBelow(ps[..|ps| - 1], counts) by {
        assert forall p :: p in ps[..|ps| - 1] ==> p in ps;
      }
      WorkPositive(ps[..|ps| - 1], counts, taken);
      assert ps[|ps| - 1] in ps;
    }
  }

  lemma {:induction false} NackCosts(s: State, k: nat)
    requires Counted(s) && k < |s.held|
    ensures Budget(Next(s, Nack(k))) == Budget(s) - 1
  {
    var p := s.held[k];
    var counts := CountNack(s.retryCounts, p.mid);
    HeldIsUnique(s, k);
    assert p in s.held;
    WorkDrop(s.held, k, s.retryCounts, 2);
    WorkUnaffected(s.queue, s.retryCounts, p.mid, 1);
    WorkUnaffected(Drop(s.held, k), s.retryCounts, p.mid, 2);
    WorkUnaffected(s.returning, s.retryCounts, p.mid, 0);
  }

  predicate ByConsumer(a: Step) {
    a.Consume? || a.Nack? || a.Return?
  }

  lemma {:induction false} ConsumeCosts(s: State)
    requires Enabled(s, Consume)
    ensures Budget(Next(s, Consume)) == Budget(s) - 1
  {
    assert Drop(s.queue, 0) == s.queue[1..];
    WorkDrop(s.queue, 0, s.retryCounts, 1);
  }

  lemma {:induction false} ReturnCosts(s: State, k: nat)
    requires k < |s.returning| && |s.queue| < CAPACITY
    ensures Budget(Next(s, Return(k))) == Budget(s) - 1
  {
    WorkDrop(s.returning, k, s.retryCounts, 0);
  }

  /** Each step of a nacking consumer costs one unit, and each new message brings eight. */
  lemma {:induction false} StepCosts(s: State, a: Step)
    requires Counted(s) && Enabled(s, a) && !a.Finish?
    ensures Budget(Next(s, a)) == Budget(s) + (if a.Publish? then 8 else 0) - if ByConsumer(a) then 1 else 0
  {
    match a
    case Publish(k, mid) =>
    case Consume => ConsumeCosts(s);
    case Nack(k) => NackCosts(s, k);
    case Return(k) => ReturnCosts(s, k);
    case _ =>
  }

  /** How many steps of nacking consumers, and how many publishes, a run took. */
  function ConsumerSteps(w: nat, steps: seq<Step>): nat {
    if steps == [] then 0 else
      ConsumerSteps(w, steps[..|steps| - 1]) +
      if ByConsumer(steps[|steps| - 1]) && Enabled(Exec(w, steps[..|steps| - 1]), steps[|steps| - 1]) then 1 else 0
  }

  function Publishes(w: nat, steps: seq<Step>): nat {
    if steps == [] then 0 else
      Publishes(w, steps[..|steps| - 1]) +
      if steps[|steps| - 1].Publish? && Enabled(Exec(w, steps[..|steps| - 1]), steps[|steps| - 1]) then 1 else 0
  }

  /** Steps taken and budget left, less what publishes brought. */
  function Balance(w: nat, steps: seq<Step>): int {
    ConsumerSteps(w, steps) + Budget(Exec(w, steps)) - 8 * Publishes(w, steps)
  }

  lemma {:induction false} LastStepBalances(w: nat, steps: seq<Step>)
    requires steps != [] && !steps[|steps| - 1].Finish?
    ensures Balance(w, steps) == Balance(w, steps[..|steps| - 1])
    ensures Exec(w, steps).done == Exec(w, steps[..|steps| - 1]).done
  {
    var before, a := Exec(w, steps[..|steps| - 1]), steps[|steps| - 1];
    RunCounts(w, steps[..|steps| - 1]);
    if Enabled(before, a) {
      StepCosts(before, a);
    }
  }

  /** From any state a run can reach, steps taken and budget left add up, whoever runs in between. */
  lemma {:induction false} BudgetIsConserved(w: nat, steps: seq<Step>, more: seq<Step>)
    requires forall a :: a in more ==> !a.Finish?
    ensures Balance(w, steps + more) == Balance(w, steps)
    ensures Exec(w, steps + more).done == Exec(w, steps).done
  {
    if more == [] {
      assert steps + more == steps;
    } else {
      var n := |more| - 1;
      var all := steps + more;
      assert all[..|all| - 1] == steps + more[..n] && all[|all| - 1] == more[n];
      LastStepBalances(w, all);
      BudgetIsConserved(w, steps, more[..n]);
    }
  }

  predicate Drained(s: State) {
    s.queue == [] && s.held == [] && s.returning == []
  }

  /** The queue is within its capacity, and no consumer works on two messages. */
  ghost predicate Bounded(s: State) {
    |s.queue| <= CAPACITY && |s.held| + |s.returning| <= s.consumers
  }

  lemma {:induction false} NextKeepsBounded(s: State, a: Step)
    requires Bounded(s) && Enabled(s, a)
    ensures Bounded(Next(s, a)) && Next(s, a).consumers == s.consumers
  {
  }

  lemma {:induction false} RunIsBounded(w: nat, steps: seq<Step>)
    ensures Bounded(Exec(w, steps)) && Exec(w, steps).consumers == w
  {
    if steps != [] {
      var before, a := Exec(w, steps[..|steps| - 1]), steps[|steps| - 1];
      RunIsBounded(w, steps[..|steps| - 1]);
      if Enabled(before, a) {
        NextKeepsBounded(before, a);
      }
    }
  }

  /** The queue is full and every consumer waits in its nack for room; or there is no consumer at all. */
  predicate Jammed(s: State) {
    && s.queue != [] && s.held == [] && |s.returning| == s.consumers
    && (s.consumers == 0 || |s.queue| == 10000)
  }

  /** Nacking consumers cannot move exactly when nothing is left for them, or they are jammed. */
  lemma {:induction false} StuckIff(s: State)
    requires Bounded(s)
    ensures (forall a :: ByConsumer(a) ==> !Enabled(s, a)) <==> Drained(s) || Jammed(s)
  {
    assert ByConsumer(Consume) && ByConsumer(Nack(0)) && ByConsumer(Return(0));
    if !Drained(s) && !Jammed(s) {
      assert Enabled(s, Consume) || Enabled(s, Nack(0)) || Enabled(s, Return(0));
    }
  }

  /**
   * The queue is full, every consumer is busy, and none holds a message that its next nack makes a
   * dead letter; or there is no consumer at all.
   */
  ghost predicate Doomed(s: State) {
    && s.queue != [] && |s.held| + |s.returning| == s.consumers
    && (s.consumers == 0 || |s.queue| == 10000)
    && forall p :: p in s.held ==> Retries(s.retryCounts, p.mid) + 1 < 3
  }

  lemma {:induction false} NackKeepsDoom(s: State, k: nat)
    requires Counted(s) && Bounded(s) && k < |s.held|
    ensures Doomed(Next(s, Nack(k))) <==> Doomed(s)
  {
    var t, p := Next(s, Nack(k)), s.held[k];
    HeldIsUnique(s, k);
    assert p in s.held;
    assert forall q :: q in s.held <==> q == p || q in t.held;
    assert forall q :: q in t.held ==> Retries(t.retryCounts, q.mid) == Retries(s.retryCounts, q.mid);
  }

  /** Nacking consumers neither come into that state nor get out of it by themselves. */
  lemma {:induction false} StepKeepsDoom(s: State, a: Step)
    requires Counted(s) && Bounded(s) && Enabled(s, a) && !a.Finish? && !a.Publish?
    ensures Doomed(Next(s, a)) <==> Doomed(s)
  {
    if a.Nack? {
      NackKeepsDoom(s, a.k);
    }
  }

  lemma {:induction false} DoomIsKept(w: nat, steps: seq<Step>, more: seq<Step>)
    requires forall a :: a in more ==> !a.Finish? && !a.Publish?
    ensures Doomed(Exec(w, steps + more)) <==> Doomed(Exec(w, steps))
  {
    if more == [] {
      assert steps + more == steps;
    } else {
      var n := |more| - 1;
      var all := steps + more;
      assert all[..|all| - 1] == steps + more[..n] && all[|all| - 1] == more[n];
      DoomIsKept(w, steps, more[..n]);
      RunCounts(w, steps + more[..n]);
      RunIsBounded(w, steps + more[..n]);
      if Enabled(Exec(w, steps + more[..n]), more[n]) {
        StepKeepsDoom(Exec(w, steps + more[..n]), more[n]);
      }
    }
  }

  lemma {:induction false} DrainedIffSpent(s: State)
    requires Counted(s)
    ensures Budget(s) >= 0 && (Budget(s) == 0 <==> Drained(s))
  {
    WorkPositive(s.queue, s.retryCounts, 1);
    WorkPositive(s.held, s.retryCounts, 2);
    WorkPositive(s.returning, s.retryCounts, 0);
  }

  /**
   * Consumers that always nack, in every interleaving among themselves and with appends and relays
   * that publish nothing more, from any state a run can reach. They take at most its retry budget of
   * steps, and have drained the queue exactly when it is spent; every message that was not done with
   * before is then a dead letter, once. A schedule that cannot go on has drained the queue exactly
   * when the state it came from was not doomed.
   */
  lemma {:induction false} AlwaysNackDrains(w: nat, steps: seq<Step>, more: seq<Step>)
    requires forall a :: a in more ==> !a.Finish? && !a.Publish?
    ensures var s, t := Exec(w, steps), Exec(w, steps + more);
      var taken := ConsumerSteps(w, steps + more) - ConsumerSteps(w, steps);
      && taken <= Budget(s)
      && (taken == Budget(s) <==> Drained(t))
      && (Drained(t) ==> forall mid :: mid in t.issued ==> WithMid(t.dlq, mid) == 1 - WithMid(s.done, mid))
      && ((forall a :: ByConsumer(a) ==> !Enabled(t, a)) ==> (Drained(t) <==> !Doomed(s)))
      && (Doomed(s) ==> !Drained(t))
  {
    var t := Exec(w, steps + more);
    BudgetIsConserved(w, steps, more);
    NothingPublished(w, steps, more);
    RunCounts(w, steps + more);
    RunIsBounded(w, steps + more);
    DrainedIffSpent(t);
    StuckIff(t);
    DoomIsKept(w, steps, more);
    forall mid | Drained(t) && mid in t.issued
      ensures WithMid(t.dlq, mid) == 1 - WithMid(t.done, mid)
    {
      assert MidEverywhere(t, mid) == 1;
    }
  }

  lemma {:induction false} NothingPublished(w: nat, steps: seq<Step>, more: seq<Step>)
    requires forall a :: a in more ==> !a.Publish?
    ensures Publishes(w, steps + more) == Publishes(w, steps)
  {
    if more == [] {
      assert steps + more == steps;
    } else {
      var all := steps + more;
      assert all[..|all| - 1] == steps + more[..|more| - 1] && all[|all| - 1] == more[|more| - 1];
      NothingPublished(w, steps, more[..|more| - 1]);
    }
  }

  /** Event i is appended and published. */
  function Supply(i: nat): seq<Step> {
    [Append(NatText(i)), Take, Publish(0, NatText(i))]
  }

  /** n events, of which each of w consumers takes one. */
  function Flood(w: nat, n: nat): seq<Step> {
    if n == 0 then [] else Flood(w, n - 1) + Supply(n - 1) + if n <= w then [Consume] else []
  }

  lemma {:induction false} ExecMore(w: nat, steps: seq<Step>, a: Step)
    ensures Exec(w, steps + [a]) == Next(Exec(w, steps), a)
  {
    assert (steps + [a])[..|steps|] == steps;
  }

  predicate Named(e: string, n: nat) {
    exists i :: 0 <= i < n && e == NatText(i)
  }

  ghost predicate Flooded(s: State, w: nat, n: nat) {
    && s.consumers == w && s.pending == [] && s.relaying == [] && s.returning == [] && s.retryCounts == map[]
    && |s.held| == (if n <= w then n else w) && |s.queue| == n - |s.held|
    && (forall e :: e in s.appended ==> Named(e, n)) && (forall mid :: mid in s.issued ==> Named(mid, n))
  }

  lemma {:induction false} NamesDiffer(i: nat, j: nat)
    requires NatText(i) == NatText(j)
    ensures i == j
  {
    NatTextReads(i);
    NatTextReads(j);
  }

  lemma {:induction false} SupplyOne(w: nat, steps: seq<Step>, n: nat)
    requires Flooded(Exec(w, steps), w, n) && |Exec(w, steps).queue| < CAPACITY
    ensures var s, t := Exec(w, steps), Exec(w, steps + Supply(n));
      && t.consumers == w && t.pending == [] && t.relaying == [] && t.returning == [] && t.retryCounts == map[]
      && t.held == s.held && t.queue == s.queue + [Parcel(NatText(n), NatText(n))]
      && t.appended == s.appended + [NatText(n)] && t.issued == s.issued + {NatText(n)}
  {
    var s, e := Exec(w, steps), NatText(n);
    if e in s.appended || e in s.issued {
      var i :| 0 <= i < n && e == NatText(i);
      NamesDiffer(i, n);
      assert false;
    }
    assert steps + Supply(n) == steps + [Append(e)] + [Take] + [Publish(0, e)];
    ExecMore(w, steps, Append(e));
    ExecMore(w, steps + [Append(e)], Take);
    ExecMore(w, steps + [Append(e)] + [Take], Publish(0, e));
    assert s.pending + [e] == [e] && [e][1..] == [] && s.relaying + [e] == [e] && Drop([e], 0) == [];
  }

  /** One more event, which a free consumer takes. */
  lemma {:induction false} FloodedMore(s: State, t: State, w: nat, n: nat)
    requires Flooded(s, w, n)
    requires t.consumers == w && t.pending == [] && t.relaying == [] && t.returning == [] && t.retryCounts == map[]
    requires t.held == s.held && |t.queue| == |s.queue| + 1
    requires t.appended == s.appended + [NatText(n)] && t.issued == s.issued + {NatText(n)}
    ensures Flooded(if n < w then Next(t, Consume) else t, w, n + 1)
  {
    forall e | e in t.appended || e in t.issued
      ensures Named(e, n + 1)
    {
    }
  }

  lemma {:induction false} FloodFills(w: nat, n: nat)
    requires n <= w + CAPACITY
    ensures Flooded(Exec(w, Flood(w, n)), w, n)
  {
    if n > 0 {
      var before := Flood(w, n - 1);
      FloodFills(w, n - 1);
      SupplyOne(w, before, n - 1);
      FloodedMore(Exec(w, before), Exec(w, before + Supply(n - 1)), w, n - 1);
      ExecMore(w, before + Supply(n - 1), Consume);
      assert before + Supply(n - 1) + [] == before + Supply(n - 1);
    }
  }

  /** With any number of consumers there is a run into a doomed state: each holds a message and the queue fills up. */
  lemma {:induction false} DoomIsReachable(w: nat)
    ensures Doomed(Exec(w, Flood(w, w + CAPACITY)))
  {
    FloodFills(w, w + CAPACITY);
  }

  // ---- One consumer alone ----

  /** Nacks still to come before a message is a dead letter; one that has too many goes at its next. */
  function NacksLeft(counts: map<string, nat>, id: string): nat {
    if Retries(counts, id) >= MAX_RETRIES then 1 else MAX_RETRIES - Retries(counts, id)
  }

  /** The retry budget of a queue whose ids are all different. */
  function QueueBudget(counts: map<string, nat>, queue: seq<Message>): nat {
    if queue == [] then 0 else NacksLeft(counts, queue[0].id) + QueueBudget(counts, queue[1..])
  }

  /** Take the oldest message and refuse it. */
  function RefuseOne(q: QueueState<Message>): QueueState<Message> {
    if q.queue == [] then q else Nacked(q.(queue := q.queue[1..]), q.queue[0], q.queue[0].id)
  }

  function Refuse(q: QueueState<Message>, n: nat): QueueState<Message>
    decreases n
  {
    if n == 0 then q else Refuse(RefuseOne(q), n - 1)
  }

  ghost predicate DistinctIds(queue: seq<Message>) {
    forall i, j :: 0 <= i < j < |queue| ==> queue[i].id != queue[j].id
  }

  lemma {:induction false} QueueBudgetUnaffected(counts: map<string, nat>, queue: seq<Message>, id: string)
    requires forall m :: m in queue ==> m.id != id
    ensures QueueBudget(CountNack(counts, id), queue) == QueueBudget(counts, queue)
  {
    if queue != [] {
      QueueBudgetUnaffected(counts, queue[1..], id);
    }
  }

  lemma {:induction false} QueueBudgetConcat(counts: map<string, nat>, x: seq<Message>, y: seq<Message>)
    ensures QueueBudget(counts, x + y) == QueueBudget(counts, x) + QueueBudget(counts, y)
  {
    if x == [] {
      assert x + y == y;
    } else {
      assert (x + y)[1..] == x[1..] + y;
      QueueBudgetConcat(counts, x[1..], y);
    }
  }

  /** Each refusal uses up one unit of the budget and keeps every message in queue or dead-letter list. */
  lemma {:induction false} RefusalCosts(q: QueueState<Message>)
    requires q.queue != [] && DistinctIds(q.queue)
    ensures var r := RefuseOne(q);
      && QueueBudget(r.retryCounts, r.queue) == QueueBudget(q.retryCounts, q.queue) - 1
      && DistinctIds(r.queue)
      && multiset(r.queue) + multiset(r.dlq) == multiset(q.queue) + multiset(q.dlq)
  {
    var m, rest := q.queue[0], q.queue[1..];
    var counts := CountNack(q.retryCounts, m.id);
    assert q.queue == [m] + rest;
    QueueBudgetUnaffected(q.retryCounts, rest, m.id);
    QueueBudgetConcat(counts, rest, [m]);
    assert [m][1..] == [];
    assert QueueBudget(counts, [m]) == NacksLeft(counts, m.id);
  }

  /**
   * One consumer that takes and nacks without interruption empties the queue after exactly as many
   * refusals as there are nacks left, and every message ends in the dead-letter list.
   */
  lemma {:induction false} OneConsumerDrains(q: QueueState<Message>)
    requires DistinctIds(q.queue)
    ensures var n := QueueBudget(q.retryCounts, q.queue);
      && Refuse(q, n).queue == []
      && multiset(Refuse(q, n).dlq) == multiset(q.queue) + multiset(q.dlq)
      && (forall k :: 0 <= k < n ==> Refuse(q, k).queue != [])
    decreases QueueBudget(q.retryCounts, q.queue)
  {
    var n := QueueBudget(q.retryCounts, q.queue);
    if q.queue != [] {
      RefusalCosts(q);
      OneConsumerDrains(RefuseOne(q));
      forall k | 0 <= k < n
        ensures Refuse(q, k).queue != []
      {
        if k > 0 {
          assert Refuse(q, k) == Refuse(RefuseOne(q), k - 1);
        }
      }
    }
  }
}
