/** The outbox and the in-memory queue. */
module Messaging {
  import opened Options
  import opened DebtMatching
  import opened NetBalances

  datatype EventType = EXPENSE_CREATED | SETTLEMENT_REQUESTED | LEDGER_POSTED | SETTLEMENT_COMPLETED | SETTLEMENT_FAILED

  datatype Payload =
    | ExpensePayload(expenseId: string, groupId: string, payerId: UserId, totalCents: int, title: string,
                     splits: seq<Split>, idempotencyKey: Option<string>)
    | SettleRequest(groupId: string)
    | SettledPayload(groupId: string, settlementCount: int, totalSettledCents: int, algorithm: string, reductionRatio: real, checksum: string)

  datatype Event = Event(id: string, eventType: EventType, aggregateId: string, payload: Payload, isPublished: bool, createdAt: int)

  datatype Message = Message(id: string, eventType: EventType, payload: Payload, createdAt: int)

  const MAX_RETRIES: nat := 3

  /** maxsize of the queue; a put on a full queue waits. */
  const CAPACITY: nat := 10000

  /** A queue of messages of some kind; ids are kept in the retry counts. */
  datatype QueueState<M> = QueueState(queue: seq<M>, dlq: seq<M>, retryCounts: map<string, nat>)

  function Retries(counts: map<string, nat>, id: string): nat {
    if id in counts then counts[id] else 0
  }

  /** One more nack of the message with this id. */
  function CountNack(counts: map<string, nat>, id: string): map<string, nat> {
    counts[id := Retries(counts, id) + 1]
  }

  /** Whether that nack was the last one. */
  predicate Exhausted(counts: map<string, nat>, id: string) {
    Retries(counts, id) >= MAX_RETRIES
  }

  /** `nack` when there is room: back into the queue, or into the dead-letter list. */
  function Nacked<M>(q: QueueState<M>, m: M, id: string): QueueState<M> {
    var counts := CountNack(q.retryCounts, id);
    if Exhausted(counts, id) then QueueState(q.queue, q.dlq + [m], counts)
    else QueueState(q.queue + [m], q.dlq, counts)
  }

  class InMemoryQueue {
    var queue: seq<Message>
    var dlq: seq<Message>
    var retryCounts: map<string, nat>

    ghost function State(): QueueState<Message>
      reads this
    {
      QueueState(queue, dlq, retryCounts)
    }

    constructor ()
      ensures State() == QueueState([], [], map[])
    {
      queue, dlq, retryCounts := [], [], map[];
    }

    /** Completes when there is room. */
    method Publish(id: string, eventType: EventType, payload: Payload, now: int)
      requires |queue| < 10000
      modifies this
      ensures State() == old(State()).(queue := old(queue) + [Message(id, eventType, payload, now)])
    {
      queue := queue + [Message(id, eventType, payload, now)];
    }

    /** None when nothing arrives in time. */
    method ConsumeOne() returns (m: Option<Message>)
      modifies this
      ensures old(queue) == [] ==> m == None && State() == old(State())
      ensures old(queue) != [] ==> m == Some(old(queue)[0]) && State() == old(State()).(queue := old(queue)[1..])
    {
      if queue == [] {
        return None;
      }
      m := Some(queue[0]);
      queue := queue[1..];
    }

    /** A message that goes back into the queue waits for room. */
    method Nack(m: Message)
      requires !Exhausted(CountNack(retryCounts, m.id), m.id) ==> |queue| < CAPACITY
      modifies this
      ensures State() == Nacked(old(State()), m, m.id)
      ensures var count := if m.id in old(retryCounts) then old(retryCounts)[m.id] + 1 else 1;
        && retryCounts == old(retryCounts)[m.id := count]
        && (count >= 3 ==> dlq == old(dlq) + [m] && queue == old(queue))
        && (count < 3 ==> queue == old(queue) + [m] && dlq == old(dlq))
    {
      var count := (if m.id in retryCounts then retryCounts[m.id] else 0) + 1;
      retryCounts := retryCounts[m.id := count];
      if count >= MAX_RETRIES {
        dlq := dlq + [m];
      } else {
        queue := queue + [m];
      }
    }
  }

  datatype OutboxState = OutboxState(events: seq<Event>, pending: seq<Event>)

  function Appended(o: OutboxState, e: Event): OutboxState {
    OutboxState(o.events + [e], o.pending + [e])
  }

  /** event["is_published"] = True */
  function MarkPublished(events: seq<Event>, id: string): seq<Event> {
    seq(|events|, i requires 0 <= i < |events| => if events[i].id == id then events[i].(isPublished := true) else events[i])
  }

  class InMemoryOutbox {
    var events: seq<Event>
    var pending: seq<Event>

    ghost function State(): OutboxState
      reads this
    {
      OutboxState(events, pending)
    }

    constructor ()
      ensures State() == OutboxState([], [])
    {
      events, pending := [], [];
    }

    method Append(eventId: string, eventType: EventType, aggregateId: string, payload: Payload, now: int)
      modifies this
      ensures State() == Appended(old(State()), Event(eventId, eventType, aggregateId, payload, false, now))
    {
      var event := Event(eventId, eventType, aggregateId, payload, false, now);
      events := events + [event];
      pending := pending + [event];
    }

    /** Publishes everything pending, in order; the queue has room and publishing does not fail. */
    method RelayAllPending(queue: InMemoryQueue, mids: nat -> string, now: int) returns (count: nat)
      requires |queue.queue| + |pending| <= CAPACITY
      modifies this, queue
      ensures pending == [] && count == |old(pending)|
      ensures queue.queue == old(queue.queue) + seq(|old(pending)|, i requires 0 <= i < |old(pending)| =>
                Message(mids(i), old(pending)[i].eventType, old(pending)[i].payload, now))
      ensures queue.dlq == old(queue.dlq) && queue.retryCounts == old(queue.retryCounts)
      ensures |events| == |old(events)|
      ensures forall i :: 0 <= i < |events| ==>
                events[i] == old(events)[i].(isPublished := old(events)[i].isPublished || old(events)[i].id in (set e | e in old(pending) :: e.id))
    {
      count := 0;
      ghost var all := pending;
      while pending != []
        invariant count <= |all| && pending == all[count..]
        invariant queue.queue == old(queue.queue) + seq(count, i requires 0 <= i < count => Message(mids(i), all[i].eventType, all[i].payload, now))
        invariant queue.dlq == old(queue.dlq) && queue.retryCounts == old(queue.retryCounts)
        invariant |events| == |old(events)|
        invariant forall i :: 0 <= i < |events| ==>
                    events[i] == old(events)[i].(isPublished := old(events)[i].isPublished || old(events)[i].id in (set e | e in all[..count] :: e.id))
        decreases |pending|
      {
        var event := pending[0];
        pending := pending[1..];
        queue.Publish(mids(count), event.eventType, event.payload, now);
        events := MarkPublished(events, event.id);
        assert all[..count + 1] == all[..count] + [event];
        count := count + 1;
      }
      assert all[..count] == all;
    }
  }
}
