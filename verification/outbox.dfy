/** Manual recovery of outbox events, next to the dispatcher that delivers them. */
module Outbox {
  import opened Records
  import Text

  datatype EventStatus = Pending | Processing | Errored | DeadLetter | Processed

  datatype Action = Retry | Requeue

  /** The status an action starts from. */
  function Required(a: Action): EventStatus {
    match a case Retry => Errored case Requeue => DeadLetter
  }

  /** One entry of the bounded recovery history kept in the event's metadata. */
  datatype Entry = Entry(action: Action, requestedAt: Time, actor: string, previous: EventStatus, attempts: nat,
                         lastError: string)

  datatype Event = Event(
    organization: string, status: EventStatus, attempts: nat,
    nextAttemptAt: Option<Time>, claimedAt: Option<Time>, processedAt: Option<Time>,
    lastError: string, history: seq<Entry>, updatedAt: Time)

  datatype Audit = Audit(id: string, entry: Entry)

  /** `organization` is the active organization of the operator. */
  datatype Request = Request(organization: string, id: string, action: Action, actor: string, now: Time)

  /** What an operator's request holds between its read and its commit. */
  datatype Draft = Draft(id: string, item: Event, previous: EventStatus, entry: Entry)

  const HISTORY_LIMIT := 10

  function LastTen(log: seq<Entry>): (r: seq<Entry>)
    ensures |r| <= HISTORY_LIMIT && (|log| <= HISTORY_LIMIT ==> r == log)
  {
    if |log| <= HISTORY_LIMIT then log else log[|log| - HISTORY_LIMIT..]
  }

  function EntryFor(e: Event, r: Request): Entry {
    Entry(r.action, r.now, r.actor, e.status, e.attempts, e.lastError)
  }

  /** The recovered copy of an event. */
  function Recovered(e: Event, r: Request): Event {
    e.(status := Pending, claimedAt := None, nextAttemptAt := None, processedAt := None, updatedAt := r.now,
       history := LastTen(e.history + [EntryFor(e, r)]))
  }

  /** The first half of a recovery: everything up to the transaction. */
  function Drafted(events: map<string, Event>, r: Request): Result<Draft> {
    if Text.IsBlank(r.id) then Err(Validation)
    else if r.id !in events then Err(NotFound)
    else if events[r.id].organization != r.organization then Err(Forbidden)
    else if events[r.id].status != Required(r.action) then Err(Validation)
    else Ok(Draft(r.id, Recovered(events[r.id], r), events[r.id].status, EntryFor(events[r.id], r)))
  }

  /** Whether the second half of a recovery goes through: the compare-and-swap on the status, then the audit. */
  predicate Commits(events: map<string, Event>, d: Draft, auditOk: bool) {
    d.id in events && events[d.id].status == d.previous && auditOk
  }

  /** An event as it is published. */
  function Fresh(organization: string, now: Time): Event {
    Event(organization, Pending, 0, None, None, None, "", [], now)
  }

  /** Claimable by a dispatcher: not finished, due, and not claimed by another one recently. */
  predicate Claimable(e: Event, now: Time, staleBefore: Time) {
    && e.status != Processed && e.status != DeadLetter
    && (e.nextAttemptAt.Some? ==> e.nextAttemptAt.value <= now)
    && (e.claimedAt.Some? ==> e.claimedAt.value < staleBefore)
  }

  function Claimed(e: Event, now: Time): Event {
    e.(status := Processing, claimedAt := Some(now), updatedAt := now)
  }

  /** What dispatching came to; `final` says that no further attempt will be made. */
  datatype Outcome = Delivered | Failed(error: string, final: bool, delay: Time)

  /** What a dispatcher writes back over the event, from the copy it claimed. */
  function Dispatched(e: Event, o: Outcome, now: Time): Event {
    var done := e.(attempts := e.attempts + 1, claimedAt := None, updatedAt := now);
    match o
    case Delivered => done.(status := Processed, lastError := "", nextAttemptAt := None, processedAt := Some(now))
    case Failed(error, true, _) => done.(status := DeadLetter, lastError := error, nextAttemptAt := None)
    case Failed(error, false, delay) => done.(status := Errored, lastError := error, nextAttemptAt := Some(now + delay))
  }

  /** The bounded history is the end of the log. */
  lemma LastTenExactly(log: seq<Entry>)
    ensures |LastTen(log)| == if |log| < 10 then |log| else 10
    ensures forall i | 0 <= i < |LastTen(log)| :: LastTen(log)[i] == log[|log| - |LastTen(log)| + i]
  {
  }

  /** A delivery finishes an event, a failure leaves it to be tried again after the delay, or for good. */
  lemma DispatchedExactly(e: Event, o: Outcome, now: Time)
    ensures var d := Dispatched(e, o, now);
            && (d.status == Processed <==> o == Delivered)
            && (d.status == DeadLetter <==> o.Failed? && o.final)
            && (d.status == Errored <==> o.Failed? && !o.final)
            && d.attempts == e.attempts + 1 && d.claimedAt == None && d.updatedAt == now
            && d.lastError == (if o.Failed? then o.error else "")
            && d.processedAt == (if o == Delivered then Some(now) else e.processedAt)
            && d.nextAttemptAt == (if o.Failed? && !o.final then Some(now + o.delay) else None)
            && d.organization == e.organization && d.history == e.history
  {
  }

  /** After a dispatch an event is claimed again exactly if it failed for now and the delay is over. */
  lemma ClaimableAfterDispatch(e: Event, o: Outcome, now: Time, later: Time, staleBefore: Time)
    ensures Claimable(Dispatched(e, o, now), later, staleBefore) <==>
            o.Failed? && !o.final && now + o.delay <= later
  {
  }

  /** While an event is claimed, another dispatcher claims it exactly if the first claim has become stale. */
  lemma ClaimableAfterClaim(e: Event, now: Time, first: Time, later: Time, staleBefore: Time)
    requires Claimable(e, now, first) && now <= later
    ensures Claimable(Claimed(e, now), later, staleBefore) <==> now < staleBefore
  {
  }

  /** A new event and a recovered one are claimed by whoever comes first. */
  lemma ClaimableAtOnce(e: Event, r: Request, organization: string, now: Time, later: Time, staleBefore: Time)
    ensures Claimable(Recovered(e, r), later, staleBefore) && Claimable(Fresh(organization, now), later, staleBefore)
    ensures Fresh(organization, now) == Event(organization, Pending, 0, None, None, None, "", [], now)
  {
  }

  /** appendMetadataEntry. */
  method AppendEntry(history: seq<Entry>, entry: Entry) returns (items: seq<Entry>)
    ensures items == LastTen(history + [entry])
    ensures items != [] && items[|items| - 1] == entry
  {
    items := history;
    items := items + [entry];
    if |items| <= 10 {
      return;
    }
    items := items[|items| - 10..];
  }

  class OutboxStore {
    var events: map<string, Event>
    var audits: seq<Audit>

    constructor ()
      ensures events == map[] && audits == []
    {
      events, audits := map[], [];
    }

    /** UpdateOutboxEventIfStatus: one conditional write. */
    method UpdateIfStatus(id: string, item: Event, expected: EventStatus) returns (ok: bool)
      modifies this`events
      ensures ok == (id in old(events) && old(events)[id].status == expected)
      ensures events == if ok then old(events)[id := item] else old(events)
    {
      if id !in events {
        return false;
      }
      if events[id].status != expected {
        return false;
      }
      events := events[id := item];
      return true;
    }

    /** Reads the event and prepares the recovered copy. */
    method Prepare(r: Request) returns (d: Result<Draft>)
      ensures d == Drafted(events, r)
      ensures d == Err(NotFound) <==> !Text.IsBlank(r.id) && r.id !in events
      ensures d == Err(Forbidden) <==>
              !Text.IsBlank(r.id) && r.id in events && events[r.id].organization != r.organization
      ensures d.Ok? <==>
              && !Text.IsBlank(r.id) && r.id in events && events[r.id].organization == r.organization
              && events[r.id].status == match r.action case Retry => Errored case Requeue => DeadLetter
    {
      if Text.IsBlank(r.id) {
        return Err(Validation);
      }
      if r.id !in events {
        return Err(NotFound);
      }
      var item := events[r.id];
      if item.organization != r.organization {
        return Err(Forbidden);
      }
      if item.status != Required(r.action) {
        return Err(Validation);
      }
      var previous := item.status;
      var entry := EntryFor(item, r);
      item := item.(status := Pending);
      item := item.(claimedAt := None, nextAttemptAt := None, processedAt := None, updatedAt := r.now);
      var history := AppendEntry(item.history, entry);
      item := item.(history := history);
      return Ok(Draft(r.id, item, previous, entry));
    }

    /** The transaction: the conditional write and the audit record take effect together or not at all. */
    method Commit(d: Draft, auditOk: bool) returns (r: Result<Event>)
      modifies this
      ensures r.Ok? <==> Commits(old(events), d, auditOk)
      ensures r.Ok? <==> d.id in old(events) && old(events)[d.id].status == d.previous && auditOk
      ensures r.Ok? ==>
              r.value == d.item && events == old(events)[d.id := d.item]
              && audits == old(audits) + [Audit(d.id, d.entry)]
      ensures r.Err? ==> events == old(events) && audits == old(audits)
      ensures r == Err(NotFound) <==> d.id !in old(events)
    {
      var saved := events;
      var ok := UpdateIfStatus(d.id, d.item, d.previous);
      if !ok {
        if d.id !in events {
          return Err(NotFound);
        }
        return Err(Validation);
      }
      if !auditOk {
        events := saved;
        return Err(Unavailable);
      }
      audits := audits + [Audit(d.id, d.entry)];
      return Ok(d.item);
    }

    /**
     recoverOutboxEvent with nothing in between: a retry succeeds exactly when the operator's event has failed for
     now, and a requeue exactly when it has failed for good. The event is then pending, unclaimed and due at once.
     */
    method Recover(q: Request, auditOk: bool) returns (r: Result<Event>)
      modifies this
      ensures r.Ok? <==>
              && !Text.IsBlank(q.id) && q.id in old(events) && auditOk
              && old(events)[q.id].organization == q.organization
              && ((q.action == Retry && old(events)[q.id].status == Errored)
                  || (q.action == Requeue && old(events)[q.id].status == DeadLetter))
      ensures r.Err? ==> events == old(events) && audits == old(audits)
      ensures r.Ok? ==>
                var e := old(events)[q.id];
                && events == old(events)[q.id := r.value]
                && audits == old(audits) + [Audit(q.id, EntryFor(e, q))]
                && EntryFor(e, q) == Entry(q.action, q.now, q.actor, e.status, e.attempts, e.lastError)
                && r.value == Recovered(e, q)
                && r.value == e.(status := Pending, claimedAt := None, nextAttemptAt := None, processedAt := None,
                                 updatedAt := q.now, history := LastTen(e.history + [EntryFor(e, q)]))
    {
      var d := Prepare(q);
      if d.Err? {
        return Err(d.error);
      }
      r := Commit(d.value, auditOk);
    }

    /** The part of ClaimOutboxEvents that concerns one event. */
    method Claim(id: string, now: Time, staleBefore: Time) returns (copy: Option<Event>)
      modifies this`events
      ensures copy.Some? <==> id in old(events) && Claimable(old(events)[id], now, staleBefore)
      ensures copy.Some? ==> copy.value == Claimed(old(events)[id], now) && events == old(events)[id := copy.value]
      ensures copy.Some? ==>
                copy.value == old(events)[id].(status := Processing, claimedAt := Some(now), updatedAt := now)
      ensures copy.None? ==> events == old(events)
    {
      if id !in events {
        return None;
      }
      var event := events[id];
      if event.status == Processed || event.status == DeadLetter {
        return None;
      }
      if event.nextAttemptAt.Some? && event.nextAttemptAt.value > now {
        return None;
      }
      if event.claimedAt.Some? && !(event.claimedAt.value < staleBefore) {
        return None;
      }
      event := event.(status := Processing, claimedAt := Some(now), updatedAt := now);
      events := events[id := event];
      return Some(event);
    }

    /**
     The end of a dispatch: a write of the dispatcher's copy, whatever
     the stored event has become; nothing if there is none.
     */
    method Complete(id: string, copy: Event, o: Outcome, now: Time)
      modifies this`events
      ensures events == if id in old(events) then old(events)[id := Dispatched(copy, o, now)] else old(events)
    {
      var item := copy.(attempts := copy.attempts + 1);
      item := item.(claimedAt := None, updatedAt := now);
      match o {
        case Failed(error, final, delay) =>
          item := item.(lastError := error);
          if final {
            item := item.(status := DeadLetter, nextAttemptAt := None);
          } else {
            item := item.(status := Errored, nextAttemptAt := Some(now + delay));
          }
        case Delivered =>
          item := item.(status := Processed, lastError := "");
          item := item.(nextAttemptAt := None, processedAt := Some(now));
      }
      if id in events {
        events := events[id := item];
      }
    }

    /** Publish: a new event waits for a dispatcher. */
    method Publish(id: string, organization: string, now: Time)
      modifies this`events
      ensures events == if id in old(events) then old(events) else old(events)[id := Fresh(organization, now)]
    {
      if id !in events {
        events := events[id := Fresh(organization, now)];
      }
    }
  }
}
