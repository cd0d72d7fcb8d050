/**
 * The Notification entity and the two ways a stored set of notifications can change:
 * creation (status forced to pending, creation time stamped) and the one-way
 * pending-to-sent transition. Both are stated here as pure functions over the
 * sequence of stored records; the Store class applies them in place.
 */
module Notifications {
  import opened Wrappers

  /** The lifecycle status. The source keeps it as the string 'pending' or 'sent'. */
  datatype Status = Pending | Sent

  /** One stored notification. Times are readings of an abstract clock. */
  datatype Notification = Notification(
    id: nat,
    recipientEmail: string,
    subject: string,
    body: string,
    status: Status,
    createdAt: nat,
    sentAt: Option<nat>)

  /** A notification has a send time exactly when it has been sent. */
  predicate Consistent(n: Notification) {
    n.status == Sent <==> n.sentAt.Some?
  }

  /** Identifiers are primary keys: stored in increasing order, hence distinct. */
  predicate IdsIncreasing(items: seq<Notification>) {
    forall i, j :: 0 <= i < j < |items| ==> items[i].id < items[j].id
  }

  /**
   * The store invariant: every identifier is positive and below the next one the
   * store will hand out, identifiers are distinct, and every record is consistent.
   */
  predicate ValidRecords(items: seq<Notification>, nextId: nat) {
    && 1 <= nextId
    && IdsIncreasing(items)
    && (forall i :: 0 <= i < |items| ==> 1 <= items[i].id < nextId && Consistent(items[i]))
  }

  /**
   * Times agree with a clock that now reads `now`: nothing was created or sent in the
   * future, and nothing was sent before it was created.
   */
  predicate Chronological(items: seq<Notification>, now: nat) {
    forall i :: 0 <= i < |items| ==>
      && items[i].createdAt <= now
      && (items[i].sentAt.Some? ==> items[i].createdAt <= items[i].sentAt.value <= now)
  }

  /** Position of the record with identifier `id`, if any. */
  function Lookup(items: seq<Notification>, id: nat): (r: Option<nat>)
    ensures r.Some? ==> r.value < |items| && items[r.value].id == id
    ensures r.None? ==> forall i :: 0 <= i < |items| ==> items[i].id != id
  {
    if items == [] then None
    else if items[0].id == id then Some(0)
    else match Lookup(items[1..], id)
      case None => None
      case Some(k) => Some(k + 1)
  }

  /** The store after a creation, and the record it created. */
  datatype Creation = Creation(record: Notification, items: seq<Notification>, nextId: nat)

  /**
   * Creation: the caller chooses recipient, subject and body only; the store assigns
   * a fresh identifier, the status is pending, the creation time is the clock reading
   * and there is no send time.
   */
  function CreateRecord(items: seq<Notification>, nextId: nat, email: string, subject: string, body: string, now: nat): (c: Creation)
    requires ValidRecords(items, nextId)
    ensures ValidRecords(c.items, c.nextId)
    ensures c.items == items + [c.record]
    ensures c.record.recipientEmail == email && c.record.subject == subject && c.record.body == body
    ensures c.record.status == Pending && c.record.createdAt == now && c.record.sentAt.None?
    ensures forall i :: 0 <= i < |items| ==> items[i].id != c.record.id
  {
    var n := Notification(nextId, email, subject, body, Pending, now, None);
    Creation(n, items + [n], nextId + 1)
  }

  /** What a send attempt reports: a fresh transition, "already sent", or an unknown identifier. */
  datatype SendOutcome = Fresh | AlreadySent | NotFound

  /** The store after a send attempt, with the outcome reported. */
  datatype SendStep = SendStep(outcome: SendOutcome, items: seq<Notification>)

  /** The record `n` once sent at time `now`. */
  function MarkedSent(n: Notification, now: nat): Notification {
    n.(status := Sent, sentAt := Some(now))
  }

  /**
   * The send transition. An unknown identifier and an already-sent record leave the
   * store exactly as it was; a pending record becomes sent, stamped with `now`, and
   * nothing else in the store changes.
   */
  function Send(items: seq<Notification>, id: nat, now: nat): (r: SendStep)
    requires IdsIncreasing(items)
    ensures r.outcome == NotFound <==> forall i :: 0 <= i < |items| ==> items[i].id != id
    ensures r.outcome == AlreadySent <==> exists i :: 0 <= i < |items| && items[i].id == id && items[i].status == Sent
    ensures r.outcome == Fresh <==> exists i :: 0 <= i < |items| && items[i].id == id && items[i].status == Pending
    ensures r.outcome != Fresh ==> r.items == items
    ensures r.outcome == Fresh ==>
      exists k :: 0 <= k < |items| && items[k].id == id && r.items == items[k := MarkedSent(items[k], now)]
  {
    match Lookup(items, id)
    case None => SendStep(NotFound, items)
    case Some(k) =>
      assert forall i :: 0 <= i < |items| && items[i].id == id ==> i == k;
      if items[k].status == Sent then SendStep(AlreadySent, items)
      else
        assert items[k].id == id && items[k].status == Pending;
        SendStep(Fresh, items[k := MarkedSent(items[k], now)])
  }

  /** A send attempt keeps the store invariant, and keeps the next identifier valid. */
  lemma SendKeepsValid(items: seq<Notification>, nextId: nat, id: nat, now: nat)
    requires ValidRecords(items, nextId)
    ensures ValidRecords(Send(items, id, now).items, nextId)
  {
  }

  /**
   * The transition only touches the addressed record, and only its status and send
   * time: identifier, recipient, subject, body and creation time are kept, and a
   * record that was already sent keeps its send time.
   */
  lemma SendChangesOnlyStatus(items: seq<Notification>, id: nat, now: nat)
    requires IdsIncreasing(items)
    ensures var r := Send(items, id, now);
      && |r.items| == |items|
      && forall i :: 0 <= i < |items| ==>
        && r.items[i].id == items[i].id
        && r.items[i].recipientEmail == items[i].recipientEmail
        && r.items[i].subject == items[i].subject
        && r.items[i].body == items[i].body
        && r.items[i].createdAt == items[i].createdAt
        && (items[i].id != id ==> r.items[i] == items[i])
        && (items[i].status == Sent ==> r.items[i] == items[i])
  {
  }

  /**
   * Whichever branch ran, once a send attempt has found the record it is sent, and
   * its send time is the one stamped by the first successful attempt.
   */
  lemma SendLeavesSent(items: seq<Notification>, id: nat, now: nat)
    requires IdsIncreasing(items)
    ensures var r := Send(items, id, now);
      r.outcome != NotFound ==>
        exists k :: 0 <= k < |r.items| && r.items[k].id == id && r.items[k].status == Sent
          && r.items[k].sentAt == (if r.outcome == Fresh then Some(now) else items[k].sentAt)
  {
  }

  /**
   * Sending twice: the second attempt reports "already sent" and changes nothing, so
   * the send time is the one the first attempt stamped.
   */
  lemma SendTwice(items: seq<Notification>, id: nat, first: nat, second: nat)
    requires IdsIncreasing(items)
    requires Send(items, id, first).outcome != NotFound
    ensures IdsIncreasing(Send(items, id, first).items)
    ensures var again := Send(Send(items, id, first).items, id, second);
      again.outcome == AlreadySent && again.items == Send(items, id, first).items
  {
    var r := Send(items, id, first);
    SendChangesOnlyStatus(items, id, first);
    assert IdsIncreasing(r.items);
    SendLeavesSent(items, id, first);
  }

  /** Creation keeps the times chronological when the clock has not run backwards. */
  lemma CreateKeepsChronology(items: seq<Notification>, nextId: nat, email: string, subject: string, body: string, before: nat, now: nat)
    requires ValidRecords(items, nextId) && Chronological(items, before) && before <= now
    ensures Chronological(CreateRecord(items, nextId, email, subject, body, now).items, now)
  {
  }

  /**
   * Sending keeps the times chronological when the clock has not run backwards; in
   * particular a record is never sent before it was created.
   */
  lemma SendKeepsChronology(items: seq<Notification>, id: nat, before: nat, now: nat)
    requires IdsIncreasing(items) && Chronological(items, before) && before <= now
    ensures Chronological(Send(items, id, now).items, now)
  {
  }
}
