/**
 * The in-memory stand-in for the notification table: the stored records, in the
 * order they were stored, and the next identifier to hand out. Both controllers
 * read and write notifications only through this class.
 */
module NotificationStore {
  import opened Notifications
  import Pagination

  class Store {
    var items: seq<Notification>
    var nextId: nat

    ghost predicate Valid()
      reads this
    {
      ValidRecords(items, nextId)
    }

    /** An empty store; identifiers start at 1. */
    constructor ()
      ensures Valid()
      ensures items == [] && nextId == 1
    {
      items := [];
      nextId := 1;
    }

    /**
     * One page of the stored records ordered newest first by creation time: the
     * records at ranks `offset` to `offset + limit - 1` of that order.
     */
    function Page(offset: nat, limit: nat): (page: seq<Notification>)
      reads this
      ensures |page| <= limit
      ensures offset >= |items| ==> page == []
      ensures offset < |items| ==> |page| == if offset + limit <= |items| then limit else |items| - offset
      ensures Pagination.NewestFirst(page)
      ensures forall n :: n in page ==> n in items
      ensures exists sorted ::
        && Pagination.NewestFirst(sorted)
        && multiset(sorted) == multiset(items)
        && page == Pagination.PageSlice(sorted, offset, limit)
    {
      var page := Pagination.NewestFirstPage(items, offset, limit);
      assert forall n :: n in page ==> n in multiset(items);
      page
    }

    /** Persist a new record: pending, stamped with `now`, under a fresh identifier. */
    method Create(email: string, subject: string, body: string, now: nat) returns (n: Notification)
      requires Valid()
      modifies this
      ensures Valid()
      ensures var c := CreateRecord(old(items), old(nextId), email, subject, body, now);
        n == c.record && items == c.items && nextId == c.nextId
    {
      var c := CreateRecord(items, nextId, email, subject, body, now);
      n := c.record;
      items := c.items;
      nextId := c.nextId;
    }

    /**
     * The send transition on the record with identifier `id`: a pending record becomes
     * sent with send time `now`; an already-sent record and an unknown identifier
     * leave the store unchanged, each reported by its own outcome.
     */
    method MarkSent(id: nat, now: nat) returns (outcome: SendOutcome)
      requires Valid()
      modifies this
      ensures Valid()
      ensures nextId == old(nextId)
      ensures SendStep(outcome, items) == Send(old(items), id, now)
    {
      SendKeepsValid(items, nextId, id, now);
      var step := Send(items, id, now);
      outcome := step.outcome;
      items := step.items;
    }
  }
}
