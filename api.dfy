/**
 * The JSON API: create a notification from a JSON body, list notifications a page
 * at a time through the cache, and send a notification. HTTP routing, JSON encoding
 * and the validator are outside the model: the decoded body and the validator's
 * verdict are inputs, and a response is a status code with its payload.
 */
module NotificationApi {
  import opened Wrappers
  import opened Notifications
  import opened NotificationStore
  import opened Pagination
  import CacheKeys
  import opened PageCache

  /** The decoded request body: an object of string fields, or None when it is not a JSON object. */
  type Payload = Option<map<string, string>>

  /** A field of the body, or the empty string when the body or the field is missing. */
  function FieldOrEmpty(data: Payload, field: string): (value: string)
    ensures data.Some? && field in data.value ==> value == data.value[field]
    ensures data.None? || field !in data.value ==> value == ""
  {
    if data.Some? && field in data.value then data.value[field] else ""
  }

  /** One constraint violation reported by the validator: the property it concerns and its message. */
  datatype Violation = Violation(propertyPath: string, message: string)

  /** No violation after position `j` and before position `n` concerns the same property as violation `j`. */
  predicate LastBefore(vs: seq<Violation>, j: nat, n: nat)
    requires j < n <= |vs|
  {
    forall k :: j < k < n ==> vs[k].propertyPath != vs[j].propertyPath
  }

  /**
   * `m` is the error map of the first `n` violations: one entry per property that
   * has a violation, holding the message of the last violation for that property.
   */
  ghost predicate ErrorMapOf(vs: seq<Violation>, n: nat, m: map<string, string>)
    requires n <= |vs|
  {
    KeysArePaths(vs, n, m) && LastMessages(vs, n, m)
  }

  /** The keys of `m` are exactly the property paths of the first `n` violations. */
  ghost predicate KeysArePaths(vs: seq<Violation>, n: nat, m: map<string, string>)
    requires n <= |vs|
  {
    && (forall path :: path in m ==> exists j :: 0 <= j < n && vs[j].propertyPath == path)
    && (forall j :: 0 <= j < n ==> vs[j].propertyPath in m)
  }

  /** For each property, `m` holds the message of its last violation among the first `n`. */
  ghost predicate LastMessages(vs: seq<Violation>, n: nat, m: map<string, string>)
    requires n <= |vs|
  {
    forall j :: 0 <= j < n && LastBefore(vs, j, n) ==> vs[j].propertyPath in m && m[vs[j].propertyPath] == vs[j].message
  }

  /** Collect the violations into a map from property to message; a later message for a property overwrites an earlier one. */
  method ErrorMessages(vs: seq<Violation>) returns (m: map<string, string>)
    ensures ErrorMapOf(vs, |vs|, m)
    ensures vs == [] ==> m == map[]
  {
    m := map[];
    var i := 0;
    while i < |vs|
      invariant 0 <= i <= |vs|
      invariant ErrorMapOf(vs, i, m)
    {
      MessagesStep(vs, i, m);
      m := m[vs[i].propertyPath := vs[i].message];
      i := i + 1;
    }
  }

  /** Adding violation `i` overwrites its property's message and keeps the last message of every other property. */
  lemma MessagesStep(vs: seq<Violation>, i: nat, m: map<string, string>)
    requires i < |vs| && KeysArePaths(vs, i, m) && LastMessages(vs, i, m)
    ensures LastMessages(vs, i + 1, m[vs[i].propertyPath := vs[i].message])
  {
    var m' := m[vs[i].propertyPath := vs[i].message];
    forall j | 0 <= j < i + 1 && LastBefore(vs, j, i + 1)
      ensures vs[j].propertyPath in m' && m'[vs[j].propertyPath] == vs[j].message
    {
      if j < i {
        assert LastBefore(vs, j, i);
        assert vs[j].propertyPath != vs[i].propertyPath;
      }
    }
  }

  /** The create endpoint's answer: 201 with the stored record, or 400 with the error map. */
  datatype CreateResponse = Created(notification: Notification) | Invalid(errors: map<string, string>) {
    function Code(): int {
      if Created? then 201 else 400
    }
  }

  /**
   * POST /api/notifications. Missing fields are read as empty strings; status and
   * creation time are set by the server whatever the body holds. Any violation
   * rejects the request with the error map and stores nothing; otherwise exactly one
   * pending record is stored and returned.
   */
  method Create(store: Store, data: Payload, violations: seq<Violation>, now: nat) returns (resp: CreateResponse)
    requires store.Valid()
    modifies store
    ensures store.Valid()
    ensures resp.Invalid? <==> |violations| > 0
    ensures resp.Code() == if |violations| > 0 then 400 else 201
    ensures resp.Invalid? ==>
      && ErrorMapOf(violations, |violations|, resp.errors)
      && store.items == old(store.items) && store.nextId == old(store.nextId)
    ensures resp.Created? ==>
      var n := resp.notification;
      && store.items == old(store.items) + [n]
      && n.recipientEmail == FieldOrEmpty(data, "recipientEmail")
      && n.subject == FieldOrEmpty(data, "subject")
      && n.body == FieldOrEmpty(data, "body")
      && n.status == Pending && n.createdAt == now && n.sentAt.None?
      && (forall i :: 0 <= i < |old(store.items)| ==> old(store.items)[i].id != n.id)
  {
    var email := FieldOrEmpty(data, "recipientEmail");
    var subject := FieldOrEmpty(data, "subject");
    var body := FieldOrEmpty(data, "body");
    if |violations| > 0 {
      var errors := ErrorMessages(violations);
      return Invalid(errors);
    }
    var n := store.Create(email, subject, body, now);
    resp := Created(n);
  }

  /** The list endpoint's answer: the clamped page and limit echoed beside the records. */
  datatype ListResponse = ListResponse(page: int, limit: int, data: seq<Notification>)

  /**
   * GET /api/notifications?page&limit. The page and limit are clamped; the records come
   * from the cache entry of (page, limit) while it is fresh, and otherwise from the
   * store's newest-first page at offset (page - 1) * limit, which then fills the entry.
   */
  method List(store: Store, cache: ListCache, rawPage: Option<int>, rawLimit: Option<int>, now: nat) returns (resp: ListResponse)
    requires cache.Valid()
    modifies cache
    ensures cache.Valid()
    ensures resp.page == ClampPage(rawPage) && resp.limit == ClampLimit(rawLimit)
    ensures |resp.data| <= resp.limit && NewestFirst(resp.data)
    ensures var key := CacheKeys.CacheKey(resp.page, resp.limit);
      if old(cache.Hit(key, now)) then
        resp.data == old(cache.entries[key].data) && cache.entries == old(cache.entries)
      else
        resp.data == store.Page(Offset(resp.page, resp.limit), resp.limit)
        && cache.entries == old(cache.entries)[key := Entry(resp.data, now + Ttl)]
  {
    var page := ClampPage(rawPage);
    var limit := ClampLimit(rawLimit);
    var key := CacheKeys.CacheKey(page, limit);
    var data;
    if cache.Hit(key, now) {
      data := cache.entries[key].data;
    } else {
      data := store.Page(Offset(page, limit), limit);
      cache.Fill(page, limit, data, now);
    }
    resp := ListResponse(page, limit, data);
  }

  /** The send endpoint's answer: a JSON message with its status code, or the framework's 404. */
  datatype SendResponse = Message(code: int, message: string) | NotFoundError

  /**
   * POST /api/notifications/{id}/send. A pending record becomes sent (200); an
   * already-sent one is refused with 400 and left as it was; an unknown identifier
   * gives 404.
   */
  method Send(store: Store, id: nat, now: nat) returns (resp: SendResponse)
    requires store.Valid()
    modifies store
    ensures store.Valid() && store.nextId == old(store.nextId)
    ensures var step := Notifications.Send(old(store.items), id, now);
      && store.items == step.items
      && (step.outcome == Fresh ==> resp == Message(200, "Notification sent successfully"))
      && (step.outcome == AlreadySent ==> resp == Message(400, "Notification already sent"))
      && (step.outcome == NotFound ==> resp == NotFoundError)
  {
    var outcome := store.MarkSent(id, now);
    match outcome
    case NotFound => resp := NotFoundError;
    case AlreadySent => resp := Message(400, "Notification already sent");
    case Fresh => resp := Message(200, "Notification sent successfully");
  }

  /**
   * Creating a record and sending it twice: the first send succeeds with 200, the
   * second is refused with 400.
   */
  method SendTwiceScenario(now: nat, later: nat) returns (first: SendResponse, second: SendResponse)
    ensures first == Message(200, "Notification sent successfully")
    ensures second == Message(400, "Notification already sent")
  {
    var store := new Store();
    var created := Create(store, Some(map["recipientEmail" := "a@b.com", "subject" := "Hi", "body" := "test"]), [], now);
    var id := created.notification.id;
    assert store.items == [created.notification];
    first := Send(store, id, now);
    second := Send(store, id, later);
  }

  /**
   * A list request that fills the cache entry is followed, within the time to live,
   * by a request for the same page and limit: the second returns the same records
   * even though a notification was created in between.
   */
  method ListIsCachedWithinTtl(store: Store, cache: ListCache, rawPage: Option<int>, rawLimit: Option<int>, now: nat, later: nat)
    returns (before: ListResponse, after: ListResponse)
    requires store.Valid() && cache.Valid()
    requires !cache.Hit(CacheKeys.CacheKey(ClampPage(rawPage), ClampLimit(rawLimit)), now)
    requires now <= later < now + Ttl
    modifies store, cache
    ensures before.data == after.data
  {
    var key := CacheKeys.CacheKey(ClampPage(rawPage), ClampLimit(rawLimit));
    before := List(store, cache, rawPage, rawLimit, now);
    assert cache.entries[key] == Entry(before.data, now + Ttl);
    var _ := Create(store, None, [], now);
    assert cache.Hit(key, later);
    after := List(store, cache, rawPage, rawLimit, later);
  }
}
