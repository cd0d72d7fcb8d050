/**
 * The server-rendered dashboard: a list of ten notifications per page with a
 * creation form, and a send action that always returns to the list. Form handling,
 * flash storage and template rendering are outside the model: a submission is an
 * input carrying the form's verdict, and a response says what would be rendered or
 * which flash message accompanies the redirect.
 */
module Dashboard {
  import opened Wrappers
  import opened Notifications
  import opened NotificationStore
  import opened Pagination

  /** The dashboard's fixed page size. */
  const PageSize := 10

  datatype Level = Success | Warning

  /** A flash message shown after a redirect. */
  datatype Flash = Flash(level: Level, message: string)

  /** The creation form as submitted, with the form component's verdict on it. */
  datatype FormSubmission = FormSubmission(recipientEmail: string, subject: string, body: string, valid: bool)

  /** Redirect to the list with a flash message, or render the list page with the form. */
  datatype IndexResponse = RedirectToIndex(flash: Flash) | Render(notifications: seq<Notification>, page: int)

  /**
   * The index page. The page number is clamped to at least 1 and the page holds at
   * most ten records, newest first, from offset (page - 1) * 10. A valid submission
   * stores exactly one pending record and redirects; no submission, or an invalid one,
   * stores nothing and renders the page.
   */
  method Index(store: Store, rawPage: Option<int>, form: Option<FormSubmission>, now: nat) returns (resp: IndexResponse)
    requires store.Valid()
    modifies store
    ensures store.Valid()
    ensures (form.Some? && form.value.valid) <==> resp.RedirectToIndex?
    ensures resp.RedirectToIndex? ==>
      && resp.flash == Flash(Success, "Notification created successfully.")
      && |store.items| == |old(store.items)| + 1
      && store.items[..|old(store.items)|] == old(store.items)
      && var n := store.items[|old(store.items)|];
        && n.recipientEmail == form.value.recipientEmail
        && n.subject == form.value.subject
        && n.body == form.value.body
        && n.status == Pending && n.createdAt == now && n.sentAt.None?
        && (forall i :: 0 <= i < |old(store.items)| ==> old(store.items)[i].id != n.id)
    ensures resp.Render? ==>
      && store.items == old(store.items) && store.nextId == old(store.nextId)
      && resp.page == ClampPage(rawPage)
      && resp.notifications == store.Page(Offset(resp.page, PageSize), PageSize)
      && |resp.notifications| <= PageSize
      && NewestFirst(resp.notifications)
  {
    var page := ClampPage(rawPage);
    var notifications := store.Page(Offset(page, PageSize), PageSize);
    if form.Some? && form.value.valid {
      var _ := store.Create(form.value.recipientEmail, form.value.subject, form.value.body, now);
      return RedirectToIndex(Flash(Success, "Notification created successfully."));
    }
    resp := Render(notifications, page);
  }

  /** The send action's answer: a redirect to the list with a flash message, or the framework's not-found page. */
  datatype SendResponse = Redirect(flash: Flash) | NotFoundPage

  /**
   * The send action. A record not yet sent becomes sent, stamped with `now`, with a
   * success message; an already-sent record is left as it was, with a warning rather
   * than an error. Either way the record ends up sent and the answer is a redirect.
   */
  method Send(store: Store, id: nat, now: nat) returns (resp: SendResponse)
    requires store.Valid()
    modifies store
    ensures store.Valid() && store.nextId == old(store.nextId)
    ensures var step := Notifications.Send(old(store.items), id, now);
      && store.items == step.items
      && (step.outcome == Fresh ==> resp == Redirect(Flash(Success, "Notification sent successfully.")))
      && (step.outcome == AlreadySent ==> resp == Redirect(Flash(Warning, "Notification was already sent.")))
      && (step.outcome == NotFound ==> resp == NotFoundPage)
    ensures resp.Redirect? ==>
      exists k :: 0 <= k < |store.items| && store.items[k].id == id && store.items[k].status == Sent
  {
    SendLeavesSent(store.items, id, now);
    var outcome := store.MarkSent(id, now);
    match outcome
    case NotFound => resp := NotFoundPage;
    case AlreadySent => resp := Redirect(Flash(Warning, "Notification was already sent."));
    case Fresh => resp := Redirect(Flash(Success, "Notification sent successfully."));
  }
}
