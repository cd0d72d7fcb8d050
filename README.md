# Notification API: a verified model in Dafny

This project models the core of a small notification backend. It stores notifications, each with a recipient, a subject, a body and a lifecycle status. They are created, listed a page at a time and marked as sent, through two surfaces: a JSON API (`NotificationController`) and a server-rendered dashboard (`DashboardController`). "Sending" only flips the status from `pending` to `sent` and stamps the send time.

The model replaces the web framework and the ORM with plain values and a small in-memory store:

- `Notifications` (notifications.dfy): the entity, the store invariant, and the two changes a store undergoes as pure functions over the sequence of records. `CreateRecord` forces the status to pending and stamps the creation time. `Send` is the one-way pending-to-sent transition, with outcomes `Fresh`, `AlreadySent` and `NotFound`. The lifecycle lemmas sit beside them.
- `NotificationStore` (store.dfy): the `Store` class. It holds the records and the next identifier, and applies those functions in place.
- `Pagination` (pagination.dfy): clamping of `page` and `limit`, the offset `(page - 1) * limit`, newest-first ordering by creation time, and the slice one page holds.
- `CacheKeys` (cache_keys.dfy): the list cache key `notifications_page_{page}_limit_{limit}`, with its decoder. The decoder is used to prove that distinct pairs give distinct keys.
- `PageCache` (page_cache.dfy): the expiring cache in front of the API list. Entries live for 60 clock units.
- `NotificationApi` (api.dfy): the API's `create`, `list` and `send` actions.
- `Dashboard` (dashboard.dfy): the dashboard's `index` (list plus creation form) and `send` actions.
- `Wrappers` (wrappers.dfy): `Option`.

Time is an abstract `nat` clock that each operation receives. Two things are inputs rather than modelled behaviour. For the API, the validator's verdict is a sequence of violations, each a property path and a message. For the dashboard, the form's verdict is a `valid` flag on the submission.

## Model

| member | source | states |
|---|---|---|
| Notifications.Lookup | src/Controller/NotificationController.php:87-88 | the position found holds a record with the requested id; when none is found, no stored record has that id |
| Notifications.CreateRecord | src/Controller/NotificationController.php:29-34 | the new record keeps the given recipient, subject and body. Its status is pending, its creation time is the clock reading and it has no send time. Its id is fresh and it is appended to the store, which stays valid |
| Notifications.Send | src/Controller/NotificationController.php:90-98 | NotFound exactly when no record has the id. AlreadySent exactly when that record is sent, and the store is then unchanged. Fresh exactly when it is pending, and then only that record changes, to sent with send time `now` |
| Notifications.SendKeepsValid | src/Controller/NotificationController.php:95-98 | a send attempt preserves the store invariant: ids increasing and below the next id, and status sent exactly when a send time is set |
| Notifications.SendChangesOnlyStatus | src/Controller/NotificationController.php:95-96 | a send keeps every record's id, recipient, subject, body and creation time. It leaves records with other ids untouched and never changes a record that was already sent |
| Notifications.SendLeavesSent | src/Controller/DashboardController.php:56-63 | after a send that found the record, whichever branch ran, the record is sent; its send time is `now` on a fresh send and the old one otherwise |
| Notifications.SendTwice | src/Controller/NotificationController.php:90-92 | a second send of the same id reports "already sent" and leaves the store exactly as the first send left it |
| Notifications.CreateKeepsChronology | src/Controller/NotificationController.php:34 | under a clock that does not run backwards, creation keeps every creation time at or before the clock |
| Notifications.SendKeepsChronology | src/Controller/NotificationController.php:96 | under a clock that does not run backwards, sending keeps each send time between the record's creation time and the clock |
| Pagination.ClampPage | src/Controller/NotificationController.php:59 | the page is at least 1; it is 1 when absent or below 1, and the given value otherwise |
| Pagination.ClampLimit | src/Controller/NotificationController.php:60 | the limit is at least 1; it is 10 when absent, 1 when below 1, and the given value otherwise |
| Pagination.Offset | src/Controller/NotificationController.php:69 | the offset is non-negative, and the page it starts ends at `page * limit` |
| Pagination.Insert | src/Controller/NotificationController.php:68 | inserting into a newest-first sequence gives a newest-first sequence with exactly one more occurrence of the record |
| Pagination.SortNewestFirst | src/Controller/NotificationController.php:68 | the ordered list is newest first by creation time and is a permutation of the stored records |
| Pagination.PageSlice | src/Controller/NotificationController.php:69-70 | a page holds at most `limit` records and is empty past the end. Otherwise it holds `min(limit, rest)` records, and its k-th record is the list's record at `offset + k` |
| Pagination.PageSliceNewestFirst | src/Controller/NotificationController.php:67-71 | a slice of a newest-first list is newest first |
| Pagination.SliceSubMultiset | src/Controller/NotificationController.php:69-70 | a page contains no record more often than the list it is cut from |
| Pagination.NewestFirstPage | src/Controller/NotificationController.php:67-73 | the page is the slice at `offset` of some newest-first ordering of the stored records. It holds exactly `limit` records when enough remain, the remaining ones when fewer do, and none past the end. It is newest first and holds only stored records |
| Pagination.RankOnPage | src/Controller/NotificationController.php:69-70 | the record of rank `i` is on page `i / limit + 1`, at position `i % limit` |
| Pagination.PageRanks | src/Controller/NotificationController.php:69-70 | every record on page `p` has a rank whose page is `p`, so pages do not overlap |
| Pagination.NewestFirstUnique | src/Controller/NotificationController.php:68 | when no two records share a creation time, any two newest-first orderings of the same records are equal, so a page does not depend on how ties are broken |
| CacheKeys.Decimal | src/Controller/NotificationController.php:62 | the interpolated number is a non-empty digit string with no leading zero |
| CacheKeys.DecimalRoundTrip | src/Controller/NotificationController.php:62 | reading the decimal numeral of `n` gives `n` back |
| CacheKeys.LeadingDigits | src/Controller/NotificationController.php:62 | the digit run taken is a digit prefix of the string that stops at the first non-digit |
| CacheKeys.LeadingDigitsOf | src/Controller/NotificationController.php:62 | a numeral followed by `_` is read back exactly |
| CacheKeys.CacheKey | src/Controller/NotificationController.php:62 | the key is `notifications_page_{page}_limit_{limit}` with both numbers in decimal. `CacheKeys.CacheKeyRoundTrip` decodes it back into the pair and `CacheKeys.CacheKeyInjective` shows distinct pairs give distinct keys |
| CacheKeys.CacheKeyRoundTrip | src/Controller/NotificationController.php:62 | decoding the key of `(page, limit)` gives `(page, limit)` |
| CacheKeys.CacheKeyInjective | src/Controller/NotificationController.php:62 | equal keys come from equal `(page, limit)` pairs, so cached pages never collide |
| PageCache.FillKeepsValid | src/Controller/NotificationController.php:64-74 | filling the entry of `(page, limit)` with a page fit for `limit` keeps every entry fit for the limit in its key |
| PageCache.ListCache.Fill | src/Controller/NotificationController.php:64-65 | the entry under the key of `(page, limit)` becomes the page, expiring 60 units after `now`. Other entries are kept, and a page fit for `limit` keeps the cache valid |
| NotificationStore.Store.Page | src/Controller/DashboardController.php:24 | the stored records at ranks `offset` to `offset + limit - 1` of some newest-first ordering of the store: exactly `limit` when enough remain, fewer at the end, none past it |
| NotificationStore.Store.Create | src/Controller/NotificationController.php:46-47 | the store becomes the result of `CreateRecord` on its old contents and stays valid |
| NotificationStore.Store.MarkSent | src/Controller/NotificationController.php:95-98 | the outcome and new contents are those of `Send` on the old contents; the store stays valid |
| NotificationApi.FieldOrEmpty | src/Controller/NotificationController.php:30-32 | the field's value when the body is an object holding it, otherwise `""` |
| NotificationApi.ErrorMessages | src/Controller/NotificationController.php:39-42 | the error map has one key per property path that has a violation, and holds the message of the last violation for that path |
| NotificationApi.Create | src/Controller/NotificationController.php:27-49 | with any violation, the answer is 400 with the error map and nothing is stored. Otherwise the answer is 201 and exactly one pending record is stored. It carries the body's fields, each "" when missing, the clock as creation time, no send time and a fresh id |
| NotificationApi.List | src/Controller/NotificationController.php:59-80 | page and limit are clamped and echoed. The data has at most `limit` records, newest first. On a fresh cache entry it is that entry's page and the cache is unchanged. Otherwise it is the store's page at `(page - 1) * limit`, which fills the entry for 60 units |
| NotificationApi.Send | src/Controller/NotificationController.php:90-100 | a fresh send answers 200 "Notification sent successfully". An already-sent record answers 400 "Notification already sent" and nothing changes. An unknown id answers 404. The store becomes the result of `Send` |
| NotificationApi.SendTwiceScenario | src/Controller/NotificationController.php:90-100 | creating a record and sending it twice answers 200, then 400 |
| NotificationApi.ListIsCachedWithinTtl | src/Controller/NotificationController.php:64-65 | after a request that fills the cache, the same request within 60 units returns the same data even though a record was created in between |
| Dashboard.Index | src/Controller/DashboardController.php:22-50 | a valid submission stores exactly one pending record with the form's fields, the clock as creation time and a fresh id, then redirects with a success flash. Otherwise nothing is stored, and the clamped page is rendered: at most 10 records, newest first, from offset `(page - 1) * 10` |
| Dashboard.Send | src/Controller/DashboardController.php:56-65 | a fresh send redirects with a success flash. An already-sent record redirects with a warning flash and nothing changes. An unknown id gives the not-found page. After any redirect the record is sent |

## Left out

- HTTP routing, request and response objects, JSON encoding and decoding, and template rendering are framework I/O. The decoded body is a `map<string, string>`, or `None` when the body is not a JSON object. Field values of other JSON types are not modelled.
- Doctrine persistence (`persist`, `flush`, `findBy`, the query builder) is replaced by an in-memory sequence. Identifiers come from a counter starting at 1, standing in for the database's auto-increment.
- Tie order: `ORDER BY createdAt DESC` leaves the order of records with equal creation times to the database, and two queries need not agree on it. The model breaks ties by stored order, the same way in every query. The exact pages that `NotificationApi.List` and `Dashboard.Index` take from the definition of `NotificationStore.Store.Page`, and the non-overlap of pages in `Pagination.PageRanks`, hold for that fixed order. The database does not guarantee them when creation times are shared. Without ties, `Pagination.NewestFirstUnique` shows there is only one newest-first order. Whatever the tie order, the page is the slice at `offset` of some newest-first ordering, as the contract of `Pagination.NewestFirstPage` states.
- The validator's constraints live in the entity class, which is not part of this model. The API takes the validator's violations as an input, and the dashboard takes the form's verdict as a flag. Form building, field errors and flash storage are reduced to the response datatypes.
- PHP's `(int)` cast of query strings is not modelled: `page` and `limit` arrive already parsed, or absent.
- PHP's 64-bit integers are not modelled: `(page - 1) * limit` and the numerals in the cache key use unbounded integers, so an overflow for huge parameters is not represented.
- `\DateTime` values are readings of an abstract `nat` clock. Nothing in the code makes the clock monotonic. "created before sent" is therefore proved only under a clock that does not run backwards (`Notifications.SendKeepsChronology`).
- The cache adapter's probabilistic early recomputation and its locking are not modelled. A lookup is a hit exactly when the entry exists and has not expired.
- The list endpoint returns array rows (`getArrayResult`) rather than entities; the model returns the records themselves.
- Concurrent requests are not modelled. The code does no compare-and-set on send, so two simultaneous sends could both see `pending`; the model covers one request at a time.
