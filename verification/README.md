# Order management and credential rules, modelled in Dafny

This project models the business rules of a small storefront backend. The
backend has two applications.

- **Orders.** An order belongs to one user. It holds a generated order
  number, one of seven statuses, receiver details, four money amounts and
  the paid, shipped and delivered timestamps. Line items and an
  append-only activity log hang off it. The rules modelled are: creating
  an order and adding up its total, moving it between statuses, cancelling
  it, and the caller-scoped list, statistics and log queries.
- **Authentication.** The login validator, the registration validators,
  and the token table. Login gets or creates one token per user, and
  logout deletes it.

Money is a two-decimal fixed-point amount, held here as whole cents (`int`).
Clock readings, random keys and identifiers are parameters:

- `now` is a microsecond timestamp.
- `nowMillis` is the millisecond reading that order numbers are made from.
- `newId` is the generated primary key.
- `freshKey` is the generated token key.

Password hashing and checking are function parameters. The configured
authentication backend is a function parameter too, and `ModelBackend`
gives the default one. The database is modelled as two classes whose
tables are sequences or maps of datatype rows:

- `OrderDb.Db` holds the orders, items and logs.
- `AuthStore.Store` holds the users and tokens.

The two model `save` overrides are methods of `Db`. Each writes a row.

Modules, one per concern:

- `Common`: `Option`, `Result`, and the sequence `Filter` and `FirstIndex`
  helpers.
- `OrderModels` (orders/models.py): the status choices, rows and line
  totals, order numbers, and the timestamp bookkeeping of a status change.
- `OrderQueries` (orders/views.py, read side): list filters, object lookup,
  statistics and log listing.
- `OrderDb` (orders/models.py `save`, orders/serializers.py, orders/views.py
  `cancel`): the tables and the operations that write them.
- `AuthRules` (authentication/serializers.py): login and registration
  validation.
- `AuthStore` (authentication/views.py, `RegisterSerializer.create`): the
  user and token tables.

Points where the code is followed as written:

- **Filters apply to single-order actions too.** Retrieve, update_status
  and cancel look the order up through the same caller-scoped, filtered
  queryset as the list (`LocateOrder`). So a query parameter such as
  `?status=paid` can make an order not found there as well.
- **Two inputs end in a server error rather than a validation error.**
  - A start or end date that has date format but is not a real date
    (`2024-02-30`) makes date parsing raise. A date that is not in date
    format at all is ignored.
  - The status update validates partially, so a request without `status`
    passes validation and then fails when the status is read.

  Both are modelled as `ServerError`.
- **The statistics response has six status buckets and no `refunded`
  bucket.** Refunded orders appear only in `total_orders`.
- **No profile update, and no register endpoint.** There is no profile
  update handler and no route to the registration serializer. Registration
  is therefore modelled as its validators and its `create` only.

## Model

| member | source | states |
|---|---|---|
| `OrderModels.ParseStatus` | orders/serializers.py:82 | a requested status is accepted exactly when it is the code of one of the seven choices, and then denotes that choice |
| `OrderModels.ParseCode` | orders/models.py:7-15 | every one of the seven choices is accepted back from its stored code |
| `OrderModels.NewOrder` | orders/models.py:17-41 | a new order carries the given owner and receiver details, is pending, all four amounts are zero (so it is balanced), created and updated now, no other timestamp is set and the number is still empty |
| `OrderModels.Decimal` | orders/models.py:52 | the clock reading is written as a non-empty string of decimal digits |
| `OrderModels.DecimalRoundTrip` | orders/models.py:52 | the digits written for a clock reading read back as that reading |
| `OrderModels.OrderNumber` | orders/models.py:52 | a generated order number is "ORD" followed by at least one character |
| `OrderModels.OrderNumberInjective` | orders/models.py:52 | two different millisecond readings never give the same order number |
| `OrderModels.AssignedNumber` | orders/models.py:49-53 | after a save an order always has a number; an existing number is kept, an empty one is generated from the clock |
| `OrderModels.AssignedNumberStable` | orders/models.py:50-52 | a second save never changes the number the first save assigned |
| `OrderModels.SavedItem` | orders/models.py:74-76 | a saved line item carries total = quantity × unit price, with the input's product name, SKU, image, quantity and price |
| `OrderModels.SavedItemsAt` | orders/serializers.py:62-63 | the k-th item row created is the k-th input item, priced |
| `OrderModels.SavedItemsTotal` | orders/serializers.py:61-66 | the stored line totals of the created items add up to the sum of quantity × unit price over the input |
| `OrderModels.ExampleOrderTotal` | test_apis.py:95-108 | the API script's example order (1 × 5999.00 + 2 × 99.00) totals 6197.00 |
| `OrderModels.StampTimestamps` | orders/serializers.py:93-101 | each of paid_at, shipped_at and delivered_at changes exactly when the new status is its status and it was unset; a set value is never overwritten; a change sets it to now; nothing else changes |
| `OrderModels.StatusUpdated` | orders/serializers.py:85-101 | the update sets the requested status whatever the old one; only status and timestamps move, so the amounts stay balanced |
| `OrderModels.AtMostOneStamp` | orders/serializers.py:93-101 | at most one of the three timestamps changes in one update |
| `OrderModels.PaidAtSetOnce` | orders/serializers.py:93-95 | moving to paid a second time, after any other update, keeps the first paid_at |
| `OrderQueries.DayBounds` | orders/views.py:34-45 | the start-date filter keeps exactly the orders created on or after the start day, the end-date filter exactly those created on or before the end day, whole days included |
| `OrderQueries.IContainsCorrect` | orders/views.py:48-50 | the order-number search succeeds exactly when the term occurs somewhere in the number, ignoring case |
| `OrderQueries.ListOrders` | orders/views.py:25-52 | the list fails only when a date parameter raises; otherwise it holds exactly the caller's orders that meet every supplied filter (exact status, inclusive day range, case-insensitive number substring), each stored row once; an unparsable date is ignored |
| `OrderQueries.VisibleMatches` | orders/views.py:26-50 | the per-order test used by lookups agrees with the list's filters |
| `OrderQueries.LocateOrder` | orders/views.py:88-97 | the lookup finds an order exactly when one with that id is owned by the caller and passes the filters, and returns its row; otherwise not-found, or a server error when a date raises |
| `OrderQueries.Retrieve` | orders/views.py:87-93 | a retrieved order is stored, has the requested id and is the caller's; retrieve succeeds exactly when such an order passes the filters; otherwise it is not-found, or a server error when a date raises |
| `OrderQueries.CountsPartition` | orders/views.py:147-155 | the seven per-status counts of a list of orders add up to its length |
| `OrderQueries.OwnedBy` | orders/views.py:145 | statistics consider exactly the caller's orders |
| `OrderQueries.CountStatusIsFilter` | orders/views.py:149-154 | the per-status count equals the size of the caller's orders filtered on that status |
| `OrderQueries.Statistics` | orders/views.py:143-160 | total_orders counts all the caller's orders; each of the six buckets is the number of the caller's orders with its status; the six sum to the total minus the refunded orders |
| `OrderQueries.OrderLogs` | orders/views.py:166-180 | logs are returned exactly when the order exists and is the caller's, and are then exactly that order's entries, every stored row of it once; otherwise not-found |
| `OrderDb.Db.Save` | orders/models.py:49-53 | saving assigns a number only to an order without one, stamps updated_at, and inserts the row or replaces the one with its key; the table invariants are kept |
| `OrderDb.Db.SaveItem` | orders/models.py:74-76 | every item save recomputes total = quantity × unit price whatever total was supplied, and appends exactly that row |
| `OrderDb.Db.SaveItems` | orders/serializers.py:61-64 | the creation loop adds one priced row per input item in input order, and its running total is the sum of quantity × unit price |
| `OrderDb.Db.CreateOrder` | orders/serializers.py:55-78 | creation adds one pending order owned by the caller, numbered from the clock, carrying the request's receiver details and notes and created now; total = the sum of line totals (zero for no items); final = total + shipping − discount with both defaults zero; one item row per input item; exactly one log entry tagged CREATE by the caller |
| `OrderDb.Db.UpdateStatus` | orders/serializers.py:85-113 | only an order the caller may see can be updated; an unknown status fails with nothing changed; a missing status is a server error; otherwise the status is set from any old status, first-time timestamps are stamped, and exactly one entry tagged STATUS_CHANGE naming the old and new status and the notes is logged |
| `OrderDb.Db.Cancel` | orders/views.py:115-141 | cancel succeeds exactly for a visible order that is pending or paid; otherwise it fails with status and log unchanged; on success the status becomes cancelled and exactly one entry tagged CANCEL by the caller is logged |
| `AuthRules.ValidateLogin` | authentication/serializers.py:10-26 | a missing or empty username or password fails before any credential check; credentials that do not authenticate fail; an authenticated inactive user fails; success carries exactly the authenticated active user |
| `AuthRules.UniqueRow` | authentication/serializers.py:15 | with unique usernames the lookup by name finds the one row with that name |
| `AuthRules.ModelBackend` | authentication/serializers.py:15 | the default backend yields only a stored, active user of that name whose password checks; with unique usernames, failure means that user is inactive or the password does not check |
| `AuthRules.ModelBackendNeverDisabled` | authentication/serializers.py:15-20 | with the default backend, login never reports a disabled account; inactive users get invalid credentials |
| `AuthRules.DefaultLogin` | authentication/serializers.py:14-24 | with the default backend, login yields only a stored active user of that name whose password checks, never reports a disabled account, and (usernames being unique) always lets in an active user whose password checks |
| `AuthRules.WrongPasswordRejected` | authentication/serializers.py:15-22 | with the default backend, a wrong password for an existing user fails as invalid credentials |
| `AuthRules.FieldErrors` | authentication/serializers.py:37-57 | the field checks report a short password, a taken given email and a taken username exactly when each holds, and never the mismatch; an absent email is never checked |
| `AuthRules.ValidateRegistration` | authentication/serializers.py:36-57 | registration passes exactly when the password has at least 8 characters, the email (if given) and username are unused and the confirmation matches; each failure reason is reported exactly when it holds; a mismatch is reported only when every field check passed |
| `AuthRules.RegisterTwiceRejected` | authentication/serializers.py:49-57 | registering again with an existing user's username, or giving an existing user's email, fails |
| `AuthRules.NoEmailNeverTaken` | authentication/serializers.py:49-52 | a registration without an email is never refused for a taken email, even when a stored user has a blank one |
| `AuthStore.GetOrCreateToken` | authentication/views.py:21 | after login the user has exactly one token; an existing token is reused, otherwise the fresh key is stored; other users' tokens are unchanged |
| `AuthStore.GetOrCreateTwice` | authentication/views.py:21 | a second get-or-create for the same user returns the same key and table |
| `AuthStore.RevokeToken` | authentication/views.py:45-46 | after logout the user has no token and every other user's token is unchanged |
| `AuthStore.RevokeTwice` | authentication/views.py:42-58 | logging out twice leaves the same table as once |
| `AuthStore.NewUser` | authentication/serializers.py:59-62 | the created user takes the registration's username, email (blank when none was given), first and last name and phone, stores only the password's hash, drops the confirmation and is active |
| `AuthStore.View` | authentication/serializers.py:29-33 | the user data shown carries the user's id, username, email, first and last name and phone, and no credential |
| `AuthStore.Store.Login` | authentication/views.py:14-36 | login follows the validator; a failure returns its reason and leaves the token table unchanged; a success returns the user and the key get-or-create gives |
| `AuthStore.Store.Logout` | authentication/views.py:42-58 | logout always reports success and deletes the caller's token if there is one |
| `AuthStore.Store.LoginWithPassword` | authentication/views.py:14-36 | login with the default backend over the stored users follows that validator; an active user whose password checks always gets in as that user, with the get-or-create key |
| `AuthStore.Store.Profile` | authentication/views.py:64-69 | the profile is the view of the requesting user's own row, which ids make unique |
| `AuthStore.Store.CreateUser` | authentication/serializers.py:59-62 | a validated registration adds exactly one user and leaves the tokens alone |
| `AuthStore.LoginTwice` | authentication/views.py:21-28 | two successive successful logins by the same user return the same token key |

## Left out

- Amount column width: amounts are unbounded integers. The rule that an
  amount has at most 10 digits with 2 decimal places (|cents| < 10^10) is
  enforced only by the database adapter when a value is stored, and that
  error path is not modelled.
- Result order: lists and log listings keep table order. The newest-first
  ordering of orders and logs and the pagination of the list are not
  modelled.
- Generic actions: update, partial update and destroy, inherited from the
  framework's view set, are not modelled. Update and partial update may
  write the four amounts and the status freely, without a log entry. So
  three rules hold only for the operations modelled here:
  - `Db.AllBalanced`;
  - cancel only from pending or paid (a `PATCH` of `status` to cancelled
    cancels a delivered order);
  - one log entry per status change.
  Destroy deletes the order together with its items and its logs.
- Payload validation: field-level validation of the creation payload
  (required fields, lengths, number formats) happens before `create` runs.
  `CreateOrder` takes already-validated input and has no 400 path.
- Partial writes: creation runs without a transaction, so a database error
  part-way could leave an order with some of its items. Database errors
  are not modelled.
- Order-number collisions: two orders created in the same millisecond get
  the same number, and the unique constraint then fails. This is not
  modelled. Neither is the 32-character limit on the number.
- Time zones: dates are day numbers on the same timeline as the
  timestamps. Time-zone conversion of the date filters is not modelled.
- Case folding: the order-number search folds ASCII letters only; the
  database's collation may fold more.
- Log text: descriptions are structured values (old status, new status,
  notes). The localised label text is not modelled.
- Sessions: the framework session `login`/`logout` calls, and the bearer
  token lookup that authenticates each request, are not modelled.
- Request field coercion: the framework trims surrounding whitespace from
  the free-text fields before any validator runs. These are the login
  username and password, the registration string fields, and the
  status-update `notes`. The status-update `status` is a choice field and
  is matched untrimmed, as here. The framework also rejects a blank
  username, password or password confirmation, and a JSON null for any of
  these fields or for the status-update `status` and `notes`. The model
  passes the fields through as given, so a login with " alice" reaches the
  backend untrimmed here.
- OrderDb.Db.UpdateStatus: logs the notes as given, where the source logs
  them trimmed ("  fragile  " is logged as "fragile"), because string
  trimming is left out as above.
- User creation details: the framework's username and email format checks, the uniqueness check
  on phone, and the normalisation that `create_user` applies to the
  username and email are not modelled. Neither are the avatar and
  date-joined fields of the user view.
- Randomness: primary keys and token keys are parameters. The model
  requires the key to be unused, standing in for their randomness.
- Concurrency: concurrent requests on the same order, and database
  locking, are not modelled.
