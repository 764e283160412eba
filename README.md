# Station inventory: the table-changing route handlers

The system is an IT-asset inventory for an organisation with several
stations (locations). It keeps computers and printers per station, moves
devices between stations and keeps a transfer history. It also tracks
shipments of items between stations, each with line items, photos and a
notes log. Admins and users reach it through a web front end. An admin may
act on every station. A user may only act on the station stored in their
session.

This project models the handlers that change tables:

- **Access** (`access.dfy`): the session role, the station gate and the
  outcome a handler ends with.
- **Schema** (`schema.dfy`): one datatype per table row. `Database` holds one
  map per table, keyed by the SERIAL primary key, plus the next key of each
  counter. `ValidTables` (and `Valid()` on the live tables) says keys are fresh and every line item belongs to a
  shipment that exists.
- **Uploads** (`uploads.dfy`): `allowed_file` and the photo loop of
  `send_items`.
- **Notes** (`notes.dfy`): the SQL `CASE` both shipment updates use to append
  an entry to a shipment's notes.
- **AdminRoutes** (`admin_routes.dfy`): the handlers below, as methods on
  `Database`. Each method states its whole new state through pure functions.
  - `send_items` with its item loop
  - `update_expected_date` and `mark_items_received`
  - `transfer_equipment`
  - `delete_station` and `delete_equipment`
- **UserRoutes** (`user_routes.dfy`): the user blueprint's equipment
  handlers and its dashboard.
  - `Step` gives the effect of one request on `equipment`, and the handler
    methods are proved equal to it.
  - `Run` folds `Step` over a session. Lemmas show that a user's session only
    touches their own station.

Form fields that `request.form.get` may return as `None` are `Option`
values. `Filled` is Python truthiness of such a value, and `OrNone` is the
`x or None` idiom.

## Model

| member | source | states |
|---|---|---|
| Uploads.Extension | routes/admin_routes.py:15 | the second part of `rsplit('.', 1)`: absent exactly when the name has no '.'; otherwise it has no '.' and is the text right after the last '.' |
| Uploads.AllowedFileMeans | routes/admin_routes.py:12-15 | `allowed_file` holds exactly when there is a last '.' and the text after it, lower-cased, is png, jpg, jpeg or gif |
| Uploads.ExtensionOfSuffix | routes/admin_routes.py:15 | for an extension without '.', `base + "." + ext` splits off exactly `ext`, whatever `base` holds |
| Uploads.OnlyLastExtensionCounts | routes/admin_routes.py:12-15 | the answer for `base.ext` depends only on the lower-cased `ext`, not on what precedes it |
| Uploads.ExtensionCaseIgnored | routes/admin_routes.py:15 | an extension and its lower-case form are accepted or refused alike |
| Uploads.DisguisedExecutableRefused | routes/admin_routes.py:15 | `a.png.exe` is refused |
| Uploads.UpperCaseImageAccepted | routes/admin_routes.py:15 | `a.exe.PNG` is accepted |
| Uploads.TrailingDotRefused | routes/admin_routes.py:15 | a name that ends in '.' is refused |
| Uploads.DotRequired | routes/admin_routes.py:15 | `png` without a dot is refused; `.gif` is accepted |
| Uploads.PhotoPathsConcat | routes/admin_routes.py:41-56 | the photo filter distributes over concatenation, so stored names keep upload order |
| Uploads.PhotoPathsBounded | routes/admin_routes.py:41-56 | at most one stored name per upload |
| Uploads.PhotoPathsSound | routes/admin_routes.py:41-56 | every stored name comes from an upload with a non-empty, allowed filename |
| Uploads.PhotoPathsComplete | routes/admin_routes.py:41-56 | every upload with a non-empty, allowed filename has its stored name kept |
| Uploads.PhotoPathsMembers | routes/admin_routes.py:41-56 | a name is stored exactly when some upload with a non-empty, allowed filename was stored under it |
| Uploads.CollectPhotoPaths | routes/admin_routes.py:41-56 | the loop returns the stored names of the accepted uploads, in order |
| Notes.DateUpdateEntry | routes/admin_routes.py:150-154 | the date entry starts with `Date Update: ` |
| Notes.ReceivedEntry | routes/admin_routes.py:195-197 | the receipt entry starts with `Received: ` |
| Notes.AppendKeepsOldNotes | routes/admin_routes.py:150-154 | existing notes stay a prefix; with non-empty notes the length grows by the separator and the entry |
| Notes.AppendEndsWithEntry | routes/admin_routes.py:150-154 | after an append, the notes end with the new entry |
| Notes.NotesAfterIsJoin | routes/admin_routes.py:150-154 | starting from NULL notes, appending non-empty entries one by one leaves exactly those entries, in order, separated by blank lines |
| Notes.JoinNonEmpty | routes/admin_routes.py:150-154 | joining entries whose first one is non-empty gives non-empty notes |
| Common.OrNone | routes/admin_routes.py:32 | `x or None`: absent exactly when `x` is absent or empty, else `x` itself |
| AdminRoutes.ItemRowsKeys | routes/admin_routes.py:71-76 | the items of one shipment occupy exactly the keys `firstId` to `firstId + n - 1`, and each has the new shipment's id |
| AdminRoutes.ItemRowAt | routes/admin_routes.py:71-76 | the item under key `firstId + i` pairs the i-th name, quantity and condition |
| AdminRoutes.ItemRowsStep | routes/admin_routes.py:71-76 | one more loop round adds the next item under the next key and keeps the earlier items |
| AdminRoutes.CompleteItems | routes/admin_routes.py:71-76 | the number of rounds before the loop stops is at most each list's length and equals one of them |
| AdminRoutes.ItemsOfNewShipment | routes/admin_routes.py:59-76 | after `send_items`, the items that carry the new shipment's id are exactly the ones just inserted |
| AdminRoutes.ItemsStayValid | routes/admin_routes.py:59-76 | after the items are appended, item keys stay below the item counter, and every item's shipment is one that existed or the new one |
| AdminRoutes.SentKeepsValid | routes/admin_routes.py:59-76 | a committed shipment keeps every SERIAL key fresh, and every line item, old or new, refers to a shipment in the `send_items` table; the new shipment's key was unused |
| AdminRoutes.AppendShipment | routes/admin_routes.py:59-68 | the INSERT ... RETURNING id stores the shipment under the next key, which was unused, and returns that key |
| AdminRoutes.InsertItems | routes/admin_routes.py:71-76 | the loop appends one item per index until a quantity or condition is missing; it reports whether every name got one |
| AdminRoutes.SendItems | routes/admin_routes.py:18-83 | non-admins are refused; short quantity or condition lists raise and change nothing; otherwise the tables become `AfterSend`: one shipment with status sent and the kept photos under the next key, then its items; validity is kept |
| AdminRoutes.Rescheduled | routes/admin_routes.py:148-156 | the shipment gets the new expected date; the date entry is appended to its notes with a blank line, or replaces NULL or empty notes; all other columns are kept |
| AdminRoutes.MarkedReceived | routes/admin_routes.py:190-201 | status becomes received, with receiver and date; the receipt entry is appended to the notes as above; all other columns are kept |
| AdminRoutes.RescheduleKeepsHistory | routes/admin_routes.py:148-156 | rescheduling keeps the earlier notes as a prefix and ends them with the date entry |
| AdminRoutes.ReceiptKeepsHistory | routes/admin_routes.py:190-201 | marking received keeps the earlier notes as a prefix and ends them with the receipt entry |
| AdminRoutes.UpdateExpectedDate | routes/admin_routes.py:130-168 | non-admins are refused and an empty date changes nothing; otherwise only the addressed shipment, if it exists, is rescheduled |
| AdminRoutes.MarkItemsReceived | routes/admin_routes.py:171-213 | non-admins are refused; a missing receiver or date changes nothing; otherwise only the addressed shipment, if it exists, is marked received |
| AdminRoutes.RelocatedEquipment | routes/admin_routes.py:851-853 | the UPDATE neither adds nor removes a row |
| AdminRoutes.RelocatedPrinter | routes/admin_routes.py:854-856 | the UPDATE neither adds nor removes a printer |
| AdminRoutes.RelocationMovesOnlyDevice | routes/admin_routes.py:851-856 | only the addressed row's station changes, to the destination; every other column and row is kept |
| AdminRoutes.MoveDevice | routes/admin_routes.py:851-856 | a computer transfer updates `equipment` and a printer transfer updates `printers`, each as the relocation says |
| AdminRoutes.MoveKeepsName | routes/admin_routes.py:858-864 | the name read back after the UPDATE is the name before it, so the history row names the device moved |
| AdminRoutes.TransferRecord | routes/admin_routes.py:840-878 | the history row copies type, stations, date, reason and notes. For a computer or printer it records the device id and its name, or 'Unknown', with no serial. For any other kind it records no device, the typed name and the serial or NULL |
| AdminRoutes.AppendTransfer | routes/admin_routes.py:872-878 | the INSERT stores one history row under the next key, which was unused |
| AdminRoutes.TransferKeepsValid | routes/admin_routes.py:825-885 | a transfer keeps every SERIAL key fresh, and adds exactly one history key, which was unused |
| AdminRoutes.TransferEquipment | routes/admin_routes.py:825-885 | non-admins are refused; otherwise the tables become `Transferred`: a computer moves in `equipment`, a printer in `printers`, any other kind moves nothing, and one history row is appended; validity is kept |
| AdminRoutes.WithoutStation | routes/admin_routes.py:637 | exactly the rows of other stations remain, unchanged |
| AdminRoutes.DeleteStation | routes/admin_routes.py:629-643 | non-admins are refused; otherwise the station's equipment and then the station are removed, and no other table changes |
| AdminRoutes.DeleteEquipment | routes/admin_routes.py:535-555 | non-admins are refused; an unknown id changes nothing; otherwise exactly that row is removed |
| UserRoutes.NewComputer | routes/user_routes.py:66-85 | the inserted row has the route station, type computer and no printer columns |
| UserRoutes.NewPrinter | routes/user_routes.py:159-173 | the inserted row has the route station, type printer and no computer columns |
| UserRoutes.EditedComputer | routes/user_routes.py:120-134 | the edit keeps the row's station, type and printer columns |
| UserRoutes.EditedPrinter | routes/user_routes.py:208-217 | the edit keeps the row's station, type and computer columns |
| UserRoutes.Step | routes/user_routes.py:55-259 | roles other than user and admin are refused. A failed request changes nothing. A user changes only rows of their session station. No surviving row changes station or type. Keys stay fresh. Each request succeeds exactly when its row exists, has the right type and the station gate passes |
| UserRoutes.AddInsertsOneRow | routes/user_routes.py:55-90 | a successful add inserts one row under a fresh key, at the route station and with the right type, and keeps every other row |
| UserRoutes.EditTouchesOneRow | routes/user_routes.py:95-139 | a successful edit keeps the key set and every other row, and writes the form's name or serial number |
| UserRoutes.DeleteRemovesOneRow | routes/user_routes.py:230-259 | a successful delete removes exactly the addressed row, which existed |
| UserRoutes.ConfinedTransitive | routes/user_routes.py:61-63 | two changes confined to a station compose into one confined change |
| UserRoutes.UserSessionConfined | routes/user_routes.py:61-63 | over any sequence of requests, a user removes, changes or adds only rows of their session station |
| UserRoutes.OtherRoleChangesNothing | routes/user_routes.py:56-59 | a session without the user or admin role changes nothing, whatever it submits |
| UserRoutes.SessionRetainsStations | routes/user_routes.py:120-122 | over any session, no surviving row moves to another station or changes type |
| UserRoutes.RemovedKeysStayRemoved | routes/user_routes.py:81-85 | a key below the counter that is absent stays absent: deleted ids are never reused |
| UserRoutes.AddComputer | routes/user_routes.py:55-90 | the handler's outcome and new `equipment` table are those of `Step`, and nothing else changes |
| UserRoutes.EditComputer | routes/user_routes.py:95-139 | the handler's outcome and new `equipment` table are those of `Step`, and nothing else changes |
| UserRoutes.AddPrinter | routes/user_routes.py:147-178 | the handler's outcome and new `equipment` table are those of `Step`, and nothing else changes |
| UserRoutes.EditPrinter | routes/user_routes.py:183-222 | the handler's outcome and new `equipment` table are those of `Step`, and nothing else changes |
| UserRoutes.DeleteEquipment | routes/user_routes.py:230-259 | the handler's outcome and new `equipment` table are those of `Step`, and nothing else changes |
| UserRoutes.RowsAt | routes/user_routes.py:42-45 | exactly the rows of the given station and type, unchanged |
| UserRoutes.UserDashboard | routes/user_routes.py:7-50 | other roles are denied and an admin sees all stations. A user without a station, or with station 0, is turned away. A user gets a station page exactly when their station exists; it lists exactly that station's computers and printers |

## Left out

- HTTP plumbing is not modelled: GET requests that only render a form, templates, `flash` messages and redirect targets. The `Outcome` value stands for the message a POST ends with.
- Files are not modelled. `secure_filename`, the `uuid` prefix, creating the upload folder and saving the file to disk all happen outside the model. Each upload carries the name it is stored under as a given value.
- The database driver's type coercion is not modelled. Form text that PostgreSQL would cast to an integer or date, and the errors a bad cast raises, are left out. Station and device ids arrive already parsed, or absent.
- SERIAL sequences are not advanced by a rolled-back `send_items` in the model. PostgreSQL would consume those ids; the model leaves the counters as they were.
- Uploads.LowerChar: lower-cases only A to Z, where Python's `str.lower` covers all of Unicode. Only the four allowed extensions are compared, and those agree.
- Schema.Printer: carries only the station and the name. The other columns of the `printers` table are not read by the modelled handlers.
- DeleteStation, Step (with AddComputer and AddPrinter) and TransferEquipment: foreign-key violations and `ON DELETE` actions are not modelled. Adding a device at a station that has no row, moving one to such a station, or deleting a station that shipments, transfers or printers still refer to may raise in PostgreSQL and change nothing, or cascade to other tables. The table definitions are not part of this model, so the model applies each statement as written.
- Concurrency between requests is left out: each handler runs as one atomic step.
- The read-only listing pages of both blueprints are not part of this model. Neither are the stock ledger, maintenance, router, antivirus and station create/edit handlers, authentication, `app.py` and `models/db_models.py`.
- A shipment whose id does not exist is handled as the source does: the UPDATE hits no row and success is reported. The model returns `Done` with no change rather than an error.
