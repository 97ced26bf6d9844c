# tidedesk-cm-service core in Dafny

This project models the core of a small channel-manager bridge between a
hotel PMS and the Aiosell channel manager, and proves properties of the
model. It covers three parts:

- **Booking reconciler** (`handleChannelManagerBooking`, `updateLocalInventory`,
  `processRange`). It checks the shared-secret header, writes a best-effort
  audit row and upserts the booking row. It then moves the per-night,
  per-room inventory counters: −1 per room entry for `book`, +1 for
  `cancel`, and add-back-then-deduct for `modify`.
- **Outbound payload builders** (`getOtaRoomCode`, `buildInventoryPayload`,
  `buildRatesPayload`, `buildRestrictionsPayload`) and the request that
  `pushToAiosell` forms. That request consists of the credentials lookup,
  the URL, the Basic `Authorization` header and the error messages.
- **Retry queue**: `enqueueRetry`, plus one run each of the worker's
  `processNext` and `cleanupZombies`. `processNext` selects due rows, deletes
  delivered ones with a log entry, and backs off failed ones. `cleanupZombies`
  prunes rows by age.

The database tables are fields of `Db.Database`. Each statement that
changes a table reassigns its field:
- a list of rows becomes a `seq`;
- `inventory` becomes a `map` from `(room_id, day)` to `available_count`.

Code that loops and updates in place is modelled as a method with a
loop:
- the night loop and the room loop of `processRange`;
- the row loop of `processNext`.

Each such method is proved equal to a specification function. The
properties are proved about that function. The payload builders have no
state, so they are functions.

Conventions:

- **JSON values.** JSON is the `Json.Value` datatype. Truthiness, `||`,
  and property access (`undefined` = `None`) follow JavaScript.
- **JSON text.** `JSON.stringify`/`JSON.parse` are an abstract pair
  (`Json.Codec`). The round-trip law (`Json.Lawful`) is a precondition of
  the lemmas that need it.
- **SQL NULL.** NULL is `None`, and `=` with NULL never holds.
- **Dates** are day numbers (`Num(day)` in a payload). `new Date` turns
  `null`, `false` and `true` into a time on day 0 (1970-01-01), and a NULL
  column read back is `null`, so also day 0. A missing value (`undefined`)
  and every other value are an Invalid Date, which bounds no night.
- **Timestamps** are seconds. A run of `processNext` or `cleanupZombies`
  reads the clock once, as `now`.
- **Outcomes of calls** are parameters:
  - the HTTP POSTs;
  - whether the audit insert succeeds;
  - whether each cleanup delete succeeds.
- **`parseInt`** on strings is modelled in `JsNumber`:
  - leading white space is skipped;
  - a sign is read;
  - a `0x` prefix is read;
  - the longest digit prefix is read.
- **`Buffer.from(s).toString('base64')`** is modelled in `Base64`. The text
  is encoded as UTF-8, then in the alphabet of section 4 of RFC 4648 with
  `=` padding.

### Where the code departs from the evident intent (the model follows the code)

- **Inventory rows.** A delta for a night without an inventory row might
  be expected to create one. The code only runs `UPDATE` statements, so a
  missing `(room, date)` row stays missing (`Webhook.BookDeductsStay`).
- **Room quantity.** A room entry might be expected to carry a count. The
  code counts every entry as quantity 1 (`Webhook.Tally`).
- **Modify.** The evident intent is to add back the booking's old stay,
  deduct the new one, and store the booking afterwards. The code stores
  the booking first (webhook.controller.js:45-53) and reads the "old" stay
  afterwards (line 117). So the stay it adds back is the new one, and a
  `modify` with a non-NULL reservation id and both dates changes no
  inventory (`Webhook.ModifyIsNetZero`). With a NULL id nothing is found,
  and `modify` deducts like `book` (`Webhook.ModifyWithoutKeyIsBook`).
- **Modify with a missing date.** A missing date is stored as NULL and
  read back as 1970-01-01, while the deduction over the Invalid Date
  changes nothing. Without a check-in date, every night from 1970-01-01 up
  to the check-out is added back (`Webhook.ModifyWithoutCheckIn`). Without
  a check-out date, the nights from the check-in up to 1970-01-01 are
  added back, which is none for a check-in on or after that day
  (`Webhook.ModifyWithoutCheckOut`).
- **Backoff.** The evident intent is that a row whose `try_count` is `n`
  waits `2^n` seconds when it fails again: 8 s at `try_count = 3`. MySQL
  evaluates the single-table `UPDATE ... SET` assignments left to right,
  so `POWER(2, try_count)` (worker.js:19) sees the count already
  incremented. Such a row therefore waits `min(2^(n+1), 3600)` seconds:
  16 s at `try_count = 3`. See `Worker.BackoffBounds` and
  `Worker.BackoffExamples`.

## Model

| member | source | states |
|---|---|---|
| Webhook.HandleChannelManagerBooking | src/controllers/webhook.controller.js:5-66 | With a secret configured and a different token: 403 "Unauthorized", and the log, bookings and inventory are unchanged. Otherwise: the audit row is appended exactly when its insert succeeds; the booking table becomes the upsert of the payload's row; the inventory is the reconciliation against the saved table; the reply is 200, or 500 with the thrown message. |
| Webhook.Unauthorized | src/controllers/webhook.controller.js:10-14 | No contract of its own: a secret is configured (non-empty) and the token header differs from it. `HandleChannelManagerBooking` states the 403 path it selects. |
| Webhook.ReservationId | src/controllers/webhook.controller.js:26 | No contract of its own; `ReservationIdAndActionDefaults` states its fallback rule. |
| Webhook.Action | src/controllers/webhook.controller.js:27 | No contract of its own; `ReservationIdAndActionDefaults` states its default. |
| Webhook.ReservationIdAndActionDefaults | src/controllers/webhook.controller.js:26-27 | A truthy `bookingId` is the reservation id. A falsy one falls back to `reservationId`, shown for a missing, `null`, `false`, 0 and "" value. A truthy action is kept as given; a missing or falsy one is "book". |
| Webhook.ReservationKey | src/controllers/webhook.controller.js:26-30 | No contract of its own: the reservation id as a query parameter, NULL when it is missing or `null`; `ModifyWithoutKeyIsBook` and `UpsertStoresOneRow` state what a NULL key does. |
| Webhook.BookingData | src/controllers/webhook.controller.js:32-43 | The stored key is never a JSON `null` (that is sent as NULL). `cm_booking_id` is NULL exactly when `cmBookingId` is falsy. The channel is "channel_manager", the check-in and check-out columns are the payload's dates as query parameters, and the status is the action. With a lawful codec the guest, rooms and price breakdown columns parse back to the payload's values, or to `{}`, `[]` and `{}` when those are falsy, and the raw payload column parses back to the payload. |
| Webhook.Upsert | src/controllers/webhook.controller.js:30-53 | The table grows by one exactly when no row had the key, and keeps its length otherwise. The new row is in the table and every row under its key equals it. Rows under other keys keep their place and content. |
| Webhook.HasKey | src/controllers/webhook.controller.js:30-45 | No contract of its own: the SELECT found a row under the key; `Upsert` states the UPDATE or INSERT it selects. |
| Webhook.UpsertStoresOneRow | src/controllers/webhook.controller.js:30-53 | With unique keys before, keys stay unique, and a non-NULL key is carried by exactly one row afterwards. A NULL key matches no row. |
| Webhook.StoredStayOfUniform | src/controllers/webhook.controller.js:117-121 | When every row under a key carries the same data, the stay read back under that key is that data's check-in and check-out. |
| Webhook.StoredStay | src/controllers/webhook.controller.js:116-121 | No contract of its own: the dates of the first row under the key, read back; `StoredStayOfUniform`, `ReadBackIsNewStay` and `NoStayUnderNull` state what it returns. |
| Webhook.StoredDayOf | src/controllers/webhook.controller.js:120-121 | No contract of its own: `new Date` of a DATE column read back, with NULL as day 0; `StoredDayOfParam` states it. |
| Webhook.InStay | src/controllers/webhook.controller.js:76 | No contract of its own: the nights `new Date(start) <= d < end` visits, none for an Invalid Date; `BookDeductsStay` and `EmptyStayChangesNothing` state which nights move. |
| Webhook.StoredDayOfParam | src/controllers/webhook.controller.js:36-37 | A date the payload carries reads back from its column as the same day; a `null` date is stored as NULL and read back as day 0, like `new Date(null)`. |
| Webhook.ReadBackIsNewStay | src/controllers/webhook.controller.js:45-53 | After the upsert, the stay read back under a non-NULL key is the one the payload's own row stored. |
| Webhook.RoomsOf | src/controllers/webhook.controller.js:70-81 | A missing or falsy `rooms` gives no entries. An array gives one entry per element, and entry i is the room code of element i. A string gives one entry per character, none with a room code. Only a truthy value that is neither an array nor a string is not iterable. |
| Webhook.RoomCodeOf | src/controllers/webhook.controller.js:81 | No contract of its own: `room.roomCode` when it is a string; `UnmappedRoomsChangeNothing` states that other entries change nothing. |
| Webhook.Tally | src/controllers/webhook.controller.js:78-85 | No contract of its own: the number of entries whose code maps to the room, each as quantity 1; `TallyStep` and `UnmappedAddNothing` state it. |
| Webhook.Resolves | src/controllers/webhook.controller.js:81-84 | No contract of its own: the entry's code has a mapping row and the first one names the room; `TallyStep` states how it drives the count. |
| Webhook.DayOf | src/controllers/webhook.controller.js:71-72 | No contract of its own: `new Date` of a payload date, where `null` and booleans are day 0 and `undefined` or anything else is invalid. |
| Webhook.Reconciled | src/controllers/webhook.controller.js:76-98 | No row is created. Rows of nights outside the stay, and rows of rooms no entry resolves to, keep their counts. |
| Webhook.RangeEffect | src/controllers/webhook.controller.js:75-100 | No row is created. The only error is "rooms is not iterable", and when it is thrown no row has changed. |
| Webhook.InventoryEffect | src/controllers/webhook.controller.js:69-133 | No row is created, and the only error is "rooms is not iterable". |
| Webhook.ProcessNight | src/controllers/webhook.controller.js:78-98 | One night: the inventory keys are unchanged, each `(room, night)` row moves by the op's sign times the number of entries that map to the room, and rows of other nights are unchanged. |
| Webhook.ProcessRange | src/controllers/webhook.controller.js:75-100 | The inventory and the error equal the range effect. Each existing row of a night in `[checkIn, checkOut)` moves by ±(entries mapping to its room); other rows are unchanged and no row is created. A non-iterable room list throws at the first night of a non-empty stay and changes nothing. |
| Webhook.UpdateLocalInventory | src/controllers/webhook.controller.js:69-133 | The inventory and the error equal the effect of the action against the saved booking table: book deducts, cancel adds back, modify adds back the stored stay and then deducts the payload's, and any other action changes nothing. |
| Webhook.BookDeductsStay | src/controllers/webhook.controller.js:75-104 | 'book' raises no error and keeps the keys. Each row of a night in the stay decreases by the number of entries resolving to its room. The checkout night, nights outside the stay and non-existent rows are unchanged. |
| Webhook.CancelAddsStay | src/controllers/webhook.controller.js:90-107 | 'cancel' applies exactly the opposite delta of 'book' on the same rows. |
| Webhook.AddUndoesDeduct | src/controllers/webhook.controller.js:88-92 | Over the same stay and entries, adding undoes deducting and deducting undoes adding. |
| Webhook.CancelUndoesBook | src/controllers/webhook.controller.js:102-107 | A 'cancel' with the dates and rooms of an earlier 'book' restores the inventory, whatever the booking tables in between. |
| Webhook.ModifyIsNetZero | src/controllers/webhook.controller.js:108-132 | Run against the table saved just before it, a 'modify' with a non-NULL reservation key and both dates in the payload leaves the inventory exactly as it was. |
| Webhook.ModifyWithoutCheckIn | src/controllers/webhook.controller.js:108-132 | A 'modify' with a non-NULL key and no check-in date adds back every night from day 0 up to the stored check-out, and deducts nothing. |
| Webhook.ModifyWithoutCheckOut | src/controllers/webhook.controller.js:108-132 | A 'modify' with a non-NULL key and no check-out date adds back the nights from the stored check-in up to day 0 and deducts nothing, so it is net zero for a check-in on or after day 0. |
| Webhook.ModifyWithoutKeyIsBook | src/controllers/webhook.controller.js:116-131 | With a NULL reservation key, 'modify' has exactly the effect of 'book'. |
| Webhook.NoStayUnderNull | src/controllers/webhook.controller.js:117-119 | No stored stay is ever found under a NULL key. |
| Webhook.OtherActionsChangeNothing | src/controllers/webhook.controller.js:102-132 | An action other than book, cancel and modify leaves the inventory unchanged and raises no error. |
| Webhook.EmptyStayChangesNothing | src/controllers/webhook.controller.js:76 | When `checkOut <= checkIn`, or either date is invalid, the range changes no row and throws nothing, even for a non-iterable room list. |
| Webhook.UnmappedAddNothing | src/controllers/webhook.controller.js:81-83 | Entries without a mapping add nothing to any room's count. |
| Webhook.UnmappedRoomsChangeNothing | src/controllers/webhook.controller.js:81-97 | Adding unmapped entries to a room list leaves the range effect unchanged, and a list of only unmapped entries changes nothing and raises no error. |
| Webhook.TallyStep | src/controllers/webhook.controller.js:78-85 | Counting one more entry adds one exactly when that entry resolves to the room. |
| Webhook.BookingExample | src/controllers/webhook.controller.js:75-104 | Room 5 ("DLX") holds 10 rooms on days 100-102. A 'book' of two DLX entries from day 100 to day 102 leaves 8, 8 and 10. |
| Db.SqlEquals | src/controllers/webhook.controller.js:30 | No contract of its own: SQL `=`, under which NULL equals nothing; `NoStayUnderNull` and `UpsertStoresOneRow` state what a NULL key does. |
| Db.SqlParam | src/controllers/webhook.controller.js:32-43 | No contract of its own: `undefined` and `null` are sent as NULL; `StoredDayOfParam` and `BookingData` state it. |
| Db.RoomIdForCode | src/controllers/webhook.controller.js:81-84 | The result is None exactly when no mapping row has the code. Otherwise it is the room id of the first row with that code. |
| Db.CodeForRoom | src/controllers/sync.controller.js:36-38 | The result is None exactly when no mapping row has the room id. Otherwise it is the code of the first row with that id. |
| Db.MappingRoundTrip | src/controllers/sync.controller.js:36-38 | With a one-to-one mapping table, the room id looked up from a room's code is that room. |
| Sync.GetOtaRoomCode | src/controllers/sync.controller.js:35-39 | Fails with `MappingNotFound(id)` exactly when no mapping row has the id. Otherwise it returns the code of the first such row. |
| Sync.Message | src/controllers/sync.controller.js:11-37 | No contract of its own: the texts of the errors the source throws; `MappingNotFoundMessage` and `PushFailureMessage` state them. |
| Sync.MappingNotFoundMessage | src/controllers/sync.controller.js:37 | The error's message is "Mapping not found for Room ID " followed by the id in decimal, which `parseInt` reads back as the id. |
| Sync.MappingNotFoundExample | src/controllers/sync.controller.js:37 | Room 12 gives "Mapping not found for Room ID 12". |
| Sync.BuildInventoryPayload | src/controllers/sync.controller.js:43-53 | The only errors are the missing mapping, a payload text that does not parse, and a `null` payload. With a mapping, a payload that is neither text nor `null` always builds. |
| Sync.BuildRatesPayload | src/controllers/sync.controller.js:55-68 | The only errors are the missing mapping, a payload text that does not parse, and a `null` payload. With a mapping, a payload that is neither text nor `null` always builds. |
| Sync.BuildRestrictionsPayload | src/controllers/sync.controller.js:70-87 | The only errors are the missing mapping, a payload text that does not parse, and a `null` payload. With a mapping, a payload that is neither text nor `null` always builds. |
| Sync.ReadData | src/controllers/sync.controller.js:45 | No contract of its own: `JSON.parse` of a string payload and the value itself otherwise; `TextPayloadLikeValue` states it. |
| Sync.Property | src/controllers/sync.controller.js:50 | No contract of its own: `data.key`, which throws on `null`; `NullPayloadFails` states the `NullData` error it gives for `null`. |
| Sync.Restrictions | src/controllers/sync.controller.js:77-84 | No contract of its own: the restriction line of a non-null `data`; `RestrictionFlags` states its fields. |
| Sync.IsTrueOrTrueString | src/controllers/sync.controller.js:79 | No contract of its own: `v === true \|\| v === 'true'`; `RestrictionFlags` and `RestrictionExamples` state it. |
| Sync.OptionalInt | src/controllers/sync.controller.js:80-81 | No contract of its own: `v ? parseInt(v) : undefined`; `RestrictionFlags` and `StayExamples` state it. |
| Sync.BuildersNeedMapping | src/controllers/sync.controller.js:43-86 | Every builder fails with `MappingNotFound` when the room has no mapping, whatever the payload. |
| Sync.NullPayloadFails | src/controllers/sync.controller.js:43-87 | For a mapped room, a `null` payload, or text that parses to `null`, fails with the TypeError of reading the builder's first property of `null`. |
| Sync.BuildersShape | src/controllers/sync.controller.js:43-86 | On success there is one update with the given start and end dates and one room line whose code is the room's mapped code, which maps back to the room when the table is one-to-one. |
| Sync.BuiltLine | src/controllers/sync.controller.js:43-86 | A successful build is a single update over the given dates whose one line carries the room's mapped code. |
| Sync.InventoryPayloadContent | src/controllers/sync.controller.js:43-53 | For any payload that is neither text nor `null`, the inventory line is `{roomCode: mapped, available: parseInt(data.availability)}`. A numeric availability arrives unchanged, and a payload that is not an object gives NaN. |
| Sync.TextPayloadLikeValue | src/controllers/sync.controller.js:45 | With a lawful codec, a payload given as JSON text builds the same result as the value itself, for all three builders. |
| Sync.RestrictionFlags | src/controllers/sync.controller.js:79-83 | `stopSell` is true iff the input is `true` or "true". `closeOnArrival`/`closeOnDeparture` are true iff the input is `true`. `minStay`/`maxStay` are omitted iff the input is falsy, and otherwise carry its `parseInt`. |
| Sync.RestrictionExamples | src/controllers/sync.controller.js:79-83 | The strings "true" set `stopSell` but neither close flag. 0 and "" omit the stays. |
| Sync.StayExamples | src/controllers/sync.controller.js:80-81 | The string "0" is truthy and gives a stay of 0; 7 gives 7. |
| Sync.AiosellSettings | src/controllers/sync.controller.js:10-12 | None exactly when no settings row has channel "aiosell". Otherwise it is the first such row of the table. |
| Sync.BasicAuth | src/controllers/sync.controller.js:15-21 | The header starts with "Basic ", and the rest decodes to the UTF-8 bytes of `user:pass`. |
| Sync.BasicAuthSplitIsAmbiguous | src/controllers/sync.controller.js:15 | User and password are joined with ':', so ("a:b", "c") and ("a", "b:c") give the same header. |
| Sync.AiosellRequest | src/controllers/sync.controller.js:10-25 | It fails with `SettingsMissing` exactly when there is no "aiosell" row. Otherwise it posts the payload as `application/json`, with a 15000 ms timeout, to `baseUrl + "/v2/cm/update/" + api_user`. |
| Sync.PushToAiosell | src/controllers/sync.controller.js:8-32 | It succeeds exactly when a settings row exists and the POST responds, and then returns the response data. Every error is `SettingsMissing` or an API error of the given request type. |
| Sync.FailureDetail | src/controllers/sync.controller.js:29 | No contract of its own: the response data as JSON when it is truthy, otherwise the error message; `PushFailureMessage` states it. |
| Sync.PushRequest | src/controllers/sync.controller.js:8-25 | Without an "aiosell" row the push fails with "Channel settings not found", whatever the POST would do. With one, the URL is `baseUrl + "/v2/cm/update/" + api_user`, and after "Basic " the header decodes to the UTF-8 bytes of `api_user:api_pass`. |
| Sync.PushFailureMessage | src/controllers/sync.controller.js:27-30 | A failed POST gives "Aiosell API Error (<type>): <detail>". The detail is the serialised response data when that is truthy, and the error message otherwise. |
| Sync.PushSuccess | src/controllers/sync.controller.js:26 | A successful POST returns the response data. |
| Base64.Encode | src/controllers/sync.controller.js:15 | The encoding of n bytes has 4·⌈n/3⌉ characters. |
| Base64.DecodeEncode | src/controllers/sync.controller.js:15 | Decoding the encoding gives the bytes back, so distinct byte sequences give distinct encodings. |
| Base64.Decode | src/controllers/sync.controller.js:15 | No contract of its own: a base64 decoder written independently of `Encode`, four characters per group; `DecodeEncode` proves it inverts `Encode`, and `BasicAuth` uses it to state the header's contents. |
| Base64.EncodeAlphabet | src/controllers/sync.controller.js:15 | Every character of an encoding is in the alphabet, except `=` in the last two places. |
| Base64.EncodeTestVectors | src/controllers/sync.controller.js:15 | "f", "fo" and "foo" encode to "Zg==", "Zm8=" and "Zm9v" (section 10 of RFC 4648). |
| Base64.EncodeCredentialsExample | src/controllers/sync.controller.js:15 | The credentials "u:p" encode to "dTpw". |
| Base64.Utf8 | src/controllers/sync.controller.js:15 | Every character takes one to four bytes. |
| Base64.Utf8OfAscii | src/controllers/sync.controller.js:15 | ASCII text is its own UTF-8 encoding, one byte per character. |
| Base64.DecodeEncodeGroup | src/controllers/sync.controller.js:15 | One, two or three bytes survive their four-character group. |
| JsNumber.ParseInt | src/controllers/sync.controller.js:50 | No contract of its own: `parseInt(String(v))`, with `undefined` giving NaN. `ParseIntOfNum` and `ParseIntOfIntToString` state what it gives back. |
| JsNumber.ToJsString | src/controllers/sync.controller.js:50 | No contract of its own: `String(v)` as `parseInt` applies it; `ParseIntOfNum` states that a number's text reads back as the number. |
| JsNumber.IntToString | src/controllers/sync.controller.js:37 | No contract of its own: the decimal text with a leading '-' for negatives. `ParseIntOfIntToString` states that `parseInt` reads it back. |
| JsNumber.ParseIntOfIntToString | src/controllers/sync.controller.js:50 | `parseInt` of the decimal text of any integer is that integer. |
| JsNumber.ParseIntOfNum | src/controllers/sync.controller.js:50 | `parseInt` of an integer value is that integer. |
| JsNumber.DigitsOfNat | src/controllers/sync.controller.js:37 | The decimal text of n has digit value n. |
| JsNumber.NatToString | src/controllers/sync.controller.js:37 | The decimal text is non-empty and all digits. |
| JsNumber.NatToStringNoLeadingZero | src/controllers/sync.controller.js:37 | The decimal text of a number of two or more digits does not start with '0'. |
| Queue.NewRetryRow | src/services/queue.service.js:2-5 | No contract of its own: the INSERTed row. `NewRetryRowContent` states its columns. |
| Queue.HeadersOrDefault | src/services/queue.service.js:2 | No contract of its own: the `headers={}` default; `NewRetryRowContent` states that the stored headers parse back to it. |
| Queue.EnqueueRetry | src/services/queue.service.js:2-6 | Validity of the id bookkeeping is preserved. The queue becomes the old queue plus exactly one new row carrying the next id, and the id counter advances by one. |
| Queue.NewRetryRowContent | src/services/queue.service.js:2-5 | The new row has `try_count` 0, the request type and endpoint verbatim, and is due at once. Payload and headers are stored as text that parses back to them, with headers `{}` (stored as "{}") when not supplied. |
| Queue.EnqueueAddsOneRow | src/services/queue.service.js:3 | Appending the row keeps every existing row in place, adds one row whose id no other row has, and keeps ids distinct and below the counter. |
| Worker.SelectDue | src/services/worker.js:6 | At most 10 rows are selected. `SelectDueSpec` states which ones. |
| Worker.SortByTime | src/services/worker.js:6 | No contract of its own: `ORDER BY next_try_at`, stable; `SortByTimeSpec` and `SortByTimeDistinct` state it. |
| Worker.Due | src/services/worker.js:6 | A row is due exactly when it is in the table and `next_try_at <= now`. |
| Worker.SelectDueSpec | src/services/worker.js:6 | The selection has min(10, due) rows, each a due row of the table, earliest first. No due row left out is earlier than a selected one, and rows are left out only when more than 10 are due. No row is selected twice. |
| Worker.SelectDueMembers | src/services/worker.js:6 | Every selected row is a due row of the table. |
| Worker.SelectDueEarliest | src/services/worker.js:6 | A due row is left out only when more than 10 are due, and then it is no earlier than any selected row. |
| Worker.SelectIsPrefix | src/services/worker.js:6 | The selection is the first min(10, due) rows of a sorted permutation of the due rows. |
| Worker.SortByTimeSpec | src/services/worker.js:6 | Ordering by `next_try_at` gives a sorted permutation of the rows. |
| Worker.SortByTimeDistinct | src/services/worker.js:6 | Ordering by `next_try_at` keeps ids distinct. |
| Worker.InsertPermutes | src/services/worker.js:6 | Inserting a row adds exactly that row. |
| Worker.InsertSorted | src/services/worker.js:6 | Inserting into a sorted list keeps it sorted. |
| Worker.DecodeRow | src/services/worker.js:9-11 | None exactly when the payload or the headers text does not parse. A decoded row posts to its own endpoint the value its payload parses to. |
| Worker.HeadersText | src/services/worker.js:11 | No contract of its own: `r.headers || '{}'`; `MissingHeadersAreEmpty` states it. |
| Worker.Try | src/services/worker.js:8-12 | A row whose payload or headers do not parse fails without a request. |
| Worker.EnqueuedRowDecodes | src/services/worker.js:9-11 | A row written by `enqueueRetry` decodes to a POST of the same endpoint, payload and headers (`{}` when none were given). |
| Worker.MissingHeadersAreEmpty | src/services/worker.js:11 | Missing or empty stored headers are read as `{}`. |
| Worker.BackoffBounds | src/services/worker.js:19 | After a failure of a row that had failed n times, the delay is between 2 and 3600 s. It is 2^(n+1) for n < 11 and 3600 from n = 11 on. |
| Worker.BackoffDelay | src/services/worker.js:19 | No contract of its own: `LEAST(POWER(2, k), 3600)`; `BackoffBounds` and `BackoffExamples` state it. |
| Worker.Pow2 | src/services/worker.js:19 | No contract of its own: `POWER(2, k)` on whole numbers; `Pow2Grows` states it is monotone, and `BackoffBounds` uses it. |
| Worker.BackoffExamples | src/services/worker.js:19 | The delays after the first four failures are 2, 4, 8 and 16 s, and after the twelfth 3600 s. |
| Worker.Pow2Grows | src/services/worker.js:19 | Powers of two grow with the exponent. |
| Worker.Rescheduled | src/services/worker.js:19 | A failed row gets one more try and is due again between 2 s and an hour from `now`. Every other column is kept. |
| Worker.Reschedule | src/services/worker.js:19 | The UPDATE keeps the table's length, gives every row with the id one more try and the backed-off time, and leaves every other row as it was. |
| Worker.DeleteId | src/services/worker.js:14 | The DELETE keeps exactly the rows with another id and never adds one. |
| Worker.DeleteKeepsValid | src/services/worker.js:14 | The DELETE keeps exactly the rows with another id, and ids stay distinct and below the counter. |
| Worker.RescheduleKeepsValid | src/services/worker.js:19 | The UPDATE keeps ids distinct and below the counter. |
| Worker.Step | src/services/worker.js:8-21 | One iteration never grows the queue, and the log only grows, by at most one entry. |
| Worker.CycleState | src/services/worker.js:7-22 | Over the whole loop the queue never grows, and the old log stays a prefix of the new one, which has at most one more entry per row. |
| Worker.HandleRow | src/services/worker.js:8-21 | One pass of the loop's body leaves the tables as one `Step` of the reference and keeps the queue's ids valid. |
| Worker.ProcessNext | src/services/worker.js:5-23 | Validity of the id bookkeeping is preserved. Queue and log equal the loop's fold over the selected rows in selection order: each delivered row is deleted and logged, and each failed row is rescheduled. |
| Worker.CycleMatchesReference | src/services/worker.js:7-22 | For distinct selected rows of a table with distinct ids, the loop ends with the reference queue (each tried row gone if delivered and rescheduled if not, every other row unchanged). The log grows by exactly one success entry per delivered row, in order. |
| Worker.StepMatchesReference | src/services/worker.js:8-21 | One iteration from the reference state gives the reference state with that row tried too, and appends its success entry when it is delivered. |
| Worker.AfterRun | src/services/worker.js:7-22 | No contract of its own: the independent reference for one run, a single pass over the table that drops the delivered selected rows and reschedules the failed ones in place. `CycleMatchesReference` proves the loop equal to it, and `AfterRunOutcome`, `AfterRunKeeps`, `AfterRunRemoves` and `AfterRunFrom` state what it keeps. |
| Worker.AfterRunOutcome | src/services/worker.js:7-22 | In the reference queue, rows not tried are untouched, delivered rows' ids are gone, failed rows are present rescheduled, and every row comes from the table. |
| Worker.ProcessNextOutcome | src/services/worker.js:6-22 | After one run: unselected rows are untouched; a delivered row's id is gone; a failed row, including one whose JSON does not parse, is present with one more try and `now + delay`; no row is invented; the old log is a prefix of the new one. |
| Worker.DeleteAfterRun | src/services/worker.js:14 | Deleting a delivered row's id after the others were tried is the reference with that row tried too. |
| Worker.RescheduleAfterRun | src/services/worker.js:19 | Rescheduling a failed row's id after the others were tried is the reference with that row tried too. |
| Worker.NothingTried | src/services/worker.js:7 | A run that tries nothing leaves the queue as it was. |
| Worker.AfterRunFrom | src/services/worker.js:7-22 | Every row after a run is a row of the table before it, possibly rescheduled. |
| Worker.AfterRunKeeps | src/services/worker.js:7-22 | Rows not tried stay as they were, and rows whose try failed stay rescheduled. |
| Worker.AfterRunRemoves | src/services/worker.js:14 | With distinct ids, no row with a delivered row's id remains. |
| Worker.SuccessLogsCount | src/services/worker.js:15-17 | The run appends exactly as many entries as rows were delivered. |
| Worker.DeliveredAtSnoc | src/services/worker.js:7-17 | One more selected row adds its position to the delivered positions exactly when it is delivered. |
| Worker.SuccessLogsEntries | src/services/worker.js:15-17 | Every appended entry is a "retry success" entry for channel "aiosell" with a NULL property id. |
| Worker.SuccessLog | src/services/worker.js:15-17 | No contract of its own: the `channel_logs` row of a delivery; `SuccessLogsEntries` states its columns. |
| Worker.CleanupZombies | src/services/worker.js:25-33 | Webhook logs keep the entries at most 30 days old unless that delete fails. Retry rows keep those at most 7 days old unless either delete fails, since a failed first delete skips the second. Errors never escape, and id validity is preserved. |
| Worker.RecentLogs | src/services/worker.js:27 | No contract of its own: the webhook log entries the DELETE keeps. `CleanupThresholds` states the cut-off. |
| Worker.RecentRetries | src/services/worker.js:28 | No contract of its own: the retry rows the DELETE keeps. `CleanupThresholds` states the cut-off. |
| Worker.CleanupThresholds | src/services/worker.js:27-28 | The cut-offs are strict: an entry is removed exactly when it is older than 30 days (logs) or 7 days (retries), and one created exactly at the cut-off stays. When nothing is old, nothing is removed. |
| Seqs.Filter | src/services/worker.js:27-28 | A DELETE keeps exactly the rows that do not match it, never adds rows, and changes nothing when no row matches. |

## Left out

- **HTTP.** The HTTP calls made with axios are parameters: the POST's
  outcome in `Sync.PushToAiosell`, and a function from the row id and the
  POST to its outcome in `Worker.ProcessNext`. Timeouts and statuses
  are not modelled beyond "delivered or thrown".
- Express routing and server start-up (`src/server.js`,
  `src/routes/webhooks.routes.js`) are not part of this model.
- Configuration reading (`src/config.js`) and connection pooling
  (`src/services/db.service.js`) are not part of this model. `baseUrl` and
  the secret are parameters.
- Console logging is left out: it has no effect on state.
- The `setInterval` scheduling is left out. Only a single run of
  `processNext` and of `cleanupZombies` is modelled.
- Concurrency is left out: one sequential worker is assumed, and two
  webhook requests do not interleave.
- **Database failures.** These are modelled only where the code handles
  them:
  - the audit insert, whose failure is swallowed;
  - the two cleanup deletes.

  Every other statement is assumed to succeed.
- Worker.ProcessNext: does not model a DELETE or log INSERT that fails
  inside the loop's `try`. After a failed DELETE the row stays and the
  catch reschedules it, so a delivered row is posted again on a later run.
  After a failed INSERT the row is already gone, the catch's UPDATE matches
  no row, and the delivery has no log entry.
- Webhook.HandleChannelManagerBooking: does not model failures of the
  booking SELECT, INSERT or UPDATE statements. Those give a 500 reply.
- **Schema defaults.** The column defaults are taken from how the code uses
  them:
  - `next_try_at` and `created_at` are the insertion time;
  - `id` is auto-increment;
  - string columns compare under a binary collation, so `ota_room_code = ?`,
    `reservation_id = ?` and `channel = 'aiosell'` are exact matches when
    the parameter is a string. Under MySQL's default collations, which
    ignore case and trailing spaces, a room code "dlx " would match the
    mapping "DLX"; in the model it does not (`Db.RoomIdForCode`,
    `Db.CodeForRoom`, `Webhook.Upsert`, `Webhook.StoredStay`,
    `Sync.AiosellSettings`).

  The schema is not part of these files.
- Webhook.RoomsOf: a `null` element of `rooms` makes `room.roomCode` throw
  a TypeError in JavaScript, but the model treats such an element as an
  unmapped entry.
- Webhook.RoomsOf: a non-string room code, such as a number, may be
  coerced by MySQL's comparison. The model lets only string codes match.
- Webhook.DayOf: dates are day numbers, so date-string parsing and
  `toISOString` are left out, and so are numbers read as milliseconds.
- Webhook.DayOf: `true` is 1 ms after midnight of 1970-01-01 in JavaScript,
  and the model rounds it down to day 0. The night loop runs while
  `d < checkOut`, so a `true` check-out after a check-in at midnight on or
  before 1970-01-01 also processes the night of 1970-01-01 in the source.
  In the model that night is outside the stay. For example, a 'book' with
  check-in `null`, check-out `true` and one mapped room takes one unit off
  that room's 1970-01-01 row in the source, and changes nothing here.
- Webhook.Upsert and Webhook.StoredStay: reservation keys match only when
  they are the same JSON value. MySQL compares a number parameter with a
  string column numerically, so a 'book' with `bookingId: 123` and a later
  'cancel' with `bookingId: "123"` update one row in the source, and two
  rows here. Leading zeros and trailing text ("0123", "123abc") match 123
  in MySQL too. This coercion is not modelled.
- Db.RoomIdForCode, Db.CodeForRoom and Sync.AiosellSettings: `mapping[0]`
  and `LIMIT 1` without `ORDER BY` are modelled as the first row in table
  order. SQL leaves that order unspecified. On a one-to-one mapping table,
  and with a single "aiosell" settings row, the first row is the only one.
- Webhook.ModifyIsNetZero: assumes a DATE column reads back as the same
  day that was stored. mysql2 returns a DATE as local midnight and
  `toISOString` writes UTC, so east of UTC the stay read back is one day
  earlier and a 'modify' is not net zero.
- **Retry timestamps.** Worker timestamps are seconds, and `INTERVAL n DAY`
  is read as n·86400 seconds. The database clock `NOW()` is read once per
  run.
- Worker.SelectDue: rows due at the same second come out in table order.
  SQL leaves their order unspecified.
- Sync.BuildRatesPayload: the price is kept as the input `parseFloat` is
  applied to, because floating point is not modelled.
- JsNumber.ParseInt: JSON numbers are integers here, so fractional
  numbers and exponent forms are not modelled.
- JsNumber.ParseIntOfNum and JsNumber.ParseIntOfIntToString: the round trip
  holds in JavaScript only for |n| < 10^21. From there on `String(n)` has
  an exponent ("1e+21"), and `parseInt` of it gives 1.
- **JSON text.** `JSON.stringify` and `JSON.parse` are an uninterpreted
  pair. Their text format, key order and the `undefined` cases are not
  modelled.
- Sync.ReadData: an absent `payloadJson` (`undefined`) is not represented.
  The builders take a JSON value.
- Who calls `enqueueRetry` and the builders is outside these files, and so
  is any sync-queue processor.
