/**
 * The booking reconciler: the channel manager's booking webhook. It checks the
 * shared secret, writes a best-effort audit row, upserts the booking by
 * reservation id and then walks the nights of the stay, moving the available
 * count of every existing inventory row of a mapped room by one per room entry.
 */
module Webhook {
  import opened Wrappers
  import opened Json
  import opened Db

  const LogEndpoint := "/webhook/channel-manager"
  const LoggedStatus := 200
  const BookingChannel := "channel_manager"
  const ProcessedMessage := "Booking processed and inventory updated"
  const UnauthorizedMessage := "Unauthorized"
  /** What V8 throws when `for (const room of rooms)` meets a value that is not iterable. */
  const NotIterableMessage := "rooms is not iterable"

  /** The HTTP status and the JSON body `{success, message | error}`. */
  datatype Response = Response(status: int, success: bool, text: string)

  /** A secret is configured (non-empty) and the header does not carry it. */
  predicate Unauthorized(secret: Option<string>, token: Option<string>) {
    secret.Some? && secret.value != "" && token != Some(secret.value)
  }

  /** `payload.bookingId || payload.reservationId` */
  function ReservationId(payload: Value): Option<Value> {
    Or(Field(payload, "bookingId"), Field(payload, "reservationId"))
  }

  /** `payload.action || 'book'` */
  function Action(payload: Value): Value {
    OrElse(Field(payload, "action"), Str("book"))
  }

  /** The key the booking is stored and looked up under. */
  function ReservationKey(payload: Value): Option<Value> {
    SqlParam(ReservationId(payload))
  }

  /**
   * The booking id when it is truthy and the reservation id otherwise (absent,
   * `null`, `false`, 0 and "" all fall back); the action when it is truthy
   * and "book" otherwise.
   */
  lemma ReservationIdAndActionDefaults(payload: Value, id: Value)
    requires payload.Obj?
    ensures Truthy(Field(payload, "bookingId")) ==> ReservationId(payload) == Field(payload, "bookingId")
    ensures !Truthy(Field(payload, "bookingId")) ==> ReservationId(payload) == Field(payload, "reservationId")
    ensures Truthy(Field(payload, "action")) ==> Action(payload) == Field(payload, "action").value
    ensures !Truthy(Field(payload, "action")) ==> Action(payload) == Str("book")
    ensures Truthy(Some(id)) ==> ReservationId(Value.Obj(payload.fields["bookingId" := id])) == Some(id)
    ensures ReservationId(Value.Obj(payload.fields - {"bookingId"})) == Field(payload, "reservationId")
    ensures ReservationId(Value.Obj(payload.fields["bookingId" := Null])) == Field(payload, "reservationId")
    ensures ReservationId(Value.Obj(payload.fields["bookingId" := Bool(false)])) == Field(payload, "reservationId")
    ensures ReservationId(Value.Obj(payload.fields["bookingId" := Num(0)])) == Field(payload, "reservationId")
    ensures ReservationId(Value.Obj(payload.fields["bookingId" := Str("")])) == Field(payload, "reservationId")
    ensures Action(Value.Obj(payload.fields - {"action"})) == Str("book")
    ensures Action(Value.Obj(payload.fields["action" := Str("")])) == Str("book")
    ensures Action(Value.Obj(payload.fields["action" := Str("cancel")])) == Str("cancel")
  {
  }

  /**
   * A date, as `new Date(v)` sees a payload value. Dates travel as day numbers
   * (`Num(day)`). `null`, `false` and `true` convert to 0 and 1 milliseconds,
   * a time on day 0 (1970-01-01), and all three are taken as day 0 here.
   * `undefined` (None) and every other value are an Invalid Date, with which
   * every comparison is false.
   */
  function DayOf(v: Option<Value>): Option<int> {
    match v
    case Some(Num(n)) => Some(n)
    case Some(Null) => Some(0)
    case Some(Bool(_)) => Some(0)
    case _ => None
  }

  /** A date, as `new Date(v)` sees a DATE column read back: NULL reads as `null`, day 0. */
  function StoredDayOf(v: Option<Value>): Option<int> {
    if v.None? then Some(0) else DayOf(v)
  }

  /** A date the payload carries reads back from its column as the same day. */
  lemma StoredDayOfParam(v: Option<Value>)
    requires v.Some?
    ensures StoredDayOf(SqlParam(v)) == DayOf(v)
  {
  }

  /** What `for (const room of payload.rooms || [])` iterates over: each entry's room code. */
  datatype RoomList = Entries(codes: seq<Option<string>>) | NotIterable

  /** `room.roomCode` when it is a string; anything else matches no mapping row. */
  function RoomCodeOf(item: Value): Option<string> {
    match Field(item, "roomCode")
    case Some(Str(c)) => Some(c)
    case _ => None
  }

  /**
   * A missing or falsy `rooms` iterates over nothing; an array gives one entry
   * per element, carrying that element's room code; a string gives one entry
   * per character, none with a room code; only a truthy value that is neither
   * an array nor a string is not iterable.
   */
  function RoomsOf(payload: Value): (r: RoomList)
    ensures !Truthy(Field(payload, "rooms")) ==> r == Entries([])
    ensures r.NotIterable? ==> Truthy(Field(payload, "rooms")) && !Field(payload, "rooms").value.Arr?
                                 && !Field(payload, "rooms").value.Str?
    ensures Field(payload, "rooms").Some? && Field(payload, "rooms").value.Arr? ==>
              && r.Entries? && |r.codes| == |Field(payload, "rooms").value.items|
              && forall i :: 0 <= i < |r.codes| ==> r.codes[i] == RoomCodeOf(Field(payload, "rooms").value.items[i])
    ensures Field(payload, "rooms").Some? && Field(payload, "rooms").value.Str? ==>
              && r.Entries? && |r.codes| == |Field(payload, "rooms").value.s|
              && forall i :: 0 <= i < |r.codes| ==> r.codes[i].None?
  {
    match OrElse(Field(payload, "rooms"), Arr([]))
    case Arr(items) =>
      var codes := seq(|items|, i requires 0 <= i < |items| => RoomCodeOf(items[i]));
      assert items == [] ==> codes == [];
      Entries(codes)
    case Str(s) => Entries(seq(|s|, _ => None))  // characters: no `roomCode` property
    case _ => NotIterable
  }

  function CodesOf(rooms: RoomList): seq<Option<string>> {
    if rooms.Entries? then rooms.codes else []
  }

  /**
   * The row the handler writes for this payload (column `reservation_id`
   * first): the key is never a JSON `null`, which is sent as NULL; a falsy
   * `cmBookingId` is stored as NULL; the dates are the payload's, as query
   * parameters; the status is the action; and with a lawful codec the guest,
   * rooms and price breakdown columns parse back to the payload's values (or
   * to `{}`, `[]` and `{}` when those are falsy), and the raw payload column
   * to the payload itself.
   */
  function BookingData(json: Codec, payload: Value): (r: BookingRow)
    ensures r.reservationId.Some? ==> !r.reservationId.value.Null?
    ensures r.cmBookingId.None? <==> !Truthy(Field(payload, "cmBookingId"))
    ensures r.channel == BookingChannel && r.status == Action(payload)
    ensures r.checkin == SqlParam(Field(payload, "checkInDate"))
    ensures r.checkout == SqlParam(Field(payload, "checkOutDate"))
    ensures Lawful(json) ==> json.parse(r.guest) == Some(OrElse(Field(payload, "guest"), EmptyObject))
    ensures Lawful(json) ==> json.parse(r.rooms) == Some(OrElse(Field(payload, "rooms"), Arr([])))
    ensures Lawful(json) ==> json.parse(r.priceBreakdown) == Some(OrElse(Field(payload, "priceBreakdown"), EmptyObject))
    ensures Lawful(json) ==> json.parse(r.rawPayload) == Some(payload)
  {
    BookingRow(
      ReservationKey(payload),
      SqlParam(Some(OrElse(Field(payload, "cmBookingId"), Null))),
      BookingChannel,
      SqlParam(Field(payload, "checkInDate")),
      SqlParam(Field(payload, "checkOutDate")),
      json.stringify(OrElse(Field(payload, "guest"), EmptyObject)),
      json.stringify(OrElse(Field(payload, "rooms"), Arr([]))),
      json.stringify(OrElse(Field(payload, "priceBreakdown"), EmptyObject)),
      Action(payload),
      json.stringify(payload))
  }

  predicate HasKey(rows: seq<BookingRow>, key: Option<Value>) {
    exists i :: 0 <= i < |rows| && SqlEquals(rows[i].reservationId, key)
  }

  /**
   * `SELECT id ... WHERE reservation_id = ?` followed by the UPDATE of every
   * matching row, or by an INSERT when nothing matched.
   */
  function Upsert(rows: seq<BookingRow>, data: BookingRow): (after: seq<BookingRow>)
    ensures |after| == if HasKey(rows, data.reservationId) then |rows| else |rows| + 1
    ensures data in after
    ensures forall i :: 0 <= i < |after| && SqlEquals(after[i].reservationId, data.reservationId) ==> after[i] == data
    ensures forall i :: 0 <= i < |rows| && !SqlEquals(rows[i].reservationId, data.reservationId) ==> after[i] == rows[i]
  {
    if HasKey(rows, data.reservationId) then
      var after := seq(|rows|, i requires 0 <= i < |rows| =>
        if SqlEquals(rows[i].reservationId, data.reservationId) then data else rows[i]);
      UpdatedRowIsData(rows, data, after);
      after
    else
      assert (rows + [data])[|rows|] == data;
      rows + [data]
  }

  lemma UpdatedRowIsData(rows: seq<BookingRow>, data: BookingRow, after: seq<BookingRow>)
    requires HasKey(rows, data.reservationId)
    requires |after| == |rows|
    requires forall i :: 0 <= i < |rows| ==>
      after[i] == if SqlEquals(rows[i].reservationId, data.reservationId) then data else rows[i]
    ensures data in after
  {
    var i :| 0 <= i < |rows| && SqlEquals(rows[i].reservationId, data.reservationId);
    assert after[i] == data;
  }

  /** The positions of the rows stored under `key`. */
  ghost function RowsUnder(rows: seq<BookingRow>, key: Option<Value>): set<int> {
    set i | 0 <= i < |rows| && SqlEquals(rows[i].reservationId, key)
  }

  /** No two rows share a non-NULL reservation id. */
  predicate UniqueKeys(rows: seq<BookingRow>) {
    forall i, j :: 0 <= i < j < |rows| ==> !SqlEquals(rows[i].reservationId, rows[j].reservationId)
  }

  /**
   * With unique keys before, keys stay unique after the upsert, and a
   * non-NULL key is then carried by exactly one row; a NULL key matches no
   * row at all, so such an event always inserts.
   */
  lemma UpsertStoresOneRow(rows: seq<BookingRow>, data: BookingRow)
    requires UniqueKeys(rows)
    ensures UniqueKeys(Upsert(rows, data))
    ensures data.reservationId.Some? ==> |RowsUnder(Upsert(rows, data), data.reservationId)| == 1
    ensures data.reservationId.None? ==> RowsUnder(Upsert(rows, data), data.reservationId) == {}
  {
    var after := Upsert(rows, data);
    var key := data.reservationId;
    if key.Some? {
      var k :| 0 <= k < |after| && after[k] == data;
      forall i | i in RowsUnder(after, key)
        ensures i == k
      {
      }
      assert RowsUnder(after, key) == {k};
    }
  }

  /** The first stored row under `key`: its stay as day numbers. */
  function StoredStay(rows: seq<BookingRow>, key: Option<Value>): Option<(Option<int>, Option<int>)> {
    if rows == [] then None
    else if SqlEquals(rows[0].reservationId, key) then Some((StoredDayOf(rows[0].checkin), StoredDayOf(rows[0].checkout)))
    else StoredStay(rows[1..], key)
  }

  /** Whatever row under `key` comes first, it carries the stay every such row carries. */
  lemma {:induction false} StoredStayOfUniform(rows: seq<BookingRow>, key: Option<Value>, data: BookingRow)
    requires exists i :: 0 <= i < |rows| && SqlEquals(rows[i].reservationId, key)
    requires forall i :: 0 <= i < |rows| && SqlEquals(rows[i].reservationId, key) ==> rows[i] == data
    ensures StoredStay(rows, key) == Some((StoredDayOf(data.checkin), StoredDayOf(data.checkout)))
  {
    if !SqlEquals(rows[0].reservationId, key) {
      var i :| 0 <= i < |rows| && SqlEquals(rows[i].reservationId, key);
      assert rows[1..][i - 1] == rows[i];
      StoredStayOfUniform(rows[1..], key, data);
    }
  }

  // ---------------------------------------------------------------------
  // Inventory deltas

  /** `processRange`'s operation: 'deduct' subtracts one, 'add' adds one. */
  datatype Op = Deduct | Add

  function Delta(op: Op): int {
    if op == Deduct then -1 else 1
  }

  /** `n` updates of one row under `op`: `n * Delta(op)`. */
  function Signed(op: Op, n: nat): int {
    if op == Deduct then -(n as int) else n
  }

  /** The entry's code has a mapping row and the first such row names `room`. */
  predicate Resolves(mappings: seq<RoomMapping>, code: Option<string>, room: int) {
    code.Some? && RoomIdForCode(mappings, code.value) == Some(room)
  }

  /** How many room entries resolve to `room`: each one counts as quantity 1. */
  function Tally(mappings: seq<RoomMapping>, codes: seq<Option<string>>, room: int): nat {
    if codes == [] then 0
    else Tally(mappings, codes[..|codes| - 1], room) + (if Resolves(mappings, codes[|codes| - 1], room) then 1 else 0)
  }

  /** The night `day` lies in `[checkIn, checkOut)`; an Invalid Date bounds no night. */
  predicate InStay(day: int, checkIn: Option<int>, checkOut: Option<int>) {
    checkIn.Some? && checkOut.Some? && checkIn.value <= day < checkOut.value
  }

  predicate StayNonEmpty(checkIn: Option<int>, checkOut: Option<int>) {
    checkIn.Some? && checkOut.Some? && checkIn.value < checkOut.value
  }

  /**
   * The inventory once every night of the stay has been processed: each
   * existing row of a night in the stay moves by `Delta(op)` per entry that
   * resolves to its room; every other row keeps its count. No row is created.
   */
  function Reconciled(inv: map<(int, int), int>, mappings: seq<RoomMapping>, codes: seq<Option<string>>,
                      checkIn: Option<int>, checkOut: Option<int>, op: Op): (r: map<(int, int), int>)
    ensures r.Keys == inv.Keys
    ensures forall k :: k in inv && !InStay(k.1, checkIn, checkOut) ==> r[k] == inv[k]
    ensures forall k :: k in inv && Tally(mappings, codes, k.0) == 0 ==> r[k] == inv[k]
  {
    map k | k in inv :: if InStay(k.1, checkIn, checkOut) then inv[k] + Signed(op, Tally(mappings, codes, k.0)) else inv[k]
  }

  /** The inventory after a step, and the message of what was thrown, if anything. */
  datatype Reconciliation = Reconciliation(inventory: map<(int, int), int>, error: Option<string>)

  /** `processRange(checkIn, checkOut, op)`: a non-iterable room list throws at the first night. */
  function RangeEffect(inv: map<(int, int), int>, mappings: seq<RoomMapping>, rooms: RoomList,
                       checkIn: Option<int>, checkOut: Option<int>, op: Op): (r: Reconciliation)
    ensures r.inventory.Keys == inv.Keys
    ensures r.error.Some? ==> r.error == Some(NotIterableMessage) && r.inventory == inv
  {
    match rooms
    case NotIterable =>
      Reconciliation(inv, if StayNonEmpty(checkIn, checkOut) then Some(NotIterableMessage) else None)
    case Entries(codes) => Reconciliation(Reconciled(inv, mappings, codes, checkIn, checkOut, op), None)
  }

  /**
   * `updateLocalInventory(payload, action)` against the bookings table as it
   * is when it runs, that is after the upsert: 'book' deducts the stay,
   * 'cancel' adds it back, 'modify' adds back the stay stored under the
   * reservation key (if a row exists) and then deducts the payload's stay; any
   * other action changes nothing.
   */
  function InventoryEffect(inv: map<(int, int), int>, mappings: seq<RoomMapping>, bookings: seq<BookingRow>,
                           payload: Value, action: Value): (r: Reconciliation)
    ensures r.inventory.Keys == inv.Keys
    ensures r.error.Some? ==> r.error == Some(NotIterableMessage)
  {
    var rooms := RoomsOf(payload);
    var checkIn := DayOf(Field(payload, "checkInDate"));
    var checkOut := DayOf(Field(payload, "checkOutDate"));
    if action == Str("book") then RangeEffect(inv, mappings, rooms, checkIn, checkOut, Deduct)
    else if action == Str("cancel") then RangeEffect(inv, mappings, rooms, checkIn, checkOut, Add)
    else if action == Str("modify") then
      var released :=
        match StoredStay(bookings, ReservationKey(payload))
        case None => Reconciliation(inv, None)
        case Some(stay) => RangeEffect(inv, mappings, rooms, stay.0, stay.1, Add);
      if released.error.Some? then released
      else RangeEffect(released.inventory, mappings, rooms, checkIn, checkOut, Deduct)
    else Reconciliation(inv, None)
  }

  // ---------------------------------------------------------------------
  // Properties of the reconciliation

  /** Adding back what was deducted, over the same stay and entries, restores every row. */
  lemma AddUndoesDeduct(inv: map<(int, int), int>, mappings: seq<RoomMapping>, codes: seq<Option<string>>,
                        checkIn: Option<int>, checkOut: Option<int>)
    ensures Reconciled(Reconciled(inv, mappings, codes, checkIn, checkOut, Deduct), mappings, codes, checkIn, checkOut, Add) == inv
    ensures Reconciled(Reconciled(inv, mappings, codes, checkIn, checkOut, Add), mappings, codes, checkIn, checkOut, Deduct) == inv
  {
  }

  /**
   * 'book' moves each existing row of a night in `[checkIn, checkOut)` down by
   * the number of entries resolving to its room; the checkout night, nights
   * outside the stay and rows of other rooms keep their counts, and no row is
   * created.
   */
  lemma BookDeductsStay(inv: map<(int, int), int>, mappings: seq<RoomMapping>, bookings: seq<BookingRow>, payload: Value)
    requires RoomsOf(payload).Entries?
    ensures var r := InventoryEffect(inv, mappings, bookings, payload, Str("book"));
      var checkIn, checkOut := DayOf(Field(payload, "checkInDate")), DayOf(Field(payload, "checkOutDate"));
      && r.error.None?
      && r.inventory.Keys == inv.Keys
      && forall k :: k in inv ==>
           r.inventory[k] == if InStay(k.1, checkIn, checkOut)
                             then inv[k] - Tally(mappings, RoomsOf(payload).codes, k.0)
                             else inv[k]
  {
  }

  /** 'cancel' applies exactly the opposite delta of 'book'. */
  lemma CancelAddsStay(inv: map<(int, int), int>, mappings: seq<RoomMapping>, bookings: seq<BookingRow>, payload: Value)
    requires RoomsOf(payload).Entries?
    ensures var r := InventoryEffect(inv, mappings, bookings, payload, Str("cancel"));
      var checkIn, checkOut := DayOf(Field(payload, "checkInDate")), DayOf(Field(payload, "checkOutDate"));
      && r.error.None?
      && r.inventory.Keys == inv.Keys
      && forall k :: k in inv ==>
           r.inventory[k] == if InStay(k.1, checkIn, checkOut)
                             then inv[k] + Tally(mappings, RoomsOf(payload).codes, k.0)
                             else inv[k]
  {
  }

  /** A 'cancel' carrying the dates and rooms of an earlier 'book' restores the inventory. */
  lemma CancelUndoesBook(inv: map<(int, int), int>, mappings: seq<RoomMapping>,
                         bookings1: seq<BookingRow>, booked: Value, bookings2: seq<BookingRow>, cancelled: Value)
    requires RoomsOf(cancelled) == RoomsOf(booked)
    requires Field(cancelled, "checkInDate") == Field(booked, "checkInDate")
    requires Field(cancelled, "checkOutDate") == Field(booked, "checkOutDate")
    ensures var afterBook := InventoryEffect(inv, mappings, bookings1, booked, Str("book"));
      InventoryEffect(afterBook.inventory, mappings, bookings2, cancelled, Str("cancel")).inventory == inv
  {
    var checkIn, checkOut := DayOf(Field(booked, "checkInDate")), DayOf(Field(booked, "checkOutDate"));
    if RoomsOf(booked).Entries? {
      AddUndoesDeduct(inv, mappings, RoomsOf(booked).codes, checkIn, checkOut);
    }
  }

  /** After the upsert, the stay read back under a non-NULL key is the one the payload's row stored. */
  lemma ReadBackIsNewStay(json: Codec, bookings: seq<BookingRow>, payload: Value)
    requires ReservationKey(payload).Some?
    ensures var data := BookingData(json, payload);
      StoredStay(Upsert(bookings, data), ReservationKey(payload)) == Some((StoredDayOf(data.checkin), StoredDayOf(data.checkout)))
  {
    var data := BookingData(json, payload);
    var after := Upsert(bookings, data);
    var key := ReservationKey(payload);
    assert SqlEquals(data.reservationId, key);
    assert exists i :: 0 <= i < |after| && SqlEquals(after[i].reservationId, key) by {
      if HasKey(bookings, key) {
        var i :| 0 <= i < |bookings| && SqlEquals(bookings[i].reservationId, key);
        assert SqlEquals(after[i].reservationId, key);
      } else {
        assert after[|bookings|] == data;
      }
    }
    StoredStayOfUniform(after, key, data);
  }

  /**
   * Because the booking is saved before the inventory is touched, 'modify'
   * reads back its own new stay as the old one: it adds back and deducts the
   * same nights, so (for a non-NULL reservation key and a payload carrying
   * both dates) the inventory ends exactly where it started, whatever the
   * stay before.
   */
  lemma ModifyIsNetZero(json: Codec, inv: map<(int, int), int>, mappings: seq<RoomMapping>,
                        bookings: seq<BookingRow>, payload: Value)
    requires ReservationKey(payload).Some?
    requires Field(payload, "checkInDate").Some? && Field(payload, "checkOutDate").Some?
    ensures InventoryEffect(inv, mappings, Upsert(bookings, BookingData(json, payload)), payload, Str("modify")).inventory == inv
  {
    ReadBackIsNewStay(json, bookings, payload);
    StoredDayOfParam(Field(payload, "checkInDate"));
    StoredDayOfParam(Field(payload, "checkOutDate"));
    var checkIn, checkOut := DayOf(Field(payload, "checkInDate")), DayOf(Field(payload, "checkOutDate"));
    if RoomsOf(payload).Entries? {
      AddUndoesDeduct(inv, mappings, RoomsOf(payload).codes, checkIn, checkOut);
    }
  }

  /**
   * A 'modify' whose payload has no check-in date stores NULL, reads it back
   * as 1970-01-01, and so adds back every night from then to the check-out,
   * while the deduction over the Invalid Date changes nothing.
   */
  lemma ModifyWithoutCheckIn(json: Codec, inv: map<(int, int), int>, mappings: seq<RoomMapping>,
                             bookings: seq<BookingRow>, payload: Value)
    requires ReservationKey(payload).Some?
    requires Field(payload, "checkInDate").None?
    ensures InventoryEffect(inv, mappings, Upsert(bookings, BookingData(json, payload)), payload, Str("modify"))
         == RangeEffect(inv, mappings, RoomsOf(payload), Some(0), StoredDayOf(SqlParam(Field(payload, "checkOutDate"))), Add)
  {
    ReadBackIsNewStay(json, bookings, payload);
    var released := RangeEffect(inv, mappings, RoomsOf(payload), Some(0), StoredDayOf(SqlParam(Field(payload, "checkOutDate"))), Add);
    var checkOut := DayOf(Field(payload, "checkOutDate"));
    if released.error.None? {
      assert RangeEffect(released.inventory, mappings, RoomsOf(payload), None, checkOut, Deduct) == released;
    }
  }

  /**
   * A 'modify' whose payload has a check-in but no check-out stores a NULL
   * check-out, reads it back as 1970-01-01, and so adds back the nights from
   * the check-in up to then (none for a check-in on or after 1970-01-01),
   * while the deduction over the Invalid Date changes nothing.
   */
  lemma ModifyWithoutCheckOut(json: Codec, inv: map<(int, int), int>, mappings: seq<RoomMapping>,
                              bookings: seq<BookingRow>, payload: Value)
    requires ReservationKey(payload).Some?
    requires Field(payload, "checkOutDate").None?
    ensures InventoryEffect(inv, mappings, Upsert(bookings, BookingData(json, payload)), payload, Str("modify"))
         == RangeEffect(inv, mappings, RoomsOf(payload), StoredDayOf(SqlParam(Field(payload, "checkInDate"))), Some(0), Add)
    ensures forall d :: d >= 0 && DayOf(Field(payload, "checkInDate")) == Some(d) ==>
              InventoryEffect(inv, mappings, Upsert(bookings, BookingData(json, payload)), payload, Str("modify"))
                == Reconciliation(inv, None)
  {
    ReadBackIsNewStay(json, bookings, payload);
    var storedIn := StoredDayOf(SqlParam(Field(payload, "checkInDate")));
    var released := RangeEffect(inv, mappings, RoomsOf(payload), storedIn, Some(0), Add);
    var checkIn := DayOf(Field(payload, "checkInDate"));
    if released.error.None? {
      assert RangeEffect(released.inventory, mappings, RoomsOf(payload), checkIn, None, Deduct) == released;
    }
    if Field(payload, "checkInDate").Some? {
      StoredDayOfParam(Field(payload, "checkInDate"));
      if checkIn.Some? && checkIn.value >= 0 {
        EmptyStayChangesNothing(inv, mappings, RoomsOf(payload), storedIn, Some(0), Add);
      }
    }
  }

  /** With a NULL reservation key no stored row is found, and 'modify' deducts like 'book'. */
  lemma ModifyWithoutKeyIsBook(inv: map<(int, int), int>, mappings: seq<RoomMapping>,
                               bookings: seq<BookingRow>, payload: Value)
    requires ReservationKey(payload).None?
    ensures InventoryEffect(inv, mappings, bookings, payload, Str("modify"))
         == InventoryEffect(inv, mappings, bookings, payload, Str("book"))
  {
    assert StoredStay(bookings, None) == None by {
      NoStayUnderNull(bookings);
    }
  }

  lemma {:induction false} NoStayUnderNull(rows: seq<BookingRow>)
    ensures StoredStay(rows, None) == None
  {
    if rows != [] {
      NoStayUnderNull(rows[1..]);
    }
  }

  /** An action other than book, cancel and modify changes nothing. */
  lemma OtherActionsChangeNothing(inv: map<(int, int), int>, mappings: seq<RoomMapping>,
                                  bookings: seq<BookingRow>, payload: Value, action: Value)
    requires action != Str("book") && action != Str("cancel") && action != Str("modify")
    ensures InventoryEffect(inv, mappings, bookings, payload, action) == Reconciliation(inv, None)
  {
  }

  /** An empty or invalid stay (`checkOut <= checkIn`) changes no row and throws nothing. */
  lemma EmptyStayChangesNothing(inv: map<(int, int), int>, mappings: seq<RoomMapping>, rooms: RoomList,
                                checkIn: Option<int>, checkOut: Option<int>, op: Op)
    requires !StayNonEmpty(checkIn, checkOut)
    ensures RangeEffect(inv, mappings, rooms, checkIn, checkOut, op) == Reconciliation(inv, None)
  {
  }

  predicate Unmapped(mappings: seq<RoomMapping>, code: Option<string>) {
    code.None? || RoomIdForCode(mappings, code.value).None?
  }

  /** Entries without a mapping add nothing to any room's tally. */
  lemma {:induction false} UnmappedAddNothing(mappings: seq<RoomMapping>, codes: seq<Option<string>>,
                                              extra: seq<Option<string>>, room: int)
    requires forall i :: 0 <= i < |extra| ==> Unmapped(mappings, extra[i])
    ensures Tally(mappings, codes + extra, room) == Tally(mappings, codes, room)
    decreases |extra|
  {
    if extra != [] {
      var shorter := extra[..|extra| - 1];
      var all := codes + extra;
      assert all[..|all| - 1] == codes + shorter;
      assert all[|all| - 1] == extra[|extra| - 1];
      assert !Resolves(mappings, extra[|extra| - 1], room);
      assert Tally(mappings, all, room) == Tally(mappings, codes + shorter, room);
      UnmappedAddNothing(mappings, codes, shorter, room);
    } else {
      assert codes + extra == codes;
    }
  }

  /** Room entries without a mapping raise no error and leave the inventory as it is. */
  lemma UnmappedRoomsChangeNothing(inv: map<(int, int), int>, mappings: seq<RoomMapping>, codes: seq<Option<string>>,
                                   extra: seq<Option<string>>, checkIn: Option<int>, checkOut: Option<int>, op: Op)
    requires forall i :: 0 <= i < |extra| ==> Unmapped(mappings, extra[i])
    ensures RangeEffect(inv, mappings, Entries(codes + extra), checkIn, checkOut, op)
         == RangeEffect(inv, mappings, Entries(codes), checkIn, checkOut, op)
    ensures RangeEffect(inv, mappings, Entries(extra), checkIn, checkOut, op) == Reconciliation(inv, None)
  {
    forall room: int
      ensures Tally(mappings, codes + extra, room) == Tally(mappings, codes, room)
      ensures Tally(mappings, extra, room) == 0
    {
      UnmappedAddNothing(mappings, codes, extra, room);
      UnmappedAddNothing(mappings, [], extra, room);
      assert [] + extra == extra;
    }
    assert Reconciled(inv, mappings, extra, checkIn, checkOut, op) == inv;
  }

  /**
   * Room 5 is mapped to code "DLX" and has 10 rooms on each of days
   * 100..102. A 'book' of two "DLX" entries for days 100 (check-in) to 102
   * (check-out) leaves 8 on days 100 and 101 and 10 on day 102.
   */
  lemma BookingExample(bookings: seq<BookingRow>)
    ensures var mappings := [RoomMapping(5, "DLX")];
      var inv := map[(5, 100) := 10, (5, 101) := 10, (5, 102) := 10];
      var entry := Obj(map["roomCode" := Str("DLX")]);
      var payload := Obj(map["checkInDate" := Num(100), "checkOutDate" := Num(102), "rooms" := Arr([entry, entry])]);
      InventoryEffect(inv, mappings, bookings, payload, Str("book"))
        == Reconciliation(map[(5, 100) := 8, (5, 101) := 8, (5, 102) := 10], None)
  {
    var mappings := [RoomMapping(5, "DLX")];
    var entry := Obj(map["roomCode" := Str("DLX")]);
    var payload := Obj(map["checkInDate" := Num(100), "checkOutDate" := Num(102), "rooms" := Arr([entry, entry])]);
    var codes := [Some("DLX"), Some("DLX")];
    assert RoomsOf(payload) == Entries(codes);
    assert RoomIdForCode(mappings, "DLX") == Some(5);
    assert codes[..1] == [Some("DLX")];
    assert Tally(mappings, codes, 5) == 2 by {
      assert Tally(mappings, codes[..1], 5) == 1 by {
        assert codes[..1][..0] == [];
      }
    }
  }

  // ---------------------------------------------------------------------
  // The handler

  /** The tally over a one-longer prefix adds the last entry's contribution. */
  lemma TallyStep(mappings: seq<RoomMapping>, codes: seq<Option<string>>, j: nat, room: int)
    requires j < |codes|
    ensures Tally(mappings, codes[..j + 1], room)
         == Tally(mappings, codes[..j], room) + (if Resolves(mappings, codes[j], room) then 1 else 0)
  {
    assert codes[..j + 1][..j] == codes[..j];
  }

  /**
   * The body of `processRange`'s night loop: for each room entry, look up
   * the room and run the UPDATE on its `(room, day)` row, which changes
   * nothing when that row is missing.
   */
  method ProcessNight(db: Database, day: int, codes: seq<Option<string>>, op: Op)
    modifies db`inventory
    ensures db.inventory.Keys == old(db.inventory).Keys
    ensures forall k :: k in old(db.inventory) ==>
      db.inventory[k] == old(db.inventory)[k] + (if k.1 == day then Signed(op, Tally(db.roomMappings, codes, k.0)) else 0)
  {
    ghost var inv0 := db.inventory;
    var j := 0;
    while j < |codes|
      invariant 0 <= j <= |codes|
      invariant db.inventory.Keys == inv0.Keys
      invariant forall k :: k in inv0 ==>
        db.inventory[k] == inv0[k] + (if k.1 == day then Signed(op, Tally(db.roomMappings, codes[..j], k.0)) else 0)
    {
      var room := if codes[j].Some? then RoomIdForCode(db.roomMappings, codes[j].value) else None;
      if room.Some? && (room.value, day) in db.inventory {
        db.inventory := db.inventory[(room.value, day) := db.inventory[(room.value, day)] + Delta(op)];
      }
      forall k | k in inv0
        ensures db.inventory[k]
             == inv0[k] + (if k.1 == day then Signed(op, Tally(db.roomMappings, codes[..j + 1], k.0)) else 0)
      {
        TallyStep(db.roomMappings, codes, j, k.0);
        assert Resolves(db.roomMappings, codes[j], k.0) <==> room == Some(k.0);
      }
      j := j + 1;
    }
    assert codes[..j] == codes;
  }

  /**
   * `processRange(start, end, op)`: for each night `d` from `start` while
   * `d < end`, process every room entry of that night.
   */
  method ProcessRange(db: Database, checkIn: Option<int>, checkOut: Option<int>, op: Op, rooms: RoomList)
    returns (error: Option<string>)
    modifies db`inventory
    ensures Reconciliation(db.inventory, error)
         == RangeEffect(old(db.inventory), db.roomMappings, rooms, checkIn, checkOut, op)
  {
    error := None;
    ghost var inv0 := db.inventory;
    var codes := CodesOf(rooms);
    if checkIn.None? || checkOut.None? {
      assert db.inventory == Reconciled(inv0, db.roomMappings, codes, checkIn, checkOut, op);
      return;
    }
    var lo, hi := checkIn.value, checkOut.value;
    var d := lo;
    while d < hi
      invariant d == lo || lo < d <= hi
      invariant rooms.NotIterable? ==> d == lo
      invariant db.inventory.Keys == inv0.Keys
      invariant forall k :: k in inv0 ==>
        db.inventory[k] == inv0[k] + (if lo <= k.1 < d then Signed(op, Tally(db.roomMappings, codes, k.0)) else 0)
    {
      if rooms.NotIterable? {
        assert db.inventory == inv0;
        error := Some(NotIterableMessage);
        return;
      }
      ProcessNight(db, d, codes, op);
      d := d + 1;
    }
    forall k | k in inv0
      ensures db.inventory[k] == Reconciled(inv0, db.roomMappings, codes, checkIn, checkOut, op)[k]
    {
      assert lo <= k.1 < d <==> InStay(k.1, checkIn, checkOut);
    }
    assert db.inventory == Reconciled(inv0, db.roomMappings, codes, checkIn, checkOut, op);
    if rooms.NotIterable? {
      assert db.inventory == inv0;
    }
  }

  /** `updateLocalInventory(payload, action)`, run after the booking row was saved. */
  method UpdateLocalInventory(db: Database, payload: Value, action: Value) returns (error: Option<string>)
    modifies db`inventory
    ensures Reconciliation(db.inventory, error)
         == InventoryEffect(old(db.inventory), db.roomMappings, db.bookings, payload, action)
  {
    var rooms := RoomsOf(payload);
    var checkIn := DayOf(Field(payload, "checkInDate"));
    var checkOut := DayOf(Field(payload, "checkOutDate"));
    error := None;
    if action == Str("book") {
      error := ProcessRange(db, checkIn, checkOut, Deduct, rooms);
    } else if action == Str("cancel") {
      error := ProcessRange(db, checkIn, checkOut, Add, rooms);
    } else if action == Str("modify") {
      // The "old" stay is read back from ota_bookings, which already holds the new one.
      var existing := StoredStay(db.bookings, ReservationKey(payload));
      if existing.Some? {
        error := ProcessRange(db, existing.value.0, existing.value.1, Add, rooms);
        if error.Some? {
          return;
        }
      }
      error := ProcessRange(db, checkIn, checkOut, Deduct, rooms);
    }
  }

  /**
   * `handleChannelManagerBooking`: reject a wrong token; otherwise write the
   * audit row (a failed write, `logWritten` false, is swallowed), upsert the
   * booking and reconcile the inventory. `now` is the insertion time the
   * audit row's `created_at` defaults to.
   */
  method HandleChannelManagerBooking(db: Database, json: Codec, secret: Option<string>, token: Option<string>,
                                     payload: Value, now: int, logWritten: bool)
    returns (response: Response)
    modifies db`webhookLogs, db`bookings, db`inventory
    ensures Unauthorized(secret, token) ==>
      && response == Response(403, false, UnauthorizedMessage)
      && db.webhookLogs == old(db.webhookLogs) && db.bookings == old(db.bookings)
      && db.inventory == old(db.inventory)
    ensures !Unauthorized(secret, token) ==>
      && db.webhookLogs == old(db.webhookLogs)
           + (if logWritten then [WebhookLog(LogEndpoint, json.stringify(payload), LoggedStatus, now)] else [])
      && db.bookings == Upsert(old(db.bookings), BookingData(json, payload))
      && var effect := InventoryEffect(old(db.inventory), db.roomMappings, db.bookings, payload, Action(payload));
         && db.inventory == effect.inventory
         && response == if effect.error.None? then Response(200, true, ProcessedMessage)
                        else Response(500, false, effect.error.value)
  {
    if Unauthorized(secret, token) {
      return Response(403, false, UnauthorizedMessage);
    }
    if logWritten {
      db.webhookLogs := db.webhookLogs + [WebhookLog(LogEndpoint, json.stringify(payload), LoggedStatus, now)];
    }
    var action := Action(payload);
    db.bookings := Upsert(db.bookings, BookingData(json, payload));
    var error := UpdateLocalInventory(db, payload, action);
    if error.None? {
      response := Response(200, true, ProcessedMessage);
    } else {
      response := Response(500, false, error.value);
    }
  }
}
