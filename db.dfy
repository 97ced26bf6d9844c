/**
 * The database tables the core reads and writes, held in memory. Each table
 * is a field of `Database`; a statement that changes a table reassigns its
 * field. The room-mapping lookups in both directions live here because the
 * webhook handler and the payload builders share the table.
 */
module Db {
  import opened Wrappers
  import opened Json

  /** A row of `ota_room_mapping`. */
  datatype RoomMapping = RoomMapping(pmsRoomId: int, otaRoomCode: string)

  /** A row of `ota_webhook_logs`. */
  datatype WebhookLog = WebhookLog(endpoint: string, body: string, responseStatus: int, createdAt: int)

  /** A row of `ota_bookings`; None in a column is SQL NULL. */
  datatype BookingRow = BookingRow(
    reservationId: Option<Value>,
    cmBookingId: Option<Value>,
    channel: string,
    checkin: Option<Value>,
    checkout: Option<Value>,
    guest: string,
    rooms: string,
    priceBreakdown: string,
    status: Value,
    rawPayload: string)

  /** A row of `ota_retry_queue`; timestamps are seconds. */
  datatype RetryRow = RetryRow(
    id: nat,
    requestType: string,
    endpoint: string,
    payload: string,
    headers: Option<string>,
    tryCount: nat,
    nextTryAt: int,
    createdAt: int)

  /** A row of `channel_logs`. */
  datatype ChannelLog = ChannelLog(propertyId: Option<int>, channel: string, message: string, payload: string)

  /** A row of `channel_settings`. */
  datatype ChannelSettings = ChannelSettings(channel: string, apiUser: string, apiPass: string)

  /** SQL `a = b`: NULL is equal to nothing, not even NULL. */
  predicate SqlEquals(a: Option<Value>, b: Option<Value>) {
    a.Some? && b.Some? && a.value == b.value
  }

  /** What a JavaScript value becomes as a query parameter: `undefined` and `null` are NULL. */
  function SqlParam(v: Option<Value>): Option<Value> {
    if v.None? || v.value.Null? then None else v
  }

  /** No two retry rows share an id. */
  predicate DistinctIds(queue: seq<RetryRow>) {
    forall i, j :: 0 <= i < j < |queue| ==> queue[i].id != queue[j].id
  }

  /** Retry rows carry distinct ids, all below the next auto-increment value. */
  ghost predicate ValidRetryIds(queue: seq<RetryRow>, nextId: nat) {
    && DistinctIds(queue)
    && (forall r :: r in queue ==> r.id < nextId)
  }

  class Database {
    var webhookLogs: seq<WebhookLog>
    var bookings: seq<BookingRow>
    var inventory: map<(int, int), int>  // (room_id, day) -> available_count
    var roomMappings: seq<RoomMapping>
    var retryQueue: seq<RetryRow>
    var nextRetryId: nat
    var channelLogs: seq<ChannelLog>
    var channelSettings: seq<ChannelSettings>

    ghost predicate Valid()
      reads this
    {
      ValidRetryIds(retryQueue, nextRetryId)
    }

    /** A database holding the given reference data and inventory, with empty logs and queues. */
    constructor (mappings: seq<RoomMapping>, settings: seq<ChannelSettings>, stock: map<(int, int), int>)
      ensures Valid()
      ensures roomMappings == mappings && channelSettings == settings && inventory == stock
      ensures webhookLogs == [] && bookings == [] && retryQueue == [] && channelLogs == []
    {
      webhookLogs := [];
      bookings := [];
      inventory := stock;
      roomMappings := mappings;
      retryQueue := [];
      nextRetryId := 1;
      channelLogs := [];
      channelSettings := settings;
    }
  }

  /** `SELECT pms_room_id FROM ota_room_mapping WHERE ota_room_code = ?`, first row. */
  function RoomIdForCode(table: seq<RoomMapping>, code: string): (r: Option<int>)
    ensures r.None? <==> forall i :: 0 <= i < |table| ==> table[i].otaRoomCode != code
    ensures r.Some? ==> exists i :: 0 <= i < |table| && table[i] == RoomMapping(r.value, code)
                                 && forall j :: 0 <= j < i ==> table[j].otaRoomCode != code
  {
    if table == [] then None
    else if table[0].otaRoomCode == code then Some(table[0].pmsRoomId)
    else
      var r := RoomIdForCode(table[1..], code);
      assert r.Some? ==> exists i :: 0 <= i < |table[1..]| && table[1..][i] == RoomMapping(r.value, code)
                                 && forall j :: 0 <= j < i ==> table[1..][j].otaRoomCode != code;
      r
  }

  /** `SELECT ota_room_code FROM ota_room_mapping WHERE pms_room_id = ?`, first row. */
  function CodeForRoom(table: seq<RoomMapping>, roomId: int): (r: Option<string>)
    ensures r.None? <==> forall i :: 0 <= i < |table| ==> table[i].pmsRoomId != roomId
    ensures r.Some? ==> exists i :: 0 <= i < |table| && table[i] == RoomMapping(roomId, r.value)
                                 && forall j :: 0 <= j < i ==> table[j].pmsRoomId != roomId
  {
    if table == [] then None
    else if table[0].pmsRoomId == roomId then Some(table[0].otaRoomCode)
    else
      var r := CodeForRoom(table[1..], roomId);
      assert r.Some? ==> exists i :: 0 <= i < |table[1..]| && table[1..][i] == RoomMapping(roomId, r.value)
                                 && forall j :: 0 <= j < i ==> table[1..][j].pmsRoomId != roomId;
      r
  }

  /** Each room id and each room code occurs in at most one mapping row. */
  predicate OneToOne(table: seq<RoomMapping>) {
    forall i, j :: 0 <= i < j < |table| ==>
      table[i].pmsRoomId != table[j].pmsRoomId && table[i].otaRoomCode != table[j].otaRoomCode
  }

  /** With a one-to-one table the two lookups are inverse to each other. */
  lemma MappingRoundTrip(table: seq<RoomMapping>, roomId: int)
    requires OneToOne(table)
    ensures CodeForRoom(table, roomId).Some? ==>
              RoomIdForCode(table, CodeForRoom(table, roomId).value) == Some(roomId)
  {
    var c := CodeForRoom(table, roomId);
    if c.Some? {
      var i :| 0 <= i < |table| && table[i] == RoomMapping(roomId, c.value);
      var r := RoomIdForCode(table, c.value);
      var k :| 0 <= k < |table| && table[k] == RoomMapping(r.value, c.value);
      assert k == i;
    }
  }
}
