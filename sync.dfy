/**
 * The outbound side: resolving a PMS room id to the channel manager's room
 * code, the three payload builders (inventory, rates, restrictions), and the
 * request `pushToAiosell` forms, with its errors. All of it is pure; the HTTP
 * call itself is an outcome given as a parameter.
 */
module Sync {
  import opened Wrappers
  import opened Json
  import opened JsNumber
  import opened Db
  import Base64

  /** What the sync code can throw. */
  datatype SyncError =
    | MappingNotFound(roomId: int)
    | SettingsMissing
    | InvalidJson                 // `JSON.parse` threw a SyntaxError
    | NullData(property: string)  // TypeError: reading a property of `null`
    | ApiError(requestType: string, detail: string)

  /** The `message` of the thrown error, where the source writes it (the engine writes the others). */
  function Message(e: SyncError): Option<string> {
    match e
    case MappingNotFound(id) => Some("Mapping not found for Room ID " + IntToString(id))
    case SettingsMissing => Some("Channel settings not found")
    case ApiError(t, detail) => Some("Aiosell API Error (" + t + "): " + detail)
    case _ => None
  }

  /** `getOtaRoomCode(pmsRoomId)` */
  function GetOtaRoomCode(mappings: seq<RoomMapping>, pmsRoomId: int): (r: Result<string, SyncError>)
    ensures r.Err? <==> forall i :: 0 <= i < |mappings| ==> mappings[i].pmsRoomId != pmsRoomId
    ensures r.Err? ==> r.error == MappingNotFound(pmsRoomId)
    ensures r.Ok? ==> exists i :: 0 <= i < |mappings| && mappings[i] == RoomMapping(pmsRoomId, r.value)
                               && forall j :: 0 <= j < i ==> mappings[j].pmsRoomId != pmsRoomId
  {
    match CodeForRoom(mappings, pmsRoomId)
    case None => Err(MappingNotFound(pmsRoomId))
    case Some(code) => Ok(code)
  }

  /**
   * A missing mapping is reported as "Mapping not found for Room ID <id>",
   * with the id written in decimal so that `parseInt` of the tail reads it
   * back; room 12, for example, gives "Mapping not found for Room ID 12".
   */
  lemma MappingNotFoundMessage(mappings: seq<RoomMapping>, pmsRoomId: int)
    requires forall i :: 0 <= i < |mappings| ==> mappings[i].pmsRoomId != pmsRoomId
    ensures var r := GetOtaRoomCode(mappings, pmsRoomId);
      && r.Err?
      && Message(r.error).Some?
      && var text := Message(r.error).value;
         && |text| > 30
         && text[..30] == "Mapping not found for Room ID "
         && ParseIntString(text[30..]) == Int(pmsRoomId)
  {
    var prefix := "Mapping not found for Room ID ";
    var digits := IntToString(pmsRoomId);
    assert |prefix| == 30;
    assert (prefix + digits)[..30] == prefix;
    assert (prefix + digits)[30..] == digits;
    ParseIntOfIntToString(pmsRoomId);
  }

  lemma MappingNotFoundExample()
    ensures Message(MappingNotFound(12)) == Some("Mapping not found for Room ID 12")
  {
    assert DigitChar(1) == '1' && DigitChar(2) == '2';
    assert IntToString(12) == NatToString(12) == NatToString(1) + [DigitChar(2)] == "12";
    assert "Mapping not found for Room ID " + "12" == "Mapping not found for Room ID 12";
  }

  /** `typeof payloadJson === 'string' ? JSON.parse(payloadJson) : payloadJson` */
  function ReadData(json: Codec, payloadJson: Value): Result<Value, SyncError> {
    if payloadJson.Str? then
      match json.parse(payloadJson.s)
      case None => Err(InvalidJson)
      case Some(v) => Ok(v)
    else Ok(payloadJson)
  }

  /** `data.key`, which throws when `data` is `null`. */
  function Property(data: Value, key: string): Result<Option<Value>, SyncError> {
    if data.Null? then Err(NullData(key)) else Ok(Field(data, key))
  }

  /** `parseFloat(input)`: the price is carried as the input the float is parsed from. */
  datatype Price = ParsedFloat(input: Option<Value>)

  /** One room line of an update; an Option field that is None is left out (`undefined`). */
  datatype RoomLine =
    | AvailabilityLine(roomCode: string, available: Number)
    | RateLine(roomCode: string, price: Price)
    | RestrictionLine(roomCode: string, stopSell: bool, minStay: Option<Number>, maxStay: Option<Number>,
                      closeOnArrival: bool, closeOnDeparture: bool)

  datatype Update = Update(startDate: Value, endDate: Value, rooms: seq<RoomLine>)

  /** `{updates: [...]}` */
  datatype Envelope = Envelope(updates: seq<Update>)

  /** `{updates: [{startDate, endDate, rooms: [line]}]}` */
  function SingleUpdate(startDate: Value, endDate: Value, line: RoomLine): Envelope {
    Envelope([Update(startDate, endDate, [line])])
  }

  /** The room code a line names. */
  function LineCode(line: RoomLine): string {
    line.roomCode
  }

  /** `buildInventoryPayload(roomId, startDate, endDate, payloadJson)` */
  function BuildInventoryPayload(json: Codec, mappings: seq<RoomMapping>, roomId: int,
                                 startDate: Value, endDate: Value, payloadJson: Value): (r: Result<Envelope, SyncError>)
    ensures r.Err? ==> r.error == MappingNotFound(roomId) || r.error == InvalidJson || r.error == NullData("availability")
    ensures CodeForRoom(mappings, roomId).Some? && !payloadJson.Str? && !payloadJson.Null? ==> r.Ok?
  {
    match GetOtaRoomCode(mappings, roomId)
    case Err(e) => Err(e)
    case Ok(code) =>
      match ReadData(json, payloadJson)
      case Err(e) => Err(e)
      case Ok(data) =>
        match Property(data, "availability")
        case Err(e) => Err(e)
        case Ok(availability) => Ok(SingleUpdate(startDate, endDate, AvailabilityLine(code, ParseInt(availability))))
  }

  /** `buildRatesPayload(roomId, startDate, endDate, payloadJson)` */
  function BuildRatesPayload(json: Codec, mappings: seq<RoomMapping>, roomId: int,
                             startDate: Value, endDate: Value, payloadJson: Value): (r: Result<Envelope, SyncError>)
    ensures r.Err? ==> r.error == MappingNotFound(roomId) || r.error == InvalidJson || r.error == NullData("price")
    ensures CodeForRoom(mappings, roomId).Some? && !payloadJson.Str? && !payloadJson.Null? ==> r.Ok?
  {
    match GetOtaRoomCode(mappings, roomId)
    case Err(e) => Err(e)
    case Ok(code) =>
      match ReadData(json, payloadJson)
      case Err(e) => Err(e)
      case Ok(data) =>
        match Property(data, "price")
        case Err(e) => Err(e)
        case Ok(price) => Ok(SingleUpdate(startDate, endDate, RateLine(code, ParsedFloat(price))))
  }

  /** `v === true || v === 'true'` */
  predicate IsTrueOrTrueString(v: Option<Value>) {
    v == Some(Bool(true)) || v == Some(Str("true"))
  }

  /** `v ? parseInt(v) : undefined` */
  function OptionalInt(v: Option<Value>): Option<Number> {
    if Truthy(v) then Some(ParseInt(v)) else None
  }

  /** The restriction line for a non-null `data`. */
  function Restrictions(code: string, data: Value): RoomLine {
    RestrictionLine(
      code,
      IsTrueOrTrueString(Field(data, "stopSell")),
      OptionalInt(Field(data, "minStay")),
      OptionalInt(Field(data, "maxStay")),
      Field(data, "closeOnArrival") == Some(Bool(true)),
      Field(data, "closeOnDeparture") == Some(Bool(true)))
  }

  /** `buildRestrictionsPayload(roomId, startDate, endDate, payloadJson)` */
  function BuildRestrictionsPayload(json: Codec, mappings: seq<RoomMapping>, roomId: int,
                                    startDate: Value, endDate: Value, payloadJson: Value): (r: Result<Envelope, SyncError>)
    ensures r.Err? ==> r.error == MappingNotFound(roomId) || r.error == InvalidJson || r.error == NullData("stopSell")
    ensures CodeForRoom(mappings, roomId).Some? && !payloadJson.Str? && !payloadJson.Null? ==> r.Ok?
  {
    match GetOtaRoomCode(mappings, roomId)
    case Err(e) => Err(e)
    case Ok(code) =>
      match ReadData(json, payloadJson)
      case Err(e) => Err(e)
      case Ok(data) =>
        if data.Null? then Err(NullData("stopSell"))
        else Ok(SingleUpdate(startDate, endDate, Restrictions(code, data)))
  }

  datatype PayloadKind = Inventory | Rates | Restrictions

  function Build(kind: PayloadKind, json: Codec, mappings: seq<RoomMapping>, roomId: int,
                 startDate: Value, endDate: Value, payloadJson: Value): Result<Envelope, SyncError>
  {
    match kind
    case Inventory => BuildInventoryPayload(json, mappings, roomId, startDate, endDate, payloadJson)
    case Rates => BuildRatesPayload(json, mappings, roomId, startDate, endDate, payloadJson)
    case Restrictions => BuildRestrictionsPayload(json, mappings, roomId, startDate, endDate, payloadJson)
  }

  /**
   * Every builder fails with `MappingNotFound` and produces no payload when
   * the room id has no mapping, before the payload is even read.
   */
  lemma BuildersNeedMapping(kind: PayloadKind, json: Codec, mappings: seq<RoomMapping>, roomId: int,
                            startDate: Value, endDate: Value, payloadJson: Value)
    requires forall i :: 0 <= i < |mappings| ==> mappings[i].pmsRoomId != roomId
    ensures Build(kind, json, mappings, roomId, startDate, endDate, payloadJson) == Err(MappingNotFound(roomId))
  {
    assert GetOtaRoomCode(mappings, roomId) == Err(MappingNotFound(roomId));
  }

  /** The property each builder reads first from `data`. */
  function FirstProperty(kind: PayloadKind): string {
    match kind
    case Inventory => "availability"
    case Rates => "price"
    case Restrictions => "stopSell"
  }

  /**
   * A mapped room with a `null` payload, or a text payload that parses to
   * `null`, fails with the TypeError of reading a property of `null`.
   */
  lemma NullPayloadFails(kind: PayloadKind, json: Codec, mappings: seq<RoomMapping>, roomId: int,
                         startDate: Value, endDate: Value, payloadJson: Value)
    requires CodeForRoom(mappings, roomId).Some?
    requires payloadJson.Null? || (payloadJson.Str? && json.parse(payloadJson.s) == Some(Null))
    ensures Build(kind, json, mappings, roomId, startDate, endDate, payloadJson) == Err(NullData(FirstProperty(kind)))
  {
    assert GetOtaRoomCode(mappings, roomId) == Ok(CodeForRoom(mappings, roomId).value);
    assert ReadData(json, payloadJson) == Ok(Null);
  }

  /**
   * When a builder succeeds it produces exactly one update spanning the
   * dates it was given, with exactly one room line whose code is the room's
   * mapped code, so the code leads back to the room id when the mapping is
   * one-to-one.
   */
  lemma BuildersShape(kind: PayloadKind, json: Codec, mappings: seq<RoomMapping>, roomId: int,
                      startDate: Value, endDate: Value, payloadJson: Value)
    ensures var r := Build(kind, json, mappings, roomId, startDate, endDate, payloadJson);
      (r.Ok? ==>
            && |r.value.updates| == 1
            && r.value.updates[0].startDate == startDate && r.value.updates[0].endDate == endDate
            && |r.value.updates[0].rooms| == 1
            && Some(LineCode(r.value.updates[0].rooms[0])) == CodeForRoom(mappings, roomId)
            && (OneToOne(mappings) ==> RoomIdForCode(mappings, LineCode(r.value.updates[0].rooms[0])) == Some(roomId)))
  {
    var r := Build(kind, json, mappings, roomId, startDate, endDate, payloadJson);
    if r.Ok? {
      var line := BuiltLine(kind, json, mappings, roomId, startDate, endDate, payloadJson);
      if OneToOne(mappings) {
        MappingRoundTrip(mappings, roomId);
      }
    }
  }

  /** The one room line of a successful build, named by the room's mapped code. */
  lemma BuiltLine(kind: PayloadKind, json: Codec, mappings: seq<RoomMapping>, roomId: int,
                  startDate: Value, endDate: Value, payloadJson: Value) returns (line: RoomLine)
    requires Build(kind, json, mappings, roomId, startDate, endDate, payloadJson).Ok?
    ensures Build(kind, json, mappings, roomId, startDate, endDate, payloadJson) == Ok(SingleUpdate(startDate, endDate, line))
    ensures CodeForRoom(mappings, roomId) == Some(LineCode(line))
  {
    var code := CodeForRoom(mappings, roomId).value;
    assert GetOtaRoomCode(mappings, roomId) == Ok(code);
    var data := ReadData(json, payloadJson).value;
    assert ReadData(json, payloadJson) == Ok(data);
    match kind
    case Inventory =>
      assert Property(data, "availability") == Ok(Field(data, "availability"));
      line := AvailabilityLine(code, ParseInt(Field(data, "availability")));
    case Rates =>
      assert Property(data, "price") == Ok(Field(data, "price"));
      line := RateLine(code, ParsedFloat(Field(data, "price")));
    case Restrictions =>
      assert !data.Null?;
      line := Restrictions(code, data);
  }

  /**
   * For any payload value that is neither text nor `null`, the inventory line
   * carries `parseInt(data.availability)`: a numeric availability arrives
   * unchanged, and a payload that is not an object has no availability, so
   * `parseInt(undefined)` gives NaN.
   */
  lemma InventoryPayloadContent(json: Codec, mappings: seq<RoomMapping>, roomId: int,
                                startDate: Value, endDate: Value, data: Value, code: string)
    requires CodeForRoom(mappings, roomId) == Some(code)
    requires !data.Str? && !data.Null?
    ensures BuildInventoryPayload(json, mappings, roomId, startDate, endDate, data)
         == Ok(SingleUpdate(startDate, endDate, AvailabilityLine(code, ParseInt(Field(data, "availability")))))
    ensures !data.Obj? ==>
         BuildInventoryPayload(json, mappings, roomId, startDate, endDate, data)
           == Ok(SingleUpdate(startDate, endDate, AvailabilityLine(code, NaN)))
    ensures forall n: int :: Field(data, "availability") == Some(Num(n)) ==>
         BuildInventoryPayload(json, mappings, roomId, startDate, endDate, data)
           == Ok(SingleUpdate(startDate, endDate, AvailabilityLine(code, Int(n))))
  {
    forall n: int | Field(data, "availability") == Some(Num(n))
      ensures ParseInt(Field(data, "availability")) == Int(n)
    {
      ParseIntOfNum(n);
    }
  }

  /** A payload given as JSON text is parsed first; with a lawful codec, text and value build the same payload. */
  lemma TextPayloadLikeValue(kind: PayloadKind, json: Codec, mappings: seq<RoomMapping>, roomId: int,
                             startDate: Value, endDate: Value, data: Value)
    requires Lawful(json)
    requires !data.Str?
    ensures Build(kind, json, mappings, roomId, startDate, endDate, Str(json.stringify(data)))
         == Build(kind, json, mappings, roomId, startDate, endDate, data)
  {
    assert json.parse(json.stringify(data)) == Some(data);
    assert ReadData(json, Str(json.stringify(data))) == Ok(data) == ReadData(json, data);
  }

  /**
   * `stopSell` is set for `true` and for the string "true" and for nothing
   * else; `closeOnArrival` and `closeOnDeparture` only for `true`, so the
   * string "true" leaves them false. `minStay`/`maxStay` are left out exactly
   * when the input is falsy (0 included) and otherwise carry `parseInt` of it.
   */
  lemma RestrictionFlags(code: string, data: Value)
    requires !data.Null?
    ensures var line := Restrictions(code, data);
      && (line.stopSell <==> Field(data, "stopSell") in {Some(Bool(true)), Some(Str("true"))})
      && (line.closeOnArrival <==> Field(data, "closeOnArrival") == Some(Bool(true)))
      && (line.closeOnDeparture <==> Field(data, "closeOnDeparture") == Some(Bool(true)))
      && (line.minStay.None? <==> !Truthy(Field(data, "minStay")))
      && (line.maxStay.None? <==> !Truthy(Field(data, "maxStay")))
      && (line.minStay.Some? ==> line.minStay.value == ParseInt(Field(data, "minStay")))
      && (line.maxStay.Some? ==> line.maxStay.value == ParseInt(Field(data, "maxStay")))
  {
  }

  /** The string "true" stops sell but does not close arrival or departure; 0 and "" omit a stay. */
  lemma RestrictionExamples(code: string)
    ensures var line := Restrictions(code, Obj(map["stopSell" := Str("true"), "closeOnArrival" := Str("true"),
                                                    "closeOnDeparture" := Str("true"), "minStay" := Num(0),
                                                    "maxStay" := Str("")]));
      line == RestrictionLine(code, true, None, None, false, false)
  {
    var fields := map["stopSell" := Str("true"), "closeOnArrival" := Str("true"),
                      "closeOnDeparture" := Str("true"), "minStay" := Num(0), "maxStay" := Str("")];
    assert fields["stopSell"] == Str("true");
    assert fields["closeOnArrival"] == Str("true");
    assert fields["closeOnDeparture"] == Str("true");
    assert fields["minStay"] == Num(0);
    assert fields["maxStay"] == Str("");
  }

  /** The string "0" is truthy, so it gives a stay of 0; 7 gives 7. */
  lemma StayExamples(code: string)
    ensures Restrictions(code, Obj(map["minStay" := Str("0"), "maxStay" := Num(7)])).minStay == Some(Int(0))
    ensures Restrictions(code, Obj(map["minStay" := Str("0"), "maxStay" := Num(7)])).maxStay == Some(Int(7))
  {
    var fields := map["minStay" := Str("0"), "maxStay" := Num(7)];
    assert fields["minStay"] == Str("0") && fields["maxStay"] == Num(7);
    assert IntToString(0) == [DigitChar(0)] == "0";
    ParseIntOfIntToString(0);
    assert ParseInt(Some(Str("0"))) == Int(0);
    ParseIntOfNum(7);
  }

  // ---------------------------------------------------------------------
  // pushToAiosell

  const ChannelName := "aiosell"
  const UpdatePath := "/v2/cm/update/"
  const ContentType := "application/json"
  const TimeoutMs := 15000

  /** `SELECT * FROM channel_settings WHERE channel = 'aiosell' LIMIT 1`, taking the first row in table order. */
  function AiosellSettings(settings: seq<ChannelSettings>): (r: Option<ChannelSettings>)
    ensures r.None? <==> forall i :: 0 <= i < |settings| ==> settings[i].channel != ChannelName
    ensures r.Some? ==> exists i :: 0 <= i < |settings| && settings[i] == r.value && r.value.channel == ChannelName
                                 && forall j :: 0 <= j < i ==> settings[j].channel != ChannelName
  {
    if settings == [] then None
    else if settings[0].channel == ChannelName then Some(settings[0])
    else
      var r := AiosellSettings(settings[1..]);
      assert r.Some? ==> exists i :: 0 <= i < |settings[1..]| && settings[1..][i] == r.value && r.value.channel == ChannelName
                                 && forall j :: 0 <= j < i ==> settings[1..][j].channel != ChannelName;
      r
  }

  /** The POST `pushToAiosell` issues. */
  datatype HttpRequest = HttpRequest(url: string, authorization: string, contentType: string, body: Envelope, timeoutMs: nat)

  /** The `Authorization` header: "Basic " and then text that decodes to the UTF-8 bytes of `user:pass`. */
  function BasicAuth(apiUser: string, apiPass: string): (h: string)
    ensures |h| >= 6 && h[..6] == "Basic "
    ensures Base64.Decode(h[6..]) == Some(Base64.Utf8(apiUser + ":" + apiPass))
  {
    var bytes := Base64.Utf8(apiUser + ":" + apiPass);
    var encoded := Base64.Encode(bytes);
    Base64.DecodeEncode(bytes);
    assert ("Basic " + encoded)[6..] == encoded;
    "Basic " + encoded
  }

  /**
   * User and password are joined with ':', so a user name containing ':'
   * gives the same header as a different split of the same text.
   */
  lemma BasicAuthSplitIsAmbiguous()
    ensures BasicAuth("a:b", "c") == BasicAuth("a", "b:c")
  {
    assert "a:b" + ":" + "c" == "a" + ":" + "b:c";
  }

  /**
   * The request: it fails with `SettingsMissing` exactly when there is no
   * 'aiosell' settings row; otherwise it posts the payload as JSON, with a
   * 15 s timeout, to `baseUrl + "/v2/cm/update/" + api_user`.
   */
  function AiosellRequest(settings: seq<ChannelSettings>, baseUrl: string, payload: Envelope): (r: Result<HttpRequest, SyncError>)
    ensures r.Err? <==> AiosellSettings(settings).None?
    ensures r.Err? ==> r.error == SettingsMissing
    ensures r.Ok? ==> && r.value.url == baseUrl + "/v2/cm/update/" + AiosellSettings(settings).value.apiUser
                      && r.value.body == payload && r.value.contentType == "application/json"
                      && r.value.timeoutMs == 15000
  {
    match AiosellSettings(settings)
    case None => Err(SettingsMissing)
    case Some(row) =>
      Ok(HttpRequest(baseUrl + UpdatePath + row.apiUser, BasicAuth(row.apiUser, row.apiPass), ContentType, payload, TimeoutMs))
  }

  /** What the POST came back with: the response data, or an error with the response's data if there was a response. */
  datatype HttpOutcome = Responded(data: Value) | Failed(responseData: Option<Value>, message: string)

  /** `error.response?.data ? JSON.stringify(error.response.data) : error.message` */
  function FailureDetail(json: Codec, responseData: Option<Value>, message: string): string {
    if Truthy(responseData) then json.stringify(responseData.value) else message
  }

  /** `pushToAiosell(payload, type)`, with `outcome` standing for what the POST returns. */
  function PushToAiosell(json: Codec, settings: seq<ChannelSettings>, baseUrl: string, payload: Envelope,
                         requestType: string, outcome: HttpOutcome): (r: Result<Value, SyncError>)
    ensures r.Ok? <==> AiosellSettings(settings).Some? && outcome.Responded?
    ensures r.Ok? ==> r.value == outcome.data
    ensures r.Err? ==> r.error == SettingsMissing || (r.error.ApiError? && r.error.requestType == requestType)
  {
    match AiosellRequest(settings, baseUrl, payload)
    case Err(e) => Err(e)
    case Ok(_) =>
      match outcome
      case Responded(data) => Ok(data)
      case Failed(responseData, message) => Err(ApiError(requestType, FailureDetail(json, responseData, message)))
  }

  /**
   * Without an 'aiosell' settings row the push fails with "Channel settings
   * not found" whatever the POST would have done; with one, the request
   * goes to `baseUrl + "/v2/cm/update/" + api_user` with header
   * `"Basic " + base64(api_user + ":" + api_pass)`, whose base 64 part
   * decodes to the UTF-8 bytes of `api_user:api_pass`.
   */
  lemma PushRequest(json: Codec, settings: seq<ChannelSettings>, baseUrl: string, payload: Envelope,
                    requestType: string, outcome: HttpOutcome)
    ensures AiosellSettings(settings).None? ==>
      && PushToAiosell(json, settings, baseUrl, payload, requestType, outcome) == Err(SettingsMissing)
      && Message(SettingsMissing) == Some("Channel settings not found")
    ensures AiosellSettings(settings).Some? ==>
      var row := AiosellSettings(settings).value;
      var request := AiosellRequest(settings, baseUrl, payload);
      && row in settings && row.channel == ChannelName
      && request.Ok?
      && request.value.url == baseUrl + "/v2/cm/update/" + row.apiUser
      && request.value.authorization[..6] == "Basic "
      && Base64.Decode(request.value.authorization[6..]) == Some(Base64.Utf8(row.apiUser + ":" + row.apiPass))
  {
  }

  /**
   * A failed POST is reported as `Aiosell API Error (<type>): <detail>`,
   * where the detail is the serialised response data when there is truthy
   * data and the underlying error message otherwise.
   */
  lemma PushFailureMessage(json: Codec, settings: seq<ChannelSettings>, baseUrl: string, payload: Envelope,
                           requestType: string, responseData: Option<Value>, message: string)
    requires AiosellSettings(settings).Some?
    ensures var r := PushToAiosell(json, settings, baseUrl, payload, requestType, Failed(responseData, message));
      && r.Err?
      && Message(r.error) == Some("Aiosell API Error (" + requestType + "): "
                                  + (if Truthy(responseData) then json.stringify(responseData.value) else message))
  {
  }

  /** A successful POST returns the response data. */
  lemma PushSuccess(json: Codec, settings: seq<ChannelSettings>, baseUrl: string, payload: Envelope,
                    requestType: string, data: Value)
    requires AiosellSettings(settings).Some?
    ensures PushToAiosell(json, settings, baseUrl, payload, requestType, Responded(data)) == Ok(data)
  {
  }
}
