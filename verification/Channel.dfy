/** The channel contract between the account manager and the video cloud: the message table, strict
    decoding, and the validators. A JSON value is a tree, and a text is a sequence of characters. */
module Channel {
  import opened Wrappers
  import opened Text
  import opened Rfc3339

  const SCHEMA_VERSION_V1 := "1.0"
  const STREAM_COMMANDS := "account.video.commands"
  const STREAM_EVENTS := "video.account.events"
  const ACCOUNT_MANAGER := "rtk_account_manager"
  const VIDEO_CLOUD := "realtek_video_server"

  datatype MessageType =
    | DeviceProvisionRequested | DeviceProvisionSucceeded | DeviceProvisionFailed
    | DeviceDeactivateRequested | DeviceDeactivateSucceeded | DeviceDeactivateFailed
    | DeviceUnprovisionRequested | DeviceUnprovisionSucceeded | DeviceUnprovisionFailed
    | DeviceEntitlementSnapshotRequested | DeviceEntitlementSnapshotSucceeded | DeviceEntitlementSnapshotFailed
    | DeviceOnlineChanged | DeviceMetadataChanged
    | Unsupported(text: string)

  /** The JSON member names the payload structs know, and any other. */
  datatype Name =
    | OrgID | AccountDeviceID | VideoCloudDevid | ActivityID | ClipPublicKey | ServiceOptions | ProductID
    | ProductServiceRevision | ServiceGrantSHA256 | LogRetentionDays | TransferReservationID | RequestedBy
    | ActivatedAt | DeactivatedAt | UnprovisionedAt | AppliedAt | FailedAt | LastSeenAt
    | ErrorCode | ErrorMessage | Retryable | Reason | PlatformOverride | PlatformEntitlementRevision | State
    | Status | Metadata
    | Other(name: string)

  datatype Json =
    | Null | Bool(b: bool) | Number(n: int) | Fractional | String(s: string)
    | Array(items: seq<Json>) | Object(members: map<Name, Json>)

  /** A raw message as it stands in an envelope. */
  datatype Raw = Absent | Malformed | Parsed(json: Json)

  // ----- payload structs, by their field tags

  /** The Go type of a payload field. */
  datatype Kind = KText | KBool | KInt64 | KOptInt64 | KTexts | KTime | KObject

  datatype Field = Field(kind: Kind, omitEmpty: bool)

  /** A field's value. A time is shown at an offset in minutes; offset zero is UTC. */
  datatype Value =
    | VText(text: string) | VBool(flag: bool) | VInt64(int64: int) | VOptInt64(opt: Option<int>)
    | VTexts(texts: seq<string>) | VTime(time: Civil, offset: int) | VObject(content: Option<map<Name, Json>>)

  type Payload = map<Name, Value>

  const TEXT := Field(KText, false)
  const TEXT_OMIT := Field(KText, true)
  const TIME := Field(KTime, false)

  /** newPayload: the struct a message type decodes into. */
  function Schema(t: MessageType): map<Name, Field> {
    match t
    case DeviceProvisionRequested =>
      map[OrgID := TEXT, AccountDeviceID := TEXT, VideoCloudDevid := TEXT,
        ActivityID := TEXT, ClipPublicKey := TEXT, ServiceOptions := Field(KTexts, true), ProductID := TEXT_OMIT,
        ProductServiceRevision := Field(KOptInt64, true), ServiceGrantSHA256 := TEXT_OMIT,
        LogRetentionDays := Field(KOptInt64, true), TransferReservationID := TEXT_OMIT, RequestedBy := TEXT]
    case DeviceProvisionSucceeded =>
      map[OrgID := TEXT, AccountDeviceID := TEXT, VideoCloudDevid := TEXT,
        ActivityID := TEXT, ActivatedAt := TIME]
    case DeviceProvisionFailed =>
      map[OrgID := TEXT, AccountDeviceID := TEXT, VideoCloudDevid := TEXT,
        ErrorCode := TEXT, ErrorMessage := TEXT, Retryable := Field(KBool, false), FailedAt := TIME, ActivityID := TEXT]
    case DeviceDeactivateRequested =>
      map[OrgID := TEXT, AccountDeviceID := TEXT, VideoCloudDevid := TEXT,
        ActivityID := TEXT_OMIT, RequestedBy := TEXT, Reason := TEXT]
    case DeviceDeactivateSucceeded =>
      map[OrgID := TEXT, AccountDeviceID := TEXT, VideoCloudDevid := TEXT,
        ActivityID := TEXT_OMIT, DeactivatedAt := TIME]
    case DeviceDeactivateFailed =>
      map[OrgID := TEXT, AccountDeviceID := TEXT, VideoCloudDevid := TEXT,
        ErrorCode := TEXT, ErrorMessage := TEXT, Retryable := Field(KBool, false), FailedAt := TIME, ActivityID := TEXT_OMIT]
    case DeviceUnprovisionRequested =>
      map[OrgID := TEXT, AccountDeviceID := TEXT, VideoCloudDevid := TEXT,
        RequestedBy := TEXT, Reason := TEXT, PlatformOverride := Field(KBool, false), UnprovisionedAt := TIME]
    case DeviceUnprovisionSucceeded =>
      map[OrgID := TEXT, AccountDeviceID := TEXT, VideoCloudDevid := TEXT,
        UnprovisionedAt := TIME]
    case DeviceUnprovisionFailed =>
      map[OrgID := TEXT, AccountDeviceID := TEXT, VideoCloudDevid := TEXT,
        ErrorCode := TEXT, ErrorMessage := TEXT, Retryable := Field(KBool, false), FailedAt := TIME]
    case DeviceEntitlementSnapshotRequested =>
      map[OrgID := TEXT, AccountDeviceID := TEXT, VideoCloudDevid := TEXT,
        ProductID := TEXT, ProductServiceRevision := Field(KInt64, false), ServiceGrantSHA256 := TEXT,
        PlatformEntitlementRevision := Field(KInt64, false), ServiceOptions := Field(KTexts, false),
        LogRetentionDays := Field(KOptInt64, true), State := TEXT, RequestedBy := TEXT]
    case DeviceEntitlementSnapshotSucceeded =>
      map[OrgID := TEXT, AccountDeviceID := TEXT, VideoCloudDevid := TEXT,
        PlatformEntitlementRevision := Field(KInt64, false), AppliedAt := TIME]
    case DeviceEntitlementSnapshotFailed =>
      map[OrgID := TEXT, AccountDeviceID := TEXT, VideoCloudDevid := TEXT,
        ErrorCode := TEXT, ErrorMessage := TEXT, Retryable := Field(KBool, false), FailedAt := TIME,
        PlatformEntitlementRevision := Field(KInt64, false)]
    case DeviceOnlineChanged =>
      map[OrgID := TEXT, AccountDeviceID := TEXT, VideoCloudDevid := TEXT,
        Status := TEXT, LastSeenAt := TIME]
    case DeviceMetadataChanged =>
      map[OrgID := TEXT, AccountDeviceID := TEXT, VideoCloudDevid := TEXT,
        Metadata := Field(KObject, false)]
    case Unsupported(_) => map[]
  }

  /** requiredJSONFields. */
  function RequiredMembers(t: MessageType): set<Name> {
    match t
    case DeviceProvisionFailed | DeviceDeactivateFailed | DeviceUnprovisionFailed | DeviceEntitlementSnapshotFailed => {Retryable}
    case DeviceUnprovisionRequested => {PlatformOverride}
    case _ => {}
  }

  predicate IsCommand(t: MessageType) {
    t in {DeviceProvisionRequested, DeviceDeactivateRequested, DeviceUnprovisionRequested, DeviceEntitlementSnapshotRequested}
  }

  datatype Route = Route(stream: string, source: string, target: string)

  /** RouteForMessageType. */
  function RouteFor(t: MessageType): Option<Route> {
    if t.Unsupported? then None
    else if IsCommand(t) then Some(Route(STREAM_COMMANDS, ACCOUNT_MANAGER, VIDEO_CLOUD))
    else Some(Route(STREAM_EVENTS, VIDEO_CLOUD, ACCOUNT_MANAGER))
  }

  // ----- encoding/json on those structs

  predicate Int64(n: int) { -0x8000_0000_0000_0000 <= n < 0x8000_0000_0000_0000 }

  function Zero(k: Kind): Value {
    match k
    case KText => VText("")
    case KBool => VBool(false)
    case KInt64 => VInt64(0)
    case KOptInt64 => VOptInt64(None)
    case KTexts => VTexts([])
    case KTime => VTime(ZERO, 0)
    case KObject => VObject(None)
  }

  /** Decodes one member; JSON null leaves the zero value. */
  function ReadValue(k: Kind, j: Json): Option<Value> {
    match (k, j)
    case (_, Null) => Some(Zero(k))
    case (KText, String(s)) => Some(VText(s))
    case (KBool, Bool(b)) => Some(VBool(b))
    case (KInt64, Number(n)) => if Int64(n) then Some(VInt64(n)) else None
    case (KOptInt64, Number(n)) => if Int64(n) then Some(VOptInt64(Some(n))) else None
    case (KTexts, Array(items)) =>
      if forall i :: 0 <= i < |items| ==> items[i].String? || items[i].Null?
      then Some(VTexts(seq(|items|, i requires 0 <= i < |items| => if items[i].String? then items[i].s else "")))
      else None
    case (KTime, String(s)) =>
      (match ReadStrict(s) case Some((t, offset)) => Some(VTime(t, offset)) case None => None)
    case (KObject, Object(members)) => Some(VObject(Some(members)))
    case _ => None
  }

  /** decodeStrictJSON into the payload struct: unknown members are refused, missing ones stay zero. */
  function Decode(schema: map<Name, Field>, j: Json): Option<Payload> {
    if j.Null? then Some(map n | n in schema :: Zero(schema[n].kind))
    else if !j.Object? || !(j.members.Keys <= schema.Keys) then None
    else if forall n :: n in j.members ==> ReadValue(schema[n].kind, j.members[n]).Some? then
      Some(map n | n in schema ::
        if n in j.members then ReadValue(schema[n].kind, j.members[n]).value else Zero(schema[n].kind))
    else None
  }

  /** Encodes one member; a time whose year is not four digits has no JSON form. */
  function WriteValue(v: Value): Option<Json> {
    match v
    case VText(s) => Some(String(s))
    case VBool(b) => Some(Bool(b))
    case VInt64(n) => Some(Number(n))
    case VOptInt64(None) => Some(Null)
    case VOptInt64(Some(n)) => Some(Number(n))
    case VTexts(ts) => Some(Array(seq(|ts|, i requires 0 <= i < |ts| => String(ts[i]))))
    case VTime(t, offset) => if 0 <= t.year <= 9999 && -1440 < offset < 1440 then Some(String(FormatZoned(t, offset))) else None
    case VObject(None) => Some(Null)
    case VObject(Some(m)) => Some(Object(m))
  }

  predicate Omitted(f: Field, v: Value) { f.omitEmpty && v == Zero(f.kind) }

  /** json.Marshal of the payload struct. */
  function Encode(schema: map<Name, Field>, p: Payload): Option<Json>
    requires schema.Keys <= p.Keys
  {
    if forall n :: n in schema ==> WriteValue(p[n]).Some? then
      Some(Object(map n | n in schema && !Omitted(schema[n], p[n]) :: WriteValue(p[n]).value))
    else None
  }

  predicate HasKind(v: Value, k: Kind) {
    match k
    case KText => v.VText?
    case KBool => v.VBool?
    case KInt64 => v.VInt64? && Int64(v.int64)
    case KOptInt64 => v.VOptInt64? && (v.opt.Some? ==> Int64(v.opt.value))
    case KTexts => v.VTexts?
    case KTime => v.VTime?
    case KObject => v.VObject?
  }

  predicate Shaped(schema: map<Name, Field>, p: Payload) {
    p.Keys == schema.Keys && forall n :: n in schema ==> HasKind(p[n], schema[n].kind)
  }

  lemma ValueRoundTrip(k: Kind, v: Value)
    requires HasKind(v, k) && WriteValue(v).Some?
    ensures ReadValue(k, WriteValue(v).value) == Some(v)
  {
    hide ReadStrict, FormatZoned;
    match v
    case VTime(t, offset) => ReadStrictBack(t, offset);
    case VTexts(ts) =>
      var items := WriteValue(v).value.items;
      assert ReadValue(k, Array(items)).value.texts == ts;
    case _ =>
  }

  /** Whatever a payload struct encodes to decodes strictly to the same payload. */
  lemma PayloadRoundTrip(schema: map<Name, Field>, p: Payload)
    requires Shaped(schema, p) && Encode(schema, p).Some?
    ensures Decode(schema, Encode(schema, p).value) == Some(p)
  {
    hide ReadValue, WriteValue, HasKind;
    forall n | n in schema ensures ReadValue(schema[n].kind, WriteValue(p[n]).value) == Some(p[n]) {
      ValueRoundTrip(schema[n].kind, p[n]);
    }
    var j := Encode(schema, p).value;
    assert j.members.Keys <= schema.Keys;
    assert forall n :: n in j.members ==> ReadValue(schema[n].kind, j.members[n]).Some?;
    var q := Decode(schema, j).value;
    assert q.Keys == p.Keys;
    assert forall n :: n in schema ==> q[n] == p[n];
    assert q == p;
  }

  lemma DecodeShapes(schema: map<Name, Field>, j: Json)
    requires Decode(schema, j).Some?
    ensures Shaped(schema, Decode(schema, j).value)
  {
    hide ReadStrict;
  }

  // ----- validators

  function Str(p: Payload, n: Name): string { if n in p && p[n].VText? then p[n].text else "" }

  function Int(p: Payload, n: Name): int { if n in p && p[n].VInt64? then p[n].int64 else 0 }

  function OptInt(p: Payload, n: Name): Option<int> { if n in p && p[n].VOptInt64? then p[n].opt else None }

  function Texts(p: Payload, n: Name): seq<string> { if n in p && p[n].VTexts? then p[n].texts else [] }

  /** Set, and in UTC. */
  predicate UTCTime(p: Payload, n: Name) {
    n in p && p[n].VTime? && p[n].offset == 0 && p[n].time != ZERO
  }

  predicate RequireUUID(s: string) { !Blank(s) && IsUUID(s) }

  /** 64 lowercase hexadecimal digits. */
  predicate LowerSHA256(s: string) {
    |s| == 64 && forall i :: 0 <= i < 64 ==> IsHex(s[i]) && !('A' <= s[i] <= 'F')
  }

  /** ^[a-z][a-z0-9_]{0,63}$ */
  predicate OptionCode(s: string) {
    && 1 <= |s| <= 64 && 'a' <= s[0] <= 'z'
    && forall i :: 1 <= i < |s| ==> 'a' <= s[i] <= 'z' || '0' <= s[i] <= '9' || s[i] == '_'
  }

  predicate ValidServiceOptions(options: seq<string>) {
    |options| <= 64 && (forall i :: 0 <= i < |options| ==> OptionCode(options[i])) && Distinct(options)
  }

  /** validateServiceOptions, with its map of codes seen so far. */
  method ValidateServiceOptions(options: seq<string>) returns (ok: bool)
    ensures ok <==> ValidServiceOptions(options)
  {
    if |options| > 64 { return false; }
    var seen: set<string> := {};
    SeenNone(options);
    for i := 0 to |options|
      invariant Seen(options, i, seen) && forall k :: 0 <= k < i ==> OptionCode(options[k])
    {
      if !OptionCode(options[i]) { return false; }
      SeenOneMore(options, i, seen);
      if options[i] in seen { return false; }
      seen := seen + {options[i]};
    }
    SeenAll(options, seen);
    return true;
  }

  predicate ValidLogRetention(options: seq<string>, days: Option<int>) {
    days.None? || (days.value in {7, 30, 90} && "device_logging" in options)
  }

  predicate Required(p: Payload, names: set<Name>) {
    forall n :: n in names ==> !Blank(Str(p, n))
  }

  predicate LifecycleIDs(p: Payload) {
    RequireUUID(Str(p, OrgID)) && RequireUUID(Str(p, AccountDeviceID))
  }

  /** The services granted by a provisioning command: all of product, revision and digest, or none. */
  predicate ValidGrant(p: Payload) {
    (Str(p, ProductID) != "" || OptInt(p, ProductServiceRevision).Some? || Str(p, ServiceGrantSHA256) != "") ==>
      && RequireUUID(Str(p, ProductID))
      && OptInt(p, ProductServiceRevision).Some? && OptInt(p, ProductServiceRevision).value >= 1
      && Texts(p, ServiceOptions) != [] && LowerSHA256(Str(p, ServiceGrantSHA256))
  }

  /** The Validate method of each payload. */
  predicate Validate(t: MessageType, p: Payload) {
    LifecycleIDs(p) &&
    match t
    case DeviceProvisionRequested =>
      && (Str(p, TransferReservationID) == "" || LowerSHA256(Str(p, TransferReservationID)))
      && ValidServiceOptions(Texts(p, ServiceOptions))
      && ValidLogRetention(Texts(p, ServiceOptions), OptInt(p, LogRetentionDays))
      && ValidGrant(p)
      && Required(p, {VideoCloudDevid, ActivityID, ClipPublicKey, RequestedBy})
    case DeviceProvisionSucceeded => Required(p, {VideoCloudDevid, ActivityID}) && UTCTime(p, ActivatedAt)
    case DeviceProvisionFailed => Required(p, {VideoCloudDevid, ActivityID, ErrorCode, ErrorMessage}) && UTCTime(p, FailedAt)
    case DeviceDeactivateRequested => Required(p, {VideoCloudDevid, RequestedBy, Reason})
    case DeviceDeactivateSucceeded => Required(p, {VideoCloudDevid}) && UTCTime(p, DeactivatedAt)
    case DeviceDeactivateFailed => Required(p, {VideoCloudDevid, ErrorCode, ErrorMessage}) && UTCTime(p, FailedAt)
    case DeviceUnprovisionRequested => Required(p, {VideoCloudDevid, RequestedBy, Reason}) && UTCTime(p, UnprovisionedAt)
    case DeviceUnprovisionSucceeded => Required(p, {VideoCloudDevid}) && UTCTime(p, UnprovisionedAt)
    case DeviceUnprovisionFailed => Required(p, {VideoCloudDevid, ErrorCode, ErrorMessage}) && UTCTime(p, FailedAt)
    case DeviceEntitlementSnapshotRequested =>
      && RequireUUID(Str(p, ProductID)) && Required(p, {VideoCloudDevid, RequestedBy})
      && Int(p, ProductServiceRevision) >= 1 && Int(p, PlatformEntitlementRevision) >= 1
      && LowerSHA256(Str(p, ServiceGrantSHA256))
      && Texts(p, ServiceOptions) != [] && ValidServiceOptions(Texts(p, ServiceOptions))
      && ValidLogRetention(Texts(p, ServiceOptions), OptInt(p, LogRetentionDays))
      && Str(p, State) in {"active", "suspended", "revoked"}
    case DeviceEntitlementSnapshotSucceeded =>
      !Blank(Str(p, VideoCloudDevid)) && Int(p, PlatformEntitlementRevision) >= 1 && UTCTime(p, AppliedAt)
    case DeviceEntitlementSnapshotFailed =>
      Required(p, {VideoCloudDevid, ErrorCode, ErrorMessage}) && Int(p, PlatformEntitlementRevision) >= 1 && UTCTime(p, FailedAt)
    case DeviceOnlineChanged => Required(p, {VideoCloudDevid}) && Str(p, Status) in {"online", "offline"} && UTCTime(p, LastSeenAt)
    case DeviceMetadataChanged => Required(p, {VideoCloudDevid}) && Metadata in p && p[Metadata].VObject? && p[Metadata].content.Some?
    case Unsupported(_) => true
  }

  /** Envelope.PartitionKey compared with the payload's. */
  function PartitionKey(p: Payload): string { Str(p, AccountDeviceID) }

  // ----- envelopes

  datatype Envelope = Envelope(
    messageID: string, correlationID: string, causationID: string, operationID: string,
    sourceService: string, targetService: string, messageType: MessageType, schemaVersion: string,
    partitionKey: string, occurredAt: Civil, occurredOffset: int, payload: Raw)

  /** requireJSONFields; null decodes to no members. */
  predicate HasMembers(j: Json, names: set<Name>) {
    names == {} || (j.Object? && names <= j.members.Keys)
  }

  predicate Framed(e: Envelope) {
    && !Blank(e.messageID) && !Blank(e.correlationID) && !Blank(e.operationID)
    && !Blank(e.partitionKey) && e.occurredAt != ZERO && e.occurredOffset == 0
    && e.schemaVersion == SCHEMA_VERSION_V1
  }

  predicate Routed(e: Envelope, stream: string) {
    match RouteFor(e.messageType)
    case None => false
    case Some(route) =>
      (stream == "" || stream == route.stream) && e.sourceService == route.source && e.targetService == route.target
  }

  /** Envelope.ValidateAndDecode. */
  function ValidateAndDecode(e: Envelope, stream: string): Option<Payload> {
    if !Framed(e) || !Routed(e, stream) || !e.payload.Parsed? then None
    else if !HasMembers(e.payload.json, RequiredMembers(e.messageType)) then None
    else
      match Decode(Schema(e.messageType), e.payload.json)
      case None => None
      case Some(p) => if Validate(e.messageType, p) && e.partitionKey == PartitionKey(p) then Some(p) else None
  }

  lemma DecodedValueWrites(k: Kind, j: Json)
    requires ReadValue(k, j).Some?
    ensures WriteValue(ReadValue(k, j).value).Some?
  {
    hide ReadStrict, FormatZoned;
    if k.KTime? && j.String? { ReadStrictRange(j.s); }
  }

  lemma DecodedEncodes(schema: map<Name, Field>, j: Json)
    requires Decode(schema, j).Some?
    ensures Encode(schema, Decode(schema, j).value).Some?
  {
    hide ReadValue, WriteValue;
    var p := Decode(schema, j).value;
    forall n | n in schema ensures WriteValue(p[n]).Some? {
      ZeroReads(schema[n].kind);
      DecodedValueWrites(schema[n].kind, Null);
      if j.Object? && n in j.members { DecodedValueWrites(schema[n].kind, j.members[n]); }
    }
  }

  lemma ZeroReads(k: Kind)
    ensures ReadValue(k, Null) == Some(Zero(k))
  {}

  /** Members that must be present are never the ones left out for being empty. */
  lemma RequiredAreWritten(t: MessageType)
    ensures forall n :: n in RequiredMembers(t) ==> n in Schema(t) && !Schema(t)[n].omitEmpty
  {}

  /** Re-encoding the payload of an accepted message gives a message accepted with the same payload. */
  lemma AcceptedReencodes(e: Envelope, stream: string)
    requires ValidateAndDecode(e, stream).Some?
    ensures var p := ValidateAndDecode(e, stream).value; var j := Encode(Schema(e.messageType), p);
      j.Some? && ValidateAndDecode(e.(payload := Parsed(j.value)), stream) == Some(p)
  {
    hide Decode, Encode, Schema, Validate, Framed, Routed;
    var schema := Schema(e.messageType);
    var p := ValidateAndDecode(e, stream).value;
    DecodeShapes(schema, e.payload.json);
    DecodedEncodes(schema, e.payload.json);
    PayloadRoundTrip(schema, p);
    RequiredAreWritten(e.messageType);
    EncodeKeeps(schema, p, RequiredMembers(e.messageType));
    SameFrame(e, Encode(schema, p).value, stream);
  }

  lemma EncodeKeeps(schema: map<Name, Field>, p: Payload, names: set<Name>)
    requires schema.Keys <= p.Keys && Encode(schema, p).Some?
    requires forall n :: n in names ==> n in schema && !schema[n].omitEmpty
    ensures HasMembers(Encode(schema, p).value, names)
  {}

  lemma SameFrame(e: Envelope, j: Json, stream: string)
    ensures Framed(e.(payload := Parsed(j))) == Framed(e) && Routed(e.(payload := Parsed(j)), stream) == Routed(e, stream)
  {}
}
