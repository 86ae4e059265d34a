/** Turning a lifecycle command into a direct HTTP call, and the answer into a result event. */
module LifecyclePublisher {
  import opened Wrappers
  import opened Text
  import opened Rfc3339
  import opened Channel

  // ----- HTTP

  datatype ActivationReceipt = ActivationReceipt(
    status: string, deviceID: string, orgID: string, accountDeviceID: string, activityID: string, activated: bool)

  datatype EntitlementReceipt = EntitlementReceipt(
    status: string, deviceID: string, operationID: string, appliedRevision: int, platformEntitlementRevision: int,
    productServiceRevision: int, serviceGrantSHA256: string, logRetentionDays: Option<int>, state: string)

  /** What the body decodes to, for each reader of it; None when it is unreadable, too long or not JSON. */
  datatype Response = Response(
    statusCode: int, status: string, reason: Option<string>,
    activation: Option<ActivationReceipt>, entitlement: Option<EntitlementReceipt>)

  datatype Method = POST | PUT

  datatype Request = Request(verb: Method, action: string, deviceID: string, body: map<string, Json>)

  function Strings(ts: seq<string>): Json { Array(seq(|ts|, i requires 0 <= i < |ts| => String(ts[i]))) }

  function OptMember(name: string, value: Option<int>): map<string, Json> {
    if value.Some? then map[name := Number(value.value)] else map[]
  }

  /** directRequest. */
  function DirectRequest(t: MessageType, p: Payload, operationID: string): Option<Request> {
    var device := Str(p, VideoCloudDevid);
    match t
    case DeviceProvisionRequested =>
      var revision := OptInt(p, ProductServiceRevision);
      Some(Request(POST, "activate", device,
        map["devid" := String(device), "clip_public_key" := String(Str(p, ClipPublicKey)), "activityid" := String(Str(p, ActivityID)),
          "org_id" := String(Str(p, OrgID)), "account_device_id" := String(Str(p, AccountDeviceID))]
        + (if Str(p, TransferReservationID) != "" then
             map["transfer_reservation_id" := String(Str(p, TransferReservationID))]
           else map[])
        + (if revision.Some? then
             map["service_options" := Strings(Texts(p, ServiceOptions)), "product_id" := String(Str(p, ProductID)),
               "product_service_revision" := Number(revision.value), "service_grant_sha256" := String(Str(p, ServiceGrantSHA256))]
             + OptMember("log_retention_days", OptInt(p, LogRetentionDays))
           else map[])))
    case DeviceDeactivateRequested =>
      Some(Request(POST, "deactivate", device, map["devid" := String(device), "activity_id" := String(Str(p, ActivityID))]))
    case DeviceUnprovisionRequested =>
      Some(Request(POST, "unprovision", device, map["devid" := String(device)]))
    case DeviceEntitlementSnapshotRequested =>
      Some(Request(PUT, "entitlement", device,
        map["devid" := String(device), "brand_cloud_id" := String(Str(p, OrgID)),
          "account_device_id" := String(Str(p, AccountDeviceID)), "product_id" := String(Str(p, ProductID)),
          "operation_id" := String(operationID), "product_service_revision" := Number(Int(p, ProductServiceRevision)),
          "service_grant_sha256" := String(Str(p, ServiceGrantSHA256)),
          "platform_entitlement_revision" := Number(Int(p, PlatformEntitlementRevision)),
          "service_options" := Strings(Texts(p, ServiceOptions)), "state" := String(Str(p, State))]
        + OptMember("log_retention_days", OptInt(p, LogRetentionDays))))
    case _ => None
  }

  /** An accepted provisioning command sends its service grant whole or has none to send: the request
      carries all four grant members exactly when the command names a product or a grant digest. */
  lemma GrantIsSentWhole(e: Envelope, stream: string)
    requires ValidateAndDecode(e, stream).Some? && e.messageType.DeviceProvisionRequested?
    ensures var p := ValidateAndDecode(e, stream).value; var request := DirectRequest(e.messageType, p, e.operationID);
      var granted := Str(p, ProductID) != "" || Str(p, ServiceGrantSHA256) != "";
      && request.Some? && request.value.deviceID == Str(p, VideoCloudDevid) && !Blank(request.value.deviceID)
      && forall name :: name in {"service_options", "product_id", "product_service_revision", "service_grant_sha256"} ==>
           (name in request.value.body <==> granted)
  {
    hide Decode, Blank, ValidServiceOptions, ValidLogRetention, LowerSHA256, Framed, Schema, Str, Int, OptInt, Texts, Strings;
    var p := ValidateAndDecode(e, stream).value;
    assert Validate(e.messageType, p);
    assert Required(p, {VideoCloudDevid, ActivityID, ClipPublicKey, RequestedBy});
    GrantMembers(p, e.operationID);
  }

  lemma GrantMembers(p: Payload, operationID: string)
    ensures var request := DirectRequest(DeviceProvisionRequested, p, operationID);
      request.Some? && forall name :: name in {"service_options", "product_id", "product_service_revision", "service_grant_sha256"} ==>
        (name in request.value.body <==> OptInt(p, ProductServiceRevision).Some?)
  {
    hide Str, Int, OptInt, Texts, Strings;
    var common := ["devid", "clip_public_key", "activityid", "org_id", "account_device_id", "transfer_reservation_id",
      "log_retention_days"];
    var grant := ["service_options", "product_id", "product_service_revision", "service_grant_sha256"];
    assert forall i, j :: 0 <= i < |common| && 0 <= j < |grant| ==> common[i] != grant[j];
  }

  // ----- the failure reason

  /** The characters that fit; each byte of a character cut in two is shown as U+FFFD once it is in JSON. */
  function Cut(s: string, room: nat): string {
    if s == "" then ""
    else if Width(s[0]) <= room then [s[0]] + Cut(s[1..], room - Width(s[0]))
    else seq(room, _ => '\U{FFFD}')
  }

  /** truncate, which counts bytes. */
  function Truncate(value: string, limit: nat): string {
    if ByteLength(value) <= limit then value else Cut(value, limit)
  }

  /** failureReason. */
  function FailureReason(r: Response): string {
    if r.reason.Some? && !Blank(r.reason.value) then Truncate(TrimSpace(r.reason.value), 512)
    else "video lifecycle API returned " + r.status
  }

  lemma {:induction false} CutShape(s: string, room: nat) returns (k: nat)
    requires ByteLength(s) > room
    ensures k < |s| && room - Width(s[k]) < ByteLength(s[..k]) <= room
    ensures Cut(s, room) == s[..k] + seq(room - ByteLength(s[..k]), _ => '\U{FFFD}')
  {
    if Width(s[0]) > room {
      k := 0;
      assert Cut(s, room) == s[..0] + seq(room, _ => '\U{FFFD}');
    } else {
      k := CutShape(s[1..], room - Width(s[0]));
      PrefixShift(s, k);
      assert s[k + 1] == s[1..][k];
      k := k + 1;
    }
  }

  lemma PrefixShift(s: string, k: nat)
    requires k < |s|
    ensures s[..k + 1] == [s[0]] + s[1..][..k] && ByteLength(s[..k + 1]) == Width(s[0]) + ByteLength(s[1..][..k])
  {
    assert s[..k + 1] == [s[0]] + s[1..][..k];
    assert s[..k + 1][1..] == s[1..][..k];
  }

  /** Truncation keeps short text whole. Of longer text it keeps the longest run of whole characters that
      fits, and at most three replacement characters where the cut falls inside one. */
  lemma TruncateKeepsPrefix(value: string, limit: nat) returns (k: nat)
    ensures k <= |value| && (ByteLength(value) <= limit ==> Truncate(value, limit) == value && k == |value|)
    ensures ByteLength(value) > limit ==>
      && k < |value| && limit - Width(value[k]) < ByteLength(value[..k]) <= limit
      && Truncate(value, limit) == value[..k] + seq(limit - ByteLength(value[..k]), _ => '\U{FFFD}')
  {
    if ByteLength(value) <= limit {
      k := |value|;
    } else {
      k := CutShape(value, limit);
    }
  }

  /** A failure reason is never blank, whatever the body and however it is cut. */
  lemma ReasonIsVisible(r: Response)
    ensures !Blank(FailureReason(r))
  {
    if r.reason.Some? && !Blank(r.reason.value) {
      var v := TrimSpace(r.reason.value);
      TrimSpaceTrims(r.reason.value);
      assert Truncate(v, 512) != "" && Truncate(v, 512)[0] == v[0];
      VisibleStart(Truncate(v, 512));
    } else {
      VisibleStart(FailureReason(r));
    }
  }

  // ----- the result event

  predicate Succeeded(r: Response) { 200 <= r.statusCode < 300 }

  /** The event a command turns into. */
  function ResultType(t: MessageType, succeeded: bool): MessageType {
    match t
    case DeviceProvisionRequested => if succeeded then DeviceProvisionSucceeded else DeviceProvisionFailed
    case DeviceDeactivateRequested => if succeeded then DeviceDeactivateSucceeded else DeviceDeactivateFailed
    case DeviceUnprovisionRequested => if succeeded then DeviceUnprovisionSucceeded else DeviceUnprovisionFailed
    case DeviceEntitlementSnapshotRequested =>
      if succeeded then DeviceEntitlementSnapshotSucceeded else DeviceEntitlementSnapshotFailed
    case _ => Unsupported("")
  }

  function SucceededPayload(t: MessageType, p: Payload, now: Civil): Payload {
    match t
    case DeviceProvisionRequested =>
      map[OrgID := VText(Str(p, OrgID)), AccountDeviceID := VText(Str(p, AccountDeviceID)),
        VideoCloudDevid := VText(Str(p, VideoCloudDevid)),
        ActivityID := VText(Str(p, ActivityID)), ActivatedAt := VTime(now, 0)]
    case DeviceDeactivateRequested =>
      map[OrgID := VText(Str(p, OrgID)), AccountDeviceID := VText(Str(p, AccountDeviceID)),
        VideoCloudDevid := VText(Str(p, VideoCloudDevid)),
        ActivityID := VText(Str(p, ActivityID)), DeactivatedAt := VTime(now, 0)]
    case DeviceUnprovisionRequested =>
      map[OrgID := VText(Str(p, OrgID)), AccountDeviceID := VText(Str(p, AccountDeviceID)),
        VideoCloudDevid := VText(Str(p, VideoCloudDevid)),
        UnprovisionedAt := VTime(now, 0)]
    case DeviceEntitlementSnapshotRequested =>
      map[OrgID := VText(Str(p, OrgID)), AccountDeviceID := VText(Str(p, AccountDeviceID)),
        VideoCloudDevid := VText(Str(p, VideoCloudDevid)),
        PlatformEntitlementRevision := VInt64(Int(p, PlatformEntitlementRevision)), AppliedAt := VTime(now, 0)]
    case _ => map[]
  }

  function FailedPayload(t: MessageType, p: Payload, now: Civil, reason: string): Payload {
    match t
    case DeviceProvisionRequested =>
      map[OrgID := VText(Str(p, OrgID)), AccountDeviceID := VText(Str(p, AccountDeviceID)),
        VideoCloudDevid := VText(Str(p, VideoCloudDevid)),
        ErrorCode := VText("activation_failed"), ErrorMessage := VText(reason), Retryable := VBool(false),
        FailedAt := VTime(now, 0), ActivityID := VText(Str(p, ActivityID))]
    case DeviceDeactivateRequested =>
      map[OrgID := VText(Str(p, OrgID)), AccountDeviceID := VText(Str(p, AccountDeviceID)),
        VideoCloudDevid := VText(Str(p, VideoCloudDevid)),
        ErrorCode := VText("deactivation_failed"), ErrorMessage := VText(reason), Retryable := VBool(false),
        FailedAt := VTime(now, 0), ActivityID := VText(Str(p, ActivityID))]
    case DeviceUnprovisionRequested =>
      map[OrgID := VText(Str(p, OrgID)), AccountDeviceID := VText(Str(p, AccountDeviceID)),
        VideoCloudDevid := VText(Str(p, VideoCloudDevid)),
        ErrorCode := VText("unprovision_failed"), ErrorMessage := VText(reason), Retryable := VBool(false),
        FailedAt := VTime(now, 0)]
    case DeviceEntitlementSnapshotRequested =>
      map[OrgID := VText(Str(p, OrgID)), AccountDeviceID := VText(Str(p, AccountDeviceID)),
        VideoCloudDevid := VText(Str(p, VideoCloudDevid)),
        ErrorCode := VText("entitlement_update_failed"), ErrorMessage := VText(reason), Retryable := VBool(false),
        FailedAt := VTime(now, 0),
        PlatformEntitlementRevision := VInt64(Int(p, PlatformEntitlementRevision))]
    case _ => map[]
  }

  function ResultPayload(t: MessageType, p: Payload, now: Civil, r: Response): Payload {
    if Succeeded(r) then SucceededPayload(t, p, now) else FailedPayload(t, p, now, FailureReason(r))
  }

  /** The envelope around an encoded result. */
  function Wrap(request: Envelope, t: MessageType, now: Civil, body: Json): Envelope {
    Envelope(request.messageID + "-result", request.correlationID, request.messageID, request.operationID,
      VIDEO_CLOUD, ACCOUNT_MANAGER, t, SCHEMA_VERSION_V1, request.partitionKey, now, 0, Parsed(body))
  }

  lemma RevisionInRange(t: MessageType, p: Payload)
    requires Shaped(Schema(t), p)
    ensures Int64(Int(p, PlatformEntitlementRevision))
  {}

  /** The results have the fields of their event's struct. */
  lemma SucceededShaped(t: MessageType, p: Payload, now: Civil)
    requires IsCommand(t) && Int64(Int(p, PlatformEntitlementRevision))
    ensures Shaped(Schema(ResultType(t, true)), SucceededPayload(t, p, now))
  {
    hide Str, Int;
    match t {
      case DeviceProvisionRequested =>
      case DeviceDeactivateRequested =>
      case DeviceUnprovisionRequested =>
      case DeviceEntitlementSnapshotRequested =>
    }
  }

  lemma FailedShaped(t: MessageType, p: Payload, now: Civil, reason: string)
    requires IsCommand(t) && Int64(Int(p, PlatformEntitlementRevision))
    ensures Shaped(Schema(ResultType(t, false)), FailedPayload(t, p, now, reason))
  {
    hide Str, Int;
    match t {
      case DeviceProvisionRequested =>
      case DeviceDeactivateRequested =>
      case DeviceUnprovisionRequested =>
      case DeviceEntitlementSnapshotRequested =>
    }
  }

  lemma ResultShaped(t: MessageType, p: Payload, now: Civil, r: Response)
    requires IsCommand(t) && Shaped(Schema(t), p)
    ensures Shaped(Schema(ResultType(t, Succeeded(r))), ResultPayload(t, p, now, r))
  {
    hide SucceededPayload, FailedPayload, Shaped, ResultType, Schema;
    RevisionInRange(t, p);
    if Succeeded(r) {
      SucceededShaped(t, p, now);
    } else {
      FailedShaped(t, p, now, FailureReason(r));
    }
  }

  /** resultEnvelope: encode the result, wrap it, and check it against the event contract. */
  function ResultEnvelope(request: Envelope, p: Payload, now: Civil, r: Response): Option<Envelope>
    requires Shaped(Schema(request.messageType), p)
  {
    if !IsCommand(request.messageType) then None else
    var t := ResultType(request.messageType, Succeeded(r));
    ResultShaped(request.messageType, p, now, r);
    match Encode(Schema(t), ResultPayload(request.messageType, p, now, r))
    case None => None
    case Some(body) =>
      var e := Wrap(request, t, now, body);
      if ValidateAndDecode(e, STREAM_EVENTS).Some? then Some(e) else None
  }

  // ----- the result lands inside the event contract

  /** The one time a result carries. */
  function TimeMember(t: MessageType, succeeded: bool): Name {
    if !succeeded then FailedAt
    else
      match t
      case DeviceProvisionRequested => ActivatedAt
      case DeviceDeactivateRequested => DeactivatedAt
      case DeviceUnprovisionRequested => UnprovisionedAt
      case _ => AppliedAt
  }

  ghost predicate Carries(t: MessageType, p: Payload, q: Payload, time: Name, now: Civil) {
    && Str(q, OrgID) == Str(p, OrgID) && Str(q, AccountDeviceID) == Str(p, AccountDeviceID)
    && Str(q, VideoCloudDevid) == Str(p, VideoCloudDevid)
    && (t.DeviceProvisionRequested? ==> Str(q, ActivityID) == Str(p, ActivityID))
    && (t.DeviceEntitlementSnapshotRequested? ==> Int(q, PlatformEntitlementRevision) == Int(p, PlatformEntitlementRevision))
    && time in q && q[time] == VTime(now, 0)
  }

  lemma SucceededCarries(t: MessageType, p: Payload, now: Civil)
    requires IsCommand(t)
    ensures Carries(t, p, SucceededPayload(t, p, now), TimeMember(t, true), now)
  {
    var q := SucceededPayload(t, p, now);
    match t {
      case DeviceProvisionRequested => assert Carries(t, p, q, ActivatedAt, now);
      case DeviceDeactivateRequested => assert Carries(t, p, q, DeactivatedAt, now);
      case DeviceUnprovisionRequested => assert Carries(t, p, q, UnprovisionedAt, now);
      case DeviceEntitlementSnapshotRequested => assert Carries(t, p, q, AppliedAt, now);
    }
  }

  lemma FailedCarries(t: MessageType, p: Payload, now: Civil, reason: string)
    requires IsCommand(t)
    ensures Carries(t, p, FailedPayload(t, p, now, reason), FailedAt, now)
  {
    var q := FailedPayload(t, p, now, reason);
    match t {
      case DeviceProvisionRequested => assert Carries(t, p, q, FailedAt, now);
      case DeviceDeactivateRequested => assert Carries(t, p, q, FailedAt, now);
      case DeviceUnprovisionRequested => assert Carries(t, p, q, FailedAt, now);
      case DeviceEntitlementSnapshotRequested => assert Carries(t, p, q, FailedAt, now);
    }
  }

  lemma CopiesIdentity(t: MessageType, p: Payload, now: Civil, r: Response)
    requires IsCommand(t)
    ensures Carries(t, p, ResultPayload(t, p, now, r), TimeMember(t, Succeeded(r)), now)
  {
    hide SucceededPayload, FailedPayload, Carries;
    if Succeeded(r) {
      SucceededCarries(t, p, now);
    } else {
      FailedCarries(t, p, now, FailureReason(r));
    }
  }

  lemma FailureIsNamed(t: MessageType, p: Payload, now: Civil, r: Response)
    requires IsCommand(t) && !Succeeded(r)
    ensures var q := ResultPayload(t, p, now, r);
      !Blank(Str(q, ErrorCode)) && Str(q, ErrorMessage) == FailureReason(r)
  {
    hide FailureReason, Blank;
    VisibleStart("activation_failed");
    VisibleStart("deactivation_failed");
    VisibleStart("unprovision_failed");
    VisibleStart("entitlement_update_failed");
  }

  lemma ResultValidates(t: MessageType, p: Payload, now: Civil, r: Response)
    requires IsCommand(t) && Validate(t, p)
    ensures Validate(ResultType(t, Succeeded(r)), ResultPayload(t, p, now, r)) <==> now != ZERO
  {
    hide FailureReason, Blank, ResultPayload, Str, Int, RequireUUID, ValidServiceOptions, ValidLogRetention, ValidGrant, LowerSHA256;
    CopiesIdentity(t, p, now, r);
    if !Succeeded(r) {
      FailureIsNamed(t, p, now, r);
      ReasonIsVisible(r);
    }
  }

  lemma ResultEncodes(t: MessageType, p: Payload, now: Civil, r: Response)
    requires IsCommand(t) && Shaped(Schema(t), p)
    ensures Shaped(Schema(ResultType(t, Succeeded(r))), ResultPayload(t, p, now, r))
    ensures Encode(Schema(ResultType(t, Succeeded(r))), ResultPayload(t, p, now, r)).Some? <==> 0 <= now.year <= 9999
  {
    hide ResultPayload, FormatZoned;
    ResultShaped(t, p, now, r);
    CopiesIdentity(t, p, now, r);
    var schema, q := Schema(ResultType(t, Succeeded(r))), ResultPayload(t, p, now, r);
    var time := TimeMember(t, Succeeded(r));
    assert time in schema;
    forall n | n in schema ensures WriteValue(q[n]).Some? <==> n != time || 0 <= now.year <= 9999 {
      if Succeeded(r) { OneTimeInSuccess(t, n); } else { OneTimeInFailure(t, n); }
    }
  }

  lemma OneTimeInSuccess(t: MessageType, n: Name)
    requires IsCommand(t)
    ensures var schema := Schema(ResultType(t, true));
      n in schema ==> (schema[n].kind == KTime <==> n == TimeMember(t, true)) && schema[n].kind in {KText, KBool, KInt64, KTime}
  {
    match t {
      case DeviceProvisionRequested =>
      case DeviceDeactivateRequested =>
      case DeviceUnprovisionRequested =>
      case DeviceEntitlementSnapshotRequested =>
    }
  }

  lemma OneTimeInFailure(t: MessageType, n: Name)
    requires IsCommand(t)
    ensures var schema := Schema(ResultType(t, false));
      n in schema ==> (schema[n].kind == KTime <==> n == TimeMember(t, false)) && schema[n].kind in {KText, KBool, KInt64, KTime}
  {
    match t {
      case DeviceProvisionRequested =>
      case DeviceDeactivateRequested =>
      case DeviceUnprovisionRequested =>
      case DeviceEntitlementSnapshotRequested =>
    }
  }

  lemma WrapIsFramed(cmd: Envelope, t: MessageType, now: Civil, body: Json)
    requires Framed(cmd)
    ensures Framed(Wrap(cmd, t, now, body)) <==> now != ZERO
    ensures RouteFor(t) == Some(Route(STREAM_EVENTS, VIDEO_CLOUD, ACCOUNT_MANAGER)) ==> Routed(Wrap(cmd, t, now, body), STREAM_EVENTS)
  {
    hide Blank;
    VisibleEnd(cmd.messageID + "-result");
  }

  /** For every accepted command, whatever the service answered: a result exists exactly when the clock is set and its
      year has four digits. It is accepted on the event stream and decodes to the intended payload; it keeps
      the command's partition key, operation and correlation, and names the command as its cause. */
  lemma ResultAccepted(cmd: Envelope, now: Civil, r: Response)
    requires ValidateAndDecode(cmd, STREAM_COMMANDS).Some?
    ensures Shaped(Schema(cmd.messageType), ValidateAndDecode(cmd, STREAM_COMMANDS).value)
    ensures var p := ValidateAndDecode(cmd, STREAM_COMMANDS).value; var result := ResultEnvelope(cmd, p, now, r);
      && (result.Some? <==> now != ZERO && 0 <= now.year <= 9999)
      && (result.Some? ==>
        var e := result.value;
        && ValidateAndDecode(e, STREAM_EVENTS) == Some(ResultPayload(cmd.messageType, p, now, r))
        && e.messageType == ResultType(cmd.messageType, Succeeded(r))
        && e.partitionKey == cmd.partitionKey && e.operationID == cmd.operationID && e.correlationID == cmd.correlationID
        && e.causationID == cmd.messageID && e.messageID == cmd.messageID + "-result" && e.occurredAt == now)
  {
    hide Decode, Encode, Schema, Validate, Framed, ResultPayload, Shaped, ResultType;
    var t := cmd.messageType;
    var p := ValidateAndDecode(cmd, STREAM_COMMANDS).value;
    DecodeShapes(Schema(t), cmd.payload.json);
    assert IsCommand(t);
    ResultEncodes(t, p, now, r);
    var rt, q := ResultType(t, Succeeded(r)), ResultPayload(t, p, now, r);
    ShapedHas(Schema(rt), q);
    var body := Encode(Schema(rt), q);
    if body.Some? {
      PayloadRoundTrip(Schema(rt), q);
      RequiredAreWritten(rt);
      EncodeKeeps(Schema(rt), q, RequiredMembers(rt));
      ResultValidates(t, p, now, r);
      CopiesIdentity(t, p, now, r);
      ResultRoute(t, Succeeded(r));
      WrapIsFramed(cmd, rt, now, body.value);
    }
  }

  lemma ShapedHas(schema: map<Name, Field>, p: Payload)
    requires Shaped(schema, p)
    ensures schema.Keys == p.Keys
  {}

  lemma ResultRoute(t: MessageType, succeeded: bool)
    requires IsCommand(t)
    ensures RouteFor(ResultType(t, succeeded)) == Some(Route(STREAM_EVENTS, VIDEO_CLOUD, ACCOUNT_MANAGER))
  {}

  // ----- publishing

  predicate ActivationReceiptMatches(p: Payload, r: Response) {
    && r.statusCode == 200 && r.activation.Some?
    && var a := r.activation.value;
    && a.status == "ok" && a.deviceID == Str(p, VideoCloudDevid) && a.orgID == Str(p, OrgID)
    && a.accountDeviceID == Str(p, AccountDeviceID) && a.activityID == Str(p, ActivityID) && a.activated
  }

  predicate EntitlementReceiptMatches(p: Payload, operationID: string, r: Response) {
    && r.statusCode == 200 && r.entitlement.Some?
    && var a := r.entitlement.value;
    && a.status == "ok" && a.deviceID == Str(p, VideoCloudDevid) && a.operationID == operationID
    && a.appliedRevision == Int(p, PlatformEntitlementRevision)
    && a.platformEntitlementRevision == Int(p, PlatformEntitlementRevision)
    && a.productServiceRevision == Int(p, ProductServiceRevision)
    && a.serviceGrantSHA256 == Str(p, ServiceGrantSHA256) && a.state == Str(p, State)
    && a.logRetentionDays == OptInt(p, LogRetentionDays)
  }

  /** The answer is final: not a retryable status, and a success carries the receipt its command calls for. */
  predicate Final(t: MessageType, p: Payload, operationID: string, r: Response) {
    && r.statusCode != 429 && r.statusCode < 500
    && (Succeeded(r) && t.DeviceProvisionRequested? ==> ActivationReceiptMatches(p, r))
    && (Succeeded(r) && t.DeviceEntitlementSnapshotRequested? ==> EntitlementReceiptMatches(p, operationID, r))
  }

  /** A permanent failure, a failure worth retrying, or success. */
  datatype Outcome = Permanent | Transient | Published

  predicate Accepts(stream: string, e: Envelope) {
    stream == STREAM_COMMANDS && ValidateAndDecode(e, stream).Some?
  }

  class Publisher {
    /** Requests put on the wire, and result events handed to the projection, oldest first. */
    var sent: seq<Request>
    var handed: seq<Envelope>

    constructor ()
      ensures sent == [] && handed == []
    {
      sent, handed := [], [];
    }

    /** Publish. The exchange is what the call would answer, None for a transport error; projects says whether
        the projection takes the result. */
    method Publish(stream: string, e: Envelope, exchange: Option<Response>, now: Civil, projects: bool) returns (outcome: Outcome)
      modifies this
      ensures !Accepts(stream, e) ==> outcome == Permanent && sent == old(sent) && handed == old(handed)
      ensures Accepts(stream, e) ==>
        var p := ValidateAndDecode(e, stream).value;
        && DirectRequest(e.messageType, p, e.operationID).Some?
        && sent == old(sent) + [DirectRequest(e.messageType, p, e.operationID).value]
        && if exchange.None? || !Final(e.messageType, p, e.operationID, exchange.value) then
             outcome == Transient && handed == old(handed)
           else if now == ZERO || !(0 <= now.year <= 9999) then
             outcome == Permanent && handed == old(handed)
           else
             && outcome == (if projects then Published else Transient)
             && Shaped(Schema(e.messageType), p)
             && ResultEnvelope(e, p, now, exchange.value).Some?
             && handed == old(handed) + [ResultEnvelope(e, p, now, exchange.value).value]
    {
      hide FailureReason, Schema, DirectRequest, Shaped, Framed, Validate, Decode;
      if stream != STREAM_COMMANDS { return Permanent; }
      var payload := ValidateAndDecode(e, stream);
      if payload.None? { return Permanent; }
      var p, t := payload.value, e.messageType;
      CommandsHaveRequests(t, p, e.operationID);
      var request := DirectRequest(t, p, e.operationID);
      if request.None? { return Permanent; }
      sent := sent + [request.value];
      if exchange.None? { return Transient; }
      var r := exchange.value;
      if r.statusCode == 429 || r.statusCode >= 500 { return Transient; }
      if t.DeviceProvisionRequested? && Succeeded(r) && !ActivationReceiptMatches(p, r) { return Transient; }
      if t.DeviceEntitlementSnapshotRequested? {
        if r.statusCode == 202 { return Transient; }
        if Succeeded(r) && !EntitlementReceiptMatches(p, e.operationID, r) { return Transient; }
      }
      ResultAccepted(e, now, r);
      var result := ResultEnvelope(e, p, now, r);
      if result.None? { return Permanent; }
      handed := handed + [result.value];
      return if projects then Published else Transient;
    }
  }

  lemma CommandsHaveRequests(t: MessageType, p: Payload, operationID: string)
    ensures DirectRequest(t, p, operationID).Some? <==> IsCommand(t)
  {}
}
