/** The receipts of cloud handoffs and cloud deletions: which bytes are hashed, and what a receipt pins down.
    The hash itself is any function of the bytes; no property of it is assumed, so each result about
    receipts ends in "or these two byte strings are a collision". */
module HandoffEvidence {
  import opened Wrappers
  import opened Decimal
  import opened Rfc3339

  type Int64 = n: int | -0x8000_0000_0000_0000 <= n < 0x8000_0000_0000_0000
  const MAX_INT64: Int64 := 0x7FFF_FFFF_FFFF_FFFF

  /** A time.Time: an instant, and the date and offset (in minutes) its zone shows it with. */
  datatype Time = Time(utc: Civil, shown: Civil, offset: int) {
    predicate Equal(o: Time) { utc == o.utc }

    predicate IsZero() { utc == ZERO }

    /** Equal to itself truncated to microseconds. */
    predicate WholeMicros() { utc.nanos % 1000 == 0 }

    predicate Before(o: Time) { Earlier(Key(utc), Key(o.utc)) }

    /** Time.MarshalJSON accepts it: the shown year has four digits, and the offset is under a day. */
    predicate HasJSON() { 0 <= shown.year <= 9999 && -1440 < offset < 1440 }

    function Text(): string { Format(utc) }
  }

  function Key(t: Civil): seq<int> { [t.year, t.month, t.day, t.hour, t.minute, t.second, t.nanos] }

  predicate Earlier(a: seq<int>, b: seq<int>)
    requires |a| == |b|
  {
    a != [] && (a[0] < b[0] || (a[0] == b[0] && Earlier(a[1..], b[1..])))
  }

  // ----- the encoding

  /** binary.BigEndian.PutUint32(uint32(n)). */
  function BigEndian32(n: nat): (s: string)
    ensures |s| == 4
  {
    [(n / 0x100_0000 % 0x100) as char, (n / 0x1_0000 % 0x100) as char, (n / 0x100 % 0x100) as char, (n % 0x100) as char]
  }

  function ReadBigEndian32(s: string): nat
    requires |s| == 4
  {
    s[0] as nat * 0x100_0000 + s[1] as nat * 0x1_0000 + s[2] as nat * 0x100 + s[3] as nat
  }

  function Framed(field: string): (s: string)
    ensures |s| == 4 + |field|
  {
    BigEndian32(|field|) + field
  }

  function Encode(fields: seq<string>): string {
    if fields == [] then "" else Framed(fields[0]) + Encode(fields[1..])
  }

  predicate Bytes(s: string) { forall i :: 0 <= i < |s| ==> s[i] as int < 0x100 }

  /** Reads back length-prefixed fields; None when the bytes do not end on a field boundary. */
  function Decode(s: string): Option<seq<string>>
    decreases |s|
  {
    if s == "" then Some([])
    else if |s| < 4 || !Bytes(s[..4]) then None
    else
      var n := ReadBigEndian32(s[..4]);
      if 4 + n > |s| then None
      else
        match Decode(s[4 + n..])
        case None => None
        case Some(rest) => Some([s[4..4 + n]] + rest)
  }

  predicate Fits(s: string) { |s| < 0x1_0000_0000 }

  predicate Short(fields: seq<string>) {
    forall i :: 0 <= i < |fields| ==> Fits(fields[i])
  }

  lemma BigEndian32Back(n: nat)
    ensures Bytes(BigEndian32(n))
    ensures ReadBigEndian32(BigEndian32(n)) == n % 0x1_0000_0000
  {
    var a, b, c := n / 0x100, n / 0x1_0000, n / 0x100_0000;
    assert b == a / 0x100 && c == b / 0x100;
    assert n == a * 0x100 + n % 0x100;
    assert a == b * 0x100 + a % 0x100;
    assert b == c * 0x100 + b % 0x100;
    assert c == (n / 0x1_0000_0000) * 0x100 + c % 0x100;
  }

  lemma BigEndian32Forth(s: string)
    requires |s| == 4 && Bytes(s)
    ensures ReadBigEndian32(s) < 0x1_0000_0000
    ensures BigEndian32(ReadBigEndian32(s)) == s
  {
    var n := ReadBigEndian32(s);
    var a, b, c, d := s[0] as nat, s[1] as nat, s[2] as nat, s[3] as nat;
    assert n / 0x100 == a * 0x1_0000 + b * 0x100 + c && n % 0x100 == d;
    assert n / 0x1_0000 == a * 0x100 + b && n / 0x100 % 0x100 == c;
    assert n / 0x100_0000 == a;
  }

  lemma FramedPieces(f: string, rest: string)
    ensures var s := Framed(f) + rest;
      s[..4] == BigEndian32(|f|) && s[4..4 + |f|] == f && s[4 + |f|..] == rest
  {
    hide BigEndian32;
  }

  lemma DecodeFramed(f: string, rest: string)
    requires Fits(f) && Decode(rest).Some?
    ensures Decode(Framed(f) + rest) == Some([f] + Decode(rest).value)
  {
    hide BigEndian32, ReadBigEndian32, Bytes, Decode;
    FramedPieces(f, rest);
    BigEndian32Back(|f|);
    var s := Framed(f) + rest;
    DecodeStep(s, |f|);
  }

  lemma DecodeStep(s: string, n: nat)
    requires |s| >= 4 + n && Bytes(s[..4]) && ReadBigEndian32(s[..4]) == n && Decode(s[4 + n..]).Some?
    ensures Decode(s) == Some([s[4..4 + n]] + Decode(s[4 + n..]).value)
  {
    hide ReadBigEndian32, Bytes;
  }

  /** The encoding has a total left inverse on short fields. */
  lemma {:induction false} DecodeEncode(fields: seq<string>)
    requires Short(fields)
    ensures Decode(Encode(fields)) == Some(fields)
  {
    hide Decode;
    if fields == [] {
      DecodeEmpty();
    } else {
      DecodeEncode(fields[1..]);
      DecodeFramed(fields[0], Encode(fields[1..]));
      assert fields == [fields[0]] + fields[1..];
    }
  }

  lemma DecodeEmpty()
    ensures Decode("") == Some([])
  {}

  lemma DecodedStep(s: string)
    requires s != "" && Decode(s).Some?
    ensures |s| >= 4 && Bytes(s[..4])
    ensures var n := ReadBigEndian32(s[..4]);
      |s| >= 4 + n && Decode(s[4 + n..]).Some? && Decode(s).value == [s[4..4 + n]] + Decode(s[4 + n..]).value
  {
    hide ReadBigEndian32, Bytes;
  }

  /** Whatever decodes was encoded from exactly those fields, and they are short. */
  lemma {:induction false} EncodeDecode(s: string)
    requires Decode(s).Some?
    ensures Encode(Decode(s).value) == s && Short(Decode(s).value)
    decreases |s|
  {
    hide Decode, Bytes, ReadBigEndian32, BigEndian32;
    if s == "" {
      DecodeEmpty();
    } else {
      DecodedStep(s);
      var n := ReadBigEndian32(s[..4]);
      var f, rest := s[4..4 + n], Decode(s[4 + n..]).value;
      EncodeDecode(s[4 + n..]);
      BigEndian32Forth(s[..4]);
      assert Encode([f] + rest) == Framed(f) + Encode(rest) by { assert ([f] + rest)[1..] == rest; }
      assert s == s[..4] + f + s[4 + n..];
    }
  }

  /** The round trip holds for exactly the lists whose fields are all shorter than 2^32 bytes. */
  lemma DecodesExactlyShort(fields: seq<string>)
    ensures Decode(Encode(fields)) == Some(fields) <==> Short(fields)
  {
    if Short(fields) {
      DecodeEncode(fields);
    } else if Decode(Encode(fields)) == Some(fields) {
      EncodeDecode(Encode(fields));
    }
  }

  lemma EncodeInjective(a: seq<string>, b: seq<string>)
    requires Short(a) && Short(b)
    ensures Encode(a) == Encode(b) <==> a == b
  {
    DecodeEncode(a);
    DecodeEncode(b);
  }

  function Repeated<T>(x: T, n: nat): seq<T> { seq(n, _ => x) }

  lemma {:induction false} EncodeEmpties(n: nat)
    ensures Encode(Repeated("", n)) == Repeated(0 as char, 4 * n)
  {
    if n > 0 {
      EncodeEmpties(n - 1);
      assert Repeated("", n)[1..] == Repeated("", n - 1);
      assert Framed("") == Repeated(0 as char, 4);
    }
  }

  /** Past the 32-bit length two different lists share their encoding: one field of 2^32 zero bytes, and
      2^30 + 1 empty fields. */
  lemma LongFieldsCollide()
    ensures var long := [Repeated(0 as char, 0x1_0000_0000)]; var empties := Repeated("", 0x4000_0001);
      long != empties && Encode(long) == Encode(empties)
  {
    hide Repeated;
    var f: string := seq(0x1_0000_0000, _ => 0 as char);
    assert f == Repeated(0 as char, 0x1_0000_0000) by { RepeatedIs(0 as char, 0x1_0000_0000); }
    EncodeEmpties(0x4000_0001);
    RepeatedIs("", 0x4000_0001);
    RepeatedIs(0 as char, 4 * 0x4000_0001);
    assert Encode([f]) == Framed(f) + Encode([]) by { assert [f][1..] == []; }
    assert Encode([f]) == Repeated(0 as char, 4 * 0x4000_0001);
  }

  lemma RepeatedIs<T>(x: T, n: nat)
    ensures |Repeated(x, n)| == n && forall i :: 0 <= i < n ==> Repeated(x, n)[i] == x
  {}

  // ----- hashing, as the digest functions do it

  /** A running hash: what has been written so far, in order. */
  class Hash {
    var written: string

    constructor ()
      ensures written == ""
    {
      written := "";
    }

    method Write(p: string)
      modifies this
      ensures written == old(written) + p
    {
      written := written + p;
    }
  }

  lemma {:induction false} EncodeSnoc(fields: seq<string>, f: string)
    ensures Encode(fields + [f]) == Encode(fields) + Framed(f)
  {
    if fields != [] {
      EncodeSnoc(fields[1..], f);
      assert (fields + [f])[1..] == fields[1..] + [f];
    }
  }

  method PutUint32(size: array<char>, n: nat)
    requires size.Length == 4
    modifies size
    ensures size[..] == BigEndian32(n)
  {
    size[0], size[1] := (n / 0x100_0000 % 0x100) as char, (n / 0x1_0000 % 0x100) as char;
    size[2], size[3] := (n / 0x100 % 0x100) as char, (n % 0x100) as char;
  }

  /** The loop shared by the three digest functions. */
  method Digest(sum: string -> string, fields: seq<string>) returns (hex: string)
    ensures hex == sum(Encode(fields))
  {
    hide BigEndian32;
    var h := new Hash();
    var size := new char[4];
    for i := 0 to |fields|
      invariant fresh(h) && fresh(size) && h.written == Encode(fields[..i])
      modifies h, size
    {
      var field := fields[i];
      PutUint32(size, |field|);
      h.Write(size[..]);
      h.Write(field);
      EncodeSnoc(fields[..i], field);
      assert fields[..i + 1] == fields[..i] + [field];
    }
    assert fields[..|fields|] == fields;
    hex := sum(h.written);
  }

  // ----- what is hashed

  datatype Participant = Factory | VideoControlPlane | MQTTUsage {
    function Domain(): string {
      match this
      case Factory => "factory-cloud-handoff-v1"
      case VideoControlPlane => "video-control-plane-cloud-handoff-v1"
      case MQTTUsage => "mqtt-usage-cloud-handoff-v1"
    }
  }

  datatype Binding = Binding(
    cloudID: string, operationID: string, sourceUserID: string, targetUserID: string,
    ownershipVersion: Int64, cutoff: Time)
  {
    predicate Equal(o: Binding) {
      && cloudID == o.cloudID && operationID == o.operationID && sourceUserID == o.sourceUserID
      && targetUserID == o.targetUserID && ownershipVersion == o.ownershipVersion && cutoff.Equal(o.cutoff)
    }

    predicate Valid() {
      && ValidUUID(cloudID) && ValidUUID(operationID) && ValidUUID(sourceUserID) && ValidUUID(targetUserID)
      && sourceUserID != targetUserID && ownershipVersion > 0 && !cutoff.IsZero() && cutoff.WholeMicros()
    }
  }

  datatype DeletionBinding = DeletionBinding(
    cloudID: string, ownerUserID: string, ownershipVersion: Int64, authorizationVersion: Int64,
    operationID: string, cutoff: Time)
  {
    predicate Equal(o: DeletionBinding) {
      && cloudID == o.cloudID && ownerUserID == o.ownerUserID && ownershipVersion == o.ownershipVersion
      && authorizationVersion == o.authorizationVersion && operationID == o.operationID && cutoff.Equal(o.cutoff)
    }
  }

  datatype DeletionEvidence = DeletionEvidence(
    cloudID: string, ownerUserID: string, ownershipVersion: Int64, authorizationVersion: Int64,
    complete: bool, receiptID: string, blockers: seq<string>, observedAt: Time, expiresAt: Time)
  {
    predicate Equal(o: DeletionEvidence) {
      && cloudID == o.cloudID && ownerUserID == o.ownerUserID && ownershipVersion == o.ownershipVersion
      && authorizationVersion == o.authorizationVersion && complete == o.complete && receiptID == o.receiptID
      && blockers == o.blockers && observedAt.Equal(o.observedAt) && expiresAt.Equal(o.expiresAt)
    }
  }

  function FormatBool(b: bool): string { if b then "true" else "false" }

  /** Everything the client ever hashes. */
  datatype Statement =
    | Handoff(participant: Participant, tag: string, binding: Binding, extra: seq<string>)
    | DeletionHold(tag: string, deletion: DeletionBinding, extra: seq<string>)
    | Evidence(evidence: DeletionEvidence)
  {
    /** The fixed fields: domain, tag, and what the statement is about. */
    function Head(): seq<string> {
      match this
      case Handoff(p, tag, b, _) =>
        [p.Domain(), tag, b.cloudID, b.operationID, b.sourceUserID, b.targetUserID,
         FormatInt(b.ownershipVersion), b.cutoff.Text()]
      case DeletionHold(tag, b, _) =>
        ["video-control-plane-cloud-deletion-hold-v1", tag, b.cloudID, b.ownerUserID, b.operationID,
         FormatInt(b.ownershipVersion), FormatInt(b.authorizationVersion), b.cutoff.Text()]
      case Evidence(e) =>
        ["video-control-plane-cloud-deletion-v1", e.cloudID, e.ownerUserID,
         FormatInt(e.ownershipVersion), FormatInt(e.authorizationVersion),
         FormatBool(e.complete), e.receiptID, e.observedAt.Text(), e.expiresAt.Text()]
    }

    function Tail(): seq<string> {
      if Evidence? then evidence.blockers else extra
    }

    function Fields(): seq<string> { Head() + Tail() }

    function Preimage(): string { Encode(Fields()) }

    /** The caller-supplied strings are shorter than 2^32 bytes; numbers and times always are. */
    predicate Wire() {
      match this
      case Handoff(_, tag, b, extra) => 
        Fits(tag) && Fits(b.cloudID) && Fits(b.operationID) && Fits(b.sourceUserID) && Fits(b.targetUserID) && Short(extra)
      case DeletionHold(tag, b, extra) => 
        Fits(tag) && Fits(b.cloudID) && Fits(b.ownerUserID) && Fits(b.operationID) && Short(extra)
      case Evidence(e) => Fits(e.cloudID) && Fits(e.ownerUserID) && Fits(e.receiptID) && Short(e.blockers)
    }

    /** The two say the same, whatever zone their times are written in. */
    predicate Same(o: Statement) {
      match (this, o)
      case (Handoff(p, t, b, x), Handoff(p', t', b', x')) => p == p' && t == t' && b.Equal(b') && x == x'
      case (DeletionHold(t, b, x), DeletionHold(t', b', x')) => t == t' && b.Equal(b') && x == x'
      case (Evidence(e), Evidence(e')) => e.Equal(e')
      case _ => false
    }
  }

  lemma IntText(a: int, b: int)
    ensures FormatInt(a) == FormatInt(b) <==> a == b
  {
    ReadFormatInt(a);
    ReadFormatInt(b);
  }

  lemma TimeText(a: Time, b: Time)
    ensures a.Text() == b.Text() <==> a.Equal(b)
  {
    FormatInjective(a.utc, b.utc);
  }

  lemma ShortNumbers(n: Int64, t: Time)
    ensures Fits(FormatInt(n)) && Fits(t.Text())
  {
    FormatShort(t.utc);
    assert Pow10(19) > 0x8000_0000_0000_0000 by {
      assert Pow10(5) == 100_000;
      assert Pow10(10) == 10_000_000_000;
      assert Pow10(15) == 1_000_000_000_000_000;
    }
    var m: int := n;
    FormatNatLength(if m < 0 then -m else m, 19);
  }

  lemma ShortFields(s: Statement)
    requires s.Wire()
    ensures Short(s.Fields())
  {
    hide FormatInt, Format;
    match s
    case Handoff(_, _, b, _) => ShortNumbers(b.ownershipVersion, b.cutoff);
    case DeletionHold(_, b, _) =>
      ShortNumbers(b.ownershipVersion, b.cutoff);
      ShortNumbers(b.authorizationVersion, b.cutoff);
    case Evidence(e) =>
      ShortNumbers(e.ownershipVersion, e.observedAt);
      ShortNumbers(e.authorizationVersion, e.expiresAt);
  }

  lemma SameHeads(s: Statement, t: Statement)
    ensures s.Head() == t.Head() && s.Tail() == t.Tail() <==> s.Same(t)
  {
    hide FormatInt, Format;
    match (s, t)
    case (Handoff(p, _, a, _), Handoff(q, _, b, _)) =>
      assert |p.Domain()| == |q.Domain()| <==> p == q;
      IntText(a.ownershipVersion, b.ownershipVersion);
      TimeText(a.cutoff, b.cutoff);
    case (DeletionHold(_, a, _), DeletionHold(_, b, _)) =>
      IntText(a.ownershipVersion, b.ownershipVersion);
      IntText(a.authorizationVersion, b.authorizationVersion);
      TimeText(a.cutoff, b.cutoff);
    case (Evidence(d), Evidence(e)) =>
      IntText(d.ownershipVersion, e.ownershipVersion);
      IntText(d.authorizationVersion, e.authorizationVersion);
      TimeText(d.observedAt, e.observedAt);
      TimeText(d.expiresAt, e.expiresAt);
    case _ =>
      assert |s.Head()[0]| != |t.Head()[0]|;
  }

  /** Field lists with fixed heads of the same length agree exactly when heads and tails do. */
  lemma AppendInjective<T>(a: seq<T>, x: seq<T>, b: seq<T>, y: seq<T>)
    requires |a| == |b|
    ensures a + x == b + y <==> a == b && x == y
  {
    if a + x == b + y {
      assert a == (a + x)[..|a|] && b == (b + y)[..|a|];
      assert x == (a + x)[|a|..] && y == (b + y)[|a|..];
    }
  }

  lemma SameFields(s: Statement, t: Statement)
    ensures s.Fields() == t.Fields() <==> s.Same(t)
  {
    hide FormatInt, Format, FormatBool;
    SameHeads(s, t);
    if |s.Head()| == |t.Head()| {
      AppendInjective(s.Head(), s.Tail(), t.Head(), t.Tail());
    } else {
      assert s.Fields()[0] == s.Head()[0] && t.Fields()[0] == t.Head()[0];
      assert |s.Head()[0]| != |t.Head()[0]|;
    }
  }

  /** Two pre-images coincide exactly for statements that say the same: so never across the five domains,
      never across tags, and for one domain and tag exactly when the bindings are equal and the extra
      fields agree. */
  lemma PreimageSaysAll(s: Statement, t: Statement)
    requires s.Wire() && t.Wire()
    ensures s.Preimage() == t.Preimage() <==> s.Same(t)
  {
    ShortFields(s);
    ShortFields(t);
    EncodeInjective(s.Fields(), t.Fields());
    SameFields(s, t);
  }

  ghost predicate Collision(sum: string -> string, p: string, q: string) {
    p != q && sum(p) == sum(q)
  }

  /** One receipt, one statement: unless the hash collides on these very bytes. */
  lemma ReceiptSaysAll(sum: string -> string, s: Statement, t: Statement)
    requires s.Wire() && t.Wire() && sum(s.Preimage()) == sum(t.Preimage())
    ensures s.Same(t) || Collision(sum, s.Preimage(), t.Preimage())
  {
    PreimageSaysAll(s, t);
  }

  // ----- what the client accepts

  /** The canonical text of a UUID other than the nil one. */
  predicate ValidUUID(s: string) {
    && |s| == 36
    && (forall i :: 0 <= i < 36 ==> if i in {8, 13, 18, 23} then s[i] == '-' else LowerHex(s[i]))
    && exists i :: 0 <= i < 36 && s[i] != '-' && s[i] != '0'
  }

  predicate LowerHex(c: char) { '0' <= c <= '9' || 'a' <= c <= 'f' }

  predicate ValidDigest(s: string) {
    |s| == 64 && forall i :: 0 <= i < 64 ==> LowerHex(s[i])
  }

  datatype Record = Record(
    binding: Binding, phase: string, hold: string, drain: string, completed: Option<Int64>, canceled: Option<Int64>,
    decisionID: string, decisionSHA256: string, decidedAt: Option<Time>, committedVersion: Int64)
  {
    predicate Valid(sum: string -> string, p: Participant, b: Binding) {
      && binding.Equal(b) && hold == sum(HoldOf(p, b).Preimage())
      && completed.Some? && canceled.Some? && completed.value >= 0 && canceled.value >= 0
      && (drain == "" || drain == sum(DrainOf(p, b, completed.value, canceled.value).Preimage()))
    }
  }

  function HoldOf(p: Participant, b: Binding): Statement { Handoff(p, "hold", b, []) }

  function DrainOf(p: Participant, b: Binding, completed: Int64, canceled: Int64): Statement {
    Handoff(p, "drained", b, [FormatInt(completed), FormatInt(canceled)])
  }

  lemma BindingFits(b: Binding)
    requires b.Valid()
    ensures Fits(b.cloudID) && Fits(b.operationID) && Fits(b.sourceUserID) && Fits(b.targetUserID)
  {}

  /** Accepted records with the same drain receipt report the same completed and canceled counts, on the same
      binding, from the same participant. */
  lemma DrainPinsCounts(sum: string -> string, p: Participant, a: Binding, r: Record, q: Participant, b: Binding, s: Record)
    requires a.Valid() && b.Valid() && r.Valid(sum, p, a) && s.Valid(sum, q, b)
    requires r.drain == s.drain != ""
    ensures
      || (p == q && a.Equal(b) && r.completed == s.completed && r.canceled == s.canceled)
      || Collision(sum, DrainOf(p, a, r.completed.value, r.canceled.value).Preimage(),
           DrainOf(q, b, s.completed.value, s.canceled.value).Preimage())
  {
    hide FormatInt, Encode, ValidUUID, Format;
    BindingFits(a);
    BindingFits(b);
    var d, e := DrainOf(p, a, r.completed.value, r.canceled.value), DrainOf(q, b, s.completed.value, s.canceled.value);
    ShortNumbers(r.completed.value, a.cutoff);
    ShortNumbers(r.canceled.value, a.cutoff);
    ShortNumbers(s.completed.value, a.cutoff);
    ShortNumbers(s.canceled.value, a.cutoff);
    ReceiptSaysAll(sum, d, e);
    IntText(r.completed.value, s.completed.value);
    IntText(r.canceled.value, s.canceled.value);
    assert d.extra == e.extra ==> d.extra[0] == e.extra[0] && d.extra[1] == e.extra[1];
  }

  datatype Result<+T> = Ok(value: T) | Invalid | Unavailable

  /** Client.call: encoding the body comes before the round trip, and no reply at all counts as unavailable. */
  function Call(sum: string -> string, p: Participant, b: Binding, encodes: bool, reply: Option<Record>): Result<Record> {
    if !b.Valid() || !encodes then Invalid
    else if reply.None? || !reply.value.Valid(sum, p, b) then Unavailable
    else Ok(reply.value)
  }

  datatype Path = Abort | Release {
    function Phase(): string { if Abort? then "aborted" else "released" }
  }

  datatype Decision = Decision(binding: Binding, id: string, sha256: string, at: Time, committedVersion: Int64) {
    predicate Valid(path: Path) {
      && binding.Valid() && ValidUUID(id) && ValidDigest(sha256) && !at.Before(binding.cutoff) && at.WholeMicros()
      && (path.Release? ==> binding.ownershipVersion != MAX_INT64 && committedVersion == binding.ownershipVersion + 1)
    }

    /** The request body has a JSON form. */
    predicate HasJSON() { binding.cutoff.HasJSON() && at.HasJSON() }

    /** What the returned receipt attests. */
    function Proof(p: Participant, path: Path): Statement {
      Handoff(p, path.Phase(), binding, [id, sha256, at.Text(), FormatInt(committedVersion)])
    }

    predicate Confirmed(path: Path, r: Record) {
      && r.phase == path.Phase() && r.decisionID == id && r.decisionSHA256 == sha256
      && r.decidedAt.Some? && r.decidedAt.value.Equal(at) && r.committedVersion == committedVersion
      && (path.Release? ==> r.drain != "")
    }

    predicate Same(o: Decision) {
      binding.Equal(o.binding) && id == o.id && sha256 == o.sha256 && at.Equal(o.at) && committedVersion == o.committedVersion
    }
  }

  /** Client.decide: abort or release a handoff, and hand back a receipt for the durable answer. */
  method Decide(sum: string -> string, p: Participant, path: Path, d: Decision, reply: Option<Record>) returns (r: Result<string>)
    ensures r == Invalid <==> !d.Valid(path) || !d.HasJSON()
    ensures r.Ok? <==>
      && d.Valid(path) && d.HasJSON()
      && reply.Some? && reply.value.Valid(sum, p, d.binding) && d.Confirmed(path, reply.value)
    ensures r.Ok? ==> r.value == sum(d.Proof(p, path).Preimage())
  {
    hide FormatInt, Format, Encode, ValidUUID, ValidDigest, Earlier;
    if !d.Valid(path) { return Invalid; }
    var called := Call(sum, p, d.binding, d.HasJSON(), reply);
    if !called.Ok? { return if called.Invalid? then Invalid else Unavailable; }
    if !d.Confirmed(path, called.value) { return Unavailable; }
    var b := d.binding;
    var proof := Digest(sum, [p.Domain(), path.Phase(), b.cloudID, b.operationID, b.sourceUserID, b.targetUserID,
      FormatInt(b.ownershipVersion), b.cutoff.Text()] + [d.id, d.sha256, d.at.Text(), FormatInt(d.committedVersion)]);
    return Ok(proof);
  }

  lemma ProofFits(p: Participant, path: Path, d: Decision)
    requires d.Valid(path)
    ensures d.Proof(p, path).Wire()
  {
    hide FormatInt, Format;
    ShortNumbers(d.committedVersion, d.at);
  }

  /** One decision receipt stands for one decision: same participant, same outcome, same binding, same
      authorisation and digest, same instant, same committed version. An abort receipt is never a release receipt. */
  lemma DecisionReceiptPins(sum: string -> string, p: Participant, path: Path, d: Decision, q: Participant, path': Path, e: Decision)
    requires d.Valid(path) && e.Valid(path')
    requires sum(d.Proof(p, path).Preimage()) == sum(e.Proof(q, path').Preimage())
    ensures
      || (p == q && path == path' && d.Same(e))
      || Collision(sum, d.Proof(p, path).Preimage(), e.Proof(q, path').Preimage())
  {
    hide FormatInt, Format, Encode;
    ProofFits(p, path, d);
    ProofFits(q, path', e);
    var s, t := d.Proof(p, path), e.Proof(q, path');
    ReceiptSaysAll(sum, s, t);
    IntText(d.committedVersion, e.committedVersion);
    TimeText(d.at, e.at);
    if s.Same(t) {
      assert |path.Phase()| == |path'.Phase()|;
      assert forall i :: 0 <= i < 4 ==> s.extra[i] == t.extra[i];
      assert s.extra[0] == t.extra[0] && s.extra[1] == t.extra[1] && s.extra[2] == t.extra[2] && s.extra[3] == t.extra[3];
    }
  }

  // ----- cloud deletion

  datatype Hold = Hold(
    binding: DeletionBinding, ownParticipant: bool, phase: string, held: bool, empty: bool,
    receiptSHA256: string, cancellationID: string)

  function HoldingOf(b: DeletionBinding, empty: bool): Statement { DeletionHold("holding", b, [FormatBool(empty)]) }

  function CanceledOf(b: DeletionBinding, id: string, sha: string): Statement { DeletionHold("canceled", b, [id, sha]) }

  predicate AcceptsHolding(sum: string -> string, b: DeletionBinding, out: Hold) {
    && b.cutoff.HasJSON() && out.binding == b && out.ownParticipant && ValidDigest(out.receiptSHA256)
    && out.phase == "holding" && out.held && out.cancellationID == ""
    && out.receiptSHA256 == sum(HoldingOf(b, out.empty).Preimage())
  }

  predicate AcceptsCanceled(sum: string -> string, b: DeletionBinding, id: string, sha: string, out: Hold) {
    && ValidUUID(id) && ValidDigest(sha)
    && b.cutoff.HasJSON() && out.binding == b && out.ownParticipant && ValidDigest(out.receiptSHA256)
    && out.phase == "canceled" && !out.held && !out.empty && out.cancellationID == id
    && out.receiptSHA256 == sum(CanceledOf(b, id, sha).Preimage())
  }

  predicate ValidDeletion(b: DeletionBinding) {
    && ValidUUID(b.cloudID) && ValidUUID(b.ownerUserID) && ValidUUID(b.operationID)
    && b.ownershipVersion > 0 && b.authorizationVersion > 0 && !b.cutoff.IsZero() && b.cutoff.WholeMicros()
  }

  /** A deletion receipt says whether the cloud was empty, and never doubles as a cancellation receipt. */
  lemma DeletionReceiptPins(sum: string -> string, a: DeletionBinding, h: Hold, b: DeletionBinding, k: Hold, id: string, sha: string)
    requires ValidDeletion(a) && ValidDeletion(b) && AcceptsHolding(sum, a, h) && h.receiptSHA256 == k.receiptSHA256
    ensures AcceptsHolding(sum, b, k) ==>
      || (a.Equal(b) && h.empty == k.empty)
      || Collision(sum, HoldingOf(a, h.empty).Preimage(), HoldingOf(b, k.empty).Preimage())
    ensures AcceptsCanceled(sum, b, id, sha, k) ==>
      Collision(sum, HoldingOf(a, h.empty).Preimage(), CanceledOf(b, id, sha).Preimage())
  {
    hide FormatInt, Format, Encode;
    var s := HoldingOf(a, h.empty);
    if AcceptsHolding(sum, b, k) {
      var t := HoldingOf(b, k.empty);
      ReceiptSaysAll(sum, s, t);
      if s.Same(t) { assert |s.extra[0]| == |t.extra[0]|; }
    }
    if AcceptsCanceled(sum, b, id, sha, k) {
      var t := CanceledOf(b, id, sha);
      ReceiptSaysAll(sum, s, t);
      assert |s.extra| != |t.extra|;
    }
  }

  predicate AcceptsEvidence(sum: string -> string, e: DeletionEvidence, sha: string) {
    && ValidUUID(e.cloudID) && ValidUUID(e.ownerUserID) && e.ownershipVersion > 0 && e.authorizationVersion > 0
    && e.complete && ValidUUID(e.receiptID)
    && sha == sum(Evidence(e).Preimage())
    && forall i :: 0 <= i < |e.blockers| ==>
         e.blockers[i] in {"products_present", "devices_present", "jobs_running", "lifecycle_conflict"}
  }

  /** A preflight digest stands for one evidence: one scope, one receipt, one list of blockers, one validity window. */
  lemma EvidenceDigestPins(sum: string -> string, d: DeletionEvidence, e: DeletionEvidence, sha: string)
    requires AcceptsEvidence(sum, d, sha) && AcceptsEvidence(sum, e, sha)
    ensures d.Equal(e) || Collision(sum, Evidence(d).Preimage(), Evidence(e).Preimage())
  {
    hide FormatInt, Format, Encode;
    ReceiptSaysAll(sum, Evidence(d), Evidence(e));
  }
}
