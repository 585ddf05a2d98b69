/**
 The records exchanged between controller and history agents, and the checks made on them.
 Hashes and signatures are free constructors: equal digests mean equal contents, and a signature
 verifies only for the key and the contents it was made for.
 */
module HistoryWire {

  import opened Anchors
  import opened AnchorHistory
  import opened Options

  const PROTOCOL_SCHEMA: nat := 2

  /** Durations and instants are in nanoseconds; the zero instant is 0. */
  const SECOND: int := 1_000_000_000
  const MAXIMUM_LEASE: int := 120 * SECOND

  // ---------------------------------------------------------------------------------------
  // Text forms.
  // ---------------------------------------------------------------------------------------

  predicate IsDigit(c: char) { '0' <= c <= '9' }

  predicate IsHexDigit(c: char) { IsDigit(c) || 'a' <= c <= 'f' || 'A' <= c <= 'F' }

  predicate IsHex(text: string) { forall i | 0 <= i < |text| :: IsHexDigit(text[i]) }

  /** Lowercase hexadecimal of exactly `bytes` bytes. */
  predicate IsLowerHex(text: string, bytes: nat) {
    |text| == 2 * bytes && forall i | 0 <= i < |text| :: IsDigit(text[i]) || 'a' <= text[i] <= 'f'
  }

  predicate IsHexDigest(text: string) { |text| == 64 && IsHex(text) }

  predicate IsSourceRevision(text: string) { (|text| == 40 || |text| == 64) && IsHex(text) }

  predicate IsSafeName(text: string, maximum: nat) {
    && 1 <= |text| <= maximum
    && forall i | 0 <= i < |text| ::
         var c := text[i];
         'a' <= c <= 'z' || 'A' <= c <= 'Z' || IsDigit(c) || c == '.' || c == '_' || c == '-'
  }

  // ---------------------------------------------------------------------------------------
  // Anchor values on the wire.
  // ---------------------------------------------------------------------------------------

  datatype WireValue = WireValue(present: bool, databaseIDHex: string, minimumCommitSequence: nat,
                                 minimumGeneration: nat)

  const NO_VALUE: WireValue := WireValue(false, "", 0, 0)

  function HexDigit(n: nat): char
    requires n < 16
  {
    if n < 10 then '0' + (n as char) else 'a' + ((n - 10) as char)
  }

  function HexValue(c: char): nat
    requires IsDigit(c) || 'a' <= c <= 'f'
  {
    if IsDigit(c) then (c - '0') as nat else 10 + (c - 'a') as nat
  }

  function Power16(digits: nat): nat { if digits == 0 then 1 else 16 * Power16(digits - 1) }

  function Encode(n: nat, digits: nat): (text: string)
    ensures |text| == digits
    ensures forall i | 0 <= i < digits :: IsDigit(text[i]) || 'a' <= text[i] <= 'f'
  {
    if digits == 0 then "" else Encode(n / 16, digits - 1) + [HexDigit(n % 16)]
  }

  function Decode(text: string): nat
    requires forall i | 0 <= i < |text| :: IsDigit(text[i]) || 'a' <= text[i] <= 'f'
  {
    if text == "" then 0 else 16 * Decode(text[..|text| - 1]) + HexValue(text[|text| - 1])
  }

  lemma {:induction false} DecodeBounded(text: string)
    requires forall i | 0 <= i < |text| :: IsDigit(text[i]) || 'a' <= text[i] <= 'f'
    ensures Decode(text) < Power16(|text|)
  {
    if text != "" { DecodeBounded(text[..|text| - 1]); }
  }

  lemma DigitRoundTrip(c: char)
    requires IsDigit(c) || 'a' <= c <= 'f'
    ensures HexValue(c) < 16 && HexDigit(HexValue(c)) == c
  {
  }

  lemma EncodeAppend(a: nat, d: nat, digits: nat)
    requires d < 16
    ensures Encode(16 * a + d, digits + 1) == Encode(a, digits) + [HexDigit(d)]
  {
    assert (16 * a + d) / 16 == a && (16 * a + d) % 16 == d;
  }

  lemma {:induction false} EncodeDecode(text: string)
    requires forall i | 0 <= i < |text| :: IsDigit(text[i]) || 'a' <= text[i] <= 'f'
    ensures Encode(Decode(text), |text|) == text
  {
    if text == "" {
    } else {
      var front, last := text[..|text| - 1], text[|text| - 1];
      EncodeDecode(front);
      DigitRoundTrip(last);
      EncodeAppend(Decode(front), HexValue(last), |front|);
    }
  }

  lemma {:induction false} DecodeEncode(n: nat, digits: nat)
    requires n < Power16(digits)
    ensures Decode(Encode(n, digits)) == n
  {
    if digits == 0 {
    } else {
      DecodeEncode(n / 16, digits - 1);
      var text := Encode(n, digits);
      assert text[..digits - 1] == Encode(n / 16, digits - 1);
      assert HexValue(HexDigit(n % 16)) == n % 16;
    }
  }

  lemma IDsHave32Digits()
    ensures Power16(32) == 0x1_00000000_00000000_00000000_00000000
  {
    assert Power16(4) == 0x1_0000;
    assert Power16(8) == 0x1_00000000;
    assert Power16(12) == 0x1_0000_00000000;
    assert Power16(16) == 0x1_00000000_00000000;
    assert Power16(20) == 0x1_0000_00000000_00000000;
    assert Power16(24) == 0x1_00000000_00000000_00000000;
    assert Power16(28) == 0x1_0000_00000000_00000000_00000000;
  }

  function ValueFromWire(w: WireValue): Option<Value> {
    if !w.present then
      if w == NO_VALUE then Some(ABSENT) else None
    else if !IsLowerHex(w.databaseIDHex, 16) || w.minimumGeneration == 0 then None
    else
      IDsHave32Digits();
      DecodeBounded(w.databaseIDHex);
      Some(Value(true, Decode(w.databaseIDHex) as DatabaseID, w.minimumCommitSequence, w.minimumGeneration))
  }

  function WireFromValue(v: Value): WireValue {
    if !v.present then NO_VALUE
    else WireValue(true, Encode(v.databaseID as nat, 32), v.commitSequence, v.generation)
  }

  /** Every accepted wire value is the wire form of the anchor it converts to. */
  lemma WireRoundTrip(w: WireValue)
    requires ValueFromWire(w).Some?
    ensures WireFromValue(ValueFromWire(w).value) == w
  {
    if w.present { EncodeDecode(w.databaseIDHex); }
  }

  /** Exactly the anchors with a positive generation, and the canonical absence, survive the wire. */
  lemma AnchorRoundTrip(v: Value)
    ensures ValueFromWire(WireFromValue(v)) == Some(v) <==> if v.present then v.generation > 0 else v == ABSENT
    ensures v.present && v.generation == 0 ==> ValueFromWire(WireFromValue(v)) == None
  {
    if v.present {
      IDsHave32Digits();
      DecodeEncode(v.databaseID as nat, 32);
    }
  }

  // ---------------------------------------------------------------------------------------
  // Requests.
  // ---------------------------------------------------------------------------------------

  datatype Request = Request(
    schemaVersion: nat, runID: string, configurationID: string, sourceRevision: string, agentID: string,
    operationID: string, kind: Kind, target: WireValue, nonce: string, issuedAt: int, expiresAt: int)

  datatype Digest = Sha256(request: Request) | OtherDigest(text: string)

  /** A target that names an existing anchor. */
  predicate IsAnchor(w: WireValue) { ValueFromWire(w).Some? && w.present }

  predicate ValidTarget(kind: Kind, target: WireValue) {
    (kind == Load && target == NO_VALUE) || (kind == Advance && IsAnchor(target))
  }

  predicate ValidStatic(q: Request, agentID: string, configurationID: string, sourceRevision: string) {
    && q.schemaVersion == PROTOCOL_SCHEMA
    && q.agentID == agentID && q.configurationID == configurationID && q.sourceRevision == sourceRevision
    && IsLowerHex(q.runID, 16) && IsHexDigest(q.configurationID) && IsSourceRevision(q.sourceRevision)
    && IsSafeName(q.operationID, 128) && IsLowerHex(q.nonce, 16)
    && q.issuedAt != 0 && q.expiresAt != 0
    && q.issuedAt < q.expiresAt <= q.issuedAt + MAXIMUM_LEASE
    && ValidTarget(q.kind, q.target)
  }

  /** The request may be acted on at this time, with thirty seconds of skew before it was issued. */
  predicate ValidAt(q: Request, now: int) { q.issuedAt - 30 * SECOND <= now <= q.expiresAt }

  // ---------------------------------------------------------------------------------------
  // Signed fragments.
  // ---------------------------------------------------------------------------------------

  datatype Body = Body(
    schemaVersion: nat, request: Request, requestSHA256: Digest, outcome: Outcome, value: WireValue,
    startedAt: int, finishedAt: int, sourceRevision: string, buildRevision: string, buildModified: bool,
    goos: string, goarch: string, goVersion: string, signingPublicKey: string)

  datatype Signature = SignatureOver(key: string, body: Body) | MalformedSignature(text: string)

  datatype Fragment = Fragment(body: Body, signature: Signature)

  predicate IsBase64(c: char) { 'a' <= c <= 'z' || 'A' <= c <= 'Z' || IsDigit(c) || c == '+' || c == '/' }

  /** Strict base64 of 32 bytes: 43 digits, the last with two zero bits, and one padding character. */
  predicate IsPublicKey(text: string) {
    && |text| == 44 && text[43] == '='
    && (forall i | 0 <= i < 43 :: IsBase64(text[i]))
    && text[42] in "AEIMQUYcgkosw048"
  }

  predicate Verified(f: Fragment, agentID: string, publicKey: string) {
    && f.body.schemaVersion == PROTOCOL_SCHEMA
    && f.body.request.agentID == agentID
    && f.body.signingPublicKey == publicKey
    && (f.body.outcome == Succeeded || f.body.outcome == Failed)
    && f.body.startedAt != 0 && f.body.startedAt <= f.body.finishedAt
    && IsSourceRevision(f.body.sourceRevision)
    && (f.body.buildRevision == "" || IsSourceRevision(f.body.buildRevision))
    && f.body.goos != "" && f.body.goarch != "" && f.body.goVersion != ""
    && f.body.requestSHA256 == Sha256(f.body.request)
    && IsPublicKey(publicKey)
    && f.signature == SignatureOver(publicKey, f.body)
  }

  /** The result lies within its signed lease, with thirty seconds of skew before and one second after. */
  predicate WithinLease(q: Request, startedAt: int, finishedAt: int) {
    q.issuedAt - 30 * SECOND <= startedAt && finishedAt <= q.expiresAt + SECOND
  }

  predicate ConsistentResult(body: Body) {
    && (body.request.kind == Advance ==> body.value == body.request.target)
    && (body.request.kind == Load && body.outcome == Failed ==> body.value == NO_VALUE)
    && (body.request.kind == Load && body.outcome == Succeeded ==> ValueFromWire(body.value).Some?)
  }

  predicate Evidence(f: Fragment, agentID: string, publicKey: string, runID: string, configurationID: string,
                     sourceRevision: string)
  {
    && f.body.request.runID == runID
    && f.body.request.configurationID == configurationID
    && f.body.sourceRevision == sourceRevision
    && f.body.request.sourceRevision == sourceRevision
    && Verified(f, agentID, publicKey)
    && ValidStatic(f.body.request, agentID, configurationID, sourceRevision)
    && WithinLease(f.body.request, f.body.startedAt, f.body.finishedAt)
    && ConsistentResult(f.body)
  }

  // ---------------------------------------------------------------------------------------
  // What an agent signs.
  // ---------------------------------------------------------------------------------------

  datatype Config = Config(
    agentID: string, configurationID: string, sourceRevision: string, buildRevision: string, buildModified: bool,
    goos: string, goarch: string, goVersion: string, signingPublicKey: string)

  /** What the service checks before it starts, and what key and build metadata guarantee. */
  predicate ValidConfig(c: Config) {
    && IsSafeName(c.agentID, 64) && IsSourceRevision(c.sourceRevision)
    && (c.buildRevision == "" || IsSourceRevision(c.buildRevision))
    && c.goos != "" && c.goarch != "" && c.goVersion != ""
    && IsPublicKey(c.signingPublicKey)
  }

  /** The executor's answer: an error, or success with the value a load returned. */
  datatype Answer = Error | Success(loaded: Value)

  function Report(c: Config, q: Request, answer: Answer, startedAt: int, finishedAt: int): Fragment {
    var value :=
      if q.kind == Advance then q.target
      else if q.kind == Load && answer.Success? then WireFromValue(answer.loaded)
      else NO_VALUE;
    var body := Body(
      PROTOCOL_SCHEMA, q, Sha256(q), if answer.Error? then Failed else Succeeded, value, startedAt, finishedAt,
      c.sourceRevision, c.buildRevision, c.buildModified, c.goos, c.goarch, c.goVersion, c.signingPublicKey);
    Fragment(body, SignatureOver(c.signingPublicKey, body))
  }

  /**
   Exactly when an agent's own signed result is accepted again on reload: the clock did not run
   backwards, the work began at most thirty seconds before the request was issued and ended at most
   one second after it expired, in nanoseconds, and a loaded anchor has a wire form.
   */
  lemma OwnReportReloads(c: Config, q: Request, answer: Answer, startedAt: int, finishedAt: int)
    requires ValidConfig(c) && ValidStatic(q, c.agentID, c.configurationID, c.sourceRevision)
    ensures Evidence(Report(c, q, answer, startedAt, finishedAt), c.agentID, c.signingPublicKey, q.runID,
                     c.configurationID, c.sourceRevision)
       <==> && 0 != startedAt <= finishedAt
            && q.issuedAt - 30_000_000_000 <= startedAt && finishedAt <= q.expiresAt + 1_000_000_000
            && (q.kind == Load && answer.Success? && answer.loaded.present ==> answer.loaded.generation > 0)
  {
    if q.kind == Load && answer.Success? {
      LoadedValueReloads(answer.loaded);
    }
  }

  lemma LoadedValueReloads(v: Value)
    ensures ValueFromWire(WireFromValue(v)).Some? <==> (v.present ==> v.generation > 0)
  {
    AnchorRoundTrip(v);
  }
}
