/** Signed receipts: the shapes the gateway emits and what the independent verifier makes of them. */
module Receipt {
  import opened Trace

  // ---- values and signatures ---------------------------------------------------------------

  /** A JSON value. `Signature` is the base64 text of an ideal Ed25519 signature: whoever holds the
      key made it over exactly this value, and no other text verifies. */
  datatype Json =
    | Null
    | Bool(b: bool)
    | Int(n: int)
    | Float(r: real)
    | Str(s: string)
    | List(items: seq<Json>)
    | Obj(fields: map<string, Json>)
    | Signature(key: nat, over: Json)

  type Dict = map<string, Json>

  /** `_normalize`: whole-number floats become integers, all the way down. */
  function Normalize(v: Json): Json
    decreases v
  {
    match v
    case Float(r) => if r.Floor as real == r then Int(r.Floor) else v
    case List(items) => List(seq(|items|, i requires 0 <= i < |items| => Normalize(items[i])))
    case Obj(fields) => Obj(map k | k in fields :: Normalize(fields[k]))
    case _ => v
  }

  const SIGNATURE := "envelope_signature"

  /** The canonical bytes of a dict, idealised as its normalised value. */
  function Canonical(body: Dict): Json {
    Normalize(Obj(body))
  }

  function Unsigned(signed: Dict): Dict {
    signed - {SIGNATURE}
  }

  /** `sign_envelope` */
  function SignEnvelope(key: nat, kid: string, body: Dict): Dict {
    body[SIGNATURE := Obj(map["kid" := Str(kid), "alg" := Str("Ed25519"), "sig" := Signature(key, Canonical(body))])]
  }

  function Get(d: Dict, k: string): Json {
    if k in d then d[k] else Null
  }

  /** What the field holds; None when it is not there. */
  function Field(d: Dict, k: string): Option<Json> {
    if k in d then Some(d[k]) else None
  }

  /** `verify` */
  predicate Verifies(outcome: Dict, key: nat) {
    var block := Get(outcome, SIGNATURE);
    && block.Obj?
    && "sig" in block.fields
    && block.fields["sig"] == Signature(key, Canonical(Unsigned(outcome)))
  }

  // ---- what the gateway emits --------------------------------------------------------------

  function Optional(k: string, v: Option<Json>): Dict {
    if v.Some? then map[k := v.value] else map[]
  }

  function OrNull(s: Option<string>): Json {
    if s.Some? then Str(s.value) else Null
  }

  function Required(corrId: Json, rrn: string, status: string, startedAt: string, endedAt: string,
                    caller: Option<string>, tier: Option<string>): (body: Dict)
    ensures body.Keys == REQUIRED_KEYS
    ensures body["receipt_version"] == Int(2)
  {
    map["receipt_version" := Int(2), "corr_id" := corrId, "rrn" := Str(rrn), "status" := Str(status),
        "started_at" := Str(startedAt), "ended_at" := Str(endedAt),
        "caller" := OrNull(caller), "tier" := OrNull(tier)]
  }

  function Extras(durationMs: Option<Json>, telemetry: Option<Json>, error: Option<Json>, summary: Option<Json>): (extras: Dict)
    ensures extras.Keys <= OPTIONAL_KEYS
  {
    Optional("duration_ms", durationMs) + Optional("telemetry_sha256", telemetry)
    + Optional("error", error) + Optional("result_summary", summary)
  }

  /** `build_outcome`: caller and tier are always written, the optional fields only when present. */
  function BuildOutcome(corrId: Json, rrn: string, status: string, startedAt: string, endedAt: string,
                        durationMs: Option<Json>, telemetry: Option<Json>, error: Option<Json>,
                        summary: Option<Json>, caller: Option<string>, tier: Option<string>): Dict
  {
    Required(corrId, rrn, status, startedAt, endedAt, caller, tier) + Extras(durationMs, telemetry, error, summary)
  }

  /** What `_attach_signature` makes of a response; None when signing failed or is off. */
  function Attached(target: Dict, signed: Option<Dict>): Dict {
    match signed
    case Some(outcome) =>
      target["attestation" := Str("attested")]["outcome" := Obj(outcome)][SIGNATURE := Get(outcome, SIGNATURE)]
    case None => target["attestation" := Str("unattested")][SIGNATURE := Null]
  }

  /** A dictionary that is changed in place. */
  class Message {
    var fields: Dict

    constructor (fields: Dict)
      ensures this.fields == fields
    {
      this.fields := fields;
    }

    method Set(k: string, v: Json)
      modifies this
      ensures fields == old(fields)[k := v]
    {
      fields := fields[k := v];
    }
  }

  /** `sign_envelope`, in place: what is signed is the body before the block goes in. */
  method Sign(body: Message, key: nat, kid: string)
    modifies body
    ensures body.fields == SignEnvelope(key, kid, old(body.fields))
    ensures SIGNATURE !in old(body.fields) ==> Verifies(body.fields, key) && Unsigned(body.fields) == old(body.fields)
  {
    ghost var was := body.fields;
    var sig := Signature(key, Canonical(body.fields));
    body.Set(SIGNATURE, Obj(map["kid" := Str(kid), "alg" := Str("Ed25519"), "sig" := sig]));
    if SIGNATURE !in was {
      SignedVerifies(key, kid, was, key);
    }
  }

  /** `_attach_signature` */
  method AttachSignature(target: Message, signed: Option<Dict>, marker: string)
    requires marker == if signed.Some? then "attested" else "unattested"
    modifies target
    ensures target.fields == Attached(old(target.fields), signed)
  {
    target.Set("attestation", Str(marker));
    if signed.Some? {
      target.Set("outcome", Obj(signed.value));
      target.Set(SIGNATURE, Get(signed.value, SIGNATURE));
    } else {
      target.Set(SIGNATURE, Null);
    }
  }

  /** The body of a 200. */
  function AllowBody(kid: string, scope: string, tool: string, actuator: string, kind: string, telemetry: Json, signed: Option<Dict>): Dict {
    Attached(map["ok" := Bool(true), "manifest_kid" := Str(kid), "scope" := Str(scope), "tool_name" := Str(tool),
                 "actuator_name" := Str(actuator), "outcome_kind" := Str(kind), "telemetry" := telemetry], signed)
  }

  /** The body of a 403. `extra` is what some gates add: kid, actuator_name, telemetry. */
  function DenyBody(gate: string, reason: Json, extra: Dict, signed: Option<Dict>): Dict {
    map["detail" := Obj(Attached(extra + map["deny" := Str(gate), "reason" := reason], signed))]
  }

  /** An outcome line of the export. */
  function OutcomeLine(invoke: Dict, signed: Dict, ruri: Json, rrn: string, hint: Option<Json>, seqNo: int, prev: string, note: Option<Json>): Dict {
    map["v" := Str("rcan-action-trace/1"), "record_kind" := Str("outcome"), "invoke" := Obj(invoke), "outcome" := Obj(signed),
        "corr_id" := Get(invoke, "msg_id"), "ruri" := ruri, "rrn" := Str(rrn), "seq" := Int(seqNo), "chain_prev" := Str(prev)]
    + Optional("intent_chain_hash", hint) + Optional("chain_note", note)
  }

  /** `build_intent` */
  function BuildIntent(corrId: Json, envelopeId: Json, rrn: string, tool: Json, actuator: Json, nonce: Json, caller: Option<string>, tier: Option<string>, at: string): Dict {
    map["intent_version" := Int(1), "record_kind" := Str("intent"), "status" := Str("dispatching"), "corr_id" := corrId,
        "envelope_id" := envelopeId, "rrn" := Str(rrn), "tool" := tool, "actuator" := actuator, "nonce" := nonce,
        "caller" := OrNull(caller), "tier" := OrNull(tier), "recorded_at" := Str(at)]
  }

  /** An intent line of the export. */
  function IntentLine(invoke: Dict, signed: Dict, ruri: Json, rrn: string, seqNo: int, prev: string, note: Option<Json>): Dict {
    map["v" := Str("rcan-action-trace/1"), "record_kind" := Str("intent"), "invoke" := Obj(invoke), "intent" := Obj(signed),
        "corr_id" := Get(invoke, "msg_id"), "ruri" := ruri, "rrn" := Str(rrn), "seq" := Int(seqNo), "chain_prev" := Str(prev)]
    + Optional("chain_note", note)
  }

  // ---- the verifier ------------------------------------------------------------------------

  function SignedIn(v: Json): Option<Dict> {
    if v.Obj? && SIGNATURE in v.fields then Some(v.fields) else None
  }

  predicate SaysIntent(receipt: Dict) {
    Get(receipt, "record_kind") == Str("intent") || (Get(receipt, "intent").Obj? && "outcome" !in receipt)
  }

  /** `extract_outcome`; None is the refusal that ends in exit 2. */
  function ExtractOutcome(receipt: Dict): Option<Dict> {
    if SaysIntent(receipt) then None
    else
      var own := SignedIn(Get(receipt, "outcome"));
      if own.Some? then own
      else
        var detail := Get(receipt, "detail");
        var inner := if detail.Obj? then SignedIn(Get(detail.fields, "outcome")) else None;
        if inner.Some? then inner
        else if SIGNATURE in receipt && "status" in receipt then Some(receipt)
        else None
  }

  /** Where an outcome is found, and in which order: never in an intent record; else under "outcome";
      else under "detail"; else the receipt itself, if it is signed and has a status. */
  lemma {:induction false} ExtractExact(receipt: Dict, outcome: Dict)
    ensures Get(receipt, "record_kind") == Str("intent") ==> ExtractOutcome(receipt) == None
    ensures Get(receipt, "intent").Obj? && "outcome" !in receipt ==> ExtractOutcome(receipt) == None
    ensures Get(receipt, "record_kind") != Str("intent") && !(Get(receipt, "intent").Obj? && "outcome" !in receipt) ==>
              (ExtractOutcome(receipt) == Some(outcome) <==>
                 var own, detail := Get(receipt, "outcome"), Get(receipt, "detail");
                 if own.Obj? && SIGNATURE in own.fields then own == Obj(outcome)
                 else if detail.Obj? && Get(detail.fields, "outcome").Obj? && SIGNATURE in Get(detail.fields, "outcome").fields
                   then Get(detail.fields, "outcome") == Obj(outcome)
                 else outcome == receipt && "envelope_signature" in receipt && "status" in receipt)
  {
  }

  /** `receipt_version`; None is a version this verifier refuses. */
  function ReceiptVersion(outcome: Dict): Option<int> {
    match Get(outcome, "receipt_version")
    case Null => Some(1)
    case Int(n) => if n == 1 || n == 2 then Some(n) else None
    case _ => None
  }

  /** How Python writes a value as text, and what flipping the first byte of a text that does not
      start with an ASCII character decodes to, if it decodes at all. */
  datatype Texts = Texts(str: Json -> string, flipWide: string -> Option<string>) {
    /** Different bytes are different text. */
    ghost predicate FlipChanges() {
      forall s :: flipWide(s) != Some(s)
    }
  }

  /** `_flip_one_byte` */
  function FlipOneByte(t: Texts, s: string): string {
    if s == "" then "X"
    else if s[0] as int < 128 then [if s[0] as int % 2 == 0 then (s[0] as int + 1) as char else (s[0] as int - 1) as char] + s[1..]
    else match t.flipWide(s)
      case Some(flipped) => flipped
      case None => s + "!"
  }

  predicate Falsy(v: Json) {
    v in {Null, Bool(false), Int(0), Str(""), List([]), Obj(map[])} || v == Float(0.0)
  }

  /** The copy with one byte of a signed field flipped. */
  function Tampered(t: Texts, outcome: Dict, version: int): Dict {
    if version >= 2 then
      var caller := Get(outcome, "caller");
      outcome["caller" := Str(FlipOneByte(t, if Falsy(caller) then "x" else Text(t, caller)))]
    else
      outcome["corr_id" := Str(FlipOneByte(t, if "corr_id" in outcome then Text(t, outcome["corr_id"]) else "x"))]
  }

  function Text(t: Texts, v: Json): string {
    if v.Str? then v.s else t.str(v)
  }

  const EXIT_OK := 0
  const EXIT_BAD := 1
  const EXIT_USAGE := 2

  /** The receipt holds an outcome of a known version that verifies and, from version 2 on, names
      caller and tier. */
  predicate IsGoodReceipt(receipt: Dict, key: nat) {
    && ExtractOutcome(receipt).Some?
    && var outcome := ExtractOutcome(receipt).value;
       && Get(outcome, "receipt_version") in {Null, Int(1), Int(2)}
       && Verifies(outcome, key)
       && (Get(outcome, "receipt_version") == Int(2) ==> "caller" in outcome && "tier" in outcome)
  }

  /** `main` for one receipt and one public key. */
  method CheckReceipt(t: Texts, receipt: Dict, key: nat, tamperCheck: bool) returns (code: int)
    ensures code == CheckExit(t, receipt, key, tamperCheck) && code in {0, 1, 2}
    ensures t.FlipChanges() ==> (code == 0 <==> IsGoodReceipt(receipt, key))
    ensures code == 2 <==>
              ExtractOutcome(receipt).None? || Get(ExtractOutcome(receipt).value, "receipt_version") !in {Null, Int(1), Int(2)}
  {
    if t.FlipChanges() {
      ExitOkIff(t, receipt, key, tamperCheck);
    }
    var found := ExtractOutcome(receipt);
    if found.None? {
      return EXIT_USAGE;
    }
    var outcome := found.value;
    var version := ReceiptVersion(outcome);
    if version.None? {
      return EXIT_USAGE;
    }
    if !Verifies(outcome, key) {
      return EXIT_BAD;
    }
    if version.value >= 2 && ("caller" !in outcome || "tier" !in outcome) {
      return EXIT_BAD;
    }
    if !tamperCheck {
      return EXIT_OK;
    }
    var tampered := Tampered(t, outcome, version.value);
    if Verifies(tampered, key) {
      return EXIT_BAD;
    }
    return EXIT_OK;
  }

  function CheckExit(t: Texts, receipt: Dict, key: nat, tamperCheck: bool): int {
    match ExtractOutcome(receipt)
    case None => EXIT_USAGE
    case Some(outcome) =>
      match ReceiptVersion(outcome)
      case None => EXIT_USAGE
      case Some(version) =>
        if !Verifies(outcome, key) then EXIT_BAD
        else if version >= 2 && ("caller" !in outcome || "tier" !in outcome) then EXIT_BAD
        else if tamperCheck && Verifies(Tampered(t, outcome, version), key) then EXIT_BAD
        else EXIT_OK
  }

  // ---- what a signature is over ------------------------------------------------------------

  predicate SameNumber(a: Json, b: Json) {
    match (a, b)
    case (Int(m), Float(x)) => m as real == x
    case (Float(x), Int(m)) => m as real == x
    case _ => false
  }

  /** The same JSON value, up to writing a whole number as 2 or as 2.0, at any depth. */
  predicate Alike(a: Json, b: Json)
    decreases a
  {
    match (a, b)
    case (List(x), List(y)) => |x| == |y| && forall i | 0 <= i < |x| :: Alike(x[i], y[i])
    case (Obj(x), Obj(y)) => x.Keys == y.Keys && forall k | k in x :: Alike(x[k], y[k])
    case _ => a == b || SameNumber(a, b)
  }

  lemma {:induction false} NormalizeAt(items: seq<Json>, fields: map<string, Json>)
    ensures Normalize(List(items)).List? && |Normalize(List(items)).items| == |items|
    ensures forall i | 0 <= i < |items| :: Normalize(List(items)).items[i] == Normalize(items[i])
    ensures Normalize(Obj(fields)).Obj? && Normalize(Obj(fields)).fields.Keys == fields.Keys
    ensures forall k | k in fields :: Normalize(Obj(fields)).fields[k] == Normalize(fields[k])
  {
  }

  lemma {:induction false} SameListIff(x: seq<Json>, y: seq<Json>)
    ensures Normalize(List(x)) == Normalize(List(y)) <==>
              |x| == |y| && forall i | 0 <= i < |x| :: Normalize(x[i]) == Normalize(y[i])
  {
    NormalizeAt(x, map[]);
    NormalizeAt(y, map[]);
    if |x| == |y| && forall i | 0 <= i < |x| :: Normalize(x[i]) == Normalize(y[i]) {
      assert Normalize(List(x)).items == Normalize(List(y)).items;
    }
  }

  lemma {:induction false} SameObjIff(x: Dict, y: Dict)
    ensures Normalize(Obj(x)) == Normalize(Obj(y)) <==>
              x.Keys == y.Keys && forall k | k in x :: Normalize(x[k]) == Normalize(y[k])
  {
    NormalizeAt([], x);
    NormalizeAt([], y);
    if x.Keys == y.Keys && forall k | k in x :: Normalize(x[k]) == Normalize(y[k]) {
      assert Normalize(Obj(x)).fields == Normalize(Obj(y)).fields;
    }
  }

  /** Two values have the same canonical bytes exactly when they are alike. */
  lemma {:induction false} SameBytesIffAlike(a: Json, b: Json)
    ensures Normalize(a) == Normalize(b) <==> Alike(a, b)
    decreases a
  {
    match (a, b) {
      case (List(x), List(y)) =>
        SameListIff(x, y);
        forall i | 0 <= i < |x| && i < |y| ensures Normalize(x[i]) == Normalize(y[i]) <==> Alike(x[i], y[i]) {
          SameBytesIffAlike(x[i], y[i]);
        }
      case (Obj(x), Obj(y)) =>
        SameObjIff(x, y);
        forall k | k in x && k in y ensures Normalize(x[k]) == Normalize(y[k]) <==> Alike(x[k], y[k]) {
          SameBytesIffAlike(x[k], y[k]);
        }
      case _ =>
        LeavesDiffer(a, b);
    }
  }

  lemma {:induction false} LeavesDiffer(a: Json, b: Json)
    requires !(a.List? && b.List?) && !(a.Obj? && b.Obj?)
    ensures Normalize(a) == Normalize(b) <==> a == b || SameNumber(a, b)
  {
    NormalizeAt(if a.List? then a.items else [], if a.Obj? then a.fields else map[]);
    NormalizeAt(if b.List? then b.items else [], if b.Obj? then b.fields else map[]);
  }

  /** A signature made over a body verifies on exactly the bodies that are like it. */
  lemma {:induction false} VerifiesIffAlike(key: nat, kid: string, body: Dict, other: Dict)
    requires SIGNATURE !in body && SIGNATURE !in other
    ensures Verifies(other[SIGNATURE := SignEnvelope(key, kid, body)[SIGNATURE]], key) <==> Alike(Obj(other), Obj(body))
  {
    var moved := other[SIGNATURE := SignEnvelope(key, kid, body)[SIGNATURE]];
    assert Unsigned(moved) == other;
    SameBytesIffAlike(Obj(other), Obj(body));
  }

  // ---- binding -----------------------------------------------------------------------------

  lemma FlipDiffers(t: Texts, s: string)
    requires t.FlipChanges()
    ensures FlipOneByte(t, s) != s
  {
    if s != "" && s[0] as int < 128 {
      assert FlipOneByte(t, s)[0] != s[0];
    } else if s != "" && t.flipWide(s).None? {
      assert |FlipOneByte(t, s)| == |s| + 1;
    }
  }

  /** A signature binds every signed field: writing another value into it is let through exactly when
      the two are alike. */
  lemma SignatureBinds(outcome: Dict, key: nat, field: string, v: Json)
    requires Verifies(outcome, key) && field != SIGNATURE
    ensures Verifies(outcome[field := v], key) <==> field in outcome && Alike(outcome[field], v)
  {
    if field in outcome {
      SameBytesIffAlike(outcome[field], v);
    }
    var changed := outcome[field := v];
    var was, now := Canonical(Unsigned(outcome)), Canonical(Unsigned(changed));
    assert field in now.fields && now.fields[field] == Normalize(v);
    assert field in was.fields ==> was.fields[field] == Normalize(outcome[field]);
  }

  /** Of a text that starts with an ASCII character the flip changes the lowest bit of that character
      and nothing else, so flipping again gives the text back. */
  lemma {:induction false} FlipsOneBit(t: Texts, s: string)
    requires s != "" && s[0] as int < 128
    ensures var r := FlipOneByte(t, s);
            && |r| == |s| && r[1..] == s[1..]
            && r[0] != s[0] && r[0] as int / 2 == s[0] as int / 2
            && FlipOneByte(t, r) == s
  {
    var r := FlipOneByte(t, s);
    assert r[1..] == s[1..] && s == [s[0]] + s[1..];
    assert FlipOneByte(t, r) == [s[0]] + r[1..];
  }

  /** The flipped copy of any receipt that verifies is rejected; it differs in one signed field only,
      the caller from version 2 on and the corr_id before. */
  lemma FlippedCopyIsRejected(t: Texts, outcome: Dict, key: nat, version: int)
    requires t.FlipChanges() && Verifies(outcome, key)
    ensures forall k :: Field(Tampered(t, outcome, version), k) != Field(outcome, k) <==> k == if version >= 2 then "caller" else "corr_id"
    ensures !Verifies(Tampered(t, outcome, version), key)
  {
    var field := if version >= 2 then "caller" else "corr_id";
    var flipped := Tampered(t, outcome, version)[field];
    var was := Get(outcome, field);
    FlipDiffers(t, "x");
    if was.Str? {
      FlipDiffers(t, was.s);
    }
    SignatureBinds(outcome, key, field, flipped);
  }

  /** The verifier exits 0 exactly on a receipt that holds an outcome of a known version, verifies
      under the key and, from version 2 on, names caller and tier; the tamper check changes no
      verdict. */
  lemma ExitOkIff(t: Texts, receipt: Dict, key: nat, tamperCheck: bool)
    requires t.FlipChanges()
    ensures CheckExit(t, receipt, key, tamperCheck) == EXIT_OK <==> IsGoodReceipt(receipt, key)
  {
    if ExtractOutcome(receipt).Some? && Verifies(ExtractOutcome(receipt).value, key) && ReceiptVersion(ExtractOutcome(receipt).value).Some? {
      FlippedCopyIsRejected(t, ExtractOutcome(receipt).value, key, ReceiptVersion(ExtractOutcome(receipt).value).value);
    }
  }

  /** What signing leaves verifies under that key and no other. */
  lemma SignedVerifies(key: nat, kid: string, body: Dict, other: nat)
    requires SIGNATURE !in body
    ensures Unsigned(SignEnvelope(key, kid, body)) == body
    ensures Verifies(SignEnvelope(key, kid, body), other) <==> other == key
  {
    assert Unsigned(SignEnvelope(key, kid, body)) == body;
  }

  // ---- round trip --------------------------------------------------------------------------

  /** A receipt in any shape the gateway emits. */
  datatype Shape =
    | Bare
    | Allow(kid: string, scope: string, tool: string, actuator: string, kind: string, telemetry: Json)
    | Denied(gate: string, reason: Json, extra: Dict)
    | Line(invoke: Dict, ruri: Json, rrn: string, hint: Option<Json>, seqNo: int, prev: string, note: Option<Json>)

  function Emitted(shape: Shape, signed: Dict): Dict {
    match shape
    case Bare => signed
    case Allow(kid, scope, tool, actuator, kind, telemetry) => AllowBody(kid, scope, tool, actuator, kind, telemetry, Some(signed))
    case Denied(gate, reason, extra) => DenyBody(gate, reason, extra, Some(signed))
    case Line(invoke, ruri, rrn, hint, seqNo, prev, note) => OutcomeLine(invoke, signed, ruri, rrn, hint, seqNo, prev, note)
  }

  /** A signed outcome, by the keys the verifier looks at. */
  predicate OutcomeKeys(signed: Dict) {
    && SIGNATURE in signed && "status" in signed
    && "outcome" !in signed && "detail" !in signed && "intent" !in signed && "record_kind" !in signed
  }

  lemma FoundOnTop(receipt: Dict, signed: Dict)
    requires SIGNATURE in signed && "outcome" in receipt && receipt["outcome"] == Obj(signed)
    requires Get(receipt, "record_kind") != Str("intent")
    ensures ExtractOutcome(receipt) == Some(signed)
  {
  }

  lemma FoundInDetail(receipt: Dict, detail: Dict, signed: Dict)
    requires SIGNATURE in signed && "outcome" in detail && detail["outcome"] == Obj(signed)
    requires receipt == map["detail" := Obj(detail)]
    ensures ExtractOutcome(receipt) == Some(signed)
  {
  }

  lemma {:induction false} FoundInEveryShape(shape: Shape, signed: Dict)
    requires OutcomeKeys(signed)
    ensures ExtractOutcome(Emitted(shape, signed)) == Some(signed)
  {
    var receipt := Emitted(shape, signed);
    match shape {
      case Bare =>
      case Allow(_, _, _, _, _, _) =>
        assert "record_kind" !in receipt;
        FoundOnTop(receipt, signed);
      case Denied(gate, reason, extra) =>
        FoundInDetail(receipt, Attached(extra + map["deny" := Str(gate), "reason" := reason], Some(signed)), signed);
      case Line(_, _, _, _, _, _, _) =>
        assert receipt["record_kind"] == Str("outcome");
        FoundOnTop(receipt, signed);
    }
  }

  const REQUIRED_KEYS: set<string> := {"receipt_version", "corr_id", "rrn", "status", "started_at", "ended_at", "caller", "tier"}
  const OPTIONAL_KEYS: set<string> := {"duration_ms", "telemetry_sha256", "error", "result_summary"}

  lemma KeysOfOutcome(body: Dict, block: Json)
    requires REQUIRED_KEYS <= body.Keys <= REQUIRED_KEYS + OPTIONAL_KEYS
    ensures SIGNATURE !in body && OutcomeKeys(body[SIGNATURE := block])
  {
  }

  lemma KeysOfBuilt(required: Dict, extras: Dict)
    requires required.Keys == REQUIRED_KEYS && extras.Keys <= OPTIONAL_KEYS
    ensures var body := required + extras;
            && REQUIRED_KEYS <= body.Keys <= REQUIRED_KEYS + OPTIONAL_KEYS
            && body["receipt_version"] == required["receipt_version"]
  {
  }

  /** What is signed and carries the keys of an outcome is found in every shape, with exit 0. */
  lemma {:induction false} BuiltRoundTrip(t: Texts, shape: Shape, key: nat, kid: string, body: Dict, tamperCheck: bool)
    requires t.FlipChanges()
    requires REQUIRED_KEYS <= body.Keys <= REQUIRED_KEYS + OPTIONAL_KEYS && body["receipt_version"] == Int(2)
    ensures var signed := SignEnvelope(key, kid, body);
            && ExtractOutcome(Emitted(shape, signed)) == Some(signed)
            && CheckExit(t, Emitted(shape, signed), key, tamperCheck) == EXIT_OK
  {
    var signed := SignEnvelope(key, kid, body);
    KeysOfOutcome(body, signed[SIGNATURE]);
    assert body[SIGNATURE := signed[SIGNATURE]] == signed;
    FoundInEveryShape(shape, signed);
    SignedVerifies(key, kid, body, key);
    ExitOkIff(t, Emitted(shape, signed), key, tamperCheck);
  }

  /** Every signed outcome is found again in every shape, and verifies there with exit 0. */
  lemma {:induction false} ReceiptRoundTrip(t: Texts, shape: Shape, key: nat, kid: string, corrId: Json, rrn: string, status: string,
                         startedAt: string, endedAt: string, durationMs: Option<Json>, telemetry: Option<Json>,
                         error: Option<Json>, summary: Option<Json>, caller: Option<string>, tier: Option<string>,
                         tamperCheck: bool)
    requires t.FlipChanges()
    ensures var body := BuildOutcome(corrId, rrn, status, startedAt, endedAt, durationMs, telemetry, error, summary, caller, tier);
            var signed := SignEnvelope(key, kid, body);
            && ExtractOutcome(Emitted(shape, signed)) == Some(signed)
            && CheckExit(t, Emitted(shape, signed), key, tamperCheck) == EXIT_OK
  {
    var body := BuildOutcome(corrId, rrn, status, startedAt, endedAt, durationMs, telemetry, error, summary, caller, tier);
    KeysOfBuilt(Required(corrId, rrn, status, startedAt, endedAt, caller, tier), Extras(durationMs, telemetry, error, summary));
    BuiltRoundTrip(t, shape, key, kid, body, tamperCheck);
  }

  /** Every field that is always there, under its own name; null for a caller or tier nobody declared. */
  predicate HoldsRequired(d: Dict, corrId: Json, rrn: string, status: string, startedAt: string, endedAt: string,
                          caller: Option<string>, tier: Option<string>) {
    && Field(d, "corr_id") == Some(corrId)
    && Field(d, "rrn") == Some(Str(rrn))
    && Field(d, "status") == Some(Str(status))
    && Field(d, "started_at") == Some(Str(startedAt))
    && Field(d, "ended_at") == Some(Str(endedAt))
    && Field(d, "caller") == Some(if caller.Some? then Str(caller.value) else Null)
    && Field(d, "tier") == Some(if tier.Some? then Str(tier.value) else Null)
  }

  /** An optional field is there exactly when it was given. */
  predicate HoldsExtras(d: Dict, durationMs: Option<Json>, telemetry: Option<Json>, error: Option<Json>, summary: Option<Json>) {
    && Field(d, "duration_ms") == durationMs
    && Field(d, "telemetry_sha256") == telemetry
    && Field(d, "error") == error
    && Field(d, "result_summary") == summary
  }

  lemma {:induction false} RequiredAreHeld(corrId: Json, rrn: string, status: string, startedAt: string, endedAt: string,
                                           caller: Option<string>, tier: Option<string>)
    ensures HoldsRequired(Required(corrId, rrn, status, startedAt, endedAt, caller, tier), corrId, rrn, status, startedAt, endedAt, caller, tier)
  {
  }

  lemma {:induction false} ExtrasAreHeld(durationMs: Option<Json>, telemetry: Option<Json>, error: Option<Json>, summary: Option<Json>)
    ensures HoldsExtras(Extras(durationMs, telemetry, error, summary), durationMs, telemetry, error, summary)
  {
  }

  lemma {:induction false} FieldOfBoth(required: Dict, extras: Dict, block: Json, k: string)
    requires required.Keys !! extras.Keys && k != SIGNATURE
    ensures k in required ==> Field((required + extras)[SIGNATURE := block], k) == Field(required, k)
    ensures k !in required ==> Field((required + extras)[SIGNATURE := block], k) == Field(extras, k)
  {
  }

  lemma {:induction false} BothAreHeld(required: Dict, extras: Dict, block: Json)
    requires required.Keys == REQUIRED_KEYS && extras.Keys <= OPTIONAL_KEYS
    ensures forall k | k in REQUIRED_KEYS :: Field((required + extras)[SIGNATURE := block], k) == Field(required, k)
    ensures forall k | k in OPTIONAL_KEYS :: Field((required + extras)[SIGNATURE := block], k) == Field(extras, k)
  {
    assert required.Keys !! extras.Keys && SIGNATURE !in REQUIRED_KEYS + OPTIONAL_KEYS;
    forall k | k in REQUIRED_KEYS + OPTIONAL_KEYS
      ensures k in REQUIRED_KEYS ==> Field((required + extras)[SIGNATURE := block], k) == Field(required, k)
      ensures k in OPTIONAL_KEYS ==> Field((required + extras)[SIGNATURE := block], k) == Field(extras, k)
    {
      FieldOfBoth(required, extras, block, k);
      assert k in OPTIONAL_KEYS ==> k !in REQUIRED_KEYS;
    }
  }

  /** What a reader finds in the receipt, whatever shape it came in, is what the outcome was built
      from. */
  lemma {:induction false} OutcomeReadsBack(shape: Shape, key: nat, kid: string, corrId: Json, rrn: string, status: string,
                         startedAt: string, endedAt: string, durationMs: Option<Json>, telemetry: Option<Json>,
                         error: Option<Json>, summary: Option<Json>, caller: Option<string>, tier: Option<string>)
    ensures var body := BuildOutcome(corrId, rrn, status, startedAt, endedAt, durationMs, telemetry, error, summary, caller, tier);
            var found := ExtractOutcome(Emitted(shape, SignEnvelope(key, kid, body)));
            && found.Some?
            && HoldsRequired(found.value, corrId, rrn, status, startedAt, endedAt, caller, tier)
            && HoldsExtras(found.value, durationMs, telemetry, error, summary)
  {
    var required, extras := Required(corrId, rrn, status, startedAt, endedAt, caller, tier), Extras(durationMs, telemetry, error, summary);
    var block := SignEnvelope(key, kid, required + extras)[SIGNATURE];
    KeysOfBuilt(required, extras);
    KeysOfOutcome(required + extras, block);
    FoundInEveryShape(shape, (required + extras)[SIGNATURE := block]);
    RequiredAreHeld(corrId, rrn, status, startedAt, endedAt, caller, tier);
    ExtrasAreHeld(durationMs, telemetry, error, summary);
    BothAreHeld(required, extras, block);
  }

  /** A signed intent says who was about to do what with which actuator, and that it is no outcome. */
  lemma {:induction false} IntentReadsBack(key: nat, kid: string, corrId: Json, envelopeId: Json, rrn: string, tool: Json,
                               actuator: Json, nonce: Json, caller: Option<string>, tier: Option<string>, at: string)
    ensures var found := SignEnvelope(key, kid, BuildIntent(corrId, envelopeId, rrn, tool, actuator, nonce, caller, tier, at));
            && Get(found, "record_kind") == Str("intent") && Get(found, "status") == Str("dispatching")
            && Field(found, "corr_id") == Some(corrId) && Field(found, "tool") == Some(tool) && Field(found, "actuator") == Some(actuator)
            && Field(found, "caller") == Some(if caller.Some? then Str(caller.value) else Null)
            && Field(found, "tier") == Some(if tier.Some? then Str(tier.value) else Null)
  {
  }

  /** What the walk and the shipper read off a line of the export. */
  datatype Seen = Seen(kind: Kind, corr: Json, seqNo: Json, prev: Json, note: Option<Json>)

  function ReadOff(line: Dict): Seen {
    Seen(if Get(line, "record_kind") == Str("intent") then Intent else Outcome,
         Get(line, "corr_id"), Get(line, "seq"), Get(line, "chain_prev"), Field(line, "chain_note"))
  }

  /** Both kinds of line carry the envelope's msg_id and the position they were given. */
  lemma {:induction false} OutcomeLineReadsBack(invoke: Dict, signed: Dict, ruri: Json, rrn: string, hint: Option<Json>, seqNo: int, prev: string, note: Option<Json>)
    ensures ReadOff(OutcomeLine(invoke, signed, ruri, rrn, hint, seqNo, prev, note))
         == Seen(Outcome, Get(invoke, "msg_id"), Int(seqNo), Str(prev), note)
  {
  }

  lemma {:induction false} IntentLineReadsBack(invoke: Dict, signed: Dict, ruri: Json, rrn: string, seqNo: int, prev: string, note: Option<Json>)
    ensures ReadOff(IntentLine(invoke, signed, ruri, rrn, seqNo, prev, note))
         == Seen(Intent, Get(invoke, "msg_id"), Int(seqNo), Str(prev), note)
  {
  }

  /** A signed response shows the outcome and its own signature beside it; a denial names its gate and
      its reason whatever else the gate had to add. */
  lemma {:induction false} ResponsesShow(kid: string, scope: string, tool: string, actuator: string, kind: string, telemetry: Json,
                        gate: string, reason: Json, extra: Dict, signed: Option<Dict>)
    requires signed.Some? ==> SIGNATURE in signed.value
    ensures forall body | body in [AllowBody(kid, scope, tool, actuator, kind, telemetry, signed), DenyBody(gate, reason, extra, signed)["detail"].fields] ::
              && Get(body, "attestation") == Str(if signed.Some? then "attested" else "unattested")
              && Field(body, "envelope_signature") == Some(if signed.Some? then signed.value["envelope_signature"] else Null)
              && (signed.Some? ==> Get(body, "outcome") == Obj(signed.value))
    ensures var body := DenyBody(gate, reason, extra, signed)["detail"].fields;
            Get(body, "deny") == Str(gate) && Get(body, "reason") == reason
  {
  }

  /** A response that could not be signed is never taken for a receipt. */
  lemma UnattestedIsNoReceipt(t: Texts, kid: string, scope: string, tool: string, actuator: string, kind: string, telemetry: Json,
                              gate: string, reason: Json, extra: Dict, key: nat, tamperCheck: bool)
    requires "outcome" !in extra
    ensures CheckExit(t, AllowBody(kid, scope, tool, actuator, kind, telemetry, None), key, tamperCheck) == EXIT_USAGE
    ensures CheckExit(t, DenyBody(gate, reason, extra, None), key, tamperCheck) == EXIT_USAGE
  {
    var allowed, denied := AllowBody(kid, scope, tool, actuator, kind, telemetry, None), DenyBody(gate, reason, extra, None);
    assert "outcome" !in allowed && "detail" !in allowed && "status" !in allowed;
    assert "outcome" !in denied["detail"].fields;
  }

  lemma IntentsExitUsage(t: Texts, receipt: Dict, key: nat, tamperCheck: bool)
    requires Get(receipt, "record_kind") == Str("intent")
    ensures CheckExit(t, receipt, key, tamperCheck) == EXIT_USAGE
  {
  }

  lemma KindOfIntent(key: nat, kid: string, body: Dict)
    requires "record_kind" in body
    ensures Get(SignEnvelope(key, kid, body), "record_kind") == body["record_kind"]
  {
  }

  lemma KindOfIntentLine(invoke: Dict, signed: Dict, ruri: Json, rrn: string, seqNo: int, prev: string, note: Option<Json>)
    ensures Get(IntentLine(invoke, signed, ruri, rrn, seqNo, prev, note), "record_kind") == Str("intent")
  {
  }

  /** No intent record is ever taken for an outcome, on its own or as a line of the export. */
  lemma {:induction false} IntentIsNeverAnOutcome(t: Texts, key: nat, kid: string, corrId: Json, envelopeId: Json, rrn: string, tool: Json,
                               actuator: Json, nonce: Json, caller: Option<string>, tier: Option<string>, at: string,
                               invoke: Dict, ruri: Json, seqNo: int, prev: string, note: Option<Json>, tamperCheck: bool)
    ensures var signed := SignEnvelope(key, kid, BuildIntent(corrId, envelopeId, rrn, tool, actuator, nonce, caller, tier, at));
            && CheckExit(t, signed, key, tamperCheck) == EXIT_USAGE
            && CheckExit(t, IntentLine(invoke, signed, ruri, rrn, seqNo, prev, note), key, tamperCheck) == EXIT_USAGE
  {
    var body := BuildIntent(corrId, envelopeId, rrn, tool, actuator, nonce, caller, tier, at);
    assert body["record_kind"] == Str("intent");
    var signed := SignEnvelope(key, kid, body);
    KindOfIntent(key, kid, body);
    IntentsExitUsage(t, signed, key, tamperCheck);
    KindOfIntentLine(invoke, signed, ruri, rrn, seqNo, prev, note);
    IntentsExitUsage(t, IntentLine(invoke, signed, ruri, rrn, seqNo, prev, note), key, tamperCheck);
  }
}
