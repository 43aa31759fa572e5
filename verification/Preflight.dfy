/** The preflight: which keys a robot's evidence can be checked with, and what stops a run. */
module Preflight {
  import opened Trace

  // ---- what the run is told ----------------------------------------------------------------

  datatype Mode = Bench | Live

  const BOTH: set<Mode> := {Bench, Live}
  const LIVE_ONLY: set<Mode> := {Live}

  /** A public key, by its hash. */
  type Key = nat

  /** The local resolver's answer for a kid; everything but a key is one case. */
  datatype LocalAnswer = Served(key: Key) | NotServed

  /** The registry's answer for a kid. */
  datatype RegistryAnswer =
    | Found(key: Key, ran: string)
    | BadResponse(ran: string) // 200 without a usable key
    | NotRegistered           // 404
    | RevokedKid(ran: string) // 410
    | Unreachable
    | OtherError

  /** The registry's record of the robot. */
  datatype RobotAnswer = Robot(revoked: bool, verified: bool, sameName: bool) | NoRobot | NoUsableRobot

  /** The registry's record of an authority. */
  datatype AuthorityAnswer = Authority(key: Option<Key>, revoked: bool) | NoAuthority | NoUsableAuthority

  datatype Pin = Pin(key: Option<Key>, role: string, rrn: string, ran: string)

  /** Everything outside the tool: the two resolvers, the registry's records and the pins. */
  datatype World = World(local: string -> LocalAnswer, registry: string -> RegistryAnswer,
                         robot: string -> RobotAnswer, authority: string -> AuthorityAnswer,
                         pins: map<string, Pin>, pinOrder: seq<string>)

  datatype Fixture = NotCompared | Unreadable | Compared(same: bool)

  /** The manifest file; `verifies` says under which keys its signature holds. */
  datatype ManifestFile =
    | Missing
    | Read(fixture: Fixture, footer: bool, wellFormed: bool, kid: string, rrn: string, verifies: Key -> bool)

  datatype Sidecar = NoSidecar | Holds(key: Option<Key>)

  datatype Pairing = NotGiven | Garbled | Payload(kid: string, key: Option<Key>)

  /** The newest receipt the gateway signed, in the tail of its export. */
  datatype Latest = NoReceipt | Receipt(verifies: Key -> bool)

  /** The running gateway: what its environment and files say. */
  datatype Gateway =
    | NotRunning
    | Running(manifestDiffers: bool, driveMatches: bool, signingKid: Option<string>, sidecar: Sidecar, ran: string,
              pairing: Pairing, latest: Latest, signers: seq<string>, enforceSignatures: bool)

  datatype Inputs = Inputs(mode: Mode, manifest: ManifestFile, gateway: Gateway)

  // ---- what the run says -------------------------------------------------------------------

  datatype FindingId =
    | NoPin(kid: string) | LocalDiffersFromPin(kid: string) | RegistryDiffersFromLocal(kid: string)
    | RegistryDiffersFromPin(kid: string) | RegistryRanDiffersFromPin(kid: string) | KidRevoked(kid: string)
    | KidNotRegistered(kid: string) | RegistryUnreachable(kid: string) | PinRoleDiffers(kid: string)
    | PinRrnDiffers(kid: string) | ManifestUnreadable | FixtureDiffers | FixtureUnreadable | NoFixture
    | ManifestUnsigned | SignatureMalformed | ManifestHasNoRrn | ManifestKidUnresolved | ManifestSignatureFails
    | RobotRevoked | RobotUnverified | RobotNameDiffers | RrnNotRegistered | RrnUnreachable
    | GatewayNotRunning | GatewayManifestDiffers | DriveDiffers | GatewayNotSigning | GatewayKidUnresolved
    | KeyFileDiffers | SidecarMissing | RanHoldsDifferentKey | RanRevoked | RanNotFound | RanUnreachable
    | RegistryRanDiffers | RanNotDeclared | PairingNotGiven | PairingUnreadable | PairingKidDiffers
    | PairingKeyDiffers | ReceiptFailsLocalKey | NoReceiptInTail | SignerUnresolved(kid: string)

  datatype Finding = Finding(id: FindingId, stopIn: set<Mode>)

  datatype Check = ManifestKidBacked | ManifestVerifiesUnderRegistry | RobotRecordGood | GatewayKidBacked | RanHoldsGatewayKey

  type Checks = map<Check, bool>

  datatype Verdict = Stopped(first: FindingId) | LocalKeysOnly | RegistryResolves

  function Stops(findings: seq<Finding>, mode: Mode): seq<FindingId> {
    if findings == [] then []
    else
      var last := findings[|findings| - 1];
      Stops(findings[..|findings| - 1], mode) + if mode in last.stopIn then [last.id] else []
  }

  /** `verdict_for` */
  function VerdictFor(mode: Mode, findings: seq<Finding>, checks: Checks): Verdict {
    var stops := Stops(findings, mode);
    if stops != [] then Stopped(stops[0])
    else if checks != map[] && (forall c | c in checks :: checks[c]) then RegistryResolves
    else LocalKeysOnly
  }

  // ---- one kid -----------------------------------------------------------------------------

  datatype Entry = Entry(local: LocalAnswer, registry: RegistryAnswer, pin: Option<Pin>) {
    predicate LocalMatchesPin() {
      pin.Some? && local.Served? && pin.value.key == Some(local.key)
    }

    predicate RegistryMatchesLocal() {
      registry.Found? && local.Served? && registry.key == local.key
    }

    predicate RegistryMatchesPin() {
      pin.Some? && registry.Found? && pin.value.key == Some(registry.key)
    }

    /** Registry, local copy and pin are one key. */
    predicate Backed() {
      registry.Found? && RegistryMatchesLocal() && RegistryMatchesPin()
    }
  }

  function EntryFor(w: World, kid: string): Entry {
    Entry(w.local(kid), w.registry(kid), if kid in w.pins then Some(w.pins[kid]) else None)
  }

  function Say(condition: bool, id: FindingId, stopIn: set<Mode>): seq<Finding> {
    if condition then [Finding(id, stopIn)] else []
  }

  function PinFindings(e: Entry, kid: string, inUse: set<Mode>): seq<Finding> {
    if e.pin.None? then Say(true, NoPin(kid), {})
    else Say(e.local.Served? && !e.LocalMatchesPin(), LocalDiffersFromPin(kid), inUse)
  }

  function RegistryFindings(e: Entry, kid: string, inUse: set<Mode>): seq<Finding> {
    match e.registry
    case Found(_, ran) =>
      (if e.local.Served? && !e.RegistryMatchesLocal() then Say(true, RegistryDiffersFromLocal(kid), inUse)
       else Say(e.pin.Some? && !e.RegistryMatchesPin(), RegistryDiffersFromPin(kid), inUse))
      + Say(e.pin.Some? && e.pin.value.ran != "" && ran != e.pin.value.ran, RegistryRanDiffersFromPin(kid), {})
    case RevokedKid(_) => Say(true, KidRevoked(kid), inUse)
    case NotRegistered => Say(true, KidNotRegistered(kid), {})
    case _ => Say(true, RegistryUnreachable(kid), {})
  }

  function PinNotes(e: Entry, kid: string, role: string, rrn: string): seq<Finding> {
    if e.pin.None? then []
    else
      Say(e.pin.value.role != "" && e.pin.value.role != role, PinRoleDiffers(kid), {})
      + Say(e.pin.value.rrn != "" && rrn != "" && e.pin.value.rrn != rrn, PinRrnDiffers(kid), {})
  }

  /** Findings so far, and the kids already looked up. */
  datatype Progress = Progress(findings: seq<Finding>, kids: map<string, Entry>)

  /** The same, with more said. */
  function Said(p: Progress, more: seq<Finding>): Progress {
    p.(findings := p.findings + more)
  }

  /** `check_kid`: a kid is looked up once; asking again adds nothing. */
  function KidChecked(w: World, p: Progress, kid: string, role: string, inUse: set<Mode>, rrn: string): Progress {
    if kid in p.kids then p
    else
      var e := EntryFor(w, kid);
      Progress(p.findings + PinFindings(e, kid, inUse) + RegistryFindings(e, kid, inUse) + PinNotes(e, kid, role, rrn),
               p.kids[kid := e])
  }

  // ---- the manifest ------------------------------------------------------------------------

  function FixtureFindings(f: Fixture): seq<Finding> {
    match f
    case NotCompared => Say(true, NoFixture, {})
    case Unreadable => Say(true, FixtureUnreadable, BOTH)
    case Compared(same) => Say(!same, FixtureDiffers, BOTH)
  }

  /** `_manifest`: what it finds, and whether the run goes on. */
  function ManifestFindings(m: ManifestFile): seq<Finding> {
    if m.Missing? then Say(true, ManifestUnreadable, BOTH)
    else
      FixtureFindings(m.fixture)
      + if !m.footer then Say(true, ManifestUnsigned, BOTH)
        else if !m.wellFormed then Say(true, SignatureMalformed, BOTH)
        else Say(m.rrn == "", ManifestHasNoRrn, {})
  }

  predicate Usable(m: ManifestFile) {
    m.Read? && m.footer && m.wellFormed
  }

  function ManifestKeyFindings(e: Entry, m: ManifestFile): seq<Finding>
    requires m.Read?
  {
    if e.local.NotServed? then Say(true, ManifestKidUnresolved, BOTH)
    else Say(!m.verifies(e.local.key), ManifestSignatureFails, BOTH)
  }

  function ManifestChecks(e: Entry, m: ManifestFile): Checks
    requires m.Read?
  {
    map[ManifestKidBacked := e.Backed(), ManifestVerifiesUnderRegistry := e.registry.Found? && m.verifies(e.registry.key)]
  }

  // ---- the robot record --------------------------------------------------------------------

  function RobotFindings(w: World, rrn: string): seq<Finding> {
    if rrn == "" then []
    else match w.robot(rrn)
      case Robot(revoked, verified, sameName) =>
        Say(revoked, RobotRevoked, BOTH) + Say(!verified, RobotUnverified, {}) + Say(!sameName, RobotNameDiffers, {})
      case NoRobot => Say(true, RrnNotRegistered, {})
      case NoUsableRobot => Say(true, RrnUnreachable, {})
  }

  predicate RobotGood(w: World, rrn: string) {
    rrn != "" && w.robot(rrn).Robot? && !w.robot(rrn).revoked
  }

  // ---- the gateway -------------------------------------------------------------------------

  /** What the gateway's key material says against the local copy. */
  function KeyFindings(e: Entry, g: Gateway): seq<Finding>
    requires g.Running?
  {
    Say(e.local.NotServed?, GatewayKidUnresolved, LIVE_ONLY)
    + match g.sidecar
      case NoSidecar => Say(true, SidecarMissing, {})
      case Holds(key) => Say(e.local.Served? && key != Some(e.local.key), KeyFileDiffers, LIVE_ONLY)
  }

  predicate HoldsGatewayKey(a: AuthorityAnswer, e: Entry) {
    a.Authority? && a.key.Some? && e.local.Served? && a.key.value == e.local.key
  }

  function RegistryRan(e: Entry): string {
    match e.registry
    case Found(_, ran) => ran
    case BadResponse(ran) => ran
    case RevokedKid(ran) => ran
    case _ => ""
  }

  function AuthorityFindings(w: World, e: Entry, ran: string): seq<Finding> {
    match w.authority(ran)
    case Authority(_, revoked) =>
      Say(!HoldsGatewayKey(w.authority(ran), e), RanHoldsDifferentKey, {}) + Say(revoked, RanRevoked, LIVE_ONLY)
    case NoAuthority => Say(true, RanNotFound, {})
    case NoUsableAuthority => Say(true, RanUnreachable, {})
  }

  function RanFindings(w: World, e: Entry, ran: string): seq<Finding> {
    if ran == "" then Say(true, RanNotDeclared, {})
    else
      AuthorityFindings(w, e, ran)
      + Say(RegistryRan(e) != "" && RegistryRan(e) != ran, RegistryRanDiffers, {})
  }

  predicate RanOk(w: World, e: Entry, ran: string) {
    ran == "" || (HoldsGatewayKey(w.authority(ran), e) && (RegistryRan(e) == "" || RegistryRan(e) == ran))
  }

  function GatewayChecks(w: World, e: Entry, ran: string): Checks {
    map[GatewayKidBacked := e.Backed(), RanHoldsGatewayKey := RanOk(w, e, ran)]
  }

  function PairingFindings(e: Entry, kid: string, p: Pairing): seq<Finding> {
    match p
    case NotGiven => Say(true, PairingNotGiven, {})
    case Garbled => Say(true, PairingUnreadable, LIVE_ONLY)
    case Payload(named, key) =>
      Say(named != kid, PairingKidDiffers, LIVE_ONLY)
      + Say(!(key.Some? && e.local.Served? && key.value == e.local.key), PairingKeyDiffers, LIVE_ONLY)
  }

  function ReceiptFindings(e: Entry, latest: Latest): seq<Finding> {
    match latest
    case NoReceipt => Say(true, NoReceiptInTail, {})
    case Receipt(verifies) => Say(!(e.local.Served? && verifies(e.local.key)), ReceiptFailsLocalKey, LIVE_ONLY)
  }

  function SignersChecked(w: World, p: Progress, signers: seq<string>, enforce: bool, rrn: string): Progress {
    if signers == [] then p
    else
      var kid := signers[|signers| - 1];
      var q := KidChecked(w, SignersChecked(w, p, signers[..|signers| - 1], enforce, rrn), kid, "envelope-signer", LIVE_ONLY, rrn);
      Said(q, Say(w.local(kid).NotServed?, SignerUnresolved(kid), if enforce then LIVE_ONLY else {}))
  }

  predicate Signs(g: Gateway) {
    g.Running? && g.signingKid.Some?
  }

  /** What is said before the signing kid is looked up, and with its answers at hand. */
  function DriveFindings(g: Gateway): seq<Finding>
    requires g.Running?
  {
    Say(g.manifestDiffers, GatewayManifestDiffers, LIVE_ONLY) + Say(!g.driveMatches, DriveDiffers, LIVE_ONLY)
  }

  function IdentityFindings(w: World, kid: string, g: Gateway): seq<Finding>
    requires g.Running?
  {
    var e := EntryFor(w, kid);
    KeyFindings(e, g) + RanFindings(w, e, g.ran) + PairingFindings(e, kid, g.pairing) + ReceiptFindings(e, g.latest)
  }

  /** `_gateway` with `_drive`, `_pairing` and `_export`. */
  function GatewayChecked(w: World, p: Progress, g: Gateway, rrn: string): Progress {
    if g.NotRunning? then Said(p, [Finding(GatewayNotRunning, LIVE_ONLY)])
    else if g.signingKid.None? then Said(Said(p, DriveFindings(g)), [Finding(GatewayNotSigning, LIVE_ONLY)])
    else
      var kid := g.signingKid.value;
      var q := KidChecked(w, Said(p, DriveFindings(g)), kid, "gateway-attestation", LIVE_ONLY, rrn);
      SignersChecked(w, Said(q, IdentityFindings(w, kid, g)), g.signers, g.enforceSignatures, rrn)
  }

  /** `_other_pins` */
  function OtherPinsChecked(w: World, p: Progress, order: seq<string>, rrn: string): Progress {
    if order == [] then p
    else
      var q, kid := OtherPinsChecked(w, p, order[..|order| - 1], rrn), order[|order| - 1];
      if kid !in w.pins || kid in q.kids || rrn == "" || w.pins[kid].rrn != rrn then q
      else KidChecked(w, q, kid, if w.pins[kid].role != "" then w.pins[kid].role else "pinned", {}, rrn)
  }

  // ---- the run -----------------------------------------------------------------------------

  function ManifestStage(w: World, m: ManifestFile): Progress {
    var p := Progress(ManifestFindings(m), map[]);
    if !Usable(m) then p
    else
      var q := KidChecked(w, p, m.kid, "manifest", BOTH, m.rrn);
      Said(q, ManifestKeyFindings(EntryFor(w, m.kid), m) + RobotFindings(w, m.rrn))
  }

  function BenchChecks(w: World, m: ManifestFile): Checks {
    if !Usable(m) then map[]
    else ManifestChecks(EntryFor(w, m.kid), m)[RobotRecordGood := RobotGood(w, m.rrn)]
  }

  function LiveChecks(w: World, inp: Inputs): Checks {
    BenchChecks(w, inp.manifest)
    + if Usable(inp.manifest) && Signs(inp.gateway)
      then GatewayChecks(w, EntryFor(w, inp.gateway.signingKid.value), inp.gateway.ran)
      else map[]
  }

  /** `registry_checks` of one mode. */
  function ChecksOf(w: World, inp: Inputs, mode: Mode): Checks {
    if mode.Live? then LiveChecks(w, inp) else BenchChecks(w, inp.manifest)
  }

  function GatewayStage(w: World, inp: Inputs): Progress
    requires Usable(inp.manifest)
  {
    var p := ManifestStage(w, inp.manifest);
    if inp.mode.Live? then GatewayChecked(w, p, inp.gateway, inp.manifest.rrn) else p
  }

  /** `run`: everything said and every kid looked up. */
  function RunOf(w: World, inp: Inputs): Progress {
    if !Usable(inp.manifest) then ManifestStage(w, inp.manifest)
    else OtherPinsChecked(w, GatewayStage(w, inp), w.pinOrder, inp.manifest.rrn)
  }

  function VerdictOf(w: World, inp: Inputs, mode: Mode): Verdict {
    VerdictFor(mode, RunOf(w, inp).findings, ChecksOf(w, inp, mode))
  }

  // ---- silence never stops -----------------------------------------------------------------

  predicate Silent(a: RegistryAnswer) {
    a.NotRegistered? || a.Unreachable?
  }

  /** The same world with some registry answers replaced by 404 or nothing. */
  ghost predicate Silenced(w: World, s: World) {
    && s.local == w.local && s.pins == w.pins && s.pinOrder == w.pinOrder
    && (forall kid :: s.registry(kid) == w.registry(kid) || Silent(s.registry(kid)))
    && (forall rrn :: s.robot(rrn) == w.robot(rrn) || s.robot(rrn).NoRobot? || s.robot(rrn).NoUsableRobot?)
    && (forall ran :: s.authority(ran) == w.authority(ran) || s.authority(ran).NoAuthority? || s.authority(ran).NoUsableAuthority?)
  }

  /** Every stop on the left is on the right. */
  ghost predicate NoMoreStops(a: seq<Finding>, b: seq<Finding>) {
    forall f | f in a && f.stopIn != {} :: f in b
  }

  ghost predicate NoMoreProgress(p: Progress, q: Progress) {
    p.kids.Keys == q.kids.Keys && NoMoreStops(p.findings, q.findings)
  }

  lemma {:induction false} SilentKid(w: World, s: World, p: Progress, q: Progress, kid: string, role: string, inUse: set<Mode>, rrn: string)
    requires Silenced(w, s) && NoMoreProgress(p, q)
    ensures NoMoreProgress(KidChecked(s, p, kid, role, inUse, rrn), KidChecked(w, q, kid, role, inUse, rrn))
  {
    if kid !in p.kids {
      var d, e := EntryFor(s, kid), EntryFor(w, kid);
      assert PinFindings(d, kid, inUse) == PinFindings(e, kid, inUse);
      assert d.registry == e.registry || Silent(d.registry);
      assert NoMoreStops(RegistryFindings(d, kid, inUse), RegistryFindings(e, kid, inUse));
    }
  }

  lemma SilentAppend(p: Progress, q: Progress, a: seq<Finding>, b: seq<Finding>)
    requires NoMoreProgress(p, q) && NoMoreStops(a, b)
    ensures NoMoreProgress(Said(p, a), Said(q, b))
  {
  }

  lemma {:induction false} SilentSigners(w: World, s: World, p: Progress, q: Progress, signers: seq<string>, enforce: bool, rrn: string)
    requires Silenced(w, s) && NoMoreProgress(p, q)
    ensures NoMoreProgress(SignersChecked(s, p, signers, enforce, rrn), SignersChecked(w, q, signers, enforce, rrn))
  {
    if signers != [] {
      var front, kid := signers[..|signers| - 1], signers[|signers| - 1];
      SilentSigners(w, s, p, q, front, enforce, rrn);
      var a, b := SignersChecked(s, p, front, enforce, rrn), SignersChecked(w, q, front, enforce, rrn);
      SilentKid(w, s, a, b, kid, "envelope-signer", LIVE_ONLY, rrn);
      var last := Say(w.local(kid).NotServed?, SignerUnresolved(kid), if enforce then LIVE_ONLY else {});
      SilentAppend(KidChecked(s, a, kid, "envelope-signer", LIVE_ONLY, rrn), KidChecked(w, b, kid, "envelope-signer", LIVE_ONLY, rrn), last, last);
    }
  }

  lemma {:induction false} SilentPins(w: World, s: World, p: Progress, q: Progress, order: seq<string>, rrn: string)
    requires Silenced(w, s) && NoMoreProgress(p, q)
    ensures NoMoreProgress(OtherPinsChecked(s, p, order, rrn), OtherPinsChecked(w, q, order, rrn))
  {
    if order != [] {
      var front, kid := order[..|order| - 1], order[|order| - 1];
      SilentPins(w, s, p, q, front, rrn);
      if kid in w.pins {
        var role := if w.pins[kid].role != "" then w.pins[kid].role else "pinned";
        SilentKid(w, s, OtherPinsChecked(s, p, front, rrn), OtherPinsChecked(w, q, front, rrn), kid, role, {}, rrn);
      }
    }
  }

  lemma SilentRan(w: World, s: World, d: Entry, e: Entry, ran: string)
    requires Silenced(w, s) && d.local == e.local
    ensures NoMoreStops(RanFindings(s, d, ran), RanFindings(w, e, ran))
  {
    var held := s.authority(ran);
    if held == w.authority(ran) && held.Authority? && held.revoked {
      assert Finding(RanRevoked, LIVE_ONLY) in RanFindings(w, e, ran) || ran == "";
    }
  }

  lemma {:induction false} SilentIdentity(w: World, s: World, kid: string, g: Gateway)
    requires Silenced(w, s) && g.Running?
    ensures NoMoreStops(IdentityFindings(s, kid, g), IdentityFindings(w, kid, g))
  {
    var d, e := EntryFor(s, kid), EntryFor(w, kid);
    SilentRan(w, s, d, e, g.ran);
    assert KeyFindings(d, g) == KeyFindings(e, g);
    assert PairingFindings(d, kid, g.pairing) == PairingFindings(e, kid, g.pairing);
    assert ReceiptFindings(d, g.latest) == ReceiptFindings(e, g.latest);
    AppendNoMore(KeyFindings(d, g), KeyFindings(e, g), RanFindings(s, d, g.ran), RanFindings(w, e, g.ran));
    var rest := PairingFindings(e, kid, g.pairing) + ReceiptFindings(e, g.latest);
    AppendNoMore(KeyFindings(d, g) + RanFindings(s, d, g.ran), KeyFindings(e, g) + RanFindings(w, e, g.ran), rest, rest);
    assert forall x: seq<Finding> :: x + rest == x + PairingFindings(e, kid, g.pairing) + ReceiptFindings(e, g.latest);
  }

  lemma AppendNoMore(a: seq<Finding>, b: seq<Finding>, c: seq<Finding>, d: seq<Finding>)
    requires NoMoreStops(a, b) && NoMoreStops(c, d)
    ensures NoMoreStops(a + c, b + d)
  {
  }

  lemma SilentGateway(w: World, s: World, p: Progress, q: Progress, g: Gateway, rrn: string)
    requires Silenced(w, s) && NoMoreProgress(p, q)
    ensures NoMoreProgress(GatewayChecked(s, p, g, rrn), GatewayChecked(w, q, g, rrn))
  {
    if g.Running? {
      SilentAppend(p, q, DriveFindings(g), DriveFindings(g));
      var a, b := Said(p, DriveFindings(g)), Said(q, DriveFindings(g));
      if g.signingKid.None? {
        SilentAppend(a, b, [Finding(GatewayNotSigning, LIVE_ONLY)], [Finding(GatewayNotSigning, LIVE_ONLY)]);
      } else {
        var kid := g.signingKid.value;
        SilentKid(w, s, a, b, kid, "gateway-attestation", LIVE_ONLY, rrn);
        a, b := KidChecked(s, a, kid, "gateway-attestation", LIVE_ONLY, rrn), KidChecked(w, b, kid, "gateway-attestation", LIVE_ONLY, rrn);
        SilentIdentity(w, s, kid, g);
        SilentAppend(a, b, IdentityFindings(s, kid, g), IdentityFindings(w, kid, g));
        SilentSigners(w, s, Said(a, IdentityFindings(s, kid, g)), Said(b, IdentityFindings(w, kid, g)), g.signers, g.enforceSignatures, rrn);
      }
    }
  }

  lemma {:induction false} StopsExact(findings: seq<Finding>, mode: Mode, id: FindingId)
    ensures id in Stops(findings, mode) <==> exists f :: f in findings && f.id == id && mode in f.stopIn
  {
    if findings != [] {
      var front, last := findings[..|findings| - 1], findings[|findings| - 1];
      StopsExact(front, mode, id);
      assert findings == front + [last];
    }
  }

  lemma {:induction false} SilentRobot(w: World, s: World, rrn: string)
    requires Silenced(w, s)
    ensures NoMoreStops(RobotFindings(s, rrn), RobotFindings(w, rrn))
  {
    assert s.robot(rrn) == w.robot(rrn) || s.robot(rrn).NoRobot? || s.robot(rrn).NoUsableRobot?;
  }

  lemma {:induction false} SilentManifest(w: World, s: World, m: ManifestFile)
    requires Silenced(w, s)
    ensures NoMoreProgress(ManifestStage(s, m), ManifestStage(w, m))
  {
    if Usable(m) {
      var p := Progress(ManifestFindings(m), map[]);
      SilentKid(w, s, p, p, m.kid, "manifest", BOTH, m.rrn);
      SilentRobot(w, s, m.rrn);
      var said := ManifestKeyFindings(EntryFor(w, m.kid), m);
      assert ManifestKeyFindings(EntryFor(s, m.kid), m) == said;
      AppendNoMore(said, said, RobotFindings(s, m.rrn), RobotFindings(w, m.rrn));
      SilentAppend(KidChecked(s, p, m.kid, "manifest", BOTH, m.rrn), KidChecked(w, p, m.kid, "manifest", BOTH, m.rrn),
                   said + RobotFindings(s, m.rrn), said + RobotFindings(w, m.rrn));
    }
  }

  /** Silencing the registry never creates a stop: with any of its answers replaced by 404 or by no
      answer, everything that stops the run stopped it before. */
  lemma SilenceNeverStops(w: World, s: World, inp: Inputs, mode: Mode, id: FindingId)
    requires Silenced(w, s)
    ensures id in Stops(RunOf(s, inp).findings, mode) ==> id in Stops(RunOf(w, inp).findings, mode)
  {
    var m := inp.manifest;
    SilentManifest(w, s, m);
    if Usable(m) {
      if inp.mode.Live? {
        SilentGateway(w, s, ManifestStage(s, m), ManifestStage(w, m), inp.gateway, m.rrn);
      }
      SilentPins(w, s, GatewayStage(s, inp), GatewayStage(w, inp), w.pinOrder, m.rrn);
    }
    StopsExact(RunOf(s, inp).findings, mode, id);
    StopsExact(RunOf(w, inp).findings, mode, id);
  }

  // ---- when a bench run stops --------------------------------------------------------------

  predicate HasStop(findings: seq<Finding>, mode: Mode) {
    exists i | 0 <= i < |findings| :: mode in findings[i].stopIn
  }

  lemma StopAppend(a: seq<Finding>, b: seq<Finding>, mode: Mode)
    ensures HasStop(a + b, mode) <==> HasStop(a, mode) || HasStop(b, mode)
  {
    if i :| 0 <= i < |a| && mode in a[i].stopIn {
      assert mode in (a + b)[i].stopIn;
    }
    if i :| 0 <= i < |b| && mode in b[i].stopIn {
      assert mode in (a + b)[|a| + i].stopIn;
    }
  }

  lemma StopSay(condition: bool, id: FindingId, stopIn: set<Mode>, mode: Mode)
    ensures HasStop(Say(condition, id, stopIn), mode) <==> condition && mode in stopIn
  {
    if condition {
      assert Say(condition, id, stopIn)[0].stopIn == stopIn;
    }
  }

  lemma {:induction false} StopsIffHasStop(findings: seq<Finding>, mode: Mode)
    ensures Stops(findings, mode) != [] <==> HasStop(findings, mode)
  {
    if findings != [] {
      var front, last := findings[..|findings| - 1], findings[|findings| - 1];
      StopsIffHasStop(front, mode);
      StopAppend(front, [last], mode);
      assert front + [last] == findings;
      assert [last][0] == last;
    }
  }

  predicate StopsFirst(findings: seq<Finding>, mode: Mode, id: FindingId, i: int) {
    && 0 <= i < |findings|
    && findings[i].id == id && mode in findings[i].stopIn
    && forall j | 0 <= j < i :: mode !in findings[j].stopIn
  }

  lemma {:induction false} FirstOfLonger(front: seq<Finding>, last: Finding, mode: Mode, id: FindingId, i: int)
    ensures StopsFirst(front + [last], mode, id, i) <==>
              StopsFirst(front, mode, id, i) || (i == |front| && !HasStop(front, mode) && last.id == id && mode in last.stopIn)
  {
    assert forall j | 0 <= j < |front| :: (front + [last])[j] == front[j];
  }

  lemma {:induction false} FirstAppend(front: seq<Finding>, last: Finding, mode: Mode, id: FindingId)
    ensures (exists i :: StopsFirst(front + [last], mode, id, i)) <==>
              || (exists i :: StopsFirst(front, mode, id, i))
              || (!HasStop(front, mode) && last.id == id && mode in last.stopIn)
  {
    forall i ensures StopsFirst(front, mode, id, i) ==> StopsFirst(front + [last], mode, id, i) {
      FirstOfLonger(front, last, mode, id, i);
    }
    if i :| StopsFirst(front + [last], mode, id, i) {
      FirstOfLonger(front, last, mode, id, i);
    }
    FirstOfLonger(front, last, mode, id, |front|);
  }

  lemma {:induction false} FirstStop(findings: seq<Finding>, mode: Mode, id: FindingId)
    ensures (Stops(findings, mode) != [] && Stops(findings, mode)[0] == id) <==> exists i :: StopsFirst(findings, mode, id, i)
  {
    if findings != [] {
      var front, last := findings[..|findings| - 1], findings[|findings| - 1];
      FirstStop(front, mode, id);
      StopsIffHasStop(front, mode);
      FirstAppend(front, last, mode, id);
      assert front + [last] == findings;
    }
  }

  /** The verdict names the first finding that stops the mode. */
  lemma {:induction false} FirstStopIsNamed(mode: Mode, findings: seq<Finding>, checks: Checks, id: FindingId)
    ensures VerdictFor(mode, findings, checks) == Stopped(id) <==> exists i :: StopsFirst(findings, mode, id, i)
  {
    FirstStop(findings, mode, id);
  }

  /** Two of the three places that hold a key for this kid hold different ones, or it is revoked. */
  predicate Contested(e: Entry) {
    || (e.pin.Some? && e.local.Served? && e.pin.value.key != Some(e.local.key))
    || (e.registry.Found? && e.local.Served? && e.registry.key != e.local.key)
    || (e.pin.Some? && e.registry.Found? && e.pin.value.key != Some(e.registry.key))
    || e.registry.RevokedKid?
  }

  lemma {:induction false} PinStopsIff(e: Entry, kid: string, inUse: set<Mode>, mode: Mode)
    ensures HasStop(PinFindings(e, kid, inUse), mode) <==>
            mode in inUse && e.pin.Some? && e.local.Served? && e.pin.value.key != Some(e.local.key)
  {
    StopSay(true, NoPin(kid), {}, mode);
    StopSay(e.local.Served? && !e.LocalMatchesPin(), LocalDiffersFromPin(kid), inUse, mode);
  }

  lemma {:induction false} RegistryStopsIff(e: Entry, kid: string, inUse: set<Mode>, mode: Mode)
    ensures HasStop(RegistryFindings(e, kid, inUse), mode) <==>
            && mode in inUse
            && (|| (e.registry.Found? && e.local.Served? && e.registry.key != e.local.key)
                || (e.pin.Some? && e.registry.Found? && e.pin.value.key != Some(e.registry.key))
                || e.registry.RevokedKid?)
  {
    match e.registry {
      case Found(_, ran) =>
        var key := if e.local.Served? && !e.RegistryMatchesLocal() then Say(true, RegistryDiffersFromLocal(kid), inUse)
                   else Say(e.pin.Some? && !e.RegistryMatchesPin(), RegistryDiffersFromPin(kid), inUse);
        var differs := e.pin.Some? && e.pin.value.ran != "" && ran != e.pin.value.ran;
        StopSay(true, RegistryDiffersFromLocal(kid), inUse, mode);
        StopSay(e.pin.Some? && !e.RegistryMatchesPin(), RegistryDiffersFromPin(kid), inUse, mode);
        StopSay(differs, RegistryRanDiffersFromPin(kid), {}, mode);
        StopAppend(key, Say(differs, RegistryRanDiffersFromPin(kid), {}), mode);
      case RevokedKid(_) => StopSay(true, KidRevoked(kid), inUse, mode);
      case NotRegistered => StopSay(true, KidNotRegistered(kid), {}, mode);
      case _ => StopSay(true, RegistryUnreachable(kid), {}, mode);
    }
  }

  lemma {:induction false} NotesStopNothing(e: Entry, kid: string, role: string, rrn: string, mode: Mode)
    ensures !HasStop(PinNotes(e, kid, role, rrn), mode)
  {
  }

  /** Looking a kid up stops a mode exactly when the kid is new, in use in that mode, and contested. */
  lemma {:induction false} KidStopsIff(w: World, p: Progress, kid: string, role: string, inUse: set<Mode>, rrn: string, mode: Mode)
    ensures HasStop(KidChecked(w, p, kid, role, inUse, rrn).findings, mode) <==>
            HasStop(p.findings, mode) || (kid !in p.kids && mode in inUse && Contested(EntryFor(w, kid)))
  {
    if kid !in p.kids {
      var e := EntryFor(w, kid);
      var pin, registry, notes := PinFindings(e, kid, inUse), RegistryFindings(e, kid, inUse), PinNotes(e, kid, role, rrn);
      PinStopsIff(e, kid, inUse, mode);
      RegistryStopsIff(e, kid, inUse, mode);
      NotesStopNothing(e, kid, role, rrn, mode);
      StopAppend(p.findings, pin, mode);
      StopAppend(p.findings + pin, registry, mode);
      StopAppend(p.findings + pin + registry, notes, mode);
    }
  }

  lemma {:induction false} SignersNeverStopBench(w: World, p: Progress, signers: seq<string>, enforce: bool, rrn: string)
    ensures HasStop(SignersChecked(w, p, signers, enforce, rrn).findings, Bench) <==> HasStop(p.findings, Bench)
  {
    if signers != [] {
      var front, kid := signers[..|signers| - 1], signers[|signers| - 1];
      SignersNeverStopBench(w, p, front, enforce, rrn);
      var before := SignersChecked(w, p, front, enforce, rrn);
      KidStopsIff(w, before, kid, "envelope-signer", LIVE_ONLY, rrn, Bench);
      var stopIn := if enforce then LIVE_ONLY else {};
      StopSay(w.local(kid).NotServed?, SignerUnresolved(kid), stopIn, Bench);
      StopAppend(KidChecked(w, before, kid, "envelope-signer", LIVE_ONLY, rrn).findings,
                 Say(w.local(kid).NotServed?, SignerUnresolved(kid), stopIn), Bench);
    }
  }

  lemma {:induction false} PinsNeverStop(w: World, p: Progress, order: seq<string>, rrn: string, mode: Mode)
    ensures HasStop(OtherPinsChecked(w, p, order, rrn).findings, mode) <==> HasStop(p.findings, mode)
  {
    if order != [] {
      var front, kid := order[..|order| - 1], order[|order| - 1];
      PinsNeverStop(w, p, front, rrn, mode);
      if kid in w.pins {
        KidStopsIff(w, OtherPinsChecked(w, p, front, rrn), kid, if w.pins[kid].role != "" then w.pins[kid].role else "pinned", {}, rrn, mode);
      }
    }
  }

  lemma KeySparesBench(e: Entry, g: Gateway)
    requires g.Running?
    ensures !HasStop(KeyFindings(e, g), Bench) && !HasStop(DriveFindings(g), Bench)
  {
  }

  lemma RanSparesBench(w: World, e: Entry, ran: string)
    ensures !HasStop(RanFindings(w, e, ran), Bench)
  {
  }

  lemma PairingSparesBench(e: Entry, kid: string, p: Pairing, latest: Latest)
    ensures !HasStop(PairingFindings(e, kid, p), Bench) && !HasStop(ReceiptFindings(e, latest), Bench)
  {
  }

  lemma {:induction false} IdentityNeverStopsBench(w: World, kid: string, g: Gateway)
    requires g.Running?
    ensures !HasStop(IdentityFindings(w, kid, g), Bench) && !HasStop(DriveFindings(g), Bench)
  {
    var e := EntryFor(w, kid);
    var key, ran, pairing, receipt := KeyFindings(e, g), RanFindings(w, e, g.ran), PairingFindings(e, kid, g.pairing), ReceiptFindings(e, g.latest);
    KeySparesBench(e, g);
    RanSparesBench(w, e, g.ran);
    PairingSparesBench(e, kid, g.pairing, g.latest);
    StopAppend(key, ran, Bench);
    StopAppend(key + ran, pairing, Bench);
    StopAppend(key + ran + pairing, receipt, Bench);
  }

  lemma {:induction false} GatewayNeverStopsBench(w: World, p: Progress, g: Gateway, rrn: string)
    ensures HasStop(GatewayChecked(w, p, g, rrn).findings, Bench) <==> HasStop(p.findings, Bench)
  {
    if g.NotRunning? {
      StopAppend(p.findings, [Finding(GatewayNotRunning, LIVE_ONLY)], Bench);
    } else {
      IdentityNeverStopsBench(w, if g.signingKid.Some? then g.signingKid.value else "", g);
      StopAppend(p.findings, DriveFindings(g), Bench);
      var driven := Said(p, DriveFindings(g));
      if g.signingKid.None? {
        StopAppend(driven.findings, [Finding(GatewayNotSigning, LIVE_ONLY)], Bench);
      } else {
        var kid := g.signingKid.value;
        KidStopsIff(w, driven, kid, "gateway-attestation", LIVE_ONLY, rrn, Bench);
        var q := KidChecked(w, driven, kid, "gateway-attestation", LIVE_ONLY, rrn);
        StopAppend(q.findings, IdentityFindings(w, kid, g), Bench);
        SignersNeverStopBench(w, Said(q, IdentityFindings(w, kid, g)), g.signers, g.enforceSignatures, rrn);
      }
    }
  }

  predicate ManifestRejected(m: ManifestFile) {
    m.Missing? || m.fixture == Unreadable || m.fixture == Compared(false) || !m.footer || !m.wellFormed
  }

  /** The gateway's own resolver has no key for the manifest, or one it does not verify under. */
  predicate KeyRejects(w: World, m: ManifestFile)
    requires m.Read?
  {
    w.local(m.kid).NotServed? || !m.verifies(w.local(m.kid).key)
  }

  lemma {:induction false} KeyRejectsIff(w: World, m: ManifestFile, mode: Mode)
    requires m.Read?
    ensures HasStop(ManifestKeyFindings(EntryFor(w, m.kid), m), mode) <==> KeyRejects(w, m)
  {
    var e := EntryFor(w, m.kid);
    StopSay(true, ManifestKidUnresolved, BOTH, mode);
    StopSay(e.local.Served? && !m.verifies(e.local.key), ManifestSignatureFails, BOTH, mode);
  }

  predicate RobotBarred(w: World, rrn: string) {
    rrn != "" && w.robot(rrn).Robot? && w.robot(rrn).revoked
  }

  /** The manifest is not the fixture, not signed, not signed by an uncontested key the gateway
      itself would resolve, or belongs to a revoked robot. */
  predicate BenchBlocked(w: World, m: ManifestFile) {
    || ManifestRejected(m)
    || Contested(EntryFor(w, m.kid))
    || KeyRejects(w, m)
    || RobotBarred(w, m.rrn)
  }

  lemma {:induction false} ManifestFindingsStopIff(m: ManifestFile, mode: Mode)
    ensures HasStop(ManifestFindings(m), mode) <==> ManifestRejected(m)
  {
    if m.Missing? {
      StopSay(true, ManifestUnreadable, BOTH, mode);
    } else {
      var rest := if !m.footer then Say(true, ManifestUnsigned, BOTH)
                  else if !m.wellFormed then Say(true, SignatureMalformed, BOTH)
                  else Say(m.rrn == "", ManifestHasNoRrn, {});
      StopSay(true, ManifestUnsigned, BOTH, mode);
      StopSay(true, SignatureMalformed, BOTH, mode);
      StopSay(m.rrn == "", ManifestHasNoRrn, {}, mode);
      FixtureStopsIff(m.fixture, mode);
      StopAppend(FixtureFindings(m.fixture), rest, mode);
    }
  }

  lemma FixtureStopsIff(f: Fixture, mode: Mode)
    ensures HasStop(FixtureFindings(f), mode) <==> f == Unreadable || f == Compared(false)
  {
    StopSay(true, NoFixture, {}, mode);
    StopSay(true, FixtureUnreadable, BOTH, mode);
    StopSay(f.Compared? && !f.same, FixtureDiffers, BOTH, mode);
  }

  lemma {:induction false} RobotStopsIff(w: World, rrn: string, mode: Mode)
    ensures HasStop(RobotFindings(w, rrn), mode) <==> RobotBarred(w, rrn)
  {
    if rrn != "" && w.robot(rrn).Robot? {
      var r := w.robot(rrn);
      var revoked, verified := Say(r.revoked, RobotRevoked, BOTH), Say(!r.verified, RobotUnverified, {});
      StopSay(r.revoked, RobotRevoked, BOTH, mode);
      StopSay(!r.verified, RobotUnverified, {}, mode);
      StopSay(!r.sameName, RobotNameDiffers, {}, mode);
      StopAppend(revoked, verified, mode);
      StopAppend(revoked + verified, Say(!r.sameName, RobotNameDiffers, {}), mode);
    } else {
      StopSay(true, RrnNotRegistered, {}, mode);
      StopSay(true, RrnUnreachable, {}, mode);
    }
  }

  lemma {:induction false} ManifestStopsIff(w: World, m: ManifestFile, mode: Mode)
    ensures HasStop(ManifestStage(w, m).findings, mode) <==> BenchBlocked(w, m)
  {
    ManifestFindingsStopIff(m, mode);
    if Usable(m) {
      var p, e := Progress(ManifestFindings(m), map[]), EntryFor(w, m.kid);
      KidStopsIff(w, p, m.kid, "manifest", BOTH, m.rrn, mode);
      RobotStopsIff(w, m.rrn, mode);
      KeyRejectsIff(w, m, mode);
      StopAppend(ManifestKeyFindings(e, m), RobotFindings(w, m.rrn), mode);
      StopAppend(KidChecked(w, p, m.kid, "manifest", BOTH, m.rrn).findings, ManifestKeyFindings(e, m) + RobotFindings(w, m.rrn), mode);
    }
  }

  /** The bench verdict stops exactly on what is wrong with the manifest and its key, in a bench run
      and in a live one alike: no gateway, signer or unused pin has a say in it. */
  lemma {:induction false} BenchStopsIff(w: World, inp: Inputs)
    ensures VerdictOf(w, inp, Bench).Stopped? <==> BenchBlocked(w, inp.manifest)
  {
    var m := inp.manifest;
    StopsIffHasStop(RunOf(w, inp).findings, Bench);
    ManifestStopsIff(w, m, Bench);
    if Usable(m) {
      GatewayNeverStopsBench(w, ManifestStage(w, m), inp.gateway, m.rrn);
      PinsNeverStop(w, GatewayStage(w, inp), w.pinOrder, m.rrn, Bench);
    }
  }

  // ---- when a live run stops ---------------------------------------------------------------

  /** Every contested kid looked up so far has stopped the live verdict. */
  ghost predicate Caught(w: World, p: Progress) {
    forall kid | kid in p.kids :: Contested(EntryFor(w, kid)) ==> HasStop(p.findings, Live)
  }

  lemma {:induction false} LiveKid(w: World, p: Progress, kid: string, role: string, inUse: set<Mode>, rrn: string)
    requires Live in inUse && Caught(w, p)
    ensures var q := KidChecked(w, p, kid, role, inUse, rrn);
            && Caught(w, q)
            && (HasStop(q.findings, Live) <==> HasStop(p.findings, Live) || Contested(EntryFor(w, kid)))
  {
    KidStopsIff(w, p, kid, role, inUse, rrn, Live);
  }

  lemma {:induction false} LiveSaid(w: World, p: Progress, more: seq<Finding>)
    requires Caught(w, p)
    ensures Caught(w, Said(p, more))
    ensures HasStop(Said(p, more).findings, Live) <==> HasStop(p.findings, Live) || HasStop(more, Live)
  {
    StopAppend(p.findings, more, Live);
  }

  /** A signer the run cannot live with. */
  predicate BadSigner(w: World, kid: string, enforce: bool) {
    Contested(EntryFor(w, kid)) || (enforce && w.local(kid).NotServed?)
  }

  lemma {:induction false} SignersStopIff(w: World, p: Progress, signers: seq<string>, enforce: bool, rrn: string)
    requires Caught(w, p)
    ensures var q := SignersChecked(w, p, signers, enforce, rrn);
            && Caught(w, q)
            && (HasStop(q.findings, Live) <==>
                  HasStop(p.findings, Live) || exists i | 0 <= i < |signers| :: BadSigner(w, signers[i], enforce))
  {
    if signers != [] {
      var n := |signers| - 1;
      var front, kid := signers[..n], signers[n];
      SignersStopIff(w, p, front, enforce, rrn);
      var before := SignersChecked(w, p, front, enforce, rrn);
      LiveKid(w, before, kid, "envelope-signer", LIVE_ONLY, rrn);
      var stopIn := if enforce then LIVE_ONLY else {};
      StopSay(w.local(kid).NotServed?, SignerUnresolved(kid), stopIn, Live);
      LiveSaid(w, KidChecked(w, before, kid, "envelope-signer", LIVE_ONLY, rrn), Say(w.local(kid).NotServed?, SignerUnresolved(kid), stopIn));
      assert forall i | 0 <= i < n :: front[i] == signers[i];
      if BadSigner(w, kid, enforce) {
        assert BadSigner(w, signers[n], enforce);
      }
      if i :| 0 <= i < |signers| && BadSigner(w, signers[i], enforce) && i < n {
        assert BadSigner(w, front[i], enforce);
      }
    }
  }

  /** The pairing payload is unreadable, or names another kid or another key than the local copy. */
  predicate PairingMisfits(e: Entry, kid: string, p: Pairing)
    requires e.local.Served?
  {
    p.Garbled? || (p.Payload? && (p.kid != kid || p.key != Some(e.local.key)))
  }

  predicate SomeBadSigner(w: World, g: Gateway)
    requires g.Running?
  {
    exists i | 0 <= i < |g.signers| :: BadSigner(w, g.signers[i], g.enforceSignatures)
  }

  /** What the gateway's own key material has against the live verdict. */
  predicate BadIdentity(w: World, kid: string, g: Gateway)
    requires g.Running?
  {
    var local := w.local(kid);
    || local.NotServed?
    || (g.sidecar.Holds? && g.sidecar.key != Some(local.key))
    || (g.ran != "" && w.authority(g.ran).Authority? && w.authority(g.ran).revoked)
    || PairingMisfits(EntryFor(w, kid), kid, g.pairing)
    || (g.latest.Receipt? && !g.latest.verifies(local.key))
  }

  lemma {:induction false} KeyStopsIff(e: Entry, g: Gateway)
    requires g.Running?
    ensures HasStop(KeyFindings(e, g), Live) <==>
            e.local.NotServed? || (g.sidecar.Holds? && g.sidecar.key != Some(e.local.key))
  {
    var unresolved := Say(e.local.NotServed?, GatewayKidUnresolved, LIVE_ONLY);
    StopSay(e.local.NotServed?, GatewayKidUnresolved, LIVE_ONLY, Live);
    StopSay(true, SidecarMissing, {}, Live);
    match g.sidecar {
      case NoSidecar => StopAppend(unresolved, Say(true, SidecarMissing, {}), Live);
      case Holds(key) =>
        var differs := e.local.Served? && key != Some(e.local.key);
        StopSay(differs, KeyFileDiffers, LIVE_ONLY, Live);
        StopAppend(unresolved, Say(differs, KeyFileDiffers, LIVE_ONLY), Live);
    }
  }

  lemma {:induction false} RanStopsIff(w: World, e: Entry, ran: string)
    ensures HasStop(RanFindings(w, e, ran), Live) <==> ran != "" && w.authority(ran).Authority? && w.authority(ran).revoked
  {
    StopSay(true, RanNotDeclared, {}, Live);
    if ran != "" {
      var differs := RegistryRan(e) != "" && RegistryRan(e) != ran;
      StopSay(differs, RegistryRanDiffers, {}, Live);
      match w.authority(ran) {
        case Authority(_, revoked) =>
          var other := !HoldsGatewayKey(w.authority(ran), e);
          StopSay(other, RanHoldsDifferentKey, {}, Live);
          StopSay(revoked, RanRevoked, LIVE_ONLY, Live);
          StopAppend(Say(other, RanHoldsDifferentKey, {}), Say(revoked, RanRevoked, LIVE_ONLY), Live);
          StopAppend(Say(other, RanHoldsDifferentKey, {}) + Say(revoked, RanRevoked, LIVE_ONLY), Say(differs, RegistryRanDiffers, {}), Live);
        case NoAuthority =>
          StopSay(true, RanNotFound, {}, Live);
          StopAppend(Say(true, RanNotFound, {}), Say(differs, RegistryRanDiffers, {}), Live);
        case NoUsableAuthority =>
          StopSay(true, RanUnreachable, {}, Live);
          StopAppend(Say(true, RanUnreachable, {}), Say(differs, RegistryRanDiffers, {}), Live);
      }
    }
  }

  lemma {:induction false} PairingStopsIff(e: Entry, kid: string, p: Pairing)
    requires e.local.Served?
    ensures HasStop(PairingFindings(e, kid, p), Live) <==>
            PairingMisfits(e, kid, p)
  {
    StopSay(true, PairingNotGiven, {}, Live);
    StopSay(true, PairingUnreadable, LIVE_ONLY, Live);
    if p.Payload? {
      var differs := !(p.key.Some? && e.local.Served? && p.key.value == e.local.key);
      StopSay(p.kid != kid, PairingKidDiffers, LIVE_ONLY, Live);
      StopSay(differs, PairingKeyDiffers, LIVE_ONLY, Live);
      StopAppend(Say(p.kid != kid, PairingKidDiffers, LIVE_ONLY), Say(differs, PairingKeyDiffers, LIVE_ONLY), Live);
    }
  }

  lemma {:induction false} ReceiptStopsIff(e: Entry, latest: Latest)
    requires e.local.Served?
    ensures HasStop(ReceiptFindings(e, latest), Live) <==> latest.Receipt? && !latest.verifies(e.local.key)
  {
    StopSay(true, NoReceiptInTail, {}, Live);
    if latest.Receipt? {
      StopSay(!(e.local.Served? && latest.verifies(e.local.key)), ReceiptFailsLocalKey, LIVE_ONLY, Live);
    }
  }

  lemma {:induction false} IdentityStopsIff(w: World, kid: string, g: Gateway)
    requires g.Running?
    ensures HasStop(IdentityFindings(w, kid, g), Live) <==> BadIdentity(w, kid, g)
  {
    var e := EntryFor(w, kid);
    var key, ran, pairing, receipt := KeyFindings(e, g), RanFindings(w, e, g.ran), PairingFindings(e, kid, g.pairing), ReceiptFindings(e, g.latest);
    KeyStopsIff(e, g);
    RanStopsIff(w, e, g.ran);
    if e.local.Served? {
      PairingStopsIff(e, kid, g.pairing);
      ReceiptStopsIff(e, g.latest);
    }
    StopAppend(key, ran, Live);
    StopAppend(key + ran, pairing, Live);
    StopAppend(key + ran + pairing, receipt, Live);
  }

  /** What stops the live verdict beyond the manifest. */
  predicate LiveBlocked(w: World, g: Gateway) {
    || g.NotRunning? || g.manifestDiffers || !g.driveMatches || g.signingKid.None?
    || Contested(EntryFor(w, g.signingKid.value))
    || BadIdentity(w, g.signingKid.value, g)
    || SomeBadSigner(w, g)
  }

  lemma {:induction false} DriveStopsIff(g: Gateway)
    requires g.Running?
    ensures HasStop(DriveFindings(g), Live) <==> g.manifestDiffers || !g.driveMatches
  {
    StopSay(g.manifestDiffers, GatewayManifestDiffers, LIVE_ONLY, Live);
    StopSay(!g.driveMatches, DriveDiffers, LIVE_ONLY, Live);
    StopAppend(Say(g.manifestDiffers, GatewayManifestDiffers, LIVE_ONLY), Say(!g.driveMatches, DriveDiffers, LIVE_ONLY), Live);
  }

  lemma {:induction false} GatewayStopsIff(w: World, p: Progress, g: Gateway, rrn: string)
    requires Caught(w, p)
    ensures HasStop(GatewayChecked(w, p, g, rrn).findings, Live) <==> HasStop(p.findings, Live) || LiveBlocked(w, g)
  {
    if g.NotRunning? {
      LiveSaid(w, p, [Finding(GatewayNotRunning, LIVE_ONLY)]);
      StopSay(true, GatewayNotRunning, LIVE_ONLY, Live);
    } else {
      DriveStopsIff(g);
      LiveSaid(w, p, DriveFindings(g));
      var driven := Said(p, DriveFindings(g));
      if g.signingKid.None? {
        LiveSaid(w, driven, [Finding(GatewayNotSigning, LIVE_ONLY)]);
        StopSay(true, GatewayNotSigning, LIVE_ONLY, Live);
      } else {
        var kid := g.signingKid.value;
        LiveKid(w, driven, kid, "gateway-attestation", LIVE_ONLY, rrn);
        var q := KidChecked(w, driven, kid, "gateway-attestation", LIVE_ONLY, rrn);
        IdentityStopsIff(w, kid, g);
        LiveSaid(w, q, IdentityFindings(w, kid, g));
        SignersStopIff(w, Said(q, IdentityFindings(w, kid, g)), g.signers, g.enforceSignatures, rrn);
      }
    }
  }

  lemma {:induction false} ManifestIsCaught(w: World, m: ManifestFile)
    ensures Caught(w, ManifestStage(w, m))
  {
    ManifestStopsIff(w, m, Live);
  }

  /** The live verdict stops exactly when the bench verdict does, or on the gateway: it does not
      run, does not sign, disagrees with the manifest, its kid or one of its signers is contested,
      or its key, authority, pairing payload or newest receipt does not fit the local copy. */
  lemma {:induction false} LiveStopsIff(w: World, inp: Inputs)
    requires inp.mode.Live?
    ensures VerdictOf(w, inp, Live).Stopped? <==> BenchBlocked(w, inp.manifest) || LiveBlocked(w, inp.gateway)
  {
    var m := inp.manifest;
    StopsIffHasStop(RunOf(w, inp).findings, Live);
    ManifestStopsIff(w, m, Live);
    if Usable(m) {
      ManifestIsCaught(w, m);
      GatewayStopsIff(w, ManifestStage(w, m), inp.gateway, m.rrn);
      PinsNeverStop(w, GatewayStage(w, inp), w.pinOrder, m.rrn, Live);
    }
  }

  // ---- when the registry resolves ----------------------------------------------------------

  /** The registry's key for a kid, the local copy and the pin are one key. */
  predicate OneKey(w: World, kid: string) {
    && w.registry(kid).Found?
    && w.local(kid) == Served(w.registry(kid).key)
    && kid in w.pins && w.pins[kid].key == Some(w.registry(kid).key)
  }

  predicate AllHold(checks: Checks) {
    checks != map[] && forall c | c in checks :: checks[c]
  }

  /** What the registry has to say about the manifest. */
  predicate ManifestResolves(w: World, m: ManifestFile) {
    && Usable(m) && OneKey(w, m.kid) && m.verifies(w.registry(m.kid).key)
    && m.rrn != "" && w.robot(m.rrn).Robot? && !w.robot(m.rrn).revoked
  }

  lemma BenchHolds(w: World, m: ManifestFile)
    ensures AllHold(BenchChecks(w, m)) <==> ManifestResolves(w, m)
  {
    if Usable(m) {
      var checks := BenchChecks(w, m);
      assert checks == map[ManifestKidBacked := OneKey(w, m.kid),
                           ManifestVerifiesUnderRegistry := w.registry(m.kid).Found? && m.verifies(w.registry(m.kid).key),
                           RobotRecordGood := RobotGood(w, m.rrn)];
      assert ManifestKidBacked in checks && ManifestVerifiesUnderRegistry in checks && RobotRecordGood in checks;
    }
  }

  lemma LiveHolds(w: World, inp: Inputs)
    requires Usable(inp.manifest) && Signs(inp.gateway)
    ensures var kid := inp.gateway.signingKid.value;
            AllHold(LiveChecks(w, inp)) <==>
            AllHold(BenchChecks(w, inp.manifest)) && OneKey(w, kid) && RanOk(w, EntryFor(w, kid), inp.gateway.ran)
  {
    var kid := inp.gateway.signingKid.value;
    var bench, live := BenchChecks(w, inp.manifest), LiveChecks(w, inp);
    var ran := RanOk(w, EntryFor(w, kid), inp.gateway.ran);
    assert RobotRecordGood in bench;
    assert live == bench + map[GatewayKidBacked := OneKey(w, kid), RanHoldsGatewayKey := ran];
    assert GatewayKidBacked in live && RanHoldsGatewayKey in live;
    assert GatewayKidBacked !in bench && RanHoldsGatewayKey !in bench;
    assert forall c | c in bench :: c in live && live[c] == bench[c];
  }

  /** What the registry has to say about a gateway that signs. */
  predicate GatewayResolves(w: World, g: Gateway) {
    Signs(g) && OneKey(w, g.signingKid.value) && RanBacks(w, g.signingKid.value, g.ran)
  }

  /** The declared authority, if one is declared, holds the key the gateway's kid resolves to, and the
      registry does not map the kid to another one. */
  predicate RanBacks(w: World, kid: string, ran: string) {
    ran != "" ==>
      && w.authority(ran).Authority?
      && w.authority(ran).key.Some? && w.local(kid) == Served(w.authority(ran).key.value)
      && (match w.registry(kid)
          case Found(_, other) => other in {"", ran}
          case BadResponse(other) => other in {"", ran}
          case RevokedKid(other) => other in {"", ran}
          case _ => true)
  }

  lemma {:induction false} RanOkIff(w: World, kid: string, ran: string)
    ensures RanOk(w, EntryFor(w, kid), ran) <==> RanBacks(w, kid, ran)
  {
  }

  /** A verdict is registry-resolves when nothing stops and every check holds. */
  lemma {:induction false} ResolvesIffAllHold(mode: Mode, findings: seq<Finding>, checks: Checks)
    ensures VerdictFor(mode, findings, checks) == RegistryResolves <==>
            !VerdictFor(mode, findings, checks).Stopped? && AllHold(checks)
  {
  }

  lemma {:induction false} BenchResolvesIff(w: World, inp: Inputs)
    ensures VerdictOf(w, inp, Bench) == RegistryResolves <==>
            !BenchBlocked(w, inp.manifest) && ManifestResolves(w, inp.manifest)
  {
    ResolvesIffAllHold(Bench, RunOf(w, inp).findings, ChecksOf(w, inp, Bench));
    BenchHolds(w, inp.manifest);
    BenchStopsIff(w, inp);
  }

  lemma {:induction false} LiveChecksHold(w: World, inp: Inputs)
    requires Signs(inp.gateway)
    ensures AllHold(LiveChecks(w, inp)) <==> ManifestResolves(w, inp.manifest) && GatewayResolves(w, inp.gateway)
  {
    if Usable(inp.manifest) {
      BenchHolds(w, inp.manifest);
      LiveHolds(w, inp);
      RanOkIff(w, inp.gateway.signingKid.value, inp.gateway.ran);
    }
  }

  lemma {:induction false} LiveResolvesIff(w: World, inp: Inputs)
    requires inp.mode.Live?
    ensures VerdictOf(w, inp, Live) == RegistryResolves <==>
            && !BenchBlocked(w, inp.manifest) && ManifestResolves(w, inp.manifest)
            && !LiveBlocked(w, inp.gateway) && GatewayResolves(w, inp.gateway)
  {
    LiveStopsIff(w, inp);
    if Signs(inp.gateway) {
      LiveChecksHold(w, inp);
      ResolvesIffAllHold(Live, RunOf(w, inp).findings, ChecksOf(w, inp, Live));
    } else {
      assert LiveBlocked(w, inp.gateway);
    }
  }

  /** When a verdict is registry-resolves: nothing stops, and registry, local copy and pin are one key for
      the manifest's kid and, live, for the gateway's; the manifest verifies under that key, its
      robot record is unrevoked, and the gateway's authority holds the gateway's key. */
  lemma {:induction false} RegistryResolvesIff(w: World, inp: Inputs, mode: Mode)
    requires inp.mode.Live? || mode.Bench?
    ensures VerdictOf(w, inp, mode) == RegistryResolves <==>
            && !BenchBlocked(w, inp.manifest) && ManifestResolves(w, inp.manifest)
            && (mode.Live? ==> !LiveBlocked(w, inp.gateway) && GatewayResolves(w, inp.gateway))
  {
    if mode.Live? {
      LiveResolvesIff(w, inp);
    } else {
      BenchResolvesIff(w, inp);
    }
  }

  function Strength(v: Verdict): nat {
    match v
    case Stopped(_) => 0
    case LocalKeysOnly => 1
    case RegistryResolves => 2
  }

  /** In one live run the live verdict is never better than the bench verdict. */
  lemma {:induction false} LiveIsNeverBetter(w: World, inp: Inputs)
    requires inp.mode.Live?
    ensures Strength(VerdictOf(w, inp, Live)) <= Strength(VerdictOf(w, inp, Bench))
  {
    BenchStopsIff(w, inp);
    LiveStopsIff(w, inp);
    BenchResolvesIff(w, inp);
    LiveResolvesIff(w, inp);
  }
}
