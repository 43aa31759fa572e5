/** Why a preflight says what it says: every finding of a run, in the terms of its inputs. */
module PreflightFindings {
  import opened Trace
  import opened Preflight

  // ---- the kids ----------------------------------------------------------------------------

  /** What a kid is looked up as, and the modes it is in use in. */
  datatype Use = Use(role: string, inUse: set<Mode>)

  predicate LiveAndSigning(inp: Inputs) {
    inp.mode == Live && inp.gateway.Running? && inp.gateway.signingKid.Some?
  }

  predicate PinnedHere(w: World, rrn: string, kid: string) {
    rrn != "" && kid in w.pins && w.pins[kid].rrn == rrn
  }

  /** What a run looks a kid up as: the first of these that fits. A kid no stage needs is not looked
      up at all. */
  function UseOf(w: World, inp: Inputs, kid: string): Option<Use>
    requires inp.manifest.Read?
  {
    if kid == inp.manifest.kid then Some(Use("manifest", {Bench, Live}))
    else if LiveAndSigning(inp) && inp.gateway.signingKid == Some(kid) then Some(Use("gateway-attestation", {Live}))
    else if LiveAndSigning(inp) && kid in inp.gateway.signers then Some(Use("envelope-signer", {Live}))
    else if kid in w.pinOrder && PinnedHere(w, inp.manifest.rrn, kid)
      then Some(Use(if w.pins[kid].role == "" then "pinned" else w.pins[kid].role, {}))
    else None
  }

  function KidOf(id: FindingId): Option<string> {
    match id
    case NoPin(kid) => Some(kid)
    case LocalDiffersFromPin(kid) => Some(kid)
    case RegistryDiffersFromLocal(kid) => Some(kid)
    case RegistryDiffersFromPin(kid) => Some(kid)
    case RegistryRanDiffersFromPin(kid) => Some(kid)
    case KidRevoked(kid) => Some(kid)
    case KidNotRegistered(kid) => Some(kid)
    case RegistryUnreachable(kid) => Some(kid)
    case PinRoleDiffers(kid) => Some(kid)
    case PinRrnDiffers(kid) => Some(kid)
    case _ => None
  }

  /** What the pin and the local copy of a kid give reason to say. */
  predicate PinReason(w: World, kid: string, use: Use, rrn: string, f: Finding) {
    match f.id
    case NoPin(k) => k == kid && f.stopIn == {} && kid !in w.pins
    case LocalDiffersFromPin(k) =>
      && k == kid && f.stopIn == use.inUse
      && kid in w.pins && w.local(kid).Served? && w.pins[kid].key != Some(w.local(kid).key)
    case PinRoleDiffers(k) => k == kid && f.stopIn == {} && kid in w.pins && w.pins[kid].role !in {"", use.role}
    case PinRrnDiffers(k) => k == kid && f.stopIn == {} && rrn != "" && kid in w.pins && w.pins[kid].rrn !in {"", rrn}
    case _ => false
  }

  /** What the registry's answer for a kid gives reason to say. A key that differs from the local copy
      is not held against the pin as well. */
  predicate RegistryReason(w: World, kid: string, use: Use, f: Finding) {
    match f.id
    case RegistryDiffersFromLocal(k) =>
      && k == kid && f.stopIn == use.inUse
      && w.registry(kid).Found? && w.local(kid).Served? && w.registry(kid).key != w.local(kid).key
    case RegistryDiffersFromPin(k) =>
      && k == kid && f.stopIn == use.inUse
      && w.registry(kid).Found? && w.local(kid) in {NotServed, Served(w.registry(kid).key)}
      && kid in w.pins && w.pins[kid].key != Some(w.registry(kid).key)
    case RegistryRanDiffersFromPin(k) =>
      && k == kid && f.stopIn == {}
      && w.registry(kid).Found? && kid in w.pins && w.pins[kid].ran !in {"", w.registry(kid).ran}
    case KidRevoked(k) => k == kid && f.stopIn == use.inUse && w.registry(kid).RevokedKid?
    case KidNotRegistered(k) => k == kid && f.stopIn == {} && w.registry(kid) == NotRegistered
    case RegistryUnreachable(k) =>
      k == kid && f.stopIn == {} && (w.registry(kid) in {Unreachable, OtherError} || w.registry(kid).BadResponse?)
    case _ => false
  }

  predicate KidReason(w: World, kid: string, use: Use, rrn: string, f: Finding) {
    PinReason(w, kid, use, rrn, f) || RegistryReason(w, kid, use, f)
  }

  lemma {:induction false} PinSays(w: World, kid: string, use: Use, rrn: string, f: Finding)
    ensures f in PinFindings(EntryFor(w, kid), kid, use.inUse) + PinNotes(EntryFor(w, kid), kid, use.role, rrn) <==>
              PinReason(w, kid, use, rrn, f)
  {
  }

  lemma {:induction false} RegistrySays(w: World, kid: string, use: Use, f: Finding)
    ensures f in RegistryFindings(EntryFor(w, kid), kid, use.inUse) <==> RegistryReason(w, kid, use, f)
  {
  }

  lemma {:induction false} KidSays(w: World, p: Progress, kid: string, use: Use, rrn: string, f: Finding)
    requires kid !in p.kids
    ensures f in KidChecked(w, p, kid, use.role, use.inUse, rrn).findings <==> f in p.findings || KidReason(w, kid, use, rrn, f)
  {
    PinSays(w, kid, use, rrn, f);
    RegistrySays(w, kid, use, f);
  }

  /** The kids looked up so far, each as what it is used for, account for everything said of a kid. */
  ghost predicate Told(w: World, inp: Inputs, p: Progress)
    requires inp.manifest.Read?
  {
    && (forall kid | kid in p.kids :: UseOf(w, inp, kid).Some?)
    && forall f: Finding | KidOf(f.id).Some? ::
         f in p.findings <==>
         KidOf(f.id).value in p.kids && KidReason(w, KidOf(f.id).value, UseOf(w, inp, KidOf(f.id).value).value, inp.manifest.rrn, f)
  }

  lemma {:induction false} ToldKid(w: World, inp: Inputs, p: Progress, kid: string, use: Use)
    requires inp.manifest.Read? && Told(w, inp, p)
    requires kid in p.kids || UseOf(w, inp, kid) == Some(use)
    ensures Told(w, inp, KidChecked(w, p, kid, use.role, use.inUse, inp.manifest.rrn))
    ensures KidChecked(w, p, kid, use.role, use.inUse, inp.manifest.rrn).kids.Keys == p.kids.Keys + {kid}
  {
    if kid !in p.kids {
      var q := KidChecked(w, p, kid, use.role, use.inUse, inp.manifest.rrn);
      forall f: Finding | KidOf(f.id).Some?
        ensures f in q.findings <==>
                KidOf(f.id).value in q.kids && KidReason(w, KidOf(f.id).value, UseOf(w, inp, KidOf(f.id).value).value, inp.manifest.rrn, f)
      {
        KidSays(w, p, kid, use, inp.manifest.rrn, f);
        assert KidReason(w, kid, use, inp.manifest.rrn, f) ==> KidOf(f.id) == Some(kid);
      }
    }
  }

  /** Nothing here is about a kid's keys. */
  predicate NoKid(findings: seq<Finding>) {
    forall f | f in findings :: KidOf(f.id).None?
  }

  lemma {:induction false} ToldMore(w: World, inp: Inputs, p: Progress, more: seq<Finding>)
    requires inp.manifest.Read? && Told(w, inp, p) && NoKid(more)
    ensures Told(w, inp, Said(p, more)) && Said(p, more).kids == p.kids
  {
  }

  lemma {:induction false} NoKidSay(condition: bool, id: FindingId, stopIn: set<Mode>)
    requires KidOf(id).None?
    ensures NoKid(Say(condition, id, stopIn))
  {
  }

  lemma {:induction false} KidsOfLonger(front: seq<string>, last: string)
    ensures (set kid | kid in front + [last]) == (set kid | kid in front) + {last}
  {
  }

  lemma {:induction false} ToldSigners(w: World, inp: Inputs, p: Progress, signers: seq<string>)
    requires inp.manifest.Read? && LiveAndSigning(inp) && Told(w, inp, p)
    requires inp.manifest.kid in p.kids && inp.gateway.signingKid.value in p.kids
    requires forall kid | kid in signers :: kid in inp.gateway.signers
    ensures var q := SignersChecked(w, p, signers, inp.gateway.enforceSignatures, inp.manifest.rrn);
            Told(w, inp, q) && q.kids.Keys == p.kids.Keys + set kid | kid in signers
  {
    if signers != [] {
      var front, kid := signers[..|signers| - 1], signers[|signers| - 1];
      assert signers == front + [kid];
      ToldSigners(w, inp, p, front);
      var before := SignersChecked(w, p, front, inp.gateway.enforceSignatures, inp.manifest.rrn);
      ToldSigner(w, inp, before, kid);
      KidsOfLonger(front, kid);
    }
  }

  lemma {:induction false} ToldSigner(w: World, inp: Inputs, p: Progress, kid: string)
    requires inp.manifest.Read? && LiveAndSigning(inp) && Told(w, inp, p)
    requires inp.manifest.kid in p.kids && inp.gateway.signingKid.value in p.kids && kid in inp.gateway.signers
    ensures var q := Said(KidChecked(w, p, kid, "envelope-signer", LIVE_ONLY, inp.manifest.rrn),
                          Say(w.local(kid).NotServed?, SignerUnresolved(kid), if inp.gateway.enforceSignatures then LIVE_ONLY else {}));
            Told(w, inp, q) && q.kids.Keys == p.kids.Keys + {kid}
  {
    var stopIn := if inp.gateway.enforceSignatures then LIVE_ONLY else {};
    ToldKid(w, inp, p, kid, Use("envelope-signer", {Live}));
    NoKidSay(w.local(kid).NotServed?, SignerUnresolved(kid), stopIn);
    ToldMore(w, inp, KidChecked(w, p, kid, "envelope-signer", LIVE_ONLY, inp.manifest.rrn), Say(w.local(kid).NotServed?, SignerUnresolved(kid), stopIn));
  }

  lemma {:induction false} ManifestNoKid(m: ManifestFile)
    ensures NoKid(ManifestFindings(m))
  {
    forall f | f in ManifestFindings(m) ensures KidOf(f.id).None? {
      ManifestSays(m, f);
    }
  }

  lemma {:induction false} RecordNoKid(w: World, m: ManifestFile)
    requires m.Read?
    ensures NoKid(ManifestKeyFindings(EntryFor(w, m.kid), m) + RobotFindings(w, m.rrn))
  {
    forall f | f in ManifestKeyFindings(EntryFor(w, m.kid), m) + RobotFindings(w, m.rrn) ensures KidOf(f.id).None? {
      RecordSays(w, m, f);
    }
  }

  lemma {:induction false} ToldManifest(w: World, inp: Inputs)
    requires Usable(inp.manifest)
    ensures Told(w, inp, ManifestStage(w, inp.manifest)) && ManifestStage(w, inp.manifest).kids.Keys == {inp.manifest.kid}
  {
    var m := inp.manifest;
    var p := Progress(ManifestFindings(m), map[]);
    ManifestNoKid(m);
    ToldKid(w, inp, p, m.kid, Use("manifest", {Bench, Live}));
    RecordNoKid(w, m);
    ToldMore(w, inp, KidChecked(w, p, m.kid, "manifest", BOTH, m.rrn), ManifestKeyFindings(EntryFor(w, m.kid), m) + RobotFindings(w, m.rrn));
  }

  lemma {:induction false} IdentityNoKid(w: World, kid: string, g: Gateway)
    requires g.Running?
    ensures NoKid(IdentityFindings(w, kid, g))
  {
    forall f | f in IdentityFindings(w, kid, g) ensures KidOf(f.id).None? {
      IdentitySays(w, kid, g, f);
    }
  }

  lemma {:induction false} DriveNoKid(g: Gateway)
    requires g.Running?
    ensures NoKid(DriveFindings(g))
  {
    NoKidSay(g.manifestDiffers, GatewayManifestDiffers, LIVE_ONLY);
    NoKidSay(!g.driveMatches, DriveDiffers, LIVE_ONLY);
  }

  /** The kids the gateway's stage needs. */
  function GatewayKids(inp: Inputs): set<string> {
    if LiveAndSigning(inp) then {inp.gateway.signingKid.value} + set kid | kid in inp.gateway.signers else {}
  }

  lemma {:induction false} ToldSigning(w: World, inp: Inputs, p: Progress)
    requires inp.manifest.Read? && LiveAndSigning(inp) && Told(w, inp, p) && inp.manifest.kid in p.kids
    ensures var q := GatewayChecked(w, p, inp.gateway, inp.manifest.rrn);
            Told(w, inp, q) && q.kids.Keys == p.kids.Keys + GatewayKids(inp)
  {
    var g, kid := inp.gateway, inp.gateway.signingKid.value;
    DriveNoKid(g);
    ToldMore(w, inp, p, DriveFindings(g));
    var driven := Said(p, DriveFindings(g));
    ToldKid(w, inp, driven, kid, Use("gateway-attestation", {Live}));
    var q := KidChecked(w, driven, kid, "gateway-attestation", LIVE_ONLY, inp.manifest.rrn);
    IdentityNoKid(w, kid, g);
    ToldMore(w, inp, q, IdentityFindings(w, kid, g));
    ToldSigners(w, inp, Said(q, IdentityFindings(w, kid, g)), g.signers);
  }

  lemma {:induction false} ToldGateway(w: World, inp: Inputs)
    requires Usable(inp.manifest)
    ensures Told(w, inp, GatewayStage(w, inp))
    ensures GatewayStage(w, inp).kids.Keys == {inp.manifest.kid} + GatewayKids(inp)
  {
    var g, p := inp.gateway, ManifestStage(w, inp.manifest);
    ToldManifest(w, inp);
    if LiveAndSigning(inp) {
      ToldSigning(w, inp, p);
    } else if inp.mode.Live? && g.NotRunning? {
      NoKidSay(true, GatewayNotRunning, LIVE_ONLY);
      ToldMore(w, inp, p, [Finding(GatewayNotRunning, LIVE_ONLY)]);
    } else if inp.mode.Live? {
      DriveNoKid(g);
      ToldMore(w, inp, p, DriveFindings(g));
      NoKidSay(true, GatewayNotSigning, LIVE_ONLY);
      ToldMore(w, inp, Said(p, DriveFindings(g)), [Finding(GatewayNotSigning, LIVE_ONLY)]);
    }
  }

  lemma {:induction false} ToldPin(w: World, inp: Inputs, q: Progress, kid: string)
    requires Usable(inp.manifest) && Told(w, inp, q) && q.kids.Keys >= {inp.manifest.kid} + GatewayKids(inp)
    requires kid in w.pinOrder && PinnedHere(w, inp.manifest.rrn, kid) && kid !in q.kids
    ensures var r := KidChecked(w, q, kid, if w.pins[kid].role != "" then w.pins[kid].role else "pinned", {}, inp.manifest.rrn);
            Told(w, inp, r) && r.kids.Keys == q.kids.Keys + {kid}
  {
    ToldKid(w, inp, q, kid, Use(if w.pins[kid].role != "" then w.pins[kid].role else "pinned", {}));
  }

  function PinnedKids(w: World, order: seq<string>, rrn: string): set<string> {
    set kid | kid in order && PinnedHere(w, rrn, kid)
  }

  lemma {:induction false} PinnedOfLonger(w: World, front: seq<string>, last: string, rrn: string)
    ensures PinnedKids(w, front + [last], rrn) == PinnedKids(w, front, rrn) + if PinnedHere(w, rrn, last) then {last} else {}
  {
  }

  lemma {:induction false} ToldPins(w: World, inp: Inputs, p: Progress, order: seq<string>)
    requires Usable(inp.manifest) && Told(w, inp, p) && p.kids.Keys >= {inp.manifest.kid} + GatewayKids(inp)
    requires forall kid | kid in order :: kid in w.pinOrder
    ensures var q := OtherPinsChecked(w, p, order, inp.manifest.rrn);
            Told(w, inp, q) && q.kids.Keys == p.kids.Keys + PinnedKids(w, order, inp.manifest.rrn)
  {
    if order != [] {
      var front, kid := order[..|order| - 1], order[|order| - 1];
      assert order == front + [kid];
      ToldPins(w, inp, p, front);
      var q := OtherPinsChecked(w, p, front, inp.manifest.rrn);
      PinnedOfLonger(w, front, kid, inp.manifest.rrn);
      if PinnedHere(w, inp.manifest.rrn, kid) && kid !in q.kids {
        assert kid in w.pinOrder;
        ToldPin(w, inp, q, kid);
      }
    }
  }

  /** Exactly the kids some stage needs are looked up, and what is said of a kid's keys is exactly what
      the resolvers and the pins give reason to, judged by the first use the run has for it. */
  lemma {:induction false} KidFindingsExact(w: World, inp: Inputs, f: Finding)
    requires Usable(inp.manifest) && KidOf(f.id).Some?
    ensures KidOf(f.id).value in RunOf(w, inp).kids <==> UseOf(w, inp, KidOf(f.id).value).Some?
    ensures f in RunOf(w, inp).findings <==>
              var use := UseOf(w, inp, KidOf(f.id).value);
              use.Some? && KidReason(w, KidOf(f.id).value, use.value, inp.manifest.rrn, f)
  {
    ToldGateway(w, inp);
    ToldPins(w, inp, GatewayStage(w, inp), w.pinOrder);
  }

  // ---- everything else ---------------------------------------------------------------------

  predicate ManifestReason(m: ManifestFile, f: Finding) {
    match f.id
    case ManifestUnreadable => f.stopIn == {Bench, Live} && m.Missing?
    case NoFixture => f.stopIn == {} && m.Read? && m.fixture == NotCompared
    case FixtureUnreadable => f.stopIn == {Bench, Live} && m.Read? && m.fixture == Unreadable
    case FixtureDiffers => f.stopIn == {Bench, Live} && m.Read? && m.fixture == Compared(false)
    case ManifestUnsigned => f.stopIn == {Bench, Live} && m.Read? && !m.footer
    case SignatureMalformed => f.stopIn == {Bench, Live} && m.Read? && m.footer && !m.wellFormed
    case ManifestHasNoRrn => f.stopIn == {} && m.Read? && m.footer && m.wellFormed && m.rrn == ""
    case _ => false
  }

  predicate SignatureReason(w: World, m: ManifestFile, f: Finding)
    requires m.Read?
  {
    match f.id
    case ManifestKidUnresolved => f.stopIn == {Bench, Live} && w.local(m.kid) == NotServed
    case ManifestSignatureFails => f.stopIn == {Bench, Live} && w.local(m.kid).Served? && !m.verifies(w.local(m.kid).key)
    case _ => false
  }

  predicate RobotReason(w: World, rrn: string, f: Finding) {
    rrn != "" &&
    match f.id
    case RobotRevoked => f.stopIn == {Bench, Live} && w.robot(rrn).Robot? && w.robot(rrn).revoked
    case RobotUnverified => f.stopIn == {} && w.robot(rrn).Robot? && !w.robot(rrn).verified
    case RobotNameDiffers => f.stopIn == {} && w.robot(rrn).Robot? && !w.robot(rrn).sameName
    case RrnNotRegistered => f.stopIn == {} && w.robot(rrn) == NoRobot
    case RrnUnreachable => f.stopIn == {} && w.robot(rrn) == NoUsableRobot
    case _ => false
  }

  predicate RecordReason(w: World, m: ManifestFile, f: Finding)
    requires m.Read?
  {
    SignatureReason(w, m, f) || RobotReason(w, m.rrn, f)
  }

  predicate PresenceReason(g: Gateway, f: Finding) {
    match f.id
    case GatewayNotRunning => f.stopIn == {Live} && g == NotRunning
    case GatewayManifestDiffers => f.stopIn == {Live} && g.Running? && g.manifestDiffers
    case DriveDiffers => f.stopIn == {Live} && g.Running? && !g.driveMatches
    case GatewayNotSigning => f.stopIn == {Live} && g.Running? && g.signingKid == None
    case _ => false
  }

  /** What the gateway's key file gives reason to say. */
  predicate KeyFileReason(local: LocalAnswer, sidecar: Sidecar, f: Finding) {
    match f.id
    case GatewayKidUnresolved => f.stopIn == {Live} && local == NotServed
    case SidecarMissing => f.stopIn == {} && sidecar == NoSidecar
    case KeyFileDiffers => f.stopIn == {Live} && local.Served? && sidecar.Holds? && sidecar.key != Some(local.key)
    case _ => false
  }

  predicate PairingReason(local: LocalAnswer, kid: string, pairing: Pairing, f: Finding) {
    match f.id
    case PairingNotGiven => f.stopIn == {} && pairing == NotGiven
    case PairingUnreadable => f.stopIn == {Live} && pairing == Garbled
    case PairingKidDiffers => f.stopIn == {Live} && pairing.Payload? && pairing.kid != kid
    case PairingKeyDiffers => f.stopIn == {Live} && pairing.Payload? && (local == NotServed || pairing.key != Some(local.key))
    case _ => false
  }

  predicate ReceiptReason(local: LocalAnswer, latest: Latest, f: Finding) {
    match f.id
    case NoReceiptInTail => f.stopIn == {} && latest.NoReceipt?
    case ReceiptFailsLocalKey => f.stopIn == {Live} && latest.Receipt? && (local == NotServed || !latest.verifies(local.key))
    case _ => false
  }

  predicate KeyReason(w: World, kid: string, g: Gateway, f: Finding)
    requires g.Running?
  {
    || KeyFileReason(w.local(kid), g.sidecar, f)
    || PairingReason(w.local(kid), kid, g.pairing, f)
    || ReceiptReason(w.local(kid), g.latest, f)
  }

  /** What the declared authority's record gives reason to say. */
  predicate AuthorityReason(w: World, kid: string, ran: string, f: Finding) {
    match f.id
    case RanHoldsDifferentKey =>
      && f.stopIn == {} && w.authority(ran).Authority?
      && (w.authority(ran).key == None || w.local(kid) != Served(w.authority(ran).key.value))
    case RanRevoked => f.stopIn == {Live} && w.authority(ran).Authority? && w.authority(ran).revoked
    case RanNotFound => f.stopIn == {} && w.authority(ran) == NoAuthority
    case RanUnreachable => f.stopIn == {} && w.authority(ran) == NoUsableAuthority
    case _ => false
  }

  /** The registry maps the kid to another authority than the declared one. */
  predicate MappingReason(answer: RegistryAnswer, ran: string, f: Finding) {
    && f == Finding(RegistryRanDiffers, {})
    && (answer.Found? || answer.BadResponse? || answer.RevokedKid?)
    && answer.ran !in {"", ran}
  }

  predicate RanReason(w: World, kid: string, ran: string, f: Finding) {
    if ran == "" then f == Finding(RanNotDeclared, {})
    else AuthorityReason(w, kid, ran, f) || MappingReason(w.registry(kid), ran, f)
  }

  predicate SignerReason(w: World, signers: seq<string>, enforce: bool, f: Finding) {
    match f.id
    case SignerUnresolved(kid) => kid in signers && w.local(kid) == NotServed && f.stopIn == if enforce then {Live} else {}
    case _ => false
  }

  predicate GatewayReason(w: World, inp: Inputs, f: Finding) {
    inp.mode == Live &&
    (|| PresenceReason(inp.gateway, f)
     || (LiveAndSigning(inp) &&
         (|| KeyReason(w, inp.gateway.signingKid.value, inp.gateway, f)
          || RanReason(w, inp.gateway.signingKid.value, inp.gateway.ran, f)
          || SignerReason(w, inp.gateway.signers, inp.gateway.enforceSignatures, f))))
  }

  lemma {:induction false} ManifestSays(m: ManifestFile, f: Finding)
    ensures f in ManifestFindings(m) <==> ManifestReason(m, f)
  {
  }

  lemma {:induction false} SignatureSays(w: World, m: ManifestFile, f: Finding)
    requires m.Read?
    ensures f in ManifestKeyFindings(EntryFor(w, m.kid), m) <==> SignatureReason(w, m, f)
  {
  }

  lemma {:induction false} RobotSays(w: World, rrn: string, f: Finding)
    ensures f in RobotFindings(w, rrn) <==> RobotReason(w, rrn, f)
  {
  }

  lemma {:induction false} RecordSays(w: World, m: ManifestFile, f: Finding)
    requires m.Read?
    ensures f in ManifestKeyFindings(EntryFor(w, m.kid), m) + RobotFindings(w, m.rrn) <==> RecordReason(w, m, f)
  {
    SignatureSays(w, m, f);
    RobotSays(w, m.rrn, f);
  }

  lemma {:induction false} KeyFileSays(e: Entry, g: Gateway, f: Finding)
    requires g.Running?
    ensures f in KeyFindings(e, g) <==> KeyFileReason(e.local, g.sidecar, f)
  {
  }

  lemma {:induction false} PairingSays(e: Entry, kid: string, pairing: Pairing, f: Finding)
    ensures f in PairingFindings(e, kid, pairing) <==> PairingReason(e.local, kid, pairing, f)
  {
  }

  lemma {:induction false} ReceiptSays(e: Entry, latest: Latest, f: Finding)
    ensures f in ReceiptFindings(e, latest) <==> ReceiptReason(e.local, latest, f)
  {
  }

  lemma {:induction false} RanSays(w: World, kid: string, ran: string, f: Finding)
    ensures f in RanFindings(w, EntryFor(w, kid), ran) <==> RanReason(w, kid, ran, f)
  {
    if ran != "" {
      AuthoritySays(w, kid, ran, f);
      MappingSays(w.registry(kid), ran, f);
    }
  }

  lemma {:induction false} AuthoritySays(w: World, kid: string, ran: string, f: Finding)
    ensures f in AuthorityFindings(w, EntryFor(w, kid), ran) <==> AuthorityReason(w, kid, ran, f)
  {
  }

  lemma {:induction false} MappingSays(answer: RegistryAnswer, ran: string, f: Finding)
    ensures var other := RegistryRan(Entry(NotServed, answer, None));
            f in Say(other != "" && other != ran, RegistryRanDiffers, {}) <==> MappingReason(answer, ran, f)
  {
  }

  lemma {:induction false} IdentitySays(w: World, kid: string, g: Gateway, f: Finding)
    requires g.Running?
    ensures f in IdentityFindings(w, kid, g) <==> KeyReason(w, kid, g, f) || RanReason(w, kid, g.ran, f)
  {
    var e := EntryFor(w, kid);
    KeyFileSays(e, g, f);
    PairingSays(e, kid, g.pairing, f);
    ReceiptSays(e, g.latest, f);
    RanSays(w, kid, g.ran, f);
  }

  /** What is said before the signing kid is looked up. */
  function Opening(g: Gateway): seq<Finding> {
    if g.NotRunning? then [Finding(GatewayNotRunning, LIVE_ONLY)]
    else DriveFindings(g) + if g.signingKid.None? then [Finding(GatewayNotSigning, LIVE_ONLY)] else []
  }

  lemma {:induction false} PresenceSays(g: Gateway, f: Finding)
    ensures f in Opening(g) <==> PresenceReason(g, f)
  {
  }

  lemma {:induction false} KidAddsNothing(w: World, p: Progress, kid: string, role: string, inUse: set<Mode>, rrn: string, f: Finding)
    requires KidOf(f.id).None?
    ensures f in KidChecked(w, p, kid, role, inUse, rrn).findings <==> f in p.findings
  {
    if kid !in p.kids {
      KidSays(w, p, kid, Use(role, inUse), rrn, f);
    }
  }

  lemma {:induction false} SignerReasonLonger(w: World, front: seq<string>, last: string, enforce: bool, f: Finding)
    ensures SignerReason(w, front + [last], enforce, f) <==>
              SignerReason(w, front, enforce, f) || f in Say(w.local(last).NotServed?, SignerUnresolved(last), if enforce then LIVE_ONLY else {})
  {
  }

  lemma {:induction false} SignersSay(w: World, p: Progress, signers: seq<string>, enforce: bool, rrn: string, f: Finding)
    requires KidOf(f.id).None?
    ensures f in SignersChecked(w, p, signers, enforce, rrn).findings <==> f in p.findings || SignerReason(w, signers, enforce, f)
  {
    if signers != [] {
      var front, kid := signers[..|signers| - 1], signers[|signers| - 1];
      assert signers == front + [kid];
      SignersSay(w, p, front, enforce, rrn, f);
      KidAddsNothing(w, SignersChecked(w, p, front, enforce, rrn), kid, "envelope-signer", LIVE_ONLY, rrn, f);
      SignerReasonLonger(w, front, kid, enforce, f);
    }
  }

  lemma {:induction false} PinsAddNothing(w: World, p: Progress, order: seq<string>, rrn: string, f: Finding)
    requires KidOf(f.id).None?
    ensures f in OtherPinsChecked(w, p, order, rrn).findings <==> f in p.findings
  {
    if order != [] {
      var front, kid := order[..|order| - 1], order[|order| - 1];
      PinsAddNothing(w, p, front, rrn, f);
      if kid in w.pins {
        KidAddsNothing(w, OtherPinsChecked(w, p, front, rrn), kid, if w.pins[kid].role != "" then w.pins[kid].role else "pinned", {}, rrn, f);
      }
    }
  }

  lemma {:induction false} StageSays(w: World, inp: Inputs, f: Finding)
    requires Usable(inp.manifest) && KidOf(f.id).None?
    ensures f in ManifestStage(w, inp.manifest).findings <==> ManifestReason(inp.manifest, f) || RecordReason(w, inp.manifest, f)
  {
    var m := inp.manifest;
    ManifestSays(m, f);
    KidAddsNothing(w, Progress(ManifestFindings(m), map[]), m.kid, "manifest", BOTH, m.rrn, f);
    RecordSays(w, m, f);
  }

  lemma {:induction false} SigningSays(w: World, inp: Inputs, p: Progress, f: Finding)
    requires inp.manifest.Read? && LiveAndSigning(inp) && KidOf(f.id).None?
    ensures f in GatewayChecked(w, p, inp.gateway, inp.manifest.rrn).findings <==> f in p.findings || GatewayReason(w, inp, f)
  {
    var g, kid := inp.gateway, inp.gateway.signingKid.value;
    var driven := Said(p, DriveFindings(g));
    var q := KidChecked(w, driven, kid, "gateway-attestation", LIVE_ONLY, inp.manifest.rrn);
    PresenceSays(g, f);
    KidAddsNothing(w, driven, kid, "gateway-attestation", LIVE_ONLY, inp.manifest.rrn, f);
    IdentitySays(w, kid, g, f);
    SignersSay(w, Said(q, IdentityFindings(w, kid, g)), g.signers, g.enforceSignatures, inp.manifest.rrn, f);
    assert f in Opening(g) <==> f in DriveFindings(g);
  }

  lemma {:induction false} GatewaySays(w: World, inp: Inputs, p: Progress, f: Finding)
    requires inp.manifest.Read? && inp.mode == Live && KidOf(f.id).None?
    ensures f in GatewayChecked(w, p, inp.gateway, inp.manifest.rrn).findings <==> f in p.findings || GatewayReason(w, inp, f)
  {
    if LiveAndSigning(inp) {
      SigningSays(w, inp, p, f);
    } else {
      OnlyOpens(w, p, inp.gateway, inp.manifest.rrn, f);
      PresenceSays(inp.gateway, f);
    }
  }

  lemma {:induction false} OnlyOpens(w: World, p: Progress, g: Gateway, rrn: string, f: Finding)
    requires !Signs(g)
    ensures f in GatewayChecked(w, p, g, rrn).findings <==> f in p.findings || f in Opening(g)
  {
  }

  /** Everything else a run says, whether it stops anything or not, is exactly what the manifest, the
      robot record, the gateway, its authority and its signers give reason to. */
  lemma {:induction false} OtherFindingsExact(w: World, inp: Inputs, f: Finding)
    requires KidOf(f.id).None?
    ensures f in RunOf(w, inp).findings <==>
              || ManifestReason(inp.manifest, f)
              || (Usable(inp.manifest) && (RecordReason(w, inp.manifest, f) || GatewayReason(w, inp, f)))
  {
    if Usable(inp.manifest) {
      StageSays(w, inp, f);
      if inp.mode.Live? {
        GatewaySays(w, inp, ManifestStage(w, inp.manifest), f);
      }
      PinsAddNothing(w, GatewayStage(w, inp), w.pinOrder, inp.manifest.rrn, f);
    } else {
      ManifestSays(inp.manifest, f);
    }
  }

  // ---- the checks behind registry-resolves -------------------------------------------------

  /** Which checks a mode is judged by, and when each holds: none before the manifest is usable, and
      the gateway's two only in the live mode, for a gateway that signs. */
  lemma {:induction false} ChecksExact(w: World, inp: Inputs, mode: Mode)
    ensures ChecksOf(w, inp, mode).Keys ==
              if !Usable(inp.manifest) then {}
              else {ManifestKidBacked, ManifestVerifiesUnderRegistry, RobotRecordGood}
                   + if mode == Live && Signs(inp.gateway) then {GatewayKidBacked, RanHoldsGatewayKey} else {}
    ensures Usable(inp.manifest) ==>
              var checks, m := ChecksOf(w, inp, mode), inp.manifest;
              && (checks[ManifestKidBacked] <==> OneKey(w, m.kid))
              && (checks[ManifestVerifiesUnderRegistry] <==> w.registry(m.kid).Found? && m.verifies(w.registry(m.kid).key))
              && (checks[RobotRecordGood] <==> m.rrn != "" && w.robot(m.rrn).Robot? && !w.robot(m.rrn).revoked)
    ensures Usable(inp.manifest) && mode == Live && Signs(inp.gateway) ==>
              var checks, kid := ChecksOf(w, inp, mode), inp.gateway.signingKid.value;
              && (checks[GatewayKidBacked] <==> OneKey(w, kid))
              && (checks[RanHoldsGatewayKey] <==> RanBacks(w, kid, inp.gateway.ran))
  {
    if Usable(inp.manifest) && mode == Live && Signs(inp.gateway) {
      RanOkIff(w, inp.gateway.signingKid.value, inp.gateway.ran);
    }
  }
}
