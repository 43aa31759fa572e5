/** One preflight, as `class Preflight` runs it: what it says and whom it looks up, step by step. */
module PreflightRun {
  import opened Trace
  import opened Preflight

  /** The same check entered for every mode. */
  function WithCheck(checks: map<Mode, Checks>, check: Check, holds: bool): map<Mode, Checks> {
    map m | m in checks :: checks[m][check := holds]
  }

  function NoChecks(mode: Mode): map<Mode, Checks> {
    if mode.Live? then map[Bench := map[], Live := map[]] else map[Bench := map[]]
  }

  lemma SaidTwice(p: Progress, a: seq<Finding>, b: seq<Finding>)
    ensures Said(Said(p, a), b) == Said(p, a + b)
  {
    assert p.findings + a + b == p.findings + (a + b);
  }

  // ---- what each stage stops ---------------------------------------------------------------

  lemma {:induction false} KidStops(w: World, p: Progress, kid: string, role: string, inUse: set<Mode>, rrn: string)
    ensures forall mode: Mode :: HasStop(KidChecked(w, p, kid, role, inUse, rrn).findings, mode) <==>
              HasStop(p.findings, mode) || (kid !in p.kids && mode in inUse && Contested(EntryFor(w, kid)))
  {
    forall mode: Mode {
      KidStopsIff(w, p, kid, role, inUse, rrn, mode);
    }
  }

  lemma {:induction false} ManifestRejects(p: Progress, m: ManifestFile)
    ensures forall mode: Mode :: HasStop(Said(p, ManifestFindings(m)).findings, mode) <==> HasStop(p.findings, mode) || ManifestRejected(m)
  {
    forall mode: Mode ensures HasStop(Said(p, ManifestFindings(m)).findings, mode) <==> HasStop(p.findings, mode) || ManifestRejected(m) {
      ManifestFindingsStopIff(m, mode);
      StopAppend(p.findings, ManifestFindings(m), mode);
    }
  }

  lemma {:induction false} ManifestKeyRejects(w: World, p: Progress, m: ManifestFile, rrn: string)
    requires Usable(m)
    ensures forall mode: Mode ::
              HasStop(Said(KidChecked(w, p, m.kid, "manifest", BOTH, rrn), ManifestKeyFindings(EntryFor(w, m.kid), m)).findings, mode) <==>
              HasStop(p.findings, mode) || (m.kid !in p.kids && Contested(EntryFor(w, m.kid))) || KeyRejects(w, m)
  {
    var q, e := KidChecked(w, p, m.kid, "manifest", BOTH, rrn), EntryFor(w, m.kid);
    forall mode: Mode
      ensures HasStop(Said(q, ManifestKeyFindings(e, m)).findings, mode) <==>
              HasStop(p.findings, mode) || (m.kid !in p.kids && Contested(e)) || KeyRejects(w, m)
    {
      KidStopsIff(w, p, m.kid, "manifest", BOTH, rrn, mode);
      assert mode == Bench || mode == Live;
      KeyRejectsIff(w, m, mode);
      StopAppend(q.findings, ManifestKeyFindings(e, m), mode);
    }
  }

  lemma {:induction false} RobotBars(w: World, p: Progress, rrn: string)
    ensures forall mode: Mode :: HasStop(Said(p, RobotFindings(w, rrn)).findings, mode) <==> HasStop(p.findings, mode) || RobotBarred(w, rrn)
  {
    forall mode: Mode ensures HasStop(Said(p, RobotFindings(w, rrn)).findings, mode) <==> HasStop(p.findings, mode) || RobotBarred(w, rrn) {
      RobotStopsIff(w, rrn, mode);
      StopAppend(p.findings, RobotFindings(w, rrn), mode);
    }
  }

  /** What both verdicts of a run stand for. */
  lemma {:induction false} VerdictsMean(w: World, inp: Inputs)
    ensures forall mode: Mode | inp.mode.Live? || mode.Bench? ::
              && (VerdictOf(w, inp, mode).Stopped? <==> BenchBlocked(w, inp.manifest) || (mode.Live? && LiveBlocked(w, inp.gateway)))
              && (VerdictOf(w, inp, mode) == RegistryResolves <==>
                    && !VerdictOf(w, inp, mode).Stopped? && ManifestResolves(w, inp.manifest)
                    && (mode.Live? ==> GatewayResolves(w, inp.gateway)))
  {
    BenchStopsIff(w, inp);
    BenchResolvesIff(w, inp);
    if inp.mode.Live? {
      LiveStopsIff(w, inp);
      LiveResolvesIff(w, inp);
    }
  }

  // ---- the run -----------------------------------------------------------------------------

  lemma {:induction false} SignersNext(w: World, p: Progress, signers: seq<string>, i: nat, enforce: bool, rrn: string)
    requires i < |signers|
    ensures SignersChecked(w, p, signers[..i + 1], enforce, rrn)
         == Said(KidChecked(w, SignersChecked(w, p, signers[..i], enforce, rrn), signers[i], "envelope-signer", LIVE_ONLY, rrn),
                 Say(w.local(signers[i]).NotServed?, SignerUnresolved(signers[i]), if enforce then LIVE_ONLY else {}))
  {
    assert signers[..i + 1][..i] == signers[..i];
  }

  /** The manifest's three checks, entered one after the other. */
  lemma ManifestChecksEntered(w: World, inp: Inputs)
    requires Usable(inp.manifest)
    ensures var m, e, bench := inp.manifest, EntryFor(w, inp.manifest.kid), BenchChecks(w, inp.manifest);
            WithCheck(WithCheck(WithCheck(NoChecks(inp.mode), ManifestKidBacked, e.Backed()), ManifestVerifiesUnderRegistry,
                                e.registry.Found? && m.verifies(e.registry.key)), RobotRecordGood, RobotGood(w, m.rrn))
            == if inp.mode.Live? then map[Bench := bench, Live := bench] else map[Bench := bench]
  {
    var m, e := inp.manifest, EntryFor(w, inp.manifest.kid);
    var empty: Checks := map[];
    assert BenchChecks(w, m) == empty[ManifestKidBacked := e.Backed()]
                                  [ManifestVerifiesUnderRegistry := e.registry.Found? && m.verifies(e.registry.key)]
                                  [RobotRecordGood := RobotGood(w, m.rrn)];
  }

  class Run {
    const world: World
    const inputs: Inputs
    var findings: seq<Finding>
    var kids: map<string, Entry>
    var rrn: string
    var checks: map<Mode, Checks>

    constructor (world: World, inputs: Inputs)
      ensures this.world == world && this.inputs == inputs
      ensures Valid() && Now() == Progress([], map[]) && rrn == "" && checks == NoChecks(inputs.mode)
    {
      this.world, this.inputs := world, inputs;
      findings, kids, rrn := [], map[], "";
      checks := NoChecks(inputs.mode);
    }

    function Now(): Progress
      reads this
    {
      Progress(findings, kids)
    }

    /** What is remembered of a kid is what the resolvers and the pins said of it. */
    ghost predicate Valid()
      reads this
    {
      forall kid | kid in kids :: kids[kid] == EntryFor(world, kid)
    }

    method Find(id: FindingId, stopIn: set<Mode>)
      modifies `findings
      ensures Now() == Said(old(Now()), [Finding(id, stopIn)])
    {
      findings := findings + [Finding(id, stopIn)];
    }

    method FindIf(condition: bool, id: FindingId, stopIn: set<Mode>)
      modifies `findings
      ensures Now() == Said(old(Now()), Say(condition, id, stopIn))
    {
      if condition {
        Find(id, stopIn);
      }
    }

    method RegisterCheck(check: Check, holds: bool)
      requires checks.Keys == NoChecks(inputs.mode).Keys
      modifies `checks
      ensures checks == WithCheck(old(checks), check, holds)
    {
      checks := checks[Bench := checks[Bench][check := holds]];
      if inputs.mode.Live? {
        checks := checks[Live := checks[Live][check := holds]];
      }
    }

    method SayOfPin(e: Entry, kid: string, inUse: set<Mode>)
      modifies `findings
      ensures Now() == Said(old(Now()), PinFindings(e, kid, inUse))
    {
      if e.pin.None? {
        Find(NoPin(kid), {});
      } else if e.local.Served? && !e.LocalMatchesPin() {
        Find(LocalDiffersFromPin(kid), inUse);
      }
    }

    method SayOfRegistry(e: Entry, kid: string, inUse: set<Mode>)
      modifies `findings
      ensures Now() == Said(old(Now()), RegistryFindings(e, kid, inUse))
    {
      if e.registry.Found? {
        if e.local.Served? && !e.RegistryMatchesLocal() {
          Find(RegistryDiffersFromLocal(kid), inUse);
        } else if e.pin.Some? && !e.RegistryMatchesPin() {
          Find(RegistryDiffersFromPin(kid), inUse);
        }
        if e.pin.Some? && e.pin.value.ran != "" && e.registry.ran != e.pin.value.ran {
          Find(RegistryRanDiffersFromPin(kid), {});
        }
      } else if e.registry.RevokedKid? {
        Find(KidRevoked(kid), inUse);
      } else if e.registry.NotRegistered? {
        Find(KidNotRegistered(kid), {});
      } else {
        Find(RegistryUnreachable(kid), {});
      }
    }

    method SayOfUse(e: Entry, kid: string, role: string)
      modifies `findings
      ensures Now() == Said(old(Now()), PinNotes(e, kid, role, rrn))
    {
      if e.pin.Some? {
        var pin := e.pin.value;
        FindIf(pin.role != "" && pin.role != role, PinRoleDiffers(kid), {});
        FindIf(pin.rrn != "" && rrn != "" && pin.rrn != rrn, PinRrnDiffers(kid), {});
        SaidTwice(old(Now()), Say(pin.role != "" && pin.role != role, PinRoleDiffers(kid), {}),
                  Say(pin.rrn != "" && rrn != "" && pin.rrn != rrn, PinRrnDiffers(kid), {}));
      }
    }

    method CheckKid(kid: string, role: string, inUse: set<Mode>) returns (e: Entry)
      requires Valid()
      modifies `findings, `kids
      ensures Valid() && e == EntryFor(world, kid)
      ensures Now() == KidChecked(world, old(Now()), kid, role, inUse, rrn)
      ensures forall mode: Mode :: HasStop(findings, mode) <==>
                old(HasStop(findings, mode)) || (kid !in old(kids) && mode in inUse && Contested(e))
    {
      KidStops(world, Now(), kid, role, inUse, rrn);
      if kid in kids {
        return kids[kid];
      }
      var pin := if kid in world.pins then Some(world.pins[kid]) else None;
      e := Entry(world.local(kid), world.registry(kid), pin);
      kids := kids[kid := e];
      SayOfPin(e, kid, inUse);
      SayOfRegistry(e, kid, inUse);
      SayOfUse(e, kid, role);
    }

    /** `_manifest`: whether the run goes on. */
    method CheckManifest() returns (usable: bool)
      modifies `findings, `rrn
      ensures Now() == Said(old(Now()), ManifestFindings(inputs.manifest))
      ensures usable == Usable(inputs.manifest)
      ensures rrn == if inputs.manifest.Read? then inputs.manifest.rrn else old(rrn)
      ensures forall mode: Mode :: HasStop(findings, mode) <==> old(HasStop(findings, mode)) || ManifestRejected(inputs.manifest)
    {
      ManifestRejects(Now(), inputs.manifest);
      var m := inputs.manifest;
      if m.Missing? {
        Find(ManifestUnreadable, BOTH);
        return false;
      }
      rrn := m.rrn;
      if m.fixture.Unreadable? {
        Find(FixtureUnreadable, BOTH);
      } else if m.fixture.NotCompared? {
        Find(NoFixture, {});
      } else if !m.fixture.same {
        Find(FixtureDiffers, BOTH);
      }
      assert findings == old(findings) + FixtureFindings(m.fixture);
      if !m.footer {
        Find(ManifestUnsigned, BOTH);
        return false;
      }
      if !m.wellFormed {
        Find(SignatureMalformed, BOTH);
        return false;
      }
      FindIf(m.rrn == "", ManifestHasNoRrn, {});
      return true;
    }

    /** `_manifest_keys` */
    method CheckManifestKeys()
      requires Valid() && Usable(inputs.manifest) && checks.Keys == NoChecks(inputs.mode).Keys
      modifies `findings, `kids, `checks
      ensures Valid()
      ensures var m, e := inputs.manifest, EntryFor(world, inputs.manifest.kid);
              && Now() == Said(KidChecked(world, old(Now()), m.kid, "manifest", BOTH, rrn), ManifestKeyFindings(e, m))
              && checks == WithCheck(WithCheck(old(checks), ManifestKidBacked, e.Backed()), ManifestVerifiesUnderRegistry,
                                     e.registry.Found? && m.verifies(e.registry.key))
      ensures forall mode: Mode :: HasStop(findings, mode) <==>
                || old(HasStop(findings, mode))
                || (inputs.manifest.kid !in old(kids) && Contested(EntryFor(world, inputs.manifest.kid)))
                || KeyRejects(world, inputs.manifest)
    {
      ManifestKeyRejects(world, Now(), inputs.manifest, rrn);
      var m := inputs.manifest;
      var e := CheckKid(m.kid, "manifest", BOTH);
      if e.local.NotServed? {
        Find(ManifestKidUnresolved, BOTH);
      } else if !m.verifies(e.local.key) {
        Find(ManifestSignatureFails, BOTH);
      }
      RegisterCheck(ManifestKidBacked, e.registry.Found? && e.RegistryMatchesLocal() && e.RegistryMatchesPin());
      RegisterCheck(ManifestVerifiesUnderRegistry, e.registry.Found? && m.verifies(e.registry.key));
    }

    /** `_rrn` */
    method CheckRobot()
      requires Usable(inputs.manifest) && checks.Keys == NoChecks(inputs.mode).Keys
      modifies `findings, `checks
      ensures Now() == Said(old(Now()), RobotFindings(world, inputs.manifest.rrn))
      ensures checks == WithCheck(old(checks), RobotRecordGood, RobotGood(world, inputs.manifest.rrn))
      ensures forall mode: Mode :: HasStop(findings, mode) <==> old(HasStop(findings, mode)) || RobotBarred(world, inputs.manifest.rrn)
    {
      RobotBars(world, Now(), inputs.manifest.rrn);
      var ok := false;
      var name := inputs.manifest.rrn;
      if name != "" {
        match world.robot(name) {
          case Robot(revoked, verified, sameName) =>
            if revoked {
              Find(RobotRevoked, BOTH);
            } else {
              ok := true;
            }
            FindIf(!verified, RobotUnverified, {});
            FindIf(!sameName, RobotNameDiffers, {});
          case NoRobot => Find(RrnNotRegistered, {});
          case NoUsableRobot => Find(RrnUnreachable, {});
        }
      }
      RegisterCheck(RobotRecordGood, ok);
    }

    /** The declared authority, inside `_gateway`. */
    method CheckRan(e: Entry) returns (ok: bool)
      requires inputs.gateway.Running?
      modifies `findings
      ensures Now() == Said(old(Now()), RanFindings(world, e, inputs.gateway.ran))
      ensures ok == RanOk(world, e, inputs.gateway.ran)
    {
      var ran := inputs.gateway.ran;
      if ran == "" {
        Find(RanNotDeclared, {});
        return true;
      }
      ok := true;
      match world.authority(ran) {
        case Authority(key, revoked) =>
          if !(key.Some? && e.local.Served? && key.value == e.local.key) {
            ok := false;
            Find(RanHoldsDifferentKey, {});
          }
          FindIf(revoked, RanRevoked, LIVE_ONLY);
        case NoAuthority =>
          ok := false;
          Find(RanNotFound, {});
        case NoUsableAuthority =>
          ok := false;
          Find(RanUnreachable, {});
      }
      if RegistryRan(e) != "" && RegistryRan(e) != ran {
        ok := false;
        Find(RegistryRanDiffers, {});
      }
    }

    /** `_pairing` */
    method CheckPairing(e: Entry, kid: string)
      requires inputs.gateway.Running?
      modifies `findings
      ensures Now() == Said(old(Now()), PairingFindings(e, kid, inputs.gateway.pairing))
      ensures e.local.Served? ==>
                (HasStop(findings, Live) <==> old(HasStop(findings, Live)) || PairingMisfits(e, kid, inputs.gateway.pairing))
    {
      if e.local.Served? {
        PairingStopsIff(e, kid, inputs.gateway.pairing);
        StopAppend(findings, PairingFindings(e, kid, inputs.gateway.pairing), Live);
      }
      match inputs.gateway.pairing {
        case NotGiven => Find(PairingNotGiven, {});
        case Garbled => Find(PairingUnreadable, LIVE_ONLY);
        case Payload(named, key) =>
          FindIf(named != kid, PairingKidDiffers, LIVE_ONLY);
          FindIf(!(key.Some? && e.local.Served? && key.value == e.local.key), PairingKeyDiffers, LIVE_ONLY);
      }
    }

    /** The end of `_export`: every signer seen in the export's tail, in order. */
    method CheckSigners()
      requires Valid() && inputs.gateway.Running?
      modifies `findings, `kids
      ensures Valid()
      ensures Now() == SignersChecked(world, old(Now()), inputs.gateway.signers, inputs.gateway.enforceSignatures, rrn)
      ensures old(Caught(world, Now())) ==>
                (HasStop(findings, Live) <==> old(HasStop(findings, Live)) || SomeBadSigner(world, inputs.gateway))
    {
      if Caught(world, Now()) {
        SignersStopIff(world, Now(), inputs.gateway.signers, inputs.gateway.enforceSignatures, rrn);
      }
      var signers, enforce := inputs.gateway.signers, inputs.gateway.enforceSignatures;
      for i := 0 to |signers|
        invariant Valid()
        invariant Now() == SignersChecked(world, old(Now()), signers[..i], enforce, rrn)
      {
        SignersNext(world, old(Now()), signers, i, enforce, rrn);
        var e := CheckKid(signers[i], "envelope-signer", LIVE_ONLY);
        FindIf(e.local.NotServed?, SignerUnresolved(signers[i]), if enforce then LIVE_ONLY else {});
      }
      assert signers[..|signers|] == signers;
    }

    method CheckKeyFile(e: Entry)
      requires inputs.gateway.Running?
      modifies `findings
      ensures Now() == Said(old(Now()), KeyFindings(e, inputs.gateway))
    {
      var g := inputs.gateway;
      FindIf(e.local.NotServed?, GatewayKidUnresolved, LIVE_ONLY);
      if g.sidecar.NoSidecar? {
        Find(SidecarMissing, {});
      } else if e.local.Served? && g.sidecar.key != Some(e.local.key) {
        Find(KeyFileDiffers, LIVE_ONLY);
      }
    }

    /** The newest receipt, inside `_export`. */
    method CheckReceipt(e: Entry)
      requires inputs.gateway.Running?
      modifies `findings
      ensures Now() == Said(old(Now()), ReceiptFindings(e, inputs.gateway.latest))
    {
      var latest := inputs.gateway.latest;
      if latest.NoReceipt? {
        Find(NoReceiptInTail, {});
      } else if !(e.local.Served? && latest.verifies(e.local.key)) {
        Find(ReceiptFailsLocalKey, LIVE_ONLY);
      }
    }

    /** The gateway's identity: its key file, its authority, the pairing payload and its newest receipt. */
    method CheckIdentity(e: Entry, kid: string) returns (ranOk: bool)
      requires inputs.gateway.Running? && e == EntryFor(world, kid)
      modifies `findings
      ensures Now() == Said(old(Now()), IdentityFindings(world, kid, inputs.gateway))
      ensures ranOk == RanOk(world, e, inputs.gateway.ran)
    {
      var g := inputs.gateway;
      CheckKeyFile(e);
      ranOk := CheckRan(e);
      CheckPairing(e, kid);
      CheckReceipt(e);
      var key, ran, pairing := KeyFindings(e, g), RanFindings(world, e, g.ran), PairingFindings(e, kid, g.pairing);
      SaidTwice(old(Now()), key, ran);
      SaidTwice(old(Now()), key + ran, pairing);
      SaidTwice(old(Now()), key + ran + pairing, ReceiptFindings(e, g.latest));
    }

    /** The manifest path and the drive backend, inside `_gateway`. */
    method CheckDrive()
      requires inputs.gateway.Running?
      modifies `findings
      ensures Now() == Said(old(Now()), DriveFindings(inputs.gateway))
    {
      var g := inputs.gateway;
      FindIf(g.manifestDiffers, GatewayManifestDiffers, LIVE_ONLY);
      FindIf(!g.driveMatches, DriveDiffers, LIVE_ONLY);
      SaidTwice(old(Now()), Say(g.manifestDiffers, GatewayManifestDiffers, LIVE_ONLY), Say(!g.driveMatches, DriveDiffers, LIVE_ONLY));
    }

    /** The signing identity and what follows from it, inside `_gateway`. */
    method CheckSigning(kid: string)
      requires Valid() && inputs.gateway.Running? && Live in checks
      modifies `findings, `kids, `checks
      ensures Valid()
      ensures var q := KidChecked(world, old(Now()), kid, "gateway-attestation", LIVE_ONLY, rrn);
              Now() == SignersChecked(world, Said(q, IdentityFindings(world, kid, inputs.gateway)),
                                      inputs.gateway.signers, inputs.gateway.enforceSignatures, rrn)
      ensures checks == old(checks)[Live := old(checks)[Live] + GatewayChecks(world, EntryFor(world, kid), inputs.gateway.ran)]
    {
      var e := CheckKid(kid, "gateway-attestation", LIVE_ONLY);
      var ranOk := CheckIdentity(e, kid);
      checks := checks[Live := checks[Live] + map[GatewayKidBacked := e.Backed(), RanHoldsGatewayKey := ranOk]];
      CheckSigners();
    }

    /** `_gateway` */
    method CheckGateway()
      requires Valid() && Live in checks
      modifies `findings, `kids, `checks
      ensures Valid()
      ensures Now() == GatewayChecked(world, old(Now()), inputs.gateway, rrn)
      ensures checks == if !Signs(inputs.gateway) then old(checks)
                        else old(checks)[Live := old(checks)[Live]
                               + GatewayChecks(world, EntryFor(world, inputs.gateway.signingKid.value), inputs.gateway.ran)]
      ensures Signs(inputs.gateway) && old(Live in checks) ==>
                && Live in checks && GatewayKidBacked in checks[Live] && RanHoldsGatewayKey in checks[Live]
                && (checks[Live][GatewayKidBacked] <==> OneKey(world, inputs.gateway.signingKid.value))
                && (checks[Live][RanHoldsGatewayKey] <==> RanBacks(world, inputs.gateway.signingKid.value, inputs.gateway.ran))
      ensures old(Caught(world, Now())) ==>
                (HasStop(findings, Live) <==> old(HasStop(findings, Live)) || LiveBlocked(world, inputs.gateway))
    {
      if Signs(inputs.gateway) {
        RanOkIff(world, inputs.gateway.signingKid.value, inputs.gateway.ran);
      }
      if Caught(world, Now()) {
        GatewayStopsIff(world, Now(), inputs.gateway, rrn);
      }
      var g := inputs.gateway;
      if g.NotRunning? {
        Find(GatewayNotRunning, LIVE_ONLY);
        return;
      }
      CheckDrive();
      if g.signingKid.None? {
        Find(GatewayNotSigning, LIVE_ONLY);
        return;
      }
      CheckSigning(g.signingKid.value);
    }

    /** `_other_pins` */
    method CheckOtherPins()
      requires Valid() && Usable(inputs.manifest) && rrn == inputs.manifest.rrn
      modifies `findings, `kids
      ensures Valid()
      ensures Now() == OtherPinsChecked(world, old(Now()), world.pinOrder, rrn)
      ensures forall mode: Mode :: HasStop(findings, mode) <==> old(HasStop(findings, mode))
    {
      forall mode: Mode {
        PinsNeverStop(world, Now(), world.pinOrder, rrn, mode);
      }
      var order := world.pinOrder;
      for i := 0 to |order|
        invariant Valid()
        invariant Now() == OtherPinsChecked(world, old(Now()), order[..i], rrn)
      {
        assert order[..i + 1][..i] == order[..i];
        var kid := order[i];
        if kid in world.pins && kid !in kids && rrn != "" && world.pins[kid].rrn == rrn {
          var e := CheckKid(kid, if world.pins[kid].role != "" then world.pins[kid].role else "pinned", {});
        }
      }
      assert order[..|order|] == order;
    }

    /** The manifest, its keys and its robot record. */
    method CheckManifestStage() returns (usable: bool)
      requires Valid() && Now() == Progress([], map[]) && rrn == "" && checks == NoChecks(inputs.mode)
      modifies this
      ensures Valid() && usable == Usable(inputs.manifest)
      ensures Now() == ManifestStage(world, inputs.manifest)
      ensures usable ==> rrn == inputs.manifest.rrn
      ensures var bench := BenchChecks(world, inputs.manifest);
              checks == if inputs.mode.Live? then map[Bench := bench, Live := bench] else map[Bench := bench]
    {
      var m := inputs.manifest;
      usable := CheckManifest();
      assert findings == ManifestFindings(m);
      if usable {
        ManifestChecksEntered(world, inputs);
        CheckManifestKeys();
        CheckRobot();
        SaidTwice(KidChecked(world, Progress(ManifestFindings(m), map[]), m.kid, "manifest", BOTH, m.rrn),
                  ManifestKeyFindings(EntryFor(world, m.kid), m), RobotFindings(world, m.rrn));
      }
    }

    /** The gateway, when the run is live. */
    method CheckGatewayStage()
      requires Valid() && Usable(inputs.manifest) && rrn == inputs.manifest.rrn
      requires Now() == ManifestStage(world, inputs.manifest)
      requires var bench := BenchChecks(world, inputs.manifest);
               checks == if inputs.mode.Live? then map[Bench := bench, Live := bench] else map[Bench := bench]
      modifies `findings, `kids, `checks
      ensures Valid() && Now() == GatewayStage(world, inputs)
      ensures checks.Keys == old(checks).Keys
      ensures forall mode | mode in checks :: checks[mode] == ChecksOf(world, inputs, mode)
    {
      if inputs.mode.Live? {
        CheckGateway();
        assert checks.Keys == {Bench, Live} && checks[Bench] == BenchChecks(world, inputs.manifest);
        assert checks[Live] == LiveChecks(world, inputs);
      }
    }

    /** Every stage, before the verdicts. */
    method CheckAll()
      requires Valid() && Now() == Progress([], map[]) && rrn == "" && checks == NoChecks(inputs.mode)
      modifies this
      ensures Now() == RunOf(world, inputs)
      ensures checks.Keys == NoChecks(inputs.mode).Keys
      ensures forall mode | mode in checks :: checks[mode] == ChecksOf(world, inputs, mode)
    {
      var usable := CheckManifestStage();
      if usable {
        CheckGatewayStage();
        CheckOtherPins();
      }
    }

    /** `run`: everything said, every kid looked up, and a verdict for every mode. */
    method Go() returns (verdicts: map<Mode, Verdict>)
      requires Valid() && Now() == Progress([], map[]) && rrn == "" && checks == NoChecks(inputs.mode)
      modifies this
      ensures Now() == RunOf(world, inputs)
      ensures verdicts.Keys == if inputs.mode.Live? then {Bench, Live} else {Bench}
      ensures forall mode | mode in verdicts :: verdicts[mode] == VerdictOf(world, inputs, mode)
      ensures forall mode | mode in verdicts ::
                verdicts[mode].Stopped? <==> BenchBlocked(world, inputs.manifest) || (mode.Live? && LiveBlocked(world, inputs.gateway))
      ensures forall mode | mode in verdicts ::
                verdicts[mode] == RegistryResolves <==>
                && !verdicts[mode].Stopped? && ManifestResolves(world, inputs.manifest)
                && (mode.Live? ==> GatewayResolves(world, inputs.gateway))
    {
      VerdictsMean(world, inputs);
      CheckAll();
      verdicts := map[Bench := VerdictFor(Bench, findings, checks[Bench])];
      if inputs.mode.Live? {
        verdicts := verdicts[Live := VerdictFor(Live, findings, checks[Live])];
      }
    }
  }
}
