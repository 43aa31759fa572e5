/** What it takes to get a request dispatched, and what each gate refuses, in the request's own
    terms: scopes, tiers, numbers and names. */
module GateMeaning {
  import opened Trace
  import opened Gates
  import opened Gateway
  import Replay
  import Revocation
  import Safety

  // ---- the envelope ------------------------------------------------------------------------

  /** Ready, with a heartbeat no older than the bound. */
  predicate MayActuate(m: Memory, now: real) {
    m.monitor.state == Safety.Ready && m.monitor.lastHeartbeat >= now - m.staleness
  }

  /** The timestamp is a number at most this many seconds away, on either side; or there is none and
      none is asked for. */
  predicate InTime(cfg: Config, req: Request) {
    match req.stamp
    case Absent => !cfg.freshness.requireTimestamp
    case NotANumber => false
    case Millis(ms) =>
      -1000.0 * cfg.freshness.maxSkewS <= (req.nowMs - ms) as real <= 1000.0 * cfg.freshness.maxSkewS
  }

  /** What stands in the envelope's way when signatures are required. */
  lemma {:induction false} EnvelopeRefusals(cfg: Config, m: Memory, req: Request)
    ensures Blocks(cfg, m, req, At(SafetyState)) <==> cfg.safety && !MayActuate(m, req.now)
    ensures Blocks(cfg, m, req, At(EnvelopeSignature)) <==> cfg.requireSignature && req.signer == None
    ensures Blocks(cfg, m, req, At(EnvelopeFreshness)) <==> cfg.requireSignature && !InTime(cfg, req)
    ensures Blocks(cfg, m, req, At(ReplayedId)) <==> cfg.requireSignature && (req.msgId == "" || req.msgId in m.seen)
    ensures Blocks(cfg, m, req, WindowError) <==>
              cfg.requireSignature && req.msgId != "" && req.msgId !in m.seen && m.window <= 0
  {
    if req.stamp.Millis? {
      var d := (req.nowMs - req.stamp.ms) as real;
      Thousandths(d, cfg.freshness.maxSkewS);
    }
  }

  lemma Thousandths(d: real, bound: real)
    ensures Replay.Abs(d / 1000.0) <= bound <==> -1000.0 * bound <= d <= 1000.0 * bound
  {
    assert d == (d / 1000.0) * 1000.0;
  }

  /** The answer given for this kid less than one TTL ago. */
  function Remembered(m: Memory, kid: string, now: real): Option<bool> {
    if kid in m.cache && m.cache[kid].at > now - m.ttl then Some(m.cache[kid].revoked) else None
  }

  /** Revocation is asked about every signer that has a name; a remembered answer comes first. */
  lemma {:induction false} KeyRefusals(cfg: Config, m: Memory, req: Request)
    ensures !(cfg.requireSignature && cfg.checkRevocation && req.signer.Some? && req.signer != Some("")) ==>
              !Blocks(cfg, m, req, RevocationUnknown) && !Blocks(cfg, m, req, At(RevokedKey))
    ensures cfg.requireSignature && cfg.checkRevocation && req.signer.Some? && req.signer != Some("") ==>
              var told := Remembered(m, req.signer.value, req.now);
              && (Blocks(cfg, m, req, RevocationUnknown) <==>
                    told == None && req.revocation in {Revocation.CannotTell, Revocation.Raises})
              && (Blocks(cfg, m, req, At(RevokedKey)) <==>
                    told == Some(true) || (told == None && req.revocation == Revocation.Says(true)))
  {
  }

  // ---- the manifest and the tool -----------------------------------------------------------

  lemma {:induction false} ManifestRefusals(cfg: Config, m: Memory, req: Request)
    ensures Blocks(cfg, m, req, Schema) <==> !req.wellFormed
    ensures Blocks(cfg, m, req, At(ManifestPin)) <==> cfg.pinned && !req.pinMatches
    ensures Blocks(cfg, m, req, At(ManifestProvenance)) <==> !req.manifestVerifies
    ensures Blocks(cfg, m, req, At(RrnBinding)) <==> cfg.bindRrn && !req.rrnMatches
  {
  }

  /** The scopes whose name says that the robot may move or change. */
  predicate NamesAnAct(scope: string) {
    || scope == "MANIPULATE" || scope == "NAVIGATE" || scope == "ACTUATE" || scope == "EXECUTE"
    || scope == "COMMISSION"
  }

  predicate OrdinaryMotion(scope: string) {
    NamesAnAct(scope) && scope != "COMMISSION"
  }

  /** The tier speaks for the scope and the tool; the tool is on the list, and moves the robot only
      under a scope that says so. */
  lemma {:induction false} ToolRefusals(cfg: Config, m: Memory, req: Request)
    ensures Blocks(cfg, m, req, At(TierPolicy)) <==>
              || (NamesAnAct(cfg.upper(req.scope)) && (req.tier == "read" || req.tier == "anon"))
              || (cfg.upper(req.scope) == "COMMISSION" && req.tier != "commission")
    ensures Blocks(cfg, m, req, At(ToolAllowlist)) <==> req.tool !in cfg.allowlist
    ensures Blocks(cfg, m, req, At(ToolTier)) <==> req.tool in cfg.toolTiers && req.tier !in cfg.toolTiers[req.tool]
    ensures Blocks(cfg, m, req, At(ToolScope)) <==> req.tool in cfg.motionTools && !NamesAnAct(cfg.upper(req.scope))
  {
  }

  // ---- confidence --------------------------------------------------------------------------

  /** The stated confidence is no less than this scope asks for: its listed number, or 0.95. */
  predicate Reaches(thresholds: Thresholds, confidence: real, scope: string) {
    confidence >= if scope in thresholds then thresholds[scope] else 0.95
  }

  /** A confidence must be stated and reach what its own scope asks for, and for a tool that moves the
      robot what each of the four motion scopes asks for. */
  lemma {:induction false} ConfidenceRefusals(cfg: Config, m: Memory, req: Request)
    ensures cfg.thresholds == None ==> !Blocks(cfg, m, req, At(ConfidenceThreshold))
    ensures cfg.thresholds.Some? ==>
              (!Blocks(cfg, m, req, At(ConfidenceThreshold)) <==>
                 && req.confidence.Some?
                 && Reaches(cfg.thresholds.value, req.confidence.value, cfg.upper(req.scope))
                 && (req.tool in cfg.motionTools ==>
                       && Reaches(cfg.thresholds.value, req.confidence.value, "MANIPULATE")
                       && Reaches(cfg.thresholds.value, req.confidence.value, "NAVIGATE")
                       && Reaches(cfg.thresholds.value, req.confidence.value, "ACTUATE")
                       && Reaches(cfg.thresholds.value, req.confidence.value, "EXECUTE")))
  {
  }

  // ---- human in the loop -------------------------------------------------------------------

  /** A manifest gate that asks for a human, and the scope it means. */
  predicate AsksFor(gate: ManifestGate, scope: string) {
    && gate.requireAuth
    && (|| (gate.scope == "destructive" && scope == "MANIPULATE")
        || (gate.scope == "system" && scope == "EXECUTE")
        || (gate.scope == "system" && scope == "ACTUATE")
        || (gate.scope == "commission" && scope == "COMMISSION"))
  }

  /** The policy in force names this scope: the manifest's own gates when the operator leaves it to
      them, else the operator's set, if there is one. */
  predicate PolicyNames(cfg: Config, req: Request, scope: string) {
    if cfg.hitlFromManifest then exists i | 0 <= i < |req.manifestGates| :: AsksFor(req.manifestGates[i], scope)
    else cfg.hitl.Some? && scope in cfg.hitl.value
  }

  /** The request's scope is named, or it moves the robot and some motion scope is. */
  ghost predicate NeedsHuman(cfg: Config, req: Request) {
    || PolicyNames(cfg, req, cfg.upper(req.scope))
    || (req.tool in cfg.motionTools && exists scope | OrdinaryMotion(scope) :: PolicyNames(cfg, req, scope))
  }

  /** The delegation chain ends with a human who was delegated this very scope, in any letter case. */
  predicate HumanVouches(cfg: Config, req: Request) {
    && |req.chain| > 0
    && var last := req.chain[|req.chain| - 1];
       last.human && last.scope.Some? && cfg.upper(last.scope.value) == cfg.upper(req.scope)
  }

  lemma {:induction false} CoveredMeans(gates: seq<ManifestGate>, scope: string)
    ensures scope in Covered(gates) <==> exists i | 0 <= i < |gates| :: AsksFor(gates[i], scope)
  {
    if i :| 0 <= i < |gates| && AsksFor(gates[i], scope) {
      assert scope in GateScopes(gates[i].scope);
    }
  }

  lemma {:induction false} InForceMeans(cfg: Config, req: Request, scope: string)
    ensures HitlInForce(cfg, req).Some? && scope in HitlInForce(cfg, req).value <==> PolicyNames(cfg, req, scope)
  {
    CoveredMeans(req.manifestGates, scope);
  }

  lemma {:induction false} SomeMotionNamed(required: set<string>)
    ensures required * MOTION_SCOPES != {} <==> exists scope | OrdinaryMotion(scope) :: scope in required
  {
    if scope :| OrdinaryMotion(scope) && scope in required {
      assert scope in required * MOTION_SCOPES;
    }
    if scope :| scope in required * MOTION_SCOPES {
      assert OrdinaryMotion(scope) && scope in required;
    }
  }

  lemma {:induction false} HumanRefusals(cfg: Config, m: Memory, req: Request)
    ensures Blocks(cfg, m, req, At(HitlMissing)) <==> NeedsHuman(cfg, req) && !HumanVouches(cfg, req)
  {
    forall scope ensures HitlInForce(cfg, req).Some? && scope in HitlInForce(cfg, req).value <==> PolicyNames(cfg, req, scope) {
      InForceMeans(cfg, req, scope);
    }
    if HitlInForce(cfg, req).Some? {
      SomeMotionNamed(HitlInForce(cfg, req).value);
    }
  }

  // ---- the whole pipeline ------------------------------------------------------------------

  /** Every stop before the envelope's shape, for a request that signatures are required of. */
  predicate SignedAndNew(cfg: Config, m: Memory, req: Request) {
    && req.signer.Some?
    && InTime(cfg, req)
    && req.msgId != "" && req.msgId !in m.seen && m.window >= 1
    && (cfg.checkRevocation && req.signer != Some("") ==>
          match Remembered(m, req.signer.value, req.now)
          case Some(revoked) => !revoked
          case None => req.revocation == Revocation.Says(false))
  }

  predicate TierSuffices(cfg: Config, req: Request) {
    var scope := cfg.upper(req.scope);
    && (NamesAnAct(scope) ==> req.tier != "read" && req.tier != "anon")
    && (scope == "COMMISSION" ==> req.tier == "commission")
    && (req.tool in cfg.toolTiers ==> req.tier in cfg.toolTiers[req.tool])
  }

  ghost predicate SureEnough(cfg: Config, req: Request) {
    cfg.thresholds.Some? ==>
      && req.confidence.Some?
      && Reaches(cfg.thresholds.value, req.confidence.value, cfg.upper(req.scope))
      && (req.tool in cfg.motionTools ==>
            forall scope | OrdinaryMotion(scope) :: Reaches(cfg.thresholds.value, req.confidence.value, scope))
  }

  lemma {:induction false} SureEnoughIff(cfg: Config, m: Memory, req: Request)
    ensures SureEnough(cfg, req) <==> !Blocks(cfg, m, req, At(ConfidenceThreshold))
  {
    ConfidenceRefusals(cfg, m, req);
    assert OrdinaryMotion("MANIPULATE") && OrdinaryMotion("NAVIGATE") && OrdinaryMotion("ACTUATE") && OrdinaryMotion("EXECUTE");
  }

  lemma {:induction false} SignedAndNewIff(cfg: Config, m: Memory, req: Request)
    requires cfg.requireSignature
    ensures SignedAndNew(cfg, m, req) <==>
              && !Blocks(cfg, m, req, At(EnvelopeSignature)) && !Blocks(cfg, m, req, At(EnvelopeFreshness))
              && !Blocks(cfg, m, req, At(ReplayedId)) && !Blocks(cfg, m, req, WindowError)
              && !Blocks(cfg, m, req, RevocationUnknown) && !Blocks(cfg, m, req, At(RevokedKey))
  {
    EnvelopeRefusals(cfg, m, req);
    KeyRefusals(cfg, m, req);
  }

  /** A request is dispatched exactly when all of this holds; the first part that fails is what
      stops it otherwise. */
  lemma {:induction false} DispatchedIff(cfg: Config, m: Memory, req: Request)
    ensures NothingBlocks(cfg, m, req) <==>
              && (cfg.safety ==> MayActuate(m, req.now))
              && (cfg.requireSignature ==> SignedAndNew(cfg, m, req))
              && req.wellFormed && req.manifestVerifies
              && (cfg.pinned ==> req.pinMatches) && (cfg.bindRrn ==> req.rrnMatches)
              && TierSuffices(cfg, req)
              && req.tool in cfg.allowlist
              && (req.tool in cfg.motionTools ==> NamesAnAct(cfg.upper(req.scope)))
              && SureEnough(cfg, req)
              && (NeedsHuman(cfg, req) ==> HumanVouches(cfg, req))
              && req.route == Chosen
  {
    EnvelopeRefusals(cfg, m, req);
    KeyRefusals(cfg, m, req);
    ManifestRefusals(cfg, m, req);
    ToolRefusals(cfg, m, req);
    SureEnoughIff(cfg, m, req);
    HumanRefusals(cfg, m, req);
    if cfg.requireSignature {
      SignedAndNewIff(cfg, m, req);
    }
    assert Blocks(cfg, m, req, NoSuchActuator) <==> req.route == UnknownActuator;
    assert Blocks(cfg, m, req, ActuatorUnclear) <==> req.route == NameRequired;
  }

  /** The order in which a request meets what can stop it. */
  const ORDER: seq<Stop> :=
    [At(SafetyState), At(EnvelopeSignature), At(EnvelopeFreshness), At(ReplayedId), WindowError, RevocationUnknown,
     At(RevokedKey), Schema, At(ManifestPin), At(ManifestProvenance), At(RrnBinding), At(TierPolicy),
     At(ToolAllowlist), At(ToolTier), At(ToolScope), At(ConfidenceThreshold), At(HitlMissing), NoSuchActuator,
     ActuatorUnclear, At(ActuatorPolicy)]

  lemma {:induction false} PlaceInOrder(s: Stop) returns (i: nat)
    ensures i < |ORDER| && ORDER[i] == s && Rank(s) == i
    ensures forall j | 0 <= j < |ORDER| :: Rank(ORDER[j]) == j
  {
    i := Rank(s);
  }

  /** The stop a request meets blocks it, and nothing before it in this order does. */
  lemma {:induction false} FirstInOrder(cfg: Config, m: Memory, req: Request, s: Stop)
    ensures StoppedFirst(cfg, m, req, s) <==>
              exists i :: 0 <= i < |ORDER| && ORDER[i] == s && Blocks(cfg, m, req, s) &&
                          forall j | 0 <= j < i :: !Blocks(cfg, m, req, ORDER[j])
  {
    var i := PlaceInOrder(s);
    if StoppedFirst(cfg, m, req, s) {
      assert forall j | 0 <= j < i :: !Blocks(cfg, m, req, ORDER[j]);
    }
    if forall j | 0 <= j < i :: !Blocks(cfg, m, req, ORDER[j]) {
      forall t: Stop | Rank(t) < Rank(s) ensures !Blocks(cfg, m, req, t) {
        var j := PlaceInOrder(t);
        assert ORDER[j] == t && j < i;
      }
    }
  }

  /** What is on record of a request, and when: nothing else is. */
  lemma {:induction false} RecordedIff(cfg: Config, req: Request, stop: Option<Stop>, e: Event)
    ensures e in EventsOf(cfg, req, stop) <==>
              match e {
                case IntentAttempted(id) => id == req.msgId && stop == None
                case IntentEntry(id) => id == req.msgId && stop == None && cfg.audited && req.writes.intentEntry
                case IntentLine(id) => id == req.msgId && stop == None && cfg.attested && req.writes.intentLine
                case Called(id) => id == req.msgId && stop == None
                case OutcomeEntry(id, denied) =>
                  id == req.msgId && cfg.audited && stop == if denied.Some? then Some(At(denied.value)) else None
                case OutcomeLine(id) =>
                  id == req.msgId && cfg.attested && req.writes.outcomeLine && (stop == None || stop.value.At?)
              }
  {
    if stop == None {
      assert EventsOf(cfg, req, stop) == IntentEvents(cfg, req) + [Called(req.msgId)] + OutcomeEvents(cfg, req, None);
    }
  }

  /** Whatever was called was called for a request with a human behind it, if the policy in force
      asks for one: over every run of the pipeline, no label gets around it. */
  lemma {:induction false} NoMotionWithoutItsHuman(cfg: Config, ms: seq<Memory>, batch: seq<Served>, k: nat) returns (i: nat)
    requires Session(cfg, ms, batch) && k < |Gateway.Log(cfg, batch)| && Gateway.Log(cfg, batch)[k].Called?
    ensures i < |batch| && batch[i].req.msgId == Gateway.Log(cfg, batch)[k].id
    ensures NeedsHuman(cfg, batch[i].req) ==> HumanVouches(cfg, batch[i].req)
    ensures TierSuffices(cfg, batch[i].req) && SureEnough(cfg, batch[i].req)
    ensures batch[i].req.tool in cfg.motionTools ==> NamesAnAct(cfg.upper(batch[i].req.scope))
  {
    EveryCallWasAnnounced(cfg, ms, batch, k);
    i :| 0 <= i < |batch| && batch[i].req.msgId == Gateway.Log(cfg, batch)[k].id && NothingBlocks(cfg, ms[i], batch[i].req);
    DispatchedIff(cfg, ms[i], batch[i].req);
  }
}
