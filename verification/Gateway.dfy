/** One pass through `/v1/invoke`: gates in order, intent record, dispatch, outcome record. */
module Gateway {
  import opened Trace
  import opened Gates
  import Replay
  import Revocation
  import Safety

  // ---- configuration and request -----------------------------------------------------------

  /** What the operator switched on. `audited`: there is an audit chain; `attested`: there is a
      signing identity and an export file. */
  datatype Config = Config(
    safety: bool, requireSignature: bool, freshness: Replay.Policy, checkRevocation: bool,
    pinned: bool, bindRrn: bool, allowlist: set<string>, toolTiers: map<string, set<string>>,
    motionTools: set<string>, thresholds: Option<Thresholds>, hitl: Option<set<string>>,
    hitlFromManifest: bool, upper: Upper, audited: bool, attested: bool)

  datatype Route = Chosen | UnknownActuator | NameRequired

  /** What the actuator does when it is called. */
  datatype Work = Succeeds | Fails | Raises | DeniesOnPolicy

  /** Which best-effort writes get through. */
  datatype Writes = Writes(intentEntry: bool, intentLine: bool, outcomeLine: bool)

  /** A request with the facts the libraries establish about it: who signed it if the signature
      holds, what the resolver would answer, whether it fits the schema and the pinned manifest,
      whether that manifest verifies, and where routing leads. */
  datatype Request = Request(
    msgId: string, now: real, nowMs: int, signer: Option<string>, stamp: Replay.Stamp,
    revocation: Revocation.Answer, wellFormed: bool, pinMatches: bool, manifestVerifies: bool,
    manifestGates: seq<ManifestGate>, rrnMatches: bool, tier: string, tool: string, scope: string,
    confidence: Option<real>, chain: seq<Hop>, route: Route, work: Work, writes: Writes)

  /** What the gateway remembers from request to request. */
  datatype Memory = Memory(monitor: Safety.Monitor, staleness: real, seen: seq<string>, window: int,
                           cache: Revocation.Cache, ttl: real)

  // ---- where a request can stop ------------------------------------------------------------

  datatype Gate =
    | SafetyState | EnvelopeSignature | EnvelopeFreshness | ReplayedId | RevokedKey | ManifestPin
    | ManifestProvenance | RrnBinding | TierPolicy | ToolAllowlist | ToolTier | ToolScope
    | ConfidenceThreshold | HitlMissing | ActuatorPolicy

  /** A gate's denial, or an exit that is no policy decision: a raised exception (500), a schema
      refusal (422) or a routing refusal (404, 422). */
  datatype Stop = At(gate: Gate) | WindowError | RevocationUnknown | Schema | NoSuchActuator | ActuatorUnclear

  function Rank(s: Stop): nat {
    match s
    case At(SafetyState) => 0
    case At(EnvelopeSignature) => 1
    case At(EnvelopeFreshness) => 2
    case At(ReplayedId) => 3
    case WindowError => 4
    case RevocationUnknown => 5
    case At(RevokedKey) => 6
    case Schema => 7
    case At(ManifestPin) => 8
    case At(ManifestProvenance) => 9
    case At(RrnBinding) => 10
    case At(TierPolicy) => 11
    case At(ToolAllowlist) => 12
    case At(ToolTier) => 13
    case At(ToolScope) => 14
    case At(ConfidenceThreshold) => 15
    case At(HitlMissing) => 16
    case NoSuchActuator => 17
    case ActuatorUnclear => 18
    case At(ActuatorPolicy) => 19
  }

  predicate IsMotion(cfg: Config, req: Request) {
    req.tool in cfg.motionTools
  }

  predicate AsksResolver(cfg: Config, req: Request) {
    cfg.requireSignature && cfg.checkRevocation && req.signer.Some? && req.signer.value != ""
  }

  function Revoked(m: Memory, req: Request): Revocation.Result
    requires req.signer.Some?
  {
    Revocation.Looked(m.cache, m.ttl, req.signer.value, req.now, req.revocation)
  }

  /** The human-in-the-loop policy in force for this request. */
  ghost function HitlInForce(cfg: Config, req: Request): Option<set<string>> {
    if cfg.hitlFromManifest then Some(Covered(req.manifestGates)) else cfg.hitl
  }

  ghost predicate LacksHuman(cfg: Config, req: Request) {
    && HitlInForce(cfg, req).Some?
    && !HitlAllows(cfg.upper, HitlInForce(cfg, req).value, req.scope, req.chain, IsMotion(cfg, req))
  }

  predicate LacksConfidence(cfg: Config, req: Request) {
    && cfg.thresholds.Some?
    && !ConfidenceAllows(cfg.upper, cfg.thresholds.value, req.confidence, req.scope, IsMotion(cfg, req))
  }

  /** Each stop on its own terms, as if the request had got that far. */
  ghost predicate Blocks(cfg: Config, m: Memory, req: Request, s: Stop) {
    match s
    case At(SafetyState) =>
      cfg.safety && !(m.monitor.state.Ready? && req.now - m.monitor.lastHeartbeat <= m.staleness)
    case At(EnvelopeSignature) => cfg.requireSignature && req.signer.None?
    case At(EnvelopeFreshness) => cfg.requireSignature && !Replay.Fresh(cfg.freshness, req.stamp, req.nowMs)
    case At(ReplayedId) => cfg.requireSignature && Replay.ReplayVerdict(m.seen, m.window, req.msgId).Refused?
    case WindowError => cfg.requireSignature && Replay.ReplayVerdict(m.seen, m.window, req.msgId).KeyError?
    case RevocationUnknown => AsksResolver(cfg, req) && !Revoked(m, req).Verdict?
    case At(RevokedKey) => AsksResolver(cfg, req) && Revoked(m, req) == Revocation.Verdict(true)
    case Schema => !req.wellFormed
    case At(ManifestPin) => cfg.pinned && !req.pinMatches
    case At(ManifestProvenance) => !req.manifestVerifies
    case At(RrnBinding) => cfg.bindRrn && !req.rrnMatches
    case At(TierPolicy) => !TierAllows(cfg.upper, req.tier, req.scope)
    case At(ToolAllowlist) => req.tool !in cfg.allowlist
    case At(ToolTier) => !ToolTierAllows(req.tool, req.tier, cfg.toolTiers)
    case At(ToolScope) => !ToolScopeAllows(cfg.upper, req.tool, req.scope, cfg.motionTools)
    case At(ConfidenceThreshold) => LacksConfidence(cfg, req)
    case At(HitlMissing) => LacksHuman(cfg, req)
    case NoSuchActuator => req.route.UnknownActuator?
    case ActuatorUnclear => req.route.NameRequired?
    case At(ActuatorPolicy) => false
  }

  /** No stop before this rank blocks. */
  ghost predicate ClearBefore(cfg: Config, m: Memory, req: Request, rank: nat) {
    forall s: Stop | Rank(s) < rank :: !Blocks(cfg, m, req, s)
  }

  /** The stop a request meets is the first that blocks; None when none does. */
  ghost predicate MeetsFirst(cfg: Config, m: Memory, req: Request, stop: Option<Stop>) {
    match stop
    case Some(s) => Blocks(cfg, m, req, s) && ClearBefore(cfg, m, req, Rank(s))
    case None => forall s: Stop :: !Blocks(cfg, m, req, s)
  }

  lemma RankIsInjective(a: Stop, b: Stop)
    requires Rank(a) == Rank(b)
    ensures a == b
  {
  }

  lemma MeetsOne(cfg: Config, m: Memory, req: Request, a: Option<Stop>, b: Option<Stop>)
    requires MeetsFirst(cfg, m, req, a) && MeetsFirst(cfg, m, req, b)
    ensures a == b
  {
    if a.Some? && b.Some? {
      assert !(Rank(a.value) < Rank(b.value)) && !(Rank(b.value) < Rank(a.value));
      RankIsInjective(a.value, b.value);
    }
  }

  /** The replay window afterwards: one id longer if the request got that far and was accepted. */
  ghost predicate WindowKept(cfg: Config, m: Memory, req: Request, seen: seq<string>) {
    seen == if cfg.requireSignature && ClearBefore(cfg, m, req, Rank(WindowError) + 1)
              then Replay.LastOf(m.seen, m.window - 1) + [req.msgId]
            else if cfg.requireSignature && MeetsFirst(cfg, m, req, Some(WindowError)) then []
            else m.seen
  }

  /** The revocation cache afterwards: an answer newer if the resolver was asked and gave one. */
  ghost predicate CacheKept(cfg: Config, m: Memory, req: Request, cache: Revocation.Cache) {
    cache == if AsksResolver(cfg, req) && ClearBefore(cfg, m, req, Rank(WindowError) + 1)
               then Revocation.CacheAfter(m.cache, m.ttl, req.signer.value, req.now, req.revocation)
             else m.cache
  }

  /** What the request leaves behind in the window and the cache. */
  ghost predicate Keeps(cfg: Config, m: Memory, req: Request, m': Memory) {
    && m'.staleness == m.staleness && m'.window == m.window && m'.ttl == m.ttl
    && WindowKept(cfg, m, req, m'.seen)
    && CacheKept(cfg, m, req, m'.cache)
  }

  /** What the request leaves behind in the gateway's memory. */
  ghost predicate Remembers(cfg: Config, m: Memory, req: Request, m': Memory) {
    && Keeps(cfg, m, req, m')
    && m'.monitor == (if cfg.safety then Safety.After(m.monitor, m.staleness, Safety.Tick(req.now)) else m.monitor)
  }

  lemma ClearNext(cfg: Config, m: Memory, req: Request, s: Stop)
    requires ClearBefore(cfg, m, req, Rank(s)) && !Blocks(cfg, m, req, s)
    ensures ClearBefore(cfg, m, req, Rank(s) + 1)
  {
    forall t: Stop | Rank(t) < Rank(s) + 1 ensures !Blocks(cfg, m, req, t) {
      if Rank(t) == Rank(s) {
        RankIsInjective(t, s);
      }
    }
  }

  /** No gate can block once routing has chosen: the actuator speaks for itself. */
  lemma AllClear(cfg: Config, m: Memory, req: Request)
    requires ClearBefore(cfg, m, req, Rank(At(ActuatorPolicy)))
    ensures MeetsFirst(cfg, m, req, None)
  {
    forall s: Stop ensures !Blocks(cfg, m, req, s) {
      if Rank(s) >= Rank(At(ActuatorPolicy)) {
        assert s == At(ActuatorPolicy);
      }
    }
  }

  /** A request stopped before the replay window changes neither the window nor the cache. */
  lemma Untouched(cfg: Config, m: Memory, req: Request, s: Stop)
    requires Blocks(cfg, m, req, s) && Rank(s) < Rank(WindowError)
    ensures WindowKept(cfg, m, req, m.seen) && CacheKept(cfg, m, req, m.cache)
  {
  }

  // ---- what is recorded --------------------------------------------------------------------

  datatype Event =
    | IntentAttempted(id: string)
    | IntentEntry(id: string)
    | IntentLine(id: string)
    | Called(id: string)
    | OutcomeEntry(id: string, denied: Option<Gate>)
    | OutcomeLine(id: string)

  function IntentEvents(cfg: Config, req: Request): seq<Event> {
    [IntentAttempted(req.msgId)]
    + (if cfg.audited && req.writes.intentEntry then [IntentEntry(req.msgId)] else [])
    + (if cfg.attested && req.writes.intentLine then [IntentLine(req.msgId)] else [])
  }

  function OutcomeEvents(cfg: Config, req: Request, denied: Option<Gate>): seq<Event> {
    (if cfg.audited then [OutcomeEntry(req.msgId, denied)] else [])
    + (if cfg.attested && req.writes.outcomeLine then [OutcomeLine(req.msgId)] else [])
  }

  /** Everything a request that met this stop puts on record, in order. */
  function EventsOf(cfg: Config, req: Request, stop: Option<Stop>): seq<Event> {
    match stop
    case None => IntentEvents(cfg, req) + [Called(req.msgId)] + OutcomeEvents(cfg, req, None)
    case Some(At(gate)) => OutcomeEvents(cfg, req, Some(gate))
    case Some(_) => []
  }

  datatype Response = Ok | Deny(gate: Gate) | Http(status: int)

  ghost predicate NothingBlocks(cfg: Config, m: Memory, req: Request) {
    forall s: Stop :: !Blocks(cfg, m, req, s)
  }

  /** This is the first thing in the request's way. */
  ghost predicate StoppedFirst(cfg: Config, m: Memory, req: Request, s: Stop) {
    Blocks(cfg, m, req, s) && ClearBefore(cfg, m, req, Rank(s))
  }

  /** The answer a request gets, by what was in its way and what the actuator did. */
  ghost predicate Answers(cfg: Config, m: Memory, req: Request, response: Response) {
    && (response == Ok <==> NothingBlocks(cfg, m, req) && req.work.Succeeds?)
    && (forall gate :: response == Deny(gate) <==>
          || StoppedFirst(cfg, m, req, At(gate))
          || (NothingBlocks(cfg, m, req) && req.work.DeniesOnPolicy? && gate == ActuatorPolicy))
    && (response == Http(404) <==> StoppedFirst(cfg, m, req, NoSuchActuator))
    && (response == Http(422) <==> StoppedFirst(cfg, m, req, Schema) || StoppedFirst(cfg, m, req, ActuatorUnclear))
    && (response == Http(500) <==>
          || StoppedFirst(cfg, m, req, WindowError) || StoppedFirst(cfg, m, req, RevocationUnknown)
          || (NothingBlocks(cfg, m, req) && (req.work.Fails? || req.work.Raises?)))
  }

  lemma {:induction false} OneStopFirst(cfg: Config, m: Memory, req: Request, stop: Option<Stop>, s: Stop)
    requires MeetsFirst(cfg, m, req, stop)
    ensures StoppedFirst(cfg, m, req, s) <==> stop == Some(s)
    ensures NothingBlocks(cfg, m, req) <==> stop == None
  {
    if StoppedFirst(cfg, m, req, s) {
      MeetsOne(cfg, m, req, stop, Some(s));
    }
  }

  /** What is in the way decides the answer, whatever it is read off. */
  lemma {:induction false} AnswerFits(cfg: Config, m: Memory, req: Request, stop: Option<Stop>)
    requires MeetsFirst(cfg, m, req, stop)
    ensures forall s :: StoppedFirst(cfg, m, req, s) <==> stop == Some(s)
    ensures NothingBlocks(cfg, m, req) <==> stop == None
  {
    forall s ensures StoppedFirst(cfg, m, req, s) <==> stop == Some(s) {
      OneStopFirst(cfg, m, req, stop, s);
    }
    OneStopFirst(cfg, m, req, stop, WindowError);
  }

  lemma CallIsRecorded(cfg: Config, req: Request)
    ensures Called(req.msgId) in EventsOf(cfg, req, None)
  {
    assert Called(req.msgId) == EventsOf(cfg, req, None)[|IntentEvents(cfg, req)|];
  }

  /** The handler and the objects it shares with every other request. */
  class Receiver {
    const cfg: Config
    const safety: Safety.SafetyMonitor
    const replay: Replay.ReplayCache
    const revocations: Revocation.RevocationCache
    var events: seq<Event>

    constructor (cfg: Config, safety: Safety.SafetyMonitor, replay: Replay.ReplayCache, revocations: Revocation.RevocationCache)
      ensures this.cfg == cfg && this.safety == safety && this.replay == replay && this.revocations == revocations
      ensures events == []
    {
      this.cfg, this.safety, this.replay, this.revocations := cfg, safety, replay, revocations;
      events := [];
    }

    function Remembered(): Memory
      reads safety, replay, revocations
    {
      Memory(safety.Value(), safety.staleness, replay.seen, replay.max, revocations.cache, revocations.ttl)
    }

    /** The envelope's signature, its freshness and its id. */
    method AdmitEnvelope(req: Request, ghost m: Memory) returns (stop: Option<Stop>)
      requires cfg.requireSignature && !Blocks(cfg, m, req, At(SafetyState))
      requires replay.seen == m.seen && replay.max == m.window
      modifies replay
      ensures stop.Some? ==> MeetsFirst(cfg, m, req, stop) && Rank(stop.value) <= Rank(WindowError)
      ensures stop.None? ==> req.signer.Some? && ClearBefore(cfg, m, req, Rank(RevocationUnknown))
      ensures WindowKept(cfg, m, req, replay.seen)
    {
      ClearNext(cfg, m, req, At(SafetyState));
      if req.signer.None? {
        stop := Some(At(EnvelopeSignature));
        Untouched(cfg, m, req, stop.value);
        return;
      }
      ClearNext(cfg, m, req, At(EnvelopeSignature));
      if !Replay.Fresh(cfg.freshness, req.stamp, req.nowMs) {
        stop := Some(At(EnvelopeFreshness));
        Untouched(cfg, m, req, stop.value);
        return;
      }
      ClearNext(cfg, m, req, At(EnvelopeFreshness));
      var verdict := replay.CheckReplay(req.msgId);
      if verdict.Refused? {
        stop := Some(At(ReplayedId));
        Untouched(cfg, m, req, stop.value);
        return;
      }
      ClearNext(cfg, m, req, At(ReplayedId));
      if verdict.KeyError? {
        assert Blocks(cfg, m, req, WindowError);
        return Some(WindowError);
      }
      ClearNext(cfg, m, req, WindowError);
      return None;
    }

    /** Whether the signing key is revoked, for an envelope that passed so far. */
    method AdmitKey(req: Request, ghost m: Memory) returns (stop: Option<Stop>)
      requires cfg.requireSignature && req.signer.Some? && ClearBefore(cfg, m, req, Rank(RevocationUnknown))
      requires revocations.cache == m.cache && revocations.ttl == m.ttl
      modifies revocations
      ensures stop.Some? ==> MeetsFirst(cfg, m, req, stop) && Rank(stop.value) < Rank(Schema)
      ensures stop.None? ==> ClearBefore(cfg, m, req, Rank(Schema))
      ensures CacheKept(cfg, m, req, revocations.cache)
    {
      if cfg.checkRevocation && req.signer.value != "" {
        var r := revocations.IsRevoked(req.signer.value, req.now, req.revocation);
        if !r.Verdict? {
          return Some(RevocationUnknown);
        }
        ClearNext(cfg, m, req, RevocationUnknown);
        if r.revoked {
          return Some(At(RevokedKey));
        }
      } else {
        ClearNext(cfg, m, req, RevocationUnknown);
      }
      ClearNext(cfg, m, req, At(RevokedKey));
      return None;
    }

    /** Signature, freshness, replay and revocation, when signatures are required. */
    method AdmitSigned(req: Request, ghost m: Memory) returns (stop: Option<Stop>)
      requires cfg.requireSignature && !Blocks(cfg, m, req, At(SafetyState))
      requires replay.seen == m.seen && replay.max == m.window
      requires revocations.cache == m.cache && revocations.ttl == m.ttl
      modifies replay, revocations
      ensures stop.Some? ==> MeetsFirst(cfg, m, req, stop) && Rank(stop.value) < Rank(Schema)
      ensures stop.None? ==> ClearBefore(cfg, m, req, Rank(Schema))
      ensures WindowKept(cfg, m, req, replay.seen)
      ensures CacheKept(cfg, m, req, revocations.cache)
    {
      stop := AdmitEnvelope(req, m);
      if stop.None? {
        stop := AdmitKey(req, m);
      }
    }

    /** The gates that keep state. */
    method Admit(req: Request) returns (stop: Option<Stop>)
      modifies safety, replay, revocations
      ensures stop.Some? ==> MeetsFirst(cfg, old(Remembered()), req, stop) && Rank(stop.value) < Rank(Schema)
      ensures stop.None? ==> ClearBefore(cfg, old(Remembered()), req, Rank(Schema))
      ensures Remembers(cfg, old(Remembered()), req, Remembered())
    {
      ghost var m := Remembered();
      if cfg.safety {
        var ok := safety.Admits(req.now);
        if !ok {
          assert Blocks(cfg, m, req, At(SafetyState));
          return Some(At(SafetyState));
        }
      }
      assert !Blocks(cfg, m, req, At(SafetyState));
      if cfg.requireSignature {
        stop := AdmitSigned(req, m);
      } else {
        stop := None;
      }
    }

    /** The envelope's shape and the manifest behind it. */
    method JudgeManifest(req: Request, ghost m: Memory) returns (stop: Option<Stop>)
      requires ClearBefore(cfg, m, req, Rank(Schema))
      ensures stop.Some? ==> MeetsFirst(cfg, m, req, stop)
      ensures stop.None? ==> ClearBefore(cfg, m, req, Rank(At(TierPolicy)))
    {
      if !req.wellFormed {
        return Some(Schema);
      }
      ClearNext(cfg, m, req, Schema);
      if cfg.pinned && !req.pinMatches {
        return Some(At(ManifestPin));
      }
      ClearNext(cfg, m, req, At(ManifestPin));
      if !req.manifestVerifies {
        return Some(At(ManifestProvenance));
      }
      ClearNext(cfg, m, req, At(ManifestProvenance));
      if cfg.bindRrn && !req.rrnMatches {
        return Some(At(RrnBinding));
      }
      ClearNext(cfg, m, req, At(RrnBinding));
      return None;
    }

    /** Tier, allowlist, tier per tool and scope per tool. */
    method JudgeTool(req: Request, ghost m: Memory) returns (stop: Option<Stop>)
      requires ClearBefore(cfg, m, req, Rank(At(TierPolicy)))
      ensures stop.Some? ==> MeetsFirst(cfg, m, req, stop)
      ensures stop.None? ==> ClearBefore(cfg, m, req, Rank(At(ConfidenceThreshold)))
    {
      if !TierAllows(cfg.upper, req.tier, req.scope) {
        return Some(At(TierPolicy));
      }
      ClearNext(cfg, m, req, At(TierPolicy));
      if req.tool !in cfg.allowlist {
        return Some(At(ToolAllowlist));
      }
      ClearNext(cfg, m, req, At(ToolAllowlist));
      if !ToolTierAllows(req.tool, req.tier, cfg.toolTiers) {
        return Some(At(ToolTier));
      }
      ClearNext(cfg, m, req, At(ToolTier));
      if !ToolScopeAllows(cfg.upper, req.tool, req.scope, cfg.motionTools) {
        return Some(At(ToolScope));
      }
      ClearNext(cfg, m, req, At(ToolScope));
      return None;
    }

    /** Confidence, then the human in the loop. */
    method JudgeMotion(req: Request, ghost m: Memory) returns (stop: Option<Stop>)
      requires ClearBefore(cfg, m, req, Rank(At(ConfidenceThreshold)))
      ensures stop.Some? ==> MeetsFirst(cfg, m, req, stop)
      ensures stop.None? ==> ClearBefore(cfg, m, req, Rank(NoSuchActuator))
    {
      var isMotion := req.tool in cfg.motionTools;
      if cfg.thresholds.Some? && !ConfidenceAllows(cfg.upper, cfg.thresholds.value, req.confidence, req.scope, isMotion) {
        return Some(At(ConfidenceThreshold));
      }
      ClearNext(cfg, m, req, At(ConfidenceThreshold));
      var effective := cfg.hitl;
      if cfg.hitlFromManifest {
        var scopes := FromManifestGates(req.manifestGates);
        effective := Some(scopes);
      }
      if effective.Some? && !HitlAllows(cfg.upper, effective.value, req.scope, req.chain, isMotion) {
        return Some(At(HitlMissing));
      }
      ClearNext(cfg, m, req, At(HitlMissing));
      return None;
    }

    /** Where the request is routed. */
    method JudgeRoute(req: Request, ghost m: Memory) returns (stop: Option<Stop>)
      requires ClearBefore(cfg, m, req, Rank(NoSuchActuator))
      ensures MeetsFirst(cfg, m, req, stop)
    {
      if req.route.UnknownActuator? {
        return Some(NoSuchActuator);
      }
      ClearNext(cfg, m, req, NoSuchActuator);
      if req.route.NameRequired? {
        return Some(ActuatorUnclear);
      }
      ClearNext(cfg, m, req, ActuatorUnclear);
      AllClear(cfg, m, req);
      return None;
    }

    /** The gates that only read the request and the configuration, then routing. */
    method Judge(req: Request, ghost m: Memory) returns (stop: Option<Stop>)
      requires ClearBefore(cfg, m, req, Rank(Schema))
      ensures MeetsFirst(cfg, m, req, stop)
    {
      stop := JudgeManifest(req, m);
      if stop.None? {
        stop := JudgeTool(req, m);
      }
      if stop.None? {
        stop := JudgeMotion(req, m);
      }
      if stop.None? {
        stop := JudgeRoute(req, m);
      }
    }

    method RecordIntent(req: Request)
      modifies this
      ensures events == old(events) + IntentEvents(cfg, req)
    {
      events := events + [IntentAttempted(req.msgId)];
      if cfg.audited && req.writes.intentEntry {
        events := events + [IntentEntry(req.msgId)];
      }
      if cfg.attested && req.writes.intentLine {
        events := events + [IntentLine(req.msgId)];
      }
    }

    method RecordOutcome(req: Request, denied: Option<Gate>)
      modifies this
      ensures events == old(events) + OutcomeEvents(cfg, req, denied)
    {
      if cfg.audited {
        events := events + [OutcomeEntry(req.msgId, denied)];
      }
      if cfg.attested && req.writes.outcomeLine {
        events := events + [OutcomeLine(req.msgId)];
      }
    }

    method Execute(req: Request) returns (work: Work)
      modifies this
      ensures events == old(events) + [Called(req.msgId)] && work == req.work
    {
      events := events + [Called(req.msgId)];
      work := req.work;
    }

    /** `_invoke` */
    method Invoke(req: Request) returns (response: Response, ghost stop: Option<Stop>)
      modifies this, safety, replay, revocations
      ensures MeetsFirst(cfg, old(Remembered()), req, stop)
      ensures Remembers(cfg, old(Remembered()), req, Remembered())
      ensures events == old(events) + EventsOf(cfg, req, stop)
      ensures Answers(cfg, old(Remembered()), req, response)
      ensures response == Ok ==> Called(req.msgId) in events[|old(events)|..]
    {
      ghost var m, before := Remembered(), events;
      var met := Admit(req);
      if met.None? {
        met := Judge(req, m);
      }
      stop := met;
      AnswerFits(cfg, m, req, stop);
      if met.Some? {
        match met.value {
          case At(gate) =>
            RecordOutcome(req, Some(gate));
            response := Deny(gate);
          case Schema | ActuatorUnclear =>
            response := Http(422);
          case NoSuchActuator =>
            response := Http(404);
          case _ =>
            response := Http(500);
        }
        assert events == before + EventsOf(cfg, req, stop);
        return;
      }
      RecordIntent(req);
      var work := Execute(req);
      RecordOutcome(req, None);
      assert events == before + EventsOf(cfg, req, None);
      CallIsRecorded(cfg, req);
      match work {
        case Succeeds => response := Ok;
        case DeniesOnPolicy => response := Deny(ActuatorPolicy);
        case _ => response := Http(500);
      }
    }
  }

  // ---- what the record proves --------------------------------------------------------------

  /** Every gate the operator enabled passes. */
  ghost predicate EveryGatePasses(cfg: Config, m: Memory, req: Request) {
    forall gate: Gate :: !Blocks(cfg, m, req, At(gate))
  }

  function CountCalls(events: seq<Event>): nat {
    if events == [] then 0
    else CountCalls(events[..|events| - 1]) + if events[|events| - 1].Called? then 1 else 0
  }

  predicate IsOutcome(e: Event) {
    e.OutcomeEntry? || e.OutcomeLine?
  }

  /** The intent was attempted before this position, and only outcome records come after it. */
  predicate FramedCall(es: seq<Event>, k: nat, id: string)
    requires k < |es|
  {
    && es[k].Called?
    && k > 0 && es[0] == IntentAttempted(id)
    && (forall j | 0 <= j < k :: !IsOutcome(es[j]))
    && (forall j | k < j < |es| :: IsOutcome(es[j]))
  }

  lemma IntentEventsShape(cfg: Config, req: Request)
    ensures var es := IntentEvents(cfg, req);
            es != [] && es[0] == IntentAttempted(req.msgId) && forall j | 0 <= j < |es| :: !es[j].Called? && !IsOutcome(es[j])
  {
  }

  lemma OutcomeEventsShape(cfg: Config, req: Request, denied: Option<Gate>)
    ensures forall e | e in OutcomeEvents(cfg, req, denied) :: IsOutcome(e)
  {
  }

  lemma {:induction false} Framed(before: seq<Event>, id: string, after: seq<Event>)
    requires before != [] && before[0] == IntentAttempted(id)
    requires forall j | 0 <= j < |before| :: !before[j].Called? && !IsOutcome(before[j])
    requires forall e | e in after :: IsOutcome(e)
    ensures CountCalls(before + [Called(id)] + after) == 1
    ensures FramedCall(before + [Called(id)] + after, |before|, id)
  {
    var call := [Called(id)];
    var es := before + call + after;
    CountAppend(before, call);
    CountAppend(before + call, after);
    NoCalls(before);
    assert forall j | 0 <= j < |after| :: after[j] in after;
    NoCalls(after);
    assert call[..0] == [];
    assert forall j | 0 <= j < |before| :: es[j] == before[j];
    assert forall j | |before| < j < |es| :: es[j] == after[j - |before| - 1] && es[j] in after;
  }

  lemma OutcomesAreNoCalls(es: seq<Event>)
    requires forall e | e in es :: IsOutcome(e)
    ensures CountCalls(es) == 0
  {
    assert forall k | 0 <= k < |es| :: es[k] in es;
    NoCalls(es);
  }

  lemma {:induction false} StoppedNeverCalls(cfg: Config, req: Request, s: Stop)
    ensures CountCalls(EventsOf(cfg, req, Some(s))) == 0
  {
    if s.At? {
      OutcomeEventsShape(cfg, req, Some(s.gate));
      OutcomesAreNoCalls(OutcomeEvents(cfg, req, Some(s.gate)));
    }
  }

  /** The actuator is called at most once, and only when every enabled gate passed and routing chose
      it; the intent was attempted before the call, and the outcome records come after it. */
  lemma {:induction false} CalledOnlyAfterTheGates(cfg: Config, m: Memory, req: Request, stop: Option<Stop>)
    requires MeetsFirst(cfg, m, req, stop)
    ensures var es := EventsOf(cfg, req, stop);
            if CountCalls(es) > 0 then
              && EveryGatePasses(cfg, m, req) && req.route.Chosen?
              && CountCalls(es) == 1
              && exists k: nat | k < |es| :: FramedCall(es, k, req.msgId)
            else stop.Some?
  {
    if stop.Some? {
      StoppedNeverCalls(cfg, req, stop.value);
    } else {
      IntentEventsShape(cfg, req);
      OutcomeEventsShape(cfg, req, None);
      Framed(IntentEvents(cfg, req), req.msgId, OutcomeEvents(cfg, req, None));
      assert !Blocks(cfg, m, req, NoSuchActuator) && !Blocks(cfg, m, req, ActuatorUnclear);
    }
  }

  lemma {:induction false} CountAppend(a: seq<Event>, b: seq<Event>)
    ensures CountCalls(a + b) == CountCalls(a) + CountCalls(b)
  {
    if b == [] {
      assert a + b == a;
    } else {
      CountAppend(a, b[..|b| - 1]);
      assert (a + b)[..|a + b| - 1] == a + b[..|b| - 1];
    }
  }

  lemma {:induction false} NoCalls(es: seq<Event>)
    requires forall k | 0 <= k < |es| :: !es[k].Called?
    ensures CountCalls(es) == 0
  {
    if es != [] {
      NoCalls(es[..|es| - 1]);
    }
  }

  /** The same request under another label, with the delegation chain's last hop relabelled to match. */
  function UnderLabel(req: Request, scope: string): Request {
    req.(scope := scope, chain := Relabelled(req.chain, scope))
  }

  lemma OtherGatesIgnoreTheLabel(cfg: Config, m: Memory, req: Request, scope: string, s: Stop)
    requires s !in {At(TierPolicy), At(ToolScope), At(ConfidenceThreshold), At(HitlMissing)}
    ensures Blocks(cfg, m, UnderLabel(req, scope), s) == Blocks(cfg, m, req, s)
  {
  }

  lemma LabelGates(cfg: Config, req: Request, scope: string)
    requires IsMotion(cfg, req) && cfg.upper(scope) in MOTION_SCOPES
    requires ToolScopeAllows(cfg.upper, req.tool, req.scope, cfg.motionTools)
    ensures var to := UnderLabel(req, scope);
            && ToolScopeAllows(cfg.upper, to.tool, to.scope, cfg.motionTools)
            && (TierAllows(cfg.upper, req.tier, req.scope) ==> TierAllows(cfg.upper, to.tier, to.scope))
            && (!LacksConfidence(cfg, req) ==> !LacksConfidence(cfg, to))
            && (!LacksHuman(cfg, req) ==> !LacksHuman(cfg, to))
  {
    var thresholds := if cfg.thresholds.Some? then cfg.thresholds.value else map[];
    var required := if HitlInForce(cfg, req).Some? then HitlInForce(cfg, req).value else {};
    assert HitlInForce(cfg, UnderLabel(req, scope)) == HitlInForce(cfg, req);
    NoLabelBuysAnything(cfg.upper, req.tier, req.tool, req.scope, scope, cfg.motionTools, thresholds,
                        req.confidence, required, req.chain);
  }

  /** A motion that is let through under one scope label is let through under every motion scope in
      any letter case, whatever the thresholds, human-in-the-loop policy and tier. */
  lemma NoLabelOpensTheGateway(cfg: Config, m: Memory, req: Request, scope: string)
    requires IsMotion(cfg, req) && cfg.upper(scope) in MOTION_SCOPES
    requires MeetsFirst(cfg, m, req, None)
    ensures MeetsFirst(cfg, m, UnderLabel(req, scope), None)
  {
    assert !Blocks(cfg, m, req, At(ToolScope)) && !Blocks(cfg, m, req, At(TierPolicy));
    assert !Blocks(cfg, m, req, At(ConfidenceThreshold)) && !Blocks(cfg, m, req, At(HitlMissing));
    LabelGates(cfg, req, scope);
    forall s: Stop ensures !Blocks(cfg, m, UnderLabel(req, scope), s) {
      assert !Blocks(cfg, m, req, s);
      if s !in {At(TierPolicy), At(ToolScope), At(ConfidenceThreshold), At(HitlMissing)} {
        OtherGatesIgnoreTheLabel(cfg, m, req, scope, s);
      }
    }
  }

  predicate IsOutcomeEntry(e: Event) {
    e.OutcomeEntry?
  }

  function Tally(events: seq<Event>, counts: Event -> bool): nat {
    if events == [] then 0
    else Tally(events[..|events| - 1], counts) + if counts(events[|events| - 1]) then 1 else 0
  }

  lemma {:induction false} TallyAppend(a: seq<Event>, b: seq<Event>, counts: Event -> bool)
    ensures Tally(a + b, counts) == Tally(a, counts) + Tally(b, counts)
  {
    if b == [] {
      assert a + b == a;
    } else {
      TallyAppend(a, b[..|b| - 1], counts);
      assert (a + b)[..|a + b| - 1] == a + b[..|b| - 1];
    }
  }

  lemma TallyOne(e: Event, counts: Event -> bool)
    ensures Tally([e], counts) == if counts(e) then 1 else 0
  {
    assert [e][..0] == [];
  }

  lemma {:induction false} TallyOutcome(cfg: Config, req: Request, denied: Option<Gate>, counts: Event -> bool)
    ensures Tally(OutcomeEvents(cfg, req, denied), counts) ==
            (if cfg.audited && counts(OutcomeEntry(req.msgId, denied)) then 1 else 0)
            + if cfg.attested && req.writes.outcomeLine && counts(OutcomeLine(req.msgId)) then 1 else 0
  {
    var entry := if cfg.audited then [OutcomeEntry(req.msgId, denied)] else [];
    var line := if cfg.attested && req.writes.outcomeLine then [OutcomeLine(req.msgId)] else [];
    TallyOne(OutcomeEntry(req.msgId, denied), counts);
    TallyOne(OutcomeLine(req.msgId), counts);
    TallyAppend(entry, line, counts);
  }

  lemma {:induction false} TallyNone(es: seq<Event>, counts: Event -> bool)
    requires forall k | 0 <= k < |es| :: !counts(es[k])
    ensures Tally(es, counts) == 0
  {
    if es != [] {
      TallyNone(es[..|es| - 1], counts);
    }
  }

  /** An audited request leaves exactly one outcome entry if it was dispatched or a gate denied it,
      and none if it was refused for any other reason; a denial leaves nothing but outcome records,
      and such a refusal nothing at all. */
  lemma {:induction false} OneOutcomeEach(cfg: Config, req: Request, stop: Option<Stop>)
    requires cfg.audited
    ensures var es := EventsOf(cfg, req, stop);
            && Tally(es, IsOutcomeEntry) == (if stop.None? || stop.value.At? then 1 else 0)
            && (stop.Some? && stop.value.At? ==> forall e | e in es :: IsOutcome(e))
            && (stop.Some? && !stop.value.At? ==> es == [])
  {
    var counts := IsOutcomeEntry;
    match stop {
      case Some(At(gate)) =>
        TallyOutcome(cfg, req, Some(gate), counts);
        OutcomeEventsShape(cfg, req, Some(gate));
      case Some(_) =>
      case None =>
        var before := IntentEvents(cfg, req);
        assert forall k | 0 <= k < |before| :: !counts(before[k]);
        TallyNone(before, counts);
        TallyOne(Called(req.msgId), counts);
        TallyOutcome(cfg, req, None, counts);
        TallyAppend(before, [Called(req.msgId)], counts);
        TallyAppend(before + [Called(req.msgId)], OutcomeEvents(cfg, req, None), counts);
    }
  }

  // ---- whole sessions ----------------------------------------------------------------------

  /** One request with where it stopped. */
  datatype Served = Served(req: Request, stop: Option<Stop>)

  function Log(cfg: Config, batch: seq<Served>): seq<Event> {
    if batch == [] then []
    else Log(cfg, batch[..|batch| - 1]) + EventsOf(cfg, batch[|batch| - 1].req, batch[|batch| - 1].stop)
  }

  /** Requests handled one after another, each with the window and the cache the one before it left;
      heartbeats, trips and clears may reach the monitor at any time. */
  ghost predicate Session(cfg: Config, ms: seq<Memory>, batch: seq<Served>) {
    && |ms| == |batch| + 1
    && forall i | 0 <= i < |batch| ::
         MeetsFirst(cfg, ms[i], batch[i].req, batch[i].stop) && Keeps(cfg, ms[i], batch[i].req, ms[i + 1])
  }

  /** Some gate is the first thing in the way. */
  ghost predicate AGateBlocks(cfg: Config, m: Memory, req: Request) {
    exists gate: Gate :: Blocks(cfg, m, req, At(gate)) && ClearBefore(cfg, m, req, Rank(At(gate)))
  }

  /** How many of the requests nothing blocked, and how many a gate did. */
  ghost function Cleared(cfg: Config, ms: seq<Memory>, batch: seq<Served>): nat
    requires |ms| == |batch| + 1
  {
    if batch == [] then 0
    else
      var n := |batch| - 1;
      Cleared(cfg, ms[..n + 1], batch[..n]) + if NothingBlocks(cfg, ms[n], batch[n].req) then 1 else 0
  }

  ghost function Denials(cfg: Config, ms: seq<Memory>, batch: seq<Served>): nat
    requires |ms| == |batch| + 1
  {
    if batch == [] then 0
    else
      var n := |batch| - 1;
      Denials(cfg, ms[..n + 1], batch[..n]) + if AGateBlocks(cfg, ms[n], batch[n].req) then 1 else 0
  }

  lemma {:induction false} SessionFront(cfg: Config, ms: seq<Memory>, batch: seq<Served>)
    requires Session(cfg, ms, batch) && batch != []
    ensures Session(cfg, ms[..|batch|], batch[..|batch| - 1])
  {
  }

  lemma {:induction false} StopSaysWhy(cfg: Config, m: Memory, req: Request, stop: Option<Stop>)
    requires MeetsFirst(cfg, m, req, stop)
    ensures stop.None? <==> NothingBlocks(cfg, m, req)
    ensures stop.Some? && stop.value.At? <==> AGateBlocks(cfg, m, req)
  {
    if AGateBlocks(cfg, m, req) {
      var gate: Gate :| Blocks(cfg, m, req, At(gate)) && ClearBefore(cfg, m, req, Rank(At(gate)));
      MeetsOne(cfg, m, req, stop, Some(At(gate)));
    }
  }

  lemma {:induction false} CallsOfOne(cfg: Config, req: Request, stop: Option<Stop>)
    ensures CountCalls(EventsOf(cfg, req, stop)) == if stop.None? then 1 else 0
  {
    if stop.Some? {
      StoppedNeverCalls(cfg, req, stop.value);
    } else {
      IntentEventsShape(cfg, req);
      OutcomeEventsShape(cfg, req, None);
      Framed(IntentEvents(cfg, req), req.msgId, OutcomeEvents(cfg, req, None));
    }
  }

  /** Over a whole session, from any memory: the actuator was called once for every request that
      nothing blocked and for no other, and the audit chain got one outcome entry for each of these
      and for each request that a gate denied. */
  lemma {:induction false} SessionAccounts(cfg: Config, ms: seq<Memory>, batch: seq<Served>)
    requires Session(cfg, ms, batch)
    ensures CountCalls(Log(cfg, batch)) == Cleared(cfg, ms, batch)
    ensures cfg.audited ==> Tally(Log(cfg, batch), IsOutcomeEntry) == Cleared(cfg, ms, batch) + Denials(cfg, ms, batch)
  {
    if batch != [] {
      var n := |batch| - 1;
      var req, stop := batch[n].req, batch[n].stop;
      SessionFront(cfg, ms, batch);
      SessionAccounts(cfg, ms[..n + 1], batch[..n]);
      StopSaysWhy(cfg, ms[n], req, stop);
      CallsOfOne(cfg, req, stop);
      CountAppend(Log(cfg, batch[..n]), EventsOf(cfg, req, stop));
      TallyAppend(Log(cfg, batch[..n]), EventsOf(cfg, req, stop), IsOutcomeEntry);
      if cfg.audited {
        OneOutcomeEach(cfg, req, stop);
      }
    }
  }

  /** The intent of this call was attempted at position j, and nothing was called in between. */
  predicate Announced(log: seq<Event>, j: nat, k: nat)
    requires k < |log| && log[k].Called?
  {
    j < k && log[j] == IntentAttempted(log[k].id) && forall l | j < l < k :: !log[l].Called?
  }

  lemma {:induction false} CallIsAnnounced(cfg: Config, req: Request, stop: Option<Stop>, k: nat)
    requires k < |EventsOf(cfg, req, stop)| && EventsOf(cfg, req, stop)[k].Called?
    ensures stop.None? && EventsOf(cfg, req, stop)[k].id == req.msgId && Announced(EventsOf(cfg, req, stop), 0, k)
  {
    IntentEventsShape(cfg, req);
    OutcomeEventsShape(cfg, req, if stop.Some? && stop.value.At? then Some(stop.value.gate) else None);
  }

  lemma AnnouncedBefore(front: seq<Event>, es: seq<Event>, j: nat, k: nat)
    requires k < |front| && front[k].Called? && Announced(front, j, k)
    ensures Announced(front + es, j, k)
  {
  }

  lemma AnnouncedAfter(front: seq<Event>, es: seq<Event>, k: nat)
    requires k < |es| && es[k].Called? && Announced(es, 0, k)
    ensures (front + es)[|front| + k] == es[k] && Announced(front + es, |front|, |front| + k)
  {
    var log := front + es;
    assert forall l | |front| <= l < |log| :: log[l] == es[l - |front|];
  }

  /** In every session, every call of the actuator was made for a request nothing blocked, and its
      intent was attempted before it, with no other call in between. */
  lemma {:induction false} EveryCallWasAnnounced(cfg: Config, ms: seq<Memory>, batch: seq<Served>, k: nat)
    requires Session(cfg, ms, batch) && k < |Log(cfg, batch)| && Log(cfg, batch)[k].Called?
    ensures exists i | 0 <= i < |batch| :: batch[i].req.msgId == Log(cfg, batch)[k].id && NothingBlocks(cfg, ms[i], batch[i].req)
    ensures exists j: nat :: Announced(Log(cfg, batch), j, k)
  {
    var n := |batch| - 1;
    var front, es := Log(cfg, batch[..n]), EventsOf(cfg, batch[n].req, batch[n].stop);
    assert Log(cfg, batch) == front + es;
    SessionFront(cfg, ms, batch);
    if k < |front| {
      EveryCallWasAnnounced(cfg, ms[..n + 1], batch[..n], k);
      var j: nat :| Announced(front, j, k);
      AnnouncedBefore(front, es, j, k);
    } else {
      CallIsAnnounced(cfg, batch[n].req, batch[n].stop, k - |front|);
      StopSaysWhy(cfg, ms[n], batch[n].req, batch[n].stop);
      AnnouncedAfter(front, es, k - |front|);
    }
  }

  // ---- a batch and its export --------------------------------------------------------------

  /** A conformance case: the msg_id it sends and whether 200 is expected. */
  datatype Case = Case(id: string, expectOk: bool)

  datatype Counts = Counts(intent: nat, outcome: nat)

  function CountsFor(cases: seq<Case>, id: string): Counts {
    if cases == [] then Counts(0, 0)
    else
      var rest, last := CountsFor(cases[..|cases| - 1], id), cases[|cases| - 1];
      if last.id != id then rest
      else Counts(rest.intent + if last.expectOk then 1 else 0, rest.outcome + 1)
  }

  /** `expected_export_counts` */
  method ExpectedExportCounts(cases: seq<Case>) returns (want: map<string, Counts>)
    ensures want.Keys == set i | 0 <= i < |cases| :: cases[i].id
    ensures forall id | id in want :: want[id] == CountsFor(cases, id)
  {
    want := map[];
    assert cases[..|cases|] == cases;
    for i := 0 to |cases|
      invariant want.Keys == set j | 0 <= j < i :: cases[j].id
      invariant forall id :: (if id in want then want[id] else Counts(0, 0)) == CountsFor(cases[..i], id)
    {
      assert cases[..i + 1][..i] == cases[..i];
      var id := cases[i].id;
      var slot := if id in want then want[id] else Counts(0, 0);
      slot := slot.(outcome := slot.outcome + 1);
      if cases[i].expectOk {
        slot := slot.(intent := slot.intent + 1);
      }
      want := want[id := slot];
    }
  }

  function Equals(e: Event): Event -> bool {
    x => x == e
  }

  /** A log holds this many intent and outcome lines under an id. */
  ghost predicate Holds(events: seq<Event>, id: string, intents: int, outcomes: int) {
    Tally(events, Equals(IntentLine(id))) == intents && Tally(events, Equals(OutcomeLine(id))) == outcomes
  }

  lemma {:induction false} HoldsAppend(a: seq<Event>, b: seq<Event>, id: string, i: int, o: int, j: int, p: int)
    requires Holds(a, id, i, o) && Holds(b, id, j, p)
    ensures Holds(a + b, id, i + j, o + p)
  {
    TallyAppend(a, b, Equals(IntentLine(id)));
    TallyAppend(a, b, Equals(OutcomeLine(id)));
  }

  /** The answer matches the case, and a refusal is a recorded gate's. */
  predicate AsExpected(s: Served, c: Case) {
    && s.req.msgId == c.id
    && s.req.writes == Writes(true, true, true)
    && (c.expectOk ==> s.stop.None?)
    && (!c.expectOk ==> s.stop.Some? && s.stop.value.At?)
  }

  lemma {:induction false} TallyIntent(cfg: Config, req: Request, counts: Event -> bool)
    requires !counts(IntentAttempted(req.msgId)) && !counts(IntentEntry(req.msgId)) && cfg.attested && req.writes.intentLine
    ensures Tally(IntentEvents(cfg, req), counts) == if counts(IntentLine(req.msgId)) then 1 else 0
  {
    var start := [IntentAttempted(req.msgId)];
    var entry := if cfg.audited && req.writes.intentEntry then [IntentEntry(req.msgId)] else [];
    TallyNone(start + entry, counts);
    TallyOne(IntentLine(req.msgId), counts);
    TallyAppend(start + entry, [IntentLine(req.msgId)], counts);
  }

  lemma {:induction false} LinesOfIntent(cfg: Config, req: Request, id: string)
    requires cfg.attested && req.writes.intentLine
    ensures Holds(IntentEvents(cfg, req), id, if req.msgId == id then 1 else 0, 0)
  {
    TallyIntent(cfg, req, Equals(IntentLine(id)));
    TallyIntent(cfg, req, Equals(OutcomeLine(id)));
  }

  lemma {:induction false} LinesOfOutcome(cfg: Config, req: Request, denied: Option<Gate>, id: string)
    requires cfg.attested && req.writes.outcomeLine
    ensures Holds(OutcomeEvents(cfg, req, denied), id, 0, if req.msgId == id then 1 else 0)
  {
    TallyOutcome(cfg, req, denied, Equals(IntentLine(id)));
    TallyOutcome(cfg, req, denied, Equals(OutcomeLine(id)));
  }

  lemma {:induction false} HoldsAround(before: seq<Event>, called: string, after: seq<Event>, id: string, n: int)
    requires Holds(before, id, n, 0) && Holds(after, id, 0, n)
    ensures Holds(before + [Called(called)] + after, id, n, n)
  {
    var call := [Called(called)];
    TallyOne(Called(called), Equals(IntentLine(id)));
    TallyOne(Called(called), Equals(OutcomeLine(id)));
    HoldsAppend(before, call, id, n, 0, 0, 0);
    HoldsAppend(before + call, after, id, n, 0, 0, n);
  }

  lemma {:induction false} LinesOfDispatch(cfg: Config, req: Request, id: string)
    requires cfg.attested && req.writes.intentLine && req.writes.outcomeLine
    ensures Holds(EventsOf(cfg, req, None), id, if req.msgId == id then 1 else 0, if req.msgId == id then 1 else 0)
  {
    LinesOfIntent(cfg, req, id);
    LinesOfOutcome(cfg, req, None, id);
    HoldsAround(IntentEvents(cfg, req), req.msgId, OutcomeEvents(cfg, req, None), id, if req.msgId == id then 1 else 0);
  }

  lemma {:induction false} LinesOfOne(cfg: Config, s: Served, c: Case, id: string)
    requires cfg.attested && AsExpected(s, c)
    ensures Holds(EventsOf(cfg, s.req, s.stop), id, if c.id == id && c.expectOk then 1 else 0, if c.id == id then 1 else 0)
  {
    if s.stop.None? {
      LinesOfDispatch(cfg, s.req, id);
    } else {
      LinesOfOutcome(cfg, s.req, Some(s.stop.value.gate), id);
    }
  }

  lemma {:induction false} LogLast(cfg: Config, batch: seq<Served>, last: Served)
    ensures Log(cfg, batch + [last]) == Log(cfg, batch) + EventsOf(cfg, last.req, last.stop)
  {
    assert (batch + [last])[..|batch|] == batch;
  }

  ghost predicate AllAsExpected(batch: seq<Served>, cases: seq<Case>) {
    |batch| == |cases| && forall i | 0 <= i < |batch| :: AsExpected(batch[i], cases[i])
  }

  lemma {:induction false} CountsAppend(cases: seq<Case>, c: Case, id: string)
    ensures CountsFor(cases + [c], id).intent == CountsFor(cases, id).intent + if c.id == id && c.expectOk then 1 else 0
    ensures CountsFor(cases + [c], id).outcome == CountsFor(cases, id).outcome + if c.id == id then 1 else 0
  {
    assert (cases + [c])[..|cases|] == cases;
  }

  lemma {:induction false} ExportGrows(cfg: Config, front: seq<Event>, last: Served, all: seq<Event>, c: Case, id: string, i: int, o: int)
    requires cfg.attested && AsExpected(last, c) && Holds(front, id, i, o)
    requires all == front + EventsOf(cfg, last.req, last.stop)
    ensures Holds(all, id, i + if c.id == id && c.expectOk then 1 else 0, o + if c.id == id then 1 else 0)
  {
    LinesOfOne(cfg, last, c, id);
    HoldsAppend(front, EventsOf(cfg, last.req, last.stop), id, i, o, if c.id == id && c.expectOk then 1 else 0, if c.id == id then 1 else 0);
  }

  /** When every 200 was a dispatch and every refusal a recorded gate denial, the export holds for
      each id exactly the counts the conformance harness expects. */
  lemma {:induction false} ExportMatchesExpectation(cfg: Config, batch: seq<Served>, cases: seq<Case>, id: string)
    requires cfg.attested && AllAsExpected(batch, cases)
    ensures Tally(Log(cfg, batch), Equals(IntentLine(id))) == CountsFor(cases, id).intent
    ensures Tally(Log(cfg, batch), Equals(OutcomeLine(id))) == CountsFor(cases, id).outcome
  {
    if batch != [] {
      var n := |batch| - 1;
      assert batch == batch[..n] + [batch[n]] && cases == cases[..n] + [cases[n]];
      ExportMatchesExpectation(cfg, batch[..n], cases[..n], id);
      LogLast(cfg, batch[..n], batch[n]);
      ExportGrows(cfg, Log(cfg, batch[..n]), batch[n], Log(cfg, batch), cases[n], id,
                  CountsFor(cases[..n], id).intent, CountsFor(cases[..n], id).outcome);
      CountsAppend(cases[..n], cases[n], id);
    }
  }
}
