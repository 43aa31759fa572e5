/** Interleaved requests that share the gateway's memory: gates, logs and dispatch at once. */
module Floor {
  import opened Trace
  import opened Invokes
  import A = Audit
  import G = Gateway
  import Replay
  import Revocation
  import Safety
  import Sessions

  /** The interleaved requests, what each asked for, and the memory their gates share. `past`,
      `judged` and `order` are history: the memory each judgement met, the judgement, and whose
      it was. */
  datatype State = State(sys: System, asked: seq<G.Request>, memory: G.Memory,
                         past: seq<G.Memory>, judged: seq<G.Served>, order: seq<nat>)

  function Open(memory: G.Memory): State {
    State(BOOT, [], memory, [], [], [])
  }

  datatype Move =
    | Arrives(req: G.Request)
    | Judged(thread: nat, stop: Option<G.Stop>, left: G.Memory) // all gates and routing, in one step
    | Acts(thread: nat, action: Action)                         // any other turn of a request
    | MonitorMoves(monitor: Safety.Monitor)                     // a heartbeat, a trip, a tick or a clear

  /** What a judgement does to the request. */
  function Sentence(stop: Option<G.Stop>): Action {
    match stop
    case None => Admit
    case Some(At(gate)) => Deny(gate)
    case Some(_) => Refuse
  }

  predicate IsJudgement(a: Action) {
    a.Arrive? || a.Refuse? || a.Deny? || a.Admit?
  }

  ghost predicate Allowed(cfg: G.Config, f: State, v: Move) {
    match v
    case Arrives(_) => true
    case Judged(t, stop, left) =>
      && t < |f.asked| && Enabled(f.sys, t, Sentence(stop))
      && G.MeetsFirst(cfg, f.memory, f.asked[t], stop)
      && G.Remembers(cfg, f.memory, f.asked[t], left)
    case Acts(t, a) => !IsJudgement(a) && Enabled(f.sys, t, a)
    case MonitorMoves(_) => true
  }

  ghost function After(c: Codec, cfg: G.Config, f: State, v: Move): State
    requires Allowed(cfg, f, v)
  {
    match v
    case Arrives(req) => f.(sys := Act(c, f.sys, 0, Arrive(req.msgId)), asked := f.asked + [req])
    case Judged(t, stop, left) =>
      State(Act(c, f.sys, t, Sentence(stop)), f.asked, left, f.past + [f.memory],
            f.judged + [G.Served(f.asked[t], stop)], f.order + [t])
    case Acts(t, a) => f.(sys := Act(c, f.sys, t, a))
    case MonitorMoves(monitor) => f.(memory := f.memory.(monitor := monitor))
  }

  ghost predicate Evolves(c: Codec, cfg: G.Config, start: G.Memory, moves: seq<Move>, f: State) {
    if moves == [] then f == Open(start)
    else
      var front, last := moves[..|moves| - 1], moves[|moves| - 1];
      exists before :: Evolves(c, cfg, start, front, before) && Allowed(cfg, before, last) && f == After(c, cfg, before, last)
  }

  function ByRank(n: nat): (s: G.Stop)
    requires n < 20
    ensures G.Rank(s) == n
  {
    match n
    case 0 => G.At(G.SafetyState)
    case 1 => G.At(G.EnvelopeSignature)
    case 2 => G.At(G.EnvelopeFreshness)
    case 3 => G.At(G.ReplayedId)
    case 4 => G.WindowError
    case 5 => G.RevocationUnknown
    case 6 => G.At(G.RevokedKey)
    case 7 => G.Schema
    case 8 => G.At(G.ManifestPin)
    case 9 => G.At(G.ManifestProvenance)
    case 10 => G.At(G.RrnBinding)
    case 11 => G.At(G.TierPolicy)
    case 12 => G.At(G.ToolAllowlist)
    case 13 => G.At(G.ToolTier)
    case 14 => G.At(G.ToolScope)
    case 15 => G.At(G.ConfidenceThreshold)
    case 16 => G.At(G.HitlMissing)
    case 17 => G.NoSuchActuator
    case 18 => G.ActuatorUnclear
    case _ => G.At(G.ActuatorPolicy)
  }

  lemma {:induction false} FirstStop(cfg: G.Config, m: G.Memory, req: G.Request, n: nat) returns (stop: Option<G.Stop>)
    requires n <= 20 && G.ClearBefore(cfg, m, req, n)
    ensures G.MeetsFirst(cfg, m, req, stop)
    decreases 20 - n
  {
    if n == 20 {
      stop := None;
    } else if G.Blocks(cfg, m, req, ByRank(n)) {
      stop := Some(ByRank(n));
    } else {
      G.ClearNext(cfg, m, req, ByRank(n));
      stop := FirstStop(cfg, m, req, n + 1);
    }
  }

  /** Every request that waits for its judgement can get one, whatever the memory holds. */
  lemma {:induction false} JudgementIsPossible(cfg: G.Config, f: State, t: nat) returns (v: Move)
    requires t < |f.asked| && t < |f.sys.requests| && f.sys.requests[t].phase.Gating?
    ensures v.Judged? && v.thread == t && Allowed(cfg, f, v)
  {
    var m, req := f.memory, f.asked[t];
    var stop := FirstStop(cfg, m, req, 0);
    var monitor := if cfg.safety then Safety.After(m.monitor, m.staleness, Safety.Tick(req.now)) else m.monitor;
    var seen := WindowLeft(cfg, m, req);
    var cache := CacheLeft(cfg, m, req);
    v := Judged(t, stop, G.Memory(monitor, m.staleness, seen, m.window, cache, m.ttl));
  }

  lemma {:induction false} WindowLeft(cfg: G.Config, m: G.Memory, req: G.Request) returns (seen: seq<string>)
    ensures G.WindowKept(cfg, m, req, seen)
  {
    if cfg.requireSignature && G.ClearBefore(cfg, m, req, G.Rank(G.WindowError) + 1) {
      seen := Replay.LastOf(m.seen, m.window - 1) + [req.msgId];
    } else if cfg.requireSignature && G.MeetsFirst(cfg, m, req, Some(G.WindowError)) {
      seen := [];
    } else {
      seen := m.seen;
    }
  }

  lemma {:induction false} CacheLeft(cfg: G.Config, m: G.Memory, req: G.Request) returns (cache: Revocation.Cache)
    ensures G.CacheKept(cfg, m, req, cache)
  {
    if G.AsksResolver(cfg, req) && G.ClearBefore(cfg, m, req, G.Rank(G.WindowError) + 1) {
      cache := Revocation.CacheAfter(m.cache, m.ttl, req.signer.value, req.now, req.revocation);
    } else {
      cache := m.cache;
    }
  }

  // ---- the requests ------------------------------------------------------------------------

  /** The request has an actuator to call, or has called it. */
  predicate Bound(r: Request) {
    r.phase.Executing? || ((r.phase.Auditing? || r.phase.Writing?) && r.phase.kind.Intent?)
  }

  /** Position k of the judgements let this thread through. */
  predicate AdmittedAt(f: State, t: nat, k: nat) {
    k < |f.order| && k < |f.judged| && f.order[k] == t && f.judged[k].stop.None?
  }

  predicate Admitted(f: State, t: nat) {
    exists k: nat | k < |f.order| :: AdmittedAt(f, t, k)
  }

  ghost predicate Tidy(f: State) {
    && |f.asked| == |f.sys.requests|
    && (forall t | 0 <= t < |f.asked| :: f.asked[t].msgId == f.sys.requests[t].msgId)
    && |f.past| == |f.judged| == |f.order|
    && (forall k | 0 <= k < |f.order| :: f.order[k] < |f.asked| && f.judged[k].req == f.asked[f.order[k]])
    && (forall t | 0 <= t < |f.asked| && Bound(f.sys.requests[t]) :: Admitted(f, t))
  }

  lemma {:induction false} AdmissionStays(f: State, f': State, t: nat)
    requires Admitted(f, t) && f.order <= f'.order && f.judged <= f'.judged
    ensures Admitted(f', t)
  {
    var k: nat :| k < |f.order| && AdmittedAt(f, t, k);
    assert AdmittedAt(f', t, k);
  }

  /** Only an admission binds a request to its actuator. */
  lemma {:induction false} TurnBinds(c: Codec, s: System, t: nat, a: Action, u: nat)
    requires Enabled(s, t, a) && u < |s.requests|
    ensures u < |Act(c, s, t, a).requests| && Act(c, s, t, a).requests[u].msgId == s.requests[u].msgId
    ensures Bound(Act(c, s, t, a).requests[u]) ==> Bound(s.requests[u]) || (u == t && a.Admit?)
  {
  }

  lemma {:induction false} TidyJudged(c: Codec, cfg: G.Config, f: State, t: nat, stop: Option<G.Stop>, left: G.Memory)
    requires Tidy(f) && Allowed(cfg, f, Judged(t, stop, left))
    ensures Tidy(After(c, cfg, f, Judged(t, stop, left)))
  {
    var f' := After(c, cfg, f, Judged(t, stop, left));
    forall u | 0 <= u < |f.asked|
      ensures f'.asked[u].msgId == f'.sys.requests[u].msgId
      ensures Bound(f'.sys.requests[u]) ==> Admitted(f', u)
    {
      TurnBinds(c, f.sys, t, Sentence(stop), u);
      if u == t && stop.None? {
        assert AdmittedAt(f', u, |f.order|);
      }
      if Bound(f.sys.requests[u]) {
        AdmissionStays(f, f', u);
      }
    }
  }

  lemma {:induction false} TidyActs(c: Codec, cfg: G.Config, f: State, t: nat, a: Action)
    requires Tidy(f) && Allowed(cfg, f, Acts(t, a))
    ensures Tidy(After(c, cfg, f, Acts(t, a)))
  {
    var f' := After(c, cfg, f, Acts(t, a));
    forall u | 0 <= u < |f.asked|
      ensures f'.asked[u].msgId == f'.sys.requests[u].msgId
      ensures Bound(f'.sys.requests[u]) ==> Admitted(f', u)
    {
      TurnBinds(c, f.sys, t, a, u);
      if Bound(f.sys.requests[u]) {
        AdmissionStays(f, f', u);
      }
    }
  }

  lemma {:induction false} TidyArrives(c: Codec, cfg: G.Config, f: State, req: G.Request)
    requires Tidy(f)
    ensures Tidy(After(c, cfg, f, Arrives(req)))
  {
    var f' := After(c, cfg, f, Arrives(req));
    forall u | 0 <= u < |f.asked| && Bound(f.sys.requests[u]) ensures Admitted(f', u) {
      AdmissionStays(f, f', u);
    }
  }

  lemma {:induction false} TidyMove(c: Codec, cfg: G.Config, f: State, v: Move)
    requires Tidy(f) && Allowed(cfg, f, v)
    ensures Tidy(After(c, cfg, f, v))
  {
    match v {
      case Arrives(req) => TidyArrives(c, cfg, f, req);
      case Judged(t, stop, left) => TidyJudged(c, cfg, f, t, stop, left);
      case Acts(t, a) => TidyActs(c, cfg, f, t, a);
      case MonitorMoves(monitor) =>
        var f' := After(c, cfg, f, v);
        forall u | 0 <= u < |f.asked| && Bound(f.sys.requests[u]) ensures Admitted(f', u) {
          AdmissionStays(f, f', u);
        }
    }
  }

  lemma {:induction false} TidyHolds(c: Codec, cfg: G.Config, start: G.Memory, moves: seq<Move>, f: State)
    requires Evolves(c, cfg, start, moves, f)
    ensures Tidy(f)
  {
    if moves != [] {
      var front, last := moves[..|moves| - 1], moves[|moves| - 1];
      var before :| Evolves(c, cfg, start, front, before) && Allowed(cfg, before, last) && f == After(c, cfg, before, last);
      TidyHolds(c, cfg, start, front, before);
      TidyMove(c, cfg, before, last);
    }
  }

  /** What the requests do here is a run of the interleaved requests, so everything proved of those
      runs holds: of their export, of whom the walk names, of the audit chain. */
  lemma {:induction false} RequestsRun(c: Codec, cfg: G.Config, start: G.Memory, moves: seq<Move>, f: State) returns (schedule: seq<Turn>)
    requires Evolves(c, cfg, start, moves, f)
    ensures Runs(c, schedule, f.sys)
  {
    if moves == [] {
      schedule := [];
    } else {
      var front, last := moves[..|moves| - 1], moves[|moves| - 1];
      var before :| Evolves(c, cfg, start, front, before) && Allowed(cfg, before, last) && f == After(c, cfg, before, last);
      var earlier := RequestsRun(c, cfg, start, front, before);
      match last {
        case Arrives(req) => schedule := OneMore(c, earlier, before.sys, 0, Arrive(req.msgId));
        case Judged(t, stop, _) => schedule := OneMore(c, earlier, before.sys, t, Sentence(stop));
        case Acts(t, a) => schedule := OneMore(c, earlier, before.sys, t, a);
        case MonitorMoves(_) => schedule := earlier;
      }
    }
  }

  lemma {:induction false} OneMore(c: Codec, schedule: seq<Turn>, s: System, t: nat, a: Action) returns (longer: seq<Turn>)
    requires Runs(c, schedule, s) && Enabled(s, t, a)
    ensures Runs(c, longer, Act(c, s, t, a))
  {
    longer := schedule + [Turn(t, a)];
    assert longer[..|longer| - 1] == schedule && longer[|longer| - 1] == Turn(t, a);
  }

  // ---- the judgements ----------------------------------------------------------------------

  /** Every memory a judgement met, and the one that is left. */
  function Memories(f: State): seq<G.Memory> {
    f.past + [f.memory]
  }

  /** The judgements, in the order they were made, are a session. */
  ghost predicate InSession(cfg: G.Config, start: G.Memory, f: State) {
    && G.Session(cfg, Memories(f), f.judged)
    && Memories(f)[0].seen == start.seen && Memories(f)[0].window == start.window
  }

  lemma {:induction false} SessionGrows(cfg: G.Config, ms: seq<G.Memory>, batch: seq<G.Served>, one: G.Served, left: G.Memory)
    requires G.Session(cfg, ms, batch)
    requires G.MeetsFirst(cfg, ms[|batch|], one.req, one.stop) && G.Keeps(cfg, ms[|batch|], one.req, left)
    ensures G.Session(cfg, ms + [left], batch + [one])
  {
  }

  lemma {:induction false} MonitorIsApart(cfg: G.Config, m: G.Memory, req: G.Request, left: G.Memory, monitor: Safety.Monitor)
    requires G.Keeps(cfg, m, req, left)
    ensures G.Keeps(cfg, m, req, left.(monitor := monitor))
  {
  }

  lemma {:induction false} SessionMonitored(cfg: G.Config, past: seq<G.Memory>, last: G.Memory, batch: seq<G.Served>, monitor: Safety.Monitor)
    requires G.Session(cfg, past + [last], batch)
    ensures G.Session(cfg, past + [last.(monitor := monitor)], batch)
  {
    var ms, ms' := past + [last], past + [last.(monitor := monitor)];
    assert |past| == |batch|;
    assert forall i | 0 <= i < |past| :: ms'[i] == ms[i];
    if batch != [] {
      var n := |batch| - 1;
      assert ms[n + 1] == last && G.Keeps(cfg, ms[n], batch[n].req, ms[n + 1]);
      MonitorIsApart(cfg, ms[n], batch[n].req, last, monitor);
    }
    forall i | 0 <= i < |batch|
      ensures G.MeetsFirst(cfg, ms'[i], batch[i].req, batch[i].stop) && G.Keeps(cfg, ms'[i], batch[i].req, ms'[i + 1])
    {
      assert G.MeetsFirst(cfg, ms[i], batch[i].req, batch[i].stop) && G.Keeps(cfg, ms[i], batch[i].req, ms[i + 1]);
    }
  }

  lemma {:induction false} SessionMove(c: Codec, cfg: G.Config, start: G.Memory, f: State, v: Move)
    requires InSession(cfg, start, f) && Allowed(cfg, f, v)
    ensures InSession(cfg, start, After(c, cfg, f, v))
  {
    match v {
      case Judged(t, stop, left) =>
        SessionGrows(cfg, Memories(f), f.judged, G.Served(f.asked[t], stop), left);
      case MonitorMoves(monitor) =>
        SessionMonitored(cfg, f.past, f.memory, f.judged, monitor);
      case _ =>
    }
  }

  lemma {:induction false} SessionHolds(c: Codec, cfg: G.Config, start: G.Memory, moves: seq<Move>, f: State)
    requires Evolves(c, cfg, start, moves, f)
    ensures InSession(cfg, start, f)
  {
    if moves != [] {
      var front, last := moves[..|moves| - 1], moves[|moves| - 1];
      var before :| Evolves(c, cfg, start, front, before) && Allowed(cfg, before, last) && f == After(c, cfg, before, last);
      SessionHolds(c, cfg, start, front, before);
      SessionMove(c, cfg, start, before, last);
    }
  }

  // ---- what becomes of a judgement ---------------------------------------------------------

  predicate OutcomeOf(entries: seq<A.Entry>, owner: seq<nat>, t: nat) {
    exists i | 0 <= i < |entries| && i < |owner| :: owner[i] == t && entries[i].content.kind.Outcome?
  }

  /** The audit chain holds an outcome entry of this request. */
  predicate Reported(s: System, t: nat) {
    OutcomeOf(s.entries, s.owner, t)
  }

  /** Where a request can stand once judged: a denial is under its gate's name and a refusal over at
      once; only a request that was let through is bound to its actuator, and neither it nor a denied
      one is over before its outcome is in the audit chain. */
  predicate Stands(r: Request, reported: bool, stop: Option<G.Stop>) {
    match stop
    case Some(At(gate)) =>
      r.denied == Some(gate) && match r.phase {
        case Auditing(Outcome, None) => !reported
        case Writing(Outcome, None) => reported
        case Finished => reported
        case _ => false
      }
    case Some(_) => r.denied == None && r.phase == Finished && !reported
    case None =>
      r.denied == None && match r.phase {
        case Gating => false
        case Writing(Outcome, _) => reported
        case Finished => reported
        case _ => !reported
      }
  }

  /** Nothing is on record of a request before its judgement. */
  predicate FreshAt(s: System, t: nat) {
    t >= |s.requests| || s.requests[t].phase.Gating? ==>
      !Reported(s, t) && (t < |s.requests| ==> s.requests[t].denied == None)
  }

  ghost predicate AllStand(f: State) {
    && (forall t: nat :: FreshAt(f.sys, t))
    && (forall k | 0 <= k < |f.order| && k < |f.judged| && f.order[k] < |f.sys.requests| ::
          Stands(f.sys.requests[f.order[k]], Reported(f.sys, f.order[k]), f.judged[k].stop))
  }

  lemma {:induction false} OutcomeOfLonger(entries: seq<A.Entry>, owner: seq<nat>, e: A.Entry, whose: nat, t: nat)
    requires |owner| == |entries|
    ensures OutcomeOf(entries + [e], owner + [whose], t) <==> OutcomeOf(entries, owner, t) || (whose == t && e.content.kind.Outcome?)
  {
    var all, owners := entries + [e], owner + [whose];
    if i :| 0 <= i < |entries| && owner[i] == t && entries[i].content.kind.Outcome? {
      assert owners[i] == t && all[i].content.kind.Outcome?;
    }
    if whose == t && e.content.kind.Outcome? {
      assert owners[|owner|] == t && all[|entries|].content.kind.Outcome?;
    }
  }

  lemma {:induction false} EntriesTurn(c: Codec, s: System, t: nat, a: Action)
    requires AuditInv(s) && Enabled(s, t, a)
    ensures !a.StoreAudit? ==> Act(c, s, t, a).entries == s.entries && Act(c, s, t, a).owner == s.owner
    ensures a.StoreAudit? ==>
              var e := s.auditLock.value.1.entry;
              && Act(c, s, t, a).entries == s.entries + [e] && Act(c, s, t, a).owner == s.owner + [t]
              && e.content.kind == s.requests[t].phase.kind
  {
  }

  lemma {:induction false} ReportedTurn(c: Codec, s: System, t: nat, a: Action, u: nat)
    requires AuditInv(s) && Enabled(s, t, a)
    ensures Reported(Act(c, s, t, a), u) <==> Reported(s, u) || (a.StoreAudit? && u == t && s.requests[t].phase.kind.Outcome?)
  {
    EntriesTurn(c, s, t, a);
    if a.StoreAudit? {
      OutcomeOfLonger(s.entries, s.owner, s.auditLock.value.1.entry, t, u);
    }
  }

  /** No turn after the judgement takes a request out of where it can stand. */
  lemma {:induction false} TurnStands(c: Codec, s: System, t: nat, a: Action, u: nat, stop: Option<G.Stop>)
    requires AuditInv(s) && Enabled(s, t, a) && u < |s.requests|
    requires Stands(s.requests[u], Reported(s, u), stop)
    ensures Stands(Act(c, s, t, a).requests[u], Reported(Act(c, s, t, a), u), stop)
  {
    ReportedTurn(c, s, t, a, u);
  }

  lemma {:induction false} TurnFresh(c: Codec, s: System, t: nat, a: Action, u: nat)
    requires AuditInv(s) && Enabled(s, t, a) && FreshAt(s, u)
    ensures FreshAt(Act(c, s, t, a), u)
  {
    ReportedTurn(c, s, t, a, u);
  }

  lemma {:induction false} JudgementStarts(c: Codec, s: System, t: nat, stop: Option<G.Stop>)
    requires AuditInv(s) && Enabled(s, t, Sentence(stop)) && FreshAt(s, t)
    ensures Stands(Act(c, s, t, Sentence(stop)).requests[t], Reported(Act(c, s, t, Sentence(stop)), t), stop)
  {
    ReportedTurn(c, s, t, Sentence(stop), t);
  }

  /** The turn a move takes, if it takes one. */
  function TurnOf(v: Move): Option<Turn> {
    match v
    case Arrives(req) => Some(Turn(0, Arrive(req.msgId)))
    case Judged(t, stop, _) => Some(Turn(t, Sentence(stop)))
    case Acts(t, a) => Some(Turn(t, a))
    case MonitorMoves(_) => None
  }

  lemma {:induction false} StandMove(c: Codec, cfg: G.Config, f: State, v: Move)
    requires Tidy(f) && AuditInv(f.sys) && AllStand(f) && Allowed(cfg, f, v)
    ensures AllStand(After(c, cfg, f, v))
  {
    if TurnOf(v).Some? {
      var f' := After(c, cfg, f, v);
      var Turn(t, a) := TurnOf(v).value;
      assert f'.sys == Act(c, f.sys, t, a);
      forall u: nat ensures FreshAt(f'.sys, u) {
        TurnFresh(c, f.sys, t, a, u);
      }
      forall k | 0 <= k < |f.order|
        ensures Stands(f'.sys.requests[f.order[k]], Reported(f'.sys, f.order[k]), f.judged[k].stop)
      {
        TurnStands(c, f.sys, t, a, f.order[k], f.judged[k].stop);
      }
      if v.Judged? {
        JudgementStarts(c, f.sys, t, v.stop);
      }
    }
  }

  lemma {:induction false} StandHolds(c: Codec, cfg: G.Config, start: G.Memory, moves: seq<Move>, f: State)
    requires Evolves(c, cfg, start, moves, f)
    ensures AllStand(f)
  {
    if moves != [] {
      var front, last := moves[..|moves| - 1], moves[|moves| - 1];
      var before :| Evolves(c, cfg, start, front, before) && Allowed(cfg, before, last) && f == After(c, cfg, before, last);
      StandHolds(c, cfg, start, front, before);
      TidyHolds(c, cfg, start, front, before);
      var schedule := RequestsRun(c, cfg, start, front, before);
      AuditHolds(c, schedule, before.sys);
      StandMove(c, cfg, before, last);
    }
  }

  /** In every interleaving, what a request does after its judgement is what it was judged to: the
      first thing in its way on the memory of that moment is the gate its records name, and it ends
      with an outcome in the audit chain exactly when it was let through or a gate denied it. */
  lemma {:induction false} JudgementStands(c: Codec, cfg: G.Config, start: G.Memory, moves: seq<Move>, f: State, k: nat)
    requires Evolves(c, cfg, start, moves, f) && k < |f.judged|
    ensures k < |f.past| && k < |f.order| && f.order[k] < |f.asked| && f.order[k] < |f.sys.requests|
    ensures G.MeetsFirst(cfg, f.past[k], f.asked[f.order[k]], f.judged[k].stop)
    ensures Stands(f.sys.requests[f.order[k]], Reported(f.sys, f.order[k]), f.judged[k].stop)
  {
    TidyHolds(c, cfg, start, moves, f);
    SessionHolds(c, cfg, start, moves, f);
    StandHolds(c, cfg, start, moves, f);
    MetThen(cfg, start, f, k);
  }

  // ---- dispatch ----------------------------------------------------------------------------

  lemma {:induction false} BoundIsAdmitted(f: State, t: nat) returns (k: nat)
    requires Tidy(f) && t < |f.sys.requests| && Bound(f.sys.requests[t])
    ensures AdmittedAt(f, t, k) && k < |f.past| && t < |f.asked| && f.judged[k].req == f.asked[t]
  {
    assert Admitted(f, t);
    k :| 0 <= k < |f.order| && AdmittedAt(f, t, k);
  }

  lemma {:induction false} MetThen(cfg: G.Config, start: G.Memory, f: State, k: nat)
    requires InSession(cfg, start, f) && k < |f.past| && k < |f.judged|
    ensures G.MeetsFirst(cfg, f.past[k], f.judged[k].req, f.judged[k].stop)
  {
    assert Memories(f)[k] == f.past[k];
  }

  /** Whoever calls the actuator was admitted: at one moment every enabled gate passed on the memory
      of that moment, and routing chose an actuator. */
  lemma {:induction false} OnlyTheAdmittedCall(c: Codec, cfg: G.Config, start: G.Memory, moves: seq<Move>, f: State, t: nat) returns (k: nat)
    requires Evolves(c, cfg, start, moves, f) && Enabled(f.sys, t, Execute)
    ensures AdmittedAt(f, t, k) && k < |f.past| && t < |f.asked| && G.NothingBlocks(cfg, f.past[k], f.asked[t])
  {
    TidyHolds(c, cfg, start, moves, f);
    SessionHolds(c, cfg, start, moves, f);
    k := BoundIsAdmitted(f, t);
    MetThen(cfg, start, f, k);
  }

  /** In every interleaving, a gateway that requires signatures admits two requests under one msg_id
      only if as many other ids as its window holds, all different, got past the replay gate
      between their judgements. */
  lemma {:induction false} AdmittedTwice(c: Codec, cfg: G.Config, start: G.Memory, moves: seq<Move>, f: State, t: nat, i: nat, u: nat, j: nat)
    returns (between: seq<nat>)
    requires Evolves(c, cfg, start, moves, f)
    requires cfg.requireSignature && start.window >= 1 && start.seen == []
    requires AdmittedAt(f, t, i) && AdmittedAt(f, u, j) && i < j
    requires t < |f.asked| && u < |f.asked| && f.asked[t].msgId == f.asked[u].msgId
    ensures |Memories(f)| == |f.judged| + 1
    ensures Sessions.Flooded(cfg, Memories(f), f.judged, start.window, i, j, between)
  {
    TidyHolds(c, cfg, start, moves, f);
    SessionHolds(c, cfg, start, moves, f);
    between := Sessions.DispatchedTwice(cfg, Memories(f), f.judged, start.window, i, j);
  }
}
