/** Each request of an interleaved run does what a request does alone. */
module InvokeProgram {
  import opened Trace
  import opened Invokes
  import G = Gateway

  /** What a turn puts on record, in the terms of a single pass through `/v1/invoke`. */
  function Emits(s: System, t: nat, a: Action): seq<G.Event>
    requires Enabled(s, t, a)
  {
    if a.Arrive? then []
    else
      var r := s.requests[t];
      match a
      case Admit => [G.IntentAttempted(r.msgId)]
      case StoreAudit =>
        [if r.phase.kind.Intent? then G.IntentEntry(r.msgId) else G.OutcomeEntry(r.msgId, r.denied)]
      case WriteLine =>
        [if r.phase.kind.Intent? then G.IntentLine(r.msgId) else G.OutcomeLine(r.msgId)]
      case Execute => [G.Called(r.msgId)]
      case _ => []
  }

  /** The schedule leads to this state, and these are the records of thread t along the way. */
  ghost predicate Trail(c: Codec, schedule: seq<Turn>, s: System, t: nat, events: seq<G.Event>) {
    if schedule == [] then s == BOOT && events == []
    else
      var front := schedule[..|schedule| - 1];
      var Turn(u, a) := schedule[|schedule| - 1];
      exists before, earlier ::
        && Trail(c, front, before, t, earlier)
        && Enabled(before, u, a) && s == Act(c, before, u, a)
        && events == earlier + if u == t then Emits(before, u, a) else []
  }

  function IntentPart(id: string, entry: bool, line: bool): seq<G.Event> {
    [G.IntentAttempted(id)] + (if entry then [G.IntentEntry(id)] else []) + (if line then [G.IntentLine(id)] else [])
  }

  /** What a request that is due an outcome record has on record before it. */
  function Dispatched(r: Request, entry: bool): seq<G.Event> {
    if r.denied.Some? then [] else IntentPart(r.msgId, entry, r.intentLine) + [G.Called(r.msgId)]
  }

  function OutcomePart(r: Request): seq<G.Event> {
    [G.OutcomeEntry(r.msgId, r.denied)] + if r.outcomeLine then [G.OutcomeLine(r.msgId)] else []
  }

  /** The records of a request fit where it stands. */
  ghost predicate Follows(r: Request, events: seq<G.Event>) {
    match r.phase
    case Gating => events == [] && r.denied.None? && !r.intentLine && !r.outcomeLine
    case Auditing(Intent, _) => events == IntentPart(r.msgId, false, false) && r.denied.None? && !r.intentLine && !r.outcomeLine
    case Writing(Intent, h) => events == IntentPart(r.msgId, h.Some?, false) && r.denied.None? && !r.intentLine && !r.outcomeLine
    case Executing(h) => events == IntentPart(r.msgId, h.Some?, r.intentLine) && r.denied.None? && !r.outcomeLine
    case Auditing(Outcome, h) => events == Dispatched(r, h.Some?) && !r.outcomeLine
    case Writing(Outcome, h) => events == Dispatched(r, h.Some?) + OutcomePart(r) && !r.outcomeLine
    case Finished =>
      || (events == [] && r.denied.None?)
      || exists entry :: events == Dispatched(r, entry) + OutcomePart(r)
  }

  lemma {:induction false} OthersUntouched(c: Codec, s: System, u: nat, a: Action, t: nat)
    requires Enabled(s, u, a) && u != t && t < |s.requests|
    ensures t < |Act(c, s, u, a).requests| && Act(c, s, u, a).requests[t] == s.requests[t]
  {
  }

  lemma {:induction false} OwnLine(c: Codec, s: System, t: nat, events: seq<G.Event>)
    requires Enabled(s, t, WriteLine) && Follows(s.requests[t], events)
    ensures Follows(Act(c, s, t, WriteLine).requests[t], events + Emits(s, t, WriteLine))
  {
    var r, r' := s.requests[t], Act(c, s, t, WriteLine).requests[t];
    if r.phase.kind.Outcome? {
      var h := r.phase.hash;
      assert events + [G.OutcomeLine(r.msgId)] == Dispatched(r', h.Some?) + OutcomePart(r');
    } else {
      assert events + [G.IntentLine(r.msgId)] == IntentPart(r'.msgId, r.phase.hash.Some?, true);
    }
  }

  lemma {:induction false} OwnFailure(c: Codec, s: System, t: nat, events: seq<G.Event>)
    requires Enabled(s, t, TraceFails) && Follows(s.requests[t], events)
    ensures Follows(Act(c, s, t, TraceFails).requests[t], events)
  {
    var r, r' := s.requests[t], Act(c, s, t, TraceFails).requests[t];
    if r.phase.kind.Outcome? {
      assert events == Dispatched(r', r.phase.hash.Some?) + OutcomePart(r');
    }
  }

  lemma {:induction false} OwnEntry(c: Codec, s: System, t: nat, events: seq<G.Event>)
    requires Enabled(s, t, StoreAudit) && Follows(s.requests[t], events)
    ensures Follows(Act(c, s, t, StoreAudit).requests[t], events + Emits(s, t, StoreAudit))
  {
  }

  lemma {:induction false} OwnStep(c: Codec, s: System, t: nat, a: Action, events: seq<G.Event>)
    requires Enabled(s, t, a) && !a.Arrive? && Follows(s.requests[t], events)
    ensures t < |Act(c, s, t, a).requests| && Follows(Act(c, s, t, a).requests[t], events + Emits(s, t, a))
  {
    assert events + [] == events;
    match a {
      case StoreAudit => OwnEntry(c, s, t, events);
      case WriteLine => OwnLine(c, s, t, events);
      case TraceFails => OwnFailure(c, s, t, events);
      case _ =>
    }
  }

  lemma {:induction false} TrailFollows(c: Codec, schedule: seq<Turn>, s: System, t: nat, events: seq<G.Event>)
    requires Trail(c, schedule, s, t, events)
    ensures if t < |s.requests| then Follows(s.requests[t], events) else events == []
  {
    if schedule != [] {
      var front := schedule[..|schedule| - 1];
      var Turn(u, a) := schedule[|schedule| - 1];
      var before, earlier :| && Trail(c, front, before, t, earlier)
                             && Enabled(before, u, a) && s == Act(c, before, u, a)
                             && events == earlier + if u == t then Emits(before, u, a) else [];
      TrailFollows(c, front, before, t, earlier);
      if u == t && !a.Arrive? {
        OwnStep(c, before, t, a, earlier);
      } else {
        assert events == earlier;
        if u != t && t < |before.requests| {
          OthersUntouched(c, before, u, a, t);
        }
      }
    }
  }

  /** A pass of `/v1/invoke` for this msg_id, up to what its gates and its writes make of it. */
  function Pass(cfg: G.Config, any: G.Request, msgId: string, writes: G.Writes, stop: Option<G.Stop>): seq<G.Event> {
    G.EventsOf(cfg, any.(msgId := msgId, writes := writes), stop)
  }

  lemma {:induction false} DispatchedIsPass(cfg: G.Config, any: G.Request, r: Request, entry: bool)
    requires cfg.audited && cfg.attested
    ensures Dispatched(r, entry) + OutcomePart(r)
         == Pass(cfg, any, r.msgId, G.Writes(entry, r.intentLine, r.outcomeLine), if r.denied.Some? then Some(G.At(r.denied.value)) else None)
  {
  }

  /** Whatever else is going on, a request that has finished leaves exactly the records, in order, of
      one pass through `/v1/invoke`: of a dispatch, of the denial by its gate, or of a refusal, which
      leaves none. */
  lemma {:induction false} FinishedIsOnePass(c: Codec, schedule: seq<Turn>, s: System, t: nat, events: seq<G.Event>, cfg: G.Config, any: G.Request)
    requires cfg.audited && cfg.attested
    requires Trail(c, schedule, s, t, events) && t < |s.requests| && s.requests[t].phase.Finished?
    ensures exists writes, stop ::
              && events == Pass(cfg, any, s.requests[t].msgId, writes, stop)
              && (s.requests[t].denied.Some? ==> stop == Some(G.At(s.requests[t].denied.value)))
              && (s.requests[t].denied.None? ==> stop in {None, Some(G.Schema)})
  {
    TrailFollows(c, schedule, s, t, events);
    var r := s.requests[t];
    if events == [] && r.denied.None? {
      assert events == Pass(cfg, any, r.msgId, G.Writes(true, true, true), Some(G.Schema));
    } else {
      var entry :| events == Dispatched(r, entry) + OutcomePart(r);
      DispatchedIsPass(cfg, any, r, entry);
    }
  }

  /** Until then its records are the first ones of such a pass. */
  lemma {:induction false} RunningIsAPrefix(c: Codec, schedule: seq<Turn>, s: System, t: nat, events: seq<G.Event>, cfg: G.Config, any: G.Request)
    requires cfg.audited && cfg.attested
    requires Trail(c, schedule, s, t, events) && t < |s.requests| && !s.requests[t].phase.Finished?
    ensures exists writes, stop :: events <= Pass(cfg, any, s.requests[t].msgId, writes, stop)
  {
    TrailFollows(c, schedule, s, t, events);
    var r := s.requests[t];
    var entry := match r.phase
      case Writing(_, h) => h.Some?
      case Executing(h) => h.Some?
      case Auditing(Outcome, h) => h.Some?
      case _ => false;
    var writes := G.Writes(entry, r.intentLine, r.outcomeLine);
    DispatchedIsPass(cfg, any, r, entry);
    assert events <= Pass(cfg, any, r.msgId, writes, if r.denied.Some? then Some(G.At(r.denied.value)) else None);
  }

  lemma {:induction false} TrailRuns(c: Codec, schedule: seq<Turn>, s: System, t: nat, events: seq<G.Event>)
    requires Trail(c, schedule, s, t, events)
    ensures Runs(c, schedule, s)
  {
    if schedule != [] {
      var front := schedule[..|schedule| - 1];
      var Turn(u, a) := schedule[|schedule| - 1];
      var before, earlier :| && Trail(c, front, before, t, earlier)
                             && Enabled(before, u, a) && s == Act(c, before, u, a)
                             && events == earlier + if u == t then Emits(before, u, a) else [];
      TrailRuns(c, front, before, t, earlier);
    }
  }

  /** Every schedule leaves such a trail for every thread. */
  lemma {:induction false} EveryRunHasATrail(c: Codec, schedule: seq<Turn>, s: System, t: nat) returns (events: seq<G.Event>)
    requires Runs(c, schedule, s)
    ensures Trail(c, schedule, s, t, events)
  {
    if schedule == [] {
      events := [];
    } else {
      var front := schedule[..|schedule| - 1];
      var Turn(u, a) := schedule[|schedule| - 1];
      var before :| Runs(c, front, before) && Enabled(before, u, a) && s == Act(c, before, u, a);
      var earlier := EveryRunHasATrail(c, front, before, t);
      events := earlier + if u == t then Emits(before, u, a) else [];
    }
  }
}
