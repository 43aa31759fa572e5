/** The safety monitor: a latch whose state is a function of what happened to it. */
module Safety {
  datatype GatewayState = Ready | SafeStop | EstopActive

  datatype Monitor = Monitor(state: GatewayState, lastHeartbeat: real)

  datatype Tier = Anon | Read | Actuate | Commission

  datatype Event =
    | Wire(tripped: bool)
    | Heartbeat(at: real)
    | Tick(now: real)
    | Clear(tier: Tier)

  function After(m: Monitor, staleness: real, ev: Event): Monitor {
    match ev
    case Wire(tripped) => if tripped then m.(state := EstopActive) else m
    case Heartbeat(at) => m.(lastHeartbeat := at)
    case Tick(now) => if m.state.Ready? && now - m.lastHeartbeat > staleness then m.(state := SafeStop) else m
    case Clear(tier) => if tier.Commission? then m.(state := Ready) else m
  }

  class SafetyMonitor {
    var state: GatewayState
    var lastHeartbeatAt: real
    const staleness: real

    constructor (now: real, staleness: real)
      ensures this.staleness == staleness && Value() == Monitor(Ready, now)
    {
      state := Ready;
      lastHeartbeatAt := now;
      this.staleness := staleness;
    }

    function Value(): Monitor
      reads this
    {
      Monitor(state, lastHeartbeatAt)
    }

    method OnEstopWire(tripped: bool)
      modifies this
      ensures Value() == After(old(Value()), staleness, Wire(tripped))
    {
      if tripped && state != EstopActive {
        state := EstopActive;
      }
    }

    method OnHeartbeat(now: real)
      modifies this
      ensures Value() == After(old(Value()), staleness, Heartbeat(now))
    {
      lastHeartbeatAt := now;
    }

    method DoTick(now: real)
      modifies this
      ensures Value() == After(old(Value()), staleness, Tick(now))
    {
      var age := now - lastHeartbeatAt;
      if state == Ready && age > staleness {
        state := SafeStop;
      }
    }

    method DoClear(tier: Tier) returns (cleared: bool)
      modifies this
      ensures Value() == After(old(Value()), staleness, Clear(tier))
      ensures cleared <==> tier == Commission
    {
      if tier != Commission {
        return false;
      }
      state := Ready;
      return true;
    }

    /** The check at the head of every request: tick, then ask. */
    method Admits(now: real) returns (ok: bool)
      modifies this
      ensures Value() == After(old(Value()), staleness, Tick(now))
      ensures ok <==> old(state) == Ready && now - lastHeartbeatAt <= staleness
    {
      DoTick(now);
      ok := state == Ready;
    }
  }

  function Run(start: real, staleness: real, evs: seq<Event>): Monitor {
    if evs == [] then Monitor(Ready, start)
    else After(Run(start, staleness, evs[..|evs| - 1]), staleness, evs[|evs| - 1])
  }

  predicate Clears(ev: Event) {
    ev == Clear(Commission)
  }

  /** Event i is a trip, and no commission-tier clear came after it. */
  predicate TripStands(evs: seq<Event>, i: nat) {
    && i < |evs|
    && evs[i] == Wire(true)
    && forall j | i < j < |evs| :: !Clears(evs[j])
  }

  predicate Tripped(evs: seq<Event>) {
    exists i: nat | i < |evs| :: TripStands(evs, i)
  }

  lemma TrippedAppend(evs: seq<Event>, last: Event)
    ensures Tripped(evs + [last]) <==> last == Wire(true) || (Tripped(evs) && !Clears(last))
  {
    var all := evs + [last];
    assert forall j | 0 <= j < |evs| :: all[j] == evs[j];
    if last == Wire(true) {
      assert TripStands(all, |evs|);
    }
    if Tripped(evs) && !Clears(last) {
      var i: nat :| i < |evs| && TripStands(evs, i);
      assert TripStands(all, i);
    }
    if Tripped(all) {
      var i: nat :| i < |all| && TripStands(all, i);
      if i < |evs| {
        assert forall j | i < j < |evs| :: !Clears(all[j]);
        assert TripStands(evs, i) && !Clears(all[|evs|]);
      }
    }
  }

  /** The stop is active exactly when a trip came after the last commission-tier clear. */
  lemma {:induction false} EstopIffTripStands(start: real, staleness: real, evs: seq<Event>)
    ensures Run(start, staleness, evs).state.EstopActive? <==> Tripped(evs)
  {
    if evs != [] {
      var front, last := evs[..|evs| - 1], evs[|evs| - 1];
      EstopIffTripStands(start, staleness, front);
      TrippedAppend(front, last);
      assert front + [last] == evs;
    }
  }

  /** The time of the last heartbeat among these events, or the start. */
  function LastBeat(start: real, evs: seq<Event>): real {
    if evs == [] then start
    else if evs[|evs| - 1].Heartbeat? then evs[|evs| - 1].at
    else LastBeat(start, evs[..|evs| - 1])
  }

  /** Event i is a tick that found the last heartbeat too old, and no commission-tier clear came
      after it. */
  predicate StaleTick(start: real, staleness: real, evs: seq<Event>, i: nat) {
    && i < |evs|
    && evs[i].Tick?
    && evs[i].now - LastBeat(start, evs[..i]) > staleness
    && forall j | i < j < |evs| :: !Clears(evs[j])
  }

  predicate WentStale(start: real, staleness: real, evs: seq<Event>) {
    exists i: nat | i < |evs| :: StaleTick(start, staleness, evs, i)
  }

  lemma WentStaleAppend(start: real, staleness: real, evs: seq<Event>, last: Event)
    ensures WentStale(start, staleness, evs + [last]) <==>
              || (last.Tick? && last.now - LastBeat(start, evs) > staleness)
              || (WentStale(start, staleness, evs) && !Clears(last))
  {
    var all := evs + [last];
    assert all[..|evs|] == evs;
    assert forall j | 0 <= j < |evs| :: all[j] == evs[j];
    forall i: nat | i < |evs| ensures all[..i] == evs[..i] {
    }
    if last.Tick? && last.now - LastBeat(start, evs) > staleness {
      assert StaleTick(start, staleness, all, |evs|);
    }
    if WentStale(start, staleness, evs) && !Clears(last) {
      var i: nat :| i < |evs| && StaleTick(start, staleness, evs, i);
      assert StaleTick(start, staleness, all, i);
    }
    if WentStale(start, staleness, all) {
      var i: nat :| i < |all| && StaleTick(start, staleness, all, i);
      if i < |evs| {
        assert forall j | i < j < |evs| :: !Clears(all[j]);
        assert StaleTick(start, staleness, evs, i) && !Clears(all[|evs|]);
      }
    }
  }

  /** The whole state from the history: a standing trip is an emergency stop; otherwise a stale tick
      since the last clear is a safe stop, whatever heartbeats came later; otherwise ready. */
  lemma {:induction false} StateFromHistory(start: real, staleness: real, evs: seq<Event>)
    ensures Run(start, staleness, evs).lastHeartbeat == LastBeat(start, evs)
    ensures Run(start, staleness, evs).state ==
            if Tripped(evs) then EstopActive
            else if WentStale(start, staleness, evs) then SafeStop
            else Ready
  {
    if evs != [] {
      var front, last := evs[..|evs| - 1], evs[|evs| - 1];
      StateFromHistory(start, staleness, front);
      TrippedAppend(front, last);
      WentStaleAppend(start, staleness, front, last);
      assert front + [last] == evs;
    }
  }

  /** SAFE_STOP is left only by a trip or a commission-tier clear: no heartbeat, tick or lesser clear
      ends it. */
  lemma {:induction false} SafeStopIsSticky(start: real, staleness: real, evs: seq<Event>, later: seq<Event>)
    requires Run(start, staleness, evs).state.SafeStop?
    requires forall ev | ev in later :: ev != Wire(true) && !Clears(ev)
    ensures Run(start, staleness, evs + later).state.SafeStop?
  {
    if later == [] {
      assert evs + later == evs;
    } else {
      var front := later[..|later| - 1];
      assert forall ev | ev in front :: ev in later;
      SafeStopIsSticky(start, staleness, evs, front);
      var all, last := evs + later, later[|later| - 1];
      assert all[..|all| - 1] == evs + front && all[|all| - 1] == last;
      assert last in later && last != Wire(true) && !Clears(last);
      assert Run(start, staleness, all) == After(Run(start, staleness, evs + front), staleness, last);
    }
  }

  /** A request's safety check passes exactly when no trip and no stale tick stands and the last
      heartbeat is recent enough at that check. */
  lemma RequestAdmittedIff(start: real, staleness: real, evs: seq<Event>, now: real)
    ensures Run(start, staleness, evs + [Tick(now)]).state.Ready? <==>
              && !Tripped(evs)
              && !WentStale(start, staleness, evs)
              && now - LastBeat(start, evs) <= staleness
  {
    StateFromHistory(start, staleness, evs + [Tick(now)]);
    TrippedAppend(evs, Tick(now));
    WentStaleAppend(start, staleness, evs, Tick(now));
  }
}
