/** Whom the walk of a live export names as a dispatch that never reported. */
module Naming {
  import opened Trace
  import opened Walk
  import opened WalkMeaning
  import opened Invokes
  import opened Crashes
  import G = Gateway

  // ---- undisturbed runs are runs -----------------------------------------------------------

  /** A schedule, as happenings. */
  function StepsOf(schedule: seq<Turn>): (steps: seq<Happening>)
    ensures |steps| == |schedule|
  {
    if schedule == [] then []
    else
      var Turn(t, a) := schedule[|schedule| - 1];
      StepsOf(schedule[..|schedule| - 1]) + [Step(t, a)]
  }

  /** Every schedule of the requests is a life of the process in which nothing else happens. */
  lemma {:induction false} EveryRunIsALife(c: Codec, schedule: seq<Turn>, s: System) returns (p: Plant)
    requires Runs(c, schedule, s)
    ensures Lives(c, StepsOf(schedule), p) && p.sys == s
  {
    if schedule == [] {
      p := FRESH;
    } else {
      var front := schedule[..|schedule| - 1];
      var Turn(t, a) := schedule[|schedule| - 1];
      var before :| Runs(c, front, before) && Enabled(before, t, a) && s == Act(c, before, t, a);
      var earlier := EveryRunIsALife(c, front, before);
      p := Next(c, earlier, Step(t, a));
      var steps := StepsOf(schedule);
      assert steps[..|steps| - 1] == StepsOf(front) && steps[|steps| - 1] == Step(t, a);
    }
  }

  // ---- who is named ------------------------------------------------------------------------

  /** At every moment the walk names as "dispatch never reported" exactly the ids under which some
      request has written an intent line and none has written an outcome line. */
  lemma {:induction false} NamedIff(c: Codec, s: System, msgId: string)
    requires c.Lawful() && Reachable(c, s)
    ensures Names(FindingsOf(WalkOf(c, s.files.data)), msgId) <==>
              SomeoneWrote(s.requests, Intent, msgId) && !SomeoneWrote(s.requests, Outcome, msgId)
  {
    var schedule :| Runs(c, schedule, s);
    var p := EveryRunIsALife(c, schedule, s);
    NamedDeadOrAlive(c, StepsOf(schedule), p, msgId);
  }

  /** A dispatch in flight goes unnamed exactly when another request of the same msg_id has left an
      outcome line, be it before or after the intent. */
  lemma {:induction false} UnnamedIff(c: Codec, s: System, t: nat)
    requires c.Lawful() && Reachable(c, s) && InFlight(s, t)
    ensures !Names(FindingsOf(WalkOf(c, s.files.data)), s.requests[t].msgId) <==>
              exists u | 0 <= u < |s.requests| :: u != t && s.requests[u].msgId == s.requests[t].msgId && s.requests[u].outcomeLine
  {
    var schedule :| Runs(c, schedule, s);
    var p := EveryRunIsALife(c, schedule, s);
    TheDeadAreNamed(c, StepsOf(schedule), p, t);
  }

  ghost predicate DistinctIds(s: System) {
    forall t, u | 0 <= t < u < |s.requests| :: s.requests[t].msgId != s.requests[u].msgId
  }

  /** With distinct msg_ids, the walk names exactly the dispatches in flight. */
  lemma {:induction false} OrphansAreInFlight(c: Codec, s: System, t: nat)
    requires c.Lawful() && Reachable(c, s) && DistinctIds(s) && t < |s.requests|
    ensures Names(FindingsOf(WalkOf(c, s.files.data)), s.requests[t].msgId) <==> InFlight(s, t)
  {
    var msgId := s.requests[t].msgId;
    NamedIff(c, s, msgId);
    forall kind: Kind ensures SomeoneWrote(s.requests, kind, msgId) <==> Wrote(s.requests[t], kind) {
      assert forall u | 0 <= u < |s.requests| && s.requests[u].msgId == msgId :: u == t;
      if Wrote(s.requests[t], kind) {
        assert SomeoneWrote(s.requests, kind, msgId);
      }
    }
  }

  /** Nobody else is named. */
  lemma {:induction false} OnlyRequestsAreNamed(c: Codec, s: System, corr: string)
    requires c.Lawful() && Reachable(c, s)
    requires Names(FindingsOf(WalkOf(c, s.files.data)), corr)
    ensures exists t | 0 <= t < |s.requests| :: s.requests[t].msgId == corr && s.requests[t].intentLine
  {
    NamedIff(c, s, corr);
    var t :| 0 <= t < |s.requests| && s.requests[t].msgId == corr && Wrote(s.requests[t], Intent);
    assert s.requests[t].intentLine;
  }

  // ---- a retry hides a dispatch ------------------------------------------------------------

  lemma {:induction false} Reached(c: Codec, s: System, t: nat, a: Action) returns (s': System)
    requires Reachable(c, s) && Enabled(s, t, a)
    ensures s' == Act(c, s, t, a) && Reachable(c, s')
  {
    s' := Act(c, s, t, a);
    var schedule :| Runs(c, schedule, s);
    var longer := schedule + [Turn(t, a)];
    assert longer[..|longer| - 1] == schedule && longer[|longer| - 1] == Turn(t, a);
    assert Runs(c, longer, s');
  }

  predicate NobodyWrites(s: System) {
    s.auditLock.None? && s.traceLock.None?
  }

  lemma {:induction false} StoresItsEntry(c: Codec, s: System, t: nat) returns (s': System)
    requires Reachable(c, s) && NobodyWrites(s) && t < |s.requests| && s.requests[t].phase.Auditing?
    ensures Reachable(c, s') && NobodyWrites(s')
    ensures |s'.requests| == |s.requests| && s'.requests == s.requests[t := s'.requests[t]]
    ensures s'.requests[t].phase.Writing? && s'.requests[t] == s.requests[t].(phase := s'.requests[t].phase)
    ensures s'.requests[t].phase.kind == s.requests[t].phase.kind
  {
    s' := Reached(c, s, t, LockAudit);
    s' := Reached(c, s', t, LinkAudit);
    s' := Reached(c, s', t, StoreAudit);
  }

  /** A request that is due a record writes it undisturbed. */
  lemma {:induction false} WritesItsLine(c: Codec, s: System, t: nat) returns (s': System)
    requires Reachable(c, s) && NobodyWrites(s) && t < |s.requests| && s.requests[t].phase.Auditing?
    ensures Reachable(c, s') && NobodyWrites(s')
    ensures |s'.requests| == |s.requests| && s'.requests == s.requests[t := s'.requests[t]]
    ensures var r, r' := s.requests[t], s'.requests[t];
            && r'.msgId == r.msgId
            && r'.intentLine == (r.intentLine || r.phase.kind.Intent?)
            && r'.outcomeLine == (r.outcomeLine || r.phase.kind.Outcome?)
            && (if r.phase.kind.Intent? then r'.phase.Executing? else r'.phase.Finished?)
  {
    s' := StoresItsEntry(c, s, t);
    s' := Reached(c, s', t, LockTrace);
    s' := Reached(c, s', t, ReadLink);
    s' := Reached(c, s', t, WriteHead);
    s' := Reached(c, s', t, WriteLine);
  }

  /** Whenever a dispatch is in flight and no record is being written, a retry under its msg_id that
      a gate denies takes its name off the walk while it is still in flight. */
  lemma {:induction false} RetryHidesADispatch(c: Codec, s: System, t: nat, gate: G.Gate) returns (s': System)
    requires c.Lawful() && Reachable(c, s) && NobodyWrites(s) && InFlight(s, t)
    ensures Reachable(c, s') && InFlight(s', t) && s'.requests[t] == s.requests[t]
    ensures !Names(FindingsOf(WalkOf(c, s'.files.data)), s.requests[t].msgId)
  {
    var n := |s.requests|;
    s' := Reached(c, s, n, Arrive(s.requests[t].msgId));
    s' := Reached(c, s', n, Deny(gate));
    s' := WritesItsLine(c, s', n);
    UnnamedIff(c, s', t);
  }

  /** Such a moment exists: one request has written its intent line and nothing else has happened. */
  lemma {:induction false} ADispatchInFlight(c: Codec, msgId: string) returns (s: System)
    ensures Reachable(c, s) && NobodyWrites(s) && |s.requests| == 1
    ensures s.requests[0].msgId == msgId && s.requests[0].phase.Executing? && InFlight(s, 0)
  {
    assert Runs(c, [], BOOT);
    s := Reached(c, BOOT, 0, Arrive(msgId));
    s := Reached(c, s, 0, Admit);
    s := WritesItsLine(c, s, 0);
  }
}
