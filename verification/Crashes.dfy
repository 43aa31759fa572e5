/** Interleaved requests in a process that can die at any moment, over files that can lose their head. */
module Crashes {
  import opened Bytes
  import opened Trace
  import opened Walk
  import opened WalkMeaning
  import opened Invokes
  import A = Audit
  import F = FaultRuns

  /** The running system with what happened to its export so far: one write for every append that got
      as far as its head, with the bytes that reached the file, and one loss for every head that
      was lost and not replaced. `headGone`: the head was lost while an append held its link. */
  datatype Plant = Plant(sys: System, history: seq<F.Event>, headGone: bool)

  const FRESH := Plant(BOOT, [], false)

  datatype Happening =
    | Step(thread: nat, action: Action)
    | HeadLost
    | Crash(kept: nat)     // the process dies; of a line being written, `kept` bytes reach the file
    | LineFails(kept: nat) // the line's write raises after `kept` bytes; the request goes on

  /** Some thread is between its head and the end of its line. */
  predicate MidAppend(s: System) {
    && s.traceLock.Some? && s.traceLock.value.1.HeadWritten?
    && s.traceLock.value.0 < |s.requests| && s.requests[s.traceLock.value.0].phase.Writing?
  }

  predicate Possible(p: Plant, h: Happening) {
    && (h.Step? ==> Enabled(p.sys, h.thread, h.action))
    && (h.LineFails? ==> MidAppend(p.sys))
  }

  function Loss(headGone: bool): seq<F.Event> {
    if headGone then [F.LoseHead] else []
  }

  /** A request whose write ended: whether the line is on file, and where it goes next. */
  function Ended(r: Request, landed: bool, phase: Phase): Request
    requires r.phase.Writing?
  {
    r.(phase := phase, intentLine := r.intentLine || (landed && r.phase.kind.Intent?),
       outcomeLine := r.outcomeLine || (landed && r.phase.kind.Outcome?))
  }

  /** Nobody survives; the request whose line just made it has it on file. */
  function Killed(requests: seq<Request>, landed: Option<nat>): (dead: seq<Request>)
    ensures |dead| == |requests|
  {
    seq(|requests|, i requires 0 <= i < |requests| =>
      var r := requests[i];
      if landed == Some(i) && r.phase.Writing? then Ended(r, true, Finished) else r.(phase := Finished))
  }

  /** What a restart finds: the files, no threads, no locks and an empty audit chain. */
  function Restarted(s: System, files: Export, landed: Option<nat>): System {
    s.(requests := Killed(s.requests, landed), files := files, entries := [], owner := [], auditLock := None, traceLock := None)
  }

  /** The files after `kept` bytes of the line in hand, whether those hold its whole text, and the
      history that write adds to. */
  function CutFiles(c: Codec, s: System, kept: nat): Export
    requires MidAppend(s)
  {
    var chunk := Chunk(c, s.files.data, s.traceLock.value.1.record);
    Export(s.files.data + chunk[..F.Min(kept, |chunk|)], s.files.head)
  }

  predicate Lands(c: Codec, s: System, kept: nat)
    requires MidAppend(s)
  {
    kept >= |Separator(s.files.data)| + |c.canon(s.traceLock.value.1.record)|
  }

  function CutHistory(p: Plant, kept: nat): seq<F.Event>
    requires MidAppend(p.sys)
  {
    p.history + [F.Write(BodyOf(p.sys.requests[p.sys.traceLock.value.0]), kept)] + Loss(p.headGone)
  }

  function Next(c: Codec, p: Plant, h: Happening): Plant
    requires Possible(p, h)
  {
    var s := p.sys;
    match h
    case Step(t, a) =>
      var s' := Act(c, s, t, a);
      if a.WriteHead? then Plant(s', p.history, false)
      else if a.WriteLine? then
        var chunk := Chunk(c, s.files.data, s.traceLock.value.1.record);
        Plant(s', p.history + [F.Write(BodyOf(s.requests[t]), |chunk|)] + Loss(p.headGone), false)
      else if a.TraceFails? then Plant(s', p.history + Loss(p.headGone), false)
      else Plant(s', p.history, p.headGone)
    case HeadLost =>
      var s' := s.(files := s.files.(head := None));
      if s.traceLock.Some? && !s.traceLock.value.1.Locked? then Plant(s', p.history, true)
      else Plant(s', p.history + [F.LoseHead], false)
    case Crash(kept) =>
      if MidAppend(s) then
        var landed := if Lands(c, s, kept) then Some(s.traceLock.value.0) else None;
        Plant(Restarted(s, CutFiles(c, s, kept), landed), CutHistory(p, kept), false)
      else Plant(Restarted(s, s.files, None), p.history + Loss(p.headGone), false)
    case LineFails(kept) =>
      var t := s.traceLock.value.0;
      var r := s.requests[t];
      var s' := s.(requests := s.requests[t := Ended(r, Lands(c, s, kept), AfterLine(r))], files := CutFiles(c, s, kept), traceLock := None);
      Plant(s', CutHistory(p, kept), false)
  }

  ghost predicate Lives(c: Codec, happenings: seq<Happening>, p: Plant) {
    if happenings == [] then p == FRESH
    else
      var front, last := happenings[..|happenings| - 1], happenings[|happenings| - 1];
      exists before :: Lives(c, front, before) && Possible(before, last) && p == Next(c, before, last)
  }

  // ---- the files -----------------------------------------------------------------------------

  /** The export is what its history of writes and losses made it; what the holder of the trace lock
      has in hand fits it. */
  ghost predicate FilesFit(c: Codec, p: Plant) {
    var e, s := F.Run(c, EMPTY, p.history), p.sys;
    && (s.traceLock.Some? ==> s.traceLock.value.0 < |s.requests| && s.requests[s.traceLock.value.0].phase.Writing?)
    && if s.traceLock.Some? && s.traceLock.value.1.Linked? then
         && s.traceLock.value.1.link == NextLink(c, e)
         && s.files == Export(e.data, if p.headGone then None else e.head)
       else if s.traceLock.Some? && s.traceLock.value.1.HeadWritten? then
         var r := s.traceLock.value.1.record;
         && r == NextRecord(c, e, BodyOf(s.requests[s.traceLock.value.0]))
         && s.files == Export(e.data, if p.headGone then None else Some(HeadOf(c, r)))
       else !p.headGone && s.files == e
  }

  lemma {:induction false} RunWithLoss(c: Codec, history: seq<F.Event>, headGone: bool)
    ensures F.Run(c, EMPTY, history + Loss(headGone))
         == Export(F.Run(c, EMPTY, history).data, if headGone then None else F.Run(c, EMPTY, history).head)
  {
    if headGone {
      F.RunLast(c, history, F.LoseHead);
    } else {
      assert history + [] == history;
    }
  }

  /** One append, whole or cut, and the loss of its head if it came in between. */
  lemma {:induction false} RunWithWrite(c: Codec, history: seq<F.Event>, body: Body, kept: nat, headGone: bool)
    ensures var e := F.Run(c, EMPTY, history);
            var r := NextRecord(c, e, body);
            var chunk := Chunk(c, e.data, r);
            F.Run(c, EMPTY, history + [F.Write(body, kept)] + Loss(headGone))
            == Export(e.data + chunk[..F.Min(kept, |chunk|)], if headGone then None else Some(HeadOf(c, r)))
  {
    F.RunLast(c, history, F.Write(body, kept));
    RunWithLoss(c, history + [F.Write(body, kept)], headGone);
  }

  lemma {:induction false} StepFits(c: Codec, p: Plant, t: nat, a: Action)
    requires FilesFit(c, p) && Enabled(p.sys, t, a)
    ensures FilesFit(c, Next(c, p, Step(t, a)))
  {
    var s := p.sys;
    if a.WriteLine? {
      var chunk := Chunk(c, s.files.data, s.traceLock.value.1.record);
      RunWithWrite(c, p.history, BodyOf(s.requests[t]), |chunk|, p.headGone);
      assert chunk[..|chunk|] == chunk;
    } else if a.TraceFails? {
      RunWithLoss(c, p.history, p.headGone);
    }
  }

  lemma {:induction false} HappeningFits(c: Codec, p: Plant, h: Happening)
    requires FilesFit(c, p) && Possible(p, h)
    ensures FilesFit(c, Next(c, p, h))
  {
    match h {
      case Step(t, a) => StepFits(c, p, t, a);
      case HeadLost => F.RunLast(c, p.history, F.LoseHead);
      case Crash(kept) =>
        if MidAppend(p.sys) {
          RunWithWrite(c, p.history, BodyOf(p.sys.requests[p.sys.traceLock.value.0]), kept, p.headGone);
        } else {
          RunWithLoss(c, p.history, p.headGone);
        }
      case LineFails(kept) =>
        RunWithWrite(c, p.history, BodyOf(p.sys.requests[p.sys.traceLock.value.0]), kept, p.headGone);
    }
  }

  lemma {:induction false} FilesHold(c: Codec, happenings: seq<Happening>, p: Plant)
    requires Lives(c, happenings, p)
    ensures FilesFit(c, p)
  {
    if happenings != [] {
      var front, last := happenings[..|happenings| - 1], happenings[|happenings| - 1];
      var before :| Lives(c, front, before) && Possible(before, last) && p == Next(c, before, last);
      FilesHold(c, front, before);
      HappeningFits(c, before, last);
    } else {
      assert F.Run(c, EMPTY, []) == EMPTY;
    }
  }

  /** Through every interleaving of requests with process deaths at any moment, torn lines, lost heads
      and failed writes: the walk is quiet exactly while no line was torn and no record was written
      on top of a loss, and the readable numbers are strictly increasing. */
  lemma {:induction false} NoSilentCrash(c: Codec, happenings: seq<Happening>, p: Plant)
    requires c.Lawful() && Lives(c, happenings, p)
    ensures Quiet(WalkOf(c, p.sys.files.data)) <==> !F.Reported(F.Effects(c, EMPTY, p.history))
    ensures F.Reported(F.Effects(c, EMPTY, p.history)) ==> WalkExit(c, p.sys.files.data) != EXIT_WHOLE
    ensures F.Increasing(c, Lines(p.sys.files.data))
  {
    FilesHold(c, happenings, p);
    F.NoSilentFault(c, p.history);
    assert Lines(EMPTY.data) == [];
    F.NumbersNeverGoBack(c, EMPTY, p.history);
  }

  lemma {:induction false} HistoryGrows(c: Codec, p: Plant, h: Happening)
    requires Possible(p, h)
    ensures p.history <= Next(c, p, h).history
  {
  }

  /** What happened determines where the process stands. */
  lemma {:induction false} OneLife(c: Codec, happenings: seq<Happening>, p: Plant, q: Plant)
    requires Lives(c, happenings, p) && Lives(c, happenings, q)
    ensures p == q
  {
    if happenings != [] {
      var front, last := happenings[..|happenings| - 1], happenings[|happenings| - 1];
      var a :| Lives(c, front, a) && Possible(a, last) && p == Next(c, a, last);
      var b :| Lives(c, front, b) && Possible(b, last) && q == Next(c, b, last);
      OneLife(c, front, a, b);
    }
  }

  lemma {:induction false} EarlierHistory(c: Codec, happenings: seq<Happening>, p: Plant, all: seq<Happening>, q: Plant)
    requires happenings <= all && Lives(c, happenings, p) && Lives(c, all, q)
    ensures p.history <= q.history
    decreases |all|
  {
    if |happenings| == |all| {
      assert happenings == all;
      OneLife(c, happenings, p, q);
    } else {
      var front, last := all[..|all| - 1], all[|all| - 1];
      var before :| Lives(c, front, before) && Possible(before, last) && q == Next(c, before, last);
      EarlierHistory(c, happenings, p, front, before);
      HistoryGrows(c, before, last);
    }
  }

  lemma {:induction false} StillReported(c: Codec, history: seq<F.Event>, longer: seq<F.Event>)
    requires c.Lawful() && history <= longer && F.Reported(F.Effects(c, EMPTY, history))
    ensures WalkExit(c, F.Run(c, EMPTY, longer).data) != EXIT_WHOLE
  {
    var more := longer[|history|..];
    assert history + more == longer;
    F.ReportsStay(c, history, more);
  }

  /** What was reported once is reported for ever: no later request, death or loss brings the walk
      back to exit 0. */
  lemma {:induction false} ReportedForever(c: Codec, happenings: seq<Happening>, p: Plant, later: seq<Happening>, q: Plant)
    requires c.Lawful() && Lives(c, happenings, p) && Lives(c, happenings + later, q)
    requires F.Reported(F.Effects(c, EMPTY, p.history))
    ensures WalkExit(c, q.sys.files.data) != EXIT_WHOLE
  {
    EarlierHistory(c, happenings, p, happenings + later, q);
    StillReported(c, p.history, q.history);
    FilesHold(c, happenings + later, q);
  }

  ghost predicate AllRecorded(c: Codec, history: seq<F.Event>) {
    forall i | 0 <= i < |history| :: F.Effects(c, EMPTY, history)[i] == F.Recorded
  }

  lemma {:induction false} OneMoreRecorded(c: Codec, history: seq<F.Event>, ev: F.Event)
    requires AllRecorded(c, history) && F.EffectOf(c, F.Run(c, EMPTY, history), ev) == F.Recorded
    ensures AllRecorded(c, history + [ev])
  {
    F.RunLast(c, history, ev);
  }

  lemma {:induction false} WholeIsRecorded(c: Codec, history: seq<F.Event>, body: Body)
    requires AllRecorded(c, history)
    ensures var e := F.Run(c, EMPTY, history);
            AllRecorded(c, history + [F.Write(body, |Chunk(c, e.data, NextRecord(c, e, body))|)])
  {
    var e := F.Run(c, EMPTY, history);
    OneMoreRecorded(c, history, F.Write(body, |Chunk(c, e.data, NextRecord(c, e, body))|));
  }

  lemma NoLoss(history: seq<F.Event>)
    ensures history + Loss(false) == history
  {
    assert history + [] == history;
  }

  lemma {:induction false} StepIsRecorded(c: Codec, p: Plant, t: nat, a: Action)
    requires FilesFit(c, p) && Enabled(p.sys, t, a)
    requires !p.headGone && AllRecorded(c, p.history)
    ensures !Next(c, p, Step(t, a)).headGone && AllRecorded(c, Next(c, p, Step(t, a)).history)
  {
    if a.WriteLine? {
      var body := BodyOf(p.sys.requests[t]);
      WholeIsRecorded(c, p.history, body);
      NoLoss(p.history + [F.Write(body, |Chunk(c, p.sys.files.data, p.sys.traceLock.value.1.record)|)]);
    } else {
      NoLoss(p.history);
    }
  }

  lemma {:induction false} UndisturbedIsRecorded(c: Codec, happenings: seq<Happening>, p: Plant)
    requires Lives(c, happenings, p)
    requires forall i | 0 <= i < |happenings| :: happenings[i].Step?
    ensures !p.headGone && AllRecorded(c, p.history)
  {
    if happenings != [] {
      var front, last := happenings[..|happenings| - 1], happenings[|happenings| - 1];
      var before :| Lives(c, front, before) && Possible(before, last) && p == Next(c, before, last);
      UndisturbedIsRecorded(c, front, before);
      FilesHold(c, front, before);
      StepIsRecorded(c, before, last.thread, last.action);
    }
  }

  /** Without deaths and lost heads, however the requests interleave and whichever writes fail to
      start, the walk has no failure, and every finding is a dispatch that never reported. */
  lemma {:induction false} UndisturbedWalk(c: Codec, happenings: seq<Happening>, p: Plant)
    requires c.Lawful() && Lives(c, happenings, p)
    requires forall i | 0 <= i < |happenings| :: happenings[i].Step?
    ensures WalkOf(c, p.sys.files.data).failures == []
    ensures forall f | f in FindingsOf(WalkOf(c, p.sys.files.data)) :: f.NeverReported?
  {
    UndisturbedIsRecorded(c, happenings, p);
    FilesHold(c, happenings, p);
    F.FaultFree(c, p.history);
  }

  // ---- who is named ---------------------------------------------------------------------------

  ghost predicate OnFile(c: Codec, p: Plant, kind: Kind, msgId: string) {
    HasLine(c, Lines(p.sys.files.data), kind, msgId) <==> SomeoneWrote(p.sys.requests, kind, msgId)
  }

  /** What the bytes of an append that reached the file add to the lines. */
  lemma {:induction false} LineLands(c: Codec, data: bytes, r: Record, kept: nat, kind: Kind, msgId: string)
    requires c.Lawful() && r.body.corr.Some?
    ensures var chunk := Chunk(c, data, r);
            HasLine(c, Lines(data + chunk[..F.Min(kept, |chunk|)]), kind, msgId) <==>
              || HasLine(c, Lines(data), kind, msgId)
              || (kept >= |Separator(data)| + |c.canon(r)| && r.body.kind == kind && r.body.corr.value == msgId)
  {
    var chunk, text := Chunk(c, data, r), c.canon(r);
    var cut, start := F.Min(kept, |chunk|), |Separator(data)|;
    CutWrite(c, data, r, cut);
    assert c.parse(text) == Object(FieldsOf(r));
    if start < cut {
      var last := if cut < start + |text| then text[..cut - start] else text;
      HasLineSplit(c, Lines(data), last, kind, msgId);
      if cut < start + |text| {
        assert c.parse(text[..cut - start]) == NotJson;
      }
    }
  }

  lemma {:induction false} DeadWrote(requests: seq<Request>, landed: Option<nat>, kind: Kind, msgId: string)
    requires landed.Some? ==> landed.value < |requests| && requests[landed.value].phase.Writing?
    ensures SomeoneWrote(Killed(requests, landed), kind, msgId) <==>
              || SomeoneWrote(requests, kind, msgId)
              || (landed.Some? && requests[landed.value].msgId == msgId && requests[landed.value].phase.kind == kind)
  {
    var dead := Killed(requests, landed);
    forall u | 0 <= u < |requests|
      ensures dead[u].msgId == requests[u].msgId
      ensures Wrote(dead[u], kind) <==> Wrote(requests[u], kind) || (landed == Some(u) && requests[u].phase.kind == kind)
    {
    }
    if u :| 0 <= u < |requests| && requests[u].msgId == msgId && Wrote(requests[u], kind) {
      assert Wrote(dead[u], kind) && dead[u].msgId == msgId;
    }
    if landed.Some? && requests[landed.value].msgId == msgId && requests[landed.value].phase.kind == kind {
      assert Wrote(dead[landed.value], kind) && dead[landed.value].msgId == msgId;
    }
  }

  lemma {:induction false} StepData(c: Codec, s: System, t: nat, a: Action)
    requires Enabled(s, t, a)
    ensures Act(c, s, t, a).files.data
         == s.files.data + if a.WriteLine? then Chunk(c, s.files.data, s.traceLock.value.1.record) else []
  {
    assert s.files.data + [] == s.files.data;
  }

  lemma {:induction false} StepOnFile(c: Codec, p: Plant, t: nat, a: Action, kind: Kind, msgId: string)
    requires c.Lawful() && FilesFit(c, p) && OnFile(c, p, kind, msgId) && Enabled(p.sys, t, a)
    ensures OnFile(c, Next(c, p, Step(t, a)), kind, msgId)
  {
    WroteStep(c, p.sys, t, a, kind, msgId);
    StepData(c, p.sys, t, a);
    if a.WriteLine? {
      var r := p.sys.traceLock.value.1.record;
      var chunk := Chunk(c, p.sys.files.data, r);
      LineLands(c, p.sys.files.data, r, |chunk|, kind, msgId);
      assert chunk[..|chunk|] == chunk;
    } else {
      assert p.sys.files.data + [] == p.sys.files.data;
    }
  }

  lemma {:induction false} CrashOnFile(c: Codec, p: Plant, kept: nat, kind: Kind, msgId: string)
    requires c.Lawful() && FilesFit(c, p) && OnFile(c, p, kind, msgId)
    ensures OnFile(c, Next(c, p, Crash(kept)), kind, msgId)
  {
    var s := p.sys;
    if MidAppend(s) {
      LineLands(c, s.files.data, s.traceLock.value.1.record, kept, kind, msgId);
      DeadWrote(s.requests, if Lands(c, s, kept) then Some(s.traceLock.value.0) else None, kind, msgId);
    } else {
      DeadWrote(s.requests, None, kind, msgId);
    }
  }

  lemma {:induction false} EndedWrote(requests: seq<Request>, t: nat, landed: bool, phase: Phase, kind: Kind, msgId: string)
    requires t < |requests| && requests[t].phase.Writing?
    ensures SomeoneWrote(requests[t := Ended(requests[t], landed, phase)], kind, msgId) <==>
              || SomeoneWrote(requests, kind, msgId)
              || (landed && requests[t].msgId == msgId && requests[t].phase.kind == kind)
  {
    var after := requests[t := Ended(requests[t], landed, phase)];
    forall u | 0 <= u < |requests|
      ensures after[u].msgId == requests[u].msgId
      ensures Wrote(after[u], kind) <==> Wrote(requests[u], kind) || (landed && u == t && requests[t].phase.kind == kind)
    {
    }
    if u :| 0 <= u < |requests| && requests[u].msgId == msgId && Wrote(requests[u], kind) {
      assert Wrote(after[u], kind) && after[u].msgId == msgId;
    }
    if landed && requests[t].msgId == msgId && requests[t].phase.kind == kind {
      assert Wrote(after[t], kind) && after[t].msgId == msgId;
    }
  }

  lemma {:induction false} FailureOnFile(c: Codec, p: Plant, kept: nat, kind: Kind, msgId: string)
    requires c.Lawful() && FilesFit(c, p) && OnFile(c, p, kind, msgId) && MidAppend(p.sys)
    ensures OnFile(c, Next(c, p, LineFails(kept)), kind, msgId)
  {
    var s := p.sys;
    var t := s.traceLock.value.0;
    LineLands(c, s.files.data, s.traceLock.value.1.record, kept, kind, msgId);
    EndedWrote(s.requests, t, Lands(c, s, kept), AfterLine(s.requests[t]), kind, msgId);
  }

  lemma {:induction false} NamesHold(c: Codec, happenings: seq<Happening>, p: Plant, kind: Kind, msgId: string)
    requires c.Lawful() && Lives(c, happenings, p)
    ensures OnFile(c, p, kind, msgId)
  {
    if happenings == [] {
      assert Lines(EMPTY.data) == [];
    } else {
      var front, last := happenings[..|happenings| - 1], happenings[|happenings| - 1];
      var before :| Lives(c, front, before) && Possible(before, last) && p == Next(c, before, last);
      NamesHold(c, front, before, kind, msgId);
      FilesHold(c, front, before);
      match last {
        case Step(t, a) => StepOnFile(c, before, t, a, kind, msgId);
        case HeadLost =>
        case Crash(kept) => CrashOnFile(c, before, kept, kind, msgId);
        case LineFails(kept) => FailureOnFile(c, before, kept, kind, msgId);
      }
    }
  }

  /** Dead or alive: at every moment of every such run the walk names exactly the ids under which an
      intent line is on file from some request and an outcome line from none. */
  lemma {:induction false} NamedDeadOrAlive(c: Codec, happenings: seq<Happening>, p: Plant, msgId: string)
    requires c.Lawful() && Lives(c, happenings, p)
    ensures Names(FindingsOf(WalkOf(c, p.sys.files.data)), msgId) <==>
              SomeoneWrote(p.sys.requests, Intent, msgId) && !SomeoneWrote(p.sys.requests, Outcome, msgId)
  {
    NamesHold(c, happenings, p, Intent, msgId);
    NamesHold(c, happenings, p, Outcome, msgId);
    NamedExactly(c, Lines(p.sys.files.data), !EndsWithNewline(p.sys.files.data), msgId);
  }

  /** A dispatch whose process died before its outcome line is named after every later event, unless
      another request of the same msg_id has an outcome line. */
  lemma {:induction false} TheDeadAreNamed(c: Codec, happenings: seq<Happening>, p: Plant, t: nat)
    requires c.Lawful() && Lives(c, happenings, p) && InFlight(p.sys, t)
    ensures !Names(FindingsOf(WalkOf(c, p.sys.files.data)), p.sys.requests[t].msgId) <==>
              exists u | 0 <= u < |p.sys.requests| ::
                u != t && p.sys.requests[u].msgId == p.sys.requests[t].msgId && p.sys.requests[u].outcomeLine
  {
    var requests, msgId := p.sys.requests, p.sys.requests[t].msgId;
    NamedDeadOrAlive(c, happenings, p, msgId);
    assert Wrote(requests[t], Intent) && SomeoneWrote(requests, Intent, msgId);
    if u :| 0 <= u < |requests| && requests[u].msgId == msgId && requests[u].outcomeLine {
      assert Wrote(requests[u], Outcome);
    }
  }

  // ---- the audit chain ------------------------------------------------------------------------

  lemma {:induction false} RestartAudits(s: System, files: Export, landed: Option<nat>)
    ensures AuditInv(Restarted(s, files, landed))
  {
  }

  /** A write that ends, however it ends, leaves the chain and everybody's hashes alone. */
  lemma {:induction false} FailureAudits(c: Codec, p: Plant, kept: nat)
    requires AuditInv(p.sys) && MidAppend(p.sys)
    ensures AuditInv(Next(c, p, LineFails(kept)).sys)
  {
    var s' := Next(c, p, LineFails(kept)).sys;
    assert s'.entries == p.sys.entries && s'.owner == p.sys.owner;
    HashesStay(p.sys, s');
    LinksStay(p.sys, s');
  }

  lemma {:induction false} LossAudits(c: Codec, p: Plant)
    requires AuditInv(p.sys)
    ensures AuditInv(Next(c, p, HeadLost).sys)
  {
    HashesStay(p.sys, Next(c, p, HeadLost).sys);
    LinksStay(p.sys, Next(c, p, HeadLost).sys);
  }

  lemma {:induction false} HappeningAudits(c: Codec, p: Plant, h: Happening)
    requires AuditInv(p.sys) && Possible(p, h)
    ensures AuditInv(Next(c, p, h).sys)
  {
    match h {
      case Step(t, a) => AuditStep(c, p.sys, t, a);
      case HeadLost => LossAudits(c, p);
      case LineFails(kept) => FailureAudits(c, p, kept);
      case Crash(kept) =>
        if MidAppend(p.sys) {
          RestartAudits(p.sys, CutFiles(c, p.sys, kept), if Lands(c, p.sys, kept) then Some(p.sys.traceLock.value.0) else None);
        } else {
          RestartAudits(p.sys, p.sys.files, None);
        }
    }
  }

  lemma {:induction false} AuditHoldsThrough(c: Codec, happenings: seq<Happening>, p: Plant)
    requires Lives(c, happenings, p)
    ensures AuditInv(p.sys)
  {
    if happenings != [] {
      var front, last := happenings[..|happenings| - 1], happenings[|happenings| - 1];
      var before :| Lives(c, front, before) && Possible(before, last) && p == Next(c, before, last);
      AuditHoldsThrough(c, front, before);
      HappeningAudits(c, before, last);
    }
  }

  /** Across restarts, each of which begins an empty chain, with lost heads and failed writes in
      between, the audit chain is sound. */
  lemma {:induction false} AuditSurvives(c: Codec, happenings: seq<Happening>, p: Plant)
    requires Lives(c, happenings, p)
    ensures SoundChain(p.sys)
  {
    AuditHoldsThrough(c, happenings, p);
    AuditInvIsSound(p.sys);
  }
}
