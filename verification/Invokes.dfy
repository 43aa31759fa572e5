/** Any number of requests running at once: each is a small program, and every log append is four
    steps under that log's lock. */
module Invokes {
  import opened Bytes
  import opened Trace
  import A = Audit
  import G = Gateway

  // ---- one writer after another ------------------------------------------------------------

  /** Record k of a log written from an empty file: number k + 1, bound to the line above it. */
  function RecordAt(bodies: seq<Body>, lines: seq<bytes>, k: nat): Record
    requires k < |bodies| && k < |lines|
  {
    Record(bodies[k], k + 1, if k == 0 then Genesis else Sha256(lines[k - 1]), None)
  }

  ghost predicate AreLog(c: Codec, lines: seq<bytes>, bodies: seq<Body>) {
    |lines| == |bodies| && forall k | 0 <= k < |lines| :: lines[k] == c.canon(RecordAt(bodies, lines, k))
  }

  /** The file holds exactly these records, in this order, and the head describes the last. */
  ghost predicate IsLog(c: Codec, e: Export, bodies: seq<Body>) {
    var lines := Lines(e.data);
    && AreLog(c, lines, bodies)
    && EndsWithNewline(e.data)
    && e.head == if lines == [] then None else Some(Head(|lines|, Sha256(lines[|lines| - 1])))
  }

  lemma {:induction false} AreLogAppend(c: Codec, lines: seq<bytes>, bodies: seq<Body>, r: Record)
    requires AreLog(c, lines, bodies)
    requires r.seqNo == |lines| + 1 && r.note == None
    requires r.prev == if lines == [] then Genesis else Sha256(lines[|lines| - 1])
    ensures AreLog(c, lines + [c.canon(r)], bodies + [r.body])
  {
    var all, more := lines + [c.canon(r)], bodies + [r.body];
    forall k | 0 <= k < |all| ensures all[k] == c.canon(RecordAt(more, all, k)) {
      if k < |lines| {
        assert RecordAt(more, all, k) == RecordAt(bodies, lines, k);
      } else {
        assert RecordAt(more, all, k) == r;
      }
    }
  }

  lemma LogAppend(c: Codec, e: Export, bodies: seq<Body>, last: Body)
    requires c.Lawful() && IsLog(c, e, bodies)
    ensures IsLog(c, Appended(c, e, last), bodies + [last])
  {
    var r := NextRecord(c, e, last);
    AreLogAppend(c, Lines(e.data), bodies, r);
    WholeWrite(c, e.data, r);
  }

  lemma EmptyLog(c: Codec)
    ensures IsLog(c, EMPTY, [])
  {
    assert Lines(EMPTY.data) == [];
  }

  lemma AppendLast(c: Codec, front: seq<Body>, last: Body)
    ensures AppendAll(c, EMPTY, front + [last]) == Appended(c, AppendAll(c, EMPTY, front), last)
  {
    assert (front + [last])[..|front|] == front;
  }

  lemma {:induction false} SerialLog(c: Codec, bodies: seq<Body>)
    requires c.Lawful()
    ensures IsLog(c, AppendAll(c, EMPTY, bodies), bodies)
  {
    if bodies == [] {
      EmptyLog(c);
    } else {
      var front, last := bodies[..|bodies| - 1], bodies[|bodies| - 1];
      assert front + [last] == bodies;
      SerialLog(c, front);
      LogAppend(c, AppendAll(c, EMPTY, front), front, last);
      AppendLast(c, front, last);
    }
  }

  // ---- the program of one request ----------------------------------------------------------

  /** Where a request stands. `hash` is the audit hash of its intent entry, None when that entry
      could not be written or was never due. */
  datatype Phase =
    | Gating
    | Auditing(kind: Kind, hash: Option<A.EntryHash>)
    | Writing(kind: Kind, hash: Option<A.EntryHash>)
    | Executing(hash: Option<A.EntryHash>)
    | Finished

  /** A request: its msg_id, where it stands, which of its lines are in the export, and the gate that
      denied it. */
  datatype Request = Request(msgId: string, phase: Phase, intentLine: bool, outcomeLine: bool, denied: Option<G.Gate>)

  datatype AuditJob = Reading | Linking(entry: A.Entry)

  datatype TraceJob = Locked | Linked(link: Link) | HeadWritten(record: Record)

  /** Everything the requests share. A held lock names its holder and carries that thread's local
      variables. `written` and `owner` are history: the bodies appended so far in lock order, and
      the request that stored each audit entry. */
  datatype System = System(requests: seq<Request>, files: Export, entries: seq<A.Entry>,
                           auditLock: Option<(nat, AuditJob)>, traceLock: Option<(nat, TraceJob)>,
                           written: seq<Body>, owner: seq<nat>)

  const BOOT := System([], EMPTY, [], None, None, [], [])

  datatype Action =
    | Arrive(msgId: string)
    | Refuse              // parser and routing refusals leave no record
    | Deny(gate: G.Gate)  // a gate said no
    | Admit               // every gate passed and an actuator was chosen
    | LockAudit
    | LinkAudit
    | StoreAudit
    | AuditFails          // the intent entry could not be written; dispatch proceeds
    | LockTrace
    | ReadLink
    | WriteHead
    | WriteLine
    | TraceFails          // the line could not be started; dispatch proceeds
    | Execute

  /** One turn of the scheduler. */
  datatype Turn = Turn(thread: nat, action: Action)

  function BodyOf(r: Request): Body
    requires r.phase.Writing?
  {
    Body(r.phase.kind, Some(r.msgId), 0)
  }

  function ContentOf(r: Request): A.Content
    requires r.phase.Auditing?
  {
    A.Content(r.msgId, r.phase.kind, if r.phase.kind.Outcome? then r.phase.hash else None, 0)
  }

  predicate HoldsAudit(s: System, t: nat) {
    s.auditLock.Some? && s.auditLock.value.0 == t
  }

  predicate HoldsTrace(s: System, t: nat) {
    s.traceLock.Some? && s.traceLock.value.0 == t
  }

  predicate Enabled(s: System, t: nat, a: Action) {
    if a.Arrive? then true
    else
      && t < |s.requests|
      && var phase := s.requests[t].phase;
         match a {
           case Refuse | Deny(_) | Admit => phase.Gating?
           case LockAudit => phase.Auditing? && s.auditLock.None?
           case LinkAudit => phase.Auditing? && HoldsAudit(s, t) && s.auditLock.value.1.Reading?
           case StoreAudit => phase.Auditing? && HoldsAudit(s, t) && s.auditLock.value.1.Linking?
           case AuditFails => phase.Auditing? && phase.kind.Intent? && HoldsAudit(s, t)
           case LockTrace => phase.Writing? && s.traceLock.None?
           case ReadLink => phase.Writing? && HoldsTrace(s, t) && s.traceLock.value.1.Locked?
           case WriteHead => phase.Writing? && HoldsTrace(s, t) && s.traceLock.value.1.Linked?
           case WriteLine => phase.Writing? && HoldsTrace(s, t) && s.traceLock.value.1.HeadWritten?
           case TraceFails => phase.Writing? && HoldsTrace(s, t) && !s.traceLock.value.1.HeadWritten?
           case Execute => phase.Executing?
         }
  }

  function Moved(s: System, t: nat, phase: Phase): System
    requires t < |s.requests|
  {
    s.(requests := s.requests[t := s.requests[t].(phase := phase)])
  }

  /** What follows a request's trace line. */
  function AfterLine(r: Request): Phase
    requires r.phase.Writing?
  {
    if r.phase.kind.Intent? then Executing(r.phase.hash) else Finished
  }

  function Act(c: Codec, s: System, t: nat, a: Action): System
    requires Enabled(s, t, a)
  {
    match a
    case Arrive(msgId) => s.(requests := s.requests + [Request(msgId, Gating, false, false, None)])
    case Refuse => Moved(s, t, Finished)
    case Deny(gate) => s.(requests := s.requests[t := s.requests[t].(phase := Auditing(Outcome, None), denied := Some(gate))])
    case Admit => Moved(s, t, Auditing(Intent, None))
    case LockAudit => s.(auditLock := Some((t, Reading)))
    case LinkAudit => s.(auditLock := Some((t, Linking(A.Stored(s.entries, ContentOf(s.requests[t]))))))
    case StoreAudit =>
      var entry, phase := s.auditLock.value.1.entry, s.requests[t].phase;
      Moved(s, t, Writing(phase.kind, if phase.kind.Intent? then Some(entry.hash) else phase.hash))
      .(entries := s.entries + [entry], owner := s.owner + [t], auditLock := None)
    case AuditFails => Moved(s, t, Writing(Intent, None)).(auditLock := None)
    case LockTrace => s.(traceLock := Some((t, Locked)))
    case ReadLink => s.(traceLock := Some((t, Linked(NextLink(c, s.files)))))
    case WriteHead =>
      var r := Numbered(s.traceLock.value.1.link, BodyOf(s.requests[t]));
      s.(traceLock := Some((t, HeadWritten(r))), files := s.files.(head := Some(HeadOf(c, r))))
    case WriteLine =>
      var r, q := s.traceLock.value.1.record, s.requests[t];
      var q' := Request(q.msgId, AfterLine(q), q.intentLine || q.phase.kind.Intent?, q.outcomeLine || q.phase.kind.Outcome?, q.denied);
      s.(traceLock := None, files := s.files.(data := s.files.data + Chunk(c, s.files.data, r)),
         written := s.written + [BodyOf(q)], requests := s.requests[t := q'])
    case TraceFails => Moved(s, t, AfterLine(s.requests[t])).(traceLock := None)
    case Execute => Moved(s, t, Auditing(Outcome, s.requests[t].phase.hash))
  }

  /** The state a schedule leads to. */
  ghost predicate Runs(c: Codec, schedule: seq<Turn>, s: System) {
    if schedule == [] then s == BOOT
    else
      var Turn(t, a) := schedule[|schedule| - 1];
      exists before :: Runs(c, schedule[..|schedule| - 1], before) && Enabled(before, t, a) && s == Act(c, before, t, a)
  }

  ghost predicate Reachable(c: Codec, s: System) {
    exists schedule :: Runs(c, schedule, s)
  }

  // ---- the trace log -----------------------------------------------------------------------

  /** What the holder of the trace lock has in hand fits the files it is about to extend. */
  ghost predicate TraceInv(c: Codec, s: System) {
    var serial := AppendAll(c, EMPTY, s.written);
    && (s.traceLock.Some? ==> s.traceLock.value.0 < |s.requests| && s.requests[s.traceLock.value.0].phase.Writing?)
    && if s.traceLock.Some? && s.traceLock.value.1.HeadWritten? then
         var r := s.traceLock.value.1.record;
         && r == NextRecord(c, serial, BodyOf(s.requests[s.traceLock.value.0]))
         && s.files == Export(serial.data, Some(HeadOf(c, r)))
       else
         && s.files == serial
         && (s.traceLock.Some? && s.traceLock.value.1.Linked? ==> s.traceLock.value.1.link == NextLink(c, serial))
  }

  lemma {:induction false} TraceLine(c: Codec, s: System, t: nat)
    requires TraceInv(c, s) && Enabled(s, t, WriteLine)
    ensures TraceInv(c, Act(c, s, t, WriteLine))
  {
    AppendLast(c, s.written, BodyOf(s.requests[t]));
  }

  lemma {:induction false} TraceStep(c: Codec, s: System, t: nat, a: Action)
    requires TraceInv(c, s) && Enabled(s, t, a)
    ensures TraceInv(c, Act(c, s, t, a))
  {
    if a.WriteLine? {
      TraceLine(c, s, t);
    }
  }

  lemma {:induction false} TraceHolds(c: Codec, schedule: seq<Turn>, s: System)
    requires Runs(c, schedule, s)
    ensures TraceInv(c, s)
  {
    if schedule != [] {
      var front := schedule[..|schedule| - 1];
      var Turn(t, a) := schedule[|schedule| - 1];
      var before :| Runs(c, front, before) && Enabled(before, t, a) && s == Act(c, before, t, a);
      TraceHolds(c, front, before);
      TraceStep(c, before, t, a);
    }
  }

  /** Whatever the interleaving, the export is what one writer would have left by appending the same
      records in lock order: nothing lost, numbers 1..N, every line bound to the line physically
      above it, and the head describing the last one (or the one being written). */
  lemma InterleavingIsSerial(c: Codec, s: System)
    requires c.Lawful() && Reachable(c, s)
    ensures IsLog(c, AppendAll(c, EMPTY, s.written), s.written)
    ensures s.files.data == AppendAll(c, EMPTY, s.written).data
    ensures s.traceLock.None? ==> IsLog(c, s.files, s.written)
  {
    var schedule :| Runs(c, schedule, s);
    TraceHolds(c, schedule, s);
    SerialLog(c, s.written);
  }

  // ---- which requests have a line ----------------------------------------------------------

  predicate Wrote(r: Request, kind: Kind) {
    if kind.Intent? then r.intentLine else r.outcomeLine
  }

  predicate SomeoneWrote(requests: seq<Request>, kind: Kind, msgId: string) {
    exists t | 0 <= t < |requests| :: requests[t].msgId == msgId && Wrote(requests[t], kind)
  }

  /** A request has a line on file exactly from the moment it wrote it. */
  lemma {:induction false} WroteStep(c: Codec, s: System, t: nat, a: Action, kind: Kind, msgId: string)
    requires Enabled(s, t, a)
    ensures SomeoneWrote(Act(c, s, t, a).requests, kind, msgId) <==>
              || SomeoneWrote(s.requests, kind, msgId)
              || (a.WriteLine? && s.requests[t].msgId == msgId && s.requests[t].phase.kind == kind)
  {
    var s' := Act(c, s, t, a);
    forall u | 0 <= u < |s.requests|
      ensures s'.requests[u].msgId == s.requests[u].msgId
      ensures Wrote(s'.requests[u], kind) <==>
                Wrote(s.requests[u], kind) || (a.WriteLine? && u == t && s.requests[t].phase.kind == kind)
    {
    }
    if u :| 0 <= u < |s.requests| && s.requests[u].msgId == msgId && Wrote(s.requests[u], kind) {
      assert s'.requests[u].msgId == msgId && Wrote(s'.requests[u], kind);
    }
    if a.WriteLine? && s.requests[t].msgId == msgId && s.requests[t].phase.kind == kind {
      assert s'.requests[t].msgId == msgId && Wrote(s'.requests[t], kind);
    }
    if u :| 0 <= u < |s'.requests| && s'.requests[u].msgId == msgId && Wrote(s'.requests[u], kind) {
      assert u < |s.requests|;
    }
  }

  /** A dispatch in flight: its intent line is in the export and its outcome line is not. */
  predicate InFlight(s: System, t: nat) {
    t < |s.requests| && s.requests[t].intentLine && !s.requests[t].outcomeLine
  }

  // ---- the audit chain ---------------------------------------------------------------------

  /** Entry j is the intent entry this request stored, and `hash` is its hash. */
  predicate IsIntentOf(s: System, j: nat, t: nat, hash: A.EntryHash)
    requires |s.owner| == |s.entries|
  {
    && j < |s.entries|
    && s.owner[j] == t
    && s.entries[j].content.kind.Intent?
    && s.entries[j].hash == hash
  }

  /** Some entry before position n is. */
  predicate HasIntentEntry(s: System, n: nat, t: nat, hash: A.EntryHash)
    requires |s.owner| == |s.entries|
  {
    exists j: nat | j < n :: IsIntentOf(s, j, t, hash)
  }

  /** The intent hash a request carries. */
  function HashIn(phase: Phase): Option<A.EntryHash> {
    if phase.Gating? || phase.Finished? || (phase.Auditing? && phase.kind.Intent?) then None else phase.hash
  }

  /** What the holder of the audit lock has in hand is the entry that fits the chain now. */
  predicate AuditLockFits(s: System) {
    s.auditLock.Some? ==>
      var t := s.auditLock.value.0;
      && t < |s.requests|
      && s.requests[t].phase.Auditing?
      && (s.auditLock.value.1.Linking? ==>
            s.auditLock.value.1.entry == A.Stored(s.entries, ContentOf(s.requests[t])))
  }

  predicate OwnersMatch(s: System)
    requires |s.owner| == |s.entries|
  {
    forall i | 0 <= i < |s.entries| :: s.owner[i] < |s.requests| && s.entries[i].content.msgId == s.requests[s.owner[i]].msgId
  }

  /** A request under way carries a hash exactly when it stored an intent with that hash. */
  ghost predicate CarriesItsIntent(s: System, t: nat, hash: A.EntryHash)
    requires |s.owner| == |s.entries| && t < |s.requests|
  {
    !s.requests[t].phase.Finished? ==> (HasIntentEntry(s, |s.entries|, t, hash) <==> HashIn(s.requests[t].phase) == Some(hash))
  }

  ghost predicate HashesBacked(s: System)
    requires |s.owner| == |s.entries|
  {
    forall t: nat, hash | t < |s.requests| :: CarriesItsIntent(s, t, hash)
  }

  /** An outcome entry points at an intent exactly when it is an earlier one of its own request; an
      intent entry points nowhere. */
  ghost predicate PointsAtItsIntent(s: System, i: nat, hash: A.EntryHash)
    requires |s.owner| == |s.entries| && i < |s.entries|
  {
    s.entries[i].content.intentHash == Some(hash) <==>
      s.entries[i].content.kind.Outcome? && HasIntentEntry(s, i, s.owner[i], hash)
  }

  ghost predicate LinksBacked(s: System)
    requires |s.owner| == |s.entries|
  {
    forall i: nat, hash | i < |s.entries| :: PointsAtItsIntent(s, i, hash)
  }

  ghost predicate AuditInv(s: System) {
    && |s.owner| == |s.entries|
    && A.Accepted(s.entries)
    && AuditLockFits(s) && OwnersMatch(s) && HashesBacked(s) && LinksBacked(s)
  }

  lemma {:induction false} IntentsBelow(s: System, s': System, n: nat, t: nat, hash: A.EntryHash)
    requires |s.owner| == |s.entries| && |s'.owner| == |s'.entries|
    requires s.entries <= s'.entries && s.owner <= s'.owner && n <= |s.entries|
    ensures HasIntentEntry(s', n, t, hash) <==> HasIntentEntry(s, n, t, hash)
  {
    if j: nat :| j < n && IsIntentOf(s, j, t, hash) {
      assert IsIntentOf(s', j, t, hash);
    }
    if j: nat :| j < n && IsIntentOf(s', j, t, hash) {
      assert IsIntentOf(s, j, t, hash);
    }
  }

  lemma {:induction false} OneMoreIntent(s: System, s': System, t: nat, entry: A.Entry, owner: nat, hash: A.EntryHash)
    requires |s.owner| == |s.entries|
    requires s'.entries == s.entries + [entry] && s'.owner == s.owner + [owner]
    ensures HasIntentEntry(s', |s'.entries|, t, hash) <==>
              HasIntentEntry(s, |s.entries|, t, hash) || (owner == t && entry.content.kind.Intent? && entry.hash == hash)
  {
    var n := |s.entries|;
    IntentsBelow(s, s', n, t, hash);
    if j: nat :| j < n + 1 && IsIntentOf(s', j, t, hash) {
      if j < n {
        assert HasIntentEntry(s', n, t, hash);
      }
    }
    if j: nat :| j < n && IsIntentOf(s', j, t, hash) {
      assert HasIntentEntry(s', n + 1, t, hash);
    }
    if owner == t && entry.content.kind.Intent? && entry.hash == hash {
      assert IsIntentOf(s', n, t, hash);
    }
  }

  lemma {:induction false} LinksStay(s: System, s': System)
    requires |s.owner| == |s.entries| && LinksBacked(s)
    requires s'.entries == s.entries && s'.owner == s.owner
    ensures LinksBacked(s')
  {
    forall i: nat, hash | i < |s'.entries| ensures PointsAtItsIntent(s', i, hash) {
      assert PointsAtItsIntent(s, i, hash);
      IntentsBelow(s, s', i, s.owner[i], hash);
    }
  }

  /** Nobody owns an entry before arriving. */
  lemma {:induction false} NoIntentYet(s: System, t: nat, hash: A.EntryHash)
    requires |s.owner| == |s.entries| && OwnersMatch(s) && t >= |s.requests|
    ensures !HasIntentEntry(s, |s.entries|, t, hash)
  {
  }

  /** The phase moved on and the hash with it, or the request has just arrived. */
  predicate HashKept(s: System, s': System, u: nat)
    requires u < |s'.requests|
  {
    if u < |s.requests| then
      !s'.requests[u].phase.Finished? ==>
        !s.requests[u].phase.Finished? && HashIn(s'.requests[u].phase) == HashIn(s.requests[u].phase)
    else HashIn(s'.requests[u].phase).None?
  }

  lemma {:induction false} HashesStay(s: System, s': System)
    requires |s.owner| == |s.entries| && OwnersMatch(s) && HashesBacked(s)
    requires s'.entries == s.entries && s'.owner == s.owner
    requires forall u: nat | u < |s'.requests| :: HashKept(s, s', u)
    ensures HashesBacked(s')
  {
    forall u: nat, hash | u < |s'.requests| ensures CarriesItsIntent(s', u, hash) {
      assert HashKept(s, s', u);
      IntentsBelow(s, s', |s.entries|, u, hash);
      if u < |s.requests| {
        assert CarriesItsIntent(s, u, hash);
      } else {
        NoIntentYet(s, u, hash);
      }
    }
  }

  lemma {:induction false} AuditStoreHashes(c: Codec, s: System, t: nat)
    requires AuditInv(s) && Enabled(s, t, StoreAudit)
    ensures HashesBacked(Act(c, s, t, StoreAudit))
  {
    var s' := Act(c, s, t, StoreAudit);
    var entry := s.auditLock.value.1.entry;
    forall u: nat, hash | u < |s'.requests| ensures CarriesItsIntent(s', u, hash) {
      OneMoreIntent(s, s', u, entry, t, hash);
      assert CarriesItsIntent(s, u, hash);
    }
  }

  lemma {:induction false} AuditStoreLinks(c: Codec, s: System, t: nat)
    requires AuditInv(s) && Enabled(s, t, StoreAudit)
    ensures LinksBacked(Act(c, s, t, StoreAudit))
  {
    var s', n := Act(c, s, t, StoreAudit), |s.entries|;
    assert s'.entries[n].content == ContentOf(s.requests[t]) && s'.owner[n] == t;
    forall i: nat, hash | i < |s'.entries| ensures PointsAtItsIntent(s', i, hash) {
      IntentsBelow(s, s', i, s'.owner[i], hash);
      if i < n {
        assert PointsAtItsIntent(s, i, hash);
      } else {
        assert CarriesItsIntent(s, t, hash);
      }
    }
  }

  /** Storing the entry that was linked under the lock. */
  lemma {:induction false} AuditStore(c: Codec, s: System, t: nat)
    requires AuditInv(s) && Enabled(s, t, StoreAudit)
    ensures AuditInv(Act(c, s, t, StoreAudit))
  {
    A.AcceptedAppend(s.entries, ContentOf(s.requests[t]));
    AuditStoreHashes(c, s, t);
    AuditStoreLinks(c, s, t);
  }

  /** A turn that stores nothing. */
  lemma {:induction false} TurnKeeps(c: Codec, s: System, t: nat, a: Action, u: nat)
    requires Enabled(s, t, a) && !a.StoreAudit? && u < |Act(c, s, t, a).requests|
    ensures HashKept(s, Act(c, s, t, a), u)
    ensures u < |s.requests| ==> Act(c, s, t, a).requests[u].msgId == s.requests[u].msgId
  {
  }

  lemma {:induction false} AuditLockStep(c: Codec, s: System, t: nat, a: Action)
    requires AuditLockFits(s) && Enabled(s, t, a)
    ensures AuditLockFits(Act(c, s, t, a))
  {
  }

  lemma {:induction false} AuditStep(c: Codec, s: System, t: nat, a: Action)
    requires AuditInv(s) && Enabled(s, t, a)
    ensures AuditInv(Act(c, s, t, a))
  {
    if a.StoreAudit? {
      AuditStore(c, s, t);
    } else {
      var s' := Act(c, s, t, a);
      assert s'.entries == s.entries && s'.owner == s.owner;
      forall u: nat | u < |s'.requests|
        ensures HashKept(s, s', u) && (u < |s.requests| ==> s'.requests[u].msgId == s.requests[u].msgId)
      {
        TurnKeeps(c, s, t, a, u);
      }
      AuditLockStep(c, s, t, a);
      HashesStay(s, s');
      LinksStay(s, s');
    }
  }

  lemma {:induction false} AuditHolds(c: Codec, schedule: seq<Turn>, s: System)
    requires Runs(c, schedule, s)
    ensures AuditInv(s)
  {
    if schedule != [] {
      var front := schedule[..|schedule| - 1];
      var Turn(t, a) := schedule[|schedule| - 1];
      var before :| Runs(c, front, before) && Enabled(before, t, a) && s == Act(c, before, t, a);
      AuditHolds(c, front, before);
      AuditStep(c, before, t, a);
    }
  }

  /** The chain passes the bundle verifier's loop; every entry carries its owner's msg_id; and an
      outcome entry points at an intent, by its hash, exactly when its own request stored that intent
      before it. So it points nowhere exactly when its request stored none. */
  ghost predicate SoundChain(s: System) {
    && A.Accepted(s.entries) && |s.owner| == |s.entries|
    && (forall i | 0 <= i < |s.entries| :: s.owner[i] < |s.requests| && s.entries[i].content.msgId == s.requests[s.owner[i]].msgId)
    && (forall i: nat, hash | i < |s.entries| && s.entries[i].content.kind.Outcome? ::
          s.entries[i].content.intentHash == Some(hash) <==> HasIntentEntry(s, i, s.owner[i], hash))
    && (forall i: nat | i < |s.entries| && s.entries[i].content.kind.Outcome? ::
          s.entries[i].content.intentHash == None <==> !StoredAnIntent(s, i, s.owner[i]))
    && (forall i: nat | i < |s.entries| && s.entries[i].content.kind.Intent? :: s.entries[i].content.intentHash == None)
  }

  /** Request t stored an intent entry before position n. */
  predicate StoredAnIntent(s: System, n: nat, t: nat)
    requires |s.owner| == |s.entries| && n <= |s.entries|
  {
    exists j | 0 <= j < n :: s.owner[j] == t && s.entries[j].content.kind.Intent?
  }

  lemma {:induction false} PointsNowhereIff(s: System, i: nat)
    requires |s.owner| == |s.entries| && LinksBacked(s) && i < |s.entries| && s.entries[i].content.kind.Outcome?
    ensures s.entries[i].content.intentHash == None <==> !StoredAnIntent(s, i, s.owner[i])
  {
    if s.entries[i].content.intentHash.Some? {
      var hash := s.entries[i].content.intentHash.value;
      assert PointsAtItsIntent(s, i, hash);
      var j: nat :| j < i && IsIntentOf(s, j, s.owner[i], hash);
      assert s.owner[j] == s.owner[i] && s.entries[j].content.kind.Intent?;
    }
    if j :| 0 <= j < i && s.owner[j] == s.owner[i] && s.entries[j].content.kind.Intent? {
      assert IsIntentOf(s, j, s.owner[i], s.entries[j].hash);
      assert PointsAtItsIntent(s, i, s.entries[j].hash);
    }
  }

  lemma {:induction false} OnlyOutcomesPoint(s: System, i: nat)
    requires |s.owner| == |s.entries| && LinksBacked(s) && i < |s.entries|
    ensures s.entries[i].content.intentHash.Some? ==> s.entries[i].content.kind.Outcome?
  {
    if s.entries[i].content.intentHash.Some? {
      assert PointsAtItsIntent(s, i, s.entries[i].content.intentHash.value);
    }
  }

  lemma {:induction false} OutcomesPointBack(s: System, i: nat, hash: A.EntryHash)
    requires |s.owner| == |s.entries| && LinksBacked(s) && i < |s.entries| && s.entries[i].content.kind.Outcome?
    ensures s.entries[i].content.intentHash == Some(hash) <==> HasIntentEntry(s, i, s.owner[i], hash)
  {
    assert PointsAtItsIntent(s, i, hash);
  }

  lemma {:induction false} AuditInvIsSound(s: System)
    requires AuditInv(s)
    ensures SoundChain(s)
  {
    forall i: nat, hash | i < |s.entries| && s.entries[i].content.kind.Outcome?
      ensures s.entries[i].content.intentHash == Some(hash) <==> HasIntentEntry(s, i, s.owner[i], hash)
    {
      OutcomesPointBack(s, i, hash);
    }
    forall i: nat | i < |s.entries|
      ensures s.entries[i].content.kind.Outcome? ==> (s.entries[i].content.intentHash == None <==> !StoredAnIntent(s, i, s.owner[i]))
      ensures s.entries[i].content.kind.Intent? ==> s.entries[i].content.intentHash == None
    {
      OnlyOutcomesPoint(s, i);
      if s.entries[i].content.kind.Outcome? {
        PointsNowhereIff(s, i);
      }
    }
  }

  /** Whatever the interleaving, the audit chain is sound. */
  lemma {:induction false} ChainIsSound(c: Codec, s: System)
    requires Reachable(c, s)
    ensures SoundChain(s)
  {
    var schedule :| Runs(c, schedule, s);
    AuditHolds(c, schedule, s);
    AuditInvIsSound(s);
  }
}
