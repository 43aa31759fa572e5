/** Runs of the writer with crashes, torn lines and lost heads, and what a walk says afterwards. */
module FaultRuns {
  import opened Bytes
  import opened Trace
  import opened Walk
  import opened WalkMeaning

  /** One append of which `kept` bytes of the line reached the file after the head was written, or
      the loss of the head file. */
  datatype Event = Write(body: Body, kept: nat) | LoseHead

  /** What an event did: a line that reads back, an unreadable cut line, a head with no line, a head
      lost beside lines, a head lost with no line to notice it, or no change. */
  datatype Effect = Recorded | TornLine | NoLine | HeadLost | Forgotten | Nothing

  function Min(a: nat, b: nat): nat {
    if a < b then a else b
  }

  function After(c: Codec, e: Export, ev: Event): Export {
    match ev
    case LoseHead => Export(e.data, None)
    case Write(body, kept) =>
      var r := NextRecord(c, e, body);
      var chunk := Chunk(c, e.data, r);
      Export(e.data + chunk[..Min(kept, |chunk|)], Some(HeadOf(c, r)))
  }

  function EffectOf(c: Codec, e: Export, ev: Event): Effect {
    match ev
    case LoseHead => if Lines(e.data) == [] then Forgotten else if e.head.None? then Nothing else HeadLost
    case Write(body, kept) =>
      var start := |Separator(e.data)|;
      if kept <= start then NoLine
      else if kept < start + |c.canon(NextRecord(c, e, body))| then TornLine
      else Recorded
  }

  function Run(c: Codec, start: Export, evs: seq<Event>): Export {
    if evs == [] then start
    else After(c, Run(c, start, evs[..|evs| - 1]), evs[|evs| - 1])
  }

  function Effects(c: Codec, start: Export, evs: seq<Event>): (es: seq<Effect>)
    ensures |es| == |evs|
  {
    if evs == [] then []
    else
      var front := evs[..|evs| - 1];
      Effects(c, start, front) + [EffectOf(c, Run(c, start, front), evs[|evs| - 1])]
  }

  lemma LinesAfterWrite(c: Codec, e: Export, body: Body, kept: nat)
    requires c.Lawful()
    ensures Lines(After(c, e, Write(body, kept)).data) == LinesKept(c, e.data, NextRecord(c, e, body), kept)
  {
    var r := NextRecord(c, e, body);
    CutWrite(c, e.data, r, Min(kept, |Chunk(c, e.data, r)|));
  }

  // ---- no fault is silently absorbed -------------------------------------------------------

  predicate Damaging(x: Effect) {
    x.TornLine? || x.NoLine? || x.HeadLost?
  }

  predicate AnyTorn(es: seq<Effect>) {
    TornLine in es
  }

  /** Damage at this position that no later loss of a lineless head wiped out. */
  predicate DamagedAt(es: seq<Effect>, i: nat)
    requires i < |es|
  {
    Damaging(es[i]) && Forgotten !in es[i + 1..]
  }

  predicate Damaged(es: seq<Effect>) {
    exists i | 0 <= i < |es| :: DamagedAt(es, i)
  }

  /** A record was written on top of damage. */
  predicate Buried(es: seq<Effect>) {
    exists j | 0 <= j < |es| :: es[j] == Recorded && Damaged(es[..j])
  }

  lemma DamagedAtAppend(es: seq<Effect>, x: Effect, i: nat)
    requires i < |es|
    ensures DamagedAt(es + [x], i) <==> DamagedAt(es, i) && !x.Forgotten?
  {
    assert (es + [x])[i + 1..] == es[i + 1..] + [x];
  }

  lemma {:induction false} DamagedAppend(es: seq<Effect>, x: Effect)
    ensures Damaged(es + [x]) <==> Damaging(x) || (Damaged(es) && !x.Forgotten?)
  {
    var all := es + [x];
    if Damaging(x) {
      assert DamagedAt(all, |es|);
    }
    if i :| 0 <= i < |es| && DamagedAt(es, i) {
      DamagedAtAppend(es, x, i);
    }
    if i :| 0 <= i < |all| && DamagedAt(all, i) && i < |es| {
      DamagedAtAppend(es, x, i);
    }
  }

  lemma BuriedAppend(es: seq<Effect>, x: Effect)
    ensures Buried(es + [x]) <==> Buried(es) || (x == Recorded && Damaged(es))
  {
    var all := es + [x];
    forall j | 0 <= j <= |es| ensures all[..j] == es[..j] {
    }
    assert es[..|es|] == es;
    if Buried(es) {
      var j :| 0 <= j < |es| && es[j] == Recorded && Damaged(es[..j]);
      assert all[j] == Recorded && Damaged(all[..j]);
    }
    if x == Recorded && Damaged(es) {
      assert all[|es|] == Recorded && Damaged(all[..|es|]);
    }
  }

  predicate Reported(es: seq<Effect>) {
    AnyTorn(es) || Buried(es)
  }

  /** Numbered 1, 2, 3, ... with nothing to report. */
  ghost predicate Counted(c: Codec, lines: seq<bytes>) {
    Unmarked(c, lines) && (lines != [] ==> Carries(c, lines[|lines| - 1], |lines|))
  }

  /** The head describes the last line. */
  predicate InStep(e: Export) {
    var lines := Lines(e.data);
    if lines == [] then e == EMPTY else e.head == Some(Head(|lines|, Sha256(lines[|lines| - 1])))
  }

  /** The head is gone, or promises a line the file does not hold. */
  predicate OutOfStep(e: Export) {
    var lines := Lines(e.data);
    if e.head.None? then lines != [] else e.head.value.seqNo > |lines| && e.head.value.hash != Genesis
  }

  ghost predicate Accounted(c: Codec, e: Export, es: seq<Effect>) {
    && (Unmarked(c, Lines(e.data)) <==> !Reported(es))
    && (!Reported(es) ==>
          && Counted(c, Lines(e.data))
          && (Lines(e.data) == [] ==> e.data == [])
          && if Damaged(es) then OutOfStep(e) else InStep(e))
  }

  lemma UnmarkedReadable(c: Codec, lines: seq<bytes>, last: bytes)
    requires Unmarked(c, lines + [last])
    ensures IsNumbered(c, last) && c.parse(last).fields.note == None
    ensures lines == [] ==> c.parse(last).fields.prev in {None, Some(Genesis)}
    ensures lines != [] ==> IsNumbered(c, lines[|lines| - 1]) && Carries(c, last, c.parse(lines[|lines| - 1]).fields.seqNo.value + 1)
  {
    var all := lines + [last];
    assert all[|lines|] == last;
    assert lines != [] ==> all[|lines| - 1] == lines[|lines| - 1];
  }

  lemma UnmarkedAppend(c: Codec, lines: seq<bytes>, r: Record)
    requires c.Lawful() && Counted(c, lines)
    requires r.seqNo == |lines| + 1 && r.note == None
    requires r.prev == if lines == [] then Genesis else Sha256(lines[|lines| - 1])
    ensures Counted(c, lines + [c.canon(r)])
  {
    var last := c.canon(r);
    assert c.parse(last) == Object(FieldsOf(r));
    WholeNumbered(c, lines, last, 0);
    var all := lines + [last];
    assert forall k | 0 <= k < |lines| :: all[k] == lines[k];
  }

  /** What was reported stays reported, whatever is written. */
  lemma {:induction false} WriteOnReported(c: Codec, e: Export, body: Body, kept: nat)
    requires c.Lawful() && !Unmarked(c, Lines(e.data))
    ensures !Unmarked(c, Lines(After(c, e, Write(body, kept)).data))
  {
    var lines, after := Lines(e.data), Lines(After(c, e, Write(body, kept)).data);
    LinesAfterWrite(c, e, body, kept);
    if |after| > |lines| && Unmarked(c, after) {
      UnmarkedFront(c, lines, after[|lines|]);
    }
  }

  /** A torn line is never the end of an unmarked file. */
  lemma {:induction false} TornIsMarked(c: Codec, e: Export, body: Body, kept: nat)
    requires c.Lawful() && EffectOf(c, e, Write(body, kept)) == TornLine
    ensures !Unmarked(c, Lines(After(c, e, Write(body, kept)).data))
  {
    var text, k := c.canon(NextRecord(c, e, body)), kept - |Separator(e.data)|;
    LinesAfterWrite(c, e, body, kept);
    assert c.parse(text[..k]) == NotJson;
    if Unmarked(c, Lines(e.data) + [text[..k]]) {
      UnmarkedReadable(c, Lines(e.data), text[..k]);
    }
  }

  /** A record written on top of damage shows it. */
  lemma {:induction false} RecordOnDamage(c: Codec, e: Export, body: Body, kept: nat)
    requires c.Lawful() && Counted(c, Lines(e.data)) && OutOfStep(e)
    requires EffectOf(c, e, Write(body, kept)) == Recorded
    ensures !Unmarked(c, Lines(After(c, e, Write(body, kept)).data))
  {
    var r := NextRecord(c, e, body);
    LinesAfterWrite(c, e, body, kept);
    assert c.parse(c.canon(r)) == Object(FieldsOf(r));
    if Unmarked(c, Lines(e.data) + [c.canon(r)]) {
      UnmarkedReadable(c, Lines(e.data), c.canon(r));
    }
  }

  /** A record written in step keeps the file in step. */
  lemma {:induction false} RecordInStep(c: Codec, e: Export, body: Body, kept: nat)
    requires c.Lawful() && Counted(c, Lines(e.data)) && InStep(e)
    requires EffectOf(c, e, Write(body, kept)) == Recorded
    ensures var e' := After(c, e, Write(body, kept));
            Counted(c, Lines(e'.data)) && InStep(e') && Lines(e'.data) != []
  {
    LinesAfterWrite(c, e, body, kept);
    UnmarkedAppend(c, Lines(e.data), NextRecord(c, e, body));
  }

  /** A record lost leaves the lines alone and the head ahead of them. */
  /** The next number is beyond every line of the file. */
  lemma {:induction false} NextIsBeyond(c: Codec, e: Export, body: Body)
    requires Counted(c, Lines(e.data)) && (InStep(e) || OutOfStep(e))
    ensures NextRecord(c, e, body).seqNo > |Lines(e.data)|
  {
    var lines := Lines(e.data);
    if e.head.None? && lines != [] {
      LastSeqExact(c, lines);
      assert SeqOf(c, lines[|lines| - 1]) == Some(|lines|);
    }
  }

  lemma {:induction false} LostLeavesLines(c: Codec, e: Export, body: Body, kept: nat)
    requires c.Lawful() && (Lines(e.data) == [] ==> e.data == [])
    requires EffectOf(c, e, Write(body, kept)) == NoLine
    ensures var e' := After(c, e, Write(body, kept));
            Lines(e'.data) == Lines(e.data) && (Lines(e'.data) == [] ==> e'.data == [])
  {
    LinesAfterWrite(c, e, body, kept);
  }

  lemma {:induction false} RecordLost(c: Codec, e: Export, body: Body, kept: nat)
    requires c.Lawful() && Counted(c, Lines(e.data)) && (InStep(e) || OutOfStep(e)) && (Lines(e.data) == [] ==> e.data == [])
    requires EffectOf(c, e, Write(body, kept)) == NoLine
    ensures var e' := After(c, e, Write(body, kept));
            Lines(e'.data) == Lines(e.data) && OutOfStep(e') && (Lines(e'.data) == [] ==> e'.data == [])
  {
    LostLeavesLines(c, e, body, kept);
    NextIsBeyond(c, e, body);
  }

  lemma {:induction false} AccountedWrite(c: Codec, e: Export, es: seq<Effect>, body: Body, kept: nat)
    requires c.Lawful() && Accounted(c, e, es)
    ensures Accounted(c, After(c, e, Write(body, kept)), es + [EffectOf(c, e, Write(body, kept))])
  {
    var x := EffectOf(c, e, Write(body, kept));
    DamagedAppend(es, x);
    BuriedAppend(es, x);
    if Reported(es) {
      WriteOnReported(c, e, body, kept);
    } else if x == NoLine {
      RecordLost(c, e, body, kept);
    } else if x == TornLine {
      TornIsMarked(c, e, body, kept);
    } else if Damaged(es) {
      RecordOnDamage(c, e, body, kept);
    } else {
      RecordInStep(c, e, body, kept);
    }
  }

  lemma AccountedStep(c: Codec, e: Export, es: seq<Effect>, ev: Event)
    requires c.Lawful() && Accounted(c, e, es)
    ensures Accounted(c, After(c, e, ev), es + [EffectOf(c, e, ev)])
  {
    if ev.Write? {
      AccountedWrite(c, e, es, ev.body, ev.kept);
    } else {
      DamagedAppend(es, EffectOf(c, e, ev));
      BuriedAppend(es, EffectOf(c, e, ev));
    }
  }

  lemma {:induction false} RunAccounted(c: Codec, evs: seq<Event>, e: Export)
    requires c.Lawful() && e == Run(c, EMPTY, evs)
    ensures Accounted(c, e, Effects(c, EMPTY, evs))
  {
    if evs != [] {
      var front := evs[..|evs| - 1];
      RunAccounted(c, front, Run(c, EMPTY, front));
      AccountedStep(c, Run(c, EMPTY, front), Effects(c, EMPTY, front), evs[|evs| - 1]);
    }
  }

  /** After any run of the writer from an empty file, the walk has something to report beyond open
      dispatches exactly when a line was torn, or a record was written after a missing line or a
      lost head. */
  lemma {:induction false} NoSilentFault(c: Codec, evs: seq<Event>)
    requires c.Lawful()
    ensures Quiet(WalkOf(c, Run(c, EMPTY, evs).data)) <==> !Reported(Effects(c, EMPTY, evs))
    ensures Reported(Effects(c, EMPTY, evs)) ==> WalkExit(c, Run(c, EMPTY, evs).data) != EXIT_WHOLE
  {
    var data := Run(c, EMPTY, evs).data;
    RunAccounted(c, evs, Run(c, EMPTY, evs));
    QuietIffUnmarked(c, Lines(data), !EndsWithNewline(data));
    ExitWholeIff(c, Lines(data), !EndsWithNewline(data));
  }

  lemma {:induction false} RunLast(c: Codec, evs: seq<Event>, last: Event)
    ensures Run(c, EMPTY, evs + [last]) == After(c, Run(c, EMPTY, evs), last)
    ensures Effects(c, EMPTY, evs + [last]) == Effects(c, EMPTY, evs) + [EffectOf(c, Run(c, EMPTY, evs), last)]
  {
    assert (evs + [last])[..|evs|] == evs;
  }

  lemma {:induction false} EffectsExtend(c: Codec, evs: seq<Event>, all: seq<Event>)
    requires evs <= all
    ensures Effects(c, EMPTY, evs) <= Effects(c, EMPTY, all)
    decreases |all|
  {
    if |all| == |evs| {
      assert all == evs;
    } else {
      EffectsExtend(c, evs, all[..|all| - 1]);
    }
  }

  lemma ReportedPrefix(es: seq<Effect>, longer: seq<Effect>)
    requires es <= longer && Reported(es)
    ensures Reported(longer)
  {
    if AnyTorn(es) {
      var i :| 0 <= i < |es| && es[i] == TornLine;
      assert longer[i] == TornLine;
    } else {
      var j :| 0 <= j < |es| && es[j] == Recorded && Damaged(es[..j]);
      assert longer[j] == Recorded && longer[..j] == es[..j];
    }
  }

  /** Once a run is reported no later event brings the walk back to exit 0. */
  lemma {:induction false} ReportsStay(c: Codec, evs: seq<Event>, later: seq<Event>)
    requires c.Lawful() && Reported(Effects(c, EMPTY, evs))
    ensures WalkExit(c, Run(c, EMPTY, evs + later).data) != EXIT_WHOLE
  {
    EffectsExtend(c, evs, evs + later);
    ReportedPrefix(Effects(c, EMPTY, evs), Effects(c, EMPTY, evs + later));
    NoSilentFault(c, evs + later);
  }

  /** A run in which every append was recorded walks with no failure, and every finding it has is a
      dispatch that never reported. */
  lemma {:induction false} FaultFree(c: Codec, evs: seq<Event>)
    requires c.Lawful()
    requires forall i | 0 <= i < |evs| :: Effects(c, EMPTY, evs)[i] == Recorded
    ensures WalkOf(c, Run(c, EMPTY, evs).data).failures == []
    ensures forall f | f in FindingsOf(WalkOf(c, Run(c, EMPTY, evs).data)) :: f.NeverReported?
  {
    NoSilentFault(c, evs);
    assert !Reported(Effects(c, EMPTY, evs));
    var w := WalkOf(c, Run(c, EMPTY, evs).data);
    forall f | f in FindingsOf(w) ensures f.NeverReported? {
      OrphansAreOrphans(w.intents, w.outcomes, f);
    }
  }

  // ---- which losses go unreported ----------------------------------------------------------

  /** Damage at position i that the walk has no way to see: no line was torn, and no record has been
      written on top of it before a loss of a lineless head wiped it out. */
  predicate Unseen(es: seq<Effect>, i: nat)
    requires i < |es|
  {
    es[i] != TornLine && forall j | i < j < |es| && es[j] == Recorded :: Forgotten in es[i + 1..j]
  }

  lemma UnseenIffUnreported(es: seq<Effect>)
    ensures !Reported(es) <==> forall i | 0 <= i < |es| && Damaging(es[i]) :: Unseen(es, i)
  {
    forall i, j | 0 <= i < j < |es| ensures DamagedAt(es[..j], i) <==> Damaging(es[i]) && Forgotten !in es[i + 1..j] {
      assert es[..j][i + 1..] == es[i + 1..j];
    }
    if i :| 0 <= i < |es| && Damaging(es[i]) && !Unseen(es, i) {
      if es[i] != TornLine {
        var j :| i < j < |es| && es[j] == Recorded && Forgotten !in es[i + 1..j];
        assert DamagedAt(es[..j], i) && Damaged(es[..j]) && Buried(es);
      }
    }
    if Buried(es) {
      var j :| 0 <= j < |es| && es[j] == Recorded && Damaged(es[..j]);
      var i :| 0 <= i < j && DamagedAt(es[..j], i);
      assert Damaging(es[i]) && !Unseen(es, i);
    }
    if k :| 0 <= k < |es| && es[k] == TornLine {
      assert Damaging(es[k]) && !Unseen(es, k);
    }
  }

  /** A run goes unreported exactly when every record and every head it lost is unseen: nothing was
      recorded after the loss, or the whole history was forgotten first. */
  lemma {:induction false} UnreportedIff(c: Codec, evs: seq<Event>)
    requires c.Lawful()
    ensures var es := Effects(c, EMPTY, evs);
            Quiet(WalkOf(c, Run(c, EMPTY, evs).data)) <==> forall i | 0 <= i < |es| && Damaging(es[i]) :: Unseen(es, i)
  {
    NoSilentFault(c, evs);
    UnseenIffUnreported(Effects(c, EMPTY, evs));
  }

  lemma {:induction false} OneUnseen(es: seq<Effect>, i: nat)
    requires i < |es| && es[i] == NoLine
    requires forall k | 0 <= k < |es| && k != i :: !Damaging(es[k])
    ensures (forall k | 0 <= k < |es| && Damaging(es[k]) :: Unseen(es, k)) <==> Unseen(es, i)
  {
  }

  /** For a run that lost one record and nothing else: the loss goes unreported exactly when no later
      record was written before the run ended or the history was forgotten. */
  lemma {:induction false} OneLossUnreportedIff(c: Codec, evs: seq<Event>, i: nat)
    requires c.Lawful() && i < |evs| && Effects(c, EMPTY, evs)[i] == NoLine
    requires forall k | 0 <= k < |evs| && k != i :: !Damaging(Effects(c, EMPTY, evs)[k])
    ensures var es := Effects(c, EMPTY, evs);
            Quiet(WalkOf(c, Run(c, EMPTY, evs).data)) <==>
            forall j | i < j < |es| && es[j] == Recorded :: Forgotten in es[i + 1..j]
  {
    UnreportedIff(c, evs);
    OneUnseen(Effects(c, EMPTY, evs), i);
  }

  /** A write long enough that no cut shortens it. */
  function WholeRecord(c: Codec, e: Export, body: Body): Event {
    Write(body, |Chunk(c, e.data, NextRecord(c, e, body))|)
  }

  /** An append that nothing disturbs is the writer's own. */
  lemma WholeIsAppended(c: Codec, e: Export, body: Body)
    ensures After(c, e, WholeRecord(c, e, body)) == Appended(c, e, body)
  {
    var chunk := Chunk(c, e.data, NextRecord(c, e, body));
    assert chunk[..|chunk|] == chunk;
  }

  lemma {:induction false} RunOfOne(c: Codec, start: Export, a: Event)
    ensures Run(c, start, [a]) == After(c, start, a) && Effects(c, start, [a]) == [EffectOf(c, start, a)]
  {
    var one := [a];
    assert one[..|one| - 1] == [];
  }

  lemma {:induction false} RunOfTwo(c: Codec, start: Export, a: Event, b: Event)
    ensures Run(c, start, [a]) == After(c, start, a)
    ensures Run(c, start, [a, b]) == After(c, After(c, start, a), b)
    ensures Effects(c, start, [a, b]) == [EffectOf(c, start, a), EffectOf(c, After(c, start, a), b)]
  {
    RunOfOne(c, start, a);
    var two := [a, b];
    assert two[..|two| - 1] == [a];
  }

  lemma {:induction false} FirstLine(c: Codec, body: Body)
    requires c.Lawful()
    ensures EffectOf(c, EMPTY, WholeRecord(c, EMPTY, body)) == Recorded
    ensures var e := After(c, EMPTY, WholeRecord(c, EMPTY, body));
            && Lines(e.data) == [c.canon(Record(body, 1, Genesis, None))]
            && e.head.Some? && e.head.value.seqNo == 1
  {
    assert Lines(EMPTY.data) == [];
    LinesAfterWrite(c, EMPTY, body, WholeRecord(c, EMPTY, body).kept);
  }

  /** A crash before the line leaves the lines alone and the head one further on. */
  lemma {:induction false} HeadAhead(c: Codec, e: Export, body: Body)
    requires c.Lawful() && e.head.Some?
    ensures EffectOf(c, e, Write(body, 0)) == NoLine
    ensures var e' := After(c, e, Write(body, 0));
            Lines(e'.data) == Lines(e.data) && e'.head.Some? && e'.head.value.seqNo == e.head.value.seqNo + 1
  {
    LinesAfterWrite(c, e, body, 0);
  }

  lemma {:induction false} UnseenAtTheEnd(es: seq<Effect>)
    requires es == [Recorded, NoLine]
    ensures forall i | 0 <= i < |es| && Damaging(es[i]) :: Unseen(es, i)
  {
  }

  /** A record lost at the very end: the head already counts it, and the walk, which never reads the
      head, is quiet. */
  lemma {:induction false} LastRecordLost(c: Codec, first: Body, second: Body)
    requires c.Lawful()
    ensures var evs := [WholeRecord(c, EMPTY, first), Write(second, 0)];
            && Effects(c, EMPTY, evs) == [Recorded, NoLine]
            && Run(c, EMPTY, evs).head.Some? && Run(c, EMPTY, evs).head.value.seqNo == 2
            && |Lines(Run(c, EMPTY, evs).data)| == 1
            && Quiet(WalkOf(c, Run(c, EMPTY, evs).data))
  {
    var one := WholeRecord(c, EMPTY, first);
    RunOfTwo(c, EMPTY, one, Write(second, 0));
    FirstLine(c, first);
    HeadAhead(c, After(c, EMPTY, one), second);
    UnseenAtTheEnd(Effects(c, EMPTY, [one, Write(second, 0)]));
    UnreportedIff(c, [one, Write(second, 0)]);
  }

  lemma {:induction false} NothingLeft(c: Codec, first: Body)
    ensures Effects(c, EMPTY, [Write(first, 0), LoseHead]) == [NoLine, Forgotten]
    ensures Run(c, EMPTY, [Write(first, 0), LoseHead]) == EMPTY
  {
    assert Lines(EMPTY.data) == [];
    var e := After(c, EMPTY, Write(first, 0));
    assert e.data == [];
    RunOfTwo(c, EMPTY, Write(first, 0), LoseHead);
  }

  lemma {:induction false} UnseenOnceForgotten(es: seq<Effect>)
    requires es == [NoLine, Forgotten, Recorded]
    ensures forall i | 0 <= i < |es| && Damaging(es[i]) :: Unseen(es, i)
  {
    assert es[1] in es[1..2];
    assert Unseen(es, 0);
  }

  /** A record lost for good: when the head is lost too while the export holds no line, the next
      record is an ordinary first one, and the walk is quiet about a file that follows a loss. */
  lemma {:induction false} HeadLostBesideNothing(c: Codec, first: Body, second: Body)
    requires c.Lawful()
    ensures var lost := [Write(first, 0), LoseHead];
            var evs := lost + [WholeRecord(c, EMPTY, second)];
            && Run(c, EMPTY, lost) == EMPTY
            && Effects(c, EMPTY, evs) == [NoLine, Forgotten, Recorded]
            && Lines(Run(c, EMPTY, evs).data) == [c.canon(Record(second, 1, Genesis, None))]
            && Quiet(WalkOf(c, Run(c, EMPTY, evs).data))
  {
    var lost, last := [Write(first, 0), LoseHead], WholeRecord(c, EMPTY, second);
    NothingLeft(c, first);
    FirstLine(c, second);
    RunLast(c, lost, last);
    UnseenOnceForgotten(Effects(c, EMPTY, lost + [last]));
    UnreportedIff(c, lost + [last]);
  }

  // ---- failures persist --------------------------------------------------------------------

  lemma WholePrefix(c: Codec, lines: seq<bytes>, n: nat, u: nat)
    requires n <= |lines| && Whole(c, lines, u)
    ensures Whole(c, lines[..n], Min(u, n))
  {
    var front := lines[..n];
    assert forall k | 0 <= k < n :: front[k] == lines[k];
  }

  /** No later line repairs a failed walk, and a torn tail that was only a finding becomes a failure
      as soon as a line follows it. */
  lemma {:induction false} FailuresPersist(c: Codec, lines: seq<bytes>, torn: bool, more: seq<bytes>, tornAfter: bool)
    requires more != []
    requires Walked(c, lines, torn).failures != [] || TornTail(c, lines, torn)
    ensures Walked(c, lines + more, tornAfter).failures != []
  {
    var all := lines + more;
    if Walked(c, all, tornAfter).failures == [] {
      NoFailureIffWhole(c, all, tornAfter);
      var r, u := Readable(c, all, tornAfter), Walked(c, all, tornAfter).unnumbered;
      assert r[..|lines|] == lines;
      WholePrefix(c, r, |lines|, u);
      assert lines != [] ==> Plain(c, lines[|lines| - 1]) || IsNumbered(c, lines[|lines| - 1]);
      assert Readable(c, lines, torn) == lines && Whole(c, lines, Min(u, |lines|));
      NoFailureIffWhole(c, lines, torn);
      assert false;
    }
  }

  // ---- the numbers never go back -----------------------------------------------------------

  predicate Increasing(c: Codec, lines: seq<bytes>) {
    forall i, j | 0 <= i < j < |lines| && SeqOf(c, lines[i]).Some? && SeqOf(c, lines[j]).Some? ::
      SeqOf(c, lines[i]).value < SeqOf(c, lines[j]).value
  }

  predicate AtMost(c: Codec, lines: seq<bytes>, n: int) {
    forall i | 0 <= i < |lines| && SeqOf(c, lines[i]).Some? :: SeqOf(c, lines[i]).value <= n
  }

  /** The numbers in the file grow, and a usable head is not behind any of them. */
  predicate InOrder(c: Codec, e: Export) {
    && Increasing(c, Lines(e.data))
    && (e.head.Some? ==> e.head.value.seqNo >= 1 && AtMost(c, Lines(e.data), e.head.value.seqNo))
  }

  /** An empty file, or one whose lines carry no number. */
  predicate NoNumbers(c: Codec, e: Export) {
    e.head.None? && forall i | 0 <= i < |Lines(e.data)| :: SeqOf(c, Lines(e.data)[i]) == None
  }

  lemma {:induction false} LastSeqIsGreatest(c: Codec, lines: seq<bytes>)
    requires Increasing(c, lines)
    ensures LastSeq(c, lines).Some? ==> LastSeq(c, lines).value >= 1 && AtMost(c, lines, LastSeq(c, lines).value)
    ensures LastSeq(c, lines).None? ==> forall i | 0 <= i < |lines| :: SeqOf(c, lines[i]) == None
  {
    if lines != [] {
      var front := lines[..|lines| - 1];
      assert forall i | 0 <= i < |front| :: front[i] == lines[i];
      LastSeqIsGreatest(c, front);
    }
  }

  lemma {:induction false} NextLinkIsAhead(c: Codec, e: Export)
    requires InOrder(c, e)
    ensures NextLink(c, e).seqNo >= 1 && AtMost(c, Lines(e.data), NextLink(c, e).seqNo - 1)
  {
    var lines := Lines(e.data);
    LastSeqIsGreatest(c, lines);
    if e.head.None? && lines != [] && SeqOf(c, lines[|lines| - 1]).Some? {
      assert LastSeq(c, lines) == SeqOf(c, lines[|lines| - 1]);
    }
  }

  lemma {:induction false} OrderedAppend(c: Codec, lines: seq<bytes>, last: bytes, n: int)
    requires Increasing(c, lines) && AtMost(c, lines, n - 1)
    requires SeqOf(c, last) in {None, Some(n)}
    ensures Increasing(c, lines + [last]) && AtMost(c, lines + [last], n)
  {
    var all := lines + [last];
    assert forall i | 0 <= i < |lines| :: all[i] == lines[i];
  }

  lemma {:induction false} OrderedStep(c: Codec, e: Export, ev: Event)
    requires c.Lawful() && InOrder(c, e)
    ensures InOrder(c, After(c, e, ev))
  {
    if ev.Write? {
      var r, lines, start := NextRecord(c, e, ev.body), Lines(e.data), |Separator(e.data)|;
      var text := c.canon(r);
      NextLinkIsAhead(c, e);
      LinesAfterWrite(c, e, ev.body, ev.kept);
      if start < ev.kept < start + |text| {
        assert c.parse(text[..ev.kept - start]) == NotJson;
        OrderedAppend(c, lines, text[..ev.kept - start], r.seqNo);
      } else {
        assert c.parse(text) == Object(FieldsOf(r));
        OrderedAppend(c, lines, text, r.seqNo);
      }
    }
  }

  /** Under every crash, torn line and head loss the readable numbers are strictly increasing in
      file order, and a usable head is at least as large as each of them. */
  lemma {:induction false} NumbersNeverGoBack(c: Codec, start: Export, evs: seq<Event>)
    requires c.Lawful() && NoNumbers(c, start)
    ensures InOrder(c, Run(c, start, evs))
  {
    if evs != [] {
      NumbersNeverGoBack(c, start, evs[..|evs| - 1]);
      OrderedStep(c, Run(c, start, evs[..|evs| - 1]), evs[|evs| - 1]);
    }
  }
}
