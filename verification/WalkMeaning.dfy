/** What a walk's verdict means for the file, and what no later line can take back. */
module WalkMeaning {
  import opened Bytes
  import opened Trace
  import opened Walk

  // ---- the lines a walk accepts ------------------------------------------------------------

  predicate Plain(c: Codec, raw: bytes) {
    c.parse(raw).Object? && c.parse(raw).fields.seqNo.None?
  }

  predicate Carries(c: Codec, raw: bytes, n: int) {
    c.parse(raw).Object? && c.parse(raw).fields.seqNo == Some(n)
  }

  predicate IsNumbered(c: Codec, raw: bytes) {
    c.parse(raw).Object? && c.parse(raw).fields.seqNo.Some?
  }

  predicate Binds(c: Codec, raw: bytes, before: bytes) {
    c.parse(raw).Object? && c.parse(raw).fields.prev == Some(Sha256(before))
  }

  predicate TornTail(c: Codec, lines: seq<bytes>, torn: bool) {
    torn && lines != [] && c.parse(lines[|lines| - 1]) == NotJson
  }

  /** The lines without an unreadable torn tail. */
  function Readable(c: Codec, lines: seq<bytes>, torn: bool): seq<bytes> {
    if TornTail(c, lines, torn) then lines[..|lines| - 1] else lines
  }

  /** The first `u` lines carry no seq; from there on the numbers run without a hole and every
      line binds the bytes of the line above it. */
  ghost predicate Whole(c: Codec, lines: seq<bytes>, u: nat) {
    && u <= |lines|
    && (forall k | 0 <= k < u :: Plain(c, lines[k]))
    && (forall k | u <= k < |lines| :: IsNumbered(c, lines[k]))
    && (forall k | u < k < |lines| :: Carries(c, lines[k], c.parse(lines[k - 1]).fields.seqNo.value + 1))
    && (forall k | u <= k < |lines| && k > 0 :: Binds(c, lines[k], lines[k - 1]))
  }

  lemma WholeDrop(c: Codec, lines: seq<bytes>, u: nat)
    requires Whole(c, lines, u) && lines != []
    ensures Whole(c, lines[..|lines| - 1], if u < |lines| then u else u - 1)
  {
    var front := lines[..|lines| - 1];
    assert forall k | 0 <= k < |front| :: front[k] == lines[k];
  }

  lemma ClosedPrev(c: Codec, lines: seq<bytes>)
    ensures Closed(c, lines).prev == if lines == [] then None else Some(lines[|lines| - 1])
  {
  }

  /** The number the walk expects next. */
  function Expected(c: Codec, lines: seq<bytes>, u: nat): Option<int> {
    if u >= |lines| || !IsNumbered(c, lines[|lines| - 1]) then None
    else Some(c.parse(lines[|lines| - 1]).fields.seqNo.value + 1)
  }

  lemma WholePlain(c: Codec, lines: seq<bytes>, last: bytes)
    requires Whole(c, lines, |lines|) && Plain(c, last)
    ensures Whole(c, lines + [last], |lines| + 1)
  {
  }

  lemma WholeNumbered(c: Codec, lines: seq<bytes>, last: bytes, u: nat)
    requires Whole(c, lines, u) && IsNumbered(c, last)
    requires u < |lines| ==> Carries(c, last, c.parse(lines[|lines| - 1]).fields.seqNo.value + 1)
    requires lines != [] ==> Binds(c, last, lines[|lines| - 1])
    ensures Whole(c, lines + [last], u)
  {
    var all := lines + [last];
    assert forall k | 0 <= k < |lines| :: all[k] == lines[k];
  }

  lemma StepWithoutFailure(c: Codec, w: State, raw: bytes, line: nat)
    requires Step(c, w, raw, line, false).failures == []
    ensures w.failures == []
    ensures Plain(c, raw) || IsNumbered(c, raw)
    ensures Plain(c, raw) ==> w.expected == None && Step(c, w, raw, line, false).unnumbered == w.unnumbered + 1
    ensures IsNumbered(c, raw) ==>
              && (w.expected.Some? ==> Carries(c, raw, w.expected.value))
              && (w.prev.Some? ==> Binds(c, raw, w.prev.value))
              && Step(c, w, raw, line, false).unnumbered == w.unnumbered
  {
  }

  /** The state of a walk that found these lines whole. */
  ghost predicate Fits(c: Codec, w: State, lines: seq<bytes>) {
    && w.failures == []
    && w.prev == (if lines == [] then None else Some(lines[|lines| - 1]))
    && Whole(c, lines, w.unnumbered)
    && w.expected == Expected(c, lines, w.unnumbered)
  }

  lemma {:induction false} SoundPlain(c: Codec, w: State, lines: seq<bytes>, last: bytes, line: nat)
    requires Fits(c, w, lines) && Plain(c, last) && w.expected.None?
    ensures Fits(c, Step(c, w, last, line, false), lines + [last])
  {
    assert w.unnumbered == |lines|;
    WholePlain(c, lines, last);
  }

  lemma {:induction false} SoundNumbered(c: Codec, w: State, lines: seq<bytes>, last: bytes, line: nat)
    requires Fits(c, w, lines) && IsNumbered(c, last) && Step(c, w, last, line, false).failures == []
    ensures Fits(c, Step(c, w, last, line, false), lines + [last])
  {
    StepWithoutFailure(c, w, last, line);
    WholeNumbered(c, lines, last, w.unnumbered);
  }

  lemma {:induction false} SoundStep(c: Codec, w: State, lines: seq<bytes>, last: bytes, line: nat)
    requires Fits(c, w, lines) && Step(c, w, last, line, false).failures == []
    ensures Fits(c, Step(c, w, last, line, false), lines + [last])
  {
    StepWithoutFailure(c, w, last, line);
    if Plain(c, last) {
      SoundPlain(c, w, lines, last, line);
    } else {
      SoundNumbered(c, w, lines, last, line);
    }
  }

  lemma {:induction false} ClosedSound(c: Codec, lines: seq<bytes>)
    requires Closed(c, lines).failures == []
    ensures Fits(c, Closed(c, lines), lines)
  {
    if lines != [] {
      var front, last := lines[..|lines| - 1], lines[|lines| - 1];
      StepWithoutFailure(c, Closed(c, front), last, |lines|);
      ClosedSound(c, front);
      SoundStep(c, Closed(c, front), front, last, |lines|);
      assert front + [last] == lines;
    }
  }

  lemma WholeLast(c: Codec, lines: seq<bytes>, last: bytes, u: nat)
    requires Whole(c, lines + [last], u)
    ensures u > |lines| ==> Plain(c, last)
    ensures u <= |lines| ==> IsNumbered(c, last) && (lines != [] ==> Binds(c, last, lines[|lines| - 1]))
    ensures u < |lines| ==>
              IsNumbered(c, lines[|lines| - 1]) && Carries(c, last, c.parse(lines[|lines| - 1]).fields.seqNo.value + 1)
  {
    var all := lines + [last];
    assert all[|lines|] == last;
    assert lines != [] ==> all[|lines| - 1] == lines[|lines| - 1];
  }

  lemma CompleteStep(c: Codec, w: State, lines: seq<bytes>, last: bytes, u: nat, line: nat)
    requires Fits(c, w, lines) && Whole(c, lines + [last], u)
    requires w.unnumbered == if u <= |lines| then u else u - 1
    ensures Step(c, w, last, line, false).failures == [] && Step(c, w, last, line, false).unnumbered == u
  {
    WholeLast(c, lines, last, u);
  }

  lemma {:induction false} ClosedComplete(c: Codec, lines: seq<bytes>, u: nat)
    requires Whole(c, lines, u)
    ensures Closed(c, lines).failures == [] && Closed(c, lines).unnumbered == u
  {
    if lines != [] {
      var front, last := lines[..|lines| - 1], lines[|lines| - 1];
      WholeDrop(c, lines, u);
      ClosedComplete(c, front, if u < |lines| then u else u - 1);
      ClosedSound(c, front);
      assert front + [last] == lines;
      CompleteStep(c, Closed(c, front), front, last, u, |lines|);
    }
  }

  /** A walk finds no failure exactly in a file whose readable lines are whole. */
  lemma {:induction false} NoFailureIffWhole(c: Codec, lines: seq<bytes>, torn: bool)
    ensures Walked(c, lines, torn).failures == [] <==>
              exists u: nat :: Whole(c, Readable(c, lines, torn), u)
    ensures Walked(c, lines, torn).failures == [] ==>
              Whole(c, Readable(c, lines, torn), Walked(c, lines, torn).unnumbered)
  {
    var r := Readable(c, lines, torn);
    assert Walked(c, lines, torn).failures == Closed(c, r).failures;
    assert Walked(c, lines, torn).unnumbered == Closed(c, r).unnumbered;
    if Closed(c, r).failures == [] {
      ClosedSound(c, r);
    }
    if u: nat :| Whole(c, r, u) {
      ClosedComplete(c, r, u);
    }
  }

  // ---- every hole by name ------------------------------------------------------------------

  /** The number of the last numbered line. */
  function LastNumber(c: Codec, lines: seq<bytes>): Option<int> {
    if lines == [] then None
    else if IsNumbered(c, lines[|lines| - 1]) then c.parse(lines[|lines| - 1]).fields.seqNo
    else LastNumber(c, lines[..|lines| - 1])
  }

  /** What each failure stands for, by line number counted from 1. */
  predicate Hole(c: Codec, lines: seq<bytes>, torn: bool, f: Failure) {
    && 1 <= f.line <= |lines|
    && var raw, above := lines[f.line - 1], lines[..f.line - 1];
       match f
       case UnparsedLine(n) => c.parse(raw) == NotJson && !(torn && n == |lines|)
       case NotAnObject(_) => c.parse(raw) == NotObject
       case NumberingStopped(_) => Plain(c, raw) && LastNumber(c, above).Some?
       case Gap(_, found, expected) => Carries(c, raw, found) && LastNumber(c, above) == Some(expected - 1) && found != expected
       case ChainBreak(_) => IsNumbered(c, raw) && above != [] && !Binds(c, raw, above[|above| - 1])
  }

  /** What each remark on a line stands for. */
  predicate Remark(c: Codec, lines: seq<bytes>, torn: bool, f: Finding) {
    match f
    case PartialLine(n) => torn && 1 <= n == |lines| && c.parse(lines[n - 1]) == NotJson
    case FirstLineBindsElsewhere(n) =>
      && n == 1 <= |lines| && IsNumbered(c, lines[0]) && c.parse(lines[0]).fields.prev !in {None, Some(Genesis)}
    case NoteFound(n, note) =>
      1 <= n <= |lines| && IsNumbered(c, lines[n - 1]) && c.parse(lines[n - 1]).fields.note == Some(note)
    case _ => false
  }

  lemma {:induction false} ClosedExpects(c: Codec, lines: seq<bytes>)
    ensures match LastNumber(c, lines)
            case None => Closed(c, lines).expected == None
            case Some(n) => Closed(c, lines).expected == Some(n + 1)
  {
    if lines != [] {
      ClosedExpects(c, lines[..|lines| - 1]);
    }
  }

  /** What one line adds to the failures. */
  predicate NewHole(c: Codec, w: State, raw: bytes, line: nat, torn: bool, f: Failure) {
    && f.line == line
    && match f
       case UnparsedLine(_) => c.parse(raw) == NotJson && !torn
       case NotAnObject(_) => c.parse(raw) == NotObject
       case NumberingStopped(_) => Plain(c, raw) && w.expected.Some?
       case Gap(_, found, expected) => Carries(c, raw, found) && w.expected == Some(expected) && found != expected
       case ChainBreak(_) => IsNumbered(c, raw) && w.prev.Some? && !Binds(c, raw, w.prev.value)
  }

  lemma StepHoles(c: Codec, w: State, raw: bytes, line: nat, torn: bool, f: Failure)
    ensures f in Step(c, w, raw, line, torn).failures <==> f in w.failures || NewHole(c, w, raw, line, torn, f)
  {
  }

  lemma HolesAbove(c: Codec, lines: seq<bytes>, last: bytes, torn: bool, f: Failure)
    requires f.line <= |lines|
    ensures Hole(c, lines + [last], torn, f) <==> Hole(c, lines, false, f)
  {
    var all := lines + [last];
    if 1 <= f.line {
      assert all[f.line - 1] == lines[f.line - 1] && all[..f.line - 1] == lines[..f.line - 1];
    }
  }

  lemma NewestHole(c: Codec, lines: seq<bytes>, last: bytes, torn: bool, f: Failure)
    requires f.line == |lines| + 1
    ensures Hole(c, lines + [last], torn, f) <==> NewHole(c, Closed(c, lines), last, |lines| + 1, torn, f)
  {
    var all := lines + [last];
    assert all[f.line - 1] == last && all[..f.line - 1] == lines;
    ClosedExpects(c, lines);
    ClosedPrev(c, lines);
  }

  lemma {:induction false} HolesOfStep(c: Codec, lines: seq<bytes>, last: bytes, torn: bool, f: Failure)
    requires f in Closed(c, lines).failures <==> Hole(c, lines, false, f)
    ensures f in Step(c, Closed(c, lines), last, |lines| + 1, torn).failures <==> Hole(c, lines + [last], torn, f)
  {
    StepHoles(c, Closed(c, lines), last, |lines| + 1, torn, f);
    if f.line <= |lines| {
      HolesAbove(c, lines, last, torn, f);
    } else if f.line == |lines| + 1 {
      NewestHole(c, lines, last, torn, f);
    }
  }

  lemma {:induction false} ClosedHoles(c: Codec, lines: seq<bytes>, f: Failure)
    ensures f in Closed(c, lines).failures <==> Hole(c, lines, false, f)
  {
    if lines != [] {
      var front, last := lines[..|lines| - 1], lines[|lines| - 1];
      ClosedHoles(c, front, f);
      HolesOfStep(c, front, last, false, f);
      assert front + [last] == lines;
    }
  }

  /** A walk names every hole, at its line and with its numbers, and names nothing else. */
  lemma {:induction false} FailuresExact(c: Codec, lines: seq<bytes>, torn: bool, f: Failure)
    ensures f in Walked(c, lines, torn).failures <==> Hole(c, lines, torn, f)
  {
    if lines != [] {
      var front, last := lines[..|lines| - 1], lines[|lines| - 1];
      ClosedHoles(c, front, f);
      HolesOfStep(c, front, last, torn, f);
      assert front + [last] == lines;
    }
  }

  /** What one line adds to the remarks. */
  predicate NewRemark(c: Codec, w: State, raw: bytes, line: nat, torn: bool, f: Finding) {
    match f
    case PartialLine(n) => torn && n == line && c.parse(raw) == NotJson
    case FirstLineBindsElsewhere(n) =>
      n == line && IsNumbered(c, raw) && w.prev.None? && c.parse(raw).fields.prev !in {None, Some(Genesis)}
    case NoteFound(n, note) => n == line && IsNumbered(c, raw) && c.parse(raw).fields.note == Some(note)
    case _ => false
  }

  lemma StepRemarks(c: Codec, w: State, raw: bytes, line: nat, torn: bool, f: Finding)
    ensures f in Step(c, w, raw, line, torn).findings <==> f in w.findings || NewRemark(c, w, raw, line, torn, f)
  {
  }

  lemma NewestRemark(c: Codec, lines: seq<bytes>, w: State, last: bytes, torn: bool, f: Finding)
    requires w.prev == if lines == [] then None else Some(lines[|lines| - 1])
    ensures Remark(c, lines + [last], torn, f) <==> Remark(c, lines, false, f) || NewRemark(c, w, last, |lines| + 1, torn, f)
  {
    var all := lines + [last];
    assert forall k | 0 <= k < |lines| :: all[k] == lines[k];
    assert all[|lines|] == last;
  }

  lemma {:induction false} RemarksOfStep(c: Codec, lines: seq<bytes>, last: bytes, torn: bool, f: Finding)
    requires f in Closed(c, lines).findings <==> Remark(c, lines, false, f)
    ensures f in Step(c, Closed(c, lines), last, |lines| + 1, torn).findings <==> Remark(c, lines + [last], torn, f)
  {
    ClosedPrev(c, lines);
    NewestRemark(c, lines, Closed(c, lines), last, torn, f);
    StepRemarks(c, Closed(c, lines), last, |lines| + 1, torn, f);
  }

  lemma {:induction false} ClosedRemarks(c: Codec, lines: seq<bytes>, f: Finding)
    ensures f in Closed(c, lines).findings <==> Remark(c, lines, false, f)
  {
    if lines != [] {
      var front, last := lines[..|lines| - 1], lines[|lines| - 1];
      ClosedRemarks(c, front, f);
      RemarksOfStep(c, front, last, false, f);
      assert front + [last] == lines;
    }
  }

  lemma {:induction false} OrphansAreOrphans(intents: seq<Pending>, outcomes: set<string>, f: Finding)
    requires f in Orphans(intents, outcomes)
    ensures f.NeverReported?
  {
    if f !in Orphans(intents[..|intents| - 1], outcomes) {
    } else {
      OrphansAreOrphans(intents[..|intents| - 1], outcomes, f);
    }
  }

  lemma {:induction false} WalkedLast(c: Codec, front: seq<bytes>, last: bytes, torn: bool)
    ensures Walked(c, front + [last], torn) == Step(c, Closed(c, front), last, |front| + 1, torn)
  {
    assert (front + [last])[..|front|] == front;
  }

  lemma {:induction false} WalkedRemarks(c: Codec, lines: seq<bytes>, torn: bool, f: Finding)
    ensures f in Walked(c, lines, torn).findings <==> Remark(c, lines, torn, f)
  {
    if lines != [] {
      var front, last := lines[..|lines| - 1], lines[|lines| - 1];
      assert front + [last] == lines;
      ClosedRemarks(c, front, f);
      RemarksOfStep(c, front, last, torn, f);
      WalkedLast(c, front, last, torn);
    }
  }

  lemma {:induction false} FindingsSplit(w: State, f: Finding)
    requires !f.UnnumberedHead? && !f.NeverReported?
    ensures f in FindingsOf(w) <==> f in w.findings
  {
    if f in Orphans(w.intents, w.outcomes) {
      OrphansAreOrphans(w.intents, w.outcomes, f);
    }
  }

  /** A walk remarks on a line exactly when it is a torn tail, a first line bound elsewhere, or one
      that carries a chain note. */
  lemma {:induction false} RemarksExact(c: Codec, lines: seq<bytes>, torn: bool, f: Finding)
    requires !f.UnnumberedHead? && !f.NeverReported?
    ensures f in FindingsOf(Walked(c, lines, torn)) <==> Remark(c, lines, torn, f)
  {
    FindingsSplit(Walked(c, lines, torn), f);
    WalkedRemarks(c, lines, torn, f);
  }

  // ---- who is named ------------------------------------------------------------------------

  predicate Speaks(c: Codec, raw: bytes, kind: Kind, corr: string) {
    c.parse(raw).Object? && c.parse(raw).fields.kind == kind && c.parse(raw).fields.corr == Some(corr)
  }

  /** Some line of this kind carries this corr_id. */
  predicate HasLine(c: Codec, lines: seq<bytes>, kind: Kind, corr: string) {
    exists k | 0 <= k < |lines| :: Speaks(c, lines[k], kind, corr)
  }

  lemma HasLineSplit(c: Codec, lines: seq<bytes>, last: bytes, kind: Kind, corr: string)
    ensures HasLine(c, lines + [last], kind, corr) <==> HasLine(c, lines, kind, corr) || Speaks(c, last, kind, corr)
  {
    var all := lines + [last];
    if HasLine(c, lines, kind, corr) {
      var k :| 0 <= k < |lines| && Speaks(c, lines[k], kind, corr);
      assert all[k] == lines[k];
    }
    if Speaks(c, last, kind, corr) {
      assert all[|lines|] == last;
    }
  }

  lemma HasIntentSplit(intents: seq<Pending>, last: Pending, corr: string)
    ensures HasIntent(intents + [last], corr) <==> HasIntent(intents, corr) || last.corr == corr
  {
    var all := intents + [last];
    if HasIntent(intents, corr) {
      var i :| 0 <= i < |intents| && intents[i].corr == corr;
      assert all[i] == intents[i];
    }
    if last.corr == corr {
      assert all[|intents|] == last;
    }
  }

  lemma StepPairing(c: Codec, w: State, raw: bytes, line: nat, torn: bool, corr: string)
    ensures HasIntent(Step(c, w, raw, line, torn).intents, corr) <==> HasIntent(w.intents, corr) || Speaks(c, raw, Intent, corr)
    ensures corr in Step(c, w, raw, line, torn).outcomes <==> corr in w.outcomes || Speaks(c, raw, Outcome, corr)
  {
    if c.parse(raw).Object? && c.parse(raw).fields.corr.Some? {
      HasIntentSplit(w.intents, Pending(c.parse(raw).fields.corr.value, line), corr);
    }
  }

  lemma {:induction false} ClosedPairing(c: Codec, lines: seq<bytes>, corr: string)
    ensures HasIntent(Closed(c, lines).intents, corr) <==> HasLine(c, lines, Intent, corr)
    ensures corr in Closed(c, lines).outcomes <==> HasLine(c, lines, Outcome, corr)
  {
    if lines != [] {
      var front, last := lines[..|lines| - 1], lines[|lines| - 1];
      ClosedPairing(c, front, corr);
      assert lines == front + [last];
      HasLineSplit(c, front, last, Intent, corr);
      HasLineSplit(c, front, last, Outcome, corr);
      StepPairing(c, Closed(c, front), last, |lines|, false, corr);
    }
  }

  predicate Names(findings: seq<Finding>, corr: string) {
    exists i | 0 <= i < |findings| :: findings[i].NeverReported? && findings[i].corr == corr
  }

  lemma NamesAppend(a: seq<Finding>, b: seq<Finding>, corr: string)
    ensures Names(a + b, corr) <==> Names(a, corr) || Names(b, corr)
  {
    if Names(a, corr) {
      var i :| 0 <= i < |a| && a[i].NeverReported? && a[i].corr == corr;
      assert (a + b)[i] == a[i];
    }
    if Names(b, corr) {
      var i :| 0 <= i < |b| && b[i].NeverReported? && b[i].corr == corr;
      assert (a + b)[|a| + i] == b[i];
    }
  }

  lemma {:induction false} OrphansExact(intents: seq<Pending>, outcomes: set<string>, corr: string)
    ensures Names(Orphans(intents, outcomes), corr) <==> HasIntent(intents, corr) && corr !in outcomes
    ensures Orphans(intents, outcomes) == [] <==>
              forall x | HasIntent(intents, x) :: x in outcomes
  {
    if intents != [] {
      var front, last := intents[..|intents| - 1], intents[|intents| - 1];
      OrphansExact(front, outcomes, corr);
      assert intents == front + [last];
      HasIntentSplit(front, last, corr);
      var tail := if last.corr in outcomes then [] else [NeverReported(last.line, last.corr)];
      NamesAppend(Orphans(front, outcomes), tail, corr);
      if last.corr !in outcomes {
        assert HasIntent(intents, last.corr) by { HasIntentSplit(front, last, last.corr); }
        assert tail[0].NeverReported?;
      } else {
        forall x ensures HasIntent(intents, x) <==> HasIntent(front, x) || last.corr == x {
          HasIntentSplit(front, last, x);
        }
      }
    }
  }

  lemma {:induction false} LineFindingsNameNobody(c: Codec, lines: seq<bytes>, torn: bool, corr: string)
    ensures !Names(Closed(c, lines).findings, corr)
    ensures !Names(Walked(c, lines, torn).findings, corr)
  {
    if lines != [] {
      LineFindingsNameNobody(c, lines[..|lines| - 1], torn, corr);
    }
  }

  lemma {:induction false} WalkedPairing(c: Codec, lines: seq<bytes>, torn: bool)
    ensures Walked(c, lines, torn).intents == Closed(c, lines).intents
    ensures Walked(c, lines, torn).outcomes == Closed(c, lines).outcomes
  {
  }

  /** A walk names as "dispatch never reported" exactly the corr_ids with an intent line and no
      outcome line. */
  lemma {:induction false} NamedExactly(c: Codec, lines: seq<bytes>, torn: bool, corr: string)
    ensures Names(FindingsOf(Walked(c, lines, torn)), corr) <==>
              HasLine(c, lines, Intent, corr) && !HasLine(c, lines, Outcome, corr)
  {
    var w := Walked(c, lines, torn);
    WalkedPairing(c, lines, torn);
    ClosedPairing(c, lines, corr);
    OrphansExact(w.intents, w.outcomes, corr);
    LineFindingsNameNobody(c, lines, torn, corr);
    var head := if w.unnumbered > 0 then [UnnumberedHead(w.unnumbered)] else [];
    NamesAppend(w.findings, head, corr);
    NamesAppend(w.findings + head, Orphans(w.intents, w.outcomes), corr);
  }

  // ---- at which line -----------------------------------------------------------------------

  /** Line n, counted from 1, is the first intent line with this corr_id. */
  predicate FirstIntent(c: Codec, lines: seq<bytes>, n: nat, corr: string) {
    && 1 <= n <= |lines|
    && Speaks(c, lines[n - 1], Intent, corr)
    && forall k | 0 <= k < n - 1 :: !Speaks(c, lines[k], Intent, corr)
  }

  lemma {:induction false} StepIntents(c: Codec, w: State, raw: bytes, line: nat, torn: bool, p: Pending)
    ensures p in Step(c, w, raw, line, torn).intents <==>
              p in w.intents || (p.line == line && Speaks(c, raw, Intent, p.corr) && !HasIntent(w.intents, p.corr))
  {
  }

  lemma {:induction false} FirstIntentAppend(c: Codec, lines: seq<bytes>, last: bytes, n: nat, corr: string)
    ensures FirstIntent(c, lines + [last], n, corr) <==>
              || FirstIntent(c, lines, n, corr)
              || (n == |lines| + 1 && Speaks(c, last, Intent, corr) && !HasLine(c, lines, Intent, corr))
  {
    var all := lines + [last];
    assert forall k | 0 <= k < |lines| :: all[k] == lines[k];
    assert all[|lines|] == last;
  }

  lemma {:induction false} ClosedIntents(c: Codec, lines: seq<bytes>, p: Pending)
    ensures p in Closed(c, lines).intents <==> FirstIntent(c, lines, p.line, p.corr)
  {
    if lines != [] {
      var front, last := lines[..|lines| - 1], lines[|lines| - 1];
      assert front + [last] == lines;
      ClosedIntents(c, front, p);
      ClosedPairing(c, front, p.corr);
      StepIntents(c, Closed(c, front), last, |lines|, false, p);
      FirstIntentAppend(c, front, last, p.line, p.corr);
    }
  }

  lemma {:induction false} OrphanIffPending(intents: seq<Pending>, outcomes: set<string>, n: nat, corr: string)
    ensures NeverReported(n, corr) in Orphans(intents, outcomes) <==> Pending(corr, n) in intents && corr !in outcomes
  {
    if intents != [] {
      var front, last := intents[..|intents| - 1], intents[|intents| - 1];
      OrphanIffPending(front, outcomes, n, corr);
      assert intents == front + [last];
    }
  }

  /** An open dispatch is named at the line of its first intent. */
  lemma {:induction false} NeverReportedExact(c: Codec, lines: seq<bytes>, torn: bool, n: nat, corr: string)
    ensures NeverReported(n, corr) in FindingsOf(Walked(c, lines, torn)) <==>
              FirstIntent(c, lines, n, corr) && !HasLine(c, lines, Outcome, corr)
  {
    var w := Walked(c, lines, torn);
    WalkedPairing(c, lines, torn);
    ClosedIntents(c, lines, Pending(corr, n));
    ClosedPairing(c, lines, corr);
    OrphanIffPending(w.intents, w.outcomes, n, corr);
    WalkedRemarks(c, lines, torn, NeverReported(n, corr));
  }

  /** How many lines carry no seq before the first that does. */
  function PlainHead(c: Codec, lines: seq<bytes>): nat {
    if lines == [] then 0
    else
      var front, last := lines[..|lines| - 1], lines[|lines| - 1];
      PlainHead(c, front) + if Plain(c, last) && forall k | 0 <= k < |front| :: !IsNumbered(c, front[k]) then 1 else 0
  }

  lemma {:induction false} NoLastNumber(c: Codec, lines: seq<bytes>)
    ensures LastNumber(c, lines).None? <==> forall k | 0 <= k < |lines| :: !IsNumbered(c, lines[k])
  {
    if lines != [] {
      var front := lines[..|lines| - 1];
      assert forall k | 0 <= k < |front| :: front[k] == lines[k];
      NoLastNumber(c, front);
    }
  }

  lemma {:induction false} ClosedUnnumbered(c: Codec, lines: seq<bytes>)
    ensures Closed(c, lines).unnumbered == PlainHead(c, lines)
  {
    if lines != [] {
      var front := lines[..|lines| - 1];
      ClosedUnnumbered(c, front);
      ClosedExpects(c, front);
      NoLastNumber(c, front);
    }
  }

  lemma {:induction false} WalkedUnnumbered(c: Codec, lines: seq<bytes>, torn: bool)
    ensures Walked(c, lines, torn).unnumbered == PlainHead(c, lines)
  {
    ClosedUnnumbered(c, lines);
  }

  /** The unnumbered head is counted exactly. */
  lemma {:induction false} UnnumberedExact(c: Codec, lines: seq<bytes>, torn: bool, n: nat)
    ensures UnnumberedHead(n) in FindingsOf(Walked(c, lines, torn)) <==> n > 0 && n == PlainHead(c, lines)
  {
    var w := Walked(c, lines, torn);
    WalkedUnnumbered(c, lines, torn);
    WalkedRemarks(c, lines, torn, UnnumberedHead(n));
    if UnnumberedHead(n) in Orphans(w.intents, w.outcomes) {
      OrphansAreOrphans(w.intents, w.outcomes, UnnumberedHead(n));
    }
  }

  predicate Rising(intents: seq<Pending>) {
    forall i, j | 0 <= i < j < |intents| :: intents[i].line < intents[j].line
  }

  lemma {:induction false} StepPends(c: Codec, w: State, raw: bytes, line: nat, torn: bool)
    ensures var intents := Step(c, w, raw, line, torn).intents;
            intents == w.intents || (intents != [] && intents[..|intents| - 1] == w.intents && intents[|intents| - 1].line == line)
  {
  }

  lemma {:induction false} ClosedRises(c: Codec, lines: seq<bytes>)
    ensures Rising(Closed(c, lines).intents)
    ensures forall p | p in Closed(c, lines).intents :: p.line <= |lines|
  {
    if lines != [] {
      var front := lines[..|lines| - 1];
      ClosedRises(c, front);
      StepPends(c, Closed(c, front), lines[|lines| - 1], |lines|, false);
      OneMoreRises(Closed(c, front).intents, Closed(c, lines).intents, |lines|);
    }
  }

  lemma {:induction false} OneMoreRises(was: seq<Pending>, now: seq<Pending>, line: nat)
    requires Rising(was) && forall p | p in was :: p.line < line
    requires now == was || (now != [] && now[..|now| - 1] == was && now[|now| - 1].line == line)
    ensures Rising(now) && forall p | p in now :: p.line <= line
  {
    if now != was {
      assert now == was + [now[|now| - 1]];
      assert forall i | 0 <= i < |was| :: now[i] == was[i] && was[i] in was;
    }
  }

  lemma {:induction false} OrphansRise(intents: seq<Pending>, outcomes: set<string>)
    requires Rising(intents)
    ensures forall f | f in Orphans(intents, outcomes) :: f.NeverReported? && exists k | 0 <= k < |intents| :: intents[k].line == f.line
    ensures forall i, j | 0 <= i < j < |Orphans(intents, outcomes)| :: Orphans(intents, outcomes)[i].line < Orphans(intents, outcomes)[j].line
  {
    if intents != [] {
      var front, last := intents[..|intents| - 1], intents[|intents| - 1];
      OrphansRise(front, outcomes);
      assert forall k | 0 <= k < |front| :: front[k] == intents[k] && front[k].line < last.line;
      assert intents[|front|] == last;
    }
  }

  lemma RisingTail(head: seq<Finding>, tail: seq<Finding>)
    requires forall i | 0 <= i < |head| :: !head[i].NeverReported?
    requires forall i, j | 0 <= i < j < |tail| :: tail[i].NeverReported? && tail[j].NeverReported? && tail[i].line < tail[j].line
    ensures var all := head + tail;
            forall i, j | 0 <= i < j < |all| && all[i].NeverReported? && all[j].NeverReported? :: all[i].line < all[j].line
  {
    var all := head + tail;
    forall i, j | 0 <= i < j < |all| && all[i].NeverReported? && all[j].NeverReported? ensures all[i].line < all[j].line {
      assert i >= |head|;
      assert all[i] == tail[i - |head|] && all[j] == tail[j - |head|];
    }
  }

  /** Open dispatches are named in the order of their lines. */
  lemma {:induction false} OpenDispatchesRise(c: Codec, lines: seq<bytes>, torn: bool)
    ensures var all := FindingsOf(Walked(c, lines, torn));
            forall i, j | 0 <= i < j < |all| && all[i].NeverReported? && all[j].NeverReported? :: all[i].line < all[j].line
  {
    var w := Walked(c, lines, torn);
    var head := w.findings + if w.unnumbered > 0 then [UnnumberedHead(w.unnumbered)] else [];
    forall i | 0 <= i < |head| ensures !head[i].NeverReported? {
      if i < |w.findings| {
        WalkedRemarks(c, lines, torn, w.findings[i]);
      }
    }
    WalkedPairing(c, lines, torn);
    ClosedRises(c, lines);
    var tail := Orphans(w.intents, w.outcomes);
    OrphansRise(w.intents, w.outcomes);
    assert forall i | 0 <= i < |tail| :: tail[i] in tail;
    RisingTail(head, tail);
  }

  // ---- exit 1 and exit 3 -------------------------------------------------------------------

  /** Something for a person to read: a remark on a line, an unnumbered line, or an open dispatch. */
  ghost predicate SomethingOpen(c: Codec, lines: seq<bytes>, torn: bool) {
    || (exists f :: Remark(c, lines, torn, f))
    || (exists k | 0 <= k < |lines| :: Plain(c, lines[k]))
    || (exists corr :: HasLine(c, lines, Intent, corr) && !HasLine(c, lines, Outcome, corr))
  }

  lemma {:induction false} FailedIffHole(c: Codec, lines: seq<bytes>, torn: bool)
    ensures Walked(c, lines, torn).failures != [] <==> exists f :: Hole(c, lines, torn, f)
  {
    var failures := Walked(c, lines, torn).failures;
    if failures != [] {
      FailuresExact(c, lines, torn, failures[0]);
    }
    if f :| Hole(c, lines, torn, f) {
      FailuresExact(c, lines, torn, f);
    }
  }

  lemma {:induction false} RemarkedIff(c: Codec, lines: seq<bytes>, torn: bool)
    ensures Walked(c, lines, torn).findings != [] <==> exists f :: Remark(c, lines, torn, f)
  {
    var findings := Walked(c, lines, torn).findings;
    if findings != [] {
      WalkedRemarks(c, lines, torn, findings[0]);
    }
    if f :| Remark(c, lines, torn, f) {
      WalkedRemarks(c, lines, torn, f);
    }
  }

  lemma {:induction false} PlainHeadIff(c: Codec, lines: seq<bytes>)
    ensures PlainHead(c, lines) > 0 ==> exists k | 0 <= k < |lines| :: Plain(c, lines[k])
  {
    if lines != [] {
      var front := lines[..|lines| - 1];
      PlainHeadIff(c, front);
      if k :| 0 <= k < |front| && Plain(c, front[k]) {
        assert Plain(c, lines[k]);
      }
      assert lines[|front|] == lines[|lines| - 1];
    }
  }

  /** Without holes, every unnumbered line stands in the head. */
  lemma {:induction false} PlainIsHead(c: Codec, lines: seq<bytes>, torn: bool, k: nat)
    requires Walked(c, lines, torn).failures == [] && k < |lines| && Plain(c, lines[k])
    ensures PlainHead(c, lines) > 0
  {
    NoFailureIffWhole(c, lines, torn);
    WalkedUnnumbered(c, lines, torn);
    var r := Readable(c, lines, torn);
    assert k < |r| && r[k] == lines[k];
  }

  lemma {:induction false} OpenDispatchIff(c: Codec, lines: seq<bytes>, torn: bool)
    ensures Orphans(Walked(c, lines, torn).intents, Walked(c, lines, torn).outcomes) != [] <==>
              exists corr :: HasLine(c, lines, Intent, corr) && !HasLine(c, lines, Outcome, corr)
  {
    var w := Walked(c, lines, torn);
    WalkedPairing(c, lines, torn);
    OrphansExact(w.intents, w.outcomes, "");
    forall corr {
      ClosedPairing(c, lines, corr);
    }
  }

  /** 1 when there is a hole, 3 when there is none but something is open, 0 otherwise. */
  ghost predicate ExitMeans(code: int, c: Codec, lines: seq<bytes>, torn: bool) {
    && (code == 1 <==> exists f :: Hole(c, lines, torn, f))
    && (code == 3 <==> (forall f :: !Hole(c, lines, torn, f)) && SomethingOpen(c, lines, torn))
    && (code == 0 <==> (forall f :: !Hole(c, lines, torn, f)) && !SomethingOpen(c, lines, torn))
  }

  /** The exit codes of a walk, each by what is in the file. */
  lemma {:induction false} ExitCodesMean(c: Codec, lines: seq<bytes>, torn: bool)
    ensures ExitMeans(ExitCode(Walked(c, lines, torn)), c, lines, torn)
  {
    var w := Walked(c, lines, torn);
    FailedIffHole(c, lines, torn);
    RemarkedIff(c, lines, torn);
    OpenDispatchIff(c, lines, torn);
    WalkedUnnumbered(c, lines, torn);
    PlainHeadIff(c, lines);
    if w.failures == [] {
      if k :| 0 <= k < |lines| && Plain(c, lines[k]) {
        PlainIsHead(c, lines, torn, k);
      }
    }
  }

  /** What a walk reports, all at once. */
  lemma {:induction false} ReportMeans(c: Codec, lines: seq<bytes>, torn: bool)
    ensures ExitMeans(ExitCode(Walked(c, lines, torn)), c, lines, torn)
    ensures forall f :: f in Walked(c, lines, torn).failures <==> Hole(c, lines, torn, f)
  {
    ExitCodesMean(c, lines, torn);
    forall f ensures f in Walked(c, lines, torn).failures <==> Hole(c, lines, torn, f) {
      FailuresExact(c, lines, torn, f);
    }
  }

  method OpenDispatches(w: State) returns (open: seq<Finding>)
    ensures open == Orphans(w.intents, w.outcomes)
  {
    open := [];
    assert w.intents[..|w.intents|] == w.intents;
    for i := 0 to |w.intents|
      invariant open == Orphans(w.intents[..i], w.outcomes)
    {
      assert w.intents[..i + 1][..i] == w.intents[..i];
      if w.intents[i].corr !in w.outcomes {
        open := open + [NeverReported(w.intents[i].line, w.intents[i].corr)];
      }
    }
  }

  /** The end of `walk`: everything that was found, and the exit code. */
  method Summarize(w: State) returns (code: int, findings: seq<Finding>)
    ensures code == ExitCode(w) && findings == FindingsOf(w)
  {
    findings := w.findings;
    if w.unnumbered > 0 {
      findings := findings + [UnnumberedHead(w.unnumbered)];
    }
    var open := OpenDispatches(w);
    findings := findings + open;
    assert findings == FindingsOf(w);
    code := if w.failures != [] then EXIT_NOT_WHOLE else if findings != [] then EXIT_FINDINGS else EXIT_WHOLE;
  }

  /** `walk` on a file's bytes: the exit code, every failure and every finding. */
  method WalkExport(c: Codec, data: bytes) returns (code: int, failures: seq<Failure>, findings: seq<Finding>)
    ensures code == WalkExit(c, data) && failures == WalkOf(c, data).failures && findings == FindingsOf(WalkOf(c, data))
    ensures ExitMeans(code, c, Lines(data), !EndsWithNewline(data))
    ensures forall f :: f in failures <==> Hole(c, Lines(data), !EndsWithNewline(data), f)
  {
    var lines, torn := Lines(data), !EndsWithNewline(data);
    var w := WalkLines(c, lines, torn);
    code, findings := Summarize(w);
    failures := w.failures;
    ReportMeans(c, lines, torn);
  }

  // ---- exit 0 ------------------------------------------------------------------------------

  /** Numbered from the first line on, that line claiming nothing before it, no link rebuilt. */
  ghost predicate Unmarked(c: Codec, lines: seq<bytes>) {
    && Whole(c, lines, 0)
    && (forall k | 0 <= k < |lines| :: c.parse(lines[k]).fields.note == None)
    && (lines != [] ==> c.parse(lines[0]).fields.prev in {None, Some(Genesis)})
  }

  /** Nothing to report beyond open questions about dispatches. */
  predicate Quiet(w: State) {
    w.failures == [] && w.findings == [] && w.unnumbered == 0
  }

  lemma QuietOnlyIfUnmarked(c: Codec, w: State, lines: seq<bytes>, last: bytes, line: nat)
    requires Fits(c, w, lines) && Unmarked(c, lines)
    requires Quiet(Step(c, w, last, line, false))
    ensures Unmarked(c, lines + [last])
  {
    SoundStep(c, w, lines, last, line);
    var all := lines + [last];
    assert forall k | 0 <= k < |lines| :: all[k] == lines[k];
    assert c.parse(last).fields.note == None;
  }

  lemma UnmarkedIsQuiet(c: Codec, w: State, lines: seq<bytes>, last: bytes, line: nat)
    requires Fits(c, w, lines) && Quiet(w)
    requires Unmarked(c, lines + [last])
    ensures Quiet(Step(c, w, last, line, false))
  {
    WholeLast(c, lines, last, 0);
    CompleteStep(c, w, lines, last, 0, line);
    var all := lines + [last];
    assert all[|lines|] == last;
  }

  lemma UnmarkedFront(c: Codec, lines: seq<bytes>, last: bytes)
    requires Unmarked(c, lines + [last])
    ensures Unmarked(c, lines)
  {
    var all := lines + [last];
    WholeDrop(c, all, 0);
    assert all[..|lines|] == lines;
    assert forall k | 0 <= k < |lines| :: all[k] == lines[k];
  }

  lemma {:induction false} ClosedQuietIff(c: Codec, lines: seq<bytes>)
    ensures Quiet(Closed(c, lines)) <==> Unmarked(c, lines)
  {
    if lines != [] {
      var front, last := lines[..|lines| - 1], lines[|lines| - 1];
      var before := Closed(c, front);
      ClosedQuietIff(c, front);
      assert front + [last] == lines;
      if Unmarked(c, lines) {
        UnmarkedFront(c, front, last);
        ClosedSound(c, front);
        UnmarkedIsQuiet(c, before, front, last, |lines|);
      }
      if Quiet(Closed(c, lines)) {
        StepWithoutFailure(c, before, last, |lines|);
        assert Quiet(before);
        ClosedSound(c, front);
        QuietOnlyIfUnmarked(c, before, front, last, |lines|);
      }
    }
  }

  lemma {:induction false} QuietIffUnmarked(c: Codec, lines: seq<bytes>, torn: bool)
    ensures Quiet(Walked(c, lines, torn)) <==> Unmarked(c, lines)
  {
    ClosedQuietIff(c, lines);
    if TornTail(c, lines, torn) {
      assert !IsNumbered(c, lines[|lines| - 1]);
    }
  }

  /** A walk exits 0 exactly on an unmarked file in which every dispatch was reported. */
  lemma {:induction false} ExitWholeIff(c: Codec, lines: seq<bytes>, torn: bool)
    ensures ExitCode(Walked(c, lines, torn)) == EXIT_WHOLE <==>
              && Unmarked(c, lines)
              && forall corr | HasLine(c, lines, Intent, corr) :: HasLine(c, lines, Outcome, corr)
  {
    var w := Walked(c, lines, torn);
    QuietIffUnmarked(c, lines, torn);
    WalkedPairing(c, lines, torn);
    OrphansExact(w.intents, w.outcomes, "");
    forall corr {
      ClosedPairing(c, lines, corr);
    }
  }

  // ---- tamper evidence ---------------------------------------------------------------------

  /** How many lines at the end of a whole file are fixed by its last line: the numbered ones and,
      when there is one, the unnumbered line just above them. */
  function Bound(lines: seq<bytes>, u: nat): int {
    if u == 0 then |lines| else |lines| - u + 1
  }

  lemma {:induction false} ChainAgrees(c: Codec, a: seq<bytes>, ua: nat, b: seq<bytes>, ub: nat, k: nat)
    requires Whole(c, a, ua) && Whole(c, b, ub)
    requires ua < |a| && ub < |b| && a[|a| - 1] == b[|b| - 1]
    requires k < Bound(a, ua) && k < Bound(b, ub)
    ensures a[|a| - 1 - k] == b[|b| - 1 - k]
  {
    if k > 0 {
      ChainAgrees(c, a, ua, b, ub, k - 1);
      var i, j := |a| - k, |b| - k;
      assert Binds(c, a[i], a[i - 1]) && Binds(c, b[j], b[j - 1]);
    }
  }

  predicate WalksWithoutFailure(c: Codec, lines: seq<bytes>, torn: bool) {
    lines != [] && Walked(c, lines, torn).failures == []
  }

  /** Two files with no failures, k lines above their common last line. */
  predicate AgreeAt(c: Codec, a: seq<bytes>, ta: bool, b: seq<bytes>, tb: bool, k: nat)
    requires a != [] && b != []
  {
    k < Bound(a, Walked(c, a, ta).unnumbered) && k < Bound(b, Walked(c, b, tb).unnumbered) ==>
      a[|a| - 1 - k] == b[|b| - 1 - k]
  }

  /** Two files with no failures that end in the same readable line agree from there backwards
      through the numbered region and the last unnumbered line, as far as the shorter one goes. */
  lemma {:induction false} SameLastLineSameHistory(c: Codec, a: seq<bytes>, b: seq<bytes>, ta: bool, tb: bool, k: nat)
    requires WalksWithoutFailure(c, a, ta) && WalksWithoutFailure(c, b, tb)
    requires a[|a| - 1] == b[|b| - 1] && c.parse(a[|a| - 1]) != NotJson
    ensures AgreeAt(c, a, ta, b, tb, k)
  {
    NoFailureIffWhole(c, a, ta);
    NoFailureIffWhole(c, b, tb);
    var ua, ub := Walked(c, a, ta).unnumbered, Walked(c, b, tb).unnumbered;
    if IsNumbered(c, a[|a| - 1]) && k < Bound(a, ua) && k < Bound(b, ub) {
      ChainAgrees(c, a, ua, b, ub, k);
    }
  }

  /** A last line fixes the history above it. */
  ghost predicate FixesHistory(c: Codec, last: bytes) {
    forall a: seq<bytes>, ta: bool, b: seq<bytes>, tb: bool, k: nat {:trigger AgreeAt(c, a, ta, b, tb, k)} |
      WalksWithoutFailure(c, a, ta) && WalksWithoutFailure(c, b, tb) && a[|a| - 1] == last && b[|b| - 1] == last ::
      AgreeAt(c, a, ta, b, tb, k)
  }

  /** One numbered record under a torn tail walks without a failure. */
  lemma RecordUnderTornTail(c: Codec, r: Record, torn: bytes)
    requires c.Lawful() && r.seqNo == 1 && r.prev == Genesis && r.note == None && c.parse(torn) == NotJson
    ensures var lines := [c.canon(r), torn];
            WalksWithoutFailure(c, lines, true) && Bound(lines, Walked(c, lines, true).unnumbered) == 2
  {
    var first := [c.canon(r)];
    assert c.parse(c.canon(r)) == Object(FieldsOf(r));
    var lines := [c.canon(r), torn];
    assert first[..0] == [] && lines[..1] == first;
    assert Closed(c, first) == Step(c, START, c.canon(r), 1, false);
    assert Walked(c, lines, true) == Step(c, Closed(c, first), torn, 2, true);
  }

  /** Which last lines fix the history above them: exactly the readable ones. Under a torn tail
      any two histories pass. */
  lemma FixesHistoryIffReadable(c: Codec, last: bytes)
    requires c.Lawful()
    ensures FixesHistory(c, last) <==> c.parse(last) != NotJson
  {
    if c.parse(last) == NotJson {
      var x := Record(Body(Intent, None, 0), 1, Genesis, None);
      var y := x.(body := Body(Outcome, None, 0));
      RecordUnderTornTail(c, x, last);
      RecordUnderTornTail(c, y, last);
      assert c.parse(c.canon(x)) == Object(FieldsOf(x)) && c.parse(c.canon(y)) == Object(FieldsOf(y));
      assert !AgreeAt(c, [c.canon(x), last], true, [c.canon(y), last], true, 1);
    } else {
      forall a: seq<bytes>, ta: bool, b: seq<bytes>, tb: bool, k: nat |
        WalksWithoutFailure(c, a, ta) && WalksWithoutFailure(c, b, tb) && a[|a| - 1] == last && b[|b| - 1] == last
        ensures AgreeAt(c, a, ta, b, tb, k)
      {
        SameLastLineSameHistory(c, a, b, ta, tb, k);
      }
    }
  }

  /** Two files that walk to exit 0 and end in the same line are the same, line for line. */
  lemma {:induction false} TamperEvidence(c: Codec, a: seq<bytes>, b: seq<bytes>, ta: bool, tb: bool)
    requires ExitCode(Walked(c, a, ta)) == EXIT_WHOLE && ExitCode(Walked(c, b, tb)) == EXIT_WHOLE
    requires a != [] && b != [] && a[|a| - 1] == b[|b| - 1]
    ensures a == b
  {
    ExitWholeIff(c, a, ta);
    ExitWholeIff(c, b, tb);
    NoLonger(c, a, b);
    NoLonger(c, b, a);
    forall i | 0 <= i < |a| ensures a[i] == b[i] {
      ChainAgrees(c, a, 0, b, 0, |a| - 1 - i);
    }
  }

  lemma BindsAbove(c: Codec, lines: seq<bytes>, i: nat)
    requires Whole(c, lines, 0) && 0 < i < |lines|
    ensures Binds(c, lines[i], lines[i - 1])
  {
  }

  /** An unmarked file cannot be continued upwards: its first line binds no line at all. */
  lemma NoLonger(c: Codec, a: seq<bytes>, b: seq<bytes>)
    requires Unmarked(c, a) && Unmarked(c, b) && a != [] && b != [] && a[|a| - 1] == b[|b| - 1]
    ensures |b| <= |a|
  {
    if |a| < |b| {
      ChainAgrees(c, a, 0, b, 0, |a| - 1);
      BindsAbove(c, b, |b| - |a|);
      assert false;
    }
  }
}
