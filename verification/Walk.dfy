/** `verify_receipt.py --walk`: reading an export back and naming every hole in it. */
module Walk {
  import opened Bytes
  import opened Trace

  datatype Failure =
    | UnparsedLine(line: nat)
    | NotAnObject(line: nat)
    | NumberingStopped(line: nat)
    | Gap(line: nat, found: int, expected: int)
    | ChainBreak(line: nat)

  datatype Finding =
    | PartialLine(line: nat)
    | FirstLineBindsElsewhere(line: nat)
    | NoteFound(line: nat, note: Note)
    | UnnumberedHead(count: nat)
    | NeverReported(line: nat, corr: string)

  datatype Pending = Pending(corr: string, line: nat)

  /** The variables of the walking loop. `intents` keeps the insertion order of the dictionary. */
  datatype State = State(expected: Option<int>, prev: Option<bytes>, unnumbered: nat,
                         intents: seq<Pending>, outcomes: set<string>,
                         failures: seq<Failure>, findings: seq<Finding>)

  const START := State(None, None, 0, [], {}, [], [])

  predicate HasIntent(intents: seq<Pending>, corr: string) {
    exists i | 0 <= i < |intents| :: intents[i].corr == corr
  }

  /** What a line's kind and corr_id add to the two sides of the pairing. */
  function Paired(w: State, f: Fields, line: nat): State {
    if f.corr.None? then w
    else if f.kind.Outcome? then w.(outcomes := w.outcomes + {f.corr.value})
    else if HasIntent(w.intents, f.corr.value) then w
    else w.(intents := w.intents + [Pending(f.corr.value, line)])
  }

  /** What a numbered line says against the line before it. */
  function LinkFailuresOf(expected: Option<int>, prev: Option<bytes>, f: Fields, line: nat): seq<Failure>
    requires f.seqNo.Some?
  {
    (if expected.Some? && f.seqNo != expected then [Gap(line, f.seqNo.value, expected.value)] else [])
    + (if prev.Some? && f.prev != Some(Sha256(prev.value)) then [ChainBreak(line)] else [])
  }

  function LinkFindingsOf(prev: Option<bytes>, f: Fields, line: nat): seq<Finding> {
    (if prev.None? && f.prev != None && f.prev != Some(Genesis) then [FirstLineBindsElsewhere(line)] else [])
    + (if f.note.Some? then [NoteFound(line, f.note.value)] else [])
  }

  /** One round of the loop. `torn`: this is the last line and no newline follows it. */
  function Step(c: Codec, w: State, raw: bytes, line: nat, torn: bool): State {
    match c.parse(raw)
    case NotJson =>
      if torn then w.(findings := w.findings + [PartialLine(line)], prev := Some(raw))
      else w.(failures := w.failures + [UnparsedLine(line)], prev := Some(raw))
    case NotObject => w.(failures := w.failures + [NotAnObject(line)], prev := Some(raw))
    case Object(f) =>
      var p := Paired(w, f, line);
      if f.seqNo.None? then
        if w.expected.None? then p.(unnumbered := w.unnumbered + 1, prev := Some(raw))
        else p.(failures := w.failures + [NumberingStopped(line)], prev := Some(raw))
      else
        p.(expected := Some(f.seqNo.value + 1), prev := Some(raw),
           failures := w.failures + LinkFailuresOf(w.expected, w.prev, f, line),
           findings := w.findings + LinkFindingsOf(w.prev, f, line))
  }

  /** The walk of lines that all end in a newline. */
  function Closed(c: Codec, lines: seq<bytes>): State {
    if lines == [] then START
    else Step(c, Closed(c, lines[..|lines| - 1]), lines[|lines| - 1], |lines|, false)
  }

  /** The walk of all lines; `torn`: no newline follows the last one. */
  function Walked(c: Codec, lines: seq<bytes>, torn: bool): State {
    if lines == [] then START
    else Step(c, Closed(c, lines[..|lines| - 1]), lines[|lines| - 1], |lines|, torn)
  }

  function Orphans(intents: seq<Pending>, outcomes: set<string>): seq<Finding> {
    if intents == [] then []
    else
      var last := intents[|intents| - 1];
      Orphans(intents[..|intents| - 1], outcomes)
      + if last.corr in outcomes then [] else [NeverReported(last.line, last.corr)]
  }

  function FindingsOf(w: State): seq<Finding> {
    w.findings + (if w.unnumbered > 0 then [UnnumberedHead(w.unnumbered)] else []) + Orphans(w.intents, w.outcomes)
  }

  const EXIT_WHOLE := 0
  const EXIT_NOT_WHOLE := 1
  const EXIT_FINDINGS := 3

  function ExitCode(w: State): int {
    if w.failures != [] then EXIT_NOT_WHOLE
    else if FindingsOf(w) != [] then EXIT_FINDINGS
    else EXIT_WHOLE
  }

  /** The walk of a file's bytes. */
  function WalkOf(c: Codec, data: bytes): State {
    Walked(c, Lines(data), !EndsWithNewline(data))
  }

  function WalkExit(c: Codec, data: bytes): int {
    ExitCode(WalkOf(c, data))
  }

  /** The walking loop. */
  method WalkLines(c: Codec, lines: seq<bytes>, torn: bool) returns (w: State)
    ensures w == Walked(c, lines, torn)
  {
    var failures: seq<Failure>, findings: seq<Finding> := [], [];
    var unnumbered: nat := 0;
    var expected: Option<int>, prev: Option<bytes> := None, None;
    var intents: seq<Pending>, outcomes: set<string> := [], {};
    assert lines[..|lines|] == lines;
    for i := 0 to |lines|
      invariant State(expected, prev, unnumbered, intents, outcomes, failures, findings)
             == if i == |lines| then Walked(c, lines, torn) else Closed(c, lines[..i])
    {
      var raw, line := lines[i], i + 1;
      assert lines[..i + 1][..i] == lines[..i];
      ghost var before := State(expected, prev, unnumbered, intents, outcomes, failures, findings);
      match c.parse(raw) {
        case NotJson =>
          if torn && line == |lines| {
            findings := findings + [PartialLine(line)];
          } else {
            failures := failures + [UnparsedLine(line)];
          }
        case NotObject =>
          failures := failures + [NotAnObject(line)];
        case Object(f) =>
          if f.corr.Some? {
            if f.kind.Outcome? {
              outcomes := outcomes + {f.corr.value};
            } else if !HasIntent(intents, f.corr.value) {
              intents := intents + [Pending(f.corr.value, line)];
            }
          }
          if f.seqNo.None? {
            if expected.None? {
              unnumbered := unnumbered + 1;
            } else {
              failures := failures + [NumberingStopped(line)];
            }
          } else {
            failures := failures + LinkFailuresOf(expected, prev, f, line);
            findings := findings + LinkFindingsOf(prev, f, line);
            expected := Some(f.seqNo.value + 1);
          }
      }
      prev := Some(raw);
      assert Step(c, before, raw, line, torn && line == |lines|)
          == State(expected, prev, unnumbered, intents, outcomes, failures, findings);
    }
    w := State(expected, prev, unnumbered, intents, outcomes, failures, findings);
  }
}
