/** Records of the ordered trace: how they become lines, and what a reader gets back from a line. */
module Trace {
  import opened Bytes

  datatype Option<+T> = None | Some(value: T)

  /** A hash value. SHA-256 is idealised: distinct bytes have distinct digests, and no bytes
      hash to the genesis value. `Foreign` is any other JSON value found where a hash belongs. */
  datatype Digest = Genesis | Sha256(of: bytes) | Foreign(id: nat)

  datatype Kind = Intent | Outcome

  datatype Note = UnnumberedHistory | HeadRecovered | PartialPrevious | OtherNote(id: nat)

  /** A record as its builder leaves it; `rest` stands for every field the ordering does not read. */
  datatype Body = Body(kind: Kind, corr: Option<string>, rest: nat)

  /** A record with the position `append_trace_line` gives it. */
  datatype Record = Record(body: Body, seqNo: int, prev: Digest, note: Option<Note>)

  /** What the readers look at in a parsed line. `seqNo` is None unless it is an integer, `prev` is
      None when `chain_prev` is null or absent. */
  datatype Fields = Fields(kind: Kind, corr: Option<string>, seqNo: Option<int>, prev: Option<Digest>,
                           note: Option<Note>)

  datatype Parsed = NotJson | NotObject | Object(fields: Fields)

  function FieldsOf(r: Record): Fields {
    Fields(r.body.kind, r.body.corr, Some(r.seqNo), Some(r.prev), r.note)
  }

  /** Canonical JSON and its reader. */
  datatype Codec = Codec(canon: Record -> bytes, parse: bytes -> Parsed) {

    /** Every record reads back as itself. */
    ghost predicate RoundTrips() {
      forall r :: parse(canon(r)) == Object(FieldsOf(r))
    }

    /** A record is one line: it starts with a brace and holds no newline. */
    ghost predicate OneLine() {
      forall r :: canon(r) != [] && !IsSpace(canon(r)[0]) && !HasNewline(canon(r))
    }

    /** A record cut short is not JSON. */
    ghost predicate CutIsUnreadable() {
      forall r, k: nat {:trigger canon(r)[..k]} :: k < |canon(r)| ==> parse(canon(r)[..k]) == NotJson
    }

    ghost predicate Lawful() {
      RoundTrips() && OneLine() && CutIsUnreadable()
    }
  }

  /** `_seq_of`: the seq a line carries, if it parses and carries one of at least 1. */
  function SeqOf(c: Codec, raw: bytes): Option<int> {
    match c.parse(raw)
    case Object(f) => if f.seqNo.Some? && f.seqNo.value >= 1 then f.seqNo else None
    case _ => None
  }

  /** The head file; an unreadable or malformed one is a missing one. */
  datatype Head = Head(seqNo: int, hash: Digest)

  /** The two files the writer keeps. */
  datatype Export = Export(data: bytes, head: Option<Head>)

  const EMPTY := Export([], None)

  datatype Link = Link(seqNo: int, prev: Digest, note: Option<Note>)

  /** The seq of the last line that carries one. */
  function LastSeq(c: Codec, lines: seq<bytes>): Option<int> {
    if lines == [] then None
    else
      var seqNo := SeqOf(c, lines[|lines| - 1]);
      if seqNo.Some? then seqNo else LastSeq(c, lines[..|lines| - 1])
  }

  /** Where the next line goes. */
  function NextLink(c: Codec, e: Export): Link {
    if e.head.Some? then Link(e.head.value.seqNo + 1, e.head.value.hash, None)
    else
      var lines := Lines(e.data);
      if lines == [] then Link(1, Genesis, None)
      else
        var last := lines[|lines| - 1];
        match SeqOf(c, last)
        case Some(n) => Link(n + 1, Sha256(last), Some(HeadRecovered))
        case None =>
          match LastSeq(c, lines)
          case Some(n) => Link(n + 1, Sha256(last), Some(PartialPrevious))
          case None => Link(1, Sha256(last), Some(UnnumberedHistory))
  }

  /** Line i carries the last readable number of the file. */
  predicate LastNumbered(c: Codec, lines: seq<bytes>, i: int) {
    && 0 <= i < |lines|
    && SeqOf(c, lines[i]).Some?
    && forall j | i < j < |lines| :: SeqOf(c, lines[j]).None?
  }

  lemma {:induction false} LastSeqExact(c: Codec, lines: seq<bytes>)
    ensures LastSeq(c, lines).None? ==> forall i | 0 <= i < |lines| :: SeqOf(c, lines[i]).None?
    ensures LastSeq(c, lines).Some? ==> exists i :: LastNumbered(c, lines, i) && SeqOf(c, lines[i]) == LastSeq(c, lines)
  {
    if lines != [] {
      var n := |lines| - 1;
      var front := lines[..n];
      if SeqOf(c, lines[n]).Some? {
        assert LastNumbered(c, lines, n);
      } else {
        LastSeqExact(c, front);
        if LastSeq(c, front).Some? {
          var i :| LastNumbered(c, front, i) && SeqOf(c, front[i]) == LastSeq(c, front);
          assert LastNumbered(c, lines, i);
        }
      }
    }
  }

  /** What a link and its note say about the files it was made from: nothing was lost, the head was
      lost beside a numbered last line, beside a torn one, or beside lines that were never numbered.
      Beside lines the link always binds the physically last one, and it continues the last
      readable number. */
  lemma LinkMeans(c: Codec, e: Export)
    ensures var lines, link := Lines(e.data), NextLink(c, e);
            && (link.note == None <==> e.head.Some? || lines == [])
            && (e.head.Some? ==> link.seqNo == e.head.value.seqNo + 1 && link.prev == e.head.value.hash)
            && (e.head.None? && lines == [] ==> link.seqNo == 1 && link.prev == Genesis)
            && (e.head.None? && lines != [] ==> link.prev == Sha256(lines[|lines| - 1]))
            && (link.note == Some(HeadRecovered) <==> e.head.None? && lines != [] && LastNumbered(c, lines, |lines| - 1))
            && (link.note == Some(PartialPrevious) <==> e.head.None? && exists i :: i < |lines| - 1 && LastNumbered(c, lines, i))
            && (link.note == Some(UnnumberedHistory) <==>
                  e.head.None? && lines != [] && forall i | 0 <= i < |lines| :: SeqOf(c, lines[i]).None?)
            && (link.note == Some(UnnumberedHistory) ==> link.seqNo == 1)
            && (e.head.None? ==> forall i | LastNumbered(c, lines, i) :: link.seqNo == SeqOf(c, lines[i]).value + 1)
  {
    var lines := Lines(e.data);
    if e.head.None? && lines != [] {
      LastSeqExact(c, lines);
      var n := |lines| - 1;
      if SeqOf(c, lines[n]).Some? {
        assert LastNumbered(c, lines, n);
        assert forall i | LastNumbered(c, lines, i) :: i == n;
      } else if LastSeq(c, lines).Some? {
        var last :| LastNumbered(c, lines, last) && SeqOf(c, lines[last]) == LastSeq(c, lines);
        assert last < n;
        assert forall i | LastNumbered(c, lines, i) :: i == last;
      }
    }
  }

  /** A seq below 1 is no number: lines that carry nothing better count as never numbered. */
  lemma BelowOneIsNoNumber(c: Codec, e: Export)
    requires e.head.None? && Lines(e.data) != []
    requires forall i | 0 <= i < |Lines(e.data)| && c.parse(Lines(e.data)[i]).Object? ::
               match c.parse(Lines(e.data)[i]).fields.seqNo case None => true case Some(n) => n < 1
    ensures NextLink(c, e) == Link(1, Sha256(Lines(e.data)[|Lines(e.data)| - 1]), Some(UnnumberedHistory))
  {
    LastSeqExact(c, Lines(e.data));
  }

  function Numbered(link: Link, body: Body): Record {
    Record(body, link.seqNo, link.prev, link.note)
  }

  function NextRecord(c: Codec, e: Export, body: Body): Record {
    Numbered(NextLink(c, e), body)
  }

  function Separator(data: bytes): bytes {
    if EndsWithNewline(data) then [] else [NEWLINE]
  }

  /** What one append writes to the export. */
  function Chunk(c: Codec, data: bytes, r: Record): bytes {
    Separator(data) + c.canon(r) + [NEWLINE]
  }

  function HeadOf(c: Codec, r: Record): Head {
    Head(r.seqNo, Sha256(c.canon(r)))
  }

  /** The files after one whole append. */
  function Appended(c: Codec, e: Export, body: Body): Export {
    var r := NextRecord(c, e, body);
    Export(e.data + Chunk(c, e.data, r), Some(HeadOf(c, r)))
  }

  function AppendAll(c: Codec, e: Export, bodies: seq<Body>): Export {
    if bodies == [] then e
    else Appended(c, AppendAll(c, e, bodies[..|bodies| - 1]), bodies[|bodies| - 1])
  }

  /** The lines after the first `kept` bytes of a chunk reached the file. */
  function LinesKept(c: Codec, data: bytes, r: Record, kept: nat): seq<bytes> {
    var start := |Separator(data)|;
    if kept <= start then Lines(data)
    else if kept < start + |c.canon(r)| then Lines(data) + [c.canon(r)[..kept - start]]
    else Lines(data) + [c.canon(r)]
  }

  lemma Separated(data: bytes)
    ensures EndsWithNewline(data + Separator(data))
    ensures Lines(data + Separator(data)) == Lines(data)
  {
    if EndsWithNewline(data) {
      assert data + [] == data;
    } else {
      LinesNewline(data);
    }
  }

  /** After the separator, `part` bytes of the record's text are a line of their own. */
  lemma {:induction false} CutText(c: Codec, data: bytes, r: Record, part: nat, left: bytes)
    requires c.Lawful() && 0 < part <= |c.canon(r)|
    requires left == data + Separator(data) + c.canon(r)[..part]
    ensures Lines(left) == Lines(data) + [c.canon(r)[..part]] && !EndsWithNewline(left)
  {
    var text := c.canon(r);
    assert text != [] && !IsSpace(text[0]) && !HasNewline(text);
    Separated(data);
    assert text[..part][0] == text[0];
    LinesAppend(data + Separator(data), text[..part]);
  }

  /** A write cut inside its separator leaves the lines alone. */
  lemma {:induction false} CutBefore(data: bytes, kept: nat, left: bytes)
    requires kept <= |Separator(data)| && left == data + Separator(data)[..kept]
    ensures Lines(left) == Lines(data) && (EndsWithNewline(left) <==> kept > 0 || EndsWithNewline(data))
  {
    if kept == 0 {
      assert left == data;
    } else {
      assert Separator(data)[..kept] == Separator(data);
      Separated(data);
    }
  }

  /** A write that ends with its newline has added the record as a line. */
  lemma {:induction false} CutAfter(c: Codec, data: bytes, r: Record, left: bytes)
    requires c.Lawful() && left == data + Separator(data) + c.canon(r) + [NEWLINE]
    ensures Lines(left) == Lines(data) + [c.canon(r)] && EndsWithNewline(left)
  {
    var text := c.canon(r);
    var all := data + Separator(data) + text;
    assert text[..|text|] == text;
    CutText(c, data, r, |text|, all);
    LinesNewline(all);
  }

  lemma CutOfThree(data: bytes, sep: bytes, text: bytes, kept: nat)
    requires kept <= |sep| + |text| + 1
    ensures var left := data + (sep + text + [NEWLINE])[..kept];
            && (kept <= |sep| ==> left == data + sep[..kept])
            && (|sep| < kept <= |sep| + |text| ==> left == data + sep + text[..kept - |sep|])
            && (kept == |sep| + |text| + 1 ==> left == data + sep + text + [NEWLINE])
  {
  }

  lemma {:induction false} CutLeaves(c: Codec, data: bytes, r: Record, kept: nat, left: bytes)
    requires c.Lawful() && kept <= |Separator(data)| + |c.canon(r)| + 1
    requires kept <= |Separator(data)| ==> left == data + Separator(data)[..kept]
    requires |Separator(data)| < kept <= |Separator(data)| + |c.canon(r)| ==>
               left == data + Separator(data) + c.canon(r)[..kept - |Separator(data)|]
    requires kept == |Separator(data)| + |c.canon(r)| + 1 ==> left == data + Separator(data) + c.canon(r) + [NEWLINE]
    ensures Lines(left) == LinesKept(c, data, r, kept)
    ensures EndsWithNewline(left) <==>
            if kept == 0 then EndsWithNewline(data)
            else kept <= |Separator(data)| || kept == |Separator(data)| + |c.canon(r)| + 1
  {
    var sep, text := Separator(data), c.canon(r);
    if kept <= |sep| {
      CutBefore(data, kept, left);
    } else if kept <= |sep| + |text| {
      CutText(c, data, r, kept - |sep|, left);
      assert text[..|text|] == text;
    } else {
      CutAfter(c, data, r, left);
    }
  }

  /** A write cut anywhere never touches the lines before it: the separator keeps a torn line
      from being welded to the next record. */
  lemma {:induction false} CutWrite(c: Codec, data: bytes, r: Record, kept: nat)
    requires c.Lawful() && kept <= |Chunk(c, data, r)|
    ensures Lines(data + Chunk(c, data, r)[..kept]) == LinesKept(c, data, r, kept)
    ensures EndsWithNewline(data + Chunk(c, data, r)[..kept]) <==>
            if kept == 0 then EndsWithNewline(data)
            else kept <= |Separator(data)| || kept == |Chunk(c, data, r)|
  {
    CutOfThree(data, Separator(data), c.canon(r), kept);
    CutLeaves(c, data, r, kept, data + Chunk(c, data, r)[..kept]);
  }

  lemma WholeWrite(c: Codec, data: bytes, r: Record)
    requires c.Lawful()
    ensures Lines(data + Chunk(c, data, r)) == Lines(data) + [c.canon(r)]
    ensures EndsWithNewline(data + Chunk(c, data, r))
  {
    var chunk := Chunk(c, data, r);
    assert chunk[..|chunk|] == chunk;
    CutWrite(c, data, r, |chunk|);
  }

  lemma {:induction false} LastSeqBack(c: Codec, lines: seq<bytes>, i: int)
    requires 0 < i <= |lines|
    ensures LastSeq(c, lines[..i]) == if SeqOf(c, lines[i - 1]).Some? then SeqOf(c, lines[i - 1]) else LastSeq(c, lines[..i - 1])
  {
    assert lines[..i][..i - 1] == lines[..i - 1];
  }

  /** The writer of one export file, as `append_trace_line` runs it under the file's lock. */
  class TraceExport {
    const codec: Codec
    var data: bytes
    var head: Option<Head>

    constructor (codec: Codec, data: bytes, head: Option<Head>)
      ensures this.codec == codec && Files() == Export(data, head)
    {
      this.codec := codec;
      this.data := data;
      this.head := head;
    }

    function Files(): Export
      reads this
    {
      Export(data, head)
    }

    /** The number of the last line that carries one. */
    method LastNumber(lines: seq<bytes>) returns (n: Option<int>)
      ensures n == LastSeq(codec, lines)
    {
      var i := |lines|;
      assert lines[..|lines|] == lines;
      while i > 0
        invariant 0 <= i <= |lines|
        invariant LastSeq(codec, lines) == LastSeq(codec, lines[..i])
      {
        LastSeqBack(codec, lines, i);
        i := i - 1;
        n := SeqOf(codec, lines[i]);
        if n.Some? {
          return;
        }
      }
      return None;
    }

    method NextTraceLink() returns (link: Link)
      ensures link == NextLink(codec, Files())
    {
      if head.Some? {
        return Link(head.value.seqNo + 1, head.value.hash, None);
      }
      var lines := Lines(data);
      if lines == [] {
        return Link(1, Genesis, None);
      }
      var prev := Sha256(lines[|lines| - 1]);
      var last := SeqOf(codec, lines[|lines| - 1]);
      if last.Some? {
        return Link(last.value + 1, prev, Some(HeadRecovered));
      }
      var earlier := LastNumber(lines[..|lines| - 1]);
      if earlier.Some? {
        return Link(earlier.value + 1, prev, Some(PartialPrevious));
      }
      return Link(1, prev, Some(UnnumberedHistory));
    }

    method WriteTraceHead(newHead: Head)
      modifies this`head
      ensures head == Some(newHead)
      ensures NextLink(codec, Files()) == Link(newHead.seqNo + 1, newHead.hash, None)
    {
      head := Some(newHead);
    }

    method AppendTraceLine(body: Body) returns (r: Record)
      modifies this
      ensures r == NextRecord(codec, old(Files()), body)
      ensures Files() == Appended(codec, old(Files()), body)
    {
      var link := NextTraceLink();
      r := Numbered(link, body);
      var canon := codec.canon(r);
      var separator := if EndsWithNewline(data) then [] else [NEWLINE];
      WriteTraceHead(Head(r.seqNo, Sha256(canon)));
      data := data + (separator + canon + [NEWLINE]);
    }
  }
}
