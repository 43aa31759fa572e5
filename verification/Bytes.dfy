/** Byte strings and their lines, as `data.split(b"\n")` and `bytes.strip()` cut them. */
module Bytes {
  type byte = b: int | 0 <= b < 256
  type bytes = seq<byte>

  const NEWLINE: byte := 10

  /** The bytes `bytes.strip()` removes: space, \t, \n, \v, \f and \r. */
  predicate IsSpace(b: byte) {
    b == 32 || 9 <= b <= 13
  }

  predicate IsBlank(s: bytes) {
    forall i | 0 <= i < |s| :: IsSpace(s[i])
  }

  predicate HasNewline(s: bytes) {
    NEWLINE in s
  }

  /** `data.split(b"\n")`: never empty, and the last segment is what follows the last newline. */
  function Split(data: bytes): (r: seq<bytes>)
    ensures |r| >= 1
  {
    if data == [] then [[]]
    else
      var front, b := Split(data[..|data| - 1]), data[|data| - 1];
      if b == NEWLINE then front + [[]]
      else front[..|front| - 1] + [front[|front| - 1] + [b]]
  }

  function NonBlank(segments: seq<bytes>): seq<bytes> {
    if segments == [] then []
    else
      var front, last := NonBlank(segments[..|segments| - 1]), segments[|segments| - 1];
      if IsBlank(last) then front else front + [last]
  }

  /** `[ln for ln in data.split(b"\n") if ln.strip()]` */
  function Lines(data: bytes): seq<bytes> {
    NonBlank(Split(data))
  }

  /** The bytes after the last newline. */
  function Tail(data: bytes): bytes {
    Split(data)[|Split(data)| - 1]
  }

  predicate EndsWithNewline(data: bytes) {
    data == [] || data[|data| - 1] == NEWLINE
  }

  lemma EndsWithNewlineIffNoTail(data: bytes)
    ensures EndsWithNewline(data) <==> Tail(data) == []
  {
  }

  /** The segments with a newline between each two. */
  function Rejoined(segments: seq<bytes>): bytes
    requires segments != []
  {
    if |segments| == 1 then segments[0]
    else Rejoined(segments[..|segments| - 1]) + [NEWLINE] + segments[|segments| - 1]
  }

  lemma {:induction false} JoinedByte(front: seq<bytes>, last: bytes, b: byte)
    ensures Rejoined(front + [last + [b]]) == Rejoined(front + [last]) + [b]
  {
    var x, y := front + [last + [b]], front + [last];
    assert x[..|front|] == front && y[..|front|] == front;
    if front == [] {
      assert x == [last + [b]] && y == [last];
    }
  }

  lemma {:induction false} JoinedNewline(segments: seq<bytes>)
    requires segments != []
    ensures Rejoined(segments + [[]]) == Rejoined(segments) + [NEWLINE]
  {
    assert (segments + [[]])[..|segments|] == segments;
    assert Rejoined(segments) + [NEWLINE] + [] == Rejoined(segments) + [NEWLINE];
  }

  lemma NonBlankAppend(segments: seq<bytes>, last: bytes)
    ensures NonBlank(segments + [last]) == NonBlank(segments) + if IsBlank(last) then [] else [last]
  {
    assert (segments + [last])[..|segments|] == segments;
  }

  lemma {:induction false} SplitByte(data: bytes, front: seq<bytes>, last: bytes, b: byte)
    requires Split(data) == front + [last] && b != NEWLINE
    ensures Split(data + [b]) == front + [last + [b]]
  {
    assert (data + [b])[..|data|] == data;
    assert (front + [last])[..|front|] == front;
  }

  /** Bytes without a newline only lengthen the last segment. */
  lemma {:induction false} SplitAppend(data: bytes, front: seq<bytes>, last: bytes, s: bytes)
    requires Split(data) == front + [last] && !HasNewline(s)
    ensures Split(data + s) == front + [last + s]
  {
    if s == [] {
      assert data + s == data && last + s == last;
    } else {
      var before, b := s[..|s| - 1], s[|s| - 1];
      assert s == before + [b] && b in s;
      SplitAppend(data, front, last, before);
      SplitByte(data + before, front, last + before, b);
      assert data + s == data + before + [b] && last + s == last + before + [b];
    }
  }

  lemma SplitNewline(data: bytes)
    ensures Split(data + [NEWLINE]) == Split(data) + [[]]
  {
    assert (data + [NEWLINE])[..|data|] == data;
  }

  /** Splitting is undone by joining. */
  lemma {:induction false} SplitJoins(data: bytes)
    ensures Rejoined(Split(data)) == data
  {
    if data != [] {
      var before, b := data[..|data| - 1], data[|data| - 1];
      var segments := Split(before);
      SplitJoins(before);
      assert data == before + [b];
      if b == NEWLINE {
        SplitNewline(before);
        JoinedNewline(segments);
      } else {
        var front, last := segments[..|segments| - 1], segments[|segments| - 1];
        assert segments == front + [last];
        SplitByte(before, front, last, b);
        JoinedByte(front, last, b);
      }
    }
  }

  /** No segment holds a newline, so there is only the one cut that joins to the data. */
  lemma {:induction false} SegmentsHoldNoNewline(data: bytes, i: nat)
    requires i < |Split(data)|
    ensures !HasNewline(Split(data)[i])
  {
    if data != [] {
      var before := data[..|data| - 1];
      if i < |Split(before)| {
        SegmentsHoldNoNewline(before, i);
      }
    }
  }

  /** A newline closes the last line and adds none. */
  lemma LinesNewline(data: bytes)
    ensures Lines(data + [NEWLINE]) == Lines(data)
    ensures EndsWithNewline(data + [NEWLINE])
  {
    SplitNewline(data);
    NonBlankAppend(Split(data), []);
  }

  /** What is written after a newline is a line of its own. */
  lemma {:induction false} LinesAppend(data: bytes, s: bytes)
    requires EndsWithNewline(data) && !HasNewline(s)
    ensures Lines(data + s) == Lines(data) + if IsBlank(s) then [] else [s]
    ensures s != [] ==> !EndsWithNewline(data + s)
  {
    EndsWithNewlineIffNoTail(data);
    var front := Split(data)[..|Split(data)| - 1];
    assert Split(data) == front + [[]];
    LinesOfSegments(data, front, []);
    SplitAppend(data, front, [], s);
    assert [] + s == s;
    LinesOfSegments(data + s, front, s);
    if s != [] {
      assert (data + s)[|data + s| - 1] == s[|s| - 1] && s[|s| - 1] in s;
    }
  }

  lemma LinesOfSegments(data: bytes, front: seq<bytes>, last: bytes)
    requires Split(data) == front + [last]
    ensures Lines(data) == NonBlank(front) + if IsBlank(last) then [] else [last]
  {
    NonBlankAppend(front, last);
  }
}
