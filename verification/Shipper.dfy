/** The shipper: tailing the export by a persisted byte offset while the gateway writes and the
    shipper itself crashes. */
module Shipper {
  import opened Bytes
  import opened Trace

  // ---- lines by position -------------------------------------------------------------------

  /** A position where a line may start. */
  predicate Boundary(data: bytes, n: nat) {
    n <= |data| && (n == 0 || data[n - 1] == NEWLINE)
  }

  predicate NoNewline(data: bytes, a: nat, b: nat) {
    a <= b <= |data| && forall i | a <= i < b :: data[i] != NEWLINE
  }

  /** Bytes [from, to) are one line with its newline. */
  datatype Range = Range(from: nat, to: nat)

  predicate IsLine(data: bytes, r: Range) {
    && r.from < r.to <= |data|
    && Boundary(data, r.from)
    && Boundary(data, r.to)
    && NoNewline(data, r.from, r.to - 1)
  }

  /** Where the line of position n starts. */
  function LineStart(data: bytes, n: nat): (start: nat)
    requires n <= |data|
    ensures start <= n && Boundary(data, start)
    ensures NoNewline(data, start, n)
  {
    if n == 0 || data[n - 1] == NEWLINE then n else LineStart(data, n - 1)
  }

  /** The complete lines before position n, in order. */
  function RangesBefore(data: bytes, n: nat): (rs: seq<Range>)
    requires Boundary(data, n)
    ensures forall r | r in rs :: IsLine(data, r) && r.to <= n
  {
    if n == 0 then []
    else
      var start := LineStart(data, n - 1);
      RangesBefore(data, start) + [Range(start, n)]
  }

  /** `readline` at a position: the end of the line there, None when it has no newline yet. */
  function LineEnd(data: bytes, pos: nat): (end: Option<nat>)
    requires pos <= |data|
    ensures end.Some? ==> pos < end.value <= |data| && Boundary(data, end.value)
    ensures end.Some? ==> NoNewline(data, pos, end.value - 1)
    ensures end.None? ==> NoNewline(data, pos, |data|)
    decreases |data| - pos
  {
    if pos == |data| then None
    else if data[pos] == NEWLINE then Some(pos + 1)
    else LineEnd(data, pos + 1)
  }

  lemma {:induction false} NextRange(data: bytes, pos: nat)
    requires Boundary(data, pos) && LineEnd(data, pos).Some?
    ensures IsLine(data, Range(pos, LineEnd(data, pos).value))
    ensures RangesBefore(data, LineEnd(data, pos).value) ==
            RangesBefore(data, pos) + [Range(pos, LineEnd(data, pos).value)]
  {
    LineStartUnique(data, LineEnd(data, pos).value - 1, pos);
  }

  lemma {:induction false} LineStartUnique(data: bytes, n: nat, start: nat)
    requires Boundary(data, start) && NoNewline(data, start, n)
    ensures LineStart(data, n) == start
  {
    var found := LineStart(data, n);
    assert found == 0 || data[found - 1] == NEWLINE;
    assert start == 0 || data[start - 1] == NEWLINE;
  }

  lemma {:induction false} LineStartStays(data: bytes, more: bytes, n: nat)
    requires n <= |data|
    ensures LineStart(data + more, n) == LineStart(data, n)
  {
    if n > 0 && data[n - 1] != NEWLINE {
      LineStartStays(data, more, n - 1);
    }
  }

  lemma {:induction false} RangesStay(data: bytes, more: bytes, n: nat)
    requires Boundary(data, n)
    ensures Boundary(data + more, n) && RangesBefore(data + more, n) == RangesBefore(data, n)
  {
    assert Boundary(data + more, n);
    if n > 0 {
      var start := LineStart(data, n - 1);
      LineStartStays(data, more, n - 1);
      RangesStay(data, more, start);
      assert RangesBefore(data + more, n) == RangesBefore(data + more, start) + [Range(start, n)];
    }
  }

  lemma IsLineStays(data: bytes, more: bytes, r: Range)
    requires IsLine(data, r)
    ensures IsLine(data + more, r) && (data + more)[r.from..r.to] == data[r.from..r.to]
  {
    assert forall i | 0 <= i < |data| :: (data + more)[i] == data[i];
  }

  lemma {:induction false} RangesAreAll(data: bytes, n: nat, r: Range)
    requires Boundary(data, n) && IsLine(data, r) && r.to <= n
    ensures r in RangesBefore(data, n)
  {
    var start := LineStart(data, n - 1);
    if r.to <= start {
      RangesAreAll(data, start, r);
    } else {
      assert r.to == n;
      LineStartUnique(data, n - 1, r.from);
    }
  }

  // ---- the lines that are sent -------------------------------------------------------------

  /** `kept(line)`: the line stays on the box (an intent line, unless intents are shipped too). */
  function Sent(kept: bytes -> bool, data: bytes, rs: seq<Range>): seq<Range>
    requires forall r | r in rs :: IsLine(data, r)
  {
    if rs == [] then []
    else
      var front, last := rs[..|rs| - 1], rs[|rs| - 1];
      assert IsLine(data, last);
      Sent(kept, data, front) + if kept(data[last.from..last.to]) then [] else [last]
  }

  lemma SentAppend(kept: bytes -> bool, data: bytes, rs: seq<Range>, last: Range)
    requires (forall r | r in rs :: IsLine(data, r)) && IsLine(data, last)
    ensures Sent(kept, data, rs + [last]) ==
            Sent(kept, data, rs) + if kept(data[last.from..last.to]) then [] else [last]
  {
    assert (rs + [last])[..|rs|] == rs;
  }

  lemma {:induction false} SentStays(kept: bytes -> bool, data: bytes, more: bytes, rs: seq<Range>)
    requires forall r | r in rs :: IsLine(data, r)
    ensures forall r | r in rs :: IsLine(data + more, r)
    ensures Sent(kept, data + more, rs) == Sent(kept, data, rs)
  {
    forall r | r in rs ensures IsLine(data + more, r) {
      IsLineStays(data, more, r);
    }
    if rs != [] {
      SentStays(kept, data, more, rs[..|rs| - 1]);
      IsLineStays(data, more, rs[|rs| - 1]);
    }
  }

  lemma {:induction false} SentContains(kept: bytes -> bool, data: bytes, rs: seq<Range>, r: Range)
    requires forall q | q in rs :: IsLine(data, q)
    ensures r in Sent(kept, data, rs) <==> r in rs && !kept(data[r.from..r.to])
  {
    if rs != [] {
      SentContains(kept, data, rs[..|rs| - 1], r);
      assert rs == rs[..|rs| - 1] + [rs[|rs| - 1]];
    }
  }

  function SentBefore(kept: bytes -> bool, data: bytes, n: nat): seq<Range>
    requires Boundary(data, n)
  {
    Sent(kept, data, RangesBefore(data, n))
  }

  // ---- the shipper as a process ------------------------------------------------------------

  /** Where the shipper is: between polls, about to read, or holding a line whose offset is not yet
      on disk (`acked`: because a POST of it was answered 2xx). */
  datatype Stage = Idle | Reading | Done(to: nat, acked: bool)

  /** `posted`, `acks` and `lost` are history: every POSTed body, every line acknowledged with 2xx,
      and the acknowledgements a crash swallowed before the offset was written. */
  datatype Process = Process(data: bytes, offset: nat, stage: Stage, posted: seq<bytes>, acks: seq<Range>, lost: seq<Range>)

  datatype Action =
    | GatewayWrites(chunk: bytes)   // a whole line, a torn one, or the rest of a torn one
    | Poll
    | Keep
    | Post(status: int)
    | WriteOffset
    | EndOfFile
    | Crash

  predicate Ok(status: int) {
    200 <= status < 300
  }

  predicate Enabled(kept: bytes -> bool, p: Process, a: Action) {
    match a
    case GatewayWrites(_) => true
    case Poll => p.stage.Idle? && p.offset <= |p.data|
    case Keep => p.stage.Reading? && HasLine(p) && kept(NextBody(p))
    case Post(_) => p.stage.Reading? && HasLine(p) && !kept(NextBody(p))
    case WriteOffset => p.stage.Done?
    case EndOfFile => p.stage.Reading? && !HasLine(p)
    case Crash => true
  }

  predicate HasLine(p: Process) {
    p.offset <= |p.data| && LineEnd(p.data, p.offset).Some?
  }

  function NextBody(p: Process): bytes
    requires HasLine(p)
  {
    p.data[p.offset..LineEnd(p.data, p.offset).value]
  }

  function Act(kept: bytes -> bool, p: Process, a: Action): Process
    requires Enabled(kept, p, a)
  {
    match a
    case GatewayWrites(chunk) => p.(data := p.data + chunk)
    case Poll => p.(stage := Reading)
    case Keep => p.(stage := Done(LineEnd(p.data, p.offset).value, false))
    case Post(status) =>
      var end := LineEnd(p.data, p.offset).value;
      var q := p.(posted := p.posted + [NextBody(p)]);
      if Ok(status) then q.(stage := Done(end, true), acks := p.acks + [Range(p.offset, end)])
      else q.(stage := Idle)
    case WriteOffset => p.(offset := p.stage.to, stage := Reading)
    case EndOfFile => p.(stage := Idle)
    case Crash =>
      if p.stage.Done? && p.stage.acked then p.(stage := Idle, lost := p.lost + [Range(p.offset, p.stage.to)])
      else p.(stage := Idle)
  }

  function Start(data: bytes): Process {
    Process(data, 0, Idle, [], [], [])
  }

  ghost predicate Runs(kept: bytes -> bool, start: bytes, actions: seq<Action>, p: Process) {
    if actions == [] then p == Start(start)
    else
      var front, last := actions[..|actions| - 1], actions[|actions| - 1];
      exists before :: Runs(kept, start, front, before) && Enabled(kept, before, last) && p == Act(kept, before, last)
  }

  function InHand(p: Process): seq<Range> {
    if p.stage.Done? && p.stage.acked then [Range(p.offset, p.stage.to)] else []
  }

  ghost predicate WholeLine(data: bytes, body: bytes) {
    exists r :: IsLine(data, r) && body == data[r.from..r.to]
  }

  ghost predicate Inv(kept: bytes -> bool, p: Process) {
    && Boundary(p.data, p.offset)
    && (p.stage.Done? ==>
          && LineEnd(p.data, p.offset) == Some(p.stage.to)
          && p.stage.acked == !kept(p.data[p.offset..p.stage.to]))
    && multiset(p.acks) == multiset(SentBefore(kept, p.data, p.offset)) + multiset(p.lost) + multiset(InHand(p))
    && (forall body | body in p.posted :: WholeLine(p.data, body))
  }

  lemma {:induction false} LineEndStays(data: bytes, more: bytes, pos: nat)
    requires pos <= |data| && LineEnd(data, pos).Some?
    ensures LineEnd(data + more, pos) == LineEnd(data, pos)
    decreases |data| - pos
  {
    if data[pos] != NEWLINE {
      LineEndStays(data, more, pos + 1);
    }
  }

  lemma PostedStay(data: bytes, more: bytes, posted: seq<bytes>)
    requires forall body | body in posted :: WholeLine(data, body)
    ensures forall body | body in posted :: WholeLine(data + more, body)
  {
    forall body | body in posted ensures WholeLine(data + more, body) {
      var r :| IsLine(data, r) && body == data[r.from..r.to];
      IsLineStays(data, more, r);
    }
  }

  lemma {:induction false} SentBeforeStays(kept: bytes -> bool, data: bytes, more: bytes, n: nat)
    requires Boundary(data, n)
    ensures Boundary(data + more, n) && SentBefore(kept, data + more, n) == SentBefore(kept, data, n)
  {
    RangesStay(data, more, n);
    SentStays(kept, data, more, RangesBefore(data, n));
  }

  lemma {:induction false} InHandStays(data: bytes, more: bytes, from: nat, to: nat)
    requires from <= |data| && LineEnd(data, from) == Some(to)
    ensures LineEnd(data + more, from) == Some(to) && (data + more)[from..to] == data[from..to]
  {
    LineEndStays(data, more, from);
  }

  lemma {:induction false} InvGatewayWrites(kept: bytes -> bool, p: Process, chunk: bytes)
    requires Inv(kept, p)
    ensures Inv(kept, Act(kept, p, GatewayWrites(chunk)))
  {
    SentBeforeStays(kept, p.data, chunk, p.offset);
    if p.stage.Done? {
      InHandStays(p.data, chunk, p.offset, p.stage.to);
    }
    PostedStay(p.data, chunk, p.posted);
  }

  lemma NextIsLine(data: bytes, pos: nat)
    requires Boundary(data, pos) && LineEnd(data, pos).Some?
    ensures WholeLine(data, data[pos..LineEnd(data, pos).value])
  {
    assert IsLine(data, Range(pos, LineEnd(data, pos).value));
  }

  lemma {:induction false} InvPost(kept: bytes -> bool, p: Process, status: int)
    requires Inv(kept, p) && Enabled(kept, p, Post(status))
    ensures Inv(kept, Act(kept, p, Post(status)))
  {
    NextIsLine(p.data, p.offset);
    var q := Act(kept, p, Post(status));
    assert q.posted == p.posted + [NextBody(p)];
    if Ok(status) {
      assert multiset(q.acks) == multiset(p.acks) + multiset(InHand(q));
    }
  }

  lemma {:induction false} SentNext(kept: bytes -> bool, data: bytes, pos: nat)
    requires Boundary(data, pos) && LineEnd(data, pos).Some?
    ensures var end := LineEnd(data, pos).value;
            && Boundary(data, end)
            && SentBefore(kept, data, end) == SentBefore(kept, data, pos) + if kept(data[pos..end]) then [] else [Range(pos, end)]
  {
    NextRange(data, pos);
    SentAppend(kept, data, RangesBefore(data, pos), Range(pos, LineEnd(data, pos).value));
  }

  lemma {:induction false} HandedOver(acks: seq<Range>, sent: seq<Range>, lost: seq<Range>, hand: seq<Range>, now: seq<Range>)
    requires multiset(acks) == multiset(sent) + multiset(lost) + multiset(hand) && now == sent + hand
    ensures multiset(acks) == multiset(now) + multiset(lost) + multiset([])
  {
  }

  lemma {:induction false} InvWriteOffset(kept: bytes -> bool, p: Process)
    requires Inv(kept, p) && Enabled(kept, p, WriteOffset)
    ensures Inv(kept, Act(kept, p, WriteOffset))
  {
    SentNext(kept, p.data, p.offset);
    HandedOver(p.acks, SentBefore(kept, p.data, p.offset), p.lost, InHand(p), SentBefore(kept, p.data, p.stage.to));
  }

  lemma {:induction false} InvStep(kept: bytes -> bool, p: Process, a: Action)
    requires Inv(kept, p) && Enabled(kept, p, a)
    ensures Inv(kept, Act(kept, p, a))
  {
    match a
    case GatewayWrites(chunk) => InvGatewayWrites(kept, p, chunk);
    case Post(status) => InvPost(kept, p, status);
    case WriteOffset => InvWriteOffset(kept, p);
    case _ =>
  }

  lemma {:induction false} InvHolds(kept: bytes -> bool, start: bytes, actions: seq<Action>, p: Process)
    requires Runs(kept, start, actions, p)
    ensures Inv(kept, p)
  {
    if actions != [] {
      var front, last := actions[..|actions| - 1], actions[|actions| - 1];
      var before :| Runs(kept, start, front, before) && Enabled(kept, before, last) && p == Act(kept, before, last);
      InvHolds(kept, start, front, before);
      InvStep(kept, before, last);
    }
  }

  /** Through every interleaving of gateway writes, polls and shipper crashes: the offset sits on a
      line boundary; the acknowledged POSTs are one for every line before it that is not kept
      local, one more for each acknowledgement a crash swallowed, and the one in hand, no others;
      and every body ever POSTed is one whole line of the export. */
  lemma {:induction false} AtLeastOnce(kept: bytes -> bool, start: bytes, actions: seq<Action>, p: Process)
    requires Runs(kept, start, actions, p)
    ensures Boundary(p.data, p.offset)
    ensures multiset(p.acks) == multiset(SentBefore(kept, p.data, p.offset)) + multiset(p.lost) + multiset(InHand(p))
    ensures |p.acks| <= |SentBefore(kept, p.data, p.offset)| + |p.lost| + 1
    ensures forall r | IsLine(p.data, r) && r.to <= p.offset && !kept(p.data[r.from..r.to]) :: r in p.acks
    ensures forall body | body in p.posted :: WholeLine(p.data, body)
  {
    InvHolds(kept, start, actions, p);
    assert |p.acks| == |multiset(p.acks)|;
    forall r | IsLine(p.data, r) && r.to <= p.offset && !kept(p.data[r.from..r.to]) ensures r in p.acks {
      RangesAreAll(p.data, p.offset, r);
      SentContains(kept, p.data, RangesBefore(p.data, p.offset), r);
      assert r in multiset(SentBefore(kept, p.data, p.offset));
      assert r in multiset(p.acks);
    }
  }

  function Crashes(actions: seq<Action>): nat {
    if actions == [] then 0
    else Crashes(actions[..|actions| - 1]) + if actions[|actions| - 1].Crash? then 1 else 0
  }

  lemma {:induction false} LostByCrashes(kept: bytes -> bool, start: bytes, actions: seq<Action>, p: Process)
    requires Runs(kept, start, actions, p)
    ensures |p.lost| <= Crashes(actions)
  {
    if actions != [] {
      var front, last := actions[..|actions| - 1], actions[|actions| - 1];
      var before :| Runs(kept, start, front, before) && Enabled(kept, before, last) && p == Act(kept, before, last);
      LostByCrashes(kept, start, front, before);
    }
  }

  lemma {:induction false} SentOnce(kept: bytes -> bool, data: bytes, n: nat, r: Range)
    requires Boundary(data, n)
    ensures multiset(SentBefore(kept, data, n))[r] <= if r.to <= n then 1 else 0
  {
    if n > 0 {
      var start := LineStart(data, n - 1);
      SentOnce(kept, data, start, r);
      SentAppend(kept, data, RangesBefore(data, start), Range(start, n));
    }
  }

  /** A line is acknowledged more than once only through crashes between a POST and its offset
      write: its acknowledgements exceed one by no more than those lost to a crash, and over all
      lines the lost ones are no more than the crashes. */
  lemma {:induction false} DuplicatesAreCrashes(kept: bytes -> bool, start: bytes, actions: seq<Action>, p: Process, r: Range)
    requires Runs(kept, start, actions, p)
    ensures multiset(p.acks)[r] <= 1 + multiset(p.lost)[r]
    ensures |p.lost| <= Crashes(actions)
  {
    InvHolds(kept, start, actions, p);
    LostByCrashes(kept, start, actions, p);
    SentOnce(kept, p.data, p.offset, r);
    if r in InHand(p) {
      assert r.to > p.offset;
      assert multiset(InHand(p))[r] == 1;
    }
  }

  // ---- what is sent and what counts as an answer -------------------------------------------

  /** The POSTs of a run that were answered from 200 to 299. */
  function Answered(actions: seq<Action>): nat {
    if actions == [] then 0
    else
      var last := actions[|actions| - 1];
      Answered(actions[..|actions| - 1]) + if last.Post? && 200 <= last.status <= 299 then 1 else 0
  }

  function Posts(actions: seq<Action>): nat {
    if actions == [] then 0
    else Posts(actions[..|actions| - 1]) + if actions[|actions| - 1].Post? then 1 else 0
  }

  lemma {:induction false} ActCounts(kept: bytes -> bool, p: Process, a: Action)
    requires Enabled(kept, p, a) && forall body | body in p.posted :: !kept(body)
    ensures var q := Act(kept, p, a);
            && |q.posted| == |p.posted| + (if a.Post? then 1 else 0)
            && |q.acks| == |p.acks| + (if a.Post? && 200 <= a.status <= 299 then 1 else 0)
            && forall body | body in q.posted :: !kept(body)
  {
  }

  /** In every run: one body per POST, none of them kept local, and one acknowledgement per POST that
      was answered 2xx. */
  lemma {:induction false} AcksAreAnswers(kept: bytes -> bool, start: bytes, actions: seq<Action>, p: Process)
    requires Runs(kept, start, actions, p)
    ensures |p.posted| == Posts(actions)
    ensures |p.acks| == Answered(actions)
    ensures forall body | body in p.posted :: !kept(body)
  {
    if actions != [] {
      var front, last := actions[..|actions| - 1], actions[|actions| - 1];
      var before :| Runs(kept, start, front, before) && Enabled(kept, before, last) && p == Act(kept, before, last);
      AcksAreAnswers(kept, start, front, before);
      ActCounts(kept, before, last);
    }
  }

  /** `_is_intent_line`, of a line with its newline: only a line that says so counts. */
  predicate IsIntentLine(c: Codec, line: bytes) {
    line != [] &&
    match c.parse(line[..|line| - 1])
    case Object(fields) => fields.kind == Intent
    case _ => false
  }

  /** Which lines a shipper keeps on the box. */
  function StaysLocal(c: Codec, shipIntents: bool): bytes -> bool {
    line => !shipIntents && IsIntentLine(c, line)
  }

  /** Through every run, every record's line before the offset was acknowledged, unless it is an intent
      and intents are not shipped; and no such intent ever left the box. */
  lemma {:induction false} OutcomesLeaveIntentsStay(c: Codec, shipIntents: bool, start: bytes, actions: seq<Action>, p: Process, r: Range, record: Record)
    requires c.Lawful() && Runs(StaysLocal(c, shipIntents), start, actions, p)
    requires IsLine(p.data, r) && p.data[r.from..r.to] == c.canon(record) + [NEWLINE]
    ensures (record.body.kind == Outcome || shipIntents) && r.to <= p.offset ==> r in p.acks
    ensures record.body.kind == Intent && !shipIntents ==> c.canon(record) + [NEWLINE] !in p.posted
  {
    var line := c.canon(record) + [NEWLINE];
    assert line[..|line| - 1] == c.canon(record);
    assert IsIntentLine(c, line) <==> record.body.kind == Intent;
    AtLeastOnce(StaysLocal(c, shipIntents), start, actions, p);
    AcksAreAnswers(StaysLocal(c, shipIntents), start, actions, p);
  }

  lemma {:induction false} KeptOrAcked(kept: bytes -> bool, start: bytes, actions: seq<Action>, p: Process, r: Range)
    requires Runs(kept, start, actions, p) && IsLine(p.data, r) && r.to <= p.offset
    ensures kept(p.data[r.from..r.to]) || r in p.acks
  {
    AtLeastOnce(kept, start, actions, p);
  }

  lemma WithoutNewline(data: bytes, from: nat, to: nat)
    requires from < to <= |data|
    ensures data[from..to] != [] && data[from..to][..|data[from..to]| - 1] == data[from..to - 1]
  {
  }

  /** Only a line that reads as an intent stays: a torn one, any other JSON and every outcome before the
      offset were acknowledged. */
  lemma {:induction false} OnlyIntentsStay(c: Codec, shipIntents: bool, start: bytes, actions: seq<Action>, p: Process, r: Range)
    requires Runs(StaysLocal(c, shipIntents), start, actions, p) && IsLine(p.data, r) && r.to <= p.offset
    ensures var read := c.parse(p.data[r.from..r.to - 1]);
            r in p.acks || (!shipIntents && read.Object? && read.fields.kind == Intent)
  {
    WithoutNewline(p.data, r.from, r.to);
    KeptOrAcked(StaysLocal(c, shipIntents), start, actions, p, r);
  }

  // ---- one poll ----------------------------------------------------------------------------

  /** What one poll leaves: the offset, the bodies POSTed and how many were accepted. `answers` are
      the statuses the POSTs get, in order; a POST beyond them gets none. */
  datatype Delivery = Delivery(offset: nat, bodies: seq<bytes>, shipped: nat)

  function Deliver(kept: bytes -> bool, data: bytes, pos: nat, answers: seq<int>): (d: Delivery)
    requires pos <= |data|
    decreases |data| - pos
  {
    match LineEnd(data, pos)
    case None => Delivery(pos, [], 0)
    case Some(end) =>
      var line := data[pos..end];
      if kept(line) then Deliver(kept, data, end, answers)
      else if answers == [] || !Ok(answers[0]) then Delivery(pos, [line], 0)
      else
        var rest := Deliver(kept, data, end, answers[1..]);
        Delivery(rest.offset, [line] + rest.bodies, rest.shipped + 1)
  }

  lemma {:induction false} DeliverOffset(kept: bytes -> bool, data: bytes, pos: nat, answers: seq<int>)
    requires Boundary(data, pos)
    ensures var d := Deliver(kept, data, pos, answers);
            && pos <= d.offset && Boundary(data, d.offset)
            && |SentBefore(kept, data, d.offset)| == |SentBefore(kept, data, pos)| + d.shipped
    decreases |data| - pos
  {
    if LineEnd(data, pos).Some? {
      var end := LineEnd(data, pos).value;
      NextRange(data, pos);
      SentAppend(kept, data, RangesBefore(data, pos), Range(pos, end));
      if kept(data[pos..end]) {
        DeliverOffset(kept, data, end, answers);
      } else if answers != [] && Ok(answers[0]) {
        DeliverOffset(kept, data, end, answers[1..]);
      }
    }
  }

  lemma {:induction false} DeliverBodies(kept: bytes -> bool, data: bytes, pos: nat, answers: seq<int>)
    requires Boundary(data, pos)
    ensures forall body | body in Deliver(kept, data, pos, answers).bodies :: WholeLine(data, body) && !kept(body)
    decreases |data| - pos
  {
    if LineEnd(data, pos).Some? {
      var end := LineEnd(data, pos).value;
      NextIsLine(data, pos);
      if kept(data[pos..end]) {
        DeliverBodies(kept, data, end, answers);
      } else if answers != [] && Ok(answers[0]) {
        DeliverBodies(kept, data, end, answers[1..]);
      }
    }
  }

  lemma {:induction false} DeliverStops(kept: bytes -> bool, data: bytes, pos: nat, answers: seq<int>)
    requires Boundary(data, pos)
    ensures var d := Deliver(kept, data, pos, answers);
            && d.offset <= |data|
            && d.shipped <= |answers|
            && (forall i | 0 <= i < d.shipped :: Ok(answers[i]))
            && (LineEnd(data, d.offset).None? || (|d.bodies| == d.shipped + 1 && (d.shipped == |answers| || !Ok(answers[d.shipped]))))
    decreases |data| - pos
  {
    if LineEnd(data, pos).Some? {
      var end := LineEnd(data, pos).value;
      if kept(data[pos..end]) {
        DeliverStops(kept, data, end, answers);
      } else if answers != [] && Ok(answers[0]) {
        DeliverStops(kept, data, end, answers[1..]);
        var d := Deliver(kept, data, end, answers[1..]);
        assert forall i | 1 <= i < d.shipped + 1 :: answers[i] == answers[1..][i - 1];
      }
    }
  }

  /** A poll moves the offset over exactly the lines it kept or had accepted, POSTs only whole lines
      that are not kept, and stops at the end of the file or at the first answer that is not 2xx. */
  lemma {:induction false} DeliverExact(kept: bytes -> bool, data: bytes, pos: nat, answers: seq<int>)
    requires Boundary(data, pos)
    ensures var d := Deliver(kept, data, pos, answers);
            && pos <= d.offset && Boundary(data, d.offset)
            && |SentBefore(kept, data, d.offset)| == |SentBefore(kept, data, pos)| + d.shipped
            && d.shipped <= |answers|
            && (forall i | 0 <= i < d.shipped :: 200 <= answers[i] <= 299)
            && (forall body | body in d.bodies :: WholeLine(data, body) && !kept(body))
            && (LineEnd(data, d.offset).None?
                || (|d.bodies| == d.shipped + 1 && (d.shipped == |answers| || !(200 <= answers[d.shipped] <= 299))))
  {
    DeliverOffset(kept, data, pos, answers);
    DeliverBodies(kept, data, pos, answers);
    DeliverStops(kept, data, pos, answers);
  }

  // ---- a poll is a run of the process ------------------------------------------------------

  /** The steps one undisturbed poll takes, read as the process's own. */
  function PollSteps(kept: bytes -> bool, data: bytes, pos: nat, answers: seq<int>): seq<Action>
    requires pos <= |data|
    decreases |data| - pos
  {
    match LineEnd(data, pos)
    case None => [EndOfFile]
    case Some(end) =>
      if kept(data[pos..end]) then [Keep, WriteOffset] + PollSteps(kept, data, end, answers)
      else if answers == [] then [Post(0)]
      else if !Ok(answers[0]) then [Post(answers[0])]
      else [Post(answers[0]), WriteOffset] + PollSteps(kept, data, end, answers[1..])
  }

  ghost predicate Leads(kept: bytes -> bool, p: Process, actions: seq<Action>, q: Process)
    decreases |actions|
  {
    if actions == [] then p == q
    else Enabled(kept, p, actions[0]) && Leads(kept, Act(kept, p, actions[0]), actions[1..], q)
  }

  lemma {:induction false} RunsOn(kept: bytes -> bool, start: bytes, before: seq<Action>, p: Process, actions: seq<Action>, q: Process)
    requires Runs(kept, start, before, p) && Leads(kept, p, actions, q)
    ensures Runs(kept, start, before + actions, q)
    decreases |actions|
  {
    if actions == [] {
      assert before + actions == before;
    } else {
      var next := Act(kept, p, actions[0]);
      var longer := before + [actions[0]];
      assert longer[..|longer| - 1] == before && longer[|longer| - 1] == actions[0];
      assert Runs(kept, start, longer, next);
      RunsOn(kept, start, longer, next, actions[1..], q);
      assert longer + actions[1..] == before + actions;
    }
  }

  /** What a poll from this state leaves, in the process's terms. */
  ghost predicate Delivered(p: Process, d: Delivery, q: Process) {
    && q.data == p.data && q.stage == Idle && q.lost == p.lost
    && q.offset == d.offset && q.posted == p.posted + d.bodies && |q.acks| == |p.acks| + d.shipped
  }

  lemma TwoSteps(kept: bytes -> bool, p: Process, a: Action, b: Action, rest: seq<Action>, q: Process)
    requires Enabled(kept, p, a) && Enabled(kept, Act(kept, p, a), b)
    requires Leads(kept, Act(kept, Act(kept, p, a), b), rest, q)
    ensures Leads(kept, p, [a, b] + rest, q)
  {
    var all := [a, b] + rest;
    assert all[1..] == [b] + rest && all[1..][1..] == rest;
    assert Leads(kept, Act(kept, p, a), all[1..], q);
  }

  lemma OneStep(kept: bytes -> bool, p: Process, a: Action)
    requires Enabled(kept, p, a)
    ensures Leads(kept, p, [a], Act(kept, p, a))
  {
    assert [a][1..] == [];
  }

  lemma {:induction false} KeptNext(kept: bytes -> bool, p: Process)
    requires p.stage.Reading? && HasLine(p) && kept(NextBody(p))
    ensures Enabled(kept, p, Keep) && Enabled(kept, Act(kept, p, Keep), WriteOffset)
    ensures Act(kept, Act(kept, p, Keep), WriteOffset) == p.(offset := LineEnd(p.data, p.offset).value)
  {
  }

  lemma {:induction false} AcceptedNext(kept: bytes -> bool, p: Process, status: int)
    requires p.stage.Reading? && HasLine(p) && !kept(NextBody(p)) && Ok(status)
    ensures Enabled(kept, p, Post(status)) && Enabled(kept, Act(kept, p, Post(status)), WriteOffset)
    ensures var end := LineEnd(p.data, p.offset).value;
            Act(kept, Act(kept, p, Post(status)), WriteOffset)
            == p.(offset := end, posted := p.posted + [NextBody(p)], acks := p.acks + [Range(p.offset, end)])
  {
  }

  lemma {:induction false} DeliveredMore(p: Process, line: bytes, ack: Range, to: nat, rest: Delivery, q: Process)
    requires Delivered(p.(offset := to, posted := p.posted + [line], acks := p.acks + [ack]), rest, q)
    ensures Delivered(p, Delivery(rest.offset, [line] + rest.bodies, rest.shipped + 1), q)
  {
    assert p.posted + [line] + rest.bodies == p.posted + ([line] + rest.bodies);
  }

  lemma {:induction false} ReadingDelivers(kept: bytes -> bool, p: Process, answers: seq<int>) returns (q: Process)
    requires p.stage.Reading? && p.offset <= |p.data|
    ensures Leads(kept, p, PollSteps(kept, p.data, p.offset, answers), q)
    ensures Delivered(p, Deliver(kept, p.data, p.offset, answers), q)
    decreases |p.data| - p.offset
  {
    var end := LineEnd(p.data, p.offset);
    if end.None? {
      OneStep(kept, p, EndOfFile);
      q := Act(kept, p, EndOfFile);
      assert q.posted == p.posted + [];
    } else if kept(NextBody(p)) {
      KeptNext(kept, p);
      q := ReadingDelivers(kept, p.(offset := end.value), answers);
      TwoSteps(kept, p, Keep, WriteOffset, PollSteps(kept, p.data, end.value, answers), q);
    } else if answers == [] || !Ok(answers[0]) {
      var refused := Post(if answers == [] then 0 else answers[0]);
      OneStep(kept, p, refused);
      q := Act(kept, p, refused);
    } else {
      var ack := Range(p.offset, end.value);
      AcceptedNext(kept, p, answers[0]);
      q := ReadingDelivers(kept, p.(offset := end.value, posted := p.posted + [NextBody(p)], acks := p.acks + [ack]), answers[1..]);
      TwoSteps(kept, p, Post(answers[0]), WriteOffset, PollSteps(kept, p.data, end.value, answers[1..]), q);
      DeliveredMore(p, NextBody(p), ack, end.value, Deliver(kept, p.data, end.value, answers[1..]), q);
    }
  }

  /** What `ship_once` delivers is what the process delivers when nothing interrupts the poll, so
      everything proved of every run holds after it. */
  lemma PollIsARun(kept: bytes -> bool, start: bytes, before: seq<Action>, p: Process, answers: seq<int>)
    returns (steps: seq<Action>, q: Process)
    requires Runs(kept, start, before, p) && p.stage == Idle
    ensures p.offset <= |p.data|
    ensures Runs(kept, start, before + steps, q)
    ensures Delivered(p, Deliver(kept, p.data, p.offset, answers), q)
  {
    InvHolds(kept, start, before, p);
    var reading := Act(kept, p, Poll);
    q := ReadingDelivers(kept, reading, answers);
    var inner := PollSteps(kept, p.data, p.offset, answers);
    steps := [Poll] + inner;
    assert steps[1..] == inner;
    RunsOn(kept, start, before, p, steps, q);
  }

  /** What a poll delivers in all, when these bodies are out and `rest` is still to come. */
  function Joined(bodies: seq<bytes>, shipped: nat, rest: Delivery): Delivery {
    Delivery(rest.offset, bodies + rest.bodies, shipped + rest.shipped)
  }

  lemma JoinedOne(bodies: seq<bytes>, shipped: nat, line: bytes, rest: Delivery)
    ensures Joined(bodies + [line], shipped + 1, rest)
         == Joined(bodies, shipped, Delivery(rest.offset, [line] + rest.bodies, rest.shipped + 1))
  {
    assert bodies + [line] + rest.bodies == bodies + ([line] + rest.bodies);
  }

  lemma JoinedEnd(bodies: seq<bytes>, shipped: nat, offset: nat)
    ensures Joined(bodies, shipped, Delivery(offset, [], 0)) == Delivery(offset, bodies, shipped)
  {
    assert bodies + [] == bodies;
  }

  class ShipperState {
    const kept: bytes -> bool
    var offset: nat

    constructor (kept: bytes -> bool, offset: nat)
      ensures this.kept == kept && this.offset == offset
    {
      this.kept := kept;
      this.offset := offset;
    }

    method WriteOffset(pos: nat)
      modifies this
      ensures offset == pos
    {
      offset := pos;
    }

    /** `ship_once`. An offset past the end stops with nothing posted and the offset untouched. */
    method ShipOnce(data: bytes, answers: seq<int>) returns (stopped: bool, shipped: nat, bodies: seq<bytes>)
      modifies this
      ensures stopped <==> old(offset) > |data|
      ensures stopped ==> offset == old(offset) && bodies == [] && shipped == 0
      ensures !stopped ==> Delivery(offset, bodies, shipped) == Deliver(kept, data, old(offset), answers)
    {
      shipped, bodies := 0, [];
      if offset > |data| {
        return true, 0, [];
      }
      stopped := false;
      var pos := offset;
      var next: nat := 0;
      while true
        invariant pos == offset <= |data| && next == shipped == |bodies| <= |answers|
        invariant Deliver(kept, data, old(offset), answers) == Joined(bodies, shipped, Deliver(kept, data, pos, answers[next..]))
        decreases |data| - pos
      {
        var end := LineEnd(data, pos);
        if end.None? {
          JoinedEnd(bodies, shipped, pos);
          break;
        }
        var line := data[pos..end.value];
        if kept(line) {
          pos := end.value;
          WriteOffset(pos);
          continue;
        }
        var status := if next < |answers| then answers[next] else 0;
        bodies := bodies + [line];
        if !Ok(status) {
          break;
        }
        assert answers[next..][1..] == answers[next + 1..];
        JoinedOne(bodies[..next], shipped, line, Deliver(kept, data, end.value, answers[next + 1..]));
        pos := end.value;
        next := next + 1;
        shipped := shipped + 1;
        WriteOffset(pos);
      }
    }
  }
}
