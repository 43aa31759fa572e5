/** The hardware-in-the-loop harness: gated motions, then evenly spaced replays of them. */
module Hil {
  import opened Trace
  import Replay

  // ---- which iterations are replayed -------------------------------------------------------

  /** Python's `//`. */
  function FloorDiv(a: int, b: int): int
    requires b != 0
  {
    if b > 0 then a / b else (-a) / (-b)
  }

  /** `range(n)` has no elements for a negative n. */
  function Steps(start: int, spacing: int, n: int): seq<int> {
    if n <= 0 then [] else seq(n, i => start + i * spacing)
  }

  /** `compute_replay_indices`; None is the ValueError. */
  function ReplayIndices(motions: int, replays: int): Option<seq<int>> {
    if replays == 0 then Some([])
    else
      var spacing := FloorDiv(motions, replays);
      if spacing == 0 then None
      else Some(Steps(FloorDiv(spacing - 1, 2) + 1, spacing, replays))
  }

  lemma Product(a: int, b: int, k: int)
    requires a <= b && k >= 0
    ensures a * k <= b * k
  {
    assert b * k == a * k + (b - a) * k;
  }

  lemma {:induction false} StepsRise(start: int, spacing: int, n: int, i: int, j: int)
    requires spacing >= 1 && 0 <= i < j < n
    ensures Steps(start, spacing, n)[i] < Steps(start, spacing, n)[j]
  {
    assert (i + 1) * spacing == i * spacing + spacing;
    Product(i + 1, j, spacing);
  }

  lemma {:induction false} StepsStayInside(start: int, spacing: int, n: int, top: int, i: int)
    requires 1 <= start <= spacing && n * spacing <= top && 0 <= i < n
    ensures 1 <= Steps(start, spacing, n)[i] <= top
  {
    assert (i + 1) * spacing == i * spacing + spacing;
    Product(0, i, spacing);
    Product(i + 1, n, spacing);
  }

  lemma SpacingFits(motions: int, replays: int)
    requires 0 < replays <= motions
    ensures motions / replays >= 1 && replays * (motions / replays) <= motions
    ensures 1 <= FloorDiv(motions / replays - 1, 2) + 1 <= motions / replays
  {
  }

  /** The replayed iterations are distinct, in order, and all exist. */
  lemma IndicesAreInside(motions: int, replays: int)
    requires 0 < replays <= motions
    ensures ReplayIndices(motions, replays).Some?
    ensures var picks := ReplayIndices(motions, replays).value;
            && |picks| == replays
            && (forall i | 0 <= i < |picks| :: 1 <= picks[i] <= motions)
            && (forall i, j | 0 <= i < j < |picks| :: picks[i] < picks[j])
  {
    SpacingFits(motions, replays);
    var spacing := FloorDiv(motions, replays);
    var start := FloorDiv(spacing - 1, 2) + 1;
    forall i | 0 <= i < replays ensures 1 <= Steps(start, spacing, replays)[i] <= motions {
      StepsStayInside(start, spacing, replays, motions, i);
    }
    forall i, j | 0 <= i < j < replays ensures Steps(start, spacing, replays)[i] < Steps(start, spacing, replays)[j] {
      StepsRise(start, spacing, replays, i, j);
    }
  }

  /** The refusal: with a positive number of replays, exactly when there are fewer motions. */
  lemma {:induction false} RefusedIff(motions: int, replays: int)
    ensures ReplayIndices(motions, replays).None? <==> 0 <= motions < replays || replays < motions <= 0
  {
    if replays > 0 {
      assert motions == replays * (motions / replays) + motions % replays;
    } else if replays < 0 {
      assert -motions == -replays * (-motions / -replays) + -motions % -replays;
    }
  }

  lemma {:induction false} SizeIsQuotient(motions: int, replays: int, size: int)
    requires replays > 0 && replays * size <= motions < replays * (size + 1)
    ensures motions / replays == size
  {
    var q := motions / replays;
    assert replays * q <= motions < replays * (q + 1);
    if q < size {
      Product(q + 1, size, replays);
    } else if q > size {
      Product(size + 1, q, replays);
    }
  }

  /** The motions are cut into as many blocks of one size as there are replays, from the front; each
      replay is the middle of its own block, the earlier of two. */
  lemma {:induction false} PicksAreMiddles(motions: int, replays: int, size: int, i: int)
    requires size >= 1 && replays * size <= motions < replays * (size + 1) && 0 <= i < replays
    ensures ReplayIndices(motions, replays).Some? && |ReplayIndices(motions, replays).value| == replays
    ensures var pick, first, last := ReplayIndices(motions, replays).value[i], i * size + 1, i * size + size;
            pick - first in {last - pick, last - pick - 1}
  {
    SizeIsQuotient(motions, replays, size);
  }

  // ---- one POST against the gateway --------------------------------------------------------

  /** What surrounds one POST: whether it arrives, the gate before replay that refuses it if one
      does, how long it takes, and the status the gates and the actuator behind replay give. */
  datatype Net = Net(arrives: bool, earlier: Option<string>, elapsedMs: int, later: int)

  /** The answer; None is an exception in the client. */
  datatype Answer = Answer(status: Option<int>, deny: Option<string>)

  const REPLAY := "replay"

  function Posted(seen: seq<string>, max: int, id: string, net: Net): (Answer, seq<string>) {
    if !net.arrives then (Answer(None, None), seen)
    else if net.earlier.Some? then (Answer(Some(403), net.earlier), seen)
    else match Replay.ReplayVerdict(seen, max, id)
      case Refused => (Answer(Some(403), Some(REPLAY)), seen)
      case KeyError => (Answer(Some(500), None), [])
      case Accepted => (Answer(Some(net.later), None), Replay.LastOf(seen, max - 1) + [id])
  }

  method Post(gateway: Replay.ReplayCache, id: string, net: Net) returns (a: Answer)
    modifies gateway
    ensures (a, gateway.seen) == Posted(old(gateway.seen), gateway.max, id, net)
    ensures !net.arrives ==> a == Answer(None, None)
    ensures net.arrives && net.earlier.Some? ==> a == Answer(Some(403), net.earlier)
    ensures net.arrives && net.earlier.None? ==>
              && (id == "" || id in old(gateway.seen) ==> a == Answer(Some(403), Some("replay")))
              && (id != "" && id !in old(gateway.seen) && gateway.max >= 1 ==> a == Answer(Some(net.later), None))
  {
    if !net.arrives {
      return Answer(None, None);
    }
    if net.earlier.Some? {
      return Answer(Some(403), net.earlier);
    }
    var verdict := gateway.CheckReplay(id);
    match verdict
    case Refused => return Answer(Some(403), Some(REPLAY));
    case KeyError => return Answer(Some(500), None);
    case Accepted => return Answer(Some(net.later), None);
  }

  // ---- the two phases ----------------------------------------------------------------------

  /** The answers to the gated motions and the window they leave. */
  function Motions(seen: seq<string>, max: int, ids: seq<string>, nets: seq<Net>): (seq<Answer>, seq<string>)
    requires |nets| == |ids|
  {
    if ids == [] then ([], seen)
    else
      var n := |ids| - 1;
      var (answers, window) := Motions(seen, max, ids[..n], nets[..n]);
      var (a, window') := Posted(window, max, ids[n], nets[n]);
      (answers + [a], window')
  }

  predicate MotionOk(a: Answer, elapsedMs: int, budgetMs: int) {
    a.status == Some(200) && elapsedMs <= budgetMs
  }

  predicate Denied(a: Answer) {
    a == Answer(Some(403), Some(REPLAY))
  }

  predicate Accepted(answers: seq<Answer>) {
    answers != [] && answers[|answers| - 1].status == Some(200)
  }

  /** The answers to the replays and the window they leave; an accepted one ends the run. */
  function Replays(seen: seq<string>, max: int, ids: seq<string>, picks: seq<int>, nets: seq<Net>): (seq<Answer>, seq<string>)
    requires |nets| == |picks| && forall i | 0 <= i < |picks| :: 1 <= picks[i] <= |ids|
  {
    if picks == [] then ([], seen)
    else
      var n := |picks| - 1;
      var (answers, window) := Replays(seen, max, ids, picks[..n], nets[..n]);
      if Accepted(answers) then (answers, window)
      else
        var (a, window') := Posted(window, max, ids[picks[n] - 1], nets[n]);
        (answers + [a], window')
  }

  lemma {:induction false} AcceptedEnds(seen: seq<string>, max: int, ids: seq<string>, picks: seq<int>, nets: seq<Net>, n: nat)
    requires |nets| == |picks| && (forall i | 0 <= i < |picks| :: 1 <= picks[i] <= |ids|) && n <= |picks|
    requires Accepted(Replays(seen, max, ids, picks[..n], nets[..n]).0)
    ensures Replays(seen, max, ids, picks, nets) == Replays(seen, max, ids, picks[..n], nets[..n])
  {
    if n == |picks| {
      assert picks[..n] == picks && nets[..n] == nets;
    } else {
      var front, frontNets := picks[..|picks| - 1], nets[..|picks| - 1];
      assert front[..n] == picks[..n] && frontNets[..n] == nets[..n];
      AcceptedEnds(seen, max, ids, front, frontNets, n);
    }
  }

  /** The first motion that failed, counted from 1; None when all passed. */
  predicate FirstFailure(answers: seq<Answer>, nets: seq<Net>, budgetMs: int, first: Option<int>)
    requires |answers| <= |nets|
  {
    match first
    case None => forall i | 0 <= i < |answers| :: MotionOk(answers[i], nets[i].elapsedMs, budgetMs)
    case Some(n) =>
      && 1 <= n <= |answers|
      && !MotionOk(answers[n - 1], nets[n - 1].elapsedMs, budgetMs)
      && forall i | 0 <= i < n - 1 :: MotionOk(answers[i], nets[i].elapsedMs, budgetMs)
  }

  lemma MotionsWhole(seen: seq<string>, max: int, ids: seq<string>, nets: seq<Net>)
    requires |nets| == |ids|
    ensures Motions(seen, max, ids[..|ids|], nets[..|ids|]) == Motions(seen, max, ids, nets)
  {
    assert ids[..|ids|] == ids && nets[..|ids|] == nets;
  }

  lemma {:induction false} MotionsNext(seen: seq<string>, max: int, ids: seq<string>, nets: seq<Net>, i: nat)
    requires |nets| == |ids| && i < |ids|
    ensures var (answers, window) := Motions(seen, max, ids[..i], nets[..i]);
            var (a, window') := Posted(window, max, ids[i], nets[i]);
            Motions(seen, max, ids[..i + 1], nets[..i + 1]) == (answers + [a], window')
  {
    assert ids[..i + 1][..i] == ids[..i] && nets[..i + 1][..i] == nets[..i];
  }

  lemma {:induction false} FirstFailureNext(answers: seq<Answer>, nets: seq<Net>, budgetMs: int, first: Option<int>, a: Answer)
    requires |answers| < |nets| && FirstFailure(answers, nets, budgetMs, first)
    ensures FirstFailure(answers + [a], nets, budgetMs,
                         if first.None? && !MotionOk(a, nets[|answers|].elapsedMs, budgetMs) then Some(|answers| + 1) else first)
  {
  }

  method RunMotions(gateway: Replay.ReplayCache, ids: seq<string>, nets: seq<Net>, budgetMs: int)
    returns (answers: seq<Answer>, firstFailure: Option<int>)
    requires |nets| == |ids|
    modifies gateway
    ensures (answers, gateway.seen) == Motions(old(gateway.seen), gateway.max, ids, nets)
    ensures |answers| == |ids| && FirstFailure(answers, nets, budgetMs, firstFailure)
  {
    answers := [];
    firstFailure := None;
    MotionsWhole(gateway.seen, gateway.max, ids, nets);
    for i := 0 to |ids|
      invariant (answers, gateway.seen) == Motions(old(gateway.seen), gateway.max, ids[..i], nets[..i])
      invariant |answers| == i && FirstFailure(answers, nets, budgetMs, firstFailure)
    {
      MotionsNext(old(gateway.seen), gateway.max, ids, nets, i);
      var a := Post(gateway, ids[i], nets[i]);
      FirstFailureNext(answers, nets, budgetMs, firstFailure, a);
      answers := answers + [a];
      if !MotionOk(a, nets[i].elapsedMs, budgetMs) && firstFailure.None? {
        firstFailure := Some(i + 1);
      }
    }
  }

  /** `run_phase_5`, given indices inside the motions: whether every motion passed, the first
      iteration that did not, the replies to the replays, and whether all were denied. */
  method RunPhase5(gateway: Replay.ReplayCache, ids: seq<string>, nets: seq<Net>, budgetMs: int, picks: seq<int>, tail: seq<Net>)
    returns (allPass: bool, firstFailure: Option<int>, replays: seq<Answer>, allDenied: bool)
    requires |nets| == |ids| && |tail| == |picks| && forall i | 0 <= i < |picks| :: 1 <= picks[i] <= |ids|
    modifies gateway
    ensures var (answers, window) := Motions(old(gateway.seen), gateway.max, ids, nets);
            && |answers| == |ids|
            && (allPass <==> forall i | 0 <= i < |ids| :: answers[i].status == Some(200) && nets[i].elapsedMs <= budgetMs)
            && FirstFailure(answers, nets, budgetMs, firstFailure)
            && (replays, gateway.seen) == Replays(window, gateway.max, ids, picks, tail)
    ensures allPass <==> firstFailure == None
    ensures allDenied <==> |replays| == |picks| && forall i | 0 <= i < |replays| :: replays[i] == Answer(Some(403), Some("replay"))
  {
    var answers;
    answers, firstFailure := RunMotions(gateway, ids, nets, budgetMs);
    allPass := firstFailure.None?;
    replays := RunReplays(gateway, ids, picks, tail);
    allDenied := |replays| == |picks| && forall i | 0 <= i < |replays| :: Denied(replays[i]);
  }

  lemma ReplaysWhole(seen: seq<string>, max: int, ids: seq<string>, picks: seq<int>, nets: seq<Net>)
    requires |nets| == |picks| && forall i | 0 <= i < |picks| :: 1 <= picks[i] <= |ids|
    ensures Replays(seen, max, ids, picks[..|picks|], nets[..|picks|]) == Replays(seen, max, ids, picks, nets)
  {
    assert picks[..|picks|] == picks && nets[..|picks|] == nets;
  }

  lemma {:induction false} ReplaysNext(seen: seq<string>, max: int, ids: seq<string>, picks: seq<int>, nets: seq<Net>, n: nat)
    requires |nets| == |picks| && n < |picks| && forall i | 0 <= i < |picks| :: 1 <= picks[i] <= |ids|
    requires !Accepted(Replays(seen, max, ids, picks[..n], nets[..n]).0)
    ensures var (answers, window) := Replays(seen, max, ids, picks[..n], nets[..n]);
            var (a, window') := Posted(window, max, ids[picks[n] - 1], nets[n]);
            Replays(seen, max, ids, picks[..n + 1], nets[..n + 1]) == (answers + [a], window')
  {
    assert picks[..n + 1][..n] == picks[..n] && nets[..n + 1][..n] == nets[..n];
  }

  method RunReplays(gateway: Replay.ReplayCache, ids: seq<string>, picks: seq<int>, tail: seq<Net>)
    returns (replays: seq<Answer>)
    requires |tail| == |picks| && forall i | 0 <= i < |picks| :: 1 <= picks[i] <= |ids|
    modifies gateway
    ensures (replays, gateway.seen) == Replays(old(gateway.seen), gateway.max, ids, picks, tail)
    ensures forall i | 0 <= i < |replays| - 1 :: replays[i].status != Some(200)
    ensures |replays| == |picks| || (replays != [] && replays[|replays| - 1].status == Some(200))
  {
    replays := [];
    ReplaysWhole(gateway.seen, gateway.max, ids, picks, tail);
    for next := 0 to |picks|
      invariant (replays, gateway.seen) == Replays(old(gateway.seen), gateway.max, ids, picks[..next], tail[..next])
      invariant |replays| == next && forall i | 0 <= i < |replays| :: replays[i].status != Some(200)
    {
      ReplaysNext(old(gateway.seen), gateway.max, ids, picks, tail, next);
      var a := Post(gateway, ids[picks[next] - 1], tail[next]);
      replays := replays + [a];
      if a.status == Some(200) {
        AcceptedEnds(old(gateway.seen), gateway.max, ids, picks, tail, next + 1);
        return;
      }
    }
  }

  // ---- every replay is denied --------------------------------------------------------------

  /** There are n answers, and every one is a 200. */
  predicate AllOk(answers: seq<Answer>, n: nat) {
    |answers| == n && forall i | 0 <= i < n :: answers[i].status == Some(200)
  }

  lemma {:induction false} AllOkFront(answers: seq<Answer>, last: Answer, n: nat)
    requires AllOk(answers + [last], n + 1)
    ensures AllOk(answers, n) && last.status == Some(200)
  {
    var all := answers + [last];
    assert all[n] == last;
    assert forall i | 0 <= i < n :: all[i] == answers[i];
  }

  /** Motions that were all answered 200 leave all their ids in a window that is large enough. */
  lemma {:induction false} MotionsFillTheWindow(seen: seq<string>, max: int, ids: seq<string>, nets: seq<Net>)
    requires |nets| == |ids| <= max && AllOk(Motions(seen, max, ids, nets).0, |ids|)
    ensures |ids| <= |Motions(seen, max, ids, nets).1|
    ensures var window := Motions(seen, max, ids, nets).1; window[|window| - |ids|..] == ids
  {
    if ids != [] {
      var n := |ids| - 1;
      var (answers, window) := Motions(seen, max, ids[..n], nets[..n]);
      var (a, window') := Posted(window, max, ids[n], nets[n]);
      AllOkFront(answers, a, n);
      MotionsFillTheWindow(seen, max, ids[..n], nets[..n]);
      KeepsTheEnd(window, max, ids[..n], ids[n]);
      assert ids == ids[..n] + [ids[n]];
    }
  }

  lemma KeepsTheEnd(window: seq<string>, max: int, ids: seq<string>, id: string)
    requires |ids| < max && |ids| <= |window| && window[|window| - |ids|..] == ids
    ensures var w := Replay.LastOf(window, max - 1) + [id];
            |ids| + 1 <= |w| && w[|w| - |ids| - 1..] == ids + [id]
  {
    var last := Replay.LastOf(window, max - 1);
    assert last[|last| - |ids|..] == ids;
  }

  lemma {:induction false} KnownIdsAreDenied(seen: seq<string>, max: int, ids: seq<string>, picks: seq<int>, nets: seq<Net>)
    requires |nets| == |picks| && forall i | 0 <= i < |picks| :: 1 <= picks[i] <= |ids|
    requires forall id | id in ids :: id in seen
    requires forall i | 0 <= i < |nets| :: nets[i].arrives && nets[i].earlier.None?
    ensures Replays(seen, max, ids, picks, nets).1 == seen
    ensures var rs := Replays(seen, max, ids, picks, nets).0;
            |rs| == |picks| && forall i | 0 <= i < |rs| :: Denied(rs[i])
  {
    if picks != [] {
      var n := |picks| - 1;
      assert ids[picks[n] - 1] in ids;
      KnownIdsAreDenied(seen, max, ids, picks[..n], nets[..n]);
    }
  }

  lemma {:induction false} EndIsInside(window: seq<string>, ids: seq<string>)
    requires |ids| <= |window| && window[|window| - |ids|..] == ids
    ensures forall id | id in ids :: id in window
  {
    forall id | id in ids ensures id in window {
      assert id in window[|window| - |ids|..];
    }
  }

  /** Against a gateway whose window holds at least as many ids as there were motions, and whose
      gates before replay have not changed their mind, every replay of a motion that was answered
      200 is denied, whatever the window held before. */
  lemma {:induction false} EveryReplayIsDenied(seen: seq<string>, max: int, ids: seq<string>, nets: seq<Net>, replays: int, tail: seq<Net>)
    requires |nets| == |ids| <= max && 0 < replays <= |ids| && |tail| == replays
    requires AllOk(Motions(seen, max, ids, nets).0, |ids|)
    requires forall i | 0 <= i < |tail| :: tail[i].arrives && tail[i].earlier.None?
    ensures ReplayIndices(|ids|, replays).Some?
    ensures var picks := ReplayIndices(|ids|, replays).value;
            && |picks| == replays
            && (forall i | 0 <= i < |picks| :: 1 <= picks[i] <= |ids|)
            && var rs := Replays(Motions(seen, max, ids, nets).1, max, ids, picks, tail).0;
               |rs| == |picks| && forall i | 0 <= i < |rs| :: rs[i] == Answer(Some(403), Some("replay"))
  {
    IndicesAreInside(|ids|, replays);
    MotionsFillTheWindow(seen, max, ids, nets);
    var window := Motions(seen, max, ids, nets).1;
    EndIsInside(window, ids);
    KnownIdsAreDenied(window, max, ids, ReplayIndices(|ids|, replays).value, tail);
  }

  /** The harness tells: the first replay is denied exactly when the gateway still holds the id of the
      very motion it replays, so one that forgot the motion is not taken for one that remembers. */
  lemma {:induction false} FirstReplayTells(seen: seq<string>, max: int, ids: seq<string>, picks: seq<int>, nets: seq<Net>)
    requires |nets| == |picks| && (forall i | 0 <= i < |picks| :: 1 <= picks[i] <= |ids|)
    requires picks != [] && nets[0].arrives && nets[0].earlier.None? && max >= 1
    ensures var rs, id := Replays(seen, max, ids, picks, nets).0, ids[picks[0] - 1];
            rs != [] && (rs[0] == Answer(Some(403), Some("replay")) <==> id == "" || id in seen)
  {
    if |picks| == 1 {
      assert picks[..0] == [] && nets[..0] == [];
    } else {
      FirstReplayTells(seen, max, ids, picks[..|picks| - 1], nets[..|picks| - 1]);
    }
  }
}
