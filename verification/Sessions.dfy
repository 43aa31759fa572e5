/** What the replay window is worth to the gateway: who can be dispatched twice under one msg_id. */
module Sessions {
  import opened Trace
  import opened Gateway
  import Replay

  function CheckOf(req: Request): Replay.Check {
    Replay.Check(req.msgId, req.stamp, req.nowMs)
  }

  ghost predicate ReachesFreshness(cfg: Config, m: Memory, req: Request) {
    ClearBefore(cfg, m, req, Rank(At(EnvelopeFreshness)))
  }

  /** The request got past the replay gate, so its id joined the window. */
  ghost predicate PassesReplay(cfg: Config, m: Memory, req: Request) {
    ClearBefore(cfg, m, req, Rank(RevocationUnknown))
  }

  /** Which requests of a session were checked for freshness, in order. */
  ghost function Reaching(cfg: Config, ms: seq<Memory>, batch: seq<Served>): (r: seq<nat>)
    requires |ms| == |batch| + 1
    ensures forall k | 0 <= k < |r| :: r[k] < |batch|
  {
    if batch == [] then []
    else
      var n := |batch| - 1;
      Reaching(cfg, ms[..n + 1], batch[..n]) + if ReachesFreshness(cfg, ms[n], batch[n].req) then [n] else []
  }

  ghost function Checks(batch: seq<Served>, r: seq<nat>): seq<Replay.Check>
    requires forall k | 0 <= k < |r| :: r[k] < |batch|
  {
    seq(|r|, k requires 0 <= k < |r| => CheckOf(batch[r[k]].req))
  }

  /** A session of a gateway that requires signatures, begun with an empty window of this size. */
  ghost predicate Guarded(cfg: Config, ms: seq<Memory>, batch: seq<Served>, max: int) {
    && cfg.requireSignature && max >= 1
    && Session(cfg, ms, batch) && ms[0].seen == [] && ms[0].window == max
  }

  lemma {:induction false} GuardedFront(cfg: Config, ms: seq<Memory>, batch: seq<Served>, max: int, n: nat)
    requires Guarded(cfg, ms, batch, max) && n <= |batch|
    ensures Guarded(cfg, ms[..n + 1], batch[..n], max)
  {
  }

  lemma {:induction false} WindowSize(cfg: Config, ms: seq<Memory>, batch: seq<Served>, max: int, n: nat)
    requires Guarded(cfg, ms, batch, max) && n <= |batch|
    ensures ms[n].window == max
  {
    if n > 0 {
      WindowSize(cfg, ms, batch, max, n - 1);
      assert Keeps(cfg, ms[n - 1], batch[n - 1].req, ms[n]);
    }
  }

  lemma {:induction false} ReachingExact(cfg: Config, ms: seq<Memory>, batch: seq<Served>, i: nat)
    requires |ms| == |batch| + 1 && i < |batch|
    ensures i in Reaching(cfg, ms, batch) <==> ReachesFreshness(cfg, ms[i], batch[i].req)
  {
    var n := |batch| - 1;
    if i < n {
      ReachingExact(cfg, ms[..n + 1], batch[..n], i);
    }
  }

  lemma {:induction false} ReachingRises(cfg: Config, ms: seq<Memory>, batch: seq<Served>, a: nat, b: nat)
    requires |ms| == |batch| + 1 && a < b < |Reaching(cfg, ms, batch)|
    ensures Reaching(cfg, ms, batch)[a] < Reaching(cfg, ms, batch)[b]
  {
    var n := |batch| - 1;
    var front := Reaching(cfg, ms[..n + 1], batch[..n]);
    if b < |front| {
      ReachingRises(cfg, ms[..n + 1], batch[..n], a, b);
    }
  }

  lemma TakeFront(front: seq<nat>, tail: seq<nat>, k: nat)
    requires k < |front + tail| && |tail| <= 1
    ensures k < |front| ==> (front + tail)[k] == front[k]
    ensures (front + tail)[..k] == front[..if k < |front| then k else |front|]
  {
  }

  lemma {:induction false} ReachingFront(cfg: Config, ms: seq<Memory>, batch: seq<Served>)
    requires |ms| == |batch| + 1 && batch != []
    ensures var n := |batch| - 1;
            Reaching(cfg, ms, batch) ==
            Reaching(cfg, ms[..n + 1], batch[..n]) + if ReachesFreshness(cfg, ms[n], batch[n].req) then [n] else []
  {
  }

  lemma {:induction false} ReachingTwice(cfg: Config, ms: seq<Memory>, batch: seq<Served>, n: nat, i: nat)
    requires |ms| == |batch| + 1 && i <= n <= |batch|
    ensures Reaching(cfg, ms[..n + 1][..i + 1], batch[..n][..i]) == Reaching(cfg, ms[..i + 1], batch[..i])
  {
    assert ms[..n + 1][..i + 1] == ms[..i + 1] && batch[..n][..i] == batch[..i];
  }

  lemma {:induction false} ReachingPrefix(cfg: Config, ms: seq<Memory>, batch: seq<Served>, k: nat, i: nat)
    requires |ms| == |batch| + 1 && k < |Reaching(cfg, ms, batch)| && Reaching(cfg, ms, batch)[k] == i
    ensures Reaching(cfg, ms[..i + 1], batch[..i]) == Reaching(cfg, ms, batch)[..k]
  {
    var n := |batch| - 1;
    var front := Reaching(cfg, ms[..n + 1], batch[..n]);
    ReachingFront(cfg, ms, batch);
    TakeFront(front, if ReachesFreshness(cfg, ms[n], batch[n].req) then [n] else [], k);
    if k < |front| {
      ReachingPrefix(cfg, ms[..n + 1], batch[..n], k, i);
      ReachingTwice(cfg, ms, batch, n, i);
    } else {
      assert front[..|front|] == front;
    }
  }

  /** One request against the window: what it leaves there is what a freshness and replay check of it
      would. */
  lemma {:induction false} OneCheck(cfg: Config, m: Memory, req: Request, m': Memory)
    requires cfg.requireSignature && m.window >= 1 && Keeps(cfg, m, req, m')
    ensures PassesReplay(cfg, m, req) <==>
            ReachesFreshness(cfg, m, req) && Replay.Passes(cfg.freshness, m.seen, m.window, CheckOf(req))
    ensures m'.seen == if PassesReplay(cfg, m, req) then Replay.LastOf(m.seen, m.window - 1) + [req.msgId] else m.seen
  {
    assert Rank(RevocationUnknown) == Rank(WindowError) + 1;
    if ReachesFreshness(cfg, m, req) && Replay.Passes(cfg.freshness, m.seen, m.window, CheckOf(req)) {
      ClearNext(cfg, m, req, At(EnvelopeFreshness));
      ClearNext(cfg, m, req, At(ReplayedId));
      ClearNext(cfg, m, req, WindowError);
    }
    if PassesReplay(cfg, m, req) {
      assert !Blocks(cfg, m, req, At(EnvelopeFreshness)) && !Blocks(cfg, m, req, At(ReplayedId)) && !Blocks(cfg, m, req, WindowError);
    }
  }

  lemma {:induction false} ChecksLast(cfg: Config, ms: seq<Memory>, batch: seq<Served>)
    requires |ms| == |batch| + 1 && batch != []
    ensures var n := |batch| - 1;
            Checks(batch, Reaching(cfg, ms, batch))
            == Checks(batch[..n], Reaching(cfg, ms[..n + 1], batch[..n]))
               + if ReachesFreshness(cfg, ms[n], batch[n].req) then [CheckOf(batch[n].req)] else []
  {
  }

  lemma WindowLast(p: Replay.Policy, max: int, checks: seq<Replay.Check>, last: Replay.Check)
    ensures Replay.Window(p, max, checks + [last]) ==
            var seen := Replay.Window(p, max, checks);
            if Replay.Passes(p, seen, max, last) then Replay.LastOf(seen, max - 1) + [last.id] else seen
  {
    assert (checks + [last])[..|checks|] == checks;
  }

  lemma {:induction false} SeenAfter(cfg: Config, ms: seq<Memory>, batch: seq<Served>, max: int, n: nat)
    requires Guarded(cfg, ms, batch, max) && n < |batch|
    ensures var check := CheckOf(batch[n].req);
            ms[n + 1].seen ==
            if ReachesFreshness(cfg, ms[n], batch[n].req) && Replay.Passes(cfg.freshness, ms[n].seen, max, check)
              then Replay.LastOf(ms[n].seen, max - 1) + [check.id]
            else ms[n].seen
  {
    WindowSize(cfg, ms, batch, max, n);
    OneCheck(cfg, ms[n], batch[n].req, ms[n + 1]);
  }

  /** The gateway's window is the replay window of the requests that reached the freshness check. */
  lemma {:induction false} WindowTracks(cfg: Config, ms: seq<Memory>, batch: seq<Served>, max: int)
    requires Guarded(cfg, ms, batch, max)
    ensures ms[|batch|].seen == Replay.Window(cfg.freshness, max, Checks(batch, Reaching(cfg, ms, batch)))
  {
    if batch != [] {
      var n := |batch| - 1;
      GuardedFront(cfg, ms, batch, max, n);
      WindowTracks(cfg, ms[..n + 1], batch[..n], max);
      SeenAfter(cfg, ms, batch, max, n);
      var before := Checks(batch[..n], Reaching(cfg, ms[..n + 1], batch[..n]));
      ChecksLast(cfg, ms, batch);
      WindowLast(cfg.freshness, max, before, CheckOf(batch[n].req));
      assert before + [] == before;
    }
  }

  lemma {:induction false} ChecksOfPrefix(batch: seq<Served>, r: seq<nat>, k: nat, i: nat)
    requires (forall j | 0 <= j < |r| :: r[j] < |batch|) && k <= |r| && i <= |batch|
    requires forall j | 0 <= j < k :: r[..k][j] < i
    ensures Checks(batch, r)[..k] == Checks(batch[..i], r[..k])
  {
    assert forall j | 0 <= j < k :: r[..k][j] == r[j];
  }

  /** So it was when the k-th of them came. */
  lemma {:induction false} WindowBefore(cfg: Config, ms: seq<Memory>, batch: seq<Served>, max: int, k: nat)
    requires Guarded(cfg, ms, batch, max) && k < |Reaching(cfg, ms, batch)|
    ensures var r := Reaching(cfg, ms, batch);
            ms[r[k]].seen == Replay.Window(cfg.freshness, max, Checks(batch, r)[..k])
  {
    var r := Reaching(cfg, ms, batch);
    var i := r[k];
    GuardedFront(cfg, ms, batch, max, i);
    WindowTracks(cfg, ms[..i + 1], batch[..i], max);
    ReachingPrefix(cfg, ms, batch, k, i);
    assert r[..k] == Reaching(cfg, ms[..i + 1], batch[..i]);
    ChecksOfPrefix(batch, r, k, i);
  }

  /** The k-th request that reached the freshness check passed replay exactly when its check passes. */
  lemma {:induction false} PassesExact(cfg: Config, ms: seq<Memory>, batch: seq<Served>, max: int, k: nat)
    requires Guarded(cfg, ms, batch, max) && k < |Reaching(cfg, ms, batch)|
    ensures var r := Reaching(cfg, ms, batch);
            Replay.PassesAt(cfg.freshness, max, Checks(batch, r), k) <==> PassesReplay(cfg, ms[r[k]], batch[r[k]].req)
  {
    var i := Reaching(cfg, ms, batch)[k];
    WindowBefore(cfg, ms, batch, max, k);
    WindowSize(cfg, ms, batch, max, i);
    ReachingExact(cfg, ms, batch, i);
    assert ReachesFreshness(cfg, ms[i], batch[i].req);
    OneCheck(cfg, ms[i], batch[i].req, ms[i + 1]);
  }

  /** As many other ids as the window holds, all different, got past the replay gate in between. */
  ghost predicate Flooded(cfg: Config, ms: seq<Memory>, batch: seq<Served>, max: int, i: nat, j: nat, between: seq<nat>)
    requires i < j < |batch| && |ms| == |batch| + 1
  {
    && |between| == max
    && (forall k | 0 <= k < |between| :: i < between[k] < j)
    && (forall k | 0 <= k < |between| :: PassesReplay(cfg, ms[between[k]], batch[between[k]].req) && batch[between[k]].req.msgId != batch[i].req.msgId)
    && (forall k, l | 0 <= k < l < |between| :: batch[between[k]].req.msgId != batch[between[l]].req.msgId)
  }

  lemma {:induction false} PositionOf(cfg: Config, ms: seq<Memory>, batch: seq<Served>, max: int, i: nat) returns (k: nat)
    requires Guarded(cfg, ms, batch, max) && i < |batch| && PassesReplay(cfg, ms[i], batch[i].req)
    ensures k < |Reaching(cfg, ms, batch)| && Reaching(cfg, ms, batch)[k] == i
    ensures Replay.PassesAt(cfg.freshness, max, Checks(batch, Reaching(cfg, ms, batch)), k)
  {
    ReachingExact(cfg, ms, batch, i);
    assert ReachesFreshness(cfg, ms[i], batch[i].req);
    k :| 0 <= k < |Reaching(cfg, ms, batch)| && Reaching(cfg, ms, batch)[k] == i;
    PassesExact(cfg, ms, batch, max, k);
  }

  /** A gateway that requires signatures dispatches two requests under one msg_id only after as many
      other ids as its window holds, all different, got past the replay gate in between. */
  lemma {:induction false} DispatchedTwice(cfg: Config, ms: seq<Memory>, batch: seq<Served>, max: int, i: nat, j: nat) returns (between: seq<nat>)
    requires Guarded(cfg, ms, batch, max) && i < j < |batch|
    requires batch[i].stop.None? && batch[j].stop.None? && batch[i].req.msgId == batch[j].req.msgId
    ensures Flooded(cfg, ms, batch, max, i, j, between)
  {
    var r := Reaching(cfg, ms, batch);
    var checks := Checks(batch, r);
    var a := PositionOf(cfg, ms, batch, max, i);
    var b := PositionOf(cfg, ms, batch, max, j);
    if b < a {
      ReachingRises(cfg, ms, batch, b, a);
    }
    var picks := Replay.PassedTwice(cfg.freshness, max, checks, a, b);
    between := seq(|picks|, k requires 0 <= k < |picks| => r[picks[k]]);
    forall k | 0 <= k < |between|
      ensures i < between[k] < j
      ensures PassesReplay(cfg, ms[between[k]], batch[between[k]].req) && batch[between[k]].req.msgId != batch[i].req.msgId
    {
      ReachingRises(cfg, ms, batch, a, picks[k]);
      ReachingRises(cfg, ms, batch, picks[k], b);
      PassesExact(cfg, ms, batch, max, picks[k]);
      assert checks[picks[k]].id != checks[a].id;
    }
    forall k, l | 0 <= k < l < |between| ensures batch[between[k]].req.msgId != batch[between[l]].req.msgId {
      assert checks[picks[k]].id != checks[picks[l]].id;
    }
  }
}
