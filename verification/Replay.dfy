/** The replay window and the freshness window, and what they guarantee together. */
module Replay {
  import opened Trace

  // ---- the window --------------------------------------------------------------------------

  /** The last n elements, or all of them. */
  function LastOf<T>(s: seq<T>, n: int): seq<T> {
    if n <= 0 then [] else if |s| <= n then s else s[|s| - n..]
  }

  /** `ReplayCache.record`; None is the KeyError of a window with no room for any id. */
  function Recorded(seen: seq<string>, max: int, id: string): Option<seq<string>> {
    if id in seen then Some(seen)
    else if max < 1 then None
    else Some(LastOf(seen, max - 1) + [id])
  }

  datatype Verdict = Accepted | Refused | KeyError

  /** `check_replay`: a missing or empty msg_id is refused before the window is asked. */
  function ReplayVerdict(seen: seq<string>, max: int, id: string): Verdict {
    if id == "" || id in seen then Refused else if max < 1 then KeyError else Accepted
  }

  class ReplayCache {
    const max: int
    var seen: seq<string>

    constructor (max: int)
      ensures this.max == max && seen == []
    {
      this.max := max;
      seen := [];
    }

    method HasSeen(id: string) returns (found: bool)
      ensures found <==> id in seen
    {
      found := id in seen;
    }

    /** Evicts from the old end only, and a known id keeps its place. */
    method Record(id: string) returns (ok: bool)
      modifies this
      ensures ok <==> Recorded(old(seen), max, id).Some?
      ensures ok ==> seen == Recorded(old(seen), max, id).value
      ensures !ok ==> seen == []
    {
      if id in seen {
        return true;
      }
      ghost var before := seen;
      while |seen| >= max
        invariant |seen| <= |before| && seen == before[|before| - |seen|..]
        invariant |before| < max ==> seen == before
        invariant |before| >= max && max >= 0 ==> |seen| >= max - 1
      {
        if seen == [] {
          return false;
        }
        seen := seen[1..];
      }
      assert LastOf(before, max - 1) == seen;
      seen := seen + [id];
      return true;
    }

    method CheckReplay(id: string) returns (v: Verdict)
      modifies this
      ensures v == ReplayVerdict(old(seen), max, id)
      ensures v == Refused <==> id == "" || id in old(seen)
      ensures v == Accepted <==> id != "" && id !in old(seen) && max >= 1
      ensures v == Accepted ==> seen == LastOf(old(seen), max - 1) + [id]
      ensures v == Refused ==> seen == old(seen)
      ensures v == KeyError ==> seen == []
    {
      if id == "" {
        return Refused;
      }
      var found := HasSeen(id);
      if found {
        return Refused;
      }
      var ok := Record(id);
      return if ok then Accepted else KeyError;
    }
  }

  // ---- freshness ---------------------------------------------------------------------------

  /** An envelope's `timestamp_ms`. */
  datatype Stamp = Absent | Millis(ms: int) | NotANumber

  datatype Policy = Policy(maxSkewS: real, requireTimestamp: bool)

  function Abs(x: real): real {
    if x < 0.0 then -x else x
  }

  /** `check_freshness`. */
  predicate Fresh(p: Policy, stamp: Stamp, nowMs: int) {
    match stamp
    case Absent => !p.requireTimestamp
    case NotANumber => false
    case Millis(ms) => Abs((nowMs - ms) as real / 1000.0) <= p.maxSkewS
  }

  // ---- runs --------------------------------------------------------------------------------

  /** One signed envelope reaching the gates at one moment. */
  datatype Check = Check(id: string, stamp: Stamp, nowMs: int)

  /** Freshness first, then replay; only an accepted envelope touches the window. */
  predicate Passes(p: Policy, seen: seq<string>, max: int, check: Check) {
    Fresh(p, check.stamp, check.nowMs) && ReplayVerdict(seen, max, check.id) == Accepted
  }

  function Window(p: Policy, max: int, checks: seq<Check>): seq<string> {
    if checks == [] then []
    else
      var seen, last := Window(p, max, checks[..|checks| - 1]), checks[|checks| - 1];
      if Passes(p, seen, max, last) then LastOf(seen, max - 1) + [last.id] else seen
  }

  predicate PassesAt(p: Policy, max: int, checks: seq<Check>, i: nat)
    requires i < |checks|
  {
    Passes(p, Window(p, max, checks[..i]), max, checks[i])
  }

  /** Which checks passed, in order. */
  function Log(p: Policy, max: int, checks: seq<Check>): (log: seq<nat>)
    ensures forall k | 0 <= k < |log| :: log[k] < |checks|
  {
    if checks == [] then []
    else
      var front := checks[..|checks| - 1];
      Log(p, max, front) + if PassesAt(p, max, checks, |front|) then [|front|] else []
  }

  function Ids(checks: seq<Check>, log: seq<nat>): seq<string>
    requires forall k | 0 <= k < |log| :: log[k] < |checks|
  {
    seq(|log|, k requires 0 <= k < |log| => checks[log[k]].id)
  }

  lemma PassesAtPrefix(p: Policy, max: int, checks: seq<Check>, n: nat, i: nat)
    requires i < n <= |checks|
    ensures PassesAt(p, max, checks[..n], i) == PassesAt(p, max, checks, i)
  {
    assert checks[..n][..i] == checks[..i];
  }

  lemma {:induction false} LogExact(p: Policy, max: int, checks: seq<Check>)
    ensures var log := Log(p, max, checks);
            && (forall a, b | 0 <= a < b < |log| :: log[a] < log[b])
            && (forall i | 0 <= i < |checks| :: i in log <==> PassesAt(p, max, checks, i))
  {
    if checks != [] {
      var n := |checks| - 1;
      LogExact(p, max, checks[..n]);
      var front := Log(p, max, checks[..n]);
      forall i | 0 <= i < |checks| ensures i in Log(p, max, checks) <==> PassesAt(p, max, checks, i) {
        if i < n {
          PassesAtPrefix(p, max, checks, n, i);
        }
      }
    }
  }

  lemma {:induction false} LastOfAppend<T>(s: seq<T>, max: int, x: T)
    requires max >= 1
    ensures LastOf(LastOf(s, max), max - 1) + [x] == LastOf(s + [x], max)
  {
  }

  lemma {:induction false} IdsAppend(checks: seq<Check>, log: seq<nat>, last: Check)
    requires forall k | 0 <= k < |log| :: log[k] < |checks|
    ensures Ids(checks + [last], log) == Ids(checks, log)
    ensures Ids(checks + [last], log + [|checks|]) == Ids(checks, log) + [last.id]
  {
  }

  lemma {:induction false} PassedAppend(p: Policy, max: int, front: seq<Check>, last: Check)
    ensures var seen := Window(p, max, front);
            if Passes(p, seen, max, last) then
              && Log(p, max, front + [last]) == Log(p, max, front) + [|front|]
              && Window(p, max, front + [last]) == LastOf(seen, max - 1) + [last.id]
            else Log(p, max, front + [last]) == Log(p, max, front) && Window(p, max, front + [last]) == seen
  {
    assert (front + [last])[..|front|] == front;
  }

  /** The window is exactly the last `max` ids that passed, in order. */
  lemma {:induction false} WindowIsTheLastMax(p: Policy, max: int, checks: seq<Check>)
    requires max >= 1
    ensures Window(p, max, checks) == LastOf(Ids(checks, Log(p, max, checks)), max)
  {
    if checks != [] {
      var n := |checks| - 1;
      var front, last := checks[..n], checks[n];
      assert checks == front + [last];
      WindowIsTheLastMax(p, max, front);
      PassedAppend(p, max, front, last);
      IdsAppend(front, Log(p, max, front), last);
      LastOfAppend(Ids(front, Log(p, max, front)), max, last.id);
    }
  }

  lemma {:induction false} LogPrefix(p: Policy, max: int, checks: seq<Check>, q: nat)
    requires q < |Log(p, max, checks)|
    ensures Log(p, max, checks[..Log(p, max, checks)[q]]) == Log(p, max, checks)[..q]
  {
    var log, n := Log(p, max, checks), |checks| - 1;
    var front := Log(p, max, checks[..n]);
    if q < |front| {
      LogPrefix(p, max, checks[..n], q);
      assert checks[..n][..log[q]] == checks[..log[q]];
      assert front[..q] == log[..q];
    }
  }

  lemma LastOfHolds<T>(s: seq<T>, max: int, a: nat)
    requires max >= 1 && a < |s| <= a + max
    ensures s[a] in LastOf(s, max)
  {
    var last := LastOf(s, max);
    assert last[|last| - (|s| - a)] == s[a];
  }

  /** What an accepted check found in the window: every id that passed less than `max` before it. */
  lemma {:induction false} WindowAt(p: Policy, max: int, checks: seq<Check>, b: nat)
    requires max >= 1 && b < |Log(p, max, checks)|
    ensures var log := Log(p, max, checks);
            PassesAt(p, max, checks, log[b])
            && (forall a | 0 <= a < b :: log[a] < log[b])
            && Window(p, max, checks[..log[b]]) == LastOf(Ids(checks[..log[b]], log[..b]), max)
  {
    var log := Log(p, max, checks);
    LogExact(p, max, checks);
    assert log[b] in log;
    LogPrefix(p, max, checks, b);
    WindowIsTheLastMax(p, max, checks[..log[b]]);
  }

  /** Two checks that passed with fewer than `max` others between them had different ids. */
  lemma {:induction false} NearbyIdsDiffer(p: Policy, max: int, checks: seq<Check>, a: nat, b: nat)
    requires max >= 1 && a < b < |Log(p, max, checks)| && b <= a + max
    ensures checks[Log(p, max, checks)[a]].id != checks[Log(p, max, checks)[b]].id
  {
    var log := Log(p, max, checks);
    WindowAt(p, max, checks, b);
    var ids := Ids(checks[..log[b]], log[..b]);
    assert ids[a] == checks[log[a]].id;
    LastOfHolds(ids, max, a);
  }

  /** The window never holds an id twice. */
  lemma {:induction false} WindowHasNoRepeats(p: Policy, max: int, checks: seq<Check>, i: nat, j: nat)
    requires max >= 1 && i < j < |Window(p, max, checks)|
    ensures |Window(p, max, checks)| <= max
    ensures Window(p, max, checks)[i] != Window(p, max, checks)[j]
  {
    WindowIsTheLastMax(p, max, checks);
    var log := Log(p, max, checks);
    var skip := |log| - |Window(p, max, checks)|;
    NearbyIdsDiffer(p, max, checks, skip + i, skip + j);
  }

  ghost predicate Monotone(checks: seq<Check>) {
    forall i, j | 0 <= i < j < |checks| :: checks[i].nowMs <= checks[j].nowMs
  }

  /** What must lie between two acceptances of one id: `max` checks that passed with ids different
      from it and from each other. */
  ghost predicate Displaced(p: Policy, max: int, checks: seq<Check>, i: nat, j: nat, between: seq<nat>)
    requires i < j < |checks|
  {
    && |between| == max
    && (forall k | 0 <= k < |between| :: i < between[k] < j)
    && (forall k | 0 <= k < |between| :: PassesAt(p, max, checks, between[k]) && checks[between[k]].id != checks[i].id)
    && (forall k, l | 0 <= k < l < |between| :: checks[between[k]].id != checks[between[l]].id)
  }

  lemma {:induction false} PassedAfter(p: Policy, max: int, checks: seq<Check>, a: nat, b: nat)
    requires a < b < |Log(p, max, checks)|
    ensures var log := Log(p, max, checks); log[a] < log[b] && PassesAt(p, max, checks, log[b])
  {
    LogExact(p, max, checks);
    assert Log(p, max, checks)[b] in Log(p, max, checks);
  }

  /** The `max` checks that passed right after position a. */
  lemma {:induction false} Flood(p: Policy, max: int, checks: seq<Check>, a: nat, b: nat)
    requires max >= 1 && a + max < b < |Log(p, max, checks)|
    ensures var log := Log(p, max, checks);
            log[a] < log[b] && Displaced(p, max, checks, log[a], log[b], log[a + 1..a + max + 1])
  {
    var log := Log(p, max, checks);
    PassedAfter(p, max, checks, a, b);
    forall k | a < k <= a + max
      ensures log[a] < log[k] < log[b] && PassesAt(p, max, checks, log[k]) && checks[log[k]].id != checks[log[a]].id
    {
      PassedAfter(p, max, checks, a, k);
      PassedAfter(p, max, checks, k, b);
      NearbyIdsDiffer(p, max, checks, a, k);
    }
    forall k, l | a < k < l <= a + max ensures checks[log[k]].id != checks[log[l]].id {
      NearbyIdsDiffer(p, max, checks, k, l);
    }
  }

  /** An id passes twice only after `max` other, distinct ids passed in between. */
  lemma {:induction false} PassedTwice(p: Policy, max: int, checks: seq<Check>, i: nat, j: nat) returns (between: seq<nat>)
    requires max >= 1 && i < j < |checks| && checks[i].id == checks[j].id
    requires PassesAt(p, max, checks, i) && PassesAt(p, max, checks, j)
    ensures Displaced(p, max, checks, i, j, between)
  {
    var log := Log(p, max, checks);
    LogExact(p, max, checks);
    assert i in log && j in log;
    var a: nat, b: nat :| a < |log| && b < |log| && log[a] == i && log[b] == j;
    assert a < b;
    if b <= a + max {
      NearbyIdsDiffer(p, max, checks, a, b);
      assert false;
    }
    Flood(p, max, checks, a, b);
    between := log[a + 1..a + max + 1];
  }

  lemma Triangle(a: int, b: int, t: int, skew: real)
    requires Abs((a - t) as real / 1000.0) <= skew && Abs((b - t) as real / 1000.0) <= skew
    ensures (b - a) as real / 1000.0 <= 2.0 * skew
  {
    assert (b - a) as real / 1000.0 == (b - t) as real / 1000.0 - (a - t) as real / 1000.0;
  }

  /** A captured envelope that carries a timestamp gets in again only if `max` other ids pass first,
      and all of that has to happen within twice the allowed skew. */
  lemma {:induction false} ReplayNeedsAFloodInTime(p: Policy, max: int, checks: seq<Check>, i: nat, j: nat) returns (between: seq<nat>)
    requires max >= 1 && Monotone(checks) && i < j < |checks|
    requires checks[i].id == checks[j].id && checks[i].stamp == checks[j].stamp && checks[i].stamp.Millis?
    requires PassesAt(p, max, checks, i) && PassesAt(p, max, checks, j)
    ensures Displaced(p, max, checks, i, j, between)
    ensures forall k | 0 <= k < |between| ::
              (checks[between[k]].nowMs - checks[i].nowMs) as real / 1000.0 <= 2.0 * p.maxSkewS
    ensures (checks[j].nowMs - checks[i].nowMs) as real / 1000.0 <= 2.0 * p.maxSkewS
  {
    between := PassedTwice(p, max, checks, i, j);
    Triangle(checks[i].nowMs, checks[j].nowMs, checks[i].stamp.ms, p.maxSkewS);
    forall k | 0 <= k < |between|
      ensures (checks[between[k]].nowMs - checks[i].nowMs) as real / 1000.0 <= 2.0 * p.maxSkewS
    {
      assert checks[between[k]].nowMs <= checks[j].nowMs;
    }
  }
}
