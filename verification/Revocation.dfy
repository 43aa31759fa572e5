/** The TTL cache in front of the revocation resolver. */
module Revocation {
  import opened Trace

  /** What the resolver answers: a verdict, "cannot tell", or an exception. */
  datatype Answer = Says(revoked: bool) | CannotTell | Raises

  datatype Result = Verdict(revoked: bool) | Unresolvable | Failed

  datatype Cached = Cached(at: real, revoked: bool)

  type Cache = map<string, Cached>

  predicate Hit(cache: Cache, ttl: real, kid: string, now: real) {
    kid in cache && now - cache[kid].at < ttl
  }

  function Looked(cache: Cache, ttl: real, kid: string, now: real, answer: Answer): Result {
    if Hit(cache, ttl, kid, now) then Verdict(cache[kid].revoked)
    else match answer
      case Says(revoked) => Verdict(revoked)
      case CannotTell => Unresolvable
      case Raises => Failed
  }

  function CacheAfter(cache: Cache, ttl: real, kid: string, now: real, answer: Answer): Cache {
    if !Hit(cache, ttl, kid, now) && answer.Says? then cache[kid := Cached(now, answer.revoked)] else cache
  }

  class RevocationCache {
    const ttl: real
    var cache: Cache

    constructor (ttl: real)
      ensures this.ttl == ttl && cache == map[]
    {
      this.ttl := ttl;
      cache := map[];
    }

    /** `is_revoked`; `answer` is what the resolver gives if it is asked now. */
    method IsRevoked(kid: string, now: real, answer: Answer) returns (r: Result)
      modifies this
      ensures r == Looked(old(cache), ttl, kid, now, answer)
      ensures cache == CacheAfter(old(cache), ttl, kid, now, answer)
      ensures kid in old(cache) && old(cache)[kid].at > now - ttl ==>
                r == Verdict(old(cache)[kid].revoked) && cache == old(cache)
      ensures !(kid in old(cache) && old(cache)[kid].at > now - ttl) ==>
                && (r.Failed? <==> answer == Raises) && (r.Unresolvable? <==> answer == CannotTell)
                && (forall revoked :: r == Verdict(revoked) <==> answer == Says(revoked))
                && cache == if answer.Says? then old(cache)[kid := Cached(now, answer.revoked)] else old(cache)
    {
      if kid in cache && now - cache[kid].at < ttl {
        return Verdict(cache[kid].revoked);
      }
      if answer.Raises? {
        return Failed;
      }
      if answer.CannotTell? {
        return Unresolvable;
      }
      cache := cache[kid := Cached(now, answer.revoked)];
      return Verdict(answer.revoked);
    }
  }

  // ---- runs --------------------------------------------------------------------------------

  datatype Call = Call(kid: string, now: real, answer: Answer)

  function CacheOf(ttl: real, calls: seq<Call>): Cache {
    if calls == [] then map[]
    else
      var last := calls[|calls| - 1];
      CacheAfter(CacheOf(ttl, calls[..|calls| - 1]), ttl, last.kid, last.now, last.answer)
  }

  function ResultAt(ttl: real, calls: seq<Call>, i: nat): Result
    requires i < |calls|
  {
    Looked(CacheOf(ttl, calls[..i]), ttl, calls[i].kid, calls[i].now, calls[i].answer)
  }

  /** Call k put this verdict about this kid into the cache. */
  predicate Gave(calls: seq<Call>, k: nat, kid: string, entry: Cached) {
    k < |calls| && calls[k] == Call(kid, entry.at, Says(entry.revoked))
  }

  /** Every cached verdict is one the resolver gave at the time noted beside it. */
  lemma {:induction false} CacheIsGiven(ttl: real, calls: seq<Call>, kid: string) returns (k: nat)
    requires kid in CacheOf(ttl, calls)
    ensures Gave(calls, k, kid, CacheOf(ttl, calls)[kid])
  {
    var front, last := calls[..|calls| - 1], calls[|calls| - 1];
    if last.kid == kid && last.answer.Says? && !Hit(CacheOf(ttl, front), ttl, kid, last.now) {
      k := |front|;
    } else {
      k := CacheIsGiven(ttl, front, kid);
    }
  }

  /** Every verdict returned is one the resolver gave for that kid now, or less than the TTL ago. */
  lemma VerdictsAreRecent(ttl: real, calls: seq<Call>, i: nat) returns (k: nat)
    requires i < |calls| && ResultAt(ttl, calls, i).Verdict?
    ensures k <= i && calls[k].kid == calls[i].kid
    ensures calls[k].answer == Says(ResultAt(ttl, calls, i).revoked)
    ensures k < i ==> calls[i].now - calls[k].now < ttl
  {
    if Hit(CacheOf(ttl, calls[..i]), ttl, calls[i].kid, calls[i].now) {
      k := CacheIsGiven(ttl, calls[..i], calls[i].kid);
    } else {
      k := i;
    }
  }

  /** A revocation takes effect within one TTL: if from time `from` on the resolver never again
      clears a kid, no call at `from` + TTL or later lets it through. */
  lemma RevocationTakesEffect(ttl: real, calls: seq<Call>, kid: string, from: real, i: nat)
    requires forall k | 0 <= k < |calls| && calls[k].kid == kid && calls[k].now >= from :: calls[k].answer != Says(false)
    requires i < |calls| && calls[i].kid == kid && calls[i].now >= from && calls[i].now >= from + ttl
    ensures ResultAt(ttl, calls, i) != Verdict(false)
  {
    if ResultAt(ttl, calls, i) == Verdict(false) {
      var k := VerdictsAreRecent(ttl, calls, i);
      assert false;
    }
  }

  /** The bound is tight: a verdict given just before `from` is still returned just inside the TTL. */
  lemma StaleInsideTheTtl(ttl: real, kid: string, t: real, later: real)
    requires 0.0 <= later < ttl
    ensures ResultAt(ttl, [Call(kid, t, Says(false)), Call(kid, t + later, Says(true))], 1) == Verdict(false)
  {
    var calls := [Call(kid, t, Says(false)), Call(kid, t + later, Says(true))];
    assert calls[..1][..0] == [];
    assert calls[..1] == [Call(kid, t, Says(false))];
    assert CacheOf(ttl, []) == map[];
    assert CacheOf(ttl, calls[..1])[kid] == Cached(t, false);
  }
}
