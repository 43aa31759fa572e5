/** The hash-linked audit chain and the loop that checks an exported one. */
module Audit {
  import opened Trace

  /** The hash of an entry's canonical bytes, idealised: it determines the entry and is never the
      genesis value. `Unrelated` is any other string a tampered bundle may hold. */
  datatype EntryHash = Zero | HashOf(entry: Linked) | Unrelated(id: nat)

  /** What a caller hands to `append`; `rest` stands for the fields no check reads. */
  datatype Content = Content(msgId: string, kind: Kind, intentHash: Option<EntryHash>, rest: nat)

  datatype Linked = Linked(content: Content, prev: EntryHash)

  datatype Entry = Entry(content: Content, prev: EntryHash, hash: EntryHash)

  function TailHash(entries: seq<Entry>): EntryHash {
    if entries == [] then Zero else entries[|entries| - 1].hash
  }

  function Stored(entries: seq<Entry>, content: Content): Entry {
    var prev := TailHash(entries);
    Entry(content, prev, HashOf(Linked(content, prev)))
  }

  /** Every entry links to the one before it and carries its own hash. */
  ghost predicate Accepted(entries: seq<Entry>) {
    forall i | 0 <= i < |entries| ::
      entries[i].prev == TailHash(entries[..i]) && entries[i].hash == HashOf(Linked(entries[i].content, entries[i].prev))
  }

  lemma AcceptedAppend(entries: seq<Entry>, content: Content)
    requires Accepted(entries)
    ensures Accepted(entries + [Stored(entries, content)])
  {
    var all := entries + [Stored(entries, content)];
    forall i | 0 <= i < |all|
      ensures all[i].prev == TailHash(all[..i]) && all[i].hash == HashOf(Linked(all[i].content, all[i].prev))
    {
      assert all[..i] == entries[..i];
      assert entries[..|entries|] == entries;
    }
  }

  lemma {:induction false} AcceptedFront(entries: seq<Entry>)
    requires Accepted(entries) && entries != []
    ensures var front, last := entries[..|entries| - 1], entries[|entries| - 1];
            Accepted(front) && last == Stored(front, last.content)
  {
    var front := entries[..|entries| - 1];
    assert forall i | 0 <= i < |front| :: entries[..i] == front[..i];
  }

  /** Two accepted chains that end in the same hash are the same chain. */
  lemma {:induction false} SameTailSameChain(a: seq<Entry>, b: seq<Entry>)
    requires Accepted(a) && Accepted(b) && TailHash(a) == TailHash(b)
    ensures a == b
  {
    if a != [] {
      AcceptedFront(a);
    }
    if b != [] {
      AcceptedFront(b);
    }
    if a != [] && b != [] {
      SameTailSameChain(a[..|a| - 1], b[..|b| - 1]);
    }
  }

  /** The gateway's chain. */
  class AuditChain {
    var entries: seq<Entry>

    constructor ()
      ensures entries == [] && Accepted(entries)
    {
      entries := [];
    }

    /** Returns the entry it stored, so that nobody has to read it off the tail. */
    method Append(content: Content) returns (stored: Entry)
      modifies this
      ensures stored == Stored(old(entries), content)
      ensures entries == old(entries) + [stored]
      ensures old(Accepted(entries)) ==> Accepted(entries)
    {
      var prev: EntryHash;
      if entries == [] {
        prev := Zero;
      } else {
        prev := entries[|entries| - 1].hash;
      }
      stored := Entry(content, prev, HashOf(Linked(content, prev)));
      if Accepted(entries) {
        AcceptedAppend(entries, content);
      }
      entries := entries + [stored];
    }
  }

  /** The chain half of `verify_audit_bundle`. */
  method VerifyChain(entries: seq<Entry>) returns (ok: bool)
    ensures ok <==> Accepted(entries)
  {
    var prevHash := Zero;
    for i := 0 to |entries|
      invariant prevHash == TailHash(entries[..i])
      invariant forall k | 0 <= k < i ::
        entries[k].prev == TailHash(entries[..k]) && entries[k].hash == HashOf(Linked(entries[k].content, entries[k].prev))
    {
      if entries[i].prev != prevHash {
        return false;
      }
      if HashOf(Linked(entries[i].content, entries[i].prev)) != entries[i].hash {
        return false;
      }
      prevHash := entries[i].hash;
      assert entries[..i + 1][i] == entries[i];
    }
    return true;
  }
}
