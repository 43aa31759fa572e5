/** A codec that keeps the three laws, so that no theorem about lawful codecs is empty. */
module CodecWitness {
  import opened Bytes
  import opened Trace

  /** n times A, then B. */
  function Unary(n: nat): (s: bytes)
    ensures forall i | 0 <= i < |s| :: s[i] in {65, 66}
  {
    if n == 0 then [66] else [65] + Unary(n - 1)
  }

  function Encode(ns: seq<nat>): (s: bytes)
    ensures forall i | 0 <= i < |s| :: s[i] in {65, 66}
  {
    if ns == [] then [] else Unary(ns[0]) + Encode(ns[1..])
  }

  lemma {:induction false} UnaryInjective(m: nat, s: bytes, n: nat, t: bytes)
    requires Unary(m) + s == Unary(n) + t
    ensures m == n && s == t
  {
    var left, right := Unary(m) + s, Unary(n) + t;
    assert left[0] == right[0];
    if m == 0 || n == 0 {
      assert s == left[1..] && t == right[1..];
    } else {
      assert left[1..] == Unary(m - 1) + s && right[1..] == Unary(n - 1) + t;
      UnaryInjective(m - 1, s, n - 1, t);
    }
  }

  lemma {:induction false} EncodeInjective(a: seq<nat>, b: seq<nat>)
    requires Encode(a) == Encode(b)
    ensures a == b
  {
    if a == [] || b == [] {
    } else {
      UnaryInjective(a[0], Encode(a[1..]), b[0], Encode(b[1..]));
      EncodeInjective(a[1..], b[1..]);
      assert a == [a[0]] + a[1..] && b == [b[0]] + b[1..];
    }
  }

  function Text(corr: Option<string>): seq<nat> {
    if corr.None? then [] else seq(|corr.value|, i requires 0 <= i < |corr.value| => corr.value[i] as nat)
  }

  function Preimage(d: Digest): seq<nat> {
    if d.Sha256? then seq(|d.of|, i requires 0 <= i < |d.of| => d.of[i] as nat) else []
  }

  function Shape(r: Record): (s: seq<nat>)
    ensures |s| == 10
  {
    [ if r.body.kind.Intent? then 0 else 1,
      if r.body.corr.None? then 0 else 1,
      |Text(r.body.corr)|,
      r.body.rest,
      if r.seqNo < 0 then 1 else 0,
      if r.seqNo < 0 then -r.seqNo else r.seqNo,
      match r.prev { case Genesis => 0 case Sha256(_) => 1 case Foreign(_) => 2 },
      match r.prev { case Genesis => 0 case Sha256(of) => |of| case Foreign(id) => id },
      match r.note {
        case None => 0
        case Some(UnnumberedHistory) => 1
        case Some(HeadRecovered) => 2
        case Some(PartialPrevious) => 3
        case Some(OtherNote(_)) => 4
      },
      match r.note { case Some(OtherNote(id)) => id case _ => 0 } ]
  }

  function Tokens(r: Record): seq<nat> {
    Shape(r) + Text(r.body.corr) + Preimage(r.prev)
  }

  lemma TokensInjective(a: Record, b: Record)
    requires Tokens(a) == Tokens(b)
    ensures a == b
  {
    assert Shape(a) == Tokens(a)[..10] == Tokens(b)[..10] == Shape(b);
    assert forall i | 0 <= i < 10 :: Shape(a)[i] == Shape(b)[i];
    var n := |Text(a.body.corr)|;
    assert Shape(a)[2] == Shape(b)[2];
    assert Text(a.body.corr) == Tokens(a)[10..10 + n] == Tokens(b)[10..10 + n] == Text(b.body.corr);
    assert Preimage(a.prev) == Tokens(a)[10 + n..] == Tokens(b)[10 + n..] == Preimage(b.prev);
    assert Shape(a)[0] == Shape(b)[0] && Shape(a)[1] == Shape(b)[1];
    TextInjective(a.body.corr, b.body.corr);
    assert Shape(a)[3] == Shape(b)[3];
    assert Shape(a)[4] == Shape(b)[4] && Shape(a)[5] == Shape(b)[5];
    assert Shape(a)[6] == Shape(b)[6] && Shape(a)[7] == Shape(b)[7];
    PreimageInjective(a.prev, b.prev);
    assert Shape(a)[8] == Shape(b)[8] && Shape(a)[9] == Shape(b)[9];
    assert a.note == b.note;
  }

  lemma TextInjective(a: Option<string>, b: Option<string>)
    requires Text(a) == Text(b) && a.None? == b.None?
    ensures a == b
  {
    if a.Some? {
      assert |Text(a)| == |a.value| && |Text(b)| == |b.value|;
      forall i | 0 <= i < |a.value| ensures a.value[i] == b.value[i] {
        assert Text(a)[i] == Text(b)[i];
      }
      assert a.value == b.value;
    }
  }

  lemma PreimageInjective(a: Digest, b: Digest)
    requires Preimage(a) == Preimage(b)
    requires a.Genesis? == b.Genesis? && a.Sha256? == b.Sha256?
    requires a.Foreign? ==> b.Foreign? && a.id == b.id
    ensures a == b
  {
    if a.Sha256? {
      forall i | 0 <= i < |a.of| ensures a.of[i] == b.of[i] {
        assert Preimage(a)[i] == Preimage(b)[i];
      }
    }
  }

  function Canon(r: Record): bytes {
    [123] + Encode(Tokens(r)) + [125]
  }

  ghost function Parse(s: bytes): Parsed {
    if exists r :: Canon(r) == s then
      var r :| Canon(r) == s;
      Object(FieldsOf(r))
    else NotJson
  }

  lemma CanonInjective(a: Record, b: Record)
    requires Canon(a) == Canon(b)
    ensures a == b
  {
    assert Encode(Tokens(a)) == Canon(a)[1..|Canon(a)| - 1];
    assert Encode(Tokens(b)) == Canon(b)[1..|Canon(b)| - 1];
    EncodeInjective(Tokens(a), Tokens(b));
    TokensInjective(a, b);
  }

  /** The closing brace stands at the end of a record and nowhere else. */
  lemma CutDiffers(r: Record, k: nat, other: Record)
    requires k < |Canon(r)|
    ensures Canon(r)[..k] != Canon(other)
  {
    assert forall i | 0 < i < k :: Canon(r)[i] == Encode(Tokens(r))[i - 1];
    assert forall i | 0 <= i < k :: Canon(r)[..k][i] != 125;
    assert Canon(other)[|Canon(other)| - 1] == 125;
  }

  lemma ParseCanon(r: Record)
    ensures Parse(Canon(r)) == Object(FieldsOf(r))
  {
    forall other | Canon(other) == Canon(r) ensures other == r {
      CanonInjective(other, r);
    }
  }

  lemma LawfulCodecExists() returns (c: Codec)
    ensures c.Lawful()
  {
    c := Codec(Canon, s => Parse(s));
    forall r ensures c.parse(c.canon(r)) == Object(FieldsOf(r)) {
      ParseCanon(r);
    }
    forall r ensures c.canon(r) != [] && !IsSpace(c.canon(r)[0]) && !HasNewline(c.canon(r)) {
    }
    forall r, k: nat {:trigger c.canon(r)[..k]} | k < |c.canon(r)| ensures c.parse(c.canon(r)[..k]) == NotJson {
      forall other ensures Canon(r)[..k] != Canon(other) {
        CutDiffers(r, k, other);
      }
    }
  }
}
