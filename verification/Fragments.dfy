/** Translating the fragments of an IPv4 datagram one by one. */
module Fragments {
  import opened Wrappers
  import opened Addresses
  import opened Checksums
  import opened IpHeaders
  import opened Translators
  import opened Rewrites

  function Payload(p: seq<byte>): seq<byte> {
    if |p| > 0 && Ihl(p) <= |p| then p[Ihl(p)..] else []
  }

  function FragmentOffset(p: seq<byte>): nat
    requires |p| >= 20
  {
    U16At(p, 6) % 0x2000 * 8
  }

  predicate IsV4(p: seq<byte>, src: Addr, dst: Addr, proto: byte) {
    |p| >= 20 && p[0] / 16 == 4 && ParseV4(p).Some? &&
    ParseV4(p).value.src == src && ParseV4(p).value.dst == dst && ParseV4(p).value.l4Proto == proto
  }

  /** `pieces`, in order, carry `body` between the same addresses; header lengths may differ. */
  predicate Carries(pieces: seq<seq<byte>>, at: nat, body: seq<byte>, src: Addr, dst: Addr, proto: byte) {
    if pieces == [] then body == []
    else
      var p := pieces[0];
      && IsV4(p, src, dst, proto)
      && FragmentOffset(p) == at
      && 0 < |Payload(p)| <= |body|
      && Payload(p) == body[..|Payload(p)|]
      && Carries(pieces[1..], at + |Payload(p)|, body[|Payload(p)|..], src, dst, proto)
  }

  function Reassembled(pieces: seq<seq<byte>>): seq<byte> {
    if pieces == [] then [] else Payload(pieces[0]) + Reassembled(pieces[1..])
  }

  /** What a rewrite does to the payload of a packet whose transport header is present. */
  function FixedPayload(body: seq<byte>, proto: byte, was: Addr, new_: Addr): (r: seq<byte>)
    requires was.fam == new_.fam
  {
    match ChecksumOffset(proto)
    case None => body
    case Some(co) =>
      if |body| < co + 2 then body
      else Splice(body, co, PutU16(Delta(U16At(body, co), Bytes(was), Bytes(new_))))
  }

  lemma V4Parses(p: seq<byte>, src: Addr, dst: Addr, proto: byte)
    requires IsV4(p, src, dst, proto)
    ensures ParseReturns(p) && Parse(p) == ParseV4(p) && Shape(p, Parse(p).value)
    ensures var h := Parse(p).value; h.v4 && h.src == src && h.dst == dst && h.l4Proto == proto
    ensures Parse(p).value.l4Off == if FragmentOffset(p) == 0 then Some(Ihl(p)) else None
  {
    ParsedShape(p);
  }

  lemma RewrittenPayload(p: seq<byte>, h: Header, toDst: bool, new_: Addr)
    requires Parsed(p, h) && h.v4 && new_.fam == IPv4
    ensures Shape(p, h)
    ensures Payload(Rewritten(p, h, toDst, new_))
      == (if h.l4Off.Some? then FixedPayload(Payload(p), h.l4Proto, Side(h, toDst), new_) else Payload(p))
  {
    ParsedShape(p);
    RewriteEffect(p, h, toDst, new_);
    var r := Rewritten(p, h, toDst, new_);
    EffectPayload(p, r, h, toDst, new_);
  }

  lemma EffectPayload(p: seq<byte>, r: seq<byte>, h: Header, toDst: bool, new_: Addr)
    requires Shape(p, h) && h.v4 && new_.fam == IPv4 && Effect(p, r, h, toDst, new_)
    ensures Ihl(r) == Ihl(p)
    ensures Payload(r) ==
      (if h.l4Off.Some? then FixedPayload(Payload(p), h.l4Proto, Side(h, toDst), new_) else Payload(p))
  {
    assert r[0] == p[0];
    var ihl, body, body2 := Ihl(p), Payload(p), Payload(r);
    if FieldAt(p, h).Some? {
      var co := ChecksumOffset(h.l4Proto).value;
      var v := Delta(U16At(body, co), Bytes(Side(h, toDst)), Bytes(new_));
      assert U16At(p, ihl + co) == U16At(body, co) && U16At(r, ihl + co) == U16At(body2, co);
      forall i | 0 <= i < |body| && !(co <= i < co + 2) ensures body2[i] == body[i] {
        assert !Touched(p, h, toDst, ihl + i);
      }
      FixedField(body, body2, co, v);
      assert FixedPayload(body, h.l4Proto, Side(h, toDst), new_) == Splice(body, co, PutU16(v));
    } else {
      forall i | 0 <= i < |body| ensures body2[i] == body[i] { assert !Touched(p, h, toDst, ihl + i); }
      assert body2 == body;
      assert h.l4Off.Some? ==> FixedPayload(body, h.l4Proto, Side(h, toDst), new_) == body;
    }
  }

  lemma FixedField(body: seq<byte>, body2: seq<byte>, co: nat, v: nat)
    requires co + 2 <= |body| == |body2| && v < 0x1_0000 && U16At(body2, co) == v
    requires forall i | 0 <= i < |body| && !(co <= i < co + 2) :: body2[i] == body[i]
    ensures body2 == Splice(body, co, PutU16(v))
  {
    U16Bytes(body2, co);
    SpliceIs(body, body2, co, PutU16(v));
  }

  /** Each piece leaves the translator as the packet beside it. */
  predicate AllTranslated(t: Translator, pieces: seq<seq<byte>>, out: seq<seq<byte>>, toLocal: bool)
    requires t.Valid()
  {
    |out| == |pieces| && forall i | 0 <= i < |pieces| :: OneTranslated(t, pieces[i], out[i], toLocal)
  }

  predicate OneTranslated(t: Translator, p: seq<byte>, q: seq<byte>, toLocal: bool)
    requires t.Valid()
  {
    ParseReturns(p) && Translated(t, p, toLocal) == Some(q)
  }

  lemma {:induction false} CarriesAll(pieces: seq<seq<byte>>, at: nat, body: seq<byte>, src: Addr, dst: Addr,
                                      proto: byte, i: nat)
    requires Carries(pieces, at, body, src, dst, proto) && i < |pieces|
    ensures IsV4(pieces[i], src, dst, proto) && (FragmentOffset(pieces[i]) == 0 <==> at == 0 && i == 0)
    decreases |pieces|
  {
    if i > 0 {
      var n := |Payload(pieces[0])|;
      CarriesAll(pieces[1..], at + n, body[n..], src, dst, proto, i - 1);
    }
  }

  lemma {:induction false} CarriesReassembles(pieces: seq<seq<byte>>, at: nat, body: seq<byte>, src: Addr, dst: Addr,
                                              proto: byte)
    requires Carries(pieces, at, body, src, dst, proto)
    ensures Reassembled(pieces) == body
    decreases |pieces|
  {
    if pieces != [] {
      var n := |Payload(pieces[0])|;
      CarriesReassembles(pieces[1..], at + n, body[n..], src, dst, proto);
      assert body == body[..n] + body[n..];
    }
  }

  lemma {:induction false} SamePayloads(a: seq<seq<byte>>, b: seq<seq<byte>>)
    requires |a| == |b| && forall i | 0 <= i < |a| :: Payload(a[i]) == Payload(b[i])
    ensures Reassembled(a) == Reassembled(b)
  {
    if a != [] { SamePayloads(a[1..], b[1..]); }
  }

  /** Piece by piece: the first is updated, the later ones keep their payload. */
  lemma {:induction false} Pieces(t: Translator, pieces: seq<seq<byte>>, src: Addr, dst: Addr, proto: byte,
                                  toLocal: bool)
      returns (out: seq<seq<byte>>)
    requires t.Valid() && NewAddr(t, if toLocal then dst else src, toLocal).Some?
    requires forall i | 0 <= i < |pieces| :: IsV4(pieces[i], src, dst, proto)
    ensures |out| == |pieces| && forall i | 0 <= i < |pieces| :: Done(t, pieces[i], out[i], toLocal)
  {
    out := [];
    for n := 0 to |pieces|
      invariant |out| == n && forall i | 0 <= i < n :: Done(t, pieces[i], out[i], toLocal)
    {
      var q := OnePiece(t, pieces[n], src, dst, proto, toLocal);
      out := out + [q];
    }
  }

  /** The piece is translated, and unless it is the first it keeps its payload. */
  predicate Done(t: Translator, p: seq<byte>, q: seq<byte>, toLocal: bool)
    requires t.Valid()
  {
    OneTranslated(t, p, q, toLocal) && LaterKept(p, q)
  }

  predicate LaterKept(p: seq<byte>, q: seq<byte>) {
    |p| >= 20 && (FragmentOffset(p) != 0 ==> Payload(q) == Payload(p))
  }

  /** One piece through the translator: only a first piece (offset zero) has its payload updated. */
  lemma OnePiece(t: Translator, p: seq<byte>, src: Addr, dst: Addr, proto: byte, toLocal: bool) returns (q: seq<byte>)
    requires t.Valid() && IsV4(p, src, dst, proto)
    requires NewAddr(t, if toLocal then dst else src, toLocal).Some?
    ensures Done(t, p, q, toLocal)
    ensures var was, now := if toLocal then dst else src, NewAddr(t, if toLocal then dst else src, toLocal).value;
      && now.fam == was.fam
      && Payload(q) ==
           if now != was && FragmentOffset(p) == 0 then FixedPayload(Payload(p), proto, was, now) else Payload(p)
  {
    V4Parses(p, src, dst, proto);
    var was := if toLocal then dst else src;
    NewAddrShape(t, was, toLocal);
    var now := NewAddr(t, was, toLocal).value;
    q := Translated(t, p, toLocal).value;
    if now != was { RewrittenPayload(p, Parse(p).value, toLocal, now); }
  }

  /** A whole datagram and its fragments reassemble to the same translated payload exactly
      when the transport checksum has nothing to change beyond the first piece: there is no
      such field, the first piece holds all of it, or the update leaves it as it is. */
  lemma FragmentsTranslateAlike(t: Translator, whole: seq<byte>, pieces: seq<seq<byte>>, src: Addr, dst: Addr,
                                proto: byte, toLocal: bool)
      returns (w: seq<byte>, out: seq<seq<byte>>)
    requires t.Valid() && IsV4(whole, src, dst, proto) && FragmentOffset(whole) == 0 && pieces != []
    requires Carries(pieces, 0, Payload(whole), src, dst, proto)
    requires NewAddr(t, if toLocal then dst else src, toLocal).Some?
    ensures OneTranslated(t, whole, w, toLocal) && AllTranslated(t, pieces, out, toLocal)
    ensures Reassembled(out) == Payload(w) <==>
      var was, now := if toLocal then dst else src, NewAddr(t, if toLocal then dst else src, toLocal).value;
      now == was || now.fam != was.fam || FirstPieceSuffices(Payload(whole), |Payload(pieces[0])|, proto, was, now)
  {
    var was := if toLocal then dst else src;
    var now := NewAddr(t, was, toLocal).value;
    var body := Payload(whole);
    var n := |Payload(pieces[0])|;
    forall i | 0 <= i < |pieces|
      ensures IsV4(pieces[i], src, dst, proto) && (FragmentOffset(pieces[i]) == 0 <==> i == 0)
    {
      CarriesAll(pieces, 0, body, src, dst, proto, i);
    }
    w := OnePiece(t, whole, src, dst, proto, toLocal);
    out := Pieces(t, pieces, src, dst, proto, toLocal);
    var q := OnePiece(t, pieces[0], src, dst, proto, toLocal);
    assert OneTranslated(t, pieces[0], out[0], toLocal);
    SamePayloads(out[1..], pieces[1..]);
    CarriesReassembles(pieces[1..], n, body[n..], src, dst, proto);
    if now == was {
      assert body == body[..n] + body[n..];
    } else {
      FixSplit(body, n, proto, was, now);
    }
  }

  predicate FirstPieceSuffices(body: seq<byte>, n: nat, proto: byte, was: Addr, now: Addr)
    requires was.fam == now.fam
  {
    match ChecksumOffset(proto)
    case None => true
    case Some(co) =>
      |body| < co + 2 || n >= co + 2 || Delta(U16At(body, co), Bytes(was), Bytes(now)) == U16At(body, co)
  }

  lemma FixSplit(body: seq<byte>, n: nat, proto: byte, was: Addr, now: Addr)
    requires was.fam == now.fam && n <= |body|
    ensures FixedPayload(body[..n], proto, was, now) + body[n..] == FixedPayload(body, proto, was, now)
      <==> FirstPieceSuffices(body, n, proto, was, now)
  {
    assert body[..n] + body[n..] == body;
    if ChecksumOffset(proto).Some? && |body| >= ChecksumOffset(proto).value + 2 {
      var co := ChecksumOffset(proto).value;
      var d := Delta(U16At(body, co), Bytes(was), Bytes(now));
      if n >= co + 2 {
        assert U16At(body[..n], co) == U16At(body, co);
        SpliceFront(body, n, co, PutU16(d));
      } else {
        SpliceChanges(body, co, d);
      }
    }
  }

  lemma SpliceFront(body: seq<byte>, n: nat, at: nat, w: seq<byte>)
    requires at + |w| <= n <= |body|
    ensures Splice(body[..n], at, w) + body[n..] == Splice(body, at, w)
  {
  }

  lemma SpliceChanges(body: seq<byte>, at: nat, d: nat)
    requires at + 2 <= |body| && d < 0x1_0000
    ensures Splice(body, at, PutU16(d)) == body <==> d == U16At(body, at)
  {
    SpliceU16(body, at, d);
    if d == U16At(body, at) {
      assert PutU16(d) == [body[at], body[at + 1]];
    }
  }

  /** UDP always survives: a first piece is a multiple of eight bytes and its checksum ends at the eighth. */
  lemma UdpFirstPieceSuffices(body: seq<byte>, n: nat, was: Addr, now: Addr)
    requires was.fam == now.fam && 0 < n <= |body| && (n % 8 == 0 || n == |body|)
    ensures FirstPieceSuffices(body, n, 17, was, now)
  {
  }

  /** TCP does not: a first piece of eight bytes ends before the checksum, and unless the two addresses have
      congruent word sums the datagram put together again is not the translated one. */
  lemma TcpFragmentsBreak(t: Translator, whole: seq<byte>, pieces: seq<seq<byte>>, src: Addr, dst: Addr, toLocal: bool)
      returns (w: seq<byte>, out: seq<seq<byte>>)
    requires t.Valid() && IsV4(whole, src, dst, 6) && FragmentOffset(whole) == 0 && |Payload(whole)| >= 20
    requires pieces != [] && Carries(pieces, 0, Payload(whole), src, dst, 6) && |Payload(pieces[0])| == 8
    requires var was := if toLocal then dst else src;
      && NewAddr(t, was, toLocal).Some?
      && !Congruent(WordSum(Bytes(was)), WordSum(Bytes(NewAddr(t, was, toLocal).value)))
    ensures OneTranslated(t, whole, w, toLocal) && AllTranslated(t, pieces, out, toLocal)
    ensures Reassembled(out) != Payload(w)
  {
    var was := if toLocal then dst else src;
    NewAddrShape(t, was, toLocal);
    w, out := FragmentsTranslateAlike(t, whole, pieces, src, dst, 6, toLocal);
    DeltaMoves(U16At(Payload(whole), 16), Bytes(was), Bytes(NewAddr(t, was, toLocal).value));
  }

  lemma DeltaMoves(cur: nat, was: seq<byte>, now: seq<byte>)
    requires cur < 0x1_0000 && |was| == |now| && |was| % 2 == 0 && !Congruent(WordSum(was), WordSum(now))
    ensures Delta(cur, was, now) != cur
  {
    DeltaCongruent(cur, was, now);
    if Delta(cur, was, now) == cur { CancelMod(cur, WordSum(was), WordSum(now)); }
  }

  lemma CancelMod(c: nat, a: nat, b: nat)
    requires (c + a) % 65535 == (c + b) % 65535
    ensures a % 65535 == b % 65535
  {
    ShiftMod(b, (c + a) / 65535 - (c + b) / 65535);
  }

  /** As from 10.201.0.5 to 192.168.1.5. */
  lemma ExampleAddressesBreak(was: Addr, now: Addr)
    requires Bytes(was) == [10, 201, 0, 5] && Bytes(now) == [192, 168, 1, 5]
    ensures !Congruent(WordSum(Bytes(was)), WordSum(Bytes(now)))
  {
    ExampleSums();
  }
}
