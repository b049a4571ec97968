/** The in-place rewrite of one address of a packet, and what it keeps. */
module Rewrites {
  import opened Wrappers
  import opened Addresses
  import opened Checksums
  import opened IpHeaders
  import opened Translators

  /** Offset of the transport checksum in its header; only these cover a pseudo-header. */
  function ChecksumOffset(proto: byte): (r: Option<nat>)
    ensures r.Some? ==> r.value % 2 == 0 && r.value >= 2
  {
    if proto == 6 then Some(16)        // TCP
    else if proto == 17 then Some(6)   // UDP
    else if proto == 58 then Some(2)   // ICMPv6
    else None
  }

  /** The checksum field this packet holds, if it holds one. */
  function FieldAt(pkt: seq<byte>, h: Header): (r: Option<nat>)
    ensures r.Some? ==>
      && h.l4Off.Some? && ChecksumOffset(h.l4Proto).Some?
      && r.value == h.l4Off.value + ChecksumOffset(h.l4Proto).value && r.value + 2 <= |pkt|
  {
    if h.l4Off.None? || ChecksumOffset(h.l4Proto).None? then None
    else
      var at := h.l4Off.value + ChecksumOffset(h.l4Proto).value;
      if |pkt| >= at + 2 then Some(at) else None
  }

  function WithHeaderChecksum(p: seq<byte>): (r: seq<byte>)
    requires |p| >= 20 && Ihl(p) <= |p|
    ensures |r| == |p|
  {
    var z := Splice(p, 10, [0, 0]);
    Splice(z, 10, PutU16(Checksum(z[..Ihl(p)])))
  }

  function FixTransport(p: seq<byte>, h: Header, was: Addr, new_: Addr): (r: seq<byte>)
    requires was.fam == new_.fam
    ensures |r| == |p|
  {
    match FieldAt(p, h)
    case None => p
    case Some(at) => Splice(p, at, PutU16(Delta(U16At(p, at), Bytes(was), Bytes(new_))))
  }

  /** Packets together with the header `Parse` found in them. */
  predicate Parsed(pkt: seq<byte>, h: Header) {
    ParseReturns(pkt) && Parse(pkt) == Some(h)
  }

  function Side(h: Header, toDst: bool): Addr { if toDst then h.dst else h.src }
  function SideOff(h: Header, toDst: bool): nat { if toDst then h.dstOff else h.srcOff }
  function WithSide(h: Header, toDst: bool, a: Addr): Header {
    if toDst then h.(dst := a) else h.(src := a)
  }

  /** The address and, for IPv4, the header checksum. */
  function WithAddress(pkt: seq<byte>, h: Header, toDst: bool, new_: Addr): (r: seq<byte>)
    requires Shape(pkt, h) && new_.fam == h.Fam()
    ensures |r| == |pkt|
  {
    var p1 := Splice(pkt, SideOff(h, toDst), Bytes(new_));
    if h.v4 then WithHeaderChecksum(p1) else p1
  }

  /** `rewriteAddr` on values. */
  function Rewritten(pkt: seq<byte>, h: Header, toDst: bool, new_: Addr): (r: seq<byte>)
    requires Shape(pkt, h) && new_.fam == h.Fam()
    ensures |r| == |pkt|
  {
    FixTransport(WithAddress(pkt, h, toDst, new_), h, Side(h, toDst), new_)
  }

  // ------------------------------------------------------------- what is kept

  /** The only bytes a rewrite may touch. */
  predicate Touched(pkt: seq<byte>, h: Header, toDst: bool, i: nat) {
    (SideOff(h, toDst) <= i < SideOff(h, toDst) + h.Fam().Size()) ||
    (h.v4 && 10 <= i < 12) ||
    (FieldAt(pkt, h).Some? && FieldAt(pkt, h).value <= i < FieldAt(pkt, h).value + 2)
  }

  /** All a rewrite does, and all it leaves alone. */
  predicate Effect(pkt: seq<byte>, r: seq<byte>, h: Header, toDst: bool, new_: Addr)
    requires Shape(pkt, h) && new_.fam == h.Fam()
  {
    && |r| == |pkt|
    && (forall i | 0 <= i < |pkt| && !Touched(pkt, h, toDst, i) :: r[i] == pkt[i])
    && r[SideOff(h, toDst)..SideOff(h, toDst) + h.Fam().Size()] == Bytes(new_)
    && (FieldAt(pkt, h).Some? ==>
          var at := FieldAt(pkt, h).value;
          U16At(r, at) == Delta(U16At(pkt, at), Bytes(Side(h, toDst)), Bytes(new_)))
    && (h.v4 ==> Verifies(WordSum(r[..Ihl(pkt)])))
  }

  lemma AddressEffect(pkt: seq<byte>, h: Header, toDst: bool, new_: Addr)
    requires Shape(pkt, h) && new_.fam == h.Fam()
    ensures var r, off, n := WithAddress(pkt, h, toDst, new_), SideOff(h, toDst), h.Fam().Size();
      && (forall i | 0 <= i < |pkt| && !(off <= i < off + n) && !(h.v4 && 10 <= i < 12) :: r[i] == pkt[i])
      && r[off..off + n] == Bytes(new_)
      && (h.v4 ==> Verifies(WordSum(r[..Ihl(pkt)])))
  {
    var off, n := SideOff(h, toDst), h.Fam().Size();
    var p1 := Splice(pkt, off, Bytes(new_));
    assert p1[off..off + n] == Bytes(new_);
    if h.v4 {
      assert Ihl(p1) == Ihl(pkt);
      HeaderChecksumVerifies(p1);
      assert WithHeaderChecksum(p1)[off..off + n] == p1[off..off + n];
    }
  }

  lemma RewriteEffect(pkt: seq<byte>, h: Header, toDst: bool, new_: Addr)
    requires Shape(pkt, h) && new_.fam == h.Fam()
    ensures Effect(pkt, Rewritten(pkt, h, toDst, new_), h, toDst, new_)
  {
    AddressEffect(pkt, h, toDst, new_);
    TransportEffect(pkt, WithAddress(pkt, h, toDst, new_), h, toDst, new_);
  }

  lemma TransportEffect(pkt: seq<byte>, p2: seq<byte>, h: Header, toDst: bool, new_: Addr)
    requires Shape(pkt, h) && new_.fam == h.Fam() && |p2| == |pkt|
    requires var off, n := SideOff(h, toDst), h.Fam().Size();
      && (forall i | 0 <= i < |pkt| && !(off <= i < off + n) && !(h.v4 && 10 <= i < 12) :: p2[i] == pkt[i])
      && p2[off..off + n] == Bytes(new_)
      && (h.v4 ==> Verifies(WordSum(p2[..Ihl(pkt)])))
    ensures Effect(pkt, FixTransport(p2, h, Side(h, toDst), new_), h, toDst, new_)
  {
    var off, n := SideOff(h, toDst), h.Fam().Size();
    var r := FixTransport(p2, h, Side(h, toDst), new_);
    if FieldAt(pkt, h).Some? {
      var at := FieldAt(pkt, h).value;
      assert U16At(p2, at) == U16At(pkt, at);
      var d := Delta(U16At(pkt, at), Bytes(Side(h, toDst)), Bytes(new_));
      assert r == Splice(p2, at, PutU16(d));
      SpliceU16(p2, at, d);
      SpliceElsewhere(p2, at, PutU16(d), off, off + n);
      if h.v4 { SpliceElsewhere(p2, at, PutU16(d), 0, Ihl(pkt)); }
    }
  }

  /** Bytes `lo..hi` of `b` read the same in `c`. */
  predicate Agree(b: seq<byte>, c: seq<byte>, lo: nat, hi: nat) {
    |b| == |c| && forall i | lo <= i < hi && i < |b| :: b[i] == c[i]
  }

  /** The walk depends only on what lies before the transport header and its first two bytes. */
  lemma {:induction false} WalkLocal(b: seq<byte>, c: seq<byte>, nh: byte, off: nat, hi: nat)
    requires off <= |b| && Walk(b, nh, off).Some? && Agree(b, c, off, hi)
    requires Walk(b, nh, off).value.Transport? ==> hi >= Walk(b, nh, off).value.off + 2
    requires !Walk(b, nh, off).value.Transport? ==> hi >= |b|
    ensures Walk(c, nh, off) == Walk(b, nh, off)
    decreases |b| - off, if IsExt(nh) then 1 else 0
  {
    match Step(b, nh, off)
    case Stop(e) =>
      if nh == 44 && off + 8 <= |b| { assert c[off + 2] == b[off + 2] && c[off + 3] == b[off + 3]; }
    case At(nh', off') =>
      assert off + 1 < hi by { StepReads(b, nh, off, hi); }
      assert c[off] == b[off] && c[off + 1] == b[off + 1];
      if nh == 44 { StepReads(b, nh, off, hi); assert c[off + 2] == b[off + 2] && c[off + 3] == b[off + 3]; }
      WalkLocal(b, c, nh', off', hi);
  }

  lemma StepReads(b: seq<byte>, nh: byte, off: nat, hi: nat)
    requires off <= |b| && Walk(b, nh, off).Some? && Step(b, nh, off).At?
    requires Walk(b, nh, off).value.Transport? ==> hi >= Walk(b, nh, off).value.off + 2
    requires !Walk(b, nh, off).value.Transport? ==> hi >= |b|
    ensures off + 1 < hi && (nh == 44 ==> off + 8 <= hi)
  {
    var c := Step(b, nh, off);
    assert Walk(b, nh, off) == Walk(b, c.nh, c.off);
  }

  /** A rewritten packet parses as before, with the one address replaced. */
  lemma RewriteParses(pkt: seq<byte>, h: Header, toDst: bool, new_: Addr)
    requires Parsed(pkt, h) && new_.fam == h.Fam() && new_.Valid()
    ensures Shape(pkt, h) && Parsed(Rewritten(pkt, h, toDst, new_), WithSide(h, toDst, new_))
  {
    ParsedShape(pkt);
    RewriteEffect(pkt, h, toDst, new_);
    var r := Rewritten(pkt, h, toDst, new_);
    AddressBytes(pkt, r, h, toDst, new_);
    if h.v4 { EffectParsesV4(pkt, r, h, toDst, new_); } else { EffectParsesV6(pkt, r, h, toDst, new_); }
  }

  lemma EffectParsesV4(pkt: seq<byte>, r: seq<byte>, h: Header, toDst: bool, new_: Addr)
    requires Parsed(pkt, h) && Shape(pkt, h) && h.v4 && new_.fam == h.Fam() && Effect(pkt, r, h, toDst, new_)
    requires FromBytes(IPv4, r[12..16]) == WithSide(h, toDst, new_).src
    requires FromBytes(IPv4, r[16..20]) == WithSide(h, toDst, new_).dst
    ensures Parsed(r, WithSide(h, toDst, new_))
  {
    assert r[0] == pkt[0] && r[6] == pkt[6] && r[7] == pkt[7] && r[9] == pkt[9];
  }

  lemma EffectParsesV6(pkt: seq<byte>, r: seq<byte>, h: Header, toDst: bool, new_: Addr)
    requires Parsed(pkt, h) && Shape(pkt, h) && !h.v4 && new_.fam == h.Fam() && Effect(pkt, r, h, toDst, new_)
    requires FromBytes(IPv6, r[8..24]) == WithSide(h, toDst, new_).src
    requires FromBytes(IPv6, r[24..40]) == WithSide(h, toDst, new_).dst
    ensures Parsed(r, WithSide(h, toDst, new_))
  {
    assert r[0] == pkt[0] && r[6] == pkt[6];
    var w := Walk(pkt, pkt[6], 40).value;
    var hi := if w.Transport? then w.off + 2 else |pkt|;
    assert Agree(pkt, r, 40, hi);
    WalkLocal(pkt, r, pkt[6], 40, hi);
  }

  /** Both addresses as they stand in the rewritten packet. */
  lemma AddressBytes(pkt: seq<byte>, r: seq<byte>, h: Header, toDst: bool, new_: Addr)
    requires Shape(pkt, h) && new_.fam == h.Fam() && new_.Valid() && Effect(pkt, r, h, toDst, new_)
    ensures var n := h.Fam().Size();
      && FromBytes(h.Fam(), r[h.srcOff..h.srcOff + n]) == WithSide(h, toDst, new_).src
      && FromBytes(h.Fam(), r[h.dstOff..h.dstOff + n]) == WithSide(h, toDst, new_).dst
  {
    var n := h.Fam().Size();
    var other := SideOff(h, !toDst);
    forall i | other <= i < other + n ensures r[i] == pkt[i] { assert !Touched(pkt, h, toDst, i); }
    assert r[other..other + n] == pkt[other..other + n];
    AddrBytesRoundTrip(new_, Bytes(new_));
    AddrBytesRoundTrip(Side(h, !toDst), Bytes(Side(h, !toDst)));
  }

  lemma HeaderChecksumVerifies(p: seq<byte>)
    requires |p| >= 20 && 20 <= Ihl(p) <= |p|
    ensures Verifies(WordSum(WithHeaderChecksum(p)[..Ihl(p)]))
  {
    var ihl := Ihl(p);
    var z := Splice(p, 10, [0, 0])[..ihl];
    var f := PutU16(Checksum(z));
    assert WithHeaderChecksum(p)[..ihl] == Splice(z, 10, f);
    WordSumSplice(z, 10, f);
    assert z[10..12] == [0, 0];
    assert WordSum([0, 0]) == 0 by { assert [0, 0][2..] == []; }
    ComplementVerifies(WordSum(z));
  }

  // ------------------------------------------------- the transport checksum

  /** The pseudo-header of RFC 793/768 (IPv4) and section 8.1 of RFC 8200 (IPv6), then the segment. */
  function Pseudo(src: Addr, dst: Addr, proto: byte, seg: seq<byte>): seq<byte>
    requires |seg| < 0x1_0000
  {
    Bytes(src) + Bytes(dst) +
    (if src.fam.IPv4? then [0, proto] + PutU16(|seg|) else [0, 0] + PutU16(|seg|) + [0, 0, 0, proto]) + seg
  }

  function CoverSum(src: Addr, dst: Addr, proto: byte, seg: seq<byte>): nat {
    WordSum(Bytes(src)) + WordSum(Bytes(dst)) + proto + |seg| + WordSum(seg)
  }

  lemma PseudoSum(src: Addr, dst: Addr, proto: byte, seg: seq<byte>)
    requires |seg| < 0x1_0000 && src.fam == dst.fam
    ensures WordSum(Pseudo(src, dst, proto, seg)) == CoverSum(src, dst, proto, seg)
  {
    var l := PutU16(|seg|);
    assert WordSum([0, proto]) == proto by { assert [0, proto][2..] == []; }
    assert WordSum([0, 0]) == 0 by { assert [0, 0][2..] == []; }
    WordSumAppend([0, proto], l);
    WordSumAppend([0, 0], l);
    assert [0, 0, 0, proto] == [0, 0] + [0, proto];
    WordSumAppend([0, 0], [0, proto]);
    WordSumAppend([0, 0] + l, [0, 0, 0, proto]);
    var mid := if src.fam.IPv4? then [0, proto] + l else [0, 0] + l + [0, 0, 0, proto];
    WordSumAppend(Bytes(src), Bytes(dst));
    WordSumAppend(Bytes(src) + Bytes(dst), mid);
    WordSumAppend(Bytes(src) + Bytes(dst) + mid, seg);
  }

  /** The transport segment runs from its header to `end` (the datagram's length field; the rest is padding). */
  predicate IsSegment(pkt: seq<byte>, h: Header, end: nat) {
    FieldAt(pkt, h).Some? && FieldAt(pkt, h).value + 2 <= end <= |pkt|
  }

  /** What the headers before the transport header put in the pseudo-header in place of the packet's
      destination (`true`) or source (`false`), `None` where the address itself stands. A Routing
      header or an IPv4 source route still to be followed puts the final destination there
      (section 8.1 of RFC 8200); where it keeps that address is its type's affair. */
  type Between = (bool, byte, seq<byte>, bool) -> Option<Addr>

  /** The bytes between the fixed header and the transport header. */
  function Chain(pkt: seq<byte>, h: Header): seq<byte> {
    var base := if h.v4 then 20 else 40;
    if h.l4Off.Some? && base <= h.l4Off.value <= |pkt| then pkt[base..h.l4Off.value] else []
  }

  function Replaced(pkt: seq<byte>, h: Header, far: Between, toDst: bool): Option<Addr>
    requires |pkt| >= 20
  {
    far(h.v4, if h.v4 then 0 else pkt[6], Chain(pkt, h), toDst)
  }

  /** The address in the pseudo-header. */
  function Covering(pkt: seq<byte>, h: Header, far: Between, toDst: bool): Addr
    requires |pkt| >= 20
  {
    match Replaced(pkt, h, far, toDst)
    case None => Side(h, toDst)
    case Some(a) => a
  }

  function Covered(pkt: seq<byte>, h: Header, end: nat, far: Between): nat
    requires IsSegment(pkt, h, end) && |pkt| >= 20
  {
    CoverSum(Covering(pkt, h, far, false), Covering(pkt, h, far, true), h.l4Proto, pkt[h.l4Off.value..end])
  }

  /** Everything covered except the checksum field itself. */
  function Rest(pkt: seq<byte>, h: Header, end: nat, far: Between): nat
    requires IsSegment(pkt, h, end) && |pkt| >= 20
  {
    FieldBelow(pkt, h, end);
    Covered(pkt, h, end, far) - U16At(pkt, FieldAt(pkt, h).value)
  }

  lemma FieldBelow(pkt: seq<byte>, h: Header, end: nat)
    requires IsSegment(pkt, h, end)
    ensures var seg, co := pkt[h.l4Off.value..end], ChecksumOffset(h.l4Proto).value;
      && U16At(pkt, FieldAt(pkt, h).value) == U16At(seg, co)
      && WordSum(seg) == WordSum(Splice(seg, co, [0, 0])) + U16At(seg, co)
  {
    var seg, co := pkt[h.l4Off.value..end], ChecksumOffset(h.l4Proto).value;
    WordSumSplice(seg, co, [0, 0]);
    var f := seg[co..co + 2];
    assert f[2..] == [] && [0, 0][2..] == [];
    assert WordSum(f) == U16At(seg, co) && WordSum([0, 0]) == 0;
  }

  /** A rewrite leaves the headers in between alone. */
  lemma ChainKept(pkt: seq<byte>, r: seq<byte>, h: Header, toDst: bool, new_: Addr, far: Between, side: bool)
    requires Shape(pkt, h) && new_.fam == h.Fam() && FieldAt(pkt, h).Some? && Effect(pkt, r, h, toDst, new_)
    ensures Replaced(r, WithSide(h, toDst, new_), far, side) == Replaced(pkt, h, far, side)
  {
    var base := if h.v4 then 20 else 40;
    forall i | base <= i < h.l4Off.value ensures r[i] == pkt[i] { assert !Touched(pkt, h, toDst, i); }
    if !h.v4 { assert !Touched(pkt, h, toDst, 6); }
    assert Chain(r, WithSide(h, toDst, new_)) == Chain(pkt, h);
  }

  /** How the covered sum moves under a rewrite: with the address, or not at all. */
  lemma EffectCovered(pkt: seq<byte>, r: seq<byte>, h: Header, toDst: bool, new_: Addr, end: nat, far: Between)
    requires Shape(pkt, h) && new_.fam == h.Fam() && IsSegment(pkt, h, end) && Effect(pkt, r, h, toDst, new_)
    ensures var h2 := WithSide(h, toDst, new_); IsSegment(r, h2, end) && FieldAt(r, h2) == FieldAt(pkt, h)
    ensures var h2 := WithSide(h, toDst, new_);
      if Replaced(pkt, h, far, toDst).Some? then Rest(r, h2, end, far) == Rest(pkt, h, end, far) > 0
      else Rewrites(Rest(pkt, h, end, far), Rest(r, h2, end, far), Bytes(Side(h, toDst)), Bytes(new_))
  {
    var h2 := WithSide(h, toDst, new_);
    SegmentKept(pkt, r, h, toDst, new_, end);
    RestIs(pkt, h, end, far);
    RestIs(r, h2, end, far);
    CoveringMoves(pkt, r, h, toDst, new_, far, toDst);
    CoveringMoves(pkt, r, h, toDst, new_, far, !toDst);
  }

  /** Of the addresses in the pseudo-header only the rewritten one moves, if it stands there. */
  lemma CoveringMoves(pkt: seq<byte>, r: seq<byte>, h: Header, toDst: bool, new_: Addr, far: Between, side: bool)
    requires Shape(pkt, h) && new_.fam == h.Fam() && FieldAt(pkt, h).Some? && Effect(pkt, r, h, toDst, new_)
    ensures Covering(r, WithSide(h, toDst, new_), far, side)
      == if side == toDst && Replaced(pkt, h, far, toDst).None? then new_ else Covering(pkt, h, far, side)
    ensures Replaced(pkt, h, far, toDst).None? ==> Covering(pkt, h, far, toDst) == Side(h, toDst)
  {
    ChainKept(pkt, r, h, toDst, new_, far, side);
  }

  /** The segment with its checksum field cleared. */
  function Uncovered(pkt: seq<byte>, h: Header, end: nat): seq<byte>
    requires IsSegment(pkt, h, end)
  {
    Splice(pkt[h.l4Off.value..end], ChecksumOffset(h.l4Proto).value, [0, 0])
  }

  lemma SegmentKept(pkt: seq<byte>, r: seq<byte>, h: Header, toDst: bool, new_: Addr, end: nat)
    requires Shape(pkt, h) && new_.fam == h.Fam() && IsSegment(pkt, h, end) && Effect(pkt, r, h, toDst, new_)
    ensures var h2 := WithSide(h, toDst, new_);
      && IsSegment(r, h2, end) && FieldAt(r, h2) == FieldAt(pkt, h) && Uncovered(r, h2, end) == Uncovered(pkt, h, end)
  {
    forall i | h.l4Off.value <= i < end && !(FieldAt(pkt, h).value <= i < FieldAt(pkt, h).value + 2)
      ensures r[i] == pkt[i]
    {
      assert !Touched(pkt, h, toDst, i);
    }
    assert Uncovered(r, WithSide(h, toDst, new_), end) == Uncovered(pkt, h, end);
  }

  lemma RestIs(pkt: seq<byte>, h: Header, end: nat, far: Between)
    requires IsSegment(pkt, h, end) && |pkt| >= 20
    ensures Rest(pkt, h, end, far)
      == WordSum(Bytes(Covering(pkt, h, far, false))) + WordSum(Bytes(Covering(pkt, h, far, true)))
         + h.l4Proto + (end - h.l4Off.value) + WordSum(Uncovered(pkt, h, end))
  {
    FieldBelow(pkt, h, end);
  }

  /** What a receiver makes of a transport checksum. For UDP a zero field means that there is none:
      over IPv4 such a datagram is taken unchecked, over IPv6 it is discarded. */
  datatype Judgement = Unprotected | Intact | Corrupt

  function Judge(proto: byte, field: nat, covered: nat): Judgement {
    if proto == 17 && field == 0 then Unprotected else if Verifies(covered) then Intact else Corrupt
  }

  function Judged(pkt: seq<byte>, h: Header, end: nat, far: Between): Judgement
    requires IsSegment(pkt, h, end) && |pkt| >= 20
  {
    Judge(h.l4Proto, U16At(pkt, FieldAt(pkt, h).value), Covered(pkt, h, end, far))
  }

  /** The rewrite leaves a zero in the checksum field. */
  predicate ZeroAfter(pkt: seq<byte>, h: Header, toDst: bool, new_: Addr)
    requires FieldAt(pkt, h).Some?
  {
    BecomesZero(U16At(pkt, FieldAt(pkt, h).value), Bytes(Side(h, toDst)), Bytes(new_))
  }

  /** For UDP: the rewrite neither makes a zero field nor destroys one. */
  predicate ZeroKept(pkt: seq<byte>, h: Header, toDst: bool, new_: Addr)
    requires FieldAt(pkt, h).Some?
  {
    h.l4Proto == 17 ==> (U16At(pkt, FieldAt(pkt, h).value) == 0 <==> ZeroAfter(pkt, h, toDst, new_))
  }

  /** For a packet whose headers put another address in the pseudo-header: shifting the covered sum by the
      difference of the two addresses does not change whether it verifies. */
  predicate ShiftKept(pkt: seq<byte>, h: Header, toDst: bool, new_: Addr, end: nat, far: Between)
    requires IsSegment(pkt, h, end) && |pkt| >= 20
  {
    var sum := Covered(pkt, h, end, far);
    (h.l4Proto == 17 && U16At(pkt, FieldAt(pkt, h).value) == 0)
    || Unmoved(sum, WordSum(Bytes(Side(h, toDst))), WordSum(Bytes(new_)))
  }

  predicate Unmoved(sum: nat, was: nat, now: nat) { sum % 65535 == 0 <==> Congruent(sum + was, now) }

  predicate Congruent(a: nat, b: nat) { a % 65535 == b % 65535 }

  /** The condition on packet and addresses for a rewrite not to show in the checksum. */
  predicate KeepsJudgement(pkt: seq<byte>, h: Header, toDst: bool, new_: Addr, end: nat, far: Between)
    requires IsSegment(pkt, h, end) && |pkt| >= 20
  {
    && ZeroKept(pkt, h, toDst, new_)
    && (Replaced(pkt, h, far, toDst).Some? ==> ShiftKept(pkt, h, toDst, new_, end, far))
  }

  /** When a receiver judges a segment after the rewrite as it did before. Where the rewritten address
      stands in the pseudo-header: always for TCP and ICMPv6, for UDP exactly when no zero field is
      made or destroyed. Where another stands in its place, the field moves and the covered
      addresses do not: only if the difference does not show. */
  lemma RewriteKeepsVerdict(pkt: seq<byte>, h: Header, toDst: bool, new_: Addr, end: nat, far: Between)
    requires Shape(pkt, h) && new_.fam == h.Fam() && IsSegment(pkt, h, end)
    ensures var r, h2 := Rewritten(pkt, h, toDst, new_), WithSide(h, toDst, new_);
      && IsSegment(r, h2, end)
      && (Judged(r, h2, end, far) == Judged(pkt, h, end, far)
          <==> KeepsJudgement(pkt, h, toDst, new_, end, far))
  {
    RewriteEffect(pkt, h, toDst, new_);
    EffectJudged(pkt, Rewritten(pkt, h, toDst, new_), h, toDst, new_, end, far);
  }

  lemma EffectJudged(pkt: seq<byte>, r: seq<byte>, h: Header, toDst: bool, new_: Addr, end: nat, far: Between)
    requires Shape(pkt, h) && new_.fam == h.Fam() && IsSegment(pkt, h, end) && Effect(pkt, r, h, toDst, new_)
    ensures var h2 := WithSide(h, toDst, new_);
      && IsSegment(r, h2, end)
      && (Judged(r, h2, end, far) == Judged(pkt, h, end, far)
          <==> KeepsJudgement(pkt, h, toDst, new_, end, far))
  {
    var h2 := WithSide(h, toDst, new_);
    EffectVerdict(pkt, r, h, toDst, new_, end, far);
    EffectField(pkt, r, h, toDst, new_);
    JudgedAlike(h.l4Proto, U16At(pkt, FieldAt(pkt, h).value), U16At(r, FieldAt(r, h2).value),
                Covered(pkt, h, end, far), Covered(r, h2, end, far));
  }

  predicate SameKind(proto: byte, cur: nat, next: nat, covered: nat, covered2: nat) {
    && (proto == 17 ==> (cur == 0 <==> next == 0))
    && ((proto == 17 && cur == 0) || (Verifies(covered2) <==> Verifies(covered)))
  }

  lemma JudgedAlike(proto: byte, cur: nat, next: nat, covered: nat, covered2: nat)
    ensures Judge(proto, next, covered2) == Judge(proto, cur, covered)
      <==> SameKind(proto, cur, next, covered, covered2)
  {
  }

  /** Where the field is after a rewrite, and when it is zero. */
  lemma EffectField(pkt: seq<byte>, r: seq<byte>, h: Header, toDst: bool, new_: Addr)
    requires Shape(pkt, h) && new_.fam == h.Fam() && FieldAt(pkt, h).Some? && Effect(pkt, r, h, toDst, new_)
    ensures FieldAt(r, WithSide(h, toDst, new_)) == FieldAt(pkt, h)
    ensures U16At(r, FieldAt(pkt, h).value) == 0 <==> ZeroAfter(pkt, h, toDst, new_)
  {
    DeltaZeroIff(U16At(pkt, FieldAt(pkt, h).value), Bytes(Side(h, toDst)), Bytes(new_));
  }

  lemma EffectVerdict(pkt: seq<byte>, r: seq<byte>, h: Header, toDst: bool, new_: Addr, end: nat, far: Between)
    requires Shape(pkt, h) && new_.fam == h.Fam() && IsSegment(pkt, h, end) && Effect(pkt, r, h, toDst, new_)
    ensures var h2 := WithSide(h, toDst, new_); IsSegment(r, h2, end)
    ensures Moves(Covered(pkt, h, end, far), Covered(r, WithSide(h, toDst, new_), end, far), Bytes(Side(h, toDst)),
                  Bytes(new_), Replaced(pkt, h, far, toDst).Some?)
  {
    EffectCovered(pkt, r, h, toDst, new_, end, far);
    var h2 := WithSide(h, toDst, new_);
    RestAndField(pkt, h, end, far);
    RestAndField(r, h2, end, far);
    UpdateVerdict(U16At(pkt, FieldAt(pkt, h).value), U16At(r, FieldAt(pkt, h).value), Rest(pkt, h, end, far),
                  Rest(r, h2, end, far), Bytes(Side(h, toDst)), Bytes(new_), Replaced(pkt, h, far, toDst).Some?);
  }

  lemma RestAndField(pkt: seq<byte>, h: Header, end: nat, far: Between)
    requires IsSegment(pkt, h, end) && |pkt| >= 20
    ensures Covered(pkt, h, end, far) == Rest(pkt, h, end, far) + U16At(pkt, FieldAt(pkt, h).value)
  {
  }

  /** How verification moves with the covered sum. */
  predicate Moves(sum: nat, sum2: nat, was: seq<byte>, now: seq<byte>, astray: bool) {
    if astray then
      && (Verifies(sum) <==> sum % 65535 == 0)
      && (Verifies(sum2) <==> Congruent(sum + WordSum(was), WordSum(now)))
    else Verifies(sum2) <==> Verifies(sum)
  }

  lemma UpdateVerdict(cur: nat, next: nat, rest: nat, rest2: nat, was: seq<byte>, now: seq<byte>, astray: bool)
    requires cur < 0x1_0000 && |was| == |now| && |was| % 2 == 0 && next == Delta(cur, was, now)
    requires if astray then rest2 == rest > 0 else Rewrites(rest, rest2, was, now)
    ensures Moves(rest + cur, rest2 + next, was, now, astray)
  {
    if astray { DeltaAstray(cur, rest, was, now); } else { DeltaKeepsVerdict(cur, rest, rest2, was, now); }
  }

  /** A segment that was intact on its way along a source route: translating the next stop breaks it,
      unless the two addresses have equal word sums modulo 65535. */
  lemma RoutedSegmentBreaks(pkt: seq<byte>, h: Header, toDst: bool, new_: Addr, end: nat, far: Between)
    requires Shape(pkt, h) && new_.fam == h.Fam() && IsSegment(pkt, h, end)
    requires Replaced(pkt, h, far, toDst).Some? && Judged(pkt, h, end, far) == Intact && h.l4Proto != 17
    ensures var r, h2 := Rewritten(pkt, h, toDst, new_), WithSide(h, toDst, new_);
      && IsSegment(r, h2, end)
      && (Judged(r, h2, end, far) == Intact
          <==> Congruent(WordSum(Bytes(Side(h, toDst))), WordSum(Bytes(new_))))
  {
    RewriteEffect(pkt, h, toDst, new_);
    EffectJudged(pkt, Rewritten(pkt, h, toDst, new_), h, toDst, new_, end, far);
    assert KeepsJudgement(pkt, h, toDst, new_, end, far)
      <==> Congruent(WordSum(Bytes(Side(h, toDst))), WordSum(Bytes(new_))) by {
      IntactShift(h.l4Proto, U16At(pkt, FieldAt(pkt, h).value), Covered(pkt, h, end, far),
                  WordSum(Bytes(Side(h, toDst))), WordSum(Bytes(new_)));
    }
    NotUnprotected(Rewritten(pkt, h, toDst, new_), WithSide(h, toDst, new_), end, far);
  }

  lemma NotUnprotected(pkt: seq<byte>, h: Header, end: nat, far: Between)
    requires IsSegment(pkt, h, end) && |pkt| >= 20 && h.l4Proto != 17
    ensures Judged(pkt, h, end, far) != Unprotected
  {
  }

  lemma IntactShift(proto: byte, field: nat, sum: nat, was: nat, now: nat)
    requires Judge(proto, field, sum) == Intact
    ensures Unmoved(sum, was, now) <==> Congruent(was, now)
  {
    ShiftMod(was, sum / 65535);
  }

  /** The final destination out of an IPv6 Routing header with segments left: its last element. */
  function RoutingHeader(v4: bool, nh: byte, chain: seq<byte>, toDst: bool): Option<Addr> {
    if v4 || !toDst then None else LastStop(nh, chain, 0)
  }

  function LastStop(nh: byte, chain: seq<byte>, off: nat): Option<Addr>
    decreases |chain| - off
  {
    if off + 8 > |chain| then None
    else
      var n := 8 * (chain[off + 1] as nat + 1);
      if nh == 43 && chain[off + 3] != 0 && n >= 24 && off + n <= |chain| then
        Some(FromBytes(IPv6, chain[off + n - 16..off + n]))
      else if IsExt(nh) then LastStop(chain[off], chain, off + n)
      else if nh == 44 then LastStop(chain[off], chain, off + 8)
      else None
  }

  /** Such packets are taken: IPv6, then a Routing header of one address with segments left, then TCP. */
  lemma SourceRouted(pkt: seq<byte>)
    requires |pkt| >= 84 && pkt[0] / 16 == 6 && pkt[6] == 43 && pkt[40] == 6 && pkt[41] == 2 && pkt[43] != 0
    ensures ParseReturns(pkt) && Parse(pkt).Some?
    ensures var h := Parse(pkt).value;
      && Shape(pkt, h) && h.l4Off == Some(64) && h.l4Proto == 6 && IsSegment(pkt, h, |pkt|) && !h.v4
      && Replaced(pkt, h, RoutingHeader, true) == Some(FromBytes(IPv6, pkt[48..64]))
  {
    assert Walk(pkt, 6, 64) == Some(Transport(6, 64));
    assert Walk(pkt, 43, 40) == Some(Transport(6, 64));
    ParsedShape(pkt);
    var h := Parse(pkt).value;
    assert Chain(pkt, h) == pkt[40..64];
    assert pkt[40..64][8..24] == pkt[48..64];
  }

  /** And an intact one comes out corrupt unless the two addresses happen to have congruent sums. */
  lemma SourceRoutedBreaks(pkt: seq<byte>, new_: Addr)
    requires |pkt| >= 84 && pkt[0] / 16 == 6 && pkt[6] == 43 && pkt[40] == 6 && pkt[41] == 2 && pkt[43] != 0
    requires ParseReturns(pkt) && Parse(pkt).Some? && Shape(pkt, Parse(pkt).value) && new_.fam == IPv6
    requires IsSegment(pkt, Parse(pkt).value, |pkt|) && Judged(pkt, Parse(pkt).value, |pkt|, RoutingHeader) == Intact
    requires !Congruent(WordSum(Bytes(Parse(pkt).value.dst)), WordSum(Bytes(new_)))
    ensures var h := Parse(pkt).value;
      && new_.fam == h.Fam()
      && IsSegment(Rewritten(pkt, h, true, new_), WithSide(h, true, new_), |pkt|)
      && Judged(Rewritten(pkt, h, true, new_), WithSide(h, true, new_), |pkt|, RoutingHeader) == Corrupt
  {
    SourceRouted(pkt);
    var h := Parse(pkt).value;
    RoutedSegmentBreaks(pkt, h, true, new_, |pkt|, RoutingHeader);
    NotUnprotected(Rewritten(pkt, h, true, new_), WithSide(h, true, new_), |pkt|, RoutingHeader);
  }

  /** The field a sender computes: UDP sends all ones where the others send zero. */
  function SenderField(proto: byte, rest: nat): nat {
    if proto == 17 then UdpField(rest) else Complement(rest)
  }

  /** No zero is made in UDP, and where the rewritten address is not in the pseudo-header the two
      addresses have equal word sums. */
  predicate KeepsSenderField(pkt: seq<byte>, h: Header, toDst: bool, new_: Addr, far: Between)
    requires FieldAt(pkt, h).Some? && |pkt| >= 20
  {
    StaysSender(h.l4Proto, U16At(pkt, FieldAt(pkt, h).value), Bytes(Side(h, toDst)), Bytes(new_),
                Replaced(pkt, h, far, toDst).Some?)
  }

  predicate StaysSender(proto: byte, cur: nat, was: seq<byte>, now: seq<byte>, astray: bool) {
    && (proto == 17 ==> !BecomesZero(cur, was, now))
    && (astray ==> Congruent(WordSum(was), WordSum(now)))
  }

  /** When a field that was the sender's own computation is the one the sender would compute after the
      rewrite: it must not become zero in UDP, and where the rewritten address is not in the
      pseudo-header it must not move at all. */
  lemma RewriteIsRecompute(pkt: seq<byte>, h: Header, toDst: bool, new_: Addr, end: nat, far: Between)
    requires Shape(pkt, h) && new_.fam == h.Fam() && IsSegment(pkt, h, end)
    requires U16At(pkt, FieldAt(pkt, h).value) == SenderField(h.l4Proto, Rest(pkt, h, end, far))
    ensures var r, h2 := Rewritten(pkt, h, toDst, new_), WithSide(h, toDst, new_);
      && IsSegment(r, h2, end)
      && (U16At(r, FieldAt(r, h2).value) == SenderField(h2.l4Proto, Rest(r, h2, end, far))
          <==> KeepsSenderField(pkt, h, toDst, new_, far))
  {
    RewriteEffect(pkt, h, toDst, new_);
    EffectRecompute(pkt, Rewritten(pkt, h, toDst, new_), h, toDst, new_, end, far);
  }

  lemma EffectRecompute(pkt: seq<byte>, r: seq<byte>, h: Header, toDst: bool, new_: Addr, end: nat, far: Between)
    requires Shape(pkt, h) && new_.fam == h.Fam() && IsSegment(pkt, h, end) && Effect(pkt, r, h, toDst, new_)
    requires U16At(pkt, FieldAt(pkt, h).value) == SenderField(h.l4Proto, Rest(pkt, h, end, far))
    ensures var h2 := WithSide(h, toDst, new_);
      && IsSegment(r, h2, end)
      && (U16At(r, FieldAt(r, h2).value) == SenderField(h2.l4Proto, Rest(r, h2, end, far))
          <==> KeepsSenderField(pkt, h, toDst, new_, far))
  {
    EffectCovered(pkt, r, h, toDst, new_, end, far);
    var h2 := WithSide(h, toDst, new_);
    SenderUpdate(h.l4Proto, U16At(pkt, FieldAt(pkt, h).value), Rest(pkt, h, end, far), Rest(r, h2, end, far),
                 Bytes(Side(h, toDst)), Bytes(new_), Replaced(pkt, h, far, toDst).Some?);
  }

  lemma SenderUpdate(proto: byte, cur: nat, rest: nat, rest2: nat, was: seq<byte>, now: seq<byte>, astray: bool)
    requires cur == SenderField(proto, rest) && |was| == |now| && |was| % 2 == 0
    requires if astray then rest2 == rest > 0 else Rewrites(rest, rest2, was, now)
    ensures cur < 0x1_0000
    ensures Delta(cur, was, now) == SenderField(proto, rest2)
      <==> StaysSender(proto, cur, was, now, astray)
  {
    if astray {
      if proto == 17 { UdpFieldStaysIff(cur, rest, was, now); } else { ComplementStaysIff(cur, rest, was, now); }
    } else if proto == 17 {
      DeltaIsUdpFieldIff(cur, rest, rest2, was, now);
    } else {
      DeltaIsRecompute(cur, rest, rest2, was, now);
    }
  }

  /** The field is zero after the rewrite exactly under this condition on the old field and the two
      addresses: a checksummed UDP datagram can lose its checksum, an unchecked one can gain one. */
  lemma FieldZeroIff(pkt: seq<byte>, h: Header, toDst: bool, new_: Addr)
    requires Shape(pkt, h) && new_.fam == h.Fam() && FieldAt(pkt, h).Some?
    ensures U16At(Rewritten(pkt, h, toDst, new_), FieldAt(pkt, h).value) == 0 <==> ZeroAfter(pkt, h, toDst, new_)
  {
    RewriteEffect(pkt, h, toDst, new_);
    EffectField(pkt, Rewritten(pkt, h, toDst, new_), h, toDst, new_);
  }

  /** A UDP datagram sent without a checksum keeps its zero field exactly when the two
      addresses have equal word sums modulo 65535: RFC 768 makes zero mean "absent", the
      rewrite does not look. */
  lemma UncheckedUdpKeptIff(pkt: seq<byte>, h: Header, toDst: bool, new_: Addr)
    requires Shape(pkt, h) && new_.fam == h.Fam()
    requires h.l4Proto == 17 && FieldAt(pkt, h).Some? && U16At(pkt, FieldAt(pkt, h).value) == 0
    ensures U16At(Rewritten(pkt, h, toDst, new_), FieldAt(pkt, h).value) == 0
      <==> WordSum(Bytes(Side(h, toDst))) % 65535 == WordSum(Bytes(new_)) % 65535
  {
    RewriteEffect(pkt, h, toDst, new_);
    AbsentStaysAbsentIff(Bytes(Side(h, toDst)), Bytes(new_));
  }

  // ------------------------------------------------------------- the translator

  /** `Translator.rewrite` on values: `None` is a drop. */
  function Translated(t: Translator, pkt: seq<byte>, toLocal: bool): (r: Option<seq<byte>>)
    requires t.Valid() && ParseReturns(pkt)
    ensures r.Some? ==> |r.value| == |pkt|
  {
    match Parse(pkt)
    case None => None
    case Some(h) =>
      ParsedShape(pkt);
      match NewAddr(t, Side(h, toLocal), toLocal)
      case None => None
      case Some(a) =>
        if a == Side(h, toLocal) || a.fam != h.Fam() then Some(pkt) else Some(Rewritten(pkt, h, toLocal, a))
  }

  lemma NewAddrShape(t: Translator, a: Addr, toLocal: bool)
    requires t.Valid() && a.Valid() && NewAddr(t, a, toLocal).Some?
    ensures NewAddr(t, a, toLocal).value.fam == a.fam && NewAddr(t, a, toLocal).value.Valid()
  {
    match FindMap(t.maps, a, toLocal)
    case None =>
    case Some(m) =>
      var from, to := if toLocal then m.virt else m.lan, if toLocal then m.lan else m.virt;
      RemapInverse(a, from, to);
      InBlockValid(to, Remap(a, from, to));
  }

  lemma InBlockValid(p: Prefix, a: Addr)
    requires p.Valid() && p.Contains(a)
    ensures a.Valid()
  {
    var m, k := Pow2s.Pow2(p.HostBits()), Pow2s.Pow2(p.bits);
    Pow2s.Pow2Add(p.bits, p.HostBits());
    Pow2s.DivModNat(a.n, m);
    Pow2s.DivModNat(p.n, m);
    if a.n / m >= k { Pow2s.MulMono(k, a.n / m, m); }
    Pow2s.MulMono(a.n / m + 1, k, m);
    Pow2s.Distribute(a.n / m, 1, 1, m);
  }

  /** When a packet is dropped: it does not parse, there are no mappings, or no mapping's prefix of that side
      contains the address and it is not one of the site's own. An own address outside every prefix
      passes unchanged. */
  lemma DroppedIff(t: Translator, pkt: seq<byte>, toLocal: bool)
    requires t.Valid() && ParseReturns(pkt)
    ensures Parse(pkt).None? ==> Translated(t, pkt, toLocal).None?
    ensures Parse(pkt).Some? ==> var a := if toLocal then Parse(pkt).value.dst else Parse(pkt).value.src;
      && (Translated(t, pkt, toLocal).None? <==> t.maps == [] || (Unmapped(t.maps, a, toLocal) && a !in t.local))
      && (t.maps != [] && Unmapped(t.maps, a, toLocal) && a in t.local ==> Translated(t, pkt, toLocal) == Some(pkt))
  {
    if Parse(pkt).Some? && t.maps != [] {
      var a := Side(Parse(pkt).value, toLocal);
      var f := FindMap(t.maps, a, toLocal);
      assert f.None? <==> Unmapped(t.maps, a, toLocal);
    }
  }

  /** No mapping has the address in its virtual (towards the LAN) or real (towards the tunnel) prefix. */
  predicate Unmapped(maps: seq<RouteMap>, a: Addr, toLocal: bool) {
    forall m <- maps :: !(if toLocal then m.virt else m.lan).Contains(a)
  }

  /** The address as far from the start of the one block as `a` is from the start of the other. */
  function Shifted(a: Addr, from: Prefix, to: Prefix): Addr {
    Addr(a.fam, if a.n >= from.Base() then to.Base() + (a.n - from.Base()) else to.Base())
  }

  /** Mapping `j` is the first whose prefix of that side contains the address. */
  predicate MappedBy(maps: seq<RouteMap>, a: Addr, toLocal: bool, j: nat) {
    j < |maps| && (if toLocal then maps[j].virt else maps[j].lan).Contains(a) && Unmapped(maps[..j], a, toLocal)
  }

  lemma NewAddrIs(t: Translator, a: Addr, toLocal: bool, j: nat)
    requires t.Valid() && MappedBy(t.maps, a, toLocal, j)
    ensures NewAddr(t, a, toLocal)
      == Some(if toLocal then Shifted(a, t.maps[j].virt, t.maps[j].lan) else Shifted(a, t.maps[j].lan, t.maps[j].virt))
  {
    var m := t.maps[j];
    forall i | 0 <= i < j ensures !t.maps[i].From(toLocal).Contains(a) { assert t.maps[i] in t.maps[..j]; }
    InverseIff(t, a, toLocal, j);
    assert m in t.maps;
    DistanceKept(a, m.From(toLocal), m.To(toLocal));
  }

  lemma DistanceKept(a: Addr, from: Prefix, to: Prefix)
    requires from.fam == to.fam && from.bits == to.bits && from.Contains(a)
    ensures Remap(a, from, to) == Shifted(a, from, to)
  {
    Pow2s.DivModNat(a.n, Pow2s.Pow2(from.HostBits()));
  }

  /** And what any other becomes: under the first mapping whose prefix contains it the address keeps its distance
      from the start of the block, virtual to real towards the LAN, real to virtual towards the tunnel. */
  lemma TranslatedIs(t: Translator, pkt: seq<byte>, h: Header, toLocal: bool, j: nat)
    requires t.Valid() && Parsed(pkt, h) && MappedBy(t.maps, if toLocal then h.dst else h.src, toLocal, j)
    ensures Translated(t, pkt, toLocal).Some?
    ensures var a, m := if toLocal then h.dst else h.src, t.maps[j];
      var b := if toLocal then Shifted(a, m.virt, m.lan) else Shifted(a, m.lan, m.virt);
      && Shape(pkt, h) && b.fam == h.Fam()
      && Translated(t, pkt, toLocal).value == if b == a then pkt else Rewritten(pkt, h, toLocal, b)
    ensures Parsed(Translated(t, pkt, toLocal).value,
                   if toLocal then h.(dst := Shifted(h.dst, t.maps[j].virt, t.maps[j].lan))
                   else h.(src := Shifted(h.src, t.maps[j].lan, t.maps[j].virt)))
  {
    var a := Side(h, toLocal);
    ParsedShape(pkt);
    NewAddrIs(t, a, toLocal, j);
    NewAddrShape(t, a, toLocal);
    TranslatedParses(t, pkt, h, toLocal, NewAddr(t, a, toLocal).value);
  }

  // ------------------------------------------------------------- byte by byte

  /** From `l` on the packet is as before but for the two bytes at `at`, which hold the update of what stood
      there, if the packet reaches so far. */
  predicate OnlyAt(pkt: seq<byte>, r: seq<byte>, l: nat, at: nat, was: Addr, new_: Addr)
    requires |r| == |pkt| && l <= at && was.fam == new_.fam
  {
    && (forall i | l <= i < |pkt| && i != at && i != at + 1 :: r[i] == pkt[i])
    && (at + 2 <= |pkt| ==> U16At(r, at) == Delta(U16At(pkt, at), Bytes(was), Bytes(new_)))
    && (at + 1 == |pkt| ==> r[at] == pkt[at])
  }

  /** A rewrite from the transport header at `l` on: TCP keeps its checksum at byte 16, UDP at 6, ICMPv6 at 2;
      no other protocol's is touched. */
  predicate SegmentBytes(pkt: seq<byte>, r: seq<byte>, l: nat, proto: byte, was: Addr, new_: Addr)
    requires |r| == |pkt| && was.fam == new_.fam
  {
    && (proto == 6 ==> OnlyAt(pkt, r, l, l + 16, was, new_))
    && (proto == 17 ==> OnlyAt(pkt, r, l, l + 6, was, new_))
    && (proto == 58 ==> OnlyAt(pkt, r, l, l + 2, was, new_))
    && (proto != 6 && proto != 17 && proto != 58 ==> forall i | l <= i < |pkt| :: r[i] == pkt[i])
  }

  /** And elsewhere: the address, and the IPv4 header checksum. */
  predicate HeaderByte(v4: bool, toDst: bool, i: nat) {
    if v4 then 10 <= i < 12 || (if toDst then 16 <= i < 20 else 12 <= i < 16)
    else if toDst then 24 <= i < 40 else 8 <= i < 24
  }

  /** A rewritten packet byte by byte, the places spelled out. */
  lemma RewriteBytes(pkt: seq<byte>, h: Header, toDst: bool, new_: Addr)
    requires Parsed(pkt, h) && new_.fam == h.Fam()
    ensures Shape(pkt, h)
    ensures h.v4 ==> h.l4Proto == pkt[9] && (h.l4Off.Some? ==> h.l4Off.value == pkt[0] as nat % 16 * 4)
    ensures var r, was := Rewritten(pkt, h, toDst, new_), if toDst then h.dst else h.src;
      && (h.l4Off.Some? ==> SegmentBytes(pkt, r, h.l4Off.value, h.l4Proto, was, new_))
      && forall i | 0 <= i < |pkt| && (h.l4Off.Some? ==> i < h.l4Off.value) && !HeaderByte(h.v4, toDst, i) ::
           r[i] == pkt[i]
  {
    ParsedShape(pkt);
    RewriteEffect(pkt, h, toDst, new_);
    EffectBytes(pkt, Rewritten(pkt, h, toDst, new_), h, toDst, new_);
  }

  lemma EffectBytes(pkt: seq<byte>, r: seq<byte>, h: Header, toDst: bool, new_: Addr)
    requires Shape(pkt, h) && new_.fam == h.Fam() && Effect(pkt, r, h, toDst, new_)
    ensures h.l4Off.Some? ==>
      SegmentBytes(pkt, r, h.l4Off.value, h.l4Proto, if toDst then h.dst else h.src, new_)
    ensures forall i | 0 <= i < |pkt| && (h.l4Off.Some? ==> i < h.l4Off.value) && !HeaderByte(h.v4, toDst, i) ::
      r[i] == pkt[i]
  {
    forall i | 0 <= i < |pkt| && !Touched(pkt, h, toDst, i) ensures r[i] == pkt[i] { }
    forall i | 0 <= i < |pkt| && (h.l4Off.Some? ==> i < h.l4Off.value) && !HeaderByte(h.v4, toDst, i)
      ensures r[i] == pkt[i]
    {
      assert !Touched(pkt, h, toDst, i);
    }
    if h.l4Off.Some? {
      forall i | h.l4Off.value <= i < |pkt| ensures Touched(pkt, h, toDst, i) <==>
        FieldAt(pkt, h).Some? && FieldAt(pkt, h).value <= i < FieldAt(pkt, h).value + 2
      {
      }
    }
  }

  /** A packet and the reply to it: translating the destination inward and the reply's source
      outward shows the reply under the address the sender asked for. */
  lemma ReplyComesBack(t: Translator, pkt: seq<byte>, reply: seq<byte>)
    requires t.Valid() && Disjoint(t.maps) && ParseReturns(pkt) && ParseReturns(reply)
    requires Parse(pkt).Some? && FindMap(t.maps, Parse(pkt).value.dst, true).Some?
    requires Parse(reply).Some? && Some(Parse(reply).value.src) == NewAddr(t, Parse(pkt).value.dst, true)
    ensures Translated(t, pkt, true).Some? && ParseReturns(Translated(t, pkt, true).value)
    ensures Parse(Translated(t, pkt, true).value) == Some(Parse(pkt).value.(dst := Parse(reply).value.src))
    ensures Translated(t, reply, false).Some? && ParseReturns(Translated(t, reply, false).value)
    ensures Parse(Translated(t, reply, false).value) == Some(Parse(reply).value.(src := Parse(pkt).value.dst))
  {
    var v, l := Parse(pkt).value.dst, Parse(reply).value.src;
    ParsedShape(pkt);
    ParsedShape(reply);
    TranslationInverse(t, v, true);
    NewAddrShape(t, v, true);
    TranslatedParses(t, pkt, Parse(pkt).value, true, l);
    TranslatedParses(t, reply, Parse(reply).value, false, v);
  }

  /** A translated packet parses as the original with the one address replaced. */
  lemma TranslatedParses(t: Translator, pkt: seq<byte>, h: Header, toLocal: bool, a: Addr)
    requires t.Valid() && Parsed(pkt, h) && NewAddr(t, Side(h, toLocal), toLocal) == Some(a)
    ensures Translated(t, pkt, toLocal).Some?
    ensures Parsed(Translated(t, pkt, toLocal).value, WithSide(h, toLocal, a))
  {
    ParsedShape(pkt);
    NewAddrShape(t, Side(h, toLocal), toLocal);
    if a != Side(h, toLocal) { RewriteParses(pkt, h, toLocal, a); }
  }

  // ------------------------------------------------------------- in place

  /** Go's `copy` into a packet buffer. */
  method CopyInto(pkt: array<byte>, at: nat, w: seq<byte>)
    requires at + |w| <= pkt.Length
    modifies pkt
    ensures pkt[..] == Splice(old(pkt[..]), at, w)
  {
    for i := 0 to |w|
      invariant forall k | 0 <= k < pkt.Length ::
        pkt[k] == if at <= k < at + i then w[k - at] else old(pkt[k])
    {
      pkt[at + i] := w[i];
    }
  }

  /** The IPv4 header checksum: cleared, then recomputed in full. */
  method FixHeader(pkt: array<byte>)
    requires 20 <= pkt.Length <= 131072 && Ihl(pkt[..]) <= pkt.Length
    modifies pkt
    ensures pkt[..] == WithHeaderChecksum(old(pkt[..]))
  {
    var ihl := pkt[0] as nat % 16 * 4;
    CopyInto(pkt, 10, [0, 0]);
    assert pkt[..][..ihl] == pkt[..ihl];
    var sum := OnesComplement(pkt[..ihl]);
    CopyInto(pkt, 10, PutU16(sum));
  }

  /** The transport checksum: updated in its field when the packet holds one. */
  method FixField(pkt: array<byte>, h: Header, was: Addr, new_: Addr)
    requires was.fam == new_.fam
    modifies pkt
    ensures pkt[..] == FixTransport(old(pkt[..]), h, was, new_)
  {
    if h.l4Off.Some? {
      var co := ChecksumOffset(h.l4Proto);
      if co.Some? && pkt.Length >= h.l4Off.value + co.value + 2 {
        var at := h.l4Off.value + co.value;
        var next := ChecksumDelta(U16At(pkt[..], at), Bytes(was), Bytes(new_));
        CopyInto(pkt, at, PutU16(next));
      }
    }
  }

  /** `rewriteAddr`. */
  method RewriteAddr(pkt: array<byte>, h: Header, toDst: bool, new_: Addr)
    requires Shape(pkt[..], h) && new_.fam == h.Fam() && pkt.Length <= 131072
    modifies pkt
    ensures pkt[..] == Rewritten(old(pkt[..]), h, toDst, new_)
  {
    var off, was := h.srcOff, h.src;
    if toDst { off, was := h.dstOff, h.dst; }
    assert Ihl(Splice(pkt[..], off, Bytes(new_))) == Ihl(pkt[..]);
    CopyInto(pkt, off, Bytes(new_));
    if h.v4 { FixHeader(pkt); }
    FixField(pkt, h, was, new_);
  }

  method FindMatch(maps: seq<RouteMap>, a: Addr, toLocal: bool) returns (m: Option<RouteMap>)
    ensures m == FindMap(maps, a, toLocal)
  {
    for i := 0 to |maps|
      invariant FindMap(maps, a, toLocal) == FindMap(maps[i..], a, toLocal)
    {
      if toLocal {
        if maps[i].virt.Contains(a) { return Some(maps[i]); }
      } else if maps[i].lan.Contains(a) {
        return Some(maps[i]);
      }
      assert maps[i..][1..] == maps[i + 1..];
    }
    return None;
  }

  /** `Translator.rewrite`: the packet is changed exactly as `Translated` says and left alone on a drop. */
  method Rewrite(t: Translator, pkt: array<byte>, toLocal: bool) returns (ok: bool)
    requires t.Valid() && ParseReturns(pkt[..]) && pkt.Length <= 131072
    modifies pkt
    ensures ok == Translated(t, old(pkt[..]), toLocal).Some?
    ensures pkt[..] == if ok then Translated(t, old(pkt[..]), toLocal).value else old(pkt[..])
  {
    var parsed := ParseIPHeader(pkt[..]);
    if parsed.None? { return false; }
    var h := parsed.value;
    ParsedShape(pkt[..]);
    var addr := Side(h, toLocal);
    if |t.maps| == 0 { return false; }
    var m := FindMatch(t.maps, addr, toLocal);
    if m.None? {
      return addr in t.local;
    }
    var newAddr;
    NewAddrShape(t, addr, toLocal);
    if toLocal {
      newAddr := RemapAddr(addr, m.value.virt, m.value.lan);
    } else {
      newAddr := RemapAddr(addr, m.value.lan, m.value.virt);
    }
    if newAddr == addr { return true; }
    RewriteAddr(pkt, h, toLocal, newAddr);
    return true;
  }
}
