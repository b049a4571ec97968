/** The parsed view of one IPv4/IPv6 packet (`parseIPHeader`), with its walk along the
    IPv6 extension headers. */
module IpHeaders {
  import opened Wrappers
  import opened Addresses
  import opened Checksums

  datatype Header = Header(
    v4: bool,
    src: Addr,
    dst: Addr,
    srcOff: nat,
    dstOff: nat,
    l4Off: Option<nat>,   // where the transport header starts, if this packet carries one
    l4Proto: byte
  ) {
    function Fam(): Family { if v4 then IPv4 else IPv6 }
  }

  // ------------------------------------------------------- IPv6 extension headers

  /** Hop-by-hop, routing and destination options: headers carrying a length byte. */
  predicate IsExt(nh: byte) { nh == 0 || nh == 43 || nh == 60 }

  datatype WalkEnd = Transport(proto: byte, off: nat) | NoTransport | Bad

  datatype Cursor = At(nh: byte, off: nat) | Stop(end: WalkEnd)

  function FragField(pkt: seq<byte>, off: nat): nat
    requires off + 8 <= |pkt|
  {
    U16At(pkt, off + 2) / 8
  }

  /** The length step of the code: the addition is done in a byte, so 255 advances by nothing. */
  function ExtAdvance(len: byte): nat { (len + 1) % 256 * 8 }

  /** One turn of the loop. */
  function Step(pkt: seq<byte>, nh: byte, off: nat): (c: Cursor)
    requires off <= |pkt|
    ensures c.At? ==> off <= c.off < |pkt|
  {
    if IsExt(nh) then
      if |pkt| < off + 2 then Stop(Bad)
      else if off + ExtAdvance(pkt[off + 1]) >= |pkt| then Stop(Bad)
      else At(pkt[off], off + ExtAdvance(pkt[off + 1]))
    else if nh == 44 then
      if |pkt| < off + 8 then Stop(Bad)
      else if FragField(pkt, off) != 0 then Stop(NoTransport)
      else if off + 8 >= |pkt| then Stop(Bad)
      else At(pkt[off], off + 8)
    else
      Stop(Transport(nh, off))
  }

  /** `n` turns of the loop. */
  function Run(pkt: seq<byte>, nh: byte, off: nat, n: nat): (c: Cursor)
    requires off <= |pkt|
    ensures c.At? ==> off <= c.off <= |pkt|
    decreases n
  {
    if n == 0 then At(nh, off)
    else match Step(pkt, nh, off)
      case Stop(e) => Stop(e)
      case At(nh', off') => Run(pkt, nh', off', n - 1)
  }

  /** A header of length byte 255 followed by another header with a length byte: the loop
      re-reads the same two bytes for ever. */
  predicate Stuck(pkt: seq<byte>, nh: byte, off: nat) {
    IsExt(nh) && off + 2 <= |pkt| && pkt[off + 1] == 255 && IsExt(pkt[off])
  }

  /** The walk's answer, `None` when it meets a `Stuck` header. */
  function Walk(pkt: seq<byte>, nh: byte, off: nat): (r: Option<WalkEnd>)
    requires off <= |pkt|
    ensures r.Some? && r.value.Transport? ==>
      off <= r.value.off <= |pkt| && !IsExt(r.value.proto) && r.value.proto != 44
    decreases |pkt| - off, if IsExt(nh) then 1 else 0
  {
    if Stuck(pkt, nh, off) then None
    else match Step(pkt, nh, off)
      case Stop(e) => Some(e)
      case At(nh', off') => Walk(pkt, nh', off')
  }

  /** `Walk` is the loop: whatever it answers, the loop stops there after finitely many turns. */
  lemma {:induction false} WalkIsLoop(pkt: seq<byte>, nh: byte, off: nat) returns (n: nat)
    requires off <= |pkt| && Walk(pkt, nh, off).Some?
    ensures Run(pkt, nh, off, n) == Stop(Walk(pkt, nh, off).value)
    decreases |pkt| - off, if IsExt(nh) then 1 else 0
  {
    match Step(pkt, nh, off)
    case Stop(e) =>
      n := 1;
      assert Run(pkt, nh, off, 1) == Stop(e);
    case At(nh', off') =>
      n := WalkIsLoop(pkt, nh', off');
      n := n + 1;
  }

  lemma {:induction false} StuckForever(pkt: seq<byte>, nh: byte, off: nat, n: nat)
    requires off <= |pkt| && Stuck(pkt, nh, off)
    ensures Run(pkt, nh, off, n).At?
    decreases n
  {
    if n > 0 {
      if off + ExtAdvance(pkt[off + 1]) < |pkt| {
        StuckForever(pkt, pkt[off], off, n - 1);
      }
    }
  }

  lemma {:induction false} NoAnswerMeansStuck(pkt: seq<byte>, nh: byte, off: nat) returns (k: nat)
    requires off <= |pkt| && Walk(pkt, nh, off).None?
    ensures var c := Run(pkt, nh, off, k); c.At? && Stuck(pkt, c.nh, c.off)
    decreases |pkt| - off, if IsExt(nh) then 1 else 0
  {
    if Stuck(pkt, nh, off) {
      k := 0;
    } else {
      var c := Step(pkt, nh, off);
      k := NoAnswerMeansStuck(pkt, c.nh, c.off);
      k := k + 1;
    }
  }

  lemma {:induction false} RunSplits(pkt: seq<byte>, nh: byte, off: nat, k: nat, n: nat)
    requires off <= |pkt| && Run(pkt, nh, off, k).At?
    ensures Run(pkt, nh, off, k + n) == Run(pkt, Run(pkt, nh, off, k).nh, Run(pkt, nh, off, k).off, n)
    decreases k
  {
    if k > 0 {
      var c := Step(pkt, nh, off);
      RunSplits(pkt, c.nh, c.off, k - 1, n);
    }
  }

  lemma {:induction false} StoppedStays(pkt: seq<byte>, nh: byte, off: nat, k: nat, n: nat)
    requires off <= |pkt| && k <= n && Run(pkt, nh, off, k).Stop?
    ensures Run(pkt, nh, off, n) == Run(pkt, nh, off, k)
    decreases k
  {
    if k > 0 {
      match Step(pkt, nh, off)
      case Stop(e) =>
      case At(nh', off') => StoppedStays(pkt, nh', off', k - 1, n - 1);
    }
  }

  /** Exactly when the code's loop ends: no walked header is `Stuck`. */
  lemma LoopEndsIff(pkt: seq<byte>, nh: byte, off: nat)
    requires off <= |pkt|
    ensures (exists n: nat :: Run(pkt, nh, off, n).Stop?)
       <==> (forall k: nat :: var c := Run(pkt, nh, off, k); c.At? ==> !Stuck(pkt, c.nh, c.off))
    ensures (exists n: nat :: Run(pkt, nh, off, n).Stop?) <==> Walk(pkt, nh, off).Some?
  {
    if Walk(pkt, nh, off).Some? {
      var n := WalkIsLoop(pkt, nh, off);
      forall k: nat | Run(pkt, nh, off, k).At? && Stuck(pkt, Run(pkt, nh, off, k).nh, Run(pkt, nh, off, k).off)
        ensures false
      {
        var c := Run(pkt, nh, off, k);
        if k >= n {
          StoppedStays(pkt, nh, off, n, k);
        } else {
          RunSplits(pkt, nh, off, k, n - k);
          StuckForever(pkt, c.nh, c.off, n - k);
        }
      }
    } else {
      var k := NoAnswerMeansStuck(pkt, nh, off);
      var c := Run(pkt, nh, off, k);
      forall n: nat ensures Run(pkt, nh, off, n).At? {
        StuckForever(pkt, c.nh, c.off, n);
        RunSplits(pkt, nh, off, k, n);
        if Run(pkt, nh, off, n).Stop? { StoppedStays(pkt, nh, off, n, k + n); }
      }
    }
  }

  /** The guard a caller can read off the bytes: without a walked length byte of 255 the loop ends. */
  lemma NoWrapMeansEnds(pkt: seq<byte>, nh: byte, off: nat)
    requires off <= |pkt|
    requires forall k: nat :: var c := Run(pkt, nh, off, k);
      c.At? && IsExt(c.nh) && c.off + 2 <= |pkt| ==> pkt[c.off + 1] != 255
    ensures exists n: nat :: Run(pkt, nh, off, n).Stop?
  {
    LoopEndsIff(pkt, nh, off);
  }

  /** A transport header is reported only when every walked fragment header has offset zero. */
  lemma {:induction false} TransportMeansUnfragmented(pkt: seq<byte>, nh: byte, off: nat, k: nat)
    requires off <= |pkt| && Walk(pkt, nh, off).Some? && Walk(pkt, nh, off).value.Transport?
    requires var c := Run(pkt, nh, off, k); c.At? && c.nh == 44
    ensures var c := Run(pkt, nh, off, k); c.off + 8 <= |pkt| && FragField(pkt, c.off) == 0
    decreases k
  {
    if k > 0 {
      var c := Step(pkt, nh, off);
      TransportMeansUnfragmented(pkt, c.nh, c.off, k - 1);
    }
  }

  /** The walk of section 4 of RFC 8200, whose length byte is not narrowed to eight bits. */
  function WideWalk(pkt: seq<byte>, nh: byte, off: nat): WalkEnd
    requires off <= |pkt|
    decreases |pkt| - off
  {
    if IsExt(nh) then
      if |pkt| < off + 2 || off + 8 * (pkt[off + 1] as nat + 1) >= |pkt| then Bad
      else WideWalk(pkt, pkt[off], off + 8 * (pkt[off + 1] as nat + 1))
    else if nh == 44 then
      if |pkt| < off + 8 then Bad
      else if FragField(pkt, off) != 0 then NoTransport
      else if off + 8 >= |pkt| then Bad
      else WideWalk(pkt, pkt[off], off + 8)
    else Transport(nh, off)
  }

  /** The walk passes no header of length byte 255. */
  predicate Unwrapped(pkt: seq<byte>, nh: byte, off: nat)
    requires off <= |pkt|
    decreases |pkt| - off
  {
    if IsExt(nh) then
      && (|pkt| < off + 2 || pkt[off + 1] != 255)
      && (|pkt| < off + 2 || off + 8 * (pkt[off + 1] as nat + 1) >= |pkt|
          || Unwrapped(pkt, pkt[off], off + 8 * (pkt[off + 1] as nat + 1)))
    else if nh == 44 && |pkt| >= off + 8 && FragField(pkt, off) == 0 && off + 8 < |pkt| then
      Unwrapped(pkt, pkt[off], off + 8)
    else true
  }

  /** Without such a header the code finds what the RFC says is there. */
  lemma {:induction false} UnwrappedAgrees(pkt: seq<byte>, nh: byte, off: nat)
    requires off <= |pkt| && Unwrapped(pkt, nh, off)
    ensures Walk(pkt, nh, off) == Some(WideWalk(pkt, nh, off))
    decreases |pkt| - off
  {
    if IsExt(nh) && off + 2 <= |pkt| && off + 8 * (pkt[off + 1] as nat + 1) < |pkt| {
      UnwrappedAgrees(pkt, pkt[off], off + 8 * (pkt[off + 1] as nat + 1));
    } else if nh == 44 && off + 8 <= |pkt| && FragField(pkt, off) == 0 && off + 8 < |pkt| {
      UnwrappedAgrees(pkt, pkt[off], off + 8);
    }
  }

  /** With one before the transport header it takes that extension header for the transport header. */
  lemma WrapMisplaces(pkt: seq<byte>, nh: byte, off: nat)
    requires off + 2 < |pkt| && IsExt(nh) && pkt[off + 1] == 255 && !IsExt(pkt[off]) && pkt[off] != 44
    ensures Walk(pkt, nh, off) == Some(Transport(pkt[off], off)) && WideWalk(pkt, nh, off) != Transport(pkt[off], off)
  {
    if off + 2048 < |pkt| { WideWalkMovesOn(pkt, pkt[off], off + 2048); }
  }

  lemma {:induction false} WideWalkMovesOn(pkt: seq<byte>, nh: byte, off: nat)
    requires off <= |pkt|
    ensures WideWalk(pkt, nh, off).Transport? ==> WideWalk(pkt, nh, off).off >= off
    decreases |pkt| - off
  {
    if IsExt(nh) && off + 2 <= |pkt| && off + 8 * (pkt[off + 1] as nat + 1) < |pkt| {
      WideWalkMovesOn(pkt, pkt[off], off + 8 * (pkt[off + 1] as nat + 1));
    } else if nh == 44 && off + 8 <= |pkt| && FragField(pkt, off) == 0 && off + 8 < |pkt| {
      WideWalkMovesOn(pkt, pkt[off], off + 8);
    }
  }

  // ------------------------------------------------------------------ parsing

  predicate IsV6(pkt: seq<byte>) { |pkt| >= 40 && pkt[0] / 16 == 6 }

  /** The packets on which `parseIPHeader` returns at all. */
  predicate ParseReturns(pkt: seq<byte>) {
    IsV6(pkt) ==> Walk(pkt, pkt[6], 40).Some?
  }

  /** The loop does spin on packets it is given: any IPv6 packet whose first extension header has
      length byte 255 and names another one. No such packet ever leaves `parseIPHeader`. */
  lemma WalkCanSpin(pkt: seq<byte>)
    requires |pkt| >= 42 && pkt[0] / 16 == 6 && IsExt(pkt[6]) && IsExt(pkt[40]) && pkt[41] == 255
    ensures !ParseReturns(pkt) && forall n: nat :: Run(pkt, pkt[6], 40, n).At?
  {
    forall n: nat ensures Run(pkt, pkt[6], 40, n).At? { StuckForever(pkt, pkt[6], 40, n); }
    if ParseReturns(pkt) { var n := WalkIsLoop(pkt, pkt[6], 40); }
  }

  function Ihl(pkt: seq<byte>): nat
    requires |pkt| > 0
  {
    pkt[0] % 16 * 4
  }

  function ParseV4(pkt: seq<byte>): Option<Header>
    requires |pkt| >= 20
  {
    if Ihl(pkt) < 20 || |pkt| < Ihl(pkt) then None
    else Some(Header(true, FromBytes(IPv4, pkt[12..16]), FromBytes(IPv4, pkt[16..20]), 12, 16,
                     if U16At(pkt, 6) % 0x2000 == 0 then Some(Ihl(pkt)) else None, pkt[9]))
  }

  function ParseV6(pkt: seq<byte>): Option<Header>
    requires IsV6(pkt) && ParseReturns(pkt)
  {
    var h := Header(false, FromBytes(IPv6, pkt[8..24]), FromBytes(IPv6, pkt[24..40]), 8, 24, None, 0);
    match Walk(pkt, pkt[6], 40).value
    case Bad => None
    case NoTransport => Some(h)
    case Transport(proto, off) => Some(h.(l4Off := Some(off), l4Proto := proto))
  }

  function Parse(pkt: seq<byte>): (r: Option<Header>)
    requires ParseReturns(pkt)
  {
    if |pkt| < 20 then None
    else if pkt[0] / 16 == 4 then ParseV4(pkt)
    else if pkt[0] / 16 == 6 then if |pkt| < 40 then None else ParseV6(pkt)
    else None
  }

  /** Which packets have a readable header: IPv4 of at least 20 bytes and no shorter than its header length says,
      IPv6 of at least 40 whose extension headers fit. */
  lemma ParseIff(pkt: seq<byte>)
    requires ParseReturns(pkt)
    ensures Parse(pkt).Some? <==>
      || (|pkt| >= 20 && pkt[0] / 16 == 4 && 5 <= pkt[0] % 16 && pkt[0] as nat % 16 * 4 <= |pkt|)
      || (|pkt| >= 40 && pkt[0] / 16 == 6 && Walk(pkt, pkt[6], 40).value != Bad)
    ensures Parse(pkt).Some? && pkt[0] / 16 == 4 ==> var h := Parse(pkt).value;
      && h.v4 && h.l4Proto == pkt[9]
      && h.l4Off == if (pkt[6] as nat * 256 + pkt[7]) % 8192 == 0 then Some(pkt[0] as nat % 16 * 4) else None
    ensures Parse(pkt).Some? && pkt[0] / 16 == 6 ==> var h, w := Parse(pkt).value, Walk(pkt, pkt[6], 40).value;
      && !h.v4 && (h.l4Off.Some? <==> w.Transport?) && (w.Transport? ==> w == Transport(h.l4Proto, h.l4Off.value))
  {
  }

  /** Everything later code relies on about an accepted header. */
  predicate Shape(pkt: seq<byte>, h: Header) {
    && |pkt| >= 20
    && h.src.Valid() && h.dst.Valid() && h.src.fam == h.dst.fam == h.Fam()
    && (h.v4 ==> 20 <= Ihl(pkt) <= |pkt| && Ihl(pkt) % 4 == 0 && h.srcOff == 12 && h.dstOff == 16)
    && (!h.v4 ==> |pkt| >= 40 && h.srcOff == 8 && h.dstOff == 24)
    && (h.l4Off.Some? ==> (if h.v4 then Ihl(pkt) else 40) <= h.l4Off.value <= |pkt|)
    && (h.v4 && h.l4Off.Some? ==> h.l4Off.value == Ihl(pkt))
    && pkt[h.srcOff..h.srcOff + h.Fam().Size()] == Bytes(h.src)
    && pkt[h.dstOff..h.dstOff + h.Fam().Size()] == Bytes(h.dst)
  }

  lemma ParsedShape(pkt: seq<byte>)
    requires ParseReturns(pkt) && Parse(pkt).Some?
    ensures Shape(pkt, Parse(pkt).value)
  {
    var h := Parse(pkt).value;
    ToBytesVal(pkt[h.srcOff..h.srcOff + h.Fam().Size()]);
    ToBytesVal(pkt[h.dstOff..h.dstOff + h.Fam().Size()]);
  }

  /** `parseIPHeader`: the loop reads only inside the packet and returns what `Parse` says. */
  method ParseIPHeader(pkt: seq<byte>) returns (r: Option<Header>)
    requires ParseReturns(pkt)
    ensures r == Parse(pkt)
  {
    if |pkt| < 20 { return None; }
    if pkt[0] / 16 == 4 {
      var ihl := Ihl(pkt);
      if ihl < 20 || |pkt| < ihl { return None; }
      var h := Header(true, FromBytes(IPv4, pkt[12..16]), FromBytes(IPv4, pkt[16..20]), 12, 16, None, pkt[9]);
      var fragOff := U16At(pkt, 6) % 0x2000;
      if fragOff == 0 { h := h.(l4Off := Some(ihl)); }
      return Some(h);
    } else if pkt[0] / 16 == 6 {
      if |pkt| < 40 { return None; }
      var h := Header(false, FromBytes(IPv6, pkt[8..24]), FromBytes(IPv6, pkt[24..40]), 8, 24, None, 0);
      var nh: byte := pkt[6];
      var off := 40;
      while true
        invariant 40 <= off <= |pkt|
        invariant Walk(pkt, nh, off).Some? && Walk(pkt, nh, off) == Walk(pkt, pkt[6], 40)
        decreases |pkt| - off, if IsExt(nh) then 1 else 0
      {
        if nh == 0 || nh == 43 || nh == 60 {
          if |pkt| < off + 2 { return None; }
          nh, off := pkt[off], off + (pkt[off + 1] as nat + 1) % 256 * 8;
        } else if nh == 44 {
          if |pkt| < off + 8 { return None; }
          var fragOff := U16At(pkt, off + 2) / 8;
          nh, off := pkt[off], off + 8;
          if fragOff != 0 { return Some(h); }
        } else {
          h := h.(l4Proto := nh);
          if |pkt| >= off { h := h.(l4Off := Some(off)); }
          return Some(h);
        }
        if off >= |pkt| { return None; }
      }
    } else {
      return None;
    }
  }
}
