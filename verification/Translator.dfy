/** Stateless address translation at a site edge: prefix remapping and the in-place rewrite
    of one address together with the checksums that cover it. */
module Translators {
  import opened Wrappers
  import opened Pow2s
  import opened Addresses
  import opened Checksums
  import opened IpHeaders

  datatype RouteMap = RouteMap(lan: Prefix, virt: Prefix) {
    /** What `NewTranslator` insists on. */
    predicate Valid() {
      lan.Valid() && virt.Valid() && lan.fam == virt.fam && lan.bits == virt.bits
    }

    /** The prefix an address must be in, and the one it is moved to. */
    function From(toLocal: bool): Prefix { if toLocal then virt else lan }
    function To(toLocal: bool): Prefix { From(!toLocal) }
  }

  datatype Translator = Translator(maps: seq<RouteMap>, local: seq<Addr>) {
    predicate Valid() { forall m <- maps :: m.Valid() }
  }

  method NewTranslator(maps: seq<RouteMap>, local: seq<Addr>) returns (t: Option<Translator>)
    requires forall m <- maps :: m.lan.Valid() && m.virt.Valid()
    ensures t.Some? <==> forall m <- maps :: m.Valid()
    ensures t.Some? ==> t.value == Translator(maps, local)
  {
    var kept: seq<RouteMap> := [];
    for i := 0 to |maps|
      invariant kept == maps[..i]
      invariant forall m <- kept :: m.Valid()
    {
      var m := maps[i];
      assert m in maps;
      if m.lan.fam != m.virt.fam { return None; }
      if m.lan.bits != m.virt.bits { return None; }
      kept := kept + [m];
    }
    assert kept == maps;
    t := Some(Translator(kept, local));
  }

  // ---------------------------------------------------------------- remapping

  /** The network part of `to` with the host part of `a`. */
  function Remap(a: Addr, from: Prefix, to: Prefix): Addr {
    Addr(from.fam, to.Base() + a.n % Pow2(from.HostBits()))
  }

  /** `a.fam.Size()` bytes: whole bytes of `o` first, one mixed byte, whole bytes of `a` last. */
  function HostBitsIn(j: nat, bits: nat): nat {
    if 8 * j <= bits then 0 else 8 * j - bits
  }

  /** One more byte in front of the byte-wise invariant. */
  lemma RemapByte(vo: nat, va: nat, vr: nat, o: byte, a: byte, r: byte, j: nat, bits: nat)
    requires var m := Pow2(HostBitsIn(j, bits)); vr == vo / m * m + va % m
    requires Picked(o, a, r, j, bits)
    ensures var m := Pow2(HostBitsIn(j + 1, bits));
      vr * 256 + r == (vo * 256 + o) / m * m + (va * 256 + a) % m
  {
    assert Pow2(0) == 1 && Pow2(8) == 256;
    if 8 * j + 8 <= bits {
    } else if bits <= 8 * j {
      var h := 8 * j - bits;
      DivModUnique(vo * 256 + o, 256, vo, o);
      DivModUnique(va * 256 + a, 256, va, a);
      DivPow2Add(vo * 256 + o, 8, h);
      DivPow2Add(va * 256 + a, 8, h);
      Pow2Add(8, h);
      Regroup(vo / Pow2(h), Pow2(h));
    } else {
      var k := 8 * j + 8 - bits;
      Pow2Add(8 - k, k);
      SplitLow(vo, o, Pow2(8 - k), Pow2(k));
      SplitLow(va, a, Pow2(8 - k), Pow2(k));
    }
  }

  lemma Regroup(q: int, m: int)
    ensures q * m * 256 == q * (256 * m)
  {
  }

  lemma SplitLow(v: nat, b: byte, hi: nat, m: nat)
    requires hi * m == 256 && m > 0
    ensures (v * 256 + b) / m * m == v * 256 + b as int - b as int % m
    ensures (v * 256 + b) % m == b as int % m
  {
    var q := b as int / m;
    DivModNat(b, m);
    assert v * 256 + b == (v * hi + q) * m + b as int % m by {
      calc {
        (v * hi + q) * m;
        { Distribute(v, hi, q, m); }
        v * (m * hi) + q * m;
        { assert m * hi == hi * m; }
        v * 256 + q * m;
      }
    }
    DivModUnique(v * 256 + b, m, v * hi + q, b as int % m);
  }

  /** The byte the loop writes: network bits from `o`, host bits from `a`. */
  predicate Picked(o: byte, a: byte, r: byte, i: nat, bits: nat) {
    (8 * i + 8 <= bits ==> r == o) &&
    (bits <= 8 * i ==> r == a) &&
    (8 * i < bits < 8 * i + 8 ==> r == MaskMerge(o, a, 8 * i + 8 - bits))
  }

  /** `(o & mask) | (a & ^mask)` for the mask that clears the low `k` bits. */
  function MaskMerge(o: byte, a: byte, k: nat): byte
    requires 0 < k < 8
  {
    MixedByte(o, a, k);
    o as int - o as int % Pow2(k) + a as int % Pow2(k)
  }

  /** The mask of `remapAddr`, all ones but for the low `k` bits. */
  function Mask(k: nat): bv8
    requires 0 < k < 8
  {
    match k
    case 1 => 0xFF << 1
    case 2 => 0xFF << 2
    case 3 => 0xFF << 3
    case 4 => 0xFF << 4
    case 5 => 0xFF << 5
    case 6 => 0xFF << 6
    case 7 => 0xFF << 7
  }

  lemma LowBitsUpTo2(a: bv8)
    ensures (a & 0x01) as int == a as int % 2 && (a & 0x03) as int == a as int % 4
  {
  }

  lemma LowBitsUpTo4(a: bv8)
    ensures (a & 0x07) as int == a as int % 8 && (a & 0x0F) as int == a as int % 16
  {
  }

  lemma LowBitsUpTo6(a: bv8)
    ensures (a & 0x1F) as int == a as int % 32 && (a & 0x3F) as int == a as int % 64
  {
  }

  lemma LowBits7(a: bv8)
    ensures (a & 0x7F) as int == a as int % 128
  {
  }

  lemma SmallPowers()
    ensures Pow2(1) == 2 && Pow2(2) == 4 && Pow2(3) == 8 && Pow2(4) == 16 && Pow2(5) == 32 && Pow2(6) == 64
    ensures Pow2(7) == 128
  {
  }

  lemma LowBits(a: bv8, k: nat)
    requires 0 < k < 8
    ensures (a & !Mask(k)) as int == a as int % Pow2(k)
  {
    LowBitsUpTo2(a);
    LowBitsUpTo4(a);
    LowBitsUpTo6(a);
    LowBits7(a);
    SmallPowers();
  }

  lemma DisjointBits(x: bv8, y: bv8)
    requires x & y == 0
    ensures (x | y) as int == x as int + y as int
  {
    assert x | y == x + y;
  }

  lemma SwapLowPart(o: bv8, x: bv8, was: bv8, now: bv8)
    requires x & was == 0 && x | was == o && x & now == 0
    ensures (x | now) as int == o as int - was as int + now as int
  {
    DisjointBits(x, was);
    DisjointBits(x, now);
  }

  lemma Apart(o: bv8, a: bv8, m: bv8)
    ensures (o & m) & (o & !m) == 0 && (o & m) | (o & !m) == o && (o & m) & (a & !m) == 0
  {
  }

  lemma MaskParts(o: bv8, a: bv8, m: bv8)
    ensures ((o & m) | (a & !m)) as int == o as int - (o & !m) as int + (a & !m) as int
  {
    Apart(o, a, m);
    SwapLowPart(o, o & m, o & !m, a & !m);
  }

  /** `MaskMerge` is the masking the code writes, bit for bit. */
  lemma MaskMergeIsMasking(o: bv8, a: bv8, k: nat, m: bv8)
    requires 0 < k < 8 && m == Mask(k)
    ensures MaskMerge(o as int, a as int, k) == ((o & m) | (a & !m)) as int
  {
    LowBits(o, k);
    LowBits(a, k);
    MergeFromLow(o, a, k, m);
  }

  lemma MergeFromLow(o: bv8, a: bv8, k: nat, m: bv8)
    requires 0 < k < 8 && (o & !m) as int == o as int % Pow2(k) && (a & !m) as int == a as int % Pow2(k)
    ensures MaskMerge(o as int, a as int, k) == ((o & m) | (a & !m)) as int
  {
    MaskParts(o, a, m);
  }

  lemma {:induction false} PickedVal(o: seq<byte>, a: seq<byte>, r: seq<byte>, j: nat, bits: nat)
    requires |o| == |a| == |r| && j <= |r|
    requires forall i | 0 <= i < j :: Picked(o[i], a[i], r[i], i, bits)
    ensures var m := Pow2(HostBitsIn(j, bits));
      Val(r[..j]) == Val(o[..j]) / m * m + Val(a[..j]) % m
  {
    if j == 0 {
      assert Pow2(0) == 1;
    } else {
      PickedVal(o, a, r, j - 1, bits);
      SnocVal(o, j - 1); SnocVal(a, j - 1); SnocVal(r, j - 1);
      assert Picked(o[j - 1], a[j - 1], r[j - 1], j - 1, bits);
      RemapByte(Val(o[..j - 1]), Val(a[..j - 1]), Val(r[..j - 1]), o[j - 1], a[j - 1], r[j - 1], j - 1, bits);
    }
  }

  /** `remapAddr`: the byte loop computes the numeric remap, for every length and both families. */
  method RemapAddr(addr: Addr, from: Prefix, to: Prefix) returns (r: Addr)
    requires addr.Valid() && from.Valid() && to.Valid()
    requires addr.fam == from.fam == to.fam && from.bits == to.bits
    ensures r == Remap(addr, from, to) && r.Valid()
  {
    var size := addr.fam.Size();
    var bits := from.bits;
    MaskedSameBlock(to);
    var a: seq<byte>, o: seq<byte> := Bytes(addr), Bytes(to.Masked().Addr0());
    var out: seq<byte> := o;
    for i := 0 to size
      invariant |out| == size
      invariant forall k | 0 <= k < i :: Picked(o[k], a[k], out[k], k, bits)
    {
      var b: byte;
      if bits >= 8 * i + 8 {
        b := o[i];
      } else if bits <= 8 * i {
        b := a[i];
      } else {
        b := MaskMerge(o[i], a[i], 8 * i + 8 - bits);
      }
      out := out[i := b];
    }
    r := FromBytes(addr.fam, out);
    RemapNumeric(addr, from, to, o, a, out);
  }

  lemma BaseIsAligned(n: nat, m: nat)
    requires m > 0
    ensures n / m * m >= 0 && n / m * m / m * m == n / m * m
  {
    DivModNat(n, m);
    DivModUnique(n / m * m, m, n / m, 0);
  }

  lemma RemapNumeric(addr: Addr, from: Prefix, to: Prefix, o: seq<byte>, a: seq<byte>, out: seq<byte>)
    requires addr.Valid() && from.Valid() && to.Valid() && addr.fam == from.fam == to.fam && from.bits == to.bits
    requires a == Bytes(addr) && o == Bytes(to.Masked().Addr0()) && |out| == addr.fam.Size()
    requires forall k | 0 <= k < |out| :: Picked(o[k], a[k], out[k], k, from.bits)
    ensures Val(out) == Remap(addr, from, to).n
  {
    var size := addr.fam.Size();
    assert Val(a) == addr.n && Val(o) == to.Base() by {
      MaskedSameBlock(to);
      ValToBytes(addr.n, size);
      ValToBytes(to.Base(), size);
    }
    PickedVal(o, a, out, size, from.bits);
    assert out[..size] == out && o[..size] == o && a[..size] == a;
    assert HostBitsIn(size, from.bits) == from.HostBits() == to.HostBits();
    BaseIsAligned(to.n, Pow2(to.HostBits()));
  }

  lemma MixedByte(o: byte, a: byte, k: nat)
    requires 0 < k < 8
    ensures var m := Pow2(k); 0 <= o as int - o as int % m + a as int % m < 256
  {
    Pow2Add(8 - k, k);
    assert Pow2(8) == 256 && (8 - k) + k == 8;
    BlockFits(o, Pow2(8 - k), Pow2(k));
    DivModNat(o, Pow2(k));
    DivModNat(a, Pow2(k));
  }

  lemma BlockFits(o: byte, hi: nat, m: nat)
    requires hi * m == 256 && m > 0
    ensures o as int - o as int % m + m <= 256
  {
    DivModNat(o, m);
    var q := o as int / m;
    if q >= hi { MulMono(hi, q, m); }
    MulMono(q + 1, hi, m);
    Distribute(q, 1, 1, m);
  }

  lemma SnocVal(s: seq<byte>, i: nat)
    requires i < |s|
    ensures Val(s[..i + 1]) == Val(s[..i]) * 256 + s[i]
  {
    assert s[..i + 1][..i] == s[..i];
  }

  /** Remapping lands in the target block, and remapping back undoes it. */
  lemma RemapInverse(a: Addr, from: Prefix, to: Prefix)
    requires from.fam == to.fam && from.bits == to.bits && from.Contains(a)
    ensures to.Contains(Remap(a, from, to))
    ensures Remap(Remap(a, from, to), to, from) == a
  {
    var m := Pow2(from.HostBits());
    DivModNat(a.n, m);
    DivModNat(to.n, m);
    DivModUnique(to.Base() + a.n % m, m, to.n / m, a.n % m);
  }

  // ------------------------------------------------------- choosing the mapping

  /** The first mapping whose virtual (to the LAN) or real (to the tunnel) prefix holds `a`. */
  function FindMap(maps: seq<RouteMap>, a: Addr, toLocal: bool): (r: Option<RouteMap>)
    ensures r.Some? ==> r.value in maps && (if toLocal then r.value.virt else r.value.lan).Contains(a)
    ensures r.None? ==> forall m <- maps :: !(if toLocal then m.virt else m.lan).Contains(a)
  {
    if maps == [] then None
    else if (if toLocal then maps[0].virt else maps[0].lan).Contains(a) then Some(maps[0])
    else FindMap(maps[1..], a, toLocal)
  }

  /** The address a packet leaves with, `None` when it is dropped. */
  function NewAddr(t: Translator, a: Addr, toLocal: bool): Option<Addr> {
    if t.maps == [] then None
    else match FindMap(t.maps, a, toLocal)
      case None => if a in t.local then Some(a) else None
      case Some(m) => Some(if toLocal then Remap(a, m.virt, m.lan) else Remap(a, m.lan, m.virt))
  }

  ghost predicate Disjoint(maps: seq<RouteMap>) {
    forall i, j | 0 <= i < j < |maps| ::
      !maps[i].lan.Overlaps(maps[j].lan) && !maps[i].virt.Overlaps(maps[j].virt)
  }

  /** Under disjoint prefixes only one mapping matches. */
  lemma MapUnique(maps: seq<RouteMap>, a: Addr, toLocal: bool, m: RouteMap)
    requires Disjoint(maps) && m in maps
    requires (if toLocal then m.virt else m.lan).Contains(a)
    ensures FindMap(maps, a, toLocal) == Some(m)
  {
    var f := FindMap(maps, a, toLocal).value;
    var i :| 0 <= i < |maps| && maps[i] == f;
    var j :| 0 <= j < |maps| && maps[j] == m;
    if toLocal {
      SharedMeansOverlaps(f.virt, m.virt, a);
      OverlapsSymmetric(f.virt, m.virt);
    } else {
      SharedMeansOverlaps(f.lan, m.lan, a);
      OverlapsSymmetric(f.lan, m.lan);
    }
  }

  /** Both directions undo each other on every mapped address. */
  lemma TranslationInverse(t: Translator, a: Addr, toLocal: bool)
    requires t.Valid() && Disjoint(t.maps) && FindMap(t.maps, a, toLocal).Some?
    ensures NewAddr(t, a, toLocal).Some?
    ensures NewAddr(t, NewAddr(t, a, toLocal).value, !toLocal) == Some(a)
  {
    var m := FindMap(t.maps, a, toLocal).value;
    var b := NewAddr(t, a, toLocal).value;
    if toLocal { RemapInverse(a, m.virt, m.lan); } else { RemapInverse(a, m.lan, m.virt); }
    MapUnique(t.maps, b, !toLocal, m);
  }

  /** Mapping `j` is the first that matches. */
  predicate First(maps: seq<RouteMap>, a: Addr, toLocal: bool, j: nat) {
    j < |maps| && maps[j].From(toLocal).Contains(a) && forall i | 0 <= i < j :: !maps[i].From(toLocal).Contains(a)
  }

  lemma {:induction false} FindMapIsFirst(maps: seq<RouteMap>, a: Addr, toLocal: bool) returns (j: nat)
    requires FindMap(maps, a, toLocal).Some?
    ensures First(maps, a, toLocal, j) && FindMap(maps, a, toLocal) == Some(maps[j])
  {
    j := 0;
    if !maps[0].From(toLocal).Contains(a) {
      j := FindMapIsFirst(maps[1..], a, toLocal);
      assert forall i | 0 < i <= j :: maps[i] == maps[1..][i - 1];
      j := j + 1;
    }
  }

  /** Exactly when translating an address is undone by translating it back: no earlier mapping
      claims the address it was moved to. For any maps at all, in both directions. */
  lemma InverseIff(t: Translator, a: Addr, toLocal: bool, j: nat)
    requires t.Valid() && First(t.maps, a, toLocal, j)
    ensures NewAddr(t, a, toLocal) == Some(Remap(a, t.maps[j].From(toLocal), t.maps[j].To(toLocal)))
    ensures NewAddr(t, NewAddr(t, a, toLocal).value, !toLocal) == Some(a)
      <==> forall i | 0 <= i < j :: !t.maps[i].To(toLocal).Contains(NewAddr(t, a, toLocal).value)
  {
    var i := FindMapIsFirst(t.maps, a, toLocal);
    assert i == j;
    var m := t.maps[j];
    var b := Remap(a, m.From(toLocal), m.To(toLocal));
    RemapInverse(a, m.From(toLocal), m.To(toLocal));
    assert m in t.maps;
    var k := FindMapIsFirst(t.maps, b, !toLocal);
    var n := t.maps[k];
    RemapInverse(b, n.From(!toLocal), n.To(!toLocal));
  }

  ghost predicate PairwiseApart(maps: seq<RouteMap>, from: bool) {
    forall i, j | 0 <= i < j < |maps| :: !maps[i].From(from).Overlaps(maps[j].From(from))
  }

  ghost predicate UndoneEverywhere(t: Translator, toLocal: bool) {
    forall a: Addr :: FindMap(t.maps, a, toLocal).Some? ==>
      NewAddr(t, a, toLocal).Some? && NewAddr(t, NewAddr(t, a, toLocal).value, !toLocal) == Some(a)
  }

  /** With disjoint virtual prefixes, every packet's reply comes back if and only if the real
      prefixes are disjoint too; and likewise the other way round. */
  lemma InverseEverywhereIff(t: Translator, toLocal: bool)
    requires t.Valid() && PairwiseApart(t.maps, toLocal)
    ensures UndoneEverywhere(t, toLocal) <==> PairwiseApart(t.maps, !toLocal)
  {
    if PairwiseApart(t.maps, !toLocal) {
      forall a: Addr | FindMap(t.maps, a, toLocal).Some?
        ensures NewAddr(t, a, toLocal).Some? && NewAddr(t, NewAddr(t, a, toLocal).value, !toLocal) == Some(a)
      {
        ApartMeansUndone(t, a, toLocal);
      }
    } else {
      var i, j :| 0 <= i < j < |t.maps| && t.maps[i].To(toLocal).Overlaps(t.maps[j].To(toLocal));
      var a := ClashMeansLost(t, toLocal, i, j);
      assert FindMap(t.maps, a, toLocal).Some?;
    }
  }

  lemma ApartMeansUndone(t: Translator, a: Addr, toLocal: bool)
    requires t.Valid() && PairwiseApart(t.maps, !toLocal) && FindMap(t.maps, a, toLocal).Some?
    ensures NewAddr(t, a, toLocal).Some? && NewAddr(t, NewAddr(t, a, toLocal).value, !toLocal) == Some(a)
  {
    var j := FindMapIsFirst(t.maps, a, toLocal);
    InverseIff(t, a, toLocal, j);
    var b, m := NewAddr(t, a, toLocal).value, t.maps[j];
    assert m in t.maps;
    RemapInverse(a, m.From(toLocal), m.To(toLocal));
    forall i | 0 <= i < j ensures !t.maps[i].To(toLocal).Contains(b) {
      if t.maps[i].To(toLocal).Contains(b) { SharedMeansOverlaps(t.maps[i].To(toLocal), m.To(toLocal), b); }
    }
  }

  /** Two overlapping targets: some address is translated into the overlap and does not come back. */
  lemma ClashMeansLost(t: Translator, toLocal: bool, i: nat, j: nat) returns (a: Addr)
    requires t.Valid() && PairwiseApart(t.maps, toLocal) && i < j < |t.maps|
    requires t.maps[i].To(toLocal).Overlaps(t.maps[j].To(toLocal))
    ensures FindMap(t.maps, a, toLocal).Some? && NewAddr(t, a, toLocal).Some?
    ensures NewAddr(t, NewAddr(t, a, toLocal).value, !toLocal) != Some(a)
  {
    var m := t.maps[j];
    assert m in t.maps;
    OverlapsIffShared(t.maps[i].To(toLocal), m.To(toLocal));
    var b: Addr :| t.maps[i].To(toLocal).Contains(b) && m.To(toLocal).Contains(b);
    a := Remap(b, m.To(toLocal), m.From(toLocal));
    RemapInverse(b, m.To(toLocal), m.From(toLocal));
    forall k | 0 <= k < j ensures !t.maps[k].From(toLocal).Contains(a) {
      if t.maps[k].From(toLocal).Contains(a) { SharedMeansOverlaps(t.maps[k].From(toLocal), m.From(toLocal), a); }
    }
    InverseIff(t, a, toLocal, j);
    var k := FindMapIsFirst(t.maps, a, toLocal);
  }

  /** Disjoint real prefixes are needed: one LAN published under two virtual prefixes always
      answers under the first, whatever the lengths and addresses. */
  lemma SharedLanBreaksInverse(lan: Prefix, v1: Prefix, v2: Prefix, a: Addr)
    requires lan.fam == v1.fam == v2.fam && lan.bits == v1.bits == v2.bits
    requires !v1.Overlaps(v2) && v2.Contains(a)
    ensures var t := Translator([RouteMap(lan, v1), RouteMap(lan, v2)], []);
      NewAddr(t, a, true).Some? && NewAddr(t, NewAddr(t, a, true).value, false) != Some(a)
  {
    if v1.Contains(a) { SharedMeansOverlaps(v1, v2, a); }
    var maps := [RouteMap(lan, v1), RouteMap(lan, v2)];
    assert maps[1..][0] == maps[1];
    RemapInverse(a, v2, lan);
    RemapInverse(Remap(a, v2, lan), lan, v1);
  }
}
