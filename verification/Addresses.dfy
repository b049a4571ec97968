/** IP addresses and prefixes as Go's net/netip sees them: a family, a number and a length. */
module Addresses {
  import opened Pow2s

  type byte = x: int | 0 <= x < 256

  datatype Family = IPv4 | IPv6 {
    function Size(): nat { if IPv4? then 4 else 16 }
    function Bits(): nat { 8 * Size() }
  }

  datatype Addr = Addr(fam: Family, n: nat) {
    predicate Valid() { n < Pow2(fam.Bits()) }
  }

  datatype Prefix = Prefix(fam: Family, n: nat, bits: nat) {
    predicate Valid() { bits <= fam.Bits() && n < Pow2(fam.Bits()) }

    function HostBits(): nat {
      if bits <= fam.Bits() then fam.Bits() - bits else 0
    }

    /** First address of the block. */
    function Base(): nat {
      DivModNat(n, Pow2(HostBits()));
      n / Pow2(HostBits()) * Pow2(HostBits())
    }

    function Masked(): Prefix {
      Prefix(fam, Base(), bits)
    }

    predicate IsMasked() {
      n == Base()
    }

    predicate Contains(a: Addr) {
      a.fam == fam && a.n / Pow2(HostBits()) == n / Pow2(HostBits())
    }

    /** Two prefixes overlap when they agree on the shorter of the two lengths. */
    predicate Overlaps(q: Prefix) {
      fam == q.fam &&
      var h := if HostBits() >= q.HostBits() then HostBits() else q.HostBits();
      n / Pow2(h) == q.n / Pow2(h)
    }

    function Addr0(): Addr { Addr(fam, n) }
  }

  /** What `Contains` means: the address lies in the block of 2^HostBits addresses at Base. */
  lemma ContainsIsRange(p: Prefix, a: Addr)
    ensures p.Contains(a) <==> a.fam == p.fam && p.Base() <= a.n < p.Base() + Pow2(p.HostBits())
  {
    var m := Pow2(p.HostBits());
    var q := p.n / m;
    DivModNat(p.n, m);
    DivModNat(a.n, m);
    if q * m <= a.n < q * m + m {
      DivModUnique(a.n, m, q, a.n - q * m);
    }
  }

  lemma CoarserAgrees(x: nat, y: nat, h: nat, g: nat)
    requires h <= g && x / Pow2(h) == y / Pow2(h)
    ensures x / Pow2(g) == y / Pow2(g)
  {
    DivPow2Add(x, h, g - h);
    DivPow2Add(y, h, g - h);
  }

  /** `Overlaps` is exactly sharing an address. */
  lemma OverlapsIffShared(p: Prefix, q: Prefix)
    ensures p.Overlaps(q) <==> exists a: Addr :: p.Contains(a) && q.Contains(a)
  {
    if p.Overlaps(q) {
      if p.HostBits() >= q.HostBits() {
        assert p.Contains(q.Addr0()) && q.Contains(q.Addr0());
      } else {
        assert p.Contains(p.Addr0()) && q.Contains(p.Addr0());
      }
    }
    if a: Addr :| p.Contains(a) && q.Contains(a) {
      SharedMeansOverlaps(p, q, a);
    }
  }

  lemma SharedMeansOverlaps(p: Prefix, q: Prefix, a: Addr)
    requires p.Contains(a) && q.Contains(a)
    ensures p.Overlaps(q)
  {
    var h := if p.HostBits() >= q.HostBits() then p.HostBits() else q.HostBits();
    CoarserAgrees(a.n, p.n, p.HostBits(), h);
    CoarserAgrees(a.n, q.n, q.HostBits(), h);
  }

  lemma OverlapsSymmetric(p: Prefix, q: Prefix)
    ensures p.Overlaps(q) == q.Overlaps(p)
  {
  }

  /** Masking keeps the block. */
  lemma MaskedSameBlock(p: Prefix)
    ensures p.Masked().IsMasked() && (p.Valid() ==> p.Masked().Valid())
    ensures forall a: Addr :: p.Masked().Contains(a) == p.Contains(a)
    ensures forall q: Prefix :: p.Masked().Overlaps(q) == p.Overlaps(q)
  {
    var m := Pow2(p.HostBits());
    var q := p.n / m;
    DivModNat(p.n, m);
    DivModUnique(q * m, m, q, 0);
    forall r: Prefix ensures p.Masked().Overlaps(r) == p.Overlaps(r) {
      var h := if p.HostBits() >= r.HostBits() then p.HostBits() else r.HostBits();
      CoarserAgrees(p.Base(), p.n, p.HostBits(), h);
    }
  }

  /** Two masked prefixes of one length that share an address are the same prefix. */
  lemma EqualLengthDisjoint(p: Prefix, q: Prefix)
    requires p.IsMasked() && q.IsMasked() && p.bits == q.bits
    requires p.Overlaps(q)
    ensures p == q
  {
  }

  // Big-endian byte strings.

  function Val(s: seq<byte>): (r: nat)
  {
    if |s| == 0 then 0 else Val(s[..|s| - 1]) * 256 + s[|s| - 1]
  }

  function ToBytes(n: nat, k: nat): (s: seq<byte>)
    ensures |s| == k
  {
    if k == 0 then [] else ToBytes(n / 256, k - 1) + [n % 256]
  }

  lemma {:induction false} ValBound(s: seq<byte>)
    ensures Val(s) < Pow2(8 * |s|)
  {
    if |s| > 0 {
      ValBound(s[..|s| - 1]);
      Pow2Add(8 * (|s| - 1), 8);
      assert 8 * (|s| - 1) + 8 == 8 * |s| && Pow2(8) == 256;
    }
  }

  lemma {:induction false} ValToBytes(n: nat, k: nat)
    requires n < Pow2(8 * k)
    ensures Val(ToBytes(n, k)) == n
  {
    if k > 0 {
      Pow2Add(8 * (k - 1), 8);
      assert 8 * (k - 1) + 8 == 8 * k && Pow2(8) == 256;
      ValToBytes(n / 256, k - 1);
      assert ToBytes(n, k)[..k - 1] == ToBytes(n / 256, k - 1);
    }
  }

  lemma {:induction false} ToBytesVal(s: seq<byte>)
    ensures ToBytes(Val(s), |s|) == s
  {
    if |s| > 0 {
      ToBytesVal(s[..|s| - 1]);
      DivModUnique(Val(s), 256, Val(s[..|s| - 1]), s[|s| - 1]);
      assert s == s[..|s| - 1] + [s[|s| - 1]];
    }
  }

  function FromBytes(fam: Family, s: seq<byte>): (a: Addr)
    requires |s| == fam.Size()
    ensures a.Valid() && a.fam == fam
  {
    ValBound(s);
    Addr(fam, Val(s))
  }

  function Bytes(a: Addr): (s: seq<byte>)
    ensures |s| == a.fam.Size()
  {
    ToBytes(a.n, a.fam.Size())
  }

  lemma AddrBytesRoundTrip(a: Addr, s: seq<byte>)
    requires a.Valid() && |s| == a.fam.Size()
    ensures FromBytes(a.fam, Bytes(a)) == a
    ensures Bytes(FromBytes(a.fam, s)) == s
  {
    ValToBytes(a.n, a.fam.Size());
    ToBytesVal(s);
  }
}
