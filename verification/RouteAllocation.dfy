/** The control plane's side of routing: which prefix each site gets to publish. */
module RouteAllocation {
  import opened Wrappers
  import opened Pow2s
  import opened Addresses
  import opened Peers

  datatype RouteMode = Auto | Real | Virtual

  /** A site route; `virt` is the empty string's `None` when the real prefix is presented as it is. */
  datatype AgentRoute = AgentRoute(lan: Prefix, virt: Option<Prefix>) {
    function Effective(): Prefix { if virt.Some? then virt.value else lan }

    /** Fit to be published, but for the family of its virtual prefix. */
    predicate Formed() {
      && lan.Valid() && lan.IsMasked()
      && (virt.Some? ==> virt.value.Valid() && virt.value.IsMasked() && virt.value.bits == lan.bits)
      && (virt.Some? && virt.value.fam != lan.fam ==> Mixed())
    }

    /** An IPv6 network under an IPv4 virtual prefix. */
    predicate Mixed() { lan.fam == IPv6 && virt.Some? && virt.value.fam == IPv4 }
  }

  const POOL_BASE: nat := 180944896                                  // 10.201.0.0
  const TUNNEL_NET: Prefix := Prefix(IPv4, 172818432, 24)            // 10.77.0.0/24
  const POOL: Prefix := Prefix(IPv4, 180944896, 16)                  // 10.201.0.0/16

  // ------------------------------------------------------- what an operator enters

  /** One line of `parseAgentRoutes`. */
  function ParseAgentRoute(e: Line): (r: Option<AgentRoute>)
    ensures r.Some? ==> r.value.Formed() && !r.value.Mixed() && e.lan.Read? && r.value.lan == e.lan.value.Masked()
    ensures r.Some? ==> r.value.virt == if e.virt.Read? then Some(e.virt.value.Masked()) else None
    ensures r.None? <==>
      || !e.lan.Read? || e.virt.Unreadable? || (e.lan.value.fam == IPv4 && e.lan.value.bits < 8)
      || (e.virt.Read? && (e.virt.value.fam != e.lan.value.fam || e.virt.value.bits != e.lan.value.bits))
  {
    if !e.lan.Read? || (e.lan.value.fam == IPv4 && e.lan.value.bits < 8) then None
    else
      MaskedSameBlock(e.lan.value);
      match e.virt
      case Blank => Some(AgentRoute(e.lan.value.Masked(), None))
      case Unreadable => None
      case Read(v) =>
        MaskedSameBlock(v);
        if v.fam != e.lan.value.fam || v.bits != e.lan.value.bits then None
        else Some(AgentRoute(e.lan.value.Masked(), Some(v.Masked())))
  }

  /** All lines, in order; one bad line refuses them all. */
  function ParseLines(lines: seq<Line>): (r: Option<seq<AgentRoute>>) {
    if lines == [] then Some([])
    else
      var front, last := ParseLines(lines[..|lines| - 1]), ParseAgentRoute(lines[|lines| - 1]);
      if front.None? || last.None? then None else Some(front.value + [last.value])
  }

  /** `parseAgentRoutes` once the text is cut into lines. */
  method ParseAgentRoutes(lines: seq<Line>) returns (r: Option<seq<AgentRoute>>)
    ensures r == ParseLines(lines)
    ensures r.None? <==> exists e <- lines :: ParseAgentRoute(e).None?
    ensures r.Some? ==> |r.value| == |lines|
    ensures r.Some? ==> forall i | 0 <= i < |lines| :: Some(r.value[i]) == ParseAgentRoute(lines[i])
  {
    var out: seq<AgentRoute> := [];
    for i := 0 to |lines|
      invariant ParseLines(lines[..i]) == Some(out) && |out| == i
      invariant forall j | 0 <= j < i :: Some(out[j]) == ParseAgentRoute(lines[j])
    {
      assert lines[..i + 1][..i] == lines[..i] && lines[i] in lines;
      var one := ParseAgentRoute(lines[i]);
      if one.None? {
        BadLine(lines, i);
        return None;
      }
      out := out + [one.value];
    }
    assert lines[..|lines|] == lines;
    return Some(out);
  }

  lemma {:induction false} BadLine(lines: seq<Line>, i: nat)
    requires i < |lines| && ParseAgentRoute(lines[i]).None?
    ensures ParseLines(lines) == None
  {
    if i < |lines| - 1 { BadLine(lines[..|lines| - 1], i); }
  }

  lemma {:induction false} LinesFormed(lines: seq<Line>)
    requires ParseLines(lines).Some?
    ensures forall r <- ParseLines(lines).value :: r.Formed() && !r.Mixed()
  {
    if lines != [] { LinesFormed(lines[..|lines| - 1]); }
  }

  // ------------------------------------------------------------ prefixes in use

  predicate OverlapsAny(p: Prefix, list: seq<Prefix>) { exists q <- list :: p.Overlaps(q) }

  method CheckOverlaps(p: Prefix, list: seq<Prefix>) returns (b: bool)
    ensures b == OverlapsAny(p, list)
  {
    for i := 0 to |list|
      invariant forall k | 0 <= k < i :: !p.Overlaps(list[k])
    {
      if p.Overlaps(list[i]) { return true; }
    }
    return false;
  }

  predicate Free(p: Prefix, used: seq<Prefix>) { !OverlapsAny(p, used) && !p.Overlaps(TUNNEL_NET) }

  // --------------------------------------------------------------- the allocator

  /** Lengths the pool can serve; /8 to /15 are tried once, at the pool's base address. */
  predicate Supported(bits: nat) { 8 <= bits <= 28 }

  function Block(bits: nat): nat
    requires bits <= 32
  {
    Pow2(32 - bits)
  }

  /** The `k`-th candidate of a length. */
  function Candidate(bits: nat, k: nat): Prefix
    requires bits <= 32
  {
    Prefix(IPv4, POOL_BASE + k * Block(bits), bits).Masked()
  }

  /** How many candidates the loop visits: offsets below 2^16 in steps of one block. */
  function Count(bits: nat): nat
    requires bits <= 32
  {
    if bits >= 16 then Pow2(bits - 16) else 1
  }

  lemma CountBound(bits: nat, k: nat)
    requires bits <= 32
    ensures k * Block(bits) < 0x1_0000 <==> k < Count(bits)
  {
    Pow2Values();
    if bits >= 16 {
      Pow2Add(bits - 16, 32 - bits);
      BelowProduct(k, Count(bits), Block(bits));
    } else {
      Pow2Mono(16, 32 - bits);
      if k >= 1 { MulMono(1, k, Block(bits)); }
    }
  }

  lemma BelowProduct(k: nat, n: nat, m: nat)
    requires m > 0
    ensures k * m < n * m <==> k < n
  {
    if k < n {
      MulMono(k + 1, n, m);
      Distribute2(k, 1, m);
    } else {
      MulMono(n, k, m);
    }
  }

  /** First fit, from candidate `k` on. */
  function FirstFit(bits: nat, used: seq<Prefix>, k: nat): (r: Option<Prefix>)
    requires bits <= 32 && k <= Count(bits)
    decreases Count(bits) - k
  {
    if k == Count(bits) then None
    else if Free(Candidate(bits, k), used) then Some(Candidate(bits, k))
    else FirstFit(bits, used, k + 1)
  }

  /** `allocVirtualPrefix`. */
  method AllocVirtualPrefix(lan: Prefix, used: seq<Prefix>) returns (r: Option<Prefix>)
    ensures r == if Supported(lan.bits) then FirstFit(lan.bits, used, 0) else None
  {
    var bits := lan.bits;
    if bits < 8 || bits > 28 { return None; }
    var block := Block(bits);
    var off := 0;
    ghost var k: nat := 0;
    CountBound(bits, 0);
    while off < 0x1_0000
      invariant k <= Count(bits) && off == k * block && FirstFit(bits, used, 0) == FirstFit(bits, used, k)
      decreases Count(bits) - k
    {
      CountBound(bits, k);
      var cand := Prefix(IPv4, POOL_BASE + off, bits).Masked();
      var taken := CheckOverlaps(cand, used);
      if !taken && !cand.Overlaps(TUNNEL_NET) { return Some(cand); }
      Distribute(k, 1, 1, block);
      off := off + block;
      k := k + 1;
    }
    CountBound(bits, k);
    return None;
  }

  /** First fit returns the lowest free candidate and fails only when there is none. */
  lemma {:induction false} FirstFitIsLowest(bits: nat, used: seq<Prefix>, k: nat) returns (j: nat)
    requires bits <= 32 && k <= Count(bits)
    ensures FirstFit(bits, used, k).Some? ==>
      k <= j < Count(bits) && FirstFit(bits, used, k) == Some(Candidate(bits, j)) && Free(Candidate(bits, j), used)
    ensures FirstFit(bits, used, k).None? ==> j == Count(bits)
    ensures forall i | k <= i < j :: !Free(Candidate(bits, i), used)
    decreases Count(bits) - k
  {
    j := k;
    if k < Count(bits) && !Free(Candidate(bits, k), used) {
      j := FirstFitIsLowest(bits, used, k + 1);
    }
  }

  /** Candidates of length 16 to 28 are consecutive aligned blocks. */
  lemma CandidateAligned(bits: nat, k: nat)
    requires 16 <= bits <= 28
    ensures var m, n := Block(bits), POOL_BASE + k * Block(bits);
      n % m == 0 && n / m == POOL_BASE / m + k
  {
    var m, u := Block(bits), Pow2(bits - 16);
    Pow2Values();
    Pow2Add(bits - 16, 32 - bits);
    assert POOL_BASE == 2761 * 0x1_0000;
    Assoc(2761, u, m);
    DivModUnique(POOL_BASE, m, 2761 * u, 0);
    Distribute2(2761 * u, k, m);
    DivModUnique(POOL_BASE + k * m, m, 2761 * u + k, 0);
  }

  /** They are masked and lie inside 10.201.0.0/16. */
  lemma CandidateInPool(bits: nat, k: nat)
    requires 16 <= bits <= 28 && k < Count(bits)
    ensures var c := Candidate(bits, k);
      && c == Prefix(IPv4, POOL_BASE + k * Block(bits), bits) && c.Valid() && c.IsMasked()
      && c.HostBits() == 32 - bits && c.n / Block(bits) == POOL_BASE / Block(bits) + k
      && POOL_BASE <= c.n < POOL_BASE + 0x1_0000
  {
    var m, n := Block(bits), POOL_BASE + k * Block(bits);
    CandidateAligned(bits, k);
    DivModNat(n, m);
    CountBound(bits, k);
    Pow2Values();
    MulMono(0, k, m);
    var p := Prefix(IPv4, n, bits);
    assert p.HostBits() == 32 - bits && p.Base() == n;
  }

  lemma CandidateInsidePool(bits: nat, k: nat, a: Addr)
    requires 16 <= bits <= 28 && k < Count(bits) && Candidate(bits, k).Contains(a)
    ensures POOL.Contains(a)
  {
    CandidateInPool(bits, k);
    Pow2Values();
    CoarserAgrees(a.n, Candidate(bits, k).n, 32 - bits, 16);
  }

  lemma Assoc(a: int, b: int, c: int)
    ensures a * (b * c) == (a * b) * c
  {
  }

  lemma Distribute2(q: int, r: int, m: int)
    ensures (q + r) * m == q * m + r * m
  {
  }

  /** The candidate of the given length that `u` lies in, as an index; meaningful for pool addresses. */
  function SlotOf(bits: nat, u: Prefix): int
    requires bits <= 32
  {
    u.n / Block(bits) - POOL_BASE / Block(bits)
  }

  /** A prefix no shorter than the candidates meets at most one of them. */
  lemma MeetsOneCandidate(bits: nat, k: nat, u: Prefix)
    requires 16 <= bits <= 28 && k < Count(bits) && u.bits >= bits && u.bits <= u.fam.Bits()
    requires Candidate(bits, k).Overlaps(u)
    ensures SlotOf(bits, u) == k
  {
    CandidateInPool(bits, k);
  }

  lemma CandidateMissesTunnel(bits: nat, k: nat)
    requires 16 <= bits <= 28 && k < Count(bits)
    ensures !Candidate(bits, k).Overlaps(TUNNEL_NET)
  {
    CandidateInPool(bits, k);
    Pow2Values();
    var c := Candidate(bits, k);
    if c.Overlaps(TUNNEL_NET) {
      OverlapsIffShared(c, TUNNEL_NET);
      var a: Addr :| c.Contains(a) && TUNNEL_NET.Contains(a);
      CandidateInsidePool(bits, k, a);
      CoarserAgrees(a.n, TUNNEL_NET.n, 8, 16);
    }
  }

  /** Completeness: fewer used prefixes than blocks, none shorter than a block, leave a free one. */
  lemma AllocationSucceeds(bits: nat, used: seq<Prefix>)
    requires 16 <= bits <= 28 && |used| < Pow2(bits - 16)
    requires forall u <- used :: bits <= u.bits <= u.fam.Bits()
    ensures FirstFit(bits, used, 0).Some?
  {
    var j := FirstFitIsLowest(bits, used, 0);
    if FirstFit(bits, used, 0).None? {
      var slots := seq(|used|, i requires 0 <= i < |used| => SlotOf(bits, used[i]));
      forall k | 0 <= k < Count(bits) ensures k in slots {
        assert !Free(Candidate(bits, k), used);
        CandidateMissesTunnel(bits, k);
        var u :| u in used && Candidate(bits, k).Overlaps(u);
        MeetsOneCandidate(bits, k, u);
        var i :| 0 <= i < |used| && used[i] == u;
        assert slots[i] == k;
      }
      Pigeonhole(Count(bits), slots);
    }
  }

  function UpTo(n: nat): (s: set<int>)
    ensures |s| == n && forall k :: k in s <==> 0 <= k < n
  {
    if n == 0 then {} else UpTo(n - 1) + {n - 1}
  }

  /** `n` slots cannot all be hit by fewer than `n` items. */
  lemma Pigeonhole(n: nat, slots: seq<int>)
    requires forall k | 0 <= k < n :: k in slots
    ensures n <= |slots|
  {
    ImageSize(slots);
    SubsetSize(UpTo(n), set x | x in slots);
  }

  lemma {:induction false} ImageSize(slots: seq<int>)
    ensures |set x | x in slots| <= |slots|
  {
    if slots != [] {
      var front, last := slots[..|slots| - 1], slots[|slots| - 1];
      ImageSize(front);
      assert slots == front + [last];
      assert (set x | x in slots) == (set x | x in front) + {last};
    }
  }

  lemma SubsetSize<T>(a: set<T>, b: set<T>)
    requires a <= b
    ensures |a| <= |b|
  {
    assert b == a + (b - a);
  }

  /** Lengths 8 to 15 leave the pool: their only candidate is the whole block around 10.201.0.0. */
  lemma ShortPrefixLeavesPool(bits: nat)
    requires 8 <= bits < 16
    ensures Count(bits) == 1 && exists a: Addr :: Candidate(bits, 0).Contains(a) && !POOL.Contains(a)
  {
    var p := Prefix(IPv4, POOL_BASE, bits);
    MaskedSameBlock(p);
    var a := Addr(IPv4, POOL_BASE - 0x1_0000);
    BesidePool(a);
    CoarserAgrees(a.n, POOL_BASE, 17, 32 - bits);
    assert p.Contains(a);
  }

  /** The address 2^16 before the pool shares its first fifteen bits and no more. */
  lemma BesidePool(a: Addr)
    requires a == Addr(IPv4, POOL_BASE - 0x1_0000)
    ensures !POOL.Contains(a) && a.n / Pow2(17) == POOL_BASE / Pow2(17)
  {
    Pow2Values();
    Pow2Add(16, 1);
  }

  // ---------------------------------------------------------------- assignment

  /** What one route becomes, given everything already used. */
  function AssignOne(mode: RouteMode, rt: AgentRoute, used: seq<Prefix>): Option<AgentRoute> {
    if rt.virt.Some? then
      if Free(rt.virt.value, used) then Some(rt) else None
    else
      var conflict := rt.lan.Overlaps(TUNNEL_NET) || rt.lan.Overlaps(POOL) || OverlapsAny(rt.lan, used);
      if mode == Real && conflict then None
      else if mode == Virtual || conflict then
        if !Supported(rt.lan.bits) then None
        else match FirstFit(rt.lan.bits, used + [rt.lan], 0)
          case None => None
          case Some(v) => Some(AgentRoute(rt.lan, Some(v)))
      else Some(AgentRoute(rt.lan, None))
  }

  /** Each route sees the ones before it as used. */
  function Assign(mode: RouteMode, lans: seq<AgentRoute>, used: seq<Prefix>): Option<seq<AgentRoute>>
    decreases |lans|
  {
    if lans == [] then Some([])
    else match AssignOne(mode, lans[0], used)
      case None => None
      case Some(o) =>
        match Assign(mode, lans[1..], used + [o.Effective()])
        case None => None
        case Some(rest) => Some([o] + rest)
  }

  /** `assignRoutesPure`; `used0` is the caller's list and stays as it is. */
  method AssignRoutes(mode: RouteMode, lans: seq<AgentRoute>, used0: seq<Prefix>) returns (r: Option<seq<AgentRoute>>)
    ensures r == Assign(mode, lans, used0)
  {
    var used := used0;
    var out: seq<AgentRoute> := [];
    assert lans[0..] == lans;
    for i := 0 to |lans|
      invariant Assign(mode, lans, used0) ==
        After(out, Assign(mode, lans[i..], used))
    {
      var rt := lans[i];
      assert lans[i..][1..] == lans[i + 1..];
      ghost var o := AssignOne(mode, rt, used);
      var made: AgentRoute;
      if rt.virt.Some? {
        var taken := CheckOverlaps(rt.virt.value, used);
        if taken || rt.virt.value.Overlaps(TUNNEL_NET) { return None; }
        made := AgentRoute(rt.lan, rt.virt);
      } else {
        var reserved := rt.lan.Overlaps(TUNNEL_NET) || rt.lan.Overlaps(POOL);
        var taken := CheckOverlaps(rt.lan, used);
        var conflict := reserved || taken;
        var wantVirtual := mode == Virtual || (mode == Auto && conflict);
        if mode == Real && conflict { return None; }
        if wantVirtual {
          var v := AllocVirtualPrefix(rt.lan, used + [rt.lan]);
          if v.None? { return None; }
          made := AgentRoute(rt.lan, Some(v.value));
        } else {
          made := AgentRoute(rt.lan, None);
        }
      }
      assert o == Some(made);
      AfterSnoc(out, made, Assign(mode, lans[i + 1..], used + [made.Effective()]));
      out := out + [made];
      used := used + [made.Effective()];
    }
    assert lans[|lans|..] == [] && out + [] == out;
    return Some(out);
  }

  /** What is decided so far, then the rest. */
  function After(out: seq<AgentRoute>, rest: Option<seq<AgentRoute>>): (r: Option<seq<AgentRoute>>)
    ensures out == [] ==> r == rest
  {
    match rest
    case None => None
    case Some(more) => assert out == [] ==> out + more == more; Some(out + more)
  }

  lemma AfterSnoc(out: seq<AgentRoute>, made: AgentRoute, rest: Option<seq<AgentRoute>>)
    ensures After(out, match rest case None => None case Some(more) => Some([made] + more)) == After(out + [made], rest)
  {
    if rest.Some? { assert out + ([made] + rest.value) == out + [made] + rest.value; }
  }

  ghost predicate PairwiseDisjoint(ps: seq<Prefix>) {
    forall i, j | 0 <= i < j < |ps| :: !ps[i].Overlaps(ps[j])
  }

  function Effectives(routes: seq<AgentRoute>): (r: seq<Prefix>)
    ensures |r| == |routes| && forall i | 0 <= i < |r| :: r[i] == routes[i].Effective()
  {
    seq(|routes|, i requires 0 <= i < |routes| => routes[i].Effective())
  }

  /** One assigned route never meets anything used or reserved, whatever the mode. */
  lemma AssignOneFree(mode: RouteMode, rt: AgentRoute, used: seq<Prefix>)
    requires AssignOne(mode, rt, used).Some?
    ensures var o := AssignOne(mode, rt, used).value;
      && Free(o.Effective(), used) && o.lan == rt.lan
      && (rt.virt.Some? ==> o.virt == rt.virt)
      && (rt.virt.None? && o.virt.Some? ==>
            !o.Effective().Overlaps(rt.lan) && o.virt.value.fam == IPv4 && o.virt.value.bits == rt.lan.bits)
      && (rt.virt.None? && mode == Auto ==>
            (o.virt.Some? <==> rt.lan.Overlaps(TUNNEL_NET) || rt.lan.Overlaps(POOL) || OverlapsAny(rt.lan, used)))
      && (rt.virt.None? && mode == Real ==> o.virt.None?)
      && (rt.virt.None? && mode == Virtual ==> o.virt.Some?)
  {
    var o := AssignOne(mode, rt, used).value;
    if rt.virt.None? && o.virt.Some? {
      var banned := used + [rt.lan];
      var j := FirstFitIsLowest(rt.lan.bits, banned, 0);
      assert rt.lan in banned;
      forall q | q in used ensures !o.Effective().Overlaps(q) { assert q in banned; }
    }
  }

  /** A network that cannot be published as it is: it meets the tunnel network, the pool or a used prefix. */
  predicate Conflicts(lan: Prefix, used: seq<Prefix>) {
    lan.Overlaps(TUNNEL_NET) || lan.Overlaps(POOL) || exists q <- used :: lan.Overlaps(q)
  }

  /** Block `k` is the lowest of the pool's blocks of that length that meets neither a used prefix, nor the network
      itself, nor the tunnel network. */
  predicate LowestBlock(lan: Prefix, used: seq<Prefix>, k: nat)
    requires lan.bits <= 32
  {
    && k < Count(lan.bits) && Free(Candidate(lan.bits, k), used + [lan])
    && forall i | 0 <= i < k :: !Free(Candidate(lan.bits, i), used + [lan])
  }

  /** What one route becomes, all modes and all refusals. An entered prefix stays if it meets nothing; a network
      without conflict stays in auto and real mode; real mode refuses a conflict; what is to be
      renumbered gets the lowest free block, and is refused without one or outside lengths 8 to 28. */
  lemma AssignOneIs(mode: RouteMode, rt: AgentRoute, used: seq<Prefix>)
    ensures rt.virt.Some? ==>
      (AssignOne(mode, rt, used)
       == if rt.virt.value.Overlaps(TUNNEL_NET) || exists q <- used :: rt.virt.value.Overlaps(q) then None
          else Some(rt))
    ensures rt.virt.None? && mode != Virtual && !Conflicts(rt.lan, used) ==>
      AssignOne(mode, rt, used) == Some(AgentRoute(rt.lan, None))
    ensures rt.virt.None? && mode == Real && Conflicts(rt.lan, used) ==> AssignOne(mode, rt, used) == None
    ensures rt.virt.None? && (mode == Virtual || (mode == Auto && Conflicts(rt.lan, used))) ==>
      && (AssignOne(mode, rt, used).Some? <==>
            8 <= rt.lan.bits <= 28 && exists k: nat :: LowestBlock(rt.lan, used, k))
      && (forall k: nat | 8 <= rt.lan.bits <= 28 && LowestBlock(rt.lan, used, k) ::
            AssignOne(mode, rt, used) == Some(AgentRoute(rt.lan, Some(Candidate(rt.lan.bits, k)))))
  {
    if rt.virt.None? && Supported(rt.lan.bits) {
      var j := FirstFitIsLowest(rt.lan.bits, used + [rt.lan], 0);
      forall k: nat | LowestBlock(rt.lan, used, k) ensures k == j { }
      assert FirstFit(rt.lan.bits, used + [rt.lan], 0).Some? ==> LowestBlock(rt.lan, used, j);
    }
  }

  /** One more at the end of what was decided so far. */
  function Onto(out: seq<AgentRoute>, o: Option<AgentRoute>): Option<seq<AgentRoute>> {
    if o.Some? then Some(out + [o.value]) else None
  }

  /** And a list: one more route is decided by what the ones before it became. */
  lemma {:induction false} AssignSnoc(mode: RouteMode, lans: seq<AgentRoute>, rt: AgentRoute, used: seq<Prefix>)
    ensures Assign(mode, [], used) == Some([])
    ensures var all := Assign(mode, lans + [rt], used);
      match Assign(mode, lans, used)
      case None => all == None
      case Some(out) => all == Onto(out, AssignOne(mode, rt, used + Effectives(out)))
    decreases |lans|
  {
    if lans == [] {
      AssignSingle(mode, rt, used);
      assert lans + [rt] == [rt] && used + Effectives([]) == used;
    } else {
      var o := AssignOne(mode, lans[0], used);
      assert (lans + [rt])[1..] == lans[1..] + [rt] && (lans + [rt])[0] == lans[0];
      if o.Some? {
        var used2 := used + [o.value.Effective()];
        AssignSnoc(mode, lans[1..], rt, used2);
        var rest := Assign(mode, lans[1..], used2);
        if rest.Some? { Prepended(o.value, rest.value, used); }
      }
    }
  }

  lemma AssignSingle(mode: RouteMode, rt: AgentRoute, used: seq<Prefix>)
    ensures Assign(mode, [rt], used) == Onto([], AssignOne(mode, rt, used))
  {
    assert [rt][1..] == [];
    var o := AssignOne(mode, rt, used);
    if o.Some? { assert [o.value] + [] == [] + [o.value]; }
  }

  lemma Prepended(o: AgentRoute, rest: seq<AgentRoute>, used: seq<Prefix>)
    ensures used + [o.Effective()] + Effectives(rest) == used + Effectives([o] + rest)
    ensures forall x: AgentRoute :: [o] + (rest + [x]) == [o] + rest + [x]
  {
  }

  /** When an entered network becomes an IPv6 network under an IPv4 prefix, which no hub can read: exactly when it
      is IPv6 of a length from 8 to 28 without a prefix entered, is to be renumbered (always in virtual mode, in
      auto mode if it meets a used prefix), and some block of the pool is free. */
  lemma AssignOneMixedIff(mode: RouteMode, rt: AgentRoute, used: seq<Prefix>)
    requires rt.Formed() && !rt.Mixed()
    ensures (AssignOne(mode, rt, used).Some? && AssignOne(mode, rt, used).value.Mixed()) <==>
      && rt.lan.fam == IPv6 && rt.virt.None? && 8 <= rt.lan.bits <= 28
      && (mode == Virtual || (mode == Auto && OverlapsAny(rt.lan, used)))
      && exists k: nat :: k < Count(rt.lan.bits) && Free(Candidate(rt.lan.bits, k), used)
  {
    if rt.lan.fam == IPv6 && rt.virt.None? && Supported(rt.lan.bits) {
      var bits, banned := rt.lan.bits, used + [rt.lan];
      var j := FirstFitIsLowest(bits, banned, 0);
      forall k: nat | k < Count(bits) ensures Free(Candidate(bits, k), banned) <==> Free(Candidate(bits, k), used) {
        FreeBesides(Candidate(bits, k), used, rt.lan);
      }
    }
  }

  /** A network of the other family takes nothing away. */
  lemma FreeBesides(c: Prefix, used: seq<Prefix>, lan: Prefix)
    requires c.fam != lan.fam
    ensures Free(c, used + [lan]) <==> Free(c, used)
  {
    forall q | q in used ensures q in used + [lan] { }
  }

  /** Sites never collide: the assigned prefixes are pairwise disjoint, miss every used prefix
      and the tunnel network, and come in input order with the real prefixes kept. */
  lemma {:induction false} AssignDisjoint(mode: RouteMode, lans: seq<AgentRoute>, used: seq<Prefix>)
    requires Assign(mode, lans, used).Some?
    ensures var out := Assign(mode, lans, used).value;
      && |out| == |lans|
      && (forall i | 0 <= i < |out| ::
            out[i].lan == lans[i].lan && (lans[i].virt.Some? ==> out[i].virt == lans[i].virt))
      && (forall i | 0 <= i < |out| :: Free(out[i].Effective(), used))
      && PairwiseDisjoint(Effectives(out))
    decreases |lans|
  {
    if lans != [] {
      var o := AssignOne(mode, lans[0], used).value;
      AssignOneFree(mode, lans[0], used);
      var used2 := used + [o.Effective()];
      AssignDisjoint(mode, lans[1..], used2);
      var rest := Assign(mode, lans[1..], used2).value;
      var out := [o] + rest;
      forall i | 0 <= i < |out|
        ensures out[i].lan == lans[i].lan && (lans[i].virt.Some? ==> out[i].virt == lans[i].virt)
      {
        if i > 0 { assert out[i] == rest[i - 1] && lans[i] == lans[1..][i - 1]; }
      }
      forall i | 0 < i < |out| ensures Free(out[i].Effective(), used) && !o.Effective().Overlaps(out[i].Effective()) {
        FreeOfMore(rest[i - 1].Effective(), used, o.Effective());
      }
      ConsDisjoint(o, rest);
    }
  }

  lemma FreeOfMore(e: Prefix, used: seq<Prefix>, x: Prefix)
    requires Free(e, used + [x])
    ensures Free(e, used) && !x.Overlaps(e)
  {
    forall q | q in used ensures !e.Overlaps(q) { assert q in used + [x]; }
    assert x in used + [x];
  }

  lemma ConsDisjoint(o: AgentRoute, rest: seq<AgentRoute>)
    requires PairwiseDisjoint(Effectives(rest)) && forall r <- rest :: !o.Effective().Overlaps(r.Effective())
    ensures PairwiseDisjoint(Effectives([o] + rest))
  {
    var es, more := Effectives([o] + rest), Effectives(rest);
    forall i, j | 0 <= i < j < |es| ensures !es[i].Overlaps(es[j]) {
      assert es[j] == more[j - 1] && rest[j - 1] in rest;
      if i > 0 { assert es[i] == more[i - 1]; }
    }
  }

  /** Published routes are as well-formed as the entered ones, families aside. */
  lemma {:induction false} AssignFormed(mode: RouteMode, lans: seq<AgentRoute>, used: seq<Prefix>)
    requires Assign(mode, lans, used).Some? && forall r <- lans :: r.Formed()
    ensures forall r <- Assign(mode, lans, used).value :: r.Formed()
    decreases |lans|
  {
    if lans != [] {
      var o := AssignOne(mode, lans[0], used).value;
      assert lans[0] in lans;
      AssignFormed(mode, lans[1..], used + [o.Effective()]);
      if lans[0].virt.None? && o.virt.Some? { AllocatedFormed(lans[0].lan, used + [lans[0].lan]); }
    }
  }

  lemma AllocatedFormed(lan: Prefix, used: seq<Prefix>)
    requires lan.Valid() && lan.IsMasked() && Supported(lan.bits) && FirstFit(lan.bits, used, 0).Some?
    ensures AgentRoute(lan, FirstFit(lan.bits, used, 0)).Formed()
  {
    var j := FirstFitIsLowest(lan.bits, used, 0);
    CandidateFormed(lan.bits, j);
  }

  lemma CandidateFormed(bits: nat, k: nat)
    requires Supported(bits) && k < Count(bits)
    ensures var c := Candidate(bits, k); c.Valid() && c.IsMasked() && c.bits == bits && c.fam == IPv4
  {
    CountBound(bits, k);
    MaskedSameBlock(Prefix(IPv4, POOL_BASE + k * Block(bits), bits));
    InFamily(POOL_BASE + k * Block(bits), bits);
  }

  lemma InFamily(n: nat, bits: nat)
    requires n < POOL_BASE + 0x1_0000 && bits <= 32
    ensures Prefix(IPv4, n, bits).Valid()
  {
    Pow2Values();
  }

  // ------------------------------------------------------------ one network twice

  /** An operator may enter one network twice: in virtual mode both entries are published, each under
      a prefix of its own. */
  lemma RepeatedLanIsPublished(lan: Prefix, used: seq<Prefix>)
    requires 16 <= lan.bits <= 28 && lan.Valid() && |used| + 2 < Pow2(lan.bits - 16)
    requires forall u <- used :: lan.bits <= u.bits <= u.fam.Bits()
    ensures var r := Assign(Virtual, [AgentRoute(lan, None), AgentRoute(lan, None)], used);
      && r.Some? && |r.value| == 2 && r.value[0].lan == r.value[1].lan == lan
      && r.value[0].virt.Some? && r.value[1].virt.Some? && !r.value[0].virt.value.Overlaps(r.value[1].virt.value)
  {
    var one := AgentRoute(lan, None);
    var two := [one, one];
    AllocationSucceeds(lan.bits, used + [lan]);
    var v := FirstFit(lan.bits, used + [lan], 0).value;
    var j := FirstFitIsLowest(lan.bits, used + [lan], 0);
    assert v.bits == lan.bits && v.fam == IPv4;
    var used2 := used + [v];
    AllocationSucceeds(lan.bits, used2 + [lan]);
    assert AssignOne(Virtual, one, used) == Some(AgentRoute(lan, Some(v)));
    assert two[1..] == [one] && two[1..][1..] == [];
    assert Assign(Virtual, [one], used2).Some? by { assert [one][1..] == []; }
    AssignDisjoint(Virtual, two, used);
    var out := Assign(Virtual, two, used).value;
    AssignVirtual(two, used, 0);
    AssignVirtual(two, used, 1);
    assert !Effectives(out)[0].Overlaps(Effectives(out)[1]);
  }

  lemma {:induction false} AssignVirtual(lans: seq<AgentRoute>, used: seq<Prefix>, i: nat)
    requires Assign(Virtual, lans, used).Some? && i < |lans|
    ensures i < |Assign(Virtual, lans, used).value| && Assign(Virtual, lans, used).value[i].virt.Some?
    decreases |lans|
  {
    AssignOneFree(Virtual, lans[0], used);
    if i > 0 { AssignVirtual(lans[1..], used + [AssignOne(Virtual, lans[0], used).value.Effective()], i - 1); }
  }

  // ---------------------------------------------------------------- validation

  datatype Site = Site(agentId: string, routes: seq<AgentRoute>)

  /** `otherEffectivePrefixes`. */
  function OtherEffective(sites: seq<Site>, self: Option<string>): seq<Prefix> {
    if sites == [] then []
    else
      var s := sites[|sites| - 1];
      OtherEffective(sites[..|sites| - 1], self) + (if self == Some(s.agentId) then [] else Effectives(s.routes))
  }

  lemma {:induction false} OtherEffectiveHolds(sites: seq<Site>, self: Option<string>, s: Site, i: nat)
    requires s in sites && self != Some(s.agentId) && i < |s.routes|
    ensures s.routes[i].Effective() in OtherEffective(sites, self)
  {
    var n := |sites| - 1;
    if s == sites[n] {
      assert Effectives(s.routes)[i] in Effectives(s.routes);
    } else {
      assert sites == sites[..n] + [sites[n]];
      OtherEffectiveHolds(sites[..n], self, s, i);
    }
  }

  /** What `validateRouteSet` accepts. */
  ghost predicate ValidRouteSet(routes: seq<AgentRoute>, others: seq<Site>, self: Option<string>) {
    && (forall r <- routes :: !r.Effective().Overlaps(TUNNEL_NET))
    && (forall i, j | 0 <= i < j < |routes| :: routes[i].Effective() != routes[j].Effective())
    && (forall r <- routes, o <- others, q <- o.routes | self != Some(o.agentId) ::
          !r.Effective().Overlaps(q.Effective()))
  }

  method ValidateRouteSet(routes: seq<AgentRoute>, others: seq<Site>, self: Option<string>) returns (ok: bool)
    ensures ok <==> ValidRouteSet(routes, others, self)
  {
    var seen: set<Prefix> := {};
    for i := 0 to |routes|
      invariant seen == set k | 0 <= k < i :: routes[k].Effective()
      invariant forall k | 0 <= k < i :: !routes[k].Effective().Overlaps(TUNNEL_NET)
      invariant forall k, l | 0 <= k < l < i :: routes[k].Effective() != routes[l].Effective()
      invariant forall k | 0 <= k < i :: MissesOthers(routes[k], others, self)
    {
      var eff := routes[i].Effective();
      if eff.Overlaps(TUNNEL_NET) { return false; }
      if eff in seen { return false; }
      seen := seen + {eff};
      var misses := CheckOthers(routes[i], others, self);
      if !misses { return false; }
    }
    return true;
  }

  ghost predicate MissesOthers(r: AgentRoute, others: seq<Site>, self: Option<string>) {
    forall o <- others, q <- o.routes | self != Some(o.agentId) :: !r.Effective().Overlaps(q.Effective())
  }

  method CheckOthers(r: AgentRoute, others: seq<Site>, self: Option<string>) returns (ok: bool)
    ensures ok <==> MissesOthers(r, others, self)
  {
    for i := 0 to |others|
      invariant forall k | 0 <= k < i && self != Some(others[k].agentId) ::
        forall q <- others[k].routes :: !r.Effective().Overlaps(q.Effective())
    {
      if self == Some(others[i].agentId) { continue; }
      var routes := others[i].routes;
      for j := 0 to |routes|
        invariant forall l | 0 <= l < j :: !r.Effective().Overlaps(routes[l].Effective())
      {
        if r.Effective().Overlaps(routes[j].Effective()) {
          assert others[i] in others && routes[j] in others[i].routes;
          return false;
        }
      }
    }
    return true;
  }

  /** The check after assignment never fires. */
  lemma AssignedValidates(mode: RouteMode, lans: seq<AgentRoute>, sites: seq<Site>, self: Option<string>)
    requires Assign(mode, lans, OtherEffective(sites, self)).Some?
    ensures ValidRouteSet(Assign(mode, lans, OtherEffective(sites, self)).value, sites, self)
  {
    var used := OtherEffective(sites, self);
    var out := Assign(mode, lans, used).value;
    AssignDisjoint(mode, lans, used);
    forall i, j | 0 <= i < j < |out| ensures out[i].Effective() != out[j].Effective() {
      assert !Effectives(out)[i].Overlaps(Effectives(out)[j]);
    }
    forall r, o, q | r in out && o in sites && q in o.routes && self != Some(o.agentId)
      ensures !r.Effective().Overlaps(q.Effective())
    {
      var i :| 0 <= i < |out| && out[i] == r;
      var k :| 0 <= k < |o.routes| && o.routes[k] == q;
      OtherEffectiveHolds(sites, self, o, k);
    }
  }
}
