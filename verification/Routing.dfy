/** The hub's routing table: rebuilt from the peer set, walked in order for every packet. */
module Routing {
  import opened Wrappers
  import opened Addresses
  import opened Translators
  import opened Peers
  import opened Sorting

  type Ref = nat   // identity of a peer object

  datatype Entry = Entry(prefix: Prefix, peer: Ref)

  /** A declaration that lost to an earlier one of the same virtual prefix. */
  datatype Conflict = Conflict(id: string, owner: string, prefix: Prefix)

  datatype Tables = Tables(
    routes: seq<Entry>,
    clientsByIP: map<Addr, Ref>,
    agentsByIP: map<Addr, Ref>,
    conflicts: seq<Conflict>)

  const NO_TABLES := Tables([], map[], map[], [])

  type Configs = map<Ref, PeerConfig>

  // --------------------------------------------------------------- string order

  predicate IdLe(a: string, b: string) {
    if a == "" then true
    else if b == "" then false
    else a[0] < b[0] || (a[0] == b[0] && IdLe(a[1..], b[1..]))
  }

  lemma {:induction false} IdTotal(a: string, b: string)
    ensures IdLe(a, b) || IdLe(b, a)
    ensures IdLe(a, b) && IdLe(b, a) ==> a == b
  {
    if a != "" && b != "" {
      IdTotal(a[1..], b[1..]);
      if IdLe(a, b) && IdLe(b, a) {
        assert a == [a[0]] + a[1..] && b == [b[0]] + b[1..];
      }
    }
  }

  lemma {:induction false} IdTransitive(a: string, b: string, c: string)
    requires IdLe(a, b) && IdLe(b, c)
    ensures IdLe(a, c)
  {
    if a != "" && b != "" && c != "" && a[0] == b[0] == c[0] { IdTransitive(a[1..], b[1..], c[1..]); }
  }

  // -------------------------------------------------------- what a rebuild means

  ghost predicate Declares(cfgs: Configs, r: Ref, p: Prefix) {
    r in cfgs && cfgs[r].role == RoleAgent && cfgs[r].Publishes(p)
  }

  /** `r` declares `p` and nobody with a smaller id does. */
  ghost predicate Owns(cfgs: Configs, r: Ref, p: Prefix) {
    Declares(cfgs, r, p) && forall q <- cfgs :: Declares(cfgs, q, p) ==> IdLe(cfgs[r].Id(), cfgs[q].Id())
  }

  ghost predicate RoutesFor(cfgs: Configs, routes: seq<Entry>) {
    && (forall i, j | 0 <= i < j < |routes| :: routes[i].prefix.bits >= routes[j].prefix.bits)
    && (forall i, j | 0 <= i < j < |routes| :: routes[i].prefix != routes[j].prefix)
    && (forall e <- routes :: Owns(cfgs, e.peer, e.prefix))
    && (forall r, p :: Declares(cfgs, r, p) ==> exists e <- routes :: e.prefix == p)
  }

  ghost predicate IndexFor(cfgs: Configs, role: Role, index: map<Addr, Ref>) {
    && (forall a <- index :: index[a] in cfgs && cfgs[index[a]].role == role && cfgs[index[a]].tunnelIP == Some(a))
    && (forall r <- cfgs :: cfgs[r].role == role && cfgs[r].tunnelIP.Some? ==> cfgs[r].tunnelIP.value in index)
  }

  ghost predicate TablesFor(cfgs: Configs, t: Tables) {
    && RoutesFor(cfgs, t.routes)
    && IndexFor(cfgs, RoleClient, t.clientsByIP)
    && IndexFor(cfgs, RoleAgent, t.agentsByIP)
  }

  /** Two declarations of one prefix: by two agents, or twice by the same one. */
  ghost predicate Clash(cfgs: Configs) {
    exists r, q, i, j ::
      && r in cfgs && q in cfgs && cfgs[r].role == cfgs[q].role == RoleAgent
      && 0 <= i < |cfgs[r].routes| && 0 <= j < |cfgs[q].routes| && (r != q || i != j)
      && cfgs[r].routes[i].virt == cfgs[q].routes[j].virt
  }

  // ------------------------------------------------------------------ lookup

  function Lookup(routes: seq<Entry>, dst: Addr): (r: Option<Ref>)
  {
    if routes == [] then None
    else if routes[0].prefix.Contains(dst) then Some(routes[0].peer)
    else Lookup(routes[1..], dst)
  }

  /** `routeLookupLocked`. */
  method RouteLookup(routes: seq<Entry>, dst: Addr) returns (r: Option<Ref>)
    ensures r == Lookup(routes, dst)
  {
    for i := 0 to |routes|
      invariant Lookup(routes, dst) == Lookup(routes[i..], dst)
    {
      if routes[i].prefix.Contains(dst) { return Some(routes[i].peer); }
      assert routes[i..][1..] == routes[i + 1..];
    }
    return None;
  }

  /** Longest-prefix match over every declared prefix, the lowest id owning a duplicate. */
  ghost predicate Serves(cfgs: Configs, dst: Addr, r: Ref) {
    exists p: Prefix ::
      && p.Contains(dst) && Owns(cfgs, r, p)
      && forall q, p2: Prefix :: Declares(cfgs, q, p2) && p2.Contains(dst) ==> p2.bits <= p.bits
  }

  lemma {:induction false} LookupFirst(routes: seq<Entry>, dst: Addr) returns (i: nat)
    ensures Lookup(routes, dst).None? ==> forall e <- routes :: !e.prefix.Contains(dst)
    ensures Lookup(routes, dst).Some? ==>
      && i < |routes| && routes[i].prefix.Contains(dst) && Lookup(routes, dst) == Some(routes[i].peer)
      && forall j | 0 <= j < i :: !routes[j].prefix.Contains(dst)
  {
    i := 0;
    if routes != [] && !routes[0].prefix.Contains(dst) {
      i := LookupFirst(routes[1..], dst);
      assert routes == [routes[0]] + routes[1..];
      forall j | 0 < j < i + 1 && Lookup(routes, dst).Some? ensures !routes[j].prefix.Contains(dst) {
        assert routes[j] == routes[1..][j - 1];
      }
      i := i + 1;
    }
  }

  lemma DeclaredEntry(cfgs: Configs, routes: seq<Entry>, q: Ref, p: Prefix) returns (j: nat)
    requires RoutesFor(cfgs, routes) && Declares(cfgs, q, p)
    ensures j < |routes| && routes[j].prefix == p
  {
    var e :| e in routes && e.prefix == p;
    j :| 0 <= j < |routes| && routes[j] == e;
  }

  /** First match in a rebuilt table is longest-prefix match. */
  lemma LookupIsLongestMatch(cfgs: Configs, routes: seq<Entry>, dst: Addr)
    requires RoutesFor(cfgs, routes)
    ensures Lookup(routes, dst).Some? ==> Serves(cfgs, dst, Lookup(routes, dst).value)
    ensures Lookup(routes, dst).None? ==> forall r, p: Prefix :: Declares(cfgs, r, p) ==> !p.Contains(dst)
  {
    var i := LookupFirst(routes, dst);
    if Lookup(routes, dst).Some? {
      FirstIsLongest(cfgs, routes, dst, i);
    } else {
      forall r, p: Prefix | Declares(cfgs, r, p) ensures !p.Contains(dst) {
        var j := DeclaredEntry(cfgs, routes, r, p);
        assert routes[j] in routes;
      }
    }
  }

  lemma FirstIsLongest(cfgs: Configs, routes: seq<Entry>, dst: Addr, i: nat)
    requires RoutesFor(cfgs, routes) && i < |routes| && routes[i].prefix.Contains(dst)
    requires forall j | 0 <= j < i :: !routes[j].prefix.Contains(dst)
    ensures Serves(cfgs, dst, routes[i].peer)
  {
    var p := routes[i].prefix;
    assert Owns(cfgs, routes[i].peer, p) by { assert routes[i] in routes; }
    forall q, p2: Prefix | Declares(cfgs, q, p2) && p2.Contains(dst) ensures p2.bits <= p.bits {
      var j := DeclaredEntry(cfgs, routes, q, p2);
      assert j >= i;
    }
  }

  /** And a match is found whenever some agent declares a prefix of the address. */
  lemma ServedIsFound(cfgs: Configs, routes: seq<Entry>, dst: Addr, r: Ref)
    requires RoutesFor(cfgs, routes) && Serves(cfgs, dst, r)
    ensures Lookup(routes, dst).Some?
  {
    LookupIsLongestMatch(cfgs, routes, dst);
  }

  ghost predicate DistinctIds(cfgs: Configs) {
    forall r, q | r in cfgs && q in cfgs && r != q && cfgs[r].role == cfgs[q].role == RoleAgent ::
      cfgs[r].Id() != cfgs[q].Id()
  }

  ghost predicate AllMasked(cfgs: Configs) { forall r <- cfgs :: cfgs[r].Masked() }

  /** With masked prefixes and distinct ids at most one agent serves an address. */
  lemma ServesUnique(cfgs: Configs, dst: Addr, r: Ref, q: Ref)
    requires AllMasked(cfgs) && DistinctIds(cfgs) && Serves(cfgs, dst, r) && Serves(cfgs, dst, q)
    ensures r == q
  {
    var p: Prefix :| p.Contains(dst) && Owns(cfgs, r, p)
      && forall q, p2: Prefix :: Declares(cfgs, q, p2) && p2.Contains(dst) ==> p2.bits <= p.bits;
    var p2: Prefix :| p2.Contains(dst) && Owns(cfgs, q, p2)
      && forall q, p: Prefix :: Declares(cfgs, q, p) && p.Contains(dst) ==> p.bits <= p2.bits;
    assert p.bits == p2.bits;
    SharedMeansOverlaps(p, p2, dst);
    EqualLengthDisjoint(p, p2);
    IdTotal(cfgs[r].Id(), cfgs[q].Id());
  }

  /** Neither the map iteration order nor how the sort orders equal lengths shows: any two
      rebuilds of one peer set answer every lookup alike. */
  lemma RebuildDeterministic(cfgs: Configs, a: seq<Entry>, b: seq<Entry>, dst: Addr)
    requires AllMasked(cfgs) && DistinctIds(cfgs) && RoutesFor(cfgs, a) && RoutesFor(cfgs, b)
    ensures Lookup(a, dst) == Lookup(b, dst)
  {
    LookupIsLongestMatch(cfgs, a, dst);
    LookupIsLongestMatch(cfgs, b, dst);
    if Lookup(a, dst).Some? { ServedIsFound(cfgs, b, dst, Lookup(a, dst).value); }
    if Lookup(b, dst).Some? {
      ServedIsFound(cfgs, a, dst, Lookup(b, dst).value);
      ServesUnique(cfgs, dst, Lookup(a, dst).value, Lookup(b, dst).value);
    }
  }

  // ------------------------------------------------------------------- rebuild

  datatype Decl = Decl(prefix: Prefix, peer: Ref)

  function DeclsOf(r: Ref, routes: seq<RouteMap>): (d: seq<Decl>)
    ensures |d| == |routes| && forall i | 0 <= i < |d| :: d[i] == Decl(routes[i].virt, r)
  {
    seq(|routes|, i requires 0 <= i < |routes| => Decl(routes[i].virt, r))
  }

  /** Every declaration, agent by agent. */
  function Decls(cfgs: Configs, agents: seq<Ref>): seq<Decl>
    requires forall r <- agents :: r in cfgs
  {
    if agents == [] then []
    else
      var n := |agents| - 1;
      Decls(cfgs, agents[..n]) + DeclsOf(agents[n], cfgs[agents[n]].routes)
  }

  predicate Has(r: seq<Entry>, p: Prefix) { exists i :: 0 <= i < |r| && r[i].prefix == p }

  lemma HasAt(r: seq<Entry>, i: nat)
    requires i < |r|
    ensures Has(r, r[i].prefix)
  {
  }

  /** The first declaration of each prefix. */
  function Dedup(d: seq<Decl>): (r: seq<Entry>)
    ensures |r| <= |d|
  {
    if d == [] then []
    else
      var front, last := Dedup(d[..|d| - 1]), d[|d| - 1];
      if Has(front, last.prefix) then front else front + [Entry(last.prefix, last.peer)]
  }

  ghost predicate DistinctPrefixes(r: seq<Entry>) {
    forall i, j | 0 <= i < j < |r| :: r[i].prefix != r[j].prefix
  }

  lemma {:induction false} DedupDistinct(d: seq<Decl>)
    ensures DistinctPrefixes(Dedup(d))
  {
    if d != [] {
      var front, r, last := Dedup(d[..|d| - 1]), Dedup(d), d[|d| - 1];
      DedupDistinct(d[..|d| - 1]);
      assert r == if Has(front, last.prefix) then front else front + [Entry(last.prefix, last.peer)];
      forall i, j | 0 <= i < j < |r| ensures r[i].prefix != r[j].prefix {
        HasAt(front, i);
        if j < |front| {
          assert front[i].prefix != front[j].prefix;
        } else {
          assert r[j].prefix == last.prefix && !Has(front, last.prefix);
        }
      }
    }
  }

  lemma {:induction false} DedupCovers(d: seq<Decl>, k: nat)
    requires k < |d|
    ensures Has(Dedup(d), d[k].prefix)
  {
    var n := |d| - 1;
    var front := Dedup(d[..n]);
    if k < n {
      DedupCovers(d[..n], k);
      var i :| 0 <= i < |front| && front[i].prefix == d[k].prefix;
      assert Dedup(d)[i] == front[i];
    } else if !Has(front, d[n].prefix) {
      assert Dedup(d)[|front|].prefix == d[n].prefix;
    }
  }

  lemma {:induction false} DedupFull(d: seq<Decl>, k: nat)
    requires |Dedup(d)| == |d| && k < |d|
    ensures Dedup(d)[k] == Entry(d[k].prefix, d[k].peer)
  {
    if k < |d| - 1 { DedupFull(d[..|d| - 1], k); }
  }

  lemma {:induction false} DedupFirst(d: seq<Decl>, i: nat) returns (k: nat)
    requires i < |Dedup(d)|
    ensures k < |d| && Dedup(d)[i] == Entry(d[k].prefix, d[k].peer)
    ensures forall j | 0 <= j < k :: d[j].prefix != d[k].prefix
  {
    var n := |d| - 1;
    var front := Dedup(d[..n]);
    if i < |front| {
      k := DedupFirst(d[..n], i);
    } else {
      k := n;
      forall j | 0 <= j < n ensures d[j].prefix != d[n].prefix { DedupCovers(d[..n], j); }
    }
  }

  /** A prefix occurring twice shortens the list, and only that does. */
  lemma DedupShorterIff(d: seq<Decl>)
    ensures |Dedup(d)| < |d| <==> exists i, j :: 0 <= i < j < |d| && d[i].prefix == d[j].prefix
  {
    DedupDistinct(d);
    if |Dedup(d)| < |d| {
      DedupDuplicate(d);
    } else {
      forall i, j | 0 <= i < j < |d| ensures d[i].prefix != d[j].prefix {
        DedupFull(d, i); DedupFull(d, j);
        assert Dedup(d)[i].prefix != Dedup(d)[j].prefix;
      }
    }
  }

  lemma {:induction false} DedupDuplicate(d: seq<Decl>)
    requires |Dedup(d)| < |d|
    ensures exists i, j :: 0 <= i < j < |d| && d[i].prefix == d[j].prefix
  {
    var n := |d| - 1;
    var front := Dedup(d[..n]);
    if i :| 0 <= i < |front| && front[i].prefix == d[n].prefix {
      var k := DedupFirst(d[..n], i);
      assert d[k].prefix == d[n].prefix;
    } else {
      DedupDuplicate(d[..n]);
      var i, j :| 0 <= i < j < n && d[..n][i].prefix == d[..n][j].prefix;
      assert d[i].prefix == d[j].prefix;
    }
  }

  // Where a declaration stands in `Decls`.

  lemma {:induction false} DeclAt(cfgs: Configs, agents: seq<Ref>, a: nat, i: nat) returns (k: nat)
    requires (forall r <- agents :: r in cfgs) && a < |agents| && i < |cfgs[agents[a]].routes|
    ensures k == |Decls(cfgs, agents[..a])| + i < |Decls(cfgs, agents[..a + 1])| <= |Decls(cfgs, agents)|
    ensures Decls(cfgs, agents)[k] == Decl(cfgs[agents[a]].routes[i].virt, agents[a])
    decreases |agents|
  {
    var n := |agents| - 1;
    if a == n {
      k := |Decls(cfgs, agents[..n])| + i;
      assert agents[..a + 1] == agents;
    } else {
      k := DeclAt(cfgs, agents[..n], a, i);
      assert agents[..n][..a] == agents[..a] && agents[..n][..a + 1] == agents[..a + 1];
    }
  }

  lemma {:induction false} DeclFrom(cfgs: Configs, agents: seq<Ref>, k: nat) returns (a: nat, i: nat)
    requires (forall r <- agents :: r in cfgs) && k < |Decls(cfgs, agents)|
    ensures a < |agents| && i < |cfgs[agents[a]].routes|
    ensures k == |Decls(cfgs, agents[..a])| + i
    ensures Decls(cfgs, agents)[k] == Decl(cfgs[agents[a]].routes[i].virt, agents[a])
    decreases |agents|
  {
    var n := |agents| - 1;
    var front := Decls(cfgs, agents[..n]);
    if k < |front| {
      a, i := DeclFrom(cfgs, agents[..n], k);
      assert agents[..n][..a] == agents[..a];
    } else {
      a, i := n, k - |front|;
    }
  }

  lemma {:induction false} DeclsGrow(cfgs: Configs, agents: seq<Ref>, a: nat, b: nat)
    requires (forall r <- agents :: r in cfgs) && a <= b <= |agents|
    ensures |Decls(cfgs, agents[..a])| <= |Decls(cfgs, agents[..b])|
    decreases b
  {
    if a < b {
      DeclsGrow(cfgs, agents, a, b - 1);
      assert agents[..b][..b - 1] == agents[..b - 1];
    }
  }

  lemma DeclOrder(cfgs: Configs, agents: seq<Ref>, a: nat, i: nat, b: nat, j: nat)
    requires (forall r <- agents :: r in cfgs) && a < |agents| && b < |agents|
    requires i < |cfgs[agents[a]].routes| && j < |cfgs[agents[b]].routes|
    ensures |Decls(cfgs, agents[..a])| + i < |Decls(cfgs, agents[..b])| + j <==> a < b || (a == b && i < j)
  {
    var k := DeclAt(cfgs, agents, a, i);
    var l := DeclAt(cfgs, agents, b, j);
    if a < b { DeclsGrow(cfgs, agents, a + 1, b); }
    if b < a { DeclsGrow(cfgs, agents, b + 1, a); }
  }

  /** The agents of `cfgs`, each once, in id order: what the first loop and the first sort leave. */
  ghost predicate AgentOrder(cfgs: Configs, agents: seq<Ref>) {
    && (forall r <- agents :: r in cfgs)
    && (forall r <- cfgs :: cfgs[r].role == RoleAgent <==> r in agents)
    && (forall a, b | 0 <= a < b < |agents| ::
          agents[a] != agents[b] && IdLe(cfgs[agents[a]].Id(), cfgs[agents[b]].Id()))
  }

  lemma DeclaredAt(cfgs: Configs, agents: seq<Ref>, r: Ref, p: Prefix) returns (a: nat, i: nat, k: nat)
    requires AgentOrder(cfgs, agents) && Declares(cfgs, r, p)
    ensures a < |agents| && agents[a] == r && i < |cfgs[r].routes| && cfgs[r].routes[i].virt == p
    ensures k == |Decls(cfgs, agents[..a])| + i < |Decls(cfgs, agents)| && Decls(cfgs, agents)[k] == Decl(p, r)
  {
    var m :| m in cfgs[r].routes && m.virt == p;
    i :| 0 <= i < |cfgs[r].routes| && cfgs[r].routes[i] == m;
    a :| 0 <= a < |agents| && agents[a] == r;
    k := DeclAt(cfgs, agents, a, i);
  }

  /** Keeping the first declaration in id order is giving each prefix to its owner. */
  lemma DedupOwns(cfgs: Configs, agents: seq<Ref>, e: Entry)
    requires AgentOrder(cfgs, agents) && e in Dedup(Decls(cfgs, agents))
    ensures Owns(cfgs, e.peer, e.prefix)
  {
    var d := Decls(cfgs, agents);
    var x :| 0 <= x < |Dedup(d)| && Dedup(d)[x] == e;
    var k := DedupFirst(d, x);
    var a, i := DeclFrom(cfgs, agents, k);
    assert agents[a] in agents;
    assert cfgs[agents[a]].routes[i] in cfgs[agents[a]].routes;
    forall q | q in cfgs && Declares(cfgs, q, e.prefix) ensures IdLe(cfgs[e.peer].Id(), cfgs[q].Id()) {
      var b, j, l := DeclaredAt(cfgs, agents, q, e.prefix);
      DeclOrder(cfgs, agents, b, j, a, i);
      assert l >= k;
      IdTotal(cfgs[e.peer].Id(), cfgs[e.peer].Id());
    }
  }

  lemma RearrangedDistinct(r: seq<Entry>, routes: seq<Entry>)
    requires DistinctPrefixes(r) && multiset(routes) == multiset(r)
    ensures DistinctPrefixes(routes)
  {
    SameElements(routes, r);
    SameDistinct(r, routes);
    forall i, j | 0 <= i < j < |routes| ensures routes[i].prefix != routes[j].prefix {
      assert routes[i] in r && routes[j] in r;
      var x :| 0 <= x < |r| && r[x] == routes[i];
      var y :| 0 <= y < |r| && r[y] == routes[j];
      assert x != y;
    }
  }

  lemma DeclaredInDedup(cfgs: Configs, agents: seq<Ref>, q: Ref, p: Prefix)
    requires AgentOrder(cfgs, agents) && Declares(cfgs, q, p)
    ensures exists e <- Dedup(Decls(cfgs, agents)) :: e.prefix == p
  {
    var r := Dedup(Decls(cfgs, agents));
    var a, i, k := DeclaredAt(cfgs, agents, q, p);
    DedupCovers(Decls(cfgs, agents), k);
    var x :| 0 <= x < |r| && r[x].prefix == p;
    assert r[x] in r;
  }

  /** A sorted rearrangement of the deduplicated declarations is a correct table. */
  lemma SortedDedupIsTable(cfgs: Configs, agents: seq<Ref>, routes: seq<Entry>)
    requires AgentOrder(cfgs, agents) && multiset(routes) == multiset(Dedup(Decls(cfgs, agents)))
    requires forall i, j | 0 <= i < j < |routes| :: routes[i].prefix.bits >= routes[j].prefix.bits
    ensures RoutesFor(cfgs, routes)
  {
    var r := Dedup(Decls(cfgs, agents));
    DedupDistinct(Decls(cfgs, agents));
    RearrangedDistinct(r, routes);
    SameElements(routes, r);
    forall e | e in routes ensures Owns(cfgs, e.peer, e.prefix) { DedupOwns(cfgs, agents, e); }
    forall q, p | Declares(cfgs, q, p) ensures exists e <- routes :: e.prefix == p {
      DeclaredInDedup(cfgs, agents, q, p);
      var e :| e in r && e.prefix == p;
      assert e in routes;
    }
  }

  /** Declarations are dropped exactly when two of them clash. */
  lemma DroppedIffClash(cfgs: Configs, agents: seq<Ref>)
    requires AgentOrder(cfgs, agents)
    ensures |Dedup(Decls(cfgs, agents))| < |Decls(cfgs, agents)| <==> Clash(cfgs)
  {
    var d := Decls(cfgs, agents);
    DedupShorterIff(d);
    if x, y :| 0 <= x < y < |d| && d[x].prefix == d[y].prefix { RepeatIsClash(cfgs, agents, x, y); }
    if Clash(cfgs) { var x, y := ClashIsRepeat(cfgs, agents); }
  }

  lemma RepeatIsClash(cfgs: Configs, agents: seq<Ref>, x: nat, y: nat)
    requires AgentOrder(cfgs, agents)
    requires x < y < |Decls(cfgs, agents)| && Decls(cfgs, agents)[x].prefix == Decls(cfgs, agents)[y].prefix
    ensures Clash(cfgs)
  {
    var a, i := DeclFrom(cfgs, agents, x);
    var b, j := DeclFrom(cfgs, agents, y);
    DeclOrder(cfgs, agents, a, i, b, j);
    var r, q := agents[a], agents[b];
    assert r in agents && q in agents && cfgs[r].routes[i].virt == cfgs[q].routes[j].virt && (r != q || i != j);
  }

  lemma ClashIsRepeat(cfgs: Configs, agents: seq<Ref>) returns (x: nat, y: nat)
    requires AgentOrder(cfgs, agents) && Clash(cfgs)
    ensures var d := Decls(cfgs, agents); x < |d| && y < |d| && x != y && d[x].prefix == d[y].prefix
  {
    var r, q, i, j :|
      && r in cfgs && q in cfgs && cfgs[r].role == cfgs[q].role == RoleAgent
      && 0 <= i < |cfgs[r].routes| && 0 <= j < |cfgs[q].routes| && (r != q || i != j)
      && cfgs[r].routes[i].virt == cfgs[q].routes[j].virt;
    var a :| 0 <= a < |agents| && agents[a] == r;
    var b :| 0 <= b < |agents| && agents[b] == q;
    x := DeclAt(cfgs, agents, a, i);
    y := DeclAt(cfgs, agents, b, j);
    DeclOrder(cfgs, agents, a, i, b, j);
    DeclOrder(cfgs, agents, b, j, a, i);
  }

  /** `rebuildTablesLocked`: peers arrive in an arbitrary order, both sorts are free in how they
      place equal keys, and the tables still mean what `TablesFor` says. */
  method RebuildTables(cfgs: Configs) returns (t: Tables)
    ensures TablesFor(cfgs, t)
    ensures t.conflicts == [] <==> !Clash(cfgs)
    ensures forall c <- t.conflicts :: Genuine(cfgs, c)
  {
    var byIP: map<Addr, Ref> := map[];
    var byAgentIP: map<Addr, Ref> := map[];
    var agents: seq<Ref> := [];
    var todo := cfgs.Keys;
    while todo != {}
      invariant todo <= cfgs.Keys
      invariant forall r <- agents :: r in cfgs.Keys - todo && cfgs[r].role == RoleAgent
      invariant forall r <- cfgs :: r !in todo && cfgs[r].role == RoleAgent ==> r in agents
      invariant forall a, b | 0 <= a < b < |agents| :: agents[a] != agents[b]
      invariant PartIndex(cfgs, RoleClient, todo, byIP) && PartIndex(cfgs, RoleAgent, todo, byAgentIP)
      decreases |todo|
    {
      var r :| r in todo;
      todo := todo - {r};
      var cfg := cfgs[r];
      if cfg.role == RoleAgent {
        agents := agents + [r];
        if cfg.tunnelIP.Some? { byAgentIP := byAgentIP[cfg.tunnelIP.value := r]; }
      } else {
        if cfg.tunnelIP.Some? { byIP := byIP[cfg.tunnelIP.value := r]; }
      }
    }
    var order := SortAgents(cfgs, agents);
    var entries, conflicts := Collect(cfgs, order);
    var routes := SortEntries(entries);
    SortedDedupIsTable(cfgs, order, routes);
    DroppedIffClash(cfgs, order);
    forall c | c in conflicts ensures Genuine(cfgs, c) { ReportedIsGenuine(cfgs, order, c); }
    t := Tables(routes, byIP, byAgentIP, conflicts);
  }

  ghost predicate PartIndex(cfgs: Configs, role: Role, todo: set<Ref>, index: map<Addr, Ref>) {
    && (forall a <- index :: index[a] in cfgs && cfgs[index[a]].role == role && cfgs[index[a]].tunnelIP == Some(a))
    && (forall r <- cfgs ::
          r !in todo && cfgs[r].role == role && cfgs[r].tunnelIP.Some? ==> cfgs[r].tunnelIP.value in index)
  }

  function IdOf(cfgs: Configs, r: Ref): string { if r in cfgs then cfgs[r].Id() else "" }

  method SortAgents(cfgs: Configs, agents: seq<Ref>) returns (order: seq<Ref>)
    requires forall r <- agents :: r in cfgs && cfgs[r].role == RoleAgent
    requires forall r <- cfgs :: cfgs[r].role == RoleAgent ==> r in agents
    requires forall a, b | 0 <= a < b < |agents| :: agents[a] != agents[b]
    ensures AgentOrder(cfgs, order)
  {
    var le := (x: Ref, y: Ref) => IdLe(IdOf(cfgs, x), IdOf(cfgs, y));
    IdLePreorder(cfgs, le);
    order := SortSlice(agents, le);
    SameElements(order, agents);
    SameDistinct(agents, order);
    forall a, b | 0 <= a < b < |order| ensures IdLe(cfgs[order[a]].Id(), cfgs[order[b]].Id()) {
      assert le(order[a], order[b]) && order[a] in agents && order[b] in agents;
    }
  }

  lemma IdLePreorder(cfgs: Configs, le: (Ref, Ref) -> bool)
    requires forall x, y :: le(x, y) == IdLe(IdOf(cfgs, x), IdOf(cfgs, y))
    ensures TotalPreorder(le)
  {
    forall x, y ensures le(x, y) || le(y, x) {
      IdTotal(IdOf(cfgs, x), IdOf(cfgs, y));
    }
    forall x, y, z | le(x, y) && le(y, z) ensures le(x, z) {
      IdTransitive(IdOf(cfgs, x), IdOf(cfgs, y), IdOf(cfgs, z));
    }
  }

  method SortEntries(entries: seq<Entry>) returns (routes: seq<Entry>)
    ensures multiset(routes) == multiset(entries)
    ensures forall i, j | 0 <= i < j < |routes| :: routes[i].prefix.bits >= routes[j].prefix.bits
  {
    var le := (x: Entry, y: Entry) => x.prefix.bits >= y.prefix.bits;
    routes := SortSlice(entries, le);
    forall i, j | 0 <= i < j < |routes| ensures routes[i].prefix.bits >= routes[j].prefix.bits {
      assert le(routes[i], routes[j]);
    }
  }

  /** The outer of the two nested loops; `seen` maps each taken prefix to its owner's id. */
  method Collect(cfgs: Configs, agents: seq<Ref>) returns (entries: seq<Entry>, conflicts: seq<Conflict>)
    requires forall r <- agents :: r in cfgs
    ensures entries == Dedup(Decls(cfgs, agents))
    ensures |entries| + |conflicts| == |Decls(cfgs, agents)|
    ensures forall c <- conflicts :: Reported(cfgs, agents, |agents|, c)
  {
    var seen: map<Prefix, string> := map[];
    entries, conflicts := [], [];
    for a := 0 to |agents|
      invariant entries == Dedup(Decls(cfgs, agents[..a]))
      invariant |entries| + |conflicts| == |Decls(cfgs, agents[..a])|
      invariant forall p :: p in seen <==> Has(entries, p)
      invariant forall p <- seen :: OwnedBy(cfgs, agents, a, p, seen[p])
      invariant forall c <- conflicts :: Reported(cfgs, agents, a, c)
    {
      var cfg := cfgs[agents[a]];
      ghost var before, told := seen, conflicts;
      entries, conflicts, seen :=
        CollectRoutes(agents[a], cfg.Id(), cfg.routes, entries, conflicts, seen, Decls(cfgs, agents[..a]));
      assert agents[..a + 1][..a] == agents[..a];
      OwnersKept(cfgs, agents, a, before, seen);
      ReportsKept(cfgs, agents, a, seen, told, conflicts);
    }
    assert agents[..|agents|] == agents;
  }

  /** One of the first `n` agents goes by `id` and declares the prefix. */
  ghost predicate OwnedBy(cfgs: Configs, agents: seq<Ref>, n: nat, p: Prefix, id: string) {
    exists i: nat :: i < n && DeclaredAs(cfgs, agents, i, p, id)
  }

  ghost predicate DeclaredAs(cfgs: Configs, agents: seq<Ref>, i: nat, p: Prefix, id: string) {
    i < |agents| && agents[i] in cfgs && cfgs[agents[i]].Id() == id && cfgs[agents[i]].Publishes(p)
  }

  /** Both ids of a reported conflict declare its prefix, the owner first. */
  ghost predicate Reported(cfgs: Configs, agents: seq<Ref>, n: nat, c: Conflict) {
    exists i: nat, j: nat ::
      i <= j < n && DeclaredAs(cfgs, agents, i, c.prefix, c.owner) && DeclaredAs(cfgs, agents, j, c.prefix, c.id)
  }

  /** Two agents declare the prefix, or one does twice, and the owner's id is not the larger. */
  ghost predicate Genuine(cfgs: Configs, c: Conflict) {
    && IdLe(c.owner, c.id)
    && (exists r :: Declares(cfgs, r, c.prefix) && cfgs[r].Id() == c.owner)
    && (exists r :: Declares(cfgs, r, c.prefix) && cfgs[r].Id() == c.id)
  }

  lemma ReportedIsGenuine(cfgs: Configs, agents: seq<Ref>, c: Conflict)
    requires AgentOrder(cfgs, agents) && Reported(cfgs, agents, |agents|, c)
    ensures Genuine(cfgs, c)
  {
    var i: nat, j: nat :| i <= j < |agents|
      && DeclaredAs(cfgs, agents, i, c.prefix, c.owner) && DeclaredAs(cfgs, agents, j, c.prefix, c.id);
    assert agents[i] in agents && agents[j] in agents;
    assert Declares(cfgs, agents[i], c.prefix) && Declares(cfgs, agents[j], c.prefix);
    IdTotal(c.owner, c.id);
  }

  /** What one agent's routes add to the prefixes seen. */
  predicate Adds(id: string, routes: seq<RouteMap>, seen0: map<Prefix, string>, seen: map<Prefix, string>) {
    && (forall p <- seen0 :: p in seen && seen[p] == seen0[p])
    && forall p <- seen :: p !in seen0 ==> seen[p] == id && exists m <- routes :: m.virt == p
  }

  lemma OwnersKept(cfgs: Configs, agents: seq<Ref>, a: nat, seen0: map<Prefix, string>, seen: map<Prefix, string>)
    requires a < |agents| && agents[a] in cfgs && Adds(cfgs[agents[a]].Id(), cfgs[agents[a]].routes, seen0, seen)
    requires forall p <- seen0 :: OwnedBy(cfgs, agents, a, p, seen0[p])
    ensures forall p <- seen :: OwnedBy(cfgs, agents, a + 1, p, seen[p])
  {
    forall p | p in seen ensures OwnedBy(cfgs, agents, a + 1, p, seen[p]) {
      if p in seen0 {
        var i: nat :| i < a && DeclaredAs(cfgs, agents, i, p, seen0[p]);
      } else {
        assert DeclaredAs(cfgs, agents, a, p, seen[p]);
      }
    }
  }

  /** The conflicts of one agent's routes: with who has the prefix already, or with itself. */
  predicate Tells(id: string, routes: seq<RouteMap>, seen: map<Prefix, string>, told: seq<Conflict>,
                  now: seq<Conflict>)
  {
    forall c <- now :: c in told ||
      (c.id == id && c.prefix in seen && c.owner == seen[c.prefix] && exists m <- routes :: m.virt == c.prefix)
  }

  lemma ReportsKept(cfgs: Configs, agents: seq<Ref>, a: nat, seen: map<Prefix, string>,
                    told: seq<Conflict>, now: seq<Conflict>)
    requires a < |agents| && agents[a] in cfgs && forall p <- seen :: OwnedBy(cfgs, agents, a + 1, p, seen[p])
    requires Tells(cfgs[agents[a]].Id(), cfgs[agents[a]].routes, seen, told, now)
    requires forall c <- told :: Reported(cfgs, agents, a, c)
    ensures forall c <- now :: Reported(cfgs, agents, a + 1, c)
  {
    forall c | c in now ensures Reported(cfgs, agents, a + 1, c) {
      if c in told {
        var i: nat, j: nat :| i <= j < a
          && DeclaredAs(cfgs, agents, i, c.prefix, c.owner) && DeclaredAs(cfgs, agents, j, c.prefix, c.id);
      } else {
        var i: nat :| i < a + 1 && DeclaredAs(cfgs, agents, i, c.prefix, c.owner);
        assert DeclaredAs(cfgs, agents, a, c.prefix, c.id);
      }
    }
  }

  /** The inner loop: one agent's routes. */
  method CollectRoutes(r: Ref, id: string, routes: seq<RouteMap>, entries0: seq<Entry>, conflicts0: seq<Conflict>,
                       seen0: map<Prefix, string>, ghost before: seq<Decl>)
      returns (entries: seq<Entry>, conflicts: seq<Conflict>, seen: map<Prefix, string>)
    requires entries0 == Dedup(before) && |entries0| + |conflicts0| == |before|
    requires forall p :: p in seen0 <==> Has(entries0, p)
    ensures entries == Dedup(before + DeclsOf(r, routes)) && |entries| + |conflicts| == |before| + |routes|
    ensures forall p :: p in seen <==> Has(entries, p)
    ensures Adds(id, routes, seen0, seen) && Tells(id, routes, seen, conflicts0, conflicts)
  {
    entries, conflicts, seen := entries0, conflicts0, seen0;
    ghost var done := before;
    for i := 0 to |routes|
      invariant done == before + DeclsOf(r, routes)[..i] && |done| == |before| + i
      invariant entries == Dedup(done) && |entries| + |conflicts| == |done|
      invariant forall p :: p in seen <==> Has(entries, p)
      invariant Adds(id, routes, seen0, seen) && Tells(id, routes, seen, conflicts0, conflicts)
    {
      var virt := routes[i].virt;
      assert routes[i] in routes;
      ghost var seen1, conflicts1 := seen, conflicts;
      DedupSnoc(done, Decl(virt, r));
      done := done + [Decl(virt, r)];
      if virt in seen {
        conflicts := conflicts + [Conflict(id, seen[virt], virt)];
      } else {
        seen := seen[virt := id];
        entries := entries + [Entry(virt, r)];
      }
      RouteKept(id, routes, routes[i], seen0, seen1, seen, conflicts0, conflicts1, conflicts);
    }
    assert DeclsOf(r, routes)[..|routes|] == DeclsOf(r, routes);
  }

  lemma RouteKept(id: string, routes: seq<RouteMap>, m: RouteMap, seen0: map<Prefix, string>, seen: map<Prefix, string>,
                  seen2: map<Prefix, string>, told: seq<Conflict>, now: seq<Conflict>, now2: seq<Conflict>)
    requires m in routes && Adds(id, routes, seen0, seen) && Tells(id, routes, seen, told, now)
    requires if m.virt in seen then seen2 == seen && now2 == now + [Conflict(id, seen[m.virt], m.virt)]
             else seen2 == seen[m.virt := id] && now2 == now
    ensures Adds(id, routes, seen0, seen2) && Tells(id, routes, seen2, told, now2)
  {
  }

  lemma DedupSnoc(d: seq<Decl>, x: Decl)
    ensures Dedup(d + [x]) == if Has(Dedup(d), x.prefix) then Dedup(d) else Dedup(d) + [Entry(x.prefix, x.peer)]
    ensures forall p :: Has(Dedup(d + [x]), p) <==> Has(Dedup(d), p) || p == x.prefix
  {
    assert (d + [x])[..|d|] == d;
    HasSnoc(Dedup(d), Entry(x.prefix, x.peer));
  }

  lemma HasSnoc(r: seq<Entry>, e: Entry)
    ensures forall p :: Has(r + [e], p) <==> Has(r, p) || p == e.prefix
  {
    var t := r + [e];
    forall p | Has(r, p) || p == e.prefix ensures Has(t, p) {
      if Has(r, p) {
        var i :| 0 <= i < |r| && r[i].prefix == p;
        assert t[i].prefix == p;
      } else {
        assert t[|r|].prefix == p;
      }
    }
  }
}
