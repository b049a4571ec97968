/** What the hub knows about a peer, and how the registry files become peer sets. */
module Peers {
  import opened Wrappers
  import opened Addresses
  import opened Translators

  datatype Role = RoleClient | RoleAgent

  datatype PeerConfig = PeerConfig(
    name: string,
    user: string,
    pub: string,               // hex of the static public key
    totpSecret: string,        // "" means no code is required
    id: string,
    role: Role,
    tunnelIP: Option<Addr>,
    routes: seq<RouteMap>,
    allowAgents: seq<string>,
    enabled: bool
  ) {
    function Id(): string { if id != "" then id else name }
    predicate RequiresMFA() { totpSecret != "" }

    /** The prefixes an agent presents inside the tunnel. */
    predicate Publishes(p: Prefix) { exists m <- routes :: m.virt == p }

    predicate Masked() { forall m <- routes :: m.Valid() && m.virt.IsMasked() && m.lan.IsMasked() }
  }

  // Agent ids are compared by ACLs ignoring letter case.

  /** Simple case folding onto lower-case ASCII: the Latin capitals, the Kelvin sign and the long s. */
  function FoldChar(c: char): char {
    if 'A' <= c <= 'Z' then c - 'A' + 'a'
    else if c == '\U{212A}' then 'k'
    else if c == '\U{17F}' then 's'
    else c
  }

  predicate EqualFold(a: string, b: string) {
    |a| == |b| && forall i | 0 <= i < |a| :: FoldChar(a[i]) == FoldChar(b[i])
  }

  /** One character, in either case: an ASCII letter's two forms differ by 32, and the Kelvin sign and the long s
      go with k and s. */
  predicate SameLetter(x: char, y: char) {
    || x == y
    || ('A' <= x <= 'Z' && y as int == x as int + 32) || ('A' <= y <= 'Z' && x as int == y as int + 32)
    || (x in {'k', 'K', '\U{212A}'} && y in {'k', 'K', '\U{212A}'})
    || (x in {'s', 'S', '\U{17F}'} && y in {'s', 'S', '\U{17F}'})
  }

  /** What comparing ids means, letter by letter. */
  lemma EqualFoldIff(a: string, b: string)
    ensures EqualFold(a, b) <==> |a| == |b| && forall i | 0 <= i < |a| :: SameLetter(a[i], b[i])
  {
    forall x: char, y: char ensures FoldChar(x) == FoldChar(y) <==> SameLetter(x, y) { }
  }

  /** `ClientAllowed`: the ACL names this agent. */
  predicate Allows(cfg: PeerConfig, agentId: string) {
    exists i | 0 <= i < |cfg.allowAgents| :: EqualFold(cfg.allowAgents[i], agentId)
  }

  method ClientAllowed(cfg: PeerConfig, agentId: string) returns (ok: bool)
    ensures ok == Allows(cfg, agentId)
  {
    for i := 0 to |cfg.allowAgents|
      invariant forall k | 0 <= k < i :: !EqualFold(cfg.allowAgents[k], agentId)
    {
      if EqualFold(cfg.allowAgents[i], agentId) { return true; }
    }
    return false;
  }

  /** `allowsSource`: an agent may send from its own tunnel address and its virtual prefixes. */
  predicate AllowsSource(cfg: PeerConfig, src: Addr) {
    cfg.tunnelIP == Some(src) || exists m <- cfg.routes :: m.virt.Contains(src)
  }

  // ------------------------------------------------------------- registry files

  /** A text field that stands for a value: left empty, not readable as one, or read. */
  datatype Field<T> = Blank | Unreadable | Read(value: T) {
    function Value(): Option<T> { if Read? then Some(value) else None }
  }

  /** One decoded entry of clients.json; `pub` is `None` when the key does not decode to 32 bytes. */
  datatype ClientEntry = ClientEntry(
    name: string, user: string, pub: Option<string>, disabled: bool, totpSecret: string,
    tunnelIP: Field<Addr>, agents: seq<string>
  ) {
    predicate Good() { pub.Some? && name != "" && !tunnelIP.Unreadable? }
  }

  /** One decoded route of agents.json. */
  datatype RouteEntry = RouteEntry(lan: Field<Prefix>, virt: Field<Prefix>) {
    predicate Valid() { (lan.Read? ==> lan.value.Valid()) && (virt.Read? ==> virt.value.Valid()) }
  }

  /** What the text can stand for: prefixes that were read are prefixes. */
  type Line = e: RouteEntry | e.Valid() witness RouteEntry(Blank, Blank)

  datatype AgentEntry = AgentEntry(
    id: string, name: string, pub: Option<string>, enabled: bool, totpSecret: string,
    tunnelIP: Field<Addr>, routes: seq<RouteEntry>)

  type Registry = map<string, PeerConfig>

  ghost predicate KeyedByPub(m: Registry) { forall k <- m :: m[k].pub == k }

  /** What `ParseRegistry` hands to the engine: clients only, all enabled, without routes, keyed by their key. */
  ghost predicate ClientRegistry(m: Registry) {
    KeyedByPub(m) && forall k <- m :: m[k].role == RoleClient && m[k].enabled && m[k].routes == []
  }

  /** What `ParseAgentRegistry` hands to the engine: agents with masked, paired prefixes. */
  ghost predicate AgentRegistry(m: Registry) {
    KeyedByPub(m) && forall k <- m :: m[k].role == RoleAgent && m[k].Masked()
  }

  function ClientConfig(c: ClientEntry, pub: string): PeerConfig {
    PeerConfig(c.name, c.user, pub, c.totpSecret, "", RoleClient, c.tunnelIP.Value(), [], c.agents, true)
  }

  /** The configuration is the entry's, field by field. */
  predicate ClientOf(cfg: PeerConfig, c: ClientEntry, k: string) {
    && cfg.pub == k && cfg.name == c.name && cfg.user == c.user && cfg.totpSecret == c.totpSecret
    && cfg.tunnelIP == (if c.tunnelIP.Read? then Some(c.tunnelIP.value) else None)
    && cfg.allowAgents == c.agents && cfg.role == RoleClient && cfg.enabled && cfg.routes == [] && cfg.id == ""
  }

  /** Among the first `n` entries, number `i` decides key `k`: the last enabled one. */
  ghost predicate DecidesClient(entries: seq<ClientEntry>, n: nat, i: nat, k: string) {
    i < n <= |entries| && !entries[i].disabled && entries[i].pub == Some(k) &&
    forall j | i < j < n :: entries[j].disabled || entries[j].pub != Some(k)
  }

  ghost predicate FromClients(entries: seq<ClientEntry>, n: nat, k: string, cfg: PeerConfig) {
    exists i: nat :: DecidesClient(entries, n, i, k) && ClientOf(cfg, entries[i], k)
  }

  lemma ClientStep(entries: seq<ClientEntry>, i: nat, before: Registry, out: Registry)
    requires i < |entries| && forall k <- before :: FromClients(entries, i, k, before[k])
    requires var c := entries[i];
      if c.disabled then out == before
      else c.pub.Some? && out == before[c.pub.value := ClientConfig(c, c.pub.value)]
    ensures forall k <- out :: FromClients(entries, i + 1, k, out[k])
  {
    var c := entries[i];
    forall k | k in out ensures FromClients(entries, i + 1, k, out[k]) {
      if !c.disabled && c.pub == Some(k) {
        assert DecidesClient(entries, i + 1, i, k);
      } else {
        var j: nat :| DecidesClient(entries, i, j, k) && ClientOf(before[k], entries[j], k);
        assert DecidesClient(entries, i + 1, j, k);
      }
    }
  }

  /** What a parsed clients.json is: refused as a whole when an enabled entry has no valid key, no
      name or a bad address; otherwise each key maps to its last enabled entry. */
  ghost predicate ClientsParsed(entries: seq<ClientEntry>, r: Option<Registry>) {
    && (r.None? <==> exists c <- entries :: !c.disabled && (c.pub.None? || c.name == "" || c.tunnelIP.Unreadable?))
    && (r.Some? ==>
          && ClientRegistry(r.value)
          && (forall k <- r.value :: FromClients(entries, |entries|, k, r.value[k]))
          && (forall c <- entries :: !c.disabled ==> c.pub.value in r.value))
  }

  /** `ParseRegistry` after JSON decoding. */
  method ParseRegistry(entries: seq<ClientEntry>) returns (r: Option<Registry>)
    ensures ClientsParsed(entries, r)
  {
    var out: Registry := map[];
    for i := 0 to |entries|
      invariant forall j | 0 <= j < i :: entries[j].disabled || entries[j].Good()
      invariant ClientRegistry(out)
      invariant forall k <- out :: FromClients(entries, i, k, out[k])
      invariant forall j | 0 <= j < i :: !entries[j].disabled ==> entries[j].pub.value in out
    {
      var c := entries[i];
      assert c in entries;
      ghost var before := out;
      if !c.disabled {
        if c.pub.None? { return None; }
        if c.name == "" { return None; }
        if c.tunnelIP.Unreadable? { return None; }
        out := out[c.pub.value := ClientConfig(c, c.pub.value)];
      }
      ClientStep(entries, i, before, out);
    }
    return Some(out);
  }

  /** `ParseRouteMap`: masked prefixes of one family and one length. */
  function ParseRouteMap(e: RouteEntry): (r: Option<RouteMap>)
    ensures r.Some? ==> r.value.virt.IsMasked() && r.value.lan.IsMasked() && (e.Valid() ==> r.value.Valid())
    ensures r.None? <==>
      || !e.lan.Read? || e.virt.Unreadable?
      || (e.virt.Read? && (e.virt.value.fam != e.lan.value.fam || e.virt.value.bits != e.lan.value.bits))
  {
    if !e.lan.Read? then None
    else
      MaskedSameBlock(e.lan.value);
      var lan := e.lan.value.Masked();
      match e.virt
      case Blank => Some(RouteMap(lan, lan))
      case Unreadable => None
      case Read(v) =>
        MaskedSameBlock(v);
        if lan.fam != v.fam || lan.bits != v.bits then None else Some(RouteMap(lan, v.Masked()))
  }

  function AgentName(a: AgentEntry): string { if a.id != "" then a.id else a.name }

  predicate ValidRoutes(routes: seq<RouteEntry>) { forall e <- routes :: e.Valid() }

  function ParseRoutes(routes: seq<RouteEntry>): Option<seq<RouteMap>> {
    if routes == [] then Some([])
    else
      var front := ParseRoutes(routes[..|routes| - 1]);
      var last := ParseRouteMap(routes[|routes| - 1]);
      if front.None? || last.None? then None else Some(front.value + [last.value])
  }

  /** All routes parse, each in its place, or the list is refused. */
  lemma {:induction false} ParseRoutesExact(routes: seq<RouteEntry>)
    ensures var r := ParseRoutes(routes); r.Some? ==>
      |r.value| == |routes| && forall i | 0 <= i < |routes| :: Some(r.value[i]) == ParseRouteMap(routes[i])
    ensures ParseRoutes(routes).None? <==> exists e <- routes :: ParseRouteMap(e).None?
  {
    if routes != [] {
      assert routes == routes[..|routes| - 1] + [routes[|routes| - 1]];
      ParseRoutesExact(routes[..|routes| - 1]);
    }
  }

  function AgentConfig(a: AgentEntry): (r: Option<PeerConfig>)
    ensures r.Some? ==> r.value.role == RoleAgent && Some(r.value.pub) == a.pub
  {
    if a.pub.None? || AgentName(a) == "" || a.tunnelIP.Unreadable? || ParseRoutes(a.routes).None? then None
    else Some(PeerConfig(if a.name != "" then a.name else AgentName(a), "", a.pub.value, a.totpSecret, AgentName(a),
                         RoleAgent, a.tunnelIP.Value(), ParseRoutes(a.routes).value, [], a.enabled))
  }

  /** When an agent entry is refused, and what it says otherwise: a site without an id goes by its name, one
      without a name by its id, and every route stands in its place. */
  lemma AgentConfigIs(a: AgentEntry)
    ensures AgentConfig(a).None? <==>
      || a.pub.None? || (a.id == "" && a.name == "") || a.tunnelIP.Unreadable?
      || exists e <- a.routes :: ParseRouteMap(e).None?
    ensures AgentConfig(a).Some? ==> AgentOf(AgentConfig(a).value, a)
  {
    ParseRoutesExact(a.routes);
  }

  /** The configuration is the entry's, field by field. */
  predicate AgentOf(cfg: PeerConfig, a: AgentEntry) {
    && a.pub == Some(cfg.pub) && cfg.totpSecret == a.totpSecret && cfg.enabled == a.enabled
    && cfg.id == (if a.id == "" then a.name else a.id) && cfg.name == (if a.name == "" then a.id else a.name)
    && cfg.tunnelIP == (if a.tunnelIP.Read? then Some(a.tunnelIP.value) else None)
    && cfg.role == RoleAgent && cfg.user == "" && cfg.allowAgents == []
    && |cfg.routes| == |a.routes|
    && forall i | 0 <= i < |a.routes| :: a.routes[i].lan.Read?
         && cfg.routes[i].lan == a.routes[i].lan.value.Masked()
         && var shown := if a.routes[i].virt.Read? then a.routes[i].virt.value else a.routes[i].lan.value;
           cfg.routes[i].virt == shown.Masked()
  }

  lemma AgentConfigMasked(a: AgentEntry)
    requires ValidRoutes(a.routes) && AgentConfig(a).Some?
    ensures AgentConfig(a).value.Masked()
  {
    ParseRoutesExact(a.routes);
    forall m | m in AgentConfig(a).value.routes ensures m.Valid() && m.virt.IsMasked() && m.lan.IsMasked() {
      var i :| 0 <= i < |a.routes| && ParseRoutes(a.routes).value[i] == m;
      assert a.routes[i] in a.routes;
    }
  }

  ghost predicate DecidesAgent(entries: seq<AgentEntry>, n: nat, i: nat, k: string) {
    i < n <= |entries| && entries[i].pub == Some(k) && forall j | i < j < n :: entries[j].pub != Some(k)
  }

  ghost predicate FromAgents(entries: seq<AgentEntry>, n: nat, k: string, cfg: PeerConfig) {
    exists i: nat :: DecidesAgent(entries, n, i, k) && AgentConfig(entries[i]) == Some(cfg)
  }

  lemma AgentStays(entries: seq<AgentEntry>, i: nat, k: string, cfg: PeerConfig)
    requires i < |entries| && FromAgents(entries, i, k, cfg) && entries[i].pub != Some(k)
    ensures FromAgents(entries, i + 1, k, cfg)
  {
    var j: nat :| DecidesAgent(entries, i, j, k) && AgentConfig(entries[j]) == Some(cfg);
    assert DecidesAgent(entries, i + 1, j, k);
  }

  lemma AgentAdded(before: Registry, k: string, cfg: PeerConfig)
    requires AgentRegistry(before) && cfg.role == RoleAgent && cfg.pub == k && cfg.Masked()
    ensures AgentRegistry(before[k := cfg])
  {
  }

  lemma AgentStep(entries: seq<AgentEntry>, i: nat, before: Registry, out: Registry, cfg: PeerConfig)
    requires i < |entries| && forall k <- before :: FromAgents(entries, i, k, before[k])
    requires AgentConfig(entries[i]) == Some(cfg) && out == before[entries[i].pub.value := cfg]
    ensures forall k <- out :: FromAgents(entries, i + 1, k, out[k])
  {
    forall k | k in out ensures FromAgents(entries, i + 1, k, out[k]) {
      if entries[i].pub == Some(k) {
        assert DecidesAgent(entries, i + 1, i, k);
      } else {
        AgentStays(entries, i, k, before[k]);
      }
    }
  }

  /** What a parsed agents.json is: one bad entry refuses the file, the last entry of a key wins,
      disabled agents are kept and flagged. */
  ghost predicate AgentsParsed(entries: seq<AgentEntry>, r: Option<Registry>) {
    && (r.None? <==> exists a <- entries :: AgentConfig(a).None?)
    && (r.Some? ==>
          && AgentRegistry(r.value)
          && (forall k <- r.value :: FromAgents(entries, |entries|, k, r.value[k]))
          && (forall a <- entries :: a.pub.Some? && a.pub.value in r.value))
  }

  /** `ParseAgentRegistry` after JSON decoding. */
  method ParseAgentRegistry(entries: seq<AgentEntry>) returns (r: Option<Registry>)
    requires forall a <- entries :: ValidRoutes(a.routes)
    ensures AgentsParsed(entries, r)
  {
    var out: Registry := map[];
    for i := 0 to |entries|
      invariant forall j | 0 <= j < i :: AgentConfig(entries[j]).Some? && entries[j].pub.value in out
      invariant AgentRegistry(out)
      invariant forall k <- out :: FromAgents(entries, i, k, out[k])
    {
      var a := entries[i];
      assert a in entries;
      ghost var before := out;
      var cfg := AgentConfig(a);
      if cfg.None? { return None; }
      AgentConfigMasked(a);
      out := out[a.pub.value := cfg.value];
      AgentAdded(before, a.pub.value, cfg.value);
      AgentStep(entries, i, before, out, cfg.value);
    }
    return Some(out);
  }
}
