/** From the control plane's database to the hub's peer set: what is written to agents.json and
    clients.json, whether the hub can read it, and what it then has. */
module Publishing {
  import opened Wrappers
  import opened Pow2s
  import opened Addresses
  import opened Translators
  import opened Peers
  import opened Routing
  import opened Relay
  import opened RouteAllocation
  import opened Sites

  // ------------------------------------------------------------ the two files

  function RouteLine(rt: AgentRoute): RouteEntry {
    RouteEntry(Read(rt.lan), if rt.virt.Some? then Read(rt.virt.value) else Blank)
  }

  function Entry(r: Record): AgentEntry {
    AgentEntry(r.agentId, r.name, r.pub, r.enabled, r.totpSecret, Read(TunnelAddr(r.host)),
               seq(|r.routes|, i requires 0 <= i < |r.routes| => RouteLine(r.routes[i])))
  }

  /** `syncAgents`: the sites some machine has enrolled for. */
  function AgentsFile(s: seq<Record>): seq<AgentEntry> {
    if s == [] then []
    else
      var last := s[|s| - 1];
      AgentsFile(s[..|s| - 1]) + if last.pub.Some? then [Entry(last)] else []
  }

  function DeviceEntry(d: Device): ClientEntry {
    ClientEntry(d.name, d.user, Some(d.pub), false, d.totpSecret, Read(TunnelAddr(d.host)), d.agents)
  }

  /** `syncClients`: the devices the hub may admit. */
  function ClientsFile(d: seq<Device>): seq<ClientEntry> {
    if d == [] then []
    else
      var last := d[|d| - 1];
      ClientsFile(d[..|d| - 1]) + if last.listed then [DeviceEntry(last)] else []
  }

  method SyncAgents(s: seq<Record>) returns (out: seq<AgentEntry>)
    ensures out == AgentsFile(s)
    ensures forall i | 0 <= i < |s| && s[i].pub.Some? :: Entry(s[i]) in out
    ensures forall e <- out :: e.pub.Some? && exists i | 0 <= i < |s| :: e == Entry(s[i])
  {
    out := [];
    for n := 0 to |s|
      invariant out == AgentsFile(s[..n])
      invariant forall i | 0 <= i < n && s[i].pub.Some? :: Entry(s[i]) in out
      invariant forall e <- out :: e.pub.Some? && exists i | 0 <= i < n :: e == Entry(s[i])
    {
      assert s[..n + 1][..n] == s[..n];
      if s[n].pub.Some? { out := out + [Entry(s[n])]; }
    }
    assert s[..|s|] == s;
  }

  lemma {:induction false} InAgentsFile(s: seq<Record>, i: nat)
    requires i < |s| && s[i].pub.Some?
    ensures Entry(s[i]) in AgentsFile(s)
  {
    if i < |s| - 1 { InAgentsFile(s[..|s| - 1], i); }
  }

  lemma {:induction false} FromAgentsFile(s: seq<Record>, e: AgentEntry) returns (i: nat)
    requires e in AgentsFile(s)
    ensures i < |s| && s[i].pub.Some? && e == Entry(s[i])
  {
    var n := |s| - 1;
    if e in AgentsFile(s[..n]) { i := FromAgentsFile(s[..n], e); } else { i := n; }
  }

  lemma {:induction false} FromClientsFile(d: seq<Device>, e: ClientEntry) returns (i: nat)
    requires e in ClientsFile(d)
    ensures i < |d| && d[i].listed && e == DeviceEntry(d[i])
  {
    var n := |d| - 1;
    if e in ClientsFile(d[..n]) { i := FromClientsFile(d[..n], e); } else { i := n; }
  }

  // ------------------------------------------------------- reading them back

  lemma LineReads(rt: AgentRoute)
    requires rt.Formed()
    ensures RouteLine(rt).Valid() && (ParseRouteMap(RouteLine(rt)).None? <==> rt.Mixed())
    ensures !rt.Mixed() ==> ParseRouteMap(RouteLine(rt)) == Some(RouteMap(rt.lan.Masked(), rt.Effective().Masked()))
  {
  }

  lemma EntryLine(r: Record, i: nat)
    requires RecordOK(r) && i < |r.routes|
    ensures Entry(r).routes[i] == RouteLine(r.routes[i]) && r.routes[i].Formed() && RouteLine(r.routes[i]).Valid()
    ensures ParseRouteMap(Entry(r).routes[i]).None? <==> r.routes[i].Mixed()
  {
    assert r.routes[i] in r.routes;
    LineReads(r.routes[i]);
  }

  /** A published site reads back, unless one of its routes is mixed. */
  lemma EntryReadsIff(r: Record)
    requires RecordOK(r) && r.pub.Some?
    ensures AgentConfig(Entry(r)).None? <==> exists i: nat | i < |r.routes| :: r.routes[i].Mixed()
  {
    var e := Entry(r);
    ParseRoutesExact(e.routes);
    if l :| l in e.routes && ParseRouteMap(l).None? {
      var i: nat :| i < |e.routes| && e.routes[i] == l;
      EntryLine(r, i);
    }
    if i: nat :| i < |r.routes| && r.routes[i].Mixed() {
      EntryLine(r, i);
      assert e.routes[i] in e.routes;
    }
  }

  /** And then as itself. */
  lemma EntryRuns(r: Record)
    requires RecordOK(r) && r.pub.Some? && AgentConfig(Entry(r)).Some?
    ensures var c := AgentConfig(Entry(r)).value;
      && RunsSite(c, r) && c.Masked() && c.pub == r.pub.value
      && c.enabled == r.enabled && c.totpSecret == r.totpSecret && c.name == r.name
  {
    var e := Entry(r);
    ParseRoutesExact(e.routes);
    forall l | l in e.routes ensures l.Valid() {
      var i: nat :| i < |e.routes| && e.routes[i] == l;
      EntryLine(r, i);
    }
    AgentConfigMasked(e);
    forall i: nat | i < |r.routes|
      ensures AgentConfig(e).value.routes[i] == RouteMap(r.routes[i].lan.Masked(), r.routes[i].Effective().Masked())
    {
      EntryLine(r, i);
      LineReads(r.routes[i]);
    }
  }

  /** Some enrolled site publishes an IPv6 network under an IPv4 prefix. */
  ghost predicate PublishesMixed(s: seq<Record>) {
    exists i: nat, j: nat | i < |s| && j < |s[i].routes| :: s[i].pub.Some? && s[i].routes[j].Mixed()
  }

  /** Whether the hub can read the agents file the control plane wrote: after any requests, exactly
      when no enrolled site has a mixed route. One such site takes all the others with it. */
  lemma AgentsFileReadsIff(actions: seq<Action>, r: Option<Registry>)
    requires AgentsParsed(AgentsFile(Run(actions).sites), r)
    ensures r.None? <==> PublishesMixed(Run(actions).sites)
  {
    var s := Run(actions).sites;
    RunOK(actions);
    if r.None? {
      var e :| e in AgentsFile(s) && AgentConfig(e).None?;
      var i := FromAgentsFile(s, e);
      assert s[i] in s;
      EntryReadsIff(s[i]);
    }
    if PublishesMixed(s) {
      var i: nat, j: nat :| i < |s| && j < |s[i].routes| && s[i].pub.Some? && s[i].routes[j].Mixed();
      assert s[i] in s;
      EntryReadsIff(s[i]);
      InAgentsFile(s, i);
    }
  }

  /** The clients file always reads. */
  lemma ClientsFileReads(actions: seq<Action>, r: Option<Registry>)
    requires ClientsParsed(ClientsFile(Run(actions).devices), r)
    ensures r.Some?
  {
    var d := Run(actions).devices;
    RunOK(actions);
    forall c | c in ClientsFile(d) ensures c.Good() {
      var i := FromClientsFile(d, c);
      assert d[i] in d;
    }
  }

  /** What the hub reads under a key is the site enrolled with it. */
  lemma SiteOfKey(s: seq<Record>, m: Registry, k: Key) returns (i: nat)
    requires SitesOK(s) && AgentsParsed(AgentsFile(s), Some(m)) && k in m
    ensures i < |s| && s[i].pub == Some(k) && RunsSite(m[k], s[i]) && m[k].Masked() && m[k].role == RoleAgent
    ensures m[k].enabled == s[i].enabled && m[k].totpSecret == s[i].totpSecret && m[k].name == s[i].name
  {
    var entries := AgentsFile(s);
    assert FromAgents(entries, |entries|, k, m[k]);
    var n: nat :| DecidesAgent(entries, |entries|, n, k) && AgentConfig(entries[n]) == Some(m[k]);
    i := FromAgentsFile(s, entries[n]);
    assert s[i] in s;
    EntryRuns(s[i]);
  }

  lemma DeviceOfKey(d: seq<Device>, m: Registry, k: Key) returns (i: nat)
    requires DevicesOK(d) && ClientsParsed(ClientsFile(d), Some(m)) && k in m
    ensures i < |d| && d[i].pub == k && RunsDevice(m[k], d[i]) && m[k].routes == [] && m[k].allowAgents == d[i].agents
    ensures d[i].listed && m[k].totpSecret == d[i].totpSecret && m[k].name == d[i].name && m[k].user == d[i].user
  {
    var entries := ClientsFile(d);
    assert FromClients(entries, |entries|, k, m[k]);
    var n: nat :| DecidesClient(entries, |entries|, n, k) && ClientOf(m[k], entries[n], k);
    i := FromClientsFile(d, entries[n]);
  }

  lemma {:induction false} InClientsFile(d: seq<Device>, i: nat)
    requires i < |d| && d[i].listed
    ensures DeviceEntry(d[i]) in ClientsFile(d)
  {
    if i < |d| - 1 { InClientsFile(d[..|d| - 1], i); }
  }

  ghost predicate ListedAs(d: seq<Device>, i: nat, k: Key) { i < |d| && d[i].pub == k && d[i].listed }

  predicate AdmittedAs(c: PeerConfig, d: Device) {
    && c.name == d.name && c.user == d.user && c.totpSecret == d.totpSecret && c.allowAgents == d.agents
    && c.tunnelIP == Some(TunnelAddr(d.host)) && c.role == RoleClient && c.enabled && c.routes == []
  }

  lemma ListedDevice(d: seq<Device>, m: Registry, k: Key) returns (i: nat)
    requires DevicesOK(d) && ClientsParsed(ClientsFile(d), Some(m)) && k in m
    ensures ListedAs(d, i, k) && AdmittedAs(m[k], d[i])
  {
    i := DeviceOfKey(d, m, k);
  }

  lemma ListedIsRead(d: seq<Device>, m: Registry, i: nat, k: Key)
    requires ClientsParsed(ClientsFile(d), Some(m)) && ListedAs(d, i, k)
    ensures k in m
  {
    InClientsFile(d, i);
    assert DeviceEntry(d[i]).pub == Some(k);
  }

  /** Who is admitted: after any requests the keys of clients.json are exactly those of the listed devices, and
      under each stands that device: name, owner, secret, address and sites. */
  lemma ListedIsAdmitted(actions: seq<Action>, d: seq<Device>, m: Registry, k: Key)
    requires d == Run(actions).devices && ClientsParsed(ClientsFile(d), Some(m))
    ensures k in m <==> exists i: nat :: ListedAs(d, i, k)
    ensures k in m ==> exists i: nat :: ListedAs(d, i, k) && AdmittedAs(m[k], d[i])
  {
    RunOK(actions);
    if k in m { var i := ListedDevice(d, m, k); }
    if i: nat :| ListedAs(d, i, k) { ListedIsRead(d, m, i, k); }
  }

  predicate ServedAs(c: PeerConfig, r: Record) {
    RunsSite(c, r) && c.name == r.name && c.enabled == r.enabled && c.totpSecret == r.totpSecret
  }

  lemma EnrolledSite(s: seq<Record>, m: Registry, k: Key) returns (i: nat)
    requires SitesOK(s) && AgentsParsed(AgentsFile(s), Some(m)) && k in m
    ensures HasKey(s, i, k) && ServedAs(m[k], s[i])
  {
    i := SiteOfKey(s, m, k);
  }

  lemma EnrolledIsRead(s: seq<Record>, m: Registry, i: nat, k: Key)
    requires AgentsParsed(AgentsFile(s), Some(m)) && HasKey(s, i, k)
    ensures k in m
  {
    InAgentsFile(s, i);
    assert Entry(s[i]).pub == Some(k);
  }

  /** The same for sites: a readable agents.json has the keys of the enrolled sites, each with its site. */
  lemma EnrolledIsServed(actions: seq<Action>, s: seq<Record>, m: Registry, k: Key)
    requires s == Run(actions).sites && AgentsParsed(AgentsFile(s), Some(m))
    ensures k in m <==> exists i: nat :: HasKey(s, i, k)
    ensures k in m ==> exists i: nat :: HasKey(s, i, k) && ServedAs(m[k], s[i])
  {
    RunOK(actions);
    if k in m { var i := EnrolledSite(s, m, k); }
    if i: nat :| HasKey(s, i, k) { EnrolledIsRead(s, m, i, k); }
  }

  // ------------------------------------------------------ the hub that read them

  /** The peers are what the two files say: every agent an entry of the one, every client of the other. */
  ghost predicate Loaded(agents: Registry, clients: Registry, cfgs: Configs) {
    && (forall r <- cfgs :: if cfgs[r].role == RoleAgent
          then cfgs[r].pub in agents && SameAgent(cfgs[r], agents[cfgs[r].pub])
          else cfgs[r].pub in clients && SameClient(cfgs[r], clients[cfgs[r].pub]))
    && (forall r, q | r in cfgs && q in cfgs && r != q :: cfgs[r].pub != cfgs[q].pub)
  }

  predicate SameAgent(c: PeerConfig, d: PeerConfig) {
    c.role == d.role && c.id == d.id && c.tunnelIP == d.tunnelIP && c.routes == d.routes && c.enabled == d.enabled
  }

  predicate SameClient(c: PeerConfig, d: PeerConfig) {
    c.role == d.role && c.tunnelIP == d.tunnelIP && c.routes == d.routes && c.allowAgents == d.allowAgents
  }

  /** The registries a hub reads from a store. */
  ghost predicate ReadFrom(st: Store, agents: Registry, clients: Registry) {
    AgentsParsed(AgentsFile(st.sites), Some(agents)) && ClientsParsed(ClientsFile(st.devices), Some(clients))
  }

  ghost predicate HasKey(s: seq<Record>, i: nat, k: Key) { i < |s| && s[i].pub == Some(k) }

  ghost predicate DeviceKey(d: seq<Device>, i: nat, k: Key) { i < |d| && d[i].pub == k }

  ghost function SiteIndex(s: seq<Record>, k: Key): nat {
    if i: nat :| HasKey(s, i, k) then i else 0
  }

  ghost function DeviceIndex(d: seq<Device>, k: Key): nat {
    if i: nat :| DeviceKey(d, i, k) then i else 0
  }

  lemma OneSitePerKey(s: seq<Record>, i: nat, j: nat, k: Key)
    requires SitesOK(s) && HasKey(s, i, k) && HasKey(s, j, k)
    ensures i == j
  {
  }

  lemma OneDevicePerKey(d: seq<Device>, i: nat, j: nat, k: Key)
    requires DevicesOK(d) && DeviceKey(d, i, k) && DeviceKey(d, j, k)
    ensures i == j
  {
  }

  lemma LoadedAgent(st: Store, agents: Registry, clients: Registry, cfgs: Configs, r: Ref)
    requires StoreOK(st) && ReadFrom(st, agents, clients) && Loaded(agents, clients, cfgs)
    requires r in cfgs && cfgs[r].role == RoleAgent
    ensures var i := SiteIndex(st.sites, cfgs[r].pub);
      HasKey(st.sites, i, cfgs[r].pub) && RunsSite(cfgs[r], st.sites[i]) && cfgs[r].Masked()
  {
    var k := cfgs[r].pub;
    var i := SiteOfKey(st.sites, agents, k);
    assert HasKey(st.sites, i, k);
    OneSitePerKey(st.sites, i, SiteIndex(st.sites, k), k);
  }

  lemma LoadedClient(st: Store, agents: Registry, clients: Registry, cfgs: Configs, r: Ref)
    requires StoreOK(st) && ReadFrom(st, agents, clients) && Loaded(agents, clients, cfgs)
    requires r in cfgs && cfgs[r].role == RoleClient
    ensures var i := DeviceIndex(st.devices, cfgs[r].pub);
      DeviceKey(st.devices, i, cfgs[r].pub) && RunsDevice(cfgs[r], st.devices[i]) && cfgs[r].routes == []
  {
    var k := cfgs[r].pub;
    var i := DeviceOfKey(st.devices, clients, k);
    assert DeviceKey(st.devices, i, k);
    OneDevicePerKey(st.devices, i, DeviceIndex(st.devices, k), k);
  }

  ghost function SitesRun(st: Store, cfgs: Configs): map<Ref, nat> {
    map r | r in cfgs && cfgs[r].role == RoleAgent :: SiteIndex(st.sites, cfgs[r].pub)
  }

  ghost function DevicesRun(st: Store, cfgs: Configs): map<Ref, nat> {
    map r | r in cfgs && cfgs[r].role == RoleClient :: DeviceIndex(st.devices, cfgs[r].pub)
  }

  lemma LoadedIsPublished(st: Store, agents: Registry, clients: Registry, cfgs: Configs)
    requires StoreOK(st) && ReadFrom(st, agents, clients) && Loaded(agents, clients, cfgs)
    ensures Published(st, cfgs, SitesRun(st, cfgs), DevicesRun(st, cfgs)) && AllMasked(cfgs)
  {
    forall r | r in cfgs
      ensures cfgs[r].Masked()
      ensures cfgs[r].role == RoleAgent ==> var i := SiteIndex(st.sites, cfgs[r].pub);
        HasKey(st.sites, i, cfgs[r].pub) && RunsSite(cfgs[r], st.sites[i])
      ensures cfgs[r].role == RoleClient ==> var i := DeviceIndex(st.devices, cfgs[r].pub);
        DeviceKey(st.devices, i, cfgs[r].pub) && RunsDevice(cfgs[r], st.devices[i])
    {
      if cfgs[r].role == RoleAgent {
        LoadedAgent(st, agents, clients, cfgs, r);
      } else {
        LoadedClient(st, agents, clients, cfgs, r);
      }
    }
  }

  /** The whole chain, nothing assumed in between: after any sequence of requests, a hub whose peers
      are what it read from the published files, and whose tables are what its rebuild made of
      them, has no conflicts, routes every address to one agent at most, and tells agents and
      clients apart by their addresses. */
  lemma LoadedHubIsUnambiguous(actions: seq<Action>, agents: Registry, clients: Registry, hub: Hub)
    requires ReadFrom(Run(actions), agents, clients)
    requires Loaded(agents, clients, hub.cfgs) && TablesFor(hub.cfgs, hub.tables)
    ensures hub.Valid() && Unambiguous(hub) && !Clash(hub.cfgs)
  {
    var st := Run(actions);
    RunOK(actions);
    LoadedIsPublished(st, agents, clients, hub.cfgs);
    HubTableUnambiguous(actions, hub.cfgs, SitesRun(st, hub.cfgs), DevicesRun(st, hub.cfgs));
    CompleteIsSound(hub.cfgs, hub.tables);
  }

  // -------------------------------------------------------- what goes wrong when

  /** A file the hub cannot read is easily made: in virtual mode, one IPv6 site of a length the pool
      supports gets an IPv4 prefix, and once a machine enrolls for it no site is read any more. */
  lemma MixedSiteIsPublished(id: string, key: Key, lan: Prefix, mode: RouteMode, r: Option<Registry>)
    requires ValidId(id) && lan.fam == IPv6 && lan.Valid() && lan.IsMasked() && 17 <= lan.bits <= 28
    requires var create := CreateSite(id, "", [RouteEntry(Read(lan), Blank)], Virtual);
      AgentsParsed(AgentsFile(Run([create, EnrollSite(id, key, [], mode)]).sites), r)
    ensures r.None?
  {
    var lines: seq<Line> := [RouteEntry(Read(lan), Blank)];
    var routes := FirstSite(id, lan, lines);
    var s := Created(Store([], []), id, "", lines, Virtual).sites;
    FirstEnrollment(s, id, key, routes, mode);
    RunTwo(CreateSite(id, "", lines, Virtual), EnrollSite(id, key, [], mode));
    AgentsFileReadsIff([CreateSite(id, "", lines, Virtual), EnrollSite(id, key, [], mode)], r);
  }

  lemma RunTwo(a: Action, b: Action)
    ensures Run([a, b]) == Apply(Apply(Store([], []), a), b)
  {
    RunMore([], a);
    RunMore([] + [a], b);
    assert [] + [a] + [b] == [a, b];
  }

  lemma RunMore(actions: seq<Action>, a: Action)
    ensures Run(actions + [a]) == Apply(Run(actions), a)
  {
    assert (actions + [a])[..|actions|] == actions;
  }

  lemma FirstSite(id: string, lan: Prefix, lines: seq<Line>) returns (routes: seq<AgentRoute>)
    requires ValidId(id) && lan.fam == IPv6 && lan.Valid() && lan.IsMasked() && 17 <= lan.bits <= 28
    requires lines == [RouteEntry(Read(lan), Blank)]
    ensures Created(Store([], []), id, "", lines, Virtual).sites
      == [Record(id, id, AGENT_FIRST, routes, None, true, "")]
    ensures |routes| == 1 && routes[0].Mixed()
  {
    var lans := [AgentRoute(lan, None)];
    OneLine(lan, lines);
    AllocationAlone(lan);
    routes := Assign(Virtual, lans, []).value;
    var st := Store([], []);
    assert HostsInUse(st) == {} && LowestFree({}, AGENT_FIRST, AGENT_LAST) == Some(AGENT_FIRST);
    assert OtherEffective(SitesOf(st.sites), None) == [];
    assert !HasId(st.sites, id);
  }

  lemma OneLine(lan: Prefix, lines: seq<Line>)
    requires lan.Valid() && lan.IsMasked() && (lan.fam == IPv6 || lan.bits >= 8)
    requires lines == [RouteEntry(Read(lan), Blank)]
    ensures ParseLines(lines) == Some([AgentRoute(lan, None)])
  {
    assert lan.Masked() == lan;
    assert lines[..0] == [] && ParseLines(lines[..0]) == Some([]);
    assert ParseAgentRoute(lines[0]) == Some(AgentRoute(lan, None));
    assert [] + [AgentRoute(lan, None)] == [AgentRoute(lan, None)];
  }

  lemma FirstEnrollment(s: seq<Record>, id: string, key: Key, routes: seq<AgentRoute>, mode: RouteMode)
    requires s == [Record(id, id, AGENT_FIRST, routes, None, true, "")] && |routes| == 1 && routes[0].Mixed()
    ensures HasId(s, id) && Routed(s, id, [], mode) == Some(s) && PublishesMixed(WithKey(s, id, key))
  {
    assert s[0] in s;
    var s2 := WithKey(s, id, key);
    assert s2[0].pub.Some? && s2[0].routes[0].Mixed();
  }

  lemma AllocationAlone(lan: Prefix)
    requires lan.fam == IPv6 && 17 <= lan.bits <= 28
    ensures var r := Assign(Virtual, [AgentRoute(lan, None)], []);
      r.Some? && |r.value| == 1 && r.value[0].lan == lan && r.value[0].virt.Some? && r.value[0].virt.value.fam == IPv4
  {
    var one := AgentRoute(lan, None);
    assert [one][1..] == [];
    Pow2Mono(1, lan.bits - 16);
    assert Pow2(1) == 2;
    AllocationSucceeds(lan.bits, [lan]);
    assert [] + [lan] == [lan];
    var j := FirstFitIsLowest(lan.bits, [lan], 0);
  }

  // ------------------------------------------------ the translator of a site

  ghost predicate RealApart(routes: seq<AgentRoute>) {
    forall i, j | 0 <= i < j < |routes| :: !routes[i].lan.Overlaps(routes[j].lan)
  }

  lemma MaskedOverlaps(p: Prefix, q: Prefix)
    ensures p.Masked().Overlaps(q.Masked()) == p.Overlaps(q)
  {
    MaskedSameBlock(p);
    MaskedSameBlock(q);
    OverlapsSymmetric(p, q.Masked());
    OverlapsSymmetric(q, p);
  }

  lemma PublishedMaps(r: Record, c: PeerConfig)
    requires RecordOK(r) && RunsSite(c, r)
    ensures PairwiseApart(c.routes, true) && (PairwiseApart(c.routes, false) <==> RealApart(r.routes))
  {
    forall i, j | 0 <= i < j < |c.routes|
      ensures !c.routes[i].virt.Overlaps(c.routes[j].virt)
      ensures c.routes[i].lan.Overlaps(c.routes[j].lan) == r.routes[i].lan.Overlaps(r.routes[j].lan)
    {
      MaskedOverlaps(r.routes[i].Effective(), r.routes[j].Effective());
      MaskedOverlaps(r.routes[i].lan, r.routes[j].lan);
      assert !Effectives(r.routes)[i].Overlaps(Effectives(r.routes)[j]);
    }
  }

  /** Whether a site's translation can be undone is settled by the networks its operator entered:
      on every address exactly when no two of them overlap. Nothing in creating, assigning or
      publishing a site asks for that. */
  lemma SiteReversibleIff(r: Record, c: PeerConfig, local: seq<Addr>)
    requires RecordOK(r) && RunsSite(c, r) && c.Masked()
    ensures UndoneEverywhere(Translator(c.routes, local), true) <==> RealApart(r.routes)
  {
    PublishedMaps(r, c);
    InverseEverywhereIff(Translator(c.routes, local), true);
  }

  /** Assignment leaves them as they were entered. */
  lemma EnteredNetworksStay(mode: RouteMode, lans: seq<AgentRoute>, used: seq<Prefix>)
    requires Assign(mode, lans, used).Some?
    ensures RealApart(Assign(mode, lans, used).value) <==> RealApart(lans)
  {
    AssignDisjoint(mode, lans, used);
  }
}
