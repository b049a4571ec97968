/** A machine that moves from one site to another while the hub runs: its key is published under the
    new site's id, and the hub goes on knowing it by the old one. */
module MovedKeys {
  import opened Wrappers
  import opened Addresses
  import opened Translators
  import opened Peers
  import opened Routing
  import opened Relay
  import opened RouteAllocation
  import opened Trace
  import opened Responder
  import opened ResponderInvariant
  import opened ResponderSafety
  import opened RegistryReload
  import opened ResponderRuns
  import opened Outcomes
  import opened Publishing
  import opened Service
  import Sites

  // -------------------------------------------------- a reload, whatever the ids

  /** The agents are those of the file, ids aside. */
  ghost predicate CarriesFile(cfgs: Configs, agents: Registry) {
    && (forall r <- cfgs :: cfgs[r].role == RoleAgent ==>
          cfgs[r].pub in agents && SameAgent(cfgs[r], agents[cfgs[r].pub].(id := cfgs[r].id)))
    && (forall r, q | r in cfgs && q in cfgs && r != q :: cfgs[r].pub != cfgs[q].pub)
  }

  lemma ReloadCarriesFile(s: State, agents: Registry, x: State)
    requires Keyed(s) && Dynamic(s) && AgentRegistry(agents) && AgentsExact(s, agents, x)
    ensures CarriesFile(ConfigsOf(x), agents)
  {
    var cfgs := ConfigsOf(x);
    forall r | r in cfgs && cfgs[r].role == RoleAgent
      ensures cfgs[r].pub in agents && SameAgent(cfgs[r], agents[cfgs[r].pub].(id := cfgs[r].id))
    {
      assert AgentExact(s, agents, x, cfgs[r].pub);
    }
    assert forall r, q | r in cfgs && q in cfgs && r != q :: cfgs[r].pub != cfgs[q].pub;
  }

  /** The prefixes an agent presents cover the address. */
  ghost predicate Covers(c: PeerConfig, dst: Addr) { exists p: Prefix :: c.Publishes(p) && p.Contains(dst) }

  /** Two agents that cover one address run one site, so they are one. */
  lemma OneCovers(st: Sites.Store, agents: Registry, cfgs: Configs, a: Ref, q: Ref, dst: Addr)
    requires Sites.StoreOK(st) && AgentsParsed(AgentsFile(st.sites), Some(agents)) && CarriesFile(cfgs, agents)
    requires a in cfgs && q in cfgs && cfgs[a].role == cfgs[q].role == RoleAgent
    requires Covers(cfgs[a], dst) && Covers(cfgs[q], dst)
    ensures a == q
  {
    var p: Prefix :| cfgs[a].Publishes(p) && p.Contains(dst);
    var p2: Prefix :| cfgs[q].Publishes(p2) && p2.Contains(dst);
    var i := Sites.RouteIndex(cfgs[a], p);
    var j := Sites.RouteIndex(cfgs[q], p2);
    var m := SiteOfKey(st.sites, agents, cfgs[a].pub);
    var n := SiteOfKey(st.sites, agents, cfgs[q].pub);
    SharedMeansOverlaps(p, p2, dst);
    if m != n {
      Sites.RoutesApart(st, m, i, n, j);
      MaskedOverlaps(st.sites[m].routes[i].Effective(), st.sites[n].routes[j].Effective());
    }
  }

  /** No agent's own address lies in a published prefix. */
  lemma OwnIsApart(st: Sites.Store, agents: Registry, cfgs: Configs, a: Ref, q: Ref, dst: Addr)
    requires Sites.StoreOK(st) && AgentsParsed(AgentsFile(st.sites), Some(agents)) && CarriesFile(cfgs, agents)
    requires a in cfgs && q in cfgs && cfgs[a].role == cfgs[q].role == RoleAgent && Covers(cfgs[a], dst)
    ensures cfgs[q].tunnelIP != Some(dst)
  {
    var p: Prefix :| cfgs[a].Publishes(p) && p.Contains(dst);
    var i := Sites.RouteIndex(cfgs[a], p);
    var m := SiteOfKey(st.sites, agents, cfgs[a].pub);
    var n := SiteOfKey(st.sites, agents, cfgs[q].pub);
    if cfgs[q].tunnelIP == Some(dst) {
      var rt := st.sites[m].routes[i];
      assert st.sites[m] in st.sites && st.sites[n] in st.sites && rt in st.sites[m].routes;
      HostInTunnel(st.sites[n].host);
      SharedMeansOverlaps(p, TUNNEL_NET, dst);
      MaskedSameBlock(rt.Effective());
      OverlapsSymmetric(TUNNEL_NET, rt.Effective().Masked());
    }
  }

  lemma HostInTunnel(host: nat)
    requires host < 256
    ensures TUNNEL_NET.Contains(Sites.TunnelAddr(host))
  {
    Pow2s.Pow2Values();
  }

  /** So the table finds exactly the agent that covers an address, under whatever id it goes. */
  lemma CoveredIsRouted(st: Sites.Store, agents: Registry, cfgs: Configs, t: Tables, a: Ref, dst: Addr)
    requires Sites.StoreOK(st) && AgentsParsed(AgentsFile(st.sites), Some(agents)) && CarriesFile(cfgs, agents)
    requires a in cfgs && cfgs[a].role == RoleAgent && Covers(cfgs[a], dst) && TablesFor(cfgs, t)
    ensures AgentFor(t, dst) == Some(a)
  {
    if dst in t.agentsByIP { OwnIsApart(st, agents, cfgs, a, t.agentsByIP[dst], dst); }
    LookupIsLongestMatch(cfgs, t.routes, dst);
    var o := Lookup(t.routes, dst);
    assert o.Some? by {
      var p: Prefix :| cfgs[a].Publishes(p) && p.Contains(dst);
      assert Declares(cfgs, a, p);
    }
    OneCovers(st, agents, cfgs, a, o.value, dst);
  }

  // ------------------------------------------------------------- the moved key

  /** Both files publish the key, under two sites. */
  predicate Moves(k: Key, was: Registry, now: Registry) { k in was && k in now && now[k].id != was[k].id }

  /** What a client's packet to the networks of agent `a` gets when the agent goes by `id`. */
  ghost predicate AnswersAs(hub: Hub, a: Ref, id: string) {
    && hub.Valid() && a in hub.cfgs
    && forall p, src, dst :: p in hub.cfgs && FromOwn(hub, p, src, dst) && Covers(hub.cfgs[a], dst) ==>
         FromClient(hub, p, src, dst) == VerdictAs(hub, p, a, id)
  }

  /** A client's packet that is for neither the hub nor an unknown sender. */
  predicate FromOwn(hub: Hub, p: Ref, src: Addr, dst: Addr)
    requires p in hub.cfgs
  {
    hub.cfgs[p].role == RoleClient && Outbound(hub, p, src, dst)
  }

  function VerdictAs(hub: Hub, p: Ref, a: Ref, id: string): Verdict
    requires p in hub.cfgs
  {
    if !Allows(hub.cfgs[p], id) then Denied else if !Up(hub, a) then Offline else ToAgent(a)
  }

  lemma CoveredAnswers(st: Sites.Store, agents: Registry, hub: Hub, a: Ref)
    requires Sites.StoreOK(st) && AgentsParsed(AgentsFile(st.sites), Some(agents)) && CarriesFile(hub.cfgs, agents)
    requires a in hub.cfgs && hub.cfgs[a].role == RoleAgent && TablesFor(hub.cfgs, hub.tables)
    ensures AnswersAs(hub, a, hub.cfgs[a].Id())
  {
    CompleteIsSound(hub.cfgs, hub.tables);
    forall p, src, dst | p in hub.cfgs && FromOwn(hub, p, src, dst) && Covers(hub.cfgs[a], dst)
      ensures FromClient(hub, p, src, dst) == VerdictAs(hub, p, a, hub.cfgs[a].Id())
    {
      CoveredIsRouted(st, agents, hub.cfgs, hub.tables, a, dst);
      RoutedVerdict(hub, p, a, src, dst);
    }
  }

  lemma RoutedVerdict(hub: Hub, p: Ref, a: Ref, src: Addr, dst: Addr)
    requires hub.Valid() && p in hub.cfgs && a in hub.cfgs
    requires Outbound(hub, p, src, dst) && AgentFor(hub.tables, dst) == Some(a)
    ensures FromClient(hub, p, src, dst) == VerdictAs(hub, p, a, hub.cfgs[a].Id())
  {
  }

  /** In service, an agent goes by the id its key is published under. */
  lemma ServedId(env: Env, s: State, requests: seq<Sites.Action>, agents: Registry, clients: Registry, k: Key)
    requires InService(env, s, requests, agents, clients) && AgentKey(s, k)
    ensures k in agents && s.objs[s.peers[k]].cfg.id == agents[k].id != ""
  {
    assert Look(0);
    var r := s.peers[k];
    assert r in ConfigsOf(s);
    Sites.RunOK(requests);
    var i := SiteOfKey(Sites.Run(requests).sites, agents, k);
  }

  /** A registered agent has the key. */
  predicate AgentKey(s: State, k: Key) {
    k in s.peers && s.peers[k] in s.objs && s.objs[s.peers[k]].cfg.role == RoleAgent
  }

  /** A hub in service that reads a file in which a key has moved: the machine gets the new site's
      networks and keeps the old site's id. Clients reach the new site's networks if they may reach
      the old site, and are denied if they may only reach the new one. */
  lemma MovedKeyAnswers(env: Env, s: State, before: seq<Sites.Action>, was: Registry, clients: Registry,
                        after: seq<Sites.Action>, agents: Registry, k: Key,
                        o1: seq<Key>, o2: seq<Key>, t: Tables, now: Time)
    requires InService(env, s, before, was, clients) && Dynamic(s) && AgentKey(s, k)
    requires AgentsParsed(AgentsFile(Sites.Run(after).sites), Some(agents)) && Moves(k, was, agents)
    requires Enumerates(o1, s.peers.Keys) && Enumerates(o2, agents.Keys)
    requires TablesFor(ConfigsOf(ApplyAgents(s, agents, o1, o2).0), t)
    ensures var s2, a := Next(s, env, Responder.Action.ReloadAgents(agents, o1, o2, t), now), s.peers[k];
      && Serving(env, s2) && a in ConfigsOf(s2)
      && ConfigsOf(s2)[a].pub == k && ConfigsOf(s2)[a].role == RoleAgent
      && ConfigsOf(s2)[a].id == was[k].id && ConfigsOf(s2)[a].routes == agents[k].routes
      && AnswersAs(HubOf(s2, env), a, was[k].id)
  {
    var s2, a := Next(s, env, Responder.Action.ReloadAgents(agents, o1, o2, t), now), s.peers[k];
    ServingKept(env, s, Responder.Action.ReloadAgents(agents, o1, o2, t), now);
    var x := AgentsStep(env, s, agents, o1, o2, t, now);
    ReloadCarriesFile(s, agents, x);
    SameConfigs(x, s2);
    ServedId(env, s, before, was, clients, k);
    MovedKeyStays(s, agents, x, k);
    Sites.RunOK(after);
    CoveredAnswers(Sites.Run(after), agents, HubOf(s2, env), a);
  }

  lemma MovedKeyStays(s: State, agents: Registry, x: State, k: Key)
    requires Keyed(s) && Dynamic(s) && AgentKey(s, k) && k in agents && AgentsExact(s, agents, x)
    ensures s.peers[k] in ConfigsOf(x)
    ensures var c := ConfigsOf(x)[s.peers[k]];
      c.role == RoleAgent && c.pub == k && c.id == s.objs[s.peers[k]].cfg.id && c.routes == agents[k].routes
  {
    assert AgentExact(s, agents, x, k);
    assert Reg(x, x.peers[k]);
  }

  /** Such a hub is not in service, whichever reading of the published files it is held against. */
  lemma MovedKeyIsUnserved(env: Env, s2: State, after: seq<Sites.Action>, agents: Registry, a: Ref, k: Key,
                           m: Registry, c: Registry)
    requires AgentsParsed(AgentsFile(Sites.Run(after).sites), Some(agents)) && k in agents
    requires a in ConfigsOf(s2) && ConfigsOf(s2)[a].pub == k && ConfigsOf(s2)[a].role == RoleAgent
    requires ConfigsOf(s2)[a].id != agents[k].id
    ensures !InService(env, s2, after, m, c)
  {
    if InService(env, s2, after, m, c) {
      var st := Sites.Run(after);
      Sites.RunOK(after);
      var i := SiteOfKey(st.sites, agents, k);
      var j := SiteOfKey(st.sites, m, k);
      assert HasKey(st.sites, i, k) && HasKey(st.sites, j, k);
      OneSitePerKey(st.sites, i, j, k);
    }
  }

  // ---------------------------------------------------------- a run that gets there

  /** Two sites with a network each, one machine, one device. */
  datatype Move = Move(idA: string, idB: string, k: Key, lanA: Prefix, lanB: Prefix, device: Key, acl: seq<string>) {
    predicate Valid() {
      && Sites.ValidId(idA) && Sites.ValidId(idB) && idA != idB && device != k && acl != []
      && Plain(lanA) && Plain(lanB) && !lanB.Overlaps(lanA)
    }

    /** Both sites are made, the machine enrolls for the first, the device is admitted. */
    function Earlier(): seq<Sites.Action>
      requires Valid()
    {
      [MakeA(), EnrollA()] + [MakeB()] + [AddDevice()]
    }

    function MakeA(): Sites.Action
      requires Valid()
    {
      Sites.CreateSite(idA, "", [Typed(lanA)], Real)
    }

    function EnrollA(): Sites.Action { Sites.EnrollSite(idA, k, [], Real) }

    function MakeB(): Sites.Action
      requires Valid()
    {
      Sites.CreateSite(idB, "", [Typed(lanB)], Real)
    }

    function AddDevice(): Sites.Action { Sites.AddDevice("d", "u", device, "", acl) }

    /** Then the first site gets a new install code and the machine enrolls for the second. */
    function Later(): seq<Sites.Action>
      requires Valid()
    {
      Earlier() + [Sites.DetachSite(idA)] + [Sites.EnrollSite(idB, k, [], Real)]
    }

    function SiteA(pub: Option<Key>): Sites.Record {
      Sites.Record(idA, idA, 100, [AgentRoute(lanA, None)], pub, true, "")
    }

    function SiteB(pub: Option<Key>): Sites.Record {
      Sites.Record(idB, idB, 101, [AgentRoute(lanB, None)], pub, true, "")
    }

    function Admitted(): Sites.Device { Sites.Device("d", "u", 2, device, "", true, acl) }
  }

  /** A network that can be published as it is. */
  predicate Plain(lan: Prefix) {
    && lan.fam == IPv4 && lan.Valid() && lan.IsMasked() && lan.bits >= 8
    && !lan.Overlaps(TUNNEL_NET) && !lan.Overlaps(POOL)
  }

  function Typed(lan: Prefix): Line
    requires Plain(lan)
  {
    RouteEntry(Read(lan), Blank)
  }

  lemma PlainAssigned(lan: Prefix, lans: seq<AgentRoute>, used: seq<Prefix>)
    requires Plain(lan) && lans == [AgentRoute(lan, None)] && !OverlapsAny(lan, used)
    ensures Assign(Real, lans, used) == Some(lans)
  {
    PlainOne(lan, used);
    assert lans[1..] == [] && [lans[0]] + [] == lans;
  }

  lemma PlainOne(lan: Prefix, used: seq<Prefix>)
    requires Plain(lan) && !OverlapsAny(lan, used)
    ensures AssignOne(Real, AgentRoute(lan, None), used) == Some(AgentRoute(lan, None))
  {
  }

  /** Creating a site with one such network, given the store's networks and addresses. */
  lemma CreatedPlain(st: Sites.Store, id: string, lan: Prefix, lines: seq<Line>, used: seq<Prefix>, hosts: set<nat>,
                     h: nat)
    requires Sites.ValidId(id) && !Sites.HasId(st.sites, id) && Plain(lan) && lines == [RouteEntry(Read(lan), Blank)]
    requires OtherEffective(Sites.SitesOf(st.sites), None) == used && !OverlapsAny(lan, used)
    requires Sites.HostsInUse(st) == hosts && Sites.LowestFree(hosts, 100, 254) == Some(h)
    ensures Sites.Created(st, id, "", lines, Real)
      == st.(sites := st.sites + [Sites.Record(id, id, h, [AgentRoute(lan, None)], None, true, "")])
  {
    OneLine(lan, lines);
    PlainAssigned(lan, [AgentRoute(lan, None)], used);
  }

  lemma CreatedA(c: Move)
    requires c.Valid()
    ensures Sites.Created(Sites.Store([], []), c.idA, "", [Typed(c.lanA)], Real) == Sites.Store([c.SiteA(None)], [])
  {
    var st := Sites.Store([], []);
    assert Sites.HostsInUse(st) == {} && OtherEffective(Sites.SitesOf(st.sites), None) == [];
    assert !Sites.HasId(st.sites, c.idA);
    CreatedPlain(st, c.idA, c.lanA, [Typed(c.lanA)], [], {}, 100);
  }

  lemma CreatedB(c: Move, s: seq<Sites.Record>)
    requires c.Valid() && s == [c.SiteA(Some(c.k))]
    ensures Sites.Created(Sites.Store(s, []), c.idB, "", [Typed(c.lanB)], Real)
      == Sites.Store([c.SiteA(Some(c.k)), c.SiteB(None)], [])
  {
    OneSiteUses(s, c.lanA);
    assert Sites.HostsInUse(Sites.Store(s, [])) == {100};
    assert !Sites.HasId(s, c.idB);
    assert Sites.LowestFree({100}, 101, 254) == Some(101);
    CreatedPlain(Sites.Store(s, []), c.idB, c.lanB, [Typed(c.lanB)], [c.lanA], {100}, 101);
  }

  lemma OneSiteUses(s: seq<Sites.Record>, lan: Prefix)
    requires |s| == 1 && s[0].routes == [AgentRoute(lan, None)]
    ensures OtherEffective(Sites.SitesOf(s), None) == [lan]
  {
    var sites := Sites.SitesOf(s);
    assert sites[..0] == [];
    assert Effectives(s[0].routes) == [lan];
  }

  /** The machine's key goes to a site that has routes, if nobody else has it. */
  lemma Enrolled(st: Sites.Store, id: string, k: Key)
    requires Sites.HasRoutes(st.sites, id)
    ensures Sites.Apply(st, Sites.EnrollSite(id, k, [], Real)) == st.(sites := Sites.WithKey(st.sites, id, k))
  {
    assert Sites.HasId(st.sites, id);
  }

  lemma EnrolledA(c: Move)
    requires c.Valid()
    ensures Sites.Apply(Sites.Store([c.SiteA(None)], []), Sites.EnrollSite(c.idA, c.k, [], Real))
      == Sites.Store([c.SiteA(Some(c.k))], [])
  {
    var s := [c.SiteA(None)];
    assert s[0] in s;
    Enrolled(Sites.Store(s, []), c.idA, c.k);
    assert Sites.WithKey(s, c.idA, c.k) == [c.SiteA(Some(c.k))];
  }

  lemma DeviceAdded(c: Move, s: seq<Sites.Record>)
    requires c.Valid() && s == [c.SiteA(Some(c.k)), c.SiteB(None)]
    ensures Sites.Apply(Sites.Store(s, []), Sites.AddDevice("d", "u", c.device, "", c.acl))
      == Sites.Store(s, [c.Admitted()])
  {
    assert Sites.HostsInUse(Sites.Store(s, [])) == {100, 101};
    assert Sites.LowestFree({100, 101}, 2, 99) == Some(2);
  }

  lemma EnrolledB(c: Move, s: seq<Sites.Record>, d: seq<Sites.Device>)
    requires c.Valid() && s == [c.SiteA(None), c.SiteB(None)]
    ensures Sites.Apply(Sites.Store(s, d), Sites.EnrollSite(c.idB, c.k, [], Real))
      == Sites.Store([c.SiteA(None), c.SiteB(Some(c.k))], d)
  {
    assert s[1] in s;
    Enrolled(Sites.Store(s, d), c.idB, c.k);
    assert Sites.WithKey(s, c.idB, c.k) == [c.SiteA(None), c.SiteB(Some(c.k))];
  }

  lemma EarlierStore(c: Move)
    requires c.Valid()
    ensures Sites.Run(c.Earlier()) == Sites.Store([c.SiteA(Some(c.k)), c.SiteB(None)], [c.Admitted()])
  {
    CreatedA(c);
    EnrolledA(c);
    RunTwo(c.MakeA(), c.EnrollA());
    WithB(c, [c.MakeA(), c.EnrollA()]);
    WithDevice(c, [c.MakeA(), c.EnrollA()] + [c.MakeB()]);
  }

  lemma WithB(c: Move, before: seq<Sites.Action>)
    requires c.Valid() && Sites.Run(before) == Sites.Store([c.SiteA(Some(c.k))], [])
    ensures Sites.Run(before + [c.MakeB()]) == Sites.Store([c.SiteA(Some(c.k)), c.SiteB(None)], [])
  {
    RunMore(before, c.MakeB());
    CreatedB(c, [c.SiteA(Some(c.k))]);
  }

  lemma WithDevice(c: Move, before: seq<Sites.Action>)
    requires c.Valid() && Sites.Run(before) == Sites.Store([c.SiteA(Some(c.k)), c.SiteB(None)], [])
    ensures Sites.Run(before + [c.AddDevice()]) == Sites.Store([c.SiteA(Some(c.k)), c.SiteB(None)], [c.Admitted()])
  {
    RunMore(before, c.AddDevice());
    DeviceAdded(c, [c.SiteA(Some(c.k)), c.SiteB(None)]);
  }

  lemma LaterStore(c: Move)
    requires c.Valid()
    ensures Sites.Run(c.Later()) == Sites.Store([c.SiteA(None), c.SiteB(Some(c.k))], [c.Admitted()])
  {
    EarlierStore(c);
    RunMore(c.Earlier(), Sites.DetachSite(c.idA));
    RunMore(c.Earlier() + [Sites.DetachSite(c.idA)], Sites.EnrollSite(c.idB, c.k, [], Real));
    var s := [c.SiteA(Some(c.k)), c.SiteB(None)];
    assert Sites.Detached(s, c.idA) == [c.SiteA(None), c.SiteB(None)];
    EnrolledB(c, [c.SiteA(None), c.SiteB(None)], [c.Admitted()]);
  }

  // ---- what the hub reads

  lemma EarlierAgents(c: Move, was: Registry)
    requires c.Valid() && AgentsParsed(AgentsFile(Sites.Run(c.Earlier()).sites), Some(was))
    ensures c.k in was && was[c.k].id == c.idA && was[c.k].enabled && was[c.k].totpSecret == "" && c.device !in was
  {
    EarlierStore(c);
    var s := Sites.Run(c.Earlier()).sites;
    Sites.RunOK(c.Earlier());
    InAgentsFile(s, 0);
    var i := SiteOfKey(s, was, c.k);
    if c.device in was { var n := SiteOfKey(s, was, c.device); }
  }

  lemma EarlierClients(c: Move, clients: Registry)
    requires c.Valid() && ClientsParsed(ClientsFile(Sites.Run(c.Earlier()).devices), Some(clients))
    ensures c.device in clients && c.k !in clients
    ensures clients[c.device].allowAgents == c.acl && clients[c.device].tunnelIP == Some(Sites.TunnelAddr(2))
  {
    EarlierStore(c);
    var d := Sites.Run(c.Earlier()).devices;
    Sites.RunOK(c.Earlier());
    assert d[..0] == [] && DeviceEntry(d[0]) in ClientsFile(d);
    var j := DeviceOfKey(d, clients, c.device);
    if c.k in clients { var n := DeviceOfKey(d, clients, c.k); }
  }

  lemma LaterFile(c: Move, agents: Registry)
    requires c.Valid() && AgentsParsed(AgentsFile(Sites.Run(c.Later()).sites), Some(agents))
    ensures c.k in agents && agents[c.k].id == c.idB && agents[c.k].enabled && agents[c.k].totpSecret == ""
    ensures agents[c.k].Publishes(c.lanB)
  {
    LaterStore(c);
    var s := Sites.Run(c.Later()).sites;
    Sites.RunOK(c.Later());
    InAgentsFile(s, 1);
    var i := SiteOfKey(s, agents, c.k);
    assert agents[c.k].routes[0] in agents[c.k].routes;
  }

  // ---- and what it does

  /** A registered peer under key `k`. */
  ghost predicate Filed(s: State, k: Key, role: Role) {
    k in s.peers && s.peers[k] in ConfigsOf(s) && ConfigsOf(s)[s.peers[k]].role == role
  }

  /** The machine is an agent that owes no code, the device a client as configured. */
  ghost predicate Knows(s: State, k: Key, device: Key, cfg: PeerConfig) {
    && Dynamic(s) && Filed(s, k, RoleAgent) && ConfigsOf(s)[s.peers[k]].totpSecret == ""
    && Filed(s, device, RoleClient) && ConfigsOf(s)[s.peers[device]] == cfg
  }

  /** The action reads `m` in some order of both maps and rebuilds the tables. */
  ghost predicate Polls(s: State, a: Responder.Action, m: Registry) {
    && (a.ReloadClients? || a.ReloadAgents?)
    && a.m == m && Enumerates(a.order1, s.peers.Keys) && Enumerates(a.order2, m.Keys)
    && TablesFor(ConfigsOf(if a.ReloadClients? then ApplyClients(s, m, a.order1, a.order2)
                           else ApplyAgents(s, m, a.order1, a.order2).0), a.tables)
  }

  lemma FirstPolls(env: Env, c: Move, was: Registry, clients: Registry, s: State, a1: Responder.Action, now1: Time,
                   a2: Responder.Action, now2: Time)
    requires c.Valid() && ReadFrom(Sites.Run(c.Earlier()), was, clients)
    requires Serving(env, s) && s.peers == map[]
    requires a1.ReloadClients? && a2.ReloadAgents? && Polls(s, a1, clients) && Polls(Next(s, env, a1, now1), a2, was)
    ensures c.device in clients
    ensures var s2 := Next(Next(s, env, a1, now1), env, a2, now2);
      InService(env, s2, c.Earlier(), was, clients) && Knows(s2, c.k, c.device, clients[c.device])
  {
    var s1 := Next(s, env, a1, now1);
    var s2 := Next(s1, env, a2, now2);
    EarlierAgents(c, was);
    EarlierClients(c, clients);
    InServiceIff(env, s, c.Earlier(), was, clients, a1.order1, a1.order2, a1.tables, now1,
                 a2.order1, a2.order2, a2.tables, now2);
    ServingKept(env, s, a1, now1);
    ClientsStep(env, s, clients, a1.order1, a1.order2, a1.tables, now1);
    var x := AgentsStep(env, s1, was, a2.order1, a2.order2, a2.tables, now2);
    FreshKeys(s, was, clients, s1, x, c.k, c.device);
    SameConfigs(x, s2);
    SamePeer(x, s2, 0);
  }

  lemma FreshKeys(s: State, was: Registry, clients: Registry, s1: State, x: State, k: Key, d: Key)
    requires Keyed(s) && s.peers == map[] && BothParsed(was, clients)
    requires ClientsExact(s, clients, s1) && AgentsExact(s1, was, x)
    requires k in was && k !in clients && d in clients && d !in was
    ensures Filed(x, k, RoleAgent) && ConfigsOf(x)[x.peers[k]] == was[k]
    ensures Filed(x, d, RoleClient) && ConfigsOf(x)[x.peers[d]] == clients[d]
  {
    assert ClientExact(s, clients, s1, k) && AgentExact(s1, was, x, k);
    assert ClientExact(s, clients, s1, d) && AgentExact(s1, was, x, d);
    assert Reg(x, x.peers[k]) && Reg(x, x.peers[d]);
  }

  /** The machine connects; nobody's configuration changes. */
  lemma Connects(env: Env, s: State, k: Key, device: Key, cfg: PeerConfig, addr: Endpoint, now: Time)
    requires Sound(env, s, None) && Knows(s, k, device, cfg)
    ensures var s2 := Handshake(s, env, k, addr, now); Knows(s2, k, device, cfg) && HasSession(s2, k)
  {
    var s2 := Handshake(s, env, k, addr, now);
    Joins(env, s, k, addr, now);
    SameDynamic(s, s2);
    SameConfigs(s, s2);
  }

  predicate HasSession(s: State, k: Key) { k in s.peers && s.peers[k] in s.objs && s.objs[s.peers[k]].cur.Some? }

  lemma Joins(env: Env, s: State, k: Key, addr: Endpoint, now: Time)
    requires Sound(env, s, None) && Filed(s, k, RoleAgent) && ConfigsOf(s)[s.peers[k]].totpSecret == ""
    ensures var s2 := Handshake(s, env, k, addr, now); Same(s, s2) && s2.peers == s.peers && HasSession(s2, k)
  {
    HandshakeOK(env, s, k, addr, now);
    HandshakeOutcome(env, s, k, addr, now);
    SamePeer(s, Handshake(s, env, k, addr, now), s.peers[k]);
  }

  /** Connected, authenticated and switched on. */
  ghost predicate Live(s: State, r: Ref) {
    r in s.objs && Reg(s, r) && s.objs[r].cur.Some? && s.objs[r].authed && s.objs[r].cfg.enabled
  }

  /** The reload that moves the key leaves the machine connected and, owing no code, authenticated. */
  lemma StaysLive(env: Env, s: State, agents: Registry, s1: State, k: Key)
    requires Sound(env, s, None) && Keyed(s) && Dynamic(s) && AgentKey(s, k) && HasSession(s, k)
    requires AgentsExact(s, agents, s1) && k in agents && agents[k].totpSecret == "" && agents[k].enabled
    ensures Live(s1, s.peers[k])
  {
    assert AgentExact(s, agents, s1, k);
    PeerFacts(env, s, s.peers[k], None);
  }

  lemma StaysUp(env: Env, s: State, agents: Registry, a: Responder.Action, now: Time, k: Key)
    requires Serving(env, s) && Dynamic(s) && AgentKey(s, k) && HasSession(s, k)
    requires a.ReloadAgents? && Polls(s, a, agents) && AgentRegistry(agents)
    requires k in agents && agents[k].totpSecret == "" && agents[k].enabled
    ensures Live(Next(s, env, a, now), s.peers[k])
  {
    assert Keyed(s) by { assert Look(0); }
    ReloadAgentsExact(s, agents, a.order1, a.order2);
    var (s1, cmds) := ApplyAgents(s, agents, a.order1, a.order2);
    StaysLive(env, s, agents, s1, k);
    CommandsAfter(env, s, agents, a.order1, a.order2, a.tables, now);
    LiveAfter(env, s1.(tables := a.tables), cmds, now, s.peers[k]);
  }

  lemma LiveAfter(env: Env, s: State, cmds: seq<(Ref, string)>, now: Time, r: Ref)
    requires Live(s, r) && Same(s, SendCommands(s, env, cmds, now))
    ensures Live(SendCommands(s, env, cmds, now), r)
  {
    CommandsKeepUp(s, env, cmds, now, r);
    SamePeer(s, SendCommands(s, env, cmds, now), r);
  }

  lemma {:induction false} CommandsKeepUp(s: State, env: Env, cmds: seq<(Ref, string)>, now: Time, r: Ref)
    requires r in s.objs && s.objs[r].cur.Some?
    ensures var s2 := SendCommands(s, env, cmds, now);
      r in s2.objs && s2.objs[r].cur.Some? && s2.objs[r].authed == s.objs[r].authed && s2.objs[r].cfg == s.objs[r].cfg
  {
    if cmds != [] { CommandsKeepUp(s, env, cmds[..|cmds| - 1], now, r); }
  }

  /** The client stays as it is. */
  lemma ClientStays(env: Env, s: State, agents: Registry, a: Responder.Action, now: Time, d: Key)
    requires Serving(env, s) && Filed(s, d, RoleClient)
    requires a.ReloadAgents? && Polls(s, a, agents) && AgentRegistry(agents)
    ensures var s2 := Next(s, env, a, now);
      Filed(s2, d, RoleClient) && s2.peers[d] == s.peers[d] && ConfigsOf(s2)[s.peers[d]] == ConfigsOf(s)[s.peers[d]]
  {
    var x := AgentsStep(env, s, agents, a.order1, a.order2, a.tables, now);
    assert AgentExact(s, agents, x, d);
    SameConfigs(x, Next(s, env, a, now));
    SamePeer(x, Next(s, env, a, now), 0);
    assert Reg(x, s.peers[d]);
  }

  /** Lower-case ids that agree up to case are equal. */
  lemma IdsFoldIff(a: string, b: string)
    requires Sites.ValidId(a) && Sites.ValidId(b)
    ensures EqualFold(a, b) <==> a == b
  {
    if EqualFold(a, b) {
      forall i | 0 <= i < |a| ensures a[i] == b[i] { assert a[i] in a && b[i] in b; }
    }
  }

  /** The client behind the device may go where its list says, by the old id. */
  ghost predicate ReachesByOldId(hub: Hub, p: Ref, a: Ref, c: Move) {
    && hub.Valid() && p in hub.cfgs
    && forall dst | c.lanB.Contains(dst) && hub.localAddr != Some(dst) ::
         var v := FromClient(hub, p, Sites.TunnelAddr(2), dst);
         && (c.acl == [c.idA] ==> v == ToAgent(a))
         && (c.acl == [c.idB] ==> v == Denied)
  }

  lemma OldIdDecides(hub: Hub, p: Ref, a: Ref, c: Move)
    requires c.Valid() && AnswersAs(hub, a, c.idA) && p in hub.cfgs && Up(hub, a) && hub.cfgs[a].Publishes(c.lanB)
    requires hub.cfgs[p].role == RoleClient && hub.cfgs[p].allowAgents == c.acl
    requires hub.cfgs[p].tunnelIP == Some(Sites.TunnelAddr(2))
    ensures ReachesByOldId(hub, p, a, c)
  {
    IdsFoldIff(c.idB, c.idA);
    IdsFoldIff(c.idA, c.idA);
    forall dst | c.lanB.Contains(dst) && hub.localAddr != Some(dst)
      ensures FromClient(hub, p, Sites.TunnelAddr(2), dst) == VerdictAs(hub, p, a, c.idA)
    {
      assert Covers(hub.cfgs[a], dst) && FromOwn(hub, p, Sites.TunnelAddr(2), dst);
    }
    assert c.acl == [c.idA] ==> EqualFold(hub.cfgs[p].allowAgents[0], c.idA);
  }

  /** In service by the files of `requests`, the machine connected, the device known as published. */
  ghost predicate Settled(env: Env, s: State, requests: seq<Sites.Action>, was: Registry, clients: Registry,
                          k: Key, device: Key)
  {
    && InService(env, s, requests, was, clients) && device in clients
    && Knows(s, k, device, clients[device]) && HasSession(s, k)
  }

  /** The poll after the move. */
  lemma PollAfterMove(env: Env, c: Move, was: Registry, clients: Registry, agents: Registry, s: State,
                      a: Responder.Action, now: Time)
    requires c.Valid() && Settled(env, s, c.Earlier(), was, clients, c.k, c.device)
    requires AgentsParsed(AgentsFile(Sites.Run(c.Later()).sites), Some(agents))
    requires a.ReloadAgents? && Polls(s, a, agents)
    ensures ReachesByOldId(HubOf(Next(s, env, a, now), env), s.peers[c.device], s.peers[c.k], c)
  {
    var s2 := Next(s, env, a, now);
    EarlierAgents(c, was);
    EarlierClients(c, clients);
    LaterFile(c, agents);
    MovedKeyAnswers(env, s, c.Earlier(), was, clients, c.Later(), agents, c.k, a.order1, a.order2, a.tables, now);
    StaysUp(env, s, agents, a, now, c.k);
    ClientStays(env, s, agents, a, now, c.device);
    OldIdDecides(HubOf(s2, env), s.peers[c.device], s.peers[c.k], c);
  }

  /** After it the hub is not in service, whichever reading of the files it is held against. */
  lemma UnservedAfterMove(env: Env, c: Move, was: Registry, clients: Registry, agents: Registry, s: State,
                          a: Responder.Action, now: Time, m: Registry, cl: Registry)
    requires c.Valid() && Settled(env, s, c.Earlier(), was, clients, c.k, c.device)
    requires AgentsParsed(AgentsFile(Sites.Run(c.Later()).sites), Some(agents))
    requires a.ReloadAgents? && Polls(s, a, agents)
    ensures !InService(env, Next(s, env, a, now), c.Later(), m, cl)
  {
    EarlierAgents(c, was);
    LaterFile(c, agents);
    MovedKeyAnswers(env, s, c.Earlier(), was, clients, c.Later(), agents, c.k, a.order1, a.order2, a.tables, now);
    MovedKeyIsUnserved(env, Next(s, env, a, now), c.Later(), agents, s.peers[c.k], c.k, m, cl);
  }

  lemma StartOfAll(env: Env, t: Tables, now: Time)
    requires env.mode == Server && TablesFor(map[], t)
    ensures Serving(env, Next(EMPTY, env, Start(t), now)) && Next(EMPTY, env, Start(t), now).peers == map[]
  {
    InitialOK(env, []);
    assert ConfigsOf(EMPTY) == map[];
    StartServes(env, EMPTY, t, now);
  }

  /** The hub starts, reads both files, and the machine connects. */
  lemma RunUntilMove(env: Env, c: Move, was: Registry, clients: Registry, s0: State, a1: Responder.Action,
                     a2: Responder.Action, addr: Endpoint, now: Time)
    requires c.Valid() && ReadFrom(Sites.Run(c.Earlier()), was, clients) && Serving(env, s0) && s0.peers == map[]
    requires a1.ReloadClients? && a2.ReloadAgents? && Polls(s0, a1, clients) && Polls(Next(s0, env, a1, now), a2, was)
    ensures Settled(env, Handshake(Next(Next(s0, env, a1, now), env, a2, now), env, c.k, addr, now),
                    c.Earlier(), was, clients, c.k, c.device)
  {
    FirstPolls(env, c, was, clients, s0, a1, now, a2, now);
    var s2 := Next(Next(s0, env, a1, now), env, a2, now);
    ConnectsInService(env, s2, c.Earlier(), was, clients, c.k, c.device, addr, now);
  }

  lemma ConnectsInService(env: Env, s: State, requests: seq<Sites.Action>, was: Registry, clients: Registry, k: Key,
                          device: Key, addr: Endpoint, now: Time)
    requires InService(env, s, requests, was, clients) && device in clients && Knows(s, k, device, clients[device])
    ensures Settled(env, Handshake(s, env, k, addr, now), requests, was, clients, k, device)
  {
    Connects(env, s, k, device, clients[device], addr, now);
    HandshakeOK(env, s, k, addr, now);
    StaysInService(env, s, Handshake(s, env, k, addr, now), requests, was, clients);
  }

  lemma StaysInService(env: Env, s: State, s2: State, requests: seq<Sites.Action>, was: Registry, clients: Registry)
    requires InService(env, s, requests, was, clients) && Keeps(env, s, s2)
    ensures InService(env, s2, requests, was, clients)
  {
    KeepsInv(env, s, s2);
    SameConfigs(s, s2);
  }

  /** The whole run: the hub starts, reads both files, the machine connects, and the hub reads agents.json
      again after the move. Until then it was in service; from then on it is not, and the new
      site's network is open to who may reach the old site and closed to who may reach the new. */
  lemma MovedKeyRun(env: Env, c: Move, was: Registry, clients: Registry, agents: Registry, t: Tables,
                    a1: Responder.Action, a2: Responder.Action, addr: Endpoint, a4: Responder.Action, now: Time,
                    m: Registry, cl: Registry)
    requires c.Valid() && env.mode == Server && ReadFrom(Sites.Run(c.Earlier()), was, clients)
    requires AgentsParsed(AgentsFile(Sites.Run(c.Later()).sites), Some(agents)) && TablesFor(map[], t)
    requires a1.ReloadClients? && a2.ReloadAgents? && a4.ReloadAgents?
    requires var s0 := Next(EMPTY, env, Start(t), now);
      var s1 := Next(s0, env, a1, now);
      var s2 := Next(s1, env, a2, now);
      Polls(s0, a1, clients) && Polls(s1, a2, was) && Polls(Handshake(s2, env, c.k, addr, now), a4, agents)
    ensures var s0 := Next(EMPTY, env, Start(t), now);
      var s2 := Next(Next(s0, env, a1, now), env, a2, now);
      var s3 := Next(s2, env, HandshakeMsg(c.k, addr), now);
      && Settled(env, s3, c.Earlier(), was, clients, c.k, c.device)
      && !InService(env, Next(s3, env, a4, now), c.Later(), m, cl)
      && ReachesByOldId(HubOf(Next(s3, env, a4, now), env), s3.peers[c.device], s3.peers[c.k], c)
  {
    var s0 := Next(EMPTY, env, Start(t), now);
    StartOfAll(env, t, now);
    RunUntilMove(env, c, was, clients, s0, a1, a2, addr, now);
    var s3 := Handshake(Next(Next(s0, env, a1, now), env, a2, now), env, c.k, addr, now);
    PollAfterMove(env, c, was, clients, agents, s3, a4, now);
    UnservedAfterMove(env, c, was, clients, agents, s3, a4, now, m, cl);
  }
}
