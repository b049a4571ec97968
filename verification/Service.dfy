/** A hub in service: its tables match its peers from the start on, and its peers match the files
    the control plane wrote. */
module Service {
  import opened Wrappers
  import opened Addresses
  import opened IpHeaders
  import opened Translators
  import opened Rewrites
  import opened Peers
  import opened Routing
  import opened Relay
  import opened RouteAllocation
  import opened Trace
  import opened Responder
  import opened ResponderInvariant
  import opened ResponderSafety
  import opened RegistryReload
  import opened ResponderRuns
  import opened Publishing
  import Sites

  // ---------------------------------------------- tables are complete from the start

  ghost predicate Serving(env: Env, s: State) {
    Inv(env, s) && env.mode == Server && TablesFor(ConfigsOf(s), s.tables)
  }

  lemma StartServes(env: Env, s: State, t: Tables, now: Time)
    requires Inv(env, s) && env.mode == Server && TablesFor(ConfigsOf(s), t)
    ensures Serving(env, Next(s, env, Start(t), now))
  {
    StepOK(env, s, Start(t), now);
    TablesApart(s, t);
  }

  /** Configurations do not depend on the tables. */
  lemma TablesApart(s: State, t: Tables)
    ensures ConfigsOf(s.(tables := t)) == ConfigsOf(s)
  {
    var s2 := s.(tables := t);
    assert forall r :: Reg(s2, r) == Reg(s, r);
  }

  predicate Reloads(a: Responder.Action) { a.ReloadClients? || a.ReloadAgents? }

  /** No other action touches a configuration; of the tables only the start does. */
  lemma OthersKeepConfigs(env: Env, s: State, a: Responder.Action, now: Time)
    requires Inv(env, s) && !Reloads(a)
    ensures ConfigsOf(Next(s, env, a, now)) == ConfigsOf(s)
    ensures !a.Start? ==> Next(s, env, a, now).tables == s.tables
  {
    var s2 := Next(s, env, a, now);
    match a
    case HandshakeMsg(key, addr) => HandshakeOK(env, s, key, addr, now); SameConfigs(s, s2);
    case DataFrame(addr, f) => HandleDataOK(env, s, addr, f, now); SameConfigs(s, s2);
    case TickNow(order) => TickAllOK(env, s, order, now); SameConfigs(s, s2);
    case Start(t) => TablesApart(s, t);
    case KickPeer(r) => KickOK(env, s, r, now); if s2 != s { SameConfigs(s, s2); }
    case RefreshPeer(r) =>
      SealOK(env, s, r, AgentCmd, env.json(Command("stat")), now, None);
      if s2 != s { SameConfigs(s, s2); }
    case TunPacket(order, pkt) => SendDataOK(env, s, order, pkt, now); if s2 != s { SameConfigs(s, s2); }
  }

  lemma AgentsReloadServes(env: Env, s: State, a: Responder.Action, now: Time)
    requires Serving(env, s) && a.ReloadAgents?
    ensures TablesFor(ConfigsOf(Next(s, env, a, now)), Next(s, env, a, now).tables)
  {
    if AgentRegistry(a.m) {
      var s1, cmds := ApplyAgents(s, a.m, a.order1, a.order2).0, ApplyAgents(s, a.m, a.order1, a.order2).1;
      if TablesFor(ConfigsOf(s1), a.tables) {
        UpdateAgentsOK(env, s, a.m, a.order1);
        MergeAgentsOK(env, UpdateAgents(s, a.m, a.order1).0, a.m, a.order2);
        TablesOK(env, s1, a.tables);
        TablesApart(s1, a.tables);
        SendCommandsOK(env, s1.(tables := a.tables), cmds, now);
        SameConfigs(s1.(tables := a.tables), Next(s, env, a, now));
      }
    }
  }

  lemma ClientsReloadServes(env: Env, s: State, a: Responder.Action, now: Time)
    requires Serving(env, s) && a.ReloadClients?
    ensures TablesFor(ConfigsOf(Next(s, env, a, now)), Next(s, env, a, now).tables)
  {
    if ClientRegistry(a.m) { TablesApart(ApplyClients(s, a.m, a.order1, a.order2), a.tables); }
  }

  /** Once started, a server's tables are right and complete for its peers after every action. */
  lemma ServingKept(env: Env, s: State, a: Responder.Action, now: Time)
    requires Serving(env, s)
    ensures Serving(env, Next(s, env, a, now))
  {
    StepOK(env, s, a, now);
    if a.ReloadAgents? { AgentsReloadServes(env, s, a, now); }
    else if a.ReloadClients? { ClientsReloadServes(env, s, a, now); }
    else { OthersKeepConfigs(env, s, a, now); }
  }

  /** So in every run, from the start on. */
  lemma {:induction false} RunServes(env: Env, statics: seq<PeerConfig>, actions: seq<(Responder.Action, Time)>, i: nat)
    requires env.mode == Server && i < |actions| && actions[i].0.Start?
    requires TablesFor(ConfigsOf(Exec(env, statics, actions[..i])), actions[i].0.tables)
    ensures Serving(env, Exec(env, statics, actions))
  {
    var n := |actions| - 1;
    var s, a, now := Exec(env, statics, actions[..n]), actions[n].0, actions[n].1;
    if i == n {
      RunOK(env, statics, actions[..n]);
      StartServes(env, s, a.tables, now);
    } else {
      assert actions[..n][..i] == actions[..i];
      RunServes(env, statics, actions[..n], i);
      ServingKept(env, s, a, now);
    }
    assert Exec(env, statics, actions) == Next(s, env, a, now);
  }

  /** Accepting a frame does not interrupt the service: what holds of a serving hub holds where the
      relay decides. */
  lemma AcceptServes(env: Env, s: State, r: Ref, addr: Endpoint, f: Frame, now: Time)
    requires Serving(env, s) && CanOpen(s, r, f, now)
    ensures Serving(env, Accept(s, r, addr, f, now)) && ConfigsOf(Accept(s, r, addr, f, now)) == ConfigsOf(s)
  {
    AcceptOK(env, s, r, addr, f, now);
    KeepsInv(env, s, Accept(s, r, addr, f, now));
    SameConfigs(s, Accept(s, r, addr, f, now));
  }

  /** A serving hub routes by longest prefix, over all its agents and nothing but its agents. */
  lemma RoutesByLongestPrefix(env: Env, s: State, dst: Addr)
    requires Serving(env, s)
    ensures var o := Lookup(s.tables.routes, dst);
      && (o.Some? ==> Reg(s, o.value) && Serves(ConfigsOf(s), dst, o.value))
      && (o.None? ==> forall r, p: Prefix :: Declares(ConfigsOf(s), r, p) ==> !p.Contains(dst))
  {
    LookupIsLongestMatch(ConfigsOf(s), s.tables.routes, dst);
  }

  /** And takes the reply to a forwarded packet back to the client that sent it. */
  lemma ReplyIsTakenBack(env: Env, s: State, p: Ref, pkt: Payload, a: Ref, reply: Payload)
    requires Serving(env, s) && Reg(s, p) && UniqueClientIPs(ConfigsOf(s))
    requires ParseReturns(pkt) && Parse(pkt).Some? && Decide(HubOf(s, env), p, pkt) == ToAgent(a)
    requires ParseReturns(reply) && Parse(reply).Some?
    requires Parse(reply).value.src == Parse(pkt).value.dst && Parse(reply).value.dst == Parse(pkt).value.src
    ensures Reg(s, a) && Decide(HubOf(s, env), a, reply)
      == if s.objs[p].cfg.enabled && s.objs[p].cur.Some? && s.objs[p].authed then ToClient(p) else Offline
  {
    ReplyPasses(HubOf(s, env), p, pkt, reply);
  }

  // -------------------------------------------------- peers match the files read

  /** No peer comes from the static configuration, and clients have no routes. */
  ghost predicate Dynamic(s: State) {
    forall k <- s.peers :: s.peers[k] in s.objs && !s.objs[s.peers[k]].isStatic
      && (s.objs[s.peers[k]].cfg.role == RoleClient ==> s.objs[s.peers[k]].cfg.routes == [])
  }

  /** No agent's key has moved to another site since the hub first saw it. */
  ghost predicate IdsKept(s: State, agents: Registry) {
    forall k <- s.peers :: s.peers[k] in s.objs && (k in agents && s.objs[s.peers[k]].cfg.role == RoleAgent ==>
      s.objs[s.peers[k]].cfg.id == agents[k].id)
  }

  ghost predicate BothParsed(agents: Registry, clients: Registry) { AgentRegistry(agents) && ClientRegistry(clients) }

  /** What a key stands for after both files were read. */
  lemma KeyAfterBoth(s: State, agents: Registry, clients: Registry, s1: State, s2: State, k: Key)
    requires Keyed(s) && Dynamic(s) && BothParsed(agents, clients)
    requires ClientsExact(s, clients, s1) && AgentsExact(s1, agents, s2) && k in s2.peers
    ensures s2.peers[k] in s2.objs && !s2.objs[s2.peers[k]].isStatic
    ensures var c := s2.objs[s2.peers[k]].cfg;
      if c.role == RoleAgent then
        && k in agents && SameAgent(c, agents[k].(id := c.id))
        && (k in s.peers && s.objs[s.peers[k]].cfg.role == RoleAgent ==> c.id == s.objs[s.peers[k]].cfg.id)
        && (!(k in s.peers && s.objs[s.peers[k]].cfg.role == RoleAgent) ==> c.id == agents[k].id)
      else k in clients && SameClient(c, clients[k])
  {
    assert ClientExact(s, clients, s1, k);
    assert AgentExact(s1, agents, s2, k);
  }

  lemma StaleIdStays(s: State, agents: Registry, clients: Registry, s1: State, s2: State, k: Key)
    requires Keyed(s) && Dynamic(s) && BothParsed(agents, clients)
    requires ClientsExact(s, clients, s1) && AgentsExact(s1, agents, s2)
    requires k in s.peers && k in agents && s.objs[s.peers[k]].cfg.role == RoleAgent
    ensures k in s2.peers && s2.peers[k] in s2.objs && s2.objs[s2.peers[k]].cfg.role == RoleAgent
    ensures s2.objs[s2.peers[k]].cfg.id == s.objs[s.peers[k]].cfg.id && s2.objs[s2.peers[k]].cfg.pub == k
  {
    assert ClientExact(s, clients, s1, k);
    assert AgentExact(s1, agents, s2, k);
  }

  lemma LoadedIff(s: State, agents: Registry, clients: Registry, s1: State, s2: State)
    requires Keyed(s) && Dynamic(s) && BothParsed(agents, clients)
    requires ClientsExact(s, clients, s1) && AgentsExact(s1, agents, s2)
    ensures Loaded(agents, clients, ConfigsOf(s2)) <==> IdsKept(s, agents)
  {
    if IdsKept(s, agents) {
      KeptIsLoaded(s, agents, clients, s1, s2);
    } else {
      var k :|
        && k in s.peers && k in agents
        && s.objs[s.peers[k]].cfg.role == RoleAgent && s.objs[s.peers[k]].cfg.id != agents[k].id;
      StaleIdStays(s, agents, clients, s1, s2, k);
      assert Reg(s2, s2.peers[k]) && s2.peers[k] in ConfigsOf(s2);
    }
  }

  lemma DynamicAfterBoth(s: State, agents: Registry, clients: Registry, s1: State, s2: State)
    requires Keyed(s) && Dynamic(s) && BothParsed(agents, clients)
    requires ClientsExact(s, clients, s1) && AgentsExact(s1, agents, s2)
    ensures Dynamic(s2)
  {
    forall k | k in s2.peers
      ensures s2.peers[k] in s2.objs && !s2.objs[s2.peers[k]].isStatic
      ensures s2.objs[s2.peers[k]].cfg.role == RoleClient ==> s2.objs[s2.peers[k]].cfg.routes == []
    {
      KeyAfterBoth(s, agents, clients, s1, s2, k);
    }
  }

  lemma KeptIsLoaded(s: State, agents: Registry, clients: Registry, s1: State, s2: State)
    requires Keyed(s) && Dynamic(s) && BothParsed(agents, clients) && IdsKept(s, agents)
    requires ClientsExact(s, clients, s1) && AgentsExact(s1, agents, s2)
    ensures Loaded(agents, clients, ConfigsOf(s2))
  {
    var cfgs := ConfigsOf(s2);
    forall r | r in cfgs
      ensures if cfgs[r].role == RoleAgent then cfgs[r].pub in agents && SameAgent(cfgs[r], agents[cfgs[r].pub])
              else cfgs[r].pub in clients && SameClient(cfgs[r], clients[cfgs[r].pub])
    {
      KeyAfterBoth(s, agents, clients, s1, s2, cfgs[r].pub);
    }
    assert forall r, q | r in cfgs && q in cfgs && r != q :: cfgs[r].pub != cfgs[q].pub;
  }

  // ------------------------------------------------------------ the whole service

  /** A serving hub whose peers are what it read from the files of the control plane, whatever
      requests the control plane has seen. */
  ghost predicate InService(env: Env, s: State, requests: seq<Sites.Action>, agents: Registry, clients: Registry) {
    Serving(env, s) && ReadFrom(Sites.Run(requests), agents, clients) && Loaded(agents, clients, ConfigsOf(s))
  }

  lemma ClientsStep(env: Env, s: State, m: Registry, o1: seq<Key>, o2: seq<Key>, t: Tables, now: Time)
    requires Serving(env, s) && ClientRegistry(m) && TablesFor(ConfigsOf(ApplyClients(s, m, o1, o2)), t)
    requires Enumerates(o1, s.peers.Keys) && Enumerates(o2, m.Keys)
    ensures Keyed(s) && ClientsExact(s, m, Next(s, env, Responder.Action.ReloadClients(m, o1, o2, t), now))
  {
    assert Look(0);
    ReloadClientsExact(s, m, o1, o2);
    var s1 := ApplyClients(s, m, o1, o2);
    forall k ensures ClientExact(s, m, s1.(tables := t), k) { assert ClientExact(s, m, s1, k); }
  }

  lemma AgentsStep(env: Env, s: State, m: Registry, o1: seq<Key>, o2: seq<Key>, t: Tables, now: Time) returns (x: State)
    requires Serving(env, s) && AgentRegistry(m) && TablesFor(ConfigsOf(ApplyAgents(s, m, o1, o2).0), t)
    requires Enumerates(o1, s.peers.Keys) && Enumerates(o2, m.Keys)
    ensures Keyed(s) && AgentsExact(s, m, x)
    ensures Same(x, Next(s, env, Responder.Action.ReloadAgents(m, o1, o2, t), now))
  {
    assert Keyed(s) by { assert Look(0); }
    ReloadAgentsExact(s, m, o1, o2);
    var (s1, cmds) := ApplyAgents(s, m, o1, o2);
    x := s1.(tables := t);
    ExactWithTables(s, m, s1, t);
    CommandsAfter(env, s, m, o1, o2, t, now);
    assert Next(s, env, Responder.Action.ReloadAgents(m, o1, o2, t), now) == SendCommands(x, env, cmds, now);
  }

  lemma ExactWithTables(s: State, m: Registry, s1: State, t: Tables)
    requires Keyed(s) && AgentsExact(s, m, s1)
    ensures AgentsExact(s, m, s1.(tables := t))
  {
    forall k ensures AgentExact(s, m, s1.(tables := t), k) { assert AgentExact(s, m, s1, k); }
  }

  lemma CommandsAfter(env: Env, s: State, m: Registry, o1: seq<Key>, o2: seq<Key>, t: Tables, now: Time)
    requires Serving(env, s) && AgentRegistry(m) && TablesFor(ConfigsOf(ApplyAgents(s, m, o1, o2).0), t)
    ensures var (s1, cmds) := ApplyAgents(s, m, o1, o2);
      Same(s1.(tables := t), SendCommands(s1.(tables := t), env, cmds, now))
  {
    var (s1, cmds) := ApplyAgents(s, m, o1, o2);
    UpdateAgentsOK(env, s, m, o1);
    MergeAgentsOK(env, UpdateAgents(s, m, o1).0, m, o2);
    TablesOK(env, s1, t);
    SendCommandsOK(env, s1.(tables := t), cmds, now);
  }

  lemma SameDynamic(s: State, s2: State)
    requires Same(s, s2) && Dynamic(s)
    ensures Dynamic(s2)
  {
    assert Look(0);
  }

  /** Reading both files puts a serving hub in service exactly when no known key has moved to another
      site: a reload takes over everything of an agent's entry but its id. For a hub that knows no
      agent yet that is no condition at all. */
  lemma InServiceIff(env: Env, s: State, requests: seq<Sites.Action>, agents: Registry, clients: Registry,
                     o1: seq<Key>, o2: seq<Key>, t1: Tables, now1: Time,
                     o3: seq<Key>, o4: seq<Key>, t2: Tables, now2: Time)
    requires Serving(env, s) && Dynamic(s) && ReadFrom(Sites.Run(requests), agents, clients)
    requires Enumerates(o1, s.peers.Keys) && Enumerates(o2, clients.Keys)
    requires TablesFor(ConfigsOf(ApplyClients(s, clients, o1, o2)), t1)
    requires var s1 := Next(s, env, Responder.Action.ReloadClients(clients, o1, o2, t1), now1);
      && Enumerates(o3, s1.peers.Keys) && Enumerates(o4, agents.Keys)
      && TablesFor(ConfigsOf(ApplyAgents(s1, agents, o3, o4).0), t2)
    ensures var s1 := Next(s, env, Responder.Action.ReloadClients(clients, o1, o2, t1), now1);
      var s2 := Next(s1, env, Responder.Action.ReloadAgents(agents, o3, o4, t2), now2);
      Dynamic(s2) && (InService(env, s2, requests, agents, clients) <==> IdsKept(s, agents))
  {
    var a, b := Responder.Action.ReloadClients(clients, o1, o2, t1), Responder.Action.ReloadAgents(agents, o3, o4, t2);
    var s1 := Next(s, env, a, now1);
    ServingKept(env, s, a, now1);
    ClientsStep(env, s, clients, o1, o2, t1, now1);
    var x := AgentsStep(env, s1, agents, o3, o4, t2, now2);
    ServingKept(env, s1, b, now2);
    DynamicAfterBoth(s, agents, clients, s1, x);
    SameDynamic(x, Next(s1, env, b, now2));
    SameConfigs(x, Next(s1, env, b, now2));
    LoadedIff(s, agents, clients, s1, x);
  }

  /** It has no conflicts and routes every address to one agent at most; every verdict is what
      `ClientVerdict` and `AgentVerdict` say. */
  lemma ServiceIsUnambiguous(env: Env, s: State, requests: seq<Sites.Action>, agents: Registry, clients: Registry)
    requires InService(env, s, requests, agents, clients)
    ensures HubOf(s, env).Valid() && Unambiguous(HubOf(s, env)) && !Clash(ConfigsOf(s))
  {
    LoadedHubIsUnambiguous(requests, agents, clients, HubOf(s, env));
  }

  /** It stays in service until a file is read again. */
  lemma ServiceGoesOn(env: Env, s: State, requests: seq<Sites.Action>, agents: Registry, clients: Registry,
                      a: Responder.Action, now: Time)
    requires InService(env, s, requests, agents, clients) && !Reloads(a)
    ensures InService(env, Next(s, env, a, now), requests, agents, clients)
  {
    ServingKept(env, s, a, now);
    OthersKeepConfigs(env, s, a, now);
  }

  /** The record a registered agent was loaded from. */
  ghost function RecordOf(s: State, requests: seq<Sites.Action>, a: Ref): Sites.Record
    requires a in s.objs && SiteIndex(Sites.Run(requests).sites, s.objs[a].cfg.pub) < |Sites.Run(requests).sites|
  {
    Sites.Run(requests).sites[SiteIndex(Sites.Run(requests).sites, s.objs[a].cfg.pub)]
  }

  lemma AgentRunsItsSite(env: Env, s: State, requests: seq<Sites.Action>, agents: Registry, clients: Registry, a: Ref)
    requires InService(env, s, requests, agents, clients) && Reg(s, a) && s.objs[a].cfg.role == RoleAgent
    ensures SiteIndex(Sites.Run(requests).sites, s.objs[a].cfg.pub) < |Sites.Run(requests).sites|
    ensures var r := RecordOf(s, requests, a);
      && Sites.RecordOK(r) && r.pub == Some(s.objs[a].cfg.pub)
      && Sites.RunsSite(s.objs[a].cfg, r) && s.objs[a].cfg.Masked()
  {
    Sites.RunOK(requests);
    LoadedAgent(Sites.Run(requests), agents, clients, ConfigsOf(s), a);
    assert RecordOf(s, requests, a) in Sites.Run(requests).sites;
  }

  /** End to end, from the operator's form to the reply on the client's screen: a client's packet that
      the hub forwards to a site, translated there under the routes the site was given, and
      answered by the host it was translated to, comes back to that client. All that is asked is
      that the networks entered for the site do not overlap each other. */
  lemma ServiceRoundTrip(env: Env, s: State, requests: seq<Sites.Action>, agents: Registry, clients: Registry,
                         p: Ref, pkt: Payload, a: Ref, local: seq<Addr>, answer: Payload)
    requires InService(env, s, requests, agents, clients) && Reg(s, p)
    requires s.objs[p].cfg.enabled && s.objs[p].cur.Some? && s.objs[p].authed
    requires ParseReturns(pkt) && Parse(pkt).Some? && Decide(HubOf(s, env), p, pkt) == ToAgent(a)
    requires Reg(s, a) && s.objs[a].cfg.role == RoleAgent
    requires SiteIndex(Sites.Run(requests).sites, s.objs[a].cfg.pub) < |Sites.Run(requests).sites|
    requires RealApart(RecordOf(s, requests, a).routes)
    requires FindMap(s.objs[a].cfg.routes, Parse(pkt).value.dst, true).Some?
    requires ParseReturns(answer) && Parse(answer).Some? && Parse(answer).value.dst == Parse(pkt).value.src
    requires var t := Translator(s.objs[a].cfg.routes, local);
      NewAddr(t, Parse(pkt).value.dst, true) == Some(Parse(answer).value.src)
    ensures var t := Translator(s.objs[a].cfg.routes, local);
      && t.Valid() && Translated(t, answer, false).Some? && ParseReturns(Translated(t, answer, false).value)
      && Decide(HubOf(s, env), a, Translated(t, answer, false).value) == ToClient(p)
  {
    ServiceIsUnambiguous(env, s, requests, agents, clients);
    AgentRunsItsSite(env, s, requests, agents, clients, a);
    PublishedMaps(RecordOf(s, requests, a), s.objs[a].cfg);
    RoundTrip(HubOf(s, env), p, pkt, Translator(s.objs[a].cfg.routes, local), answer);
  }
}
