/** The user-space relay: what the hub decides about one decrypted packet. */
module Relay {
  import opened Wrappers
  import opened Addresses
  import opened Checksums
  import opened IpHeaders
  import opened Translators
  import opened Rewrites
  import opened Peers
  import opened Routing

  /** What the decision looks at: configurations, who is connected and authenticated, tables. */
  datatype Hub = Hub(cfgs: Configs, ready: set<Ref>, tables: Tables, localAddr: Option<Addr>) {
    ghost predicate Valid() {
      TablesSound(cfgs, tables)
    }
  }

  /** The half of `TablesFor` that says every table entry is right; complete tables have it too. */
  ghost predicate TablesSound(cfgs: Configs, t: Tables) {
    && (forall e <- t.routes :: Declares(cfgs, e.peer, e.prefix))
    && (forall a <- t.clientsByIP :: t.clientsByIP[a] in cfgs && cfgs[t.clientsByIP[a]].role == RoleClient
          && cfgs[t.clientsByIP[a]].tunnelIP == Some(a))
    && (forall a <- t.agentsByIP :: t.agentsByIP[a] in cfgs && cfgs[t.agentsByIP[a]].role == RoleAgent
          && cfgs[t.agentsByIP[a]].tunnelIP == Some(a))
  }

  lemma CompleteIsSound(cfgs: Configs, t: Tables)
    requires TablesFor(cfgs, t)
    ensures TablesSound(cfgs, t)
  {
  }

  datatype Verdict =
    | Malformed | Spoofed | NoRoute | Denied | Offline
    | Local                  // addressed to the hub itself
    | ToAgent(agent: Ref)
    | ToClient(client: Ref)

  /** The agent that gets a client packet for `dst`. */
  function AgentFor(t: Tables, dst: Addr): Option<Ref> {
    if dst in t.agentsByIP then Some(t.agentsByIP[dst]) else Lookup(t.routes, dst)
  }

  /** `relayFromClient`. */
  function FromClient(hub: Hub, p: Ref, src: Addr, dst: Addr): Verdict
    requires hub.Valid() && p in hub.cfgs
  {
    if hub.cfgs[p].tunnelIP != Some(src) then Spoofed
    else if hub.localAddr == Some(dst) then Local
    else match AgentFor(hub.tables, dst)
      case None => NoRoute
      case Some(a) =>
        AgentForIsAgent(hub, dst);
        if !Allows(hub.cfgs[p], hub.cfgs[a].Id()) then Denied
        else if !hub.cfgs[a].enabled || a !in hub.ready then Offline
        else ToAgent(a)
  }

  /** `relayFromAgent`. */
  function FromAgent(hub: Hub, p: Ref, src: Addr, dst: Addr): Verdict
    requires hub.Valid() && p in hub.cfgs
  {
    if !AllowsSource(hub.cfgs[p], src) then Spoofed
    else if dst !in hub.tables.clientsByIP then NoRoute
    else
      var c := hub.tables.clientsByIP[dst];
      if !Allows(hub.cfgs[c], hub.cfgs[p].Id()) then Denied
      else if !hub.cfgs[c].enabled || c !in hub.ready then Offline
      else ToClient(c)
  }

  /** `relayFromPeer`. */
  function Decide(hub: Hub, p: Ref, pkt: seq<byte>): Verdict
    requires hub.Valid() && p in hub.cfgs && ParseReturns(pkt)
  {
    match Parse(pkt)
    case None => Malformed
    case Some(h) => ByRole(hub, p, h)
  }

  function ByRole(hub: Hub, p: Ref, h: Header): Verdict
    requires hub.Valid() && p in hub.cfgs
  {
    if hub.cfgs[p].role == RoleAgent then FromAgent(hub, p, h.src, h.dst) else FromClient(hub, p, h.src, h.dst)
  }

  /** How a packet is judged: by its addresses, as its sender's role says, or not at all. */
  lemma DecideIs(hub: Hub, p: Ref, pkt: seq<byte>)
    requires hub.Valid() && p in hub.cfgs && ParseReturns(pkt)
    ensures match Parse(pkt)
      case None => Decide(hub, p, pkt) == Malformed
      case Some(h) =>
        if hub.cfgs[p].role == RoleAgent then Decide(hub, p, pkt) == FromAgent(hub, p, h.src, h.dst)
        else Decide(hub, p, pkt) == FromClient(hub, p, h.src, h.dst)
  {
  }

  /** Who speaks for an address that is not its own: a client for any but its tunnel address, an agent for any but
      its tunnel address and what its virtual prefixes contain. */
  lemma SpoofedIff(hub: Hub, p: Ref, pkt: seq<byte>)
    requires hub.Valid() && p in hub.cfgs && ParseReturns(pkt) && Parse(pkt).Some?
    ensures var src, c := Parse(pkt).value.src, hub.cfgs[p];
      Decide(hub, p, pkt) == Spoofed <==>
        c.tunnelIP != Some(src) && (c.role == RoleAgent ==> forall m <- c.routes :: !m.virt.Contains(src))
  {
    if hub.cfgs[p].role == RoleClient && AgentFor(hub.tables, Parse(pkt).value.dst).Some? {
      AgentForIsAgent(hub, Parse(pkt).value.dst);
    }
  }

  lemma AgentForIsAgent(hub: Hub, dst: Addr)
    requires hub.Valid() && AgentFor(hub.tables, dst).Some?
    ensures var a := AgentFor(hub.tables, dst).value;
      a in hub.cfgs && hub.cfgs[a].role == RoleAgent && AllowsSource(hub.cfgs[a], dst)
  {
    if dst !in hub.tables.agentsByIP {
      var i := LookupFirst(hub.tables.routes, dst);
      var e := hub.tables.routes[i];
      assert e in hub.tables.routes;
      assert Declares(hub.cfgs, e.peer, e.prefix);
      var m :| m in hub.cfgs[e.peer].routes && m.virt == e.prefix;
    }
  }

  /** `allowsSource`. */
  method SourceAllowed(cfg: PeerConfig, src: Addr) returns (ok: bool)
    ensures ok == AllowsSource(cfg, src)
  {
    if cfg.tunnelIP.Some? && src == cfg.tunnelIP.value { return true; }
    for i := 0 to |cfg.routes|
      invariant forall k | 0 <= k < i :: !cfg.routes[k].virt.Contains(src)
    {
      if cfg.routes[i].virt.Contains(src) { assert cfg.routes[i] in cfg.routes; return true; }
    }
    return false;
  }

  // -------------------------------------------------------------- what it means

  /** A forwarded packet always crosses between one client and one agent that the client's ACL
      names; neither end speaks for an address that is not its own. */
  lemma ForwardedIsLegitimate(hub: Hub, p: Ref, pkt: seq<byte>)
    requires hub.Valid() && p in hub.cfgs && ParseReturns(pkt) && Parse(pkt).Some?
    ensures var h := Parse(pkt).value;
      match Decide(hub, p, pkt)
      case ToAgent(a) =>
        && hub.cfgs[p].role == RoleClient && a in hub.cfgs && hub.cfgs[a].role == RoleAgent
        && Allows(hub.cfgs[p], hub.cfgs[a].Id())
        && hub.cfgs[p].tunnelIP == Some(h.src) && AllowsSource(hub.cfgs[a], h.dst)
        && hub.cfgs[a].enabled && a in hub.ready
      case ToClient(c) =>
        && hub.cfgs[p].role == RoleAgent && c in hub.cfgs && hub.cfgs[c].role == RoleClient
        && Allows(hub.cfgs[c], hub.cfgs[p].Id())
        && AllowsSource(hub.cfgs[p], h.src) && hub.cfgs[c].tunnelIP == Some(h.dst)
        && hub.cfgs[c].enabled && c in hub.ready
      case _ => true
  {
    var h := Parse(pkt).value;
    if hub.cfgs[p].role == RoleClient && AgentFor(hub.tables, h.dst).Some? { AgentForIsAgent(hub, h.dst); }
  }

  /** Client tunnel addresses identify clients. */
  ghost predicate UniqueClientIPs(cfgs: Configs) {
    forall c, d | c in cfgs && d in cfgs && cfgs[c].role == cfgs[d].role == RoleClient
      && cfgs[c].tunnelIP == cfgs[d].tunnelIP && cfgs[c].tunnelIP.Some? :: c == d
  }

  /** Agent tunnel addresses identify agents. */
  ghost predicate UniqueAgentIPs(cfgs: Configs) {
    forall a, b | a in cfgs && b in cfgs && cfgs[a].role == cfgs[b].role == RoleAgent
      && cfgs[a].tunnelIP == cfgs[b].tunnelIP && cfgs[a].tunnelIP.Some? :: a == b
  }

  ghost predicate Unambiguous(hub: Hub) {
    && TablesFor(hub.cfgs, hub.tables) && AllMasked(hub.cfgs) && DistinctIds(hub.cfgs)
    && UniqueAgentIPs(hub.cfgs) && UniqueClientIPs(hub.cfgs)
  }

  ghost predicate OwnAddress(cfgs: Configs, role: Role, r: Ref, a: Addr) {
    r in cfgs && cfgs[r].role == role && cfgs[r].tunnelIP == Some(a)
  }

  /** The agent behind an address: the one whose own address it is, else the one that serves it. */
  ghost predicate Behind(cfgs: Configs, a: Ref, dst: Addr) {
    || OwnAddress(cfgs, RoleAgent, a, dst)
    || (Serves(cfgs, dst, a) && forall q <- cfgs :: !OwnAddress(cfgs, RoleAgent, q, dst))
  }

  lemma AgentForIff(hub: Hub, dst: Addr, a: Ref)
    requires Unambiguous(hub)
    ensures AgentFor(hub.tables, dst) == Some(a) <==> Behind(hub.cfgs, a, dst)
    ensures AgentFor(hub.tables, dst).Some? ==> Behind(hub.cfgs, AgentFor(hub.tables, dst).value, dst)
  {
    var t, cfgs := hub.tables, hub.cfgs;
    if dst in t.agentsByIP {
      var q := t.agentsByIP[dst];
      assert OwnAddress(cfgs, RoleAgent, q, dst);
    } else {
      assert IndexFor(cfgs, RoleAgent, t.agentsByIP);
      assert forall q <- cfgs :: !OwnAddress(cfgs, RoleAgent, q, dst);
      LookupIsLongestMatch(cfgs, t.routes, dst);
      if Serves(cfgs, dst, a) {
        ServedIsFound(cfgs, t.routes, dst, a);
        ServesUnique(cfgs, dst, a, Lookup(t.routes, dst).value);
      }
    }
  }

  /** What may come of a client's packet once its source is its own and it is not for the hub. */
  ghost predicate MayReach(hub: Hub, p: Ref, a: Ref) {
    p in hub.cfgs && a in hub.cfgs && Allows(hub.cfgs[p], hub.cfgs[a].Id())
  }

  predicate Up(hub: Hub, r: Ref) { r in hub.cfgs && hub.cfgs[r].enabled && r in hub.ready }

  /** The packet comes from the client's own address and is not for the hub itself. */
  predicate Outbound(hub: Hub, p: Ref, src: Addr, dst: Addr)
    requires p in hub.cfgs
  {
    hub.cfgs[p].tunnelIP == Some(src) && hub.localAddr != Some(dst)
  }

  /** The verdict on a client's packet, said by addresses, grants and readiness alone, both ways. */
  lemma ClientVerdict(hub: Hub, p: Ref, src: Addr, dst: Addr)
    requires hub.Valid() && Unambiguous(hub) && p in hub.cfgs
    ensures var v, mine := FromClient(hub, p, src, dst), hub.cfgs[p].tunnelIP == Some(src);
      && (v == Spoofed <==> !mine)
      && (v == Local <==> mine && hub.localAddr == Some(dst))
      && (v == NoRoute <==> Outbound(hub, p, src, dst) && forall a: Ref :: !Behind(hub.cfgs, a, dst))
      && (forall a: Ref :: v == ToAgent(a) <==>
            Outbound(hub, p, src, dst) && Behind(hub.cfgs, a, dst) && MayReach(hub, p, a) && Up(hub, a))
      && !v.Malformed? && !v.ToClient?
  {
    BehindIff(hub, dst);
    VerdictByAgent(hub, p, src, dst);
  }

  lemma VerdictByAgent(hub: Hub, p: Ref, src: Addr, dst: Addr)
    requires hub.Valid() && p in hub.cfgs && Found(hub, dst)
    ensures var v, mine := FromClient(hub, p, src, dst), hub.cfgs[p].tunnelIP == Some(src);
      && (v == Spoofed <==> !mine)
      && (v == Local <==> mine && hub.localAddr == Some(dst))
      && (v == NoRoute <==> Outbound(hub, p, src, dst) && forall a: Ref :: !Behind(hub.cfgs, a, dst))
      && (forall a: Ref :: v == ToAgent(a) <==>
            Outbound(hub, p, src, dst) && Behind(hub.cfgs, a, dst) && MayReach(hub, p, a) && Up(hub, a))
      && !v.Malformed? && !v.ToClient?
  {
    if AgentFor(hub.tables, dst).Some? { AgentForIsAgent(hub, dst); }
  }

  /** The tables find exactly the agent behind an address. */
  ghost predicate Found(hub: Hub, dst: Addr) {
    && (forall a: Ref :: Behind(hub.cfgs, a, dst) <==> AgentFor(hub.tables, dst) == Some(a))
    && (AgentFor(hub.tables, dst).Some? ==> Behind(hub.cfgs, AgentFor(hub.tables, dst).value, dst))
  }

  /** And why a packet with a destination goes nowhere. */
  lemma ClientRefused(hub: Hub, p: Ref, src: Addr, dst: Addr)
    requires hub.Valid() && Unambiguous(hub) && p in hub.cfgs
    ensures FromClient(hub, p, src, dst) == Denied <==>
      Outbound(hub, p, src, dst) && exists a: Ref :: Behind(hub.cfgs, a, dst) && !MayReach(hub, p, a)
    ensures FromClient(hub, p, src, dst) == Offline <==>
      Outbound(hub, p, src, dst) && exists a: Ref :: Behind(hub.cfgs, a, dst) && MayReach(hub, p, a) && !Up(hub, a)
  {
    BehindIff(hub, dst);
    RefusalByAgent(hub, p, src, dst);
  }

  lemma RefusalByAgent(hub: Hub, p: Ref, src: Addr, dst: Addr)
    requires hub.Valid() && p in hub.cfgs && Found(hub, dst)
    ensures FromClient(hub, p, src, dst) == Denied <==>
      Outbound(hub, p, src, dst) && exists a: Ref :: Behind(hub.cfgs, a, dst) && !MayReach(hub, p, a)
    ensures FromClient(hub, p, src, dst) == Offline <==>
      Outbound(hub, p, src, dst) && exists a: Ref :: Behind(hub.cfgs, a, dst) && MayReach(hub, p, a) && !Up(hub, a)
  {
    if AgentFor(hub.tables, dst).Some? { AgentForIsAgent(hub, dst); }
  }

  lemma BehindIff(hub: Hub, dst: Addr)
    requires Unambiguous(hub)
    ensures Found(hub, dst)
  {
    if AgentFor(hub.tables, dst).Some? { AgentForIff(hub, dst, AgentFor(hub.tables, dst).value); }
    forall a: Ref ensures Behind(hub.cfgs, a, dst) <==> AgentFor(hub.tables, dst) == Some(a) {
      AgentForIff(hub, dst, a);
    }
  }

  /** The verdict on a site's packet. */
  lemma AgentVerdict(hub: Hub, p: Ref, src: Addr, dst: Addr)
    requires hub.Valid() && Unambiguous(hub) && p in hub.cfgs
    ensures var v, mine := FromAgent(hub, p, src, dst), AllowsSource(hub.cfgs[p], src);
      && (v == Spoofed <==> !mine)
      && (v == NoRoute <==> mine && forall c: Ref :: !OwnAddress(hub.cfgs, RoleClient, c, dst))
      && (v == Denied <==> mine && exists c: Ref :: OwnAddress(hub.cfgs, RoleClient, c, dst) && !MayReach(hub, c, p))
      && (v == Offline <==>
            mine && exists c: Ref :: OwnAddress(hub.cfgs, RoleClient, c, dst) && MayReach(hub, c, p) && !Up(hub, c))
      && (forall c: Ref :: v == ToClient(c) <==>
            mine && OwnAddress(hub.cfgs, RoleClient, c, dst) && MayReach(hub, c, p) && Up(hub, c))
      && !v.Malformed? && !v.Local? && !v.ToAgent?
  {
    var index := hub.tables.clientsByIP;
    forall c: Ref ensures OwnAddress(hub.cfgs, RoleClient, c, dst) <==> dst in index && index[dst] == c {
      if OwnAddress(hub.cfgs, RoleClient, c, dst) { assert hub.cfgs[c].tunnelIP.value in hub.tables.clientsByIP; }
    }
    if dst in hub.tables.clientsByIP { assert OwnAddress(hub.cfgs, RoleClient, hub.tables.clientsByIP[dst], dst); }
  }

  /** Switching a site off works one way: packets to it are refused, packets from it still go to
      every client that may reach it. */
  lemma DisabledSiteIsOneWay(hub: Hub, c: Ref, a: Ref, x: Addr, y: Addr)
    requires hub.Valid() && Unambiguous(hub) && OwnAddress(hub.cfgs, RoleClient, c, x) && Up(hub, c)
    requires Behind(hub.cfgs, a, y) && AllowsSource(hub.cfgs[a], y) && !hub.cfgs[a].enabled && MayReach(hub, c, a)
    requires hub.localAddr != Some(y)
    ensures FromAgent(hub, a, y, x) == ToClient(c) && FromClient(hub, c, x, y) == Offline
  {
    AgentVerdict(hub, a, y, x);
    ClientRefused(hub, c, x, y);
  }

  /** Such a hub. */
  lemma DisabledSiteSends(client: PeerConfig, agent: PeerConfig, x: Addr, y: Addr, hub: Hub)
    requires client.role == RoleClient && client.enabled && client.tunnelIP == Some(x) && client.routes == []
    requires agent.role == RoleAgent && !agent.enabled && agent.tunnelIP == Some(y) && agent.routes == []
    requires client.allowAgents == [agent.Id()]
    requires hub == Hub(map[0 := client, 1 := agent], {0, 1}, Tables([], map[x := 0], map[y := 1], []), None)
    ensures hub.Valid() && FromAgent(hub, 1, y, x) == ToClient(0) && FromClient(hub, 0, x, y) == Offline
  {
    assert EqualFold(client.allowAgents[0], agent.Id());
    assert MayReach(hub, 0, 1);
    DisabledSiteIsOneWay(hub, 0, 1, x, y);
  }

  /** The reply to a forwarded packet is taken back to the client that sent it; only a client
      that is switched off or gone in the meantime misses it. */
  lemma ReplyPasses(hub: Hub, p: Ref, pkt: seq<byte>, reply: seq<byte>)
    requires hub.Valid() && p in hub.cfgs && ParseReturns(pkt) && ParseReturns(reply)
    requires Parse(pkt).Some? && Parse(reply).Some? && Decide(hub, p, pkt).ToAgent?
    requires UniqueClientIPs(hub.cfgs) && TablesFor(hub.cfgs, hub.tables)
    requires Parse(reply).value.src == Parse(pkt).value.dst && Parse(reply).value.dst == Parse(pkt).value.src
    ensures Decide(hub, p, pkt).agent in hub.cfgs
    ensures Decide(hub, Decide(hub, p, pkt).agent, reply)
      == if hub.cfgs[p].enabled && p in hub.ready then ToClient(p) else Offline
  {
    ForwardedIsLegitimate(hub, p, pkt);
    var src := Parse(pkt).value.src;
    assert src in hub.tables.clientsByIP;
    assert hub.tables.clientsByIP[src] == p;
  }

  /** End to end: a client packet forwarded to a site whose translator runs the published
      routes, answered by the LAN host it was translated to, comes back to the client. */
  lemma RoundTrip(hub: Hub, p: Ref, pkt: seq<byte>, t: Translator, answer: seq<byte>)
    requires hub.Valid() && p in hub.cfgs && ParseReturns(pkt) && Parse(pkt).Some? && Decide(hub, p, pkt).ToAgent?
    requires UniqueClientIPs(hub.cfgs) && TablesFor(hub.cfgs, hub.tables)
    requires Decide(hub, p, pkt).agent in hub.cfgs && t.maps == hub.cfgs[Decide(hub, p, pkt).agent].routes
    requires t.Valid() && Disjoint(t.maps) && FindMap(t.maps, Parse(pkt).value.dst, true).Some?
    requires hub.cfgs[p].enabled && p in hub.ready
    requires ParseReturns(answer) && Parse(answer).Some?
    requires NewAddr(t, Parse(pkt).value.dst, true) == Some(Parse(answer).value.src)   // the LAN host answers
    requires Parse(answer).value.dst == Parse(pkt).value.src
    ensures Translated(t, answer, false).Some? && ParseReturns(Translated(t, answer, false).value)
    ensures Decide(hub, Decide(hub, p, pkt).agent, Translated(t, answer, false).value) == ToClient(p)
  {
    ReplyComesBack(t, pkt, answer);
    ReplyPasses(hub, p, pkt, Translated(t, answer, false).value);
  }

  // ------------------------------------------------------- answering pings

  predicate IsPing(pkt: seq<byte>, h: Header) {
    && h.l4Off.Some? && |pkt| >= h.l4Off.value + 8
    && (if h.v4 then h.l4Proto == 1 && pkt[h.l4Off.value] == 8 else h.l4Proto == 58 && pkt[h.l4Off.value] == 128)
  }

  /** Addresses swapped, reply type, ICMP checksum cleared. */
  function Cleared(pkt: seq<byte>, h: Header): (r: seq<byte>)
    requires Shape(pkt, h) && h.l4Off.Some? && h.l4Off.value + 8 <= |pkt|
    ensures |r| == |pkt|
  {
    var p1 := Splice(Splice(pkt, h.srcOff, Bytes(h.dst)), h.dstOff, Bytes(h.src));
    Splice(Splice(p1, h.l4Off.value, [if h.v4 then 0 else 129]), h.l4Off.value + 2, [0, 0])
  }

  /** The packet `replyLocalICMP` sends back. */
  function PingReply(pkt: seq<byte>, h: Header): (r: seq<byte>)
    requires Shape(pkt, h) && h.l4Off.Some? && h.l4Off.value + 8 <= |pkt| <= 65535
    ensures |r| == |pkt|
  {
    var l4, c := h.l4Off.value, Cleared(pkt, h);
    if h.v4 then
      var withL4 := Splice(Splice(c, l4 + 2, PutU16(Checksum(c[l4..]))), 10, [0, 0]);
      Splice(withL4, 10, PutU16(Checksum(withL4[..l4])))
    else
      Splice(c, l4 + 2, PutU16(Checksum(Pseudo(h.dst, h.src, 58, c[l4..]))))
  }

  /** The hub's own answer, built in the packet's buffer. */
  method ReplyLocalICMP(pkt: array<byte>, h: Header) returns (ok: bool)
    requires Shape(pkt[..], h) && pkt.Length <= 65535
    modifies pkt
    ensures ok == IsPing(old(pkt[..]), h)
    ensures pkt[..] == if ok then PingReply(old(pkt[..]), h) else old(pkt[..])
  {
    if h.l4Off.None? || pkt.Length < h.l4Off.value + 8 { return false; }
    var l4 := h.l4Off.value;
    if h.v4 && h.l4Proto == 1 && pkt[l4] == 8 {
      ReplyV4(pkt, h);
      return true;
    } else if !h.v4 && h.l4Proto == 58 && pkt[l4] == 128 {
      ReplyV6(pkt, h);
      return true;
    } else {
      return false;
    }
  }

  method ReplyV4(pkt: array<byte>, h: Header)
    requires Shape(pkt[..], h) && h.v4 && h.l4Off.Some? && h.l4Off.value + 8 <= pkt.Length <= 65535
    modifies pkt
    ensures pkt[..] == PingReply(old(pkt[..]), h)
  {
    var l4 := h.l4Off.value;
    CopyInto(pkt, h.srcOff, Bytes(h.dst));
    CopyInto(pkt, h.dstOff, Bytes(h.src));
    CopyInto(pkt, l4, [0]);
    CopyInto(pkt, l4 + 2, [0, 0]);
    assert pkt[..][l4..] == pkt[l4..];
    var sum := OnesComplement(pkt[l4..]);
    CopyInto(pkt, l4 + 2, PutU16(sum));
    CopyInto(pkt, 10, [0, 0]);
    assert pkt[..][..l4] == pkt[..l4];
    sum := OnesComplement(pkt[..l4]);
    CopyInto(pkt, 10, PutU16(sum));
  }

  method ReplyV6(pkt: array<byte>, h: Header)
    requires Shape(pkt[..], h) && !h.v4 && h.l4Off.Some? && h.l4Off.value + 8 <= pkt.Length <= 65535
    modifies pkt
    ensures pkt[..] == PingReply(old(pkt[..]), h)
  {
    var l4 := h.l4Off.value;
    CopyInto(pkt, h.srcOff, Bytes(h.dst));
    CopyInto(pkt, h.dstOff, Bytes(h.src));
    CopyInto(pkt, l4, [129]);
    CopyInto(pkt, l4 + 2, [0, 0]);
    assert pkt[..][l4..] == pkt[l4..];
    var sum := OnesComplement(Pseudo(h.dst, h.src, 58, pkt[l4..]));
    CopyInto(pkt, l4 + 2, PutU16(sum));
  }

  /** An echo reply: addresses swapped, the reply type, everything else kept, and checksums that verify. */
  ghost predicate EchoReply(was: seq<byte>, now: seq<byte>, h: Header)
    requires Shape(was, h) && |was| <= 65535
  {
    && |now| == |was| && h.l4Off.Some? && h.l4Off.value + 8 <= |was|
    && var n, l4 := h.Fam().Size(), h.l4Off.value;
    && now[h.srcOff..h.srcOff + n] == Bytes(h.dst) && now[h.dstOff..h.dstOff + n] == Bytes(h.src)
    && now[l4] == (if h.v4 then 0 else 129)
    && (forall i | 0 <= i < |was| ::
          || (h.srcOff <= i < h.dstOff + n) || (h.v4 && 10 <= i < 12)
          || i == l4 || (l4 + 2 <= i < l4 + 4) || now[i] == was[i])
    && (if h.v4 then Verifies(WordSum(now[l4..])) && Verifies(WordSum(now[..l4]))
        else Verifies(WordSum(Pseudo(h.dst, h.src, 58, now[l4..]))))
  }

  /** The answer is a well-formed echo reply, for both address families. */
  lemma PingReplyIsEcho(pkt: seq<byte>, h: Header)
    requires Shape(pkt, h) && h.l4Off.Some? && h.l4Off.value + 8 <= |pkt| <= 65535
    ensures EchoReply(pkt, PingReply(pkt, h), h)
  {
    if h.v4 { EchoV4(pkt, h); } else { EchoV6(pkt, h); }
  }

  /** The checksum covers the buffer to its end. Where the datagram states a smaller length, a receiver that
      sums up to there finds it right exactly when the padding sums to nothing. */
  lemma PaddedReplyIff(pkt: seq<byte>, h: Header, end: nat)
    requires Shape(pkt, h) && h.v4 && h.l4Off.Some? && h.l4Off.value + 8 <= end <= |pkt| <= 65535
    requires (end - h.l4Off.value) % 2 == 0
    ensures var sum := WordSum(PingReply(pkt, h)[h.l4Off.value..end]);
      Verifies(sum) <==> sum > 0 && WordSum(pkt[end..]) % 65535 == 0
  {
    EchoV4(pkt, h);
    EchoPadded(pkt, PingReply(pkt, h), h, end);
  }

  lemma EchoPadded(was: seq<byte>, now: seq<byte>, h: Header, end: nat)
    requires Shape(was, h) && h.v4 && h.l4Off.Some? && |was| <= 65535 && EchoReply(was, now, h)
    requires h.l4Off.value + 8 <= end <= |was| && (end - h.l4Off.value) % 2 == 0
    ensures var sum := WordSum(now[h.l4Off.value..end]);
      Verifies(sum) <==> sum > 0 && WordSum(was[end..]) % 65535 == 0
  {
    var l4 := h.l4Off.value;
    assert now[end..] == was[end..];
    assert now[l4..] == now[l4..end] + now[end..];
    WordSumAppend(now[l4..end], now[end..]);
    PartVerifies(WordSum(now[l4..end]), WordSum(was[end..]));
  }

  lemma PartVerifies(sum: nat, more: nat)
    requires Verifies(sum + more)
    ensures Verifies(sum) <==> sum > 0 && more % 65535 == 0
  {
    VerifiesMod(sum + more);
    if sum > 0 { VerifiesMod(sum); }
    if more % 65535 == 0 { ShiftMod(sum, more / 65535); }
    if sum % 65535 == 0 { ShiftMod(more, sum / 65535); }
  }

  lemma ChecksummedVerifies(z: seq<byte>, at: nat)
    requires at % 2 == 0 && at + 2 <= |z| && z[at] == z[at + 1] == 0
    ensures Verifies(WordSum(Splice(z, at, PutU16(Checksum(z)))))
  {
    var f := PutU16(Checksum(z));
    WordSumSplice(z, at, f);
    assert z[at..at + 2] == [0, 0];
    assert WordSum([0, 0]) == 0 by { assert [0, 0][2..] == []; }
    ComplementVerifies(WordSum(z));
  }

  lemma EchoV4(pkt: seq<byte>, h: Header)
    requires Shape(pkt, h) && h.v4 && h.l4Off.Some? && h.l4Off.value + 8 <= |pkt| <= 65535
    ensures EchoReply(pkt, PingReply(pkt, h), h)
  {
    var l4, c, now := h.l4Off.value, Cleared(pkt, h), PingReply(pkt, h);
    var withL4 := Splice(Splice(c, l4 + 2, PutU16(Checksum(c[l4..]))), 10, [0, 0]);
    var z := c[l4..];
    ChecksummedVerifies(z, 2);
    assert now[l4..] == Splice(z, 2, PutU16(Checksum(z)));
    HeaderSummed(withL4, now, l4);
    assert now[12..16] == Bytes(h.dst) && now[16..20] == Bytes(h.src);
  }

  lemma HeaderSummed(p: seq<byte>, now: seq<byte>, l4: nat)
    requires 20 <= l4 <= |p| && p[10] == p[11] == 0 && now == Splice(p, 10, PutU16(Checksum(p[..l4])))
    ensures Verifies(WordSum(now[..l4]))
  {
    ChecksummedVerifies(p[..l4], 10);
    assert now[..l4] == Splice(p[..l4], 10, PutU16(Checksum(p[..l4])));
  }

  lemma EchoV6(pkt: seq<byte>, h: Header)
    requires Shape(pkt, h) && !h.v4 && h.l4Off.Some? && h.l4Off.value + 8 <= |pkt| <= 65535
    ensures EchoReply(pkt, PingReply(pkt, h), h)
  {
    var l4, c, now := h.l4Off.value, Cleared(pkt, h), PingReply(pkt, h);
    var z := Pseudo(h.dst, h.src, 58, c[l4..]);
    ChecksummedVerifies(z, 42);
    assert |z| == 40 + |c[l4..]|;
    assert Pseudo(h.dst, h.src, 58, now[l4..]) == Splice(z, 42, PutU16(Checksum(z)));
    assert now[8..24] == Bytes(h.dst) && now[24..40] == Bytes(h.src);
  }
}
