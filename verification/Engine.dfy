/** The engine itself: peer objects updated in place, one method per handler, each proved to take
    the abstract state exactly where the state machine says. */
module Engines {
  import opened Wrappers
  import opened Addresses
  import opened IpHeaders
  import opened ReplayWindows
  import opened Peers
  import opened Routing
  import opened Relay
  import opened Trace
  import opened Responder
  import opened ResponderInvariant
  import opened ResponderSafety
  import opened RegistryReload
  import opened ResponderRuns
  import opened Frames
  import opened HandshakeLimiter
  import Packets

  /** `peerState`. */
  class PeerState {
    const id: Ref
    const isStatic: bool
    var cfg: PeerConfig
    var addr: Option<Endpoint>
    var cur: Option<Session>
    var prev: Option<Session>
    var prevDeadline: Time
    var lastRecv: Time
    var lastSend: Time
    var authed: bool
    var attempts: nat
    var lastStep: int
    var challengeAt: Time
    var authDeadline: Time
    var lockedUntil: Time
    var cmdAt: Time

    function View(): Peer
      reads this
    {
      Peer(cfg, isStatic, addr, cur, prev, prevDeadline, lastRecv, lastSend, authed, attempts, lastStep,
           challengeAt, authDeadline, lockedUntil, cmdAt)
    }

    constructor (id: Ref, cfg: PeerConfig, isStatic: bool)
      ensures this.id == id && View() == NewPeer(cfg, isStatic)
    {
      this.id, this.cfg, this.isStatic := id, cfg, isStatic;
      addr, cur, prev := None, None, None;
      prevDeadline, lastRecv, lastSend, lastStep := 0, 0, 0, 0;
      authed, attempts := !cfg.RequiresMFA(), 0;
      challengeAt, authDeadline, lockedUntil, cmdAt := 0, 0, 0, 0;
    }

    predicate RequiresMFA()
      reads this
    {
      cfg.RequiresMFA()
    }

    method ResetAuth()
      modifies this`authed
      ensures View() == old(View()).ResetAuth()
    {
      authed := !RequiresMFA();
    }

    /** Both sessions go and the auth gate is armed again. */
    method Drop()
      modifies this`cur, this`prev, this`authed
      ensures View() == old(View()).NoSessions().ResetAuth()
    {
      cur, prev := None, None;
      ResetAuth();
    }

    method Expire(now: Time)
      modifies this`authed, this`prev
      ensures View() == old(View()).Healed().Expired(now)
    {
      if cur.Some? && !authed && !RequiresMFA() { authed := true; }
      if prev.Some? && now > prevDeadline { prev := None; }
    }

    /** One frame of any kind; the caller learns the key and nonce it was sealed with. */
    method SealFrame(now: Time) returns (sealed: Option<(nat, nat)>)
      modifies this`cur, this`lastSend
      ensures sealed.Some? == old(View()).CanSeal()
      ensures sealed.Some? ==> var c := old(View()).cur.value;
        sealed.value == (c.sendKey, c.sendNonce) && View() == old(View()).Spent(now)
      ensures sealed.None? ==> View() == old(View())
    {
      if cur.None? { return None; }
      var c := cur.value;
      if c.sendNonce > MAX_NONCE { return None; }
      cur := Some(c.(sendNonce := c.sendNonce + 1));
      lastSend := now;
      return Some((c.sendKey, c.sendNonce));
    }

    /** `dropPeerLocked` on the peer's own fields. */
    method Revoke()
      modifies this`cur, this`prev, this`authed
      ensures View() == old(View()).Revoked()
    {
      cur, prev := None, None;
      authed := false;
    }

    method SetSecret(secret: string)
      modifies this
      ensures View() == old(View()).WithSecret(secret)
    {
      if cfg.totpSecret != secret {
        attempts := 0;
        cfg := cfg.(totpSecret := secret);
        ResetAuth();
      }
    }

    method TakeClient(c: PeerConfig)
      modifies this`cfg
      ensures View() == old(View()).WithClient(c)
    {
      cfg := cfg.(name := c.name, user := c.user, tunnelIP := c.tunnelIP, allowAgents := c.allowAgents);
    }

    method TakeAgent(c: PeerConfig)
      modifies this`cfg
      ensures View() == old(View()).WithAgent(c)
    {
      cfg := cfg.(name := c.name, enabled := c.enabled, tunnelIP := c.tunnelIP, routes := c.routes);
    }

    method Prove(step: int)
      modifies this
      ensures View() == old(View()).Proven(step)
    {
      authed, lastStep, attempts := true, step, 0;
    }

    method Strike(now: Time)
      modifies this
      ensures View() == old(View()).Struck(now)
    {
      attempts := attempts + 1;
      if attempts >= 3 { lockedUntil := now + LOCKOUT; }
    }

    /** `trySession` on the current session, then on the previous one within its grace. */
    method TryPeer(f: Frame, now: Time) returns (ok: bool)
      modifies this`cur, this`prev
      ensures ok == OpenedBy(old(View()), f, now).Some?
      ensures View() == if ok then Opened(old(View()), f, now) else old(View())
    {
      if cur.Some? {
        var c := TrySession(cur.value, f);
        if c.Some? { cur := c; return true; }
      }
      if prev.Some? && now < prevDeadline {
        var c := TrySession(prev.value, f);
        if c.Some? { prev := c; return true; }
      }
      return false;
    }

    /** `installSession`, with the endpoint it came from. */
    method InstallSession(env: Env, from: Endpoint, k: nat, now: Time)
      modifies this
      ensures View() == Rekeyed(old(View()), env, from, k, now)
    {
      addr := Some(from);
      if cur.Some? {
        prev := cur;
        prevDeadline := now + env.grace;
      }
      cur := Some(Session(k, k + 1, now, 0, 0, FRESH));
      lastRecv, lastSend := now, now;
    }

    method Join(env: Env, from: Endpoint, k: nat, now: Time)
      modifies this
      ensures View() == Joined(old(View()), env, from, k, now)
    {
      InstallSession(env, from, k, now);
      StartRound(now);
    }

    method StartRound(now: Time)
      modifies this
      ensures View() == old(View()).Challenged(now)
    {
      if RequiresMFA() && !authed {
        attempts, authDeadline, challengeAt := 0, now + MFA_WINDOW, now;
      }
    }

    method SeenAt(from: Endpoint, now: Time)
      modifies this`lastRecv, this`addr
      ensures View() == old(View()).SeenAt(from, now)
    {
      lastRecv, addr := now, Some(from);
    }
  }

  method TrySession(c: Session, f: Frame) returns (after: Option<Session>)
    ensures after == if Opens(c, f) then Some(Received(c, f.nonce)) else None
  {
    if !c.window.Acceptable(f.nonce) { return None; }
    if !Opens(c, f) { return None; }      // the AEAD refuses
    return Some(c.(window := c.window.Commit(f.nonce), recvCount := c.recvCount + 1));
  }

  /** `checkTOTP`: the three steps around the clock, oldest first. */
  method CheckTOTP(totp: Totp, secret: string, code: string, now: Time) returns (step: Option<int>)
    ensures step == CheckTotp(totp, secret, code, now)
  {
    if |code| != 6 { return None; }
    var last := ClockStep(now) + 1;
    var s := last - 2;
    while s <= last
      invariant CheckTotp(totp, secret, code, now) == TryStep(totp, secret, code, s, last)
      decreases last - s
    {
      var want := totp(secret, s);
      if want.None? { return None; }
      if want.value == code { return Some(s); }
      s := s + 1;
    }
    return None;
  }

  /** `Engine`, on the responder's side. A `Ref` stands for a pointer to a peer object and `heap`
      for following it. */
  class Engine {
    const env: Env
    var heap: map<Ref, PeerState>
    var peers: map<Key, Ref>
    var addr2peer: map<Endpoint, Ref>
    var tables: Tables
    var counters: Counters
    var nextRef: Ref
    var nextKey: nat
    ghost var log: Log

    ghost predicate Wf()
      reads this, heap.Values
    {
      && (forall r <- heap :: heap[r].id == r && r < nextRef)
      && (forall k <- peers :: peers[k] in heap)
      && (forall a <- addr2peer :: addr2peer[a] in heap)
    }

    predicate Has(p: PeerState)
      reads this, p
    {
      p.id in heap && heap[p.id] == p
    }

    ghost function Objs(): map<Ref, Peer>
      reads this, heap.Values
    {
      map r | r in heap :: heap[r].View()
    }

    /** The state of the abstract machine. */
    ghost function Abs(): State
      reads this, heap.Values
    {
      State(Objs(), peers, addr2peer, tables, counters, nextRef, nextKey, log)
    }

    constructor (env: Env, statics: seq<PeerConfig>)
      ensures this.env == env && Wf() && fresh(heap.Values)
      ensures Abs() == Initial(statics) && Inv(env, Abs())
    {
      this.env := env;
      heap, peers, addr2peer := map[], map[], map[];
      tables, counters := NO_TABLES, Counters(0, 0, 0, 0, 0, 0, 0, 0, 0);
      nextRef, nextKey, log := 0, 0, [];
      new;
      for i := 0 to |statics|
        invariant Wf() && (forall r <- heap :: fresh(heap[r])) && Abs() == Initial(statics[..i])
      {
        Front(statics, i);
        AddPeerLocked(statics[i], true);
      }
      assert statics[..|statics|] == statics;
      InitialOK(env, statics);
    }

    // ------------------------------------------------------------ the peer set

    /** Old pointers still lead where they led. */
    twostate predicate Grown()
      reads this
    {
      && old(heap.Keys) <= heap.Keys
      && forall r <- heap :: if r in old(heap) then heap[r] == old(heap[r]) else fresh(heap[r])
    }

    /** `addPeerLocked`. */
    method AddPeerLocked(cfg: PeerConfig, isStatic: bool)
      requires Wf()
      modifies this`heap, this`peers, this`nextRef
      ensures Wf() && Grown() && Abs() == AddPeer(old(Abs()), cfg, isStatic)
    {
      var p := new PeerState(nextRef, cfg, isStatic);
      heap := heap[nextRef := p];
      peers := peers[cfg.pub := nextRef];
      nextRef := nextRef + 1;
      assert Objs() == old(Objs())[p.id := p.View()];
    }

    /** `dropPeerLocked`, and out of the peer set. */
    method RevokePeer(k: Key)
      requires Wf() && k in peers
      modifies this`log, this`peers, this`addr2peer, heap.Values
      ensures Wf() && peers == old(peers) - {k} && Abs() == Revoke(old(Abs()), k)
    {
      var p := heap[peers[k]];
      ClearPeer(p);
      Unfile(k, p);
    }

    method Unfile(k: Key, p: PeerState)
      requires Wf()
      modifies this`log, this`peers, this`addr2peer
      ensures Wf() && peers == old(peers) - {k}
      ensures Abs() == old(Abs()).(
        peers := peers, log := old(log) + [Dropped(p.id)],
        addr2peer := if p.addr.Some? then old(addr2peer) - {p.addr.value} else old(addr2peer))
    {
      if p.addr.Some? { addr2peer := addr2peer - {p.addr.value}; }
      peers := peers - {k};
      log := log + [Dropped(p.id)];
      assert Objs() == old(Objs());
    }

    method ClearPeer(p: PeerState)
      requires Wf() && Has(p)
      modifies p`cur, p`prev, p`authed
      ensures Wf() && Abs() == SetPeer(old(Abs()), p.id, old(p.View()).Revoked())
    {
      p.Revoke();
      assert Objs() == old(Objs())[p.id := p.View()];
    }

    method ChangeSecretLocked(p: PeerState, secret: string)
      requires Wf() && Has(p)
      modifies this`log, p
      ensures Wf() && Abs() == ChangeSecret(old(Abs()), p.id, secret)
    {
      ghost var same := p.cfg.totpSecret == secret;
      if p.cfg.totpSecret != secret { log := log + [SecretChanged(p.id)]; }
      p.SetSecret(secret);
      assert Objs() == old(Objs())[p.id := p.View()];
      assert same ==> Objs() == old(Objs());
    }

    // -------------------------------------------------------------- clients.json

    method RevokeClientKey(m: Registry, k: Key)
      requires Wf()
      modifies this`log, this`peers, this`addr2peer, heap.Values
      ensures Wf() && Abs() == RevokeClient(old(Abs()), m, k)
    {
      if k !in peers { return; }
      var p := heap[peers[k]];
      if p.isStatic || p.cfg.role == RoleAgent || k in m { return; }
      RevokePeer(k);
    }

    method MergeClientKey(m: Registry, k: Key)
      requires Wf() && k in m && m[k].pub == k
      modifies this`log, this`heap, this`peers, this`nextRef, heap.Values
      ensures Wf() && Grown() && Abs() == MergeClient(old(Abs()), m, k)
    {
      if k in peers {
        var p := heap[peers[k]];
        if p.cfg.role == RoleAgent { return; }
        ChangeSecretLocked(p, m[k].totpSecret);
        TakeClientLocked(p, m[k]);
      } else {
        AddPeerLocked(m[k], false);
      }
    }

    method TakeClientLocked(p: PeerState, c: PeerConfig)
      requires Wf() && Has(p)
      modifies p`cfg
      ensures Wf() && Abs() == SetPeer(old(Abs()), p.id, old(Abs()).objs[p.id].WithClient(c))
    {
      p.TakeClient(c);
      assert Objs() == old(Objs())[p.id := p.View()];
    }

    method RevokeVanished(m: Registry) returns (order: seq<Key>)
      requires Wf()
      modifies this`log, this`peers, this`addr2peer, heap.Values
      ensures Wf() && Enumerates(order, old(peers.Keys)) && Abs() == RevokeClients(old(Abs()), m, order)
    {
      order := WalkOrder(peers.Keys);
      for i := 0 to |order|
        invariant Wf() && Abs() == RevokeClients(old(Abs()), m, order[..i])
      {
        Front(order, i);
        RevokeClientKey(m, order[i]);
      }
      assert order[..|order|] == order;
    }

    method MergeAll(m: Registry) returns (order: seq<Key>)
      requires Wf() && KeyedByPub(m)
      modifies this`log, this`heap, this`peers, this`nextRef, heap.Values
      ensures Wf() && Grown() && Enumerates(order, m.Keys) && Abs() == MergeClients(old(Abs()), m, order)
    {
      order := WalkOrder(m.Keys);
      for i := 0 to |order|
        invariant Wf() && Grown() && Abs() == MergeClients(old(Abs()), m, order[..i])
      {
        Front(order, i);
        MergeClientKey(m, order[i]);
      }
      assert order[..|order|] == order;
    }

    // --------------------------------------------------------------- agents.json

    method UpdateAgentKey(m: Registry, k: Key) returns (cmds: seq<(Ref, string)>)
      requires Wf()
      modifies this`log, this`peers, this`addr2peer, heap.Values
      ensures Wf() && Abs() == UpdateAgent(old(Abs()), m, k)
      ensures cmds == CommandFor(old(Abs()), m, k) && forall c <- cmds :: c.0 in heap
    {
      cmds := [];
      if k !in peers { return; }
      var p := heap[peers[k]];
      if p.isStatic || p.cfg.role != RoleAgent { return; }
      if k !in m {
        RevokePeer(k);
        return;
      }
      if p.cfg.enabled != m[k].enabled {
        cmds := [(p.id, if m[k].enabled then "enable" else "disable")];
      }
      ChangeSecretLocked(p, m[k].totpSecret);
      TakeAgentLocked(p, m[k]);
    }

    method TakeAgentLocked(p: PeerState, c: PeerConfig)
      requires Wf() && Has(p)
      modifies p`cfg
      ensures Wf() && Abs() == SetPeer(old(Abs()), p.id, old(Abs()).objs[p.id].WithAgent(c))
    {
      p.TakeAgent(c);
      assert Objs() == old(Objs())[p.id := p.View()];
    }

    method UpdateAll(m: Registry) returns (cmds: seq<(Ref, string)>, order: seq<Key>)
      requires Wf()
      modifies this`log, this`peers, this`addr2peer, heap.Values
      ensures Wf() && Enumerates(order, old(peers.Keys)) && (Abs(), cmds) == UpdateAgents(old(Abs()), m, order)
      ensures forall c <- cmds :: c.0 in heap
    {
      order := WalkOrder(peers.Keys);
      cmds := [];
      for i := 0 to |order|
        invariant Wf() && UpdateAgents(old(Abs()), m, order[..i]) == (Abs(), cmds)
        invariant forall c <- cmds :: c.0 in heap
      {
        Front(order, i);
        var more := UpdateAgentKey(m, order[i]);
        cmds := cmds + more;
      }
      assert order[..|order|] == order;
    }

    method AdmitAll(m: Registry) returns (order: seq<Key>)
      requires Wf() && KeyedByPub(m)
      modifies this`heap, this`peers, this`nextRef
      ensures Wf() && Grown() && Enumerates(order, m.Keys) && Abs() == MergeAgents(old(Abs()), m, order)
    {
      order := WalkOrder(m.Keys);
      for i := 0 to |order|
        invariant Wf() && Grown() && Abs() == MergeAgents(old(Abs()), m, order[..i])
      {
        Front(order, i);
        if order[i] !in peers { AddPeerLocked(m[order[i]], false); }
      }
      assert order[..|order|] == order;
    }

    method SendAgentCmds(cmds: seq<(Ref, string)>, now: Time)
      requires Wf() && forall c <- cmds :: c.0 in heap
      modifies this`log, heap.Values
      ensures Wf() && Abs() == SendCommands(old(Abs()), env, cmds, now)
    {
      for i := 0 to |cmds|
        invariant Wf() && Abs() == SendCommands(old(Abs()), env, cmds[..i], now)
      {
        Front(cmds, i);
        var _ := SendSealed(heap[cmds[i].0], AgentCmd, env.json(Command(cmds[i].1)), now);
      }
      assert cmds[..|cmds|] == cmds;
    }

    // ------------------------------------------------------------------- reloads

    /** The peers' configurations, as `rebuildTablesLocked` walks them. */
    method Configurations() returns (cfgs: Configs)
      requires Wf() && Sound(env, Abs(), None)
      ensures cfgs == ConfigsOf(Abs())
    {
      HintFacts(env, Abs(), None);
      cfgs := map[];
      var todo := peers.Keys;
      while todo != {}
        invariant todo <= peers.Keys
        invariant forall k <- peers :: k !in todo ==> peers[k] in cfgs
        invariant forall r <- cfgs :: Reg(Abs(), r) && cfgs[r] == heap[r].cfg
        decreases |todo|
      {
        var k :| k in todo;
        todo := todo - {k};
        cfgs := cfgs[peers[k] := heap[peers[k]].cfg];
      }
    }

    method NewTables() returns (t: Tables)
      requires Wf() && Sound(env, Abs(), None)
      ensures TablesFor(ConfigsOf(Abs()), t)
    {
      var cfgs := Configurations();
      t := RebuildTables(cfgs);
    }

    /** `rebuildTablesLocked`. */
    method RebuildTablesLocked()
      requires Wf() && Sound(env, Abs(), None)
      modifies this`tables
      ensures Wf() && Abs() == old(Abs()).(tables := tables) && TablesFor(ConfigsOf(old(Abs())), tables)
    {
      var t := NewTables();
      ghost var before := Abs();
      tables := t;
      assert Objs() == before.objs;
    }

    method RebuildIfServer()
      requires Wf() && Sound(env, Abs(), None)
      modifies this`tables
      ensures Wf() && Abs() == old(Abs()).(tables := tables)
      ensures if env.mode == Server then TablesFor(ConfigsOf(old(Abs())), tables) else tables == old(tables)
    {
      if env.mode == Server { RebuildTablesLocked(); }
    }

    /** A server builds its tables before the first packet. */
    method StartServer(ghost now: Time)
      requires Wf() && Inv(env, Abs()) && env.mode == Server
      modifies this`tables
      ensures Wf() && Inv(env, Abs()) && Abs() == Next(old(Abs()), env, Start(tables), now)
    {
      RebuildTablesLocked();
      StepOK(env, old(Abs()), Start(tables), now);
    }

    /** `applyRegistryLocked`. */
    method ApplyRegistry(m: Registry) returns (order1: seq<Key>, order2: seq<Key>)
      requires Wf() && Sound(env, Abs(), None) && ClientRegistry(m)
      modifies this`log, this`heap, this`peers, this`addr2peer, this`nextRef, heap.Values
      ensures Wf() && Grown() && Sound(env, Abs(), None) && Enumerates(order1, old(peers.Keys))
      ensures Enumerates(order2, m.Keys)
      ensures Abs() == ApplyClients(old(Abs()), m, order1, order2)
    {
      ghost var before := Abs();
      order1 := RevokeVanished(m);
      order2 := MergeAll(m);
      ApplyClientsOK(env, before, m, order1, order2);
    }

    /** `reloadClients` with the registry just parsed. */
    method ReloadClients(m: Registry, ghost now: Time) returns (order1: seq<Key>, order2: seq<Key>)
      requires Wf() && Inv(env, Abs()) && ClientRegistry(m)
      modifies this`log, this`heap, this`peers, this`addr2peer, this`nextRef, this`tables, heap.Values
      ensures Wf() && Grown() && Inv(env, Abs()) && Enumerates(order1, old(peers.Keys)) && Enumerates(order2, m.Keys)
      ensures Abs() == Next(old(Abs()), env, Action.ReloadClients(m, order1, order2, tables), now)
    {
      ghost var before := Abs();
      order1, order2 := ApplyRegistry(m);
      RebuildIfServer();
      ghost var a := Action.ReloadClients(m, order1, order2, tables);
      assert Abs() == Next(before, env, a, now);
      StepOK(env, before, a, now);
    }

    /** `applyAgentRegistryLocked`, then the rebuild, still under the lock. */
    method ApplyAgentRegistry(m: Registry) returns (cmds: seq<(Ref, string)>, order1: seq<Key>, order2: seq<Key>)
      requires Wf() && Sound(env, Abs(), None) && AgentRegistry(m)
      modifies this`log, this`heap, this`peers, this`addr2peer, this`nextRef, this`tables, heap.Values
      ensures Wf() && Grown() && Enumerates(order1, old(peers.Keys)) && Enumerates(order2, m.Keys)
      ensures cmds == ApplyAgents(old(Abs()), m, order1, order2).1 && forall c <- cmds :: c.0 in heap
      ensures TablesFor(ConfigsOf(ApplyAgents(old(Abs()), m, order1, order2).0), tables)
      ensures Abs() == ApplyAgents(old(Abs()), m, order1, order2).0.(tables := tables)
    {
      cmds, order1 := UpdateAll(m);
      order2 := AdmitAll(m);
      UpdateAgentsOK(env, old(Abs()), m, order1);
      MergeAgentsOK(env, UpdateAgents(old(Abs()), m, order1).0, m, order2);
      RebuildTablesLocked();
    }

    /** `reloadAgents` with the registry just parsed. */
    method ReloadAgents(m: Registry, now: Time) returns (order1: seq<Key>, order2: seq<Key>)
      requires Wf() && Inv(env, Abs()) && AgentRegistry(m)
      modifies this`log, this`heap, this`peers, this`addr2peer, this`nextRef, this`tables, heap.Values
      ensures Wf() && Grown() && Inv(env, Abs()) && Enumerates(order1, old(peers.Keys)) && Enumerates(order2, m.Keys)
      ensures Abs() == Next(old(Abs()), env, Action.ReloadAgents(m, order1, order2, tables), now)
    {
      ghost var before := Abs();
      var cmds;
      cmds, order1, order2 := ApplyAgentRegistry(m);
      ghost var a := Action.ReloadAgents(m, order1, order2, tables);
      assert Next(before, env, a, now) == SendCommands(Abs(), env, cmds, now);
      SendAgentCmds(cmds, now);
      assert Abs() == Next(before, env, a, now);
      StepOK(env, before, a, now);
    }

    // ------------------------------------------------------------------ sealing

    /** `sendSealed`. */
    method SendSealed(p: PeerState, typ: FrameType, payload: Payload, now: Time) returns (ok: bool)
      requires Wf() && Has(p)
      modifies this`log, p`cur, p`lastSend
      ensures Wf() && Abs() == Seal(old(Abs()), p.id, typ, payload, now) && ok == old(p.View().CanSeal())
    {
      var sealed := p.SealFrame(now);
      if sealed.None? {
        assert Objs() == old(Objs());
        return false;
      }
      log := log + [Sealed(sealed.value.0, sealed.value.1, typ, payload)];
      assert Objs() == old(Objs())[p.id := p.View()];
      return true;
    }

    /** `sendTo`. */
    method SendTo(p: PeerState, pkt: Payload, now: Time) returns (ok: bool)
      requires Wf() && Has(p)
      modifies this`log, p`cur, p`lastSend
      ensures Wf() && Abs() == Responder.SendTo(old(Abs()), p.id, pkt, now) && ok == old(CanSend(Abs(), p.id))
    {
      if p.cur.None? || !p.authed { return false; }
      ok := SendSealed(p, Data, pkt, now);
    }

    method DropPeer(p: PeerState)
      requires Wf() && Has(p)
      modifies this`log, p`cur, p`prev, p`authed
      ensures Wf() && Abs() == Drop(old(Abs()), p.id)
    {
      p.Drop();
      log := log + [Dropped(p.id)];
      assert Objs() == old(Objs())[p.id := p.View()];
    }

    // --------------------------------------------------------------- handshakes

    /** `handleHandshakeInit` once the first message authenticated `key`. */
    method HandleHandshakeInit(key: Key, addr: Endpoint, now: Time)
      requires Wf() && Inv(env, Abs())
      modifies this`log, this`addr2peer, this`nextKey, heap.Values
      ensures Wf() && Inv(env, Abs()) && Abs() == Next(old(Abs()), env, HandshakeMsg(key, addr), now)
    {
      StepOK(env, Abs(), HandshakeMsg(key, addr), now);
      Admit(key, addr, now);
    }

    method Admit(key: Key, addr: Endpoint, now: Time)
      requires Wf()
      modifies this`log, this`addr2peer, this`nextKey, heap.Values
      ensures Wf() && Abs() == Handshake(old(Abs()), env, key, addr, now)
    {
      if key !in peers { return; }
      var p := heap[peers[key]];
      if p.RequiresMFA() && now < p.lockedUntil { return; }
      var required := p.RequiresMFA() && !p.authed;
      Join(p, addr, now);
      Tell(p, AuthChallenge, Challenge(required), now);
    }

    /** A reply to the peer, then what the server says about itself. */
    method Tell(p: PeerState, typ: FrameType, reply: Reply, now: Time)
      requires Wf() && Has(p)
      modifies this`log, p`cur, p`lastSend
      ensures Wf()
      ensures Abs() == Seal(Seal(old(Abs()), p.id, typ, env.json(reply), now), p.id, Info, env.json(ServerInfo), now)
    {
      var _ := SendSealed(p, typ, env.json(reply), now);
      var _ := SendSealed(p, Info, env.json(ServerInfo), now);
    }

    method Join(p: PeerState, addr: Endpoint, now: Time)
      requires Wf() && Has(p)
      modifies this`log, this`addr2peer, this`nextKey, p
      ensures Wf() && Abs() == Install(old(Abs()), env, p.id, addr, now)
    {
      addr2peer := addr2peer[addr := p.id];
      p.Join(env, addr, nextKey, now);
      log := log + [Installed(p.id, nextKey, nextKey + 1, now)];
      nextKey := nextKey + 2;
      assert Objs() == old(Objs())[p.id := p.View()];
      assert Abs() == Emit(SetPeer(old(Abs()).(addr2peer := addr2peer, nextKey := nextKey), p.id, p.View()),
                           Installed(p.id, old(nextKey), old(nextKey) + 1, now));
    }

    // -------------------------------------------------------------------- codes

    /** `handleAuthResp`. */
    method HandleAuthResp(p: PeerState, payload: Payload, now: Time)
      requires Wf() && Has(p)
      modifies this`log, p
      ensures Wf() && Abs() == AuthResponse(old(Abs()), env, p.id, payload, now)
    {
      var m := env.codeOf(payload);
      if m.None? || !p.RequiresMFA() { return; }
      if p.authed {
        var _ := SendSealed(p, AuthResult, env.json(CodeOk), now);
        return;
      }
      if now < p.lockedUntil {
        var _ := SendSealed(p, AuthResult, env.json(CodeLocked), now);
        return;
      }
      var step := CheckTOTP(env.totp, p.cfg.totpSecret, m.value, now);
      if step.Some? && step.value >= p.lastStep {
        Accepts(p, m.value, step.value, now);
      } else {
        Rejects(p, now);
      }
    }

    method Accepts(p: PeerState, code: string, step: int, now: Time)
      requires Wf() && Has(p)
      modifies this`log, p
      ensures Wf() && Abs() == Passed(old(Abs()), env, p.id, code, step, now)
    {
      NotePass(p, code, step, now);
      Tell(p, AuthResult, CodeOk, now);
    }

    method NotePass(p: PeerState, code: string, step: int, now: Time)
      requires Wf() && Has(p)
      modifies this`log, p
      ensures Wf() && Abs() == Pass(old(Abs()), env, p.id, code, step, now)
    {
      p.Prove(step);
      log := log + [CodeAccepted(p.id, p.cfg.totpSecret, code, step, now)];
      assert Objs() == old(Objs())[p.id := p.View()];
    }

    method Rejects(p: PeerState, now: Time)
      requires Wf() && Has(p)
      modifies this`log, p
      ensures Wf() && Abs() == Failed(old(Abs()), env, p.id, now)
    {
      NoteFail(p, now);
      var attempts := p.attempts;
      assert attempts == Abs().objs[p.id].attempts;
      var _ := SendSealed(p, AuthResult, env.json(CodeWrong), now);
      if attempts >= 3 { DropPeer(p); }
    }

    method NoteFail(p: PeerState, now: Time)
      requires Wf() && Has(p)
      modifies this`log, p
      ensures Wf() && Abs() == Fail(old(Abs()), env, p.id, now)
    {
      p.Strike(now);
      log := log + [CodeRejected(p.id, now)];
      assert Objs() == old(Objs())[p.id := p.View()];
    }

    // -------------------------------------------------------------- data frames

    /** The bookkeeping once a candidate opened the frame. */
    method NoteFrame(p: PeerState, addr: Endpoint, f: Frame, now: Time, ghost before: State)
      requires Wf() && Has(p) && CanOpen(before, p.id, f, now)
      requires Abs() == before.(objs := before.objs[p.id := Opened(before.objs[p.id], f, now)])
      modifies this`log, this`addr2peer, p`lastRecv, p`addr
      ensures Wf() && Abs() == Accept(before, p.id, addr, f, now)
    {
      p.SeenAt(addr, now);
      addr2peer := addr2peer[addr := p.id];
      log := log + [Accepted(p.id, f.box.value.key, f.nonce, f.typ, f.box.value.payload)];
      assert Objs() == before.objs[p.id := Heard(before.objs[p.id], f, addr, now)];
    }

    /** One candidate; nothing changes unless it opens the frame. */
    method TryCandidate(p: PeerState, addr: Endpoint, f: Frame, now: Time) returns (ok: bool)
      requires Wf() && Has(p) && Sound(env, Abs(), None)
      modifies this`log, this`addr2peer, p`cur, p`prev, p`lastRecv, p`addr
      ensures Wf() && ok == OpenedBy(old(p.View()), f, now).Some?
      ensures !ok ==> Abs() == old(Abs())
      ensures ok ==> Opener(old(Abs()), f, now) == Some(p.id) && Abs() == Accept(old(Abs()), p.id, addr, f, now)
    {
      ghost var before := Abs();
      ok := p.TryPeer(f, now);
      assert Objs() == before.objs[p.id := p.View()];
      if ok {
        OpenerUnique(env, before, p.id, p.id, f, now);
        NoteFrame(p, addr, f, now, before);
      } else {
        assert Objs() == before.objs;
      }
    }

    /** Who the frame is from: the endpoint hint first, then every peer. */
    method FindPeer(addr: Endpoint, f: Frame, now: Time) returns (p: Option<PeerState>)
      requires Wf() && Sound(env, Abs(), None)
      modifies this`log, this`addr2peer, heap.Values
      ensures Wf() && Found(old(Abs()), p, addr, f, now)
    {
      if addr in addr2peer {
        var hint := addr2peer[addr];
        var ok := TryCandidate(heap[hint], addr, f, now);
        if ok { return Some(heap[hint]); }
        p := ScanPeers(Some(hint), addr, f, now);
      } else {
        p := ScanPeers(None, addr, f, now);
      }
    }

    ghost predicate Found(before: State, p: Option<PeerState>, addr: Endpoint, f: Frame, now: Time)
      reads this, heap.Values, if p.Some? then {p.value} else {}
    {
      match p
      case None => Opener(before, f, now) == None && Abs() == before
      case Some(c) =>
        Has(c) && CanOpen(before, c.id, f, now) && Opener(before, f, now) == Some(c.id)
        && Abs() == Accept(before, c.id, addr, f, now)
    }

    method ScanPeers(skip: Option<Ref>, addr: Endpoint, f: Frame, now: Time) returns (p: Option<PeerState>)
      requires Wf() && Sound(env, Abs(), None)
      requires skip.Some? ==> skip.value in Abs().objs && OpenedBy(Abs().objs[skip.value], f, now).None?
      modifies this`log, this`addr2peer, heap.Values
      ensures Wf() && Found(old(Abs()), p, addr, f, now)
    {
      ghost var before := Abs();
      var todo := peers.Keys;
      while todo != {}
        invariant todo <= peers.Keys && Wf() && Abs() == before
        invariant forall k <- peers :: k !in todo ==> OpenedBy(before.objs[peers[k]], f, now).None?
        decreases |todo|
      {
        var k :| k in todo;
        todo := todo - {k};
        if skip != Some(peers[k]) {
          var ok := TryCandidate(heap[peers[k]], addr, f, now);
          if ok { return Some(heap[peers[k]]); }
        }
      }
      NobodyOpens(before, f, now);
      return None;
    }

    // -------------------------------------------------------------------- relay

    /** `replyLocalICMP`: answer a ping to the hub's own address. */
    method AnswerPing(p: PeerState, pkt: Payload, now: Time)
      requires Wf() && Has(p) && |pkt| <= 65535 && ParseReturns(pkt)
      modifies this`log, this`counters, p`cur, p`lastSend
      ensures Wf() && Abs() == Answered(old(Abs()), p.id, pkt, now)
    {
      var reply := PingAnswer(pkt);
      if reply.Some? {
        var _ := SendTo(p, reply.value, now);
        Count(Local);
      }
    }

    /** The first half of `relayFromClient`: what is to happen to a packet from client `p`. */
    method RouteFromClient(p: PeerState, h: Header) returns (v: Verdict)
      requires Wf() && Has(p) && Reg(Abs(), p.id) && HubOf(Abs(), env).Valid()
      ensures v == FromClient(HubOf(Abs(), env), p.id, h.src, h.dst)
    {
      ghost var hub := HubOf(Abs(), env);
      assert hub.cfgs[p.id] == p.cfg;
      if p.cfg.tunnelIP.None? || h.src != p.cfg.tunnelIP.value { return Spoofed; }
      if env.localAddr.Some? && h.dst == env.localAddr.value { return Local; }
      var ag := None;
      if h.dst in tables.agentsByIP {
        ag := Some(tables.agentsByIP[h.dst]);
      } else {
        ag := RouteLookup(tables.routes, h.dst);
      }
      if ag.None? { return NoRoute; }
      AgentForIsAgent(hub, h.dst);
      var site := heap[ag.value];
      assert hub.cfgs[ag.value] == site.cfg;
      var allowed := ClientAllowed(p.cfg, site.cfg.Id());
      if !allowed { return Denied; }
      if !site.cfg.enabled || site.cur.None? || !site.authed { return Offline; }
      return ToAgent(ag.value);
    }

    /** The first half of `relayFromAgent`. */
    method RouteFromAgent(p: PeerState, h: Header) returns (v: Verdict)
      requires Wf() && Has(p) && Reg(Abs(), p.id) && HubOf(Abs(), env).Valid()
      ensures v == FromAgent(HubOf(Abs(), env), p.id, h.src, h.dst)
    {
      ghost var hub := HubOf(Abs(), env);
      assert hub.cfgs[p.id] == p.cfg;
      var mine := SourceAllowed(p.cfg, h.src);
      if !mine { return Spoofed; }
      if h.dst !in tables.clientsByIP { return NoRoute; }
      var client := heap[tables.clientsByIP[h.dst]];
      assert hub.cfgs[client.id] == client.cfg;
      var allowed := ClientAllowed(client.cfg, p.cfg.Id());
      if !allowed { return Denied; }
      if !client.cfg.enabled || client.cur.None? || !client.authed { return Offline; }
      return ToClient(client.id);
    }

    method Count(v: Verdict)
      requires Wf()
      modifies this`counters
      ensures Wf() && Abs() == Counted(old(Abs()), v)
    {
      match v {
        case Malformed => counters := counters.(malformed := counters.malformed + 1);
        case Spoofed => counters := counters.(spoofed := counters.spoofed + 1);
        case NoRoute => counters := counters.(noRoute := counters.noRoute + 1);
        case Denied => counters := counters.(denied := counters.denied + 1);
        case Offline => counters := counters.(offline := counters.offline + 1);
        case Local => counters := counters.(localICMP := counters.localICMP + 1);
        case ToAgent(_) =>
          counters := counters.(forwarded := counters.forwarded + 1, toAgents := counters.toAgents + 1);
        case ToClient(_) =>
          counters := counters.(forwarded := counters.forwarded + 1, toClients := counters.toClients + 1);
      }
      assert Objs() == old(Objs());
    }

    method Forward(to: PeerState, v: Verdict, pkt: Payload, now: Time)
      requires Wf() && Has(to)
      modifies this`log, this`counters, to`cur, to`lastSend
      ensures Wf() && Abs() == Forwarded(old(Abs()), to.id, v, pkt, now)
    {
      var ok := SendTo(to, pkt, now);
      if ok { Count(v); }
    }

    /** The second half: send it on, answer it, or count why not. */
    method CarryOut(p: PeerState, v: Verdict, pkt: Payload, now: Time)
      requires Wf() && Has(p) && |pkt| <= 65535 && ParseReturns(pkt)
      requires v.Local? ==> Parse(pkt).Some?
      requires v.ToAgent? ==> v.agent in heap
      requires v.ToClient? ==> v.client in heap
      modifies this`log, this`counters, heap.Values
      ensures Wf() && Abs() == Act(old(Abs()), p.id, v, pkt, now)
    {
      if v.ToAgent? {
        Forward(heap[v.agent], v, pkt, now);
      } else if v.ToClient? {
        Forward(heap[v.client], v, pkt, now);
      } else if v.Local? {
        AnswerPing(p, pkt, now);
      } else {
        Count(v);
      }
    }

    method RouteByRole(p: PeerState, h: Header) returns (v: Verdict)
      requires Wf() && Has(p) && Reg(Abs(), p.id) && HubOf(Abs(), env).Valid()
      ensures v == ByRole(HubOf(Abs(), env), p.id, h)
    {
      assert HubOf(Abs(), env).cfgs[p.id] == p.cfg;
      if p.cfg.role == RoleAgent { v := RouteFromAgent(p, h); } else { v := RouteFromClient(p, h); }
    }

    method Route(p: PeerState, pkt: Payload) returns (v: Verdict)
      requires Wf() && Has(p) && Reg(Abs(), p.id) && HubOf(Abs(), env).Valid() && ParseReturns(pkt)
      ensures v == Decide(HubOf(Abs(), env), p.id, pkt)
      ensures v.Local? ==> Parse(pkt).Some?
    {
      var h := ParseIPHeader(pkt);
      if h.None? { return Malformed; }
      v := RouteByRole(p, h.value);
    }

    /** `relayFromPeer`. */
    method RelayFromPeer(p: PeerState, pkt: Payload, now: Time)
      requires Wf() && Has(p) && Reg(Abs(), p.id) && HubOf(Abs(), env).Valid()
      requires |pkt| <= 65535 && ParseReturns(pkt)
      modifies this`log, this`counters, heap.Values
      ensures Wf() && Abs() == Act(old(Abs()), p.id, Decide(HubOf(old(Abs()), env), p.id, pkt), pkt, now)
    {
      var v := Route(p, pkt);
      if Parse(pkt).Some? { ForwardedIsLegitimate(HubOf(Abs(), env), p.id, pkt); }
      CarryOut(p, v, pkt, now);
    }

    /** `deliverData`. */
    method DeliverData(p: PeerState, pkt: Payload, now: Time)
      requires Wf() && Has(p) && Reg(Abs(), p.id)
      requires env.mode == Server ==> HubOf(Abs(), env).Valid() && |pkt| <= 65535 && ParseReturns(pkt)
      modifies this`log, this`counters, heap.Values
      ensures Wf() && Abs() == Deliver(old(Abs()), env, p.id, pkt, now)
    {
      if pkt == [] { return; }
      ghost var before := Abs();
      log := log + [Delivered(p.id, p.cfg.totpSecret, pkt)];
      assert Objs() == before.objs;
      ghost var s1 := Abs();
      assert HubOf(s1, env) == HubOf(before, env);
      if env.mode == Server { RelayFromPeer(p, pkt, now); }
    }

    /** The second half of `handleData`: what an accepted frame is for. */
    method DispatchFrame(p: PeerState, typ: FrameType, payload: Payload, now: Time)
      requires Wf() && Has(p) && Reg(Abs(), p.id) && (env.mode == Server ==> HubOf(Abs(), env).Valid())
      requires env.mode == Server && typ == Data && (p.RequiresMFA() ==> p.authed) ==>
        |payload| <= 65535 && ParseReturns(payload)
      modifies this`log, this`counters, heap.Values
      ensures Wf() && Abs() == Dispatch(old(Abs()), env, p.id, typ, payload, now)
    {
      var gate := p.RequiresMFA() && !p.authed;
      if typ == Bye {
        DropPeer(p);
      } else if typ == AuthResp {
        HandleAuthResp(p, payload, now);
      } else if typ == Data && !gate {
        DeliverData(p, payload, now);
      }
    }

    /** `handleData`. On a server the relay never returns from a payload whose IPv6 header walk spins. */
    method HandleData(addr: Endpoint, f: Frame, now: Time)
      requires Wf() && Inv(env, Abs())
      requires ToBeRelayed(Abs(), env, f, now) ==> |f.box.value.payload| <= 65535 && ParseReturns(f.box.value.payload)
      modifies this`log, this`addr2peer, this`counters, heap.Values
      ensures Wf() && Inv(env, Abs()) && Abs() == Next(old(Abs()), env, DataFrame(addr, f), now)
    {
      ghost var before := Abs();
      StepOK(env, before, DataFrame(addr, f), now);
      var p := FindPeer(addr, f, now);
      if p.Some? {
        AcceptOK(env, before, p.value.id, addr, f, now);
        SamePeer(before, Abs(), p.value.id);
        KeepsInv(env, before, Abs());
        DispatchFrame(p.value, f.typ, f.box.value.payload, now);
      }
    }

    // ------------------------------------------------------------------ packets

    /** A handshake message: the limiter first. `hello` is the key the message authenticates, if any. */
    method HandleHello(limiter: Limiter, ip: string, addr: Endpoint, hello: Option<Key>, now: Time)
        returns (ghost rest: Buckets)
      requires Wf() && Inv(env, Abs()) && limiter.Valid()
      modifies this`log, this`addr2peer, this`nextKey, this`counters, heap.Values, limiter
      ensures Wf() && Inv(env, Abs()) && limiter.Valid()
      ensures Kept(old(limiter.buckets), ip, rest) && limiter.buckets == After(Call(ip, now, rest))
      ensures Abs() == Packets.PacketStep(old(Abs()), env, Packets.Hello(hello, addr, Call(ip, now, rest)))
    {
      ghost var before := Abs();
      var ok;
      ok, rest := limiter.Allow(ip, now);
      assert Objs() == before.objs;
      if ok && hello.Some? { HandleHandshakeInit(hello.value, addr, now); }
    }

    /** `handlePacket` on a hub; `box` is what the ciphertext of a data frame holds, if anybody sealed it. */
    method HandlePacket(limiter: Limiter, ip: string, addr: Endpoint, b: seq<byte>, hello: Option<Key>,
                        box: Option<Box>, now: Time)
        returns (ghost rest: Buckets)
      requires Wf() && Inv(env, Abs()) && limiter.Valid()
      requires Classify(b).Boxed? && ToBeRelayed(Abs(), env, Frame(Classify(b).typ, Classify(b).nonce, box), now) ==>
        |box.value.payload| <= 65535 && ParseReturns(box.value.payload)
      modifies this`log, this`addr2peer, this`nextKey, this`counters, heap.Values, limiter
      ensures Wf() && Inv(env, Abs()) && limiter.Valid()
      ensures !Classify(b).Hello? ==> limiter.buckets == old(limiter.buckets) && limiter.dropped == old(limiter.dropped)
      ensures Classify(b).Hello? ==>
        && Kept(old(limiter.buckets), ip, rest) && limiter.buckets == After(Call(ip, now, rest))
        && Abs() == Packets.PacketStep(old(Abs()), env, Packets.Hello(hello, addr, Call(ip, now, rest)))
      ensures Classify(b).Boxed? ==> var f := Frame(Classify(b).typ, Classify(b).nonce, box);
        Abs() == Packets.PacketStep(old(Abs()), env, Packets.Other(DataFrame(addr, f), now))
      ensures !Classify(b).Hello? && !Classify(b).Boxed? ==> Abs() == old(Abs())
    {
      rest := limiter.buckets;
      match Classify(b) {
        case Hello(_) => rest := HandleHello(limiter, ip, addr, hello, now);
        case Boxed(t, n, _) => HandleData(addr, Frame(t, n, box), now);
        case _ =>
      }
    }

    // --------------------------------------------------------------------- tick

    /** The self-healing line and the two timeouts that only need a clock. */
    method AgePeer(p: PeerState, now: Time)
      requires Wf() && Has(p)
      modifies this`log, p`authed, p`cur, p`prev
      ensures Wf() && Abs() == Aged(old(Abs()), env, p.id, now)
    {
      p.Expire(now);
      assert Objs() == old(Objs())[p.id := p.View()];
      assert Abs() == ExpirePrev(Heal(old(Abs()), p.id), p.id, now);
      if p.cur.Some? && now - p.lastRecv > env.deadTimeout { DropPeer(p); }
    }

    method WatchMfa(p: PeerState, now: Time)
      requires Wf() && Has(p)
      modifies this`log, p
      ensures Wf() && Abs() == MfaWatch(old(Abs()), env, p.id, now)
    {
      if p.RequiresMFA() && p.cur.Some? && !p.authed {
        if now >= p.authDeadline {
          DropPeer(p);
        } else if now - p.challengeAt > CHALLENGE_RETRY {
          AskAgain(p, now);
        }
      }
    }

    method AskAgain(p: PeerState, now: Time)
      requires Wf() && Has(p)
      modifies this`log, p
      ensures Wf() && Abs() == ChallengeAgain(old(Abs()), env, p.id, now)
    {
      var ok := SendSealed(p, AuthChallenge, env.json(Challenge(true)), now);
      if ok { NoteAsked(p, now); }
    }

    method NoteAsked(p: PeerState, now: Time)
      requires Wf() && Has(p)
      modifies p`challengeAt
      ensures Wf() && Abs() == SetPeer(old(Abs()), p.id, old(Abs()).objs[p.id].AskedAt(now))
    {
      p.challengeAt := now;
      assert p.View() == old(p.View()).AskedAt(now);
      assert Objs() == old(Objs())[p.id := p.View()];
    }

    method RepeatDisable(p: PeerState, now: Time)
      requires Wf() && Has(p)
      modifies this`log, p
      ensures Wf() && Abs() == StandDown(old(Abs()), env, p.id, now)
    {
      if p.View().IsStoodDown(env) && now - p.cmdAt > CMD_RETRY {
        p.cmdAt := now;
        assert p.View() == old(p.View()).ToldAt(now);
        assert Objs() == old(Objs())[p.id := p.View()];
        var _ := SendSealed(p, AgentCmd, env.json(Command("disable")), now);
      }
    }

    method TickOne(p: PeerState, now: Time)
      requires Wf() && Has(p)
      modifies this`log, p
      ensures Wf() && Abs() == TickPeer(old(Abs()), env, p.id, now)
    {
      AgePeer(p, now);
      WatchMfa(p, now);
      RepeatDisable(p, now);
      if p.cur.Some? && now - p.lastSend > env.keepalive {
        var _ := SendSealed(p, Keepalive, [], now);
      }
    }

    method TickEach(now: Time) returns (order: seq<Key>)
      requires Wf()
      modifies this`log, heap.Values
      ensures Wf() && Enumerates(order, peers.Keys) && Abs() == TickAll(old(Abs()), env, order, now)
    {
      order := WalkOrder(peers.Keys);
      for i := 0 to |order|
        invariant Wf() && Abs() == TickAll(old(Abs()), env, order[..i], now)
      {
        Front(order, i);
        TickOne(heap[peers[order[i]]], now);
      }
      assert order[..|order|] == order;
    }

    /** `tick`. */
    method Tick(now: Time) returns (order: seq<Key>)
      requires Wf() && Inv(env, Abs())
      modifies this`log, heap.Values
      ensures Wf() && Inv(env, Abs()) && Enumerates(order, peers.Keys)
      ensures Abs() == Next(old(Abs()), env, TickNow(order), now)
    {
      order := TickEach(now);
      StepOK(env, old(Abs()), TickNow(order), now);
    }

    // -------------------------------------------------------- operator commands

    /** `agentByIDLocked`. */
    method AgentByID(id: string) returns (p: Option<PeerState>)
      requires Wf() && Sound(env, Abs(), None)
      ensures p.None? ==> forall r :: !IsAgent(Abs(), r, id)
      ensures p.Some? ==> Has(p.value) && IsAgent(Abs(), p.value.id, id)
    {
      HintFacts(env, Abs(), None);
      var todo := peers.Keys;
      while todo != {}
        invariant todo <= peers.Keys
        invariant forall k <- peers :: k !in todo ==> !IsAgent(Abs(), peers[k], id)
        decreases |todo|
      {
        var k :| k in todo;
        todo := todo - {k};
        var p := heap[peers[k]];
        if p.cfg.role == RoleAgent && p.cfg.Id() == id { return Some(p); }
      }
      forall r | Reg(Abs(), r) ensures !IsAgent(Abs(), r, id) { assert r == peers[Abs().objs[r].cfg.pub]; }
      return None;
    }

    /** `KickAgent`: tell it first, then drop our side. */
    method KickAgent(id: string, now: Time) returns (found: bool, ghost r: Ref)
      requires Wf() && Inv(env, Abs())
      modifies this`log, heap.Values
      ensures Wf() && Inv(env, Abs())
      ensures found ==> IsAgent(old(Abs()), r, id) && Abs() == Next(old(Abs()), env, KickPeer(r), now)
      ensures !found ==> Abs() == old(Abs()) && forall q :: !IsAgent(old(Abs()), q, id)
    {
      var p := AgentByID(id);
      if p.None? { return false, 0; }
      r := p.value.id;
      ghost var after := Next(Abs(), env, KickPeer(r), now);
      StepOK(env, Abs(), KickPeer(r), now);
      assert after == Kick(Abs(), env, r, now);
      KickPeerState(p.value, now);
      assert Abs() == after;
      return true, r;
    }

    /** `RefreshAgent`. */
    method RefreshAgent(id: string, now: Time) returns (found: bool, ghost r: Ref)
      requires Wf() && Inv(env, Abs())
      modifies this`log, heap.Values
      ensures Wf() && Inv(env, Abs())
      ensures found ==> IsAgent(old(Abs()), r, id) && Abs() == Next(old(Abs()), env, RefreshPeer(r), now)
      ensures !found ==> Abs() == old(Abs()) && forall q :: !IsAgent(old(Abs()), q, id)
    {
      var p := AgentByID(id);
      if p.None? { return false, 0; }
      r := p.value.id;
      ghost var after := Next(Abs(), env, RefreshPeer(r), now);
      StepOK(env, Abs(), RefreshPeer(r), now);
      assert after == Refresh(Abs(), env, r, now);
      var _ := SendSealed(p.value, AgentCmd, env.json(Command("stat")), now);
      assert Abs() == after;
      return true, r;
    }

    method KickPeerState(p: PeerState, now: Time)
      requires Wf() && Has(p)
      modifies this`log, p
      ensures Wf() && Abs() == Kick(old(Abs()), env, p.id, now)
    {
      if p.cur.Some? {
        var _ := SendSealed(p, AgentCmd, env.json(Command("kick")), now);
        DropPeer(p);
      }
    }

    /** `sendData`. */
    method SendToAll(pkt: Payload, now: Time) returns (order: seq<Key>)
      requires Wf()
      modifies this`log, heap.Values
      ensures Wf() && Enumerates(order, peers.Keys) && Abs() == SendData(old(Abs()), order, pkt, now)
    {
      order := WalkOrder(peers.Keys);
      for i := 0 to |order|
        invariant Wf() && Abs() == SendData(old(Abs()), order[..i], pkt, now)
      {
        Front(order, i);
        var _ := SendTo(heap[peers[order[i]]], pkt, now);
      }
      assert order[..|order|] == order;
    }

    /** `sendFromTun` on a gateway: the packet goes to everybody connected and authenticated. */
    method SendFromTun(pkt: Payload, now: Time) returns (order: seq<Key>)
      requires Wf() && Inv(env, Abs()) && env.mode == Gateway
      modifies this`log, heap.Values
      ensures Wf() && Inv(env, Abs()) && (pkt != [] ==> Enumerates(order, peers.Keys))
      ensures Abs() == Next(old(Abs()), env, TunPacket(order, pkt), now)
    {
      order := [];
      if pkt == [] { return; }
      order := SendToAll(pkt, now);
      StepOK(env, old(Abs()), TunPacket(order, pkt), now);
    }
  }

  /** The order in which a `range` over a map may come, all keys at once. */
  method WalkOrder(keys: set<Key>) returns (order: seq<Key>)
    ensures Enumerates(order, keys)
  {
    order := [];
    var todo := keys;
    while todo != {}
      invariant todo <= keys && Enumerates(order, keys - todo)
      decreases |todo|
    {
      var k :| k in todo;
      todo, order := todo - {k}, order + [k];
    }
  }

  lemma Front<T>(order: seq<T>, i: nat)
    requires i < |order|
    ensures order[..i + 1][..i] == order[..i] && order[..i + 1][i] == order[i] && order[i] in order
  {
  }

  ghost predicate IsAgent(s: State, r: Ref, id: string) {
    Reg(s, r) && s.objs[r].cfg.role == RoleAgent && s.objs[r].cfg.Id() == id
  }

  /** The answer to a packet for the hub's own address, if it is a ping. */
  method PingAnswer(pkt: Payload) returns (reply: Option<Payload>)
    requires |pkt| <= 65535 && ParseReturns(pkt)
    ensures reply == PingAnswerOf(pkt)
  {
    var h := ParseIPHeader(pkt);
    if h.None? { return None; }
    ParsedShape(pkt);
    var buf := new byte[|pkt|](i requires 0 <= i < |pkt| => pkt[i]);
    assert buf[..] == pkt;
    var ok := ReplyLocalICMP(buf, h.value);
    return if ok then Some(buf[..]) else None;
  }

  lemma NobodyOpens(s: State, f: Frame, now: Time)
    requires forall k <- s.peers :: s.peers[k] in s.objs && OpenedBy(s.objs[s.peers[k]], f, now).None?
    ensures Opener(s, f, now) == None
  {
    forall r | Reg(s, r) ensures !CanOpen(s, r, f, now) { assert s.peers[s.objs[r].cfg.pub] == r; }
  }
}
