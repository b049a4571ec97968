/** Every state a run of the hub can reach, and what the outside may rely on. */
module ResponderRuns {
  import opened Wrappers
  import opened Addresses
  import opened IpHeaders
  import opened Peers
  import opened Routing
  import opened Relay
  import opened Trace
  import opened Responder
  import opened ResponderInvariant
  import opened ResponderSafety
  import opened RegistryReload

  lemma {:induction false} InitialOK(env: Env, statics: seq<PeerConfig>)
    ensures Inv(env, Initial(statics)) && Initial(statics).tables == NO_TABLES
    ensures forall r <- Initial(statics).objs :: Initial(statics).objs[r] == Initial(statics).objs[r].NoSessions()
  {
    if statics == [] {
      assert Core(env, EMPTY, None);
    } else {
      var s := Initial(statics[..|statics| - 1]);
      InitialOK(env, statics[..|statics| - 1]);
      HintFacts(env, s, None);
      AddPeerOK(env, s, statics[|statics| - 1], true);
    }
  }

  lemma TablesOK(env: Env, s: State, t: Tables)
    requires Sound(env, s, None) && (env.mode == Server ==> TablesFor(ConfigsOf(s), t))
    ensures Inv(env, s.(tables := t))
  {
    var s2 := s.(tables := t);
    assert Core(env, s, None) by { assert Look(0); }
    assert forall r :: Reg(s2, r) == Reg(s, r);
    assert ConfigsOf(s2) == ConfigsOf(s);
    if env.mode == Server { CompleteIsSound(ConfigsOf(s), t); }
  }

  lemma KeepsInv(env: Env, s: State, s2: State)
    requires Inv(env, s) && Keeps(env, s, s2)
    ensures Inv(env, s2)
  {
    SameConfigs(s, s2);
  }

  lemma ReloadClientsOK(env: Env, s: State, a: Action, now: Time)
    requires Inv(env, s) && a.ReloadClients?
    ensures Inv(env, Next(s, env, a, now))
  {
    if ClientRegistry(a.m) {
      var s1 := ApplyClients(s, a.m, a.order1, a.order2);
      ApplyClientsOK(env, s, a.m, a.order1, a.order2);
      if env.mode == Server && TablesFor(ConfigsOf(s1), a.tables) { TablesOK(env, s1, a.tables); }
    }
  }

  lemma ReloadAgentsOK(env: Env, s: State, a: Action, now: Time)
    requires Inv(env, s) && a.ReloadAgents?
    ensures Inv(env, Next(s, env, a, now))
  {
    if AgentRegistry(a.m) {
      var s1 := ApplyAgents(s, a.m, a.order1, a.order2).0;
      UpdateAgentsOK(env, s, a.m, a.order1);
      MergeAgentsOK(env, UpdateAgents(s, a.m, a.order1).0, a.m, a.order2);
      if TablesFor(ConfigsOf(s1), a.tables) {
        TablesOK(env, s1, a.tables);
        var s2, cmds := s1.(tables := a.tables), ApplyAgents(s, a.m, a.order1, a.order2).1;
        SendCommandsOK(env, s2, cmds, now);
        KeepsInv(env, s2, SendCommands(s2, env, cmds, now));
      }
    }
  }

  /** Every action keeps the invariant. */
  lemma StepOK(env: Env, s: State, a: Action, now: Time)
    requires Inv(env, s)
    ensures Inv(env, Next(s, env, a, now))
  {
    match a
    case HandshakeMsg(key, addr) => HandshakeOK(env, s, key, addr, now); KeepsInv(env, s, Next(s, env, a, now));
    case DataFrame(addr, f) => HandleDataOK(env, s, addr, f, now); KeepsInv(env, s, Next(s, env, a, now));
    case TickNow(order) => TickAllOK(env, s, order, now); KeepsInv(env, s, Next(s, env, a, now));
    case Start(t) => if env.mode == Server && TablesFor(ConfigsOf(s), t) { TablesOK(env, s, t); }
    case ReloadClients(_, _, _, _) => ReloadClientsOK(env, s, a, now);
    case ReloadAgents(_, _, _, _) => ReloadAgentsOK(env, s, a, now);
    case KickPeer(r) => KickOK(env, s, r, now); KeepsInv(env, s, Kick(s, env, r, now));
    case RefreshPeer(r) =>
      SealOK(env, s, r, AgentCmd, env.json(Command("stat")), now, None); KeepsInv(env, s, Refresh(s, env, r, now));
    case TunPacket(order, pkt) => SendDataOK(env, s, order, pkt, now); KeepsInv(env, s, SendData(s, order, pkt, now));
  }

  /** Every run of the hub stays within the invariant. */
  lemma {:induction false} RunOK(env: Env, statics: seq<PeerConfig>, actions: seq<(Action, Time)>)
    ensures Inv(env, Exec(env, statics, actions))
  {
    if actions == [] {
      InitialOK(env, statics);
    } else {
      var front, last := actions[..|actions| - 1], actions[|actions| - 1];
      RunOK(env, statics, front);
      StepOK(env, Exec(env, statics, front), last.0, last.1);
    }
  }

  lemma RunLogOK(env: Env, statics: seq<PeerConfig>, actions: seq<(Action, Time)>)
    ensures LogOK(env.totp, Exec(env, statics, actions).log)
  {
    RunOK(env, statics, actions);
    assert Look(0);
  }

  // ------------------------------------------------- theorems about every run

  /** The auth gate over whole runs: whatever is delivered from a peer with a secret was preceded
      by a right code for that secret, with no loss of the sessions (timeout, bye, kick, MFA
      failure, revocation) and no new secret in between. */
  lemma DeliveredNeedsCode(env: Env, statics: seq<PeerConfig>, actions: seq<(Action, Time)>, i: nat) returns (j: nat)
    requires var log := Exec(env, statics, actions).log; i < |log| && log[i].Delivered? && log[i].secret != ""
    ensures var log := Exec(env, statics, actions).log;
      && j < i && log[j].CodeAccepted? && log[j].peer == log[i].peer && log[j].secret == log[i].secret
      && env.totp(log[j].secret, log[j].step) == Some(log[j].code)
      && ClockStep(log[j].at) - 1 <= log[j].step <= ClockStep(log[j].at) + 1
      && forall k | j < k < i :: !Invalidates(log[k], log[i].peer)
  {
    RunLogOK(env, statics, actions);
    j := CodeBeforeData(env.totp, Exec(env, statics, actions).log, i);
  }

  /** At most once, whatever the network repeats or reorders: two deliveries never come from the
      same frame, and what is delivered is what the frame carried. */
  lemma DeliveredOnce(env: Env, statics: seq<PeerConfig>, actions: seq<(Action, Time)>, i: nat, j: nat)
    requires var log := Exec(env, statics, actions).log; i < j < |log| && log[i].Delivered? && log[j].Delivered?
    ensures var log := Exec(env, statics, actions).log;
      && i > 0 && log[i - 1].Accepted? && log[i - 1].peer == log[i].peer && log[i - 1].payload == log[i].payload
      && log[j - 1].Accepted? && (log[i - 1].key != log[j - 1].key || log[i - 1].nonce != log[j - 1].nonce)
  {
    RunLogOK(env, statics, actions);
    var log := Exec(env, statics, actions).log;
    DeliveredWasAccepted(env.totp, log, i);
    DeliveredWasAccepted(env.totp, log, j);
    if log[i - 1].key == log[j - 1].key { AcceptedOnce(env.totp, log, i - 1, j - 1); }
  }

  /** No key ever seals two frames under one nonce, across every place that seals. */
  lemma NoncesNeverReused(env: Env, statics: seq<PeerConfig>, actions: seq<(Action, Time)>, i: nat, j: nat)
    requires var log := Exec(env, statics, actions).log;
      i < j < |log| && log[i].Sealed? && log[j].Sealed? && log[i].key == log[j].key
    ensures var log := Exec(env, statics, actions).log; log[i].nonce < log[j].nonce
  {
    RunLogOK(env, statics, actions);
    SealedOnce(env.totp, Exec(env, statics, actions).log, i, j);
  }

  /** Revocation is permanent: no frame of sessions that were dropped is accepted again. */
  lemma RevokedStaysRevoked(env: Env, statics: seq<PeerConfig>, actions: seq<(Action, Time)>, i: nat, j: nat, k: nat)
    requires var log := Exec(env, statics, actions).log;
      && i < j < k < |log| && log[i].Installed? && log[j].Dropped? && log[j].peer == log[i].peer && log[k].Accepted?
    ensures var log := Exec(env, statics, actions).log; log[k].key !in {log[i].sendKey, log[i].recvKey}
  {
    RunLogOK(env, statics, actions);
    DroppedForGood(env.totp, Exec(env, statics, actions).log, i, j, k);
  }

  /** A code step, once passed, is never accepted again from that peer. */
  lemma CodesNeverGoBack(env: Env, statics: seq<PeerConfig>, actions: seq<(Action, Time)>, i: nat, j: nat)
    requires var log := Exec(env, statics, actions).log;
      && i < j < |log| && log[i].CodeAccepted? && log[j].CodeAccepted? && log[i].peer == log[j].peer
    ensures var log := Exec(env, statics, actions).log; log[i].step <= log[j].step
  {
    RunLogOK(env, statics, actions);
    StepsNeverDecrease(env.totp, Exec(env, statics, actions).log, i, j);
  }

  /** Three strikes: between handshakes at most three wrong codes are evaluated, and after the
      third nothing is accepted before a handshake at least 30 seconds later. */
  lemma GuessesAreLimited(env: Env, statics: seq<PeerConfig>, actions: seq<(Action, Time)>, r: Ref, i: nat, j: nat)
    requires var log := Exec(env, statics, actions).log; i < j < |log| && forall k | i < k < j :: !Clears(log[k], r)
    ensures var log := Exec(env, statics, actions).log;
      && WrongIn(log, r, i + 1, j) <= 3
      && (log[i].CodeRejected? && log[i].peer == r && WatchOf(log[..i], r).wrong == 2 ==>
            && !(log[j].Accepted? && log[j].peer == r)
            && (log[j].Installed? && log[j].peer == r ==> log[j].at >= log[i].at + 30 * SECOND))
  {
    RunLogOK(env, statics, actions);
    var log := Exec(env, statics, actions).log;
    ThreeStrikes(env.totp, log, r, i + 1, j);
    if log[i].CodeRejected? && log[i].peer == r && WatchOf(log[..i], r).wrong == 2 {
      LockedOut(env.totp, log, r, i, j);
    }
  }

  // ------------------------------------------ theorems about every reachable state

  ghost predicate Reachable(env: Env, s: State) {
    exists statics, actions :: s == Exec(env, statics, actions)
  }

  lemma ReachableOK(env: Env, s: State)
    requires Reachable(env, s)
    ensures Inv(env, s) && Keyed(s)
  {
    var statics, actions :| s == Exec(env, statics, actions);
    RunOK(env, statics, actions);
    assert Look(0);
  }

  /** A peer without a secret is authenticated; one with a secret and no session is not; a previous
      session exists only beside a current one. So `tick` never has anything to heal. */
  lemma GateIsCoherent(env: Env, s: State, k: Key)
    requires Reachable(env, s) && k in s.peers
    ensures s.peers[k] in s.objs
    ensures var p := s.objs[s.peers[k]];
      && (!p.RequiresMFA() ==> p.authed) && (p.RequiresMFA() && p.cur.None? ==> !p.authed)
      && (p.prev.Some? ==> p.cur.Some?)
    ensures Heal(s, s.peers[k]) == s
  {
    ReachableOK(env, s);
    HintFacts(env, s, None);
    PeerFacts(env, s, s.peers[k], None);
  }

  lemma OpenerIsLive(env: Env, s: State, r: Ref, f: Frame, now: Time)
    requires Sound(env, s, None) && r in s.objs && OpenedBy(s.objs[r], f, now).Some?
    ensures Reg(s, r) && f.box.Some? && f.box.value.key in WatchOf(s.log, r).live && LogOK(env.totp, s.log)
  {
    PeerFacts(env, s, r, None);
  }

  /** At most one peer object can open a frame, and it is a registered one. */
  lemma OpenerUnique(env: Env, s: State, r: Ref, q: Ref, f: Frame, now: Time)
    requires Sound(env, s, None) && r in s.objs && q in s.objs
    requires OpenedBy(s.objs[r], f, now).Some? && OpenedBy(s.objs[q], f, now).Some?
    ensures r == q && Opener(s, f, now) == Some(r)
  {
    OpenerIsLive(env, s, r, f, now);
    OpenerIsLive(env, s, q, f, now);
    assert CanOpen(s, r, f, now);
    var o := Opener(s, f, now).value;
    OpenerIsLive(env, s, o, f, now);
    if r != q { LiveDisjoint(env.totp, s.log, r, q); }
    if r != o { LiveDisjoint(env.totp, s.log, r, o); }
  }

  /** The peer `handleData` would settle on: the hint when it opens the frame, else the first of
      the peers, in whatever order the map yields them. */
  function HintThenScan(s: State, addr: Endpoint, order: seq<Key>, f: Frame, now: Time): Option<Ref> {
    if addr in s.addr2peer && s.addr2peer[addr] in s.objs && OpenedBy(s.objs[s.addr2peer[addr]], f, now).Some?
    then Some(s.addr2peer[addr])
    else Scan(s, order, f, now)
  }

  function Scan(s: State, order: seq<Key>, f: Frame, now: Time): Option<Ref> {
    if order == [] then None
    else
      var k := order[0];
      if k in s.peers && s.peers[k] in s.objs && OpenedBy(s.objs[s.peers[k]], f, now).Some? then Some(s.peers[k])
      else Scan(s, order[1..], f, now)
  }

  lemma {:induction false} ScanFinds(s: State, order: seq<Key>, f: Frame, now: Time)
    ensures var o := Scan(s, order, f, now);
      && (o.Some? ==> o.value in s.objs && OpenedBy(s.objs[o.value], f, now).Some?)
      && (o.None? ==> forall k <- order ::
            k in s.peers && s.peers[k] in s.objs ==> OpenedBy(s.objs[s.peers[k]], f, now).None?)
  {
    if order != [] {
      ScanFinds(s, order[1..], f, now);
      assert order == [order[0]] + order[1..];
    }
  }

  /** Endpoint hints are only a shortcut: stale or not, they never change who a frame is from. */
  lemma HintIsIrrelevant(env: Env, s: State, addr: Endpoint, order: seq<Key>, f: Frame, now: Time)
    requires Sound(env, s, None) && Enumerates(order, s.peers.Keys)
    ensures HintThenScan(s, addr, order, f, now) == Opener(s, f, now)
  {
    ScanFinds(s, order, f, now);
    var o, c := Opener(s, f, now), HintThenScan(s, addr, order, f, now);
    if o.Some? { assert s.objs[o.value].cfg.pub in order; }
    if c.Some? { OpenerUnique(env, s, c.value, c.value, f, now); }
  }

  /** Relay safety wherever the invariant holds - in every reachable state of a server and in every state
      inside a handler: tables name registered peers only, and a packet that is forwarded crosses
      between a client and an agent its ACL names. */
  lemma RelayIsSafe(env: Env, s: State, r: Ref, pkt: Payload)
    requires Inv(env, s) && env.mode == Server && Reg(s, r) && ParseReturns(pkt)
    ensures HubOf(s, env).Valid() && s.counters.forwarded == s.counters.toAgents + s.counters.toClients
    ensures match Decide(HubOf(s, env), r, pkt)
      case ToAgent(a) =>
        && Reg(s, a) && s.objs[r].cfg.role == RoleClient && s.objs[a].cfg.role == RoleAgent
        && Allows(s.objs[r].cfg, s.objs[a].cfg.Id()) && s.objs[a].cfg.enabled && s.objs[a].cur.Some? && s.objs[a].authed
      case ToClient(c) =>
        && Reg(s, c) && s.objs[r].cfg.role == RoleAgent && s.objs[c].cfg.role == RoleClient
        && Allows(s.objs[c].cfg, s.objs[r].cfg.Id()) && s.objs[c].cfg.enabled && s.objs[c].cur.Some? && s.objs[c].authed
      case _ => true
  {
    assert Core(env, s, None) by { assert Look(0); }
    if Parse(pkt).Some? { ForwardedIsLegitimate(HubOf(s, env), r, pkt); }
  }

  /** A rekey never asks an authenticated peer for another code, and the old session goes on
      serving frames in flight until its grace ends. */
  lemma RekeyKeepsAuth(env: Env, s: State, key: Key, addr: Endpoint, now: Time)
    requires Sound(env, s, None) && key in s.peers && s.peers[key] in s.objs
    requires var p := s.objs[s.peers[key]]; p.authed && p.cur.Some? && !(p.RequiresMFA() && now < p.lockedUntil)
    ensures var p, r, s2 := s.objs[s.peers[key]], s.peers[key], Handshake(s, env, key, addr, now);
      && s2.objs[r].authed && s2.objs[r].prev == p.cur && s2.objs[r].prevDeadline == now + env.grace
      && s2.objs[r].cur.Some? && s2.objs[r].cur.value.recvKey !in Issued(s.log)
  {
    PeerFacts(env, s, s.peers[key], None);
  }

  /** Whom the relay picks is connected and authenticated; only an exhausted key keeps it from sending. */
  lemma TargetIsReady(env: Env, s: State, r: Ref, pkt: Payload, to: Ref)
    requires Inv(env, s) && env.mode == Server && Reg(s, r) && ParseReturns(pkt)
    requires Decide(HubOf(s, env), r, pkt) in {ToAgent(to), ToClient(to)}
    ensures to in s.objs && s.objs[to].cur.Some? && s.objs[to].authed
    ensures CanSend(s, to) || s.objs[to].cur.value.sendNonce > MAX_NONCE
    ensures Decide(HubOf(s, env), r, pkt) == if s.objs[to].cfg.role == RoleAgent then ToAgent(to) else ToClient(to)
  {
    assert Parse(pkt).Some?;
    ForwardedIsLegitimate(HubOf(s, env), r, pkt);
  }

  /** A packet the relay forwards leaves for exactly the peer it was meant for, unchanged, under
      that peer's current session and next nonce; nothing else is sealed, one packet is counted. */
  lemma ForwardingSeals(env: Env, s: State, r: Ref, pkt: Payload, now: Time, to: Ref)
    requires Inv(env, s) && env.mode == Server && Reg(s, r) && pkt != [] && ParseReturns(pkt)
    requires Decide(HubOf(s, env), r, pkt) in {ToAgent(to), ToClient(to)} && CanSend(s, to)
    ensures var s2, c := Deliver(s, env, r, pkt, now), s.objs[to].cur.value;
      && s2.log == s.log + [Delivered(r, s.objs[r].cfg.totpSecret, pkt), Sealed(c.sendKey, c.sendNonce, Data, pkt)]
      && s2.counters.forwarded == s.counters.forwarded + 1
      && s2.counters.toAgents == s.counters.toAgents + (if s.objs[to].cfg.role == RoleAgent then 1 else 0)
      && s2.counters.toClients == s.counters.toClients + (if s.objs[to].cfg.role == RoleAgent then 0 else 1)
  {
    TargetIsReady(env, s, r, pkt, to);
    var v := Decide(HubOf(s, env), r, pkt);
    var s1 := Emit(s, Delivered(r, s.objs[r].cfg.totpSecret, pkt));
    assert Deliver(s, env, r, pkt, now) == Forwarded(s1, to, v, pkt, now);
    ForwardedEffect(s1, to, v, pkt, now);
  }

  lemma ForwardedEffect(s: State, to: Ref, v: Verdict, pkt: Payload, now: Time)
    requires CanSend(s, to) && v == if s.objs[to].cfg.role == RoleAgent then ToAgent(to) else ToClient(to)
    ensures var s2, c := Forwarded(s, to, v, pkt, now), s.objs[to].cur.value;
      && s2.log == s.log + [Sealed(c.sendKey, c.sendNonce, Data, pkt)]
      && s2.counters.forwarded == s.counters.forwarded + 1
      && s2.counters.toAgents == s.counters.toAgents + (if s.objs[to].cfg.role == RoleAgent then 1 else 0)
      && s2.counters.toClients == s.counters.toClients + (if s.objs[to].cfg.role == RoleAgent then 0 else 1)
  {
  }
}
