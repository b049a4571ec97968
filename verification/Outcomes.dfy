/** What each handler of the hub leaves behind, told by its effects. */
module Outcomes {
  import opened Wrappers
  import opened ReplayWindows
  import opened IpHeaders
  import opened Peers
  import opened Routing
  import opened Relay
  import opened Trace
  import opened Responder
  import opened ResponderInvariant
  import opened ResponderSafety
  import opened ResponderRuns
  import opened RegistryReload

  // ----------------------------------------------------------------- handshakes

  /** The peer still has to submit a code. */
  predicate Owes(p: Peer) { p.RequiresMFA() && !p.authed }

  /** A handshake from a stranger or a locked-out peer changes nothing; any other brings a session
      with unused keys, tells the peer whether a code is owed and who the server is, and keeps
      the older session and the authentication. */
  lemma HandshakeOutcome(env: Env, s: State, key: Key, addr: Endpoint, now: Time)
    requires Sound(env, s, None)
    ensures key !in s.peers ==> Handshake(s, env, key, addr, now) == s
    ensures key in s.peers ==> s.peers[key] in s.objs
    ensures key in s.peers ==>
      var r, k, s2 := s.peers[key], s.nextKey, Handshake(s, env, key, addr, now);
      var p := s.objs[r];
      if p.RequiresMFA() && now < p.lockedUntil then s2 == s
      else
        var p2 := s2.objs[r];
        && s2.log == s.log + [Installed(r, k, k + 1, now), Sealed(k, 0, AuthChallenge, env.json(Challenge(Owes(p)))),
                              Sealed(k, 1, Info, env.json(ServerInfo))]
        && p2.cur == Some(Session(k, k + 1, now, 2, 0, FRESH)) && k !in Issued(s.log) && k + 1 !in Issued(s.log)
        && p2.prev == (if p.cur.Some? then p.cur else p.prev) && p2.authed == p.authed && p2.cfg == p.cfg
        && (Owes(p) ==> p2.attempts == 0 && p2.authDeadline == now + 120 * SECOND)
        && p2.addr == Some(addr) && s2.addr2peer == s.addr2peer[addr := r]
        && forall q <- s.objs :: q != r ==> s2.objs[q] == s.objs[q]
  {
    HintFacts(env, s, None);
    if key in s.peers {
      PeerFacts(env, s, s.peers[key], None);
      Greeted(env, s, s.peers[key], addr, now);
    }
  }

  /** Installing a session and sealing the two frames that go with it. */
  lemma Greeted(env: Env, s: State, r: Ref, addr: Endpoint, now: Time)
    requires r in s.objs
    ensures var p, k := s.objs[r], s.nextKey;
      var s1 := Seal(Install(s, env, r, addr, now), r, AuthChallenge, env.json(Challenge(Owes(p))), now);
      var s2 := Seal(s1, r, Info, env.json(ServerInfo), now);
      && s2.log == s.log + [Installed(r, k, k + 1, now), Sealed(k, 0, AuthChallenge, env.json(Challenge(Owes(p)))),
                            Sealed(k, 1, Info, env.json(ServerInfo))]
      && s2.objs == s.objs[r := Joined(p, env, addr, k, now).Spent(now).Spent(now)]
      && s2.addr2peer == s.addr2peer[addr := r]
  {
  }

  // ---------------------------------------------------------------------- codes

  /** A code is taken for the earliest step around the clock it matches. */
  lemma CheckTotpIff(totp: Totp, secret: string, code: string, now: Time, k: int)
    ensures CheckTotp(totp, secret, code, now) == Some(k) <==>
      && |code| == 6 && ClockStep(now) - 1 <= k <= ClockStep(now) + 1 && totp(secret, k) == Some(code)
      && forall j | ClockStep(now) - 1 <= j < k :: totp(secret, j).Some? && totp(secret, j) != Some(code)
  {
    TryStepIff(totp, secret, code, ClockStep(now) - 1, ClockStep(now) + 1, k);
  }

  /** The code is right for this peer now, and not older than the last one it used. */
  predicate RightCode(env: Env, p: Peer, code: string, now: Time) {
    var k := CheckTotp(env.totp, p.cfg.totpSecret, code, now);
    k.Some? && k.value >= p.lastStep
  }

  /** What one submission does to a peer that owes a code: nothing while it is locked out; a right
      code opens the gate; a wrong one is counted, and the third costs both sessions and
      thirty seconds. */
  lemma CodeOutcome(env: Env, s: State, r: Ref, payload: Payload, now: Time)
    requires Sound(env, s, None) && Reg(s, r) && s.objs[r].cur.Some? && Owes(s.objs[r]) && env.codeOf(payload).Some?
    ensures var p, p2, code := s.objs[r], AuthResponse(s, env, r, payload, now).objs[r], env.codeOf(payload).value;
      && p.attempts <= 2
      && (p2.authed <==> now >= p.lockedUntil && RightCode(env, p, code, now))
      && (p2.authed ==> p2.attempts == 0 && CheckTotp(env.totp, p.cfg.totpSecret, code, now) == Some(p2.lastStep))
      && (!p2.authed ==> p2.lastStep == p.lastStep)
      && (now < p.lockedUntil ==> p2.attempts == p.attempts && p2.lockedUntil == p.lockedUntil)
      && (now >= p.lockedUntil && !p2.authed ==> p2.attempts == p.attempts + 1)
      && (p2.cur.None? <==> now >= p.lockedUntil && !p2.authed && p.attempts == 2)
      && (p2.cur.None? ==> p2.prev.None? && p2.lockedUntil == now + 30 * SECOND)
      && (p2.cur.Some? ==> p2.cur.value.recvKey == p.cur.value.recvKey && p2.prev == p.prev)
  {
    PeerFacts(env, s, r, None);
  }

  // ---------------------------------------------------------------- data frames

  /** A frame once accepted is dead: whatever happened since, no peer opens it again. */
  lemma SpentFrameIsDead(env: Env, s: State, f: Frame, now: Time, i: nat)
    requires Sound(env, s, None) && f.box.Some?
    requires i < |s.log| && s.log[i].Accepted? && s.log[i].key == f.box.value.key && s.log[i].nonce == f.nonce
    ensures Opener(s, f, now) == None
  {
    AcceptedStays(s.log, i);
    forall r | Reg(s, r) ensures !CanOpen(s, r, f, now) {
      PeerFacts(env, s, r, None);
      var p := s.objs[r];
      if p.cur.Some? { SpentForSession(p.cur.value, s.log, WatchOf(s.log, r).live, f); }
      if p.prev.Some? { SpentForSession(p.prev.value, s.log, WatchOf(s.log, r).live, f); }
    }
  }

  lemma SpentForSession(c: Session, log: Log, live: set<nat>, f: Frame)
    requires SessionOK(c, log, live) && f.box.Some? && f.nonce in AcceptedNonces(log, f.box.value.key)
    ensures !Opens(c, f)
  {
    AcceptableIff(c.window, AcceptedNonces(log, c.recvKey), f.nonce);
  }

  /** On a gateway a DATA frame is delivered exactly when the peer owes no code and the payload is
      not empty; either way it is accepted, and nothing else happens. */
  lemma GatewayDataOutcome(env: Env, s: State, addr: Endpoint, f: Frame, now: Time, r: Ref)
    requires env.mode == Gateway && f.typ == Data && Opener(s, f, now) == Some(r)
    ensures var s2, b := HandleData(s, env, addr, f, now), f.box.value;
      s2.log == s.log + [Accepted(r, b.key, f.nonce, Data, b.payload)]
                + if Owes(s.objs[r]) || b.payload == [] then [] else [Delivered(r, s.objs[r].cfg.totpSecret, b.payload)]
  {
  }

  /** DATA from a peer that owes a code goes nowhere: no delivery, no relay, no counter. */
  lemma GatedDataOutcome(env: Env, s: State, addr: Endpoint, f: Frame, now: Time, r: Ref)
    requires f.typ == Data && Opener(s, f, now) == Some(r) && Owes(s.objs[r])
    ensures var s2, b := HandleData(s, env, addr, f, now), f.box.value;
      && s2.log == s.log + [Accepted(r, b.key, f.nonce, Data, b.payload)] && s2.counters == s.counters
      && forall q <- s.objs :: q != r ==> s2.objs[q] == s.objs[q]
  {
  }

  // ----------------------------------------------------------------------- tick

  /** Time is up for the peer's sessions. */
  predicate Overdue(p: Peer, env: Env, now: Time) {
    p.cur.Some? && (now - p.lastRecv > env.deadTimeout || (Owes(p) && now >= p.authDeadline))
  }

  /** One peer before and after the timeouts of a tick. */
  predicate Timed(p: Peer, p2: Peer, env: Env, now: Time) {
    // who is disconnected, and who is not
    && (p2.cur.None? <==> p.cur.None? || Overdue(p, env, now))
    && (p2.cur.Some? ==>
          && p2.cur.value.recvKey == p.cur.value.recvKey && p2.cur.value.window == p.cur.value.window
          && p2.authed == p.authed && p2.prev == (if now > p.prevDeadline then None else p.prev))
    // what holds afterwards
    && !Overdue(p2, env, now) && (p2.prev.Some? ==> now <= p2.prevDeadline)
    && (p2.CanSeal() && Owes(p2) ==> now - p2.challengeAt <= 5 * SECOND)
    // what a tick never touches
    && p2.cfg == p.cfg && p2.attempts == p.attempts && p2.lastStep == p.lastStep
    && p2.lockedUntil == p.lockedUntil && p2.lastRecv == p.lastRecv
  }

  /** One peer before and after a whole tick. */
  predicate Ticked(p: Peer, p2: Peer, env: Env, now: Time) {
    && Timed(p, p2, env, now)
    && (p2.CanSeal() && env.keepalive >= 0 ==> now - p2.lastSend <= env.keepalive)
    && (p2.IsStoodDown(env) ==> now - p2.cmdAt <= 30 * SECOND)
  }

  // The share of each line of `tick` in the peer's own fields.

  function AfterAge(p: Peer, env: Env, now: Time): Peer {
    var q := p.Expired(now);
    if p.cur.Some? && now - p.lastRecv > env.deadTimeout then q.NoSessions().ResetAuth() else q
  }

  function AfterWatch(p: Peer, now: Time): Peer {
    if !Owes(p) || p.cur.None? then p
    else if now >= p.authDeadline then p.NoSessions().ResetAuth()
    else if now - p.challengeAt > CHALLENGE_RETRY && p.CanSeal() then p.Spent(now).AskedAt(now)
    else p
  }

  function AfterStandDown(p: Peer, env: Env, now: Time): Peer {
    if p.IsStoodDown(env) && now - p.cmdAt > CMD_RETRY
    then if p.CanSeal() then p.ToldAt(now).Spent(now) else p.ToldAt(now)
    else p
  }

  function AfterKeepAlive(p: Peer, env: Env, now: Time): Peer {
    if p.CanSeal() && now - p.lastSend > env.keepalive then p.Spent(now) else p
  }

  /** Two states differ in one peer object at most. */
  predicate Differ(s: State, s2: State, r: Ref, p2: Peer) { s2.objs == s.objs[r := p2] }

  lemma AgeIs(env: Env, s: State, r: Ref, now: Time)
    requires Sound(env, s, None) && Reg(s, r)
    ensures Differ(s, Aged(s, env, r, now), r, AfterAge(s.objs[r], env, now))
  {
    HealNeverFires(env, s, r);
  }

  lemma WatchIs(env: Env, s: State, r: Ref, now: Time)
    requires r in s.objs
    ensures Differ(s, MfaWatch(s, env, r, now), r, AfterWatch(s.objs[r], now))
  {
  }

  lemma StandDownIs(env: Env, s: State, r: Ref, now: Time)
    requires r in s.objs
    ensures Differ(s, StandDown(s, env, r, now), r, AfterStandDown(s.objs[r], env, now))
  {
  }

  lemma KeepAliveIs(env: Env, s: State, r: Ref, now: Time)
    requires r in s.objs
    ensures Differ(s, KeepAlive(s, env, r, now), r, AfterKeepAlive(s.objs[r], env, now))
  {
  }

  lemma TimedOK(p: Peer, env: Env, now: Time)
    requires (!p.RequiresMFA() ==> p.authed) && (p.RequiresMFA() && p.cur.None? ==> !p.authed)
    requires p.prev.Some? ==> p.cur.Some?
    ensures Timed(p, AfterWatch(AfterAge(p, env, now), now), env, now)
  {
  }

  lemma TickedOK(p: Peer, q: Peer, env: Env, now: Time)
    requires Timed(p, q, env, now)
    ensures Ticked(p, AfterKeepAlive(AfterStandDown(q, env, now), env, now), env, now)
  {
  }

  lemma TickPeerOutcome(env: Env, s: State, r: Ref, now: Time)
    requires Sound(env, s, None) && Reg(s, r)
    ensures r in s.objs && exists p2 :: Differ(s, TickPeer(s, env, r, now), r, p2) && Ticked(s.objs[r], p2, env, now)
  {
    PeerFacts(env, s, r, None);
    var s1 := Aged(s, env, r, now);
    AgeIs(env, s, r, now);
    var s2 := MfaWatch(s1, env, r, now);
    WatchIs(env, s1, r, now);
    var s3 := StandDown(s2, env, r, now);
    StandDownIs(env, s2, r, now);
    KeepAliveIs(env, s3, r, now);
    TimedOK(s.objs[r], env, now);
    TickedOK(s.objs[r], s2.objs[r], env, now);
    assert Differ(s, KeepAlive(s3, env, r, now), r, KeepAlive(s3, env, r, now).objs[r]);
  }

  lemma {:induction false} TickEachOutcome(env: Env, s: State, order: seq<Key>, now: Time, k: Key)
    requires Sound(env, s, None) && (forall q <- order :: q in s.peers) && k in s.peers
    requires forall i, j | 0 <= i < j < |order| :: order[i] != order[j]
    ensures var r, s2 := s.peers[k], TickAll(s, env, order, now);
      && r in s.objs && r in s2.objs
      && (if k in order then Ticked(s.objs[r], s2.objs[r], env, now) else s2.objs[r] == s.objs[r])
  {
    HintFacts(env, s, None);
    if order != [] {
      var n := |order| - 1;
      var s1, last := TickAll(s, env, order[..n], now), order[n];
      assert order == order[..n] + [last];
      TickEachOutcome(env, s, order[..n], now, k);
      TickAllOK(env, s, order[..n], now);
      SamePeer(s, s1, s.peers[last]);
      TickPeerOutcome(env, s1, s.peers[last], now);
      if last != k { DistinctPeers(env, s, last, k); }
    }
  }

  /** A tick, whatever order it visits the peers in: peers that are overdue lose their sessions and
      nobody else does, expired previous sessions go, and afterwards nobody is owed a keepalive,
      a challenge or an order to stand down. */
  lemma TickOutcome(env: Env, s: State, order: seq<Key>, now: Time, k: Key)
    requires Sound(env, s, None) && Enumerates(order, s.peers.Keys) && k in s.peers
    ensures s.peers[k] in s.objs && s.peers[k] in TickAll(s, env, order, now).objs
    ensures Ticked(s.objs[s.peers[k]], TickAll(s, env, order, now).objs[s.peers[k]], env, now)
  {
    TickEachOutcome(env, s, order, now, k);
  }

  // ---------------------------------------------------- commands and TUN packets

  /** A kicked agent is told so in its last frame, has no session left, and owes a code again if it
      needs one. */
  lemma KickOutcome(env: Env, s: State, r: Ref, now: Time)
    requires r in s.objs && s.objs[r].CanSeal()
    ensures var s2, c := Kick(s, env, r, now), s.objs[r].cur.value;
      && s2.log == s.log + [Sealed(c.sendKey, c.sendNonce, AgentCmd, env.json(Command("kick"))), Dropped(r)]
      && s2.objs[r].cur.None? && s2.objs[r].prev.None? && (s2.objs[r].authed <==> !s2.objs[r].RequiresMFA())
      && forall q <- s.objs :: q != r ==> s2.objs[q] == s.objs[q]
  {
  }

  lemma {:induction false} SendEachOutcome(env: Env, s: State, order: seq<Key>, pkt: Payload, now: Time, k: Key)
    requires Sound(env, s, None) && (forall q <- order :: q in s.peers) && k in s.peers
    requires forall i, j | 0 <= i < j < |order| :: order[i] != order[j]
    ensures var r, s2 := s.peers[k], SendData(s, order, pkt, now);
      && r in s.objs && r in s2.objs
      && s2.objs[r] == if k in order && CanSend(s, r) then s.objs[r].Spent(now) else s.objs[r]
  {
    HintFacts(env, s, None);
    if order != [] {
      var n := |order| - 1;
      var s1, last := SendData(s, order[..n], pkt, now), order[n];
      assert order == order[..n] + [last];
      SendEachOutcome(env, s, order[..n], pkt, now, k);
      SendDataOK(env, s, order[..n], pkt, now);
      SamePeer(s, s1, s.peers[last]);
      if last != k { DistinctPeers(env, s, last, k); }
    }
  }

  /** A packet from the gateway's TUN leaves once for each connected, authenticated peer, whatever
      the order, and for nobody else. */
  lemma TunPacketOutcome(env: Env, s: State, order: seq<Key>, pkt: Payload, now: Time, k: Key)
    requires Sound(env, s, None) && Enumerates(order, s.peers.Keys) && k in s.peers
    ensures s.peers[k] in s.objs && s.peers[k] in SendData(s, order, pkt, now).objs
    ensures SendData(s, order, pkt, now).objs[s.peers[k]]
      == if CanSend(s, s.peers[k]) then s.objs[s.peers[k]].Spent(now) else s.objs[s.peers[k]]
    ensures CanSend(s, s.peers[k]) ==> var c := s.objs[s.peers[k]].cur.value;
      SealCount(SendData(s, order, pkt, now).log, c.sendKey) == SealCount(s.log, c.sendKey) + 1
  {
    SendEachOutcome(env, s, order, pkt, now, k);
    SendDataOK(env, s, order, pkt, now);
    SamePeer(s, SendData(s, order, pkt, now), s.peers[k]);
    PeerFacts(env, s, s.peers[k], None);
    PeerFacts(env, SendData(s, order, pkt, now), s.peers[k], None);
  }

  // ---------------------------------------------------- commands after a reload

  predicate OnePerPeer(cmds: seq<(Ref, string)>) { forall i, j | 0 <= i < j < |cmds| :: cmds[i].0 != cmds[j].0 }

  lemma {:induction false} OwedTo(s: State, m: Registry, order: seq<Key>, i: nat) returns (k: Key)
    requires Keyed(s) && i < |CommandsOwed(s, m, order)|
    ensures k in order && k in s.peers && k in m && CommandsOwed(s, m, order)[i].0 == s.peers[k]
    ensures Managed(s.objs[s.peers[k]]) && s.objs[s.peers[k]].cfg.enabled != m[k].enabled
    ensures CommandsOwed(s, m, order)[i].1 == if m[k].enabled then "enable" else "disable"
  {
    var n := |order| - 1;
    if i < |CommandsOwed(s, m, order[..n])| { k := OwedTo(s, m, order[..n], i); } else { k := order[n]; }
  }

  /** An update owes each agent at most one command. */
  lemma {:induction false} OwedOnce(s: State, m: Registry, order: seq<Key>)
    requires Keyed(s) && forall i, j | 0 <= i < j < |order| :: order[i] != order[j]
    ensures OnePerPeer(CommandsOwed(s, m, order))
  {
    if order != [] {
      var n := |order| - 1;
      var front := CommandsOwed(s, m, order[..n]);
      OwedOnce(s, m, order[..n]);
      forall i | 0 <= i < |front| && CommandFor(s, m, order[n]) != [] ensures front[i].0 != s.peers[order[n]] {
        var k := OwedTo(s, m, order[..n], i);
        assert s.objs[s.peers[k]].cfg.pub == k;
      }
    }
  }

  lemma {:induction false} CommandsSpare(env: Env, s: State, cmds: seq<(Ref, string)>, now: Time, r: Ref)
    requires r in s.objs && forall c <- cmds :: c.0 != r
    ensures r in SendCommands(s, env, cmds, now).objs && SendCommands(s, env, cmds, now).objs[r] == s.objs[r]
  {
    if cmds != [] { CommandsSpare(env, s, cmds[..|cmds| - 1], now, r); }
  }

  /** Every command owed to a connected agent leaves, under that agent's own key and next nonce. */
  lemma {:induction false} CommandSent(env: Env, s: State, cmds: seq<(Ref, string)>, now: Time, i: nat) returns (j: nat)
    requires OnePerPeer(cmds) && i < |cmds| && cmds[i].0 in s.objs && s.objs[cmds[i].0].CanSeal()
    ensures var log, c := SendCommands(s, env, cmds, now).log, s.objs[cmds[i].0].cur.value;
      j < |log| && log[j] == Sealed(c.sendKey, c.sendNonce, AgentCmd, env.json(Command(cmds[i].1)))
  {
    var n := |cmds| - 1;
    var front := cmds[..n];
    var s1 := SendCommands(s, env, front, now);
    if i == n {
      CommandsSpare(env, s, front, now, cmds[n].0);
      j := |s1.log|;
    } else {
      j := CommandSent(env, s, front, now, i);
    }
  }
}
