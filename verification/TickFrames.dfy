/** Everything a tick sends, and everybody it disconnects. */
module TickFrames {
  import opened Wrappers
  import opened Peers
  import opened Routing
  import opened Trace
  import opened Responder
  import opened ResponderInvariant
  import opened ResponderSafety
  import opened Outcomes
  import opened Effects

  /** A peer that owes a code is asked for it again after 5 seconds; a connected site that is switched off
      is told to stand down every 30. */
  function First(p: Peer, env: Env, now: Time): seq<(FrameType, Payload)> {
    if p.cfg.totpSecret != "" && !p.authed && now - p.challengeAt > 5 * SECOND then
      [(AuthChallenge, env.json(Challenge(true)))]
    else if env.mode == Server && p.cfg.role == RoleAgent && p.authed && !p.cfg.enabled
            && now - p.cmdAt > 30 * SECOND then
      [(AgentCmd, env.json(Command("disable")))]
    else []
  }

  /** And whoever was sent nothing for an interval, these frames counted, gets an empty keepalive. */
  function Due(p: Peer, env: Env, now: Time): seq<(FrameType, Payload)> {
    First(p, env, now) + Idle(if First(p, env, now) != [] then now else p.lastSend, env, now)
  }

  function Idle(lastSend: Time, env: Env, now: Time): seq<(FrameType, Payload)> {
    if now - lastSend > env.keepalive then [(Keepalive, [])] else []
  }

  /** One peer's share of a tick: nothing without a session, the end of it when its time is up, else the
      frames that are due. */
  function Share(p: Peer, env: Env, r: Ref, now: Time): seq<Event> {
    if p.cur.None? then []
    else if now - p.lastRecv > env.deadTimeout then [Dropped(r)]
    else if p.cfg.totpSecret != "" && !p.authed && now >= p.authDeadline then [Dropped(r)]
    else FromPeer(p, Due(p, env, now))
  }

  /** The shares of the peers in the order they are visited. */
  function Shares(s: State, env: Env, order: seq<Key>, now: Time): seq<Event>
    requires forall k <- order :: k in s.peers && s.peers[k] in s.objs
  {
    if order == [] then []
    else
      var k := order[|order| - 1];
      Shares(s, env, order[..|order| - 1], now) + Share(s.objs[s.peers[k]], env, s.peers[k], now)
  }

  // The log of each line of `tick`.

  function AtAge(p: Peer, env: Env, r: Ref, now: Time): seq<Event> {
    if p.cur.Some? && now - p.lastRecv > env.deadTimeout then [Dropped(r)] else []
  }

  function AtWatch(p: Peer, env: Env, r: Ref, now: Time): seq<Event> {
    if !Owes(p) || p.cur.None? then []
    else if now >= p.authDeadline then [Dropped(r)]
    else if now - p.challengeAt > 5 * SECOND then FromPeer(p, [(AuthChallenge, env.json(Challenge(true)))])
    else []
  }

  function AtStandDown(p: Peer, env: Env, now: Time): seq<Event> {
    if p.IsStoodDown(env) && now - p.cmdAt > 30 * SECOND then FromPeer(p, [(AgentCmd, env.json(Command("disable")))])
    else []
  }

  function AtKeepAlive(p: Peer, env: Env, now: Time): seq<Event> {
    if p.cur.Some? && now - p.lastSend > env.keepalive then FromPeer(p, [(Keepalive, [])]) else []
  }

  lemma AgeLog(env: Env, s: State, r: Ref, now: Time)
    requires r in s.objs
    ensures Aged(s, env, r, now).log == s.log + AtAge(s.objs[r], env, r, now)
  {
  }

  lemma WatchLog(env: Env, s: State, r: Ref, now: Time)
    requires r in s.objs
    ensures MfaWatch(s, env, r, now).log == s.log + AtWatch(s.objs[r], env, r, now)
  {
    SealLeaves(s, r, AuthChallenge, env.json(Challenge(true)), now);
  }

  lemma StandDownLog(env: Env, s: State, r: Ref, now: Time)
    requires r in s.objs
    ensures StandDown(s, env, r, now).log == s.log + AtStandDown(s.objs[r], env, now)
  {
    var p := s.objs[r];
    SealLeaves(SetPeer(s, r, p.ToldAt(now)), r, AgentCmd, env.json(Command("disable")), now);
    assert FromPeer(p.ToldAt(now), [(AgentCmd, env.json(Command("disable")))])
      == FromPeer(p, [(AgentCmd, env.json(Command("disable")))]);
  }

  lemma KeepAliveLog(env: Env, s: State, r: Ref, now: Time)
    requires r in s.objs
    ensures KeepAlive(s, env, r, now).log == s.log + AtKeepAlive(s.objs[r], env, now)
  {
    SealLeaves(s, r, Keepalive, [], now);
  }

  /** Two frames in a row, the second unless the first used up the last nonce. */
  lemma ThenIdle(p: Peer, q: Peer, x: (FrameType, Payload), env: Env, now: Time)
    requires p.cur.Some? && q.cur.Some? && q.cur.value.sendKey == p.cur.value.sendKey
    requires if p.CanSeal() then q.cur.value.sendNonce == p.cur.value.sendNonce + 1 && q.lastSend == now
             else q.cur.value.sendNonce == p.cur.value.sendNonce
    ensures FromPeer(p, [x]) + AtKeepAlive(q, env, now) == FromPeer(p, [x] + Idle(now, env, now))
  {
    var k: (FrameType, Payload) := (Keepalive, []);
    TwoLeave(p, x, k, now);
    OneLeaves(p, x.0, x.1);
    OneLeaves(q, Keepalive, []);
    if p.CanSeal() { OneLeaves(p.Spent(now), Keepalive, []); } else { OneLeaves(p, Keepalive, []); }
    assert [x] + [k] == [x, k] && [x] + [] == [x];
  }

  /** A peer whose time is not up. */
  predicate Lives(p: Peer, env: Env, now: Time) {
    p.cur.Some? && now - p.lastRecv <= env.deadTimeout && !(Owes(p) && now >= p.authDeadline)
  }

  /** The lines together. */
  lemma LivingShare(p: Peer, env: Env, r: Ref, now: Time)
    requires Lives(p, env, now)
    ensures var p1 := AfterAge(p, env, now);
      var p2 := AfterWatch(p1, now);
      FromPeer(p, Due(p, env, now))
        == AtWatch(p1, env, r, now) + AtStandDown(p2, env, now) + AtKeepAlive(AfterStandDown(p2, env, now), env, now)
  {
    var p1 := AfterAge(p, env, now);
    var p2 := AfterWatch(p1, now);
    var p3 := AfterStandDown(p2, env, now);
    var first := First(p, env, now);
    if first == [] {
      assert Due(p, env, now) == Idle(p.lastSend, env, now);
      assert p3 == p1;
      assert FromPeer(p, []) == [];
    } else {
      ThenIdle(p, p3, first[0], env, now);
      assert first == [first[0]];
      assert FromPeer(p1, first) == FromPeer(p, first);
    }
  }

  lemma DeadShare(p: Peer, env: Env, r: Ref, now: Time)
    requires (!p.RequiresMFA() ==> p.authed) && (p.prev.Some? ==> p.cur.Some?) && !Lives(p, env, now)
    ensures var p1 := AfterAge(p, env, now);
      var p2 := AfterWatch(p1, now);
      Share(p, env, r, now) == AtAge(p, env, r, now) + AtWatch(p1, env, r, now) && p2.cur.None?
      && AfterStandDown(p2, env, now) == p2
  {
  }

  lemma TickPeerSends(env: Env, s: State, r: Ref, now: Time)
    requires Sound(env, s, None) && Reg(s, r)
    ensures TickPeer(s, env, r, now).log == s.log + Share(s.objs[r], env, r, now)
  {
    PeerFacts(env, s, r, None);
    var p := s.objs[r];
    var s1 := Aged(s, env, r, now);
    AgeLog(env, s, r, now);
    AgeIs(env, s, r, now);
    var s2 := MfaWatch(s1, env, r, now);
    WatchLog(env, s1, r, now);
    WatchIs(env, s1, r, now);
    var s3 := StandDown(s2, env, r, now);
    StandDownLog(env, s2, r, now);
    StandDownIs(env, s2, r, now);
    KeepAliveLog(env, s3, r, now);
    if Lives(p, env, now) { LivingShare(p, env, r, now); } else { DeadShare(p, env, r, now); }
    FourParts(s.log, AtAge(p, env, r, now), AtWatch(s1.objs[r], env, r, now), AtStandDown(s2.objs[r], env, now),
              AtKeepAlive(s3.objs[r], env, now));
  }

  lemma FourParts(log: Log, a: Log, b: Log, c: Log, d: Log)
    ensures log + a + b + c + d == log + (a + b + c + d)
    ensures a == [] ==> a + b + c + d == b + c + d
    ensures c == [] && d == [] ==> a + b + c + d == a + b
  {
  }

  lemma {:induction false} TickEachSends(env: Env, s: State, order: seq<Key>, now: Time)
    requires Sound(env, s, None) && forall k <- order :: k in s.peers && s.peers[k] in s.objs
    requires forall i, j | 0 <= i < j < |order| :: order[i] != order[j]
    ensures TickAll(s, env, order, now).log == s.log + Shares(s, env, order, now)
  {
    HintFacts(env, s, None);
    if order != [] {
      var n := |order| - 1;
      var front, k := order[..n], order[n];
      var s1 := TickAll(s, env, front, now);
      TickEachSends(env, s, front, now);
      TickEachOutcome(env, s, front, now, k);
      TickAllOK(env, s, front, now);
      SamePeer(s, s1, s.peers[k]);
      TickPeerSends(env, s1, s.peers[k], now);
      OneMoreShare(s, env, order, now, s1, TickAll(s, env, order, now));
    }
  }

  lemma OneMoreShare(s: State, env: Env, order: seq<Key>, now: Time, s1: State, s2: State)
    requires order != [] && forall k <- order :: k in s.peers && s.peers[k] in s.objs
    requires s1.log == s.log + Shares(s, env, order[..|order| - 1], now)
    requires var r := s.peers[order[|order| - 1]]; s2.log == s1.log + Share(s.objs[r], env, r, now)
    ensures s2.log == s.log + Shares(s, env, order, now)
  {
    var r := s.peers[order[|order| - 1]];
    ThreeParts(s.log, Shares(s, env, order[..|order| - 1], now), Share(s.objs[r], env, r, now));
  }

  lemma ThreeParts(log: Log, a: Log, b: Log)
    ensures log + a + b == log + (a + b)
  {
  }

  /** Exactly what a tick puts on the wire, and exactly whom it disconnects: each peer's share once, in the
      order of the walk, as of the state before the tick. */
  lemma TickSends(env: Env, s: State, order: seq<Key>, now: Time)
    requires Sound(env, s, None) && Enumerates(order, s.peers.Keys)
    ensures forall k <- order :: k in s.peers && s.peers[k] in s.objs
    ensures Next(s, env, TickNow(order), now).log == s.log + Shares(s, env, order, now)
  {
    HintFacts(env, s, None);
    TickEachSends(env, s, order, now);
  }
}
