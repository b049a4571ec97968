/** How many wrong codes a peer may try: a bound for every stretch of a run, and none over runs. */
module Guessing {
  import opened Wrappers
  import opened ReplayWindows
  import opened Peers
  import opened Routing
  import opened Trace
  import opened Responder
  import opened ResponderInvariant
  import opened ResponderSafety
  import opened ResponderRuns
  import opened Outcomes
  import opened Isolation
  import opened Packets
  import HandshakeLimiter

  // -------------------------------------------------------------- what bounds it

  /** Handshakes of `r` among the events `i..j`. */
  function Handshakes(log: Log, r: Ref, i: nat, j: nat): nat
    requires i <= j <= |log|
  {
    if i == j then 0
    else Handshakes(log, r, i, j - 1) + if log[j - 1].Installed? && log[j - 1].peer == r then 1 else 0
  }

  predicate Settles(e: Event, r: Ref) {
    (e.CodeAccepted? && e.peer == r) || (e.SecretChanged? && e.peer == r)
  }

  lemma {:induction false} WrongPerHandshake(totp: Totp, log: Log, r: Ref, i: nat, j: nat)
    requires LogOK(totp, log) && i <= j <= |log| && forall k | i <= k < j :: !Settles(log[k], r)
    ensures WrongIn(log, r, i, j) + WatchOf(log[..i], r).wrong
      <= 3 * Handshakes(log, r, i, j) + WatchOf(log[..j], r).wrong
    decreases j - i
  {
    if i < j {
      WrongPerHandshake(totp, log, r, i, j - 1);
      TakeSnoc(log, j - 1);
      Snoc(log[..j - 1], log[j - 1]);
      PrefixOK(totp, log, j - 1);
      WrongAtMostThree(totp, log[..j - 1], r);
    }
  }

  /** At most three wrong codes per handshake, and three more, as long as no right code comes. */
  lemma GuessesPerHandshake(totp: Totp, log: Log, r: Ref, i: nat, j: nat)
    requires LogOK(totp, log) && i <= j <= |log| && forall k | i <= k < j :: !Settles(log[k], r)
    ensures WrongIn(log, r, i, j) <= 3 * (Handshakes(log, r, i, j) + 1)
  {
    WrongPerHandshake(totp, log, r, i, j);
    PrefixOK(totp, log, j);
    WrongAtMostThree(totp, log[..j], r);
  }

  lemma {:induction false} HandshakesSplit(log: Log, r: Ref, i: nat, j: nat, l: nat)
    requires i <= j <= l <= |log|
    ensures Handshakes(log, r, i, l) == Handshakes(log, r, i, j) + Handshakes(log, r, j, l)
    decreases l - j
  {
    if j < l { HandshakesSplit(log, r, i, j, l - 1); }
  }

  lemma {:induction false} HandshakesKept(a: Log, b: Log, r: Ref, i: nat, j: nat)
    requires i <= j <= |a| <= |b| && b[..|a|] == a
    ensures Handshakes(b, r, i, j) == Handshakes(a, r, i, j)
    decreases j - i
  {
    if i < j {
      assert b[..|a|][j - 1] == b[j - 1];
      HandshakesKept(a, b, r, i, j - 1);
    }
  }

  lemma {:induction false} NoneJoined(a: Log, b: Log, r: Ref, j: nat)
    requires NoJoin(a, b) && |a| <= j <= |b|
    ensures Handshakes(b, r, |a|, j) == 0
    decreases j
  {
    if |a| < j { NoneJoined(a, b, r, j - 1); }
  }

  /** A packet brings a peer at most one session, and only by a handshake message the limiter let through. */
  lemma StepJoins(env: Env, s: State, p: Packet, r: Ref, ip: string)
    requires OneSource(s, env, [p], r, ip)
    ensures var s2 := PacketStep(s, env, p); |s.log| <= |s2.log| && s2.log[..|s.log|] == s.log
    ensures Handshakes(PacketStep(s, env, p).log, r, |s.log|, |PacketStep(s, env, p).log|)
      <= if p.Hello? && p.call.ip == ip && HandshakeLimiter.Allowed(p.call) then 1 else 0
  {
    var s2 := PacketStep(s, env, p);
    match p
    case Hello(key, addr, c) =>
      if HandshakeLimiter.Allowed(c) && key.Some? {
        HandshakeJoins(env, s, key.value, addr, c.now);
        if s2 != s { JoinCounts(s.log, s2.log, s.peers[key.value], r); }
      }
    case Other(a, now) =>
      if !a.HandshakeMsg? {
        OthersJoinNone(env, s, a, now);
        NoneJoined(s.log, s2.log, r, |s2.log|);
      }
  }

  lemma JoinCounts(a: Log, b: Log, q: Ref, r: Ref)
    requires JoinsOnce(a, b, q)
    ensures Handshakes(b, r, |a|, |b|) == if q == r then 1 else 0
  {
    HandshakesSplit(b, r, |a|, |a| + 1, |b|);
    NoneJoined(b[..|a| + 1], b, r, |b|);
    assert Handshakes(b, r, |a|, |a|) == 0;
  }

  /** Over any run of packets: the peer's sessions are handshakes the limiter let through for its source. */
  lemma {:induction false} JoinsAreAllowed(env: Env, s: State, packets: seq<Packet>, r: Ref, ip: string)
    requires OneSource(s, env, packets, r, ip)
    ensures var s2 := PacketRun(s, env, packets); |s.log| <= |s2.log| && s2.log[..|s.log|] == s.log
    ensures Handshakes(PacketRun(s, env, packets).log, r, |s.log|, |PacketRun(s, env, packets).log|)
      <= HandshakeLimiter.AllowedCount(Calls(packets), ip)
    decreases |packets|
  {
    if packets != [] {
      var p, s1, s2 := packets[0], PacketStep(s, env, packets[0]), PacketRun(s, env, packets);
      StepJoins(env, s, p, r, ip);
      JoinsAreAllowed(env, s1, packets[1..], r, ip);
      HandshakesSplit(s2.log, r, |s.log|, |s1.log|, |s2.log|);
      HandshakesKept(s1.log, s2.log, r, |s.log|, |s1.log|);
      assert s2.log[..|s.log|] == s2.log[..|s1.log|][..|s.log|];
      CountFirst(packets, ip);
    }
  }

  lemma CountFirst(packets: seq<Packet>, ip: string)
    requires packets != []
    ensures HandshakeLimiter.AllowedCount(Calls(packets), ip)
      == HandshakeLimiter.AllowedCount(Calls(packets[1..]), ip)
         + if packets[0].Hello? && packets[0].call.ip == ip && HandshakeLimiter.Allowed(packets[0].call) then 1 else 0
  {
    var p, rest := packets[0], Calls(packets[1..]);
    if p.Hello? { assert ([p.call] + rest)[1..] == rest; } else { assert [] + rest == rest; }
  }

  lemma {:induction false} PacketsKeepInv(env: Env, s: State, packets: seq<Packet>)
    requires Inv(env, s)
    ensures Inv(env, PacketRun(s, env, packets))
    decreases |packets|
  {
    if packets != [] {
      var p := packets[0];
      if p.Hello? {
        if p.key.Some? { StepOK(env, s, HandshakeMsg(p.key.value, p.addr), p.call.now); }
      } else {
        StepOK(env, s, p.a, p.now);
      }
      PacketsKeepInv(env, PacketStep(s, env, p), packets[1..]);
    }
  }

  /** So the handshake limiter bounds the rate of guessing from one source: in any run of packets from any
      reachable state, while the peer's handshake messages come from one address whose bucket is
      not evicted and nothing settles, at most 3 * (31 + 5T) codes are tried in T seconds. */
  lemma GuessRate(env: Env, s: State, packets: seq<Packet>, r: Ref, ip: string, m: HandshakeLimiter.Buckets)
    requires Inv(env, s) && OneSource(s, env, packets, r, ip)
    requires var log := PacketRun(s, env, packets).log; forall k | |s.log| <= k < |log| :: !Settles(log[k], r)
    requires var calls := Calls(packets);
      && calls != [] && HandshakeLimiter.IsRun(m, calls, ip, calls[0].now)
      && HandshakeLimiter.Sane(m, ip, calls[0].now)
    ensures var log, calls := PacketRun(s, env, packets).log, Calls(packets);
      && |s.log| <= |log|
      && WrongIn(log, r, |s.log|, |log|) as real
        <= 3.0 * (31.0 + 5.0 * ((calls[|calls| - 1].now - calls[0].now) as real / HandshakeLimiter.SECOND))
  {
    var s2, calls := PacketRun(s, env, packets), Calls(packets);
    PacketsKeepInv(env, s, packets);
    JoinsAreAllowed(env, s, packets, r, ip);
    assert LogOK(env.totp, s2.log) by { assert Look(0); }
    GuessesPerHandshake(env.totp, s2.log, r, |s.log|, |s2.log|);
    HandshakeLimiter.RateBound(m, calls, ip);
  }

  // ------------------------------------------------------------ what does not

  /** Wrong codes of `r` in a log. */
  function Rejections(log: Log, r: Ref): nat { WrongIn(log, r, 0, |log|) }

  lemma {:induction false} WrongInPrefix(a: Log, b: Log, r: Ref, j: nat)
    requires j <= |a| <= |b| && b[..|a|] == a
    ensures WrongIn(b, r, 0, j) == WrongIn(a, r, 0, j)
  {
    if j > 0 {
      assert b[..|a|][j - 1] == b[j - 1];
      WrongInPrefix(a, b, r, j - 1);
    }
  }

  lemma RejectionsMore(log: Log, e: Event, r: Ref)
    ensures Rejections(log + [e], r) == Rejections(log, r) + if e.CodeRejected? && e.peer == r then 1 else 0
  {
    assert (log + [e])[..|log|] == log;
    WrongInPrefix(log, log + [e], r, |log|);
  }

  /** A peer that owes a code and is not locked out, with a session that takes nonce `n`. */
  ghost predicate Guesser(env: Env, s: State, r: Ref, attempts: nat) {
    Inv(env, s) && Reg(s, r) && Owes(s.objs[r]) && s.objs[r].lockedUntil <= 0 && s.objs[r].attempts == attempts
  }

  /** The body holds a code that is wrong for the secret at time 0. */
  predicate WrongFor(env: Env, secret: string, bad: Payload) {
    env.codeOf(bad).Some? && CheckTotp(env.totp, secret, env.codeOf(bad).value, 0) == None
  }

  /** A frame with such a body. */
  function BadFrame(c: Session, n: nat, bad: Payload): Frame {
    Frame(AuthResp, n, Some(Box(c.recvKey, n, AuthResp, bad)))
  }

  lemma BadFrameOpens(env: Env, s: State, r: Ref, n: nat, bad: Payload)
    requires Inv(env, s) && Reg(s, r) && s.objs[r].cur.Some? && n <= MAX_NONCE
    requires s.objs[r].cur.value.window.Acceptable(n)
    ensures var f := BadFrame(s.objs[r].cur.value, n, bad);
      OpenedBy(s.objs[r], f, 0) == Some(Cur) && Opener(s, f, 0) == Some(r) && CanOpen(s, r, f, 0)
  {
    OpenerUnique(env, s, r, r, BadFrame(s.objs[r].cur.value, n, bad), 0);
  }

  lemma FailedOnce(env: Env, s: State, r: Ref)
    requires r in s.objs && s.objs[r].attempts <= 1 && s.objs[r].cur.Some?
    ensures var s2 := Failed(s, env, r, 0);
      && Rejections(s2.log, r) == Rejections(s.log, r) + 1 && r in s2.objs
      && s2.objs[r].cur.Some? && s2.objs[r].cur.value.window == s.objs[r].cur.value.window
      && s2.objs[r].cur.value.recvKey == s.objs[r].cur.value.recvKey
      && s2.objs[r].authed == s.objs[r].authed && s2.objs[r].cfg == s.objs[r].cfg
      && s2.objs[r].lockedUntil == s.objs[r].lockedUntil && s2.objs[r].attempts == s.objs[r].attempts + 1
  {
    var s1 := Fail(s, env, r, 0);
    RejectionsMore(s.log, CodeRejected(r, 0), r);
    if s1.objs[r].CanSeal() {
      var c := s1.objs[r].cur.value;
      RejectionsMore(s1.log, Sealed(c.sendKey, c.sendNonce, AuthResult, env.json(CodeWrong)), r);
    }
  }

  /** One wrong code out of the first two of a session. */
  lemma GuessOnce(env: Env, s: State, r: Ref, addr: Endpoint, n: nat, bad: Payload, attempts: nat)
    requires Guesser(env, s, r, attempts) && attempts <= 1 && s.objs[r].cur.Some?
    requires n <= MAX_NONCE && s.objs[r].cur.value.window.Acceptable(n)
    requires WrongFor(env, s.objs[r].cfg.totpSecret, bad)
    ensures var s2 := Next(s, env, DataFrame(addr, BadFrame(s.objs[r].cur.value, n, bad)), 0);
      && Guesser(env, s2, r, attempts + 1) && s2.objs[r].cfg == s.objs[r].cfg
      && Rejections(s2.log, r) == Rejections(s.log, r) + 1
      && s2.objs[r].cur.Some? && s2.objs[r].cur.value.window == s.objs[r].cur.value.window.Commit(n)
      && s2.peers == s.peers
  {
    var f := BadFrame(s.objs[r].cur.value, n, bad);
    BadFrameOpens(env, s, r, n, bad);
    var s1 := Accept(s, r, addr, f, 0);
    AcceptOK(env, s, r, addr, f, 0);
    SamePeer(s, s1, r);
    RejectionsMore(s.log, Accepted(r, f.box.value.key, n, AuthResp, bad), r);
    FailedOnce(env, s1, r);
    AuthResponseOK(env, s1, r, bad, 0);
    var s2 := Next(s, env, DataFrame(addr, f), 0);
    assert s2 == Failed(s1, env, r, 0);
    SamePeer(s1, s2, r);
    StepOK(env, s, DataFrame(addr, f), 0);
  }

  /** A handshake gives the peer a fresh round. */
  lemma FreshRound(env: Env, s: State, r: Ref, addr: Endpoint, attempts: nat)
    requires Guesser(env, s, r, attempts)
    ensures var s2 := Next(s, env, HandshakeMsg(s.objs[r].cfg.pub, addr), 0);
      && Guesser(env, s2, r, 0) && Rejections(s2.log, r) == Rejections(s.log, r) && s2.peers == s.peers
      && s2.objs[r].cfg == s.objs[r].cfg
      && s2.objs[r].cur.Some? && s2.objs[r].cur.value.window == FRESH
  {
    var key := s.objs[r].cfg.pub;
    var s2 := Next(s, env, HandshakeMsg(key, addr), 0);
    HandshakeOutcome(env, s, key, addr, 0);
    StepOK(env, s, HandshakeMsg(key, addr), 0);
    HandshakeOK(env, s, key, addr, 0);
    SamePeer(s, s2, r);
    var e1 := Installed(r, s.nextKey, s.nextKey + 1, 0);
    var e2 := Sealed(s.nextKey, 0, AuthChallenge, env.json(Challenge(true)));
    var e3 := Sealed(s.nextKey, 1, Info, env.json(ServerInfo));
    RejectionsMore(s.log, e1, r);
    RejectionsMore(s.log + [e1], e2, r);
    RejectionsMore(s.log + [e1] + [e2], e3, r);
    assert s2.log == s.log + [e1] + [e2] + [e3];
  }

  lemma ExecMore(env: Env, statics: seq<PeerConfig>, actions: seq<(Action, Time)>, a: Action)
    ensures Exec(env, statics, actions + [(a, 0)]) == Next(Exec(env, statics, actions), env, a, 0)
  {
    assert (actions + [(a, 0)])[..|actions|] == actions;
  }

  /** The peer configured as `cfg` may go on guessing. */
  ghost predicate CanGuess(env: Env, s: State, cfg: PeerConfig) {
    exists attempts :: Guesser(env, s, 0, attempts) && s.objs[0].cfg == cfg
  }

  /** Wrong codes are not bounded over a run: for every `n` there is a run of one peer that submits two
      wrong codes per handshake, `2 * n` in all at one instant, and is never locked out. */
  lemma {:induction false} GuessesUnbounded(env: Env, cfg: PeerConfig, bad: Payload, addr: Endpoint, n: nat)
      returns (actions: seq<(Action, Time)>)
    requires cfg.totpSecret != "" && WrongFor(env, cfg.totpSecret, bad)
    ensures CanGuess(env, Exec(env, [cfg], actions), cfg)
    ensures Rejections(Exec(env, [cfg], actions).log, 0) == 2 * n
  {
    if n == 0 {
      actions := [];
      RunOK(env, [cfg], []);
      FirstState(cfg);
      var s := Exec(env, [cfg], []);
      assert Guesser(env, s, 0, 0) && s.objs[0].cfg == cfg;
    } else {
      var before := GuessesUnbounded(env, cfg, bad, addr, n - 1);
      var s := Exec(env, [cfg], before);
      var attempts :| Guesser(env, s, 0, attempts) && s.objs[0].cfg == cfg;
      var a1 := HandshakeMsg(s.objs[0].cfg.pub, addr);
      var s1 := Next(s, env, a1, 0);
      FreshRound(env, s, 0, addr, attempts);
      var a2 := DataFrame(addr, BadFrame(s1.objs[0].cur.value, 0, bad));
      var s2 := Next(s1, env, a2, 0);
      GuessOnce(env, s1, 0, addr, 0, bad, 0);
      var a3 := DataFrame(addr, BadFrame(s2.objs[0].cur.value, 1, bad));
      GuessOnce(env, s2, 0, addr, 1, bad, 1);
      ExecMore(env, [cfg], before, a1);
      ExecMore(env, [cfg], before + [(a1, 0)], a2);
      ExecMore(env, [cfg], before + [(a1, 0)] + [(a2, 0)], a3);
      actions := before + [(a1, 0)] + [(a2, 0)] + [(a3, 0)];
      assert Guesser(env, Next(s2, env, a3, 0), 0, 2);
    }
  }

  lemma FirstState(cfg: PeerConfig)
    ensures var s := Initial([cfg]);
      s.log == [] && s.objs == map[0 := NewPeer(cfg, true)] && s.peers == map[cfg.pub := 0]
  {
    assert [cfg][..0] == [];
  }
}
