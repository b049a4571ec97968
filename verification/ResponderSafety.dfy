/** Every handler keeps the invariant, so every run does; and what that means for the outside. */
module ResponderSafety {
  import opened Wrappers
  import opened IpHeaders
  import opened Peers
  import opened Routing
  import opened Relay
  import opened Trace
  import opened Responder
  import opened ResponderInvariant

  /** Invariant kept, nobody enters, leaves or is reconfigured. */
  ghost predicate Keeps(env: Env, s: State, s2: State) { Sound(env, s2, None) && Same(s, s2) }

  lemma Chain(env: Env, a: State, b: State, c: State)
    requires Keeps(env, a, b) && Keeps(env, b, c)
    ensures Keeps(env, a, c)
  {
    SameChain(a, b, c);
  }

  /** `Seal`, as one link of a chain. */
  lemma SealLink(env: Env, a: State, s: State, r: Ref, typ: FrameType, payload: Payload, now: Time)
    requires Keeps(env, a, s)
    ensures Keeps(env, a, Seal(s, r, typ, payload, now))
  {
    SealOK(env, s, r, typ, payload, now, None);
    Chain(env, a, s, Seal(s, r, typ, payload, now));
  }

  // ----------------------------------------------------------------- handshakes

  lemma HandshakeOK(env: Env, s: State, key: Key, addr: Endpoint, now: Time)
    requires Sound(env, s, None)
    ensures Keeps(env, s, Handshake(s, env, key, addr, now))
  {
    HintFacts(env, s, None);
    if key in s.peers {
      var r := s.peers[key];
      var p := s.objs[r];
      if !(p.RequiresMFA() && now < p.lockedUntil) {
        var s1 := Install(s, env, r, addr, now);
        InstallOK(env, s, r, addr, now);
        var challenge := env.json(Challenge(p.RequiresMFA() && !p.authed));
        SealLink(env, s, s1, r, AuthChallenge, challenge, now);
        SealLink(env, s, Seal(s1, r, AuthChallenge, challenge, now), r, Info, env.json(ServerInfo), now);
      }
    }
  }

  // ---------------------------------------------------------------------- codes

  lemma {:induction false} TryStepIff(totp: Totp, secret: string, code: string, step: int, last: int, k: int)
    ensures TryStep(totp, secret, code, step, last) == Some(k) <==>
      && step <= k <= last && totp(secret, k) == Some(code)
      && forall j | step <= j < k :: totp(secret, j).Some? && totp(secret, j) != Some(code)
    decreases last - step
  {
    if step <= last { TryStepIff(totp, secret, code, step + 1, last, k); }
  }

  lemma PassPeer(totp: Totp, p: Peer, log: Log, r: Ref, code: string, step: int, now: Time)
    requires PeerOK(p, log, r, true, false) && p.cur.Some? && p.RequiresMFA()
    requires CheckTotp(totp, p.cfg.totpSecret, code, now) == Some(step) && step >= p.lastStep
    ensures var e := CodeAccepted(r, p.cfg.totpSecret, code, step, now);
      EventOK(totp, log, e) && PeerOK(p.Proven(step), log + [e], r, true, false)
  {
    TryStepIff(totp, p.cfg.totpSecret, code, ClockStep(now) - 1, ClockStep(now) + 1, step);
    Snoc(log, CodeAccepted(r, p.cfg.totpSecret, code, step, now));
  }

  lemma FailPeer(totp: Totp, p: Peer, log: Log, r: Ref, now: Time)
    requires PeerOK(p, log, r, true, false) && p.cur.Some? && p.RequiresMFA() && !p.authed
    ensures EventOK(totp, log, CodeRejected(r, now))
    ensures PeerOK(p.Struck(now), log + [CodeRejected(r, now)], r, true, p.attempts + 1 >= 3)
  {
    Snoc(log, CodeRejected(r, now));
  }

  lemma PassOK(env: Env, s: State, r: Ref, code: string, step: int, now: Time)
    requires Sound(env, s, None) && Reg(s, r) && s.objs[r].cur.Some? && s.objs[r].RequiresMFA()
    requires CheckTotp(env.totp, s.objs[r].cfg.totpSecret, code, now) == Some(step) && step >= s.objs[r].lastStep
    ensures Keeps(env, s, Passed(s, env, r, code, step, now))
  {
    var p := s.objs[r];
    PeerFacts(env, s, r, None);
    HintFacts(env, s, None);
    PassPeer(env.totp, p, s.log, r, code, step, now);
    PlainStep(env, s, s.addr2peer, s.nextKey, r, p.Proven(step),
              CodeAccepted(r, p.cfg.totpSecret, code, step, now), None, None);
    var s1 := Pass(s, env, r, code, step, now);
    SealLink(env, s, s1, r, AuthResult, env.json(CodeOk), now);
    SealLink(env, s, Seal(s1, r, AuthResult, env.json(CodeOk), now), r, Info, env.json(ServerInfo), now);
  }

  /** Between the third wrong code and the end of its handling the peer's sessions still stand. */
  lemma FailOK(env: Env, s: State, r: Ref, now: Time)
    requires Sound(env, s, None) && Reg(s, r) && s.objs[r].cur.Some? && s.objs[r].RequiresMFA() && !s.objs[r].authed
    ensures Keeps(env, s, Failed(s, env, r, now))
  {
    var p := s.objs[r];
    var x := if p.attempts + 1 >= 3 then Some(r) else None;
    PeerFacts(env, s, r, None);
    HintFacts(env, s, None);
    FailPeer(env.totp, p, s.log, r, now);
    var s1 := Fail(s, env, r, now);
    PlainStep(env, s, s.addr2peer, s.nextKey, r, p.Struck(now), CodeRejected(r, now), None, x);
    var s2 := Seal(s1, r, AuthResult, env.json(CodeWrong), now);
    SealOK(env, s1, r, AuthResult, env.json(CodeWrong), now, x);
    SameChain(s, s1, s2);
    if x.Some? { DropOK(env, s2, r, x); SameChain(s, s2, Drop(s2, r)); }
  }

  lemma AuthResponseOK(env: Env, s: State, r: Ref, payload: Payload, now: Time)
    requires Sound(env, s, None) && Reg(s, r) && s.objs[r].cur.Some?
    ensures Keeps(env, s, AuthResponse(s, env, r, payload, now))
  {
    if env.codeOf(payload).Some? && s.objs[r].RequiresMFA() {
      var p, code := s.objs[r], env.codeOf(payload).value;
      var step := CheckTotp(env.totp, p.cfg.totpSecret, code, now);
      if p.authed {
        SealOK(env, s, r, AuthResult, env.json(CodeOk), now, None);
      } else if now < p.lockedUntil {
        SealOK(env, s, r, AuthResult, env.json(CodeLocked), now, None);
      } else if step.Some? && step.value >= p.lastStep {
        PassOK(env, s, r, code, step.value, now);
      } else {
        FailOK(env, s, r, now);
      }
    }
  }

  // ---------------------------------------------------------------------- relay

  lemma CountedOK(env: Env, s: State, v: Verdict)
    requires Sound(env, s, None)
    ensures Keeps(env, s, Counted(s, v))
  {
    var s2 := Counted(s, v);
    assert Core(env, s, None) by { assert Look(0); }
    assert forall r <- s.objs :: Reg(s2, r) == Reg(s, r);
  }

  lemma ForwardOK(env: Env, s: State, to: Ref, v: Verdict, pkt: Payload, now: Time)
    requires Sound(env, s, None)
    ensures Keeps(env, s, Counted(SendTo(s, to, pkt, now), v))
  {
    var s1 := SendTo(s, to, pkt, now);
    SealOK(env, s, to, Data, pkt, now, None);
    assert Keeps(env, s, s1);
    CountedOK(env, s1, v);
    Chain(env, s, s1, Counted(s1, v));
  }

  lemma ActOK(env: Env, s: State, r: Ref, v: Verdict, pkt: Payload, now: Time)
    requires Sound(env, s, None)
    ensures Keeps(env, s, Act(s, r, v, pkt, now))
  {
    match v
    case ToAgent(a) => ForwardOK(env, s, a, v, pkt, now);
    case ToClient(c) => ForwardOK(env, s, c, v, pkt, now);
    case Local => if PingAnswerOf(pkt).Some? { ForwardOK(env, s, r, v, PingAnswerOf(pkt).value, now); }
    case _ => CountedOK(env, s, v);
  }

  /** The frame that brought the packet was the last thing that happened. */
  ghost predicate JustAccepted(log: Log, r: Ref, typ: FrameType, payload: Payload) {
    log != [] && var e := log[|log| - 1]; e.Accepted? && e.peer == r && e.typ == typ && e.payload == payload
  }

  lemma HandOverOK(env: Env, s: State, r: Ref, pkt: Payload)
    requires Sound(env, s, None) && Reg(s, r) && JustAccepted(s.log, r, Data, pkt)
    requires s.objs[r].RequiresMFA() ==> s.objs[r].authed
    ensures Keeps(env, s, Emit(s, Delivered(r, s.objs[r].cfg.totpSecret, pkt)))
  {
    PeerFacts(env, s, r, None);
    HintFacts(env, s, None);
    var p := s.objs[r];
    var e := Delivered(r, p.cfg.totpSecret, pkt);
    assert PeerOK(p, s.log + [e], r, true, false) by { Snoc(s.log, e); }
    PlainStep(env, s, s.addr2peer, s.nextKey, r, p, e, None, None);
    assert s.objs[r := p] == s.objs;
  }

  lemma DeliverOK(env: Env, s: State, r: Ref, pkt: Payload, now: Time)
    requires Sound(env, s, None) && Reg(s, r) && JustAccepted(s.log, r, Data, pkt)
    requires s.objs[r].RequiresMFA() ==> s.objs[r].authed
    ensures Keeps(env, s, Deliver(s, env, r, pkt, now))
  {
    if pkt != [] {
      var s1 := Emit(s, Delivered(r, s.objs[r].cfg.totpSecret, pkt));
      HandOverOK(env, s, r, pkt);
      if env.mode == Server && HubOf(s, env).Valid() && ParseReturns(pkt) {
        var v := Decide(HubOf(s, env), r, pkt);
        ActOK(env, s1, r, v, pkt, now);
        Chain(env, s, s1, Act(s1, r, v, pkt, now));
      }
    }
  }

  lemma DispatchOK(env: Env, s: State, r: Ref, typ: FrameType, payload: Payload, now: Time)
    requires Sound(env, s, None) && Reg(s, r) && JustAccepted(s.log, r, typ, payload) && s.objs[r].cur.Some?
    ensures Keeps(env, s, Dispatch(s, env, r, typ, payload, now))
  {
    match typ
    case Bye => DropOK(env, s, r, None);
    case AuthResp => AuthResponseOK(env, s, r, payload, now);
    case Data => if !(s.objs[r].RequiresMFA() && !s.objs[r].authed) { DeliverOK(env, s, r, payload, now); }
    case _ =>
  }

  lemma HandleDataOK(env: Env, s: State, addr: Endpoint, f: Frame, now: Time)
    requires Sound(env, s, None)
    ensures Keeps(env, s, HandleData(s, env, addr, f, now))
  {
    var o := Opener(s, f, now);
    if o.Some? {
      var r := o.value;
      var s1 := Accept(s, r, addr, f, now);
      AcceptOK(env, s, r, addr, f, now);
      SamePeer(s, s1, r);
      assert s1.log[|s1.log| - 1] == Accepted(r, f.box.value.key, f.nonce, f.typ, f.box.value.payload);
      DispatchOK(env, s1, r, f.typ, f.box.value.payload, now);
      Chain(env, s, s1, Dispatch(s1, env, r, f.typ, f.box.value.payload, now));
    }
  }

  // ----------------------------------------------------------------------- tick

  /** The self-healing branch of `tick` never fires. */
  lemma HealNeverFires(env: Env, s: State, r: Ref)
    requires Sound(env, s, None) && Reg(s, r)
    ensures Heal(s, r) == s
  {
    PeerFacts(env, s, r, None);
  }

  lemma ExpirePrevOK(env: Env, s: State, r: Ref, now: Time)
    requires Sound(env, s, None) && r in s.objs
    ensures Keeps(env, s, ExpirePrev(s, r, now))
  {
    PeerFacts(env, s, r, None);
    QuietStep(env, s, r, s.objs[r].Expired(now), None);
  }

  /** Timestamps the invariant does not speak of. */
  lemma StampOK(env: Env, s: State, r: Ref, challengeAt: Time, cmdAt: Time)
    requires Sound(env, s, None) && r in s.objs
    ensures Keeps(env, s, SetPeer(s, r, s.objs[r].(challengeAt := challengeAt, cmdAt := cmdAt)))
  {
    PeerFacts(env, s, r, None);
    QuietStep(env, s, r, s.objs[r].(challengeAt := challengeAt, cmdAt := cmdAt), None);
  }

  lemma MfaWatchOK(env: Env, s: State, r: Ref, now: Time)
    requires Sound(env, s, None) && r in s.objs
    ensures Keeps(env, s, MfaWatch(s, env, r, now))
  {
    var p := s.objs[r];
    if p.RequiresMFA() && p.cur.Some? && !p.authed {
      if now >= p.authDeadline {
        DropOK(env, s, r, None);
      } else if now - p.challengeAt > CHALLENGE_RETRY && p.CanSeal() {
        var s1 := Seal(s, r, AuthChallenge, env.json(Challenge(true)), now);
        SealOK(env, s, r, AuthChallenge, env.json(Challenge(true)), now, None);
        StampOK(env, s1, r, now, s1.objs[r].cmdAt);
        Chain(env, s, s1, SetPeer(s1, r, s1.objs[r].AskedAt(now)));
      }
    }
  }

  lemma StandDownOK(env: Env, s: State, r: Ref, now: Time)
    requires Sound(env, s, None) && r in s.objs
    ensures Keeps(env, s, StandDown(s, env, r, now))
  {
    var p := s.objs[r];
    StampOK(env, s, r, p.challengeAt, now);
    SealLink(env, s, SetPeer(s, r, p.ToldAt(now)), r, AgentCmd, env.json(Command("disable")), now);
  }

  lemma FirstHalfOK(env: Env, s: State, r: Ref, now: Time)
    requires Sound(env, s, None) && Reg(s, r)
    ensures Keeps(env, s, Aged(s, env, r, now))
  {
    HealNeverFires(env, s, r);
    var s1 := ExpirePrev(s, r, now);
    ExpirePrevOK(env, s, r, now);
    DropOK(env, s1, r, None);
    if DeadPeer(s1, env, r, now) != s1 { Chain(env, s, s1, DeadPeer(s1, env, r, now)); }
  }

  lemma TimeoutsOK(env: Env, s: State, r: Ref, now: Time)
    requires Sound(env, s, None) && Reg(s, r)
    ensures Keeps(env, s, MfaWatch(Aged(s, env, r, now), env, r, now))
  {
    var s2 := Aged(s, env, r, now);
    FirstHalfOK(env, s, r, now);
    SamePeer(s, s2, r);
    MfaWatchOK(env, s2, r, now);
    Chain(env, s, s2, MfaWatch(s2, env, r, now));
  }

  lemma TickPeerOK(env: Env, s: State, r: Ref, now: Time)
    requires Sound(env, s, None) && Reg(s, r)
    ensures Keeps(env, s, TickPeer(s, env, r, now))
  {
    var s3 := MfaWatch(Aged(s, env, r, now), env, r, now);
    TimeoutsOK(env, s, r, now);
    SamePeer(s, s3, r);
    StandDownOK(env, s3, r, now);
    var s4 := StandDown(s3, env, r, now);
    SamePeer(s3, s4, r);
    Chain(env, s, s3, s4);
    KeepAliveOK(env, s4, r, now);
    Chain(env, s, s4, KeepAlive(s4, env, r, now));
  }

  lemma KeepAliveOK(env: Env, s: State, r: Ref, now: Time)
    requires Sound(env, s, None) && r in s.objs
    ensures Keeps(env, s, KeepAlive(s, env, r, now))
  {
    SealOK(env, s, r, Keepalive, [], now, None);
  }

  lemma {:induction false} TickAllOK(env: Env, s: State, order: seq<Key>, now: Time)
    requires Sound(env, s, None)
    ensures Keeps(env, s, TickAll(s, env, order, now))
  {
    if order != [] {
      TickAllOK(env, s, order[..|order| - 1], now);
      var s1, k := TickAll(s, env, order[..|order| - 1], now), order[|order| - 1];
      HintFacts(env, s1, None);
      if k in s1.peers {
        TickPeerOK(env, s1, s1.peers[k], now);
        Chain(env, s, s1, TickPeer(s1, env, s1.peers[k], now));
      }
    }
  }

  lemma KickOK(env: Env, s: State, r: Ref, now: Time)
    requires Sound(env, s, None)
    ensures Keeps(env, s, Kick(s, env, r, now))
  {
    var s1 := Seal(s, r, AgentCmd, env.json(Command("kick")), now);
    SealOK(env, s, r, AgentCmd, env.json(Command("kick")), now, None);
    DropOK(env, s1, r, None);
    Chain(env, s, s1, Drop(s1, r));
  }

  lemma {:induction false} SendDataOK(env: Env, s: State, order: seq<Key>, pkt: Payload, now: Time)
    requires Sound(env, s, None)
    ensures Keeps(env, s, SendData(s, order, pkt, now))
  {
    if order != [] {
      SendDataOK(env, s, order[..|order| - 1], pkt, now);
      var s1, k := SendData(s, order[..|order| - 1], pkt, now), order[|order| - 1];
      if k in s1.peers { SealLink(env, s, s1, s1.peers[k], Data, pkt, now); }
    }
  }

  lemma {:induction false} SendCommandsOK(env: Env, s: State, cmds: seq<(Ref, string)>, now: Time)
    requires Sound(env, s, None)
    ensures Keeps(env, s, SendCommands(s, env, cmds, now))
  {
    if cmds != [] {
      SendCommandsOK(env, s, cmds[..|cmds| - 1], now);
      var s1, c := SendCommands(s, env, cmds[..|cmds| - 1], now), cmds[|cmds| - 1];
      SealLink(env, s, s1, c.0, AgentCmd, env.json(Command(c.1)), now);
    }
  }
}
