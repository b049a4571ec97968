/** What a server sends as DATA: nothing but what it relays, and its answers to pings. */
module Isolation {
  import opened Wrappers
  import opened IpHeaders
  import opened Peers
  import opened Routing
  import opened Relay
  import opened Trace
  import opened Responder
  import opened ResponderInvariant
  import opened ResponderSafety
  import opened ResponderRuns

  /** The log went on, without a DATA frame leaving. */
  ghost predicate NoData(a: Log, b: Log) {
    |a| <= |b| && b[..|a|] == a && forall i | |a| <= i < |b| :: !(b[i].Sealed? && b[i].typ == Data)
  }

  /** The log went on, without a session coming up. */
  ghost predicate NoJoin(a: Log, b: Log) {
    |a| <= |b| && b[..|a|] == a && forall i | |a| <= i < |b| :: !b[i].Installed?
  }

  ghost predicate Quiet(a: Log, b: Log) { NoData(a, b) && NoJoin(a, b) }

  lemma NoDataChain(a: Log, b: Log, c: Log)
    requires NoData(a, b) && NoData(b, c)
    ensures NoData(a, c)
  {
    assert forall i | 0 <= i < |b| :: c[i] == c[..|b|][i];
  }

  lemma NoJoinChain(a: Log, b: Log, c: Log)
    requires NoJoin(a, b) && NoJoin(b, c)
    ensures NoJoin(a, c)
  {
    assert forall i | 0 <= i < |b| :: c[i] == c[..|b|][i];
  }

  lemma QuietChain(a: Log, b: Log, c: Log)
    requires Quiet(a, b) && Quiet(b, c)
    ensures Quiet(a, c)
  {
    NoDataChain(a, b, c);
    NoJoinChain(a, b, c);
  }

  lemma QuietSeal(a: Log, s: State, r: Ref, typ: FrameType, payload: Payload, now: Time)
    requires Quiet(a, s.log) && typ != Data
    ensures Quiet(a, Seal(s, r, typ, payload, now).log)
  {
    QuietChain(a, s.log, Seal(s, r, typ, payload, now).log);
  }

  lemma QuietDrop(a: Log, s: State, r: Ref)
    requires Quiet(a, s.log)
    ensures Quiet(a, Drop(s, r).log)
  {
    QuietChain(a, s.log, Drop(s, r).log);
  }

  /** A handshake that goes through: the session, then nothing but frames other than DATA. */
  ghost predicate JoinsOnce(a: Log, b: Log, r: Ref) {
    |a| < |b| && b[..|a|] == a && b[|a|].Installed? && b[|a|].peer == r && Quiet(b[..|a| + 1], b)
  }

  lemma HandshakeJoins(env: Env, s: State, key: Key, addr: Endpoint, now: Time)
    ensures var s2 := Handshake(s, env, key, addr, now);
      NoData(s.log, s2.log) && (s2 == s || (key in s.peers && JoinsOnce(s.log, s2.log, s.peers[key])))
  {
    var s2 := Handshake(s, env, key, addr, now);
    if s2 != s {
      var r := s.peers[key];
      var p := s.objs[r];
      var s1 := Install(s, env, r, addr, now);
      var challenge := env.json(Challenge(p.RequiresMFA() && !p.authed));
      QuietSeal(s1.log, s1, r, AuthChallenge, challenge, now);
      QuietSeal(s1.log, Seal(s1, r, AuthChallenge, challenge, now), r, Info, env.json(ServerInfo), now);
      assert s2.log[..|s1.log|] == s1.log && s1.log == s.log + [Installed(r, s.nextKey, s.nextKey + 1, now)];
    }
  }

  lemma QuietPassed(env: Env, s: State, r: Ref, code: string, step: int, now: Time)
    requires r in s.objs
    ensures Quiet(s.log, Passed(s, env, r, code, step, now).log)
  {
    var s1 := Pass(s, env, r, code, step, now);
    QuietSeal(s.log, s1, r, AuthResult, env.json(CodeOk), now);
    QuietSeal(s.log, Seal(s1, r, AuthResult, env.json(CodeOk), now), r, Info, env.json(ServerInfo), now);
  }

  lemma QuietFailed(env: Env, s: State, r: Ref, now: Time)
    requires r in s.objs
    ensures Quiet(s.log, Failed(s, env, r, now).log)
  {
    var s1 := Fail(s, env, r, now);
    QuietSeal(s.log, s1, r, AuthResult, env.json(CodeWrong), now);
    QuietDrop(s.log, Seal(s1, r, AuthResult, env.json(CodeWrong), now), r);
  }

  lemma QuietAuthResponse(env: Env, s: State, r: Ref, payload: Payload, now: Time)
    ensures Quiet(s.log, AuthResponse(s, env, r, payload, now).log)
  {
    if r in s.objs && env.codeOf(payload).Some? && s.objs[r].RequiresMFA() {
      var p, code := s.objs[r], env.codeOf(payload).value;
      var step := CheckTotp(env.totp, p.cfg.totpSecret, code, now);
      if p.authed {
        QuietSeal(s.log, s, r, AuthResult, env.json(CodeOk), now);
      } else if now < p.lockedUntil {
        QuietSeal(s.log, s, r, AuthResult, env.json(CodeLocked), now);
      } else if step.Some? && step.value >= p.lastStep {
        QuietPassed(env, s, r, code, step.value, now);
      } else {
        QuietFailed(env, s, r, now);
      }
    }
  }

  lemma QuietAged(a: Log, env: Env, s: State, r: Ref, now: Time)
    requires Quiet(a, s.log) && r in s.objs
    ensures Quiet(a, Aged(s, env, r, now).log)
  {
    QuietDrop(a, ExpirePrev(Heal(s, r), r, now), r);
  }

  lemma QuietWatch(a: Log, env: Env, s: State, r: Ref, now: Time)
    requires Quiet(a, s.log) && r in s.objs
    ensures Quiet(a, MfaWatch(s, env, r, now).log)
  {
    QuietDrop(a, s, r);
    QuietSeal(a, s, r, AuthChallenge, env.json(Challenge(true)), now);
  }

  lemma QuietStandDown(a: Log, env: Env, s: State, r: Ref, now: Time)
    requires Quiet(a, s.log) && r in s.objs
    ensures Quiet(a, StandDown(s, env, r, now).log)
  {
    QuietSeal(a, SetPeer(s, r, s.objs[r].ToldAt(now)), r, AgentCmd, env.json(Command("disable")), now);
  }

  lemma {:induction false} QuietTick(env: Env, s: State, order: seq<Key>, now: Time)
    ensures Quiet(s.log, TickAll(s, env, order, now).log)
  {
    if order != [] {
      var s1, k := TickAll(s, env, order[..|order| - 1], now), order[|order| - 1];
      QuietTick(env, s, order[..|order| - 1], now);
      if k in s1.peers && s1.peers[k] in s1.objs { QuietTickPeer(s.log, env, s1, s1.peers[k], now); }
    }
  }

  lemma QuietTickPeer(a: Log, env: Env, s: State, r: Ref, now: Time)
    requires Quiet(a, s.log) && r in s.objs
    ensures Quiet(a, TickPeer(s, env, r, now).log)
  {
    var s1 := Aged(s, env, r, now);
    QuietAged(a, env, s, r, now);
    var s2 := MfaWatch(s1, env, r, now);
    QuietWatch(a, env, s1, r, now);
    QuietStandDown(a, env, s2, r, now);
    QuietSeal(a, StandDown(s2, env, r, now), r, Keepalive, [], now);
  }

  lemma {:induction false} QuietCommands(a: Log, env: Env, s: State, cmds: seq<(Ref, string)>, now: Time)
    requires Quiet(a, s.log)
    ensures Quiet(a, SendCommands(s, env, cmds, now).log)
  {
    if cmds != [] {
      var s1, c := SendCommands(s, env, cmds[..|cmds| - 1], now), cmds[|cmds| - 1];
      QuietCommands(a, env, s, cmds[..|cmds| - 1], now);
      QuietSeal(a, s1, c.0, AgentCmd, env.json(Command(c.1)), now);
    }
  }

  lemma QuietSecret(a: Log, s: State, r: Ref, secret: string)
    requires Quiet(a, s.log) && r in s.objs
    ensures Quiet(a, ChangeSecret(s, r, secret).log)
  {
    QuietChain(a, s.log, ChangeSecret(s, r, secret).log);
  }

  lemma {:induction false} QuietClients(s: State, m: Registry, o1: seq<Key>, o2: seq<Key>)
    ensures Quiet(s.log, ApplyClients(s, m, o1, o2).log)
    decreases |o1| + |o2|
  {
    if o2 != [] {
      var s1, k := ApplyClients(s, m, o1, o2[..|o2| - 1]), o2[|o2| - 1];
      QuietClients(s, m, o1, o2[..|o2| - 1]);
      if k in m && k in s1.peers && s1.peers[k] in s1.objs { QuietSecret(s.log, s1, s1.peers[k], m[k].totpSecret); }
    } else if o1 != [] {
      var front := o1[..|o1| - 1];
      QuietClients(s, m, front, []);
      var s1 := RevokeClients(s, m, front);
      QuietChain(s.log, s1.log, RevokeClient(s1, m, o1[|o1| - 1]).log);
    }
  }

  lemma {:induction false} QuietUpdates(s: State, m: Registry, order: seq<Key>)
    ensures Quiet(s.log, UpdateAgents(s, m, order).0.log)
  {
    if order != [] {
      var s1, k := UpdateAgents(s, m, order[..|order| - 1]).0, order[|order| - 1];
      QuietUpdates(s, m, order[..|order| - 1]);
      QuietChain(s.log, s1.log, UpdateAgent(s1, m, k).log);
    }
  }

  lemma {:induction false} QuietMerges(s: State, m: Registry, order: seq<Key>)
    ensures MergeAgents(s, m, order).log == s.log
  {
    if order != [] { QuietMerges(s, m, order[..|order| - 1]); }
  }

  /** Besides data frames nothing a server handles makes it send DATA, and besides handshakes none of
      it brings a session. */
  lemma QuietOtherwise(env: Env, s: State, a: Action, now: Time)
    requires !a.DataFrame? && (env.mode == Server || !a.TunPacket?)
    ensures NoData(s.log, Next(s, env, a, now).log)
    ensures !a.HandshakeMsg? ==> NoJoin(s.log, Next(s, env, a, now).log)
  {
    match a
    case HandshakeMsg(key, addr) => HandshakeJoins(env, s, key, addr, now);
    case TickNow(order) => QuietTick(env, s, order, now);
    case Start(_) =>
    case ReloadClients(m, o1, o2, _) => QuietClients(s, m, o1, o2);
    case ReloadAgents(m, o1, o2, t) =>
      QuietUpdates(s, m, o1);
      QuietMerges(UpdateAgents(s, m, o1).0, m, o2);
      var (s1, cmds) := ApplyAgents(s, m, o1, o2);
      QuietCommands(s.log, env, s1.(tables := t), cmds, now);
    case KickPeer(r) =>
      QuietSeal(s.log, s, r, AgentCmd, env.json(Command("kick")), now);
      QuietDrop(s.log, Seal(s, r, AgentCmd, env.json(Command("kick")), now), r);
    case RefreshPeer(r) => QuietSeal(s.log, s, r, AgentCmd, env.json(Command("stat")), now);
    case TunPacket(_, _) =>
  }

  // ------------------------------------------------------------- who brings sessions

  lemma {:induction false} SendDataJoinsNone(s: State, order: seq<Key>, pkt: Payload, now: Time)
    ensures NoJoin(s.log, SendData(s, order, pkt, now).log)
  {
    if order != [] { SendDataJoinsNone(s, order[..|order| - 1], pkt, now); }
  }

  lemma DeliverJoinsNone(env: Env, s: State, r: Ref, pkt: Payload, now: Time)
    ensures NoJoin(s.log, Deliver(s, env, r, pkt, now).log)
  {
    if r in s.objs {
      var s1 := Emit(s, Delivered(r, s.objs[r].cfg.totpSecret, pkt));
      forall v: Verdict ensures NoJoin(s.log, Act(s1, r, v, pkt, now).log) {
        ActJoinsNone(s1, r, v, pkt, now);
        NoJoinChain(s.log, s1.log, Act(s1, r, v, pkt, now).log);
      }
    }
  }

  lemma ActJoinsNone(s: State, r: Ref, v: Verdict, pkt: Payload, now: Time)
    ensures NoJoin(s.log, Act(s, r, v, pkt, now).log)
  {
  }

  lemma DataJoinsNone(env: Env, s: State, addr: Endpoint, f: Frame, now: Time)
    ensures NoJoin(s.log, HandleData(s, env, addr, f, now).log)
  {
    var o := Opener(s, f, now);
    if o.Some? {
      var s1 := Accept(s, o.value, addr, f, now);
      DispatchJoinsNone(env, s1, o.value, f.typ, f.box.value.payload, now);
      NoJoinChain(s.log, s1.log, HandleData(s, env, addr, f, now).log);
    }
  }

  lemma DispatchJoinsNone(env: Env, s: State, r: Ref, typ: FrameType, payload: Payload, now: Time)
    requires r in s.objs
    ensures NoJoin(s.log, Dispatch(s, env, r, typ, payload, now).log)
  {
    if typ == Bye { QuietDrop(s.log, s, r); }
    if typ == AuthResp { QuietAuthResponse(env, s, r, payload, now); }
    if typ == Data { DeliverJoinsNone(env, s, r, payload, now); }
  }

  /** Only handshakes bring sessions. */
  lemma OthersJoinNone(env: Env, s: State, a: Action, now: Time)
    requires !a.HandshakeMsg?
    ensures NoJoin(s.log, Next(s, env, a, now).log)
  {
    if a.DataFrame? {
      DataJoinsNone(env, s, a.addr, a.frame, now);
    } else if a.TunPacket? {
      SendDataJoinsNone(s, a.order, a.pkt, now);
    } else {
      QuietOtherwise(env, s, a, now);
    }
  }

  // ---------------------------------------------------------------- data frames

  /** One end is a client, the other an agent its ACL names. */
  ghost predicate MayTalk(s: State, r: Ref, to: Ref) {
    && r in s.objs && to in s.objs && s.objs[r].cfg.role != s.objs[to].cfg.role
    && (if s.objs[r].cfg.role == RoleClient then Allows(s.objs[r].cfg, s.objs[to].cfg.Id())
        else Allows(s.objs[to].cfg, s.objs[r].cfg.Id()))
  }

  /** The last event is a DATA frame that may leave: the packet just delivered, to somebody its sender
      may talk to, or the answer to the ping just delivered, to its sender. */
  ghost predicate Relayed(s: State, log: Log, to: Ref) {
    && |log| >= 2 && log[|log| - 1].Sealed? && log[|log| - 2].Delivered? && to in s.objs && s.objs[to].cur.Some?
    && var out, come := log[|log| - 1], log[|log| - 2];
    && out.typ == Data && out.key == s.objs[to].cur.value.sendKey
    && ((out.payload == come.payload && MayTalk(s, come.peer, to))
        || (to == come.peer && PingAnswerOf(come.payload) == Some(out.payload)))
  }

  /** The log went on from `s`, and if DATA left, it was in the last event and rightly so. */
  ghost predicate Isolated(s: State, log: Log, to: Ref) {
    && |s.log| <= |log| && log[..|s.log|] == s.log
    && (NoData(s.log, log) || (NoData(s.log, log[..|log| - 1]) && Relayed(s, log, to)))
  }

  /** A delivery is followed by one relayed frame or by none. */
  lemma DeliverIsolated(env: Env, s: State, r: Ref, pkt: Payload, now: Time) returns (to: Ref)
    requires Inv(env, s) && env.mode == Server && Reg(s, r)
    ensures OneOrNone(s, Deliver(s, env, r, pkt, now).log, to)
  {
    to := r;
    if pkt != [] && ParseReturns(pkt) {
      var v := Decide(HubOf(s, env), r, pkt);
      VerdictMayTalk(env, s, r, pkt);
      to := ActIsolated(s, r, v, pkt, now);
      assert Deliver(s, env, r, pkt, now) == Act(Emit(s, Delivered(r, s.objs[r].cfg.totpSecret, pkt)), r, v, pkt, now);
    }
  }

  lemma VerdictMayTalk(env: Env, s: State, r: Ref, pkt: Payload)
    requires Inv(env, s) && env.mode == Server && Reg(s, r) && ParseReturns(pkt)
    ensures HubOf(s, env).Valid()
    ensures var v := Decide(HubOf(s, env), r, pkt);
      (v.ToAgent? ==> MayTalk(s, r, v.agent)) && (v.ToClient? ==> MayTalk(s, r, v.client))
  {
    RelayIsSafe(env, s, r, pkt);
  }

  lemma ActIsolated(s: State, r: Ref, v: Verdict, pkt: Payload, now: Time) returns (to: Ref)
    requires r in s.objs && (v.ToAgent? ==> MayTalk(s, r, v.agent)) && (v.ToClient? ==> MayTalk(s, r, v.client))
    ensures OneOrNone(s, Act(Emit(s, Delivered(r, s.objs[r].cfg.totpSecret, pkt)), r, v, pkt, now).log, to)
  {
    to := r;
    match v
    case ToAgent(a) => to := a; ForwardIsolated(s, r, a, v, pkt, now);
    case ToClient(c) => to := c; ForwardIsolated(s, r, c, v, pkt, now);
    case Local => AnswerIsolated(s, r, pkt, now);
    case _ =>
  }

  /** After a delivery: no DATA left, or one frame directly after it and rightly so. */
  ghost predicate OneOrNone(s: State, log: Log, to: Ref) {
    NoData(s.log, log) || (|log| == |s.log| + 2 && log[..|s.log|] == s.log && Relayed(s, log, to))
  }

  lemma ForwardIsolated(s: State, r: Ref, to: Ref, v: Verdict, pkt: Payload, now: Time)
    requires r in s.objs && MayTalk(s, r, to)
    ensures OneOrNone(s, Forwarded(Emit(s, Delivered(r, s.objs[r].cfg.totpSecret, pkt)), to, v, pkt, now).log, to)
  {
    SendIsOne(s, Emit(s, Delivered(r, s.objs[r].cfg.totpSecret, pkt)), to, pkt, now);
  }

  lemma AnswerIsolated(s: State, r: Ref, pkt: Payload, now: Time)
    requires r in s.objs
    ensures OneOrNone(s, Answered(Emit(s, Delivered(r, s.objs[r].cfg.totpSecret, pkt)), r, pkt, now).log, r)
  {
    var o := PingAnswerOf(pkt);
    if o.Some? { PongIsolated(s, Emit(s, Delivered(r, s.objs[r].cfg.totpSecret, pkt)), r, pkt, o.value, now); }
  }

  lemma PongIsolated(s: State, s1: State, r: Ref, pkt: Payload, reply: Payload, now: Time)
    requires r in s.objs && s1 == Emit(s, Delivered(r, s.objs[r].cfg.totpSecret, pkt))
    requires PingAnswerOf(pkt) == Some(reply)
    ensures OneOrNone(s, SendTo(s1, r, reply, now).log, r)
  {
    SendIsOne(s, s1, r, reply, now);
  }

  lemma SendIsOne(s: State, s1: State, to: Ref, payload: Payload, now: Time)
    requires |s1.log| == |s.log| + 1 && s1.log[..|s.log|] == s.log && s1.log[|s.log|].Delivered? && s1.objs == s.objs
    ensures var log := SendTo(s1, to, payload, now).log;
      if CanSend(s1, to) then
        |log| == |s.log| + 2 && log[..|s.log|] == s.log && log[|s.log|] == s1.log[|s.log|]
        && log[|s.log| + 1] == Sealed(s.objs[to].cur.value.sendKey, s.objs[to].cur.value.sendNonce, Data, payload)
      else log == s1.log
  {
  }

  /** Accepting changes no key and no configuration. */
  lemma AcceptedAlike(s: State, r: Ref, addr: Endpoint, f: Frame, now: Time)
    requires CanOpen(s, r, f, now)
    ensures var s1 := Accept(s, r, addr, f, now);
      forall q <- s1.objs :: q in s.objs && s1.objs[q].cfg == s.objs[q].cfg
        && (s1.objs[q].cur.Some? ==> s.objs[q].cur.Some? && s1.objs[q].cur.value.sendKey == s.objs[q].cur.value.sendKey)
  {
  }

  lemma DispatchQuiet(env: Env, s: State, r: Ref, typ: FrameType, payload: Payload, now: Time)
    requires r in s.objs && (typ != Data || (s.objs[r].RequiresMFA() && !s.objs[r].authed))
    ensures Quiet(s.log, Dispatch(s, env, r, typ, payload, now).log)
  {
    if typ == Bye { QuietDrop(s.log, s, r); }
    if typ == AuthResp { QuietAuthResponse(env, s, r, payload, now); }
  }

  /** Isolation, step by step: if a server sends DATA at all it is one frame, directly after the packet
      it relays or answers, and only between ends that may talk to each other. */
  lemma StepIsolated(env: Env, s: State, a: Action, now: Time) returns (to: Ref)
    requires Inv(env, s) && env.mode == Server
    ensures Isolated(s, Next(s, env, a, now).log, to)
  {
    to := 0;
    var s2 := Next(s, env, a, now);
    if a.DataFrame? {
      to := DataIsolated(env, s, a.addr, a.frame, now);
      assert s2 == HandleData(s, env, a.addr, a.frame, now);
    } else {
      QuietOtherwise(env, s, a, now);
    }
  }

  lemma DataIsolated(env: Env, s: State, addr: Endpoint, f: Frame, now: Time) returns (to: Ref)
    requires Inv(env, s) && env.mode == Server
    ensures Isolated(s, HandleData(s, env, addr, f, now).log, to)
  {
    to := 0;
    var o := Opener(s, f, now);
    if o.Some? {
      var r, pkt := o.value, f.box.value.payload;
      var s1 := Accept(s, r, addr, f, now);
      AcceptOK(env, s, r, addr, f, now);
      KeepsInv(env, s, s1);
      SamePeer(s, s1, r);
      AcceptedAlike(s, r, addr, f, now);
      var s2 := Dispatch(s1, env, r, f.typ, pkt, now);
      if f.typ != Data || (s1.objs[r].RequiresMFA() && !s1.objs[r].authed) {
        DispatchQuiet(env, s1, r, f.typ, pkt, now);
        QuietChain(s.log, s1.log, s2.log);
      } else {
        to := DeliverIsolated(env, s1, r, pkt, now);
        AfterAccept(s, s1, s2.log, to);
      }
    }
  }

  /** From the state after the acceptance back to the one before. */
  lemma AfterAccept(s: State, s1: State, log: Log, to: Ref)
    requires |s1.log| == |s.log| + 1 && s1.log[..|s.log|] == s.log && s1.log[|s.log|].Accepted?
    requires forall q <- s1.objs ::
      && q in s.objs && s1.objs[q].cfg == s.objs[q].cfg
      && (s1.objs[q].cur.Some? ==> s.objs[q].cur.Some? && s1.objs[q].cur.value.sendKey == s.objs[q].cur.value.sendKey)
    requires OneOrNone(s1, log, to)
    ensures Isolated(s, log, to)
  {
    assert Quiet(s.log, s1.log);
    assert log[..|s.log|] == log[..|s1.log|][..|s.log|];
    if NoData(s1.log, log) {
      NoDataChain(s.log, s1.log, log);
    } else {
      assert NoData(s1.log, log[..|log| - 1]);
      NoDataChain(s.log, s1.log, log[..|log| - 1]);
    }
  }

  /** Isolation over whole runs: every DATA frame a server ever sealed directly follows the delivery it
      relays or answers, and at that moment both ends were allowed to talk. */
  lemma {:induction false} RunIsolated(env: Env, statics: seq<PeerConfig>, actions: seq<(Action, Time)>, i: nat)
      returns (n: nat, to: Ref)
    requires env.mode == Server
    requires var log := Exec(env, statics, actions).log; i < |log| && log[i].Sealed? && log[i].typ == Data
    ensures n < |actions| && Relayed(Exec(env, statics, actions[..n]), Exec(env, statics, actions).log[..i + 1], to)
  {
    InitialIsSilent(statics);
    n := |actions| - 1;
    var s, s2 := Exec(env, statics, actions[..n]), Exec(env, statics, actions);
    assert s2 == Next(s, env, actions[n].0, actions[n].1);
    RunOK(env, statics, actions[..n]);
    to := StepIsolated(env, s, actions[n].0, actions[n].1);
    if i < |s.log| {
      Earlier(s.log, s2.log, i);
      n, to := RunIsolated(env, statics, actions[..n], i);
      assert actions[..|actions| - 1][..n] == actions[..n];
    } else {
      LastIsData(s, s2.log, i, to);
    }
  }

  lemma Earlier(a: Log, b: Log, i: nat)
    requires i < |a| <= |b| && b[..|a|] == a
    ensures b[i] == a[i] && b[..i + 1] == a[..i + 1]
  {
    assert b[..i + 1] == b[..|a|][..i + 1];
  }

  lemma LastIsData(s: State, log: Log, i: nat, to: Ref)
    requires Isolated(s, log, to) && |s.log| <= i < |log| && log[i].Sealed? && log[i].typ == Data
    ensures Relayed(s, log[..i + 1], to)
  {
    var front := log[..|log| - 1];
    assert forall k | 0 <= k < |front| :: front[k] == log[k];
    assert log[..|log|] == log;
  }

  lemma {:induction false} InitialIsSilent(statics: seq<PeerConfig>)
    ensures Initial(statics).log == []
  {
    if statics != [] { InitialIsSilent(statics[..|statics| - 1]); }
  }
}
