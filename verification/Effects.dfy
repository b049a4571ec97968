/** What a message or a tick does to log, counters and peers, told without naming any handler. */
module Effects {
  import opened Wrappers
  import opened IpHeaders
  import opened Peers
  import opened Routing
  import opened Relay
  import opened Trace
  import opened Responder
  import opened ResponderInvariant
  import opened ResponderSafety
  import opened RegistryReload
  import opened ResponderRuns
  import opened Outcomes
  import Isolation

  // -------------------------------------------------------------- what leaves

  /** Frames leaving under one key with consecutive nonces from `n` on, until the nonces run out. */
  function Leaving(key: nat, n: nat, frames: seq<(FrameType, Payload)>): seq<Event>
    decreases |frames|
  {
    if frames == [] || n > 0xFFFF_FFFF_FFFF_FFFE then []
    else [Sealed(key, n, frames[0].0, frames[0].1)] + Leaving(key, n + 1, frames[1..])
  }

  /** The frames leaving peer `p`'s session. */
  function FromPeer(p: Peer, frames: seq<(FrameType, Payload)>): seq<Event> {
    if p.cur.Some? then Leaving(p.cur.value.sendKey, p.cur.value.sendNonce, frames) else []
  }

  lemma OneLeaves(p: Peer, typ: FrameType, payload: Payload)
    ensures FromPeer(p, [(typ, payload)])
      == if p.cur.Some? && p.cur.value.sendNonce <= 0xFFFF_FFFF_FFFF_FFFE
         then [Sealed(p.cur.value.sendKey, p.cur.value.sendNonce, typ, payload)] else []
  {
    if p.cur.Some? { LeavingOne(p.cur.value.sendKey, p.cur.value.sendNonce, [(typ, payload)]); }
  }

  lemma LeavingOne(key: nat, n: nat, fs: seq<(FrameType, Payload)>)
    requires |fs| == 1
    ensures Leaving(key, n, fs) == if n <= 0xFFFF_FFFF_FFFF_FFFE then [Sealed(key, n, fs[0].0, fs[0].1)] else []
  {
    assert fs[1..] == [] && Leaving(key, n + 1, fs[1..]) == [];
  }

  lemma TwoLeave(p: Peer, a: (FrameType, Payload), b: (FrameType, Payload), now: Time)
    ensures FromPeer(p, [a, b])
      == FromPeer(p, [a]) + if p.CanSeal() then FromPeer(p.Spent(now), [b]) else FromPeer(p, [b])
  {
    assert [a, b][1..] == [b] && [b][1..] == [] && [a][1..] == [];
    if p.CanSeal() {
      var c := p.cur.value;
      assert Leaving(c.sendKey, c.sendNonce, [a]) == [Sealed(c.sendKey, c.sendNonce, a.0, a.1)] + [];
    }
  }

  lemma SealLeaves(s: State, r: Ref, typ: FrameType, payload: Payload, now: Time)
    requires r in s.objs
    ensures var s2 := Seal(s, r, typ, payload, now);
      && s2.log == s.log + FromPeer(s.objs[r], [(typ, payload)]) && s2.counters == s.counters
      && s2.objs == s.objs[r := if s.objs[r].CanSeal() then s.objs[r].Spent(now) else s.objs[r]]
  {
    OneLeaves(s.objs[r], typ, payload);
    assert s.objs[r := s.objs[r]] == s.objs;
  }

  lemma TwoSealed(s: State, r: Ref, a: (FrameType, Payload), b: (FrameType, Payload), now: Time)
    requires r in s.objs
    ensures var s2 := Seal(Seal(s, r, a.0, a.1, now), r, b.0, b.1, now);
      && s2.log == s.log + FromPeer(s.objs[r], [a, b]) && s2.counters == s.counters
      && s2.objs.Keys == s.objs.Keys && forall q <- s.objs :: q != r ==> s2.objs[q] == s.objs[q]
  {
    SealLeaves(s, r, a.0, a.1, now);
    SealLeaves(Seal(s, r, a.0, a.1, now), r, b.0, b.1, now);
    TwoLeave(s.objs[r], a, b, now);
  }

  // --------------------------------------------------------------- handshakes

  /** A handshake to the last field: two unused keys, the challenge and the server info as the first two frames,
      the older session kept for the grace period, a fresh round for a peer that owes a code. */
  lemma JoinOutcome(env: Env, s: State, key: Key, addr: Endpoint, now: Time)
    requires Sound(env, s, None)
    ensures key !in s.peers ==> Next(s, env, HandshakeMsg(key, addr), now) == s
    ensures key in s.peers ==> s.peers[key] in s.objs
    ensures key in s.peers ==> var s2, r, k := Next(s, env, HandshakeMsg(key, addr), now), s.peers[key], s.nextKey;
      var p := s.objs[r];
      var owes := p.cfg.totpSecret != "" && !p.authed;
      if p.cfg.totpSecret != "" && now < p.lockedUntil then s2 == s
      else
        && s2.log == s.log + [Installed(r, k, k + 1, now), Sealed(k, 0, AuthChallenge, env.json(Challenge(owes))),
                              Sealed(k, 1, Info, env.json(ServerInfo))]
        && s2.counters == s.counters && s2.peers == s.peers && s2.nextKey == k + 2
        && s2.objs == s.objs[r := p.(
             addr := Some(addr), cur := Some(Session(k, k + 1, now, 2, 0, ReplayWindows.FRESH)),
             prev := if p.cur.Some? then p.cur else p.prev,
             prevDeadline := if p.cur.Some? then now + env.grace else p.prevDeadline,
             lastRecv := now, lastSend := now,
             attempts := if owes then 0 else p.attempts,
             challengeAt := if owes then now else p.challengeAt,
             authDeadline := if owes then now + 120 * SECOND else p.authDeadline)]
  {
    HandshakeOutcome(env, s, key, addr, now);
    if key in s.peers { Greeted(env, s, s.peers[key], addr, now); }
  }

  // ------------------------------------------------------------- who is heard

  /** The session takes the frame: sealed under its key for exactly this nonce and header, the nonce
      unseen and less than 64 below the highest seen. */
  ghost predicate Takes(log: Log, c: Session, f: Frame) {
    && f.box.Some? && f.box.value.key == c.recvKey && f.box.value.nonce == f.nonce && f.box.value.typ == f.typ
    && f.nonce <= 0xFFFF_FFFF_FFFF_FFFE && f.nonce !in AcceptedNonces(log, c.recvKey)
    && forall m <- AcceptedNonces(log, c.recvKey) :: m < f.nonce + 64
  }

  lemma OpensIff(c: Session, log: Log, live: set<nat>, f: Frame)
    requires SessionOK(c, log, live)
    ensures Opens(c, f) <==> Takes(log, c, f)
  {
    ReplayWindows.AcceptableIff(c.window, AcceptedNonces(log, c.recvKey), f.nonce);
  }

  /** Whose frame it is: the registered peer whose current session takes it, or whose previous one does
      within its grace. */
  lemma OpenerIff(env: Env, s: State, f: Frame, now: Time, r: Ref)
    requires Sound(env, s, None)
    ensures Opener(s, f, now) == Some(r) <==>
      && r in s.objs && s.objs[r].cfg.pub in s.peers && s.peers[s.objs[r].cfg.pub] == r
      && ((s.objs[r].cur.Some? && Takes(s.log, s.objs[r].cur.value, f))
          || (s.objs[r].prev.Some? && now < s.objs[r].prevDeadline && Takes(s.log, s.objs[r].prev.value, f)))
  {
    if r in s.objs {
      var p, live := s.objs[r], WatchOf(s.log, r).live;
      PeerFacts(env, s, r, None);
      if p.cur.Some? { OpensIff(p.cur.value, s.log, live, f); }
      if p.prev.Some? { OpensIff(p.prev.value, s.log, live, f); }
      if CanOpen(s, r, f, now) { OpenerUnique(env, s, r, r, f, now); }
    }
  }

  function Counting(c: Option<Session>, f: Frame): Option<Session>
    requires f.box.Some?
  {
    if c.Some? && c.value.recvKey == f.box.value.key
    then Some(c.value.(window := c.value.window.Commit(f.nonce), recvCount := c.value.recvCount + 1)) else c
  }

  /** The peer after one of its frames was accepted: the session it came under counts it, and the peer was
      heard just now from that address. */
  function HeardFrom(p: Peer, f: Frame, addr: Endpoint, now: Time): Peer
    requires f.box.Some?
  {
    p.(cur := Counting(p.cur, f), prev := Counting(p.prev, f), lastRecv := now, addr := Some(addr))
  }

  function AcceptedFrom(r: Ref, f: Frame): Event
    requires f.box.Some?
  {
    Accepted(r, f.box.value.key, f.nonce, f.typ, f.box.value.payload)
  }

  lemma AcceptIs(env: Env, s: State, r: Ref, addr: Endpoint, f: Frame, now: Time)
    requires Inv(env, s) && Opener(s, f, now) == Some(r)
    ensures CanOpen(s, r, f, now) && s.objs[r].cur.Some?
    ensures var s1 := Accept(s, r, addr, f, now);
      && Inv(env, s1) && Reg(s1, r) && ConfigsOf(s1) == ConfigsOf(s) && s1.tables == s.tables
      && s1.log == s.log + [AcceptedFrom(r, f)] && s1.counters == s.counters
      && s1.objs == s.objs[r := HeardFrom(s.objs[r], f, addr, now)]
  {
    AcceptOK(env, s, r, addr, f, now);
    var s1 := Accept(s, r, addr, f, now);
    KeepsInv(env, s, s1);
    SamePeer(s, s1, r);
    SameConfigs(s, s1);
    PeerFacts(env, s, r, None);
  }

  // ----------------------------------------------------------------- payloads

  function One(b: bool): nat { if b then 1 else 0 }

  /** One more for what was decided, and for a forwarded packet one more in all and one in its direction. */
  predicate CountedAs(c: Counters, c2: Counters, v: Option<Verdict>) {
    && c2.malformed == c.malformed + One(v == Some(Malformed))
    && c2.spoofed == c.spoofed + One(v == Some(Spoofed))
    && c2.noRoute == c.noRoute + One(v == Some(NoRoute))
    && c2.denied == c.denied + One(v == Some(Denied))
    && c2.offline == c.offline + One(v == Some(Offline))
    && c2.localICMP == c.localICMP + One(v == Some(Local))
    && c2.forwarded == c.forwarded + One(v.Some? && (v.value.ToAgent? || v.value.ToClient?))
    && c2.toAgents == c.toAgents + One(v.Some? && v.value.ToAgent?)
    && c2.toClients == c.toClients + One(v.Some? && v.value.ToClient?)
  }

  /** Whom a verdict sends the packet to. */
  function Target(v: Verdict): Option<Ref> {
    match v
    case ToAgent(a) => Some(a)
    case ToClient(c) => Some(c)
    case _ => None
  }

  /** The frame that leaves for a packet: the packet itself to its target, a ping's answer to its sender. */
  function Sent(s: State, r: Ref, v: Verdict, pkt: Payload): seq<Event>
    requires r in s.objs
  {
    match v
    case ToAgent(a) => if a in s.objs then FromPeer(s.objs[a], [(Data, pkt)]) else []
    case ToClient(c) => if c in s.objs then FromPeer(s.objs[c], [(Data, pkt)]) else []
    case Local => if PingAnswerOf(pkt).Some? then FromPeer(s.objs[r], [(Data, PingAnswerOf(pkt).value)]) else []
    case _ => []
  }

  /** What is counted: a forwarded packet if it left, a ping for the hub if it was one, any refusal. */
  function Tallied(s: State, r: Ref, v: Verdict, pkt: Payload): Option<Verdict>
    requires r in s.objs
  {
    if Target(v).Some? && Sent(s, r, v, pkt) == [] then None
    else if v.Local? && PingAnswerOf(pkt).None? then None
    else Some(v)
  }

  /** Who gets no frame when peer `r` sends a packet. */
  predicate Bystander(q: Ref, r: Ref, v: Verdict) { Target(v) != Some(q) && !(v.Local? && q == r) }

  /** State, log and counters after the relay acted on a verdict. */
  predicate Acted(s: State, s2: State, r: Ref, v: Verdict, pkt: Payload)
    requires r in s.objs
  {
    && s2.log == s.log + Sent(s, r, v, pkt) && CountedAs(s.counters, s2.counters, Tallied(s, r, v, pkt))
    && s2.objs.Keys == s.objs.Keys && forall q <- s.objs :: Bystander(q, r, v) ==> s2.objs[q] == s.objs[q]
  }

  lemma ForwardIs(s: State, r: Ref, v: Verdict, pkt: Payload, to: Ref, now: Time)
    requires r in s.objs && to in s.objs && s.objs[to].authed && Target(v) == Some(to)
    ensures Acted(s, Forwarded(s, to, v, pkt, now), r, v, pkt)
  {
    OneLeaves(s.objs[to], Data, pkt);
    SealLeaves(s, to, Data, pkt, now);
  }

  lemma PongIs(s: State, r: Ref, pong: Payload, now: Time)
    requires r in s.objs && s.objs[r].authed
    ensures var s2 := Counted(SendTo(s, r, pong, now), Local);
      && s2.log == s.log + FromPeer(s.objs[r], [(Data, pong)]) && CountedAs(s.counters, s2.counters, Some(Local))
      && s2.objs.Keys == s.objs.Keys && forall q <- s.objs :: q != r ==> s2.objs[q] == s.objs[q]
  {
    OneLeaves(s.objs[r], Data, pong);
    SealLeaves(s, r, Data, pong, now);
  }

  lemma AnswerIs(s: State, r: Ref, pkt: Payload, now: Time)
    requires r in s.objs && s.objs[r].authed
    ensures Acted(s, Answered(s, r, pkt, now), r, Local, pkt)
  {
    var o := PingAnswerOf(pkt);
    if o.Some? { PongIs(s, r, o.value, now); }
  }

  lemma ActIs(s: State, r: Ref, v: Verdict, pkt: Payload, now: Time)
    requires r in s.objs && s.objs[r].authed
    requires Target(v).Some? ==> Target(v).value in s.objs && s.objs[Target(v).value].authed
    ensures Acted(s, Act(s, r, v, pkt, now), r, v, pkt)
  {
    match v
    case ToAgent(a) => ForwardIs(s, r, v, pkt, a, now);
    case ToClient(c) => ForwardIs(s, r, v, pkt, c, now);
    case Local => AnswerIs(s, r, pkt, now);
    case _ =>
  }

  /** Being heard changes nothing the relay looks at. */
  lemma HubKept(env: Env, s: State, s1: State, r: Ref, f: Frame, addr: Endpoint, now: Time)
    requires Reg(s, r) && f.box.Some? && s1.objs == s.objs[r := HeardFrom(s.objs[r], f, addr, now)]
    requires ConfigsOf(s1) == ConfigsOf(s) && s1.tables == s.tables && s1.peers == s.peers
    ensures HubOf(s1, env) == HubOf(s, env)
  {
    forall q ensures q in Ready(s1) <==> q in Ready(s) {
      assert Reg(s1, q) == Reg(s, q);
    }
    assert Ready(s1) == Ready(s);
  }

  /** Or what leaves. */
  lemma SentKept(s: State, s1: State, r: Ref, v: Verdict, pkt: Payload, f: Frame, addr: Endpoint, now: Time)
    requires r in s.objs && f.box.Some? && s1.objs == s.objs[r := HeardFrom(s.objs[r], f, addr, now)]
    ensures Sent(s1, r, v, pkt) == Sent(s, r, v, pkt) && Tallied(s1, r, v, pkt) == Tallied(s, r, v, pkt)
  {
    assert forall p: Peer, fs :: FromPeer(HeardFrom(p, f, addr, now), fs) == FromPeer(p, fs);
  }

  /** What a delivered packet comes to on a server. */
  ghost predicate Relays(s: State, s2: State, r: Ref, v: Verdict, addr: Endpoint, f: Frame, now: Time)
    requires r in s.objs && f.box.Some?
  {
    var pkt := f.box.value.payload;
    && s2.log == s.log + [AcceptedFrom(r, f), Delivered(r, s.objs[r].cfg.totpSecret, pkt)] + Sent(s, r, v, pkt)
    && CountedAs(s.counters, s2.counters, Tallied(s, r, v, pkt))
    && s2.objs.Keys == s.objs.Keys
    && forall q <- s.objs :: Bystander(q, r, v) ==>
         s2.objs[q] == if q == r then HeardFrom(s.objs[r], f, addr, now) else s.objs[q]
  }

  /** DATA on a server from a peer that owes no code: the payload is delivered, the verdict on it is the one
      for the hub as it stands, and exactly what the verdict says leaves and is counted. */
  lemma ServerDataOutcome(env: Env, s: State, addr: Endpoint, f: Frame, now: Time, r: Ref)
    requires Inv(env, s) && env.mode == Server && Opener(s, f, now) == Some(r)
    requires f.typ == Data && (s.objs[r].cfg.totpSecret == "" || s.objs[r].authed)
    requires f.box.value.payload != [] && ParseReturns(f.box.value.payload)
    ensures HubOf(s, env).Valid()
    ensures Relays(s, Next(s, env, DataFrame(addr, f), now), r, Decide(HubOf(s, env), r, f.box.value.payload),
                   addr, f, now)
  {
    var s1 := Accept(s, r, addr, f, now);
    AcceptIs(env, s, r, addr, f, now);
    HubKept(env, s, s1, r, f, addr, now);
    DeliverIs(env, s1, r, f.box.value.payload, now);
    var s2 := Deliver(s1, env, r, f.box.value.payload, now);
    assert Next(s, env, DataFrame(addr, f), now) == s2 by {
      NextIsDispatch(env, s, addr, f, now, r);
    }
    HeardThenDelivered(s, s1, s2, r, Decide(HubOf(s, env), r, f.box.value.payload), addr, f, now);
  }

  lemma NextIsDispatch(env: Env, s: State, addr: Endpoint, f: Frame, now: Time, r: Ref)
    requires Opener(s, f, now) == Some(r)
    ensures Next(s, env, DataFrame(addr, f), now)
      == Dispatch(Accept(s, r, addr, f, now), env, r, f.typ, f.box.value.payload, now)
  {
  }

  /** The same from the state after the acceptance on. */
  predicate Delivers(s: State, s2: State, r: Ref, v: Verdict, pkt: Payload)
    requires r in s.objs
  {
    && s2.log == s.log + [Delivered(r, s.objs[r].cfg.totpSecret, pkt)] + Sent(s, r, v, pkt)
    && CountedAs(s.counters, s2.counters, Tallied(s, r, v, pkt))
    && s2.objs.Keys == s.objs.Keys && forall q <- s.objs :: Bystander(q, r, v) ==> s2.objs[q] == s.objs[q]
  }

  lemma DeliverIs(env: Env, s: State, r: Ref, pkt: Payload, now: Time)
    requires Inv(env, s) && env.mode == Server && Reg(s, r) && (s.objs[r].cfg.totpSecret == "" || s.objs[r].authed)
    requires pkt != [] && ParseReturns(pkt)
    ensures HubOf(s, env).Valid()
    ensures Delivers(s, Deliver(s, env, r, pkt, now), r, Decide(HubOf(s, env), r, pkt), pkt)
  {
    TargetsAreAuthed(env, s, r, pkt);
    var v := Decide(HubOf(s, env), r, pkt);
    var s1 := Emit(s, Delivered(r, s.objs[r].cfg.totpSecret, pkt));
    ActIs(s1, r, v, pkt, now);
    DeliversActed(s, s1, Deliver(s, env, r, pkt, now), r, v, pkt);
  }

  lemma DeliversActed(s: State, s1: State, s2: State, r: Ref, v: Verdict, pkt: Payload)
    requires r in s.objs && s1 == Emit(s, Delivered(r, s.objs[r].cfg.totpSecret, pkt)) && Acted(s1, s2, r, v, pkt)
    ensures Delivers(s, s2, r, v, pkt)
  {
  }

  lemma HeardThenDelivered(s: State, s1: State, s2: State, r: Ref, v: Verdict, addr: Endpoint, f: Frame, now: Time)
    requires r in s.objs && f.box.Some? && s1.objs == s.objs[r := HeardFrom(s.objs[r], f, addr, now)]
    requires s1.log == s.log + [AcceptedFrom(r, f)] && s1.counters == s.counters
    requires Delivers(s1, s2, r, v, f.box.value.payload)
    ensures Relays(s, s2, r, v, addr, f, now)
  {
    SentKept(s, s1, r, v, f.box.value.payload, f, addr, now);
    LogJoins(s.log, AcceptedFrom(r, f), Delivered(r, s.objs[r].cfg.totpSecret, f.box.value.payload),
             Sent(s, r, v, f.box.value.payload));
  }

  lemma LogJoins(log: Log, a: Event, b: Event, more: seq<Event>)
    ensures log + [a] + [b] + more == log + [a, b] + more
  {
  }

  lemma TargetsAreAuthed(env: Env, s: State, r: Ref, pkt: Payload)
    requires Inv(env, s) && env.mode == Server && Reg(s, r) && ParseReturns(pkt)
    ensures HubOf(s, env).Valid()
    ensures var t := Target(Decide(HubOf(s, env), r, pkt)); t.Some? ==> t.value in s.objs && s.objs[t.value].authed
    ensures s.objs[r].cfg.totpSecret == "" ==> s.objs[r].authed
  {
    RelayIsSafe(env, s, r, pkt);
    PeerFacts(env, s, r, None);
  }

  // ------------------------------------------------------------- other frames

  /** The frame is only heard: it asks for nothing, or brings nothing its sender may have delivered. */
  predicate OnlyHeard(p: Peer, f: Frame)
    requires f.box.Some?
  {
    || f.typ in {Keepalive, AuthChallenge, AuthResult, Info, AgentInfo, AgentCmd}
    || (f.typ == Data && ((p.cfg.totpSecret != "" && !p.authed) || f.box.value.payload == []))
  }

  lemma HeardOutcome(env: Env, s: State, addr: Endpoint, f: Frame, now: Time, r: Ref)
    requires Inv(env, s) && Opener(s, f, now) == Some(r) && OnlyHeard(s.objs[r], f)
    ensures var s2 := Next(s, env, DataFrame(addr, f), now);
      && s2.log == s.log + [AcceptedFrom(r, f)] && s2.counters == s.counters
      && s2.objs == s.objs[r := HeardFrom(s.objs[r], f, addr, now)]
  {
    AcceptIs(env, s, r, addr, f, now);
    NextIsDispatch(env, s, addr, f, now, r);
  }

  /** A frame nobody can open changes nothing. */
  lemma StrangeOutcome(env: Env, s: State, addr: Endpoint, f: Frame, now: Time)
    requires Opener(s, f, now) == None
    ensures Next(s, env, DataFrame(addr, f), now) == s
  {
  }

  /** On a gateway DATA from a peer that owes no code is delivered, and nothing else happens. */
  lemma GatewayOutcome(env: Env, s: State, addr: Endpoint, f: Frame, now: Time, r: Ref)
    requires Inv(env, s) && env.mode == Gateway && Opener(s, f, now) == Some(r)
    requires f.typ == Data && (s.objs[r].cfg.totpSecret == "" || s.objs[r].authed) && f.box.value.payload != []
    ensures var s2 := Next(s, env, DataFrame(addr, f), now);
      && s2.log == s.log + [AcceptedFrom(r, f), Delivered(r, s.objs[r].cfg.totpSecret, f.box.value.payload)]
      && s2.counters == s.counters && s2.objs == s.objs[r := HeardFrom(s.objs[r], f, addr, now)]
  {
    AcceptIs(env, s, r, addr, f, now);
    NextIsDispatch(env, s, addr, f, now, r);
  }

  /** A bye costs its sender both sessions and any proof it gave; it may come back by a handshake. */
  lemma ByeOutcome(env: Env, s: State, addr: Endpoint, f: Frame, now: Time, r: Ref)
    requires Inv(env, s) && Opener(s, f, now) == Some(r) && f.typ == Bye
    ensures var s2 := Next(s, env, DataFrame(addr, f), now);
      && s2.log == s.log + [AcceptedFrom(r, f), Dropped(r)] && s2.counters == s.counters
      && s2.objs == s.objs[r := HeardFrom(s.objs[r], f, addr, now).(
           cur := None, prev := None, authed := s.objs[r].cfg.totpSecret == "")]
  {
    AcceptIs(env, s, r, addr, f, now);
    NextIsDispatch(env, s, addr, f, now, r);
  }

  // -------------------------------------------------------------------- codes

  /** What a submission adds to the log after its acceptance. */
  function Verdicts(env: Env, p: Peer, r: Ref, code: string, now: Time): seq<Event> {
    if p.authed then FromPeer(p, [(AuthResult, env.json(CodeOk))])
    else if now < p.lockedUntil then FromPeer(p, [(AuthResult, env.json(CodeLocked))])
    else
      var step := CheckTotp(env.totp, p.cfg.totpSecret, code, now);
      if step.Some? && step.value >= p.lastStep then
        [CodeAccepted(r, p.cfg.totpSecret, code, step.value, now)]
        + FromPeer(p, [(AuthResult, env.json(CodeOk)), (Info, env.json(ServerInfo))])
      else
        [CodeRejected(r, now)] + FromPeer(p, [(AuthResult, env.json(CodeWrong))])
          + if p.attempts == 2 then [Dropped(r)] else []
  }

  /** A code from the first submission to the reply: what is evaluated, answered and dropped, and that the
      gate is open afterwards exactly if it was or the code was right. */
  lemma CodeFrameOutcome(env: Env, s: State, addr: Endpoint, f: Frame, now: Time, r: Ref)
    requires Inv(env, s) && Opener(s, f, now) == Some(r) && f.typ == AuthResp
    requires s.objs[r].cfg.totpSecret != "" && env.codeOf(f.box.value.payload).Some?
    ensures var s2, p, code := Next(s, env, DataFrame(addr, f), now), s.objs[r], env.codeOf(f.box.value.payload).value;
      && s2.log == s.log + [AcceptedFrom(r, f)] + Verdicts(env, p, r, code, now) && s2.counters == s.counters
      && s2.objs.Keys == s.objs.Keys && (forall q <- s.objs :: q != r ==> s2.objs[q] == s.objs[q])
      && (s2.objs[r].authed <==> p.authed || (now >= p.lockedUntil && RightCode(env, p, code, now)))
  {
    var s1, code := Accept(s, r, addr, f, now), env.codeOf(f.box.value.payload).value;
    AcceptIs(env, s, r, addr, f, now);
    NextIsDispatch(env, s, addr, f, now, r);
    SubmissionIs(env, s1, r, f.box.value.payload, code, now);
    assert Verdicts(env, s1.objs[r], r, code, now) == Verdicts(env, s.objs[r], r, code, now);
  }

  lemma SubmissionIs(env: Env, s: State, r: Ref, payload: Payload, code: string, now: Time)
    requires Inv(env, s) && Reg(s, r) && s.objs[r].cfg.totpSecret != "" && env.codeOf(payload) == Some(code)
    requires s.objs[r].cur.Some?
    ensures var s2, p := AuthResponse(s, env, r, payload, now), s.objs[r];
      && s2.log == s.log + Verdicts(env, p, r, code, now) && s2.counters == s.counters
      && s2.objs.Keys == s.objs.Keys && (forall q <- s.objs :: q != r ==> s2.objs[q] == s.objs[q])
      && (s2.objs[r].authed <==> p.authed || (now >= p.lockedUntil && RightCode(env, p, code, now)))
  {
    PeerFacts(env, s, r, None);
    var p := s.objs[r];
    var step := CheckTotp(env.totp, p.cfg.totpSecret, code, now);
    if p.authed {
      SealLeaves(s, r, AuthResult, env.json(CodeOk), now);
    } else if now < p.lockedUntil {
      SealLeaves(s, r, AuthResult, env.json(CodeLocked), now);
    } else if step.Some? && step.value >= p.lastStep {
      RightIs(env, s, r, code, step.value, now);
    } else {
      WrongIs(env, s, r, now);
    }
  }

  lemma RightIs(env: Env, s: State, r: Ref, code: string, step: int, now: Time)
    requires r in s.objs
    ensures var s2, p := Passed(s, env, r, code, step, now), s.objs[r];
      && s2.log == s.log + ([CodeAccepted(r, p.cfg.totpSecret, code, step, now)]
                            + FromPeer(p, [(AuthResult, env.json(CodeOk)), (Info, env.json(ServerInfo))]))
      && s2.counters == s.counters && s2.objs.Keys == s.objs.Keys && s2.objs[r].authed
      && (forall q <- s.objs :: q != r ==> s2.objs[q] == s.objs[q])
  {
    var s1, p := Pass(s, env, r, code, step, now), s.objs[r];
    TwoSealed(s1, r, (AuthResult, env.json(CodeOk)), (Info, env.json(ServerInfo)), now);
    assert FromPeer(s1.objs[r], [(AuthResult, env.json(CodeOk)), (Info, env.json(ServerInfo))])
      == FromPeer(p, [(AuthResult, env.json(CodeOk)), (Info, env.json(ServerInfo))]);
  }

  lemma WrongIs(env: Env, s: State, r: Ref, now: Time)
    requires r in s.objs && s.objs[r].attempts <= 2 && s.objs[r].cfg.totpSecret != "" && !s.objs[r].authed
    ensures var s2, p := Failed(s, env, r, now), s.objs[r];
      && s2.log == s.log + [CodeRejected(r, now)] + FromPeer(p, [(AuthResult, env.json(CodeWrong))])
                   + (if p.attempts == 2 then [Dropped(r)] else [])
      && s2.counters == s.counters && s2.objs.Keys == s.objs.Keys && !s2.objs[r].authed
      && (forall q <- s.objs :: q != r ==> s2.objs[q] == s.objs[q])
  {
    var s1 := Fail(s, env, r, now);
    SealLeaves(s1, r, AuthResult, env.json(CodeWrong), now);
    assert FromPeer(s1.objs[r], [(AuthResult, env.json(CodeWrong))])
      == FromPeer(s.objs[r], [(AuthResult, env.json(CodeWrong))]);
  }

  /** Anything else sent as a code, or by a peer that needs none, is only heard. */
  lemma NoCodeOutcome(env: Env, s: State, addr: Endpoint, f: Frame, now: Time, r: Ref)
    requires Inv(env, s) && Opener(s, f, now) == Some(r) && f.typ == AuthResp
    requires s.objs[r].cfg.totpSecret == "" || env.codeOf(f.box.value.payload).None?
    ensures var s2 := Next(s, env, DataFrame(addr, f), now);
      && s2.log == s.log + [AcceptedFrom(r, f)] && s2.counters == s.counters
      && s2.objs == s.objs[r := HeardFrom(s.objs[r], f, addr, now)]
  {
    AcceptIs(env, s, r, addr, f, now);
    NextIsDispatch(env, s, addr, f, now, r);
  }

  // ------------------------------------------------- the TUN and the operator

  /** A TUN packet's frames: the packet itself, once to each authenticated peer with a session. */
  function ToAll(s: State, order: seq<Key>, pkt: Payload): seq<Event>
    requires forall k <- order :: k in s.peers && s.peers[k] in s.objs
  {
    if order == [] then []
    else
      var p := s.objs[s.peers[order[|order| - 1]]];
      ToAll(s, order[..|order| - 1], pkt) + if p.authed then FromPeer(p, [(Data, pkt)]) else []
  }

  lemma {:induction false} SendEachIs(env: Env, s: State, order: seq<Key>, pkt: Payload, now: Time)
    requires Sound(env, s, None) && forall k <- order :: k in s.peers && s.peers[k] in s.objs
    requires forall i, j | 0 <= i < j < |order| :: order[i] != order[j]
    ensures SendData(s, order, pkt, now).log == s.log + ToAll(s, order, pkt)
  {
    if order != [] {
      var n := |order| - 1;
      var front, k := order[..n], order[n];
      var s1 := SendData(s, front, pkt, now);
      SendEachIs(env, s, front, pkt, now);
      SendEachOutcome(env, s, front, pkt, now, k);
      SendDataOK(env, s, front, pkt, now);
      SamePeer(s, s1, s.peers[k]);
      SealLeaves(s1, s.peers[k], Data, pkt, now);
      OneLeaves(s.objs[s.peers[k]], Data, pkt);
    }
  }

  /** A packet from the TUN: on a gateway it goes out as it is to everybody authenticated, in the order of the
      walk; an empty one, and any on a server, goes nowhere. */
  lemma TunOutcome(env: Env, s: State, order: seq<Key>, pkt: Payload, now: Time)
    requires Sound(env, s, None) && Enumerates(order, s.peers.Keys)
    ensures forall k <- order :: k in s.peers && s.peers[k] in s.objs
    ensures Next(s, env, TunPacket(order, pkt), now).log
      == s.log + if env.mode == Gateway && pkt != [] then ToAll(s, order, pkt) else []
  {
    HintFacts(env, s, None);
    SendEachIs(env, s, order, pkt, now);
  }

  /** An operator's kick: a connected agent is told and disconnected; anybody else is left alone. */
  lemma KickedOutcome(env: Env, s: State, r: Ref, now: Time)
    requires Reg(s, r)
    ensures var s2, p := Next(s, env, KickPeer(r), now), s.objs[r];
      if p.cfg.role == RoleAgent && p.cur.Some? then
        && s2.log == s.log + FromPeer(p, [(AgentCmd, env.json(Command("kick")))]) + [Dropped(r)]
        && s2.objs.Keys == s.objs.Keys && (forall q <- s.objs :: q != r ==> s2.objs[q] == s.objs[q])
        && s2.objs[r].cur.None? && s2.objs[r].prev.None? && s2.objs[r].authed == (p.cfg.totpSecret == "")
      else s2 == s
  {
    SealLeaves(s, r, AgentCmd, env.json(Command("kick")), now);
  }

  /** And a request for its status is one frame to a connected agent. */
  lemma RefreshedOutcome(env: Env, s: State, r: Ref, now: Time)
    requires Reg(s, r)
    ensures Next(s, env, RefreshPeer(r), now).log
      == s.log + if s.objs[r].cfg.role == RoleAgent then FromPeer(s.objs[r], [(AgentCmd, env.json(Command("stat")))])
                 else []
  {
    SealLeaves(s, r, AgentCmd, env.json(Command("stat")), now);
  }

  // --------------------------------------------------------- switched sites

  /** The staying agent's switch differs from the file. */
  predicate Switched(s: State, m: Registry, k: Key) {
    && k in s.peers && s.peers[k] in s.objs && k in m
    && Managed(s.objs[s.peers[k]]) && s.objs[s.peers[k]].cfg.enabled != m[k].enabled
  }

  lemma {:induction false} OwedAll(s: State, m: Registry, order: seq<Key>, k: Key)
    requires k in order && Switched(s, m, k)
    ensures (s.peers[k], if m[k].enabled then "enable" else "disable") in CommandsOwed(s, m, order)
  {
    var n := |order| - 1;
    if k != order[n] {
      assert order == order[..n] + [order[n]];
      OwedAll(s, m, order[..n], k);
    }
  }

  /** The agent of that key was switched, and this is what it is to be told. */
  predicate IsTold(s: State, m: Registry, k: Key, r: Ref, cmd: string) {
    Switched(s, m, k) && s.peers[k] == r && cmd == if m[k].enabled then "enable" else "disable"
  }

  /** Exactly the staying agents that were switched, each told the new position. */
  ghost predicate TellsSwitched(s: State, m: Registry, cmds: seq<(Ref, string)>) {
    forall r: Ref, cmd :: (r, cmd) in cmds <==> exists k <- s.peers :: IsTold(s, m, k, r, cmd)
  }

  lemma OwedIff(s: State, m: Registry, order: seq<Key>)
    requires Keyed(s) && Enumerates(order, s.peers.Keys)
    ensures TellsSwitched(s, m, CommandsOwed(s, m, order))
  {
    var cmds := CommandsOwed(s, m, order);
    forall r: Ref, cmd ensures (r, cmd) in cmds <==> exists k <- s.peers :: IsTold(s, m, k, r, cmd) {
      if (r, cmd) in cmds {
        var i :| 0 <= i < |cmds| && cmds[i] == (r, cmd);
        var k := OwedTo(s, m, order, i);
        assert IsTold(s, m, k, r, cmd);
      }
      if k :| k in s.peers && IsTold(s, m, k, r, cmd) { OwedAll(s, m, order, k); }
    }
  }

  /** The frames of a list of commands, one for each peer named. */
  function Commanded(s: State, env: Env, cmds: seq<(Ref, string)>): seq<Event> {
    if cmds == [] then []
    else
      var (r, cmd) := cmds[|cmds| - 1];
      Commanded(s, env, cmds[..|cmds| - 1])
        + if r in s.objs then FromPeer(s.objs[r], [(AgentCmd, env.json(Command(cmd)))]) else []
  }

  lemma {:induction false} CommandsLeave(env: Env, s: State, cmds: seq<(Ref, string)>, now: Time)
    requires OnePerPeer(cmds) && forall c <- cmds :: c.0 in s.objs
    ensures SendCommands(s, env, cmds, now).log == s.log + Commanded(s, env, cmds)
  {
    if cmds != [] {
      var n := |cmds| - 1;
      var front, c := cmds[..n], cmds[n];
      assert cmds == front + [c];
      CommandsLeave(env, s, front, now);
      CommandsSpare(env, s, front, now, c.0);
      SealLeaves(SendCommands(s, env, front, now), c.0, AgentCmd, env.json(Command(c.1)), now);
    }
  }

  /** The log went on by nothing but sessions lost and secrets changed. */
  ghost predicate Silent(a: Log, b: Log) {
    |a| <= |b| && b[..|a|] == a && forall i | |a| <= i < |b| :: b[i].Dropped? || b[i].SecretChanged?
  }

  lemma SilentChain(a: Log, b: Log, c: Log)
    requires Silent(a, b) && Silent(b, c)
    ensures Silent(a, c)
  {
    assert forall i | 0 <= i < |b| :: c[i] == c[..|b|][i];
  }

  lemma {:induction false} UpdatesSilent(s: State, m: Registry, order: seq<Key>)
    ensures Silent(s.log, UpdateAgents(s, m, order).0.log)
  {
    if order != [] {
      var s1, k := UpdateAgents(s, m, order[..|order| - 1]).0, order[|order| - 1];
      UpdatesSilent(s, m, order[..|order| - 1]);
      SilentChain(s.log, s1.log, UpdateAgent(s1, m, k).log);
    }
  }

  lemma {:induction false} ClientsSilent(s: State, m: Registry, o1: seq<Key>, o2: seq<Key>)
    ensures Silent(s.log, ApplyClients(s, m, o1, o2).log)
    decreases |o1| + |o2|
  {
    if o2 != [] {
      var s1, k := ApplyClients(s, m, o1, o2[..|o2| - 1]), o2[|o2| - 1];
      ClientsSilent(s, m, o1, o2[..|o2| - 1]);
      SilentChain(s.log, s1.log, MergeClient(s1, m, k).log);
    } else if o1 != [] {
      var s1, k := RevokeClients(s, m, o1[..|o1| - 1]), o1[|o1| - 1];
      ClientsSilent(s, m, o1[..|o1| - 1], []);
      SilentChain(s.log, s1.log, RevokeClient(s1, m, k).log);
    }
  }

  /** Reading clients.json sends nothing to anybody. */
  lemma ClientsReloadOutcome(env: Env, s: State, m: Registry, o1: seq<Key>, o2: seq<Key>, t: Tables, now: Time)
    ensures Silent(s.log, Next(s, env, ReloadClients(m, o1, o2, t), now).log)
  {
    ClientsSilent(s, m, o1, o2);
  }

  /** Reading agents.json sends one frame to each connected agent that was switched, and nothing else. */
  lemma AgentsReloadOutcome(env: Env, s: State, m: Registry, o1: seq<Key>, o2: seq<Key>, t: Tables, now: Time)
      returns (log: Log, cmds: seq<(Ref, string)>)
    requires Inv(env, s) && AgentRegistry(m) && Enumerates(o1, s.peers.Keys) && Enumerates(o2, m.Keys)
    requires TablesFor(ConfigsOf(ApplyAgents(s, m, o1, o2).0), t)
    ensures Silent(s.log, log)
    ensures Next(s, env, ReloadAgents(m, o1, o2, t), now).log == log + Commanded(s, env, cmds)
    ensures OnePerPeer(cmds) && TellsSwitched(s, m, cmds)
  {
    assert Keyed(s) by { assert Look(0); }
    var s1 := ApplyAgents(s, m, o1, o2).0;
    cmds := CommandsOwed(s, m, o1);
    log := s1.log;
    ReloadAgentsExact(s, m, o1, o2);
    UpdatesSilent(s, m, o1);
    Isolation.QuietMerges(UpdateAgents(s, m, o1).0, m, o2);
    OwedOnce(s, m, o1);
    OwedIff(s, m, o1);
    CommandsToStaying(env, s, m, o1, s1);
    SameFrames(env, s1, s1.(tables := t), cmds);
    CommandsLeave(env, s1.(tables := t), cmds, now);
  }

  lemma CommandsToStaying(env: Env, s: State, m: Registry, order: seq<Key>, s1: State)
    requires Keyed(s) && Keyed(s1) && AgentsExact(s, m, s1)
    ensures forall c <- CommandsOwed(s, m, order) :: c.0 in s1.objs
    ensures Commanded(s1, env, CommandsOwed(s, m, order)) == Commanded(s, env, CommandsOwed(s, m, order))
  {
    var cmds := CommandsOwed(s, m, order);
    forall i | 0 <= i < |cmds| ensures cmds[i].0 in s.objs && cmds[i].0 in s1.objs
      && s1.objs[cmds[i].0].cur == s.objs[cmds[i].0].cur
    {
      var k := OwedTo(s, m, order, i);
      assert AgentExact(s, m, s1, k);
    }
    SameFrames(env, s, s1, cmds);
  }

  lemma {:induction false} SameFrames(env: Env, s: State, s1: State, cmds: seq<(Ref, string)>)
    requires forall c <- cmds :: c.0 in s.objs && c.0 in s1.objs && s1.objs[c.0].cur == s.objs[c.0].cur
    ensures Commanded(s1, env, cmds) == Commanded(s, env, cmds)
  {
    if cmds != [] {
      assert cmds[|cmds| - 1] in cmds;
      SameFrames(env, s, s1, cmds[..|cmds| - 1]);
    }
  }

  // ------------------------------------------------------ what the relay sees

  /** The hub the relay decides by: the registered peers' configurations, who of them is connected and
      authenticated, the tables and the hub's own address. */
  lemma HubIs(env: Env, s: State, r: Ref)
    ensures HubOf(s, env).localAddr == env.localAddr && HubOf(s, env).tables == s.tables
    ensures r in HubOf(s, env).cfgs <==>
      r in s.objs && s.objs[r].cfg.pub in s.peers && s.peers[s.objs[r].cfg.pub] == r
    ensures r in HubOf(s, env).cfgs ==>
      && HubOf(s, env).cfgs[r] == s.objs[r].cfg
      && (r in HubOf(s, env).ready <==> s.objs[r].cur.Some? && s.objs[r].authed)
  {
  }

  /** Which packets are pings: unfragmented ICMPv4 of type 8, ICMPv6 of type 128, with the eight bytes of an echo. */
  lemma PingIff(pkt: Payload)
    requires |pkt| <= 65535 && ParseReturns(pkt)
    ensures PingAnswerOf(pkt).Some? <==> Parse(pkt).Some? && var h := Parse(pkt).value;
      h.l4Off.Some? && |pkt| >= h.l4Off.value + 8
      && if pkt[0] / 16 == 4 then pkt[9] == 1 && pkt[h.l4Off.value] == 8
         else h.l4Proto == 58 && pkt[h.l4Off.value] == 128
  {
    ParseIff(pkt);
  }

  /** A code counts for the thirty seconds of its step and the thirty before and after. */
  lemma CodeWindow(totp: Totp, secret: string, code: string, now: Time, k: int)
    requires now >= 62_135_596_830 * SECOND && CheckTotp(totp, secret, code, now) == Some(k)
    ensures 30 * SECOND * (k - 1) <= now - 62_135_596_800 * SECOND < 30 * SECOND * (k + 2)
  {
    CheckTotpIff(totp, secret, code, now, k);
    StepBounds(now - 62_135_596_800 * SECOND, ClockStep(now));
  }

  lemma StepBounds(t: int, k: int)
    requires t >= 0 && k == t / 1_000_000_000 / 30
    ensures 30 * SECOND * k <= t < 30 * SECOND * (k + 1)
  {
  }

  // ---------------------------------------------------------------- the start

  /** Entry `i` is the last with its key. */
  predicate Deciding(statics: seq<PeerConfig>, i: nat) {
    i < |statics| && forall j | i < j < |statics| :: statics[j].pub != statics[i].pub
  }

  /** The hub starts with one peer for each configured key, the last entry deciding, never heard of and exempt
      from every file. */
  lemma {:induction false} InitialPeer(statics: seq<PeerConfig>, i: nat)
    requires Deciding(statics, i)
    ensures var s, k := Initial(statics), statics[i].pub;
      k in s.peers && s.peers[k] == i && i in s.objs && s.objs[i] == Newcomer(statics[i]).(isStatic := true)
    ensures Initial(statics).nextRef == |statics|
  {
    var n := |statics| - 1;
    InitialCount(statics);
    InitialCount(statics[..n]);
    if i < n {
      assert statics[..n][i] == statics[i];
      InitialPeer(statics[..n], i);
    }
  }

  lemma {:induction false} InitialCount(statics: seq<PeerConfig>)
    ensures Initial(statics).nextRef == |statics| && Initial(statics).log == []
  {
    if statics != [] { InitialCount(statics[..|statics| - 1]); }
  }

  /** And with no other. */
  lemma {:induction false} InitialOnly(statics: seq<PeerConfig>, k: Key)
    requires k in Initial(statics).peers
    ensures exists c <- statics :: c.pub == k
  {
    var n := |statics| - 1;
    if statics[n].pub != k {
      InitialOnly(statics[..n], k);
      var c :| c in statics[..n] && c.pub == k;
    }
  }
}
