/** The hub as a state machine: one function per handler, each taken as one atomic step.
    Sessions use ideal sealing: a box opens under a key exactly when it was made under that key
    with the same nonce and the same frame header. */
module Responder {
  import opened Wrappers
  import opened Addresses
  import opened IpHeaders
  import opened ReplayWindows
  import opened Peers
  import opened Routing
  import opened Relay
  import opened Trace

  type Key = string        // hex of a static public key
  type Endpoint = string   // a UDP source address

  datatype Mode = Gateway | Server

  /** JSON bodies the hub sends; their bytes are left open. */
  datatype Reply = Challenge(required: bool) | CodeOk | CodeWrong | CodeLocked | ServerInfo | Command(cmd: string)

  datatype Env = Env(
    mode: Mode,
    deadTimeout: Time,
    keepalive: Time,
    grace: Time,
    localAddr: Option<Addr>,
    totp: Totp,
    codeOf: Payload -> Option<string>,   // the trimmed code of an AUTH_RESP body, if it decodes
    json: Reply -> Payload)

  /** Noise reserves the last 64-bit nonce; sealing with it is an error. */
  const MAX_NONCE: nat := 0xFFFF_FFFF_FFFF_FFFE

  const MFA_WINDOW: Time := 120_000_000_000
  const LOCKOUT: Time := 30_000_000_000
  const CHALLENGE_RETRY: Time := 5_000_000_000
  const CMD_RETRY: Time := 30_000_000_000

  datatype Session = Session(
    sendKey: nat, recvKey: nat, established: Time, sendNonce: nat, recvCount: nat, window: Window)

  datatype Peer = Peer(
    cfg: PeerConfig, isStatic: bool, addr: Option<Endpoint>,
    cur: Option<Session>, prev: Option<Session>, prevDeadline: Time,
    lastRecv: Time, lastSend: Time,
    authed: bool, attempts: nat, lastStep: int,
    challengeAt: Time, authDeadline: Time, lockedUntil: Time, cmdAt: Time
  ) {
    predicate RequiresMFA() { cfg.RequiresMFA() }
    function ResetAuth(): Peer { this.(authed := !RequiresMFA()) }
    function NoSessions(): Peer { this.(cur := None, prev := None) }
    function Revoked(): Peer { NoSessions().(authed := false) }
    function WithSecret(secret: string): Peer {
      if cfg.totpSecret == secret then this
      else this.(attempts := 0, cfg := cfg.(totpSecret := secret)).ResetAuth()
    }
    function WithClient(c: PeerConfig): Peer {
      this.(cfg := cfg.(name := c.name, user := c.user, tunnelIP := c.tunnelIP, allowAgents := c.allowAgents))
    }
    function WithAgent(c: PeerConfig): Peer {
      this.(cfg := cfg.(name := c.name, enabled := c.enabled, tunnelIP := c.tunnelIP, routes := c.routes))
    }
    /** One more frame sealed under the current session. */
    function Spent(now: Time): Peer
      requires cur.Some?
    {
      this.(cur := Some(cur.value.(sendNonce := cur.value.sendNonce + 1)), lastSend := now)
    }
    function Healed(): Peer { if cur.Some? && !authed && !RequiresMFA() then this.(authed := true) else this }
    function Expired(now: Time): Peer { if prev.Some? && now > prevDeadline then this.(prev := None) else this }
    function SeenAt(from: Endpoint, now: Time): Peer { this.(lastRecv := now, addr := Some(from)) }
    /** A peer that needs a code and has not given one starts a fresh round. */
    function Challenged(now: Time): Peer {
      if !RequiresMFA() || authed then this
      else this.(attempts := 0, authDeadline := now + MFA_WINDOW, challengeAt := now)
    }
    function AskedAt(now: Time): Peer { this.(challengeAt := now) }
    function ToldAt(now: Time): Peer { this.(cmdAt := now) }
    /** A right code. */
    function Proven(step: int): Peer { this.(authed := true, lastStep := step, attempts := 0) }
    /** A wrong code; the third one locks the peer out. */
    function Struck(now: Time): Peer {
      this.(attempts := attempts + 1, lockedUntil := if attempts + 1 >= 3 then now + LOCKOUT else lockedUntil)
    }
    /** A connected site that the operator has switched off. */
    predicate IsStoodDown(env: Env) {
      env.mode == Server && cfg.role == RoleAgent && cur.Some? && authed && !cfg.enabled
    }
    predicate CanSeal() { cur.Some? && cur.value.sendNonce <= MAX_NONCE }
  }

  function NewPeer(cfg: PeerConfig, isStatic: bool): Peer {
    Peer(cfg, isStatic, None, None, None, 0, 0, 0, !cfg.RequiresMFA(), 0, 0, 0, 0, 0, 0)
  }

  datatype Counters = Counters(
    forwarded: nat, toAgents: nat, toClients: nat, localICMP: nat,
    noRoute: nat, denied: nat, spoofed: nat, offline: nat, malformed: nat)

  /** `objs` holds every peer object ever made, so that a stale endpoint hint can still be followed. */
  datatype State = State(
    objs: map<Ref, Peer>,
    peers: map<Key, Ref>,
    addr2peer: map<Endpoint, Ref>,
    tables: Tables,
    counters: Counters,
    nextRef: Ref,
    nextKey: nat,
    log: Log)

  const EMPTY := State(map[], map[], map[], NO_TABLES, Counters(0, 0, 0, 0, 0, 0, 0, 0, 0), 0, 0, [])

  function SetPeer(s: State, r: Ref, p: Peer): State { s.(objs := s.objs[r := p]) }
  function Emit(s: State, e: Event): State { s.(log := s.log + [e]) }

  /** The object is the one registered under its key. */
  predicate Reg(s: State, r: Ref) {
    r in s.objs && s.objs[r].cfg.pub in s.peers && s.peers[s.objs[r].cfg.pub] == r
  }

  // -------------------------------------------------------------------- sealing

  /** `sendSealed`: best effort, one nonce per frame. */
  function Seal(s: State, r: Ref, typ: FrameType, payload: Payload, now: Time): State {
    if r !in s.objs || !s.objs[r].CanSeal() then s
    else
      var c := s.objs[r].cur.value;
      Emit(SetPeer(s, r, s.objs[r].Spent(now)), Sealed(c.sendKey, c.sendNonce, typ, payload))
  }

  /** `sendTo` goes through for a connected, authenticated peer. */
  predicate CanSend(s: State, r: Ref) { r in s.objs && s.objs[r].CanSeal() && s.objs[r].authed }

  function SendTo(s: State, r: Ref, pkt: Payload, now: Time): State {
    if CanSend(s, r) then Seal(s, r, Data, pkt, now) else s
  }

  /** Both sessions go; a peer that needs a code must prove itself again. */
  function Drop(s: State, r: Ref): State {
    if r !in s.objs then s
    else Emit(SetPeer(s, r, s.objs[r].NoSessions().ResetAuth()), Dropped(r))
  }

  // ----------------------------------------------------------------- handshakes

  /** A new session with keys `k` and `k + 1`; the old one stays for a grace period. */
  function Rekeyed(p: Peer, env: Env, addr: Endpoint, k: nat, now: Time): Peer {
    p.(addr := Some(addr), cur := Some(Session(k, k + 1, now, 0, 0, FRESH)), lastRecv := now, lastSend := now,
       prev := if p.cur.Some? then p.cur else p.prev,
       prevDeadline := if p.cur.Some? then now + env.grace else p.prevDeadline)
  }

  /** The peer after a handshake. */
  function Joined(p: Peer, env: Env, addr: Endpoint, k: nat, now: Time): Peer {
    Rekeyed(p, env, addr, k, now).Challenged(now)
  }

  /** `installSession` with the endpoint and MFA bookkeeping around it. */
  function Install(s: State, env: Env, r: Ref, addr: Endpoint, now: Time): State
    requires r in s.objs
  {
    Emit(SetPeer(s.(addr2peer := s.addr2peer[addr := r], nextKey := s.nextKey + 2), r,
                 Joined(s.objs[r], env, addr, s.nextKey, now)),
         Installed(r, s.nextKey, s.nextKey + 1, now))
  }

  /** `handleHandshakeInit` for a first message that authenticated `key`. */
  function Handshake(s: State, env: Env, key: Key, addr: Endpoint, now: Time): State {
    if key !in s.peers || s.peers[key] !in s.objs then s
    else
      var r := s.peers[key];
      var p := s.objs[r];
      if p.RequiresMFA() && now < p.lockedUntil then s
      else
        var required := p.RequiresMFA() && !p.authed;
        var s1 := Install(s, env, r, addr, now);
        var s2 := Seal(s1, r, AuthChallenge, env.json(Challenge(required)), now);
        Seal(s2, r, Info, env.json(ServerInfo), now)
  }

  // ---------------------------------------------------------------- data frames

  datatype Box = Box(key: nat, nonce: nat, typ: FrameType, payload: Payload)

  /** A frame off the wire: clear header and ciphertext; `None` is bytes nobody sealed. */
  datatype Frame = Frame(typ: FrameType, nonce: nat, box: Option<Box>)

  predicate Opens(c: Session, f: Frame) {
    && c.window.Acceptable(f.nonce) && f.nonce <= MAX_NONCE && f.box.Some?
    && f.box.value.key == c.recvKey && f.box.value.nonce == f.nonce && f.box.value.typ == f.typ
  }

  datatype Which = Cur | Prev

  /** `tryPeer`: the current session, then the previous one while its grace lasts. */
  function OpenedBy(p: Peer, f: Frame, now: Time): Option<Which> {
    if p.cur.Some? && Opens(p.cur.value, f) then Some(Cur)
    else if p.prev.Some? && now < p.prevDeadline && Opens(p.prev.value, f) then Some(Prev)
    else None
  }

  predicate CanOpen(s: State, r: Ref, f: Frame, now: Time) {
    Reg(s, r) && OpenedBy(s.objs[r], f, now).Some?
  }

  /** A registered peer that opens the frame, found without looking at any endpoint. */
  ghost function Opener(s: State, f: Frame, now: Time): (o: Option<Ref>)
    ensures o.Some? ==> CanOpen(s, o.value, f, now)
    ensures o.None? ==> forall r :: !CanOpen(s, r, f, now)
  {
    if exists r :: CanOpen(s, r, f, now) then var r :| CanOpen(s, r, f, now); Some(r) else None
  }

  function Received(c: Session, nonce: nat): Session {
    c.(window := c.window.Commit(nonce), recvCount := c.recvCount + 1)
  }

  /** The session that opened the frame has counted it. */
  function Opened(p: Peer, f: Frame, now: Time): Peer
    requires OpenedBy(p, f, now).Some?
  {
    match OpenedBy(p, f, now).value
    case Cur => p.(cur := Some(Received(p.cur.value, f.nonce)))
    case Prev => p.(prev := Some(Received(p.prev.value, f.nonce)))
  }

  function Heard(p: Peer, f: Frame, addr: Endpoint, now: Time): Peer
    requires OpenedBy(p, f, now).Some?
  {
    Opened(p, f, now).SeenAt(addr, now)
  }

  function Accept(s: State, r: Ref, addr: Endpoint, f: Frame, now: Time): State
    requires CanOpen(s, r, f, now)
  {
    var b := f.box.value;
    Emit(SetPeer(s.(addr2peer := s.addr2peer[addr := r]), r, Heard(s.objs[r], f, addr, now)),
         Accepted(r, b.key, f.nonce, f.typ, b.payload))
  }

  /** `checkTOTP`: the step within one of the clock whose code matches. */
  function CheckTotp(totp: Totp, secret: string, code: string, now: Time): Option<int> {
    if |code| != 6 then None
    else TryStep(totp, secret, code, ClockStep(now) - 1, ClockStep(now) + 1)
  }

  function TryStep(totp: Totp, secret: string, code: string, step: int, last: int): Option<int>
    decreases last - step
  {
    if step > last then None
    else if totp(secret, step).None? then None
    else if totp(secret, step).value == code then Some(step)
    else TryStep(totp, secret, code, step + 1, last)
  }

  function Pass(s: State, env: Env, r: Ref, code: string, step: int, now: Time): State
    requires r in s.objs
  {
    Emit(SetPeer(s, r, s.objs[r].Proven(step)), CodeAccepted(r, s.objs[r].cfg.totpSecret, code, step, now))
  }

  function Fail(s: State, env: Env, r: Ref, now: Time): State
    requires r in s.objs
  {
    Emit(SetPeer(s, r, s.objs[r].Struck(now)), CodeRejected(r, now))
  }

  /** A right code: the gate opens and the peer is told. */
  function Passed(s: State, env: Env, r: Ref, code: string, step: int, now: Time): State
    requires r in s.objs
  {
    var s1 := Seal(Pass(s, env, r, code, step, now), r, AuthResult, env.json(CodeOk), now);
    Seal(s1, r, Info, env.json(ServerInfo), now)
  }

  /** A wrong code: the third one costs the sessions. */
  function Failed(s: State, env: Env, r: Ref, now: Time): State
    requires r in s.objs
  {
    var s1 := Seal(Fail(s, env, r, now), r, AuthResult, env.json(CodeWrong), now);
    if s.objs[r].attempts + 1 >= 3 then Drop(s1, r) else s1
  }

  /** `handleAuthResp`. */
  function AuthResponse(s: State, env: Env, r: Ref, payload: Payload, now: Time): State {
    if r !in s.objs || env.codeOf(payload).None? || !s.objs[r].RequiresMFA() then s
    else
      var p := s.objs[r];
      var code := env.codeOf(payload).value;
      if p.authed then Seal(s, r, AuthResult, env.json(CodeOk), now)
      else if now < p.lockedUntil then Seal(s, r, AuthResult, env.json(CodeLocked), now)
      else
        var step := CheckTotp(env.totp, p.cfg.totpSecret, code, now);
        if step.Some? && step.value >= p.lastStep then Passed(s, env, r, code, step.value, now)
        else Failed(s, env, r, now)
  }

  // ---------------------------------------------------------------------- relay

  /** Peer configurations as the table rebuild sees them. */
  ghost function ConfigsOf(s: State): Configs { map r | r in s.objs && Reg(s, r) :: s.objs[r].cfg }

  /** Who is connected and authenticated. */
  ghost function Ready(s: State): set<Ref> {
    set r | r in s.objs && Reg(s, r) && s.objs[r].cur.Some? && s.objs[r].authed
  }

  ghost function HubOf(s: State, env: Env): Hub { Hub(ConfigsOf(s), Ready(s), s.tables, env.localAddr) }

  function Bump(c: Counters, v: Verdict): Counters {
    match v
    case Malformed => c.(malformed := c.malformed + 1)
    case Spoofed => c.(spoofed := c.spoofed + 1)
    case NoRoute => c.(noRoute := c.noRoute + 1)
    case Denied => c.(denied := c.denied + 1)
    case Offline => c.(offline := c.offline + 1)
    case Local => c.(localICMP := c.localICMP + 1)
    case ToAgent(_) => c.(forwarded := c.forwarded + 1, toAgents := c.toAgents + 1)
    case ToClient(_) => c.(forwarded := c.forwarded + 1, toClients := c.toClients + 1)
  }

  function Counted(s: State, v: Verdict): State { s.(counters := Bump(s.counters, v)) }

  function Forwarded(s: State, to: Ref, v: Verdict, pkt: Payload, now: Time): State {
    if CanSend(s, to) then Counted(SendTo(s, to, pkt, now), v) else s
  }

  function PingAnswerOf(pkt: Payload): Option<Payload> {
    if |pkt| <= 65535 && ParseReturns(pkt) && Parse(pkt).Some? && IsPing(pkt, Parse(pkt).value) then
      ParsedShape(pkt);
      Some(PingReply(pkt, Parse(pkt).value))
    else None
  }

  /** A packet for the hub itself: pings are answered, the rest is dropped. */
  function Answered(s: State, r: Ref, pkt: Payload, now: Time): State {
    match PingAnswerOf(pkt)
    case None => s
    case Some(reply) => Counted(SendTo(s, r, reply, now), Local)
  }

  /** What the relay does with a verdict on a packet of peer `r`. */
  function Act(s: State, r: Ref, v: Verdict, pkt: Payload, now: Time): State {
    match v
    case ToAgent(a) => Forwarded(s, a, v, pkt, now)
    case ToClient(c) => Forwarded(s, c, v, pkt, now)
    case Local => Answered(s, r, pkt, now)
    case _ => Counted(s, v)
  }

  /** `deliverData` on a gateway or a server. */
  ghost function Deliver(s: State, env: Env, r: Ref, pkt: Payload, now: Time): State {
    if r !in s.objs || pkt == [] then s
    else
      var s1 := Emit(s, Delivered(r, s.objs[r].cfg.totpSecret, pkt));
      if env.mode == Server && HubOf(s, env).Valid() && Reg(s, r) && ParseReturns(pkt) then
        Act(s1, r, Decide(HubOf(s, env), r, pkt), pkt, now)
      else s1
  }

  /** The frame brings a packet the relay will look at. */
  ghost predicate ToBeRelayed(s: State, env: Env, f: Frame, now: Time) {
    env.mode == Server && f.typ == Data
    && exists r :: CanOpen(s, r, f, now) && (s.objs[r].RequiresMFA() ==> s.objs[r].authed)
  }

  /** `handleData`. */
  ghost function HandleData(s: State, env: Env, addr: Endpoint, f: Frame, now: Time): State {
    match Opener(s, f, now)
    case None => s
    case Some(r) => Dispatch(Accept(s, r, addr, f, now), env, r, f.typ, f.box.value.payload, now)
  }

  ghost function Dispatch(s: State, env: Env, r: Ref, typ: FrameType, payload: Payload, now: Time): State
    requires r in s.objs
  {
    match typ
    case Bye => Drop(s, r)
    case AuthResp => AuthResponse(s, env, r, payload, now)
    case Data => if s.objs[r].RequiresMFA() && !s.objs[r].authed then s else Deliver(s, env, r, payload, now)
    case _ => s
  }

  // ----------------------------------------------------------------------- tick

  /** A live peer that needs no code is authenticated by its handshake alone. */
  function Heal(s: State, r: Ref): State
    requires r in s.objs
  {
    SetPeer(s, r, s.objs[r].Healed())
  }

  function ExpirePrev(s: State, r: Ref, now: Time): State
    requires r in s.objs
  {
    SetPeer(s, r, s.objs[r].Expired(now))
  }

  function DeadPeer(s: State, env: Env, r: Ref, now: Time): State
    requires r in s.objs
  {
    var p := s.objs[r];
    if p.cur.Some? && now - p.lastRecv > env.deadTimeout then Drop(s, r) else s
  }

  function ChallengeAgain(s: State, env: Env, r: Ref, now: Time): State
    requires r in s.objs
  {
    var s1 := Seal(s, r, AuthChallenge, env.json(Challenge(true)), now);
    if s.objs[r].CanSeal() then SetPeer(s1, r, s1.objs[r].AskedAt(now)) else s1
  }

  /** Challenge again, or give up when no valid code came in time. */
  function MfaWatch(s: State, env: Env, r: Ref, now: Time): State
    requires r in s.objs
  {
    var p := s.objs[r];
    if !(p.RequiresMFA() && p.cur.Some? && !p.authed) then s
    else if now >= p.authDeadline then Drop(s, r)
    else if now - p.challengeAt > CHALLENGE_RETRY then ChallengeAgain(s, env, r, now)
    else s
  }

  /** Keep telling a disabled agent to stand down. */
  function StandDown(s: State, env: Env, r: Ref, now: Time): State
    requires r in s.objs
  {
    var p := s.objs[r];
    if p.IsStoodDown(env) && now - p.cmdAt > CMD_RETRY then
      Seal(SetPeer(s, r, p.ToldAt(now)), r, AgentCmd, env.json(Command("disable")), now)
    else s
  }

  function KeepAlive(s: State, env: Env, r: Ref, now: Time): State
    requires r in s.objs
  {
    var p := s.objs[r];
    if p.cur.Some? && now - p.lastSend > env.keepalive then Seal(s, r, Keepalive, [], now) else s
  }

  /** The part of `tick` that only looks at the clock. */
  function Aged(s: State, env: Env, r: Ref, now: Time): State
    requires r in s.objs
  {
    DeadPeer(ExpirePrev(Heal(s, r), r, now), env, r, now)
  }

  /** One peer's share of `tick`. */
  function TickPeer(s: State, env: Env, r: Ref, now: Time): State {
    if r !in s.objs then s
    else KeepAlive(StandDown(MfaWatch(Aged(s, env, r, now), env, r, now), env, r, now), env, r, now)
  }

  /** `tick` over the peers in the order the map yields them. */
  function TickAll(s: State, env: Env, order: seq<Key>, now: Time): State {
    if order == [] then s
    else
      var s1 := TickAll(s, env, order[..|order| - 1], now);
      var k := order[|order| - 1];
      if k in s1.peers then TickPeer(s1, env, s1.peers[k], now) else s1
  }

  // --------------------------------------------------------- operator commands

  function Kick(s: State, env: Env, r: Ref, now: Time): State {
    if r !in s.objs || s.objs[r].cur.None? then s
    else Drop(Seal(s, r, AgentCmd, env.json(Command("kick")), now), r)
  }

  function Refresh(s: State, env: Env, r: Ref, now: Time): State {
    Seal(s, r, AgentCmd, env.json(Command("stat")), now)
  }

  /** `sendData` on a gateway: a TUN packet goes to every connected, authenticated peer. */
  function SendData(s: State, order: seq<Key>, pkt: Payload, now: Time): State {
    if order == [] then s
    else
      var s1 := SendData(s, order[..|order| - 1], pkt, now);
      var k := order[|order| - 1];
      if k in s1.peers then SendTo(s1, s1.peers[k], pkt, now) else s1
  }

  // ------------------------------------------------------------ registry reload

  /** `addPeerLocked`. */
  function AddPeer(s: State, cfg: PeerConfig, isStatic: bool): State {
    s.(objs := s.objs[s.nextRef := NewPeer(cfg, isStatic)], peers := s.peers[cfg.pub := s.nextRef],
       nextRef := s.nextRef + 1)
  }

  /** `dropPeerLocked` and removal from the peer set. */
  function Revoke(s: State, k: Key): State
    requires k in s.peers && s.peers[k] in s.objs
  {
    var r := s.peers[k];
    var p := s.objs[r];
    var hints := if p.addr.Some? then s.addr2peer - {p.addr.value} else s.addr2peer;
    Emit(SetPeer(s.(peers := s.peers - {k}, addr2peer := hints), r, p.Revoked()), Dropped(r))
  }

  function ChangeSecret(s: State, r: Ref, secret: string): State
    requires r in s.objs
  {
    if s.objs[r].cfg.totpSecret == secret then s
    else Emit(SetPeer(s, r, s.objs[r].WithSecret(secret)), SecretChanged(r))
  }

  /** First loop of `applyRegistryLocked`, one key. */
  function RevokeClient(s: State, m: Registry, k: Key): State {
    if k !in s.peers || s.peers[k] !in s.objs then s
    else
      var p := s.objs[s.peers[k]];
      if p.isStatic || p.cfg.role == RoleAgent || k in m then s else Revoke(s, k)
  }

  /** Second loop, one key. */
  function MergeClient(s: State, m: Registry, k: Key): State {
    if k !in m then s
    else if k in s.peers && s.peers[k] in s.objs then
      var r := s.peers[k];
      if s.objs[r].cfg.role == RoleAgent then s
      else
        var s1 := ChangeSecret(s, r, m[k].totpSecret);
        SetPeer(s1, r, s1.objs[r].WithClient(m[k]))
    else AddPeer(s, m[k], false)
  }

  function RevokeClients(s: State, m: Registry, order: seq<Key>): State {
    if order == [] then s
    else RevokeClient(RevokeClients(s, m, order[..|order| - 1]), m, order[|order| - 1])
  }

  function MergeClients(s: State, m: Registry, order: seq<Key>): State {
    if order == [] then s
    else MergeClient(MergeClients(s, m, order[..|order| - 1]), m, order[|order| - 1])
  }

  /** `applyRegistryLocked`; both loops follow some order of their map. */
  function ApplyClients(s: State, m: Registry, order1: seq<Key>, order2: seq<Key>): State {
    MergeClients(RevokeClients(s, m, order1), m, order2)
  }

  /** First loop of `applyAgentRegistryLocked`, one key: revoke or update. */
  function UpdateAgent(s: State, m: Registry, k: Key): State {
    if k !in s.peers || s.peers[k] !in s.objs then s
    else
      var r := s.peers[k];
      var p := s.objs[r];
      if p.isStatic || p.cfg.role != RoleAgent then s
      else if k !in m then Revoke(s, k)
      else
        var s1 := ChangeSecret(s, r, m[k].totpSecret);
        SetPeer(s1, r, s1.objs[r].WithAgent(m[k]))
  }

  /** The command that update queues, if any. */
  function CommandFor(s: State, m: Registry, k: Key): seq<(Ref, string)> {
    if k !in s.peers || s.peers[k] !in s.objs then []
    else
      var p := s.objs[s.peers[k]];
      if p.isStatic || p.cfg.role != RoleAgent || k !in m || p.cfg.enabled == m[k].enabled then []
      else [(s.peers[k], if m[k].enabled then "enable" else "disable")]
  }

  function UpdateAgents(s: State, m: Registry, order: seq<Key>): (State, seq<(Ref, string)>) {
    if order == [] then (s, [])
    else
      var (s1, cmds) := UpdateAgents(s, m, order[..|order| - 1]);
      var k := order[|order| - 1];
      (UpdateAgent(s1, m, k), cmds + CommandFor(s1, m, k))
  }

  /** Second loop, one key. */
  function MergeAgent(s: State, m: Registry, k: Key): State {
    if k !in m || k in s.peers then s else AddPeer(s, m[k], false)
  }

  function MergeAgents(s: State, m: Registry, order: seq<Key>): State {
    if order == [] then s
    else MergeAgent(MergeAgents(s, m, order[..|order| - 1]), m, order[|order| - 1])
  }

  function ApplyAgents(s: State, m: Registry, order1: seq<Key>, order2: seq<Key>): (State, seq<(Ref, string)>) {
    var (s1, cmds) := UpdateAgents(s, m, order1);
    (MergeAgents(s1, m, order2), cmds)
  }

  function SendCommands(s: State, env: Env, cmds: seq<(Ref, string)>, now: Time): State {
    if cmds == [] then s
    else
      var (r, cmd) := cmds[|cmds| - 1];
      Seal(SendCommands(s, env, cmds[..|cmds| - 1], now), r, AgentCmd, env.json(Command(cmd)), now)
  }

  /** An order in which a map can be walked. */
  ghost predicate Enumerates<T(!new)>(order: seq<T>, keys: set<T>) {
    (forall k :: k in order <==> k in keys) && forall i, j | 0 <= i < j < |order| :: order[i] != order[j]
  }

  // ------------------------------------------------------------------ whole runs

  datatype Action =
    | HandshakeMsg(key: Key, addr: Endpoint)
    | DataFrame(addr: Endpoint, frame: Frame)
    | TickNow(order: seq<Key>)
    | Start(tables: Tables)
    | ReloadClients(m: Registry, order1: seq<Key>, order2: seq<Key>, tables: Tables)
    | ReloadAgents(m: Registry, order1: seq<Key>, order2: seq<Key>, tables: Tables)
    | KickPeer(r: Ref)
    | RefreshPeer(r: Ref)
    | TunPacket(order: seq<Key>, pkt: Payload)

  ghost function Next(s: State, env: Env, a: Action, now: Time): State {
    match a
    case HandshakeMsg(key, addr) => Handshake(s, env, key, addr, now)
    case DataFrame(addr, f) => HandleData(s, env, addr, f, now)
    case TickNow(order) => TickAll(s, env, order, now)
    case Start(t) => if env.mode == Server && TablesFor(ConfigsOf(s), t) then s.(tables := t) else s
    case ReloadClients(m, o1, o2, t) =>
      if !ClientRegistry(m) then s
      else
        var s1 := ApplyClients(s, m, o1, o2);
        if env.mode != Server then s1
        else if TablesFor(ConfigsOf(s1), t) then s1.(tables := t)
        else s
    case ReloadAgents(m, o1, o2, t) =>
      if !AgentRegistry(m) then s
      else
        var (s1, cmds) := ApplyAgents(s, m, o1, o2);
        if TablesFor(ConfigsOf(s1), t) then SendCommands(s1.(tables := t), env, cmds, now) else s
    case KickPeer(r) => if Reg(s, r) && s.objs[r].cfg.role == RoleAgent then Kick(s, env, r, now) else s
    case RefreshPeer(r) => if Reg(s, r) && s.objs[r].cfg.role == RoleAgent then Refresh(s, env, r, now) else s
    case TunPacket(order, pkt) => if env.mode == Gateway && pkt != [] then SendData(s, order, pkt, now) else s
  }

  /** `New`: the peers of the static configuration. */
  function Initial(statics: seq<PeerConfig>): State {
    if statics == [] then EMPTY else AddPeer(Initial(statics[..|statics| - 1]), statics[|statics| - 1], true)
  }

  ghost function Exec(env: Env, statics: seq<PeerConfig>, actions: seq<(Action, Time)>): State {
    if actions == [] then Initial(statics)
    else
      var (a, now) := actions[|actions| - 1];
      Next(Exec(env, statics, actions[..|actions| - 1]), env, a, now)
  }
}
