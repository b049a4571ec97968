/** What holds in every state the hub can reach: the proof that the responder's sessions, flags
    and counters agree with the log of what it did. */
module ResponderInvariant {
  import opened Wrappers
  import opened ReplayWindows
  import opened Peers
  import opened Routing
  import opened Relay
  import opened Trace
  import opened Responder

  // --------------------------------------------------------------- the invariant

  /** A session's counters are what the log says about its keys. */
  ghost predicate SessionOK(c: Session, log: Log, live: set<nat>) {
    && c.sendKey in live && c.recvKey in live && c.sendKey != c.recvKey
    && c.sendNonce == SealCount(log, c.sendKey)
    && c.window.Represents(AcceptedNonces(log, c.recvKey))
  }

  ghost predicate SessionsOK(p: Peer, log: Log, live: set<nat>) {
    && (p.prev.Some? ==> p.cur.Some?)
    && (p.cur.Some? ==> SessionOK(p.cur.value, log, live))
    && (p.prev.Some? ==> SessionOK(p.prev.value, log, live))
    && (p.cur.Some? && p.prev.Some? ==>
          {p.cur.value.sendKey, p.cur.value.recvKey} !! {p.prev.value.sendKey, p.prev.value.recvKey})
  }

  /** The auth gate against the log; `reg` says the peer is registered, `struck` that its third
      wrong code is still being handled. */
  ghost predicate GateOK(p: Peer, w: Watch, reg: bool, struck: bool) {
    && (!reg ==> p.cur.None? && p.prev.None?)
    && (reg && !p.RequiresMFA() ==> p.authed)
    && (reg && p.RequiresMFA() && p.cur.None? ==> !p.authed)
    && (reg && p.RequiresMFA() && p.authed ==> w.proven == Some(p.cfg.totpSecret))
    && (p.authed || !p.RequiresMFA() ==> p.attempts == 0)
    && p.attempts == w.wrong <= 3
    && (w.wrong == 3 ==> w.struckOut.Some?)
    && (w.struckOut.Some? ==> p.lockedUntil >= w.struckOut.value + LOCKOUT && p.RequiresMFA())
    && (w.struckOut.Some? && !struck ==> p.cur.None?)
    && (w.step.Some? ==> p.lastStep >= w.step.value)
  }

  ghost predicate PeerOK(p: Peer, log: Log, r: Ref, reg: bool, struck: bool) {
    SessionsOK(p, log, WatchOf(log, r).live) && GateOK(p, WatchOf(log, r), reg, struck)
  }

  /** Each peer is filed under its own key. */
  ghost predicate Keyed(s: State) {
    && (forall k <- s.peers :: s.peers[k] in s.objs && s.objs[s.peers[k]].cfg.pub == k)
    && (forall r <- s.objs :: r < s.nextRef)
  }

  ghost predicate RefsOK(s: State) {
    && Keyed(s)
    && (forall a <- s.addr2peer :: s.addr2peer[a] in s.objs)
    && (forall r: nat :: r >= s.nextRef ==> WatchOf(s.log, r) == UNSEEN)
    && (forall k <- Issued(s.log) :: k < s.nextKey)
  }

  /** `x` is the peer whose third wrong code is being handled, if any. */
  ghost predicate Core(env: Env, s: State, x: Option<Ref>) {
    && LogOK(env.totp, s.log) && RefsOK(s)
    && (forall r <- s.objs :: PeerOK(s.objs[r], s.log, r, Reg(s, r), x == Some(r)))
    && s.counters.forwarded == s.counters.toAgents + s.counters.toClients
  }

  /** `Core` folded away: the verifier looks inside only where `Look` is mentioned. */
  ghost predicate Sound(env: Env, s: State, x: Option<Ref>) {
    forall u: int {:trigger Look(u)} :: Look(u) ==> Core(env, s, x)
  }

  predicate Look(u: int) { true }

  ghost predicate Inv(env: Env, s: State) {
    Sound(env, s, None) && (env.mode == Server ==> TablesSound(ConfigsOf(s), s.tables))
  }

  /** Same peers with the same configurations, same tables. */
  ghost predicate Alike(s: State, s2: State) {
    && s2.objs.Keys == s.objs.Keys && s2.peers == s.peers && s2.tables == s.tables && s2.nextRef == s.nextRef
    && forall r <- s.objs :: s2.objs[r].cfg == s.objs[r].cfg && s2.objs[r].isStatic == s.objs[r].isStatic
  }

  /** `Alike`, folded away in the same manner. */
  ghost predicate Same(s: State, s2: State) {
    forall u: int {:trigger Look(u)} :: Look(u) ==> Alike(s, s2)
  }

  lemma SameChain(a: State, b: State, c: State)
    requires Same(a, b) && Same(b, c)
    ensures Same(a, c)
  {
    assert Look(0);
  }

  lemma SamePeer(s: State, s2: State, r: Ref)
    requires Same(s, s2)
    ensures s2.peers == s.peers && s2.tables == s.tables && (r in s2.objs <==> r in s.objs) && Reg(s2, r) == Reg(s, r)
    ensures r in s.objs ==> s2.objs[r].cfg == s.objs[r].cfg && s2.objs[r].isStatic == s.objs[r].isStatic
  {
    assert Look(0);
  }

  lemma SameConfigs(s: State, s2: State)
    requires Same(s, s2)
    ensures ConfigsOf(s2) == ConfigsOf(s) && s2.tables == s.tables
  {
    assert Look(0);
    assert forall r :: Reg(s2, r) == Reg(s, r);
  }

  // ------------------------------------------------------------ one event at a time

  /** The event concerns peer `r` and nobody else. */
  ghost predicate About(e: Event, log: Log, r: Ref) {
    match e
    case Sealed(key, _, _, _) => key in WatchOf(log, r).live
    case _ => e.peer == r
  }

  lemma OtherPeer(totp: Totp, p: Peer, log: Log, e: Event, r: Ref, q: Ref, reg: bool, struck: bool)
    requires LogOK(totp, log) && EventOK(totp, log, e) && About(e, log, r) && q != r
    requires PeerOK(p, log, q, reg, struck)
    ensures PeerOK(p, log + [e], q, reg, struck)
  {
    Snoc(log, e);
    LiveDisjoint(totp, log, r, q);
  }

  /** One event, one peer changed: it is enough to look at that peer. */
  lemma EventStep(env: Env, s: State, s2: State, r: Ref, p2: Peer, e: Event, x: Option<Ref>, x2: Option<Ref>)
    requires Core(env, s, x) && r in s.objs && EventOK(env.totp, s.log, e) && About(e, s.log, r)
    requires s2.objs == s.objs[r := p2] && s2.log == s.log + [e] && s2.nextRef == s.nextRef
    requires p2.cfg.pub == s.objs[r].cfg.pub && s2.peers.Keys <= s.peers.Keys
    requires forall k <- s2.peers :: s2.peers[k] == s.peers[k]
    requires forall a <- s2.addr2peer :: s2.addr2peer[a] in s.objs
    requires forall q <- s.objs :: q != r ==> Reg(s2, q) == Reg(s, q) && (x2 == Some(q) <==> x == Some(q))
    requires s2.nextKey >= s.nextKey && (e.Installed? ==> e.sendKey < s2.nextKey && e.recvKey < s2.nextKey)
    requires PeerOK(p2, s2.log, r, Reg(s2, r), x2 == Some(r))
    requires s2.counters == s.counters
    ensures Core(env, s2, x2)
  {
    SnocOK(env.totp, s.log, e);
    forall q | q in s2.objs ensures PeerOK(s2.objs[q], s2.log, q, Reg(s2, q), x2 == Some(q)) {
      if q != r { OtherPeer(env.totp, s.objs[q], s.log, e, r, q, Reg(s, q), x == Some(q)); }
    }
    NothingUnseen(s, e, r, s2.nextKey);
  }

  /** Neither objects nor keys that are still to come appear in the log. */
  lemma NothingUnseen(s: State, e: Event, r: Ref, nextKey: nat)
    requires RefsOK(s) && r in s.objs && About(e, s.log, r)
    requires nextKey >= s.nextKey && (e.Installed? ==> e.sendKey < nextKey && e.recvKey < nextKey)
    ensures forall q: nat :: q >= s.nextRef ==> WatchOf(s.log + [e], q) == UNSEEN
    ensures forall k <- Issued(s.log + [e]) :: k < nextKey
  {
    Snoc(s.log, e);
    forall q: nat | q >= s.nextRef ensures WatchOf(s.log + [e], q) == UNSEEN {
      assert WatchOf(s.log, q) == UNSEEN;
    }
  }

  /** What the invariant says about one peer. */
  lemma PeerFacts(env: Env, s: State, r: Ref, x: Option<Ref>)
    requires Sound(env, s, x) && r in s.objs
    ensures LogOK(env.totp, s.log) && PeerOK(s.objs[r], s.log, r, Reg(s, r), x == Some(r))
    ensures forall k <- Issued(s.log) :: k < s.nextKey
  {
    assert Look(0);
  }

  lemma HintFacts(env: Env, s: State, x: Option<Ref>)
    requires Sound(env, s, x)
    ensures forall a <- s.addr2peer :: s.addr2peer[a] in s.objs
    ensures forall k <- s.peers :: Reg(s, s.peers[k])
  {
    assert Look(0);
  }

  lemma DistinctPeers(env: Env, s: State, k: Key, q: Key)
    requires Sound(env, s, None) && k in s.peers && q in s.peers && k != q
    ensures s.peers[k] != s.peers[q]
  {
    assert Look(0);
  }

  lemma EventCore(env: Env, s: State, hints: map<Endpoint, Ref>, nextKey: nat, r: Ref, p2: Peer, e: Event,
                  x: Option<Ref>, x2: Option<Ref>)
    requires Core(env, s, x) && r in s.objs && EventOK(env.totp, s.log, e) && About(e, s.log, r)
    requires p2.cfg.pub == s.objs[r].cfg.pub && PeerOK(p2, s.log + [e], r, Reg(s, r), x2 == Some(r))
    requires x2 == x || (x == None && x2 == Some(r)) || (x == Some(r) && x2 == None)
    requires forall a <- hints :: hints[a] in s.objs
    requires nextKey >= s.nextKey && (e.Installed? ==> e.sendKey < nextKey && e.recvKey < nextKey)
    ensures Core(env, Emit(SetPeer(s.(addr2peer := hints, nextKey := nextKey), r, p2), e), x2)
  {
    var s2 := Emit(SetPeer(s.(addr2peer := hints, nextKey := nextKey), r, p2), e);
    assert forall q <- s.objs :: Reg(s2, q) == Reg(s, q);
    EventStep(env, s, s2, r, p2, e, x, x2);
  }

  lemma QuietCore(env: Env, s: State, r: Ref, p2: Peer, x: Option<Ref>)
    requires Core(env, s, x) && r in s.objs && p2.cfg.pub == s.objs[r].cfg.pub
    requires PeerOK(p2, s.log, r, Reg(s, r), x == Some(r))
    ensures Core(env, SetPeer(s, r, p2), x)
  {
    var s2 := SetPeer(s, r, p2);
    assert forall q <- s.objs :: Reg(s2, q) == Reg(s, q);
  }

  /** The usual case: one event about one peer, nobody enters or leaves. */
  lemma PlainStep(env: Env, s: State, hints: map<Endpoint, Ref>, nextKey: nat, r: Ref, p2: Peer, e: Event,
                  x: Option<Ref>, x2: Option<Ref>)
    requires Sound(env, s, x) && r in s.objs && EventOK(env.totp, s.log, e) && About(e, s.log, r)
    requires p2.cfg.pub == s.objs[r].cfg.pub && PeerOK(p2, s.log + [e], r, Reg(s, r), x2 == Some(r))
    requires x2 == x || (x == None && x2 == Some(r)) || (x == Some(r) && x2 == None)
    requires forall a <- hints :: hints[a] in s.objs
    requires nextKey >= s.nextKey && (e.Installed? ==> e.sendKey < nextKey && e.recvKey < nextKey)
    ensures var s2 := Emit(SetPeer(s.(addr2peer := hints, nextKey := nextKey), r, p2), e);
      Sound(env, s2, x2) && (p2.cfg == s.objs[r].cfg && p2.isStatic == s.objs[r].isStatic ==> Same(s, s2))
  {
    assert Core(env, s, x) by { assert Look(0); }
    EventCore(env, s, hints, nextKey, r, p2, e, x, x2);
    if p2.cfg == s.objs[r].cfg && p2.isStatic == s.objs[r].isStatic { EventAlike(s, hints, nextKey, r, p2, e); }
  }

  lemma EventAlike(s: State, hints: map<Endpoint, Ref>, nextKey: nat, r: Ref, p2: Peer, e: Event)
    requires r in s.objs && p2.cfg == s.objs[r].cfg && p2.isStatic == s.objs[r].isStatic
    ensures Same(s, Emit(SetPeer(s.(addr2peer := hints, nextKey := nextKey), r, p2), e))
  {
  }

  /** One peer changed, nothing to tell. */
  lemma QuietStep(env: Env, s: State, r: Ref, p2: Peer, x: Option<Ref>)
    requires Sound(env, s, x) && r in s.objs && p2.cfg.pub == s.objs[r].cfg.pub
    requires PeerOK(p2, s.log, r, Reg(s, r), x == Some(r))
    ensures Sound(env, SetPeer(s, r, p2), x)
    ensures p2.cfg == s.objs[r].cfg && p2.isStatic == s.objs[r].isStatic ==> Same(s, SetPeer(s, r, p2))
  {
    assert Core(env, s, x) by { assert Look(0); }
    QuietCore(env, s, r, p2, x);
  }

  // ------------------------------------------------------- each action on a peer

  lemma SealPeer(totp: Totp, p: Peer, log: Log, r: Ref, reg: bool, struck: bool, e: Event, now: Time)
    requires LogOK(totp, log) && PeerOK(p, log, r, reg, struck) && p.CanSeal()
    requires e.Sealed? && e.key == p.cur.value.sendKey && e.nonce == p.cur.value.sendNonce
    ensures EventOK(totp, log, e) && About(e, log, r)
    ensures PeerOK(p.Spent(now), log + [e], r, reg, struck)
  {
    LiveIsIssued(log, r);
    Snoc(log, e);
  }

  lemma SealOK(env: Env, s: State, r: Ref, typ: FrameType, payload: Payload, now: Time, x: Option<Ref>)
    requires Sound(env, s, x)
    ensures Sound(env, Seal(s, r, typ, payload, now), x) && Same(s, Seal(s, r, typ, payload, now))
  {
    if r in s.objs && s.objs[r].CanSeal() {
      PeerFacts(env, s, r, x);
      HintFacts(env, s, x);
      var p := s.objs[r];
      var e := Sealed(p.cur.value.sendKey, p.cur.value.sendNonce, typ, payload);
      SealPeer(env.totp, p, s.log, r, Reg(s, r), x == Some(r), e, now);
      PlainStep(env, s, s.addr2peer, s.nextKey, r, p.Spent(now), e, x, x);
    }
  }

  lemma DropPeer(p: Peer, log: Log, r: Ref, reg: bool, struck: bool)
    requires PeerOK(p, log, r, reg, struck)
    ensures PeerOK(p.NoSessions().ResetAuth(), log + [Dropped(r)], r, reg, false)
  {
    Snoc(log, Dropped(r));
  }

  lemma DropOK(env: Env, s: State, r: Ref, x: Option<Ref>)
    requires Sound(env, s, x) && (x == None || x == Some(r))
    ensures Sound(env, Drop(s, r), None) && Same(s, Drop(s, r))
  {
    if r in s.objs {
      PeerFacts(env, s, r, x);
      HintFacts(env, s, x);
      DropPeer(s.objs[r], s.log, r, Reg(s, r), x == Some(r));
      PlainStep(env, s, s.addr2peer, s.nextKey, r, s.objs[r].NoSessions().ResetAuth(), Dropped(r), x, None);
    } else {
      assert Look(0);
    }
  }

  /** Nothing was sealed or accepted under a key before it was issued. */
  lemma {:induction false} UnissuedUnused(totp: Totp, log: Log, key: nat)
    requires LogOK(totp, log) && key !in Issued(log)
    ensures SealCount(log, key) == 0 && AcceptedNonces(log, key) == {}
  {
    if log != [] {
      var front := log[..|log| - 1];
      UnissuedUnused(totp, front, key);
      if log[|log| - 1].Accepted? { LiveIsIssued(front, log[|log| - 1].peer); }
    }
  }

  /** A session keeps fitting when more keys go live. */
  lemma SessionStays(c: Session, log: Log, e: Event, live: set<nat>, live2: set<nat>)
    requires SessionOK(c, log, live) && live <= live2 && e.Installed?
    ensures SessionOK(c, log + [e], live2)
  {
    Snoc(log, e);
  }

  lemma BornOK(totp: Totp, log: Log, e: Event, live: set<nat>)
    requires LogOK(totp, log) && e.Installed? && e.sendKey != e.recvKey && e.sendKey in live && e.recvKey in live
    requires e.sendKey !in Issued(log) && e.recvKey !in Issued(log)
    ensures SessionOK(Session(e.sendKey, e.recvKey, e.at, 0, 0, FRESH), log + [e], live)
  {
    UnissuedUnused(totp, log, e.sendKey);
    UnissuedUnused(totp, log, e.recvKey);
    Snoc(log, e);
  }

  lemma JoinedSessions(env: Env, p: Peer, log: Log, r: Ref, addr: Endpoint, k: nat, now: Time)
    requires LogOK(env.totp, log) && SessionsOK(p, log, WatchOf(log, r).live)
    requires k !in Issued(log) && k + 1 !in Issued(log)
    ensures var log2 := log + [Installed(r, k, k + 1, now)];
      SessionsOK(Joined(p, env, addr, k, now), log2, WatchOf(log2, r).live)
  {
    var e := Installed(r, k, k + 1, now);
    var live, live2 := WatchOf(log, r).live, WatchOf(log + [e], r).live;
    assert live2 == live + {k, k + 1} by { Snoc(log, e); }
    LiveIsIssued(log, r);
    BornOK(env.totp, log, e, live2);
    if p.cur.Some? { SessionStays(p.cur.value, log, e, live, live2); }
    if p.prev.Some? { SessionStays(p.prev.value, log, e, live, live2); }
  }

  lemma JoinedGate(env: Env, p: Peer, log: Log, r: Ref, addr: Endpoint, k: nat, now: Time)
    requires GateOK(p, WatchOf(log, r), true, false) && !(p.RequiresMFA() && now < p.lockedUntil)
    requires k !in Issued(log) && k + 1 !in Issued(log)
    ensures EventOK(env.totp, log, Installed(r, k, k + 1, now))
    ensures GateOK(Joined(p, env, addr, k, now), WatchOf(log + [Installed(r, k, k + 1, now)], r), true, false)
  {
    Snoc(log, Installed(r, k, k + 1, now));
  }

  lemma JoinedOK(env: Env, p: Peer, log: Log, r: Ref, addr: Endpoint, k: nat, now: Time)
    requires LogOK(env.totp, log) && PeerOK(p, log, r, true, false) && !(p.RequiresMFA() && now < p.lockedUntil)
    requires forall i <- Issued(log) :: i < k
    ensures var e, p2 := Installed(r, k, k + 1, now), Joined(p, env, addr, k, now);
      && EventOK(env.totp, log, e) && About(e, log, r) && PeerOK(p2, log + [e], r, true, false)
      && p2.cfg == p.cfg && p2.isStatic == p.isStatic
  {
    JoinedSessions(env, p, log, r, addr, k, now);
    JoinedGate(env, p, log, r, addr, k, now);
  }

  lemma InstallOK(env: Env, s: State, r: Ref, addr: Endpoint, now: Time)
    requires Sound(env, s, None) && Reg(s, r)
    requires !(s.objs[r].RequiresMFA() && now < s.objs[r].lockedUntil)
    ensures Sound(env, Install(s, env, r, addr, now), None) && Same(s, Install(s, env, r, addr, now))
  {
    var e, p2 := Installed(r, s.nextKey, s.nextKey + 1, now), Joined(s.objs[r], env, addr, s.nextKey, now);
    assert EventOK(env.totp, s.log, e) && PeerOK(p2, s.log + [e], r, true, false) by {
      PeerFacts(env, s, r, None);
      JoinedOK(env, s.objs[r], s.log, r, addr, s.nextKey, now);
    }
    InstallIs(env, s, r, addr, now);
    InstallStep(env, s, r, addr, p2, e);
  }

  lemma InstallStep(env: Env, s: State, r: Ref, addr: Endpoint, p2: Peer, e: Event)
    requires Sound(env, s, None) && Reg(s, r) && e.Installed? && e.peer == r
    requires e.sendKey == s.nextKey && e.recvKey == s.nextKey + 1
    requires EventOK(env.totp, s.log, e) && PeerOK(p2, s.log + [e], r, true, false)
    requires p2.cfg == s.objs[r].cfg && p2.isStatic == s.objs[r].isStatic
    ensures var s2 := Emit(SetPeer(s.(addr2peer := s.addr2peer[addr := r], nextKey := s.nextKey + 2), r, p2), e);
      Sound(env, s2, None) && Same(s, s2)
  {
    HintFacts(env, s, None);
    PlainStep(env, s, s.addr2peer[addr := r], s.nextKey + 2, r, p2, e, None, None);
  }

  lemma InstallIs(env: Env, s: State, r: Ref, addr: Endpoint, now: Time)
    requires r in s.objs
    ensures Install(s, env, r, addr, now)
      == Emit(SetPeer(s.(addr2peer := s.addr2peer[addr := r], nextKey := s.nextKey + 2), r,
                      Joined(s.objs[r], env, addr, s.nextKey, now)),
              Installed(r, s.nextKey, s.nextKey + 1, now))
  {
  }

  lemma ReceivedOK(totp: Totp, c: Session, log: Log, live: set<nat>, f: Frame, r: Ref, payload: Payload)
    requires SessionOK(c, log, live) && Opens(c, f) && live == WatchOf(log, r).live && WatchOf(log, r).struckOut.None?
    ensures EventOK(totp, log, Accepted(r, c.recvKey, f.nonce, f.typ, payload))
    ensures SessionOK(Received(c, f.nonce), log + [Accepted(r, c.recvKey, f.nonce, f.typ, payload)], live)
  {
    var seen := AcceptedNonces(log, c.recvKey);
    AcceptableIff(c.window, seen, f.nonce);
    CommitRepresents(c.window, seen, f.nonce);
    Snoc(log, Accepted(r, c.recvKey, f.nonce, f.typ, payload));
  }

  lemma OtherSession(c: Session, log: Log, live: set<nat>, e: Event)
    requires SessionOK(c, log, live) && e.Accepted? && e.key != c.recvKey
    ensures SessionOK(c, log + [e], live)
  {
    Snoc(log, e);
  }

  lemma HeardOK(totp: Totp, p: Peer, log: Log, r: Ref, f: Frame, addr: Endpoint, now: Time)
    requires LogOK(totp, log) && PeerOK(p, log, r, true, false) && OpenedBy(p, f, now).Some?
    ensures var e := Accepted(r, f.box.value.key, f.nonce, f.typ, f.box.value.payload);
      EventOK(totp, log, e) && PeerOK(Heard(p, f, addr, now), log + [e], r, true, false)
  {
    var b, live := f.box.value, WatchOf(log, r).live;
    var e := Accepted(r, b.key, f.nonce, f.typ, b.payload);
    assert WatchOf(log + [e], r) == WatchOf(log, r) by { Snoc(log, e); }
    if OpenedBy(p, f, now).value == Cur {
      ReceivedOK(totp, p.cur.value, log, live, f, r, b.payload);
      if p.prev.Some? { OtherSession(p.prev.value, log, live, e); }
    } else {
      ReceivedOK(totp, p.prev.value, log, live, f, r, b.payload);
      OtherSession(p.cur.value, log, live, e);
    }
  }

  lemma AcceptOK(env: Env, s: State, r: Ref, addr: Endpoint, f: Frame, now: Time)
    requires Sound(env, s, None) && CanOpen(s, r, f, now)
    ensures Sound(env, Accept(s, r, addr, f, now), None) && Same(s, Accept(s, r, addr, f, now))
    ensures s.objs[r].cur.Some?
  {
    PeerFacts(env, s, r, None);
    HintFacts(env, s, None);
    HeardOK(env.totp, s.objs[r], s.log, r, f, addr, now);
    PlainStep(env, s, s.addr2peer[addr := r], s.nextKey, r, Heard(s.objs[r], f, addr, now),
              Accepted(r, f.box.value.key, f.nonce, f.typ, f.box.value.payload), None, None);
  }
}
