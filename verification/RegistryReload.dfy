/** Reloading clients.json and agents.json into a running hub. */
module RegistryReload {
  import opened Wrappers
  import opened Peers
  import opened Routing
  import opened Trace
  import opened Responder
  import opened ResponderInvariant

  // ------------------------------------------------------- the invariant is kept

  lemma AddPeerOK(env: Env, s: State, cfg: PeerConfig, isStatic: bool)
    requires Sound(env, s, None)
    requires cfg.pub in s.peers ==> s.peers[cfg.pub] in s.objs
    requires cfg.pub in s.peers ==> s.objs[s.peers[cfg.pub]] == s.objs[s.peers[cfg.pub]].NoSessions()
    ensures Sound(env, AddPeer(s, cfg, isStatic), None)
  {
    assert Core(env, s, None) by { assert Look(0); }
    AddPeerCore(env, s, cfg, isStatic);
  }

  lemma AddPeerCore(env: Env, s: State, cfg: PeerConfig, isStatic: bool)
    requires Core(env, s, None)
    requires cfg.pub in s.peers ==> s.objs[s.peers[cfg.pub]] == s.objs[s.peers[cfg.pub]].NoSessions()
    ensures Core(env, AddPeer(s, cfg, isStatic), None)
  {
    var s2, n := AddPeer(s, cfg, isStatic), s.nextRef;
    AddPeerRefs(s, cfg, isStatic);
    assert PeerOK(NewPeer(cfg, isStatic), s.log, n, true, false);
    forall q | q in s.objs ensures PeerOK(s2.objs[q], s2.log, q, Reg(s2, q), false) {
      OthersStay(s, cfg, isStatic, q);
    }
    assert forall q <- s2.objs :: q == n || q in s.objs;
  }

  lemma AddPeerRefs(s: State, cfg: PeerConfig, isStatic: bool)
    requires RefsOK(s)
    ensures RefsOK(AddPeer(s, cfg, isStatic)) && s.nextRef !in s.objs && WatchOf(s.log, s.nextRef) == UNSEEN
    ensures Reg(AddPeer(s, cfg, isStatic), s.nextRef)
  {
  }

  lemma OthersStay(s: State, cfg: PeerConfig, isStatic: bool, q: Ref)
    requires Keyed(s) && q in s.objs && PeerOK(s.objs[q], s.log, q, Reg(s, q), false)
    requires cfg.pub in s.peers ==> s.objs[s.peers[cfg.pub]] == s.objs[s.peers[cfg.pub]].NoSessions()
    ensures var s2 := AddPeer(s, cfg, isStatic); PeerOK(s2.objs[q], s2.log, q, Reg(s2, q), false)
  {
    var s2 := AddPeer(s, cfg, isStatic);
    if s.objs[q].cfg.pub != cfg.pub { assert Reg(s2, q) == Reg(s, q); } else { assert !Reg(s2, q); }
  }

  lemma RevokedOK(p: Peer, log: Log, r: Ref, reg: bool)
    requires PeerOK(p, log, r, reg, false)
    ensures PeerOK(p.Revoked(), log + [Dropped(r)], r, false, false)
  {
    Snoc(log, Dropped(r));
  }

  lemma RevokeRegs(s: State, k: Key)
    requires Keyed(s) && k in s.peers
    ensures !Reg(Revoke(s, k), s.peers[k])
    ensures forall q <- s.objs :: q != s.peers[k] ==> Reg(Revoke(s, k), q) == Reg(s, q)
  {
  }

  lemma RevokeCore(env: Env, s: State, k: Key)
    requires Core(env, s, None) && k in s.peers
    ensures Core(env, Revoke(s, k), None)
  {
    var s2, r := Revoke(s, k), s.peers[k];
    RevokedOK(s.objs[r], s.log, r, Reg(s, r));
    RevokeRegs(s, k);
    EventStep(env, s, s2, r, s2.objs[r], Dropped(r), None, None);
  }

  lemma RevokeOK(env: Env, s: State, k: Key)
    requires Sound(env, s, None) && k in s.peers && s.peers[k] in s.objs
    ensures Sound(env, Revoke(s, k), None)
  {
    assert Core(env, s, None) by { assert Look(0); }
    RevokeCore(env, s, k);
  }

  lemma ChangeSecretOK(env: Env, s: State, r: Ref, secret: string)
    requires Sound(env, s, None) && r in s.objs
    ensures Sound(env, ChangeSecret(s, r, secret), None) && Reg(ChangeSecret(s, r, secret), r) == Reg(s, r)
  {
    if s.objs[r].cfg.totpSecret != secret {
      var p, p2 := s.objs[r], s.objs[r].WithSecret(secret);
      assert PeerOK(p2, s.log + [SecretChanged(r)], r, Reg(s, r), false) by {
        PeerFacts(env, s, r, None);
        Snoc(s.log, SecretChanged(r));
      }
      HintFacts(env, s, None);
      PlainStep(env, s, s.addr2peer, s.nextKey, r, p2, SecretChanged(r), None, None);
    }
  }

  /** New names, addresses and routes do not touch what the invariant speaks of. */
  lemma ReconfigureOK(env: Env, s: State, r: Ref, p2: Peer)
    requires Sound(env, s, None) && r in s.objs
    requires p2.cfg.pub == s.objs[r].cfg.pub && p2.cfg.totpSecret == s.objs[r].cfg.totpSecret
    requires p2 == s.objs[r].(cfg := p2.cfg)
    ensures Sound(env, SetPeer(s, r, p2), None)
  {
    PeerFacts(env, s, r, None);
    QuietStep(env, s, r, p2, None);
  }

  lemma MergeClientOK(env: Env, s: State, m: Registry, k: Key)
    requires Sound(env, s, None) && KeyedByPub(m)
    ensures Sound(env, MergeClient(s, m, k), None)
  {
    HintFacts(env, s, None);
    if k in m {
      if k in s.peers {
        var r := s.peers[k];
        if s.objs[r].cfg.role != RoleAgent {
          ChangeSecretOK(env, s, r, m[k].totpSecret);
          var s1 := ChangeSecret(s, r, m[k].totpSecret);
          ReconfigureOK(env, s1, r, s1.objs[r].WithClient(m[k]));
        }
      } else {
        AddPeerOK(env, s, m[k], false);
      }
    }
  }

  lemma UpdateAgentOK(env: Env, s: State, m: Registry, k: Key)
    requires Sound(env, s, None)
    ensures Sound(env, UpdateAgent(s, m, k), None)
  {
    if k in s.peers && s.peers[k] in s.objs {
      var r := s.peers[k];
      if !s.objs[r].isStatic && s.objs[r].cfg.role == RoleAgent {
        if k !in m {
          RevokeOK(env, s, k);
        } else {
          ChangeSecretOK(env, s, r, m[k].totpSecret);
          var s1 := ChangeSecret(s, r, m[k].totpSecret);
          ReconfigureOK(env, s1, r, s1.objs[r].WithAgent(m[k]));
        }
      }
    }
  }

  lemma {:induction false} ApplyClientsOK(env: Env, s: State, m: Registry, order1: seq<Key>, order2: seq<Key>)
    requires Sound(env, s, None) && KeyedByPub(m)
    ensures Sound(env, ApplyClients(s, m, order1, order2), None)
    decreases |order1| + |order2|
  {
    if order2 != [] {
      ApplyClientsOK(env, s, m, order1, order2[..|order2| - 1]);
      MergeClientOK(env, ApplyClients(s, m, order1, order2[..|order2| - 1]), m, order2[|order2| - 1]);
    } else if order1 != [] {
      var front, k := order1[..|order1| - 1], order1[|order1| - 1];
      ApplyClientsOK(env, s, m, front, []);
      var s1 := RevokeClients(s, m, front);
      if k in s1.peers && s1.peers[k] in s1.objs { RevokeOK(env, s1, k); }
    }
  }

  lemma {:induction false} UpdateAgentsOK(env: Env, s: State, m: Registry, order: seq<Key>)
    requires Sound(env, s, None)
    ensures Sound(env, UpdateAgents(s, m, order).0, None)
  {
    if order != [] {
      UpdateAgentsOK(env, s, m, order[..|order| - 1]);
      UpdateAgentOK(env, UpdateAgents(s, m, order[..|order| - 1]).0, m, order[|order| - 1]);
    }
  }

  lemma {:induction false} MergeAgentsOK(env: Env, s: State, m: Registry, order: seq<Key>)
    requires Sound(env, s, None) && KeyedByPub(m)
    ensures Sound(env, MergeAgents(s, m, order), None)
  {
    if order != [] {
      var s1, k := MergeAgents(s, m, order[..|order| - 1]), order[|order| - 1];
      MergeAgentsOK(env, s, m, order[..|order| - 1]);
      if k in m && k !in s1.peers { AddPeerOK(env, s1, m[k], false); }
    }
  }

  // ------------------------------------------------------- what one loop does

  /** What a loop over keys is to do with the peer set. */
  datatype Plan = Plan(gone: set<Key>, after: map<Key, Peer>, born: map<Key, Peer>)

  /** Key `k` after the plan was carried out for it (`done`) or not yet. */
  ghost predicate Carries(s: State, plan: Plan, done: bool, s2: State, k: Key)
    requires Keyed(s) && Keyed(s2)
  {
    && (k in s2.peers <==> (k in s.peers && !(done && k in plan.gone)) || (done && k in plan.born))
    && (k in s.peers && k in s2.peers ==>
          && s2.peers[k] == s.peers[k]
          && s2.objs[s2.peers[k]] == if done && k in plan.after then plan.after[k] else s.objs[s.peers[k]])
    && (done && k in plan.born ==> s2.peers[k] >= s.nextRef && s2.objs[s2.peers[k]] == plan.born[k])
    && (k in s.peers && done && k in plan.gone ==> NoSessionsIn(s2, s.peers[k]))
  }

  /** `s2` is `s` with the plan carried out for the keys in `done`, and nothing else. */
  ghost predicate Carried(s: State, plan: Plan, done: set<Key>, s2: State)
    requires Keyed(s)
  {
    && Keyed(s2) && s2.nextRef >= s.nextRef
    && (forall k :: Carries(s, plan, k in done, s2, k))
    && (forall r <- s.objs :: NoSessionsIn(s, r) && Unfiled(s, r) ==> NoSessionsIn(s2, r))
  }

  /** The objects and keys other than those of `k` are as they were. */
  ghost predicate OnlyKey(s2: State, s3: State, k: Key)
    requires Keyed(s2)
  {
    && Keyed(s3) && s3.nextRef >= s2.nextRef
    && (forall q :: q != k ==> (q in s3.peers <==> q in s2.peers))
    && (forall q <- s2.peers :: q != k ==> s3.peers[q] == s2.peers[q])
    && (forall r <- s2.objs :: r in s3.objs && (s3.objs[r] == s2.objs[r] || (k in s2.peers && s2.peers[k] == r)))
  }

  predicate NoSessionsIn(s: State, r: Ref) { r in s.objs && s.objs[r].cur.None? && s.objs[r].prev.None? }

  /** Nobody's key leads to this object any more. */
  ghost predicate Unfiled(s: State, r: Ref) { forall k <- s.peers :: s.peers[k] != r }

  lemma CarriedMore(s: State, plan: Plan, done: set<Key>, s2: State, s3: State, k: Key)
    requires Keyed(s) && Carried(s, plan, done, s2) && OnlyKey(s2, s3, k) && Carries(s, plan, true, s3, k)
    ensures Carried(s, plan, done + {k}, s3)
  {
    forall q | q != k ensures Carries(s, plan, q in done, s3, q) {
      assert Carries(s, plan, q in done, s2, q);
      assert Carries(s, plan, k in done, s2, k);
    }
    forall r | r in s.objs && NoSessionsIn(s, r) && Unfiled(s, r) ensures NoSessionsIn(s3, r) {
      assert NoSessionsIn(s2, r);
      assert Carries(s, plan, k in done, s2, k);
    }
  }

  lemma RevokeOnly(s: State, k: Key)
    requires Keyed(s) && k in s.peers
    ensures OnlyKey(s, Revoke(s, k), k) && NoSessionsIn(Revoke(s, k), s.peers[k])
  {
  }

  lemma EditOnly(s: State, s2: State, k: Key, p: Peer)
    requires Keyed(s) && k in s.peers && p.cfg.pub == k
    requires s2.peers == s.peers && s2.objs == s.objs[s.peers[k] := p] && s2.nextRef == s.nextRef
    ensures OnlyKey(s, s2, k)
  {
  }

  lemma AddOnly(s: State, cfg: PeerConfig)
    requires Keyed(s) && cfg.pub !in s.peers
    ensures OnlyKey(s, AddPeer(s, cfg, false), cfg.pub)
  {
  }

  lemma RevokedUnfiled(s: State, plan: Plan, done: set<Key>, s2: State, k: Key)
    requires Keyed(s) && Carried(s, plan, done, s2) && plan.born == map[] && k in s.peers && k !in s2.peers
    ensures Unfiled(s2, s.peers[k])
  {
    forall q | q in s2.peers ensures s2.peers[q] != s.peers[k] {
      assert Carries(s, plan, q in done, s2, q);
      assert s2.peers[q] == s.peers[q] && s.objs[s.peers[q]].cfg.pub == q;
    }
  }

  function Elems(order: seq<Key>): set<Key> { set k | k in order }

  lemma Last(order: seq<Key>)
    requires order != []
    ensures Elems(order) == Elems(order[..|order| - 1]) + {order[|order| - 1]}
    ensures (forall i, j | 0 <= i < j < |order| :: order[i] != order[j]) ==>
      order[|order| - 1] !in Elems(order[..|order| - 1])
  {
    assert order == order[..|order| - 1] + [order[|order| - 1]];
  }

  // -------------------------------------------------------------- clients.json

  /** Peers the client file has no say over losing. */
  predicate Exempt(p: Peer) { p.isStatic || p.cfg.role == RoleAgent }

  /** The same object under a new configuration: sessions, windows and deadlines as they were; a new secret voids
      the wrong codes counted and the proof, unless none is needed. */
  function Survivor(p: Peer, cfg: PeerConfig): Peer {
    if cfg.totpSecret == p.cfg.totpSecret then p.(cfg := cfg)
    else p.(cfg := cfg, attempts := 0, authed := cfg.totpSecret == "")
  }

  /** A peer nobody has heard of: it has shown no code and has no session. */
  function Newcomer(cfg: PeerConfig): Peer {
    Peer(cfg, false, None, None, None, 0, 0, 0, cfg.totpSecret == "", 0, 0, 0, 0, 0, 0)
  }

  /** What the client file makes of a peer it names. */
  function ClientAfter(p: Peer, c: PeerConfig): Peer {
    if p.cfg.role == RoleAgent then p
    else
      Survivor(p, p.cfg.(name := c.name, user := c.user, totpSecret := c.totpSecret, tunnelIP := c.tunnelIP,
                         allowAgents := c.allowAgents))
  }

  ghost function RevokePlan(s: State, m: Registry): Plan
    requires Keyed(s)
  {
    Plan(set k | k in s.peers && !Exempt(s.objs[s.peers[k]]) && k !in m, map[], map[])
  }

  ghost function MergePlan(s: State, m: Registry): Plan
    requires Keyed(s)
  {
    Plan({}, map k | k in s.peers && k in m :: ClientAfter(s.objs[s.peers[k]], m[k]),
         map k | k in m && k !in s.peers :: Newcomer(m[k]))
  }

  lemma {:induction false} RevokeClientsCarried(s: State, m: Registry, order: seq<Key>)
    requires Keyed(s) && forall i, j | 0 <= i < j < |order| :: order[i] != order[j]
    ensures Carried(s, RevokePlan(s, m), Elems(order), RevokeClients(s, m, order))
  {
    if order != [] {
      var n := |order| - 1;
      var front, k, s2 := Elems(order[..n]), order[n], RevokeClients(s, m, order[..n]);
      RevokeClientsCarried(s, m, order[..n]);
      Last(order);
      assert Carries(s, RevokePlan(s, m), false, s2, k);
      if k in RevokePlan(s, m).gone { RevokeOnly(s2, k); }
      CarriedMore(s, RevokePlan(s, m), front, s2, RevokeClient(s2, m, k), k);
    }
  }

  lemma {:induction false} MergeClientsCarried(s: State, m: Registry, order: seq<Key>)
    requires Keyed(s) && KeyedByPub(m) && forall i, j | 0 <= i < j < |order| :: order[i] != order[j]
    ensures Carried(s, MergePlan(s, m), Elems(order), MergeClients(s, m, order))
  {
    if order != [] {
      var n := |order| - 1;
      var k, s2 := order[n], MergeClients(s, m, order[..n]);
      MergeClientsCarried(s, m, order[..n]);
      Last(order);
      assert Carries(s, MergePlan(s, m), false, s2, k);
      MergeClientOnly(s2, m, k);
      CarriedMore(s, MergePlan(s, m), Elems(order[..n]), s2, MergeClient(s2, m, k), k);
    }
  }

  lemma MergeClientOnly(s: State, m: Registry, k: Key)
    requires Keyed(s) && KeyedByPub(m)
    ensures OnlyKey(s, MergeClient(s, m, k), k)
    ensures k in m && k in s.peers ==>
      && MergeClient(s, m, k).peers == s.peers
      && MergeClient(s, m, k).objs[s.peers[k]] == ClientAfter(s.objs[s.peers[k]], m[k])
  {
    if k in m && k in s.peers {
      EditOnly(s, MergeClient(s, m, k), k, ClientAfter(s.objs[s.peers[k]], m[k]));
    } else if k in m {
      AddOnly(s, m[k]);
    }
  }

  /** One key after a reload of clients.json: an exempt peer stays, a peer in the file stays or is
      made, any other goes. A survivor is the same object with its sessions, nonces and windows,
      and keeps its authentication unless its secret changed; a revoked one has no session left. */
  ghost predicate ClientExact(s: State, m: Registry, s2: State, k: Key)
    requires Keyed(s) && Keyed(s2)
  {
    && (k in s2.peers <==> k in m || (k in s.peers && Exempt(s.objs[s.peers[k]])))
    && (k in s.peers && k in s2.peers ==>
          && s2.peers[k] == s.peers[k]
          && s2.objs[s2.peers[k]] == if k in m then ClientAfter(s.objs[s.peers[k]], m[k]) else s.objs[s.peers[k]])
    && (k in m && k !in s.peers ==> s2.peers[k] !in s.objs && s2.objs[s2.peers[k]] == Newcomer(m[k]))
    && (k in s.peers && k !in s2.peers ==> NoSessionsIn(s2, s.peers[k]))
  }

  ghost predicate ClientsExact(s: State, m: Registry, s2: State)
    requires Keyed(s)
  {
    Keyed(s2) && forall k :: ClientExact(s, m, s2, k)
  }

  lemma ReloadClientsExact(s: State, m: Registry, order1: seq<Key>, order2: seq<Key>)
    requires Keyed(s) && KeyedByPub(m) && Enumerates(order1, s.peers.Keys) && Enumerates(order2, m.Keys)
    ensures ClientsExact(s, m, ApplyClients(s, m, order1, order2))
  {
    var s1 := RevokeClients(s, m, order1);
    RevokeClientsCarried(s, m, order1);
    MergeClientsCarried(s1, m, order2);
    var s2 := ApplyClients(s, m, order1, order2);
    assert Elems(order1) == s.peers.Keys && Elems(order2) == m.Keys;
    forall k ensures ClientExact(s, m, s2, k) {
      assert Carries(s, RevokePlan(s, m), k in s.peers, s1, k);
      assert Carries(s1, MergePlan(s1, m), k in m, s2, k);
      if k in s.peers && k !in s2.peers { RevokedUnfiled(s, RevokePlan(s, m), Elems(order1), s1, k); }
    }
  }

  lemma ClientUnchanged(s: State, m: Registry, s2: State, k: Key)
    requires Keyed(s) && ClientsExact(s, m, s2)
    ensures RevokeClient(s2, m, k) == s2 && MergeClient(s2, m, k) == s2
  {
    assert ClientExact(s, m, s2, k);
    if k in m && k in s2.peers {
      var r := s2.peers[k];
      assert s2.objs[r := s2.objs[r]] == s2.objs;
    }
  }

  lemma {:induction false} ClientsUnchanged(s: State, m: Registry, s2: State, order1: seq<Key>, order2: seq<Key>)
    requires Keyed(s) && ClientsExact(s, m, s2)
    ensures ApplyClients(s2, m, order1, order2) == s2
    decreases |order1| + |order2|
  {
    if order2 != [] {
      ClientsUnchanged(s, m, s2, order1, order2[..|order2| - 1]);
      ClientUnchanged(s, m, s2, order2[|order2| - 1]);
    } else if order1 != [] {
      ClientsUnchanged(s, m, s2, order1[..|order1| - 1], []);
      ClientUnchanged(s, m, s2, order1[|order1| - 1]);
    }
  }

  /** The file says of the peer what it is already configured with. */
  predicate SameSettings(p: PeerConfig, c: PeerConfig) {
    && p.totpSecret == c.totpSecret && p.name == c.name && p.user == c.user
    && p.tunnelIP == c.tunnelIP && p.allowAgents == c.allowAgents
  }

  /** A client of the static configuration is never revoked, and is left as it was exactly when its key is not in
      the file or the file agrees with the configuration. */
  lemma StaticUntouchedIff(s: State, m: Registry, order1: seq<Key>, order2: seq<Key>, k: Key)
    requires Keyed(s) && KeyedByPub(m) && Enumerates(order1, s.peers.Keys) && Enumerates(order2, m.Keys)
    requires k in s.peers && s.objs[s.peers[k]].isStatic && s.objs[s.peers[k]].cfg.role == RoleClient
    ensures var s2, r := ApplyClients(s, m, order1, order2), s.peers[k];
      && k in s2.peers && s2.peers[k] == r && r in s2.objs && s2.objs[r].isStatic
      && (s2.objs[r] == s.objs[r] <==> k !in m || SameSettings(s.objs[r].cfg, m[k]))
  {
    ReloadClientsExact(s, m, order1, order2);
    assert ClientExact(s, m, ApplyClients(s, m, order1, order2), k);
  }

  /** A static client that needs a code, listed in the file without a secret, needs none any more. */
  lemma StaticLosesItsCode(cfg: PeerConfig, m: Registry, order1: seq<Key>, order2: seq<Key>)
    requires cfg.role == RoleClient && cfg.totpSecret != "" && m == map[cfg.pub := cfg.(totpSecret := "")]
    requires Enumerates(order1, {cfg.pub}) && Enumerates(order2, {cfg.pub})
    ensures var s := ApplyClients(Initial([cfg]), m, order1, order2);
      && cfg.pub in s.peers && s.peers[cfg.pub] in s.objs
      && s.objs[s.peers[cfg.pub]].isStatic && !s.objs[s.peers[cfg.pub]].RequiresMFA() && s.objs[s.peers[cfg.pub]].authed
  {
    assert [cfg][..0] == [] && Initial([cfg][..0]) == EMPTY;
    var s := Initial([cfg]);
    assert s == AddPeer(EMPTY, cfg, true);
    ReloadClientsExact(s, m, order1, order2);
    assert ClientExact(s, m, ApplyClients(s, m, order1, order2), cfg.pub);
  }

  /** Reloading the same file again changes nothing at all. */
  lemma ReloadClientsTwice(s: State, m: Registry, order1: seq<Key>, order2: seq<Key>, order3: seq<Key>,
                           order4: seq<Key>)
    requires Keyed(s) && KeyedByPub(m) && Enumerates(order1, s.peers.Keys) && Enumerates(order2, m.Keys)
    ensures var s2 := ApplyClients(s, m, order1, order2); ApplyClients(s2, m, order3, order4) == s2
  {
    ReloadClientsExact(s, m, order1, order2);
    ClientsUnchanged(s, m, ApplyClients(s, m, order1, order2), order3, order4);
  }

  // --------------------------------------------------------------- agents.json

  /** Agents that came from the file and may go with it. */
  predicate Managed(p: Peer) { !p.isStatic && p.cfg.role == RoleAgent }

  function AgentAfter(p: Peer, c: PeerConfig): Peer {
    Survivor(p, p.cfg.(name := c.name, enabled := c.enabled, totpSecret := c.totpSecret, tunnelIP := c.tunnelIP,
                       routes := c.routes))
  }

  ghost function UpdatePlan(s: State, m: Registry): Plan
    requires Keyed(s)
  {
    Plan(set k | k in s.peers && Managed(s.objs[s.peers[k]]) && k !in m,
         map k | k in s.peers && k in m && Managed(s.objs[s.peers[k]]) :: AgentAfter(s.objs[s.peers[k]], m[k]), map[])
  }

  ghost function AdmitPlan(s: State, m: Registry): Plan
    requires Keyed(s)
  {
    Plan({}, map[], map k | k in m && k !in s.peers :: Newcomer(m[k]))
  }

  lemma UpdateAgentOnly(s: State, m: Registry, k: Key)
    requires Keyed(s)
    ensures OnlyKey(s, UpdateAgent(s, m, k), k)
    ensures k in s.peers && Managed(s.objs[s.peers[k]]) ==>
      var s2, r := UpdateAgent(s, m, k), s.peers[k];
      if k in m then s2.peers == s.peers && s2.objs[r] == AgentAfter(s.objs[r], m[k])
      else k !in s2.peers && NoSessionsIn(s2, r)
  {
    if k in s.peers && Managed(s.objs[s.peers[k]]) {
      if k in m {
        EditOnly(s, UpdateAgent(s, m, k), k, AgentAfter(s.objs[s.peers[k]], m[k]));
      } else {
        RevokeOnly(s, k);
      }
    }
  }

  /** The commands an update owes: one for each agent that stays and was switched on or off. */
  function CommandsOwed(s: State, m: Registry, order: seq<Key>): seq<(Ref, string)> {
    if order == [] then [] else CommandsOwed(s, m, order[..|order| - 1]) + CommandFor(s, m, order[|order| - 1])
  }

  lemma {:induction false} UpdateAgentsCarried(s: State, m: Registry, order: seq<Key>)
    requires Keyed(s) && forall i, j | 0 <= i < j < |order| :: order[i] != order[j]
    ensures Carried(s, UpdatePlan(s, m), Elems(order), UpdateAgents(s, m, order).0)
    ensures UpdateAgents(s, m, order).1 == CommandsOwed(s, m, order)
  {
    if order != [] {
      var n := |order| - 1;
      var k, s2 := order[n], UpdateAgents(s, m, order[..n]).0;
      UpdateAgentsCarried(s, m, order[..n]);
      Last(order);
      assert Carries(s, UpdatePlan(s, m), false, s2, k);
      UpdateAgentOnly(s2, m, k);
      CarriedMore(s, UpdatePlan(s, m), Elems(order[..n]), s2, UpdateAgent(s2, m, k), k);
    }
  }

  lemma {:induction false} MergeAgentsCarried(s: State, m: Registry, order: seq<Key>)
    requires Keyed(s) && KeyedByPub(m) && forall i, j | 0 <= i < j < |order| :: order[i] != order[j]
    ensures Carried(s, AdmitPlan(s, m), Elems(order), MergeAgents(s, m, order))
  {
    if order != [] {
      var n := |order| - 1;
      var k, s2 := order[n], MergeAgents(s, m, order[..n]);
      MergeAgentsCarried(s, m, order[..n]);
      Last(order);
      assert Carries(s, AdmitPlan(s, m), false, s2, k);
      if k in m && k !in s2.peers { AddOnly(s2, m[k]); }
      CarriedMore(s, AdmitPlan(s, m), Elems(order[..n]), s2, MergeAgent(s2, m, k), k);
    }
  }

  /** One key after a reload of agents.json: clients and static peers are left alone, a managed
      agent stays (updated, sessions kept) or goes, a new key comes in. */
  ghost predicate AgentExact(s: State, m: Registry, s2: State, k: Key)
    requires Keyed(s) && Keyed(s2)
  {
    && (k in s2.peers <==> k in m || (k in s.peers && !Managed(s.objs[s.peers[k]])))
    && (k in s.peers && k in s2.peers ==>
          && s2.peers[k] == s.peers[k]
          && var p := s.objs[s.peers[k]];
            s2.objs[s2.peers[k]] == if k in m && Managed(p) then AgentAfter(p, m[k]) else p)
    && (k in m && k !in s.peers ==> s2.peers[k] !in s.objs && s2.objs[s2.peers[k]] == Newcomer(m[k]))
    && (k in s.peers && k !in s2.peers ==> NoSessionsIn(s2, s.peers[k]))
  }

  ghost predicate AgentsExact(s: State, m: Registry, s2: State)
    requires Keyed(s)
  {
    Keyed(s2) && forall k :: AgentExact(s, m, s2, k)
  }

  lemma ReloadAgentsExact(s: State, m: Registry, order1: seq<Key>, order2: seq<Key>)
    requires Keyed(s) && KeyedByPub(m) && Enumerates(order1, s.peers.Keys) && Enumerates(order2, m.Keys)
    ensures AgentsExact(s, m, ApplyAgents(s, m, order1, order2).0)
    ensures ApplyAgents(s, m, order1, order2).1 == CommandsOwed(s, m, order1)
  {
    var s1 := UpdateAgents(s, m, order1).0;
    UpdateAgentsCarried(s, m, order1);
    MergeAgentsCarried(s1, m, order2);
    var s2 := ApplyAgents(s, m, order1, order2).0;
    assert Elems(order1) == s.peers.Keys && Elems(order2) == m.Keys;
    forall k ensures AgentExact(s, m, s2, k) {
      assert Carries(s, UpdatePlan(s, m), k in s.peers, s1, k);
      assert Carries(s1, AdmitPlan(s1, m), k in m, s2, k);
      if k in s.peers && k !in s2.peers { RevokedUnfiled(s, UpdatePlan(s, m), Elems(order1), s1, k); }
    }
  }

  lemma AgentUnchanged(s: State, m: Registry, s2: State, k: Key)
    requires Keyed(s) && AgentsExact(s, m, s2)
    ensures UpdateAgent(s2, m, k) == s2 && CommandFor(s2, m, k) == [] && MergeAgent(s2, m, k) == s2
  {
    assert AgentExact(s, m, s2, k);
    if k in m && k in s2.peers {
      var r := s2.peers[k];
      assert s2.objs[r := s2.objs[r]] == s2.objs;
    }
  }

  lemma {:induction false} UpdatesNothing(s: State, m: Registry, s2: State, order: seq<Key>)
    requires Keyed(s) && AgentsExact(s, m, s2)
    ensures UpdateAgents(s2, m, order).0 == s2 && UpdateAgents(s2, m, order).1 == []
  {
    if order != [] {
      UpdatesNothing(s, m, s2, order[..|order| - 1]);
      AgentUnchanged(s, m, s2, order[|order| - 1]);
    }
  }

  lemma {:induction false} MergesNothing(s: State, m: Registry, s2: State, order: seq<Key>)
    requires Keyed(s) && AgentsExact(s, m, s2)
    ensures MergeAgents(s2, m, order) == s2
  {
    if order != [] {
      MergesNothing(s, m, s2, order[..|order| - 1]);
      AgentUnchanged(s, m, s2, order[|order| - 1]);
    }
  }

  /** Reloading the same file again changes nothing and sends no command. */
  lemma ReloadAgentsTwice(s: State, m: Registry, order1: seq<Key>, order2: seq<Key>, order3: seq<Key>, order4: seq<Key>)
    requires Keyed(s) && KeyedByPub(m) && Enumerates(order1, s.peers.Keys) && Enumerates(order2, m.Keys)
    ensures var s2 := ApplyAgents(s, m, order1, order2).0; ApplyAgents(s2, m, order3, order4) == (s2, [])
  {
    ReloadAgentsExact(s, m, order1, order2);
    var s2 := ApplyAgents(s, m, order1, order2).0;
    UpdatesNothing(s, m, s2, order3);
    MergesNothing(s, m, s2, order4);
  }
}
