# The hub, proved

selfremote connects clients to remote sites through a hub. Clients and site agents hold Noise
sessions with the hub; the hub relays IP packets between them in user space; an agent maps the
virtual prefixes its site is published under to the LAN's real ones, without keeping any
connection state; the control plane hands out those prefixes so that sites never collide. This
project models those parts and proves what they are for.

**The responder** (`Responder`, `ResponderInvariant`, `ResponderSafety`, `RegistryReload`,
`ResponderRuns`, `Outcomes`, `Effects`, `TickFrames`, `Isolation`, `Guessing`, `Trace`, `Engine`).
`Trace` fixes, without mentioning a session or a flag, what a log of events must look like and what
follows from it. `Responder` is the hub as a state machine: handshake, data frame, code submission,
bye, tick, kick, status request, TUN packet and the two registry reloads. `ResponderInvariant` and
`ResponderSafety` prove that every handler keeps sessions, nonces, replay windows, the auth gate and
the lockout in step with the log; `ResponderRuns` concludes for every run from every static
configuration. `Outcomes` says what each handler leaves behind; `Effects` and `TickFrames` say of
every message, tick and operator's action exactly what it adds to the log, without naming a
handler; `Isolation` says what a server may send, `Guessing` how often codes may be tried. `Engine`
is the same in the original's form, peer objects updated in place, and each public method is
proved to take the abstract state exactly one step of the machine, the hint-then-scan search
included.

**Address translation** (`Addresses`, `Checksum`, `IpHeader`, `Translator`, `Rewrite`,
`Fragments`). Byte-level: header parse with the IPv6 extension walk, masked byte-wise remap,
header checksum, RFC 1624 update, all in the packet's own buffer, and what that means for
checksums, replies and fragments.

**Routing and relay** (`Sorting`, `Routing`, `Relay`, `Peers`). Registry to peer set, peer set to
table, table to verdict.

**Allocation and publishing** (`RouteAllocation`, `Sites`, `Publishing`, `Service`, `MovedKey`).
First fit, disjointness over every sequence of requests, the two registry files, and the hub that
reads them: from the operator's form to the reply that comes back, with nothing assumed in
between. `MovedKey` is the run in which a machine changes sites.

`HandshakeLimiter` is the token bucket, `Packets` the hub behind it, `ReplayWindow` the 64-bit
window, `Frames` the wire header.

## Reading it

- A `Ref` stands for a pointer to a peer object. Time is nanoseconds as an integer; nothing needs
  it to grow, except the token bucket's bound.
- Noise is ideal: a box opens under a key exactly when it was made under that key with the same
  nonce and header, and every handshake brings two new keys. 2^64 - 1 is never a nonce (section
  5.1 of the Noise specification); sealing with it fails. The one-time code is any function of
  secret and step.
- Each handler is one atomic step. Where Go walks a map, the order is a parameter, so every
  statement holds for every order; `ReloadClients` and the like take the rebuilt tables the same
  way, as any result the rebuild may give.
- `Sound` and `Same` fold a large predicate away under a trigger (`Look`); they mean `Core` and
  `Alike`.

## Where the code decides the statement

- `internal/tunnel/addrmap.go:264` adds one to the length byte in eight bits. A header of length
  byte 255 that names another such header is never left: `IpHeaders.LoopEndsIff` says exactly when
  the loop ends, `IpHeaders.WalkCanSpin` which packets hold the parser, and parsing is modelled
  where it ends (`ParseReturns`). Right before the transport header it makes the code take the
  extension header for it (`IpHeaders.WrapMisplaces`). Without such a byte code and RFC 8200 agree
  (`IpHeaders.UnwrappedAgrees`).
- `internal/tunnel/addrmap.go:308-352` moves the transport checksum with the address it rewrites. A
  source route still to be followed puts another address, the final destination, in the
  pseudo-header (section 8.1 of RFC 8200): the update then breaks an intact segment
  (`Rewrites.RoutedSegmentBreaks`, `SourceRoutedBreaks` for an IPv6 Routing header). What such
  headers put there is a parameter (`Between`), so `RewriteKeepsVerdict` and `RewriteIsRecompute`
  hold for every type of them.
- `internal/tunnel/addrmap.go:330-349` treats a UDP checksum field as any other number, although
  RFC 768 and section 8.1 of RFC 8200 make zero mean "no checksum". An absent checksum can become
  a present one, and a correct one can vanish: field 0xB6DF, 10.201.0.5 to 192.168.1.5.
  `Rewrites.FieldZeroIff` is the exact condition, and `RewriteKeepsVerdict` and
  `RewriteIsRecompute` say what it costs.
- Fragments after the first carry no transport header and are translated without touching the
  payload; that is right exactly when the first piece holds the checksum field or the update is
  empty: `Fragments.FragmentsTranslateAlike`, with TCP in eight-byte pieces as the input
  (`TcpFragmentsBreak`).
- `internal/webapp/routes.go:85-89` takes blocks outside 10.201.0.0/16 for lengths 8 to 15:
  `RouteAllocation.ShortPrefixLeavesPool`.
- It also gives an IPv6 site an IPv4 prefix, which `internal/tunnel/addrmap.go:47-49` refuses, and
  one refused entry refuses the whole agents.json: `Publishing.AgentsFileReadsIff` is the exact
  condition for the file to be readable, `RouteAllocation.AssignOneMixedIff` the same on what was
  entered, `MixedSiteIsPublished` the input.
- `internal/webapp/routes.go:111-160` publishes overlapping real networks of one site, or one network
  twice. Replies from the overlap then come back under the wrong prefix: `Translators.InverseIff`
  for each address, `Publishing.SiteReversibleIff` for a whole site.
- `internal/tunnel/registry_runtime.go:92-110` takes over everything of an agent's entry but its id. A key
  that moves to another site keeps answering to the old site's id in every ACL until it is revoked:
  `Service.InServiceIff` is the condition, `MovedKeys.MovedKeyAnswers` what follows, `MovedKeyRun`
  the run.
- `internal/tunnel/relay.go:206-236` does not ask whether the sending agent is enabled, so only
  traffic towards a disabled site is refused: `Relay.DisabledSiteIsOneWay`, `DisabledSiteSends`.
- `internal/tunnel/engine.go:735-737` starts a fresh round on every handshake of a peer that still owes a
  code: three wrong codes per handshake (`Guessing.GuessesPerHandshake`), none over a run
  (`Guessing.GuessesUnbounded`).
- `internal/tunnel/registry_runtime.go:46-60` takes over the settings of a static client whose key
  is also in clients.json, although `internal/tunnel/engine.go:115-117` says static peers are
  never touched; it is never revoked: `RegistryReload.StaticUntouchedIff`, `StaticLosesItsCode`.
- Both ICMP replies are right over the buffer: `internal/tunnel/relay.go:272` does clear the ICMPv6
  checksum. They are summed to the buffer's end and not to the datagram's stated length
  (`Relay.PaddedReplyIff`), and a first fragment is answered as if it were whole.

## Model

| member | source | states |
|---|---|---|
| `ResponderRuns.DeliveredNeedsCode` | internal/tunnel/engine.go:855-898 | in any run, a DATA payload delivered from a peer with a TOTP secret comes after an accepted code for exactly that secret, within one step of the clock, with no drop of the sessions (timeout, bye, kick, MFA failure, revocation) and no new secret in between |
| `ResponderRuns.DeliveredOnce` | internal/tunnel/engine.go:797-826 | in any run, two deliveries never come from the same frame, and each delivers the payload of the frame accepted just before it, whatever the network repeats, reorders or loses |
| `ResponderRuns.NoncesNeverReused` | internal/tunnel/engine.go:979-997 | in any run of the hub, across all its sealing sites, two frames under one key never share a nonce; nonces grow |
| `ResponderRuns.RevokedStaysRevoked` | internal/tunnel/registry_runtime.go:22-28 | in any run, handlers taken as atomic, once the sessions of a peer were dropped or revoked no frame under their keys is ever accepted again, from anybody |
| `ResponderRuns.CodesNeverGoBack` | internal/tunnel/auth.go:131-141 | in any run, the accepted time steps of one peer object never decrease |
| `ResponderRuns.GuessesAreLimited` | internal/tunnel/auth.go:139-167 | in any run, between handshakes (and right codes and new secrets) at most three wrong codes are evaluated; after the third nothing is accepted from the peer and the next handshake is at least 30 seconds later |
| `ResponderRuns.RunOK` | internal/tunnel/engine.go:693-899 | every reachable state satisfies the invariant that ties sessions, flags, counters and tables to the log |
| `ResponderRuns.StepOK` | internal/tunnel/engine.go:662-691 | every single action of the hub keeps that invariant |
| `ResponderRuns.GateIsCoherent` | internal/tunnel/engine.go:531-554 | in every reachable state a registered peer without a secret is authed, one with a secret and no session is not, a previous session exists only beside a current one, and the self-healing branch has nothing to do |
| `ResponderRuns.OpenerUnique` | internal/tunnel/engine.go:789-841 | at most one peer object opens a given frame, and it is a registered one |
| `ResponderRuns.HintIsIrrelevant` | internal/tunnel/engine.go:825-841 | hint first, then the peers in any order, finds exactly the peer a scan without hints finds, stale hints included |
| `ResponderRuns.RelayIsSafe` | internal/tunnel/relay.go:160-236 | wherever the invariant holds, between handlers and within them, a server's tables name registered peers only, Forwarded is ToAgents plus ToClients, and a forwarded packet goes between a client and a live agent its ACL names |
| `ResponderRuns.RekeyKeepsAuth` | internal/tunnel/engine.go:1046-1061 | a handshake of an authenticated peer leaves it authenticated, with a fresh key and the old session serving until the end of its grace period |
| `ResponderRuns.ForwardingSeals` | internal/tunnel/relay.go:199-202 | a packet routed to a peer that can be sent to is sealed once, unchanged, under that peer's current key and next nonce, and counted once |
| `ResponderRuns.TargetIsReady` | internal/tunnel/relay.go:183-202 | whom the relay picks is connected and authenticated; only an exhausted key keeps it from sending |
| `Effects.ServerDataOutcome` | internal/tunnel/engine.go:854-924 | a DATA frame on a server, from a peer that owes no code: it is accepted, the payload delivered, and exactly what the verdict on the hub as it stood says leaves under the target's key and next nonce (the packet, or a ping's answer, or nothing) and is counted; nobody else is touched |
| `Effects.GatewayOutcome` | internal/tunnel/engine.go:854-924 | on a gateway it is accepted and delivered, and nothing else happens |
| `Effects.HeardOutcome` | internal/tunnel/engine.go:854-899 | DATA of a peer that owes a code, an empty payload and frames that ask for nothing only refresh the session's window and when and where the peer was last heard |
| `Effects.ByeOutcome` | internal/tunnel/engine.go:861-868 | a bye costs its sender both sessions and its proof, and nothing else changes |
| `Effects.CodeFrameOutcome` | internal/tunnel/auth.go:105-168 | a code frame from arrival to reply: what is evaluated, the exact frames that answer it, who loses the sessions, and that the gate is open afterwards iff it was or the code was right |
| `Effects.NoCodeOutcome` | internal/tunnel/auth.go:105-125 | a submission that does not decode, or of a peer that needs no code, is only heard |
| `Effects.StrangeOutcome` | internal/tunnel/engine.go:781-797 | a frame no peer opens changes nothing |
| `Effects.OpenerIff` | internal/tunnel/engine.go:789-841 | a frame is a peer's iff the peer is registered and its current session, or its previous one within the grace period, has that key, nonce and header and has not seen the nonce, nor one 64 or more ahead |
| `Effects.HubIs` | internal/tunnel/relay.go:160-199 | the relay decides by the registered peers' own settings, by who of them has a session and is authenticated, and by the hub's own address |
| `Effects.JoinOutcome` | internal/tunnel/engine.go:693-744 | a handshake to the last field of the peer, with both frames it sends |
| `Effects.InitialPeer` | internal/tunnel/engine.go:198-301 | the hub starts with a peer for each configured key, the last entry deciding, unheard of and marked static |
| `Effects.InitialOnly` | internal/tunnel/engine.go:198-301 | and with no other peer |
| `Outcomes.HandshakeOutcome` | internal/tunnel/engine.go:693-744 | a stranger or a locked-out peer changes nothing; any other gets a session with unused keys and exactly two frames, whether a code is owed and the server info; older session, authentication and all other peers are kept |
| `ResponderSafety.TryStepIff` | internal/tunnel/auth.go:91-101 | the loop stops at a step iff its code is the one submitted and every earlier step generated another |
| `Outcomes.CheckTotpIff` | internal/tunnel/auth.go:86-102 | a code is taken for step k iff it has six digits, k is the first step of the window it matches, and no generation failed before |
| `Effects.CodeWindow` | internal/tunnel/auth.go:86-102 | a code counts for the thirty seconds of its step and the thirty before and after |
| `Outcomes.CodeOutcome` | internal/tunnel/auth.go:105-168 | a submission by a peer that owes a code: the gate opens iff not locked and the code is right and not older than the last; a wrong one counts, and exactly the third costs both sessions and thirty seconds |
| `Outcomes.SpentFrameIsDead` | internal/tunnel/engine.go:797-841 | a frame that was ever accepted is opened by nobody in any later state |
| `Outcomes.GatewayDataOutcome` | internal/tunnel/engine.go:854-924 | on a gateway DATA is delivered iff the peer owes no code and the payload is not empty |
| `Outcomes.GatedDataOutcome` | internal/tunnel/engine.go:854-898 | DATA of a peer that owes a code reaches neither TUN nor relay, and nobody else is touched |
| `Outcomes.TickOutcome` | internal/tunnel/engine.go:518-658 | after a tick in any order: exactly the overdue peers lost their sessions, expired previous sessions are gone, and no keepalive, challenge or stand-down order is overdue |
| `TickFrames.TickSends` | internal/tunnel/engine.go:518-658 | the exact log of a tick: each peer's share once, in the order of the walk, as of the state before it: the end of its sessions when its time is up, else the challenge that a code is required after 5 seconds, the order to stand down after 30, and an empty keepalive after an interval without frames, these counted; nothing that is not due |
| `Outcomes.KickOutcome` | internal/tunnel/agent.go:184-195 | the kicked agent is told in its last frame, has no session and owes a code if it needs one |
| `Effects.KickedOutcome` | internal/tunnel/agent.go:179-197 | an operator's kick tells a connected agent and disconnects it, and leaves everybody else alone |
| `Effects.RefreshedOutcome` | internal/tunnel/agent.go:200-209 | a status request is one frame to a connected agent |
| `Outcomes.TunPacketOutcome` | internal/tunnel/engine.go:949-976 | a TUN packet uses exactly one nonce of each connected, authenticated peer and touches nobody else |
| `Effects.TunOutcome` | internal/tunnel/engine.go:949-976 | a TUN packet leaves a gateway as it is, once for each authenticated peer with a session, in the order of the walk; an empty one, and any on a server, goes nowhere |
| `Outcomes.OwedOnce` | internal/tunnel/registry_runtime.go:98-106 | a reload owes each agent at most one command |
| `Outcomes.OwedTo` | internal/tunnel/registry_runtime.go:98-106 | a command is owed only to a staying agent whose enabled flag changed, and says which way |
| `Outcomes.CommandSent` | internal/tunnel/registry_runtime.go:171-173 | every command owed to a connected agent leaves under its own key and next nonce |
| `Effects.AgentsReloadOutcome` | internal/tunnel/registry_runtime.go:79-174 | reading agents.json sends exactly one frame to each connected agent that stays and was switched, telling it the new position, and nothing else |
| `Effects.ClientsReloadOutcome` | internal/tunnel/registry_runtime.go:34-66 | reading clients.json sends nothing |
| `Trace.CodeBeforeData` | internal/tunnel/engine.go:884-898 | for any log whose events obey their rules: each delivery from a peer with a secret has its accepted code before it and nothing undoing it in between |
| `Trace.DeliveredWasAccepted` | internal/tunnel/engine.go:895-899 | a delivery directly follows the acceptance of a DATA frame of that peer with that payload |
| `Trace.SealedOnce` | internal/tunnel/frame.go:41-47 | under one key the n-th sealed frame carries nonce n |
| `Trace.AcceptedOnce` | internal/tunnel/engine.go:800-813 | under one key no nonce is accepted twice |
| `Trace.DroppedForGood` | internal/tunnel/engine.go:865-867 | keys installed before a drop of their peer are dead after it, for every peer |
| `Trace.IssuedOnce` | internal/tunnel/engine.go:1046-1061 | no handshake brings a key an earlier one brought |
| `Trace.StepsNeverDecrease` | internal/tunnel/auth.go:135-139 | accepted time steps of a peer are monotone over the log |
| `Trace.ThreeStrikes` | internal/tunnel/auth.go:141-146 | the number of wrong codes between two clearing events is at most three |
| `Trace.LockedOut` | internal/tunnel/auth.go:158-167 | after the third wrong code no frame of the peer is accepted, and its next handshake is 30 seconds away unless the secret changes |
| `Trace.LiveDisjoint` | internal/tunnel/engine.go:1046-1061 | a key is live for at most one peer |
| `ResponderInvariant.SealOK` | internal/tunnel/auth.go:40-55 | sealing keeps the invariant: the session's next nonce is the number of frames sealed under its key |
| `ResponderInvariant.AcceptOK` | internal/tunnel/engine.go:800-854 | accepting a frame keeps it: the window still stands for the set of accepted nonces |
| `ResponderInvariant.InstallOK` | internal/tunnel/engine.go:1046-1061 | installing a session keeps it: the keys are new, the older session survives as previous, a new auth round starts only when a code is owed |
| `ResponderInvariant.DropOK` | internal/tunnel/engine.go:861-868 | dropping the sessions keeps it: a peer with a secret has to prove itself again |
| `ResponderSafety.HandshakeOK` | internal/tunnel/engine.go:693-744 | the whole handshake handler keeps the invariant and reconfigures nobody |
| `ResponderSafety.AuthResponseOK` | internal/tunnel/auth.go:105-168 | the whole code handler keeps the invariant, the third wrong code included |
| `ResponderSafety.HealNeverFires` | internal/tunnel/engine.go:532-537 | under the invariant the self-healing line changes nothing |
| `ResponderSafety.HandleDataOK` | internal/tunnel/engine.go:781-899 | the whole data handler keeps the invariant |
| `ResponderSafety.TickAllOK` | internal/tunnel/engine.go:518-658 | a tick over the peers in any order keeps the invariant |
| `RegistryReload.ReloadClientsExact` | internal/tunnel/registry_runtime.go:34-66 | after a reload the peer set is exactly the exempt peers plus the file; survivors are the same objects with the file's name, owner, secret, address and sites, with sessions, nonces, windows and, unless the secret changed, authentication; revoked ones have no session |
| `RegistryReload.ReloadClientsTwice` | internal/tunnel/registry_runtime.go:34-66 | reloading the same clients.json again, in any order, changes nothing |
| `RegistryReload.StaticUntouchedIff` | internal/tunnel/registry_runtime.go:46-60 | a client of the static configuration is never revoked, and a reload leaves it as it was iff the file does not list its key or says what the configuration says |
| `RegistryReload.StaticLosesItsCode` | internal/tunnel/registry_runtime.go:46-60 | one that needs a code and is listed without a secret needs none after the reload and counts as authenticated |
| `RegistryReload.ReloadAgentsExact` | internal/tunnel/registry_runtime.go:79-122 | the same for agents.json, and the queued commands are exactly one for each staying agent that was switched on or off |
| `RegistryReload.ReloadAgentsTwice` | internal/tunnel/registry_runtime.go:79-122 | reloading the same agents.json again changes nothing and queues no command |
| `RegistryReload.ApplyClientsOK` | internal/tunnel/registry_runtime.go:34-66 | applying clients.json keeps the invariant of sessions, gate and log |
| `RegistryReload.UpdateAgentsOK` | internal/tunnel/registry_runtime.go:81-111 | updating and revoking agents keeps that invariant |
| `RegistryReload.AddPeerOK` | internal/tunnel/registry_runtime.go:12-18 | admitting a peer keeps that invariant |
| `RegistryReload.RevokeOK` | internal/tunnel/registry_runtime.go:22-28 | revoking a peer keeps that invariant: its object keeps no session, even if a hint still leads to it |
| `RegistryReload.ChangeSecretOK` | internal/tunnel/registry_runtime.go:51-55 | a changed secret keeps that invariant: the old proof no longer counts |
| `Engines.Engine.constructor` | internal/tunnel/engine.go:198-301 | the engine starts in the initial state of the machine with the static peers |
| `Engines.Engine.HandleHandshakeInit` | internal/tunnel/engine.go:693-744 | the method on peer objects takes the machine's handshake step and keeps the invariant |
| `Engines.PeerState.InstallSession` | internal/tunnel/engine.go:1046-1061 | current becomes previous with a deadline, the new session starts at nonce zero with an empty window |
| `Engines.PeerState.TryPeer` | internal/tunnel/engine.go:814-827 | current session, then previous within its grace; a failed try changes nothing |
| `Engines.TrySession` | internal/tunnel/engine.go:800-813 | a session opens the frame exactly when window, key, nonce and header agree, and then commits the nonce |
| `Engines.Engine.FindPeer` | internal/tunnel/engine.go:785-841 | hint-then-scan over peer objects accepts on behalf of the one opener, or changes nothing |
| `Engines.Engine.HandleData` | internal/tunnel/engine.go:781-899 | the method with its hint, scan, gate and dispatch takes exactly the machine's data step and keeps the invariant; asked for a terminating header walk only where a server relays |
| `Engines.Engine.DeliverData` | internal/tunnel/engine.go:903-924 | delivery on a gateway or server, relay included, is the machine's |
| `Engines.CheckTOTP` | internal/tunnel/auth.go:86-102 | the three-step loop finds the first matching step of the window, or none when generation fails first |
| `Engines.Engine.HandleAuthResp` | internal/tunnel/auth.go:105-168 | duplicate, locked, right and wrong submissions leave exactly the state and frames of the machine |
| `Engines.Engine.SendSealed` | internal/tunnel/auth.go:40-55 | one frame, one nonce; nothing happens without a session or without a nonce left |
| `Engines.Engine.SendTo` | internal/tunnel/engine.go:979-997 | goes through exactly for a connected, authenticated peer |
| `Engines.Engine.RouteFromClient` | internal/tunnel/relay.go:160-198 | the checks in code order give the verdict of the decision function: spoofed, local, no route, denied, offline, or the agent |
| `Engines.Engine.RouteFromAgent` | internal/tunnel/relay.go:206-232 | the same for packets from a site |
| `Engines.Engine.RelayFromPeer` | internal/tunnel/relay.go:144-203 | the packet is sent on, answered or counted as the verdict says |
| `Engines.PingAnswer` | internal/tunnel/relay.go:253-287 | the reply to a ping is built exactly when the packet is one |
| `Engines.Engine.Tick` | internal/tunnel/engine.go:518-658 | the loop over the peer objects is the machine's tick in the order it was walked |
| `Engines.Engine.KickAgent` | internal/tunnel/agent.go:179-197 | some agent of that id gets the kick and loses its sessions; without one nothing changes |
| `Engines.Engine.RefreshAgent` | internal/tunnel/agent.go:200-209 | some agent of that id is asked for its status; without one nothing changes |
| `Engines.Engine.AgentByID` | internal/tunnel/agent.go:168-175 | finds a registered agent of that id exactly when there is one |
| `Engines.Engine.SendFromTun` | internal/tunnel/engine.go:928-976 | a TUN packet is sealed for every connected, authenticated peer |
| `Engines.Engine.StartServer` | internal/tunnel/engine.go:366-372 | a starting server builds tables for its peers |
| `Engines.Engine.ReloadClients` | internal/tunnel/registry_runtime.go:131-151 | the two loops and the rebuild take the machine's reload step |
| `Engines.Engine.ReloadAgents` | internal/tunnel/registry_runtime.go:153-174 | update, admit, rebuild, then the queued commands: the machine's reload step |
| `Engines.Engine.AddPeerLocked` | internal/tunnel/registry_runtime.go:12-18 | a new peer object under its key |
| `Engines.Engine.RevokePeer` | internal/tunnel/registry_runtime.go:22-28 | sessions cleared, hint deleted, key removed |
| `Engines.Engine.RebuildTablesLocked` | internal/tunnel/relay.go:85-126 | the tables are right and complete for the peers now registered |
| `Engines.Engine.HandlePacket` | internal/tunnel/engine.go:662-691 | by type byte: a handshake message asks the limiter and takes the step its answer allows, a session frame takes the data step, all else changes nothing |
| `ReplayWindows.AcceptableIff` | internal/tunnel/engine.go:28-40 | a nonce is acceptable iff unseen and less than 64 below the highest seen |
| `ReplayWindows.CommitRepresents` | internal/tunnel/engine.go:42-60 | after a commit, bit i is set iff highest minus i was seen: first nonce, shift, jump of 64 or more and backfill |
| `ReplayWindows.RecvWindow.Acceptable` | internal/tunnel/engine.go:28-40 | the method answers that question about its set of committed nonces |
| `ReplayWindows.RecvWindow.Commit` | internal/tunnel/engine.go:42-60 | the in-place update adds exactly that nonce to the set |
| `ReplayWindows.BitOfShl` | internal/tunnel/engine.go:50-56 | a 64-bit left shift moves bit i - s to i and loses the top |
| `ReplayWindows.AtMostOnce` | internal/tunnel/engine.go:797-813 | over a lossy, duplicating, reordering link every message is delivered at most once and unchanged |
| `ReplayWindows.TakenIff` | internal/tunnel/engine.go:797-813 | a message is taken iff it was not taken before and nothing 64 or more ahead of it was |
| `Frames.SealDataFrame` | internal/tunnel/frame.go:41-47 | the buffer filled byte by byte is version, type and big-endian nonce, then the ciphertext, and reads back as such |
| `Frames.FrameRoundTrip` | internal/tunnel/frame.go:23-31 | every sealed frame is classified as a data frame of its type, nonce and ciphertext |
| `Frames.FrameIsHeaderPlusRest` | internal/tunnel/frame.go:51-56 | every datagram so classified is that header followed by the ciphertext |
| `Frames.HeaderDetermines` | internal/tunnel/frame.go:33-47 | two frames share their associated data iff they share type and nonce |
| `Frames.TypeOf` | internal/tunnel/engine.go:667-690 | a type byte is a session frame type iff it is the code of one |
| `Relay.ForwardedIsLegitimate` | internal/tunnel/relay.go:160-236 | a forwarded packet goes from a client at its own tunnel address to an agent its ACL names, or from an agent's own prefix to a client whose ACL names it; the target is enabled and ready |
| `Relay.ReplyPasses` | internal/tunnel/relay.go:206-236 | under complete tables and distinct client addresses the reply to a forwarded packet passes the return checks and reaches the client that asked, unless that client went away |
| `Relay.RoundTrip` | internal/tunnel/relay.go:160-236 | under complete tables and disjoint maps: forwarded, translated at the site, answered by the LAN host, translated back, it reaches the client |
| `Relay.AgentForIsAgent` | internal/tunnel/relay.go:176-182 | what routing finds is an agent that may speak for the destination |
| `Relay.DecideIs` | internal/tunnel/relay.go:144-156 | a packet without a readable header is malformed, any other is judged by its addresses as its sender's role says |
| `Relay.SpoofedIff` | internal/tunnel/relay.go:160-249 | spoofed iff a client's source is not its tunnel address, or an agent's is neither that nor in one of its virtual prefixes |
| `Effects.PingIff` | internal/tunnel/relay.go:253-273 | the hub answers exactly unfragmented ICMPv4 of type 8 and ICMPv6 of type 128 with the eight bytes of an echo |
| `Relay.SourceAllowed` | internal/tunnel/relay.go:239-249 | an agent may send from its tunnel address and its virtual prefixes, and from nowhere else |
| `Relay.ReplyLocalICMP` | internal/tunnel/relay.go:253-287 | the buffer becomes the echo reply iff it held an echo request with a transport header |
| `Relay.PingReplyIsEcho` | internal/tunnel/relay.go:259-281 | the reply has the addresses swapped, the reply type, all else kept, and checksums that verify over the buffer to its end, for IPv4 and IPv6 |
| `Relay.PaddedReplyIff` | internal/tunnel/relay.go:259-268 | over a stated length that ends before the buffer, the ICMP checksum of an IPv4 reply is right iff the padding sums to nothing modulo 65535 (and what is summed is not all zero) |
| `Relay.ClientVerdict` | internal/tunnel/relay.go:160-203 | a client packet is spoofed, local, without a route or forwarded to an agent iff a condition on addresses, routes, ACL and readiness holds |
| `Relay.ClientRefused` | internal/tunnel/relay.go:183-198 | and denied or offline iff there is an agent behind the address that the ACL does not name, or that is down |
| `Relay.AgentVerdict` | internal/tunnel/relay.go:206-236 | the same for a site packet |
| `Relay.DisabledSiteIsOneWay` | internal/tunnel/relay.go:160-236 | while a site is switched off, packets from it still go to every client that may reach it, and the same client's packets to it are refused as offline |
| `Relay.DisabledSiteSends` | internal/tunnel/relay.go:206-236 | such a hub: one client, one disabled agent, whose packet goes through |
| `Relay.AgentForIff` | internal/tunnel/relay.go:176-182 | routing finds an agent iff the destination is its own address, or nobody's own and it serves the longest match |
| `Routing.RebuildTables` | internal/tunnel/relay.go:85-126 | for any map order and any unstable sort the tables are sound and complete, and there is no conflict entry iff no two declarations clash; every reported conflict names two declarers of its prefix, the owner first |
| `Routing.LookupIsLongestMatch` | internal/tunnel/relay.go:129-136 | first match in the rebuilt table is longest-prefix match over all declared prefixes, the lowest id owning an exact duplicate |
| `Routing.ServedIsFound` | internal/tunnel/relay.go:129-136 | an address some agent serves is found |
| `Routing.ServesUnique` | internal/tunnel/relay.go:118-126 | with masked prefixes and distinct ids at most one agent serves an address |
| `Routing.RebuildDeterministic` | internal/tunnel/relay.go:85-126 | two rebuilds of one peer set answer every lookup alike |
| `Routing.DroppedIffClash` | internal/tunnel/relay.go:105-118 | declarations are dropped iff two of them name one prefix |
| `Routing.RouteLookup` | internal/tunnel/relay.go:129-136 | the loop returns the first matching entry |
| `Sorting.SortSlice` | internal/tunnel/relay.go:98-126 | an arbitrary unstable sort: sorted, same elements |
| `Peers.ClientAllowed` | internal/tunnel/registry.go:189-196 | true iff some ACL entry equals the id, letter case aside |
| `Peers.EqualFoldIff` | internal/tunnel/registry.go:189-196 | ids compare equal iff they have one length and agree letter by letter, ASCII letters in either case, the Kelvin sign with k and the long s with s |
| `Peers.ParseRegistry` | internal/tunnel/registry.go:80-116 | refused iff an enabled entry lacks a key or a name or has a bad address; else each key maps to its last enabled entry, field by field, the secret included, and every enabled entry's key is there |
| `Peers.ParseAgentRegistry` | internal/tunnel/registry.go:121-167 | refused iff some entry is bad (key, id, address or a route); else each key maps to its last entry, disabled ones kept |
| `Peers.AgentConfigIs` | internal/tunnel/registry.go:121-167 | an agent entry is refused iff it lacks a key, lacks both id and name, or has a bad address or route; else the configuration is the entry's, field by field, each route in its place |
| `Peers.ParseRouteMap` | internal/tunnel/addrmap.go:33-54 | accepted iff both prefixes read and agree in family and length, and then masked |
| `Peers.ParseRoutesExact` | internal/tunnel/registry.go:121-167 | the routes of an entry are parsed in place, or one bad route refuses them all |
| `Checksums.FoldedCongruent` | internal/tunnel/addrmap.go:363-366 | folding carries keeps the value modulo 65535 |
| `Checksums.OnesComplement` | internal/tunnel/addrmap.go:355-367 | the 32-bit loop computes the RFC 1071 checksum, without overflow for up to 131072 bytes |
| `Checksums.ChecksumDelta` | internal/tunnel/addrmap.go:371-381 | the 32-bit loop computes equation 3 of RFC 1624 section 3, without overflow |
| `Checksums.DeltaCongruent` | internal/tunnel/addrmap.go:371-381 | the update moves the field by the difference of the replaced words modulo 65535 |
| `Checksums.DeltaKeepsVerdict` | internal/tunnel/addrmap.go:371-381 | data verifies after the update iff it verified before |
| `Checksums.DeltaAstray` | internal/tunnel/addrmap.go:371-381 | where the covered words do not hold what was replaced, the data verifies after the update iff its sum is off by exactly the difference the update makes |
| `Checksums.DeltaIsRecompute` | internal/tunnel/addrmap.go:371-381 | outside UDP: a field that was the full computation is bit for bit the full computation afterwards |
| `Checksums.ComplementVerifies` | internal/tunnel/addrmap.go:355-367 | a field holding the computed checksum makes the data verify |
| `Checksums.AbsentStaysAbsentIff` | internal/tunnel/addrmap.go:331-348 | a zero field stays zero iff old and new words agree modulo 65535 |
| `Checksums.AbsentBecomesPresent` | internal/tunnel/addrmap.go:331-348 | a concrete translation that turns an absent UDP checksum into a present one |
| `Checksums.PresentBecomesAbsent` | internal/tunnel/addrmap.go:331-348 | a concrete translation that turns a UDP checksum into none |
| `Checksums.DeltaZeroIff` | internal/tunnel/addrmap.go:371-381 | for every field and every pair of words the update leaves zero iff field plus old words and new words agree modulo 65535, all ones over all ones becoming zeros excepted; for a field below all ones that exception does not arise |
| `Checksums.DeltaIsUdpFieldIff` | internal/tunnel/addrmap.go:371-381 | from the field a UDP sender computes (zero sent as all ones) the update makes the one it would compute again, iff it does not make zero |
| `IpHeaders.ParseIPHeader` | internal/tunnel/addrmap.go:220-288 | the loops read inside the packet only and give the functional parse |
| `IpHeaders.ParsedShape` | internal/tunnel/addrmap.go:220-288 | a parsed header has its offsets inside the packet and its addresses at them |
| `IpHeaders.ParseIff` | internal/tunnel/addrmap.go:220-288 | which packets have a readable header, what protocol it names and where the transport header is, in the bytes of the packet |
| `IpHeaders.WalkIsLoop` | internal/tunnel/addrmap.go:256-284 | what the walk answers is where the loop stops |
| `IpHeaders.LoopEndsIff` | internal/tunnel/addrmap.go:256-284 | the loop ends iff it never meets a header it cannot leave (length byte 255 naming another such header) |
| `IpHeaders.NoWrapMeansEnds` | internal/tunnel/addrmap.go:259-265 | without a walked length byte of 255 the loop ends |
| `IpHeaders.WalkCanSpin` | internal/tunnel/addrmap.go:256-284 | every IPv6 packet whose first extension header has length byte 255 and names another one keeps the parser in its loop for ever |
| `IpHeaders.UnwrappedAgrees` | internal/tunnel/addrmap.go:256-284 | without a walked length byte of 255 the code finds the transport header where section 4 of RFC 8200 puts it |
| `IpHeaders.WrapMisplaces` | internal/tunnel/addrmap.go:259-265 | with one right before the transport header it takes the extension header's own first byte for the transport header, where the RFC's walk is not |
| `IpHeaders.TransportMeansUnfragmented` | internal/tunnel/addrmap.go:266-274 | a transport header is reported only if every walked fragment header has offset zero |
| `Translators.NewTranslator` | internal/tunnel/addrmap.go:69-81 | accepted iff every pair agrees in family and length |
| `Translators.RemapAddr` | internal/tunnel/addrmap.go:168-202 | the byte loop computes base of the target plus host part, for every length and both families |
| `Translators.RemapInverse` | internal/tunnel/addrmap.go:168-202 | the result lies in the target block and remapping back undoes it |
| `Translators.MapUnique` | internal/tunnel/addrmap.go:130-143 | with disjoint prefixes the first match is the only match |
| `Translators.TranslationInverse` | internal/tunnel/addrmap.go:118-164 | with disjoint real and disjoint virtual prefixes the two directions are inverse |
| `Translators.InverseIff` | internal/tunnel/addrmap.go:118-164 | for any maps and in both directions: an address is translated back to itself iff no mapping before the one that matched claims the address it was moved to |
| `Translators.InverseEverywhereIff` | internal/tunnel/addrmap.go:130-143 | with disjoint virtual prefixes every translation is undone iff the real prefixes are disjoint too, and the other way round |
| `Translators.SharedLanBreaksInverse` | internal/tunnel/addrmap.go:130-143 | the plainest failure: one LAN under two disjoint virtual prefixes never answers under the second |
| `Translators.MaskMergeIsMasking` | internal/tunnel/addrmap.go:172-184 | the arithmetic merge is the byte mask of the code, bit for bit |
| `Rewrites.Rewrite` | internal/tunnel/addrmap.go:118-164 | the buffer becomes the translated packet, or stays as it is on a drop |
| `Rewrites.RewriteAddr` | internal/tunnel/addrmap.go:308-352 | in place: address, IPv4 header checksum, transport checksum, nothing else |
| `Rewrites.FindMatch` | internal/tunnel/addrmap.go:130-143 | the loop finds the first mapping that contains the address |
| `Rewrites.RewriteEffect` | internal/tunnel/addrmap.go:308-352 | only the address, the header checksum and the transport checksum field change; the header verifies; the field moves by the incremental update |
| `Rewrites.RewriteBytes` | internal/tunnel/addrmap.go:293-352 | byte by byte: from the transport header on only bytes 16-17 for TCP, 6-7 for UDP, 2-3 for ICMPv6 differ, and hold the update of what stood there; no other protocol's and no cut-off field is touched; before it only the address and the IPv4 header checksum |
| `Rewrites.DroppedIff` | internal/tunnel/addrmap.go:118-151 | a packet is dropped iff it does not parse, there are no mappings, or no mapping contains the address and it is not the site's own; an own address outside all mappings passes unchanged |
| `Rewrites.TranslatedIs` | internal/tunnel/addrmap.go:118-164 | under the first mapping that contains the address it keeps its distance from the start of the block, virtual to real inwards, real to virtual outwards; an identity mapping leaves the packet as it is |
| `Rewrites.RewriteParses` | internal/tunnel/addrmap.go:220-288 | a rewritten packet parses as before with the one address replaced |
| `Rewrites.HeaderChecksumVerifies` | internal/tunnel/addrmap.go:318-321 | the recomputed IPv4 header verifies |
| `Rewrites.RewriteKeepsVerdict` | internal/tunnel/addrmap.go:330-349 | a receiver judges a segment (intact, corrupt or, for UDP, without a checksum) after the rewrite as before it iff no zero UDP field is made or destroyed and, where a header in between puts another address in the pseudo-header than the one rewritten, the difference of the two does not show in the sum; so always for TCP and ICMPv6 whose pseudo-header holds the rewritten address |
| `Rewrites.RewriteIsRecompute` | internal/tunnel/addrmap.go:330-349 | the sender's own field becomes the one the sender would compute over the new pseudo-header iff, for UDP, it does not become zero and, where the pseudo-header holds another address than the one rewritten, the old and the new one have congruent word sums |
| `Rewrites.RoutedSegmentBreaks` | internal/tunnel/addrmap.go:308-352 | an intact TCP or ICMPv6 segment whose pseudo-header holds another address than the one rewritten stays intact iff the old and the new address have word sums congruent modulo 65535 |
| `Rewrites.SourceRouted` | internal/tunnel/addrmap.go:256-265 | the code accepts an IPv6 packet with a Routing header of one address and segments left before TCP; its pseudo-header destination is that address |
| `Rewrites.SourceRoutedBreaks` | internal/tunnel/addrmap.go:308-352 | every intact packet of that shape comes out corrupt, unless the two addresses have congruent sums |
| `Rewrites.FieldZeroIff` | internal/tunnel/addrmap.go:331-348 | the field is zero after the rewrite iff the condition of DeltaZeroIff holds of the field and the two addresses |
| `Rewrites.UncheckedUdpKeptIff` | internal/tunnel/addrmap.go:331-348 | an absent UDP checksum stays absent iff the addresses agree modulo 65535 |
| `Rewrites.TranslatedParses` | internal/tunnel/addrmap.go:118-164 | a translated packet parses as the original with the one address replaced |
| `Rewrites.ReplyComesBack` | internal/tunnel/addrmap.go:105-116 | ToLocal on a packet and ToTunnel on its reply are inverse: the reply shows the address the sender asked for |
| `Rewrites.PseudoSum` | internal/tunnel/addrmap.go:330-349 | the sum the verdicts are about is the word sum of the actual pseudo-header and segment |
| `Fragments.FragmentsTranslateAlike` | internal/tunnel/addrmap.go:239-242 | translating the fragments of a datagram and reassembling gives the translated datagram iff the transport checksum has nothing to change beyond the first piece |
| `Fragments.UdpFirstPieceSuffices` | internal/tunnel/addrmap.go:330-349 | for UDP that always holds |
| `Fragments.TcpFragmentsBreak` | internal/tunnel/addrmap.go:239-242 | for TCP with a first piece of eight bytes it fails, for every datagram, whenever the two addresses have word sums that are not congruent |
| `Fragments.ExampleAddressesBreak` | internal/tunnel/addrmap.go:330-349 | as 10.201.0.5 and 192.168.1.5 have |
| `Fragments.RewrittenPayload` | internal/tunnel/addrmap.go:330-349 | a rewrite changes the payload of an IPv4 packet only in the checksum of a first piece |
| `RouteAllocation.ParseAgentRoutes` | internal/webapp/agents.go:819-855 | the lines become masked routes in order, or one bad line refuses them all |
| `RouteAllocation.ParseAgentRoute` | internal/webapp/agents.go:836-852 | a line is refused iff a prefix does not read, an IPv4 network is shorter than /8, or the pair disagrees in family or length |
| `RouteAllocation.AssignFormed` | internal/webapp/routes.go:111-160 | assigned routes are masked pairs of one length; the family differs only for an IPv6 network given an IPv4 prefix |
| `RouteAllocation.RepeatedLanIsPublished` | internal/webapp/routes.go:134-154 | one network entered twice in virtual mode is published twice, under disjoint prefixes |
| `RouteAllocation.CheckOverlaps` | internal/webapp/routes.go:53-60 | true iff some prefix of the list shares an address |
| `RouteAllocation.AllocVirtualPrefix` | internal/webapp/routes.go:80-95 | the loop is first fit over the aligned blocks, for lengths 8 to 28 |
| `RouteAllocation.FirstFitIsLowest` | internal/webapp/routes.go:80-95 | it returns the lowest free block and fails only when every block meets a used or reserved prefix |
| `RouteAllocation.CandidateInPool` | internal/webapp/routes.go:85-89 | for lengths 16 to 28 the blocks are aligned, consecutive and inside 10.201.0.0/16 |
| `RouteAllocation.CandidateInsidePool` | internal/webapp/routes.go:47-51 | and every address of theirs is |
| `RouteAllocation.AllocationSucceeds` | internal/webapp/routes.go:80-95 | fewer used prefixes than blocks, none shorter than a block, leave a free one |
| `RouteAllocation.ShortPrefixLeavesPool` | internal/webapp/routes.go:85-89 | for lengths 8 to 15 the only candidate leaves the pool |
| `RouteAllocation.AssignRoutes` | internal/webapp/routes.go:111-160 | the loop computes the assignment function and leaves the caller's list alone |
| `RouteAllocation.AssignOneFree` | internal/webapp/routes.go:120-157 | an assigned route misses everything used and reserved, keeps its real prefix, and is renumbered exactly when its mode says |
| `RouteAllocation.AssignOneIs` | internal/webapp/routes.go:120-157 | what one route becomes in every mode, and every refusal: an entered prefix stays iff it meets nothing, a network without conflict stays in auto and real mode, real mode refuses a conflict, and what is renumbered gets the lowest free block of lengths 8 to 28 |
| `RouteAllocation.AssignSnoc` | internal/webapp/routes.go:111-160 | each route is decided by what the ones before it became, and one refusal refuses the list |
| `RouteAllocation.AssignOneMixedIff` | internal/webapp/routes.go:134-154 | an entered network becomes an IPv6 network under an IPv4 prefix iff it is IPv6 of length 8 to 28 without a prefix entered, is in virtual mode or meets a used prefix in auto mode, and some block of the pool is free |
| `RouteAllocation.AssignDisjoint` | internal/webapp/routes.go:111-160 | for any mode and used list the effective prefixes are pairwise disjoint, miss all used ones and 10.77.0.0/24, in input order with the real prefixes kept |
| `RouteAllocation.ValidateRouteSet` | internal/webapp/agents.go:860-887 | accepts iff no effective prefix meets the tunnel network or another site, and no two of the set are equal |
| `RouteAllocation.AssignedValidates` | internal/webapp/agents.go:860-887 | what was assigned is always accepted |
| `RouteAllocation.OtherEffectiveHolds` | internal/webapp/routes.go:63-77 | every effective prefix of every other site is in the used list |
| `Sites.AllocIP` | internal/webapp/ipalloc.go:46-55 | the lowest free host number of the range, reserved; none iff the range is full |
| `Sites.CreateRequest` | internal/webapp/agents.go:156-235 | when a new site is refused (id, lines, assignment next to all others, no host from 100 to 254) and what is added otherwise |
| `Sites.EnrollRequest` | internal/webapp/enroll.go:145-235 | when an enrolment is refused, which site gets which routes, and that its key is bound without a secret unless another site has it |
| `Sites.SiteRequest` | internal/webapp/agents.go:339-530 | a new install code, a switch, a secret and a deletion change exactly the one site |
| `Sites.AddRequest` | internal/webapp/devices.go:241-350 | when a new device is refused (name, sites, known key, no host from 2 to 99) and what is added otherwise |
| `Sites.DeviceRequest` | internal/webapp/devices.go:356-470 | listing, granting, re-binding and deleting change exactly the devices of that key or owner; a grant keeps the ids that name a site |
| `Sites.RunOK` | internal/webapp/enroll.go:140-200 | over any sequence of creating, enrolling, detaching, switching and deleting sites and of admitting, listing, granting, re-binding and deleting devices no two effective prefixes overlap, and ids, keys and hosts stay unique |
| `Sites.HubTableUnambiguous` | internal/tunnel/relay.go:105-118 | a hub whose peers carry the published prefixes after such a sequence has no conflict, no address in two declared prefixes, unique agent ids and tunnel addresses |
| `Publishing.SyncAgents` | internal/webapp/server.go:378-411 | agents.json holds exactly the enrolled sites, with what the database says of them |
| `Publishing.AgentsFileReadsIff` | internal/webapp/server.go:378-411 | after any requests the hub can read the agents file iff no enrolled site publishes an IPv6 network under an IPv4 prefix |
| `Publishing.MixedSiteIsPublished` | internal/webapp/routes.go:85-93 | such a site is made by one request in virtual mode and one enrollment, and then no site is read |
| `Publishing.ClientsFileReads` | internal/webapp/server.go:346-374 | the clients file always reads |
| `Publishing.ListedIsAdmitted` | internal/webapp/server.go:346-374 | after any requests the keys of clients.json are exactly the listed devices', each with its name, owner, secret, address and sites |
| `Publishing.EnrolledIsServed` | internal/webapp/server.go:378-411 | and a readable agents.json has exactly the enrolled sites' keys, each with its name, id, secret, switch, address and routes |
| `Publishing.EntryRuns` | internal/tunnel/registry.go:121-167 | a published site that reads back is that site: its id, address, key, switch and masked prefixes |
| `Publishing.SiteOfKey` | internal/tunnel/registry.go:121-167 | what the hub reads under a key is the site enrolled with it |
| `Publishing.LoadedHubIsUnambiguous` | internal/tunnel/relay.go:85-126 | after any requests, a hub whose peers are what it read and whose tables are what it rebuilt is unambiguous, with nothing assumed in between |
| `Publishing.SiteReversibleIff` | internal/webapp/routes.go:111-160 | a published site's translation is undone on every address iff the networks entered for it do not overlap |
| `Publishing.EnteredNetworksStay` | internal/webapp/routes.go:111-160 | assignment neither makes nor removes such an overlap |
| `Service.ServingKept` | internal/tunnel/registry_runtime.go:131-174 | once a server's tables are right and complete for its peers they are so after every action |
| `Service.RunServes` | internal/tunnel/engine.go:366-372 | in every run they are, from the start of the server on |
| `Service.AcceptServes` | internal/tunnel/engine.go:844-854 | and still are at the point within a handler where the relay decides |
| `Service.RoutesByLongestPrefix` | internal/tunnel/relay.go:129-136 | a serving hub routes by longest prefix over its registered agents |
| `Service.ReplyIsTakenBack` | internal/tunnel/relay.go:206-236 | a serving hub with distinct client addresses takes the reply to a forwarded packet back to its client |
| `Service.InServiceIff` | internal/tunnel/registry_runtime.go:79-122 | reading both files makes a serving hub's peers what the control plane published iff no known key has moved to another site, because a reload does not update an agent's id |
| `MovedKeys.MovedKeyAnswers` | internal/tunnel/registry_runtime.go:92-110 | a hub in service that reads an agents file in which a key has moved to another site gives the machine the new site's networks and the old site's id: the verdict on every client packet to those networks is the one for the old id |
| `MovedKeys.MovedKeyIsUnserved` | internal/tunnel/registry_runtime.go:92-110 | and it is then not in service, whichever reading of the published files it is held against |
| `MovedKeys.CoveredIsRouted` | internal/tunnel/relay.go:129-136 | whatever ids its agents go by, a hub with the networks of the file routes a covered address to the one agent whose network it is |
| `MovedKeys.MovedKeyRun` | internal/tunnel/registry_runtime.go:92-110 | a run that gets there: site A enrolled and served, then A detached and B enrolled with the same key before the next poll; the hub leaves service, a client whose list names only A is forwarded into B's network and one whose list names only B is denied |
| `Service.ServiceGoesOn` | internal/tunnel/registry_runtime.go:126-174 | and they stay so until a file is read again |
| `Service.ServiceIsUnambiguous` | internal/tunnel/relay.go:85-126 | such a hub routes every address to one agent at most |
| `Service.ServiceRoundTrip` | internal/tunnel/relay.go:160-236 | end to end over such a hub: a client packet forwarded to a site and answered by the host it was translated to comes back to the client, if the networks entered for the site do not overlap |
| `Isolation.StepIsolated` | internal/tunnel/relay.go:144-287 | one action of a server sends at most one DATA frame, directly after the delivered packet it relays or answers, and only between a client and an agent its ACL names, or back to a pinging sender |
| `Isolation.RunIsolated` | internal/tunnel/relay.go:144-287 | in any run of a server the same holds of every DATA frame it ever sealed |
| `Isolation.QuietOtherwise` | internal/tunnel/engine.go:518-658 | no other action makes a server send DATA, and of these only a handshake brings a session |
| `Guessing.GuessesPerHandshake` | internal/tunnel/auth.go:135-161 | at most three wrong codes per handshake, and three more, while no right code comes |
| `Guessing.JoinsAreAllowed` | internal/tunnel/engine.go:662-676 | in any run of packets the sessions a peer gets are at most the handshakes the limiter let through for the one source its messages come from |
| `Guessing.GuessRate` | internal/tunnel/hslimit.go:39-71 | so in any run of packets and other actions from any reachable state, a peer whose handshake messages come from one source with its bucket not evicted tries at most 3(31 + 5T) wrong codes while no right code or new secret comes, T being the seconds from the first to the last handshake message |
| `Guessing.GuessesUnbounded` | internal/tunnel/engine.go:733-739 | and no bound over a run: for every n and every code that is wrong for the peer's secret, six digits or not, a run with 2n wrong codes, two per handshake, limiter aside, and never a lockout |
| `HandshakeLimiter.Limiter.Allow` | internal/tunnel/hslimit.go:39-71 | one call: refill, cap, take or refuse, after evicting when over 4096; never more than 4097 buckets, tokens within 0 and 30 |
| `HandshakeLimiter.Limiter.EvictHalf` | internal/tunnel/hslimit.go:44-53 | eviction leaves 2047 buckets, each unchanged |
| `HandshakeLimiter.RunBound` | internal/tunnel/hslimit.go:55-70 | allowed handshakes never exceed the tokens there were plus those earned |
| `HandshakeLimiter.RateBound` | internal/tunnel/hslimit.go:55-70 | in any stretch of T seconds at most 30 + 5T handshakes of a source whose bucket is not evicted |
| `HandshakeLimiter.PatientSourcePasses` | internal/tunnel/hslimit.go:55-70 | a source that waits 0.2 seconds between attempts is never refused |
| `HandshakeLimiter.NewSourceBurst` | internal/tunnel/hslimit.go:55-70 | a source without a bucket may start thirty handshakes at one instant and no thirty-first |
| `HandshakeLimiter.IdleSourceBurst` | internal/tunnel/hslimit.go:55-70 | and so may a known one after six idle seconds, whatever it spent before |
| `Addresses.ContainsIsRange` | internal/webapp/routes.go:53-60 | a prefix contains exactly the addresses of its aligned block |
| `Addresses.OverlapsIffShared` | internal/webapp/routes.go:53-60 | two prefixes overlap iff they share an address |
| `Addresses.EqualLengthDisjoint` | internal/tunnel/relay.go:118-126 | masked prefixes of one length that overlap are equal |

## Left out

- The dialling side (clients and agents: handshake initiation, prompts, announces, kick handling) and the handlers of AGENT_INFO payloads, which only feed status displays.
- Sockets, TUN devices, goroutines and locking; every handler is one step, so interleavings inside a handler between two lock regions are not modelled.
- The handshake's cryptography, ciphers and HMAC; JSON, base64, hex and CIDR text parsing; `strings.TrimSpace`; configuration files and their modification times.
- Peers.ClientAllowed: case folding is exact for agent ids of ASCII characters, which is what the control plane admits; letters beyond ASCII are compared as they are.
- ResponderRuns.NoncesNeverReused: the hub's sealing sites only; the announce of a dialling agent (`internal/tunnel/engine.go:597`) is not part of this model.
- ResponderRuns.RevokedStaysRevoked: handlers are atomic; in the original a handshake looks its peer up and installs the session under separate locks (`internal/tunnel/engine.go:703-734`), so a revocation in between would leave a session on an unregistered object.
- Sessions as heap objects: `Session` is a value inside a peer object, so the sharing of one session between `cur` and `prev` during an install is not modelled; the window is proved in place in `RecvWindow` and used as its value in the engine.
- The 64-bit shift and or of the replay window are defined arithmetically (`Shl`, `Or`) and proved bit by bit, not tied to bit-vectors; the byte mask of `remapAddr` is.
- Wrap-around of 64-bit counters, byte statistics, logging and the limits on it, and the content of the JSON the hub sends.
- Engines.Engine.HandleData: where a server relays the payload, requires that its IPv6 header walk ends, because the original never returns from any other, and at most 65535 bytes.
- Guessing.GuessRate: for handshake messages from one source whose bucket is not evicted; a peer may dial from several.
- HandshakeLimiter.RateBound: exact rationals in place of floating point, and only while the source's bucket is not evicted, because eviction forgets how much was spent.
- Sites.RunOK: site creation and enrolment assign routes; sites inserted by pre-provisioning (`internal/webapp/preprovision.go:138-159`) bypass the assignment, so disjointness is not claimed for them. A device key is taken as what it decodes to: `internal/webapp/devices.go:408-438` stores the text it was given, so two spellings of one key would be two devices there.
- ResponderRuns.GuessesAreLimited: counts per peer object and between handshakes, because a handshake resets the count in the original.
- ResponderRuns.CodesNeverGoBack: per peer object; a peer that is revoked and listed again starts anew.
- Liveness: a handshake or an enable command may be lost and is not resent, so convergence is not claimed.
- SQL, HTTP handlers, login, packages, deployment and the command line.
