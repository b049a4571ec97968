/** The hub behind its handshake limiter: what `handlePacket` lets through. */
module Packets {
  import opened Wrappers
  import opened Peers
  import opened Trace
  import opened Responder
  import HandshakeLimiter

  /** A handshake message, the limiter asked; or anything else the hub may do. */
  datatype Packet =
    | Hello(key: Option<Key>, addr: Endpoint, call: HandshakeLimiter.Call)   // `key`: what the message authenticates
    | Other(a: Action, now: Time)

  ghost function PacketStep(s: State, env: Env, p: Packet): State {
    match p
    case Hello(key, addr, c) =>
      if HandshakeLimiter.Allowed(c) && key.Some? then Next(s, env, HandshakeMsg(key.value, addr), c.now) else s
    case Other(a, now) => if a.HandshakeMsg? then s else Next(s, env, a, now)
  }

  ghost function PacketRun(s: State, env: Env, packets: seq<Packet>): State
    decreases |packets|
  {
    if packets == [] then s else PacketRun(PacketStep(s, env, packets[0]), env, packets[1..])
  }

  /** What the limiter was asked. */
  function Calls(packets: seq<Packet>): seq<HandshakeLimiter.Call> {
    if packets == [] then []
    else (if packets[0].Hello? then [packets[0].call] else []) + Calls(packets[1..])
  }

  /** Handshake messages for peer `r` come from `ip` alone. */
  ghost predicate OneSource(s: State, env: Env, packets: seq<Packet>, r: nat, ip: string)
    decreases |packets|
  {
    packets == [] ||
    (var p := packets[0];
     && (p.Hello? && p.key.Some? && p.key.value in s.peers && s.peers[p.key.value] == r ==> p.call.ip == ip)
     && OneSource(PacketStep(s, env, p), env, packets[1..], r, ip))
  }
}
