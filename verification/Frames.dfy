/** The wire format of a frame, and why its clear header can stand for frame type and nonce. */
module Frames {
  import opened Wrappers
  import opened Pow2s
  import opened Addresses
  import opened Trace

  const VERSION: byte := 1
  const HANDSHAKE_INIT: byte := 1
  const HANDSHAKE_RESP: byte := 2

  /** `parseFrame`: version and type, then the rest. */
  datatype Parsed = ErrShortFrame | ErrBadVersion | Parsed(typ: byte, payload: seq<byte>)

  function ParseFrame(b: seq<byte>): Parsed {
    if |b| < 2 then ErrShortFrame
    else if b[0] != VERSION then ErrBadVersion
    else Parsed(b[1], b[2..])
  }

  /** `dataNonce`: the eight bytes after version and type, big-endian. */
  function DataNonce(payload: seq<byte>): (n: Option<nat>)
    ensures n.Some? ==> n.value < Pow2(64)
  {
    if |payload| < 8 then None
    else
      ValBound(payload[..8]);
      Some(Val(payload[..8]))
  }

  function Code(t: FrameType): byte {
    match t
    case Data => 3
    case Keepalive => 4
    case AuthChallenge => 6
    case AuthResp => 7
    case AuthResult => 8
    case Info => 9
    case Bye => 10
    case AgentInfo => 11
    case AgentCmd => 12
  }

  function TypeOf(code: byte): (t: Option<FrameType>)
    ensures forall u :: t == Some(u) <==> Code(u) == code
  {
    match code
    case 3 => Some(Data)
    case 4 => Some(Keepalive)
    case 6 => Some(AuthChallenge)
    case 7 => Some(AuthResp)
    case 8 => Some(AuthResult)
    case 9 => Some(Info)
    case 10 => Some(Bye)
    case 11 => Some(AgentInfo)
    case 12 => Some(AgentCmd)
    case _ => None
  }

  /** What `handlePacket` takes a datagram for. */
  datatype Incoming =
    | Hello(msg: seq<byte>)
    | HelloReply(msg: seq<byte>)
    | Boxed(typ: FrameType, nonce: nat, ciphertext: seq<byte>)
    | Ignored

  function Classify(b: seq<byte>): Incoming {
    match ParseFrame(b)
    case ErrShortFrame => Ignored
    case ErrBadVersion => Ignored
    case Parsed(typ, payload) =>
      if typ == HANDSHAKE_INIT then Hello(payload)
      else if typ == HANDSHAKE_RESP then HelloReply(payload)
      else if TypeOf(typ).None? || DataNonce(payload).None? then Ignored
      else Boxed(TypeOf(typ).value, DataNonce(payload).value, payload[8..])
  }

  /** The clear header, which the AEAD takes as associated data. */
  function Header(t: FrameType, nonce: nat): (h: seq<byte>)
    ensures |h| == 10
  {
    [VERSION, Code(t)] + ToBytes(nonce, 8)
  }

  /** `sealDataFrame` around a ciphertext: the header filled in place, the ciphertext appended. */
  method SealDataFrame(t: FrameType, nonce: nat, ciphertext: seq<byte>) returns (frame: seq<byte>)
    requires nonce < Pow2(64)
    ensures frame == Header(t, nonce) + ciphertext
    ensures Classify(frame) == Boxed(t, nonce, ciphertext)
  {
    var out := new byte[10];
    out[0], out[1] := VERSION, Code(t);
    var rest := nonce;
    for i := 8 downto 0
      invariant out[0] == VERSION && out[1] == Code(t)
      invariant ToBytes(nonce, 8) == ToBytes(rest, i) + out[2 + i..]
    {
      out[2 + i] := rest % 256;
      rest := rest / 256;
      assert out[2 + i..] == [out[2 + i]] + out[2 + i + 1..];
    }
    assert out[..] == [out[0], out[1]] + out[2..];
    FrameRoundTrip(t, nonce, ciphertext);
    return out[..] + ciphertext;
  }

  /** Every sealed frame reads back as what was put in. */
  lemma FrameRoundTrip(t: FrameType, nonce: nat, ciphertext: seq<byte>)
    requires nonce < Pow2(64)
    ensures Classify(Header(t, nonce) + ciphertext) == Boxed(t, nonce, ciphertext)
  {
    ValToBytes(nonce, 8);
    HeaderReads(t, ToBytes(nonce, 8), ciphertext);
  }

  lemma HeaderReads(t: FrameType, n8: seq<byte>, ciphertext: seq<byte>)
    requires |n8| == 8
    ensures Classify([VERSION, Code(t)] + n8 + ciphertext) == Boxed(t, Val(n8), ciphertext)
  {
    var b := [VERSION, Code(t)] + n8 + ciphertext;
    assert b[2..] == n8 + ciphertext;
    assert b[2..][..8] == n8 && b[2..][8..] == ciphertext;
    assert TypeOf(Code(t)) == Some(t);
  }

  /** And nothing else reads as it: the header is the only encoding of its type and nonce. */
  lemma FrameIsHeaderPlusRest(b: seq<byte>)
    requires Classify(b).Boxed?
    ensures var f := Classify(b); f.nonce < Pow2(64) && b == Header(f.typ, f.nonce) + f.ciphertext
  {
    var payload := b[2..];
    ToBytesVal(payload[..8]);
    assert TypeOf(b[1]) == Some(Classify(b).typ);
    assert b == [b[0], b[1]] + payload[..8] + payload[8..];
  }

  /** Two frames agree in their associated data exactly when they agree in type and nonce, so a
      box opens only under the type and nonce it was sealed with. */
  lemma HeaderDetermines(t: FrameType, n: nat, t2: FrameType, n2: nat)
    requires n < Pow2(64) && n2 < Pow2(64)
    ensures Header(t, n) == Header(t2, n2) <==> t == t2 && n == n2
  {
    if Header(t, n) == Header(t2, n2) {
      FrameRoundTrip(t, n, []);
      FrameRoundTrip(t2, n2, []);
    }
  }
}
