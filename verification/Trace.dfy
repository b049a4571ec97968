/** What the hub did, as a log of events, and what every such log must satisfy. The log says
    nothing of sessions, flags or counters: it is the outside view the engine is held to. */
module Trace {
  import opened Wrappers
  import opened Addresses
  import opened Routing

  type Time = int     // nanoseconds since Go's zero time

  const SECOND: Time := 1_000_000_000
  const UNIX_EPOCH: Time := 62_135_596_800_000_000_000

  datatype FrameType =
    | Data | Keepalive | AuthChallenge | AuthResp | AuthResult | Info | Bye | AgentInfo | AgentCmd

  type Payload = seq<byte>

  datatype Event =
    | Installed(peer: Ref, sendKey: nat, recvKey: nat, at: Time)              // a handshake was accepted
    | Sealed(key: nat, nonce: nat, typ: FrameType, payload: Payload)          // a frame left the hub
    | Accepted(peer: Ref, key: nat, nonce: nat, typ: FrameType, payload: Payload)
    | Delivered(peer: Ref, secret: string, payload: Payload)                  // DATA handed to the relay or the TUN
    | CodeAccepted(peer: Ref, secret: string, code: string, step: int, at: Time)
    | CodeRejected(peer: Ref, at: Time)
    | Dropped(peer: Ref)                                                      // both sessions discarded
    | SecretChanged(peer: Ref)

  type Log = seq<Event>

  /** The one-time code of a secret at a time step; `None` when generation fails. */
  type Totp = (string, int) -> Option<string>

  /** Go's integer division, truncating toward zero. */
  function TruncDiv(a: int, b: int): int
    requires b > 0
  {
    if a >= 0 then a / b else -((-a) / b)
  }

  /** The 30-second step of the clock. */
  function ClockStep(now: Time): int {
    TruncDiv((now - UNIX_EPOCH) / 1_000_000_000, 30)
  }

  /** Where one peer stands according to the log. */
  datatype Watch = Watch(
    proven: Option<string>,      // the secret proven since the sessions were last dropped
    live: set<nat>,              // keys installed since then
    wrong: nat,                  // wrong codes since the last handshake, right code or new secret
    step: Option<int>,           // the last accepted time step
    struckOut: Option<Time>)     // when the third wrong code came

  const UNSEEN := Watch(None, {}, 0, None, None)

  function Observe(w: Watch, e: Event, r: Ref): Watch {
    match e
    case Installed(p, sk, rk, _) =>
      if p == r then w.(live := w.live + {sk, rk}, wrong := 0, struckOut := None) else w
    case CodeAccepted(p, secret, _, step, _) =>
      if p == r then w.(proven := Some(secret), wrong := 0, step := Some(step)) else w
    case CodeRejected(p, at) =>
      if p == r then w.(wrong := w.wrong + 1, struckOut := if w.wrong + 1 >= 3 then Some(at) else w.struckOut) else w
    case Dropped(p) => if p == r then w.(proven := None, live := {}) else w
    case SecretChanged(p) => if p == r then w.(proven := None, wrong := 0, struckOut := None) else w
    case _ => w
  }

  function WatchOf(log: Log, r: Ref): Watch {
    if log == [] then UNSEEN else Observe(WatchOf(log[..|log| - 1], r), log[|log| - 1], r)
  }

  /** How many frames were sealed under a key. */
  function SealCount(log: Log, key: nat): nat {
    if log == [] then 0
    else
      var e := log[|log| - 1];
      SealCount(log[..|log| - 1], key) + if e.Sealed? && e.key == key then 1 else 0
  }

  /** The nonces accepted under a key. */
  function AcceptedNonces(log: Log, key: nat): set<nat> {
    if log == [] then {}
    else
      var e := log[|log| - 1];
      AcceptedNonces(log[..|log| - 1], key) + if e.Accepted? && e.key == key then {e.nonce} else {}
  }

  /** Every key a handshake ever brought. */
  function Issued(log: Log): set<nat> {
    if log == [] then {}
    else
      var e := log[|log| - 1];
      Issued(log[..|log| - 1]) + if e.Installed? then {e.sendKey, e.recvKey} else {}
  }

  /** When an event may follow a log. */
  ghost predicate EventOK(totp: Totp, log: Log, e: Event) {
    match e
    case Installed(r, sk, rk, at) =>
      && sk != rk && sk !in Issued(log) && rk !in Issued(log)
      && (WatchOf(log, r).struckOut.Some? ==> at >= WatchOf(log, r).struckOut.value + 30 * SECOND)
    case Sealed(key, nonce, _, _) =>
      key in Issued(log) && nonce == SealCount(log, key)
    case Accepted(r, key, nonce, _, _) =>
      && key in WatchOf(log, r).live && nonce !in AcceptedNonces(log, key)
      && WatchOf(log, r).struckOut.None?
    case Delivered(r, secret, payload) =>
      && (secret != "" ==> WatchOf(log, r).proven == Some(secret))
      && log != [] && (var last := log[|log| - 1];
           last.Accepted? && last.peer == r && last.typ == Data && last.payload == payload)
    case CodeAccepted(r, secret, code, step, at) =>
      && secret != "" && totp(secret, step) == Some(code)
      && ClockStep(at) - 1 <= step <= ClockStep(at) + 1
      && (WatchOf(log, r).step.Some? ==> step >= WatchOf(log, r).step.value)
    case CodeRejected(r, _) => WatchOf(log, r).wrong < 3
    case Dropped(_) => true
    case SecretChanged(_) => true
  }

  ghost predicate LogOK(totp: Totp, log: Log) {
    log == [] || (LogOK(totp, log[..|log| - 1]) && EventOK(totp, log[..|log| - 1], log[|log| - 1]))
  }

  lemma {:induction false} PrefixOK(totp: Totp, log: Log, i: nat)
    requires LogOK(totp, log) && i <= |log|
    ensures LogOK(totp, log[..i])
    ensures i < |log| ==> EventOK(totp, log[..i], log[i])
  {
    if i == |log| {
      assert log[..i] == log;
    } else {
      var front := log[..|log| - 1];
      if i < |front| { PrefixOK(totp, front, i); assert front[..i] == log[..i]; }
    }
  }

  /** One event more. */
  lemma Snoc(log: Log, e: Event)
    ensures (log + [e])[..|log|] == log && (log + [e])[|log|] == e
    ensures forall r :: WatchOf(log + [e], r) == Observe(WatchOf(log, r), e, r)
    ensures forall k :: SealCount(log + [e], k) == SealCount(log, k) + if e.Sealed? && e.key == k then 1 else 0
    ensures forall k ::
      AcceptedNonces(log + [e], k) == AcceptedNonces(log, k) + if e.Accepted? && e.key == k then {e.nonce} else {}
    ensures Issued(log + [e]) == Issued(log) + if e.Installed? then {e.sendKey, e.recvKey} else {}
  {
    assert (log + [e])[..|log|] == log;
  }

  lemma SnocOK(totp: Totp, log: Log, e: Event)
    requires LogOK(totp, log) && EventOK(totp, log, e)
    ensures LogOK(totp, log + [e])
  {
    assert (log + [e])[..|log|] == log;
  }

  lemma TakeSnoc(log: Log, i: nat)
    requires i < |log|
    ensures log[..i + 1] == log[..i] + [log[i]]
  {
  }

  // --------------------------------------------------------------- who owns a key

  lemma {:induction false} LiveIsIssued(log: Log, r: Ref)
    ensures WatchOf(log, r).live <= Issued(log)
  {
    if log != [] { LiveIsIssued(log[..|log| - 1], r); }
  }

  /** A key is only ever live for one peer. */
  lemma {:induction false} LiveDisjoint(totp: Totp, log: Log, r: Ref, q: Ref)
    requires LogOK(totp, log) && r != q
    ensures WatchOf(log, r).live !! WatchOf(log, q).live
  {
    if log != [] {
      var front := log[..|log| - 1];
      LiveDisjoint(totp, front, r, q);
      LiveIsIssued(front, r);
      LiveIsIssued(front, q);
    }
  }

  lemma {:induction false} IssuedStays(log: Log, i: nat)
    requires i <= |log|
    ensures Issued(log[..i]) <= Issued(log)
  {
    if i == |log| {
      assert log[..i] == log;
    } else {
      assert log[..|log| - 1][..i] == log[..i];
      IssuedStays(log[..|log| - 1], i);
    }
  }

  // ----------------------------------------------------------- whole-run theorems

  predicate Invalidates(e: Event, r: Ref) {
    (e.Dropped? && e.peer == r) || (e.SecretChanged? && e.peer == r)
  }

  /** `proven` means an accepted code with nothing undoing it since. */
  lemma {:induction false} ProvenMeans(log: Log, r: Ref) returns (j: nat)
    requires WatchOf(log, r).proven.Some?
    ensures j < |log| && log[j].CodeAccepted? && log[j].peer == r && log[j].secret == WatchOf(log, r).proven.value
    ensures forall k | j < k < |log| :: !Invalidates(log[k], r)
  {
    var n := |log| - 1;
    var e := log[n];
    if e.CodeAccepted? && e.peer == r {
      j := n;
    } else {
      j := ProvenMeans(log[..n], r);
      assert forall k | j < k < n :: log[..n][k] == log[k];
    }
  }

  /** No payload of a peer with a secret is delivered unless a code for that very secret was
      accepted before it, with no loss of the sessions and no change of secret in between. */
  lemma CodeBeforeData(totp: Totp, log: Log, i: nat) returns (j: nat)
    requires LogOK(totp, log) && i < |log| && log[i].Delivered? && log[i].secret != ""
    ensures j < i && log[j].CodeAccepted? && log[j].peer == log[i].peer && log[j].secret == log[i].secret
    ensures totp(log[j].secret, log[j].step) == Some(log[j].code)
    ensures ClockStep(log[j].at) - 1 <= log[j].step <= ClockStep(log[j].at) + 1
    ensures forall k | j < k < i :: !Invalidates(log[k], log[i].peer)
  {
    PrefixOK(totp, log, i);
    j := ProvenMeans(log[..i], log[i].peer);
    assert forall k | j < k < i :: log[..i][k] == log[k];
    PrefixOK(totp, log, j);
  }

  /** Everything delivered is the content of the frame accepted just before it. */
  lemma DeliveredWasAccepted(totp: Totp, log: Log, i: nat)
    requires LogOK(totp, log) && i < |log| && log[i].Delivered?
    ensures i > 0 && log[i - 1].Accepted? && log[i - 1].peer == log[i].peer
    ensures log[i - 1].typ == Data && log[i - 1].payload == log[i].payload
  {
    PrefixOK(totp, log, i);
  }

  lemma {:induction false} SealCountGrows(log: Log, i: nat, key: nat)
    requires i <= |log|
    ensures SealCount(log[..i], key) <= SealCount(log, key)
  {
    if i == |log| {
      assert log[..i] == log;
    } else {
      assert log[..|log| - 1][..i] == log[..i];
      SealCountGrows(log[..|log| - 1], i, key);
    }
  }

  /** No (key, nonce) pair is sealed twice; under one key the nonces are 0, 1, 2, ... */
  lemma SealedOnce(totp: Totp, log: Log, i: nat, j: nat)
    requires LogOK(totp, log) && i < j < |log| && log[i].Sealed? && log[j].Sealed? && log[i].key == log[j].key
    ensures log[i].nonce == SealCount(log[..i], log[i].key) && log[j].nonce == SealCount(log[..j], log[j].key)
    ensures log[i].nonce < log[j].nonce
  {
    PrefixOK(totp, log, i);
    PrefixOK(totp, log, j);
    TakeSnoc(log, i);
    Snoc(log[..i], log[i]);
    assert log[..j][..i + 1] == log[..i + 1];
    SealCountGrows(log[..j], i + 1, log[i].key);
  }

  lemma {:induction false} AcceptedStays(log: Log, i: nat)
    requires i < |log| && log[i].Accepted?
    ensures log[i].nonce in AcceptedNonces(log, log[i].key)
  {
    if i < |log| - 1 {
      assert log[..|log| - 1][i] == log[i];
      AcceptedStays(log[..|log| - 1], i);
    }
  }

  /** No frame is accepted twice under one key: at-most-once delivery whatever the network does. */
  lemma AcceptedOnce(totp: Totp, log: Log, i: nat, j: nat)
    requires LogOK(totp, log) && i < j < |log| && log[i].Accepted? && log[j].Accepted? && log[i].key == log[j].key
    ensures log[i].nonce != log[j].nonce
  {
    PrefixOK(totp, log, j);
    assert log[..j][i] == log[i];
    AcceptedStays(log[..j], i);
  }

  /** A live key was installed for its peer, and not dropped since. */
  lemma {:induction false} LiveMeans(log: Log, r: Ref, key: nat) returns (j: nat)
    requires key in WatchOf(log, r).live
    ensures j < |log| && log[j].Installed? && log[j].peer == r && key in {log[j].sendKey, log[j].recvKey}
    ensures forall k | j < k < |log| :: !(log[k].Dropped? && log[k].peer == r)
  {
    var n := |log| - 1;
    var e := log[n];
    if e.Installed? && e.peer == r && key in {e.sendKey, e.recvKey} {
      j := n;
    } else {
      j := LiveMeans(log[..n], r, key);
      assert forall k | j < k < n :: log[..n][k] == log[k];
    }
  }

  lemma IssuedOnce(totp: Totp, log: Log, i: nat, j: nat, key: nat)
    requires LogOK(totp, log) && i < j < |log| && log[i].Installed? && log[j].Installed?
    requires key in {log[i].sendKey, log[i].recvKey}
    ensures key !in {log[j].sendKey, log[j].recvKey}
  {
    PrefixOK(totp, log, j);
    TakeSnoc(log, i);
    Snoc(log[..i], log[i]);
    assert log[..j][..i + 1] == log[..i + 1];
    IssuedStays(log[..j], i + 1);
  }

  /** Once a peer's sessions are dropped - by a bye, a kick, a timeout, too many wrong codes or a
      revocation - no frame under their keys is ever accepted again, from anybody. */
  lemma DroppedForGood(totp: Totp, log: Log, i: nat, j: nat, k: nat)
    requires LogOK(totp, log) && i < j < k < |log|
    requires log[i].Installed? && log[j].Dropped? && log[j].peer == log[i].peer
    requires log[k].Accepted?
    ensures log[k].key !in {log[i].sendKey, log[i].recvKey}
  {
    PrefixOK(totp, log, k);
    var q, key := log[k].peer, log[k].key;
    var l := LiveMeans(log[..k], q, key);
    assert log[..k][l] == log[l] && log[..k][j] == log[j];
    if key in {log[i].sendKey, log[i].recvKey} {
      if l < i { IssuedOnce(totp, log, l, i, key); }
      if i < l { IssuedOnce(totp, log, i, l, key); }
    }
  }

  lemma {:induction false} StepStays(totp: Totp, log: Log, i: nat)
    requires LogOK(totp, log) && i < |log| && log[i].CodeAccepted?
    ensures WatchOf(log, log[i].peer).step.Some? && WatchOf(log, log[i].peer).step.value >= log[i].step
  {
    if i < |log| - 1 {
      assert log[..|log| - 1][i] == log[i];
      StepStays(totp, log[..|log| - 1], i);
    }
  }

  /** Accepted time steps of one peer never go back: a captured code cannot be replayed once a
      later one was used. */
  lemma StepsNeverDecrease(totp: Totp, log: Log, i: nat, j: nat)
    requires LogOK(totp, log) && i < j < |log| && log[i].CodeAccepted? && log[j].CodeAccepted?
    requires log[i].peer == log[j].peer
    ensures log[i].step <= log[j].step
  {
    PrefixOK(totp, log, j);
    assert log[..j][i] == log[i];
    StepStays(totp, log[..j], i);
  }

  /** Wrong codes of `r` among the events `i..j`. */
  function WrongIn(log: Log, r: Ref, i: nat, j: nat): nat
    requires i <= j <= |log|
  {
    if i == j then 0
    else WrongIn(log, r, i, j - 1) + if log[j - 1].CodeRejected? && log[j - 1].peer == r then 1 else 0
  }

  predicate Clears(e: Event, r: Ref) {
    (e.Installed? && e.peer == r) || (e.CodeAccepted? && e.peer == r) || (e.SecretChanged? && e.peer == r)
  }

  lemma {:induction false} WrongIsCounted(log: Log, r: Ref, i: nat, j: nat)
    requires i <= j <= |log| && forall k | i <= k < j :: !Clears(log[k], r)
    ensures WrongIn(log, r, i, j) + WatchOf(log[..i], r).wrong == WatchOf(log[..j], r).wrong
    decreases j - i
  {
    if i < j {
      WrongIsCounted(log, r, i, j - 1);
      TakeSnoc(log, j - 1);
      Snoc(log[..j - 1], log[j - 1]);
    }
  }

  lemma {:induction false} WrongAtMostThree(totp: Totp, log: Log, r: Ref)
    requires LogOK(totp, log)
    ensures WatchOf(log, r).wrong <= 3
    ensures WatchOf(log, r).wrong == 3 ==> WatchOf(log, r).struckOut.Some?
  {
    if log != [] { WrongAtMostThree(totp, log[..|log| - 1], r); }
  }

  /** Between two handshakes, with no right code and no new secret, at most three wrong codes
      are evaluated. */
  lemma ThreeStrikes(totp: Totp, log: Log, r: Ref, i: nat, j: nat)
    requires LogOK(totp, log) && i <= j <= |log| && forall k | i <= k < j :: !Clears(log[k], r)
    ensures WrongIn(log, r, i, j) <= 3
  {
    WrongIsCounted(log, r, i, j);
    PrefixOK(totp, log, j);
    WrongAtMostThree(totp, log[..j], r);
  }

  lemma {:induction false} StruckOutStays(totp: Totp, log: Log, r: Ref, i: nat, j: nat)
    requires LogOK(totp, log) && i < j <= |log| && log[i].CodeRejected? && log[i].peer == r
    requires WatchOf(log[..i], r).wrong == 2 && forall k | i < k < j :: !Clears(log[k], r)
    ensures WatchOf(log[..j], r).struckOut == Some(log[i].at) && WatchOf(log[..j], r).wrong == 3
    decreases j - i
  {
    TakeSnoc(log, j - 1);
    Snoc(log[..j - 1], log[j - 1]);
    if i < j - 1 {
      StruckOutStays(totp, log, r, i, j - 1);
      PrefixOK(totp, log, j - 1);
    }
  }

  /** After the third wrong code nothing is accepted from the peer, and the next handshake comes
      at least 30 seconds later, unless its secret is changed first. */
  lemma LockedOut(totp: Totp, log: Log, r: Ref, i: nat, j: nat)
    requires LogOK(totp, log) && i < j < |log| && log[i].CodeRejected? && log[i].peer == r
    requires WatchOf(log[..i], r).wrong == 2 && forall k | i < k < j :: !Clears(log[k], r)
    ensures !(log[j].Accepted? && log[j].peer == r)
    ensures log[j].Installed? && log[j].peer == r ==> log[j].at >= log[i].at + 30 * SECOND
  {
    StruckOutStays(totp, log, r, i, j);
    PrefixOK(totp, log, j);
  }
}
