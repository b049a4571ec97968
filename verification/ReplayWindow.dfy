/** The 64-packet sliding replay window (`recvWindow`), proved against a plain set of nonces. */
module ReplayWindows {
  import opened Pow2s

  /** A 64-bit word as a number; `Bit(b, i)` is `b & (1 << i) != 0`. */
  type word = b: nat | b < 0x1_0000_0000_0000_0000

  function Bit(b: nat, i: nat): bool
    decreases i
  {
    if i == 0 then b % 2 == 1 else Bit(b / 2, i - 1)
  }

  /** `b << s`: `s` doublings, each losing its top bit. */
  function Shl(b: word, s: nat): word {
    if s == 0 then b else 2 * Shl(b, s - 1) % 0x1_0000_0000_0000_0000
  }

  /** `b | (1 << i)`. */
  function WithBit(b: nat, i: nat): nat
    decreases i
  {
    if i == 0 then b / 2 * 2 + 1 else 2 * WithBit(b / 2, i - 1) + b % 2
  }

  /** Bits below the modulus survive a remainder. */
  lemma {:induction false} BitOfMod(b: nat, i: nat, k: nat)
    requires i < k
    ensures Bit(b % Pow2(k), i) == Bit(b, i)
    decreases i
  {
    var m := Pow2(k - 1);
    DivMul(b, 2, m);
    assert b % Pow2(k) == b / 2 % m * 2 + b % 2;
    if i > 0 { BitOfMod(b / 2, i - 1, k - 1); }
  }

  /** Bit `i` of a left shift. */
  lemma {:induction false} BitOfShl(b: word, s: nat, i: nat)
    requires i < 64
    ensures Bit(Shl(b, s), i) == (i >= s && Bit(b, i - s))
  {
    if s > 0 {
      Pow2Values();
      BitOfMod(2 * Shl(b, s - 1), i, 64);
      if i > 0 { BitOfShl(b, s - 1, i - 1); }
    }
  }

  lemma {:induction false} BitOfWithBit(b: nat, a: nat, i: nat)
    ensures Bit(WithBit(b, a), i) == (i == a || Bit(b, i))
    decreases a
  {
    if a > 0 && i > 0 { BitOfWithBit(b / 2, a - 1, i - 1); }
  }

  lemma {:induction false} WithBitFits(b: nat, a: nat, k: nat)
    requires b < Pow2(k) && a < k
    ensures WithBit(b, a) < Pow2(k)
    decreases a
  {
    if a > 0 { WithBitFits(b / 2, a - 1, k - 1); }
  }

  /** `b |= 1 << i` on a 64-bit word. */
  function Or(b: word, i: nat): (r: word)
    requires i < 64
    ensures r == WithBit(b, i)
  {
    Pow2Values();
    WithBitFits(b, i, 64);
    WithBit(b, i)
  }

  lemma {:induction false} BitOfZero(i: nat)
    ensures !Bit(0, i)
  {
    if i > 0 { BitOfZero(i - 1); }
  }

  lemma BitOfOne(i: nat)
    ensures Bit(1, i) == (i == 0)
  {
    if i > 0 { BitOfZero(i - 1); }
  }

  // ------------------------------------------------------------------ the window

  datatype Window = Window(init: bool, highest: nat, bitmap: word) {

    predicate Acceptable(n: nat) {
      if !init then true
      else if n > highest then true
      else if highest - n >= 64 then false
      else !Bit(bitmap, highest - n)
    }

    function Commit(n: nat): Window {
      if !init then Window(true, n, 1)
      else if n > highest then
        Window(true, n, if n - highest >= 64 then 1 else Or(Shl(bitmap, n - highest), 0))
      else if highest - n >= 64 then this   // 1 << 64 is 0 in Go: nothing is set
      else Window(true, highest, Or(bitmap, highest - n))
    }

    /** Bit `i` is set iff the nonce `highest - i` was received. */
    ghost predicate Represents(seen: set<nat>) {
      (!init ==> seen == {}) &&
      (init ==>
        && highest in seen
        && (forall n <- seen :: n <= highest)
        && (forall i: nat | i < 64 && i <= highest :: Bit(bitmap, i) <==> highest - i in seen))
    }
  }

  const FRESH := Window(false, 0, 0)

  /** A nonce is acceptable iff it is unseen and less than 64 below the highest one seen. */
  lemma AcceptableIff(w: Window, seen: set<nat>, n: nat)
    requires w.Represents(seen)
    ensures w.Acceptable(n) <==> n !in seen && forall m <- seen :: m < n + 64
  {
    if w.init && n <= w.highest && w.highest - n < 64 {
      assert Bit(w.bitmap, w.highest - n) <==> w.highest - (w.highest - n) in seen;
    }
  }

  /** Committing an acceptable nonce adds exactly that nonce to the set. */
  lemma CommitRepresents(w: Window, seen: set<nat>, n: nat)
    requires w.Represents(seen) && w.Acceptable(n)
    ensures w.Commit(n).Represents(seen + {n})
  {
    var w2 := w.Commit(n);
    forall i: nat | i < 64 && i <= w2.highest
      ensures Bit(w2.bitmap, i) <==> w2.highest - i in seen + {n}
    {
      CommitBit(w, seen, n, i);
    }
  }

  lemma CommitBit(w: Window, seen: set<nat>, n: nat, i: nat)
    requires w.Represents(seen) && w.Acceptable(n) && i < 64 && i <= w.Commit(n).highest
    ensures Bit(w.Commit(n).bitmap, i) <==> w.Commit(n).highest - i in seen + {n}
  {
    BitOfOne(i);
    if !w.init {
    } else if n > w.highest {
      var s := n - w.highest;
      if s < 64 {
        BitOfWithBit(Shl(w.bitmap, s), 0, i);
        BitOfShl(w.bitmap, s, i);
        if i >= s { assert w.highest - (i - s) == n - i; }
      }
    } else {
      BitOfWithBit(w.bitmap, w.highest - n, i);
    }
  }

  /** `recvWindow` with its two methods; `seen` records what was committed. */
  class RecvWindow {
    var init: bool
    var highest: nat
    var bitmap: word
    ghost var seen: set<nat>

    function Value(): Window
      reads this
    {
      Window(init, highest, bitmap)
    }

    ghost predicate Valid()
      reads this
    {
      Value().Represents(seen)
    }

    constructor ()
      ensures Valid() && seen == {} && Value() == FRESH
    {
      init, highest, bitmap, seen := false, 0, 0, {};
    }

    method Acceptable(n: nat) returns (ok: bool)
      requires Valid()
      ensures ok <==> n !in seen && forall m <- seen :: m < n + 64
      ensures ok == Value().Acceptable(n)
    {
      AcceptableIff(Value(), seen, n);
      if !init { return true; }
      if n > highest { return true; }
      var age := highest - n;
      if age >= 64 { return false; }
      return !Bit(bitmap, age);
    }

    method Commit(n: nat)
      requires Valid() && n !in seen && forall m <- seen :: m < n + 64
      modifies this
      ensures Valid() && seen == old(seen) + {n}
      ensures Value() == old(Value()).Commit(n)
    {
      AcceptableIff(Value(), seen, n);
      CommitRepresents(Value(), seen, n);
      seen := seen + {n};
      if !init {
        init, highest, bitmap := true, n, 1;
        return;
      }
      if n > highest {
        var shift := n - highest;
        if shift >= 64 { bitmap := 1; } else { bitmap := Or(Shl(bitmap, shift), 0); }
        highest := n;
        return;
      }
      bitmap := Or(bitmap, highest - n);
    }
  }

  // ------------------------------------------------- a lossy, reordering link

  /** One direction of a session. The sender numbers its messages 0, 1, 2, ...; the network
      hands over any of the sealed frames, any number of times, in any order. */
  datatype Receiver<T> = Receiver(window: Window, delivered: seq<(nat, T)>)

  function Receive<T>(sent: seq<T>, arrivals: seq<nat>): (r: Receiver<T>)
    requires forall k | 0 <= k < |arrivals| :: arrivals[k] < |sent|
  {
    if arrivals == [] then Receiver(FRESH, [])
    else
      var before := Receive(sent, arrivals[..|arrivals| - 1]);
      var n := arrivals[|arrivals| - 1];
      if before.window.Acceptable(n) then
        Receiver(before.window.Commit(n), before.delivered + [(n, sent[n])])
      else before
  }

  ghost function Numbers<T>(d: seq<(nat, T)>): set<nat> { set i | 0 <= i < |d| :: d[i].0 }

  lemma {:induction false} ReceiveTracks<T>(sent: seq<T>, arrivals: seq<nat>)
    requires forall k | 0 <= k < |arrivals| :: arrivals[k] < |sent|
    ensures var r := Receive(sent, arrivals); r.window.Represents(Numbers(r.delivered))
    ensures var d := Receive(sent, arrivals).delivered;
      && (forall i | 0 <= i < |d| :: d[i].0 in arrivals && d[i].1 == sent[d[i].0])
      && (forall i, j | 0 <= i < j < |d| :: d[i].0 != d[j].0)
  {
    if arrivals != [] {
      var k := |arrivals| - 1;
      ReceiveTracks(sent, arrivals[..k]);
      var before := Receive(sent, arrivals[..k]);
      var n := arrivals[k];
      if before.window.Acceptable(n) {
        AcceptableIff(before.window, Numbers(before.delivered), n);
        CommitRepresents(before.window, Numbers(before.delivered), n);
        assert Numbers(before.delivered + [(n, sent[n])]) == Numbers(before.delivered) + {n} by {
          var d := before.delivered + [(n, sent[n])];
          assert d[|before.delivered|].0 == n;
          forall m | m in Numbers(before.delivered) ensures m in Numbers(d) {
            var i :| 0 <= i < |before.delivered| && before.delivered[i].0 == m;
            assert d[i].0 == m;
          }
        }
      }
    }
  }

  /** Whatever the network does, every message is delivered at most once and unchanged. */
  lemma AtMostOnce<T>(sent: seq<T>, arrivals: seq<nat>)
    requires forall k | 0 <= k < |arrivals| :: arrivals[k] < |sent|
    ensures var d := Receive(sent, arrivals).delivered;
      && (forall i | 0 <= i < |d| :: d[i].0 < |sent| && d[i].1 == sent[d[i].0])
      && (forall i, j | 0 <= i < j < |d| :: d[i].0 != d[j].0)
  {
    ReceiveTracks(sent, arrivals);
  }

  /** And nothing is refused without cause: after `arrivals`, message `n` is taken exactly when
      it was not taken before and no message 64 or more ahead of it was. */
  lemma TakenIff<T>(sent: seq<T>, arrivals: seq<nat>, n: nat)
    requires n < |sent| && forall k | 0 <= k < |arrivals| :: arrivals[k] < |sent|
    ensures var d, d2 := Receive(sent, arrivals).delivered, Receive(sent, arrivals + [n]).delivered;
      d2 == d + [(n, sent[n])] <==> forall i | 0 <= i < |d| :: d[i].0 != n && d[i].0 < n + 64
  {
    ReceiveTracks(sent, arrivals);
    var r := Receive(sent, arrivals);
    assert (arrivals + [n])[..|arrivals|] == arrivals;
    AcceptableIff(r.window, Numbers(r.delivered), n);
    if !r.window.Acceptable(n) { assert |Receive(sent, arrivals + [n]).delivered| == |r.delivered|; }
    if forall i | 0 <= i < |r.delivered| :: r.delivered[i].0 != n && r.delivered[i].0 < n + 64 {
      assert n !in Numbers(r.delivered);
    }
    forall i | 0 <= i < |r.delivered| ensures r.delivered[i].0 in Numbers(r.delivered) { }
  }
}
