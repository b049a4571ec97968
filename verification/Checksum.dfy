/** The Internet checksum of RFC 1071 and the incremental update of RFC 1624,
    as `onesComplement` and `checksumDelta` compute them in 32-bit sums. */
module Checksums {
  import opened Addresses

  /** Sum of the big-endian 16-bit words; an odd last byte is padded with zero. */
  function WordSum(b: seq<byte>): nat {
    if |b| == 0 then 0
    else if |b| == 1 then 256 * (b[0] as nat)
    else 256 * (b[0] as nat) + b[1] + WordSum(b[2..])
  }

  /** End-around-carry folding in closed form: 0 stays 0, everything else lands in 1..65535. */
  function Folded(s: nat): (r: nat)
    ensures r < 0x1_0000 && (r == 0 <==> s == 0) && r % 65535 == s % 65535
  {
    if s == 0 then 0 else 1 + (s - 1) % 65535
  }

  /** The checksum field a sender computes over words adding up to `s`. */
  function Complement(s: nat): (r: nat)
    ensures r < 0x1_0000
  {
    65535 - Folded(s)
  }

  /** A receiver accepts when all words, the field included, fold to all ones. */
  predicate Verifies(s: nat) { Folded(s) == 65535 }

  function Checksum(b: seq<byte>): (r: nat)
    ensures r < 0x1_0000
  {
    Complement(WordSum(b))
  }

  /** Folding only ever removes multiples of 65535. */
  lemma FoldedQuotient(s: nat) returns (j: nat)
    ensures s == Folded(s) + j * 65535
  {
    j := if s == 0 then 0 else (s - 1) / 65535;
  }

  lemma FoldedCongruent(x: nat, y: nat)
    requires x % 65535 == y % 65535 && (x == 0 <==> y == 0)
    ensures Folded(x) == Folded(y)
  {
  }

  lemma FoldStep(s: nat)
    requires s >= 0x1_0000
    ensures 0 < s / 0x1_0000 + s % 0x1_0000 < s
    ensures Folded(s / 0x1_0000 + s % 0x1_0000) == Folded(s)
  {
    assert s == s / 0x1_0000 * 65535 + (s / 0x1_0000 + s % 0x1_0000);
    assert s % 65535 == (s / 0x1_0000 + s % 0x1_0000) % 65535;
    FoldedCongruent(s, s / 0x1_0000 + s % 0x1_0000);
  }

  lemma {:induction false} WordSumBound(b: seq<byte>)
    ensures 2 * WordSum(b) <= 65535 * (|b| + 1)
    ensures |b| % 2 == 0 ==> 2 * WordSum(b) <= 65535 * |b|
  {
    if |b| >= 2 { WordSumBound(b[2..]); }
  }

  lemma {:induction false} WordSumAppend(a: seq<byte>, b: seq<byte>)
    requires |a| % 2 == 0
    ensures WordSum(a + b) == WordSum(a) + WordSum(b)
  {
    if a == [] {
      assert a + b == b;
    } else {
      assert (a + b)[2..] == a[2..] + b;
      WordSumAppend(a[2..], b);
    }
  }

  /** `b` with the bytes from `at` on overwritten by `w`. */
  function Splice(b: seq<byte>, at: nat, w: seq<byte>): (r: seq<byte>)
    requires at + |w| <= |b|
    ensures |r| == |b|
    ensures forall i | 0 <= i < |b| :: r[i] == if at <= i < at + |w| then w[i - at] else b[i]
  {
    b[..at] + w + b[at + |w|..]
  }

  lemma WordSum3(a: seq<byte>, b: seq<byte>, c: seq<byte>)
    requires |a| % 2 == 0 && |b| % 2 == 0
    ensures WordSum(a + b + c) == WordSum(a) + WordSum(b) + WordSum(c)
  {
    WordSumAppend(a, b);
    WordSumAppend(a + b, c);
  }

  /** Overwriting whole words changes the sum by the difference of those words. */
  lemma WordSumSplice(b: seq<byte>, at: nat, w: seq<byte>)
    requires at + |w| <= |b| && at % 2 == 0 && |w| % 2 == 0
    ensures WordSum(Splice(b, at, w)) + WordSum(b[at..at + |w|]) == WordSum(b) + WordSum(w)
  {
    var head, was, tail := b[..at], b[at..at + |w|], b[at + |w|..];
    assert b == head + was + tail;
    WordSum3(head, was, tail);
    WordSum3(head, w, tail);
  }

  function U16At(b: seq<byte>, i: nat): (r: nat)
    requires i + 2 <= |b|
    ensures r < 0x1_0000
  {
    256 * (b[i] as nat) + b[i + 1]
  }

  function PutU16(x: nat): (s: seq<byte>)
    requires x < 0x1_0000
    ensures |s| == 2 && WordSum(s) == x && U16At(s, 0) == x
  {
    [x / 256, x % 256]
  }

  lemma SpliceU16(b: seq<byte>, at: nat, x: nat)
    requires at + 2 <= |b| && x < 0x1_0000
    ensures U16At(Splice(b, at, PutU16(x)), at) == x
  {
    var w := PutU16(x);
    assert Splice(b, at, w)[at] == w[0] && Splice(b, at, w)[at + 1] == w[1];
  }

  lemma U16Bytes(b: seq<byte>, i: nat)
    requires i + 2 <= |b|
    ensures b[i..i + 2] == PutU16(U16At(b, i))
  {
  }

  lemma SpliceIs(b: seq<byte>, c: seq<byte>, at: nat, w: seq<byte>)
    requires at + |w| <= |b| == |c| && c[at..at + |w|] == w
    requires forall i | 0 <= i < |b| && !(at <= i < at + |w|) :: c[i] == b[i]
    ensures c == Splice(b, at, w)
  {
    forall i | 0 <= i < |b| ensures c[i] == Splice(b, at, w)[i] {
      if at <= i < at + |w| { assert c[i] == c[at..at + |w|][i - at]; }
    }
  }

  lemma SpliceElsewhere(b: seq<byte>, at: nat, w: seq<byte>, lo: nat, hi: nat)
    requires at + |w| <= |b| && lo <= hi <= |b| && (hi <= at || at + |w| <= lo)
    ensures Splice(b, at, w)[lo..hi] == b[lo..hi]
  {
  }

  /** Go's `uint32` addition. */
  function Add32(x: nat, y: nat): (r: nat)
    ensures r < 0x1_0000_0000
    ensures x + y < 0x1_0000_0000 ==> r == x + y
  {
    (x + y) % 0x1_0000_0000
  }

  /** The carry-folding loop both computations end with. */
  method Fold(total: nat) returns (sum: nat)
    ensures sum == Folded(total)
  {
    sum := total;
    while sum > 0xffff
      invariant Folded(sum) == Folded(total)
    {
      FoldStep(sum);
      sum := sum / 0x1_0000 + sum % 0x1_0000;
    }
  }

  method OnesComplement(b: seq<byte>) returns (r: nat)
    ensures r < 0x1_0000
    ensures |b| <= 131072 ==> r == Checksum(b)
  {
    WordSumBound(b);
    var sum: nat := 0;
    var i := 0;
    while i + 1 < |b|
      invariant 0 <= i <= |b| && i % 2 == 0 && sum < 0x1_0000_0000
      invariant |b| <= 131072 ==> sum + WordSum(b[i..]) == WordSum(b)
    {
      assert b[i..][2..] == b[i + 2..];
      sum := Add32(sum, U16At(b, i));
      i := i + 2;
    }
    if |b| % 2 == 1 {
      sum := Add32(sum, 256 * (b[|b| - 1] as nat));
    }
    assert |b| <= 131072 ==> sum == WordSum(b);
    sum := Fold(sum);
    r := 65535 - sum;
  }

  /** The value `checksumDelta` stands for: eqn. 3 of RFC 1624, HC' = ~(~HC + ~m + m'). */
  function Delta(cur: nat, oldB: seq<byte>, newB: seq<byte>): (r: nat)
    requires cur < 0x1_0000 && |oldB| == |newB| && |oldB| % 2 == 0
    ensures r < 0x1_0000
  {
    WordSumBound(oldB);
    Complement(65535 - cur + (65535 * (|oldB| / 2) - WordSum(oldB)) + WordSum(newB))
  }

  lemma WordStep(b: seq<byte>, i: nat)
    requires i + 2 <= |b|
    ensures WordSum(b[i..]) == U16At(b, i) + WordSum(b[i + 2..])
  {
    assert b[i..][2..] == b[i + 2..];
  }

  /** The running sum after the first `i` bytes: what is still to come makes up the rest of `Delta`'s argument. */
  ghost predicate DeltaSoFar(cur: nat, oldB: seq<byte>, newB: seq<byte>, i: nat, sum: nat)
    requires i <= |oldB| == |newB|
  {
    sum <= 65535 * (i + 1) &&
    sum + 65535 * ((|oldB| - i) / 2) - WordSum(oldB[i..]) + WordSum(newB[i..])
      == 65535 - cur + 65535 * (|oldB| / 2) - WordSum(oldB) + WordSum(newB)
  }

  lemma DeltaStep(cur: nat, oldB: seq<byte>, newB: seq<byte>, i: nat, sum: nat)
    requires i + 1 < |oldB| == |newB| <= 65536 && i % 2 == 0 && |oldB| % 2 == 0
    requires DeltaSoFar(cur, oldB, newB, i, sum)
    ensures sum + (65535 - U16At(oldB, i)) + U16At(newB, i) < 0x1_0000_0000
    ensures DeltaSoFar(cur, oldB, newB, i + 2, sum + (65535 - U16At(oldB, i)) + U16At(newB, i))
  {
    WordStep(oldB, i);
    WordStep(newB, i);
    assert (|oldB| - i) / 2 == (|oldB| - (i + 2)) / 2 + 1;
  }

  method ChecksumDelta(cur: nat, oldB: seq<byte>, newB: seq<byte>) returns (r: nat)
    requires cur < 0x1_0000 && |oldB| == |newB| && |oldB| % 2 == 0
    ensures r < 0x1_0000
    ensures |oldB| <= 65536 ==> r == Delta(cur, oldB, newB)
  {
    var sum: nat := 65535 - cur;
    var i := 0;
    ghost var small := |oldB| <= 65536;
    while i + 1 < |oldB|
      invariant 0 <= i <= |oldB| && i % 2 == 0 && sum < 0x1_0000_0000
      invariant small ==> DeltaSoFar(cur, oldB, newB, i, sum)
    {
      if small { DeltaStep(cur, oldB, newB, i, sum); }
      sum := Add32(Add32(sum, 65535 - U16At(oldB, i)), U16At(newB, i));
      i := i + 2;
    }
    if small { DeltaEnds(cur, oldB, newB, sum); }
    sum := Fold(sum);
    r := 65535 - sum;
  }

  lemma DeltaEnds(cur: nat, oldB: seq<byte>, newB: seq<byte>, sum: nat)
    requires cur < 0x1_0000 && |oldB| == |newB| && |oldB| % 2 == 0 && DeltaSoFar(cur, oldB, newB, |oldB|, sum)
    ensures Complement(sum) == Delta(cur, oldB, newB)
  {
  }

  // Exactness of the incremental update. `rest` is the sum of every covered word except
  // the field itself, `rest2` the same sum after `oldB` became `newB`.

  ghost predicate Rewrites(rest: nat, rest2: nat, oldB: seq<byte>, newB: seq<byte>) {
    rest > 0 && rest2 > 0 && |oldB| == |newB| && |oldB| % 2 == 0 &&
    rest2 + WordSum(oldB) == rest + WordSum(newB)
  }

  lemma DeltaCongruent(cur: nat, oldB: seq<byte>, newB: seq<byte>)
    requires cur < 0x1_0000 && |oldB| == |newB| && |oldB| % 2 == 0
    ensures (Delta(cur, oldB, newB) + WordSum(newB)) % 65535 == (cur + WordSum(oldB)) % 65535
  {
    WordSumBound(oldB);
    var k := |oldB| / 2;
    var arg := 65535 - cur + (65535 * k - WordSum(oldB)) + WordSum(newB);
    var d := Delta(cur, oldB, newB);
    var j := FoldedQuotient(arg);
    assert d + WordSum(newB) == cur + WordSum(oldB) + (j - k) * 65535;
    ShiftMod(cur + WordSum(oldB), j - k);
  }

  lemma ShiftMod(x: int, j: int)
    ensures (x + j * 65535) % 65535 == x % 65535
  {
  }

  /** The updated segment verifies exactly when the original did: corruption is neither hidden nor invented. */
  lemma DeltaKeepsVerdict(cur: nat, rest: nat, rest2: nat, oldB: seq<byte>, newB: seq<byte>)
    requires cur < 0x1_0000 && Rewrites(rest, rest2, oldB, newB)
    ensures Verifies(rest2 + Delta(cur, oldB, newB)) <==> Verifies(rest + cur)
  {
    DeltaCongruent(cur, oldB, newB);
    var d := Delta(cur, oldB, newB);
    var s, s2 := rest + cur, rest2 + d;
    var j := (d + WordSum(newB)) / 65535 - (cur + WordSum(oldB)) / 65535;
    assert d + WordSum(newB) == cur + WordSum(oldB) + j * 65535;
    assert s2 == s + j * 65535;
    ShiftMod(s, j);
    FoldedCongruent(s, s2);
  }

  /** Starting from a full computation, the update is bit for bit a full recomputation. */
  lemma DeltaIsRecompute(cur: nat, rest: nat, rest2: nat, oldB: seq<byte>, newB: seq<byte>)
    requires cur == Complement(rest) && Rewrites(rest, rest2, oldB, newB)
    ensures Delta(cur, oldB, newB) == Complement(rest2)
  {
    WordSumBound(oldB);
    var k := |oldB| / 2;
    var arg := 65535 - cur + (65535 * k - WordSum(oldB)) + WordSum(newB);
    var j := FoldedQuotient(rest);
    assert arg == rest2 + (k - j) * 65535;
    ShiftMod(rest2, k - j);
    FoldedCongruent(arg, rest2);
  }

  /** A field holding the full computation makes the whole verify. */
  lemma ComplementVerifies(rest: nat)
    ensures Verifies(rest + Complement(rest))
  {
    var j := FoldedQuotient(rest);
    ShiftMod(65535, j);
    FoldedCongruent(65535, rest + Complement(rest));
  }

  // UDP is different: RFC 768 (and section 8.1 of RFC 8200) reserve a zero field for "no
  // checksum", and a sender that computes zero sends all ones in its place.

  /** What a UDP sender puts in the field over words adding up to `s`. */
  function UdpField(s: nat): (r: nat)
    ensures 0 < r < 0x1_0000
  {
    if Complement(s) == 0 then 65535 else Complement(s)
  }

  /** The old value was all ones throughout and the new words are all zero. */
  predicate AllOnesToZero(cur: nat, oldB: seq<byte>, newB: seq<byte>) {
    cur == 65535 && WordSum(oldB) == 65535 * (|oldB| / 2) && WordSum(newB) == 0
  }

  /** The update leaves a zero in the field. */
  predicate BecomesZero(cur: nat, oldB: seq<byte>, newB: seq<byte>) {
    (cur + WordSum(oldB)) % 65535 == WordSum(newB) % 65535 && !AllOnesToZero(cur, oldB, newB)
  }

  /** Exactly when, for every field and every pair of addresses; below all ones it is the congruence alone. */
  lemma DeltaZeroIff(cur: nat, oldB: seq<byte>, newB: seq<byte>)
    requires cur < 0x1_0000 && |oldB| == |newB| && |oldB| % 2 == 0
    ensures Delta(cur, oldB, newB) == 0 <==> BecomesZero(cur, oldB, newB)
    ensures cur < 65535 ==>
      (Delta(cur, oldB, newB) == 0 <==> (cur + WordSum(oldB)) % 65535 == WordSum(newB) % 65535)
  {
    WordSumBound(oldB);
    DeltaCongruent(cur, oldB, newB);
    var arg := 65535 - cur + (65535 * (|oldB| / 2) - WordSum(oldB)) + WordSum(newB);
    var d := Delta(cur, oldB, newB);
    assert arg == 0 <==> AllOnesToZero(cur, oldB, newB);
    assert d == 0 ==> Folded(arg) == 65535 && arg > 0;
    if BecomesZero(cur, oldB, newB) {
      var j := (d + WordSum(newB)) / 65535 - WordSum(newB) / 65535;
      assert d == j * 65535;
    }
  }

  /** From a UDP sender's field the update makes the UDP sender's field again, unless it makes zero. */
  lemma DeltaIsUdpFieldIff(cur: nat, rest: nat, rest2: nat, oldB: seq<byte>, newB: seq<byte>)
    requires cur == UdpField(rest) && Rewrites(rest, rest2, oldB, newB)
    ensures Delta(cur, oldB, newB) == UdpField(rest2) <==> !BecomesZero(cur, oldB, newB)
  {
    DeltaZeroIff(cur, oldB, newB);
    var d := Delta(cur, oldB, newB);
    DeltaKeepsVerdict(cur, rest, rest2, oldB, newB);
    UdpFieldVerifies(rest);
    if d != 0 { VerifyingFieldIs(rest2, d); }
  }

  /** When the covered words do not hold what was replaced, the update leads astray: afterwards the data
      verifies exactly if it is off by the difference the update makes. */
  lemma DeltaAstray(cur: nat, rest: nat, oldB: seq<byte>, newB: seq<byte>)
    requires cur < 0x1_0000 && rest > 0 && |oldB| == |newB| && |oldB| % 2 == 0
    ensures Verifies(rest + Delta(cur, oldB, newB)) <==> (rest + cur + WordSum(oldB)) % 65535 == WordSum(newB) % 65535
    ensures Verifies(rest + cur) <==> (rest + cur) % 65535 == 0
  {
    DeltaCongruent(cur, oldB, newB);
    var d := Delta(cur, oldB, newB);
    var j := (d + WordSum(newB)) / 65535 - (cur + WordSum(oldB)) / 65535;
    assert d + WordSum(newB) == cur + WordSum(oldB) + j * 65535;
    DifferenceMod(rest + d, rest + cur + WordSum(oldB), WordSum(newB), j);
    VerifiesMod(rest + d);
    VerifiesMod(rest + cur);
  }

  lemma DifferenceMod(s: int, a: int, n: int, j: int)
    requires s == a - n + j * 65535
    ensures s % 65535 == 0 <==> a % 65535 == n % 65535
  {
    var i := a / 65535 - n / 65535;
    assert s == a % 65535 - n % 65535 + (i + j) * 65535;
    ShiftMod(a % 65535 - n % 65535, i + j);
  }

  lemma VerifiesMod(s: nat)
    requires s > 0
    ensures Verifies(s) <==> s % 65535 == 0
  {
  }

  /** And a sender's field stays itself exactly if the difference is none. */
  lemma ComplementStaysIff(cur: nat, rest: nat, oldB: seq<byte>, newB: seq<byte>)
    requires cur == Complement(rest) && rest > 0 && |oldB| == |newB| && |oldB| % 2 == 0
    ensures Delta(cur, oldB, newB) == cur <==> WordSum(oldB) % 65535 == WordSum(newB) % 65535
  {
    FieldStaysIff(cur, oldB, newB);
    DeltaZeroIff(cur, oldB, newB);
  }

  lemma UdpFieldStaysIff(cur: nat, rest: nat, oldB: seq<byte>, newB: seq<byte>)
    requires cur == UdpField(rest) && |oldB| == |newB| && |oldB| % 2 == 0
    ensures Delta(cur, oldB, newB) == cur
      <==> WordSum(oldB) % 65535 == WordSum(newB) % 65535 && !BecomesZero(cur, oldB, newB)
  {
    FieldStaysIff(cur, oldB, newB);
    DeltaZeroIff(cur, oldB, newB);
  }

  lemma FieldStaysIff(cur: nat, oldB: seq<byte>, newB: seq<byte>)
    requires cur < 0x1_0000 && |oldB| == |newB| && |oldB| % 2 == 0
    ensures var d := Delta(cur, oldB, newB);
      WordSum(oldB) % 65535 == WordSum(newB) % 65535 <==>
        d == cur || (d == 0 && cur == 65535) || (d == 65535 && cur == 0)
  {
    DeltaCongruent(cur, oldB, newB);
    var d := Delta(cur, oldB, newB);
    FieldMoves(cur, d, WordSum(oldB), WordSum(newB));
  }

  lemma FieldMoves(cur: nat, d: nat, a: nat, b: nat)
    requires cur < 0x1_0000 && d < 0x1_0000 && (d + b) % 65535 == (cur + a) % 65535
    ensures a % 65535 == b % 65535 <==> d == cur || (d == 0 && cur == 65535) || (d == 65535 && cur == 0)
  {
    var j := (d + b) / 65535 - (cur + a) / 65535;
    assert d + b == cur + a + j * 65535;
    if a % 65535 == b % 65535 {
      var i := a / 65535 - b / 65535;
      assert d == cur + (i + j) * 65535;
    } else if d == cur {
      ShiftMod(a, j);
    } else if d == 0 && cur == 65535 {
      ShiftMod(a, j + 1);
    } else if d == 65535 && cur == 0 {
      ShiftMod(a, j - 1);
    }
  }

  lemma UdpFieldVerifies(rest: nat)
    ensures Verifies(rest + UdpField(rest))
  {
    ComplementVerifies(rest);
    if Complement(rest) == 0 {
      ShiftMod(rest, 1);
      FoldedCongruent(rest, rest + 65535);
    }
  }

  /** A nonzero field that makes the whole verify is the one a UDP sender computes. */
  lemma VerifyingFieldIs(rest: nat, d: nat)
    requires 0 < d < 0x1_0000 && Verifies(rest + d)
    ensures d == UdpField(rest)
  {
    var j := FoldedQuotient(rest);
    var i := FoldedQuotient(rest + d);
    assert Folded(rest) + d == 65535 + (i - j) * 65535;
  }

  /** RFC 768 reserves zero for "no checksum": such a field stays absent exactly when the replaced
      words and the new ones agree modulo 65535. */
  lemma AbsentStaysAbsentIff(oldB: seq<byte>, newB: seq<byte>)
    requires |oldB| == |newB| && |oldB| % 2 == 0
    ensures Delta(0, oldB, newB) == 0 <==> WordSum(oldB) % 65535 == WordSum(newB) % 65535
  {
    DeltaZeroIff(0, oldB, newB);
  }

  lemma ExampleSums()
    ensures WordSum([10, 201, 0, 5]) == 2766 && WordSum([192, 168, 1, 5]) == 49581
  {
    assert [10, 201, 0, 5][2..] == [0, 5] && [0, 5][2..] == [];
    assert [192, 168, 1, 5][2..] == [1, 5] && [1, 5][2..] == [];
  }

  lemma AbsentBecomesPresent()
    ensures Delta(0, [10, 201, 0, 5], [192, 168, 1, 5]) != 0
  {
    ExampleSums();
    AbsentStaysAbsentIff([10, 201, 0, 5], [192, 168, 1, 5]);
  }

  /** A checksummed UDP field that the update turns into "no checksum". */
  lemma PresentBecomesAbsent()
    ensures Delta(46815, [10, 201, 0, 5], [192, 168, 1, 5]) == 0
  {
    ExampleSums();
    DeltaZeroIff(46815, [10, 201, 0, 5], [192, 168, 1, 5]);
  }
}
