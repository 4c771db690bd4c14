/** The ping example: the Internet checksum (section 1 of RFC 1071) and the round-trip statistics. */
module Ping {

  type Octet = b: int | 0 <= b < 256

  /** Two octets as a uint16_t of a little- or big-endian host. */
  function Word(little: bool, a: Octet, b: Octet): (w: nat)
    ensures w < 0x1_0000
  {
    if little then a + 256 * b else 256 * a + b
  }

  /** The sum of the words from octet i on; an odd last octet counts by itself. */
  function WordSum(little: bool, b: seq<Octet>, i: nat): nat
    requires i <= |b|
    decreases |b| - i
  {
    if i + 1 < |b| then Word(little, b[i], b[i + 1]) + WordSum(little, b, i + 2)
    else if i < |b| then b[i]
    else 0
  }

  /** The two folds and the complement. */
  function Fold(sum: nat): (c: nat)
    ensures c < 0x1_0000
  {
    var once := sum / 0x1_0000 + sum % 0x1_0000;
    var twice := once + once / 0x1_0000;
    (0xFFFF_FFFF - twice % 0x1_0000_0000) % 0x1_0000
  }

  function Checksum(little: bool, b: seq<Octet>): (c: nat)
    ensures c < 0x1_0000
  {
    Fold(WordSum(little, b, 0))
  }

  /** For a 32-bit sum two folds leave a 16-bit number, congruent to the sum modulo 65535 and zero only for zero. */
  lemma TwoFoldsSuffice(sum: nat)
    requires sum < 0x1_0000_0000
    ensures var once := sum / 0x1_0000 + sum % 0x1_0000; var twice := once + once / 0x1_0000;
      && twice < 0x1_0000_0000
      && twice % 0x1_0000 == 0xFFFF - Fold(sum)
      && (twice % 0x1_0000 == 0 <==> sum == 0)
      && (sum - twice % 0x1_0000) % 0xFFFF == 0
  {
    var hi, lo := sum / 0x1_0000, sum % 0x1_0000;
    var once := hi + lo;
    var twice := once + once / 0x1_0000;
    assert once / 0x1_0000 <= 1;
    assert twice % 0x1_0000 == if once < 0x1_0000 then once else once - 0x1_0000 + 1;
    assert sum - once == hi * 0xFFFF;
    assert (sum - twice % 0x1_0000) == (if once < 0x1_0000 then hi else hi + 1) * 0xFFFF;
  }

  /** A sum and its checksum make a positive multiple of 65535. */
  lemma FoldCompletes(sum: nat)
    requires sum < 0x1_0000_0000
    ensures sum + Fold(sum) > 0 && (sum + Fold(sum)) % 0xFFFF == 0
  {
    TwoFoldsSuffice(sum);
  }

  /** The checksum is zero exactly for the positive multiples of 65535. */
  lemma FoldZero(sum: nat)
    requires sum < 0x1_0000_0000
    ensures Fold(sum) == 0 <==> sum > 0 && sum % 0xFFFF == 0
  {
    FoldCompletes(sum);
    TwoFoldsSuffice(sum);
    Congruent(sum, Fold(sum));
  }

  lemma Congruent(sum: nat, c: nat)
    requires c <= 0xFFFF && (sum + c) % 0xFFFF == 0
    ensures sum % 0xFFFF == 0 <==> c == 0 || c == 0xFFFF
  {}

  lemma {:induction false} SumBounded(little: bool, b: seq<Octet>, i: nat)
    requires i <= |b|
    ensures WordSum(little, b, i) <= (|b| - i) / 2 * 0xFFFF + (|b| - i) % 2 * 255
    decreases |b| - i
  {
    if i + 1 < |b| { SumBounded(little, b, i + 2); }
  }

  /** The longest packet whose sum always fits 32 bits. */
  const LONGEST: nat := 131074

  lemma NoOverflow(little: bool, b: seq<Octet>)
    requires |b| <= LONGEST
    ensures WordSum(little, b, 0) < 0x1_0000_0000
  {
    SumBounded(little, b, 0);
  }

  lemma {:induction false} SumOfOnes(little: bool, b: seq<Octet>, i: nat)
    requires i <= |b| && forall j :: 0 <= j < |b| ==> b[j] == 255
    ensures WordSum(little, b, i) == (|b| - i) / 2 * 0xFFFF + (|b| - i) % 2 * 255
    decreases |b| - i
  {
    if i + 1 < |b| { SumOfOnes(little, b, i + 2); }
  }

  /** The sum of every packet of n octets fits 32 bits if and only if n is at most 131074. */
  lemma OverflowExactly(little: bool, n: nat)
    ensures (forall b: seq<Octet> :: |b| == n ==> WordSum(little, b, 0) < 0x1_0000_0000) <==> n <= LONGEST
  {
    if n <= LONGEST {
      forall b: seq<Octet> | |b| == n
        ensures WordSum(little, b, 0) < 0x1_0000_0000
      {
        NoOverflow(little, b);
      }
    } else {
      var ones: seq<Octet> := seq(n, _ => 255);
      SumOfOnes(little, ones, 0);
      assert |ones| == n && WordSum(little, ones, 0) >= 0x1_0000_0000;
    }
  }

  /** The loop of checksum: the sum is kept in 32 bits, which loses nothing here. */
  method SumWords(little: bool, b: array<Octet>, size: nat) returns (sum: nat)
    requires size <= b.Length && size <= LONGEST
    ensures sum == WordSum(little, b[..size], 0) < 0x1_0000_0000
  {
    var packet := b[..size];
    NoOverflow(little, packet);
    var i, len := 0, size;
    sum := 0;
    while len > 1
      invariant 0 <= len <= size && i == size - len
      invariant sum + WordSum(little, packet, i) == WordSum(little, packet, 0)
    {
      assert b[i] == packet[i] && b[i + 1] == packet[i + 1];
      sum := (sum + Word(little, b[i], b[i + 1])) % 0x1_0000_0000;
      i, len := i + 2, len - 2;
    }
    if len == 1 {
      assert b[i] == packet[i];
      sum := (sum + b[i]) % 0x1_0000_0000;
    }
  }

  /** The two folds of checksum. */
  method FoldSum(total: nat) returns (result: nat)
    requires total < 0x1_0000_0000
    ensures result == Fold(total)
  {
    var sum := total;
    sum := sum / 0x1_0000 + sum % 0x1_0000;
    sum := (sum + sum / 0x1_0000) % 0x1_0000_0000;
    result := (0xFFFF_FFFF - sum) % 0x1_0000;
  }

  /** checksum, of a packet of at most 131074 octets. */
  method ComputeChecksum(little: bool, b: array<Octet>, size: nat) returns (result: nat)
    requires size <= b.Length && size <= LONGEST
    ensures result == Checksum(little, b[..size])
  {
    var sum := SumWords(little, b, size);
    result := FoldSum(sum);
  }

  /** A word stored into a zeroed field at an even offset adds itself to the sum. */
  lemma {:induction false} SumWithField(little: bool, zeroed: seq<Octet>, stored: seq<Octet>, i: nat, f: nat)
    requires |zeroed| == |stored| && i <= f && f + 1 < |zeroed| && (f - i) % 2 == 0
    requires zeroed[f] == 0 && zeroed[f + 1] == 0
    requires forall j :: 0 <= j < |zeroed| && j != f && j != f + 1 ==> zeroed[j] == stored[j]
    ensures WordSum(little, stored, i) == WordSum(little, zeroed, i) + Word(little, stored[f], stored[f + 1])
    decreases f - i
  {
    if i == f {
      SumSame(little, zeroed, stored, f + 2);
    } else {
      SumWithField(little, zeroed, stored, i + 2, f);
    }
  }

  lemma {:induction false} SumSame(little: bool, b: seq<Octet>, c: seq<Octet>, i: nat)
    requires |b| == |c| && i <= |b| && forall j :: i <= j < |b| ==> b[j] == c[j]
    ensures WordSum(little, b, i) == WordSum(little, c, i)
    decreases |b| - i
  {
    if i + 1 < |b| { SumSame(little, b, c, i + 2); }
  }

  /** A packet with its checksum stored in the zeroed field has checksum zero. */
  lemma ChecksumVerifies(little: bool, zeroed: seq<Octet>, stored: seq<Octet>, f: nat)
    requires |zeroed| == |stored| <= LONGEST && f + 1 < |zeroed| && f % 2 == 0
    requires zeroed[f] == 0 && zeroed[f + 1] == 0
    requires forall j :: 0 <= j < |zeroed| && j != f && j != f + 1 ==> zeroed[j] == stored[j]
    requires Word(little, stored[f], stored[f + 1]) == Checksum(little, zeroed)
    ensures Checksum(little, stored) == 0
  {
    var sum := WordSum(little, zeroed, 0);
    NoOverflow(little, zeroed);
    NoOverflow(little, stored);
    SumWithField(little, zeroed, stored, 0, f);
    FoldCompletes(sum);
    FoldZero(sum + Fold(sum));
  }

  // --- Hosts of either byte order

  /** The first octet is the high one in network order and the low one on a little-endian host. */
  lemma WordOrder(a: Octet, b: Octet)
    ensures Word(false, a, b) == 256 * a + b && Word(true, a, b) == Word(false, b, a)
  {
  }

  /** The sum of every second octet, from octet i + 1 on. */
  function Seconds(b: seq<Octet>, i: nat): nat
    requires i <= |b|
    decreases |b| - i
  {
    if i + 1 < |b| then b[i + 1] + Seconds(b, i + 2) else 0
  }

  /** Swapping the octets of all words multiplies their sum by 256, up to a multiple of 65535. */
  lemma {:induction false} SumSwaps(b: seq<Octet>, i: nat)
    requires i <= |b| && (|b| - i) % 2 == 0
    ensures 256 * WordSum(true, b, i) == WordSum(false, b, i) + 0xFFFF * Seconds(b, i)
    decreases |b| - i
  {
    if i + 1 < |b| {
      WordOrder(b[i], b[i + 1]);
      SumSwaps(b, i + 2);
    }
  }

  lemma {:induction false} SumVanishes(b: seq<Octet>, i: nat)
    requires i <= |b|
    ensures WordSum(true, b, i) == 0 <==> WordSum(false, b, i) == 0
    decreases |b| - i
  {
    if i + 1 < |b| { SumVanishes(b, i + 2); }
  }

  lemma IsMultiple(x: int, k: int)
    requires x == 0xFFFF * k
    ensures x % 0xFFFF == 0
  {
  }

  lemma SwapKeepsMultiples(x: nat, y: nat, k: nat)
    requires 256 * x == y + 0xFFFF * k
    ensures x % 0xFFFF == 0 <==> y % 0xFFFF == 0
  {
    if x % 0xFFFF == 0 { IsMultiple(y, 256 * (x / 0xFFFF) - k); }
    if y % 0xFFFF == 0 { IsMultiple(x, 256 * (y / 0xFFFF + k) - x); }
  }

  /** A packet of even size verifies on a little-endian host if and only if it verifies on a big-endian one. */
  lemma EitherOrder(b: seq<Octet>)
    requires |b| % 2 == 0 && |b| <= LONGEST
    ensures Checksum(true, b) == 0 <==> Checksum(false, b) == 0
  {
    NoOverflow(true, b);
    NoOverflow(false, b);
    FoldZero(WordSum(true, b, 0));
    FoldZero(WordSum(false, b, 0));
    SumSwaps(b, 0);
    SumVanishes(b, 0);
    SwapKeepsMultiples(WordSum(true, b, 0), WordSum(false, b, 0), Seconds(b, 0));
  }

  /** Of odd size it need not: the last octet is taken for the low one on both. */
  lemma OddOrderMatters()
    ensures Checksum(true, [0xFF, 0xFE, 1]) != 0 && Checksum(false, [0xFF, 0xFE, 1]) == 0
  {
    var b: seq<Octet> := [0xFF, 0xFE, 1];
    assert WordSum(true, b, 2) == 1 && WordSum(false, b, 2) == 1;
    assert WordSum(false, b, 0) == 0xFFFF;
    assert WordSum(true, b, 0) == 0xFF00;
  }

  /** nextPacket: octets 2 and 3 are the checksum, 6 and 7 the sequence number in network order. */
  method NextPacket(little: bool, pkt: array<Octet>, size: nat, sq: nat)
    requires 8 <= size <= pkt.Length && size <= LONGEST && sq < 0x1_0000
    modifies pkt
    ensures Checksum(little, pkt[..size]) == 0
    ensures Word(false, pkt[6], pkt[7]) == sq
    ensures forall j :: 0 <= j < pkt.Length && j !in {2, 3, 6, 7} ==> pkt[j] == old(pkt[j])
  {
    pkt[6], pkt[7] := sq / 256, sq % 256;
    pkt[2], pkt[3] := 0, 0;
    ghost var zeroed := pkt[..size];
    var c := ComputeChecksum(little, pkt, size);
    if little {
      pkt[2], pkt[3] := c % 256, c / 256;
    } else {
      pkt[2], pkt[3] := c / 256, c % 256;
    }
    ChecksumVerifies(little, zeroed, pkt[..size], 2);
  }

  // --- Statistics

  function Sum(samples: seq<real>): real {
    if samples == [] then 0.0 else Sum(samples[..|samples| - 1]) + samples[|samples| - 1]
  }

  /** The sum of f over the samples. */
  function Total(samples: seq<real>, f: real -> real): real {
    if samples == [] then 0.0 else Total(samples[..|samples| - 1], f) + f(samples[|samples| - 1])
  }

  function Square(): real -> real { x => x * x }

  function Scale(c: real): real -> real { x => c * x }

  function SquareFrom(m: real): real -> real { x => (x - m) * (x - m) }

  /** The sum of the squared deviations from m. */
  function Deviation(samples: seq<real>, m: real): real { Total(samples, SquareFrom(m)) }

  /** k added n times, which is n * k. */
  function Copies(n: nat, k: real): real {
    if n == 0 then 0.0 else Copies(n - 1, k) + k
  }

  /** As many copies of m as there are samples add up to their sum; without samples, m is zero. */
  predicate IsMean(m: real, samples: seq<real>) {
    Copies(|samples|, m) == Sum(samples) && (samples == [] ==> m == 0.0)
  }

  // Sums of any functions

  lemma {:induction false} TotalOfSum(samples: seq<real>, f: real -> real, g: real -> real, h: real -> real, k: real)
    requires forall x :: f(x) == g(x) + h(x) + k
    ensures Total(samples, f) == Total(samples, g) + Total(samples, h) + Copies(|samples|, k)
  {
    if samples != [] { TotalOfSum(samples[..|samples| - 1], f, g, h, k); }
  }

  lemma {:induction false} TotalOfAdditive(samples: seq<real>, f: real -> real)
    requires f(0.0) == 0.0 && forall x, y :: f(x + y) == f(x) + f(y)
    ensures Total(samples, f) == f(Sum(samples))
  {
    if samples != [] { TotalOfAdditive(samples[..|samples| - 1], f); }
  }

  lemma Appended(samples: seq<real>, v: real, f: real -> real)
    ensures Sum(samples + [v]) == Sum(samples) + v && Total(samples + [v], f) == Total(samples, f) + f(v)
  {
    assert (samples + [v])[..|samples|] == samples;
  }

  // The algebra, over single numbers

  lemma SquareOfDifference(x: real, m: real)
    ensures (x - m) * (x - m) == x * x + (-2.0 * m) * x + m * m
  {}

  lemma Spread(a: real, b: real, c: real)
    ensures a * (b + c) == a * b + a * c
  {}

  lemma Regroup(a: real, b: real, c: real)
    ensures a * (b * c) == b * (a * c)
  {}

  lemma {:induction false} CopiesIs(n: nat, k: real)
    ensures Copies(n, k) == n as real * k
  {
    if n > 0 {
      CopiesIs(n - 1, k);
      Spread(k, (n - 1) as real, 1.0);
    }
  }

  /** The recurrence of ping_stats::success, for n samples with mean mu before the sample v. */
  lemma MeanStep(n: real, mu: real, v: real, next: real)
    requires n >= 0.0 && next == mu + (v - mu) / (n + 1.0)
    ensures (n + 1.0) * next == n * mu + v
  {
    var step := (v - mu) / (n + 1.0);
    assert (n + 1.0) * step == v - mu;
    Spread(n + 1.0, mu, step);
    Spread(mu, n, 1.0);
  }

  /** With a = n * mu and b = (n + 1) * next. */
  lemma CrossTerms(n: real, mu: real, next: real, a: real, b: real)
    requires a == n * mu && b == (n + 1.0) * next
    ensures mu * next + next * a == mu * b
    ensures (n + 1.0) * (next * next) == next * b && n * (mu * mu) == mu * a
  {
    assert next * a == mu * (n * next) by {
      Regroup(next, n, mu);
      Regroup(n, next, mu);
      Regroup(mu, n, next);
    }
    Spread(next, n, 1.0);
    Spread(mu, n * next, next);
    Regroup(n + 1.0, next, next);
    Regroup(n, mu, mu);
  }

  lemma ProductOfDifferences(v: real, mu: real, next: real)
    ensures (v - mu) * (v - next) == v * v - next * v - mu * v + mu * next
  {}

  lemma SquareStep(n: real, mu: real, next: real, v: real)
    requires (n + 1.0) * next == n * mu + v
    ensures (v - mu) * (v - next) == v * v + n * (mu * mu) - (n + 1.0) * (next * next)
  {
    var a := n * mu;
    CrossTerms(n, mu, next, a, a + v);
    Spread(mu, a, v);
    Spread(next, a, v);
    ProductOfDifferences(v, mu, next);
  }

  lemma AtMean(n: nat, mu: real)
    ensures Scale(-2.0 * mu)(Copies(n, mu)) == -2.0 * Copies(n, mu * mu)
  {
    CopiesIs(n, mu);
    CopiesIs(n, mu * mu);
    Regroup(n as real, mu, mu);
    assert (-2.0 * mu) * (n as real * mu) == -2.0 * (mu * (n as real * mu));
  }

  /** What success adds is what the sum of squares gains less what the mean takes away. */
  lemma Recurrence(n: nat, mu: real, next: real, v: real)
    requires Copies(n + 1, next) == Copies(n, mu) + v
    ensures (v - mu) * (v - next) == Copies(n, mu * mu) + v * v - Copies(n + 1, next * next)
  {
    CopiesIs(n, mu);
    CopiesIs(n + 1, next);
    CopiesIs(n, mu * mu);
    CopiesIs(n + 1, next * next);
    SquareStep(n as real, mu, next, v);
  }

  lemma NextMean(n: nat, mu: real, v: real, next: real)
    requires next == mu + (v - mu) / (n + 1) as real
    ensures Copies(n + 1, next) == Copies(n, mu) + v
  {
    CopiesIs(n, mu);
    CopiesIs(n + 1, next);
    MeanStep(n as real, mu, v, next);
  }

  // The recurrence on samples

  lemma SquareFromIs(m: real)
    ensures forall x :: SquareFrom(m)(x) == Square()(x) + Scale(-2.0 * m)(x) + m * m
  {
    forall x: real
      ensures SquareFrom(m)(x) == Square()(x) + Scale(-2.0 * m)(x) + m * m
    {
      SquareOfDifference(x, m);
    }
  }

  lemma ScaleIsAdditive(c: real)
    ensures Scale(c)(0.0) == 0.0 && forall x, y :: Scale(c)(x + y) == Scale(c)(x) + Scale(c)(y)
  {
    forall x: real, y: real
      ensures Scale(c)(x + y) == Scale(c)(x) + Scale(c)(y)
    {
      Spread(c, x, y);
    }
  }

  lemma DeviationExpands(samples: seq<real>, m: real)
    ensures Deviation(samples, m) ==
            Total(samples, Square()) + Scale(-2.0 * m)(Sum(samples)) + Copies(|samples|, m * m)
  {
    SquareFromIs(m);
    TotalOfSum(samples, SquareFrom(m), Square(), Scale(-2.0 * m), m * m);
    ScaleIsAdditive(-2.0 * m);
    TotalOfAdditive(samples, Scale(-2.0 * m));
  }

  /** The sum of squared deviations from the mean is the sum of squares less n times the square of the mean. */
  lemma DeviationAt(samples: seq<real>, mu: real)
    requires Copies(|samples|, mu) == Sum(samples)
    ensures Deviation(samples, mu) == Total(samples, Square()) - Copies(|samples|, mu * mu)
  {
    DeviationExpands(samples, mu);
    AtMean(|samples|, mu);
  }

  /** mu and sq as they should be for the samples. */
  predicate Accurate(mu: real, sq: real, samples: seq<real>) {
    IsMean(mu, samples) && sq == Deviation(samples, mu)
  }

  /** The mean is the sum divided by the number of samples. */
  lemma MeanIsQuotient(m: real, samples: seq<real>)
    requires samples != []
    ensures IsMean(m, samples) <==> m == Sum(samples) / |samples| as real
  {
    CopiesIs(|samples|, m);
  }

  /** One more sample v, by which the sum of squared deviations grows by gain. */
  lemma OneMore(mu: real, sq: real, samples: seq<real>, v: real, next: real, gain: real)
    requires Accurate(mu, sq, samples) && Copies(|samples| + 1, next) == Copies(|samples|, mu) + v
    requires gain == Copies(|samples|, mu * mu) + Square()(v) - Copies(|samples| + 1, next * next)
    ensures Accurate(next, sq + gain, samples + [v])
  {
    Appended(samples, v, Square());
    DeviationAt(samples, mu);
    DeviationAt(samples + [v], next);
  }

  /** One round of success, with next the new mean and more the new sum of squared deviations. */
  lemma SuccessAccurate(mu: real, sq: real, samples: seq<real>, v: real, next: real, more: real)
    requires Accurate(mu, sq, samples) && next == mu + (v - mu) / (|samples| + 1) as real
    requires more == sq + (v - mu) * (v - next)
    ensures Accurate(next, more, samples + [v])
  {
    NextMean(|samples|, mu, v, next);
    Recurrence(|samples|, mu, next, v);
    OneMore(mu, sq, samples, v, next, (v - mu) * (v - next));
  }

  // --- Least and greatest sample

  function Least(samples: seq<real>): (m: real)
    requires samples != []
    ensures m in samples && forall x :: x in samples ==> m <= x
  {
    var last := samples[|samples| - 1];
    if |samples| == 1 then last
    else
      var rest := samples[..|samples| - 1];
      assert samples == rest + [last];
      if Least(rest) < last then Least(rest) else last
  }

  function Greatest(samples: seq<real>): (m: real)
    requires samples != []
    ensures m in samples && forall x :: x in samples ==> x <= m
  {
    var last := samples[|samples| - 1];
    if |samples| == 1 then last
    else
      var rest := samples[..|samples| - 1];
      assert samples == rest + [last];
      if Greatest(rest) > last then Greatest(rest) else last
  }

  /** min_ and max_ for the samples. After a request that failed before any reply, the zeros they start with count as
      if they were samples. */
  predicate Extremes(min: real, max: real, samples: seq<real>, late: bool) {
    if samples == [] then min == 0.0 && max == 0.0
    else
      && min == (if late && 0.0 < Least(samples) then 0.0 else Least(samples))
      && max == (if late && 0.0 > Greatest(samples) then 0.0 else Greatest(samples))
  }

  lemma ExtremesGrow(min: real, max: real, samples: seq<real>, late: bool, v: real, first: bool)
    requires Extremes(min, max, samples, late) && (first ==> samples == [] && !late)
    requires (samples == [] ==> first || late)
    ensures Extremes(if v < min || first then v else min, if v > max || first then v else max, samples + [v], late)
  {
    assert (samples + [v])[..|samples|] == samples;
  }

  /** min_ is the least sample, and max_ the greatest, exactly when no failure came before the first reply or zero is
      not below, or above, all samples. */
  lemma ExtremesExactly(min: real, max: real, samples: seq<real>, late: bool)
    requires samples != [] && Extremes(min, max, samples, late)
    ensures min == Least(samples) <==> !late || exists x :: x in samples && x <= 0.0
    ensures max == Greatest(samples) <==> !late || exists x :: x in samples && x >= 0.0
  {
    assert Least(samples) in samples && Greatest(samples) in samples;
  }

  class PingStats {
    ghost var samples: seq<real>
    ghost var late: bool          // a request failed before the first reply
    var requests: nat
    var replies: nat
    var min: real
    var max: real
    var mu: real
    var sq: real

    /** After any interleaving of replies and failures. */
    ghost predicate Valid()
      reads this
    {
      && replies == |samples| <= requests && Accurate(mu, sq, samples) && Extremes(min, max, samples, late)
      && (requests == 0 ==> !late) && (requests > 0 && samples == [] ==> late)
    }

    constructor ()
      ensures Valid() && samples == [] && requests == 0 && !late
    {
      samples, late := [], false;
      requests, replies, min, max, mu, sq := 0, 0, 0.0, 0.0, 0.0, 0.0;
    }

    method Success(v: real)
      requires Valid()
      modifies this
      ensures Valid() && samples == old(samples) + [v] && requests == old(requests) + 1 && late == old(late)
    {
      Compare(v);
      requests, replies := requests + 1, replies + 1;
      Advance(v);
      samples := samples + [v];
    }

    method Compare(v: real)
      requires Valid()
      modifies `min, `max
      ensures Extremes(min, max, samples + [v], late)
    {
      ExtremesGrow(min, max, samples, late, v, requests == 0);
      if v < min || requests == 0 {
        min := v;
      }
      if v > max || requests == 0 {
        max := v;
      }
    }

    /** The recurrence, for the reply just counted. */
    method Advance(v: real)
      requires replies == |samples| + 1 && Accurate(mu, sq, samples)
      modifies `mu, `sq
      ensures Accurate(mu, sq, samples + [v])
    {
      var next := mu + (v - mu) / replies as real;
      var more := sq + (v - mu) * (v - next);
      SuccessAccurate(mu, sq, samples, v, next, more);
      sq := more;
      mu := next;
    }

    method Fail()
      requires Valid()
      modifies this
      ensures Valid() && samples == old(samples) && requests == old(requests) + 1
      ensures late == (old(late) || old(requests) == 0)
    {
      late := late || requests == 0;
      requests := requests + 1;
    }
  }
}
