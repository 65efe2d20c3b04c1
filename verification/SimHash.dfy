/** Integers as two's-complement bit strings of unbounded length, as Python and Postgres see them. */
module Bits {
  function Bit(value: int, i: nat): bool
    decreases i
  {
    if i == 0 then value % 2 == 1 else Bit(value / 2, i - 1)
  }

  /** `value >> k`, rounding towards minus infinity. */
  function ShiftRight(value: int, k: nat): int
    decreases k
  {
    if k == 0 then value else ShiftRight(value / 2, k - 1)
  }

  /** `value & (2**k - 1)`. */
  function LowBits(value: int, k: nat): nat
    decreases k
  {
    if k == 0 then 0 else value % 2 + 2 * LowBits(value / 2, k - 1)
  }

  function Pow2(k: nat): (p: nat)
    ensures p > 0
  {
    if k == 0 then 1 else 2 * Pow2(k - 1)
  }

  lemma {:induction false} LowBitsIsModulo(value: int, k: nat)
    ensures 0 < Pow2(k) && LowBits(value, k) == value % Pow2(k)
    decreases k
  {
    if k > 0 {
      LowBitsIsModulo(value / 2, k - 1);
      ModuloTwice(value, Pow2(k - 1));
    }
  }

  /** Shifting right is division by a power of two, rounding down. */
  lemma {:induction false} ShiftIsDivision(value: int, k: nat)
    ensures Pow2(k) > 0 && ShiftRight(value, k) == value / Pow2(k)
    decreases k
  {
    if k > 0 {
      ShiftIsDivision(value / 2, k - 1);
      DivideTwice(value, Pow2(k - 1));
    }
  }

  lemma DivideTwice(value: int, m: nat)
    requires m > 0
    ensures value / (2 * m) == value / 2 / m
  {
    var q, r := value / 2 / m, value / 2 % m;
    assert value == (2 * m) * q + (value % 2 + 2 * r) by {
      assert value / 2 == m * q + r;
      assert 2 * (m * q) == (2 * m) * q;
    }
    DivisionIsUnique(value, 2 * m, q, value % 2 + 2 * r);
    QuotientIsUnique(value, 2 * m, q, value % 2 + 2 * r);
  }

  lemma QuotientIsUnique(value: int, m: nat, q: int, r: int)
    requires m > 0 && value == m * q + r && value % m == r
    ensures value / m == q
  {
    assert m * (value / m - q) == 0;
  }

  /** Bit `i` is the `i`-th binary digit. */
  lemma {:induction false} BitIsDigit(value: int, i: nat)
    ensures Pow2(i) > 0 && (Bit(value, i) <==> value / Pow2(i) % 2 == 1)
    decreases i
  {
    if i > 0 {
      BitIsDigit(value / 2, i - 1);
      DivideTwice(value, Pow2(i - 1));
    }
  }

  lemma ModuloTwice(value: int, m: nat)
    requires m > 0
    ensures value % (2 * m) == value % 2 + 2 * ((value / 2) % m)
  {
    var q, r := (value / 2) / m, (value / 2) % m;
    assert value == (2 * m) * q + (value % 2 + 2 * r) by {
      assert value / 2 == m * q + r;
      assert 2 * (m * q) == (2 * m) * q;
    }
    DivisionIsUnique(value, 2 * m, q, value % 2 + 2 * r);
  }

  lemma DivisionIsUnique(value: int, m: nat, q: int, r: int)
    requires m > 0 && value == m * q + r && 0 <= r < m
    ensures value % m == r
  {
    var d := value / m - q;
    assert m * d == m * (value / m) - m * q == r - value % m;
    SmallMultiple(m, d);
  }

  lemma SmallMultiple(m: nat, d: int)
    requires -(m as int) < m * d < m
    ensures d == 0
  {
  }

  /** Setting bit `n` of a number below `2**n`. */
  lemma {:induction false} SetNextBit(value: nat, n: nat, i: nat)
    requires value < Pow2(n)
    ensures Bit(value + Pow2(n), i) == (i == n || Bit(value, i))
    ensures i >= n ==> !Bit(value, i)
  {
    if n == 0 {
      BitOfSmall(i);
    } else if i > 0 {
      SetNextBit(value / 2, n - 1, i - 1);
      assert (value + Pow2(n)) / 2 == value / 2 + Pow2(n - 1);
    }
  }

  lemma {:induction false} BitOfSmall(i: nat)
    ensures !Bit(0, i) && Bit(1, i) == (i == 0)
  {
    if i > 0 {
      BitOfSmall(i - 1);
      assert 1 / 2 == 0;
    }
  }

  /** How many bits of `a ^ b` are set among bits `lo` up to `hi`. */
  function Differing(a: int, b: int, lo: nat, hi: nat): nat
    requires lo <= hi
    decreases hi
  {
    if lo == hi then 0 else Differing(a, b, lo, hi - 1) + (if Bit(a, hi - 1) != Bit(b, hi - 1) then 1 else 0)
  }

  /** The positions at which the binary digits differ. */
  ghost function DifferingDigits(a: int, b: int, lo: nat, hi: nat): set<int> {
    set i | lo <= i < hi && a / Pow2(i) % 2 != b / Pow2(i) % 2
  }

  lemma {:induction false} DifferingCounts(a: int, b: int, lo: nat, hi: nat)
    requires lo <= hi
    ensures Differing(a, b, lo, hi) == |DifferingDigits(a, b, lo, hi)|
    decreases hi
  {
    hide Bit, Pow2;
    if lo < hi {
      DifferingCounts(a, b, lo, hi - 1);
      var fewer, more := DifferingDigits(a, b, lo, hi - 1), DifferingDigits(a, b, lo, hi);
      NextDigit(a, b, hi - 1);
      assert more == if Bit(a, hi - 1) != Bit(b, hi - 1) then fewer + {hi - 1} else fewer;
    } else {
      assert DifferingDigits(a, b, lo, hi) == {};
    }
  }

  lemma NextDigit(a: int, b: int, i: nat)
    ensures Bit(a, i) != Bit(b, i) <==> a / Pow2(i) % 2 != b / Pow2(i) % 2
  {
    hide Bit, Pow2;
    BitIsDigit(a, i);
    BitIsDigit(b, i);
  }

  lemma {:induction false} DifferingSplits(a: int, b: int, lo: nat, mid: nat, hi: nat)
    requires lo <= mid <= hi
    ensures Differing(a, b, lo, hi) == Differing(a, b, lo, mid) + Differing(a, b, mid, hi)
  {
    if mid < hi {
      DifferingSplits(a, b, lo, mid, hi - 1);
    }
  }

  lemma {:induction false} DifferingHalves(a: int, b: int, lo: nat, hi: nat)
    requires lo <= hi
    ensures Differing(a / 2, b / 2, lo, hi) == Differing(a, b, lo + 1, hi + 1)
    decreases hi
  {
    if lo < hi {
      DifferingHalves(a, b, lo, hi - 1);
    }
  }

  lemma {:induction false} DifferingShifted(a: int, b: int, k: nat, lo: nat, hi: nat)
    requires lo <= hi
    ensures Differing(ShiftRight(a, k), ShiftRight(b, k), lo, hi) == Differing(a, b, lo + k, hi + k)
    decreases k
  {
    if k > 0 {
      DifferingShifted(a / 2, b / 2, k - 1, lo, hi);
      DifferingHalves(a, b, lo + k - 1, hi + k - 1);
    }
  }

  /** Two numbers agree modulo `2**k` exactly when none of their low `k` bits differ. */
  lemma {:induction false} LowBitsAgree(a: int, b: int, k: nat)
    ensures LowBits(a, k) == LowBits(b, k) <==> Differing(a, b, 0, k) == 0
    decreases k
  {
    if k > 0 {
      LowBitsAgree(a / 2, b / 2, k - 1);
      DifferingHalves(a, b, 0, k - 1);
      DifferingSplits(a, b, 0, 1, k);
      assert Differing(a, b, 0, 1) == (if a % 2 != b % 2 then 1 else 0) by {
        assert Differing(a, b, 0, 0) == 0;
      }
    }
  }

  lemma {:induction false} SameBitsSameDistance(other: int, a: int, b: int, n: nat)
    requires Differing(a, b, 0, n) == 0
    ensures Differing(other, a, 0, n) == Differing(other, b, 0, n)
    decreases n
  {
    if n > 0 {
      SameBitsSameDistance(other, a, b, n - 1);
    }
  }
}

/** 64-bit SimHash over word shingles, its four bands and its signed storage form. */
module SimHash {
  import opened Bits
  import Text

  const BITS: nat := 64
  const BANDS: nat := 4
  const BAND_BITS: nat := 16

  type FeatureHash = string -> nat

  // ---------- Features ----------

  /** Word n-gram shingles of an already normalized, lower-cased and split text. */
  function Features(words: seq<string>, shingleSize: nat): seq<string>
    requires shingleSize > 0
  {
    if words == [] then []
    else if |words| < shingleSize then [Text.Join(words, ' ')]
    else
      var count := |words| - shingleSize + 1;
      seq(count, i requires 0 <= i < count => Text.Join(words[i..i + shingleSize], ' '))
  }

  /** The features are the windows of `shingleSize` consecutive words, in order; a shorter text is one window. */
  lemma FeaturesAreWindows(words: seq<string>, shingleSize: nat)
    requires shingleSize > 0 && forall i :: 0 <= i < |words| ==> ' ' !in words[i]
    ensures var features := Features(words, shingleSize);
      && (words == [] ==> features == [])
      && (0 < |words| < shingleSize ==> |features| == 1 && Text.Split(features[0], ' ') == words)
      && (shingleSize <= |words| ==>
           && |features| == |words| - shingleSize + 1
           && forall i :: 0 <= i < |features| ==> Text.Split(features[i], ' ') == words[i..i + shingleSize])
  {
    var features := Features(words, shingleSize);
    if 0 < |words| < shingleSize {
      Text.SplitAfterJoin(words, ' ');
    }
    if shingleSize <= |words| {
      forall i | 0 <= i < |features| ensures Text.Split(features[i], ' ') == words[i..i + shingleSize] {
        Text.SplitAfterJoin(words[i..i + shingleSize], ' ');
      }
    }
  }

  /** Number of positions among the first `n` at which two lists differ. */
  function Mismatches(a: seq<string>, b: seq<string>, n: nat): nat
    requires n <= |a| == |b|
  {
    if n == 0 then 0 else Mismatches(a, b, n - 1) + (if a[n - 1] != b[n - 1] then 1 else 0)
  }

  /** Replacing the word at `p` leaves every shingle that does not cover `p` as it was. */
  lemma {:induction false} OneWordEdit(words: seq<string>, p: nat, word: string, shingleSize: nat, n: nat)
    requires shingleSize > 0 && p < |words|
    requires n <= |Features(words, shingleSize)|
    ensures |Features(words[p := word], shingleSize)| == |Features(words, shingleSize)|
    ensures var count := Mismatches(Features(words, shingleSize), Features(words[p := word], shingleSize), n);
            count <= shingleSize
            && (|words| >= shingleSize ==>
                 count <= if n > p then shingleSize else if n + shingleSize > p + 1 then n + shingleSize - p - 1 else 0)
  {
    if n > 0 {
      OneWordEdit(words, p, word, shingleSize, n - 1);
      var i := n - 1;
      if |words| >= shingleSize && !(i <= p < i + shingleSize) {
        assert words[p := word][i..i + shingleSize] == words[i..i + shingleSize];
      }
    }
  }

  // ---------- Votes ----------

  /** The signed tally for one bit position over the first `n` features. */
  function Votes(features: seq<string>, h: FeatureHash, bit: nat, n: nat): int
    requires n <= |features|
  {
    if n == 0 then 0 else Votes(features, h, bit, n - 1) + (if Bit(h(features[n - 1]), bit) then 1 else -1)
  }

  function Tally(features: seq<string>, h: FeatureHash, bit: nat): int {
    Votes(features, h, bit, |features|)
  }

  /** A 64-bit value whose bits are the majority verdicts of the features. */
  ghost predicate IsSimHash(value: nat, features: seq<string>, h: FeatureHash) {
    && value < Pow2(BITS)
    && forall bit: nat :: bit < BITS ==> (Bit(value, bit) <==> Tally(features, h, bit) > 0)
  }

  /** The voting loop, then one bit per positive counter. Empty text has no features and hashes to 0. */
  method SimHash64(words: seq<string>, h: FeatureHash, shingleSize: nat) returns (value: nat)
    requires shingleSize > 0
    ensures IsSimHash(value, Features(words, shingleSize), h)
    ensures words == [] ==> value == 0
  {
    var features := Features(words, shingleSize);
    if features == [] {
      forall bit: nat | bit < BITS ensures !Bit(0, bit) {
        BitOfSmall(bit);
      }
      LowBitsIsModulo(0, BITS);
      return 0;
    }
    var votes := new int[64](_ => 0);
    for f := 0 to |features|
      invariant votes.Length == BITS
      invariant forall b :: 0 <= b < BITS ==> votes[b] == Votes(features, h, b, f)
    {
      var hash := h(features[f]);
      for bit := 0 to BITS
        invariant forall b :: 0 <= b < bit ==> votes[b] == Votes(features, h, b, f + 1)
        invariant forall b :: bit <= b < BITS ==> votes[b] == Votes(features, h, b, f)
      {
        votes[bit] := votes[bit] + (if Bit(hash, bit) then 1 else -1);
      }
    }
    value := 0;
    for bit := 0 to BITS
      invariant forall b :: 0 <= b < BITS ==> votes[b] == Tally(features, h, b)
      invariant value < Pow2(bit)
      invariant forall b: nat :: b < bit ==> (Bit(value, b) <==> Tally(features, h, b) > 0)
    {
      forall b: nat | b <= bit ensures Bit(value + Pow2(bit), b) == (b == bit || Bit(value, b)) {
        SetNextBit(value, bit, b);
      }
      SetNextBit(value, bit, bit);
      assert !Bit(value, bit) && Pow2(bit + 1) == 2 * Pow2(bit);
      if votes[bit] > 0 {
        value := value + Pow2(bit);
      }
    }
  }

  /** The features among the first `n` whose hash has the bit as a binary digit. */
  ghost function Supporters(features: seq<string>, h: FeatureHash, bit: nat, n: nat): set<int>
    requires n <= |features|
  {
    set i | 0 <= i < n && h(features[i]) / Pow2(bit) % 2 == 1
  }

  /** The bits of the hash are strict majorities: set when more than half of the features have the bit. */
  lemma HashIsMajority(value: nat, features: seq<string>, h: FeatureHash, bit: nat)
    requires IsSimHash(value, features, h) && bit < BITS
    ensures value / Pow2(bit) % 2 == 1 <==> 2 * |Supporters(features, h, bit, |features|)| > |features|
  {
    hide Bit, Pow2, Votes, Supporters;
    BitIsDigit(value, bit);
    VotesCount(features, h, bit, |features|);
  }

  lemma {:induction false} VotesCount(features: seq<string>, h: FeatureHash, bit: nat, n: nat)
    requires n <= |features|
    ensures Votes(features, h, bit, n) == 2 * |Supporters(features, h, bit, n)| - n
  {
    hide Bit, Pow2;
    if n == 0 {
      assert Supporters(features, h, bit, n) == {};
    } else {
      VotesCount(features, h, bit, n - 1);
      BitIsDigit(h(features[n - 1]), bit);
      var before := Supporters(features, h, bit, n - 1);
      assert Supporters(features, h, bit, n) == if Bit(h(features[n - 1]), bit) then before + {n - 1} else before;
    }
  }

  lemma {:induction false} VotesDrift(a: seq<string>, b: seq<string>, h: FeatureHash, bit: nat, n: nat)
    requires n <= |a| == |b|
    ensures -2 * Mismatches(a, b, n) <= Votes(a, h, bit, n) - Votes(b, h, bit, n) <= 2 * Mismatches(a, b, n)
  {
    if n > 0 {
      VotesDrift(a, b, h, bit, n - 1);
    }
  }

  /** Number of bits among the first `n` whose tally is close enough to the threshold for `k` changes to flip it. */
  function Fragile(features: seq<string>, h: FeatureHash, k: nat, n: nat): nat {
    if n == 0 then 0
    else Fragile(features, h, k, n - 1) + (if -2 * k < Tally(features, h, n - 1) <= 2 * k then 1 else 0)
  }

  lemma {:induction false} FragileCoversFlips(
      a: seq<string>, b: seq<string>, h: FeatureHash, k: nat, x: nat, y: nat, n: nat)
    requires |a| == |b| && Mismatches(a, b, |a|) <= k
    requires IsSimHash(x, a, h) && IsSimHash(y, b, h) && n <= BITS
    ensures Differing(x, y, 0, n) <= Fragile(a, h, k, n)
  {
    if n > 0 {
      FragileCoversFlips(a, b, h, k, x, y, n - 1);
      VotesDrift(a, b, h, n - 1, |a|);
    }
  }

  function Hamming(a: int, b: int): nat {
    Differing(a, b, 0, BITS)
  }

  /** Locality: changing at most `k` features flips at most the bits whose tally lies in (-2k, 2k]. */
  lemma Locality(a: seq<string>, b: seq<string>, h: FeatureHash, k: nat, x: nat, y: nat)
    requires |a| == |b| && Mismatches(a, b, |a|) <= k
    requires IsSimHash(x, a, h) && IsSimHash(y, b, h)
    ensures Hamming(x, y) <= Fragile(a, h, k, BITS)
  {
    FragileCoversFlips(a, b, h, k, x, y, BITS);
  }

  /** Replacing any one word of a text moves its hash by at most the bits that two shingles can flip. */
  lemma OneWordLocality(words: seq<string>, p: nat, word: string, h: FeatureHash, x: nat, y: nat)
    requires p < |words|
    requires IsSimHash(x, Features(words, 2), h) && IsSimHash(y, Features(words[p := word], 2), h)
    ensures Hamming(x, y) <= Fragile(Features(words, 2), h, 2, BITS)
  {
    OneWordEdit(words, p, word, 2, |Features(words, 2)|);
    Locality(Features(words, 2), Features(words[p := word], 2), h, 2, x, y);
  }

  // ---------- Bands and storage ----------

  function Band(value: int, i: nat): nat {
    LowBits(ShiftRight(value, i * BAND_BITS), BAND_BITS)
  }

  function ToUnsigned64(value: int): nat {
    LowBits(value, BITS)
  }

  function ToSigned64(value: int): int {
    var unsigned := LowBits(value, BITS);
    if unsigned >= Pow2(BITS - 1) then unsigned - Pow2(BITS) else unsigned
  }

  ghost function Digit(value: int, i: nat): int {
    value / Pow2(i * 16) % 65536
  }

  /** Band `i` is the `i`-th 16-bit digit, the lowest first. */
  lemma BandIsDigit(value: int, i: nat)
    ensures Band(value, i) == Digit(value, i)
  {
    SixteenBits();
    ShiftIsDivision(value, i * BAND_BITS);
    LowBitsIsModulo(ShiftRight(value, i * BAND_BITS), BAND_BITS);
    hide Pow2, LowBits, ShiftRight;
  }

  lemma SixteenBits()
    ensures Pow2(16) == 65536
  {
    assert Pow2(4) == 16;
    assert Pow2(8) == 256;
    assert Pow2(12) == 4096;
  }

  /** A band is a window of 16 bits. */
  lemma BandsAgree(a: int, b: int, i: nat)
    ensures Band(a, i) == Band(b, i) <==> Differing(a, b, i * BAND_BITS, (i + 1) * BAND_BITS) == 0
  {
    hide LowBits, ShiftRight, Differing;
    LowBitsAgree(ShiftRight(a, i * BAND_BITS), ShiftRight(b, i * BAND_BITS), BAND_BITS);
    DifferingShifted(a, b, i * BAND_BITS, 0, BAND_BITS);
  }

  /** Pigeonhole: two hashes at most three bits apart agree on one of the four bands. */
  lemma NearHashesShareABand(a: int, b: int)
    requires Hamming(a, b) <= BANDS - 1
    ensures exists i: nat :: i < BANDS && Band(a, i) == Band(b, i)
  {
    hide Differing, Band;
    DifferingSplits(a, b, 0, 16, 64);
    DifferingSplits(a, b, 16, 32, 64);
    DifferingSplits(a, b, 32, 48, 64);
    BandsAgree(a, b, 0);
    BandsAgree(a, b, 1);
    BandsAgree(a, b, 2);
    BandsAgree(a, b, 3);
  }

  /** The hash is a function of the features: nothing but the votes decides it. */
  lemma HashIsDetermined(features: seq<string>, h: FeatureHash, x: nat, y: nat)
    requires IsSimHash(x, features, h) && IsSimHash(y, features, h)
    ensures x == y
  {
    hide Pow2, LowBits;
    SameBits(features, h, x, y, BITS);
    LowBitsAgree(x, y, BITS);
    SmallLowBits(x, BITS);
    SmallLowBits(y, BITS);
  }

  lemma SmallLowBits(x: nat, n: nat)
    requires x < Pow2(n)
    ensures LowBits(x, n) == x
  {
    LowBitsIsModulo(x, n);
    WrapAround(x, Pow2(n));
  }

  lemma {:induction false} SameBits(features: seq<string>, h: FeatureHash, x: nat, y: nat, n: nat)
    requires IsSimHash(x, features, h) && IsSimHash(y, features, h) && n <= BITS
    ensures Differing(x, y, 0, n) == 0
  {
    if n > 0 {
      SameBits(features, h, x, y, n - 1);
    }
  }

  /**
   * Storage as a signed 64-bit integer loses nothing: reading back gives the hash, distances are the
   * same, and the arithmetic shift the index uses extracts the same bands.
   */
  lemma SignedStorageIsFaithful(u: nat, other: int, i: nat)
    requires u < Pow2(BITS) && i < BANDS
    ensures -(Pow2(BITS - 1) as int) <= ToSigned64(u) < Pow2(BITS - 1)
    ensures ToUnsigned64(ToSigned64(u)) == u
    ensures Hamming(other, ToSigned64(u)) == Hamming(other, u)
    ensures Band(ToSigned64(u), i) == Band(u, i)
  {
    hide Differing, Band, LowBits, Pow2;
    SignedForm(u, BITS);
    LowBitsAgree(ToSigned64(u), u, BITS);
    SameBitsSameDistance(other, ToSigned64(u), u, BITS);
    DifferingSplits(ToSigned64(u), u, 0, i * BAND_BITS, BITS);
    DifferingSplits(ToSigned64(u), u, i * BAND_BITS, (i + 1) * BAND_BITS, BITS);
    BandsAgree(ToSigned64(u), u, i);
  }

  lemma SignedForm(u: nat, n: nat)
    requires n > 0 && u < Pow2(n)
    ensures Pow2(n) == 2 * Pow2(n - 1)
    ensures LowBits(u, n) == u && LowBits(u - Pow2(n), n) == u
  {
    hide LowBits;
    LowBitsIsModulo(u, n);
    LowBitsIsModulo(u - Pow2(n), n);
    WrapAround(u, Pow2(n));
  }

  lemma WrapAround(u: nat, p: nat)
    requires u < p
    ensures (u - p) % p == u % p == u
  {
    DivisionIsUnique(u - p, p, -1, u);
  }

  /** Masking to 64 bits changes none of the four bands. */
  lemma MaskingKeepsBands(value: int, i: nat)
    requires i < BANDS
    ensures Band(ToUnsigned64(value), i) == Band(value, i)
  {
    hide Differing, Band, LowBits, Pow2;
    LowBitsIsModulo(value, BITS);
    SmallLowBits(ToUnsigned64(value), BITS);
    LowBitsAgree(ToUnsigned64(value), value, BITS);
    DifferingSplits(ToUnsigned64(value), value, 0, i * BAND_BITS, BITS);
    DifferingSplits(ToUnsigned64(value), value, i * BAND_BITS, (i + 1) * BAND_BITS, BITS);
    BandsAgree(ToUnsigned64(value), value, i);
  }

  /** Masking to 64 bits changes neither the distance to another hash nor the bands. */
  lemma UnsignedIsFaithful(value: int, other: int)
    ensures Hamming(other, ToUnsigned64(value)) == Hamming(other, value)
    ensures Hamming(ToUnsigned64(value), other) == Hamming(value, other)
  {
    hide Differing, LowBits, Pow2;
    LowBitsIsModulo(value, BITS);
    SmallLowBits(ToUnsigned64(value), BITS);
    LowBitsAgree(ToUnsigned64(value), value, BITS);
    SameBitsSameDistance(other, ToUnsigned64(value), value, BITS);
    DifferingSymmetric(other, value, BITS);
    DifferingSymmetric(other, ToUnsigned64(value), BITS);
  }

  lemma {:induction false} DifferingSymmetric(a: int, b: int, n: nat)
    ensures Differing(a, b, 0, n) == Differing(b, a, 0, n)
  {
    if n > 0 {
      DifferingSymmetric(a, b, n - 1);
    }
  }
}
