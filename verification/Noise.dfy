/** The deterministic noise generator of common/purecloak_prng.h.

    A `Word` is a C++ `uint32_t`: sums and products wrap modulo 2^32.  A C++ `int` seed or index reaches the
    generator through `static_cast<uint32_t>`, so both are modelled by their 32-bit words. */
module Noise {

  import opened Bits

  const WORD_COUNT: int := 0x1_0000_0000
  const OCCURRENCES: int := 0x100_0000
  const GOLDEN: Word := 0x9E3779B9

  type Word = x: int | 0 <= x < 0x1_0000_0000

  /** `static_cast<uint32_t>` of an integer of any width. */
  function ToWord(n: int): Word {
    n % WORD_COUNT
  }

  function Times(x: Word, factor: Word): Word {
    x * factor % WORD_COUNT
  }

  /** `x ^ (x >> k)`. */
  function XorShift(x: Word, k: nat): Word {
    XorShiftIsWord(x, k);
    Xor(x, Shr(x, k))
  }

  lemma XorShiftIsWord(x: Word, k: nat)
    ensures 0 <= Xor(x, Shr(x, k)) < WORD_COUNT
  {
    Pow2Of32();
    ShrBound(x, 32, k);
    XorBound(x, Shr(x, k), 32);
  }

  /** The two xor-shift and multiply rounds applied to `x`. */
  function Mix(x: Word): Word {
    var y := Times(XorShift(x, 16), 0x85EBCA6B);
    Times(XorShift(y, 13), 0xC2B2AE35)
  }

  /** The 32-bit word whose low byte becomes the noise value. */
  function MixedWord(seed: Word, index: Word): Word {
    Mix(ToWord(Times(seed, GOLDEN) + index))
  }

  function PureCloakNoise(seed: Word, index: Word): (noise: int)
    ensures -128 <= noise <= 127
  {
    MixedWord(seed, index) % 256 - 128
  }

  function PureCloakFloatNoise(seed: Word, index: Word): (noise: real) {
    PureCloakNoise(seed, index) as real / 256.0 * 0.0001
  }

  // --- The mixer is a bijection of the 32-bit words -------------------------------------------------

  function UndoXorShift13(x: Word): Word {
    XorShift(XorShift(x, 13), 26)
  }

  /** Undoes `Mix`: each multiplier is odd, so it has an inverse modulo 2^32, and each xor-shift is undone
      by xoring its shifted copies back in. */
  function Unmix(z: Word): Word {
    var y := UndoXorShift13(Times(z, 0x7ED1B41D));
    XorShift(Times(y, 0xA5CB9243), 16)
  }

  /** Multiplying by a factor and then by its inverse modulo 2^32 gives the word back. */
  lemma TimesInverse(x: Word, factor: Word, inverse: Word)
    requires factor * inverse % WORD_COUNT == 1
    ensures Times(Times(x, factor), inverse) == x
  {
    var q, k := x * factor / WORD_COUNT, factor * inverse / WORD_COUNT;
    assert x * factor == q * WORD_COUNT + Times(x, factor);
    calc {
      Times(x, factor) * inverse;
      (x * factor - q * WORD_COUNT) * inverse;
      x * (factor * inverse) - q * WORD_COUNT * inverse;
      x * (k * WORD_COUNT + 1) - q * WORD_COUNT * inverse;
      x + (x * k - q * inverse) * WORD_COUNT;
    }
    ModUnique(Times(x, factor) * inverse, x * k - q * inverse, x);
  }

  lemma ModUnique(n: int, q: int, r: Word)
    requires n == r + q * WORD_COUNT
    ensures n % WORD_COUNT == r
  {
  }

  /** Xor-shifting by `k` and then by `2 * k` adds only a copy shifted by `4 * k` to what one
      xor-shift by `k` did twice, so three xor-shifts undo one when the word has at most `4 * k` bits. */
  lemma XorShiftTwice(x: Word, k: nat)
    ensures XorShift(XorShift(x, k), k) == XorShift(x, 2 * k)
  {
    var s := Shr(x, k);
    ShrXor(x, s, k);
    ShrShr(x, k, k);
    XorAssociative(Xor(x, s), s, Shr(x, 2 * k));
    XorCancels(x, s);
  }

  lemma XorShiftVanishes(x: Word, k: nat)
    requires k >= 32
    ensures XorShift(x, k) == x
  {
    Pow2Of32();
    ShrBound(x, 32, k);
    XorSelf(x);
  }

  lemma XorShift16Inverse(x: Word)
    ensures XorShift(XorShift(x, 16), 16) == x
  {
    XorShiftTwice(x, 16);
    XorShiftVanishes(x, 32);
  }

  lemma XorShiftsCommute(x: Word, j: nat, k: nat)
    ensures XorShift(XorShift(x, j), k) == XorShift(XorShift(x, k), j)
  {
    var a, b, c := Shr(x, j), Shr(x, k), Shr(x, j + k);
    ShrXor(x, a, k);
    ShrShr(x, j, k);
    ShrXor(x, b, j);
    ShrShr(x, k, j);
    XorAssociative(x, a, Xor(b, c));
    XorAssociative(a, b, c);
    XorCommutes(a, b);
    XorAssociative(b, a, c);
    XorAssociative(x, b, Xor(a, c));
  }

  /** Three more xor-shifts, by 13, 26 and nothing, undo a xor-shift by 13. */
  lemma XorShift13Inverse(x: Word)
    ensures UndoXorShift13(XorShift(x, 13)) == x
    ensures XorShift(UndoXorShift13(x), 13) == x
  {
    XorShiftTwice(x, 13);
    XorShiftTwice(x, 26);
    XorShiftVanishes(x, 52);
    XorShiftsCommute(XorShift(x, 13), 26, 13);
    XorShiftsCommute(x, 26, 13);
  }

  lemma UnmixMix(x: Word)
    ensures Unmix(Mix(x)) == x
  {
    hide Times, XorShift;
    var a := XorShift(x, 16);
    var y := Times(a, 0x85EBCA6B);
    TimesInverse(XorShift(y, 13), 0xC2B2AE35, 0x7ED1B41D);
    XorShift13Inverse(y);
    TimesInverse(a, 0x85EBCA6B, 0xA5CB9243);
    XorShift16Inverse(x);
  }

  lemma MixUnmix(z: Word)
    ensures Mix(Unmix(z)) == z
  {
    hide Times, XorShift;
    var w := Times(z, 0x7ED1B41D);
    var y := UndoXorShift13(w);
    XorShift16Inverse(Times(y, 0xA5CB9243));
    TimesInverse(y, 0xA5CB9243, 0x85EBCA6B);
    XorShift13Inverse(w);
    TimesInverse(z, 0x7ED1B41D, 0xC2B2AE35);
  }

  /** The index at which the stream of `seed` takes the mixed value `z`. */
  function IndexOf(seed: Word, z: Word): Word {
    ToWord(Unmix(z) - Times(seed, GOLDEN))
  }

  /** For every seed, index |-> mixed word is a permutation of the 32-bit words. */
  lemma IndexPermutation(seed: Word, index: Word, z: Word)
    ensures MixedWord(seed, index) == z <==> index == IndexOf(seed, z)
  {
    hide Mix, Unmix, Times;
    UnmixMix(ToWord(Times(seed, GOLDEN) + index));
    MixUnmix(z);
  }

  /** The seed that makes the stream take the mixed value `z` at `index`. */
  function SeedOf(index: Word, z: Word): Word {
    Times(ToWord(Unmix(z) - index), 0x144CBC89)
  }

  /** For every index, seed |-> mixed word is a permutation of the 32-bit words: two seeds never agree
      on the mixed word of any index. */
  lemma SeedPermutation(seed: Word, index: Word, z: Word)
    ensures MixedWord(seed, index) == z <==> seed == SeedOf(index, z)
  {
    hide Mix, Unmix, Times;
    UnmixMix(ToWord(Times(seed, GOLDEN) + index));
    MixUnmix(z);
    TimesInverse(seed, GOLDEN, 0x144CBC89);
    TimesInverse(ToWord(Unmix(z) - index), 0x144CBC89, GOLDEN);
  }

  lemma ModShift(n: int, q: int)
    ensures (n + q * WORD_COUNT) % WORD_COUNT == n % WORD_COUNT
  {
  }

  /** Reducing a summand first does not change the wrapped sum. */
  lemma SumOfWords(a: int, b: int)
    ensures ToWord(ToWord(a) + b) == ToWord(a + b)
  {
    ModShift(ToWord(a) + b, a / WORD_COUNT);
  }

  lemma WordIsWord(x: Word)
    ensures ToWord(x) == x
  {
  }

  lemma WrappedSeedTimesGolden(n: int)
    ensures Times(ToWord(n), GOLDEN) == ToWord(n * GOLDEN)
  {
    ModShift(ToWord(n) * GOLDEN, n / WORD_COUNT * GOLDEN);
    assert n == ToWord(n) + n / WORD_COUNT * WORD_COUNT;
    assert n * GOLDEN == ToWord(n) * GOLDEN + n / WORD_COUNT * GOLDEN * WORD_COUNT;
  }

  /** Raising the seed by `d` shifts the whole stream by d * 0x9E3779B9. */
  lemma SeedShiftsStream(seed: Word, d: Word, index: Word)
    ensures var shifted := (index + d * 0x9E3779B9) % 0x1_0000_0000;
            && MixedWord(ToWord(seed + d), index) == MixedWord(seed, shifted)
            && PureCloakNoise(ToWord(seed + d), index) == PureCloakNoise(seed, shifted)
  {
    hide Mix, Times, ToWord;
    WrappedSeedTimesGolden(seed + d);
    SumOfWords((seed + d) * GOLDEN, index);
    var shifted := index + Times(d, GOLDEN);
    SumOfWords(shifted, Times(seed, GOLDEN));
    WordIsWord(seed);
    WordIsWord(d);
    WrappedSeedTimesGolden(seed);
    SumOfWords(seed * GOLDEN, shifted);
    WrappedSeedTimesGolden(d);
    SumOfWords(d * GOLDEN, seed * GOLDEN + index);
    assert ToWord(shifted) == (index + d * 0x9E3779B9) % 0x1_0000_0000 by { ShiftedIndex(d, index); }
  }

  lemma ShiftedIndex(d: Word, index: Word)
    ensures ToWord(index + Times(d, GOLDEN)) == (index + d * 0x9E3779B9) % 0x1_0000_0000
  {
    hide Times;
    assert Times(d, GOLDEN) == ToWord(d * GOLDEN) by { TimesMeaning(d); }
    SumOfWords(d * GOLDEN, index);
  }

  lemma TimesMeaning(d: Word)
    ensures Times(d, GOLDEN) == ToWord(d * GOLDEN)
  {
  }

  // --- Every noise value occurs exactly 2^24 times per seed -----------------------------------------

  /** The indices at which `seed` yields `value`. */
  ghost function Occurrences(seed: Word, value: int): set<Word> {
    set n: Word | 0 <= n < WORD_COUNT && PureCloakNoise(seed, n) == value
  }

  /** The index whose mixed word has `k` as its upper 24 bits and yields `value`. */
  ghost function Occurrence(seed: Word, value: int, k: int): Word
    requires -128 <= value <= 127 && 0 <= k < OCCURRENCES
  {
    IndexOf(seed, 256 * k + value + 128)
  }

  lemma OccurrenceIsOne(seed: Word, value: int, k: int)
    requires -128 <= value <= 127 && 0 <= k < OCCURRENCES
    ensures Occurrence(seed, value, k) in Occurrences(seed, value)
    ensures MixedWord(seed, Occurrence(seed, value, k)) / 256 == k
  {
    hide MixedWord, IndexOf;
    IndexPermutation(seed, Occurrence(seed, value, k), 256 * k + value + 128);
  }

  /** The indices that yield `value` are exactly the occurrences listed for it. */
  lemma EveryOccurrence(seed: Word, value: int, n: Word)
    requires -128 <= value <= 127
    ensures n in Occurrences(seed, value) <==>
            exists k :: 0 <= k < OCCURRENCES && Occurrence(seed, value, k) == n
    ensures n in Occurrences(seed, value) ==>
              var k := MixedWord(seed, n) / 256; 0 <= k < OCCURRENCES && Occurrence(seed, value, k) == n
  {
    hide MixedWord, IndexOf;
    if n in Occurrences(seed, value) {
      var z := MixedWord(seed, n);
      assert z == 256 * (z / 256) + value + 128;
      IndexPermutation(seed, n, z);
      assert Occurrence(seed, value, z / 256) == n;
    } else {
      hide Occurrence;
      forall k | 0 <= k < OCCURRENCES
        ensures Occurrence(seed, value, k) != n
      {
        OccurrenceIsOne(seed, value, k);
      }
    }
  }

  /** A set enumerated without repetition by 0..m has m elements. */
  lemma {:induction false} EnumeratedCardinality(s: set<Word>, f: int -> Word, m: nat)
    requires forall k :: 0 <= k < m ==> f(k) in s
    requires forall i, j :: 0 <= i < m && 0 <= j < m && f(i) == f(j) ==> i == j
    requires forall n :: n in s ==> exists k :: 0 <= k < m && f(k) == n
    ensures |s| == m
  {
    if m == 0 {
      assert s == {};
    } else {
      var rest := s - {f(m - 1)};
      forall n | n in rest ensures exists k :: 0 <= k < m - 1 && f(k) == n {
        var k :| 0 <= k < m && f(k) == n;
        assert k != m - 1;
      }
      EnumeratedCardinality(rest, f, m - 1);
    }
  }

  lemma NoOtherValue(seed: Word, value: int)
    requires !(-128 <= value <= 127)
    ensures Occurrences(seed, value) == {}
  {
    hide MixedWord;
  }

  /** Each of the 256 values in [-128, 127] occurs at exactly 2^24 of the 2^32 indices, for every seed;
      no other value ever occurs. */
  lemma UniformNoise(seed: Word, value: int)
    ensures |Occurrences(seed, value)| == if -128 <= value <= 127 then 0x100_0000 else 0
  {
    hide MixedWord, IndexOf, PureCloakNoise, Occurrence, Occurrences;
    if -128 <= value <= 127 {
      var f: int -> Word := (k: int) => if 0 <= k < OCCURRENCES then Occurrence(seed, value, k) else 0;
      forall k | 0 <= k < OCCURRENCES
        ensures f(k) in Occurrences(seed, value) && MixedWord(seed, f(k)) / 256 == k
      {
        OccurrenceIsOne(seed, value, k);
      }
      forall n | n in Occurrences(seed, value) ensures exists k :: 0 <= k < OCCURRENCES && f(k) == n {
        EveryOccurrence(seed, value, n);
        assert f(MixedWord(seed, n) / 256) == n;
      }
      EnumeratedCardinality(Occurrences(seed, value), f, OCCURRENCES);
    } else {
      NoOtherValue(seed, value);
    }
  }

  /** A float noise sample is the integer noise in steps of 0.0001 / 256.  It stays within half of the documented bound
      of 0.0001, reaches the lower end exactly at the noise -128, and is zero exactly when the integer noise is. */
  lemma FloatNoiseBounds(seed: Word, index: Word)
    ensures -0.00005 <= PureCloakFloatNoise(seed, index) < 0.00005
    ensures PureCloakFloatNoise(seed, index) == -0.00005 <==> PureCloakNoise(seed, index) == -128
    ensures PureCloakFloatNoise(seed, index) == 0.0 <==> PureCloakNoise(seed, index) == 0
    ensures PureCloakFloatNoise(seed, index) * 2560000.0 == PureCloakNoise(seed, index) as real
  {
  }
}
